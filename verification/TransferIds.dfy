/** The 16-byte transfer ids of `transfer_id.cpp` and their text form (section 3 of RFC 4122). */
module TransferIds {
  import opened Bytes
  import Hex

  type Id = s: seq<Byte> | |s| == 16 witness Zeros(16)

  // ---- Printing ------------------------------------------------------------

  /** 32 digits in groups of 8, 4, 4, 4 and 12. */
  function Layout(hex: string): (s: string)
    requires |hex| == 32
    ensures |s| == 36
  {
    hex[..8] + "-" + hex[8..12] + "-" + hex[12..16] + "-" + hex[16..20] + "-" + hex[20..]
  }

  function Canonical(id: Id): string {
    Layout(Hex.Text(id))
  }

  lemma {:induction false} TextOfConcat(a: seq<Byte>, b: seq<Byte>)
    ensures Hex.Text(a + b) == Hex.Text(a) + Hex.Text(b)
  {
    if a == [] {
      assert a + b == b;
    } else {
      assert (a + b)[1..] == a[1..] + b;
      TextOfConcat(a[1..], b);
    }
  }

  lemma TextOfOne(b: Byte)
    ensures Hex.Text([b]) == Hex.Pair(b)
  {
  }

  method AppendHex(text: string, bytes: array<Byte>, from: nat, to: nat) returns (s: string)
    requires from <= to <= bytes.Length
    ensures s == text + Hex.Text(bytes[from..to])
  {
    hide *;
    s := text;
    TextOfNothing();
    assert bytes[from..from] == [];
    for i := from to to
      invariant s == text + Hex.Text(bytes[from..i])
    {
      TextOfConcat(bytes[from..i], [bytes[i]]);
      TextOfOne(bytes[i]);
      assert bytes[from..i + 1] == bytes[from..i] + [bytes[i]];
      s := s + Hex.Pair(bytes[i]);
    }
  }

  lemma TextOfNothing()
    ensures Hex.Text([]) == []
  {
  }

  lemma Middle(a: string, b: string, c: string, from: nat, to: nat)
    requires from == |a| && to == |a| + |b|
    ensures (a + (b + c))[from..to] == b
  {
  }

  lemma ThreeParts(id: seq<Byte>, from: nat, to: nat)
    requires from <= to <= |id|
    ensures id == id[..from] + (id[from..to] + id[to..])
  {
  }

  lemma TextSlice(id: seq<Byte>, from: nat, to: nat)
    requires from <= to <= |id|
    ensures Hex.Text(id)[2 * from..2 * to] == Hex.Text(id[from..to])
  {
    hide *;
    var a, b, c := id[..from], id[from..to], id[to..];
    ThreeParts(id, from, to);
    TextOfConcat(a, b + c);
    TextOfConcat(b, c);
    Middle(Hex.Text(a), Hex.Text(b), Hex.Text(c), 2 * from, 2 * to);
  }

  /** `to_string` */
  method ToString(bytes: array<Byte>) returns (s: string)
    requires bytes.Length == 16
    ensures s == Canonical(bytes[..])
  {
    hide Hex.Text;
    s := AppendHex("", bytes, 0, 4);
    s := AppendHex(s + "-", bytes, 4, 6);
    s := AppendHex(s + "-", bytes, 6, 8);
    s := AppendHex(s + "-", bytes, 8, 10);
    s := AppendHex(s + "-", bytes, 10, 16);
    TextSlice(bytes[..], 0, 4);
    TextSlice(bytes[..], 4, 6);
    TextSlice(bytes[..], 6, 8);
    TextSlice(bytes[..], 8, 10);
    TextSlice(bytes[..], 10, 16);
    assert bytes[..][0..4] == bytes[0..4] && bytes[..][4..6] == bytes[4..6] && bytes[..][6..8] == bytes[6..8];
    assert bytes[..][8..10] == bytes[8..10] && bytes[..][10..16] == bytes[10..16];
  }

  /** Where the digits of byte `i` stand. */
  function Place(i: nat): nat {
    2 * i + if i < 4 then 0 else if i < 6 then 1 else if i < 8 then 2 else if i < 10 then 3 else 4
  }

  lemma {:induction false} TextAt(bytes: seq<Byte>, i: nat)
    requires i < |bytes|
    ensures Hex.Text(bytes)[2 * i] == Hex.Pair(bytes[i])[0] && Hex.Text(bytes)[2 * i + 1] == Hex.Pair(bytes[i])[1]
  {
    hide Hex.Pair;
    if i > 0 {
      TextAt(bytes[1..], i - 1);
    }
  }

  /** The canonical text, place by place: dashes at 8, 13, 18 and 23, and two lower-case digits for each byte. */
  lemma CanonicalShape(id: Id)
    ensures var s := Canonical(id);
            && |s| == 36 && s[8] == s[13] == s[18] == s[23] == '-'
            && forall i :: 0 <= i < 16 ==>
                             s[Place(i)] == "0123456789abcdef"[id[i] as int / 16] &&
                             s[Place(i) + 1] == "0123456789abcdef"[id[i] as int % 16]
  {
    forall i | 0 <= i < 16
      ensures Canonical(id)[Place(i)] == "0123456789abcdef"[id[i] as int / 16]
      ensures Canonical(id)[Place(i) + 1] == "0123456789abcdef"[id[i] as int % 16]
    {
      TextAt(id, i);
      hide Hex.Text;
    }
    hide Hex.Text;
  }

  // ---- Reading -------------------------------------------------------------

  /** `std::isxdigit` */
  predicate IsHexDigit(c: char) {
    '0' <= c <= '9' || 'a' <= c <= 'f' || 'A' <= c <= 'F'
  }

  function DigitValue(c: char): (v: nat)
    requires IsHexDigit(c)
    ensures v < 16
  {
    if c <= '9' then c as int - '0' as int
    else if 'a' <= c then c as int - 'a' as int + 10
    else c as int - 'A' as int + 10
  }

  predicate AllHexDigits(s: string) {
    forall i :: 0 <= i < |s| ==> IsHexDigit(s[i])
  }

  /** The text without its dashes. */
  function Strip(s: string): (t: string) {
    if s == [] then [] else Strip(s[..|s| - 1]) + if s[|s| - 1] == '-' then [] else [s[|s| - 1]]
  }

  function ParsePairs(hex: string): (bytes: seq<Byte>)
    requires |hex| % 2 == 0 && AllHexDigits(hex)
    ensures |bytes| == |hex| / 2
  {
    if hex == [] then [] else [(16 * DigitValue(hex[0]) + DigitValue(hex[1])) as Byte] + ParsePairs(hex[2..])
  }

  function Parsed(s: string): Option<Id> {
    var hex := Strip(s);
    if AllHexDigits(hex) && |hex| == 32 then Some(ParsePairs(hex)) else None
  }

  lemma {:induction false} StripOfConcat(a: string, b: string)
    ensures Strip(a + b) == Strip(a) + Strip(b)
    decreases |b|
  {
    if b == [] {
      assert a + b == a;
    } else {
      assert (a + b)[..|a + b| - 1] == a + b[..|b| - 1];
      StripOfConcat(a, b[..|b| - 1]);
    }
  }

  /** A text is accepted exactly if 32 characters are left without the dashes, all of them hexadecimal digits. */
  lemma AcceptedIff(s: string)
    ensures Parsed(s).Some? <==>
            |Strip(s)| == 32 && forall i :: 0 <= i < 32 ==> Strip(s)[i] in "0123456789abcdefABCDEF"
  {
    hide Strip, ParsePairs;
    forall c: char
      ensures IsHexDigit(c) <==> c in "0123456789abcdefABCDEF"
    {
      HexDigitIff(c);
    }
  }

  lemma HexDigitIff(c: char)
    ensures IsHexDigit(c) <==> c in "0123456789abcdefABCDEF"
  {
  }

  /** Dashes are dropped, wherever they stand, and nothing else is. */
  lemma {:induction false} StripMeans(s: string, c: char)
    ensures Strip("") == "" && '-' !in Strip(s)
    ensures Strip(s + [c]) == if c == '-' then Strip(s) else Strip(s) + [c]
    decreases |s|
  {
    assert (s + [c])[..|s|] == s;
    if s != [] {
      StripMeans(s[..|s| - 1], s[|s| - 1]);
      assert s == s[..|s| - 1] + [s[|s| - 1]];
    }
  }

  lemma {:induction false} ParsedPairAt(hex: string, k: nat)
    requires |hex| % 2 == 0 && AllHexDigits(hex) && 2 * k + 1 < |hex|
    ensures ParsePairs(hex)[k] as int == 16 * DigitValue(hex[2 * k]) + DigitValue(hex[2 * k + 1])
  {
    hide DigitValue;
    if k > 0 {
      ParsedPairAt(hex[2..], k - 1);
    }
  }

  /** `from_string` */
  method FromString(str: string) returns (id: Option<Id>)
    ensures id == Parsed(str)
  {
    hide DigitValue, IsHexDigit;
    var hex := "";
    for i := 0 to |str|
      invariant hex == Strip(str[..i]) && AllHexDigits(hex)
    {
      assert str[..i + 1][..i] == str[..i];
      assert str == str[..i + 1] + str[i + 1..];
      if str[i] != '-' {
        if !IsHexDigit(str[i]) {
          StripOfConcat(str[..i + 1], str[i + 1..]);
          assert Strip(str)[|hex|] == str[i];
          return None;
        }
        hex := hex + [str[i]];
      }
    }
    assert str[..|str|] == str;
    if |hex| != 32 {
      return None;
    }
    var bytes: seq<Byte> := [];
    for i := 0 to 16
      invariant |bytes| == i && forall k :: 0 <= k < i ==> bytes[k] == ParsePairs(hex)[k]
    {
      ParsedPairAt(hex, i);
      bytes := bytes + [(16 * DigitValue(hex[2 * i]) + DigitValue(hex[2 * i + 1])) as Byte];
    }
    assert bytes == ParsePairs(hex);
    id := Some(bytes);
  }

  // ---- Round trips ---------------------------------------------------------

  lemma DigitFacts(n: nat)
    requires n < 16
    ensures IsHexDigit(Hex.DIGITS[n]) && DigitValue(Hex.DIGITS[n]) == n
  {
  }

  lemma PairIsDigits(b: Byte)
    ensures AllHexDigits(Hex.Pair(b))
    ensures var p := Hex.Pair(b); 16 * DigitValue(p[0]) + DigitValue(p[1]) == b as int
  {
    var n := b as int;
    DigitFacts(n / 16);
    DigitFacts(n % 16);
    hide IsHexDigit, DigitValue;
  }

  lemma ParseCons(pair: string, rest: string)
    requires |pair| == 2 && AllHexDigits(pair) && AllHexDigits(rest) && |rest| % 2 == 0
    ensures AllHexDigits(pair + rest)
    ensures ParsePairs(pair + rest) == [(16 * DigitValue(pair[0]) + DigitValue(pair[1])) as Byte] + ParsePairs(rest)
  {
    hide IsHexDigit, DigitValue;
    assert (pair + rest)[2..] == rest;
  }

  lemma {:induction false} TextIsDigits(bytes: seq<Byte>)
    ensures AllHexDigits(Hex.Text(bytes)) && ParsePairs(Hex.Text(bytes)) == bytes
  {
    if bytes == [] {
      TextOfNothing();
    } else {
      hide *;
      var b, rest := bytes[0], bytes[1..];
      assert bytes == [b] + rest;
      PairIsDigits(b);
      TextIsDigits(rest);
      TextOfCons(b, rest);
      ParseCons(Hex.Pair(b), Hex.Text(rest));
    }
  }

  lemma {:induction false} StripDigits(s: string)
    requires AllHexDigits(s)
    ensures Strip(s) == s
  {
    if s != [] {
      StripDigits(s[..|s| - 1]);
    }
  }

  lemma StripGroup(group: string, rest: string)
    requires AllHexDigits(group)
    ensures Strip(group + ("-" + rest)) == group + Strip(rest)
  {
    StripDigits(group);
    StripOfConcat(group, "-" + rest);
    StripOfConcat("-", rest);
    assert "-"[..0] == [] && Strip("-") == [];
  }

  lemma StripLayout(hex: string)
    requires |hex| == 32 && AllHexDigits(hex)
    ensures Strip(Layout(hex)) == hex
  {
    hide Strip, IsHexDigit;
    var r4 := hex[20..];
    var r3 := hex[16..20] + ("-" + r4);
    var r2 := hex[12..16] + ("-" + r3);
    var r1 := hex[8..12] + ("-" + r2);
    assert Layout(hex) == hex[..8] + ("-" + r1);
    StripGroup(hex[..8], r1);
    StripGroup(hex[8..12], r2);
    StripGroup(hex[12..16], r3);
    StripGroup(hex[16..20], r4);
    StripDigits(r4);
  }

  /** Reading back the text of an id returns the id. */
  lemma RoundTrip(id: Id)
    ensures Parsed(Canonical(id)) == Some(id)
  {
    hide Strip, ParsePairs, AllHexDigits;
    TextIsDigits(id);
    StripLayout(Hex.Text(id));
  }

  function Lower(c: char): char {
    if 'A' <= c <= 'F' then (c as int + 32) as char else c
  }

  function Lowered(s: string): (t: string)
    ensures |t| == |s| && forall i :: 0 <= i < |s| ==> t[i] == Lower(s[i])
  {
    seq(|s|, i requires 0 <= i < |s| => Lower(s[i]))
  }

  lemma LowerDigit(c: char)
    requires IsHexDigit(c)
    ensures Hex.DIGITS[DigitValue(c)] == Lower(c)
  {
  }

  lemma DivideSum(x: nat, y: nat)
    requires x < 16 && y < 16
    ensures (16 * x + y) / 16 == x && (16 * x + y) % 16 == y
  {
  }

  lemma PairOfDigits(x: nat, y: nat)
    requires x < 16 && y < 16
    ensures Hex.Pair((16 * x + y) as Byte) == [Hex.DIGITS[x], Hex.DIGITS[y]]
  {
    DivideSum(x, y);
  }

  lemma LoweredSplit(hex: string)
    requires |hex| >= 2
    ensures Lowered(hex) == [Lower(hex[0]), Lower(hex[1])] + Lowered(hex[2..])
  {
    hide Lower;
  }

  lemma TextOfCons(b: Byte, rest: seq<Byte>)
    ensures Hex.Text([b] + rest) == Hex.Pair(b) + Hex.Text(rest)
  {
  }

  lemma ParseNothing()
    ensures ParsePairs("") == [] && Lowered("") == ""
  {
  }

  /** The first two digits of a text, and what follows them. */
  lemma FirstPair(hex: string)
    requires |hex| >= 2 && |hex| % 2 == 0 && AllHexDigits(hex)
    ensures IsHexDigit(hex[0]) && IsHexDigit(hex[1])
    ensures |hex[2..]| % 2 == 0 && AllHexDigits(hex[2..])
    ensures ParsePairs(hex) == [(16 * DigitValue(hex[0]) + DigitValue(hex[1])) as Byte] + ParsePairs(hex[2..])
  {
    hide IsHexDigit, DigitValue;
  }

  /** What is read prints as the digits that were read, in lower case. */
  lemma {:induction false} TextOfParsed(hex: string)
    requires |hex| % 2 == 0 && AllHexDigits(hex)
    ensures Hex.Text(ParsePairs(hex)) == Lowered(hex)
  {
    hide *;
    if hex == [] {
      ParseNothing();
      TextOfNothing();
    } else {
      FirstPair(hex);
      LowerDigit(hex[0]);
      LowerDigit(hex[1]);
      PairOfDigits(DigitValue(hex[0]), DigitValue(hex[1]));
      TextOfParsed(hex[2..]);
      TextOfCons((16 * DigitValue(hex[0]) + DigitValue(hex[1])) as Byte, ParsePairs(hex[2..]));
      LoweredSplit(hex);
    }
  }

  /**
   Reading accepts more than the canonical text, and normalises it: printing
   what was read gives the canonical layout of the digits in lower case, and
   two accepted texts name the same id exactly if they differ only in letter
   case and in dashes.
   */
  lemma SameIdIff(s: string, t: string)
    requires Parsed(s).Some? && Parsed(t).Some?
    ensures Canonical(Parsed(s).value) == Layout(Lowered(Strip(s)))
    ensures Parsed(s) == Parsed(t) <==> Lowered(Strip(s)) == Lowered(Strip(t))
  {
    hide Strip, AllHexDigits, ParsePairs, Lowered;
    TextOfParsed(Strip(s));
    TextOfParsed(Strip(t));
    if Lowered(Strip(s)) == Lowered(Strip(t)) {
      Hex.TextInjective(Parsed(s).value, Parsed(t).value);
    }
  }

  // ---- Generating ----------------------------------------------------------

  const WORD := 0x1_0000_0000_0000_0000

  function Power256(i: nat): (p: nat)
    ensures p > 0
  {
    if i == 0 then 1 else 256 * Power256(i - 1)
  }

  /** Byte `i` of a 64-bit number, the least significant first. */
  function ByteOf(part: nat, i: nat): Byte {
    (part / Power256(i) % 256) as Byte
  }

  lemma DivideAgain(n: nat, d: nat)
    requires d > 0
    ensures n / d == 256 * (n / (256 * d)) + n / d % 256
  {
    var q, r := n / d, n % d;
    assert n == d * q + r && q == 256 * (q / 256) + q % 256;
    assert d * q == 256 * d * (q / 256) + d * (q % 256);
    MultiplyMonotone(d, q % 256, 255);
    assert d * (q % 256) >= 0;
    Remainder(n, 256 * d, q / 256, d * (q % 256) + r);
  }

  /** The number that the bytes from place `i` on stand for. */
  lemma BytesFrom(part: nat, i: nat)
    ensures part / Power256(i) == ByteOf(part, i) as int + 256 * (part / Power256(i + 1))
  {
    DivideAgain(part, Power256(i));
  }

  lemma FirstPowers()
    ensures Power256(0) == 1 && Power256(8) == WORD
  {
  }

  /** The eight bytes make up the number, the least significant first. */
  lemma BytesOfWord(part: nat)
    requires part < WORD
    ensures part == ByteOf(part, 0) as int + 256 * (ByteOf(part, 1) as int + 256 * (ByteOf(part, 2) as int +
                    256 * (ByteOf(part, 3) as int + 256 * (ByteOf(part, 4) as int + 256 * (ByteOf(part, 5) as int +
                    256 * (ByteOf(part, 6) as int + 256 * ByteOf(part, 7) as int))))))
  {
    FirstPowers();
    hide *;
    BytesFrom(part, 0);
    BytesFrom(part, 1);
    BytesFrom(part, 2);
    BytesFrom(part, 3);
    BytesFrom(part, 4);
    BytesFrom(part, 5);
    BytesFrom(part, 6);
    BytesFrom(part, 7);
    NothingLeft(part);
  }

  lemma NothingLeft(part: nat)
    requires part < WORD
    ensures part / Power256(8) == 0
  {
    FirstPowers();
  }

  /** A random id of version 4: the drawn bytes with six bits fixed. */
  ghost predicate IsRandomId(id: seq<Byte>, part1: nat, part2: nat) {
    && |id| == 16
    && (forall i :: 0 <= i < 8 && i != 6 ==> id[i] == ByteOf(part1, i))
    && (forall i :: 9 <= i < 16 ==> id[i] == ByteOf(part2, i - 8))
    && id[6] as int / 16 == 4 && id[6] % 16 == ByteOf(part1, 6) % 16
    && id[8] as int / 64 == 2 && id[8] % 64 == ByteOf(part2, 0) % 64
  }

  /** `generate`, given the two random numbers it draws. */
  method Generate(part1: nat, part2: nat) returns (bytes: array<Byte>)
    requires part1 < WORD && part2 < WORD
    ensures fresh(bytes) && IsRandomId(bytes[..], part1, part2)
  {
    hide ByteOf;
    bytes := new Byte[16];
    for i := 0 to 8
      invariant forall k :: 0 <= k < i ==> bytes[k] == ByteOf(part1, k) && bytes[k + 8] == ByteOf(part2, k)
    {
      bytes[i] := ByteOf(part1, i);
      bytes[i + 8] := ByteOf(part2, i);
    }
    assert bytes[8] == bytes[0 + 8];
    forall k | 9 <= k < 16
      ensures bytes[k] == ByteOf(part2, k - 8)
    {
      assert bytes[k] == bytes[(k - 8) + 8];
    }
    bytes[6] := bytes[6] % 16 + 0x40;
    bytes[8] := bytes[8] % 64 + 0x80;
  }

  /** The text of a generated id shows version 4 and the variant of RFC 4122. */
  lemma GeneratedText(id: Id, part1: nat, part2: nat)
    requires IsRandomId(id, part1, part2)
    ensures Canonical(id)[14] == '4' && Canonical(id)[19] in "89ab"
  {
    TextSlice(id, 6, 7);
    TextSlice(id, 8, 9);
    assert id[6..7] == [id[6]] && id[8..9] == [id[8]];
    TextOfOne(id[6]);
    TextOfOne(id[8]);
    assert Hex.Text(id)[12..14][0] == Hex.Text(id)[12] && Hex.Text(id)[16..18][0] == Hex.Text(id)[16];
    assert Canonical(id)[14] == Hex.Text(id)[12] && Canonical(id)[19] == Hex.Text(id)[16];
    assert id[8] as int / 16 == 8 || id[8] as int / 16 == 9 || id[8] as int / 16 == 10 || id[8] as int / 16 == 11;
  }
}
