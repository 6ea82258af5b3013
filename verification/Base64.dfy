/**
 The base64 codec of `cloud_utils.cpp` (section 4 of RFC 4648) and its URL
 variant (section 5). The reference is the bit string of the data; the
 decoder's 32-bit accumulator is related to it although it is never masked.
 */
module Base64 {
  import opened Bytes

  // ---- Numbers as bit strings, most significant bit first ------------------

  function Pow2(n: nat): (p: nat)
    ensures p > 0
  {
    if n == 0 then 1 else 2 * Pow2(n - 1)
  }

  function Bits(v: nat, width: nat): (b: seq<bool>)
    ensures |b| == width
    decreases width
  {
    if width == 0 then [] else Bits(v / 2, width - 1) + [v % 2 == 1]
  }

  function ValueOf(b: seq<bool>): nat {
    if b == [] then 0 else 2 * ValueOf(b[..|b| - 1]) + if b[|b| - 1] then 1 else 0
  }

  lemma {:induction false} ValueOfBits(v: nat, width: nat)
    requires v < Pow2(width)
    ensures ValueOf(Bits(v, width)) == v
  {
    if width > 0 {
      assert Bits(v, width)[..width - 1] == Bits(v / 2, width - 1);
      ValueOfBits(v / 2, width - 1);
    }
  }

  lemma {:induction false} ValueOfConcat(a: seq<bool>, b: seq<bool>)
    ensures ValueOf(a + b) == ValueOf(a) * Pow2(|b|) + ValueOf(b)
    ensures ValueOf(b) < Pow2(|b|)
    decreases |b|
  {
    if b == [] {
      assert a + b == a;
    } else {
      var b', last := b[..|b| - 1], b[|b| - 1];
      assert (a + b)[..|a + b| - 1] == a + b' && (a + b)[|a + b| - 1] == last;
      ValueOfConcat(a, b');
      DoubleProduct(ValueOf(a), Pow2(|b'|));
      assert ValueOf(a + b) == 2 * ValueOf(a + b') + if last then 1 else 0;
      assert ValueOf(b) == 2 * ValueOf(b') + if last then 1 else 0;
    }
  }

  lemma DoubleProduct(x: nat, p: nat)
    ensures 2 * (x * p) == x * (2 * p)
  {
  }

  lemma {:induction false} BitsConcat(x: nat, a: nat, y: nat, b: nat)
    requires y < Pow2(b)
    ensures Bits(x * Pow2(b) + y, a + b) == Bits(x, a) + Bits(y, b)
    decreases b
  {
    if b == 0 {
      assert x * Pow2(0) + 0 == x;
    } else {
      var p := Pow2(b - 1);
      DoubleProduct(x, p);
      var v := x * Pow2(b) + y;
      assert v == 2 * (x * p) + y;
      assert v / 2 == x * p + y / 2 && v % 2 == y % 2;
      BitsConcat(x, a, y / 2, b - 1);
      assert Bits(x, a) + Bits(y / 2, b - 1) + [y % 2 == 1] == Bits(x, a) + (Bits(y / 2, b - 1) + [y % 2 == 1]);
    }
  }

  lemma Powers()
    ensures Pow2(0) == 1 && Pow2(2) == 4 && Pow2(4) == 16 && Pow2(6) == 64 && Pow2(8) == 256
    ensures Pow2(10) == 1024 && Pow2(12) == 4096 && Pow2(16) == 65536 && Pow2(18) == 262144
  {
  }

  function BitsOfBytes(data: seq<Byte>): (b: seq<bool>)
    ensures |b| == 8 * |data|
  {
    if data == [] then [] else Bits(data[0] as nat, 8) + BitsOfBytes(data[1..])
  }

  function BitsOfSextets(s: seq<nat>): (b: seq<bool>)
    ensures |b| == 6 * |s|
  {
    if s == [] then [] else Bits(s[0], 6) + BitsOfSextets(s[1..])
  }

  function ByteOf(b: seq<bool>): Byte
    requires |b| == 8
  {
    ValueOfConcat([], b);
    Powers();
    ValueOf(b) as Byte
  }

  /** The bytes of a bit string; a last group of fewer than eight bits is dropped. */
  function Pack(b: seq<bool>): seq<Byte> {
    if |b| < 8 then [] else [ByteOf(b[..8])] + Pack(b[8..])
  }

  lemma {:induction false} PackAppend(full: seq<bool>, n: nat, rest: seq<bool>)
    requires |full| == 8 * n
    ensures Pack(full + rest) == Pack(full) + Pack(rest)
    decreases n
  {
    if n == 0 {
      assert full + rest == rest;
    } else {
      assert (full + rest)[..8] == full[..8] && (full + rest)[8..] == full[8..] + rest;
      PackAppend(full[8..], n - 1, rest);
    }
  }

  lemma {:induction false} PackOfBytes(data: seq<Byte>, rest: seq<bool>)
    requires |rest| < 8
    ensures Pack(BitsOfBytes(data) + rest) == data
  {
    hide Bits, ValueOf;
    var b := BitsOfBytes(data) + rest;
    if data == [] {
      assert b == rest;
    } else {
      assert b[..8] == Bits(data[0] as nat, 8) && b[8..] == BitsOfBytes(data[1..]) + rest;
      Powers();
      ValueOfBits(data[0] as nat, 8);
      PackOfBytes(data[1..], rest);
    }
  }

  lemma {:induction false} SextetBitsAppend(s: seq<nat>, v: nat)
    ensures BitsOfSextets(s + [v]) == BitsOfSextets(s) + Bits(v, 6)
  {
    if s == [] {
      assert s + [v] == [v];
      assert BitsOfSextets([v]) == Bits(v, 6) + BitsOfSextets([]);
    } else {
      assert (s + [v])[1..] == s[1..] + [v];
      SextetBitsAppend(s[1..], v);
    }
  }

  // ---- The alphabet --------------------------------------------------------

  /** `BASE64_CHARS[i]`: A-Z, a-z, 0-9, '+' and '/'. */
  function CharOf(i: nat): char
    requires i < 64
  {
    if i < 26 then ('A' as int + i) as char
    else if i < 52 then ('a' as int + (i - 26)) as char
    else if i < 62 then ('0' as int + (i - 52)) as char
    else if i == 62 then '+'
    else '/'
  }

  /** `BASE64_DECODE_TABLE`: the value of a character, -1 for characters outside the alphabet. */
  function DecodeValue(c: char): (v: int)
    ensures -1 <= v < 64
  {
    if 'A' <= c <= 'Z' then c as int - 'A' as int
    else if 'a' <= c <= 'z' then c as int - 'a' as int + 26
    else if '0' <= c <= '9' then c as int - '0' as int + 52
    else if c == '+' then 62
    else if c == '/' then 63
    else -1
  }

  lemma AlphabetValues(i: nat)
    requires i < 64
    ensures DecodeValue(CharOf(i)) == i
    ensures CharOf(i) != '=' && CharOf(i) != '-' && CharOf(i) != '_'
  {
  }

  /** The alphabet as table 1 of RFC 4648 lists it. */
  const ALPHABET := "ABCDEFGHIJKLMNOPQRSTUVWXYZ" + "abcdefghijklmnopqrstuvwxyz" + "0123456789+/"

  lemma UpperCase(i: nat)
    requires i < 26
    ensures "ABCDEFGHIJKLMNOPQRSTUVWXYZ"[i] as int == 'A' as int + i
  {
  }

  lemma LowerCase(i: nat)
    requires i < 26
    ensures "abcdefghijklmnopqrstuvwxyz"[i] as int == 'a' as int + i
  {
  }

  lemma DigitsAndSigns(i: nat)
    requires i < 12
    ensures i < 10 ==> "0123456789+/"[i] as int == '0' as int + i
    ensures "0123456789+/"[10] == '+' && "0123456789+/"[11] == '/'
  {
  }

  lemma ValueInverts(c: char)
    ensures 0 <= DecodeValue(c) ==> CharOf(DecodeValue(c)) == c
  {
  }

  lemma AlphabetAt(i: nat)
    requires i < 64
    ensures |ALPHABET| == 64 && CharOf(i) == ALPHABET[i]
  {
    if i < 26 {
      UpperCase(i);
    } else if i < 52 {
      LowerCase(i - 26);
    } else {
      DigitsAndSigns(i - 52);
    }
  }

  /** The characters stand where table 1 of RFC 4648 has them, and every other character has no value. */
  lemma AlphabetIsStandard(i: nat, c: char)
    requires i < 64
    ensures |ALPHABET| == 64 && CharOf(i) == ALPHABET[i]
    ensures 0 <= DecodeValue(c) ==> ALPHABET[DecodeValue(c)] == c
    ensures DecodeValue(c) == -1 <==> c !in ALPHABET
  {
    hide *;
    AlphabetAt(i);
    ValueInverts(c);
    if c in ALPHABET {
      var k :| 0 <= k < |ALPHABET| && ALPHABET[k] == c;
      AlphabetAt(k);
      AlphabetValues(k);
    }
    if 0 <= DecodeValue(c) {
      AlphabetAt(DecodeValue(c));
    }
  }

  // ---- The decoder ---------------------------------------------------------

  /** The values of the alphabet characters before the first '='; everything else is skipped. */
  function Sextets(text: string): (s: seq<nat>)
  {
    if text == [] || text[0] == '=' then []
    else if DecodeValue(text[0]) < 0 then Sextets(text[1..])
    else [DecodeValue(text[0])] + Sextets(text[1..])
  }

  /** What a decoder should return: the whole bytes of the bit string the characters stand for. */
  function Decoded(text: string): seq<Byte> {
    Pack(BitsOfSextets(Sextets(text)))
  }

  const INT_RANGE: nat := 0x1_0000_0000

  /** `bits << 6 | val` on 32 bits: the low six bits of the shifted word are zero, so `|` adds. */
  function PushSextet(bits: nat, v: nat): nat {
    (64 * bits + v) % INT_RANGE
  }

  lemma LowBitsSurviveWrap(bits: nat, v: nat, p: nat)
    requires v < 64 && (p == 1 || p == 4 || p == 16 || p == 64)
    ensures PushSextet(bits, v) % (64 * p) == 64 * (bits % p) + v
  {
    var m := if p == 1 then 67108864 else if p == 4 then 16777216 else if p == 16 then 4194304 else 1048576;
    assert INT_RANGE == 64 * p * m;
    var x := 64 * bits + v;
    var q, k := x / INT_RANGE, bits / p;
    assert x == INT_RANGE * q + PushSextet(bits, v);
    assert bits == p * k + bits % p;
    assert PushSextet(bits, v) == 64 * p * (k - m * q) + (64 * (bits % p) + v) by {
      if p == 1 { } else if p == 4 { } else if p == 16 { } else { }
    }
    Remainder(PushSextet(bits, v), 64 * p, k - m * q, 64 * (bits % p) + v);
  }

  /** Whatever garbage the unmasked high bits hold, the low bits are the bits not yet emitted. */
  lemma SextetPending(bits: nat, pending: seq<bool>, v: nat)
    requires v < 64 && |pending| in {0, 2, 4, 6} && bits % Pow2(|pending|) == ValueOf(pending)
    ensures PushSextet(bits, v) % Pow2(|pending| + 6) == ValueOf(pending + Bits(v, 6))
  {
    hide *;
    Powers();
    ValueOfConcat(pending, Bits(v, 6));
    ValueOfBits(v, 6);
    LowBitsSurviveWrap(bits, v, Pow2(|pending|));
  }

  lemma ByteOfPending(bits: nat, pending: seq<bool>)
    requires |pending| in {8, 10, 12} && bits % Pow2(|pending|) == ValueOf(pending)
    ensures (bits / Pow2(|pending| - 8)) % 256 == ByteOf(pending[..8]) as nat
    ensures bits % Pow2(|pending| - 8) == ValueOf(pending[8..])
  {
    Powers();
    assert pending == pending[..8] + pending[8..];
    ValueOfConcat(pending[..8], pending[8..]);
    ValueOfConcat([], pending[..8]);
    hide ValueOf;
    SplitWord(bits, Pow2(|pending| - 8), ValueOf(pending[..8]), ValueOf(pending[8..]));
  }

  lemma SplitWord(bits: nat, p: nat, high: nat, low: nat)
    requires p == 1 || p == 4 || p == 16
    requires high < 256 && low < p && bits % (256 * p) == high * p + low
    ensures (bits / p) % 256 == high && bits % p == low
  {
    var q := bits / (256 * p);
    if p == 1 {
    } else if p == 4 {
      Remainder(bits, 4, 256 * q + high, low);
    } else {
      Remainder(bits, 16, 256 * q + high, low);
    }
    Remainder(bits / p, 256, q, high);
  }

  /** `base64_decode` */
  method Decode(encoded: string) returns (result: seq<Byte>)
    ensures result == Decoded(encoded)
  {
    hide Pow2, ValueOf, Bits, BitsOfSextets, Pack, PushSextet, ByteOf;
    result := [];
    var bits: nat, bitCount: nat := 0, 0;
    ghost var seen: seq<nat>, full: seq<bool>, pending: seq<bool> := [], [], [];
    EmptyFacts();
    var i := 0;
    while i < |encoded|
      invariant 0 <= i <= |encoded|
      invariant seen + Sextets(encoded[i..]) == Sextets(encoded)
      invariant BitsOfSextets(seen) == full + pending
      invariant |full| == 8 * |result| && result == Pack(full)
      invariant |pending| == bitCount && bitCount in {0, 2, 4, 6}
      invariant bits % Pow2(bitCount) == ValueOf(pending)
    {
      var c := encoded[i];
      assert encoded[i..][1..] == encoded[i + 1..];
      if c == '=' {
        break;
      }
      var val := DecodeValue(c);
      i := i + 1;
      if val < 0 {
        continue;
      }
      SextetPending(bits, pending, val);
      SextetBitsAppend(seen, val);
      seen := seen + [val];
      pending := pending + Bits(val, 6);
      assert BitsOfSextets(seen) == full + pending;
      bits := PushSextet(bits, val);
      bitCount := bitCount + 6;
      if bitCount >= 8 {
        bitCount := bitCount - 8;
        ByteOfPending(bits, pending);
        PackOneMore(full, |result|, pending[..8]);
        assert full + pending == (full + pending[..8]) + pending[8..];
        result := result + [((bits / Pow2(bitCount)) % 256) as Byte];
        full, pending := full + pending[..8], pending[8..];
      }
    }
    assert seen == Sextets(encoded);
    PackAppend(full, |result|, pending);
    PackShort(pending);
  }

  lemma EmptyFacts()
    ensures BitsOfSextets([]) == [] && Pack([]) == [] && Pow2(0) == 1 && ValueOf([]) == 0
  {
  }

  lemma PackShort(b: seq<bool>)
    requires |b| < 8
    ensures Pack(b) == []
  {
  }

  lemma PackOneMore(full: seq<bool>, n: nat, eight: seq<bool>)
    requires |full| == 8 * n && |eight| == 8
    ensures Pack(full + eight) == Pack(full) + [ByteOf(eight)]
  {
    PackAppend(full, n, eight);
    assert eight[..8] == eight && eight[8..] == [];
  }

  lemma {:induction false} SextetsConcat(a: string, b: string)
    requires '=' !in a
    ensures Sextets(a + b) == Sextets(a) + Sextets(b)
  {
    if a == [] {
      assert a + b == b;
    } else {
      assert (a + b)[1..] == a[1..] + b;
      SextetsConcat(a[1..], b);
    }
  }

  lemma {:induction false} SextetsStopAtPad(a: string, b: string)
    requires '=' in a
    ensures Sextets(a + b) == Sextets(a)
  {
    if a[0] != '=' {
      assert (a + b)[1..] == a[1..] + b;
      SextetsStopAtPad(a[1..], b);
    }
  }

  /** Characters outside the alphabet, other than '=', never change the result, wherever they stand. */
  lemma NoiseIsSkipped(a: string, c: char, b: string)
    requires DecodeValue(c) < 0 && c != '='
    ensures Decoded(a + [c] + b) == Decoded(a + b)
  {
    hide Pack, BitsOfSextets;
    if '=' in a {
      assert a + [c] + b == a + ([c] + b);
      SextetsStopAtPad(a, [c] + b);
      SextetsStopAtPad(a, b);
    } else {
      SextetsConcat(a, [c]);
      SextetsConcat(a, b);
      assert '=' !in a + [c];
      SextetsConcat(a + [c], b);
      assert [c][1..] == [] && Sextets([c]) == [];
      assert Sextets(a) + [] == Sextets(a);
    }
  }

  // ---- The encoder ---------------------------------------------------------

  /** The character for the six bits of `n` from the place `w` on. */
  function Digit(n: nat, w: nat): char
    requires w > 0
  {
    CharOf(n / w % 64)
  }

  /** The first three bytes as one 24-bit word, zeros in place of missing bytes. */
  function Word24(d: seq<Byte>): nat
    requires d != []
  {
    d[0] as nat * 65536 + (if |d| > 1 then d[1] as nat * 256 else 0) + (if |d| > 2 then d[2] as nat else 0)
  }

  function EncodeGroup(d: seq<Byte>): (s: string)
    requires d != []
    ensures |s| == 4
  {
    var n := Word24(d);
    [Digit(n, 262144), Digit(n, 4096), if |d| > 1 then Digit(n, 64) else '=', if |d| > 2 then Digit(n, 1) else '=']
  }

  function Encoded(d: seq<Byte>): string
    decreases |d|
  {
    if d == [] then "" else EncodeGroup(d) + Encoded(if |d| > 3 then d[3..] else [])
  }

  /** One pass of the encoder loop. */
  method EncodeStep(data: seq<Byte>, i: nat, result: string) returns (longer: string)
    requires i < |data|
    ensures longer == result + EncodeGroup(data[i..])
  {
    hide Digit;
    var n := data[i] as nat * 65536;
    if i + 1 < |data| {
      n := n + data[i + 1] as nat * 256;
    }
    if i + 2 < |data| {
      n := n + data[i + 2] as nat;
    }
    assert n == Word24(data[i..]);
    hide *;
    longer := result + [Digit(n, 262144)];
    longer := longer + [Digit(n, 4096)];
    longer := longer + [if i + 1 < |data| then Digit(n, 64) else '='];
    longer := longer + [if i + 2 < |data| then Digit(n, 1) else '='];
    EncodeGroupDefinition(data[i..]);
  }

  lemma EncodeGroupDefinition(d: seq<Byte>)
    requires d != []
    ensures var n := Word24(d);
            EncodeGroup(d) == [Digit(n, 262144), Digit(n, 4096), if |d| > 1 then Digit(n, 64) else '=',
                               if |d| > 2 then Digit(n, 1) else '=']
  {
    hide Digit, Word24;
  }

  /** `base64_encode` */
  method Encode(data: seq<Byte>) returns (result: string)
    ensures result == Encoded(data)
  {
    hide EncodeGroup;
    result := "";
    var i := 0;
    while i < |data|
      invariant 0 <= i
      invariant result + Encoded(if i < |data| then data[i..] else []) == Encoded(data)
    {
      ghost var rest := data[i..];
      assert |rest| > 3 ==> rest[3..] == data[i + 3..];
      result := EncodeStep(data, i, result);
      i := i + 3;
    }
  }

  // ---- Round trip ----------------------------------------------------------

  lemma DigitValue(n: nat, w: nat)
    requires w > 0
    ensures DecodeValue(Digit(n, w)) == n / w % 64
    ensures Digit(n, w) != '='
  {
    AlphabetValues(n / w % 64);
  }

  /** The four sextets of a 24-bit word have the word's bits. */
  lemma SextetsOfWord(n: nat)
    requires n < 16777216
    ensures Bits(n / 262144 % 64, 6) + Bits(n / 4096 % 64, 6) + Bits(n / 64 % 64, 6) + Bits(n / 1 % 64, 6)
            == Bits(n, 24)
  {
    Powers();
    hide Bits, Pow2;
    var a, b, c, d := n / 262144, n / 4096 % 64, n / 64 % 64, n % 64;
    WordSplits(n);
    var ab, abc := a * 64 + b, (a * 64 + b) * 64 + c;
    BitsConcat(a, 6, b, 6);
    BitsConcat(ab, 12, c, 6);
    BitsConcat(abc, 18, d, 6);
  }

  lemma WordSplits(n: nat)
    requires n < 16777216
    ensures n / 262144 % 64 == n / 262144
    ensures n == ((n / 262144 * 64 + n / 4096 % 64) * 64 + n / 64 % 64) * 64 + n % 64
  {
    var a := n / 64;
    var b := a / 64;
    var c := b / 64;
    Remainder(n, 4096, b, 64 * (a % 64) + n % 64);
    Remainder(n, 262144, c, 4096 * (b % 64) + 64 * (a % 64) + n % 64);
  }

  lemma BytesOfWord(x: nat, y: nat, z: nat)
    requires x < 256 && y < 256 && z < 256
    ensures Bits(x, 8) + Bits(y, 8) + Bits(z, 8) == Bits(x * 65536 + y * 256 + z, 24)
  {
    Powers();
    hide Bits, Pow2;
    var xy := x * 256 + y;
    BitsConcat(x, 8, y, 8);
    BitsConcat(xy, 16, z, 8);
  }

  lemma {:induction false} BitsOfConcatenated(a: seq<nat>, b: seq<nat>)
    ensures BitsOfSextets(a + b) == BitsOfSextets(a) + BitsOfSextets(b)
  {
    hide Bits;
    if a == [] {
      assert a + b == b;
    } else {
      assert (a + b)[1..] == a[1..] + b;
      BitsOfConcatenated(a[1..], b);
    }
  }

  lemma BitsOfFour(s: seq<nat>)
    requires |s| == 4
    ensures BitsOfSextets(s) == Bits(s[0], 6) + Bits(s[1], 6) + Bits(s[2], 6) + Bits(s[3], 6)
  {
    hide Bits;
    assert BitsOfSextets(s) == Bits(s[0], 6) + BitsOfSextets(s[1..]);
    assert BitsOfSextets(s[1..]) == Bits(s[1], 6) + BitsOfSextets(s[2..]) by { assert s[1..][1..] == s[2..]; }
    assert BitsOfSextets(s[2..]) == Bits(s[2], 6) + BitsOfSextets(s[3..]) by { assert s[2..][1..] == s[3..]; }
    assert BitsOfSextets(s[3..]) == Bits(s[3], 6) + BitsOfSextets([]) by { assert s[3..][1..] == []; }
  }

  /** The padding bits: the encoder fills its last sextet with zeros. */
  function PadBits(length: nat): nat {
    if length % 3 == 0 then 0 else if length % 3 == 1 then 4 else 2
  }

  function Zeroes(n: nat): (z: seq<bool>)
    ensures |z| == n
  {
    seq(n, _ => false)
  }

  lemma {:induction false} BitsOfZero(n: nat)
    ensures Bits(0, n) == Zeroes(n)
  {
    if n > 0 {
      BitsOfZero(n - 1);
    }
  }

  function GroupSextets(d: seq<Byte>): (s: seq<nat>)
    requires d != []
  {
    var n := Word24(d);
    [n / 262144 % 64, n / 4096 % 64] + (if |d| > 1 then [n / 64 % 64] else []) + (if |d| > 2 then [n / 1 % 64] else [])
  }

  lemma SextetsOfGroup(d: seq<Byte>)
    requires d != []
    ensures Sextets(EncodeGroup(d)) == GroupSextets(d)
    ensures |d| >= 3 ==> '=' !in EncodeGroup(d)
  {
    hide Digit, DecodeValue, Word24;
    var n, g := Word24(d), EncodeGroup(d);
    DigitValue(n, 262144);
    DigitValue(n, 4096);
    DigitValue(n, 64);
    DigitValue(n, 1);
    assert Sextets(g) == [n / 262144 % 64] + Sextets(g[1..]);
    assert g[1..][1..] == g[2..] && g[2..][1..] == g[3..] && g[3..][1..] == [];
    assert Sextets(g[1..]) == [n / 4096 % 64] + Sextets(g[2..]);
    if |d| == 1 {
      assert g[2..][0] == '=' && Sextets(g[2..]) == [];
    } else {
      assert Sextets(g[2..]) == [n / 64 % 64] + Sextets(g[3..]);
      if |d| == 2 {
        assert g[3..][0] == '=' && Sextets(g[3..]) == [];
      } else {
        assert Sextets(g[3..]) == [n / 1 % 64] + Sextets([]);
      }
    }
  }

  lemma BitsOfByteGroup(d: seq<Byte>)
    requires 1 <= |d| <= 3
    ensures BitsOfBytes(d) == Bits(d[0] as nat, 8) + (if |d| > 1 then Bits(d[1] as nat, 8) else [])
                              + (if |d| > 2 then Bits(d[2] as nat, 8) else [])
  {
    hide Bits;
    if |d| > 1 {
      assert d[1..][1..] == d[2..];
      if |d| > 2 {
        assert d[2..][1..] == [];
      }
    }
  }

  lemma WordBelow(d: seq<Byte>)
    requires d != []
    ensures Word24(d) < 16777216
  {
  }

  /** The first two, three or four sextets of a word carry its first 12, 18 or 24 bits. */
  lemma LeadingSextets(n: nat)
    requires n < 16777216
    ensures BitsOfSextets([n / 262144 % 64, n / 4096 % 64]) == Bits(n, 24)[..12]
    ensures BitsOfSextets([n / 262144 % 64, n / 4096 % 64, n / 64 % 64]) == Bits(n, 24)[..18]
    ensures BitsOfSextets([n / 262144 % 64, n / 4096 % 64, n / 64 % 64, n / 1 % 64]) == Bits(n, 24)
  {
    SextetsOfWord(n);
    var s, t, u, v := n / 262144 % 64, n / 4096 % 64, n / 64 % 64, n / 1 % 64;
    LeadingSextetBits(s, t, u, v);
    hide Bits, BitsOfSextets;
    var all := Bits(s, 6) + Bits(t, 6) + Bits(u, 6) + Bits(v, 6);
    assert all[..12] == Bits(s, 6) + Bits(t, 6);
    assert all[..18] == Bits(s, 6) + Bits(t, 6) + Bits(u, 6);
  }

  lemma LeadingSextetBits(s: nat, t: nat, u: nat, v: nat)
    ensures BitsOfSextets([s, t]) == Bits(s, 6) + Bits(t, 6)
    ensures BitsOfSextets([s, t, u]) == Bits(s, 6) + Bits(t, 6) + Bits(u, 6)
    ensures BitsOfSextets([s, t, u, v]) == Bits(s, 6) + Bits(t, 6) + Bits(u, 6) + Bits(v, 6)
  {
    BitsOfFour([s, t, u, v]);
    SextetBitsAppend([s, t, u], v);
    SextetBitsAppend([s, t], u);
    SextetBitsAppend([s], t);
    SextetBitsAppend([], s);
    hide Bits;
    assert [s, t, u] + [v] == [s, t, u, v] && [s, t] + [u] == [s, t, u] && [s] + [t] == [s, t] && [] + [s] == [s];
  }

  lemma GroupSextetsByLength(d: seq<Byte>)
    requires 1 <= |d| <= 3
    ensures var n := Word24(d);
            && (|d| == 1 ==> GroupSextets(d) == [n / 262144 % 64, n / 4096 % 64])
            && (|d| == 2 ==> GroupSextets(d) == [n / 262144 % 64, n / 4096 % 64, n / 64 % 64])
            && (|d| == 3 ==> GroupSextets(d) == [n / 262144 % 64, n / 4096 % 64, n / 64 % 64, n / 1 % 64])
  {
    hide Word24;
  }

  lemma WordBits(d: seq<Byte>)
    requires 1 <= |d| <= 3
    ensures |d| == 1 ==> Bits(Word24(d), 24) == BitsOfBytes(d) + Zeroes(16)
    ensures |d| == 2 ==> Bits(Word24(d), 24) == BitsOfBytes(d) + Zeroes(8)
    ensures |d| == 3 ==> Bits(Word24(d), 24) == BitsOfBytes(d)
  {
    hide *;
    BitsOfByteGroup(d);
    BitsOfZero(8);
    WordValue(d);
    if |d| == 1 {
      BytesOfWord(d[0] as nat, 0, 0);
      ZeroesConcat(8, 8);
      var b, z := Bits(d[0] as nat, 8), Zeroes(8);
      assert b + z + z == b + (z + z);
    } else if |d| == 2 {
      BytesOfWord(d[0] as nat, d[1] as nat, 0);
    } else {
      BytesOfWord(d[0] as nat, d[1] as nat, d[2] as nat);
    }
  }

  lemma WordValue(d: seq<Byte>)
    requires 1 <= |d| <= 3
    ensures |d| == 1 ==> Word24(d) == d[0] as nat * 65536 + 0 * 256 + 0
    ensures |d| == 2 ==> Word24(d) == d[0] as nat * 65536 + d[1] as nat * 256 + 0
    ensures |d| == 3 ==> Word24(d) == d[0] as nat * 65536 + d[1] as nat * 256 + d[2] as nat
  {
  }

  lemma ZeroesConcat(m: nat, n: nat)
    ensures Zeroes(m) + Zeroes(n) == Zeroes(m + n)
    ensures forall k :: 0 <= k <= m ==> Zeroes(m)[..k] == Zeroes(k)
  {
  }

  lemma TakeInto(b: seq<bool>, z: seq<bool>, k: nat)
    requires k <= |z|
    ensures (b + z)[..|b| + k] == b + z[..k]
  {
  }

  lemma ZeroesPrefix(m: nat, k: nat)
    requires k <= m
    ensures Zeroes(m)[..k] == Zeroes(k)
  {
  }

  lemma GroupBitsOne(d: seq<Byte>)
    requires |d| == 1
    ensures BitsOfSextets(GroupSextets(d)) == BitsOfBytes(d) + Zeroes(4)
  {
    hide *;
    WordBelow(d);
    LeadingSextets(Word24(d));
    GroupSextetsByLength(d);
    WordBits(d);
    TakeInto(BitsOfBytes(d), Zeroes(16), 4);
    ZeroesPrefix(16, 4);
  }

  lemma GroupBitsTwo(d: seq<Byte>)
    requires |d| == 2
    ensures BitsOfSextets(GroupSextets(d)) == BitsOfBytes(d) + Zeroes(2)
  {
    hide *;
    WordBelow(d);
    LeadingSextets(Word24(d));
    GroupSextetsByLength(d);
    WordBits(d);
    TakeInto(BitsOfBytes(d), Zeroes(8), 2);
    ZeroesPrefix(8, 2);
  }

  lemma GroupBitsThree(d: seq<Byte>)
    requires |d| == 3
    ensures BitsOfSextets(GroupSextets(d)) == BitsOfBytes(d)
  {
    hide *;
    WordBelow(d);
    LeadingSextets(Word24(d));
    GroupSextetsByLength(d);
    WordBits(d);
  }

  /** The characters of one group carry the bits of its bytes, then zeros. */
  lemma GroupBits(d: seq<Byte>)
    requires 1 <= |d| <= 3
    ensures BitsOfSextets(GroupSextets(d)) == BitsOfBytes(d) + Zeroes(PadBits(|d|))
  {
    hide BitsOfSextets, BitsOfBytes, GroupSextets, Zeroes;
    if |d| == 1 {
      GroupBitsOne(d);
    } else if |d| == 2 {
      GroupBitsTwo(d);
    } else {
      GroupBitsThree(d);
      NoZeroes();
    }
  }

  lemma NoZeroes()
    ensures Zeroes(0) == []
  {
  }

  /** The encoded text stands for the bits of the data, padded with zeros to whole sextets. */
  lemma {:induction false} EncodedBits(d: seq<Byte>)
    ensures BitsOfSextets(Sextets(Encoded(d))) == BitsOfBytes(d) + Zeroes(PadBits(|d|))
    decreases |d|
  {
    hide Bits, EncodeGroup, GroupSextets, PadBits;
    if d == [] {
      assert PadBits(0) == 0 && Zeroes(0) == [] by { EmptyPad(); }
    } else if |d| <= 3 {
      assert Encoded([]) == "";
      assert EncodeGroup(d) + "" == EncodeGroup(d);
      SextetsOfGroup(d);
      GroupBits(d);
    } else {
      SplitGroup(d);
      SextetsOfGroup(d);
      SextetsConcat(EncodeGroup(d), Encoded(d[3..]));
      BitsOfConcatenated(GroupSextets(d), Sextets(Encoded(d[3..])));
      GroupBits(d[..3]);
      assert BitsOfBytes(d[..3]) + Zeroes(0) == BitsOfBytes(d[..3]);
      EncodedBits(d[3..]);
    }
  }

  lemma SplitGroup(d: seq<Byte>)
    requires |d| > 3
    ensures GroupSextets(d) == GroupSextets(d[..3])
    ensures BitsOfBytes(d) == BitsOfBytes(d[..3]) + BitsOfBytes(d[3..])
    ensures PadBits(|d|) == PadBits(|d[3..]|) && PadBits(3) == 0
  {
    SplitBytes(d[..3], d[3..]);
    assert d == d[..3] + d[3..];
    assert Word24(d) == Word24(d[..3]);
    hide *;
    GroupSextetsOfWord(d, d[..3]);
    PadBitsPeriodic(|d|);
  }

  lemma EmptyPad()
    ensures PadBits(0) == 0
  {
  }

  lemma GroupSextetsOfWord(a: seq<Byte>, b: seq<Byte>)
    requires |a| >= 3 && |b| >= 3 && Word24(a) == Word24(b)
    ensures GroupSextets(a) == GroupSextets(b)
  {
    hide Word24;
  }

  lemma PadBitsPeriodic(n: nat)
    requires n > 3
    ensures PadBits(n) == PadBits(n - 3) && PadBits(3) == 0
  {
  }

  lemma {:induction false} SplitBytes(a: seq<Byte>, b: seq<Byte>)
    ensures BitsOfBytes(a + b) == BitsOfBytes(a) + BitsOfBytes(b)
  {
    hide Bits;
    if a == [] {
      assert a + b == b;
    } else {
      assert (a + b)[1..] == a[1..] + b;
      SplitBytes(a[1..], b);
    }
  }

  /** Decoding undoes encoding, for every byte string. */
  lemma RoundTrip(d: seq<Byte>)
    ensures Decoded(Encoded(d)) == d
  {
    hide Pack, BitsOfSextets, BitsOfBytes, Encoded, Sextets;
    EncodedBits(d);
    PackOfBytes(d, Zeroes(PadBits(|d|)));
  }

  lemma EncodedInjective(a: seq<Byte>, b: seq<Byte>)
    requires Encoded(a) == Encoded(b)
    ensures a == b
  {
    hide Encoded, Decoded;
    RoundTrip(a);
    RoundTrip(b);
  }

  /** Four characters for every group of up to three bytes. */
  lemma {:induction false} EncodedLength(d: seq<Byte>)
    ensures |Encoded(d)| == 4 * ((|d| + 2) / 3)
    decreases |d|
  {
    hide EncodeGroup;
    if |d| > 3 {
      EncodedLength(d[3..]);
    } else if d != [] {
      assert Encoded([]) == "";
    }
  }

  // ---- The URL variant -----------------------------------------------------

  function UrlChar(c: char): char {
    if c == '+' then '-' else if c == '/' then '_' else c
  }

  function FromUrlChar(c: char): char {
    if c == '-' then '+' else if c == '_' then '/' else c
  }

  function Mapped(s: string, f: char -> char): (t: string)
    ensures |t| == |s| && forall i :: 0 <= i < |s| ==> t[i] == f(s[i])
  {
    seq(|s|, i requires 0 <= i < |s| => f(s[i]))
  }

  function Unpadded(s: string): (t: string)
    ensures |t| <= |s| && t == s[..|t|]
    ensures t == [] || t[|t| - 1] != '='
  {
    if s == [] || s[|s| - 1] != '=' then s else Unpadded(s[..|s| - 1])
  }

  /** `base64url_encode`: the string is edited in place, then the padding is popped. */
  method UrlEncode(data: seq<Byte>) returns (result: string)
    ensures result == Unpadded(Mapped(Encoded(data), UrlChar))
  {
    hide Encoded;
    result := Encode(data);
    ghost var text := result;
    for i := 0 to |result|
      invariant |result| == |text|
      invariant forall k :: 0 <= k < i ==> result[k] == UrlChar(text[k])
      invariant forall k :: i <= k < |text| ==> result[k] == text[k]
    {
      if result[i] == '+' {
        result := result[i := '-'];
      } else if result[i] == '/' {
        result := result[i := '_'];
      }
    }
    assert result == Mapped(text, UrlChar);
    while result != [] && result[|result| - 1] == '='
      invariant Unpadded(result) == Unpadded(Mapped(text, UrlChar))
    {
      result := result[..|result| - 1];
    }
  }

  lemma {:induction false} UnpaddingIsHarmless(s: string)
    ensures Sextets(Unpadded(s)) == Sextets(s)
    ensures forall i :: |Unpadded(s)| <= i < |s| ==> s[i] == '='
  {
    if s != [] && s[|s| - 1] == '=' {
      var u := s[..|s| - 1];
      assert s == u + "=";
      UnpaddingIsHarmless(u);
      if '=' in u {
        SextetsStopAtPad(u, "=");
      } else {
        SextetsConcat(u, "=");
      }
    }
  }

  lemma UnpaddedLength(s: string, t: string)
    requires |s| == |t| && forall i :: 0 <= i < |s| ==> (s[i] == '=' <==> t[i] == '=')
    ensures |Unpadded(s)| == |Unpadded(t)|
  {
    if s != [] && s[|s| - 1] == '=' {
      UnpaddedLength(s[..|s| - 1], t[..|t| - 1]);
    }
  }

  lemma {:induction false} EncodedAlphabet(d: seq<Byte>)
    ensures forall i :: 0 <= i < |Encoded(d)| ==> Encoded(d)[i] != '-' && Encoded(d)[i] != '_'
    decreases |d|
  {
    if d != [] {
      GroupAlphabet(d);
      hide EncodeGroup;
      EncodedAlphabet(if |d| > 3 then d[3..] else []);
    }
  }

  lemma {:induction false} PaddingIsTrailing(d: seq<Byte>)
    ensures forall i, j :: 0 <= i < j < |Encoded(d)| && Encoded(d)[i] == '=' ==> Encoded(d)[j] == '='
    decreases |d|
  {
    if d != [] {
      GroupPadding(d);
      hide EncodeGroup;
      if |d| > 3 {
        PaddingIsTrailing(d[3..]);
      } else {
        assert Encoded(d) == EncodeGroup(d);
      }
    }
  }

  lemma GroupPadding(d: seq<Byte>)
    requires d != []
    ensures var g := EncodeGroup(d);
            && (|d| >= 3 ==> forall i :: 0 <= i < 4 ==> g[i] != '=')
            && forall i, j :: 0 <= i < j < 4 && g[i] == '=' ==> g[j] == '='
  {
  }

  lemma GroupAlphabet(d: seq<Byte>)
    requires d != []
    ensures forall i :: 0 <= i < 4 ==> EncodeGroup(d)[i] != '-' && EncodeGroup(d)[i] != '_'
  {
  }

  /** The URL form has none of '+', '/' and '='; mapping it back and decoding gives the data, without padding. */
  lemma UrlRoundTrip(d: seq<Byte>)
    ensures var u := Unpadded(Mapped(Encoded(d), UrlChar));
            && Decoded(Mapped(u, FromUrlChar)) == d
            && forall i :: 0 <= i < |u| ==> u[i] != '+' && u[i] != '/' && u[i] != '='
  {
    hide Encoded, Pack, BitsOfSextets, Sextets;
    var text := Encoded(d);
    var mapped := Mapped(text, UrlChar);
    var u := Unpadded(mapped);
    EncodedAlphabet(d);
    UnpaddedLength(text, mapped);
    assert Mapped(u, FromUrlChar) == Unpadded(text);
    PaddingIsTrailing(d);
    UnpaddingIsHarmless(text);
    RoundTrip(d);
  }
}
