/**
 The CRC-32 of `checksum.cpp`: the lookup table, the byte loop, and the
 bit-serial division that both stand for (section 8 of RFC 1952).

 Word operations have names of their own, so that the proofs above the
 "Word facts" section reason about them as an algebra over GF(2).
 */
module Crc32 {
  import opened Bytes

  /** The reflected IEEE 802.3 polynomial. */
  const POLYNOMIAL: bv32 := 0xEDB88320

  const ALL_ONES: bv32 := 0xFFFF_FFFF

  const TOP_BIT: bv32 := 0x8000_0000

  function Xor(a: bv32, b: bv32): bv32 { a ^ b }

  function Half(c: bv32): bv32 { c >> 1 }

  predicate Odd(c: bv32) { c & 1 == 1 }

  function Widen(b: Byte): bv32 { Pattern(b) as bv32 }

  // ---- The reference: division one message bit at a time -------------------

  /** One step of the reflected division: shift out the low bit, subtract the divisor if it was set. */
  function Shift(c: bv32): bv32 {
    if Odd(c) then Xor(Half(c), POLYNOMIAL) else Half(c)
  }

  function BitValue(bit: bool): bv32 { if bit then 1 else 0 }

  /** The remainder register after feeding the message bits one by one. */
  function Divide(c: bv32, bits: seq<bool>): bv32
    decreases bits
  {
    if bits == [] then c else Divide(Shift(Xor(c, BitValue(bits[0]))), bits[1..])
  }

  /** The low `n` bits of a word, least significant first. */
  function LowBits(w: bv32, n: nat): (bits: seq<bool>)
    ensures |bits| == n
    decreases n
  {
    if n == 0 then [] else [Odd(w)] + LowBits(Half(w), n - 1)
  }

  /** The message bits in transmission order: bytes in sequence, least significant bit first. */
  function BitsOf(data: seq<Byte>): (bits: seq<bool>)
    ensures |bits| == 8 * |data|
  {
    if data == [] then [] else LowBits(Widen(data[0]), 8) + BitsOf(data[1..])
  }

  /** CRC-32 by definition: bit-serial division, the register inverted at both ends. */
  function Crc(data: seq<Byte>): bv32 {
    Xor(Divide(ALL_ONES, BitsOf(data)), ALL_ONES)
  }

  // ---- Word facts ----------------------------------------------------------

  lemma XorComm(a: bv32, b: bv32)
    ensures Xor(a, b) == Xor(b, a)
  {
  }

  lemma XorAssoc(a: bv32, b: bv32, c: bv32)
    ensures Xor(Xor(a, b), c) == Xor(a, Xor(b, c))
  {
  }

  lemma XorUnits(a: bv32)
    ensures Xor(a, a) == 0 && Xor(a, 0) == a
  {
  }

  lemma HalfXor(a: bv32, b: bv32)
    ensures Half(Xor(a, b)) == Xor(Half(a), Half(b))
  {
  }

  lemma OddXor(a: bv32, b: bv32)
    ensures Odd(Xor(a, b)) == (Odd(a) != Odd(b))
  {
  }

  lemma OddAndHalfDetermine(a: bv32, b: bv32)
    requires Odd(a) == Odd(b) && Half(a) == Half(b)
    ensures a == b
  {
  }

  lemma BitValueFacts(bit: bool)
    ensures Odd(BitValue(bit)) == bit && Half(BitValue(bit)) == 0
  {
  }

  // ---- Consequences in the algebra -----------------------------------------

  lemma XorSwap(a: bv32, x: bv32, b: bv32, y: bv32)
    ensures Xor(Xor(a, x), Xor(b, y)) == Xor(Xor(a, b), Xor(x, y))
  {
    hide *;
    XorAssoc(a, x, Xor(b, y));
    XorAssoc(x, b, y);
    XorComm(x, b);
    XorAssoc(b, x, y);
    XorAssoc(a, b, Xor(x, y));
  }

  lemma XorCancel(a: bv32, b: bv32, x: bv32)
    requires Xor(a, x) == Xor(b, x)
    ensures a == b
  {
  }

  lemma ShiftByCase(c: bv32)
    ensures Shift(c) == if Odd(c) then Xor(Half(c), POLYNOMIAL) else Half(c)
  {
    hide Odd, Half, Xor;
  }

  /** The shift step is linear over GF(2). */
  lemma ShiftLinear(a: bv32, b: bv32)
    ensures Shift(Xor(a, b)) == Xor(Shift(a), Shift(b))
  {
    hide *;
    ShiftByCase(a);
    ShiftByCase(b);
    ShiftByCase(Xor(a, b));
    HalfXor(a, b);
    OddXor(a, b);
    var ha, hb, p := Half(a), Half(b), POLYNOMIAL;
    XorSwap(ha, p, hb, p);
    XorUnits(p);
    XorUnits(Xor(ha, hb));
    XorAssoc(ha, hb, p);
    XorAssoc(ha, p, hb);
    XorComm(p, hb);
  }

  /** The divisor has its top bit set, so the shift step loses nothing. */
  lemma ShiftInjective(a: bv32, b: bv32)
    requires Shift(a) == Shift(b)
    ensures a == b
  {
  }

  // ---- The division, bit by bit --------------------------------------------

  lemma DivideStep(c: bv32, bits: seq<bool>)
    ensures bits == [] ==> Divide(c, bits) == c
    ensures bits != [] ==> Divide(c, bits) == Divide(Shift(Xor(c, BitValue(bits[0]))), bits[1..])
  {
    hide Shift, Xor, BitValue;
  }

  lemma {:induction false} DivideAppend(c: bv32, a: seq<bool>, b: seq<bool>)
    ensures Divide(c, a + b) == Divide(Divide(c, a), b)
    decreases a
  {
    hide *;
    DivideStep(c, a);
    if a == [] {
      assert a + b == b;
    } else {
      DivideStep(c, a + b);
      assert (a + b)[1..] == a[1..] + b;
      DivideAppend(Shift(Xor(c, BitValue(a[0]))), a[1..], b);
    }
  }

  /** Different registers stay different under the same message. */
  lemma {:induction false} DivideInjective(c: bv32, d: bv32, bits: seq<bool>)
    requires Divide(c, bits) == Divide(d, bits)
    ensures c == d
    decreases bits
  {
    hide *;
    DivideStep(c, bits);
    DivideStep(d, bits);
    if bits != [] {
      var x := BitValue(bits[0]);
      DivideInjective(Shift(Xor(c, x)), Shift(Xor(d, x)), bits[1..]);
      ShiftInjective(Xor(c, x), Xor(d, x));
      XorCancel(c, d, x);
    }
  }

  // ---- Table look-up -------------------------------------------------------

  function Shifts(c: bv32, n: nat): bv32
    decreases n
  {
    if n == 0 then c else Shifts(Shift(c), n - 1)
  }

  function Halves(c: bv32, n: nat): bv32
    decreases n
  {
    if n == 0 then c else Halves(Half(c), n - 1)
  }

  lemma ShiftsStep(c: bv32, n: nat)
    ensures n == 0 ==> Shifts(c, n) == c && Halves(c, n) == c && LowBits(c, n) == []
    ensures n != 0 ==> Shifts(c, n) == Shifts(Shift(c), n - 1) && Halves(c, n) == Halves(Half(c), n - 1)
    ensures n != 0 ==> LowBits(c, n) == [Odd(c)] + LowBits(Half(c), n - 1)
  {
    hide Shift, Half, Odd;
  }

  lemma {:induction false} ShiftsLinear(a: bv32, b: bv32, n: nat)
    ensures Shifts(Xor(a, b), n) == Xor(Shifts(a, n), Shifts(b, n))
    decreases n
  {
    hide *;
    ShiftsStep(a, n);
    ShiftsStep(b, n);
    ShiftsStep(Xor(a, b), n);
    if n != 0 {
      ShiftLinear(a, b);
      ShiftsLinear(Shift(a), Shift(b), n - 1);
    }
  }

  /** Feeding a bit and shifting is shifting with the bit already in the word. */
  lemma FeedBit(c: bv32, w: bv32)
    ensures Shift(Xor(c, w)) == Xor(Shift(Xor(c, BitValue(Odd(w)))), Half(w))
  {
    hide *;
    var x := BitValue(Odd(w));
    var rest := Xor(x, w);
    BitValueFacts(Odd(w));
    OddXor(x, w);
    HalfXor(x, w);
    XorUnits(Half(w));
    XorComm(0, Half(w));
    ShiftByCase(rest);
    XorAssoc(c, x, rest);
    XorAssoc(x, x, w);
    XorUnits(x);
    XorUnits(w);
    XorComm(0, w);
    ShiftLinear(Xor(c, x), rest);
  }

  /** Dividing by the bits of a word is shifting the register with the word mixed in. */
  lemma {:induction false} DivideWord(c: bv32, w: bv32, n: nat)
    requires Halves(w, n) == 0
    ensures Divide(c, LowBits(w, n)) == Shifts(Xor(c, w), n)
    decreases n
  {
    hide *;
    ShiftsStep(w, n);
    ShiftsStep(Xor(c, w), n);
    DivideStep(c, LowBits(w, n));
    if n == 0 {
      XorUnits(c);
    } else {
      var c' := Shift(Xor(c, BitValue(Odd(w))));
      FeedBit(c, w);
      DivideWord(c', Half(w), n - 1);
      assert LowBits(w, n)[1..] == LowBits(Half(w), n - 1);
    }
  }

  function HighPart(c: bv32): bv32 { c >> 8 }

  function LowByte(c: bv32): Byte { ((c & 0xFF) as bv8) as int as Byte }

  predicate LowByteClear(c: bv32) { c & 0xFF == 0 }

  function WithoutLowByte(c: bv32): bv32 { c & 0xFFFF_FF00 }

  lemma SplitLowByte(c: bv32)
    ensures c == Xor(Widen(LowByte(c)), WithoutLowByte(c))
    ensures LowByteClear(WithoutLowByte(c))
    ensures HighPart(WithoutLowByte(c)) == HighPart(c)
  {
    PatternOfValue((c & 0xFF) as bv8);
  }

  /** Eight halvings drop the low byte, and subtract nothing when it is clear. */
  lemma EightHalvings(w: bv32)
    ensures Halves(w, 8) == HighPart(w)
    ensures LowByteClear(w) ==> Shifts(w, 8) == HighPart(w)
  {
  }

  /** Eight shifts of the whole register are one table look-up. */
  lemma TableStep(c: bv32)
    ensures Shifts(c, 8) == Xor(Shifts(Widen(LowByte(c)), 8), HighPart(c))
  {
    hide *;
    SplitLowByte(c);
    ShiftsLinear(Widen(LowByte(c)), WithoutLowByte(c), 8);
    EightHalvings(WithoutLowByte(c));
  }

  /** The register after one more byte: eight shifts of the register with the byte mixed in. */
  lemma DivideByte(c: bv32, b: Byte)
    ensures Divide(c, LowBits(Widen(b), 8)) == Shifts(Xor(c, Widen(b)), 8)
  {
    hide *;
    EightHalvings(Widen(b));
    WidenedByte(b);
    DivideWord(c, Widen(b), 8);
  }

  lemma WidenedByte(b: Byte)
    ensures HighPart(Widen(b)) == 0
  {
  }

  lemma XorWithByte(c: bv32, b: Byte)
    ensures HighPart(Xor(c, Widen(b))) == HighPart(c)
  {
  }

  // ---- The code: table generation and the byte loop ------------------------

  /** `CRC32_TABLE`: for each byte value, the register that eight shifts make of it. */
  const TABLE: seq<bv32> := seq(256, i requires 0 <= i < 256 => Shifts(Widen(i as Byte), 8))

  method ShiftEight(start: bv32) returns (crc: bv32)
    ensures crc == Shifts(start, 8)
  {
    hide *;
    crc := start;
    for j := 0 to 8
      invariant Shifts(crc, 8 - j) == Shifts(start, 8)
    {
      ShiftByCase(crc);
      ShiftsStep(crc, 8 - j);
      if Odd(crc) {
        crc := Xor(Half(crc), POLYNOMIAL);
      } else {
        crc := Half(crc);
      }
    }
    ShiftsStep(crc, 0);
  }

  /** `generate_crc32_table` */
  method GenerateTable() returns (table: array<bv32>)
    ensures table[..] == TABLE
  {
    hide Shifts, Widen;
    table := new bv32[256];
    for i := 0 to 256
      invariant forall k :: 0 <= k < i ==> table[k] == TABLE[k]
    {
      var crc := ShiftEight(Widen(i as Byte));
      table[i] := crc;
    }
  }

  lemma TableEntry(b: Byte)
    ensures |TABLE| == 256 && TABLE[b] == Shifts(Widen(b), 8)
  {
    hide Shifts, Widen;
  }

  lemma {:induction false} BitsOfAppend(data: seq<Byte>, b: Byte)
    ensures BitsOf(data + [b]) == BitsOf(data) + LowBits(Widen(b), 8)
  {
    hide LowBits, Widen;
    if data == [] {
      assert data + [b] == [b];
      assert BitsOf([b]) == LowBits(Widen(b), 8) + BitsOf([]);
    } else {
      assert (data + [b])[1..] == data[1..] + [b];
      BitsOfAppend(data[1..], b);
    }
  }

  /** One pass of the byte loop divides by the next eight message bits. */
  lemma ByteStep(crc: bv32, b: Byte)
    ensures Divide(crc, LowBits(Widen(b), 8)) == Xor(Shifts(Widen(LowByte(Xor(crc, Widen(b)))), 8), HighPart(crc))
  {
    hide *;
    DivideByte(crc, b);
    TableStep(Xor(crc, Widen(b)));
    XorWithByte(crc, b);
  }

  /** `checksum::crc32`: the table-driven loop computes the bit-serial CRC. */
  method ComputeCrc32(data: seq<Byte>) returns (crc: bv32)
    ensures crc == Crc(data)
  {
    hide Divide, BitsOf, LowBits, Xor, LowByte, Shifts, HighPart, Widen, TABLE;
    crc := ALL_ONES;
    DivideStep(crc, []);
    assert data[..0] == [];
    assert BitsOf(data[..0]) == [];
    for i := 0 to |data|
      invariant crc == Divide(ALL_ONES, BitsOf(data[..i]))
    {
      assert data[..i + 1] == data[..i] + [data[i]];
      BitsOfAppend(data[..i], data[i]);
      DivideAppend(ALL_ONES, BitsOf(data[..i]), LowBits(Widen(data[i]), 8));
      ByteStep(crc, data[i]);
      var index := LowByte(Xor(crc, Widen(data[i])));
      TableEntry(index);
      crc := Xor(TABLE[index], HighPart(crc));
    }
    assert data[..|data|] == data;
    crc := Xor(crc, ALL_ONES);
  }

  /** `checksum::verify_crc32`. */
  method VerifyCrc32(data: seq<Byte>, expected: bv32) returns (ok: bool)
    ensures ok <==> Crc(data) == expected
  {
    var crc := ComputeCrc32(data);
    ok := crc == expected;
  }

  // ---- Error detection -----------------------------------------------------

  /** Mask of the top `i + 1` bits. */
  function Top(i: nat): bv32 {
    if i == 0 then TOP_BIT else NextMask(Top(i - 1))
  }

  function NextMask(mask: bv32): bv32 { (mask >> 1) | TOP_BIT }

  predicate Meets(d: bv32, mask: bv32) { d & mask != 0 }

  predicate Below(m: bv32, n: bv32) { m & n == m }

  lemma NextMaskMonotone(m: bv32, n: bv32)
    requires Below(m, n)
    ensures Below(NextMask(m), NextMask(n))
  {
  }

  lemma TopBitBelowNext()
    ensures Below(TOP_BIT, NextMask(TOP_BIT))
  {
  }

  lemma {:induction false} TopGrows(i: nat)
    ensures Below(Top(i), Top(i + 1))
  {
    hide NextMask, Below;
    if i == 0 {
      TopBitBelowNext();
    } else {
      TopGrows(i - 1);
      NextMaskMonotone(Top(i - 1), Top(i));
    }
  }

  lemma BelowEven(m: bv32, n: bv32)
    requires Below(m, n) && !Odd(n)
    ensures !Odd(m)
  {
  }

  lemma {:induction false} TopEven(i: nat)
    requires i <= 30
    ensures !Odd(Top(i))
    decreases 30 - i
  {
    hide Odd, Below;
    if i == 30 {
      LastMask();
    } else {
      TopEven(i + 1);
      TopGrows(i);
      BelowEven(Top(i), Top(i + 1));
    }
  }

  lemma LastMask()
    ensures Top(30) == 0xFFFF_FFFE && !Odd(Top(30))
  {
    assert Top(6) == 0xFE00_0000;
    assert Top(12) == 0xFFF8_0000;
    assert Top(18) == 0xFFFF_E000;
    assert Top(24) == 0xFFFF_FF80;
  }

  /** A difference in the top bits moves down one place per step, or is renewed by the divisor at the top. */
  lemma MeetsStep(d: bv32, bit: bool, mask: bv32)
    requires Meets(d, mask) && !Odd(mask)
    ensures Meets(Shift(Xor(d, BitValue(bit))), NextMask(mask))
  {
  }

  lemma MeetsDiffers(c: bv32, d: bv32, mask: bv32)
    requires Meets(Xor(c, d), mask)
    ensures c != d
  {
  }

  /** Registers that differ in the top `i + 1` bits still differ after any `31 - i` pairs of message bits. */
  lemma {:induction false} StayDifferent(c: bv32, d: bv32, u: seq<bool>, v: seq<bool>, i: nat)
    requires |u| == |v| && i + |u| <= 31
    requires Meets(Xor(c, d), Top(i))
    ensures Divide(c, u) != Divide(d, v)
    decreases u
  {
    hide *;
    DivideStep(c, u);
    DivideStep(d, v);
    MeetsDiffers(c, d, Top(i));
    if u != [] {
      var x, y := BitValue(u[0]), BitValue(v[0]);
      var c', d' := Shift(Xor(c, x)), Shift(Xor(d, y));
      ShiftLinear(Xor(c, x), Xor(d, y));
      XorSwap(c, x, d, y);
      BitValueXor(u[0], v[0]);
      TopEven(i);
      MeetsStep(Xor(c, d), u[0] != v[0], Top(i));
      TopDefinition(i);
      StayDifferent(c', d', u[1..], v[1..], i + 1);
    }
  }

  lemma TopDefinition(i: nat)
    ensures Top(0) == TOP_BIT && Top(i + 1) == NextMask(Top(i))
  {
    hide NextMask;
  }

  lemma BitValueXor(a: bool, b: bool)
    ensures Xor(BitValue(a), BitValue(b)) == BitValue(a != b)
  {
  }

  /** Two different windows of at most 32 bits lead the register to different values. */
  lemma {:induction false} WindowDetected(c: bv32, u: seq<bool>, v: seq<bool>)
    requires |u| == |v| <= 32 && u != v
    ensures Divide(c, u) != Divide(c, v)
    decreases u
  {
    hide *;
    DivideStep(c, u);
    DivideStep(c, v);
    var x, y := BitValue(u[0]), BitValue(v[0]);
    if u[0] == v[0] {
      assert u == [u[0]] + u[1..] && v == [v[0]] + v[1..];
      WindowDetected(Shift(Xor(c, x)), u[1..], v[1..]);
    } else {
      ShiftLinear(Xor(c, x), Xor(c, y));
      XorSwap(c, x, c, y);
      XorUnits(c);
      BitValueXor(u[0], v[0]);
      XorComm(0, BitValue(true));
      XorUnits(BitValue(true));
      ShiftOfOne();
      TopDefinition(0);
      StayDifferent(Shift(Xor(c, x)), Shift(Xor(c, y)), u[1..], v[1..], 0);
    }
  }

  lemma ShiftOfOne()
    ensures Meets(Shift(BitValue(true)), TOP_BIT)
  {
  }

  /** The two messages agree outside one window of at most 32 consecutive bits. */
  ghost predicate BurstError(a: seq<bool>, b: seq<bool>, lo: nat, hi: nat) {
    && |a| == |b| && lo <= hi <= |a| && hi - lo <= 32
    && a[..lo] == b[..lo] && a[hi..] == b[hi..]
    && a != b
  }

  /** The division detects every burst of at most 32 bits, wherever it lies. */
  lemma BurstDetected(c: bv32, a: seq<bool>, b: seq<bool>, lo: nat, hi: nat)
    requires BurstError(a, b, lo, hi)
    ensures Divide(c, a) != Divide(c, b)
  {
    hide Divide;
    var u, v := a[lo..hi], b[lo..hi];
    assert a == a[..lo] + u + a[hi..];
    assert b == b[..lo] + v + b[hi..];
    var start := Divide(c, a[..lo]);
    DivideAppend(c, a[..lo], u);
    DivideAppend(c, b[..lo], v);
    WindowDetected(start, u, v);
    DivideAppend(c, a[..lo] + u, a[hi..]);
    DivideAppend(c, b[..lo] + v, b[hi..]);
    if Divide(c, a) == Divide(c, b) {
      DivideInjective(Divide(start, u), Divide(start, v), a[hi..]);
    }
  }

  // ---- The same for byte messages ------------------------------------------

  lemma {:induction false} LowBitsInjective(v: bv32, w: bv32, n: nat)
    requires LowBits(v, n) == LowBits(w, n) && Halves(v, n) == Halves(w, n)
    ensures v == w
    decreases n
  {
    hide *;
    ShiftsStep(v, n);
    ShiftsStep(w, n);
    if n != 0 {
      assert LowBits(v, n)[0] == LowBits(w, n)[0];
      assert LowBits(v, n)[1..] == LowBits(w, n)[1..];
      LowBitsInjective(Half(v), Half(w), n - 1);
      OddAndHalfDetermine(v, w);
    }
  }

  lemma WideningExact(v: bv8, w: bv8)
    requires v as bv32 == w as bv32
    ensures v == w
  {
  }

  lemma WidenInjective(a: Byte, b: Byte)
    requires Widen(a) == Widen(b)
    ensures a == b
  {
    WideningExact(Pattern(a), Pattern(b));
    PatternInjective(a, b);
  }

  lemma ByteBitsInjective(a: Byte, b: Byte)
    requires LowBits(Widen(a), 8) == LowBits(Widen(b), 8)
    ensures a == b
  {
    hide *;
    EightHalvings(Widen(a));
    EightHalvings(Widen(b));
    WidenedByte(a);
    WidenedByte(b);
    LowBitsInjective(Widen(a), Widen(b), 8);
    WidenInjective(a, b);
  }

  lemma {:induction false} BitsOfInjective(a: seq<Byte>, b: seq<Byte>)
    requires BitsOf(a) == BitsOf(b)
    ensures a == b
  {
    hide LowBits, Widen;
    if a != [] {
      assert LowBits(Widen(a[0]), 8) == BitsOf(a)[..8] && BitsOf(a[1..]) == BitsOf(a)[8..];
      assert LowBits(Widen(b[0]), 8) == BitsOf(b)[..8] && BitsOf(b[1..]) == BitsOf(b)[8..];
      ByteBitsInjective(a[0], b[0]);
      BitsOfInjective(a[1..], b[1..]);
      assert a == [a[0]] + a[1..] && b == [b[0]] + b[1..];
    }
  }

  /** `b` is a copy of `a` damaged by one burst of at most 32 consecutive bits. */
  ghost predicate Damaged(a: seq<Byte>, b: seq<Byte>) {
    exists lo, hi :: BurstError(BitsOf(a), BitsOf(b), lo, hi)
  }

  /** No burst of at most 32 bits goes unnoticed by the CRC. */
  lemma CrcDetectsBurst(a: seq<Byte>, b: seq<Byte>)
    requires Damaged(a, b)
    ensures Crc(a) != Crc(b)
  {
    hide Divide, Xor, BitsOf, BurstError;
    var lo, hi :| BurstError(BitsOf(a), BitsOf(b), lo, hi);
    BurstDetected(ALL_ONES, BitsOf(a), BitsOf(b), lo, hi);
    if Crc(a) == Crc(b) {
      XorCancel(Divide(ALL_ONES, BitsOf(a)), Divide(ALL_ONES, BitsOf(b)), ALL_ONES);
    }
  }

  lemma {:induction false} BitsOfConcat(a: seq<Byte>, b: seq<Byte>)
    ensures BitsOf(a + b) == BitsOf(a) + BitsOf(b)
  {
    hide LowBits, Widen;
    if a == [] {
      assert a + b == b;
    } else {
      assert (a + b)[1..] == a[1..] + b;
      BitsOfConcat(a[1..], b);
    }
  }

  /** Messages that differ only inside a window of at most four bytes have different checksums. */
  lemma CrcDetectsByteWindow(prefix: seq<Byte>, u: seq<Byte>, v: seq<Byte>, suffix: seq<Byte>)
    requires |u| == |v| <= 4 && u != v
    ensures Damaged(prefix + u + suffix, prefix + v + suffix)
    ensures Crc(prefix + u + suffix) != Crc(prefix + v + suffix)
  {
    hide Crc, BitsOf;
    var a, b := prefix + u + suffix, prefix + v + suffix;
    BitsOfConcat(prefix, u);
    BitsOfConcat(prefix, v);
    BitsOfConcat(prefix + u, suffix);
    BitsOfConcat(prefix + v, suffix);
    assert u == a[|prefix|..|prefix| + |u|] && v == b[|prefix|..|prefix| + |u|];
    if BitsOf(a) == BitsOf(b) {
      BitsOfInjective(a, b);
    }
    assert BurstError(BitsOf(a), BitsOf(b), 8 * |prefix|, 8 * |prefix| + 8 * |u|);
    CrcDetectsBurst(a, b);
  }
}
