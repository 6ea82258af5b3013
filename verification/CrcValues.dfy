/**
 Values of the CRC stated as literals. They fix the polynomial, the order of
 the bits and both inversions, which laws like linearity leave open.
 */
module CrcValues {
  import opened Bytes
  import opened Crc32

  // ---- The residue ----------------------------------------------------------

  /** The four bytes of a word, the least significant first. */
  function LittleEndian(w: bv32): (b: seq<Byte>)
    ensures |b| == 4
  {
    [LowByte(w), LowByte(HighPart(w)), LowByte(HighPart(HighPart(w))), LowByte(HighPart(HighPart(HighPart(w))))]
  }

  lemma {:induction false} LowBitsSplit(w: bv32, m: nat, n: nat)
    ensures LowBits(w, m + n) == LowBits(w, m) + LowBits(Halves(w, m), n)
    decreases m
  {
    hide *;
    ShiftsStep(w, m);
    ShiftsStep(w, m + n);
    if m == 0 {
      assert [] + LowBits(w, n) == LowBits(w, n);
    } else {
      LowBitsSplit(Half(w), m - 1, n);
      assert LowBits(w, m + n) == [Odd(w)] + (LowBits(Half(w), m - 1) + LowBits(Halves(Half(w), m - 1), n));
    }
  }

  lemma {:induction false} ShiftsSplit(c: bv32, m: nat, n: nat)
    ensures Shifts(c, m + n) == Shifts(Shifts(c, m), n)
    decreases m
  {
    hide *;
    ShiftsStep(c, m);
    ShiftsStep(c, m + n);
    if m != 0 {
      ShiftsSplit(Shift(c), m - 1, n);
    }
  }

  lemma {:induction false} HalvesSplit(c: bv32, m: nat, n: nat)
    ensures Halves(c, m + n) == Halves(Halves(c, m), n)
    decreases m
  {
    hide *;
    ShiftsStep(c, m);
    ShiftsStep(c, m + n);
    if m != 0 {
      HalvesSplit(Half(c), m - 1, n);
    }
  }

  predicate SameLow(v: bv32, w: bv32, mask: bv32) { v & mask == w & mask }

  lemma SameLowStep(v: bv32, w: bv32, mask: bv32)
    requires SameLow(v, w, mask) && Odd(mask)
    ensures Odd(v) == Odd(w) && SameLow(Half(v), Half(w), Half(mask))
  {
  }

  lemma ByteMask()
    ensures Odd(0xFF) && Half(0xFF) == 0x7F && Odd(0x7F) && Half(0x7F) == 0x3F && Odd(0x3F) && Half(0x3F) == 0x1F
    ensures Odd(0x1F) && Half(0x1F) == 0xF && Odd(0xF) && Half(0xF) == 7 && Odd(7) && Half(7) == 3
    ensures Odd(3) && Half(3) == 1 && Odd(1)
  {
  }

  /** Words with the same low byte have the same low eight bits. */
  lemma SameEightBits(v: bv32, w: bv32)
    requires SameLow(v, w, 0xFF)
    ensures LowBits(v, 8) == LowBits(w, 8)
  {
    ByteMask();
    SameBits(v, w, 0xFF, 8);
  }

  lemma {:induction false} SameBits(v: bv32, w: bv32, mask: bv32, n: nat)
    requires SameLow(v, w, mask) && CoversBits(mask, n)
    ensures LowBits(v, n) == LowBits(w, n)
    decreases n
  {
    hide *;
    ShiftsStep(v, n);
    ShiftsStep(w, n);
    CoversStep(mask, n);
    if n != 0 {
      SameLowStep(v, w, mask);
      SameBits(Half(v), Half(w), Half(mask), n - 1);
    }
  }

  predicate CoversBits(mask: bv32, n: nat)
    decreases n
  {
    n == 0 || (Odd(mask) && CoversBits(Half(mask), n - 1))
  }

  lemma CoversStep(mask: bv32, n: nat)
    requires CoversBits(mask, n)
    ensures n != 0 ==> Odd(mask) && CoversBits(Half(mask), n - 1)
  {
  }

  lemma LowByteKept(w: bv32)
    ensures SameLow(w, Widen(LowByte(w)), 0xFF)
  {
    PatternOfValue((w & 0xFF) as bv8);
  }

  lemma ByteOff(w: bv32, n: nat)
    ensures LowBits(w, 8 + n) == LowBits(Widen(LowByte(w)), 8) + LowBits(HighPart(w), n)
  {
    hide *;
    LowBitsSplit(w, 8, n);
    EightHalvings(w);
    LowByteKept(w);
    SameEightBits(w, Widen(LowByte(w)));
  }

  lemma NothingLeft(w: bv32)
    ensures HighPart(HighPart(HighPart(HighPart(w)))) == 0 && Halves(w, 32) == 0
  {
    HalvesSplit(w, 24, 8);
    HalvesSplit(w, 16, 8);
    HalvesSplit(w, 8, 8);
    EightHalvings(w);
    EightHalvings(HighPart(w));
    EightHalvings(HighPart(HighPart(w)));
    EightHalvings(HighPart(HighPart(HighPart(w))));
    hide Halves;
  }

  lemma NoBits(w: bv32)
    ensures LowBits(w, 0) == [] && BitsOf([]) == []
  {
  }

  lemma BitsOfCons(b: Byte, rest: seq<Byte>)
    ensures BitsOf([b] + rest) == LowBits(Widen(b), 8) + BitsOf(rest)
  {
    hide LowBits, Widen;
    assert ([b] + rest)[1..] == rest;
  }

  lemma LittleEndianParts(w: bv32)
    ensures var w1, w2, w3 := HighPart(w), HighPart(HighPart(w)), HighPart(HighPart(HighPart(w)));
            LittleEndian(w) == [LowByte(w)] + ([LowByte(w1)] + ([LowByte(w2)] + ([LowByte(w3)] + [])))
  {
    hide HighPart, LowByte;
  }

  lemma BitsOfLittleEndian(w: bv32)
    ensures BitsOf(LittleEndian(w)) == LowBits(w, 32)
  {
    hide *;
    var w1, w2, w3 := HighPart(w), HighPart(HighPart(w)), HighPart(HighPart(HighPart(w)));
    var b0, b1, b2, b3 := LowByte(w), LowByte(w1), LowByte(w2), LowByte(w3);
    LittleEndianParts(w);
    BitsOfCons(b0, [b1] + ([b2] + ([b3] + [])));
    BitsOfCons(b1, [b2] + ([b3] + []));
    BitsOfCons(b2, [b3] + []);
    BitsOfCons(b3, []);
    ByteOff(w, 24);
    ByteOff(w1, 16);
    ByteOff(w2, 8);
    ByteOff(w3, 0);
    NoBits(HighPart(w3));
  }

  /** Eight shifts, written out. */
  function EightShifts(c: bv32): bv32 {
    Shift(Shift(Shift(Shift(Shift(Shift(Shift(Shift(c))))))))
  }

  lemma EightShiftsAre(c: bv32)
    ensures Shifts(c, 8) == EightShifts(c)
  {
    hide Shift;
  }

  /** 32 shifts of the initial register. */
  lemma OnesShifted()
    ensures Shifts(0xFFFF_FFFF, 32) == 0xDEBB_20E3
  {
    assert EightShifts(0xFFFF_FFFF) == 0x2DFD_1072;
    assert EightShifts(0x2DFD_1072) == 0xBE26_ED00;
    assert EightShifts(0xBE26_ED00) == 0x00BE_26ED;
    assert EightShifts(0x00BE_26ED) == 0xDEBB_20E3;
    hide *;
    EightShiftsAre(0xFFFF_FFFF);
    EightShiftsAre(0x2DFD_1072);
    EightShiftsAre(0xBE26_ED00);
    EightShiftsAre(0x00BE_26ED);
    ShiftsSplit(0xFFFF_FFFF, 8, 24);
    ShiftsSplit(0x2DFD_1072, 8, 16);
    ShiftsSplit(0xBE26_ED00, 8, 8);
  }

  lemma CrcIs(data: seq<Byte>)
    ensures Crc(data) == Xor(Divide(0xFFFF_FFFF, BitsOf(data)), 0xFFFF_FFFF)
  {
    hide Divide, BitsOf, Xor;
  }

  lemma XorOfInverted(r: bv32)
    ensures Xor(r, Xor(r, 0xFFFF_FFFF)) == 0xFFFF_FFFF && Xor(0xDEBB_20E3, 0xFFFF_FFFF) == 0x2144_DF1C
  {
  }

  /** A message followed by its own CRC, in little-endian order, always has the same CRC. */
  lemma Residue(data: seq<Byte>)
    ensures Crc(data + LittleEndian(Crc(data))) == 0x2144_DF1C
  {
    hide *;
    var crc := Crc(data);
    var r := Divide(0xFFFF_FFFF, BitsOf(data));
    CrcIs(data);
    CrcIs(data + LittleEndian(crc));
    BitsOfConcat(data, LittleEndian(crc));
    BitsOfLittleEndian(crc);
    DivideAppend(0xFFFF_FFFF, BitsOf(data), LowBits(crc, 32));
    NothingLeft(crc);
    DivideWord(r, crc, 32);
    XorOfInverted(r);
    OnesShifted();
  }

  // ---- A check value --------------------------------------------------------

  /** The register after one more byte. */
  lemma FeedByte(data: seq<Byte>, b: Byte, c: bv32, next: bv32)
    requires Divide(0xFFFF_FFFF, BitsOf(data)) == c && EightShifts(Xor(c, Widen(b))) == next
    ensures Divide(0xFFFF_FFFF, BitsOf(data + [b])) == next
  {
    hide *;
    BitsOfAppend(data, b);
    DivideAppend(0xFFFF_FFFF, BitsOf(data), LowBits(Widen(b), 8));
    DivideByte(c, b);
    EightShiftsAre(Xor(c, Widen(b)));
  }

  lemma WidenedDigits()
    ensures Widen(49) == 0x31 && Widen(50) == 0x32 && Widen(51) == 0x33 && Widen(52) == 0x34 && Widen(53) == 0x35
    ensures Widen(54) == 0x36 && Widen(55) == 0x37 && Widen(56) == 0x38 && Widen(57) == 0x39
  {
  }

  lemma DigitShifts()
    ensures EightShifts(Xor(0xFFFF_FFFF, 0x31)) == 0x7C23_1048 && EightShifts(Xor(0x7C23_1048, 0x32)) == 0xB0AC_BB32
    ensures EightShifts(Xor(0xB0AC_BB32, 0x33)) == 0x77B7_9C2D && EightShifts(Xor(0x77B7_9C2D, 0x34)) == 0x641C_1F5C
    ensures EightShifts(Xor(0x641C_1F5C, 0x35)) == 0x340A_C5E3 && EightShifts(Xor(0x340A_C5E3, 0x36)) == 0xF68D_2C9E
    ensures EightShifts(Xor(0xF68D_2C9E, 0x37)) == 0xAFFC_9660 && EightShifts(Xor(0xAFFC_9660, 0x38)) == 0x651F_2550
    ensures EightShifts(Xor(0x651F_2550, 0x39)) == 0x340B_C6D9
  {
  }

  lemma NothingDivided()
    ensures Divide(0xFFFF_FFFF, BitsOf([])) == 0xFFFF_FFFF
  {
  }

  lemma InvertedCheck()
    ensures Xor(0x340B_C6D9, 0xFFFF_FFFF) == 0xCBF4_3926
  {
  }

  /** The CRC of the nine bytes "123456789". */
  lemma CheckValue()
    ensures Crc([49, 50, 51, 52, 53, 54, 55, 56, 57]) == 0xCBF4_3926
  {
    hide *;
    WidenedDigits();
    DigitShifts();
    NothingDivided();
    FeedByte([], 49, 0xFFFF_FFFF, 0x7C23_1048);
    FeedByte([] + [49], 50, 0x7C23_1048, 0xB0AC_BB32);
    FeedByte([] + [49] + [50], 51, 0xB0AC_BB32, 0x77B7_9C2D);
    FeedByte([] + [49] + [50] + [51], 52, 0x77B7_9C2D, 0x641C_1F5C);
    FeedByte([] + [49] + [50] + [51] + [52], 53, 0x641C_1F5C, 0x340A_C5E3);
    FeedByte([] + [49] + [50] + [51] + [52] + [53], 54, 0x340A_C5E3, 0xF68D_2C9E);
    FeedByte([] + [49] + [50] + [51] + [52] + [53] + [54], 55, 0xF68D_2C9E, 0xAFFC_9660);
    FeedByte([] + [49] + [50] + [51] + [52] + [53] + [54] + [55], 56, 0xAFFC_9660, 0x651F_2550);
    FeedByte([] + [49] + [50] + [51] + [52] + [53] + [54] + [55] + [56], 57, 0x651F_2550, 0x340B_C6D9);
    CrcIs([49, 50, 51, 52, 53, 54, 55, 56, 57]);
    assert [] + [49] + [50] + [51] + [52] + [53] + [54] + [55] + [56] + [57] == [49, 50, 51, 52, 53, 54, 55, 56, 57];
    InvertedCheck();
  }
}
