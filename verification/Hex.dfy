/** Lower-case hexadecimal text of byte strings, as `checksum.cpp` prints a digest. */
module Hex {
  import opened Bytes

  const DIGITS := "0123456789abcdef"

  /** The two digits of one byte. */
  function Pair(b: Byte): (s: string)
    ensures |s| == 2
  {
    var n := b as int;
    [DIGITS[n / 16], DIGITS[n % 16]]
  }

  function Text(bytes: seq<Byte>): (s: string)
    ensures |s| == 2 * |bytes|
  {
    if bytes == [] then [] else Pair(bytes[0]) + Text(bytes[1..])
  }

  lemma DigitsDistinct(i: nat, j: nat)
    requires i < 16 && j < 16 && DIGITS[i] == DIGITS[j]
    ensures i == j
  {
  }

  lemma PairInjective(a: Byte, b: Byte)
    requires Pair(a) == Pair(b)
    ensures a == b
  {
    var m, n := a as int, b as int;
    assert Pair(a)[0] == DIGITS[m / 16] && Pair(a)[1] == DIGITS[m % 16];
    assert Pair(b)[0] == DIGITS[n / 16] && Pair(b)[1] == DIGITS[n % 16];
    DigitsDistinct(m / 16, n / 16);
    DigitsDistinct(m % 16, n % 16);
  }

  /** Digests with the same text are the same digest. */
  lemma {:induction false} TextInjective(a: seq<Byte>, b: seq<Byte>)
    requires Text(a) == Text(b)
    ensures a == b
  {
    hide Pair;
    if a != [] {
      assert Text(a)[..2] == Pair(a[0]) && Text(b)[..2] == Pair(b[0]);
      PairInjective(a[0], b[0]);
      assert Text(a)[2..] == Text(a[1..]) && Text(b)[2..] == Text(b[1..]);
      TextInjective(a[1..], b[1..]);
      assert a == [a[0]] + a[1..] && b == [b[0]] + b[1..];
    }
  }
}
