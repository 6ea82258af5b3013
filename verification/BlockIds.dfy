/** `generate_block_id` of `azure_blob_storage.cpp`. */
module BlockIds {
  import opened Bytes
  import Base64

  /** The decimal digits of a number, as bytes of text; zero has no digit here. */
  function Digits(n: nat): seq<Byte> {
    if n == 0 then [] else Digits(n / 10) + [(48 + n % 10) as Byte]
  }

  function Decimal(n: nat): seq<Byte> {
    if n == 0 then [48] else Digits(n)
  }

  /** `std::setw(6)` with fill character '0'. */
  function ZeroPadded(n: nat): seq<Byte> {
    var d := Decimal(n);
    if |d| < 6 then seq(6 - |d|, _ => 48) + d else d
  }

  function BlockId(number: nat): string {
    Base64.Encoded(ZeroPadded(number))
  }

  /** The number that a string of decimal digits denotes. */
  function Parse(s: seq<Byte>): int {
    if s == [] then 0 else 10 * Parse(s[..|s| - 1]) + (s[|s| - 1] as int - 48)
  }

  lemma {:induction false} ParseDigits(n: nat)
    ensures Parse(Digits(n)) == n
  {
    if n != 0 {
      assert Digits(n)[..|Digits(n)| - 1] == Digits(n / 10);
      ParseDigits(n / 10);
    }
  }

  lemma {:induction false} LeadingZeros(k: nat, s: seq<Byte>)
    ensures Parse(seq(k, _ => 48) + s) == Parse(s)
    decreases k + |s|
  {
    var z := seq(k, _ => 48 as Byte);
    if s != [] {
      assert (z + s)[..|z + s| - 1] == z + s[..|s| - 1];
      LeadingZeros(k, s[..|s| - 1]);
    } else if k > 0 {
      assert z + s == z;
      assert z[..k - 1] == seq(k - 1, _ => 48 as Byte) + [];
      LeadingZeros(k - 1, []);
    } else {
      assert z + s == [];
    }
  }

  lemma ParseZeroPadded(n: nat)
    ensures Parse(ZeroPadded(n)) == n
  {
    ParseDigits(n);
    var d := Decimal(n);
    assert Parse(d) == n by {
      if n == 0 {
        assert d[..0] == [];
      }
    }
    if |d| < 6 {
      LeadingZeros(6 - |d|, d);
    }
  }

  /** Different block numbers have different ids, so no block overwrites another. */
  lemma BlockIdInjective(m: nat, n: nat)
    requires BlockId(m) == BlockId(n)
    ensures m == n
  {
    Base64.EncodedInjective(ZeroPadded(m), ZeroPadded(n));
    hide *;
    ParseZeroPadded(m);
    ParseZeroPadded(n);
  }

  function Power10(k: nat): nat {
    if k == 0 then 1 else 10 * Power10(k - 1)
  }

  lemma {:induction false} DigitCount(n: nat, k: nat)
    ensures |Digits(n)| <= k <==> n < Power10(k)
    decreases k
  {
    if n != 0 && k > 0 {
      DigitCount(n / 10, k - 1);
    }
    PowerPositive(k);
  }

  lemma PowerPositive(k: nat)
    ensures Power10(k) >= 1
  {
  }

  lemma PaddedWidth(n: nat)
    ensures |ZeroPadded(n)| >= 6
    ensures |ZeroPadded(n)| == 6 <==> n < 1_000_000
  {
    DigitCount(n, 6);
    MillionIsPower();
    hide Digits, Power10;
  }

  lemma MillionIsPower()
    ensures Power10(6) == 1_000_000
  {
  }

  /** Ids have the same length, eight characters, exactly for the block numbers below one million. */
  lemma BlockIdLength(n: nat)
    ensures |BlockId(n)| == 8 <==> n < 1_000_000
  {
    hide ZeroPadded, Base64.Encoded;
    PaddedWidth(n);
    Base64.EncodedLength(ZeroPadded(n));
  }
}
