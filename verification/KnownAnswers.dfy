/**
 Known answers of the text codecs: the test vectors of section 10 of RFC 4648,
 the first block ids, a percent-encoded path, and the digest text of "abc".
 */
module KnownAnswers {
  import opened Bytes
  import Base64
  import BlockIds
  import Hex
  import Sha256
  import Sha256Values
  import TransferIds
  import UrlEncoding

  lemma LastGroup(d: seq<Byte>)
    requires 0 < |d| <= 3
    ensures Base64.Encoded(d) == Base64.EncodeGroup(d)
  {
    hide Base64.EncodeGroup;
    assert Base64.Encoded([]) == "";
  }

  lemma TwoGroups(d: seq<Byte>, rest: seq<Byte>)
    requires |d| == 3 && 0 < |rest| <= 3
    ensures Base64.Encoded(d + rest) == Base64.EncodeGroup(d) + Base64.EncodeGroup(rest)
  {
    assert (d + rest)[3..] == rest;
    LastGroup(rest);
    assert Base64.Word24(d + rest) == Base64.Word24(d);
    hide Base64.Digit, Base64.Word24;
    assert Base64.EncodeGroup(d + rest) == Base64.EncodeGroup(d);
  }

  /** A 24-bit word cut into sextets, and those of its three bytes. */
  lemma SextetsOfBytes(x: nat, y: nat, z: nat)
    requires x < 256 && y < 256 && z < 256
    ensures var n := x * 65536 + y * 256 + z;
            && n / 262144 % 64 == x / 4 && n / 4096 % 64 == x % 4 * 16 + y / 16
            && n / 64 % 64 == y % 16 * 4 + z / 64 && n % 64 == z % 64
  {
    var n := x * 65536 + y * 256 + z;
    Remainder(n, 262144, x / 4, x % 4 * 65536 + y * 256 + z);
    Remainder(n, 4096, x * 16 + y / 16, y % 16 * 256 + z);
    Remainder(x * 16 + y / 16, 64, x / 4, x % 4 * 16 + y / 16);
    Remainder(n, 64, x * 1024 + y * 4 + z / 64, z % 64);
    Remainder(x * 1024 + y * 4 + z / 64, 64, x * 16 + y / 16, y % 16 * 4 + z / 64);
  }

  lemma DigitOf(n: nat, w: nat, v: nat)
    requires w > 0 && n / w % 64 == v
    ensures v < 64 && Base64.Digit(n, w) == Base64.CharOf(v)
  {
  }

  /** One, two and three bytes cut into sextets; missing characters are '='. */
  lemma GroupOf(d: seq<Byte>, x: nat, y: nat, z: nat)
    requires 0 < |d| <= 3 && d[0] as int == x
    requires y == if |d| > 1 then d[1] as int else 0
    requires z == if |d| > 2 then d[2] as int else 0
    ensures x / 4 < 64 && x % 4 * 16 + y / 16 < 64 && y % 16 * 4 + z / 64 < 64
    ensures Base64.EncodeGroup(d) ==
            [Base64.CharOf(x / 4), Base64.CharOf(x % 4 * 16 + y / 16),
             if |d| > 1 then Base64.CharOf(y % 16 * 4 + z / 64) else '=',
             if |d| > 2 then Base64.CharOf(z % 64) else '=']
  {
    SextetsOfBytes(x, y, z);
    var n := Base64.Word24(d);
    assert n == x * 65536 + y * 256 + z;
    hide *;
    Base64.EncodeGroupDefinition(d);
    DigitOf(n, 262144, x / 4);
    DigitOf(n, 4096, x % 4 * 16 + y / 16);
    DigitOf(n, 64, y % 16 * 4 + z / 64);
    assert n / 1 == n;
    DigitOf(n, 1, z % 64);
  }

  /** "f", "fo" and "foo". */
  lemma FirstVectors()
    ensures Base64.EncodeGroup([102]) == "Zg=="
    ensures Base64.EncodeGroup([102, 111]) == "Zm8="
    ensures Base64.EncodeGroup([102, 111, 111]) == "Zm9v"
  {
    hide Base64.EncodeGroup;
    GroupOf([102], 102, 0, 0);
    GroupOf([102, 111], 102, 111, 0);
    GroupOf([102, 111, 111], 102, 111, 111);
  }

  /** "b", "ba" and "bar". */
  lemma SecondVectors()
    ensures Base64.EncodeGroup([98]) == "Yg=="
    ensures Base64.EncodeGroup([98, 97]) == "YmE="
    ensures Base64.EncodeGroup([98, 97, 114]) == "YmFy"
  {
    hide Base64.EncodeGroup;
    GroupOf([98], 98, 0, 0);
    GroupOf([98, 97], 98, 97, 0);
    GroupOf([98, 97, 114], 98, 97, 114);
  }

  /** Section 10 of RFC 4648: "", "f", "fo", "foo", "foob", "fooba" and "foobar". */
  lemma Base64Vectors()
    ensures Base64.Encoded([]) == ""
    ensures Base64.Encoded([102]) == "Zg=="
    ensures Base64.Encoded([102, 111]) == "Zm8="
    ensures Base64.Encoded([102, 111, 111]) == "Zm9v"
    ensures Base64.Encoded([102, 111, 111, 98]) == "Zm9vYg=="
    ensures Base64.Encoded([102, 111, 111, 98, 97]) == "Zm9vYmE="
    ensures Base64.Encoded([102, 111, 111, 98, 97, 114]) == "Zm9vYmFy"
  {
    hide *;
    FirstVectors();
    SecondVectors();
    var foo: seq<Byte> := [102, 111, 111];
    assert foo + [98] == [102, 111, 111, 98] && foo + [98, 97] == [102, 111, 111, 98, 97];
    assert foo + [98, 97, 114] == [102, 111, 111, 98, 97, 114];
    LastGroup([102]);
    LastGroup([102, 111]);
    LastGroup(foo);
    TwoGroups(foo, [98]);
    TwoGroups(foo, [98, 97]);
    TwoGroups(foo, [98, 97, 114]);
    EncodedNothing();
  }

  lemma EncodedNothing()
    ensures Base64.Encoded([]) == ""
  {
  }

  lemma SignsGroup()
    ensures Base64.EncodeGroup([251, 255]) == "+/8="
  {
    hide Base64.EncodeGroup;
    GroupOf([251, 255], 251, 255, 0);
  }

  /** The URL variant has '-' for '+', '_' for '/', and no padding. */
  lemma UrlVector()
    ensures Base64.Encoded([251, 255]) == "+/8="
    ensures Base64.Unpadded(Base64.Mapped(Base64.Encoded([251, 255]), Base64.UrlChar)) == "-_8"
  {
    SignsGroup();
    LastGroup([251, 255]);
    assert Base64.Mapped("+/8=", Base64.UrlChar) == "-_8=";
    assert "-_8="[..3] == "-_8";
    hide Base64.Encoded, Base64.EncodeGroup, Base64.Mapped;
  }

  lemma ZerosGroup()
    ensures Base64.EncodeGroup([48, 48, 48]) == "MDAw"
    ensures Base64.EncodeGroup([48, 48, 49]) == "MDAx"
  {
    hide Base64.EncodeGroup;
    GroupOf([48, 48, 48], 48, 48, 48);
    GroupOf([48, 48, 49], 48, 48, 49);
  }

  /** The ids of the first two blocks: base64 of "000000" and "000001". */
  lemma FirstBlockIds()
    ensures BlockIds.BlockId(0) == "MDAwMDAw"
    ensures BlockIds.BlockId(1) == "MDAwMDAx"
  {
    PaddedNumbers();
    ZerosGroup();
    hide *;
    var zeros: seq<Byte> := [48, 48, 48];
    assert zeros + zeros == [48, 48, 48, 48, 48, 48] && zeros + [48, 48, 49] == [48, 48, 48, 48, 48, 49];
    TwoGroups(zeros, zeros);
    TwoGroups(zeros, [48, 48, 49]);
    BlockIdIs(0);
    BlockIdIs(1);
  }

  lemma BlockIdIs(n: nat)
    ensures BlockIds.BlockId(n) == Base64.Encoded(BlockIds.ZeroPadded(n))
  {
  }

  lemma PaddedNumbers()
    ensures BlockIds.ZeroPadded(0) == [48, 48, 48, 48, 48, 48]
    ensures BlockIds.ZeroPadded(1) == [48, 48, 48, 48, 48, 49]
  {
    assert BlockIds.Digits(1) == BlockIds.Digits(0) + [49];
  }

  lemma EscapeValues(slash: bool)
    ensures UrlEncoding.Escape(97, slash) == "a" && UrlEncoding.Escape(126, slash) == "~"
    ensures UrlEncoding.Escape(47, slash) == if slash then "%2F" else "/"
    ensures UrlEncoding.Escape(32, slash) == "%20" && UrlEncoding.Escape(195, slash) == "%C3"
  {
  }

  lemma EscapeFive(a: Byte, b: Byte, c: Byte, d: Byte, e: Byte, slash: bool)
    ensures UrlEncoding.Escaped([a, b, c, d, e], slash) ==
            UrlEncoding.Escape(a, slash) + (UrlEncoding.Escape(b, slash) + (UrlEncoding.Escape(c, slash) +
            (UrlEncoding.Escape(d, slash) + UrlEncoding.Escape(e, slash))))
  {
    hide UrlEncoding.Escape;
    var value := [a, b, c, d, e];
    assert value[0..] == value;
    UrlEncoding.EscapedFrom(value, 0, slash);
    UrlEncoding.EscapedFrom(value, 1, slash);
    UrlEncoding.EscapedFrom(value, 2, slash);
    UrlEncoding.EscapedFrom(value, 3, slash);
    UrlEncoding.EscapedFrom(value, 4, slash);
    UrlEncoding.EscapedFrom(value, 5, slash);
    hide *;
    assert UrlEncoding.Escape(e, slash) + "" == UrlEncoding.Escape(e, slash);
  }

  /** The path "a/~ " and one byte outside ASCII, with and without the slash escaped. */
  lemma EscapedVector(slash: bool)
    ensures UrlEncoding.Escaped([97, 47, 126, 32, 195], slash) == if slash then "a%2F~%20%C3" else "a/~%20%C3"
  {
    hide *;
    EscapeFive(97, 47, 126, 32, 195, slash);
    EscapeValues(slash);
    assert "a" + ("%2F" + ("~" + ("%20" + "%C3"))) == "a%2F~%20%C3";
    assert "a" + ("/" + ("~" + ("%20" + "%C3"))) == "a/~%20%C3";
  }

  lemma TextOfWord(a: Byte, b: Byte, c: Byte, d: Byte)
    ensures Hex.Text([a, b, c, d]) == Hex.Pair(a) + Hex.Pair(b) + Hex.Pair(c) + Hex.Pair(d)
  {
    hide Hex.Pair;
    var s := [a, b, c, d];
    assert s[1..] == [b, c, d];
    assert s[1..][1..] == [c, d];
    assert s[1..][1..][1..] == [d];
    assert s[1..][1..][1..][1..] == [];
    assert Hex.Text([]) == [];
    assert Hex.Text([d]) == Hex.Pair(d);
    assert Hex.Text([c, d]) == Hex.Pair(c) + Hex.Pair(d);
    assert Hex.Text([b, c, d]) == Hex.Pair(b) + Hex.Pair(c) + Hex.Pair(d);
  }

  lemma TextOfFour(p: seq<Byte>, q: seq<Byte>, r: seq<Byte>, s: seq<Byte>)
    ensures Hex.Text(p + q + r + s) == Hex.Text(p) + Hex.Text(q) + Hex.Text(r) + Hex.Text(s)
  {
    hide *;
    TransferIds.TextOfConcat(p, q);
    TransferIds.TextOfConcat(p + q, r);
    TransferIds.TextOfConcat(p + q + r, s);
  }

  /** The text of the first half of the digest of "abc". */
  lemma FirstHalf()
    ensures Hex.Text([186, 120, 22, 191] + [143, 1, 207, 234] + [65, 65, 64, 222] + [93, 174, 34, 35]) ==
            "ba7816bf" + "8f01cfea" + "414140de" + "5dae2223"
  {
    FirstPairs();
    hide *;
    TextOfWord(186, 120, 22, 191);
    TextOfWord(143, 1, 207, 234);
    TextOfWord(65, 65, 64, 222);
    TextOfWord(93, 174, 34, 35);
    TextOfFour([186, 120, 22, 191], [143, 1, 207, 234], [65, 65, 64, 222], [93, 174, 34, 35]);
  }

  /** The text of its second half. */
  lemma SecondHalf()
    ensures Hex.Text([176, 3, 97, 163] + [150, 23, 122, 156] + [180, 16, 255, 97] + [242, 0, 21, 173]) ==
            "b00361a3" + "96177a9c" + "b410ff61" + "f20015ad"
  {
    SecondPairs();
    hide *;
    TextOfWord(176, 3, 97, 163);
    TextOfWord(150, 23, 122, 156);
    TextOfWord(180, 16, 255, 97);
    TextOfWord(242, 0, 21, 173);
    TextOfFour([176, 3, 97, 163], [150, 23, 122, 156], [180, 16, 255, 97], [242, 0, 21, 173]);
  }

  lemma FirstPairs()
    ensures Hex.Pair(186) + Hex.Pair(120) + Hex.Pair(22) + Hex.Pair(191) == "ba7816bf"
    ensures Hex.Pair(143) + Hex.Pair(1) + Hex.Pair(207) + Hex.Pair(234) == "8f01cfea"
    ensures Hex.Pair(65) + Hex.Pair(65) + Hex.Pair(64) + Hex.Pair(222) == "414140de"
    ensures Hex.Pair(93) + Hex.Pair(174) + Hex.Pair(34) + Hex.Pair(35) == "5dae2223"
  {
    assert Hex.Pair(186) == "ba" && Hex.Pair(120) == "78" && Hex.Pair(22) == "16" && Hex.Pair(191) == "bf";
    assert Hex.Pair(143) == "8f" && Hex.Pair(1) == "01" && Hex.Pair(207) == "cf" && Hex.Pair(234) == "ea";
    assert Hex.Pair(65) == "41" && Hex.Pair(65) == "41" && Hex.Pair(64) == "40" && Hex.Pair(222) == "de";
    assert Hex.Pair(93) == "5d" && Hex.Pair(174) == "ae" && Hex.Pair(34) == "22" && Hex.Pair(35) == "23";
    hide Hex.Pair;
  }

  lemma SecondPairs()
    ensures Hex.Pair(176) + Hex.Pair(3) + Hex.Pair(97) + Hex.Pair(163) == "b00361a3"
    ensures Hex.Pair(150) + Hex.Pair(23) + Hex.Pair(122) + Hex.Pair(156) == "96177a9c"
    ensures Hex.Pair(180) + Hex.Pair(16) + Hex.Pair(255) + Hex.Pair(97) == "b410ff61"
    ensures Hex.Pair(242) + Hex.Pair(0) + Hex.Pair(21) + Hex.Pair(173) == "f20015ad"
  {
    assert Hex.Pair(176) == "b0" && Hex.Pair(3) == "03" && Hex.Pair(97) == "61" && Hex.Pair(163) == "a3";
    assert Hex.Pair(150) == "96" && Hex.Pair(23) == "17" && Hex.Pair(122) == "7a" && Hex.Pair(156) == "9c";
    assert Hex.Pair(180) == "b4" && Hex.Pair(16) == "10" && Hex.Pair(255) == "ff" && Hex.Pair(97) == "61";
    assert Hex.Pair(242) == "f2" && Hex.Pair(0) == "00" && Hex.Pair(21) == "15" && Hex.Pair(173) == "ad";
    hide Hex.Pair;
  }

  lemma DigestInHalves()
    ensures Sha256.Digest([97, 98, 99]) ==
            ([186, 120, 22, 191] + [143, 1, 207, 234] + [65, 65, 64, 222] + [93, 174, 34, 35]) +
            ([176, 3, 97, 163] + [150, 23, 122, 156] + [180, 16, 255, 97] + [242, 0, 21, 173])
  {
    hide *;
    Sha256Values.DigestOfAbc();
  }

  /** The text that FIPS 180-4 gives for the digest of "abc". */
  lemma TextOfAbc()
    ensures Hex.Text(Sha256.Digest([97, 98, 99])) ==
            ("ba7816bf" + "8f01cfea" + "414140de" + "5dae2223") +
            ("b00361a3" + "96177a9c" + "b410ff61" + "f20015ad")
  {
    hide *;
    DigestInHalves();
    FirstHalf();
    SecondHalf();
    TransferIds.TextOfConcat([186, 120, 22, 191] + [143, 1, 207, 234] + [65, 65, 64, 222] + [93, 174, 34, 35],
                             [176, 3, 97, 163] + [150, 23, 122, 156] + [180, 16, 255, 97] + [242, 0, 21, 173]);
  }
}
