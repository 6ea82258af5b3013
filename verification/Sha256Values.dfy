/**
 SHA-256 pinned by literals: what the bit functions do, where the constants
 come from (section 4.2.2 and 5.3.3 of FIPS 180-4), and the digest of "abc" by
 way of every schedule word and every round.
 */
module Sha256Values {
  import opened Bytes
  import opened Sha256
  import Hex

  // ---- The functions on bits -------------------------------------------------

  /** `Ch` takes `y` on the bits that are set in `x`, and `z` on the others. */
  lemma ChChooses(x: bv32, y: bv32, z: bv32)
    ensures ChBits(x, y, z) & x == y & x
    ensures ChBits(x, y, z) & !x == z & !x
  {
  }

  /** `Maj` is set exactly where at least two of its arguments are. */
  lemma MajIsMajority(x: bv32, y: bv32, z: bv32)
    ensures MajBits(x, y, z) == (x & y) | (x & z) | (y & z)
  {
  }

  /** `Rotr` rotates, by each of the amounts in use. */
  lemma RotrRotates(x: bv32)
    ensures Rotr(x, 2) == x.RotateRight(2) && Rotr(x, 6) == x.RotateRight(6) && Rotr(x, 7) == x.RotateRight(7)
    ensures Rotr(x, 11) == x.RotateRight(11) && Rotr(x, 13) == x.RotateRight(13) && Rotr(x, 17) == x.RotateRight(17)
    ensures Rotr(x, 18) == x.RotateRight(18) && Rotr(x, 19) == x.RotateRight(19) && Rotr(x, 22) == x.RotateRight(22)
    ensures Rotr(x, 25) == x.RotateRight(25)
  {
  }

  // ---- The constants ----------------------------------------------------------

  /** The first 64 primes. */
  const PRIMES: seq<nat> :=
    ([2, 3, 5, 7, 11, 13, 17, 19] +
    [23, 29, 31, 37, 41, 43, 47, 53]) +
    ([59, 61, 67, 71, 73, 79, 83, 89] +
    [97, 101, 103, 107, 109, 113, 127, 131]) +
    ([137, 139, 149, 151, 157, 163, 167, 173] +
    [179, 181, 191, 193, 197, 199, 211, 223]) +
    ([227, 229, 233, 239, 241, 251, 257, 263] +
    [269, 271, 277, 281, 283, 293, 307, 311])

  /** `n` is the first 32 fraction bits of the cube root of `p`, of which `whole` is the whole part. */
  predicate CubeRootFraction(n: nat, p: nat, whole: nat) {
    var x := whole * 0x1_0000_0000 + n;
    n < 0x1_0000_0000 && x * x * x <= p * 0x1_0000_0000_0000_0000_0000_0000 < (x + 1) * (x + 1) * (x + 1)
  }

  predicate SquareRootFraction(n: nat, p: nat, whole: nat) {
    var x := whole * 0x1_0000_0000 + n;
    n < 0x1_0000_0000 && x * x <= p * 0x1_0000_0000_0000_0000 < (x + 1) * (x + 1)
  }

  lemma Constants0()
    ensures K[0] == W(0x428a2f98) && PRIMES[0] == 2
    ensures K[1] == W(0x71374491) && PRIMES[1] == 3
    ensures K[2] == W(0xb5c0fbcf) && PRIMES[2] == 5
    ensures K[3] == W(0xe9b5dba5) && PRIMES[3] == 7
    ensures K[4] == W(0x3956c25b) && PRIMES[4] == 11
    ensures K[5] == W(0x59f111f1) && PRIMES[5] == 13
    ensures K[6] == W(0x923f82a4) && PRIMES[6] == 17
    ensures K[7] == W(0xab1c5ed5) && PRIMES[7] == 19
  {
  }

  lemma Fractions0()
    ensures CubeRootFraction(0x428a2f98, 2, 1)
    ensures CubeRootFraction(0x71374491, 3, 1)
    ensures CubeRootFraction(0xb5c0fbcf, 5, 1)
    ensures CubeRootFraction(0xe9b5dba5, 7, 1)
    ensures CubeRootFraction(0x3956c25b, 11, 2)
    ensures CubeRootFraction(0x59f111f1, 13, 2)
    ensures CubeRootFraction(0x923f82a4, 17, 2)
    ensures CubeRootFraction(0xab1c5ed5, 19, 2)
  {
  }

  /** Constants 0 to 7 are the fractions of the cube roots of their primes. */
  lemma RoundConstants0()
    ensures K[0] == W(0x428a2f98) && PRIMES[0] == 2 && CubeRootFraction(0x428a2f98, 2, 1)
    ensures K[1] == W(0x71374491) && PRIMES[1] == 3 && CubeRootFraction(0x71374491, 3, 1)
    ensures K[2] == W(0xb5c0fbcf) && PRIMES[2] == 5 && CubeRootFraction(0xb5c0fbcf, 5, 1)
    ensures K[3] == W(0xe9b5dba5) && PRIMES[3] == 7 && CubeRootFraction(0xe9b5dba5, 7, 1)
    ensures K[4] == W(0x3956c25b) && PRIMES[4] == 11 && CubeRootFraction(0x3956c25b, 11, 2)
    ensures K[5] == W(0x59f111f1) && PRIMES[5] == 13 && CubeRootFraction(0x59f111f1, 13, 2)
    ensures K[6] == W(0x923f82a4) && PRIMES[6] == 17 && CubeRootFraction(0x923f82a4, 17, 2)
    ensures K[7] == W(0xab1c5ed5) && PRIMES[7] == 19 && CubeRootFraction(0xab1c5ed5, 19, 2)
  {
    hide CubeRootFraction;
    Constants0();
    Fractions0();
  }

  lemma Constants1()
    ensures K[8] == W(0xd807aa98) && PRIMES[8] == 23
    ensures K[9] == W(0x12835b01) && PRIMES[9] == 29
    ensures K[10] == W(0x243185be) && PRIMES[10] == 31
    ensures K[11] == W(0x550c7dc3) && PRIMES[11] == 37
    ensures K[12] == W(0x72be5d74) && PRIMES[12] == 41
    ensures K[13] == W(0x80deb1fe) && PRIMES[13] == 43
    ensures K[14] == W(0x9bdc06a7) && PRIMES[14] == 47
    ensures K[15] == W(0xc19bf174) && PRIMES[15] == 53
  {
  }

  lemma Fractions1()
    ensures CubeRootFraction(0xd807aa98, 23, 2)
    ensures CubeRootFraction(0x12835b01, 29, 3)
    ensures CubeRootFraction(0x243185be, 31, 3)
    ensures CubeRootFraction(0x550c7dc3, 37, 3)
    ensures CubeRootFraction(0x72be5d74, 41, 3)
    ensures CubeRootFraction(0x80deb1fe, 43, 3)
    ensures CubeRootFraction(0x9bdc06a7, 47, 3)
    ensures CubeRootFraction(0xc19bf174, 53, 3)
  {
  }

  /** Constants 8 to 15 are the fractions of the cube roots of their primes. */
  lemma RoundConstants1()
    ensures K[8] == W(0xd807aa98) && PRIMES[8] == 23 && CubeRootFraction(0xd807aa98, 23, 2)
    ensures K[9] == W(0x12835b01) && PRIMES[9] == 29 && CubeRootFraction(0x12835b01, 29, 3)
    ensures K[10] == W(0x243185be) && PRIMES[10] == 31 && CubeRootFraction(0x243185be, 31, 3)
    ensures K[11] == W(0x550c7dc3) && PRIMES[11] == 37 && CubeRootFraction(0x550c7dc3, 37, 3)
    ensures K[12] == W(0x72be5d74) && PRIMES[12] == 41 && CubeRootFraction(0x72be5d74, 41, 3)
    ensures K[13] == W(0x80deb1fe) && PRIMES[13] == 43 && CubeRootFraction(0x80deb1fe, 43, 3)
    ensures K[14] == W(0x9bdc06a7) && PRIMES[14] == 47 && CubeRootFraction(0x9bdc06a7, 47, 3)
    ensures K[15] == W(0xc19bf174) && PRIMES[15] == 53 && CubeRootFraction(0xc19bf174, 53, 3)
  {
    hide CubeRootFraction;
    Constants1();
    Fractions1();
  }

  lemma Constants2()
    ensures K[16] == W(0xe49b69c1) && PRIMES[16] == 59
    ensures K[17] == W(0xefbe4786) && PRIMES[17] == 61
    ensures K[18] == W(0x0fc19dc6) && PRIMES[18] == 67
    ensures K[19] == W(0x240ca1cc) && PRIMES[19] == 71
    ensures K[20] == W(0x2de92c6f) && PRIMES[20] == 73
    ensures K[21] == W(0x4a7484aa) && PRIMES[21] == 79
    ensures K[22] == W(0x5cb0a9dc) && PRIMES[22] == 83
    ensures K[23] == W(0x76f988da) && PRIMES[23] == 89
  {
  }

  lemma Fractions2()
    ensures CubeRootFraction(0xe49b69c1, 59, 3)
    ensures CubeRootFraction(0xefbe4786, 61, 3)
    ensures CubeRootFraction(0x0fc19dc6, 67, 4)
    ensures CubeRootFraction(0x240ca1cc, 71, 4)
    ensures CubeRootFraction(0x2de92c6f, 73, 4)
    ensures CubeRootFraction(0x4a7484aa, 79, 4)
    ensures CubeRootFraction(0x5cb0a9dc, 83, 4)
    ensures CubeRootFraction(0x76f988da, 89, 4)
  {
  }

  /** Constants 16 to 23 are the fractions of the cube roots of their primes. */
  lemma RoundConstants2()
    ensures K[16] == W(0xe49b69c1) && PRIMES[16] == 59 && CubeRootFraction(0xe49b69c1, 59, 3)
    ensures K[17] == W(0xefbe4786) && PRIMES[17] == 61 && CubeRootFraction(0xefbe4786, 61, 3)
    ensures K[18] == W(0x0fc19dc6) && PRIMES[18] == 67 && CubeRootFraction(0x0fc19dc6, 67, 4)
    ensures K[19] == W(0x240ca1cc) && PRIMES[19] == 71 && CubeRootFraction(0x240ca1cc, 71, 4)
    ensures K[20] == W(0x2de92c6f) && PRIMES[20] == 73 && CubeRootFraction(0x2de92c6f, 73, 4)
    ensures K[21] == W(0x4a7484aa) && PRIMES[21] == 79 && CubeRootFraction(0x4a7484aa, 79, 4)
    ensures K[22] == W(0x5cb0a9dc) && PRIMES[22] == 83 && CubeRootFraction(0x5cb0a9dc, 83, 4)
    ensures K[23] == W(0x76f988da) && PRIMES[23] == 89 && CubeRootFraction(0x76f988da, 89, 4)
  {
    hide CubeRootFraction;
    Constants2();
    Fractions2();
  }

  lemma Constants3()
    ensures K[24] == W(0x983e5152) && PRIMES[24] == 97
    ensures K[25] == W(0xa831c66d) && PRIMES[25] == 101
    ensures K[26] == W(0xb00327c8) && PRIMES[26] == 103
    ensures K[27] == W(0xbf597fc7) && PRIMES[27] == 107
    ensures K[28] == W(0xc6e00bf3) && PRIMES[28] == 109
    ensures K[29] == W(0xd5a79147) && PRIMES[29] == 113
    ensures K[30] == W(0x06ca6351) && PRIMES[30] == 127
    ensures K[31] == W(0x14292967) && PRIMES[31] == 131
  {
  }

  lemma Fractions3()
    ensures CubeRootFraction(0x983e5152, 97, 4)
    ensures CubeRootFraction(0xa831c66d, 101, 4)
    ensures CubeRootFraction(0xb00327c8, 103, 4)
    ensures CubeRootFraction(0xbf597fc7, 107, 4)
    ensures CubeRootFraction(0xc6e00bf3, 109, 4)
    ensures CubeRootFraction(0xd5a79147, 113, 4)
    ensures CubeRootFraction(0x06ca6351, 127, 5)
    ensures CubeRootFraction(0x14292967, 131, 5)
  {
  }

  /** Constants 24 to 31 are the fractions of the cube roots of their primes. */
  lemma RoundConstants3()
    ensures K[24] == W(0x983e5152) && PRIMES[24] == 97 && CubeRootFraction(0x983e5152, 97, 4)
    ensures K[25] == W(0xa831c66d) && PRIMES[25] == 101 && CubeRootFraction(0xa831c66d, 101, 4)
    ensures K[26] == W(0xb00327c8) && PRIMES[26] == 103 && CubeRootFraction(0xb00327c8, 103, 4)
    ensures K[27] == W(0xbf597fc7) && PRIMES[27] == 107 && CubeRootFraction(0xbf597fc7, 107, 4)
    ensures K[28] == W(0xc6e00bf3) && PRIMES[28] == 109 && CubeRootFraction(0xc6e00bf3, 109, 4)
    ensures K[29] == W(0xd5a79147) && PRIMES[29] == 113 && CubeRootFraction(0xd5a79147, 113, 4)
    ensures K[30] == W(0x06ca6351) && PRIMES[30] == 127 && CubeRootFraction(0x06ca6351, 127, 5)
    ensures K[31] == W(0x14292967) && PRIMES[31] == 131 && CubeRootFraction(0x14292967, 131, 5)
  {
    hide CubeRootFraction;
    Constants3();
    Fractions3();
  }

  lemma Constants4()
    ensures K[32] == W(0x27b70a85) && PRIMES[32] == 137
    ensures K[33] == W(0x2e1b2138) && PRIMES[33] == 139
    ensures K[34] == W(0x4d2c6dfc) && PRIMES[34] == 149
    ensures K[35] == W(0x53380d13) && PRIMES[35] == 151
    ensures K[36] == W(0x650a7354) && PRIMES[36] == 157
    ensures K[37] == W(0x766a0abb) && PRIMES[37] == 163
    ensures K[38] == W(0x81c2c92e) && PRIMES[38] == 167
    ensures K[39] == W(0x92722c85) && PRIMES[39] == 173
  {
  }

  lemma Fractions4()
    ensures CubeRootFraction(0x27b70a85, 137, 5)
    ensures CubeRootFraction(0x2e1b2138, 139, 5)
    ensures CubeRootFraction(0x4d2c6dfc, 149, 5)
    ensures CubeRootFraction(0x53380d13, 151, 5)
    ensures CubeRootFraction(0x650a7354, 157, 5)
    ensures CubeRootFraction(0x766a0abb, 163, 5)
    ensures CubeRootFraction(0x81c2c92e, 167, 5)
    ensures CubeRootFraction(0x92722c85, 173, 5)
  {
  }

  /** Constants 32 to 39 are the fractions of the cube roots of their primes. */
  lemma RoundConstants4()
    ensures K[32] == W(0x27b70a85) && PRIMES[32] == 137 && CubeRootFraction(0x27b70a85, 137, 5)
    ensures K[33] == W(0x2e1b2138) && PRIMES[33] == 139 && CubeRootFraction(0x2e1b2138, 139, 5)
    ensures K[34] == W(0x4d2c6dfc) && PRIMES[34] == 149 && CubeRootFraction(0x4d2c6dfc, 149, 5)
    ensures K[35] == W(0x53380d13) && PRIMES[35] == 151 && CubeRootFraction(0x53380d13, 151, 5)
    ensures K[36] == W(0x650a7354) && PRIMES[36] == 157 && CubeRootFraction(0x650a7354, 157, 5)
    ensures K[37] == W(0x766a0abb) && PRIMES[37] == 163 && CubeRootFraction(0x766a0abb, 163, 5)
    ensures K[38] == W(0x81c2c92e) && PRIMES[38] == 167 && CubeRootFraction(0x81c2c92e, 167, 5)
    ensures K[39] == W(0x92722c85) && PRIMES[39] == 173 && CubeRootFraction(0x92722c85, 173, 5)
  {
    hide CubeRootFraction;
    Constants4();
    Fractions4();
  }

  lemma Constants5()
    ensures K[40] == W(0xa2bfe8a1) && PRIMES[40] == 179
    ensures K[41] == W(0xa81a664b) && PRIMES[41] == 181
    ensures K[42] == W(0xc24b8b70) && PRIMES[42] == 191
    ensures K[43] == W(0xc76c51a3) && PRIMES[43] == 193
    ensures K[44] == W(0xd192e819) && PRIMES[44] == 197
    ensures K[45] == W(0xd6990624) && PRIMES[45] == 199
    ensures K[46] == W(0xf40e3585) && PRIMES[46] == 211
    ensures K[47] == W(0x106aa070) && PRIMES[47] == 223
  {
  }

  lemma Fractions5()
    ensures CubeRootFraction(0xa2bfe8a1, 179, 5)
    ensures CubeRootFraction(0xa81a664b, 181, 5)
    ensures CubeRootFraction(0xc24b8b70, 191, 5)
    ensures CubeRootFraction(0xc76c51a3, 193, 5)
    ensures CubeRootFraction(0xd192e819, 197, 5)
    ensures CubeRootFraction(0xd6990624, 199, 5)
    ensures CubeRootFraction(0xf40e3585, 211, 5)
    ensures CubeRootFraction(0x106aa070, 223, 6)
  {
  }

  /** Constants 40 to 47 are the fractions of the cube roots of their primes. */
  lemma RoundConstants5()
    ensures K[40] == W(0xa2bfe8a1) && PRIMES[40] == 179 && CubeRootFraction(0xa2bfe8a1, 179, 5)
    ensures K[41] == W(0xa81a664b) && PRIMES[41] == 181 && CubeRootFraction(0xa81a664b, 181, 5)
    ensures K[42] == W(0xc24b8b70) && PRIMES[42] == 191 && CubeRootFraction(0xc24b8b70, 191, 5)
    ensures K[43] == W(0xc76c51a3) && PRIMES[43] == 193 && CubeRootFraction(0xc76c51a3, 193, 5)
    ensures K[44] == W(0xd192e819) && PRIMES[44] == 197 && CubeRootFraction(0xd192e819, 197, 5)
    ensures K[45] == W(0xd6990624) && PRIMES[45] == 199 && CubeRootFraction(0xd6990624, 199, 5)
    ensures K[46] == W(0xf40e3585) && PRIMES[46] == 211 && CubeRootFraction(0xf40e3585, 211, 5)
    ensures K[47] == W(0x106aa070) && PRIMES[47] == 223 && CubeRootFraction(0x106aa070, 223, 6)
  {
    hide CubeRootFraction;
    Constants5();
    Fractions5();
  }

  lemma Constants6()
    ensures K[48] == W(0x19a4c116) && PRIMES[48] == 227
    ensures K[49] == W(0x1e376c08) && PRIMES[49] == 229
    ensures K[50] == W(0x2748774c) && PRIMES[50] == 233
    ensures K[51] == W(0x34b0bcb5) && PRIMES[51] == 239
    ensures K[52] == W(0x391c0cb3) && PRIMES[52] == 241
    ensures K[53] == W(0x4ed8aa4a) && PRIMES[53] == 251
    ensures K[54] == W(0x5b9cca4f) && PRIMES[54] == 257
    ensures K[55] == W(0x682e6ff3) && PRIMES[55] == 263
  {
  }

  lemma Fractions6()
    ensures CubeRootFraction(0x19a4c116, 227, 6)
    ensures CubeRootFraction(0x1e376c08, 229, 6)
    ensures CubeRootFraction(0x2748774c, 233, 6)
    ensures CubeRootFraction(0x34b0bcb5, 239, 6)
    ensures CubeRootFraction(0x391c0cb3, 241, 6)
    ensures CubeRootFraction(0x4ed8aa4a, 251, 6)
    ensures CubeRootFraction(0x5b9cca4f, 257, 6)
    ensures CubeRootFraction(0x682e6ff3, 263, 6)
  {
  }

  /** Constants 48 to 55 are the fractions of the cube roots of their primes. */
  lemma RoundConstants6()
    ensures K[48] == W(0x19a4c116) && PRIMES[48] == 227 && CubeRootFraction(0x19a4c116, 227, 6)
    ensures K[49] == W(0x1e376c08) && PRIMES[49] == 229 && CubeRootFraction(0x1e376c08, 229, 6)
    ensures K[50] == W(0x2748774c) && PRIMES[50] == 233 && CubeRootFraction(0x2748774c, 233, 6)
    ensures K[51] == W(0x34b0bcb5) && PRIMES[51] == 239 && CubeRootFraction(0x34b0bcb5, 239, 6)
    ensures K[52] == W(0x391c0cb3) && PRIMES[52] == 241 && CubeRootFraction(0x391c0cb3, 241, 6)
    ensures K[53] == W(0x4ed8aa4a) && PRIMES[53] == 251 && CubeRootFraction(0x4ed8aa4a, 251, 6)
    ensures K[54] == W(0x5b9cca4f) && PRIMES[54] == 257 && CubeRootFraction(0x5b9cca4f, 257, 6)
    ensures K[55] == W(0x682e6ff3) && PRIMES[55] == 263 && CubeRootFraction(0x682e6ff3, 263, 6)
  {
    hide CubeRootFraction;
    Constants6();
    Fractions6();
  }

  lemma Constants7()
    ensures K[56] == W(0x748f82ee) && PRIMES[56] == 269
    ensures K[57] == W(0x78a5636f) && PRIMES[57] == 271
    ensures K[58] == W(0x84c87814) && PRIMES[58] == 277
    ensures K[59] == W(0x8cc70208) && PRIMES[59] == 281
    ensures K[60] == W(0x90befffa) && PRIMES[60] == 283
    ensures K[61] == W(0xa4506ceb) && PRIMES[61] == 293
    ensures K[62] == W(0xbef9a3f7) && PRIMES[62] == 307
    ensures K[63] == W(0xc67178f2) && PRIMES[63] == 311
  {
  }

  lemma Fractions7()
    ensures CubeRootFraction(0x748f82ee, 269, 6)
    ensures CubeRootFraction(0x78a5636f, 271, 6)
    ensures CubeRootFraction(0x84c87814, 277, 6)
    ensures CubeRootFraction(0x8cc70208, 281, 6)
    ensures CubeRootFraction(0x90befffa, 283, 6)
    ensures CubeRootFraction(0xa4506ceb, 293, 6)
    ensures CubeRootFraction(0xbef9a3f7, 307, 6)
    ensures CubeRootFraction(0xc67178f2, 311, 6)
  {
  }

  /** Constants 56 to 63 are the fractions of the cube roots of their primes. */
  lemma RoundConstants7()
    ensures K[56] == W(0x748f82ee) && PRIMES[56] == 269 && CubeRootFraction(0x748f82ee, 269, 6)
    ensures K[57] == W(0x78a5636f) && PRIMES[57] == 271 && CubeRootFraction(0x78a5636f, 271, 6)
    ensures K[58] == W(0x84c87814) && PRIMES[58] == 277 && CubeRootFraction(0x84c87814, 277, 6)
    ensures K[59] == W(0x8cc70208) && PRIMES[59] == 281 && CubeRootFraction(0x8cc70208, 281, 6)
    ensures K[60] == W(0x90befffa) && PRIMES[60] == 283 && CubeRootFraction(0x90befffa, 283, 6)
    ensures K[61] == W(0xa4506ceb) && PRIMES[61] == 293 && CubeRootFraction(0xa4506ceb, 293, 6)
    ensures K[62] == W(0xbef9a3f7) && PRIMES[62] == 307 && CubeRootFraction(0xbef9a3f7, 307, 6)
    ensures K[63] == W(0xc67178f2) && PRIMES[63] == 311 && CubeRootFraction(0xc67178f2, 311, 6)
  {
    hide CubeRootFraction;
    Constants7();
    Fractions7();
  }

  /** The initial hash value, from the square roots of the first eight primes. */
  lemma InitialValue()
    ensures H0[0] == W(0x6a09e667) && SquareRootFraction(0x6a09e667, 2, 1)
    ensures H0[1] == W(0xbb67ae85) && SquareRootFraction(0xbb67ae85, 3, 1)
    ensures H0[2] == W(0x3c6ef372) && SquareRootFraction(0x3c6ef372, 5, 2)
    ensures H0[3] == W(0xa54ff53a) && SquareRootFraction(0xa54ff53a, 7, 2)
    ensures H0[4] == W(0x510e527f) && SquareRootFraction(0x510e527f, 11, 3)
    ensures H0[5] == W(0x9b05688c) && SquareRootFraction(0x9b05688c, 13, 3)
    ensures H0[6] == W(0x1f83d9ab) && SquareRootFraction(0x1f83d9ab, 17, 4)
    ensures H0[7] == W(0x5be0cd19) && SquareRootFraction(0x5be0cd19, 19, 4)
  {
  }

  // ---- The digest of "abc" ----------------------------------------------------

  /** The padded message. */
  const ABC: Block := [97, 98, 99, 0x80] + Zeros(59) + [24]

  lemma PlusIs(x: bv32, y: bv32, z: bv32)
    requires z == x + y
    ensures Plus(x, y) == z
  {
  }

  /** `Rotr` by the amounts in use, with two shifts. */
  lemma RotrShifts(x: bv32)
    ensures Rotr(x, 2) == (x >> 2) | (x << 30) && Rotr(x, 6) == (x >> 6) | (x << 26)
    ensures Rotr(x, 7) == (x >> 7) | (x << 25) && Rotr(x, 11) == (x >> 11) | (x << 21)
    ensures Rotr(x, 13) == (x >> 13) | (x << 19) && Rotr(x, 17) == (x >> 17) | (x << 15)
    ensures Rotr(x, 18) == (x >> 18) | (x << 14) && Rotr(x, 19) == (x >> 19) | (x << 13)
    ensures Rotr(x, 22) == (x >> 22) | (x << 10) && Rotr(x, 25) == (x >> 25) | (x << 7)
  {
  }

  lemma ShrShifts(x: bv32)
    ensures Shr(x, 3) == x >> 3 && Shr(x, 10) == x >> 10
  {
  }

  lemma Rotr2Is(x: bv32, r: bv32)
    requires r == (x >> 2) | (x << 30)
    ensures Rotr(x, 2) == r
  {
    hide Rotr;
    RotrShifts(x);
  }

  lemma Rotr6Is(x: bv32, r: bv32)
    requires r == (x >> 6) | (x << 26)
    ensures Rotr(x, 6) == r
  {
    hide Rotr;
    RotrShifts(x);
  }

  lemma Rotr7Is(x: bv32, r: bv32)
    requires r == (x >> 7) | (x << 25)
    ensures Rotr(x, 7) == r
  {
    hide Rotr;
    RotrShifts(x);
  }

  lemma Rotr11Is(x: bv32, r: bv32)
    requires r == (x >> 11) | (x << 21)
    ensures Rotr(x, 11) == r
  {
    hide Rotr;
    RotrShifts(x);
  }

  lemma Rotr13Is(x: bv32, r: bv32)
    requires r == (x >> 13) | (x << 19)
    ensures Rotr(x, 13) == r
  {
    hide Rotr;
    RotrShifts(x);
  }

  lemma Rotr17Is(x: bv32, r: bv32)
    requires r == (x >> 17) | (x << 15)
    ensures Rotr(x, 17) == r
  {
    hide Rotr;
    RotrShifts(x);
  }

  lemma Rotr18Is(x: bv32, r: bv32)
    requires r == (x >> 18) | (x << 14)
    ensures Rotr(x, 18) == r
  {
    hide Rotr;
    RotrShifts(x);
  }

  lemma Rotr19Is(x: bv32, r: bv32)
    requires r == (x >> 19) | (x << 13)
    ensures Rotr(x, 19) == r
  {
    hide Rotr;
    RotrShifts(x);
  }

  lemma Rotr22Is(x: bv32, r: bv32)
    requires r == (x >> 22) | (x << 10)
    ensures Rotr(x, 22) == r
  {
    hide Rotr;
    RotrShifts(x);
  }

  lemma Rotr25Is(x: bv32, r: bv32)
    requires r == (x >> 25) | (x << 7)
    ensures Rotr(x, 25) == r
  {
    hide Rotr;
    RotrShifts(x);
  }

  lemma Shr3Is(x: bv32, r: bv32)
    requires r == x >> 3
    ensures Shr(x, 3) == r
  {
    hide Shr;
    ShrShifts(x);
  }

  lemma Shr10Is(x: bv32, r: bv32)
    requires r == x >> 10
    ensures Shr(x, 10) == r
  {
    hide Shr;
    ShrShifts(x);
  }

  lemma Xor3Is(x: bv32, y: bv32, z: bv32, r: bv32)
    requires r == x ^ y ^ z
    ensures Xor3(x, y, z) == r
  {
  }

  lemma SigmaDefinitions(x: bv32)
    ensures SmallSigma0Bits(x) == Xor3(Rotr(x, 7), Rotr(x, 18), Shr(x, 3))
    ensures SmallSigma1Bits(x) == Xor3(Rotr(x, 17), Rotr(x, 19), Shr(x, 10))
    ensures BigSigma0Bits(x) == Xor3(Rotr(x, 2), Rotr(x, 13), Rotr(x, 22))
    ensures BigSigma1Bits(x) == Xor3(Rotr(x, 6), Rotr(x, 11), Rotr(x, 25))
  {
    hide Rotr, Shr, Xor3;
  }

  lemma SmallSigma0Is(x: bv32, r1: bv32, r2: bv32, r3: bv32, s: bv32)
    requires r1 == (x >> 7) | (x << 25) && r2 == (x >> 18) | (x << 14) && r3 == x >> 3
    requires s == r1 ^ r2 ^ r3
    ensures SmallSigma0Bits(x) == s
  {
    hide *;
    SigmaDefinitions(x);
    Rotr7Is(x, r1);
    Rotr18Is(x, r2);
    Shr3Is(x, r3);
    Xor3Is(r1, r2, r3, s);
  }

  lemma SmallSigma1Is(x: bv32, r1: bv32, r2: bv32, r3: bv32, s: bv32)
    requires r1 == (x >> 17) | (x << 15) && r2 == (x >> 19) | (x << 13) && r3 == x >> 10
    requires s == r1 ^ r2 ^ r3
    ensures SmallSigma1Bits(x) == s
  {
    hide *;
    SigmaDefinitions(x);
    Rotr17Is(x, r1);
    Rotr19Is(x, r2);
    Shr10Is(x, r3);
    Xor3Is(r1, r2, r3, s);
  }

  lemma BigSigma0Is(x: bv32, r1: bv32, r2: bv32, r3: bv32, s: bv32)
    requires r1 == (x >> 2) | (x << 30) && r2 == (x >> 13) | (x << 19) && r3 == (x >> 22) | (x << 10)
    requires s == r1 ^ r2 ^ r3
    ensures BigSigma0Bits(x) == s
  {
    hide *;
    SigmaDefinitions(x);
    Rotr2Is(x, r1);
    Rotr13Is(x, r2);
    Rotr22Is(x, r3);
    Xor3Is(r1, r2, r3, s);
  }

  lemma BigSigma1Is(x: bv32, r1: bv32, r2: bv32, r3: bv32, s: bv32)
    requires r1 == (x >> 6) | (x << 26) && r2 == (x >> 11) | (x << 21) && r3 == (x >> 25) | (x << 7)
    requires s == r1 ^ r2 ^ r3
    ensures BigSigma1Bits(x) == s
  {
    hide *;
    SigmaDefinitions(x);
    Rotr6Is(x, r1);
    Rotr11Is(x, r2);
    Rotr25Is(x, r3);
    Xor3Is(r1, r2, r3, s);
  }

  lemma ChoicesAre(e: bv32, f: bv32, g: bv32, a: bv32, b: bv32, c: bv32, ch: bv32, maj: bv32)
    requires ch == (e & f) ^ (!e & g) && maj == (a & b) ^ (a & c) ^ (b & c)
    ensures ChBits(e, f, g) == ch && MajBits(a, b, c) == maj
  {
  }

  lemma SumIs(x: bv32, y: bv32, z: bv32)
    requires Plus(x, y) == z
    ensures Add(W(x), W(y)) == W(z)
  {
    hide Plus;
  }

  lemma WordsAre(x: bv32, s0: bv32, y: bv32, s1: bv32)
    requires SmallSigma0Bits(x) == s0 && SmallSigma1Bits(y) == s1
    ensures SmallSigma0(W(x)) == W(s0) && SmallSigma1(W(y)) == W(s1)
  {
    hide SmallSigma0Bits, SmallSigma1Bits;
  }

  /** One word of the schedule beyond the block, from the bits of four earlier ones. */
  lemma ScheduleStep(t: nat, w16: bv32, w15: bv32, w7: bv32, w2: bv32, s0: bv32, s1: bv32,
                     p: bv32, q: bv32, w: bv32)
    requires 16 <= t < 64 && Schedule(ABC, t - 16) == W(w16) && Schedule(ABC, t - 15) == W(w15)
    requires Schedule(ABC, t - 7) == W(w7) && Schedule(ABC, t - 2) == W(w2)
    requires SmallSigma0Bits(w15) == s0 && SmallSigma1Bits(w2) == s1
    requires p == w16 + s0 && q == p + w7 && w == q + s1
    ensures Schedule(ABC, t) == W(w)
  {
    hide *;
    ScheduleByCase(ABC, t);
    WordsAre(w15, s0, w2, s1);
    PlusIs(w16, s0, p);
    PlusIs(p, w7, q);
    PlusIs(q, s1, w);
    SumIs(w16, s0, p);
    SumIs(p, w7, q);
    SumIs(q, s1, w);
  }

  lemma RoundDefinition(t: nat)
    requires t < 64
    ensures var v := Rounds(H0, ABC, t);
            var t1 := Add(Add(Add(Add(v[7], BigSigma1(v[4])), Ch(v[4], v[5], v[6])), K[t]), Schedule(ABC, t));
            var t2 := Add(BigSigma0(v[0]), Maj(v[0], v[1], v[2]));
            Rounds(H0, ABC, t + 1) == [Add(t1, t2), v[0], v[1], v[2], Add(v[3], t1), v[4], v[5], v[6]]
  {
    hide Schedule, Add, BigSigma0, BigSigma1, Ch, Maj;
  }

  lemma FunctionsAre(a: bv32, b: bv32, c: bv32, e: bv32, f: bv32, g: bv32, s0: bv32, s1: bv32, ch: bv32, maj: bv32)
    requires BigSigma0Bits(a) == s0 && BigSigma1Bits(e) == s1 && ChBits(e, f, g) == ch && MajBits(a, b, c) == maj
    ensures BigSigma0(W(a)) == W(s0) && BigSigma1(W(e)) == W(s1)
    ensures Ch(W(e), W(f), W(g)) == W(ch) && Maj(W(a), W(b), W(c)) == W(maj)
  {
    hide BigSigma0Bits, BigSigma1Bits, ChBits, MajBits;
  }

  /** One round, on plain bit vectors: the sums `p`, `q`, `r` lead to `t1`, then `t2` and the two new variables. */
  lemma Round(t: nat, a: bv32, b: bv32, c: bv32, d: bv32, e: bv32, f: bv32, g: bv32, h: bv32, k: bv32, w: bv32,
              s0: bv32, s1: bv32, ch: bv32, maj: bv32, p: bv32, q: bv32, r: bv32, t1: bv32, t2: bv32,
              a1: bv32, e1: bv32)
    requires t < 64 && Rounds(H0, ABC, t) == [W(a), W(b), W(c), W(d), W(e), W(f), W(g), W(h)]
    requires K[t] == W(k) && Schedule(ABC, t) == W(w)
    requires BigSigma0Bits(a) == s0 && BigSigma1Bits(e) == s1
    requires ch == (e & f) ^ (!e & g) && maj == (a & b) ^ (a & c) ^ (b & c)
    requires p == h + s1 && q == p + ch && r == q + k && t1 == r + w && t2 == s0 + maj
    requires a1 == t1 + t2 && e1 == d + t1
    ensures Rounds(H0, ABC, t + 1) == [W(a1), W(a), W(b), W(c), W(e1), W(e), W(f), W(g)]
  {
    hide *;
    RoundDefinition(t);
    ChoicesAre(e, f, g, a, b, c, ch, maj);
    FunctionsAre(a, b, c, e, f, g, s0, s1, ch, maj);
    RoundSums(d, h, k, w, s0, s1, ch, maj, p, q, r, t1, t2, a1, e1);
  }

  lemma RoundSums(d: bv32, h: bv32, k: bv32, w: bv32, s0: bv32, s1: bv32, ch: bv32, maj: bv32,
                  p: bv32, q: bv32, r: bv32, t1: bv32, t2: bv32, a1: bv32, e1: bv32)
    requires p == h + s1 && q == p + ch && r == q + k && t1 == r + w && t2 == s0 + maj
    requires a1 == t1 + t2 && e1 == d + t1
    ensures Add(Add(Add(Add(W(h), W(s1)), W(ch)), W(k)), W(w)) == W(t1) && Add(W(s0), W(maj)) == W(t2)
    ensures Add(W(t1), W(t2)) == W(a1) && Add(W(d), W(t1)) == W(e1)
  {
    hide *;
    PlusIs(h, s1, p);
    PlusIs(p, ch, q);
    PlusIs(q, k, r);
    PlusIs(r, w, t1);
    PlusIs(s0, maj, t2);
    PlusIs(t1, t2, a1);
    PlusIs(d, t1, e1);
    SumIs(h, s1, p);
    SumIs(p, ch, q);
    SumIs(q, k, r);
    SumIs(r, w, t1);
    SumIs(s0, maj, t2);
    SumIs(t1, t2, a1);
    SumIs(d, t1, e1);
  }

  lemma FirstWords()
    ensures WordOf(97, 98, 99, 128) == W(0x61626380)
    ensures WordOf(0, 0, 0, 24) == W(0x00000018)
    ensures WordOf(0, 0, 0, 0) == W(0x00000000)
  {
  }

  /** The block itself. */
  lemma FirstBytes()
    ensures ABC[0] == 97 && ABC[1] == 98 && ABC[2] == 99 && ABC[3] == 0x80 && ABC[60] == 0 && ABC[61] == 0
    ensures ABC[62] == 0 && ABC[63] == 24 && forall k :: 4 <= k < 63 ==> ABC[k] == 0
  {
  }

  lemma Words0()
    ensures Schedule(ABC, 0) == W(0x61626380) && Schedule(ABC, 15) == W(24)
    ensures forall t :: 1 <= t < 15 ==> Schedule(ABC, t) == W(0)
  {
    hide WordOf, Schedule;
    FirstBytes();
    FirstWords();
    ScheduleByCase(ABC, 0);
    ScheduleByCase(ABC, 15);
    forall t | 1 <= t < 15
      ensures Schedule(ABC, t) == W(0)
    {
      ScheduleByCase(ABC, t);
    }
  }

  lemma Words1()
    ensures Schedule(ABC, 16) == W(0x61626380)
    ensures Schedule(ABC, 17) == W(0x000f0000)
    ensures Schedule(ABC, 18) == W(0x7da86405)
    ensures Schedule(ABC, 19) == W(0x600003c6)
    ensures Schedule(ABC, 20) == W(0x3e9d7b78)
    ensures Schedule(ABC, 21) == W(0x0183fc00)
    ensures Schedule(ABC, 22) == W(0x12dcbfdb)
    ensures Schedule(ABC, 23) == W(0xe2e2c38e)
  {
    hide *;
    Words0();
    SmallSigma0Is(0x00000000, 0x00000000, 0x00000000, 0x00000000, 0x00000000);
    SmallSigma1Is(0x00000000, 0x00000000, 0x00000000, 0x00000000, 0x00000000);
    ScheduleStep(16, 0x61626380, 0x00000000, 0x00000000, 0x00000000, 0x00000000,
                 0x00000000, 0x61626380, 0x61626380, 0x61626380);
    SmallSigma0Is(0x00000000, 0x00000000, 0x00000000, 0x00000000, 0x00000000);
    SmallSigma1Is(0x00000018, 0x000c0000, 0x00030000, 0x00000000, 0x000f0000);
    ScheduleStep(17, 0x00000000, 0x00000000, 0x00000000, 0x00000018, 0x00000000,
                 0x000f0000, 0x00000000, 0x00000000, 0x000f0000);
    SmallSigma0Is(0x00000000, 0x00000000, 0x00000000, 0x00000000, 0x00000000);
    SmallSigma1Is(0x61626380, 0x31c030b1, 0x4c700c2c, 0x00185898, 0x7da86405);
    ScheduleStep(18, 0x00000000, 0x00000000, 0x00000000, 0x61626380, 0x00000000,
                 0x7da86405, 0x00000000, 0x00000000, 0x7da86405);
    SmallSigma0Is(0x00000000, 0x00000000, 0x00000000, 0x00000000, 0x00000000);
    SmallSigma1Is(0x000f0000, 0x80000007, 0xe0000001, 0x000003c0, 0x600003c6);
    ScheduleStep(19, 0x00000000, 0x00000000, 0x00000000, 0x000f0000, 0x00000000,
                 0x600003c6, 0x00000000, 0x00000000, 0x600003c6);
    SmallSigma0Is(0x00000000, 0x00000000, 0x00000000, 0x00000000, 0x00000000);
    SmallSigma1Is(0x7da86405, 0x3202bed4, 0x0c80afb5, 0x001f6a19, 0x3e9d7b78);
    ScheduleStep(20, 0x00000000, 0x00000000, 0x00000000, 0x7da86405, 0x00000000,
                 0x3e9d7b78, 0x00000000, 0x00000000, 0x3e9d7b78);
    SmallSigma0Is(0x00000000, 0x00000000, 0x00000000, 0x00000000, 0x00000000);
    SmallSigma1Is(0x600003c6, 0x01e33000, 0x0078cc00, 0x00180000, 0x0183fc00);
    ScheduleStep(21, 0x00000000, 0x00000000, 0x00000000, 0x600003c6, 0x00000000,
                 0x0183fc00, 0x00000000, 0x00000000, 0x0183fc00);
    SmallSigma0Is(0x00000000, 0x00000000, 0x00000000, 0x00000000, 0x00000000);
    SmallSigma1Is(0x3e9d7b78, 0xbdbc1f4e, 0xaf6f07d3, 0x000fa75e, 0x12dcbfc3);
    ScheduleStep(22, 0x00000000, 0x00000000, 0x00000018, 0x3e9d7b78, 0x00000000,
                 0x12dcbfc3, 0x00000000, 0x00000018, 0x12dcbfdb);
    SmallSigma0Is(0x00000000, 0x00000000, 0x00000000, 0x00000000, 0x00000000);
    SmallSigma1Is(0x0183fc00, 0xfe0000c1, 0x7f800030, 0x000060ff, 0x8180600e);
    ScheduleStep(23, 0x00000000, 0x00000000, 0x61626380, 0x0183fc00, 0x00000000,
                 0x8180600e, 0x00000000, 0x61626380, 0xe2e2c38e);
  }

  lemma Words2()
    ensures Schedule(ABC, 24) == W(0xc8215c1a)
    ensures Schedule(ABC, 25) == W(0xb73679a2)
    ensures Schedule(ABC, 26) == W(0xe5bc3909)
    ensures Schedule(ABC, 27) == W(0x32663c5b)
    ensures Schedule(ABC, 28) == W(0x9d209d67)
    ensures Schedule(ABC, 29) == W(0xec8726cb)
    ensures Schedule(ABC, 30) == W(0x702138a4)
    ensures Schedule(ABC, 31) == W(0xd3b7973b)
  {
    hide *;
    Words0();
    Words1();
    SmallSigma0Is(0x00000000, 0x00000000, 0x00000000, 0x00000000, 0x00000000);
    SmallSigma1Is(0x12dcbfdb, 0x5fed896e, 0x97fb625b, 0x0004b72f, 0xc8125c1a);
    ScheduleStep(24, 0x00000000, 0x00000000, 0x000f0000, 0x12dcbfdb, 0x00000000,
                 0xc8125c1a, 0x00000000, 0x000f0000, 0xc8215c1a);
    SmallSigma0Is(0x00000000, 0x00000000, 0x00000000, 0x00000000, 0x00000000);
    SmallSigma1Is(0xe2e2c38e, 0x61c77171, 0x5871dc5c, 0x0038b8b0, 0x398e159d);
    ScheduleStep(25, 0x00000000, 0x00000000, 0x7da86405, 0xe2e2c38e, 0x00000000,
                 0x398e159d, 0x00000000, 0x7da86405, 0xb73679a2);
    SmallSigma0Is(0x00000000, 0x00000000, 0x00000000, 0x00000000, 0x00000000);
    SmallSigma1Is(0xc8215c1a, 0xae0d6410, 0x2b835904, 0x00320857, 0x85bc3543);
    ScheduleStep(26, 0x00000000, 0x00000000, 0x600003c6, 0xc8215c1a, 0x00000000,
                 0x85bc3543, 0x00000000, 0x600003c6, 0xe5bc3909);
    SmallSigma0Is(0x00000000, 0x00000000, 0x00000000, 0x00000000, 0x00000000);
    SmallSigma1Is(0xb73679a2, 0x3cd15b9b, 0xcf3456e6, 0x002dcd9e, 0xf3c8c0e3);
    ScheduleStep(27, 0x00000000, 0x00000000, 0x3e9d7b78, 0xb73679a2, 0x00000000,
                 0xf3c8c0e3, 0x00000000, 0x3e9d7b78, 0x32663c5b);
    SmallSigma0Is(0x00000000, 0x00000000, 0x00000000, 0x00000000, 0x00000000);
    SmallSigma1Is(0xe5bc3909, 0x1c84f2de, 0x87213cb7, 0x00396f0e, 0x9b9ca167);
    ScheduleStep(28, 0x00000000, 0x00000000, 0x0183fc00, 0xe5bc3909, 0x00000000,
                 0x9b9ca167, 0x00000000, 0x0183fc00, 0x9d209d67);
    SmallSigma0Is(0x00000000, 0x00000000, 0x00000000, 0x00000000, 0x00000000);
    SmallSigma1Is(0x32663c5b, 0x1e2d9933, 0xc78b664c, 0x000c998f, 0xd9aa66f0);
    ScheduleStep(29, 0x00000000, 0x00000000, 0x12dcbfdb, 0x32663c5b, 0x00000000,
                 0xd9aa66f0, 0x00000000, 0x12dcbfdb, 0xec8726cb);
    SmallSigma0Is(0x00000018, 0x30000000, 0x00060000, 0x00000003, 0x30060003);
    SmallSigma1Is(0x9d209d67, 0x4eb3ce90, 0x13acf3a4, 0x00274827, 0x5d387513);
    ScheduleStep(30, 0x00000000, 0x00000018, 0xe2e2c38e, 0x9d209d67, 0x30060003,
                 0x5d387513, 0x30060003, 0x12e8c391, 0x702138a4);
    SmallSigma0Is(0x61626380, 0x00c2c4c7, 0x98e01858, 0x0c2c4c70, 0x940e90ef);
    SmallSigma1Is(0xec8726cb, 0x9365f643, 0xe4d97d90, 0x003b21c9, 0x7787aa1a);
    ScheduleStep(31, 0x00000018, 0x61626380, 0xc8215c1a, 0xec8726cb, 0x940e90ef,
                 0x7787aa1a, 0x940e9107, 0x5c2fed21, 0xd3b7973b);
  }

  lemma Words3()
    ensures Schedule(ABC, 32) == W(0x93f5997f)
    ensures Schedule(ABC, 33) == W(0x3b68ba73)
    ensures Schedule(ABC, 34) == W(0xaff4ffc1)
    ensures Schedule(ABC, 35) == W(0xf10a5c62)
    ensures Schedule(ABC, 36) == W(0x0a8b3996)
    ensures Schedule(ABC, 37) == W(0x72af830a)
    ensures Schedule(ABC, 38) == W(0x9409e33e)
    ensures Schedule(ABC, 39) == W(0x24641522)
  {
    hide *;
    Words1();
    Words2();
    SmallSigma0Is(0x000f0000, 0x00001e00, 0xc0000003, 0x0001e000, 0xc001fe03);
    SmallSigma1Is(0x702138a4, 0x9c523810, 0x27148e04, 0x001c084e, 0xbb5abe5a);
    ScheduleStep(32, 0x61626380, 0x000f0000, 0xb73679a2, 0x702138a4, 0xc001fe03,
                 0xbb5abe5a, 0x21646183, 0xd89adb25, 0x93f5997f);
    SmallSigma0Is(0x7da86405, 0x0afb50c8, 0x19015f6a, 0x0fb50c80, 0x1c4f0322);
    SmallSigma1Is(0xd3b7973b, 0xcb9de9db, 0xf2e77a76, 0x0034ede5, 0x394e7e48);
    ScheduleStep(33, 0x000f0000, 0x7da86405, 0xe5bc3909, 0xd3b7973b, 0x1c4f0322,
                 0x394e7e48, 0x1c5e0322, 0x021a3c2b, 0x3b68ba73);
    SmallSigma0Is(0x600003c6, 0x8cc00007, 0x00f19800, 0x0c000078, 0x8031987f);
    SmallSigma1Is(0x93f5997f, 0xccbfc9fa, 0xb32ff27e, 0x0024fd66, 0x7fb4c6e2);
    ScheduleStep(34, 0x7da86405, 0x600003c6, 0x32663c5b, 0x93f5997f, 0x8031987f,
                 0x7fb4c6e2, 0xfdd9fc84, 0x304038df, 0xaff4ffc1);
    SmallSigma0Is(0x3e9d7b78, 0xf07d3af6, 0x5ede0fa7, 0x07d3af6f, 0xa9709a3e);
    SmallSigma1Is(0x3b68ba73, 0x5d399db4, 0x174e676d, 0x000eda2e, 0x4a7920f7);
    ScheduleStep(35, 0x600003c6, 0x3e9d7b78, 0x9d209d67, 0x3b68ba73, 0xa9709a3e,
                 0x4a7920f7, 0x09709e04, 0xa6913b6b, 0xf10a5c62);
    SmallSigma0Is(0x0183fc00, 0x000307f8, 0xff000060, 0x00307f80, 0xff337818);
    SmallSigma1Is(0xaff4ffc1, 0x7fe0d7fa, 0x9ff835fe, 0x002bfd3f, 0xe0331f3b);
    ScheduleStep(36, 0x3e9d7b78, 0x0183fc00, 0xec8726cb, 0xaff4ffc1, 0xff337818,
                 0xe0331f3b, 0x3dd0f390, 0x2a581a5b, 0x0a8b3996);
    SmallSigma0Is(0x12dcbfdb, 0xb625b97f, 0x2ff6c4b7, 0x025b97fb, 0x9b88ea33);
    SmallSigma1Is(0xf10a5c62, 0x2e317885, 0x4b8c5e21, 0x003c4297, 0x65816433);
    ScheduleStep(37, 0x0183fc00, 0x12dcbfdb, 0x702138a4, 0xf10a5c62, 0x9b88ea33,
                 0x65816433, 0x9d0ce633, 0x0d2e1ed7, 0x72af830a);
    SmallSigma0Is(0xe2e2c38e, 0x1dc5c587, 0xb0e3b8b8, 0x1c5c5871, 0xb17a254e);
    SmallSigma1Is(0x0a8b3996, 0x9ccb0545, 0x6732c151, 0x0002a2ce, 0xfbfb66da);
    ScheduleStep(38, 0x12dcbfdb, 0xe2e2c38e, 0xd3b7973b, 0x0a8b3996, 0xb17a254e,
                 0xfbfb66da, 0xc456e529, 0x980e7c64, 0x9409e33e);
    SmallSigma0Is(0xc8215c1a, 0x359042b8, 0x5706b208, 0x19042b83, 0x7b92db33);
    SmallSigma1Is(0x72af830a, 0xc1853957, 0xf0614e55, 0x001cabe0, 0x31f8dce2);
    ScheduleStep(39, 0xe2e2c38e, 0xc8215c1a, 0x93f5997f, 0x72af830a, 0x7b92db33,
                 0x31f8dce2, 0x5e759ec1, 0xf26b3840, 0x24641522);
  }

  lemma Words4()
    ensures Schedule(ABC, 40) == W(0x9f47bf94)
    ensures Schedule(ABC, 41) == W(0xf0a64f5a)
    ensures Schedule(ABC, 42) == W(0x3e246a79)
    ensures Schedule(ABC, 43) == W(0x27333ba3)
    ensures Schedule(ABC, 44) == W(0x0c4763f2)
    ensures Schedule(ABC, 45) == W(0x840abf27)
    ensures Schedule(ABC, 46) == W(0x7a290d5d)
    ensures Schedule(ABC, 47) == W(0x065c43da)
  {
    hide *;
    Words2();
    Words3();
    SmallSigma0Is(0xb73679a2, 0x456e6cf3, 0x9e68adcd, 0x16e6cf34, 0xcde00e0a);
    SmallSigma1Is(0x9409e33e, 0xf19f4a04, 0x3c67d281, 0x00250278, 0xcddd9afd);
    ScheduleStep(40, 0xc8215c1a, 0xb73679a2, 0x3b68ba73, 0x9409e33e, 0xcde00e0a,
                 0xcddd9afd, 0x96016a24, 0xd16a2497, 0x9f47bf94);
    SmallSigma0Is(0xe5bc3909, 0x13cb7872, 0x0e42796f, 0x1cb78721, 0x013e863c);
    SmallSigma1Is(0x24641522, 0x0a911232, 0x82a4448c, 0x00091905, 0x883c4fbb);
    ScheduleStep(41, 0xb73679a2, 0xe5bc3909, 0xaff4ffc1, 0x24641522, 0x013e863c,
                 0x883c4fbb, 0xb874ffde, 0x6869ff9f, 0xf0a64f5a);
    SmallSigma0Is(0x32663c5b, 0xb664cc78, 0x8f16cc99, 0x064cc78b, 0x3f3ec76a);
    SmallSigma1Is(0x9f47bf94, 0xdfca4fa3, 0xf7f293e8, 0x0027d1ef, 0x281f0da4);
    ScheduleStep(42, 0xe5bc3909, 0x32663c5b, 0xf10a5c62, 0x9f47bf94, 0x3f3ec76a,
                 0x281f0da4, 0x24fb0073, 0x16055cd5, 0x3e246a79);
    SmallSigma0Is(0x9d209d67, 0xcf3a413a, 0x2759e748, 0x13a413ac, 0xfbc7b5de);
    SmallSigma1Is(0xf0a64f5a, 0x27ad7853, 0xc9eb5e14, 0x003c2993, 0xee7a0fd4);
    ScheduleStep(43, 0x32663c5b, 0x9d209d67, 0x0a8b3996, 0xf0a64f5a, 0xfbc7b5de,
                 0xee7a0fd4, 0x2e2df239, 0x38b92bcf, 0x27333ba3);
    SmallSigma0Is(0xec8726cb, 0x97d90e4d, 0xc9b2fb21, 0x1d90e4d9, 0x43fb11b5);
    SmallSigma1Is(0x3e246a79, 0x353c9f12, 0x8d4f27c4, 0x000f891a, 0xb87c31cc);
    ScheduleStep(44, 0x9d209d67, 0xec8726cb, 0x72af830a, 0x3e246a79, 0x43fb11b5,
                 0xb87c31cc, 0xe11baf1c, 0x53cb3226, 0x0c4763f2);
    SmallSigma0Is(0x702138a4, 0x48e04271, 0x4e291c08, 0x0e042714, 0x08cd796d);
    SmallSigma1Is(0x27333ba3, 0x9dd19399, 0x677464e6, 0x0009ccce, 0xfaac3bb1);
    ScheduleStep(45, 0xec8726cb, 0x702138a4, 0x9409e33e, 0x27333ba3, 0x08cd796d,
                 0xfaac3bb1, 0xf554a038, 0x895e8376, 0x840abf27);
    SmallSigma0Is(0xd3b7973b, 0x77a76f2e, 0xe5cef4ed, 0x1a76f2e7, 0x881f6924);
    SmallSigma1Is(0x0c4763f2, 0xb1f90623, 0xec7e4188, 0x000311d8, 0x5d845673);
    ScheduleStep(46, 0x702138a4, 0xd3b7973b, 0x24641522, 0x0c4763f2, 0x881f6924,
                 0x5d845673, 0xf840a1c8, 0x1ca4b6ea, 0x7a290d5d);
    SmallSigma0Is(0x93f5997f, 0xff27eb32, 0x665fe4fd, 0x127eb32f, 0x8b06bce0);
    SmallSigma1Is(0x840abf27, 0x5f93c205, 0x57e4f081, 0x002102af, 0x0856302b);
    ScheduleStep(47, 0xd3b7973b, 0x93f5997f, 0x9f47bf94, 0x840abf27, 0x8b06bce0,
                 0x0856302b, 0x5ebe541b, 0xfe0613af, 0x065c43da);
  }

  lemma Words5()
    ensures Schedule(ABC, 48) == W(0xfb3e89cb)
    ensures Schedule(ABC, 49) == W(0xcc7617db)
    ensures Schedule(ABC, 50) == W(0xb9e66c34)
    ensures Schedule(ABC, 51) == W(0xa9993667)
    ensures Schedule(ABC, 52) == W(0x84badedd)
    ensures Schedule(ABC, 53) == W(0xc21462bc)
    ensures Schedule(ABC, 54) == W(0x1487472c)
    ensures Schedule(ABC, 55) == W(0xb20f7a99)
  {
    hide *;
    Words3();
    Words4();
    SmallSigma0Is(0x3b68ba73, 0xe676d174, 0x2e9cceda, 0x076d174e, 0xcf8708e0);
    SmallSigma1Is(0x7a290d5d, 0x86aebd14, 0x21abaf45, 0x001e8a43, 0xa71b9812);
    ScheduleStep(48, 0x93f5997f, 0x3b68ba73, 0xf0a64f5a, 0x7a290d5d, 0xcf8708e0,
                 0xa71b9812, 0x637ca25f, 0x5422f1b9, 0xfb3e89cb);
    SmallSigma0Is(0xaff4ffc1, 0x835fe9ff, 0x3ff06bfd, 0x15fe9ff8, 0xa9511dfa);
    SmallSigma1Is(0x065c43da, 0x21ed032e, 0x887b40cb, 0x00019710, 0xa997d4f5);
    ScheduleStep(49, 0x3b68ba73, 0xaff4ffc1, 0x3e246a79, 0x065c43da, 0xa9511dfa,
                 0xa997d4f5, 0xe4b9d86d, 0x22de42e6, 0xcc7617db);
    SmallSigma0Is(0xf10a5c62, 0xc5e214b8, 0x9718bc42, 0x1e214b8c, 0x4cdbe376);
    SmallSigma1Is(0xfb3e89cb, 0x44e5fd9f, 0xd1397f67, 0x003ecfa2, 0x95e24d5a);
    ScheduleStep(50, 0xaff4ffc1, 0xf10a5c62, 0x27333ba3, 0xfb3e89cb, 0x4cdbe376,
                 0x95e24d5a, 0xfcd0e337, 0x24041eda, 0xb9e66c34);
    SmallSigma0Is(0x0a8b3996, 0x2c151673, 0xce6582a2, 0x01516732, 0xe321f3e3);
    SmallSigma1Is(0xcc7617db, 0x0bede63b, 0xc2fb798e, 0x00331d85, 0xc9258230);
    ScheduleStep(51, 0xf10a5c62, 0x0a8b3996, 0x0c4763f2, 0xcc7617db, 0xe321f3e3,
                 0xc9258230, 0xd42c5045, 0xe073b437, 0xa9993667);
    SmallSigma0Is(0x72af830a, 0x14e55f06, 0xe0c29cab, 0x0e55f061, 0xfa7233cc);
    SmallSigma1Is(0xb9e66c34, 0x361a5cf3, 0xcd86973c, 0x002e799b, 0xfbb2b254);
    ScheduleStep(52, 0x0a8b3996, 0x72af830a, 0x840abf27, 0xb9e66c34, 0xfa7233cc,
                 0xfbb2b254, 0x04fd6d62, 0x89082c89, 0x84badedd);
    SmallSigma0Is(0x9409e33e, 0x7d2813c6, 0x78cfa502, 0x12813c67, 0x17668aa3);
    SmallSigma1Is(0xa9993667, 0x9b33d4cc, 0x26ccf533, 0x002a664d, 0xbdd547b2);
    ScheduleStep(53, 0x72af830a, 0x9409e33e, 0x7a290d5d, 0xa9993667, 0x17668aa3,
                 0xbdd547b2, 0x8a160dad, 0x043f1b0a, 0xc21462bc);
    SmallSigma0Is(0x24641522, 0x4448c82a, 0x05488919, 0x048c82a4, 0x458cc397);
    SmallSigma1Is(0x84badedd, 0x6f6ec25d, 0x5bdbb097, 0x00212eb7, 0x34945c7d);
    ScheduleStep(54, 0x9409e33e, 0x24641522, 0x065c43da, 0x84badedd, 0x458cc397,
                 0x34945c7d, 0xd996a6d5, 0xdff2eaaf, 0x1487472c);
    SmallSigma0Is(0x9f47bf94, 0x293e8f7f, 0xefe527d1, 0x13e8f7f2, 0xd5335f5c);
    SmallSigma1Is(0xc21462bc, 0x315e610a, 0x8c579842, 0x00308518, 0xbd397c50);
    ScheduleStep(55, 0x24641522, 0x9f47bf94, 0xfb3e89cb, 0xc21462bc, 0xd5335f5c,
                 0xbd397c50, 0xf997747e, 0xf4d5fe49, 0xb20f7a99);
  }

  lemma Words6()
    ensures Schedule(ABC, 56) == W(0xef57b9cd)
    ensures Schedule(ABC, 57) == W(0xebe6b238)
    ensures Schedule(ABC, 58) == W(0x9fe3095e)
    ensures Schedule(ABC, 59) == W(0x78bc8d4b)
    ensures Schedule(ABC, 60) == W(0xa43fcf15)
    ensures Schedule(ABC, 61) == W(0x668b2ff8)
    ensures Schedule(ABC, 62) == W(0xeeaba2cc)
    ensures Schedule(ABC, 63) == W(0x12b1edeb)
  {
    hide *;
    Words4();
    Words5();
    SmallSigma0Is(0xf0a64f5a, 0xb5e14c9e, 0x93d6bc29, 0x1e14c9eb, 0x3823395c);
    SmallSigma1Is(0x1487472c, 0xa3960a43, 0xe8e58290, 0x000521d1, 0x4b76a902);
    ScheduleStep(56, 0x9f47bf94, 0xf0a64f5a, 0xcc7617db, 0x1487472c, 0x3823395c,
                 0x4b76a902, 0xd76af8f0, 0xa3e110cb, 0xef57b9cd);
    SmallSigma0Is(0x3e246a79, 0xf27c48d4, 0x1a9e4f89, 0x07c48d4f, 0xef268a12);
    SmallSigma1Is(0xb20f7a99, 0xbd4cd907, 0xef533641, 0x002c83de, 0x52336c98);
    ScheduleStep(57, 0xf0a64f5a, 0x3e246a79, 0xb9e66c34, 0xb20f7a99, 0xef268a12,
                 0x52336c98, 0xdfccd96c, 0x99b345a0, 0xebe6b238);
    SmallSigma0Is(0x27333ba3, 0x464e6677, 0xcee8c9cc, 0x04e66774, 0x8c40c8cf);
    SmallSigma1Is(0xef57b9cd, 0xdce6f7ab, 0xf739bdea, 0x003bd5ee, 0x2be49faf);
    ScheduleStep(58, 0x3e246a79, 0x27333ba3, 0xa9993667, 0xef57b9cd, 0x8c40c8cf,
                 0x2be49faf, 0xca653348, 0x73fe69af, 0x9fe3095e);
    SmallSigma0Is(0x0c4763f2, 0xe4188ec7, 0xd8fc8311, 0x0188ec7e, 0x3d6ce1a8);
    SmallSigma1Is(0xebe6b238, 0x591c75f3, 0xd6471d7c, 0x003af9ac, 0x8f619123);
    ScheduleStep(59, 0x27333ba3, 0x0c4763f2, 0x84badedd, 0xebe6b238, 0x3d6ce1a8,
                 0x8f619123, 0x64a01d4b, 0xe95afc28, 0x78bc8d4b);
    SmallSigma0Is(0x840abf27, 0x4f08157e, 0xafc9e102, 0x108157e4, 0xf040a398);
    SmallSigma1Is(0x9fe3095e, 0x84af4ff1, 0x612bd3fc, 0x0027f8c2, 0xe5a364cf);
    ScheduleStep(60, 0x0c4763f2, 0x840abf27, 0xc21462bc, 0x9fe3095e, 0xf040a398,
                 0xe5a364cf, 0xfc88078a, 0xbe9c6a46, 0xa43fcf15);
    SmallSigma0Is(0x7a290d5d, 0xbaf4521a, 0x43575e8a, 0x0f4521ab, 0xf6e62d3b);
    SmallSigma1Is(0x78bc8d4b, 0x46a5bc5e, 0x91a96f17, 0x001e2f23, 0xd712fc6a);
    ScheduleStep(61, 0x840abf27, 0x7a290d5d, 0x1487472c, 0x78bc8d4b, 0xf6e62d3b,
                 0xd712fc6a, 0x7af0ec62, 0x8f78338e, 0x668b2ff8);
    SmallSigma0Is(0x065c43da, 0xb40cb887, 0x10f68197, 0x00cb887b, 0xa431b16b);
    SmallSigma1Is(0xa43fcf15, 0xe78ad21f, 0xf9e2b487, 0x00290ff3, 0x1e41696b);
    ScheduleStep(62, 0x7a290d5d, 0x065c43da, 0xb20f7a99, 0xa43fcf15, 0xa431b16b,
                 0x1e41696b, 0x1e5abec8, 0xd06a3961, 0xeeaba2cc);
    SmallSigma0Is(0xfb3e89cb, 0x97f67d13, 0xa272fecf, 0x1f67d139, 0x2ae352e5);
    SmallSigma1Is(0x668b2ff8, 0x97fc3345, 0x65ff0cd1, 0x0019a2cb, 0xf21a9d5f);
    ScheduleStep(63, 0x065c43da, 0xfb3e89cb, 0xef57b9cd, 0x668b2ff8, 0x2ae352e5,
                 0xf21a9d5f, 0x313f96bf, 0x2097508c, 0x12b1edeb);
  }

  lemma NoRounds()
    ensures Rounds(H0, ABC, 0) == [W(0x6a09e667), W(0xbb67ae85), W(0x3c6ef372), W(0xa54ff53a),
                               W(0x510e527f), W(0x9b05688c), W(0x1f83d9ab), W(0x5be0cd19)]
  {
  }

  lemma Rounds4()
    ensures Rounds(H0, ABC, 4) ==
            [W(0xd550f666), W(0xc8c347a7), W(0x5a6ad9ad), W(0x5d6aebcd),
             W(0x24e00850), W(0xf92939eb), W(0x78ce7989), W(0xfa2a4622)]
  {
    hide *;
    NoRounds();
    Constants0();
    Words0();
    BigSigma0Is(0x6a09e667, 0xda827999, 0x333b504f, 0x27999da8, 0xce20b47e);
    BigSigma1Is(0x510e527f, 0xfd443949, 0x4fea21ca, 0x87293fa8, 0x3587272b);
    Round(0, 0x6a09e667, 0xbb67ae85, 0x3c6ef372, 0xa54ff53a, 0x510e527f, 0x9b05688c, 0x1f83d9ab,
          0x5be0cd19, 0x428a2f98, 0x61626380, 0xce20b47e, 0x3587272b, 0x1f85c98c, 0x3a6fe667,
          0x9167f444, 0xb0edbdd0, 0xf377ed68, 0x54da50e8, 0x08909ae5, 0x5d6aebcd, 0xfa2a4622);
    BigSigma0Is(0x5d6aebcd, 0x575abaf3, 0x5e6aeb57, 0xabaf3575, 0xa29f64d1);
    BigSigma1Is(0xfa2a4622, 0x8be8a918, 0xc45f4548, 0x1523117d, 0x5a94fd2d);
    Round(1, 0x5d6aebcd, 0x6a09e667, 0xbb67ae85, 0x3c6ef372, 0xfa2a4622, 0x510e527f, 0x9b05688c,
          0x1f83d9ab, 0x71374491, 0x00000000, 0xa29f64d1, 0x5a94fd2d, 0x510f6aae, 0x7b6beec5,
          0x7a18d6d8, 0xcb284186, 0x3c5f8617, 0x3c5f8617, 0x1e0b5396, 0x5a6ad9ad, 0x78ce7989);
    BigSigma0Is(0x5a6ad9ad, 0x569ab66b, 0xcd6ad356, 0xab66b569, 0x3096d054);
    BigSigma1Is(0x78ce7989, 0x25e339e6, 0x312f19cf, 0x673cc4bc, 0x73f0e495);
    Round(2, 0x5a6ad9ad, 0x5d6aebcd, 0x6a09e667, 0xbb67ae85, 0x78ce7989, 0xfa2a4622, 0x510e527f,
          0x9b05688c, 0xb5c0fbcf, 0x00000000, 0x3096d054, 0x73f0e495, 0x790a4276, 0x5a6aebed,
          0x0ef64d21, 0x88008f97, 0x3dc18b66, 0x3dc18b66, 0x8b01bc41, 0xc8c347a7, 0xf92939eb);
    BigSigma0Is(0xc8c347a7, 0xf230d1e9, 0x3d3e461a, 0x0d1e9f23, 0xc21008d0);
    BigSigma1Is(0xf92939eb, 0xafe4a4e7, 0x3d7f2527, 0x949cf5fc, 0x0607743c);
    Round(3, 0xc8c347a7, 0x5a6ad9ad, 0x5d6aebcd, 0x6a09e667, 0xf92939eb, 0x78ce7989, 0xfa2a4622,
          0x510e527f, 0xe9b5dba5, 0x00000000, 0xc21008d0, 0x0607743c, 0x7a0a7f89, 0x586acbad,
          0x5715c6bb, 0xd1204644, 0xbad621e9, 0xbad621e9, 0x1a7ad47d, 0xd550f666, 0x24e00850);
  }

  lemma Rounds8()
    ensures Rounds(H0, ABC, 8) ==
            [W(0x85a07b5f), W(0xe5030380), W(0x2b4209f5), W(0x04409a6a),
             W(0x0c657a79), W(0x9b27a401), W(0x714260ad), W(0x43ada245)]
  {
    hide *;
    Rounds4();
    Constants0();
    Words0();
    BigSigma0Is(0xd550f666, 0xb5543d99, 0xb336aa87, 0x43d99b55, 0x45bb0c4b);
    BigSigma1Is(0x24e00850, 0x40938021, 0x0a049c01, 0x70042812, 0x3a933432);
    Round(4, 0xd550f666, 0xc8c347a7, 0x5a6ad9ad, 0x5d6aebcd, 0x24e00850, 0xf92939eb, 0x78ce7989,
          0xfa2a4622, 0x3956c25b, 0x00000000, 0x45bb0c4b, 0x3a933432, 0x782e79c9, 0xd842d7a7,
          0x34bd7a54, 0xacebf41d, 0xe642b678, 0xe642b678, 0x1dfde3f2, 0x04409a6a, 0x43ada245);
    BigSigma0Is(0x04409a6a, 0x8110269a, 0xd3502204, 0x0269a811, 0x5029ac8f);
    BigSigma1Is(0x43ada245, 0x150eb689, 0x48a875b4, 0xd6d122a1, 0x8b77e19c);
    Round(5, 0x04409a6a, 0xd550f666, 0xc8c347a7, 0x5a6ad9ad, 0x43ada245, 0x24e00850, 0xf92939eb,
          0x78ce7989, 0x59f111f1, 0x00000000, 0x5029ac8f, 0x8b77e19c, 0xb8a019ea, 0xc440d666,
          0x04465b25, 0xbce6750f, 0x16d78700, 0x16d78700, 0x146a82f5, 0x2b4209f5, 0x714260ad);
    BigSigma0Is(0x2b4209f5, 0x4ad0827d, 0x4fa95a10, 0x0827d4ad, 0x0d5e0cc0);
    BigSigma1Is(0x714260ad, 0xb5c50982, 0x15ae284c, 0xa13056b8, 0x015b7776);
    Round(6, 0x2b4209f5, 0x04409a6a, 0xd550f666, 0xc8c347a7, 0x714260ad, 0x43ada245, 0x24e00850,
          0xf92939eb, 0x923f82a4, 0x00000000, 0x0d5e0cc0, 0x015b7776, 0x45a02855, 0x05409a66,
          0xfa84b161, 0x4024d9b6, 0xd2645c5a, 0xd2645c5a, 0x129ea726, 0xe5030380, 0x9b27a401);
    BigSigma0Is(0xe5030380, 0x3940c0e0, 0x1c072818, 0x0c0e0394, 0x2949eb6c);
    BigSigma1Is(0x9b27a401, 0x066c9e90, 0x803364f4, 0x93d200cd, 0x158dfaa9);
    Round(7, 0xe5030380, 0x2b4209f5, 0x04409a6a, 0xd550f666, 0x9b27a401, 0x714260ad, 0x43ada245,
          0x24e00850, 0xab1c5ed5, 0x00000000, 0x2949eb6c, 0x158dfaa9, 0x518a2245, 0x25420be0,
          0x3a6e02f9, 0x8bf8253e, 0x37148413, 0x37148413, 0x4e8bf74c, 0x85a07b5f, 0x0c657a79);
  }

  lemma Rounds12()
    ensures Rounds(H0, ABC, 12) ==
            [W(0xf71fc5a9), W(0x4798a3f4), W(0x8c87346b), W(0x8e04ecb9),
             W(0x816fd6e9), W(0x436b23e8), W(0x1cc92596), W(0x32ca2d8c)]
  {
    hide *;
    Rounds8();
    Constants1();
    Words0();
    BigSigma0Is(0x85a07b5f, 0xe1681ed7, 0xdafc2d03, 0x81ed7e16, 0xba794dc2);
    BigSigma1Is(0x0c657a79, 0xe43195e9, 0x4f218caf, 0x32bd3c86, 0x99ad25c0);
    Round(8, 0x85a07b5f, 0xe5030380, 0x2b4209f5, 0x04409a6a, 0x0c657a79, 0x9b27a401, 0x714260ad,
          0x43ada245, 0xd807aa98, 0x00000000, 0xba794dc2, 0x99ad25c0, 0x79272085, 0xa5020bd5,
          0xdd5ac805, 0x5681e88a, 0x2e899322, 0x2e899322, 0x5f7b5997, 0x8e04ecb9, 0x32ca2d8c);
    BigSigma0Is(0x8e04ecb9, 0x63813b2e, 0x65cc7027, 0x13b2e638, 0x15ffad31);
    BigSigma1Is(0x32ca2d8c, 0x30cb28b6, 0xb1865945, 0x6516c619, 0xe45bb7ea);
    Round(9, 0x8e04ecb9, 0x85a07b5f, 0xe5030380, 0x2b4209f5, 0x32ca2d8c, 0x0c657a79, 0x9b27a401,
          0x714260ad, 0x12835b01, 0x00000000, 0x15ffad31, 0xe45bb7ea, 0x8965a809, 0x85006b99,
          0x559e1897, 0xdf03c0a0, 0xf1871ba1, 0xf1871ba1, 0x9b0018ca, 0x8c87346b, 0x1cc92596);
    BigSigma0Is(0x8c87346b, 0xe321cd1a, 0xa35c6439, 0x1cd1ae32, 0x5cac0711);
    BigSigma1Is(0x1cc92596, 0x58732496, 0xb2c39924, 0x6492cb0e, 0x8e2276bc);
    Round(10, 0x8c87346b, 0x8e04ecb9, 0x85a07b5f, 0xe5030380, 0x1cc92596, 0x32ca2d8c, 0x0c657a79,
          0x9b27a401, 0x243185be, 0x00000000, 0x5cac0711, 0x8e2276bc, 0x10ec7fed, 0x8c847c7b,
          0x294a1abd, 0x3a369aaa, 0x5e682068, 0x5e682068, 0xe930838c, 0x4798a3f4, 0x436b23e8);
    BigSigma0Is(0x4798a3f4, 0x11e628fd, 0x1fa23cc5, 0x628fd11e, 0x6ccbc526);
    BigSigma1Is(0x436b23e8, 0xa10dac8f, 0x7d086d64, 0xb591f421, 0x699435ca);
    Round(11, 0x4798a3f4, 0x8c87346b, 0x8e04ecb9, 0x85a07b5f, 0x436b23e8, 0x1cc92596, 0x32ca2d8c,
          0x0c657a79, 0x550c7dc3, 0x00000000, 0x6ccbc526, 0x699435ca, 0x30c92d84, 0x8e84a4f9,
          0x75f9b043, 0xa6c2ddc7, 0xfbcf5b8a, 0xfbcf5b8a, 0xfb506a1f, 0xf71fc5a9, 0x816fd6e9);
  }

  lemma Rounds16()
    ensures Rounds(H0, ABC, 16) ==
            [W(0xb0fa238e), W(0xc0645fde), W(0xd932eb16), W(0x87912990),
             W(0x07590dcd), W(0x0b92f20c), W(0x745a48de), W(0x1e578218)]
  {
    hide *;
    Rounds12();
    Constants1();
    Words0();
    BigSigma0Is(0xf71fc5a9, 0x7dc7f16a, 0x2d4fb8fe, 0x7f16a7dc, 0x2f9eee48);
    BigSigma1Is(0x816fd6e9, 0xa605bf5b, 0xdd302dfa, 0xb7eb74c0, 0xccdee661);
    Round(12, 0xf71fc5a9, 0x4798a3f4, 0x8c87346b, 0x8e04ecb9, 0x816fd6e9, 0x436b23e8, 0x1cc92596,
          0x32ca2d8c, 0x72be5d74, 0x00000000, 0x2f9eee48, 0xccdee661, 0x1deb23fe, 0xc79fa5e9,
          0xffa913ed, 0x1d9437eb, 0x9052955f, 0x9052955f, 0xf73e9431, 0x87912990, 0x1e578218);
    BigSigma0Is(0x87912990, 0x21e44a64, 0x4c843c89, 0x44a6421e, 0x29c634f3);
    BigSigma1Is(0x1e578218, 0x60795e08, 0x4303caf0, 0x2bc10c0f, 0x08bb98f7);
    Round(13, 0x87912990, 0xf71fc5a9, 0x4798a3f4, 0x8c87346b, 0x1e578218, 0x816fd6e9, 0x436b23e8,
          0x1cc92596, 0x80deb1fe, 0x00000000, 0x29c634f3, 0x08bb98f7, 0x416fa3e8, 0xc799a1b0,
          0x2584be8d, 0x66f46275, 0xe7d31473, 0xe7d31473, 0xf15fd6a3, 0xd932eb16, 0x745a48de);
    BigSigma0Is(0xd932eb16, 0xb64cbac5, 0x58b6c997, 0xcbac5b64, 0x25562836);
    BigSigma1Is(0x745a48de, 0x79d16923, 0x1bce8b49, 0x2d246f3a, 0x4f3b8d50);
    Round(14, 0xd932eb16, 0x87912990, 0xf71fc5a9, 0x4798a3f4, 0x745a48de, 0x1e578218, 0x816fd6e9,
          0x436b23e8, 0x9bdc06a7, 0x00000000, 0x25562836, 0x4f3b8d50, 0x95779639, 0xd713e990,
          0x92a6b138, 0x281e4771, 0xc3fa4e18, 0xc3fa4e18, 0xfc6a11c6, 0xc0645fde, 0x0b92f20c);
    BigSigma0Is(0xc0645fde, 0xb01917f7, 0xfef60322, 0x917f7b01, 0xdf906fd4);
    BigSigma1Is(0x0b92f20c, 0x302e4bc8, 0x4181725e, 0xc9790605, 0xb8d63f93);
    Round(15, 0xc0645fde, 0xd932eb16, 0x87912990, 0xf71fc5a9, 0x0b92f20c, 0x745a48de, 0x1e578218,
          0x816fd6e9, 0xc19bf174, 0x00000018, 0xdf906fd4, 0xb8d63f93, 0x1457401c, 0xc1306b96,
          0x3a46167c, 0x4e9d5698, 0x1039480c, 0x10394824, 0xa0c0db6a, 0xb0fa238e, 0x07590dcd);
  }

  lemma Rounds20()
    ensures Rounds(H0, ABC, 20) ==
            [W(0xe1f20c33), W(0xfe777bbf), W(0xc2fbd9d1), W(0x21da9a9b),
             W(0xb0638179), W(0xcc899961), W(0x846ee454), W(0x8034229c)]
  {
    hide *;
    Rounds16();
    Constants2();
    Words1();
    BigSigma0Is(0xb0fa238e, 0xac3e88e3, 0x1c7587d1, 0xe88e3ac3, 0x58c535f1);
    BigSigma1Is(0x07590dcd, 0x341d6437, 0xb9a0eb21, 0xac86e683, 0x213b6995);
    Round(16, 0xb0fa238e, 0xc0645fde, 0xd932eb16, 0x87912990, 0x07590dcd, 0x0b92f20c, 0x745a48de,
          0x1e578218, 0xe49b69c1, 0x61626380, 0x58c535f1, 0x213b6995, 0x7312401e, 0xd0726b9e,
          0x3f92ebad, 0xb2a52bcb, 0x9740958c, 0xf8a2f90c, 0x2937a18f, 0x21da9a9b, 0x8034229c);
    BigSigma0Is(0x21da9a9b, 0xc876a6a6, 0xd4d90ed4, 0x6a6a6c87, 0x76c5c4f5);
    BigSigma1Is(0x8034229c, 0x7200d08a, 0x53900684, 0x1a114e40, 0x3b81984e);
    Round(17, 0x21da9a9b, 0xb0fa238e, 0xc0645fde, 0xd932eb16, 0x8034229c, 0x07590dcd, 0x0b92f20c,
          0x745a48de, 0xefbe4786, 0x000f0000, 0x76c5c4f5, 0x3b81984e, 0x0b92d08c, 0xa0fa1b9e,
          0xafdbe12c, 0xbb6eb1b8, 0xab2cf93e, 0xab3bf93e, 0x17bfe093, 0xc2fbd9d1, 0x846ee454);
    BigSigma0Is(0xc2fbd9d1, 0x70bef674, 0xce8e17de, 0xef67470b, 0x5157a6a1);
    BigSigma1Is(0x846ee454, 0x5211bb91, 0x8a908ddc, 0x37722a42, 0xeff31c0f);
    Round(18, 0xc2fbd9d1, 0x21da9a9b, 0xb0fa238e, 0xc0645fde, 0x846ee454, 0x8034229c, 0x07590dcd,
          0x0b92f20c, 0x0fc19dc6, 0x7da86405, 0x5157a6a1, 0xeff31c0f, 0x8335299d, 0xa0fa9b9b,
          0xfb860e1b, 0x7ebb37b8, 0x8e7cd57e, 0x0c253983, 0xf252423c, 0xfe777bbf, 0xcc899961);
    BigSigma0Is(0xfe777bbf, 0xff9ddeef, 0xddfff3bb, 0xddeefff9, 0xff8cd2ad);
    BigSigma1Is(0xcc899961, 0x87322665, 0x2c399133, 0x44ccb0e6, 0xefc707b0);
    Round(19, 0xfe777bbf, 0xc2fbd9d1, 0x21da9a9b, 0xb0fa238e, 0xcc899961, 0x846ee454, 0x8034229c,
          0x07590dcd, 0x240ca1cc, 0x600003c6, 0xff8cd2ad, 0xefc707b0, 0x843ca2dc, 0xe2fbdb9b,
          0xf720157d, 0x7b5cb859, 0x9f695a25, 0xff695deb, 0xe288ae48, 0xe1f20c33, 0xb0638179);
  }

  lemma Rounds24()
    ensures Rounds(H0, ABC, 24) ==
            [W(0xc5d53d8d), W(0xa7a3623f), W(0xc2606d6d), W(0x9dc68b63),
             W(0xaa47c347), W(0x49f5114a), W(0xe1257970), W(0x8ada8930)]
  {
    hide *;
    Rounds20();
    Constants2();
    Words1();
    BigSigma0Is(0xe1f20c33, 0xf87c830c, 0x619f0f90, 0xc830cf87, 0x51d3431b);
    BigSigma1Is(0xb0638179, 0xe6c18e05, 0x2f360c70, 0x31c0bcd8, 0xf8373ead);
    Round(20, 0xe1f20c33, 0xfe777bbf, 0xc2fbd9d1, 0x21da9a9b, 0xb0638179, 0xcc899961, 0x846ee454,
          0x8034229c, 0x2de92c6f, 0x3e9d7b78, 0x51d3431b, 0xf8373ead, 0x840de565, 0xe2f359b3,
          0x786b6149, 0xfc7946ae, 0x2a62731d, 0x68ffee95, 0x34c69cce, 0x9dc68b63, 0x8ada8930);
    BigSigma0Is(0x9dc68b63, 0xe771a2d8, 0x5b1cee34, 0x1a2d8e77, 0xa640c29b);
    BigSigma1Is(0x8ada8930, 0xc22b6a24, 0x26115b51, 0x6d449845, 0x897ea930);
    Round(21, 0x9dc68b63, 0xe1f20c33, 0xfe777bbf, 0xc2fbd9d1, 0x8ada8930, 0xb0638179, 0xcc899961,
          0x846ee454, 0x4a7484aa, 0x0183fc00, 0xa640c29b, 0x897ea930, 0xc4439171, 0xfdf60b33,
          0x0ded8d84, 0xd2311ef5, 0x1ca5a39f, 0x1e299f9f, 0xa436cdce, 0xc2606d6d, 0xe1257970);
    BigSigma0Is(0xc2606d6d, 0x70981b5b, 0x6b6e1303, 0x81b5b709, 0x9a43bf51);
    BigSigma1Is(0xe1257970, 0xc38495e5, 0x2e1c24af, 0x92bcb870, 0x7f24093a);
    Round(22, 0xc2606d6d, 0x9dc68b63, 0xe1f20c33, 0xfe777bbf, 0xe1257970, 0x8ada8930, 0xb0638179,
          0xcc899961, 0x5cb0a9dc, 0x12dcbfdb, 0x9a43bf51, 0x7f24093a, 0x90428939, 0xc1e20d63,
          0x4bada29b, 0xdbf02bd4, 0x38a0d5b0, 0x4b7d958b, 0x5c25ccb4, 0xa7a3623f, 0x49f5114a);
    BigSigma0Is(0xa7a3623f, 0xe9e8d88f, 0x11fd3d1b, 0x8d88fe9e, 0x759d1b0a);
    BigSigma1Is(0x49f5114a, 0x2927d445, 0x29493ea2, 0xfa88a524, 0xfae64fc3);
    Round(23, 0xa7a3623f, 0xc2606d6d, 0x9dc68b63, 0xe1f20c33, 0x49f5114a, 0xe1257970, 0x8ada8930,
          0xb0638179, 0x76f988da, 0xe2e2c38e, 0x759d1b0a, 0xfae64fc3, 0xc32f9970, 0x87e26b6f,
          0xab49d13c, 0x6e796aac, 0xe572f386, 0xc855b714, 0xfd7f8679, 0xc5d53d8d, 0xaa47c347);
  }

  lemma Rounds28()
    ensures Rounds(H0, ABC, 28) ==
            [W(0x77d37528), W(0xb62ec4bc), W(0xcde8037d), W(0x1c2c2838),
             W(0xedffbff8), W(0xc74c6516), W(0x14383d8e), W(0x2823ef91)]
  {
    hide *;
    Rounds24();
    Constants3();
    Words2();
    BigSigma0Is(0xc5d53d8d, 0x71754f63, 0xec6e2ea9, 0x54f63717, 0xc9ed56dd);
    BigSigma1Is(0xaa47c347, 0x1ea91f0d, 0x68f548f8, 0x23e1a3d5, 0x55bdf420);
    Round(24, 0xc5d53d8d, 0xa7a3623f, 0xc2606d6d, 0x9dc68b63, 0xaa47c347, 0x49f5114a, 0xe1257970,
          0x8ada8930, 0x983e5152, 0xc8215c1a, 0xc9ed56dd, 0x55bdf420, 0x49653972, 0xc7e16d2d,
          0xe0987d50, 0x29fdb6c2, 0xc23c0814, 0x8a5d642e, 0x91cec40a, 0x1c2c2838, 0x2823ef91);
    BigSigma0Is(0x1c2c2838, 0x070b0a0e, 0x41c0e161, 0xb0a0e070, 0xf66b0b1f);
    BigSigma1Is(0x2823ef91, 0x44a08fbe, 0xf225047d, 0x11f7c894, 0xa7724357);
    Round(25, 0x1c2c2838, 0xc5d53d8d, 0xa7a3623f, 0xc2606d6d, 0x2823ef91, 0xaa47c347, 0x49f5114a,
          0xe1257970, 0xa831c66d, 0xb73679a2, 0xf66b0b1f, 0xa7724357, 0x69d7d34b, 0x85a5283d,
          0x8897bcc7, 0xf26f9012, 0x9aa1567f, 0x51d7d021, 0x7c10335c, 0xcde8037d, 0x14383d8e);
    BigSigma0Is(0xcde8037d, 0x737a00df, 0x1bee6f40, 0xa00df737, 0xc89998a8);
    BigSigma1Is(0x14383d8e, 0x3850e0f6, 0xb1c28707, 0x1c1ec70a, 0x958ca0fb);
    Round(26, 0xcde8037d, 0x1c2c2838, 0xc5d53d8d, 0xa7a3623f, 0x14383d8e, 0x2823ef91, 0xaa47c347,
          0x49f5114a, 0xb00327c8, 0xe5bc3909, 0xc89998a8, 0x958ca0fb, 0xaa67efc1, 0xcdec293d,
          0xdf81b245, 0x89e9a206, 0x39ecc9ce, 0x1fa902d7, 0x9685c1e5, 0xb62ec4bc, 0xc74c6516);
    BigSigma0Is(0xb62ec4bc, 0x2d8bb12f, 0x25e5b176, 0xbb12f2d8, 0xb37cf281);
    BigSigma1Is(0xc74c6516, 0x5b1d3194, 0xa2d8e98c, 0xa6328b63, 0x5ff7537b);
    Round(27, 0xb62ec4bc, 0xcde8037d, 0x1c2c2838, 0xc5d53d8d, 0xc74c6516, 0x14383d8e, 0x2823ef91,
          0xaa47c347, 0xbf597fc7, 0x32663c5b, 0xb37cf281, 0x5ff7537b, 0x2c2baf87, 0x9c2c003c,
          0x0a3f16c2, 0x366ac649, 0xf5c44610, 0x282a826b, 0x4fa8f2bd, 0x77d37528, 0xedffbff8);
  }

  lemma Rounds32()
    ensures Rounds(H0, ABC, 32) ==
            [W(0x73b33bf5), W(0xea992a22), W(0xa0060b30), W(0x363482c9),
             W(0xba591112), W(0x0109ab3a), W(0xade79437), W(0x6112a3b7)]
  {
    hide *;
    Rounds28();
    Constants3();
    Words2();
    BigSigma0Is(0x77d37528, 0x1df4dd4a, 0xa943be9b, 0x4dd4a1df, 0xf963c20e);
    BigSigma1Is(0xedffbff8, 0xe3b7feff, 0xff1dbff7, 0xffdffc76, 0xe375bd7e);
    Round(28, 0x77d37528, 0xb62ec4bc, 0xcde8037d, 0x1c2c2838, 0xedffbff8, 0xc74c6516, 0x14383d8e,
          0x2823ef91, 0xc6e00bf3, 0x9d209d67, 0xf963c20e, 0xe375bd7e, 0xd54c2516, 0xf7ea453c,
          0x0b99ad0f, 0xe0e5d225, 0xa7c5de18, 0x44e67b7f, 0xf14e074a, 0x363482c9, 0x6112a3b7);
    BigSigma0Is(0x363482c9, 0x4d8d20b2, 0x1649b1a4, 0xd20b24d8, 0x89cfb5ce);
    BigSigma1Is(0x6112a3b7, 0xdd844a8e, 0x76ec2254, 0x8951dbb0, 0x2239b36a);
    Round(29, 0x363482c9, 0x77d37528, 0xb62ec4bc, 0xcde8037d, 0x6112a3b7, 0xedffbff8, 0xc74c6516,
          0x14383d8e, 0xd5a79147, 0xec8726cb, 0x89cfb5ce, 0x2239b36a, 0xe75ee7b0, 0x3636c4a8,
          0x3671f0f8, 0x1dd0d8a8, 0xf37869ef, 0xdfff90ba, 0xc0067a76, 0xa0060b30, 0xade79437);
    BigSigma0Is(0xa0060b30, 0x280182cc, 0x59850030, 0x182cc280, 0x69a8407c);
    BigSigma1Is(0xade79437, 0xdeb79e50, 0x86f5bcf2, 0xf3ca1bd6, 0xab883974);
    Round(30, 0xa0060b30, 0x363482c9, 0x77d37528, 0xb62ec4bc, 0xade79437, 0x6112a3b7, 0xedffbff8,
          0xc74c6516, 0x06ca6351, 0x702138a4, 0x69a8407c, 0xab883974, 0x611aabff, 0x36160328,
          0x72d49e8a, 0xd3ef4a89, 0xdab9adda, 0x4adae67e, 0x9fbe43a4, 0xea992a22, 0x0109ab3a);
    BigSigma0Is(0xea992a22, 0xbaa64a88, 0x511754c9, 0x64a88baa, 0x8f1995eb);
    BigSigma1Is(0x0109ab3a, 0xe80426ac, 0x67402135, 0x84d59d00, 0x0b919a99);
    Round(31, 0xea992a22, 0xa0060b30, 0x363482c9, 0x77d37528, 0x0109ab3a, 0xade79437, 0x6112a3b7,
          0xedffbff8, 0x14292967, 0xd3b7973b, 0x8f1995eb, 0x0b919a99, 0x611380b7, 0xa2140a20,
          0xf9915a91, 0x5aa4db48, 0x6ece04af, 0x42859bea, 0x312da00b, 0x73b33bf5, 0xba591112);
  }

  lemma Rounds36()
    ensures Rounds(H0, ABC, 36) ==
            [W(0x65a0cfe4), W(0xa9a7738c), W(0xfe604df5), W(0x98e12507),
             W(0xf4b002d6), W(0x085f3833), W(0x59249dd3), W(0x9cd9f5f6)]
  {
    hide *;
    Rounds32();
    Constants4();
    Words3();
    BigSigma0Is(0x73b33bf5, 0x5ceccefd, 0xdfab9d99, 0xccefd5ce, 0x4fa886aa);
    BigSigma1Is(0xba591112, 0x4ae96444, 0x22574b22, 0x2c88895d, 0x4436a63b);
    Round(32, 0x73b33bf5, 0xea992a22, 0xa0060b30, 0x363482c9, 0xba591112, 0x0109ab3a, 0xade79437,
          0x6112a3b7, 0x27b70a85, 0x93f5997f, 0x4fa886aa, 0x4436a63b, 0x05af8537, 0xe2932b30,
          0xa54949f2, 0xaaf8cf29, 0xd2afd9ae, 0x66a5732d, 0x323bb1da, 0x98e12507, 0x9cd9f5f6);
    BigSigma0Is(0x98e12507, 0xe6384941, 0x283cc709, 0x84941e63, 0x4a90902b);
    BigSigma1Is(0x9cd9f5f6, 0xda7367d7, 0xbed39b3e, 0x6cfafb4e, 0x085a07a7);
    Round(33, 0x98e12507, 0x73b33bf5, 0xea992a22, 0xa0060b30, 0x9cd9f5f6, 0xba591112, 0x0109ab3a,
          0xade79437, 0x2e1b2138, 0x3b68ba73, 0x4a90902b, 0x085a07a7, 0x99591b1a, 0xfab12b27,
          0xb6419bde, 0x4f9ab6f8, 0x7db5d830, 0xb91e92a3, 0x4541bb52, 0xfe604df5, 0x59249dd3);
    BigSigma0Is(0xfe604df5, 0x7f98137d, 0x6faff302, 0x8137d7f9, 0x91003786);
    BigSigma1Is(0x59249dd3, 0x4d649277, 0xba6b2493, 0x924ee9ac, 0x65415f48);
    Round(34, 0xfe604df5, 0x98e12507, 0x73b33bf5, 0xea992a22, 0x59249dd3, 0x9cd9f5f6, 0xba591112,
          0x0109ab3a, 0x4d2c6dfc, 0xaff4ffc1, 0x91003786, 0x65415f48, 0xba5995d2, 0xfae12df5,
          0x664b0a82, 0x20a4a054, 0x6dd10e50, 0x1dc60e11, 0x8be1657b, 0xa9a7738c, 0x085f3833);
    BigSigma0Is(0xa9a7738c, 0x2a69dce3, 0x9c654d3b, 0x9dce32a6, 0x2bc2a37e);
    BigSigma1Is(0x085f3833, 0xcc217ce0, 0x06610be7, 0x2f9c1984, 0xe5dc6e83);
    Round(35, 0xa9a7738c, 0xfe604df5, 0x98e12507, 0x73b33bf5, 0x085f3833, 0x59249dd3, 0x9cd9f5f6,
          0xba591112, 0x53380d13, 0xf10a5c62, 0x2bc2a37e, 0xe5dc6e83, 0x9c84ddd7, 0xb8e16585,
          0xa0357f95, 0x3cba5d6c, 0x8ff26a7f, 0x80fcc6e1, 0xe4a40903, 0x65a0cfe4, 0xf4b002d6);
  }

  lemma Rounds40()
    ensures Rounds(H0, ABC, 40) ==
            [W(0x79ea687a), W(0x6dc57a8a), W(0x34df1604), W(0x41a65cb1),
             W(0x1efbc0a0), W(0xf0781bc8), W(0xa507a53d), W(0x0772a26b)]
  {
    hide *;
    Rounds36();
    Constants4();
    Words3();
    BigSigma0Is(0x65a0cfe4, 0x196833f9, 0x7f232d06, 0x833f9196, 0xe5748f69);
    BigSigma1Is(0xf4b002d6, 0x5bd2c00b, 0x5ade9600, 0x58016b7a, 0x590d3d71);
    Round(36, 0x65a0cfe4, 0xa9a7738c, 0xfe604df5, 0x98e12507, 0xf4b002d6, 0x085f3833, 0x59249dd3,
          0x9cd9f5f6, 0x650a7354, 0x0a8b3996, 0xe5748f69, 0x590d3d71, 0x09149d13, 0xeda04fe4,
          0xf5e73367, 0xfefbd07a, 0x640643ce, 0x6e917d64, 0xd314df4d, 0x41a65cb1, 0x0772a26b);
    BigSigma0Is(0x41a65cb1, 0x5069972c, 0xe58a0d32, 0x9972c506, 0x2c915f18);
    BigSigma1Is(0x0772a26b, 0xac1dca89, 0x4d60ee54, 0xb9513583, 0x582c115e);
    Round(37, 0x41a65cb1, 0x65a0cfe4, 0xa9a7738c, 0xfe604df5, 0x0772a26b, 0xf4b002d6, 0x085f3833,
          0x59249dd3, 0x766a0abb, 0x72af830a, 0x2c915f18, 0x582c115e, 0x0c3d1a52, 0x61a65fa4,
          0xb150af31, 0xbd8dc983, 0x33f7d43e, 0xa6a75748, 0x8e37bebc, 0x34df1604, 0xa507a53d);
    BigSigma0Is(0x34df1604, 0x0d37c581, 0xb021a6f8, 0x7c5810d3, 0xc14e73aa);
    BigSigma1Is(0xa507a53d, 0xf6941e94, 0xa7b4a0f4, 0x83d29ed2, 0xd2f220b2);
    Round(38, 0x34df1604, 0x41a65cb1, 0x65a0cfe4, 0xa9a7738c, 0xa507a53d, 0x0772a26b, 0xf4b002d6,
          0x085f3833, 0x81c2c92e, 0x9409e33e, 0xc14e73aa, 0xd2f220b2, 0x55b2a2eb, 0x65a65ea4,
          0xdb5158e5, 0x3103fbd0, 0xb2c6c4fe, 0x46d0a83c, 0x26f4d24e, 0x6dc57a8a, 0xf0781bc8);
    BigSigma0Is(0x6dc57a8a, 0x9b715ea2, 0xd4536e2b, 0x15ea29b7, 0x5ac8193e);
    BigSigma1Is(0xf0781bc8, 0x23c1e06f, 0x791e0f03, 0x3c0de478, 0x66d20b14);
    Round(39, 0x6dc57a8a, 0x34df1604, 0x41a65cb1, 0x65a0cfe4, 0xf0781bc8, 0xa507a53d, 0x0772a26b,
          0xf4b002d6, 0x92722c85, 0x24641522, 0x5ac8193e, 0x66d20b14, 0xa702a12b, 0x65c75e80,
          0x5b820dea, 0x0284af15, 0x94f6db9a, 0xb95af0bc, 0xc08f77be, 0x79ea687a, 0x1efbc0a0);
  }

  lemma Rounds44()
    ensures Rounds(H0, ABC, 44) ==
            [W(0x9d4baf93), W(0x17aa0dfe), W(0xdf46652f), W(0xd6670766),
             W(0xfda24c2e), W(0xdecd4715), W(0x838b2711), W(0x26352d63)]
  {
    hide *;
    Rounds40();
    Constants5();
    Words4();
    BigSigma0Is(0x79ea687a, 0x9e7a9a1e, 0x43d3cf53, 0xa9a1e9e7, 0x7408bcaa);
    BigSigma1Is(0x1efbc0a0, 0x807bef02, 0x1403df78, 0x7de0500f, 0xe9986075);
    Round(40, 0x79ea687a, 0x6dc57a8a, 0x34df1604, 0x41a65cb1, 0x1efbc0a0, 0xf0781bc8, 0xa507a53d,
          0x0772a26b, 0xa2bfe8a1, 0x9f47bf94, 0x7408bcaa, 0xe9986075, 0xb17c259d, 0x7dcf7a0a,
          0xf10b02e0, 0xa287287d, 0x4547111e, 0xe48ed0b2, 0xf1d836b4, 0xd6670766, 0x26352d63);
    BigSigma0Is(0xd6670766, 0xb599c1d9, 0x3b36b338, 0x9c1d9b59, 0x12b2e9b8);
    BigSigma1Is(0x26352d63, 0x8c98d4b5, 0xac64c6a5, 0x1a96b193, 0x3a6aa383);
    Round(41, 0xd6670766, 0x79ea687a, 0x6dc57a8a, 0x34df1604, 0x26352d63, 0x1efbc0a0, 0xf0781bc8,
          0xa507a53d, 0xa81a664b, 0xf0a64f5a, 0x12b2e9b8, 0x3a6aa383, 0xd67912a8, 0x7de76a6a,
          0xdf7248c0, 0xb5eb5b68, 0x5e05c1b3, 0x4eac110d, 0x909a5422, 0xdf46652f, 0x838b2711);
    BigSigma0Is(0xdf46652f, 0xf7d1994b, 0x297efa33, 0x1994bf7d, 0xc73bdc05);
    BigSigma1Is(0x838b2711, 0x460e2c9c, 0xe2307164, 0xc59388c1, 0x61add539);
    Round(42, 0xdf46652f, 0xd6670766, 0x79ea687a, 0x6dc57a8a, 0x838b2711, 0x26352d63, 0x1efbc0a0,
          0xf0781bc8, 0xc24b8b70, 0x3e246a79, 0xc73bdc05, 0x61add539, 0x1e71e5a1, 0xdf66656e,
          0x5225f101, 0x7097d6a2, 0x32e36212, 0x7107cc8b, 0xa6a24173, 0x17aa0dfe, 0xdecd4715);
    BigSigma0Is(0x17aa0dfe, 0x85ea837f, 0x6ff0bd50, 0xa837f85e, 0x422dc671);
    BigSigma1Is(0xdecd4715, 0x577b351c, 0xe2bbd9a8, 0x66a38aef, 0xd363665b);
    Round(43, 0x17aa0dfe, 0xdf46652f, 0xd6670766, 0x79ea687a, 0xdecd4715, 0x838b2711, 0x26352d63,
          0x1efbc0a0, 0xc76c51a3, 0x27333ba3, 0x422dc671, 0xd363665b, 0xa2b92f73, 0xd766056e,
          0xf25f26fb, 0x9518566e, 0x5c84a811, 0x83b7e3b4, 0x1993cbdf, 0x9d4baf93, 0xfda24c2e);
  }

  lemma Rounds48()
    ensures Rounds(H0, ABC, 48) ==
            [W(0x4172328d), W(0xa14c14b0), W(0x72ab4b91), W(0x26628815),
             W(0xfecf0bc6), W(0xd57b94a9), W(0xb7755da1), W(0xa80f11f0)]
  {
    hide *;
    Rounds44();
    Constants5();
    Words4();
    BigSigma0Is(0x9d4baf93, 0xe752ebe4, 0x7c9cea5d, 0x2ebe4e75, 0xb5704fcc);
    BigSigma1Is(0xfda24c2e, 0xbbf68930, 0x85dfb449, 0xd126177e, 0xef0f2a07);
    Round(44, 0x9d4baf93, 0x17aa0dfe, 0xdf46652f, 0xd6670766, 0xfda24c2e, 0xdecd4715, 0x838b2711,
          0x26352d63, 0xd192e819, 0x0c4763f2, 0xb5704fcc, 0xef0f2a07, 0xde896715, 0x9f4a2dbf,
          0x1544576a, 0xf3cdbe7f, 0xc560a698, 0xd1a80a8a, 0x54ba7d8b, 0x26628815, 0xa80f11f0);
    BigSigma0Is(0x26628815, 0x4998a205, 0x40a93314, 0x8a205499, 0x8311c588);
    BigSigma1Is(0xa80f11f0, 0xc2a03c47, 0x3e1501e2, 0x0788f854, 0xfb3dc5f1);
    Round(45, 0x26628815, 0x9d4baf93, 0x17aa0dfe, 0xdf46652f, 0xa80f11f0, 0xfda24c2e, 0xdecd4715,
          0x838b2711, 0xd6990624, 0x840abf27, 0x8311c588, 0xfb3dc5f1, 0xfec24625, 0x176a8d97,
          0x7ec8ed02, 0x7d8b3327, 0x5424394b, 0xd82ef872, 0x9a7c531f, 0x72ab4b91, 0xb7755da1);
    BigSigma0Is(0x72ab4b91, 0x5caad2e4, 0x5c8b955a, 0xad2e45ca, 0xad0f0274);
    BigSigma1Is(0xb7755da1, 0x86ddd576, 0xb436eeab, 0xbaaed0db, 0x8845eb06);
    Round(46, 0x72ab4b91, 0x26628815, 0x9d4baf93, 0x17aa0dfe, 0xb7755da1, 0xa80f11f0, 0xfda24c2e,
          0xdecd4715, 0xf40e3585, 0x7a290d5d, 0xad0f0274, 0x8845eb06, 0xe88711ae, 0x366b8b91,
          0x6713321b, 0x4f9a43c9, 0x43a8794e, 0xbdd186ab, 0xe37a8e05, 0xa14c14b0, 0xd57b94a9);
    BigSigma0Is(0xa14c14b0, 0x2853052c, 0xa5850a60, 0x3052c285, 0xbd84cdc9);
    BigSigma1Is(0xd57b94a9, 0xa755ee52, 0x953aaf72, 0xbdca54ea, 0x8fa515ca);
    Round(47, 0xa14c14b0, 0x72ab4b91, 0x26628815, 0x9d4baf93, 0xd57b94a9, 0xb7755da1, 0xa80f11f0,
          0xfda24c2e, 0x106aa070, 0x065c43da, 0xbd84cdc9, 0x8fa515ca, 0xbd7515f1, 0x226a0891,
          0x8d4761f8, 0x4abc77e9, 0x5b271859, 0x61835c33, 0xdfeed65a, 0x4172328d, 0xfecf0bc6);
  }

  lemma Rounds52()
    ensures Rounds(H0, ABC, 52) ==
            [W(0x886e7a22), W(0x7a0508a1), W(0xf11bfaa8), W(0x05757ceb),
             W(0x49231c1e), W(0x52f1ccf7), W(0x6e5c390c), W(0xbd714038)]
  {
    hide *;
    Rounds48();
    Constants6();
    Words5();
    BigSigma0Is(0x4172328d, 0x505c8ca3, 0x946a0b91, 0xc8ca3505, 0x0cfcb237);
    BigSigma1Is(0xfecf0bc6, 0x1bfb3c2f, 0x78dfd9e1, 0x6785e37f, 0x04a106b1);
    Round(48, 0x4172328d, 0xa14c14b0, 0x72ab4b91, 0x26628815, 0xfecf0bc6, 0xd57b94a9, 0xb7755da1,
          0xa80f11f0, 0x19a4c116, 0xfb3e89cb, 0x0cfcb237, 0x04a106b1, 0xd57b54a1, 0x616a1291,
          0xacb018a1, 0x822b6d42, 0x9bd02e58, 0x970eb823, 0x6e66c4c8, 0x05757ceb, 0xbd714038);
    BigSigma0Is(0x05757ceb, 0xc15d5f3a, 0xe7582bab, 0xd5f3ac15, 0xf3f6d884);
    BigSigma1Is(0xbd714038, 0xe2f5c500, 0x0717ae28, 0xb8a01c5e, 0x5d427776);
    Round(49, 0x05757ceb, 0x4172328d, 0xa14c14b0, 0x72ab4b91, 0xbd714038, 0xfecf0bc6, 0xd57b94a9,
          0xb7755da1, 0x1e376c08, 0xcc7617db, 0xf3f6d884, 0x5d427776, 0xfc4b9481, 0x017434a9,
          0x14b7d517, 0x11036998, 0x2f3ad5a0, 0xfbb0ed7b, 0xf56b0d2d, 0xf11bfaa8, 0x6e5c390c);
    BigSigma0Is(0xf11bfaa8, 0x3c46feaa, 0xd54788df, 0x6feaa3c4, 0x86ebd5b1);
    BigSigma1Is(0x6e5c390c, 0x31b970e4, 0x218dcb87, 0x2e1c8637, 0x3e283d54);
    Round(50, 0xf11bfaa8, 0x05757ceb, 0x4172328d, 0xa14c14b0, 0x6e5c390c, 0xbd714038, 0xfecf0bc6,
          0xd57b94a9, 0x2748774c, 0xb9e66c34, 0x86ebd5b1, 0x3e283d54, 0xbcd302ca, 0x41737aa9,
          0x13a3d1fd, 0xd076d4c7, 0xf7bf4c13, 0xb1a5b847, 0xc85f505a, 0x7a0508a1, 0x52f1ccf7);
    BigSigma0Is(0x7a0508a1, 0x5e814228, 0x450bd028, 0x142285e8, 0x0fa817e8);
    BigSigma1Is(0x52f1ccf7, 0xdd4bc733, 0x9eea5e39, 0x78e67ba9, 0x3b47e2a3);
    Round(51, 0x7a0508a1, 0xf11bfaa8, 0x05757ceb, 0x4172328d, 0x52f1ccf7, 0x6e5c390c, 0xbd714038,
          0xfecf0bc6, 0x34b0bcb5, 0xa9993667, 0x0fa817e8, 0x3b47e2a3, 0xef50080c, 0x711578a9,
          0x3a16ee69, 0x2966f675, 0x5e17b32a, 0x07b0e991, 0x80bd9091, 0x886e7a22, 0x49231c1e);
  }

  lemma Rounds56()
    ensures Rounds(H0, ABC, 56) ==
            [W(0x38cc9913), W(0x3ec45cdb), W(0xf5702fdb), W(0x101fd28f),
             W(0x54cb266b), W(0xe50e1b4f), W(0x9f4787c3), W(0x529e7d00)]
  {
    hide *;
    Rounds52();
    Constants6();
    Words5();
    BigSigma0Is(0x886e7a22, 0xa21b9e88, 0xd1144373, 0xb9e88a21, 0xcae757da);
    BigSigma1Is(0x49231c1e, 0x79248c70, 0x83c92463, 0x918e0f24, 0x6b63a737);
    Round(52, 0x886e7a22, 0x7a0508a1, 0xf11bfaa8, 0x05757ceb, 0x49231c1e, 0x52f1ccf7, 0x6e5c390c,
          0xbd714038, 0x391c0cb3, 0x84badedd, 0xcae757da, 0x6b63a737, 0x667d2d16, 0xf80f7aa0,
          0x28d4e76f, 0x8f521485, 0xc86e2138, 0x4d290015, 0xc2f6d27a, 0x101fd28f, 0x529e7d00);
    BigSigma0Is(0x101fd28f, 0xc407f4a3, 0x947880fe, 0x7f4a3c40, 0x2f35481d);
    BigSigma1Is(0x529e7d00, 0x014a79f4, 0xa00a53cf, 0x4f3e8029, 0xee7eaa12);
    Round(53, 0x101fd28f, 0x886e7a22, 0x7a0508a1, 0xf11bfaa8, 0x529e7d00, 0x49231c1e, 0x52f1ccf7,
          0x6e5c390c, 0x4ed8aa4a, 0xc21462bc, 0x2f35481d, 0xee7eaa12, 0x40639cf7, 0x180f5aa3,
          0x5cdae31e, 0x9d3e8015, 0xec172a5f, 0xae2b8d1b, 0x4744a2c0, 0xf5702fdb, 0x9f4787c3);
    BigSigma0Is(0xf5702fdb, 0xfd5c0bf6, 0x7edfab81, 0xc0bf6fd5, 0x433ccfa2);
    BigSigma1Is(0x9f4787c3, 0x0e7d1e1f, 0xf873e8f0, 0xa3c3e1cf, 0x55cd1720);
    Round(54, 0xf5702fdb, 0x101fd28f, 0x886e7a22, 0x7a0508a1, 0x9f4787c3, 0x529e7d00, 0x49231c1e,
          0x52f1ccf7, 0x5b9cca4f, 0x1487472c, 0x433ccfa2, 0x55cd1720, 0x52261d1c, 0x907e7a8b,
          0xa8bee417, 0xfae50133, 0x5681cb82, 0x6b0912ae, 0xd3bb4a2d, 0x3ec45cdb, 0xe50e1b4f);
    BigSigma0Is(0x3ec45cdb, 0xcfb11736, 0xe6d9f622, 0x11736cfb, 0x381b8def);
    BigSigma1Is(0xe50e1b4f, 0x3f94386d, 0x69fca1c3, 0x870da7f2, 0xd1653e5c);
    Round(55, 0x3ec45cdb, 0xf5702fdb, 0x101fd28f, 0x886e7a22, 0xe50e1b4f, 0x9f4787c3, 0x529e7d00,
          0x49231c1e, 0x682e6ff3, 0xb20f7a99, 0x381b8def, 0xd1653e5c, 0x97966743, 0x34545edb,
          0x1a885a7a, 0xb21ec1bd, 0x1a4d31b0, 0xcc5cac49, 0x6c6fecca, 0x38cc9913, 0x54cb266b);
  }

  lemma Rounds60()
    ensures Rounds(H0, ABC, 60) ==
            [W(0xb6ae8fff), W(0xffb70472), W(0xc062d46f), W(0xfcd1887b),
             W(0xb21bad3d), W(0x6d83bfc6), W(0x7e44008e), W(0x9b5e906c)]
  {
    hide *;
    Rounds56();
    Constants7();
    Words6();
    BigSigma0Is(0x38cc9913, 0xce332644, 0xc899c664, 0x32644ce3, 0x34ceacc3);
    BigSigma1Is(0x54cb266b, 0xad532c99, 0xcd6a9964, 0x659335aa, 0x05aa8057);
    Round(56, 0x38cc9913, 0x3ec45cdb, 0xf5702fdb, 0x101fd28f, 0x54cb266b, 0xe50e1b4f, 0x9f4787c3,
          0x529e7d00, 0x748f82ee, 0xef57b9cd, 0x34ceacc3, 0x05aa8057, 0xcf0e83cb, 0x3cc41ddb,
          0x5848fd57, 0x27578122, 0x9be70410, 0x8b3ebddd, 0x7192ca9e, 0xfcd1887b, 0x9b5e906c);
    BigSigma0Is(0xfcd1887b, 0xff34621e, 0x43dfe68c, 0x4621eff3, 0xfaca6b61);
    BigSigma1Is(0x9b5e906c, 0xb26d7a41, 0x0d936bd2, 0xaf48364d, 0x10b627de);
    Round(57, 0xfcd1887b, 0x38cc9913, 0x3ec45cdb, 0xf5702fdb, 0x9b5e906c, 0x54cb266b, 0xe50e1b4f,
          0x9f4787c3, 0x78a5636f, 0xebe6b238, 0xfaca6b61, 0x10b627de, 0x744a0b6b, 0x3cc4985b,
          0xaffdafa1, 0x2447bb0c, 0x9ced1e7b, 0x88d3d0b3, 0x378f03bc, 0xc062d46f, 0x7e44008e);
    BigSigma0Is(0xc062d46f, 0xf018b51b, 0xa37e0316, 0x8b51bf01, 0xd837090c);
    BigSigma1Is(0x7e44008e, 0x39f91002, 0x11cfc880, 0x2200473f, 0x0a369fbd);
    Round(58, 0xc062d46f, 0xfcd1887b, 0x38cc9913, 0x3ec45cdb, 0x7e44008e, 0x9b5e906c, 0x54cb266b,
          0xe50e1b4f, 0x84c87814, 0x9fe3095e, 0xd837090c, 0x0a369fbd, 0x1acf266d, 0xf8c0987b,
          0xef44bb0c, 0x0a13e179, 0x8edc598d, 0x2ebf62eb, 0xd0f7a187, 0xffb70472, 0x6d83bfc6);
    BigSigma0Is(0xffb70472, 0xbfedc11c, 0x2397fdb8, 0xdc11cbfe, 0x406bf75a);
    BigSigma1Is(0x6d83bfc6, 0x19b60eff, 0xf8cdb077, 0xc1dfe336, 0x20a45dbe);
    Round(59, 0xffb70472, 0xc062d46f, 0xfcd1887b, 0x38cc9913, 0x6d83bfc6, 0x7e44008e, 0x9b5e906c,
          0x54cb266b, 0x8cc70208, 0x78bc8d4b, 0x406bf75a, 0x20a45dbe, 0xfe5c00ae, 0xfcf3847b,
          0x756f8429, 0x73cb84d7, 0x009286df, 0x794f142a, 0x3d5f7bd5, 0xb6ae8fff, 0xb21bad3d);
  }

  lemma Rounds64()
    ensures Rounds(H0, ABC, 64) ==
            [W(0x506e3058), W(0xd39a2165), W(0x04d24d6c), W(0xb85e2ce9),
             W(0x5ef50f24), W(0xfb121210), W(0x948d25b6), W(0x961f4894)]
  {
    hide *;
    Rounds60();
    Constants7();
    Words6();
    BigSigma0Is(0xb6ae8fff, 0xedaba3ff, 0x7ffdb574, 0xba3ffeda, 0x2869e851);
    BigSigma1Is(0xb21bad3d, 0xf6c86eb4, 0xa7b64375, 0x0dd69ed9, 0x5ca8b318);
    Round(60, 0xb6ae8fff, 0xffb70472, 0xc062d46f, 0xfcd1887b, 0xb21bad3d, 0x6d83bfc6, 0x7e44008e,
          0x9b5e906c, 0x90befffa, 0xa43fcf15, 0x2869e851, 0x5ca8b318, 0x6c47ad86, 0xf6a6847f,
          0xf8074384, 0x644ef10a, 0xf50df104, 0x994dc019, 0x1f106cd0, 0xb85e2ce9, 0x961f4894);
    BigSigma0Is(0xb85e2ce9, 0x6e178b3a, 0x674dc2f1, 0x78b3a6e1, 0x71e9ef2a);
    BigSigma1Is(0x961f4894, 0x52587d22, 0x1292c3e9, 0x0fa44a4b, 0x4f6ef480);
    Round(61, 0xb85e2ce9, 0xb6ae8fff, 0xffb70472, 0xc062d46f, 0x961f4894, 0xb21bad3d, 0x6d83bfc6,
          0x7e44008e, 0xa4506ceb, 0x668b2ff8, 0x71e9ef2a, 0x4f6ef480, 0xfb9bbf56, 0xbebe0cfb,
          0xcdb2f50e, 0xc94eb464, 0x6d9f214f, 0xd42a5147, 0x30a7fc25, 0x04d24d6c, 0x948d25b6);
    BigSigma0Is(0x04d24d6c, 0x0134935b, 0x6b602692, 0x4935b013, 0x236105da);
    BigSigma1Is(0x948d25b6, 0xda523496, 0xb6d291a4, 0x4692db4a, 0x2a127e78);
    Round(62, 0x04d24d6c, 0xb85e2ce9, 0xb6ae8fff, 0xffb70472, 0x948d25b6, 0x961f4894, 0xb21bad3d,
          0x6d83bfc6, 0xbef9a3f7, 0xeeaba2cc, 0x236105da, 0x2a127e78, 0xb61f889d, 0xb4de0ded,
          0x97963e3e, 0x4db5c6db, 0x0caf6ad2, 0xfb5b0d9e, 0xd83f13c7, 0xd39a2165, 0xfb121210);
    BigSigma0Is(0xd39a2165, 0x74e68859, 0x0b2e9cd1, 0x6885974e, 0x174d83c6);
    BigSigma1Is(0xfb121210, 0x43ec4848, 0x421f6242, 0x8909087d, 0x88fa2277);
    Round(63, 0xd39a2165, 0x04d24d6c, 0xb85e2ce9, 0xb6ae8fff, 0xfb121210, 0x948d25b6, 0x961f4894,
          0xb21bad3d, 0xc67178f2, 0x12b1edeb, 0x174d83c6, 0x88fa2277, 0x940d4894, 0x90da2d6d,
          0x3b15cfb4, 0xcf231848, 0x9594913a, 0xa8467f25, 0xa827b133, 0x506e3058, 0x5ef50f24);
  }

  lemma FinalSums()
    ensures Add(W(0x6a09e667), W(0x506e3058)) == W(0xba7816bf)
    ensures Add(W(0xbb67ae85), W(0xd39a2165)) == W(0x8f01cfea)
    ensures Add(W(0x3c6ef372), W(0x04d24d6c)) == W(0x414140de)
    ensures Add(W(0xa54ff53a), W(0xb85e2ce9)) == W(0x5dae2223)
    ensures Add(W(0x510e527f), W(0x5ef50f24)) == W(0xb00361a3)
    ensures Add(W(0x9b05688c), W(0xfb121210)) == W(0x96177a9c)
    ensures Add(W(0x1f83d9ab), W(0x948d25b6)) == W(0xb410ff61)
    ensures Add(W(0x5be0cd19), W(0x961f4894)) == W(0xf20015ad)
  {
  }

  lemma FinalBytes()
    ensures BytesOf(W(0xba7816bf)) == [186, 120, 22, 191]
    ensures BytesOf(W(0x8f01cfea)) == [143, 1, 207, 234]
    ensures BytesOf(W(0x414140de)) == [65, 65, 64, 222]
    ensures BytesOf(W(0x5dae2223)) == [93, 174, 34, 35]
    ensures BytesOf(W(0xb00361a3)) == [176, 3, 97, 163]
    ensures BytesOf(W(0x96177a9c)) == [150, 23, 122, 156]
    ensures BytesOf(W(0xb410ff61)) == [180, 16, 255, 97]
    ensures BytesOf(W(0xf20015ad)) == [242, 0, 21, 173]
  {
  }

  lemma PaddedAbc()
    ensures Pad([97, 98, 99]) == ABC
  {
    assert ZeroCount(3) == 52;
    LengthField();
    hide BigEndian, ZeroCount;
    assert Zeros(59) == Zeros(52) + [0, 0, 0, 0, 0, 0, 0];
  }

  lemma LengthField()
    ensures BigEndian(24, 8) == [0, 0, 0, 0, 0, 0, 0, 24]
  {
    assert BigEndian(0, 1) == [0] && BigEndian(0, 2) == [0, 0] && BigEndian(0, 3) == [0, 0, 0];
    assert BigEndian(0, 4) == [0, 0, 0, 0] && BigEndian(0, 5) == [0, 0, 0, 0, 0];
    assert BigEndian(0, 6) == [0, 0, 0, 0, 0, 0] && BigEndian(0, 7) == [0, 0, 0, 0, 0, 0, 0];
  }

  lemma SumOfStates(h: State, v: State)
    ensures AddStates(h, v) ==
            [Add(h[0], v[0]), Add(h[1], v[1]), Add(h[2], v[2]), Add(h[3], v[3]),
             Add(h[4], v[4]), Add(h[5], v[5]), Add(h[6], v[6]), Add(h[7], v[7])]
  {
    hide Add;
  }

  lemma CompressDefinition(h: State, block: Block)
    ensures Compress(h, block) == AddStates(h, Rounds(h, block, 64))
  {
    hide AddStates, Rounds;
  }

  lemma StateBytesOfCons(w: Word, rest: seq<Word>)
    ensures StateBytes([w] + rest) == BytesOf(w) + StateBytes(rest)
  {
    hide BytesOf;
    assert ([w] + rest)[1..] == rest;
  }

  lemma CompressedAbc()
    ensures Compress(H0, ABC) ==
            [W(0xba7816bf), W(0x8f01cfea), W(0x414140de), W(0x5dae2223),
             W(0xb00361a3), W(0x96177a9c), W(0xb410ff61), W(0xf20015ad)]
  {
    hide *;
    CompressDefinition(H0, ABC);
    Rounds64();
    InitialValue();
    FinalSums();
    SumOfStates(H0, Rounds(H0, ABC, 64));
  }

  lemma BytesOfAbc()
    ensures StateBytes([W(0xba7816bf), W(0x8f01cfea), W(0x414140de), W(0x5dae2223),
                        W(0xb00361a3), W(0x96177a9c), W(0xb410ff61), W(0xf20015ad)]) ==
            [186, 120, 22, 191] +
            [143, 1, 207, 234] +
            [65, 65, 64, 222] +
            [93, 174, 34, 35] +
            [176, 3, 97, 163] +
            [150, 23, 122, 156] +
            [180, 16, 255, 97] +
            [242, 0, 21, 173]
  {
    hide BytesOf, StateBytes;
    FinalBytes();
    StateBytesEmpty();
    var s0 := [W(0x8f01cfea), W(0x414140de), W(0x5dae2223), W(0xb00361a3), W(0x96177a9c), W(0xb410ff61), W(0xf20015ad)];
    var s1 := [W(0x414140de), W(0x5dae2223), W(0xb00361a3), W(0x96177a9c), W(0xb410ff61), W(0xf20015ad)];
    var s2 := [W(0x5dae2223), W(0xb00361a3), W(0x96177a9c), W(0xb410ff61), W(0xf20015ad)];
    var s3 := [W(0xb00361a3), W(0x96177a9c), W(0xb410ff61), W(0xf20015ad)];
    var s4 := [W(0x96177a9c), W(0xb410ff61), W(0xf20015ad)];
    var s5 := [W(0xb410ff61), W(0xf20015ad)];
    var s6 := [W(0xf20015ad)];
    var s7 := [];
    StateBytesOfCons(W(0xf20015ad), s7);
    StateBytesOfCons(W(0xb410ff61), s6);
    StateBytesOfCons(W(0x96177a9c), s5);
    StateBytesOfCons(W(0xb00361a3), s4);
    StateBytesOfCons(W(0x5dae2223), s3);
    StateBytesOfCons(W(0x414140de), s2);
    StateBytesOfCons(W(0x8f01cfea), s1);
    StateBytesOfCons(W(0xba7816bf), s0);
    assert [W(0xba7816bf)] + s0 ==
           [W(0xba7816bf), W(0x8f01cfea), W(0x414140de), W(0x5dae2223),
            W(0xb00361a3), W(0x96177a9c), W(0xb410ff61), W(0xf20015ad)];
    assert [W(0x8f01cfea)] + s1 == s0;
    assert [W(0x414140de)] + s2 == s1;
    assert [W(0x5dae2223)] + s3 == s2;
    assert [W(0xb00361a3)] + s4 == s3;
    assert [W(0x96177a9c)] + s5 == s4;
    assert [W(0xb410ff61)] + s6 == s5;
    assert [W(0xf20015ad)] + s7 == s6;
  }

  /** The digest of the three bytes "abc", as section B.1 of FIPS 180-2 gives it. */
  lemma DigestOfAbc()
    ensures Digest([97, 98, 99]) ==
            [186, 120, 22, 191, 143, 1, 207, 234, 65, 65, 64, 222, 93, 174, 34, 35,
             176, 3, 97, 163, 150, 23, 122, 156, 180, 16, 255, 97, 242, 0, 21, 173]
  {
    hide *;
    DigestDefinition([97, 98, 99]);
    PaddedAbc();
    FoldBlock(H0, ABC);
    CompressedAbc();
    BytesOfAbc();
  }
}
