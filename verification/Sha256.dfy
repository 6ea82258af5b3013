/**
 SHA-256 as `checksum.cpp` computes it: the compression function, the
 in-memory driver and the file driver, against the padded-message fold of
 sections 5.1.1 and 6.2.2 of FIPS 180-4.
 */
module Sha256 {
  import opened Bytes
  import Hex

  // ---- The compression function (section 6.2.2) ----------------------------

  /** A 32-bit word; addition on words is modulo 2^32. */
  datatype Word = W(bits: bv32)

  const K: seq<Word> :=
    ([W(0x428a2f98), W(0x71374491), W(0xb5c0fbcf), W(0xe9b5dba5),
      W(0x3956c25b), W(0x59f111f1), W(0x923f82a4), W(0xab1c5ed5)] +
     [W(0xd807aa98), W(0x12835b01), W(0x243185be), W(0x550c7dc3),
      W(0x72be5d74), W(0x80deb1fe), W(0x9bdc06a7), W(0xc19bf174)]) +
    ([W(0xe49b69c1), W(0xefbe4786), W(0x0fc19dc6), W(0x240ca1cc),
      W(0x2de92c6f), W(0x4a7484aa), W(0x5cb0a9dc), W(0x76f988da)] +
     [W(0x983e5152), W(0xa831c66d), W(0xb00327c8), W(0xbf597fc7),
      W(0xc6e00bf3), W(0xd5a79147), W(0x06ca6351), W(0x14292967)]) +
    ([W(0x27b70a85), W(0x2e1b2138), W(0x4d2c6dfc), W(0x53380d13),
      W(0x650a7354), W(0x766a0abb), W(0x81c2c92e), W(0x92722c85)] +
     [W(0xa2bfe8a1), W(0xa81a664b), W(0xc24b8b70), W(0xc76c51a3),
      W(0xd192e819), W(0xd6990624), W(0xf40e3585), W(0x106aa070)]) +
    ([W(0x19a4c116), W(0x1e376c08), W(0x2748774c), W(0x34b0bcb5),
      W(0x391c0cb3), W(0x4ed8aa4a), W(0x5b9cca4f), W(0x682e6ff3)] +
     [W(0x748f82ee), W(0x78a5636f), W(0x84c87814), W(0x8cc70208),
      W(0x90befffa), W(0xa4506ceb), W(0xbef9a3f7), W(0xc67178f2)])

  const H0: State := [
    W(0x6a09e667), W(0xbb67ae85), W(0x3c6ef372), W(0xa54ff53a), W(0x510e527f), W(0x9b05688c),
    W(0x1f83d9ab), W(0x5be0cd19)]

  function Rotr(x: bv32, n: nat): bv32
    requires 0 < n < 32
  {
    (x >> n) | (x << (32 - n))
  }

  function Shr(x: bv32, n: nat): bv32
    requires n < 32
  {
    x >> n
  }

  function Xor3(x: bv32, y: bv32, z: bv32): bv32 { x ^ y ^ z }

  function SmallSigma0Bits(x: bv32): bv32 { Xor3(Rotr(x, 7), Rotr(x, 18), Shr(x, 3)) }

  function SmallSigma1Bits(x: bv32): bv32 { Xor3(Rotr(x, 17), Rotr(x, 19), Shr(x, 10)) }

  function BigSigma0Bits(x: bv32): bv32 { Xor3(Rotr(x, 2), Rotr(x, 13), Rotr(x, 22)) }

  function BigSigma1Bits(x: bv32): bv32 { Xor3(Rotr(x, 6), Rotr(x, 11), Rotr(x, 25)) }

  function ChBits(x: bv32, y: bv32, z: bv32): bv32 { (x & y) ^ (!x & z) }

  function MajBits(x: bv32, y: bv32, z: bv32): bv32 { Xor3(x & y, x & z, y & z) }

  function Plus(x: bv32, y: bv32): bv32 { x + y }

  function SmallSigma0(x: Word): Word { W(SmallSigma0Bits(x.bits)) }

  function SmallSigma1(x: Word): Word { W(SmallSigma1Bits(x.bits)) }

  function BigSigma0(x: Word): Word { W(BigSigma0Bits(x.bits)) }

  function BigSigma1(x: Word): Word { W(BigSigma1Bits(x.bits)) }

  function Ch(x: Word, y: Word, z: Word): Word { W(ChBits(x.bits, y.bits, z.bits)) }

  function Maj(x: Word, y: Word, z: Word): Word { W(MajBits(x.bits, y.bits, z.bits)) }

  function Add(x: Word, y: Word): Word { W(Plus(x.bits, y.bits)) }

  /** The big-endian word of four bytes. */
  function WordOf(b0: Byte, b1: Byte, b2: Byte, b3: Byte): Word {
    W((Pattern(b0) as bv32 << 24) | (Pattern(b1) as bv32 << 16) | (Pattern(b2) as bv32 << 8) | Pattern(b3) as bv32)
  }

  /** The big-endian bytes of a word. */
  function BytesOf(w: Word): (b: seq<Byte>)
    ensures |b| == 4
  {
    [Truncate(w.bits >> 24), Truncate(w.bits >> 16), Truncate(w.bits >> 8), Truncate(w.bits)]
  }

  function Truncate(x: bv32): Byte { ((x & 0xFF) as bv8) as int as Byte }

  type Block = b: seq<Byte> | |b| == 64 witness Zeros(64)

  type State = h: seq<Word> | |h| == 8 witness seq(8, _ => W(0))

  /** Word `t` of the message schedule. */
  function Schedule(block: Block, t: nat): Word
    requires t < 64
  {
    if t < 16 then WordOf(block[4 * t], block[4 * t + 1], block[4 * t + 2], block[4 * t + 3])
    else Add(Add(Add(Schedule(block, t - 16), SmallSigma0(Schedule(block, t - 15))), Schedule(block, t - 7)),
             SmallSigma1(Schedule(block, t - 2)))
  }

  /** The eight working variables a..h after `t` rounds. */
  function Rounds(h: State, block: Block, t: nat): (v: State)
    requires t <= 64
  {
    if t == 0 then h
    else
      var v := Rounds(h, block, t - 1);
      var t1 := Add(Add(Add(Add(v[7], BigSigma1(v[4])), Ch(v[4], v[5], v[6])), K[t - 1]), Schedule(block, t - 1));
      var t2 := Add(BigSigma0(v[0]), Maj(v[0], v[1], v[2]));
      [Add(t1, t2), v[0], v[1], v[2], Add(v[3], t1), v[4], v[5], v[6]]
  }

  function AddStates(h: State, v: State): State {
    seq(8, k requires 0 <= k < 8 => Add(h[k], v[k]))
  }

  /** The hash value after one more message block. */
  function Compress(h: State, block: Block): State {
    AddStates(h, Rounds(h, block, 64))
  }

  lemma ScheduleByCase(block: Block, t: nat)
    requires t < 64
    ensures t < 16 ==>
              Schedule(block, t) == WordOf(block[4 * t], block[4 * t + 1], block[4 * t + 2], block[4 * t + 3])
    ensures t >= 16 ==>
              Schedule(block, t) ==
              Add(Add(Add(Schedule(block, t - 16), SmallSigma0(Schedule(block, t - 15))), Schedule(block, t - 7)),
                  SmallSigma1(Schedule(block, t - 2)))
  {
    hide WordOf, Add, SmallSigma0, SmallSigma1;
  }

  /** The first loops of `sha256_transform`: the schedule array `w`. */
  method PrepareSchedule(block: array<Byte>) returns (w: array<Word>)
    requires block.Length == 64
    ensures w.Length == 64 && fresh(w)
    ensures forall k :: 0 <= k < 64 ==> w[k] == Schedule(block[..], k)
  {
    hide *;
    ghost var m := block[..];
    w := new Word[64];
    for i := 0 to 16
      invariant block[..] == m
      invariant forall k :: 0 <= k < i ==> w[k] == Schedule(m, k)
    {
      ScheduleByCase(m, i);
      w[i] := WordOf(block[i * 4], block[i * 4 + 1], block[i * 4 + 2], block[i * 4 + 3]);
    }
    for i := 16 to 64
      invariant block[..] == m
      invariant forall k :: 0 <= k < i ==> w[k] == Schedule(m, k)
    {
      ScheduleByCase(m, i);
      var s0 := SmallSigma0(w[i - 15]);
      var s1 := SmallSigma1(w[i - 2]);
      w[i] := Add(Add(Add(w[i - 16], s0), w[i - 7]), s1);
    }
  }

  /** `sha256_transform`: fills the schedule array, runs the rounds and updates the state array in place. */
  method Transform(state: array<Word>, block: array<Byte>)
    requires state.Length == 8 && block.Length == 64
    modifies state
    ensures state[..] == Compress(old(state[..]), block[..])
  {
    hide WordOf, Add, SmallSigma0, SmallSigma1, BigSigma0, BigSigma1, Ch, Maj, AddStates, Schedule;
    ghost var h, m := state[..], block[..];
    var w := PrepareSchedule(block);
    var a, b, c, d, e, f, g, hh := state[0], state[1], state[2], state[3], state[4], state[5], state[6], state[7];
    assert [a, b, c, d, e, f, g, hh] == h;
    for i := 0 to 64
      invariant state[..] == h && block[..] == m
      invariant [a, b, c, d, e, f, g, hh] == Rounds(h, m, i)
    {
      ghost var v := Rounds(h, m, i);
      assert v[0] == a && v[1] == b && v[2] == c && v[3] == d && v[4] == e && v[5] == f && v[6] == g && v[7] == hh;
      var temp1 := Add(Add(Add(Add(hh, BigSigma1(e)), Ch(e, f, g)), K[i]), w[i]);
      var temp2 := Add(BigSigma0(a), Maj(a, b, c));
      hh, g, f, e, d, c, b, a := g, f, e, Add(d, temp1), c, b, a, Add(temp1, temp2);
    }
    AddWorkingVariables(state, [a, b, c, d, e, f, g, hh]);
  }

  /** The last lines of `sha256_transform`. */
  method AddWorkingVariables(state: array<Word>, v: State)
    requires state.Length == 8
    modifies state
    ensures state[..] == AddStates(old(state[..]), v)
  {
    hide Add;
    forall k | 0 <= k < 8 {
      state[k] := Add(state[k], v[k]);
    }
  }

  // ---- Padding (section 5.1.1) and the fold (section 6.2.2) -----------------

  predicate Aligned(n: int) { n % 64 == 0 }

  /** The hash value after all the whole blocks of a message. */
  function Fold(h: State, m: seq<Byte>): State
    decreases |m|
  {
    if |m| < 64 then h else Fold(Compress(h, m[..64]), m[64..])
  }

  /** The last `k` base-256 digits of `n`, most significant first. */
  function BigEndian(n: nat, k: nat): (b: seq<Byte>)
    ensures |b| == k
    decreases k
  {
    if k == 0 then [] else BigEndian(n / 256, k - 1) + [(n % 256) as Byte]
  }

  /** The number that a byte string denotes, most significant byte first. */
  function ValueOf(b: seq<Byte>): nat {
    if b == [] then 0 else 256 * ValueOf(b[..|b| - 1]) + b[|b| - 1] as nat
  }

  function Pow256(k: nat): nat {
    if k == 0 then 1 else 256 * Pow256(k - 1)
  }

  /** The number of zero bytes between the 0x80 mark and the length field. */
  function ZeroCount(length: nat): nat {
    if length % 64 < 56 then 55 - length % 64 else 119 - length % 64
  }

  lemma AlignedSum(a: int, b: int)
    requires Aligned(a)
    ensures Aligned(a + b) <==> Aligned(b)
    ensures Aligned(a + 64)
  {
  }

  lemma ZeroCountOfRest(whole: nat, rest: nat)
    requires Aligned(whole) && rest < 64
    ensures (whole + rest) % 64 == rest
    ensures ZeroCount(whole + rest) == if rest < 56 then 55 - rest else 119 - rest
  {
  }

  /** What both drivers append to a message of the given length. */
  function Trailer(length: nat): seq<Byte> {
    [0x80 as Byte] + Zeros(ZeroCount(length)) + BigEndian(8 * length, 8)
  }

  function Pad(m: seq<Byte>): seq<Byte> {
    m + Trailer(|m|)
  }

  function StateBytes(h: seq<Word>): (b: seq<Byte>)
    ensures |b| == 4 * |h|
  {
    if h == [] then [] else BytesOf(h[0]) + StateBytes(h[1..])
  }

  /** The digest: the fold of the compression function over the padded message. */
  function Digest(m: seq<Byte>): (d: seq<Byte>)
    ensures |d| == 32
  {
    StateBytes(Fold(H0, Pad(m)))
  }

  lemma Pow256Positive(k: nat)
    ensures Pow256(k) > 0
  {
  }

  lemma {:induction false} BigEndianValue(n: nat, k: nat)
    requires n < Pow256(k)
    ensures ValueOf(BigEndian(n, k)) == n
  {
    if k != 0 {
      var b := BigEndian(n, k);
      assert b[..k - 1] == BigEndian(n / 256, k - 1);
      BigEndianValue(n / 256, k - 1);
    }
  }

  /** A message below 2^61 bytes gets exactly the padding of section 5.1.1. */
  lemma PadIsStandard(m: seq<Byte>)
    requires |m| < 0x2000_0000_0000_0000
    ensures var p := Pad(m);
            && m <= p && p[|m|] == 0x80
            && (forall i :: |m| < i < |p| - 8 ==> p[i] == 0)
            && ValueOf(p[|p| - 8..]) == 8 * |m|
    ensures Aligned(|Pad(m)|) && |m| + 9 <= |Pad(m)| < |m| + 9 + 64
  {
    var p := Pad(m);
    assert p[|p| - 8..] == BigEndian(8 * |m|, 8);
    assert Pow256(8) == 0x1_0000_0000_0000_0000;
    BigEndianValue(8 * |m|, 8);
    PadAligned(m);
  }

  lemma PadAligned(m: seq<Byte>)
    ensures Aligned(|Pad(m)|) && |m| + 9 <= |Pad(m)| < |m| + 9 + 64
  {
    hide Aligned;
    var rest := |m| % 64;
    var whole := |m| - rest;
    assert Aligned(whole) by { RestAligned(|m|); }
    ZeroCountOfRest(whole, rest);
    AlignedSum(whole, 64);
    AlignedSum(whole + 64, 64);
    assert |Pad(m)| == if rest < 56 then whole + 64 else whole + 128;
  }

  lemma RestAligned(n: nat)
    ensures Aligned(n - n % 64)
  {
  }

  lemma {:induction false} FoldAppend(h: State, a: seq<Byte>, b: seq<Byte>)
    requires Aligned(|a|)
    ensures Fold(h, a + b) == Fold(Fold(h, a), b)
    decreases |a|
  {
    hide Compress;
    if a == [] {
      assert a + b == b;
    } else {
      AlignedSum(64, |a| - 64);
      assert (a + b)[..64] == a[..64] && (a + b)[64..] == a[64..] + b;
      FoldAppend(Compress(h, a[..64]), a[64..], b);
    }
  }

  lemma FoldBlock(h: State, block: Block)
    ensures Fold(h, block) == Compress(h, block)
  {
    hide Compress;
    assert block[..64] == block && block[64..] == [];
  }

  // ---- The length field as the code writes it ------------------------------

  /** `n >> (8 * i)` */
  function ShiftRightBytes(n: nat, i: nat): nat
    decreases i
  {
    if i == 0 then n else ShiftRightBytes(n / 256, i - 1)
  }

  lemma {:induction false} BigEndianAt(n: nat, k: nat, i: nat)
    requires i < k
    ensures BigEndian(n, k)[k - 1 - i] == (ShiftRightBytes(n, i) % 256) as Byte
    decreases k
  {
    if i != 0 {
      BigEndianAt(n / 256, k - 1, i - 1);
    }
  }

  lemma TruncateDigits(n: nat, m: nat)
    requires m > 0
    ensures (n % (256 * m)) % 256 == n % 256
    ensures (n % (256 * m)) / 256 == (n / 256) % m
  {
    var q, r := n / (256 * m), n % (256 * m);
    assert n == 256 * (m * q) + r;
    assert n / 256 == m * q + r / 256;
    assert 0 <= r / 256 < m;
    Remainder(n / 256, m, q, r / 256);
  }

  /** Only the low `8 * k` bits of a number reach a field of `k` bytes. */
  lemma {:induction false} BigEndianTruncates(n: nat, k: nat)
    ensures Pow256(k) > 0
    ensures BigEndian(n % Pow256(k), k) == BigEndian(n, k)
    decreases k
  {
    Pow256Positive(k);
    if k != 0 {
      BigEndianTruncates(n / 256, k - 1);
      TruncateDigits(n, Pow256(k - 1));
    }
  }

  // ---- The drivers ---------------------------------------------------------

  method FillZeros(block: array<Byte>, from: nat, to: nat)
    requires from <= to <= block.Length
    modifies block
    ensures block[..] == old(block[..from]) + Zeros(to - from) + old(block[to..])
  {
    var pos := from;
    while pos < to
      invariant from <= pos <= to
      invariant block[..from] == old(block[..from]) && block[to..] == old(block[to..])
      invariant forall k :: from <= k < pos ==> block[k] == 0
    {
      block[pos] := 0;
      pos := pos + 1;
    }
    assert block[from..to] == Zeros(to - from);
    assert block[..] == block[..from] + block[from..to] + block[to..];
  }

  /** The loop that appends the 64-bit length, most significant byte first. */
  method AppendLength(block: array<Byte>, bitLength: nat)
    requires block.Length == 64
    modifies block
    ensures block[..] == old(block[..56]) + BigEndian(bitLength, 8)
  {
    var pos := 56;
    for i := 8 downto 0
      invariant pos == 64 - i
      invariant block[..56] == old(block[..56])
      invariant block[56..pos] == BigEndian(bitLength, 8)[..8 - i]
    {
      BigEndianAt(bitLength, 8, i);
      block[pos] := (ShiftRightBytes(bitLength, i) % 256) as Byte;
      pos := pos + 1;
      assert block[56..pos] == block[56..pos - 1] + [block[pos - 1]];
    }
    assert block[..] == block[..56] + block[56..64];
  }

  /**
   The padding code at the end of both drivers. The copy in the file driver
   also clears the block between the two transforms (`clear`).
   */
  method FinishPadding(state: array<Word>, block: array<Byte>, blockPos: nat, length: nat, clear: bool)
    requires state.Length == 8 && block.Length == 64
    requires blockPos < 64 && blockPos <= length && Aligned(length - blockPos)
    modifies state, block
    ensures state[..] == Fold(old(state[..]), old(block[..blockPos]) + Trailer(length))
  {
    hide *;
    ghost var tail := block[..blockPos];
    var bitLength := 8 * length % 0x1_0000_0000_0000_0000;
    TrailerByRest(length, blockPos);

    var pos := blockPos;
    block[pos] := 0x80;
    pos := pos + 1;
    assert block[..pos] == tail + [0x80];

    if pos > 56 {
      FillZeros(block, pos, 64);
      ghost var first := tail + [0x80] + Zeros(64 - pos);
      assert block[..] == first;
      FinishInNextBlock(state, block, first, bitLength, clear);
      assert first + (Zeros(56) + BigEndian(bitLength, 8)) == tail + Trailer(length);
    } else {
      FillZeros(block, pos, 56);
      assert block[..56] == tail + [0x80] + Zeros(56 - pos);
      AppendLength(block, bitLength);
      assert block[..] == tail + Trailer(length);
      ghost var h := state[..];
      Transform(state, block);
      FoldBlock(h, tail + Trailer(length));
    }
  }

  /** The trailer that the code writes, by the room that is left in the block. */
  lemma TrailerByRest(length: nat, blockPos: nat)
    requires blockPos < 64 && blockPos <= length && Aligned(length - blockPos)
    ensures var field := BigEndian(8 * length % 0x1_0000_0000_0000_0000, 8);
            Trailer(length) ==
            if blockPos < 56 then [0x80] + Zeros(55 - blockPos) + field
            else [0x80] + Zeros(63 - blockPos) + (Zeros(56) + field)
  {
    hide BigEndian, Aligned, ZeroCount;
    ZeroCountOfRest(length - blockPos, blockPos);
    assert Pow256(8) == 0x1_0000_0000_0000_0000;
    BigEndianTruncates(8 * length, 8);
    if blockPos >= 56 {
      assert Zeros(63 - blockPos) + Zeros(56) == Zeros(119 - blockPos);
    }
  }

  /** The block is full before the length fits: it is absorbed, and the length goes into a second one. */
  method FinishInNextBlock(state: array<Word>, block: array<Byte>, ghost first: Block, bitLength: nat, clear: bool)
    requires state.Length == 8 && block.Length == 64 && block[..] == first
    modifies state, block
    ensures state[..] == Fold(old(state[..]), first + (Zeros(56) + BigEndian(bitLength, 8)))
  {
    hide *;
    ghost var h := state[..];
    Transform(state, block);
    if clear {
      FillZeros(block, 0, 64);
    }
    FillZeros(block, 0, 56);
    assert block[..56] == Zeros(56);
    AppendLength(block, bitLength);
    assert block[..] == Zeros(56) + BigEndian(bitLength, 8);
    Transform(state, block);
    FoldTwoBlocks(h, first, Zeros(56) + BigEndian(bitLength, 8));
  }

  lemma FoldTwoBlocks(h: State, first: Block, second: Block)
    ensures Fold(h, first + second) == Compress(Compress(h, first), second)
  {
    hide Fold, Compress;
    FoldAppend(h, first, second);
    FoldBlock(h, first);
    FoldBlock(Compress(h, first), second);
  }

  /** The loop that turns the final state into digest bytes. */
  method ProduceDigest(state: array<Word>) returns (hash: array<Byte>)
    requires state.Length == 8
    ensures fresh(hash) && hash[..] == StateBytes(state[..])
  {
    hide BytesOf, StateBytes;
    ghost var words := state[..];
    StateBytesEmpty();
    hash := new Byte[32];
    for i := 0 to 8
      invariant state[..] == words
      invariant hash[..4 * i] == StateBytes(words[..i])
    {
      var b := BytesOf(state[i]);
      ghost var done := hash[..4 * i];
      forall k | 0 <= k < 4 {
        hash[i * 4 + k] := b[k];
      }
      assert hash[..4 * i] == done;
      assert hash[4 * i..4 * i + 4] == b;
      assert hash[..4 * (i + 1)] == done + b;
      assert words[..i + 1] == words[..i] + [words[i]];
      StateBytesAppend(words[..i], words[i]);
    }
    assert words[..8] == words;
    assert hash[..32] == hash[..];
  }

  lemma StateBytesEmpty()
    ensures StateBytes([]) == []
  {
  }

  lemma {:induction false} StateBytesAppend(h: seq<Word>, w: Word)
    ensures StateBytes(h + [w]) == StateBytes(h) + BytesOf(w)
  {
    hide BytesOf;
    if h == [] {
      assert StateBytes([w]) == BytesOf(w) + StateBytes([]);
    } else {
      assert (h + [w])[1..] == h[1..] + [w];
      StateBytesAppend(h[1..], w);
    }
  }

  /** Hashing the whole blocks first and the rest with the trailer afterwards is the digest fold. */
  lemma FoldOfParts(data: seq<Byte>, pos: nat)
    requires pos < 64 && pos <= |data| && Aligned(|data| - pos)
    ensures Fold(Fold(H0, data[..|data| - pos]), data[|data| - pos..] + Trailer(|data|)) == Fold(H0, Pad(data))
  {
    hide Fold, Compress, Trailer, Aligned;
    var whole, tail := data[..|data| - pos], data[|data| - pos..];
    FoldAppend(H0, whole, tail + Trailer(|data|));
    assert whole + (tail + Trailer(|data|)) == Pad(data);
  }

  /** With the whole blocks folded in and the rest in the block buffer, the padding code completes the fold. */
  method FinishMessage(ghost data: seq<Byte>, length: nat, state: array<Word>, block: array<Byte>, blockPos: nat,
                       clear: bool)
    requires state.Length == 8 && block.Length == 64
    requires length == |data| && blockPos < 64 && blockPos <= |data| && Aligned(|data| - blockPos)
    requires state[..] == Fold(H0, data[..|data| - blockPos])
    requires block[..blockPos] == data[|data| - blockPos..|data|]
    modifies state, block
    ensures state[..] == Fold(H0, Pad(data))
  {
    hide *;
    assert block[..blockPos] == data[|data| - blockPos..];
    FoldOfParts(data, blockPos);
    FinishPadding(state, block, blockPos, length, clear);
  }

  /** `compute_sha256`: the in-memory driver. */
  method ComputeSha256(data: seq<Byte>) returns (hash: array<Byte>)
    ensures hash[..] == Digest(data)
  {
    hide *;
    DigestDefinition(data);
    var state := InitialState();
    var block := new Byte[64](_ => 0);
    var blockPos := 0;
    FoldEmpty();
    for i := 0 to |data|
      invariant blockPos < 64 && blockPos <= i && Aligned(i - blockPos)
      invariant state[..] == Fold(H0, data[..i - blockPos])
      invariant block[..blockPos] == data[i - blockPos..i]
    {
      ghost var start := i - blockPos;
      block[blockPos] := data[i];
      blockPos := blockPos + 1;
      assert block[..blockPos] == data[start..i] + [data[i]];
      if blockPos == 64 {
        AbsorbBlock(data, start, state, block);
        blockPos := 0;
      }
    }
    FinishMessage(data, |data|, state, block, blockPos, false);
    hash := ProduceDigest(state);
  }

  /** Compressing the next whole block extends the fold over the prefix. */
  lemma ExtendFold(data: seq<Byte>, start: nat)
    requires Aligned(start) && start + 64 <= |data|
    ensures Aligned(start + 64)
    ensures Compress(Fold(H0, data[..start]), data[start..start + 64]) == Fold(H0, data[..start + 64])
  {
    hide Fold, Compress, Aligned;
    AlignedSum(start, 0);
    FoldBlock(Fold(H0, data[..start]), data[start..start + 64]);
    FoldAppend(H0, data[..start], data[start..start + 64]);
    assert data[..start] + data[start..start + 64] == data[..start + 64];
  }

  lemma DigestDefinition(m: seq<Byte>)
    ensures Digest(m) == StateBytes(Fold(H0, Pad(m)))
  {
    hide Fold, StateBytes, Pad;
  }

  method InitialState() returns (state: array<Word>)
    ensures fresh(state) && state.Length == 8 && state[..] == H0
  {
    state := new Word[8](k requires 0 <= k < 8 => H0[k]);
  }

  lemma FoldEmpty()
    ensures Fold(H0, []) == H0 && Aligned(0)
  {
    hide Compress;
  }

  /** One turn of the file loop: a full block is absorbed, anything shorter is the end and is padded. */
  method AbsorbNext(content: seq<Byte>, totalBytes: nat, state: array<Word>, block: array<Byte>)
    returns (bytesRead: nat)
    requires state.Length == 8 && block.Length == 64
    requires totalBytes <= |content| && Aligned(totalBytes) && state[..] == Fold(H0, content[..totalBytes])
    modifies state, block
    ensures bytesRead == if |content| - totalBytes < 64 then |content| - totalBytes else 64
    ensures if bytesRead == 64 then
              Aligned(totalBytes + 64) && state[..] == Fold(H0, content[..totalBytes + 64])
            else state[..] == Fold(H0, Pad(content))
  {
    hide *;
    bytesRead := ReadBlock(content, totalBytes, block);
    if bytesRead == 64 {
      AbsorbBlock(content, totalBytes, state, block);
    } else {
      FinishMessage(content, |content|, state, block, bytesRead, true);
    }
  }

  /** `sha256_file`: the streaming driver over a file that may fail to open. */
  method Sha256File(content: seq<Byte>, opens: bool) returns (r: Result<string>)
    ensures r == if opens then Ok(Hex.Text(Digest(content))) else Err(FileNotFound)
  {
    if !opens {
      return Err(FileNotFound);
    }
    hide *;
    DigestDefinition(content);
    var state := InitialState();
    var block := new Byte[64](_ => 0);
    var totalBytes := 0;
    FoldEmpty();
    while true
      invariant totalBytes <= |content| && Aligned(totalBytes)
      invariant state[..] == Fold(H0, content[..totalBytes])
      decreases |content| - totalBytes
    {
      var bytesRead := AbsorbNext(content, totalBytes, state, block);
      totalBytes := totalBytes + bytesRead;
      if bytesRead != 64 {
        break;
      }
    }
    var hash := ProduceDigest(state);
    r := Ok(Hex.Text(hash[..]));
  }

  /** A full read: the block goes into the state. */
  method AbsorbBlock(ghost content: seq<Byte>, ghost start: nat, state: array<Word>, block: array<Byte>)
    requires state.Length == 8 && block.Length == 64
    requires Aligned(start) && start + 64 <= |content|
    requires state[..] == Fold(H0, content[..start]) && block[..64] == content[start..start + 64]
    modifies state
    ensures Aligned(start + 64) && state[..] == Fold(H0, content[..start + 64])
  {
    hide *;
    assert block[..] == content[start..start + 64];
    Transform(state, block);
    ExtendFold(content, start);
  }

  /** `file.read(block, 64)`: overwrites as many bytes of the block as the file still has. */
  method ReadBlock(content: seq<Byte>, offset: nat, block: array<Byte>) returns (count: nat)
    requires offset <= |content| && block.Length == 64
    modifies block
    ensures count == if |content| - offset < 64 then |content| - offset else 64
    ensures block[..count] == content[offset..offset + count]
  {
    count := if |content| - offset < 64 then |content| - offset else 64;
    for i := 0 to count
      invariant forall k :: 0 <= k < i ==> block[k] == content[offset + k]
    {
      block[i] := content[offset + i];
    }
  }

  /** `sha256`: the in-memory driver with hexadecimal output. */
  method Sha256Text(data: seq<Byte>) returns (text: string)
    ensures text == Hex.Text(Digest(data))
  {
    var hash := ComputeSha256(data);
    text := Hex.Text(hash[..]);
  }

  /** `verify_sha256`: the file opens and its digest text is the expected one. */
  method VerifySha256(content: seq<Byte>, opens: bool, expected: string) returns (ok: bool)
    ensures ok <==> opens && Hex.Text(Digest(content)) == expected
  {
    var r := Sha256File(content, opens);
    ok := r.Ok? && r.value == expected;
  }
}
