/**
 What the checksum does not guard: it covers the data of a chunk and not its
 header. A chunk with a wrong offset, a wrong index or both is accepted; here
 is exactly when the transfer survives that.
 */
module HeaderDamage {
  import opened Bytes
  import opened Chunks
  import opened ChunkAssembler
  import opened Delivery
  import Crc32
  import Hex
  import Sha256

  predicate AllZero(data: seq<Byte>) {
    forall k :: 0 <= k < |data| ==> data[k] == 0
  }

  function MovedTo(c: Chunk, offset: nat): Chunk {
    c.(header := c.header.(chunkOffset := offset))
  }

  function Renumbered(c: Chunk, index: nat): Chunk {
    c.(header := c.header.(chunkIndex := index))
  }

  /** Neither change is noticed: the chunk is accepted just as it would have been, if its index is still missing. */
  lemma HeaderIsNotGuarded(t: Transfer, a: Assembler, c: Chunk, i: nat, index: nat, offset: nat)
    requires t.Valid() && WellFormed(a) && Genuine(t, c, i) && t.id in a.contexts && a.contexts[t.id].good
    requires index < a.contexts[t.id].totalChunks && !a.contexts[t.id].received[index]
    ensures var c' := Renumbered(MovedTo(c, offset), index);
            Process(a, c', Written) ==
            (a.(contexts := a.contexts[t.id := Accept(a.contexts[t.id], c')]), Ok(""))
  {
    hide Crc32.Crc;
    GenuineIndex(t, c, i, i);
  }

  // ---- Places of the file ---------------------------------------------------

  /** The chunk that covers position `p`. */
  function PlaceOf(t: Transfer, p: nat): nat
    requires t.Valid()
  {
    p / t.config.chunkSize
  }

  lemma PlaceBounds(t: Transfer, p: nat)
    requires t.Valid() && p < |t.content|
    ensures PlaceOf(t, p) < t.Total()
  {
    TotalPositive(t);
    IntervalsPartition(t.config, |t.content|, p, 0);
  }

  /** Where chunk `i` lies, and what it holds. */
  lemma ChunkPlace(t: Transfer, i: nat, p: nat)
    requires t.Valid() && i < t.Total() && p < |t.content|
    ensures var start, d := Start(t.config, i), ChunkAt(t.config, t.id, t.content, i).data;
            && start + |d| <= |t.content|
            && (start <= p < start + |d| <==> PlaceOf(t, p) == i)
            && (start <= p < start + |d| ==> d[p - start] == t.content[p])
  {
    hide ChunkConfig.TotalChunks, Crc32.Crc;
    ChunkBounds(t.config, |t.content|, i);
    IntervalsPartition(t.config, |t.content|, p, i);
  }

  lemma GenuineData(t: Transfer, c: Chunk, i: nat)
    requires t.Valid() && Genuine(t, c, i)
    ensures i < t.Total() && c == ChunkAt(t.config, t.id, t.content, i)
    ensures c.header.chunkIndex == i && c.header.chunkOffset == Start(t.config, i)
    ensures Start(t.config, i) + |c.data| <= |t.content|
    ensures t.content != [] ==> c.data != []
  {
    hide ChunkConfig.TotalChunks, Crc32.Crc;
    ChunkBounds(t.config, |t.content|, i);
  }

  /** If the chunk that covers `p` was received, the byte there is the original's. */
  ghost predicate PlaceRight(t: Transfer, s: Session, p: nat)
    requires t.Valid() && p < |t.content| == |s.file|
  {
    PlaceOf(t, p) < |s.received| && (s.received[PlaceOf(t, p)] ==> s.file[p] == t.content[p])
  }

  /** The file has its length, and everything received so far is right; what is still missing does not matter. */
  ghost predicate RightSoFar(t: Transfer, s: Session)
    requires t.Valid()
  {
    |s.file| == |t.content| && forall p: nat :: p < |t.content| ==> PlaceRight(t, s, p)
  }

  /** In a right file the places of missing chunks are zero besides. */
  lemma RightAt(t: Transfer, s: Session, p: nat)
    requires t.Valid() && FileRight(t, s) && p < |t.content|
    ensures |s.file| == |t.content| && PlaceOf(t, p) < |s.received|
    ensures s.file[p] == if s.received[PlaceOf(t, p)] then t.content[p] else 0
  {
    assert InPlace(t, s, p);
  }

  lemma RightLength(t: Transfer, s: Session)
    requires t.Valid() && FileRight(t, s)
    ensures |s.file| == |t.content|
  {
  }

  // ---- Any accepted chunk ---------------------------------------------------

  predicate Writes(c: Chunk, p: nat) {
    c.header.chunkOffset <= p < c.header.chunkOffset + |c.data|
  }

  /**
   The chunk does no harm at `p`: where it writes over a received chunk, or
   over the chunk that it counts as, it writes what belongs there; and the
   chunk that it counts as is zero wherever it does not write.
   */
  ghost predicate HarmlessAt(t: Transfer, s: Session, c: Chunk, p: nat)
    requires t.Valid() && p < |t.content|
  {
    var i := PlaceOf(t, p);
    if Writes(c, p) then
      i == c.header.chunkIndex || (i < |s.received| && s.received[i]) ==>
        c.data[p - c.header.chunkOffset] == t.content[p]
    else i == c.header.chunkIndex ==> t.content[p] == 0
  }

  ghost predicate Harmless(t: Transfer, s: Session, c: Chunk)
    requires t.Valid()
  {
    && (c.data == [] || c.header.chunkOffset + |c.data| <= |t.content|)
    && forall p: nat :: p < |t.content| ==> HarmlessAt(t, s, c, p)
  }

  lemma WrittenLength(file: seq<Byte>, offset: nat, data: seq<Byte>)
    requires data != [] && offset + |data| > |file|
    ensures |WriteAt(file, offset, data)| == offset + |data|
  {
  }

  lemma AcceptedBytesAt(s: Session, c: Chunk, p: nat)
    requires c.header.chunkIndex < |s.received| && p < |s.file|
    requires c.data == [] || c.header.chunkOffset + |c.data| <= |s.file|
    ensures var s' := Accept(s, c);
            && s'.received == s.received[c.header.chunkIndex := true] && |s'.file| == |s.file|
            && s'.file[p] == if Writes(c, p) then c.data[p - c.header.chunkOffset] else s.file[p]
  {
    if c.data != [] {
      hide WriteAt;
    }
  }

  lemma AcceptedLength(s: Session, c: Chunk)
    requires c.header.chunkIndex < |s.received|
    ensures |Accept(s, c).file| == |s.file| <==> c.data == [] || c.header.chunkOffset + |c.data| <= |s.file|
    ensures |Accept(s, c).file| >= |s.file|
    ensures Accept(s, c).received == s.received[c.header.chunkIndex := true]
  {
    if c.data != [] && c.header.chunkOffset + |c.data| > |s.file| {
      WrittenLength(s.file, c.header.chunkOffset, c.data);
    }
  }

  lemma PlaceAfter(t: Transfer, s: Session, c: Chunk, p: nat)
    requires t.Valid() && FileRight(t, s) && p < |t.content| && |s.file| == |t.content|
    requires c.header.chunkIndex < |s.received| && !s.received[c.header.chunkIndex]
    requires c.data == [] || c.header.chunkOffset + |c.data| <= |s.file|
    ensures |Accept(s, c).file| == |t.content|
    ensures PlaceRight(t, Accept(s, c), p) <==> HarmlessAt(t, s, c, p)
  {
    RightAt(t, s, p);
    AcceptedBytesAt(s, c, p);
    hide Accept, Writes, FileRight;
  }

  /**
   A chunk with any header and any data is accepted under a missing index.
   Everything received is right afterwards if and only if it does no harm.
   */
  lemma HeaderMattersIff(t: Transfer, s: Session, c: Chunk)
    requires t.Valid() && FileRight(t, s)
    requires c.header.chunkIndex < |s.received| && !s.received[c.header.chunkIndex]
    ensures RightSoFar(t, Accept(s, c)) <==> Harmless(t, s, c)
  {
    RightLength(t, s);
    AcceptedLength(s, c);
    hide Accept, PlaceRight, HarmlessAt, FileRight;
    if c.data == [] || c.header.chunkOffset + |c.data| <= |s.file| {
      forall p: nat | p < |t.content|
        ensures PlaceRight(t, Accept(s, c), p) <==> HarmlessAt(t, s, c, p)
      {
        PlaceAfter(t, s, c, p);
      }
    }
  }

  // ---- A wrong offset -------------------------------------------------------

  /** The byte `shift` places before, or zero if there is none. */
  function Earlier(data: seq<Byte>, shift: nat, k: nat): Byte
    requires k < |data|
  {
    if k < shift then 0 else data[k - shift]
  }

  /** The byte `shift` places behind, or zero if there is none. */
  function Later(data: seq<Byte>, shift: nat, k: nat): Byte
    requires k < |data|
  {
    if k + shift >= |data| then 0 else data[k + shift]
  }

  /** Data that agrees with itself shifted, and is zero where the shift leaves it, is zero. */
  lemma {:induction false} ShiftedIsZero(data: seq<Byte>, shift: nat, k: nat)
    requires shift > 0 && k < |data|
    requires forall j {:trigger Earlier(data, shift, j)} :: 0 <= j < |data| ==> data[j] == Earlier(data, shift, j)
    ensures data[k] == 0
  {
    if k >= shift {
      ShiftedIsZero(data, shift, k - shift);
    }
    assert data[k] == Earlier(data, shift, k);
  }

  lemma {:induction false} ShiftedBackIsZero(data: seq<Byte>, shift: nat, k: nat)
    requires shift > 0 && k < |data|
    requires forall j {:trigger Later(data, shift, j)} :: 0 <= j < |data| ==> data[j] == Later(data, shift, j)
    ensures data[k] == 0
    decreases |data| - k
  {
    if k + shift < |data| {
      ShiftedBackIsZero(data, shift, k + shift);
    }
    assert data[k] == Later(data, shift, k);
  }

  lemma HarmlessMeans(t: Transfer, s: Session, c: Chunk, p: nat)
    requires t.Valid() && Harmless(t, s, c) && p < |t.content|
    ensures HarmlessAt(t, s, c, p)
  {
  }

  /** What a harmless move says about byte `j` of the chunk, which lies at `start + j`. */
  lemma MovedByte(t: Transfer, s: Session, c: Chunk, i: nat, offset: nat, j: nat)
    requires t.Valid() && Genuine(t, c, i) && Harmless(t, s, MovedTo(c, offset)) && j < |c.data|
    ensures var p := Start(t.config, i) + j;
            c.data[j] == if offset <= p < offset + |c.data| then c.data[p - offset] else 0
  {
    hide ChunkConfig.TotalChunks, Crc32.Crc, Harmless;
    GenuineData(t, c, i);
    var p := Start(t.config, i) + j;
    ChunkPlace(t, i, p);
    HarmlessMeans(t, s, MovedTo(c, offset), p);
    hide Genuine, ChunkAt, Start, PlaceOf;
  }

  lemma MovedIsZero(t: Transfer, s: Session, c: Chunk, i: nat, offset: nat)
    requires t.Valid() && Genuine(t, c, i) && Harmless(t, s, MovedTo(c, offset)) && offset != Start(t.config, i)
    ensures AllZero(c.data)
  {
    hide Harmless, Genuine, Start;
    var start := Start(t.config, i);
    if offset > start {
      forall j | 0 <= j < |c.data|
        ensures c.data[j] == Earlier(c.data, offset - start, j)
      {
        MovedByte(t, s, c, i, offset, j);
      }
    } else {
      forall j | 0 <= j < |c.data|
        ensures c.data[j] == Later(c.data, start - offset, j)
      {
        MovedByte(t, s, c, i, offset, j);
      }
    }
    hide Earlier, Later;
    forall k | 0 <= k < |c.data|
      ensures c.data[k] == 0
    {
      if offset > start {
        ShiftedIsZero(c.data, offset - start, k);
      } else {
        ShiftedBackIsZero(c.data, start - offset, k);
      }
    }
  }

  /** A harmless write of zeros hits only zeros. */
  lemma ZerosHitZeros(t: Transfer, s: Session, c: Chunk)
    requires t.Valid() && FileRight(t, s) && Harmless(t, s, c) && AllZero(c.data) && c.data != []
    ensures c.header.chunkOffset + |c.data| <= |s.file|
    ensures AllZero(s.file[c.header.chunkOffset..c.header.chunkOffset + |c.data|])
  {
    RightLength(t, s);
    var o := c.header.chunkOffset;
    hide FileRight, Harmless;
    assert o + |c.data| <= |t.content| by { HarmlessFits(t, s, c); }
    var place := s.file[o..o + |c.data|];
    forall k | 0 <= k < |c.data|
      ensures place[k] == 0
    {
      RightAt(t, s, o + k);
      HarmlessMeans(t, s, c, o + k);
      assert c.data[k] == 0 && place[k] == s.file[o + k];
    }
  }

  lemma HarmlessFits(t: Transfer, s: Session, c: Chunk)
    requires t.Valid() && Harmless(t, s, c)
    ensures c.data == [] || c.header.chunkOffset + |c.data| <= |t.content|
  {
  }

  /** Zeros over zeros do no harm, if the chunk is itself zero. */
  lemma ZerosAreHarmless(t: Transfer, s: Session, c: Chunk, i: nat, offset: nat)
    requires t.Valid() && FileRight(t, s) && Genuine(t, c, i) && i < |s.received| && !s.received[i]
    requires AllZero(c.data) && offset + |c.data| <= |s.file| && AllZero(s.file[offset..offset + |c.data|])
    ensures Harmless(t, s, MovedTo(c, offset))
  {
    RightLength(t, s);
    GenuineData(t, c, i);
    var place := s.file[offset..offset + |c.data|];
    hide FileRight, ChunkAt, Genuine, Start, PlaceOf, ChunkConfig.TotalChunks;
    forall p: nat | p < |t.content|
      ensures HarmlessAt(t, s, MovedTo(c, offset), p)
    {
      RightAt(t, s, p);
      ChunkPlace(t, i, p);
      if offset <= p < offset + |c.data| {
        assert place[p - offset] == s.file[p];
      }
    }
  }

  lemma OwnPlaceIsHarmless(t: Transfer, s: Session, c: Chunk, i: nat)
    requires t.Valid() && Genuine(t, c, i)
    ensures Harmless(t, s, c)
  {
    GenuineData(t, c, i);
    hide ChunkAt, Genuine, Start, PlaceOf, ChunkConfig.TotalChunks;
    forall p: nat | p < |t.content|
      ensures HarmlessAt(t, s, c, p)
    {
      ChunkPlace(t, i, p);
    }
  }

  /**
   A missing chunk arrives under its own index with some offset. It does no
   harm if and only if the offset is the chunk's own, or the data is empty, or
   nothing but zeros is written over nothing but zeros.
   */
  lemma OffsetMattersIff(t: Transfer, s: Session, c: Chunk, i: nat, offset: nat)
    requires t.Valid() && FileRight(t, s) && Genuine(t, c, i) && i < |s.received| && !s.received[i]
    ensures c.header.chunkIndex < |s.received|
    ensures RightSoFar(t, Accept(s, MovedTo(c, offset))) <==>
            || offset == c.header.chunkOffset
            || c.data == []
            || (AllZero(c.data) && offset + |c.data| <= |s.file| && AllZero(s.file[offset..offset + |c.data|]))
    ensures RightSoFar(t, Accept(s, MovedTo(c, offset))) <==> Harmless(t, s, MovedTo(c, offset))
  {
    GenuineData(t, c, i);
    HeaderMattersIff(t, s, MovedTo(c, offset));
    hide FileRight, Genuine, Harmless, RightSoFar, Accept, ChunkAt, Start, AllZero;
    if offset == c.header.chunkOffset {
      assert MovedTo(c, offset) == c;
      OwnPlaceIsHarmless(t, s, c, i);
    } else if c.data == [] {
      EmptyIsHarmless(t, s, MovedTo(c, offset));
    } else {
      if Harmless(t, s, MovedTo(c, offset)) {
        MovedIsZero(t, s, c, i, offset);
        ZerosHitZeros(t, s, MovedTo(c, offset));
      }
      if AllZero(c.data) && offset + |c.data| <= |s.file| && AllZero(s.file[offset..offset + |c.data|]) {
        ZerosAreHarmless(t, s, c, i, offset);
      }
    }
  }

  lemma EmptyIsHarmless(t: Transfer, s: Session, c: Chunk)
    requires t.Valid() && t.content == [] && c.data == []
    ensures Harmless(t, s, c)
  {
  }

  // ---- A wrong index --------------------------------------------------------

  /**
   A chunk arrives under the index of another chunk, which is missing. It does
   no harm if and only if that other chunk is nothing but zeros.
   */
  lemma IndexMattersIff(t: Transfer, s: Session, c: Chunk, i: nat, j: nat)
    requires t.Valid() && FileRight(t, s) && |s.received| == t.Total() && Genuine(t, c, i)
    requires j < t.Total() && j != i && !s.received[j]
    ensures RightSoFar(t, Accept(s, Renumbered(c, j))) <==> AllZero(ChunkAt(t.config, t.id, t.content, j).data)
    ensures RightSoFar(t, Accept(s, Renumbered(c, j))) <==> Harmless(t, s, Renumbered(c, j))
  {
    GenuineData(t, c, i);
    HeaderMattersIff(t, s, Renumbered(c, j));
    hide FileRight, Genuine, Harmless, RightSoFar, Accept, ChunkAt, AllZero;
    if Harmless(t, s, Renumbered(c, j)) {
      RenumberedZero(t, s, c, i, j);
    }
    if AllZero(ChunkAt(t.config, t.id, t.content, j).data) {
      RenumberedHarmless(t, s, c, i, j);
    }
  }

  lemma RenumberedZero(t: Transfer, s: Session, c: Chunk, i: nat, j: nat)
    requires t.Valid() && Genuine(t, c, i) && j < t.Total() && j != i && Harmless(t, s, Renumbered(c, j))
    ensures AllZero(ChunkAt(t.config, t.id, t.content, j).data)
  {
    GenuineData(t, c, i);
    var start, d := Start(t.config, j), ChunkAt(t.config, t.id, t.content, j).data;
    assert Genuine(t, ChunkAt(t.config, t.id, t.content, j), j);
    GenuineData(t, ChunkAt(t.config, t.id, t.content, j), j);
    hide Genuine, ChunkAt, Start, PlaceOf, Harmless, ChunkConfig.TotalChunks;
    forall k | 0 <= k < |d|
      ensures d[k] == 0
    {
      ChunkPlace(t, i, start + k);
      ChunkPlace(t, j, start + k);
      HarmlessMeans(t, s, Renumbered(c, j), start + k);
    }
  }

  lemma RenumberedHarmless(t: Transfer, s: Session, c: Chunk, i: nat, j: nat)
    requires t.Valid() && Genuine(t, c, i) && j < t.Total() && j != i
    requires AllZero(ChunkAt(t.config, t.id, t.content, j).data)
    ensures Harmless(t, s, Renumbered(c, j))
  {
    GenuineData(t, c, i);
    hide Genuine, ChunkAt, Start, PlaceOf, ChunkConfig.TotalChunks;
    forall p: nat | p < |t.content|
      ensures HarmlessAt(t, s, Renumbered(c, j), p)
    {
      ChunkPlace(t, i, p);
      ChunkPlace(t, j, p);
    }
  }

  // ---- To the end of the transfer --------------------------------------------

  /** A session in order, such as every allowed delivery leaves behind while its stream is good. */
  ghost predicate InOrder(t: Transfer, s: Session)
    requires t.Valid()
  {
    && s.good && s.filename == t.filename && s.totalChunks == |s.received| == t.Total()
    && s.receivedCount == CountTrue(s.received) && FileRight(t, s)
  }

  /** At `p` the file has what was received since `b`, and otherwise what it had then. */
  ghost predicate FilledAt(t: Transfer, b: Session, s: Session, p: nat)
    requires t.Valid() && p < |s.file| == |b.file|
  {
    s.file[p] ==
    if p < |t.content| && NewlyReceived(b, s, PlaceOf(t, p)) then t.content[p] else b.file[p]
  }

  predicate NewlyReceived(b: Session, s: Session, i: nat) {
    i < |s.received| && s.received[i] && i < |b.received| && !b.received[i]
  }

  ghost predicate Filled(t: Transfer, b: Session, s: Session)
    requires t.Valid()
  {
    && |s.file| == |b.file| >= |t.content|
    && (forall i :: 0 <= i < |b.received| && i < |s.received| && b.received[i] ==> s.received[i])
    && (forall p: nat :: p < |s.file| ==> FilledAt(t, b, s, p))
  }

  /** The session has gone on from `b` with intact chunks only, or its stream has broken for good. */
  ghost predicate GoneOn(t: Transfer, b: Session, s: Session)
    requires t.Valid()
  {
    && s.filename == t.filename && s.totalChunks == |s.received| == |b.received| == t.Total()
    && s.receivedCount == CountTrue(s.received)
    && ((!s.good && s.receivedCount != s.totalChunks) || Filled(t, b, s))
  }

  /** Calls that may follow: those of an allowed delivery, `finalize` while chunks are missing among them. */
  ghost predicate MayFollow(t: Transfer, s: Session, call: Call)
    requires t.Valid()
  {
    IdOf(call) == t.id ==>
      match call
      case StartSession(_, _, _, _, _) => true
      case ProcessChunk(c, _) => (exists i: nat :: Genuine(t, c, i)) || Crc32.Crc(c.data) != c.header.checksum
      case Finalize(_, _, _, _) => s.receivedCount != s.totalChunks
      case CancelSession(_) => false
  }

  ghost predicate AllFollow(t: Transfer, a: Assembler, calls: seq<Call>)
    requires t.Valid() && WellFormed(a)
  {
    forall k :: 0 <= k < |calls| ==>
                  t.id in Run(a, calls[..k]).contexts && MayFollow(t, Run(a, calls[..k]).contexts[t.id], calls[k])
  }

  lemma FilledByChunk(t: Transfer, b: Session, s: Session, c: Chunk, i: nat)
    requires t.Valid() && Filled(t, b, s) && Genuine(t, c, i) && |s.received| == |b.received| == t.Total()
    requires !s.received[i]
    ensures c.header.chunkIndex == i && Filled(t, b, Accept(s, c))
  {
    GenuineData(t, c, i);
    FilledLength(t, b, s);
    AcceptedLength(s, c);
    var s' := Accept(s, c);
    hide Accept, Genuine, ChunkAt, Start, FilledAt, PlaceOf, ChunkConfig.TotalChunks;
    forall p: nat | p < |s'.file|
      ensures FilledAt(t, b, s', p)
    {
      FilledByByte(t, b, s, c, i, p);
    }
  }

  lemma FilledLength(t: Transfer, b: Session, s: Session)
    requires t.Valid() && Filled(t, b, s)
    ensures |s.file| == |b.file| >= |t.content|
    ensures forall i :: 0 <= i < |b.received| && i < |s.received| && b.received[i] ==> s.received[i]
  {
  }

  lemma FilledByByte(t: Transfer, b: Session, s: Session, c: Chunk, i: nat, p: nat)
    requires t.Valid() && Filled(t, b, s) && Genuine(t, c, i) && |s.received| == |b.received| == t.Total()
    requires c.header.chunkIndex == i < |s.received| && !s.received[i] && p < |s.file| == |b.file|
    requires c.header.chunkOffset + |c.data| <= |s.file| == |Accept(s, c).file|
    ensures FilledAt(t, b, Accept(s, c), p)
  {
    GenuineData(t, c, i);
    AcceptedBytesAt(s, c, p);
    assert FilledAt(t, b, s, p);
    hide Filled, Accept, Genuine, ChunkAt, Start, PlaceOf, ChunkConfig.TotalChunks;
    if p < |t.content| {
      PlaceBounds(t, p);
      ChunkPlace(t, i, p);
    }
  }

  lemma GoesOnByChunk(t: Transfer, b: Session, a: Assembler, call: Call, i: nat)
    requires t.Valid() && WellFormed(a) && t.id in a.contexts && GoneOn(t, b, a.contexts[t.id])
    requires call.ProcessChunk? && Genuine(t, call.chunk, i)
    ensures var a' := Step(a, call).0; t.id in a'.contexts && GoneOn(t, b, a'.contexts[t.id])
  {
    var s := a.contexts[t.id];
    GenuineIndex(t, call.chunk, i, i);
    hide Genuine, Crc32.Crc, Accept, Filled, ChunkConfig.TotalChunks, WriteAt;
    if !s.received[i] {
      NotFull(s, i);
      if s.good && call.reply.Written? {
        CountAfterSet(s.received, i);
        AcceptedBitmap(s, call.chunk);
        if Filled(t, b, s) {
          FilledByChunk(t, b, s, call.chunk, i);
        }
        AcceptedFrame(s, call.chunk);
      }
    }
  }

  lemma AcceptedFrame(s: Session, c: Chunk)
    requires c.header.chunkIndex < |s.received|
    ensures var s' := Accept(s, c);
            && s'.filename == s.filename && s'.totalChunks == s.totalChunks && s'.good == s.good
            && s'.receivedCount == s.receivedCount + 1
  {
    hide WriteAt;
  }

  lemma GoesOn(t: Transfer, b: Session, a: Assembler, call: Call)
    requires t.Valid() && WellFormed(a) && t.id in a.contexts && GoneOn(t, b, a.contexts[t.id])
    requires MayFollow(t, a.contexts[t.id], call)
    ensures var a' := Step(a, call).0; t.id in a'.contexts && GoneOn(t, b, a'.contexts[t.id])
  {
    hide GoneOn, Genuine, Crc32.Crc, Sha256.Digest, Hex.Text, Accept, Break;
    if call.ProcessChunk? && exists i: nat :: Genuine(t, call.chunk, i) {
      var i: nat :| Genuine(t, call.chunk, i);
      GoesOnByChunk(t, b, a, call, i);
    } else if IdOf(call) != t.id || call.ProcessChunk? {
      OtherStep(t, a, call);
    }
  }

  lemma AllFollowPrefix(t: Transfer, a: Assembler, calls: seq<Call>)
    requires t.Valid() && WellFormed(a) && calls != [] && AllFollow(t, a, calls)
    ensures var before, last := calls[..|calls| - 1], calls[|calls| - 1];
            && AllFollow(t, a, before)
            && t.id in Run(a, before).contexts && MayFollow(t, Run(a, before).contexts[t.id], last)
  {
    hide MayFollow, Run;
    var before := calls[..|calls| - 1];
    forall k | 0 <= k < |before|
      ensures t.id in Run(a, before[..k]).contexts && MayFollow(t, Run(a, before[..k]).contexts[t.id], before[k])
    {
      assert before[..k] == calls[..k];
    }
  }

  lemma {:induction false} RunGoesOn(t: Transfer, b: Session, a: Assembler, calls: seq<Call>)
    requires t.Valid() && WellFormed(a) && t.id in a.contexts && GoneOn(t, b, a.contexts[t.id])
    requires AllFollow(t, a, calls)
    ensures t.id in Run(a, calls).contexts && GoneOn(t, b, Run(a, calls).contexts[t.id])
  {
    hide GoneOn, MayFollow, AllFollow, Step;
    if calls != [] {
      var before, last := calls[..|calls| - 1], calls[|calls| - 1];
      AllFollowPrefix(t, a, calls);
      RunGoesOn(t, b, a, before);
      GoesOn(t, b, Run(a, before), last);
    }
  }

  /** A completed session has the original if and only if everything received by the time of `b` was right. */
  lemma CompletedIff(t: Transfer, b: Session, s: Session)
    requires t.Valid() && GoneOn(t, b, s) && s.receivedCount == s.totalChunks
    ensures s.file == t.content <==> RightSoFar(t, b)
  {
    CountIsFull(s.received);
    FilledLength(t, b, s);
    assert forall p: nat :: p < |s.file| ==> FilledAt(t, b, s, p);
    hide Filled, FilledAt, PlaceRight;
    if |s.file| == |t.content| {
      forall p: nat | p < |t.content|
        ensures s.file[p] == t.content[p] <==> PlaceRight(t, b, p)
      {
        CompletedAt(t, b, s, p);
      }
    }
  }

  lemma CompletedAt(t: Transfer, b: Session, s: Session, p: nat)
    requires t.Valid() && |s.received| == |b.received| == t.Total() && |s.file| == |b.file| == |t.content|
    requires p < |t.content| && FilledAt(t, b, s, p)
    requires forall i :: 0 <= i < |s.received| ==> s.received[i]
    ensures s.file[p] == t.content[p] <==> PlaceRight(t, b, p)
  {
    PlaceBounds(t, p);
    hide PlaceOf, ChunkConfig.TotalChunks;
  }

  lemma BeginsFilled(t: Transfer, b: Session)
    requires t.Valid() && |t.content| <= |b.file|
    ensures Filled(t, b, b)
  {
    hide PlaceOf;
  }

  /**
   An accepted chunk with any header and any data, and after it whatever may
   follow, until the session is complete: `finalize` without a hash then
   delivers the original if and only if the chunk did no harm when it came.
   With the hash of the original, `finalize` lets a wrong file pass only if it
   has the same digest.
   */
  lemma HarmDecides(t: Transfer, a: Assembler, c: Chunk, calls: seq<Call>)
    requires t.Valid() && WellFormed(a) && t.id in a.contexts && InOrder(t, a.contexts[t.id])
    requires c.header.id == t.id && Accepts(a, c, Written)
    requires WellFormed(Step(a, ProcessChunk(c, Written)).0) && AllFollow(t, Step(a, ProcessChunk(c, Written)).0, calls)
    ensures var last := Run(Step(a, ProcessChunk(c, Written)).0, calls);
            && t.id in last.contexts
            && (last.contexts[t.id].receivedCount == last.contexts[t.id].totalChunks ==>
                  && Outcome(last, t, Harmless(t, a.contexts[t.id], c))
                  && OutcomeWithHash(last, t, Harmless(t, a.contexts[t.id], c)))
  {
    var s, b := a.contexts[t.id], Accept(a.contexts[t.id], c);
    StartsOn(t, a, c);
    RunGoesOn(t, b, Step(a, ProcessChunk(c, Written)).0, calls);
    HeaderMattersIff(t, s, c);
    var last := Run(Step(a, ProcessChunk(c, Written)).0, calls);
    hide *;
    if last.contexts[t.id].receivedCount == last.contexts[t.id].totalChunks {
      CompletedIff(t, b, last.contexts[t.id]);
      CompleteOutcome(t, b, last, Harmless(t, s, c));
    }
  }

  /** What `finalize` without a hash does. */
  ghost predicate Outcome(a: Assembler, t: Transfer, right: bool) {
    var (final, r) := FinalizeSession(a, t.id, "", true, true);
    && r == Ok(t.filename) && t.filename in final.outputs
    && (final.outputs[t.filename] == t.content <==> right)
  }

  /** What `finalize` with the hash of the original does. */
  ghost predicate OutcomeWithHash(a: Assembler, t: Transfer, right: bool) {
    var (final, r) := FinalizeSession(a, t.id, Hex.Text(Sha256.Digest(t.content)), true, true);
    && (right ==> r == Ok(t.filename) && t.filename in final.outputs && final.outputs[t.filename] == t.content)
    && (!right ==>
          || (r == Err(FileHashMismatch) && final.outputs == a.outputs)
          || (r == Ok(t.filename) && t.filename in final.outputs &&
              Sha256.Digest(final.outputs[t.filename]) == Sha256.Digest(t.content)))
  }

  lemma StartsOn(t: Transfer, a: Assembler, c: Chunk)
    requires t.Valid() && WellFormed(a) && t.id in a.contexts && InOrder(t, a.contexts[t.id])
    requires c.header.id == t.id && Accepts(a, c, Written)
    ensures c.header.chunkIndex < |a.contexts[t.id].received| && !a.contexts[t.id].received[c.header.chunkIndex]
    ensures var s, b := a.contexts[t.id], Accept(a.contexts[t.id], c);
            && FileRight(t, s)
            && Step(a, ProcessChunk(c, Written)).0.contexts == a.contexts[t.id := b]
            && GoneOn(t, b, b)
  {
    var s := a.contexts[t.id];
    hide Crc32.Crc, ChunkConfig.TotalChunks;
    CountAfterSet(s.received, c.header.chunkIndex);
    RightLength(t, s);
    AcceptedLength(s, c);
    AcceptedFrame(s, c);
    hide FileRight, Accept, Filled;
    BeginsFilled(t, Accept(s, c));
  }

  lemma CompleteOutcome(t: Transfer, b: Session, a: Assembler, right: bool)
    requires t.Valid() && t.id in a.contexts && GoneOn(t, b, a.contexts[t.id])
    requires a.contexts[t.id].receivedCount == a.contexts[t.id].totalChunks
    requires right <==> a.contexts[t.id].file == t.content
    ensures Outcome(a, t, right) && OutcomeWithHash(a, t, right)
  {
    hide Filled, Sha256.Digest, Hex.Text, ChunkConfig.TotalChunks;
    if Hex.Text(Sha256.Digest(a.contexts[t.id].file)) == Hex.Text(Sha256.Digest(t.content)) {
      Hex.TextInjective(Sha256.Digest(a.contexts[t.id].file), Sha256.Digest(t.content));
    }
  }

  /**
   A case: of the two-byte file 7, 0 in chunks of one byte, the first chunk
   arrives with offset 1 and the second intact. Both are accepted, the session
   is complete, and `finalize` without a hash delivers 0, 0.
   */
  lemma WrongFileDelivered(id: TransferId)
    ensures var t := Transfer(ChunkConfig(1), id, "f", [7, 0]);
            && t.Total() == 2
            && var c0, c1 := ChunkAt(t.config, id, t.content, 0), ChunkAt(t.config, id, t.content, 1);
            && var a := Run(EMPTY, [StartSession(id, "f", 2, 2, true), ProcessChunk(MovedTo(c0, 1), Written)]);
            && Step(Step(a, ProcessChunk(c1, Written)).0, Finalize(id, "", true, true)) ==
               (Assembler(map[], map["f" := [0, 0]]), Ok("f"))
  {
    var t := Transfer(ChunkConfig(1), id, "f", [7, 0]);
    TwoByteChunks(t);
    var c0, c1 := ChunkAt(t.config, id, t.content, 0), ChunkAt(t.config, id, t.content, 1);
    hide Crc32.Crc, Sha256.Digest, Hex.Text, Run, ChunkAt, ChunkConfig.TotalChunks;
    var start := StartSession(id, "f", 2, 2, true);
    RunTwo(EMPTY, start, ProcessChunk(MovedTo(c0, 1), Written));
    var a1 := Step(EMPTY, start).0;
    assert a1.contexts == map[id := NewSession("f", 2, 2)];
    var a2 := Step(a1, ProcessChunk(MovedTo(c0, 1), Written)).0;
    assert a2.contexts[id].file == [0, 7] && a2.contexts[id].received == [true, false];
    LastChunkOverwrites(id, c1, a2);
  }

  lemma TwoByteChunks(t: Transfer)
    requires t == Transfer(ChunkConfig(1), t.id, "f", [7, 0])
    ensures t.Total() == 2
    ensures var c := ChunkAt(t.config, t.id, t.content, 0);
            && c.data == [7] && c.header.id == t.id && c.header.chunkIndex == 0
            && c.header.checksum == Crc32.Crc(c.data)
    ensures var c := ChunkAt(t.config, t.id, t.content, 1);
            && c.data == [0] && c.header.id == t.id && c.header.chunkIndex == 1 && c.header.chunkOffset == 1
            && c.header.checksum == Crc32.Crc(c.data)
  {
    hide Crc32.Crc;
  }

  lemma LastChunkOverwrites(id: TransferId, c: Chunk, a: Assembler)
    requires WellFormed(a) && a.contexts.Keys == {id} && a.outputs == map[]
    requires var s := a.contexts[id];
             && s.good && s.filename == "f" && s.totalChunks == 2 && s.receivedCount == 1
             && s.received == [true, false] && s.file == [0, 7]
    requires c.data == [0] && c.header.id == id && c.header.chunkIndex == 1 && c.header.chunkOffset == 1
    requires c.header.checksum == Crc32.Crc(c.data)
    ensures WellFormed(Step(a, ProcessChunk(c, Written)).0)
    ensures Step(Step(a, ProcessChunk(c, Written)).0, Finalize(id, "", true, true)) ==
            (Assembler(map[], map["f" := [0, 0]]), Ok("f"))
  {
    hide Crc32.Crc, Sha256.Digest, Hex.Text;
    var b := Step(a, ProcessChunk(c, Written)).0;
    assert b.contexts == map[id := b.contexts[id]];
    assert b.contexts[id].file == [0, 0] && b.contexts[id].receivedCount == 2;
    assert b.contexts - {id} == map[];
  }
}
