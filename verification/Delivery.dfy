/**
 From the splitter through an unreliable delivery into the assembler: the
 bytes that arrive are the bytes that were sent.
 */
module Delivery {
  import opened Bytes
  import opened Chunks
  import opened ChunkAssembler
  import Crc32
  import Hex
  import Sha256

  /** A file being transferred under an id. */
  datatype Transfer = Transfer(config: ChunkConfig, id: TransferId, filename: string, content: seq<Byte>) {

    ghost predicate Valid() {
      config.chunkSize > 0
    }

    function Total(): (n: nat)
      requires config.chunkSize > 0
    {
      config.TotalChunks(|content|)
    }
  }

  /** `c` is chunk `i` as the splitter emitted it. */
  ghost predicate Genuine(t: Transfer, c: Chunk, i: nat)
    requires t.Valid()
  {
    i < t.Total() && c == ChunkAt(t.config, t.id, t.content, i)
  }

  /** `c` is a copy of some chunk whose data was damaged by one burst of at most 32 bits. */
  ghost predicate DamagedCopy(t: Transfer, c: Chunk)
    requires t.Valid()
  {
    exists i: nat :: i < t.Total() && c.header == ChunkAt(t.config, t.id, t.content, i).header &&
                     Crc32.Damaged(ChunkAt(t.config, t.id, t.content, i).data, c.data)
  }

  /** Chunk `i` arrived intact in some call, and was written. */
  ghost predicate Delivered(t: Transfer, calls: seq<Call>, i: nat)
    requires t.Valid()
  {
    exists k :: 0 <= k < |calls| && calls[k].ProcessChunk? && calls[k].reply.Written? && Genuine(t, calls[k].chunk, i)
  }

  ghost predicate AllDelivered(t: Transfer, calls: seq<Call>)
    requires t.Valid()
  {
    forall i: nat :: i < t.Total() ==> Delivered(t, calls, i)
  }

  /** The write of a chunk that was still missing fails. */
  ghost predicate Breaks(t: Transfer, before: seq<Call>, call: Call)
    requires t.Valid()
  {
    && call.ProcessChunk? && call.reply.Broken?
    && exists i: nat :: Genuine(t, call.chunk, i) && !Delivered(t, before, i)
  }

  ghost predicate Broke(t: Transfer, calls: seq<Call>)
    requires t.Valid()
  {
    exists k :: 0 <= k < |calls| && Breaks(t, calls[..k], calls[k])
  }

  /** Every chunk arrived intact, and no write that mattered failed. */
  ghost predicate Whole(t: Transfer, calls: seq<Call>)
    requires t.Valid()
  {
    AllDelivered(t, calls) && !Broke(t, calls)
  }

  /**
   What may happen after `before` between the start and the end of the
   transfer: its own chunks arrive in any order, any number of times or not at
   all, damaged copies and anything else that fails its checksum arrive among
   them, writes fail, the session is started again, `finalize` is called too
   early, and other transfers do whatever they like.
   */
  ghost predicate Allowed(t: Transfer, before: seq<Call>, call: Call)
    requires t.Valid()
  {
    IdOf(call) == t.id ==>
      match call
      case StartSession(_, _, _, _, _) => true
      case ProcessChunk(c, _) =>
        || (exists i: nat :: Genuine(t, c, i))
        || DamagedCopy(t, c)
        || Crc32.Crc(c.data) != c.header.checksum
      case Finalize(_, _, _, _) => !Whole(t, before)
      case CancelSession(_) => false
  }

  ghost predicate AllAllowed(t: Transfer, calls: seq<Call>)
    requires t.Valid()
  {
    forall k :: 0 <= k < |calls| ==> Allowed(t, calls[..k], calls[k])
  }

  /** The byte at `p` is the original's if the chunk that covers it was received, and zero if not. */
  ghost predicate InPlace(t: Transfer, s: Session, p: nat)
    requires t.Valid() && p < |t.content| == |s.file|
  {
    var i := p / t.config.chunkSize;
    i < |s.received| && s.file[p] == if s.received[i] then t.content[p] else 0
  }

  ghost predicate FileRight(t: Transfer, s: Session)
    requires t.Valid()
  {
    |s.file| == |t.content| && forall p: nat :: p < |t.content| ==> InPlace(t, s, p)
  }

  /**
   The session of the transfer holds exactly the delivered chunks, each at its
   place, and zeros elsewhere; or its stream broke and it stays incomplete.
   */
  ghost predicate Holds(t: Transfer, s: Session, calls: seq<Call>)
    requires t.Valid()
  {
    && s.filename == t.filename
    && s.totalChunks == |s.received| == t.Total()
    && s.receivedCount == CountTrue(s.received)
    && if Broke(t, calls) then !s.good && s.receivedCount != s.totalChunks
       else
         && s.good && FileRight(t, s)
         && forall i: nat :: i < t.Total() ==> (s.received[i] <==> Delivered(t, calls, i))
  }

  /** No damaged copy passes the checksum test. */
  lemma DamageIsDetected(t: Transfer, c: Chunk)
    requires t.Valid() && DamagedCopy(t, c)
    ensures Crc32.Crc(c.data) != c.header.checksum
  {
    hide Crc32.Crc, Crc32.Damaged;
    var i: nat :| i < t.Total() && c.header == ChunkAt(t.config, t.id, t.content, i).header &&
                  Crc32.Damaged(ChunkAt(t.config, t.id, t.content, i).data, c.data);
    Crc32.CrcDetectsBurst(ChunkAt(t.config, t.id, t.content, i).data, c.data);
  }

  /** Replacing at most four consecutive bytes of a chunk by others makes a damaged copy. */
  lemma WindowIsDamage(t: Transfer, c: Chunk, i: nat, prefix: seq<Byte>, u: seq<Byte>, v: seq<Byte>, suffix: seq<Byte>)
    requires t.Valid() && Genuine(t, c, i) && c.data == prefix + u + suffix
    requires |u| == |v| <= 4 && u != v
    ensures DamagedCopy(t, c.(data := prefix + v + suffix))
  {
    hide Crc32.Crc, Crc32.Damaged;
    Crc32.CrcDetectsByteWindow(prefix, u, v, suffix);
    assert ChunkAt(t.config, t.id, t.content, i).data == prefix + u + suffix;
  }

  /**
   A damaged copy never changes the state of any session; one whose chunk is
   still missing is reported as a checksum error.
   */
  lemma DamageIsRejected(t: Transfer, a: Assembler, c: Chunk, reply: WriteReply)
    requires t.Valid() && WellFormed(a) && DamagedCopy(t, c)
    ensures Process(a, c, reply).0 == a
    ensures c.header.id in a.contexts && c.header.chunkIndex < a.contexts[c.header.id].totalChunks &&
            !a.contexts[c.header.id].received[c.header.chunkIndex] ==>
              Process(a, c, reply).1 == Err(ChunkChecksumError)
  {
    DamageIsDetected(t, c);
    hide Crc32.Crc, DamagedCopy;
  }

  lemma GenuineIndex(t: Transfer, c: Chunk, i: nat, j: nat)
    requires t.Valid() && Genuine(t, c, i)
    ensures c.header.chunkIndex == i && c.header.id == t.id && Crc32.Crc(c.data) == c.header.checksum
    ensures Genuine(t, c, j) ==> i == j
  {
    hide Crc32.Crc;
  }

  /** A step on another id, or on a chunk that fails its checksum, leaves the transfer's session alone. */
  lemma OtherStep(t: Transfer, a: Assembler, call: Call)
    requires WellFormed(a) && t.id in a.contexts
    requires IdOf(call) == t.id ==> call.ProcessChunk? && Crc32.Crc(call.chunk.data) != call.chunk.header.checksum
    ensures t.id in Step(a, call).0.contexts && Step(a, call).0.contexts[t.id] == a.contexts[t.id]
  {
    hide Crc32.Crc;
    if IdOf(call) == t.id {
      ChecksumGuards(a, call.chunk, call.reply);
    } else {
      StepFramesOthers(a, call, t.id);
    }
  }

  lemma DeliveredGrows(t: Transfer, calls: seq<Call>, call: Call, i: nat)
    requires t.Valid()
    ensures Delivered(t, calls + [call], i) <==>
            Delivered(t, calls, i) || (call.ProcessChunk? && call.reply.Written? && Genuine(t, call.chunk, i))
  {
    hide Genuine;
    var all := calls + [call];
    if Delivered(t, calls, i) {
      var k :| 0 <= k < |calls| && calls[k].ProcessChunk? && calls[k].reply.Written? && Genuine(t, calls[k].chunk, i);
      assert all[k] == calls[k];
    }
    if call.ProcessChunk? && call.reply.Written? && Genuine(t, call.chunk, i) {
      assert all[|calls|] == call;
    }
  }

  lemma BrokeGrows(t: Transfer, calls: seq<Call>, call: Call)
    requires t.Valid()
    ensures Broke(t, calls + [call]) <==> Broke(t, calls) || Breaks(t, calls, call)
  {
    hide Breaks;
    var all := calls + [call];
    assert all[..|calls|] == calls && all[|calls|] == call;
    forall k | 0 <= k < |calls|
      ensures all[..k] == calls[..k] && all[k] == calls[k]
    {
    }
  }

  /** Accepting a genuine chunk puts its bytes where they belong and touches no other chunk. */
  lemma AcceptedBytes(t: Transfer, s: Session, c: Chunk, i: nat)
    requires t.Valid() && FileRight(t, s) && |s.received| == t.Total() && Genuine(t, c, i) && !s.received[i]
    ensures c.header.chunkIndex < |s.received|
    ensures FileRight(t, Accept(s, c))
  {
    hide Crc32.Crc, ChunkConfig.TotalChunks, WriteAt;
    GenuineIndex(t, c, i, i);
    ChunkBounds(t.config, |t.content|, i);
    var s' := Accept(s, c);
    forall p: nat | p < |t.content|
      ensures InPlace(t, s', p)
    {
      IntervalsPartition(t.config, |t.content|, p, i);
      assert InPlace(t, s, p);
    }
  }

  lemma HoldsAfterAccept(t: Transfer, s: Session, calls: seq<Call>, call: Call, i: nat)
    requires t.Valid() && Holds(t, s, calls) && !Broke(t, calls)
    requires call.ProcessChunk? && call.reply.Written? && Genuine(t, call.chunk, i) && !s.received[i]
    ensures call.chunk.header.chunkIndex < |s.received|
    ensures Holds(t, Accept(s, call.chunk), calls + [call])
  {
    AcceptedBytes(t, s, call.chunk, i);
    BrokeGrows(t, calls, call);
    hide Crc32.Crc, ChunkConfig.TotalChunks, Delivered, Genuine, WriteAt, FileRight, Broke;
    GenuineIndex(t, call.chunk, i, i);
    CountAfterSet(s.received, i);
    forall j: nat | j < t.Total()
      ensures s.received[i := true][j] <==> Delivered(t, calls + [call], j)
    {
      DeliveredGrows(t, calls, call, j);
      GenuineIndex(t, call.chunk, i, j);
    }
  }

  /** A call that does not touch the session, breaks nothing and delivers nothing new keeps it right. */
  lemma HoldsAfterOther(t: Transfer, s: Session, calls: seq<Call>, call: Call)
    requires t.Valid() && Holds(t, s, calls) && (Broke(t, calls) || !Breaks(t, calls, call))
    requires !Broke(t, calls) && call.ProcessChunk? && call.reply.Written? ==>
               forall i: nat :: Genuine(t, call.chunk, i) && i < t.Total() ==> s.received[i]
    ensures Holds(t, s, calls + [call])
  {
    hide Delivered, Genuine, ChunkConfig.TotalChunks, FileRight, Broke, Breaks;
    BrokeGrows(t, calls, call);
    forall j: nat | j < t.Total() && !Broke(t, calls)
      ensures s.received[j] <==> Delivered(t, calls + [call], j)
    {
      DeliveredGrows(t, calls, call, j);
    }
  }

  lemma NotFull(s: Session, i: nat)
    requires |s.received| == s.totalChunks && s.receivedCount == CountTrue(s.received)
    requires i < |s.received| && !s.received[i]
    ensures s.receivedCount != s.totalChunks
  {
    CountIsFull(s.received);
  }

  lemma HoldsAfterBreak(t: Transfer, s: Session, calls: seq<Call>, call: Call, i: nat)
    requires t.Valid() && Holds(t, s, calls) && !Broke(t, calls)
    requires call.ProcessChunk? && call.reply.Broken? && Genuine(t, call.chunk, i) && !s.received[i]
    ensures Holds(t, Break(s, call.chunk, call.reply), calls + [call])
  {
    NotFull(s, i);
    assert Breaks(t, calls, call);
    BrokeGrows(t, calls, call);
    hide Delivered, Genuine, ChunkConfig.TotalChunks, FileRight, Broke, Breaks, WriteAt;
  }

  lemma CompleteIffWhole(t: Transfer, s: Session, calls: seq<Call>)
    requires t.Valid() && Holds(t, s, calls)
    ensures s.receivedCount == s.totalChunks <==> Whole(t, calls)
    ensures Whole(t, calls) ==> s.file == t.content
  {
    hide Delivered, Broke, ChunkConfig.TotalChunks;
    CountIsFull(s.received);
    if Whole(t, calls) {
      forall p: nat | p < |t.content|
        ensures s.file[p] == t.content[p]
      {
        TotalPositive(t);
        IntervalsPartition(t.config, |t.content|, p, 0);
        assert InPlace(t, s, p);
      }
    }
  }

  lemma TotalPositive(t: Transfer)
    requires t.Valid()
    ensures t.Total() > 0
  {
  }

  /** A chunk of the transfer while the stream is good: already there, written now, or the write fails. */
  lemma GenuineStep(t: Transfer, a: Assembler, calls: seq<Call>, call: Call, i: nat)
    requires t.Valid() && WellFormed(a) && t.id in a.contexts && Holds(t, a.contexts[t.id], calls)
    requires !Broke(t, calls) && call.ProcessChunk? && Genuine(t, call.chunk, i)
    ensures var a' := Step(a, call).0;
            t.id in a'.contexts && Holds(t, a'.contexts[t.id], calls + [call])
  {
    var s := a.contexts[t.id];
    GenuineIndex(t, call.chunk, i, i);
    forall j: nat | Genuine(t, call.chunk, j)
      ensures i == j
    {
      GenuineIndex(t, call.chunk, i, j);
    }
    hide Genuine, Crc32.Crc, Accept, Break, FileRight, Delivered, ChunkConfig.TotalChunks;
    if s.received[i] {
      HoldsAfterOther(t, s, calls, call);
    } else if call.reply.Written? {
      HoldsAfterAccept(t, s, calls, call, i);
    } else {
      HoldsAfterBreak(t, s, calls, call, i);
    }
  }

  lemma BrokenStep(t: Transfer, a: Assembler, calls: seq<Call>, call: Call)
    requires t.Valid() && WellFormed(a) && t.id in a.contexts && Holds(t, a.contexts[t.id], calls)
    requires Broke(t, calls) && call != CancelSession(t.id)
    ensures var a' := Step(a, call).0;
            t.id in a'.contexts && Holds(t, a'.contexts[t.id], calls + [call])
  {
    hide Broke, Delivered, Genuine, FileRight, ChunkConfig.TotalChunks;
    BrokenStaysIncomplete(a, call, t.id);
    HoldsAfterOther(t, a.contexts[t.id], calls, call);
  }

  /** A second start is refused, and an early `finalize` reports missing chunks; neither changes anything. */
  lemma RefusedStep(t: Transfer, a: Assembler, calls: seq<Call>, call: Call)
    requires t.Valid() && WellFormed(a) && t.id in a.contexts && Holds(t, a.contexts[t.id], calls)
    requires IdOf(call) == t.id && (call.StartSession? || (call.Finalize? && !Whole(t, calls)))
    ensures Step(a, call).0 == a
    ensures Step(a, call).1 == Err(if call.StartSession? then AlreadyInitialized else MissingChunks)
  {
    CompleteIffWhole(t, a.contexts[t.id], calls);
    hide Holds, Whole, Sha256.Digest, Hex.Text;
  }

  /** Every allowed call keeps the session right. */
  lemma DeliveryStep(t: Transfer, a: Assembler, calls: seq<Call>, call: Call)
    requires t.Valid() && WellFormed(a) && t.id in a.contexts && Holds(t, a.contexts[t.id], calls)
    requires Allowed(t, calls, call)
    ensures var a' := Step(a, call).0;
            t.id in a'.contexts && Holds(t, a'.contexts[t.id], calls + [call])
  {
    hide Holds, Whole, Broke, Genuine, DamagedCopy, Step, Crc32.Crc, Delivered, FileRight;
    if Broke(t, calls) {
      BrokenStep(t, a, calls, call);
    } else if call.ProcessChunk? && exists i: nat :: Genuine(t, call.chunk, i) {
      var i: nat :| Genuine(t, call.chunk, i);
      GenuineStep(t, a, calls, call, i);
    } else if IdOf(call) == t.id && !call.ProcessChunk? {
      RefusedStep(t, a, calls, call);
      HoldsAfterOther(t, a.contexts[t.id], calls, call);
    } else {
      if call.ProcessChunk? && DamagedCopy(t, call.chunk) {
        DamageIsDetected(t, call.chunk);
      }
      OtherStep(t, a, call);
      HoldsAfterOther(t, a.contexts[t.id], calls, call);
    }
  }

  lemma PrefixAllowed(t: Transfer, calls: seq<Call>)
    requires t.Valid() && calls != [] && AllAllowed(t, calls)
    ensures AllAllowed(t, calls[..|calls| - 1])
    ensures Allowed(t, calls[..|calls| - 1], calls[|calls| - 1])
  {
    hide Allowed;
    var before := calls[..|calls| - 1];
    forall k | 0 <= k < |before|
      ensures Allowed(t, before[..k], before[k])
    {
      assert before[..k] == calls[..k];
    }
  }

  lemma {:induction false} RunHolds(t: Transfer, a: Assembler, calls: seq<Call>)
    requires t.Valid() && WellFormed(a) && t.id in a.contexts && Holds(t, a.contexts[t.id], [])
    requires AllAllowed(t, calls)
    ensures t.id in Run(a, calls).contexts && Holds(t, Run(a, calls).contexts[t.id], calls)
  {
    hide Allowed, AllAllowed, Holds, Step;
    if calls != [] {
      var before, last := calls[..|calls| - 1], calls[|calls| - 1];
      PrefixAllowed(t, calls);
      RunHolds(t, a, before);
      assert before + [last] == calls;
      DeliveryStep(t, Run(a, before), before, last);
    }
  }

  lemma NewSessionHolds(t: Transfer)
    requires t.Valid()
    ensures Holds(t, NewSession(t.filename, |t.content|, t.Total()), [])
  {
    CountOfFalse(t.Total());
    forall p: nat | p < |t.content|
      ensures InPlace(t, NewSession(t.filename, |t.content|, t.Total()), p)
    {
      TotalPositive(t);
      IntervalsPartition(t.config, |t.content|, p, 0);
    }
  }

  /** `finalize` delivers the original, or reports what is missing and changes nothing. */
  lemma FinalizeDelivers(t: Transfer, a: Assembler, calls: seq<Call>, hash: string)
    requires t.Valid() && t.id in a.contexts && Holds(t, a.contexts[t.id], calls)
    requires hash == "" || hash == Hex.Text(Sha256.Digest(t.content))
    ensures var (final, r) := FinalizeSession(a, t.id, hash, true, true);
            && (Whole(t, calls) ==>
                  && r == Ok(t.filename) && t.id !in final.contexts
                  && t.filename in final.outputs && final.outputs[t.filename] == t.content)
            && (!Whole(t, calls) ==> r == Err(MissingChunks) && final == a)
  {
    CompleteIffWhole(t, a.contexts[t.id], calls);
    hide Whole, Broke, Delivered, Sha256.Digest, Hex.Text, FileRight, ChunkConfig.TotalChunks;
  }

  /**
   Whatever an allowed delivery does: the session is complete exactly when
   every chunk was delivered intact at least once and no write that mattered
   failed. Then the temporary file is the original, and `finalize` with the
   hash that the sender computed succeeds and leaves the original under the
   session's file name. Otherwise `finalize` reports missing chunks and
   changes nothing.
   */
  lemma TransferIsFaithful(t: Transfer, a: Assembler, calls: seq<Call>, hash: string)
    requires t.Valid() && WellFormed(a) && t.id !in a.contexts
    requires AllAllowed(t, calls)
    requires hash == "" || hash == Hex.Text(Sha256.Digest(t.content))
    ensures var started := Step(a, StartSession(t.id, t.filename, |t.content|, t.Total(), true)).0;
            && WellFormed(started)
            && var after := Run(started, calls);
            && t.id in after.contexts
            && var s := after.contexts[t.id];
            && (s.receivedCount == s.totalChunks <==> Whole(t, calls))
            && (Whole(t, calls) ==> s.file == t.content)
            && var (final, r) := Step(after, Finalize(t.id, hash, true, true));
            && (Whole(t, calls) ==>
                  && r == Ok(t.filename) && t.id !in final.contexts
                  && t.filename in final.outputs && final.outputs[t.filename] == t.content)
            && (!Whole(t, calls) ==> r == Err(MissingChunks) && final == after)
  {
    hide Holds, Whole, Sha256.Digest, Hex.Text, Crc32.Crc, AllAllowed, ChunkConfig.TotalChunks, FinalizeSession;
    var start := StartSession(t.id, t.filename, |t.content|, t.Total(), true);
    StepKeepsWellFormed(a, start);
    var started := Step(a, start).0;
    NewSessionHolds(t);
    RunHolds(t, started, calls);
    var after := Run(started, calls);
    CompleteIffWhole(t, after.contexts[t.id], calls);
    FinalizeDelivers(t, after, calls, hash);
  }
}
