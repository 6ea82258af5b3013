/**
 `chunk_assembler.cpp`: many concurrent sessions, each with a receive bitmap,
 counters and a temporary file that chunks are written into at their offsets.
 `Assembler` and `Step` describe one call on values; the class below is the
 code, proved to do exactly that step.
 */
module ChunkAssembler {
  import opened Bytes
  import opened Chunks
  import Crc32
  import Hex
  import Sha256

  /** `assembly_context`; `good` says that the temp file stream still accepts writes. */
  datatype Session = Session(
    filename: string,
    fileSize: nat,
    totalChunks: nat,
    received: seq<bool>,
    receivedCount: nat,
    bytesWritten: nat,
    file: seq<Byte>,
    good: bool)

  /** The sessions, and the files that finished sessions left in the output directory. */
  datatype Assembler = Assembler(contexts: map<TransferId, Session>, outputs: map<string, seq<Byte>>)

  /** How a seek and write ends: all bytes are in the file, or the stream broke after some of them. */
  datatype WriteReply = Written | Broken(count: nat)

  /** One public call. The flags and the reply are the answers of the file system. */
  datatype Call =
    | StartSession(id: TransferId, filename: string, fileSize: nat, totalChunks: nat, opens: bool)
    | ProcessChunk(chunk: Chunk, reply: WriteReply)
    | Finalize(id: TransferId, expectedHash: string, opens: bool, renames: bool)
    | CancelSession(id: TransferId)

  function IdOf(call: Call): TransferId {
    match call
    case StartSession(id, _, _, _, _) => id
    case ProcessChunk(c, _) => c.header.id
    case Finalize(id, _, _, _) => id
    case CancelSession(id) => id
  }

  function NewSession(filename: string, fileSize: nat, totalChunks: nat): Session {
    Session(filename, fileSize, totalChunks, seq(totalChunks, _ => false), 0, 0, Zeros(fileSize), true)
  }

  /** Seek and write: a gap is filled with zeros, the file grows when the data reaches past its end. */
  function WriteAt(file: seq<Byte>, offset: nat, data: seq<Byte>): (r: seq<Byte>)
    ensures offset + |data| <= |file| ==> |r| == |file|
    ensures offset + |data| <= |file| ==>
              forall p :: 0 <= p < |file| ==>
                            r[p] == if offset <= p < offset + |data| then data[p - offset] else file[p]
  {
    if data == [] then file
    else if offset + |data| <= |file| then file[..offset] + data + file[offset + |data|..]
    else if offset <= |file| then file[..offset] + data
    else file + Zeros(offset - |file|) + data
  }

  /** The session after one more accepted chunk. */
  function Accept(s: Session, c: Chunk): Session
    requires c.header.chunkIndex < |s.received|
  {
    s.(received := s.received[c.header.chunkIndex := true],
       receivedCount := s.receivedCount + 1,
       bytesWritten := s.bytesWritten + |c.data|,
       file := WriteAt(s.file, c.header.chunkOffset, c.data))
  }

  /** `process_chunk` accepts the chunk: known session, new index, matching checksum, working stream. */
  predicate Accepts(a: Assembler, c: Chunk, reply: WriteReply) {
    && c.header.id in a.contexts
    && var s := a.contexts[c.header.id];
    && c.header.chunkIndex < s.totalChunks
    && c.header.chunkIndex < |s.received| && !s.received[c.header.chunkIndex]
    && Crc32.Crc(c.data) == c.header.checksum
    && s.good && reply.Written?
  }

  /** The session after a failed seek or write: part of the data may have reached the file. */
  function Break(s: Session, c: Chunk, reply: WriteReply): Session {
    if s.good && reply.Broken? then
      s.(good := false, file := WriteAt(s.file, c.header.chunkOffset, c.data[..Min(reply.count, |c.data|)]))
    else s
  }

  function Process(a: Assembler, c: Chunk, reply: WriteReply): (Assembler, Result<string>)
    requires WellFormed(a)
  {
    if c.header.id !in a.contexts then (a, Err(NotInitialized))
    else
      var s := a.contexts[c.header.id];
      if c.header.chunkIndex >= s.totalChunks then (a, Err(InvalidChunkIndex))
      else if s.received[c.header.chunkIndex] then (a, Ok(""))
      else if Crc32.Crc(c.data) != c.header.checksum then (a, Err(ChunkChecksumError))
      else if !s.good || reply.Broken? then
        (a.(contexts := a.contexts[c.header.id := Break(s, c, reply)]), Err(FileWriteError))
      else (a.(contexts := a.contexts[c.header.id := Accept(s, c)]), Ok(""))
  }

  /** The final path is cleared before the rename, so a failing rename leaves no file there. */
  function FinalizeSession(a: Assembler, id: TransferId, expectedHash: string, opens: bool, renames: bool)
    : (Assembler, Result<string>)
  {
    if id !in a.contexts then (a, Err(NotInitialized))
    else
      var s := a.contexts[id];
      if s.receivedCount != s.totalChunks then (a, Err(MissingChunks))
      else if expectedHash != "" && !(opens && Hex.Text(Sha256.Digest(s.file)) == expectedHash) then
        (a.(contexts := a.contexts - {id}), Err(FileHashMismatch))
      else if !renames then
        (Assembler(a.contexts[id := s.(good := false)], a.outputs - {s.filename}), Err(FileWriteError))
      else (Assembler(a.contexts - {id}, a.outputs[s.filename := s.file]), Ok(s.filename))
  }

  function Step(a: Assembler, call: Call): (Assembler, Result<string>)
    requires WellFormed(a)
  {
    match call
    case StartSession(id, filename, fileSize, totalChunks, opens) =>
      if id in a.contexts then (a, Err(AlreadyInitialized))
      else if !opens then (a, Err(FileAccessDenied))
      else (a.(contexts := a.contexts[id := NewSession(filename, fileSize, totalChunks)]), Ok(""))
    case ProcessChunk(c, reply) => Process(a, c, reply)
    case Finalize(id, expectedHash, opens, renames) => FinalizeSession(a, id, expectedHash, opens, renames)
    case CancelSession(id) => (a.(contexts := a.contexts - {id}), Ok(""))
  }

  /** Every bitmap has one entry per chunk. */
  predicate WellFormed(a: Assembler) {
    forall id :: id in a.contexts ==> |a.contexts[id].received| == a.contexts[id].totalChunks
  }

  lemma StepKeepsWellFormed(a: Assembler, call: Call)
    requires WellFormed(a)
    ensures WellFormed(Step(a, call).0)
  {
    hide Crc32.Crc, Sha256.Digest, Hex.Text, WriteAt;
  }

  // ---- Runs, and what has been accepted in them ----------------------------

  /** For each open session the chunks it has accepted, in order. */
  type Log = map<TransferId, seq<Chunk>>

  /** An independent account of acceptance: it looks only at the call and at whether the session's bitmap changed. */
  function LogStep(a: Assembler, log: Log, call: Call): Log
    requires WellFormed(a)
  {
    var a' := Step(a, call).0;
    var id := IdOf(call);
    if id !in a'.contexts then log - {id}
    else if id !in a.contexts then log[id := []]
    else if a'.contexts[id].received != a.contexts[id].received && call.ProcessChunk? && id in log then
      log[id := log[id] + [call.chunk]]
    else log
  }

  function Run(a: Assembler, calls: seq<Call>): (r: Assembler)
    requires WellFormed(a)
    ensures WellFormed(r)
  {
    if calls == [] then a
    else
      var before := Run(a, calls[..|calls| - 1]);
      StepKeepsWellFormed(before, calls[|calls| - 1]);
      Step(before, calls[|calls| - 1]).0
  }

  function RunLog(a: Assembler, log: Log, calls: seq<Call>): Log
    requires WellFormed(a)
  {
    if calls == [] then log
    else LogStep(Run(a, calls[..|calls| - 1]), RunLog(a, log, calls[..|calls| - 1]), calls[|calls| - 1])
  }

  function CountTrue(bits: seq<bool>): nat {
    if bits == [] then 0 else (if bits[0] then 1 else 0) + CountTrue(bits[1..])
  }

  function TotalSize(chunks: seq<Chunk>): nat {
    if chunks == [] then 0 else TotalSize(chunks[..|chunks| - 1]) + |chunks[|chunks| - 1].data|
  }

  /** The file that results from writing the chunks in order. */
  function Replay(file: seq<Byte>, chunks: seq<Chunk>): seq<Byte> {
    if chunks == [] then file
    else
      var last := chunks[|chunks| - 1];
      WriteAt(Replay(file, chunks[..|chunks| - 1]), last.header.chunkOffset, last.data)
  }

  ghost predicate HasIndex(chunks: seq<Chunk>, i: nat) {
    exists k :: 0 <= k < |chunks| && chunks[k].header.chunkIndex == i
  }

  ghost predicate DistinctIndices(chunks: seq<Chunk>) {
    forall j, k :: 0 <= j < k < |chunks| ==> chunks[j].header.chunkIndex != chunks[k].header.chunkIndex
  }

  /**
   A session is its accepted chunks: bitmap, counters and file all follow from
   them. Only the file of a broken stream that is still incomplete may hold
   anything else.
   */
  ghost predicate SessionMatchesLog(s: Session, chunks: seq<Chunk>) {
    && |s.received| == s.totalChunks
    && s.receivedCount == CountTrue(s.received) == |chunks|
    && s.bytesWritten == TotalSize(chunks)
    && (s.good || s.receivedCount == s.totalChunks ==> s.file == Replay(Zeros(s.fileSize), chunks))
    && DistinctIndices(chunks)
    && forall i :: 0 <= i < s.totalChunks ==> (s.received[i] <==> HasIndex(chunks, i))
  }

  ghost predicate Consistent(a: Assembler, log: Log) {
    && a.contexts.Keys == log.Keys
    && forall id :: id in a.contexts ==> SessionMatchesLog(a.contexts[id], log[id])
  }

  lemma {:induction false} CountAfterSet(bits: seq<bool>, i: nat)
    requires i < |bits| && !bits[i]
    ensures CountTrue(bits[i := true]) == CountTrue(bits) + 1
  {
    if i > 0 {
      assert bits[i := true][1..] == bits[1..][i - 1 := true];
      CountAfterSet(bits[1..], i - 1);
    } else {
      assert bits[i := true][1..] == bits[1..];
    }
  }

  lemma {:induction false} CountOfFalse(n: nat)
    ensures CountTrue(seq(n, _ => false)) == 0
  {
    if n > 0 {
      assert seq(n, _ => false)[1..] == seq(n - 1, _ => false);
      CountOfFalse(n - 1);
    }
  }

  lemma {:induction false} CountIsFull(bits: seq<bool>)
    ensures CountTrue(bits) <= |bits|
    ensures CountTrue(bits) == |bits| <==> forall i :: 0 <= i < |bits| ==> bits[i]
  {
    if bits != [] {
      CountIsFull(bits[1..]);
      assert forall i :: 0 <= i < |bits| - 1 ==> bits[1..][i] == bits[i + 1];
      if CountTrue(bits) != |bits| && bits[0] {
        var k :| 0 <= k < |bits| - 1 && !bits[1..][k];
        assert !bits[k + 1];
      }
    }
  }

  lemma AcceptKeepsLog(s: Session, chunks: seq<Chunk>, c: Chunk)
    requires SessionMatchesLog(s, chunks)
    requires c.header.chunkIndex < s.totalChunks && !s.received[c.header.chunkIndex] && s.good
    ensures SessionMatchesLog(Accept(s, c), chunks + [c])
  {
    hide WriteAt;
    var s', log' := Accept(s, c), chunks + [c];
    var n := c.header.chunkIndex;
    CountAfterSet(s.received, n);
    assert log'[..|log'| - 1] == chunks;
    assert !HasIndex(chunks, n);
    forall i | 0 <= i < s.totalChunks
      ensures s'.received[i] <==> HasIndex(log', i)
    {
      if HasIndex(chunks, i) {
        var k :| 0 <= k < |chunks| && chunks[k].header.chunkIndex == i;
        assert log'[k].header.chunkIndex == i;
      }
      if i == n {
        assert log'[|chunks|].header.chunkIndex == i;
      }
    }
  }

  lemma NewSessionMatches(filename: string, fileSize: nat, totalChunks: nat)
    ensures SessionMatchesLog(NewSession(filename, fileSize, totalChunks), [])
  {
    CountOfFalse(totalChunks);
  }

  lemma AcceptedBitmap(s: Session, c: Chunk)
    requires c.header.chunkIndex < |s.received|
    ensures Accept(s, c).received == s.received[c.header.chunkIndex := true]
  {
    hide WriteAt;
  }

  lemma ClosedStreamMatches(s: Session, chunks: seq<Chunk>)
    requires SessionMatchesLog(s, chunks) && s.receivedCount == s.totalChunks
    ensures SessionMatchesLog(s.(good := false), chunks)
  {
  }

  lemma BrokenStreamMatches(s: Session, chunks: seq<Chunk>, c: Chunk, reply: WriteReply)
    requires SessionMatchesLog(s, chunks)
    requires c.header.chunkIndex < s.totalChunks && !s.received[c.header.chunkIndex]
    ensures SessionMatchesLog(Break(s, c, reply), chunks)
    ensures Break(s, c, reply).received == s.received
  {
    hide WriteAt, Replay, HasIndex, DistinctIndices;
    CountIsFull(s.received);
  }

  /** Every call keeps every session in step with its accepted chunks. */
  lemma StepKeepsConsistent(a: Assembler, log: Log, call: Call)
    requires WellFormed(a) && Consistent(a, log)
    ensures Consistent(Step(a, call).0, LogStep(a, log, call))
  {
    hide Crc32.Crc, Sha256.Digest, Hex.Text, Accept, Break, SessionMatchesLog, NewSession;
    var id := IdOf(call);
    match call
    case StartSession(_, filename, fileSize, totalChunks, opens) =>
      NewSessionMatches(filename, fileSize, totalChunks);
    case ProcessChunk(c, reply) =>
      if id in a.contexts && c.header.chunkIndex < a.contexts[id].totalChunks
         && !a.contexts[id].received[c.header.chunkIndex] {
        var s, n := a.contexts[id], c.header.chunkIndex;
        BrokenStreamMatches(s, log[id], c, reply);
        if Accepts(a, c, reply) {
          AcceptedBitmap(s, c);
          assert s.received[n := true][n] != s.received[n];
          AcceptKeepsLog(s, log[id], c);
        }
      }
    case Finalize(_, _, _, _) =>
      if id in a.contexts && a.contexts[id].receivedCount == a.contexts[id].totalChunks {
        ClosedStreamMatches(a.contexts[id], log[id]);
      }
    case CancelSession(_) =>
  }

  const EMPTY := Assembler(map[], map[])

  /** In every run from an empty assembler every session is exactly the chunks it has accepted. */
  lemma {:induction false} RunsAreConsistent(calls: seq<Call>)
    ensures WellFormed(EMPTY)
    ensures Consistent(Run(EMPTY, calls), RunLog(EMPTY, map[], calls))
  {
    hide Step, LogStep, SessionMatchesLog;
    if calls != [] {
      var before := calls[..|calls| - 1];
      RunsAreConsistent(before);
      StepKeepsConsistent(Run(EMPTY, before), RunLog(EMPTY, map[], before), calls[|calls| - 1]);
    }
  }

  // ---- Consequences --------------------------------------------------------

  /** The indices `get_missing_chunks` reports, in increasing order. */
  function Missing(received: seq<bool>, n: nat): (m: seq<nat>)
    requires n <= |received|
  {
    if n == 0 then [] else Missing(received, n - 1) + (if received[n - 1] then [] else [n - 1])
  }

  ghost predicate StrictlyIncreasing(m: seq<nat>) {
    forall j, k :: 0 <= j < k < |m| ==> m[j] < m[k]
  }

  /** The list is strictly increasing and holds exactly the indices whose bit is clear. */
  lemma {:induction false} MissingIsComplement(received: seq<bool>, n: nat)
    requires n <= |received|
    ensures StrictlyIncreasing(Missing(received, n))
    ensures forall i: nat :: i in Missing(received, n) <==> i < n && !received[i]
  {
    if n > 0 {
      MissingIsComplement(received, n - 1);
      var m := Missing(received, n - 1);
      assert forall k :: 0 <= k < |m| ==> m[k] in m;
    }
  }

  /** A consistent session has all its chunks exactly when nothing is reported missing. */
  lemma CompleteIffNothingMissing(s: Session, chunks: seq<Chunk>)
    requires SessionMatchesLog(s, chunks)
    ensures s.receivedCount == s.totalChunks <==> Missing(s.received, s.totalChunks) == []
    ensures s.receivedCount == s.totalChunks <==> forall i :: 0 <= i < s.totalChunks ==> HasIndex(chunks, i)
    ensures s.receivedCount + |Missing(s.received, s.totalChunks)| == s.totalChunks
  {
    CountIsFull(s.received);
    MissingIsComplement(s.received, s.totalChunks);
    MissingCount(s.received, s.totalChunks);
    assert s.received[..s.totalChunks] == s.received;
    if Missing(s.received, s.totalChunks) == [] {
      forall i | 0 <= i < s.totalChunks
        ensures s.received[i]
      {
        assert i !in Missing(s.received, s.totalChunks);
      }
    }
  }

  /** `finalize` gets as far as moving the file: the session is complete and its digest is the expected one, if any. */
  predicate MovesFile(a: Assembler, id: TransferId, hash: string, opens: bool) {
    && id in a.contexts && a.contexts[id].receivedCount == a.contexts[id].totalChunks
    && (hash == "" || (opens && Hex.Text(Sha256.Digest(a.contexts[id].file)) == hash))
  }

  /**
   When `finalize` succeeds, over any number of sessions in any reachable
   state: exactly if the session exists, every index was accepted, the digest
   of the file is the expected one if one is given, and the rename works. The
   output is then the replay of the accepted chunks. A call that fails leaves
   all outputs as they were, except in one case: if it got as far as moving
   the file and only the rename failed, an output that had the session's name
   before is gone.
   */
  lemma FinalizeVerdict(a: Assembler, log: Log, id: TransferId, hash: string, opens: bool, renames: bool)
    requires WellFormed(a) && Consistent(a, log)
    ensures var (a', r) := FinalizeSession(a, id, hash, opens, renames);
            && (r.Ok? <==>
                  && id in a.contexts && renames
                  && (forall i :: 0 <= i < a.contexts[id].totalChunks ==> HasIndex(log[id], i))
                  && (hash == "" || (opens && Hex.Text(Sha256.Digest(a.contexts[id].file)) == hash)))
            && (r.Ok? ==>
                  && id !in a'.contexts && r.value == a.contexts[id].filename && r.value in a'.outputs
                  && a'.outputs[r.value] == Replay(Zeros(a.contexts[id].fileSize), log[id])
                  && (hash != "" ==> Hex.Text(Sha256.Digest(a'.outputs[r.value])) == hash))
  {
    hide Sha256.Digest, Hex.Text, Replay, HasIndex, DistinctIndices;
    if id in a.contexts {
      CompleteIffNothingMissing(a.contexts[id], log[id]);
    }
  }

  /** A failing `finalize` loses an output exactly when only the rename failed and the name was taken; it adds none. */
  lemma OutputLostIff(a: Assembler, id: TransferId, hash: string, opens: bool, renames: bool)
    ensures var (a', r) := FinalizeSession(a, id, hash, opens, renames);
            && (r.Err? ==>
                  (a'.outputs != a.outputs <==>
                   MovesFile(a, id, hash, opens) && !renames && a.contexts[id].filename in a.outputs))
            && (r.Err? && a'.outputs != a.outputs ==> a'.outputs == a.outputs - {a.contexts[id].filename})
  {
    hide Sha256.Digest, Hex.Text;
    if MovesFile(a, id, hash, opens) && !renames {
      var name := a.contexts[id].filename;
      assert name !in a.outputs - {name};
      assert name !in a.outputs ==> a.outputs - {name} == a.outputs;
    }
  }

  /** It happens: an empty file replaces "f", the rename fails, and the old "f" is gone. */
  lemma RenameLosesOldFile(id: TransferId, content: seq<Byte>)
    ensures var c := Chunk(ChunkHeader(id, 0, 0, 0, 0, Crc32.Crc([]), true, true), []);
            var a := Run(Assembler(map[], map["f" := content]),
                         [StartSession(id, "f", 0, 1, true), ProcessChunk(c, Written)]);
            var (a', r) := FinalizeSession(a, id, "", true, false);
            a.outputs == map["f" := content] && r == Err(FileWriteError) && a'.outputs == map[]
  {
    hide Crc32.Crc, Sha256.Digest, Hex.Text, FinalizeSession, Run;
    var a0 := Assembler(map[], map["f" := content]);
    var start := StartSession(id, "f", 0, 1, true);
    var c := Chunk(ChunkHeader(id, 0, 0, 0, 0, Crc32.Crc([]), true, true), []);
    var a1 := Step(a0, start).0;
    RunTwo(a0, start, ProcessChunk(c, Written));
    var s := a1.contexts[id];
    assert s == NewSession("f", 0, 1) && !s.received[0];
    var a2 := Step(a1, ProcessChunk(c, Written)).0;
    assert a2.contexts[id].receivedCount == 1 == a2.contexts[id].totalChunks && a2.contexts[id].filename == "f";
    OutputLostIff(a2, id, "", true, false);
    FinalizeFails(a2, id);
  }

  lemma FinalizeFails(a: Assembler, id: TransferId)
    requires MovesFile(a, id, "", true)
    ensures FinalizeSession(a, id, "", true, false).1 == Err(FileWriteError)
  {
    hide Sha256.Digest, Hex.Text;
  }

  lemma RunTwo(a: Assembler, first: Call, second: Call)
    requires WellFormed(a)
    ensures WellFormed(Step(a, first).0) && Run(a, [first, second]) == Step(Step(a, first).0, second).0
  {
    hide Step;
    StepKeepsWellFormed(a, first);
    assert [first, second][..1] == [first] && [first][..0] == [];
    assert Run(a, []) == a && Run(a, [first]) == Step(a, first).0;
  }

  /** A stream that broke before the session was complete never delivers anything: the session stays as it is. */
  lemma BrokenStaysIncomplete(a: Assembler, call: Call, id: TransferId)
    requires WellFormed(a) && id in a.contexts
    requires !a.contexts[id].good && a.contexts[id].receivedCount != a.contexts[id].totalChunks
    ensures var a' := Step(a, call).0;
            if call == CancelSession(id) then id !in a'.contexts
            else id in a'.contexts && a'.contexts[id] == a.contexts[id]
    ensures IdOf(call) == id ==> Step(a, call).0.outputs == a.outputs
  {
    hide Crc32.Crc, Sha256.Digest, Hex.Text, NewSession, Accept;
  }

  lemma {:induction false} MissingCount(received: seq<bool>, n: nat)
    requires n <= |received|
    ensures CountTrue(received[..n]) + |Missing(received, n)| == n
  {
    if n > 0 {
      MissingCount(received, n - 1);
      assert received[..n] == received[..n - 1] + [received[n - 1]];
      CountAppend(received[..n - 1], received[n - 1]);
    }
  }

  lemma {:induction false} CountAppend(bits: seq<bool>, b: bool)
    ensures CountTrue(bits + [b]) == CountTrue(bits) + if b then 1 else 0
  {
    if bits != [] {
      assert (bits + [b])[1..] == bits[1..] + [b];
      CountAppend(bits[1..], b);
    }
  }

  /** A call on one id leaves every other session as it was; only a finished session changes an output file. */
  lemma StepFramesOthers(a: Assembler, call: Call, other: TransferId)
    requires WellFormed(a) && other != IdOf(call)
    ensures var a' := Step(a, call).0;
            && (other in a'.contexts <==> other in a.contexts)
            && (other in a.contexts ==> a'.contexts[other] == a.contexts[other])
    ensures var a' := Step(a, call).0;
            forall name :: !(call.Finalize? && call.id in a.contexts && a.contexts[call.id].filename == name) ==>
                             (name in a'.outputs <==> name in a.outputs) &&
                             (name in a.outputs ==> a'.outputs[name] == a.outputs[name])
  {
    hide Crc32.Crc, Sha256.Digest, Hex.Text, Accept, NewSession;
  }

  /** `process_chunk` accepts exactly under `Accepts`; a chunk that fails its checksum changes nothing. */
  lemma ChecksumGuards(a: Assembler, c: Chunk, reply: WriteReply)
    requires WellFormed(a)
    ensures Accepts(a, c, reply) <==>
            Process(a, c, reply).1.Ok? && Process(a, c, reply).0 != a
    ensures Crc32.Crc(c.data) != c.header.checksum ==>
              Process(a, c, reply).0 == a &&
              (Process(a, c, reply).1 == Ok("") ==>
                 c.header.id in a.contexts && c.header.chunkIndex < a.contexts[c.header.id].totalChunks &&
                 a.contexts[c.header.id].received[c.header.chunkIndex])
  {
  }

  /** Which of its outcomes `process_chunk` has; a chunk that was received before is fine and changes nothing. */
  lemma ProcessVerdict(a: Assembler, c: Chunk, reply: WriteReply)
    requires WellFormed(a)
    ensures var (a', r) := Process(a, c, reply);
            var id, i := c.header.id, c.header.chunkIndex;
            var known := id in a.contexts;
            var expected := known && i < a.contexts[id].totalChunks;
            var duplicate := expected && a.contexts[id].received[i];
            var intact := Crc32.Crc(c.data) == c.header.checksum;
            && (r == Err(NotInitialized) <==> !known)
            && (r == Err(InvalidChunkIndex) <==> known && !expected)
            && (duplicate ==> r == Ok("") && a' == a)
            && (r == Err(ChunkChecksumError) <==> expected && !duplicate && !intact)
            && (r == Err(FileWriteError) <==>
                  expected && !duplicate && intact && (!a.contexts[id].good || reply.Broken?))
            && (r.Ok? <==> duplicate || (expected && intact && a.contexts[id].good && reply.Written?))
            && (r.Err? && a' != a ==> a.contexts[id].good && reply.Broken? && intact && !a'.contexts[id].good)
            && a'.outputs == a.outputs
  {
    hide Crc32.Crc, WriteAt;
  }

  /** What an accepted chunk does to its session: one bit, two counters, and the bytes of the file. */
  lemma AcceptedEffect(a: Assembler, c: Chunk, reply: WriteReply)
    requires WellFormed(a) && Accepts(a, c, reply)
    ensures var s, s' := a.contexts[c.header.id], Process(a, c, reply).0.contexts[c.header.id];
            && (forall i :: 0 <= i < s.totalChunks ==>
                              (s'.received[i] <==> s.received[i] || i == c.header.chunkIndex))
            && s'.receivedCount == s.receivedCount + 1 && s'.bytesWritten == s.bytesWritten + |c.data|
            && s'.filename == s.filename && s'.fileSize == s.fileSize && s'.totalChunks == s.totalChunks && s'.good
    ensures var s, s' := a.contexts[c.header.id], Process(a, c, reply).0.contexts[c.header.id];
            FileAfterWrite(s.file, c.header.chunkOffset, c.data, s'.file)
  {
    hide Crc32.Crc, FileAfterWrite;
    WriteFillsGap(a.contexts[c.header.id].file, c.header.chunkOffset, c.data);
    hide WriteAt;
  }

  /** A file before and after a write: the data at its offset, the old bytes around it, zeros in a gap. */
  ghost predicate FileAfterWrite(file: seq<Byte>, offset: nat, data: seq<Byte>, after: seq<Byte>) {
    && (data == [] ==> after == file)
    && (data != [] ==> |after| == if offset + |data| <= |file| then |file| else offset + |data|)
    && (forall p :: 0 <= p < |data| ==> after[offset + p] == data[p])
    && (forall p :: 0 <= p < |after| && !(offset <= p < offset + |data|) ==>
                      after[p] == if p < |file| then file[p] else 0)
  }

  lemma WriteFillsGap(file: seq<Byte>, offset: nat, data: seq<Byte>)
    ensures FileAfterWrite(file, offset, data, WriteAt(file, offset, data))
  {
  }

  /** Which of its failures `finalize` has, and what is left of the session. */
  lemma FinalizeErrors(a: Assembler, id: TransferId, hash: string, opens: bool, renames: bool)
    ensures var (a', r) := FinalizeSession(a, id, hash, opens, renames);
            var known := id in a.contexts;
            var complete := known && a.contexts[id].receivedCount == a.contexts[id].totalChunks;
            var right := hash == "" || (opens && known && Hex.Text(Sha256.Digest(a.contexts[id].file)) == hash);
            && (r == Err(NotInitialized) <==> !known)
            && (r == Err(MissingChunks) <==> known && !complete)
            && (r == Err(FileHashMismatch) <==> complete && !right)
            && (r == Err(FileWriteError) <==> complete && right && !renames)
            && (r == Err(NotInitialized) || r == Err(MissingChunks) ==> a' == a)
            && (r == Err(FileHashMismatch) ==> id !in a'.contexts && a'.outputs == a.outputs)
            && (r == Err(FileWriteError) ==> id in a'.contexts && a'.contexts[id] == a.contexts[id].(good := false))
  {
    hide Sha256.Digest, Hex.Text;
  }

  /** A session starts exactly if its id is free and the file opens; it then awaits every chunk. */
  lemma StartVerdict(a: Assembler, id: TransferId, filename: string, fileSize: nat, totalChunks: nat, opens: bool)
    requires WellFormed(a)
    ensures var (a', r) := Step(a, StartSession(id, filename, fileSize, totalChunks, opens));
            && (r == Err(AlreadyInitialized) <==> id in a.contexts)
            && (r == Err(FileAccessDenied) <==> id !in a.contexts && !opens)
            && (r.Err? ==> a' == a)
            && (r.Ok? ==>
                  && id in a'.contexts && a'.contexts[id].filename == filename
                  && a'.contexts[id].totalChunks == totalChunks && a'.contexts[id].fileSize == fileSize
                  && Missing(a'.contexts[id].received, totalChunks) == seq(totalChunks, i => i)
                  && |a'.contexts[id].file| == fileSize && a'.contexts[id].good)
  {
    AllMissing(totalChunks, totalChunks);
  }

  lemma {:induction false} AllMissing(total: nat, n: nat)
    requires n <= total
    ensures Missing(seq(total, _ => false), n) == seq(n, i => i)
  {
    if n > 0 {
      AllMissing(total, n - 1);
    }
  }

  // ---- The code ------------------------------------------------------------

  datatype Progress = Progress(id: TransferId, totalChunks: nat, receivedChunks: nat, bytesWritten: nat)

  /** `chunk_assembler`; each public method runs under its locks, as one step. */
  class ChunkAssembler {
    var contexts: map<TransferId, Session>
    var outputs: map<string, seq<Byte>>

    function State(): Assembler
      reads this
    {
      Assembler(contexts, outputs)
    }

    ghost predicate Valid()
      reads this
    {
      WellFormed(State())
    }

    constructor ()
      ensures Valid() && State() == EMPTY
    {
      contexts, outputs := map[], map[];
    }

    method StartSession(id: TransferId, filename: string, fileSize: nat, totalChunks: nat, opens: bool)
      returns (r: Result<string>)
      requires Valid()
      modifies this
      ensures Valid()
      ensures (State(), r) == Step(old(State()), Call.StartSession(id, filename, fileSize, totalChunks, opens))
    {
      StepKeepsWellFormed(State(), Call.StartSession(id, filename, fileSize, totalChunks, opens));
      if id in contexts {
        return Err(AlreadyInitialized);
      }
      if !opens {
        return Err(FileAccessDenied);
      }
      var received := seq(totalChunks, _ => false);
      contexts := contexts[id := Session(filename, fileSize, totalChunks, received, 0, 0, Zeros(fileSize), true)];
      r := Ok("");
    }

    method ProcessChunk(c: Chunk, reply: WriteReply) returns (r: Result<string>)
      requires Valid()
      modifies this
      ensures Valid()
      ensures (State(), r) == Step(old(State()), Call.ProcessChunk(c, reply))
    {
      hide Crc32.Crc, WriteAt;
      StepKeepsWellFormed(State(), Call.ProcessChunk(c, reply));
      var id := c.header.id;
      if id !in contexts {
        return Err(NotInitialized);
      }
      var ctx := contexts[id];
      if c.header.chunkIndex >= ctx.totalChunks {
        return Err(InvalidChunkIndex);
      }
      if ctx.received[c.header.chunkIndex] {
        return Ok("");
      }
      var matches := Crc32.VerifyCrc32(c.data, c.header.checksum);
      if !matches {
        return Err(ChunkChecksumError);
      }
      if !ctx.good {
        assert contexts[id := ctx] == contexts;
        return Err(FileWriteError);
      }
      if reply.Broken? {
        var arrived := c.data[..Min(reply.count, |c.data|)];
        contexts := contexts[id := ctx.(good := false, file := WriteAt(ctx.file, c.header.chunkOffset, arrived))];
        return Err(FileWriteError);
      }
      ctx := ctx.(file := WriteAt(ctx.file, c.header.chunkOffset, c.data));
      ctx := ctx.(received := ctx.received[c.header.chunkIndex := true]);
      ctx := ctx.(receivedCount := ctx.receivedCount + 1);
      ctx := ctx.(bytesWritten := ctx.bytesWritten + |c.data|);
      contexts := contexts[id := ctx];
      r := Ok("");
    }

    predicate IsComplete(id: TransferId)
      reads this
    {
      id in contexts && contexts[id].receivedCount == contexts[id].totalChunks
    }

    method GetMissingChunks(id: TransferId) returns (missing: seq<nat>)
      requires Valid()
      ensures missing == if id in contexts then Missing(contexts[id].received, contexts[id].totalChunks) else []
      ensures StrictlyIncreasing(missing)
      ensures forall i: nat ::
                i in missing <==> id in contexts && i < contexts[id].totalChunks && !contexts[id].received[i]
    {
      missing := [];
      if id !in contexts {
        return;
      }
      var ctx := contexts[id];
      for i := 0 to ctx.totalChunks
        invariant missing == Missing(ctx.received, i)
      {
        if !ctx.received[i] {
          missing := missing + [i];
        }
      }
      MissingIsComplement(ctx.received, ctx.totalChunks);
    }

    function GetProgress(id: TransferId): Option<Progress>
      reads this
    {
      if id !in contexts then None
      else
        var s := contexts[id];
        Some(Progress(id, s.totalChunks, s.receivedCount, s.bytesWritten))
    }

    /**
     What the queries say of an object that agrees with the log of accepted
     chunks: complete means that every index was accepted, and progress counts
     the accepted chunks and their bytes.
     */
    lemma QueriesAreExact(log: Log, id: TransferId)
      requires Consistent(State(), log)
      ensures IsComplete(id) <==>
              id in contexts && forall i :: 0 <= i < contexts[id].totalChunks ==> HasIndex(log[id], i)
      ensures GetProgress(id) ==
              if id in contexts then Some(Progress(id, contexts[id].totalChunks, |log[id]|, TotalSize(log[id])))
              else None
    {
      hide HasIndex, DistinctIndices, Replay, TotalSize;
      if id in contexts {
        CompleteIffNothingMissing(contexts[id], log[id]);
      }
    }

    method Finalize(id: TransferId, expectedHash: string, opens: bool, renames: bool) returns (r: Result<string>)
      requires Valid()
      modifies this
      ensures Valid()
      ensures (State(), r) == Step(old(State()), Call.Finalize(id, expectedHash, opens, renames))
    {
      hide Sha256.Digest, Hex.Text;
      StepKeepsWellFormed(State(), Call.Finalize(id, expectedHash, opens, renames));
      if id !in contexts {
        return Err(NotInitialized);
      }
      var ctx := contexts[id];
      if ctx.receivedCount != ctx.totalChunks {
        return Err(MissingChunks);
      }
      ctx := ctx.(good := false);
      if expectedHash != "" {
        var verified := Sha256.VerifySha256(ctx.file, opens, expectedHash);
        if !verified {
          contexts := contexts - {id};
          return Err(FileHashMismatch);
        }
      }
      outputs := outputs - {ctx.filename};
      if !renames {
        contexts := contexts[id := ctx];
        return Err(FileWriteError);
      }
      assert outputs[ctx.filename := ctx.file] == old(outputs)[ctx.filename := ctx.file];
      outputs := outputs[ctx.filename := ctx.file];
      contexts := contexts - {id};
      r := Ok(ctx.filename);
    }

    method CancelSession(id: TransferId)
      requires Valid()
      modifies this
      ensures Valid()
      ensures State() == Step(old(State()), Call.CancelSession(id)).0
    {
      if id !in contexts {
        assert contexts - {id} == contexts;
        return;
      }
      contexts := contexts - {id};
    }
  }
}
