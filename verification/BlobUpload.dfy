/**
 The block upload stream of `azure_blob_storage.cpp` as a step system: the
 caller's writes and finalize calls advance in the small steps between which
 asynchronous block uploads complete in any order, and a server stages blocks
 (Put Block) and commits a list of them (Put Block List).
 */
module BlobUpload {
  import opened Bytes
  import opened BlockIds

  /** A future of `pending_uploads`: still running, finished, or already asked for its result. */
  datatype Status = Running | Ready(ok: bool) | Consumed

  /** `pending_block`: the upload of block `number` with the data its task captured. */
  datatype Pending = Pending(number: nat, data: seq<Byte>, status: Status)

  /** Where the calling thread stands. */
  datatype Control =
    | Idle
    | Writing(rest: seq<Byte>, processed: nat)    // head of the loop in `write`
    | WaitingForSlot(rest: seq<Byte>, processed: nat)
    | Sleeping(rest: seq<Byte>, processed: nat)       // `wait_for_slot`: no slot, sleep and then collect
    | CollectingUploads(rest: seq<Byte>, processed: nat)
    | Launching(rest: seq<Byte>, processed: nat)
    | UploadingLast                               // `finalize`: the synchronous upload of the buffer
    | Joining(next: nat)                          // `wait_all_uploads`
    | Committing

  datatype Committed = Nothing | Blob(content: seq<Byte>)

  /**
   The stream, the server and the calling thread. The last five fields record
   history: the bytes copied into the buffer, the bytes handed to `write`,
   the numbers and data behind `blockIds`, how many finalize calls failed
   after naming their last block, and whether any call failed.
   */
  datatype State = State(
    partSize: nat,
    maxParallel: nat,
    buffer: seq<Byte>,
    blockIds: seq<string>,
    number: nat,
    bytesWritten: nat,
    finalized: bool,
    aborted: bool,
    pending: seq<Pending>,
    staged: map<string, seq<Byte>>,
    committed: Committed,
    control: Control,
    accepted: seq<Byte>,
    handed: seq<Byte>,
    blocks: seq<(nat, seq<Byte>)>,
    brokenFinals: nat,
    anyFailure: bool)

  datatype Event =
    | Write(data: seq<Byte>)
    | Finalize
    | Abort
    | Advance                                         // the calling thread takes its next step
    | UploadEnds(index: nat, ok: bool, stages: bool)  // an asynchronous upload finishes
    | LastUploadEnds(ok: bool, stages: bool)
    | CommitReply(ok: bool)

  function Init(partSize: nat, maxParallel: nat): State {
    State(partSize, maxParallel, [], [], 0, 0, false, false, [], map[], Nothing, Idle, [], [], [], 0, false)
  }

  /** `get_active_upload_count` */
  function ActiveCount(pending: seq<Pending>): (n: nat)
    ensures n <= |pending|
  {
    if pending == [] then 0
    else ActiveCount(pending[..|pending| - 1]) + if pending[|pending| - 1].status.Running? then 1 else 0
  }

  /** `collect_completed_uploads`: drops finished uploads, stops at the first failed one. */
  function Collect(pending: seq<Pending>): (r: (seq<Pending>, bool)) {
    if pending == [] then ([], true)
    else
      match pending[0].status
      case Consumed => Collect(pending[1..])
      case Running => var (rest, ok) := Collect(pending[1..]); ([pending[0]] + rest, ok)
      case Ready(true) => Collect(pending[1..])
      case Ready(false) => ([pending[0].(status := Consumed)] + pending[1..], false)
  }

  /** What Put Block does to the staged blocks; a failed upload may still have reached the server. */
  function Stage(s: State, number: nat, data: seq<Byte>, stages: bool): map<string, seq<Byte>> {
    if stages then s.staged[BlockId(number) := data] else s.staged
  }

  function Fail(s: State): State {
    s.(control := Idle, anyFailure := true)
  }

  /** Appends a block id, as `write` and `finalize` do before the upload. */
  function NameBlock(s: State): State {
    s.(blockIds := s.blockIds + [BlockId(s.number)], blocks := s.blocks + [(s.number, s.buffer)])
  }

  /** A finalize call fails; if it had named its last block, that block stays in the list. */
  function FailFinal(s: State): State {
    if s.buffer != [] then Fail(s).(brokenFinals := s.brokenFinals + 1) else Fail(s)
  }

  /** The loop head of `write`: copy what fits, or return when everything is copied. */
  function CopyStep(s: State, rest: seq<Byte>, processed: nat): State {
    if rest == [] then s.(control := Idle, bytesWritten := s.bytesWritten + processed)
    else
      var n := Min(|rest|, if |s.buffer| <= s.partSize then s.partSize - |s.buffer| else 0);
      var s' := s.(buffer := s.buffer + rest[..n], accepted := s.accepted + rest[..n]);
      if |s'.buffer| >= s.partSize then s'.(control := WaitingForSlot(rest[n..], processed + n))
      else s'.(control := Writing(rest[n..], processed + n))
  }

  /** The test of `wait_for_slot`. */
  function SlotStep(s: State, rest: seq<Byte>, processed: nat): State {
    if ActiveCount(s.pending) < s.maxParallel then s.(control := CollectingUploads(rest, processed))
    else s.(control := Sleeping(rest, processed))
  }

  /** After the sleep in `wait_for_slot`. */
  function WakeStep(s: State, rest: seq<Byte>, processed: nat): State {
    var (pending, ok) := Collect(s.pending);
    if ok then s.(pending := pending, control := WaitingForSlot(rest, processed)) else Fail(s.(pending := pending))
  }

  function CollectStep(s: State, rest: seq<Byte>, processed: nat): State {
    var (pending, ok) := Collect(s.pending);
    if ok then s.(pending := pending, control := Launching(rest, processed)) else Fail(s.(pending := pending))
  }

  /** Names the full buffer as the next block and starts its upload. */
  function LaunchStep(s: State, rest: seq<Byte>, processed: nat): State {
    NameBlock(s).(pending := s.pending + [Pending(s.number, s.buffer, Running)],
                  number := s.number + 1,
                  buffer := [],
                  control := Writing(rest, processed))
  }

  /** `wait_all_uploads` at its `next`-th future; it blocks on a running one. */
  function JoinStep(s: State, next: nat): State {
    if next >= |s.pending| then s.(pending := [], finalized := true, control := Committing)
    else
      match s.pending[next].status
      case Running => s
      case Consumed => s.(control := Joining(next + 1))
      case Ready(ok) =>
        var s' := s.(pending := s.pending[next := s.pending[next].(status := Consumed)]);
        if ok then s'.(control := Joining(next + 1)) else FailFinal(s')
  }

  function AdvanceCaller(s: State): State {
    match s.control
    case Writing(rest, processed) => CopyStep(s, rest, processed)
    case WaitingForSlot(rest, processed) => SlotStep(s, rest, processed)
    case Sleeping(rest, processed) => WakeStep(s, rest, processed)
    case CollectingUploads(rest, processed) => CollectStep(s, rest, processed)
    case Launching(rest, processed) => LaunchStep(s, rest, processed)
    case Joining(next) => JoinStep(s, next)
    case Idle => s
    case UploadingLast => s
    case Committing => s
  }

  /** Put Block List accepts a list only if every block in it is staged. */
  predicate AllStaged(ids: seq<string>, staged: map<string, seq<Byte>>) {
    forall k :: 0 <= k < |ids| ==> ids[k] in staged
  }

  function StagedParts(ids: seq<string>, staged: map<string, seq<Byte>>): seq<seq<Byte>>
    requires AllStaged(ids, staged)
  {
    seq(|ids|, k requires 0 <= k < |ids| => staged[ids[k]])
  }

  /** One event; an event that cannot happen in the state leaves it as it is. */
  function Next(s: State, e: Event): State {
    match e
    case Write(data) =>
      if s.control != Idle || s.finalized || s.aborted then s
      else s.(control := Writing(data, 0), handed := s.handed + data)
    case Finalize =>
      if s.control != Idle || s.finalized || s.aborted then s
      else if s.buffer != [] then NameBlock(s).(control := UploadingLast)
      else s.(control := Joining(0))
    case Abort =>
      if s.control != Idle then s else s.(aborted := true)
    case Advance => AdvanceCaller(s)
    case UploadEnds(i, ok, stages) =>
      if i >= |s.pending| || !s.pending[i].status.Running? then s
      else
        var p := s.pending[i];
        s.(pending := s.pending[i := p.(status := Ready(ok))], staged := Stage(s, p.number, p.data, ok || stages))
    case LastUploadEnds(ok, stages) =>
      if s.control != UploadingLast then s
      else
        var s' := s.(staged := Stage(s, s.number, s.buffer, ok || stages));
        if ok then s'.(control := Joining(0)) else FailFinal(s')
    case CommitReply(ok) =>
      if s.control != Committing then s
      else if ok && AllStaged(s.blockIds, s.staged) then
        s.(committed := Blob(Concat(StagedParts(s.blockIds, s.staged))), staged := map[], control := Idle)
      else FailFinal(s)
  }

  function Run(s: State, events: seq<Event>): State {
    if events == [] then s else Next(Run(s, events[..|events| - 1]), events[|events| - 1])
  }

  // ---- Concurrency cap -----------------------------------------------------

  ghost predicate Capped(s: State) {
    && ActiveCount(s.pending) <= s.maxParallel
    && (s.control.CollectingUploads? || s.control.Launching? ==> ActiveCount(s.pending) < s.maxParallel)
  }

  lemma {:induction false} ActiveOfConcat(a: seq<Pending>, b: seq<Pending>)
    ensures ActiveCount(a + b) == ActiveCount(a) + ActiveCount(b)
    decreases |b|
  {
    if b == [] {
      assert a + b == a;
    } else {
      assert (a + b)[..|a + b| - 1] == a + b[..|b| - 1];
      ActiveOfConcat(a, b[..|b| - 1]);
    }
  }

  lemma ActiveOfOne(p: Pending)
    ensures ActiveCount([p]) == if p.status.Running? then 1 else 0
  {
  }

  lemma ActiveAfterChange(pending: seq<Pending>, i: nat, p: Pending)
    requires i < |pending| && !p.status.Running?
    ensures ActiveCount(pending[i := p]) <= ActiveCount(pending)
    ensures !pending[i].status.Running? ==> ActiveCount(pending[i := p]) == ActiveCount(pending)
  {
    assert pending == pending[..i] + [pending[i]] + pending[i + 1..];
    assert pending[i := p] == pending[..i] + [p] + pending[i + 1..];
    ActiveOfConcat(pending[..i] + [pending[i]], pending[i + 1..]);
    ActiveOfConcat(pending[..i] + [p], pending[i + 1..]);
    ActiveOfConcat(pending[..i], [pending[i]]);
    ActiveOfConcat(pending[..i], [p]);
    ActiveOfOne(pending[i]);
    ActiveOfOne(p);
  }

  /** Collecting removes no running upload. */
  lemma {:induction false} ActiveAfterCollect(pending: seq<Pending>)
    ensures ActiveCount(Collect(pending).0) == ActiveCount(pending)
  {
    if pending != [] {
      var p, rest := pending[0], pending[1..];
      assert pending == [p] + rest;
      ActiveOfConcat([p], rest);
      ActiveOfOne(p);
      ActiveAfterCollect(rest);
      match p.status
      case Running => ActiveOfConcat([p], Collect(rest).0);
      case Ready(ok) =>
        if !ok {
          ActiveOfConcat([p.(status := Consumed)], rest);
          ActiveOfOne(p.(status := Consumed));
        }
      case Consumed =>
    }
  }

  lemma LaunchCapped(s: State, rest: seq<Byte>, processed: nat)
    requires ActiveCount(s.pending) < s.maxParallel
    ensures Capped(LaunchStep(s, rest, processed)) && LaunchStep(s, rest, processed).maxParallel == s.maxParallel
  {
  }

  lemma JoinCapped(s: State, next: nat)
    requires Capped(s) && s.control == Joining(next)
    ensures Capped(JoinStep(s, next)) && JoinStep(s, next).maxParallel == s.maxParallel
  {
    hide ActiveCount;
    ActiveOfNone();
    if next < |s.pending| && s.pending[next].status.Ready? {
      ActiveAfterChange(s.pending, next, s.pending[next].(status := Consumed));
    }
  }

  lemma AdvanceCapped(s: State)
    requires Capped(s)
    ensures Capped(AdvanceCaller(s)) && AdvanceCaller(s).maxParallel == s.maxParallel
  {
    hide ActiveCount, Collect, Min, LaunchStep, JoinStep;
    ActiveAfterCollect(s.pending);
    match s.control {
      case Launching(rest, processed) => LaunchCapped(s, rest, processed);
      case Joining(next) => JoinCapped(s, next);
      case _ =>
    }
  }

  lemma NextCapped(s: State, e: Event)
    requires Capped(s)
    ensures Capped(Next(s, e)) && Next(s, e).maxParallel == s.maxParallel
  {
    hide ActiveCount, Collect, Concat, BlockId, AdvanceCaller;
    match e {
      case UploadEnds(i, ok, _) =>
        if i < |s.pending| && s.pending[i].status.Running? {
          ActiveAfterChange(s.pending, i, s.pending[i].(status := Ready(ok)));
        }
      case Advance => AdvanceCapped(s);
      case _ =>
    }
  }

  function RunningUploads(pending: seq<Pending>): set<nat> {
    set i | 0 <= i < |pending| && pending[i].status.Running?
  }

  /** The count is the number of the unfinished uploads. */
  lemma {:induction false} ActiveIsNumber(pending: seq<Pending>)
    ensures ActiveCount(pending) == |RunningUploads(pending)|
  {
    if pending != [] {
      var n := |pending| - 1;
      var before := pending[..n];
      ActiveIsNumber(before);
      assert RunningUploads(pending) ==
             RunningUploads(before) + if pending[n].status.Running? then {n} else {};
    }
  }

  lemma ActiveOfNone()
    ensures ActiveCount([]) == 0
  {
  }

  /** Whatever the completion schedule, at most `maxParallel` asynchronous uploads are unfinished at any step. */
  lemma {:induction false} NeverOverCap(partSize: nat, maxParallel: nat, events: seq<Event>)
    ensures Capped(Run(Init(partSize, maxParallel), events))
    ensures Run(Init(partSize, maxParallel), events).maxParallel == maxParallel
    ensures |RunningUploads(Run(Init(partSize, maxParallel), events).pending)| <= maxParallel
  {
    hide Next, ActiveCount, RunningUploads;
    ActiveIsNumber(Run(Init(partSize, maxParallel), events).pending);
    if events == [] {
      ActiveOfNone();
    } else {
      NeverOverCap(partSize, maxParallel, events[..|events| - 1]);
      NextCapped(Run(Init(partSize, maxParallel), events[..|events| - 1]), events[|events| - 1]);
    }
  }

  // ---- The blocks and their names ------------------------------------------

  /** The block that `finalize` names last is in the list although it has no number of its own yet. */
  predicate LastNamed(s: State) {
    && s.buffer != []
    && (s.control.UploadingLast? || s.control.Joining? || s.control.Committing? || s.committed.Blob?)
  }

  /** `write` has filled the buffer and not yet launched it. */
  predicate HasFullBuffer(c: Control) {
    c.WaitingForSlot? || c.Sleeping? || c.CollectingUploads? || c.Launching?
  }

  /** The phases of the stream. */
  ghost predicate Phases(s: State) {
    && s.partSize > 0 && |s.buffer| <= s.partSize
    && (HasFullBuffer(s.control) ==> |s.buffer| == s.partSize)
    && (s.control.Committing? || s.committed.Blob? ==> s.finalized)
    && (s.finalized ==> s.control.Idle? || s.control.Committing?)
    && (s.committed.Blob? ==> s.control.Idle?)
  }

  /** The names are those of the launched blocks, of the last block once named, and of one block per broken finalize. */
  ghost predicate Names(s: State) {
    && |s.blockIds| == |s.blocks| == s.number + (if LastNamed(s) then 1 else 0) + s.brokenFinals
    && (forall k :: 0 <= k < |s.blocks| ==> s.blockIds[k] == BlockId(s.blocks[k].0))
    && (forall k :: 0 <= k < |s.blocks| ==> s.blocks[k].0 < s.number + if s.buffer != [] then 1 else 0)
  }

  function Data(blocks: seq<(nat, seq<Byte>)>): (d: seq<seq<Byte>>)
    ensures |d| == |blocks|
  {
    seq(|blocks|, k requires 0 <= k < |blocks| => blocks[k].1)
  }

  /** As long as no finalize broke: the launched blocks and the buffer, in order, are the accepted bytes. */
  ghost predicate Placement(s: State) {
    s.brokenFinals == 0 ==>
      && s.number <= |s.blocks|
      && (forall k :: 0 <= k < |s.blocks| ==> s.blocks[k].0 == k)
      && (forall k :: 0 <= k < s.number ==> |s.blocks[k].1| == s.partSize)
      && (LastNamed(s) ==> |s.blocks| > s.number && s.blocks[s.number].1 == s.buffer)
      && s.accepted == Concat(Data(s.blocks[..s.number])) + s.buffer
  }

  /** As long as no finalize broke: every upload and every staged block carries its own block's data. */
  ghost predicate Uploads(s: State) {
    s.brokenFinals == 0 ==>
      && (forall i :: 0 <= i < |s.pending| ==> Carries(s, s.pending[i]))
      && (forall k: nat :: BlockId(k) in s.staged ==> k < |s.blocks| && s.staged[BlockId(k)] == s.blocks[k].1)
      && (s.committed.Blob? ==> s.committed.content == s.accepted)
  }

  ghost predicate Carries(s: State, p: Pending) {
    p.number < s.number && p.number < |s.blocks| && p.data == s.blocks[p.number].1
  }

  ghost predicate Inv(s: State) {
    Phases(s) && Names(s) && Placement(s) && Uploads(s)
  }

  lemma {:induction false} CollectKeepsMembers(pending: seq<Pending>, s: State)
    requires forall i :: 0 <= i < |pending| ==> Carries(s, pending[i])
    ensures forall i :: 0 <= i < |Collect(pending).0| ==> Carries(s, Collect(pending).0[i])
  {
    if pending != [] {
      CollectKeepsMembers(pending[1..], s);
    }
  }

  /** Changing only the list of pending uploads, the control or the failure flag between writes keeps the invariant. */
  lemma PendingChange(s: State, pending: seq<Pending>, control: Control, anyFailure: bool)
    requires Inv(s) && !s.finalized && !LastNamed(s)
    requires s.brokenFinals == 0 ==> forall i :: 0 <= i < |pending| ==> Carries(s, pending[i])
    requires control.Idle? || (HasFullBuffer(control) && HasFullBuffer(s.control) && !s.control.Launching?)
    ensures Inv(s.(pending := pending, control := control, anyFailure := anyFailure))
  {
    hide BlockId, Concat, Data;
  }

  lemma CopyKeepsUploads(s: State, rest: seq<Byte>, processed: nat)
    requires Uploads(s) && !s.committed.Blob?
    ensures Uploads(CopyStep(s, rest, processed))
  {
    hide BlockId, Concat, Data, Min;
    if s.brokenFinals == 0 {
      forall i | 0 <= i < |s.pending|
        ensures Carries(CopyStep(s, rest, processed), s.pending[i])
      {
        assert Carries(s, s.pending[i]);
      }
    }
  }

  lemma CopyKeepsPlacement(s: State, rest: seq<Byte>, processed: nat)
    requires Placement(s) && s.control.Writing? && !s.committed.Blob?
    ensures Placement(CopyStep(s, rest, processed))
  {
    hide BlockId, Concat, Data;
    var n := Min(|rest|, if |s.buffer| <= s.partSize then s.partSize - |s.buffer| else 0);
    if s.brokenFinals == 0 {
      var sent := Concat(Data(s.blocks[..s.number]));
      assert sent + s.buffer + rest[..n] == sent + (s.buffer + rest[..n]);
    }
  }

  lemma CopyKeepsNames(s: State, rest: seq<Byte>, processed: nat)
    requires Phases(s) && Names(s) && s.control == Writing(rest, processed)
    ensures Phases(CopyStep(s, rest, processed)) && Names(CopyStep(s, rest, processed))
  {
    hide BlockId;
  }

  lemma CopyKeeps(s: State, rest: seq<Byte>, processed: nat)
    requires Inv(s) && s.control == Writing(rest, processed)
    ensures Inv(CopyStep(s, rest, processed))
  {
    CopyKeepsNames(s, rest, processed);
    NotCommitted(s);
    CopyKeepsUploads(s, rest, processed);
    CopyKeepsPlacement(s, rest, processed);
    hide Phases, Names, Placement, Uploads, CopyStep;
  }

  lemma SlotKeeps(s: State, rest: seq<Byte>, processed: nat)
    requires Inv(s) && s.control == WaitingForSlot(rest, processed)
    ensures Inv(SlotStep(s, rest, processed))
  {
    hide ActiveCount, Collect, Inv;
    assert !s.finalized && !LastNamed(s) by { ControlFacts(s); }
    if s.brokenFinals == 0 {
      CarriedNow(s);
    }
    PendingChange(s, s.pending, Sleeping(rest, processed), s.anyFailure);
    PendingChange(s, s.pending, CollectingUploads(rest, processed), s.anyFailure);
  }

  lemma WakeKeeps(s: State, rest: seq<Byte>, processed: nat)
    requires Inv(s) && s.control == Sleeping(rest, processed)
    ensures Inv(WakeStep(s, rest, processed))
  {
    hide Collect, Inv;
    assert !s.finalized && !LastNamed(s) by { ControlFacts(s); }
    if s.brokenFinals == 0 {
      CarriedNow(s);
      CollectKeepsMembers(s.pending, s);
    }
    var (pending, ok) := Collect(s.pending);
    PendingChange(s, pending, WaitingForSlot(rest, processed), s.anyFailure);
    PendingChange(s, pending, Idle, true);
  }

  lemma CollectKeeps(s: State, rest: seq<Byte>, processed: nat)
    requires Inv(s) && s.control == CollectingUploads(rest, processed)
    ensures Inv(CollectStep(s, rest, processed))
  {
    hide Collect, Inv;
    assert !s.finalized && !LastNamed(s) by { ControlFacts(s); }
    if s.brokenFinals == 0 {
      CarriedNow(s);
      CollectKeepsMembers(s.pending, s);
    }
    var (pending, ok) := Collect(s.pending);
    PendingChange(s, pending, Launching(rest, processed), s.anyFailure);
    PendingChange(s, pending, Idle, true);
  }

  lemma ControlFacts(s: State)
    requires Inv(s)
    ensures !s.control.Idle? && !s.control.Committing? ==> !s.finalized
    ensures !s.finalized && !s.control.UploadingLast? && !s.control.Joining? ==> !LastNamed(s)
  {
    hide BlockId, Concat, Data;
  }

  lemma CarriedNow(s: State)
    requires Inv(s) && s.brokenFinals == 0
    ensures forall i :: 0 <= i < |s.pending| ==> Carries(s, s.pending[i])
  {
    hide BlockId, Concat, Data;
  }

  lemma DataAppend(blocks: seq<(nat, seq<Byte>)>, b: (nat, seq<Byte>))
    ensures Concat(Data(blocks + [b])) == Concat(Data(blocks)) + b.1
  {
    assert Data(blocks + [b]) == Data(blocks) + [b.1];
    ConcatAppend(Data(blocks), b.1);
  }

  lemma LaunchKeeps(s: State, rest: seq<Byte>, processed: nat)
    requires Inv(s) && s.control == Launching(rest, processed)
    ensures Inv(LaunchStep(s, rest, processed))
  {
    hide BlockId, Concat, Data;
    var s' := LaunchStep(s, rest, processed);
    if s.brokenFinals == 0 {
      var b := (s.number, s.buffer);
      assert s.blocks[..s.number] == s.blocks && s'.blocks[..s'.number] == s.blocks + [b];
      DataAppend(s.blocks, b);
      forall i | 0 <= i < |s'.pending|
        ensures Carries(s', s'.pending[i])
      {
        if i < |s.pending| {
          assert Carries(s, s.pending[i]);
        }
      }
    }
  }

  /** A failing finalize leaves the invariant intact; if it had named its last block, it counts as broken. */
  lemma FailFinalKeeps(s: State)
    requires Inv(s) && (s.control.UploadingLast? || s.control.Joining? || s.control.Committing?) && !s.committed.Blob?
    ensures Inv(FailFinal(s))
  {
    hide BlockId, Concat, Data;
  }

  lemma ConsumeKeeps(s: State, next: nat)
    requires Inv(s) && s.control == Joining(next) && next < |s.pending|
    ensures Inv(s.(pending := s.pending[next := s.pending[next].(status := Consumed)]))
    ensures Inv(s.(pending := s.pending[next := s.pending[next].(status := Consumed)], control := Joining(next + 1)))
    ensures Inv(s.(control := Joining(next + 1)))
  {
    hide BlockId, Concat, Data;
    if s.brokenFinals == 0 {
      assert Carries(s, s.pending[next]);
      forall i | 0 <= i < |s.pending|
        ensures Carries(s, s.pending[i])
      {
      }
    }
  }

  lemma JoinKeeps(s: State, next: nat)
    requires Inv(s) && s.control == Joining(next)
    ensures Inv(JoinStep(s, next))
  {
    ControlFacts(s);
    if next >= |s.pending| {
      JoinEndKeeps(s, next);
    } else {
      ConsumeKeeps(s, next);
      hide Inv;
      if s.pending[next].status == Ready(false) {
        var s' := s.(pending := s.pending[next := s.pending[next].(status := Consumed)]);
        assert !s'.committed.Blob? by { NotCommitted(s); }
        FailFinalKeeps(s');
      }
    }
  }

  lemma NotCommitted(s: State)
    requires Inv(s) && !s.control.Idle?
    ensures !s.committed.Blob?
  {
    hide BlockId, Concat, Data;
  }

  lemma JoinEndKeeps(s: State, next: nat)
    requires Inv(s) && s.control == Joining(next) && next >= |s.pending|
    ensures Inv(JoinStep(s, next))
  {
    hide BlockId, Concat, Data;
  }

  lemma AdvanceKeeps(s: State)
    requires Inv(s)
    ensures Inv(AdvanceCaller(s))
  {
    hide Inv, CopyStep, SlotStep, WakeStep, CollectStep, LaunchStep, JoinStep;
    match s.control {
      case Writing(rest, processed) => CopyKeeps(s, rest, processed);
      case WaitingForSlot(rest, processed) => SlotKeeps(s, rest, processed);
      case Sleeping(rest, processed) => WakeKeeps(s, rest, processed);
      case CollectingUploads(rest, processed) => CollectKeeps(s, rest, processed);
      case Launching(rest, processed) => LaunchKeeps(s, rest, processed);
      case Joining(next) => JoinKeeps(s, next);
      case _ =>
    }
  }

  lemma WriteKeeps(s: State, data: seq<Byte>)
    requires Inv(s)
    ensures Inv(Next(s, Write(data)))
  {
    hide BlockId, Concat, Data;
  }

  lemma AbortKeeps(s: State)
    requires Inv(s)
    ensures Inv(Next(s, Abort))
  {
    hide BlockId, Concat, Data;
  }

  lemma FinalizeKeeps(s: State)
    requires Inv(s)
    ensures Inv(Next(s, Finalize))
  {
    hide BlockId, Concat, Data;
    var s' := Next(s, Finalize);
    if s.control == Idle && !s.finalized && !s.aborted && s.buffer != [] && s.brokenFinals == 0 {
      assert s'.blocks[..s'.number] == s.blocks[..s.number];
      forall i | 0 <= i < |s'.pending|
        ensures Carries(s', s'.pending[i])
      {
        assert Carries(s, s.pending[i]);
      }
    }
  }

  /** Staging a block's own data keeps the staged blocks right: no other block has its id. */
  lemma StageKeeps(s: State, number: nat, data: seq<Byte>, stages: bool)
    requires Inv(s) && !s.committed.Blob?
    requires s.brokenFinals == 0 ==> number < |s.blocks| && data == s.blocks[number].1
    ensures Inv(s.(staged := Stage(s, number, data, stages)))
  {
    hide Concat, Data;
    var s' := s.(staged := Stage(s, number, data, stages));
    if s.brokenFinals == 0 {
      forall k: nat | BlockId(k) in s'.staged
        ensures k < |s.blocks| && s'.staged[BlockId(k)] == s.blocks[k].1
      {
        if BlockId(k) == BlockId(number) {
          BlockIdInjective(k, number);
        }
      }
      forall i | 0 <= i < |s.pending|
        ensures Carries(s', s.pending[i])
      {
        assert Carries(s, s.pending[i]);
      }
    }
  }

  lemma PendingStatusKeeps(s: State, i: nat, status: Status)
    requires Inv(s) && i < |s.pending|
    ensures Inv(s.(pending := s.pending[i := s.pending[i].(status := status)]))
  {
    hide BlockId, Concat, Data;
    if s.brokenFinals == 0 {
      forall j | 0 <= j < |s.pending|
        ensures Carries(s, s.pending[j])
      {
      }
    }
  }

  /** The pending list is empty once the stream is finalized, so no upload ends after the commit. */
  ghost predicate Quiet(s: State) {
    s.finalized ==> s.pending == []
  }

  lemma AdvanceQuiet(s: State)
    requires Phases(s) && Quiet(s)
    ensures Quiet(AdvanceCaller(s))
  {
    hide BlockId, ActiveCount, Collect, Min;
  }

  lemma NextQuiet(s: State, e: Event)
    requires Inv(s) && Quiet(s)
    ensures Quiet(Next(s, e))
  {
    hide BlockId, Concat, Data, Names, Placement, Uploads, AllStaged, StagedParts, Stage, AdvanceCaller;
    if e.Advance? {
      AdvanceQuiet(s);
    }
  }

  lemma UploadEndsKeeps(s: State, i: nat, ok: bool, stages: bool)
    requires Inv(s) && Quiet(s)
    ensures Inv(Next(s, UploadEnds(i, ok, stages)))
  {
    if i < |s.pending| && s.pending[i].status.Running? {
      var p := s.pending[i];
      if s.brokenFinals == 0 {
        CarriedNow(s);
        assert Carries(s, p);
      }
      hide Names, Placement, Uploads, Stage;
      StageKeeps(s, p.number, p.data, ok || stages);
      PendingStatusKeeps(s.(staged := Stage(s, p.number, p.data, ok || stages)), i, Ready(ok));
    }
  }

  lemma UploadedLastKeeps(s: State)
    requires Inv(s) && s.control.UploadingLast?
    ensures Inv(s.(control := Joining(0)))
  {
    hide BlockId, Concat, Data;
  }

  lemma LastNamedBlock(s: State)
    requires Inv(s) && s.control.UploadingLast? && s.buffer != []
    ensures s.brokenFinals == 0 ==> s.number < |s.blocks| && s.blocks[s.number].1 == s.buffer
  {
    hide BlockId, Concat, Data;
  }

  lemma LastUploadEndsKeeps(s: State, ok: bool, stages: bool)
    requires Inv(s) && (s.control.UploadingLast? ==> s.buffer != [])
    ensures Inv(Next(s, LastUploadEnds(ok, stages)))
  {
    hide Inv, Stage;
    if s.control.UploadingLast? {
      NotCommitted(s);
      LastNamedBlock(s);
      var s' := s.(staged := Stage(s, s.number, s.buffer, ok || stages));
      StageKeeps(s, s.number, s.buffer, ok || stages);
      UploadedLastKeeps(s');
      FailFinalKeeps(s');
    }
  }

  /** What Put Block List assembles from an unbroken list is the accepted byte string. */
  lemma CommittedContent(s: State)
    requires Inv(s) && s.brokenFinals == 0 && s.control.Committing? && AllStaged(s.blockIds, s.staged)
    ensures Concat(StagedParts(s.blockIds, s.staged)) == s.accepted
  {
    hide BlockId, Concat, Data;
    forall k | 0 <= k < |s.blockIds|
      ensures s.staged[s.blockIds[k]] == s.blocks[k].1
    {
      assert s.blocks[k].0 == k && s.blockIds[k] == BlockId(k);
    }
    DataAt(s.blocks);
    assert StagedParts(s.blockIds, s.staged) == Data(s.blocks);
    if LastNamed(s) {
      assert s.blocks == s.blocks[..s.number] + [s.blocks[s.number]];
      DataAppend(s.blocks[..s.number], s.blocks[s.number]);
    } else {
      assert s.blocks[..s.number] == s.blocks;
    }
  }

  lemma DataAt(blocks: seq<(nat, seq<Byte>)>)
    ensures forall k :: 0 <= k < |blocks| ==> Data(blocks)[k] == blocks[k].1
  {
  }

  lemma CommitKeeps(s: State, content: seq<Byte>)
    requires Inv(s) && Quiet(s) && s.control.Committing?
    requires s.brokenFinals == 0 ==> content == s.accepted
    ensures Inv(s.(committed := Blob(content), staged := map[], control := Idle))
  {
    hide BlockId, Concat, Data;
  }

  lemma CommitReplyKeeps(s: State, ok: bool)
    requires Inv(s) && Quiet(s)
    ensures Inv(Next(s, CommitReply(ok)))
  {
    hide Inv, Quiet, StagedParts, Concat, AllStaged;
    if s.control.Committing? {
      NotCommitted(s);
      if ok && AllStaged(s.blockIds, s.staged) {
        if s.brokenFinals == 0 {
          CommittedContent(s);
        }
        CommitKeeps(s, Concat(StagedParts(s.blockIds, s.staged)));
      } else {
        FailFinalKeeps(s);
      }
    }
  }

  /** The synchronous upload is under way only for a non-empty buffer. */
  ghost predicate LastHasData(s: State) {
    s.control.UploadingLast? ==> s.buffer != []
  }

  /** No step of the calling thread enters the synchronous upload; `finalize` does. */
  lemma WritingControls(s: State, rest: seq<Byte>, processed: nat)
    ensures !CopyStep(s, rest, processed).control.UploadingLast? && !SlotStep(s, rest, processed).control.UploadingLast?
    ensures !LaunchStep(s, rest, processed).control.UploadingLast?
  {
    hide BlockId, ActiveCount, Min;
  }

  lemma CollectingControls(s: State, rest: seq<Byte>, processed: nat)
    ensures !WakeStep(s, rest, processed).control.UploadingLast?
    ensures !CollectStep(s, rest, processed).control.UploadingLast?
  {
    hide Collect;
  }

  lemma JoiningControl(s: State, next: nat)
    requires s.control.Joining?
    ensures !JoinStep(s, next).control.UploadingLast?
  {
  }

  lemma AdvanceHasData(s: State)
    requires LastHasData(s)
    ensures LastHasData(AdvanceCaller(s))
  {
    hide CopyStep, SlotStep, WakeStep, CollectStep, LaunchStep, JoinStep;
    match s.control {
      case Writing(rest, processed) => WritingControls(s, rest, processed);
      case WaitingForSlot(rest, processed) => WritingControls(s, rest, processed);
      case Sleeping(rest, processed) => CollectingControls(s, rest, processed);
      case CollectingUploads(rest, processed) => CollectingControls(s, rest, processed);
      case Launching(rest, processed) => WritingControls(s, rest, processed);
      case Joining(next) => JoiningControl(s, next);
      case _ =>
    }
  }

  lemma NextHasData(s: State, e: Event)
    requires LastHasData(s)
    ensures LastHasData(Next(s, e))
  {
    hide BlockId, Concat, AllStaged, StagedParts, Stage, AdvanceCaller;
    if e.Advance? {
      AdvanceHasData(s);
    }
  }

  lemma NextKeeps(s: State, e: Event)
    requires Inv(s) && Quiet(s) && LastHasData(s)
    ensures Inv(Next(s, e)) && Quiet(Next(s, e)) && LastHasData(Next(s, e))
  {
    hide Inv, Quiet, LastHasData, AdvanceCaller;
    NextQuiet(s, e);
    NextHasData(s, e);
    match e {
      case Write(data) => WriteKeeps(s, data);
      case Finalize => FinalizeKeeps(s);
      case Abort => AbortKeeps(s);
      case Advance => AdvanceKeeps(s);
      case UploadEnds(i, ok, stages) => UploadEndsKeeps(s, i, ok, stages);
      case LastUploadEnds(ok, stages) =>
        assert s.control.UploadingLast? ==> s.buffer != [] by { LastUploadHasData(s); }
        LastUploadEndsKeeps(s, ok, stages);
      case CommitReply(ok) => CommitReplyKeeps(s, ok);
    }
  }

  lemma LastUploadHasData(s: State)
    requires LastHasData(s)
    ensures s.control.UploadingLast? ==> s.buffer != []
  {
  }

  lemma InitInv(partSize: nat, maxParallel: nat)
    requires partSize > 0
    ensures var s := Init(partSize, maxParallel); Inv(s) && Quiet(s) && LastHasData(s)
  {
  }

  lemma {:induction false} RunInv(partSize: nat, maxParallel: nat, events: seq<Event>)
    requires partSize > 0
    ensures var s := Run(Init(partSize, maxParallel), events); Inv(s) && Quiet(s) && LastHasData(s)
  {
    hide Inv, Quiet, LastHasData, Next;
    if events == [] {
      InitInv(partSize, maxParallel);
    } else {
      RunInv(partSize, maxParallel, events[..|events| - 1]);
      NextKeeps(Run(Init(partSize, maxParallel), events[..|events| - 1]), events[|events| - 1]);
    }
  }

  // ---- The accounts of an error-free run -----------------------------------

  function Rest(c: Control): seq<Byte> {
    match c
    case Writing(rest, _) => rest
    case WaitingForSlot(rest, _) => rest
    case Sleeping(rest, _) => rest
    case CollectingUploads(rest, _) => rest
    case Launching(rest, _) => rest
    case _ => []
  }

  function Processed(c: Control): nat {
    match c
    case Writing(_, n) => n
    case WaitingForSlot(_, n) => n
    case Sleeping(_, n) => n
    case CollectingUploads(_, n) => n
    case Launching(_, n) => n
    case _ => 0
  }

  /** Without a failed call: accepted is what was handed over, and between calls the buffer is not full. */
  ghost predicate Accounts(s: State) {
    !s.anyFailure ==>
      && s.brokenFinals == 0
      && s.handed == s.accepted + Rest(s.control)
      && s.bytesWritten + Processed(s.control) == |s.accepted|
      && (!HasFullBuffer(s.control) ==> |s.buffer| < s.partSize)
  }

  lemma CopyAccounts(s: State, rest: seq<Byte>, processed: nat)
    requires Phases(s) && Accounts(s) && s.control == Writing(rest, processed)
    ensures Accounts(CopyStep(s, rest, processed))
  {
  }

  lemma AdvanceAccounts(s: State)
    requires Phases(s) && Accounts(s)
    ensures Accounts(AdvanceCaller(s))
  {
    hide ActiveCount, Collect, BlockId, CopyStep;
    match s.control {
      case Writing(rest, processed) => CopyAccounts(s, rest, processed);
      case _ =>
    }
  }

  lemma NextAccounts(s: State, e: Event)
    requires Phases(s) && Accounts(s)
    ensures Accounts(Next(s, e))
  {
    hide AdvanceCaller, BlockId, Concat, AllStaged, Stage;
    match e {
      case Advance => AdvanceAccounts(s);
      case Write(data) => assert s.control.Idle? ==> s.accepted + [] == s.accepted;
      case _ =>
    }
  }

  lemma {:induction false} RunAccounts(partSize: nat, maxParallel: nat, events: seq<Event>)
    requires partSize > 0
    ensures Accounts(Run(Init(partSize, maxParallel), events))
  {
    hide Accounts, Next, Names, Placement, Uploads, Quiet;
    if events == [] {
      InitAccounts(partSize, maxParallel);
    } else {
      var before := events[..|events| - 1];
      RunAccounts(partSize, maxParallel, before);
      RunInv(partSize, maxParallel, before);
      NextAccounts(Run(Init(partSize, maxParallel), before), events[|events| - 1]);
    }
  }

  lemma InitAccounts(partSize: nat, maxParallel: nat)
    requires partSize > 0
    ensures Accounts(Init(partSize, maxParallel))
  {
  }

  // ---- The main results ----------------------------------------------------

  /** A list that names block 0, block 1, and so on, each once and in order. */
  ghost predicate NamesEachOnce(ids: seq<string>) {
    forall k :: 0 <= k < |ids| ==> ids[k] == BlockId(k)
  }

  /**
   For every part size, every sequence of writes, every completion order and
   every pattern of failed uploads: a successful finalize commits a list that
   names each block exactly once and in order if and only if no finalize call
   failed after naming its last block. In that case the blob is exactly the
   accepted bytes. In the other case it can still be, by accident: see
   `BrokenYetFaithful`.
   */
  lemma CommitIsFaithful(partSize: nat, maxParallel: nat, events: seq<Event>)
    requires partSize > 0
    ensures var s := Run(Init(partSize, maxParallel), events);
            s.committed.Blob? ==>
              && (NamesEachOnce(s.blockIds) <==> s.brokenFinals == 0)
              && (s.brokenFinals == 0 ==> s.committed.content == s.accepted)
  {
    RunInv(partSize, maxParallel, events);
    hide Run, BlockId, Concat, Data;
    var s := Run(Init(partSize, maxParallel), events);
    if s.committed.Blob? && s.brokenFinals > 0 && NamesEachOnce(s.blockIds) {
      var k := |s.blockIds| - 1;
      assert BlockId(s.blocks[k].0) == s.blockIds[k] == BlockId(k);
      BlockIdInjective(s.blocks[k].0, k);
    }
  }

  /**
   In a run in which no call failed, a successful finalize commits exactly the
   bytes handed to `write`, in order, and reports their number.
   */
  lemma ErrorFreeCommit(partSize: nat, maxParallel: nat, events: seq<Event>)
    requires partSize > 0
    ensures var s := Run(Init(partSize, maxParallel), events);
            s.committed.Blob? && !s.anyFailure ==>
              s.committed.content == s.handed && s.bytesWritten == |s.handed|
  {
    CommitIsFaithful(partSize, maxParallel, events);
    RunAccounts(partSize, maxParallel, events);
    RunPhases(partSize, maxParallel, events);
    hide Run, BlockId, NamesEachOnce;
    var s := Run(Init(partSize, maxParallel), events);
    assert s.accepted + [] == s.accepted;
  }

  lemma RunPhases(partSize: nat, maxParallel: nat, events: seq<Event>)
    requires partSize > 0
    ensures Phases(Run(Init(partSize, maxParallel), events))
  {
    hide Phases, Names, Placement, Uploads, Run;
    RunInv(partSize, maxParallel, events);
  }

  /**
   The shape of the blocks at every step of an error-free run: block `k` has
   the id of `k`, all launched blocks have exactly the part size, and blocks
   and buffer in order are the bytes accepted; between calls the buffer is
   shorter than a part.
   */
  lemma BlockShape(partSize: nat, maxParallel: nat, events: seq<Event>)
    requires partSize > 0
    ensures var s := Run(Init(partSize, maxParallel), events);
            !s.anyFailure ==>
              && NamesEachOnce(s.blockIds)
              && s.number <= |s.blocks|
              && (forall k :: 0 <= k < s.number ==> |s.blocks[k].1| == s.partSize)
              && s.accepted == Concat(Data(s.blocks[..s.number])) + s.buffer
              && (s.control.Idle? ==> |s.buffer| < s.partSize && s.handed == s.accepted)
  {
    RunInv(partSize, maxParallel, events);
    RunAccounts(partSize, maxParallel, events);
    hide Run, BlockId, Concat, Data;
    var s := Run(Init(partSize, maxParallel), events);
    assert s.accepted + [] == s.accepted;
  }

  // ---- Why finalize succeeds -----------------------------------------------

  /** The upload of block `k` is still to deliver it, or has failed unnoticed. */
  predicate Owes(p: Pending, k: nat) {
    p.number == k && (p.status.Running? || p.status == Ready(false))
  }

  ghost predicate Owing(pending: seq<Pending>, k: nat) {
    exists i :: 0 <= i < |pending| && Owes(pending[i], k)
  }

  /** Each of the first `number` blocks is staged, or a pending upload still owes it. */
  ghost predicate Accounted(staged: map<string, seq<Byte>>, pending: seq<Pending>, number: nat) {
    forall k: nat :: k < number ==> BlockId(k) in staged || Owing(pending, k)
  }

  /** The futures that `wait_all_uploads` has passed. */
  predicate Joined(c: Control, pending: seq<Pending>) {
    c.Joining? ==> forall i :: 0 <= i < |pending| && i < c.next ==> pending[i].status.Consumed?
  }

  predicate Finishing(c: Control) {
    c.Joining? || c.Committing?
  }

  /** Without a failed call, no block gets lost before the commit. */
  ghost predicate Owed(s: State) {
    !s.anyFailure && !s.committed.Blob? ==>
      && Accounted(s.staged, s.pending, s.number)
      && Joined(s.control, s.pending)
      && (s.buffer != [] && Finishing(s.control) ==> BlockId(s.number) in s.staged)
  }

  lemma {:induction false} CollectKeepsOwing(pending: seq<Pending>, k: nat)
    requires Collect(pending).1 && Owing(pending, k)
    ensures Owing(Collect(pending).0, k)
  {
    var i :| 0 <= i < |pending| && Owes(pending[i], k);
    var rest := Collect(pending[1..]).0;
    if i > 0 {
      assert pending[1..][i - 1] == pending[i];
      CollectKeepsOwing(pending[1..], k);
      var j :| 0 <= j < |rest| && Owes(rest[j], k);
      assert pending[0].status.Running? ==> Collect(pending).0[j + 1] == rest[j];
    } else {
      assert Collect(pending).0[0] == pending[0];
    }
  }

  lemma CollectKeepsAccount(staged: map<string, seq<Byte>>, pending: seq<Pending>, number: nat)
    requires Accounted(staged, pending, number) && Collect(pending).1
    ensures Accounted(staged, Collect(pending).0, number)
  {
    hide BlockId, Collect, Owing;
    forall k: nat | k < number && BlockId(k) !in staged
      ensures Owing(Collect(pending).0, k)
    {
      CollectKeepsOwing(pending, k);
    }
  }

  lemma LaunchKeepsAccount(staged: map<string, seq<Byte>>, pending: seq<Pending>, number: nat, data: seq<Byte>)
    requires Accounted(staged, pending, number)
    ensures Accounted(staged, pending + [Pending(number, data, Running)], number + 1)
  {
    hide BlockId;
    var longer := pending + [Pending(number, data, Running)];
    forall k: nat | k < number + 1 && BlockId(k) !in staged
      ensures Owing(longer, k)
    {
      if k == number {
        assert Owes(longer[|pending|], k);
      } else {
        var i :| 0 <= i < |pending| && Owes(pending[i], k);
        assert Owes(longer[i], k);
      }
    }
  }

  /** Changing one future's status is fine if it owes its block as before or the block is staged. */
  lemma ChangeKeepsAccount(
    staged: map<string, seq<Byte>>, staged': map<string, seq<Byte>>, pending: seq<Pending>, number: nat,
    i: nat, status: Status)
    requires Accounted(staged, pending, number) && i < |pending| && staged.Keys <= staged'.Keys
    requires Owes(pending[i], pending[i].number) ==> status == Ready(false) || BlockId(pending[i].number) in staged'
    ensures Accounted(staged', pending[i := pending[i].(status := status)], number)
  {
    hide BlockId;
    var changed := pending[i := pending[i].(status := status)];
    forall k: nat | k < number && BlockId(k) !in staged'
      ensures Owing(changed, k)
    {
      assert BlockId(k) !in staged.Keys;
      var j :| 0 <= j < |pending| && Owes(pending[j], k);
      assert Owes(changed[j], k);
    }
  }

  lemma JoinedKeepsAccount(staged: map<string, seq<Byte>>, pending: seq<Pending>, number: nat)
    requires Accounted(staged, pending, number)
    requires forall i :: 0 <= i < |pending| ==> pending[i].status.Consumed?
    ensures Accounted(staged, [], number)
  {
    hide BlockId;
  }

  lemma CopyOwed(s: State, rest: seq<Byte>, processed: nat)
    requires Owed(s)
    ensures Owed(CopyStep(s, rest, processed))
  {
    hide BlockId, Accounted, Min;
  }

  lemma SlotOwed(s: State, rest: seq<Byte>, processed: nat)
    requires Owed(s)
    ensures Owed(SlotStep(s, rest, processed))
  {
    hide BlockId, Accounted, ActiveCount;
  }

  lemma CollectingOwed(s: State, rest: seq<Byte>, processed: nat)
    requires Owed(s)
    ensures Owed(WakeStep(s, rest, processed)) && Owed(CollectStep(s, rest, processed))
  {
    hide BlockId, Accounted, Collect;
    if !s.anyFailure && !s.committed.Blob? && Collect(s.pending).1 {
      CollectKeepsAccount(s.staged, s.pending, s.number);
    }
  }

  lemma LaunchOwed(s: State, rest: seq<Byte>, processed: nat)
    requires Owed(s)
    ensures Owed(LaunchStep(s, rest, processed))
  {
    hide BlockId, Accounted;
    if !s.anyFailure && !s.committed.Blob? {
      LaunchKeepsAccount(s.staged, s.pending, s.number, s.buffer);
    }
  }

  lemma JoinOwed(s: State, next: nat)
    requires Owed(s) && s.control == Joining(next)
    ensures Owed(JoinStep(s, next))
  {
    hide BlockId, Accounted;
    if !s.anyFailure && !s.committed.Blob? {
      if next >= |s.pending| {
        JoinedKeepsAccount(s.staged, s.pending, s.number);
      } else if s.pending[next].status == Ready(true) {
        ChangeKeepsAccount(s.staged, s.staged, s.pending, s.number, next, Consumed);
      }
    }
  }

  lemma AdvanceOwed(s: State)
    requires Owed(s)
    ensures Owed(AdvanceCaller(s))
  {
    hide Owed, CopyStep, SlotStep, WakeStep, CollectStep, LaunchStep, JoinStep;
    match s.control {
      case Writing(rest, processed) => CopyOwed(s, rest, processed);
      case WaitingForSlot(rest, processed) => SlotOwed(s, rest, processed);
      case Sleeping(rest, processed) => CollectingOwed(s, rest, processed);
      case CollectingUploads(rest, processed) => CollectingOwed(s, rest, processed);
      case Launching(rest, processed) => LaunchOwed(s, rest, processed);
      case Joining(next) => JoinOwed(s, next);
      case _ =>
    }
  }

  lemma UploadEndsOwed(s: State, i: nat, ok: bool, stages: bool)
    requires Owed(s)
    ensures Owed(Next(s, UploadEnds(i, ok, stages)))
  {
    hide BlockId, Accounted;
    if i < |s.pending| && s.pending[i].status.Running? && !s.anyFailure && !s.committed.Blob? {
      var p := s.pending[i];
      ChangeKeepsAccount(s.staged, Stage(s, p.number, p.data, ok || stages), s.pending, s.number, i, Ready(ok));
    }
  }

  lemma LastUploadEndsOwed(s: State, ok: bool, stages: bool)
    requires Owed(s)
    ensures Owed(Next(s, LastUploadEnds(ok, stages)))
  {
    hide BlockId, Owing;
  }

  lemma NextOwed(s: State, e: Event)
    requires Owed(s)
    ensures Owed(Next(s, e))
  {
    match e {
      case Advance =>
        hide Owed, AdvanceCaller;
        AdvanceOwed(s);
      case UploadEnds(i, ok, stages) =>
        hide Owed, Next;
        UploadEndsOwed(s, i, ok, stages);
      case LastUploadEnds(ok, stages) =>
        hide Owed, Next;
        LastUploadEndsOwed(s, ok, stages);
      case _ =>
        hide BlockId, Accounted, Concat, StagedParts, AllStaged;
    }
  }

  lemma InitOwed(partSize: nat, maxParallel: nat)
    ensures Owed(Init(partSize, maxParallel))
  {
    hide BlockId;
  }

  lemma {:induction false} RunOwed(partSize: nat, maxParallel: nat, events: seq<Event>)
    ensures Owed(Run(Init(partSize, maxParallel), events))
  {
    hide Owed, Next;
    if events == [] {
      InitOwed(partSize, maxParallel);
    } else {
      var before := events[..|events| - 1];
      RunOwed(partSize, maxParallel, before);
      NextOwed(Run(Init(partSize, maxParallel), before), events[|events| - 1]);
    }
  }

  /** Nothing is pending, so nothing is owed: the whole list is staged. */
  lemma AllIsStaged(s: State)
    requires Inv(s) && Quiet(s) && Owed(s)
    ensures s.control.Committing? && !s.anyFailure ==> AllStaged(s.blockIds, s.staged)
  {
    hide BlockId, Concat, Data, Placement, Uploads;
    if s.control.Committing? && !s.anyFailure {
      forall k | 0 <= k < |s.blockIds|
        ensures s.blockIds[k] in s.staged
      {
        assert s.blockIds[k] == BlockId(s.blocks[k].0);
        assert s.pending == [];
      }
    }
  }

  /**
   The commit succeeds: when every call so far has succeeded and the stream is
   about to send its list, every block of the list is staged, and a server that
   accepts the list stores exactly the bytes handed to `write`.
   */
  lemma CommitSucceeds(partSize: nat, maxParallel: nat, events: seq<Event>)
    requires partSize > 0
    ensures var s := Run(Init(partSize, maxParallel), events);
            s.control.Committing? && !s.anyFailure ==>
              && AllStaged(s.blockIds, s.staged)
              && Next(s, CommitReply(true)).committed == Blob(s.handed)
              && !Next(s, CommitReply(true)).anyFailure
              && s.bytesWritten == |s.handed|
  {
    hide Run, Inv, Quiet, Owed, Accounts, AllStaged, StagedParts, Concat;
    RunInv(partSize, maxParallel, events);
    RunOwed(partSize, maxParallel, events);
    RunAccounts(partSize, maxParallel, events);
    var s := Run(Init(partSize, maxParallel), events);
    AllIsStaged(s);
    if s.control.Committing? && !s.anyFailure {
      AtCommit(s);
      CommittedContent(s);
    }
  }

  lemma AtCommit(s: State)
    requires Accounts(s) && !s.anyFailure && s.control.Committing?
    ensures s.brokenFinals == 0 && s.handed == s.accepted && s.bytesWritten == |s.handed|
  {
    assert s.accepted + [] == s.accepted;
  }

  /** Every upload ends with success, and so does the commit. */
  predicate EndsWell(e: Event) {
    && (e.UploadEnds? ==> e.ok)
    && (e.LastUploadEnds? ==> e.ok)
    && (e.CommitReply? ==> e.ok)
  }

  predicate NoneFailed(pending: seq<Pending>) {
    forall i :: 0 <= i < |pending| ==> pending[i].status != Ready(false)
  }

  /** Collecting fails exactly when some future holds an error. */
  lemma {:induction false} CollectFailsIff(pending: seq<Pending>)
    ensures Collect(pending).1 <==> NoneFailed(pending)
    ensures NoneFailed(pending) ==>
              NoneFailed(Collect(pending).0) &&
              forall i :: 0 <= i < |Collect(pending).0| ==> Collect(pending).0[i].status.Running?
  {
    if pending != [] {
      CollectFailsIff(pending[1..]);
      assert pending == [pending[0]] + pending[1..];
    }
  }

  /** No call has failed, none is about to, and a finished commit has stored what was handed over. */
  ghost predicate Well(s: State) {
    && !s.anyFailure && NoneFailed(s.pending)
    && (s.finalized && s.control.Idle? ==> s.committed == Blob(s.handed))
  }

  lemma AdvanceWell(s: State)
    requires Phases(s) && Well(s)
    ensures Well(AdvanceCaller(s))
  {
    hide BlockId, Collect, ActiveCount, Min;
    CollectFailsIff(s.pending);
  }

  lemma UploadEndsWell(s: State, i: nat, stages: bool)
    requires Well(s)
    ensures Well(Next(s, UploadEnds(i, true, stages)))
  {
    hide BlockId;
  }

  lemma OtherWell(s: State, e: Event)
    requires Phases(s) && Well(s) && EndsWell(e) && !e.Advance? && !e.UploadEnds? && !e.CommitReply?
    ensures Well(Next(s, e))
  {
    hide BlockId, Concat, Stage;
  }

  lemma ReplyWell(s: State)
    requires Well(s)
    requires s.control.Committing? ==>
               Next(s, CommitReply(true)).committed == Blob(s.handed) && !Next(s, CommitReply(true)).anyFailure
    ensures Well(Next(s, CommitReply(true)))
  {
    hide AllStaged, StagedParts, Concat;
  }

  /**
   A run in which every upload and the commit end well: no call ever fails, and
   a `finalize` that is through has stored exactly the bytes handed to `write`.
   */
  lemma {:induction false} WellEndedRun(partSize: nat, maxParallel: nat, events: seq<Event>)
    requires partSize > 0 && forall k :: 0 <= k < |events| ==> EndsWell(events[k])
    ensures var s := Run(Init(partSize, maxParallel), events);
            !s.anyFailure && (s.finalized && s.control.Idle? ==> s.committed == Blob(s.handed))
    ensures Well(Run(Init(partSize, maxParallel), events))
  {
    if events != [] {
      hide Next, Phases;
      var before, e := events[..|events| - 1], events[|events| - 1];
      WellEndedRun(partSize, maxParallel, before);
      RunPhases(partSize, maxParallel, before);
      CommitSucceeds(partSize, maxParallel, before);
      hide Run;
      StepWell(Run(Init(partSize, maxParallel), before), e);
    }
  }

  lemma StepWell(s: State, e: Event)
    requires Phases(s) && Well(s) && EndsWell(e)
    requires s.control.Committing? ==>
               Next(s, CommitReply(true)).committed == Blob(s.handed) && !Next(s, CommitReply(true)).anyFailure
    ensures Well(Next(s, e))
  {
    hide Well, Next, Phases;
    match e {
      case Advance =>
        AdvanceWell(s);
        AdvanceStep(s);
      case UploadEnds(i, _, stages) => UploadEndsWell(s, i, stages);
      case CommitReply(_) => ReplyWell(s);
      case _ => OtherWell(s, e);
    }
  }

  lemma AdvanceStep(s: State)
    ensures Next(s, Advance) == AdvanceCaller(s)
  {
  }

  lemma {:induction false} RunConcat(s: State, a: seq<Event>, b: seq<Event>)
    ensures Run(s, a + b) == Run(Run(s, a), b)
    decreases |b|
  {
    hide Next;
    if b == [] {
      assert a + b == a;
    } else {
      assert (a + b)[..|a + b| - 1] == a + b[..|b| - 1];
      RunConcat(s, a, b[..|b| - 1]);
    }
  }

  lemma RunOneMore(s: State, events: seq<Event>, e: Event)
    ensures Run(s, events + [e]) == Next(Run(s, events), e)
  {
  }

  /** One short write, then a finalize whose upload fails. */
  function FailedFinalize(data: seq<Byte>): seq<Event> {
    [Write(data)] + [Advance] + [Advance] + [Finalize] + [LastUploadEnds(false, false)]
  }

  /** A finalize in which everything succeeds. */
  function CleanFinalize(): seq<Event> {
    [Finalize] + [LastUploadEnds(true, true)] + [Advance] + [CommitReply(true)]
  }

  lemma RunFailedFinalize(s: State, data: seq<Byte>)
    ensures Run(s, FailedFinalize(data)) ==
            Next(Next(Next(Next(Next(s, Write(data)), Advance), Advance), Finalize), LastUploadEnds(false, false))
  {
    hide Next, Run;
    RunNothing(s);
    assert [Write(data)] == [] + [Write(data)];
    RunOneMore(s, [], Write(data));
    RunOneMore(s, [Write(data)], Advance);
    RunOneMore(s, [Write(data)] + [Advance], Advance);
    RunOneMore(s, [Write(data)] + [Advance] + [Advance], Finalize);
    RunOneMore(s, [Write(data)] + [Advance] + [Advance] + [Finalize], LastUploadEnds(false, false));
  }

  lemma RunCleanFinalize(s: State)
    ensures Run(s, CleanFinalize()) ==
            Next(Next(Next(Next(s, Finalize), LastUploadEnds(true, true)), Advance), CommitReply(true))
  {
    hide Next, Run;
    RunNothing(s);
    assert [Finalize] == [] + [Finalize];
    RunOneMore(s, [], Finalize);
    RunOneMore(s, [Finalize], LastUploadEnds(true, true));
    RunOneMore(s, [Finalize] + [LastUploadEnds(true, true)], Advance);
    RunOneMore(s, [Finalize] + [LastUploadEnds(true, true)] + [Advance], CommitReply(true));
  }

  lemma RunNothing(s: State)
    ensures Run(s, []) == s
  {
    hide Next;
  }

  /**
   A finalize call that fails while it uploads the last block leaves that block
   in the list; the retried call names it again, and the committed blob then
   holds it twice. So it goes for every content shorter than a part.
   */
  lemma RetriedFinalizeRepeatsLastBlock(partSize: nat, data: seq<Byte>)
    requires 0 < |data| < partSize
    ensures var s := Run(Init(partSize, 1), FailedFinalize(data) + CleanFinalize());
            s.committed == Blob(data + data) && s.accepted == s.handed == data && s.brokenFinals == 1
  {
    hide *;
    var s0 := Init(partSize, 1);
    RunConcat(s0, FailedFinalize(data), CleanFinalize());
    RunFailedFinalize(s0, data);
    var s1 := CopiedAndFailed(partSize, data, s0);
    RunCleanFinalize(s1);
    var s2 := NamedTwice(partSize, data, s1);
    CommittedTwice(s2, data);
  }

  lemma CommittedTwice(s: State, data: seq<Byte>)
    requires s.blockIds == [BlockId(0), BlockId(0)] && s.control == Committing && s.staged == map[BlockId(0) := data]
    ensures var s' := Next(s, CommitReply(true));
            s'.committed == Blob(data + data) && s'.accepted == s.accepted && s'.handed == s.handed &&
            s'.brokenFinals == s.brokenFinals
  {
    hide BlockId, Concat;
    TwoParts(data);
    assert AllStaged(s.blockIds, s.staged);
    assert StagedParts(s.blockIds, s.staged) == [data, data];
  }

  lemma TwoParts(data: seq<Byte>)
    ensures Concat([data, data]) == data + data
  {
    assert [data, data][1..] == [data];
    assert [data][1..] == [];
    assert Concat([data]) == data + Concat([]);
    assert Concat([]) == [];
    assert Concat([data, data]) == data + Concat([data]);
  }

  /** The first five steps: one short write, then a finalize whose upload fails. */
  lemma CopiedAndFailed(partSize: nat, data: seq<Byte>, s0: State) returns (s: State)
    requires 0 < |data| < partSize && s0 == Init(partSize, 1)
    ensures s == Next(Next(Next(Next(Next(s0, Write(data)), Advance), Advance), Finalize), LastUploadEnds(false, false))
    ensures s == s0.(buffer := data, accepted := data, handed := data, bytesWritten := |data|,
                     blockIds := [BlockId(0)], blocks := [(0, data)], brokenFinals := 1, anyFailure := true)
  {
    hide BlockId;
    s := Next(s0, Write(data));
    assert s.handed == data;
    s := Next(s, Advance);
    assert s.buffer == data && s.accepted == data && s.control == Writing([], |data|);
    s := Next(s, Advance);
    s := Next(s, Finalize);
    s := Next(s, LastUploadEnds(false, false));
  }

  /** The next three: the retried finalize up to the commit. */
  lemma NamedTwice(partSize: nat, data: seq<Byte>, s0: State) returns (s: State)
    requires 0 < |data| < partSize
    requires s0 == Init(partSize, 1).(buffer := data, accepted := data, handed := data, bytesWritten := |data|,
                                      blockIds := [BlockId(0)], blocks := [(0, data)],
                                      brokenFinals := 1, anyFailure := true)
    ensures s == Next(Next(Next(s0, Finalize), LastUploadEnds(true, true)), Advance)
    ensures s.blockIds == [BlockId(0), BlockId(0)] && s.control == Committing && s.staged == map[BlockId(0) := data]
    ensures s.accepted == s.handed == data && s.brokenFinals == 1
  {
    hide BlockId;
    s := Next(s0, Finalize);
    s := Next(s, LastUploadEnds(true, true));
    s := Next(s, Advance);
  }

  /** The run so far and one more event. */
  lemma TakeEvent(s0: State, s: State, events: seq<Event>, e: Event) returns (s': State, longer: seq<Event>)
    requires s == Run(s0, events)
    ensures s' == Next(s, e) && longer == events + [e] && s' == Run(s0, longer)
  {
    hide Next;
    s', longer := Next(s, e), events + [e];
    RunOneMore(s0, events, e);
  }

  /** A short write, and a finalize whose upload fails although the server has staged the block. */
  lemma StagedAndFailed(s0: State, data: seq<Byte>) returns (s: State, events: seq<Event>)
    requires data != [] && s0 == Init(2 * |data|, 1)
    ensures s == Run(s0, events)
    ensures s == s0.(buffer := data, accepted := data, handed := data, bytesWritten := |data|,
                     blockIds := [BlockId(0)], blocks := [(0, data)], staged := map[BlockId(0) := data],
                     brokenFinals := 1, anyFailure := true)
  {
    hide BlockId, Run;
    RunNothing(s0);
    s, events := TakeEvent(s0, s0, [], Write(data));
    assert s.handed == data;
    s, events := TakeEvent(s0, s, events, Advance);
    assert s.buffer == data && s.accepted == data && s.control == Writing([], |data|);
    s, events := TakeEvent(s0, s, events, Advance);
    s, events := TakeEvent(s0, s, events, Finalize);
    s, events := TakeEvent(s0, s, events, LastUploadEnds(false, true));
  }

  /** The same bytes again fill the block, which is launched under the same id. */
  lemma LaunchedAgain(s0: State, data: seq<Byte>, s1: State, events1: seq<Event>) returns (s: State, events: seq<Event>)
    requires data != [] && s1 == Run(s0, events1)
    requires s1 == Init(2 * |data|, 1).(buffer := data, accepted := data, handed := data, bytesWritten := |data|,
                                        blockIds := [BlockId(0)], blocks := [(0, data)],
                                        staged := map[BlockId(0) := data], brokenFinals := 1, anyFailure := true)
    ensures s == Run(s0, events)
    ensures && s.control == Idle && s.buffer == [] && !s.finalized && !s.aborted && s.maxParallel == 1
            && s.pending == [Pending(0, data + data, Running)]
            && s.blockIds == [BlockId(0), BlockId(0)] && s.staged == map[BlockId(0) := data]
            && s.accepted == data + data && s.brokenFinals == 1
  {
    hide BlockId, Run;
    s, events := TakeEvent(s0, s1, events1, Write(data));
    s, events := TakeEvent(s0, s, events, Advance);
    assert s.buffer == data + data && s.accepted == data + data && s.control == WaitingForSlot([], |data|);
    s, events := TakeEvent(s0, s, events, Advance);
    s, events := TakeEvent(s0, s, events, Advance);
    s, events := TakeEvent(s0, s, events, Advance);
    assert s.pending == [Pending(0, data + data, Running)] && s.control == Writing([], |data|);
    s, events := TakeEvent(s0, s, events, Advance);
  }

  /** That upload fails and stages nothing; one finalize reports it, the next one commits. */
  lemma CommittedAnyway(s0: State, data: seq<Byte>, s1: State, events1: seq<Event>)
    returns (s: State, events: seq<Event>)
    requires s1 == Run(s0, events1)
    requires && s1.control == Idle && s1.buffer == [] && !s1.finalized && !s1.aborted
             && s1.pending == [Pending(0, data + data, Running)]
             && s1.blockIds == [BlockId(0), BlockId(0)] && s1.staged == map[BlockId(0) := data]
             && s1.accepted == data + data && s1.brokenFinals == 1
    ensures s == Run(s0, events)
    ensures s.committed == Blob(s.accepted) && s.accepted == data + data && s.brokenFinals == 1
  {
    hide BlockId, Run, Concat, AllStaged, StagedParts;
    s, events := TakeEvent(s0, s1, events1, UploadEnds(0, false, false));
    assert s.pending == [Pending(0, data + data, Ready(false))];
    s, events := TakeEvent(s0, s, events, Finalize);
    s, events := TakeEvent(s0, s, events, Advance);
    assert s.pending == [Pending(0, data + data, Consumed)] && s.control == Idle;
    s, events := TakeEvent(s0, s, events, Finalize);
    s, events := TakeEvent(s0, s, events, Advance);
    s, events := TakeEvent(s0, s, events, Advance);
    assert s.control == Committing;
    CommittedTwice(s, data);
    s, events := TakeEvent(s0, s, events, CommitReply(true));
  }

  /**
   A broken finalize does not always spoil the content. With parts of twice
   the length of some data: the finalize fails after staging the data, the
   same data is written again, its upload fails without staging anything, and
   the list then commits the first block twice, which is what was written.
   */
  lemma BrokenYetFaithful(data: seq<Byte>) returns (events: seq<Event>)
    requires data != []
    ensures var s := Run(Init(2 * |data|, 1), events);
            s.committed == Blob(s.accepted) && s.accepted == data + data && s.brokenFinals == 1
  {
    hide *;
    var s0, s := Init(2 * |data|, 1), Init(2 * |data|, 1);
    s, events := StagedAndFailed(s0, data);
    s, events := LaunchedAgain(s0, data, s, events);
    s, events := CommittedAnyway(s0, data, s, events);
  }
}
