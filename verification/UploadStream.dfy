/**
 The code of `azure_blob_upload_stream`: fields that its methods update, with
 loops that wait for futures. What happens at the server between the steps of
 the calling thread comes from a schedule, a list of batches of upload ends;
 a call that would have to wait longer than the schedule lasts is reported as
 still running. Every method is proved to take the steps of `BlobUpload`, so
 what holds in all runs there holds here.
 */
module UploadStream {
  import opened Bytes
  import opened BlockIds
  import opened BlobUpload

  /** A call has returned, or it still waits when the schedule is used up. */
  datatype Outcome<+T> = Returned(result: Result<T>) | StillRunning

  /** An asynchronous upload ends, with or without success; a failed one may have staged its block. */
  datatype End = End(index: nat, ok: bool, stages: bool)

  type Schedule = seq<seq<End>>

  /** The ends of all batches, in order. */
  function Ends(schedule: Schedule): seq<End> {
    if schedule == [] then [] else schedule[0] + Ends(schedule[1..])
  }

  /** What some ends make of the future of upload `i`: a running upload takes the result of its first end. */
  function Fate(status: Status, ends: seq<End>, i: nat): Status
    decreases |ends|
  {
    if !status.Running? || ends == [] then status
    else Fate(if ends[0].index == i then Ready(ends[0].ok) else status, ends[1..], i)
  }

  /** End `k` is the first one of upload `i`. */
  predicate FirstEnd(ends: seq<End>, i: nat, k: nat) {
    k < |ends| && ends[k].index == i && forall j :: 0 <= j < k ==> ends[j].index != i
  }

  /** A future keeps its result; a running upload still runs if no end is its own, else its first end decides. */
  lemma {:induction false} FateMeans(status: Status, ends: seq<End>, i: nat)
    ensures !status.Running? ==> Fate(status, ends, i) == status
    ensures status.Running? && (forall k :: 0 <= k < |ends| ==> ends[k].index != i) ==> Fate(status, ends, i).Running?
    ensures forall k: nat :: status.Running? && FirstEnd(ends, i, k) ==> Fate(status, ends, i) == Ready(ends[k].ok)
    decreases |ends|
  {
    if status.Running? && ends != [] {
      FateMeans(if ends[0].index == i then Ready(ends[0].ok) else status, ends[1..], i);
      forall k: nat | FirstEnd(ends, i, k)
        ensures Fate(status, ends, i) == Ready(ends[k].ok)
      {
        assert k > 0 ==> FirstEnd(ends[1..], i, k - 1);
      }
    }
  }

  lemma {:induction false} FateInSteps(status: Status, a: seq<End>, b: seq<End>, i: nat)
    ensures Fate(status, a + b, i) == Fate(Fate(status, a, i), b, i)
    decreases |a|
  {
    if a == [] {
      assert a + b == b;
    } else if status.Running? {
      assert (a + b)[1..] == a[1..] + b && (a + b)[0] == a[0];
      FateInSteps(if a[0].index == i then Ready(a[0].ok) else status, a[1..], b, i);
    }
  }

  /** The futures after some ends. */
  ghost predicate After(before: seq<Pending>, after: seq<Pending>, ends: seq<End>) {
    && |after| == |before|
    && forall i :: 0 <= i < |before| ==> after[i] == before[i].(status := Fate(before[i].status, ends, i))
  }

  lemma AfterNothing(pending: seq<Pending>)
    ensures After(pending, pending, [])
  {
  }

  lemma AfterKeepsLength(p: seq<Pending>, q: seq<Pending>, ends: seq<End>)
    requires After(p, q, ends)
    ensures |q| == |p|
  {
  }

  lemma AfterInSteps(p: seq<Pending>, q: seq<Pending>, r: seq<Pending>, a: seq<End>, b: seq<End>)
    requires After(p, q, a) && After(q, r, b)
    ensures After(p, r, a + b)
  {
    hide Fate;
    forall i | 0 <= i < |p|
      ensures r[i] == p[i].(status := Fate(p[i].status, a + b, i))
    {
      FateInSteps(p[i].status, a, b, i);
    }
  }

  lemma AfterOne(pending: seq<Pending>, end: End)
    ensures After(pending,
                  if end.index < |pending| && pending[end.index].status.Running?
                  then pending[end.index := pending[end.index].(status := Ready(end.ok))] else pending,
                  [end])
  {
    assert [end][1..] == [];
    forall i | 0 <= i < |pending|
      ensures Fate(pending[i].status, [end], i) ==
              if i == end.index && pending[i].status.Running? then Ready(end.ok) else pending[i].status
    {
      NothingHappened(pending);
      assert Fate(Ready(end.ok), [], i) == Ready(end.ok);
    }
  }

  lemma NoEnds()
    ensures Ends([]) == []
  {
  }

  lemma NothingHappened(pending: seq<Pending>)
    ensures forall i :: 0 <= i < |pending| ==> Fate(pending[i].status, [], i) == pending[i].status
  {
  }

  /** `wait_all_uploads` gets past upload `i`. */
  predicate Passes(pending: seq<Pending>, ends: seq<End>, i: nat)
    requires i < |pending|
  {
    var fate := Fate(pending[i].status, ends, i);
    fate == Ready(true) || fate == Consumed
  }

  /** `wait_all_uploads` gets to upload `i`, which runs on, or has failed, as `status` says. */
  predicate StopsAt(pending: seq<Pending>, ends: seq<End>, i: nat, status: Status) {
    && i < |pending| && Fate(pending[i].status, ends, i) == status
    && forall j :: 0 <= j < i ==> Passes(pending, ends, j)
  }

  /** The ends that have happened are no news to a future. */
  lemma FatesInSteps(p: seq<Pending>, q: seq<Pending>, a: seq<End>, b: seq<End>)
    requires After(p, q, a)
    ensures forall i :: 0 <= i < |p| ==> Fate(q[i].status, b, i) == Fate(p[i].status, a + b, i)
    ensures forall i :: 0 <= i < |p| ==> (Passes(q, b, i) <==> Passes(p, a + b, i))
    ensures forall i: nat, status :: StopsAt(q, b, i, status) <==> StopsAt(p, a + b, i, status)
  {
    hide Fate;
    forall i | 0 <= i < |p|
      ensures Fate(q[i].status, b, i) == Fate(p[i].status, a + b, i)
    {
      FateInSteps(p[i].status, a, b, i);
    }
  }

  /** A decided fate stays what it is. */
  lemma DecidedFate(status: Status, a: seq<End>, b: seq<End>, i: nat)
    requires !Fate(status, a, i).Running?
    ensures Fate(status, a + b, i) == Fate(status, a, i)
  {
    FateInSteps(status, a, b, i);
  }

  /** Some upload has failed, or fails at its end. */
  predicate Fails(pending: seq<Pending>, ends: seq<End>) {
    exists i :: 0 <= i < |pending| && Fate(pending[i].status, ends, i) == Ready(false)
  }

  /** Waiting at upload `i`: the uploads before it have passed, the others are what the ends made of them. */
  ghost predicate WaitsAt(before: seq<Pending>, now: seq<Pending>, used: seq<End>, i: nat) {
    && |now| == |before| && i <= |before|
    && (forall j :: 0 <= j < i ==> Passes(before, used, j))
    && (forall j :: i <= j < |before| ==> now[j] == before[j].(status := Fate(before[j].status, used, j)))
  }

  lemma WaitsAtFirst(before: seq<Pending>)
    ensures WaitsAt(before, before, [], 0)
  {
    NothingHappened(before);
  }

  /** Waiting on at the same upload while some ends happen. */
  lemma WaitsOn(before: seq<Pending>, now: seq<Pending>, later: seq<Pending>, used: seq<End>, ends: seq<End>, i: nat)
    requires WaitsAt(before, now, used, i) && After(now, later, ends)
    ensures WaitsAt(before, later, used + ends, i)
  {
    hide Fate;
    forall j | 0 <= j < |before|
      ensures j < i ==> Passes(before, used + ends, j)
      ensures j >= i ==> later[j] == before[j].(status := Fate(before[j].status, used + ends, j))
    {
      FateInSteps(before[j].status, used, ends, j);
      if j < i {
        assert Passes(before, used, j);
        DecidedFate(before[j].status, used, ends, j);
      }
    }
  }

  /** Passing upload `i`. */
  lemma WaitsAtNext(before: seq<Pending>, now: seq<Pending>, used: seq<End>, i: nat)
    requires WaitsAt(before, now, used, i) && i < |before|
    requires now[i].status == Ready(true) || now[i].status == Consumed
    ensures WaitsAt(before, now[i := now[i].(status := Consumed)], used, i + 1)
  {
    hide Fate;
  }

  /** Where the wait stands decides where it stops, whatever ends are still to come. */
  lemma StopsHere(before: seq<Pending>, now: seq<Pending>, used: seq<End>, rest: seq<End>, i: nat)
    requires WaitsAt(before, now, used, i)
    ensures |now| == |before|
    ensures forall j :: 0 <= j < i ==> Passes(before, used + rest, j)
    ensures i < |before| && (rest == [] || !now[i].status.Running?) ==>
              StopsAt(before, used + rest, i, now[i].status)
  {
    hide Fate;
    forall j | 0 <= j < i
      ensures Passes(before, used + rest, j)
    {
      assert Passes(before, used, j);
      DecidedFate(before[j].status, used, rest, j);
    }
    if i < |before| {
      if rest == [] {
        assert used + rest == used;
      } else if !now[i].status.Running? {
        DecidedFate(before[i].status, used, rest, i);
      }
    }
  }

  /** Why a `finalize` fails: the last block is not uploaded, the list is refused, or another upload fails. */
  predicate MustFail(buffer: seq<Byte>, pending: seq<Pending>, ends: seq<End>, lastOk: bool, accepts: bool) {
    (buffer != [] && !lastOk) || !accepts || Fails(pending, ends)
  }

  /** Why it waits: it gets to an upload that runs on. */
  ghost predicate MustWait(buffer: seq<Byte>, pending: seq<Pending>, ends: seq<End>, lastOk: bool) {
    (buffer == [] || lastOk) && exists i: nat :: StopsAt(pending, ends, i, Running)
  }

  /** The wait stops at one place only. */
  lemma OneStop(pending: seq<Pending>, ends: seq<End>, i: nat, j: nat)
    requires StopsAt(pending, ends, i, Ready(false))
    ensures !StopsAt(pending, ends, j, Running)
  {
    hide Fate;
    if i < j {
      assert !Passes(pending, ends, i);
    } else if j < i {
      assert Passes(pending, ends, j);
    }
  }

  /** The uploads all pass, or the wait stops at the first one that does not. */
  lemma Verdicts(pending: seq<Pending>, ends: seq<End>)
    ensures (forall i :: 0 <= i < |pending| ==> Passes(pending, ends, i)) ==>
              !Fails(pending, ends) && forall i: nat :: !StopsAt(pending, ends, i, Running)
    ensures (exists i: nat :: StopsAt(pending, ends, i, Ready(false))) ==>
              Fails(pending, ends) && forall i: nat :: !StopsAt(pending, ends, i, Running)
  {
    hide Fate;
    if i: nat :| StopsAt(pending, ends, i, Ready(false)) {
      forall j: nat
        ensures !StopsAt(pending, ends, j, Running)
      {
        OneStop(pending, ends, i, j);
      }
    }
    if forall i :: 0 <= i < |pending| ==> Passes(pending, ends, i) {
      forall i | 0 <= i < |pending|
        ensures Fate(pending[i].status, ends, i) != Ready(false) && !Fate(pending[i].status, ends, i).Running?
      {
        assert Passes(pending, ends, i);
      }
    }
  }

  predicate AllOk(ends: seq<End>) {
    forall k :: 0 <= k < |ends| ==> ends[k].ok
  }

  /** Neither a future nor an end to come holds an error. */
  predicate NoError(pending: seq<Pending>, ends: seq<End>) {
    NoneFailed(pending) && AllOk(ends)
  }

  /** If an end holds no error, neither do the futures after it. */
  lemma AfterAllOk(p: seq<Pending>, q: seq<Pending>, a: seq<End>, b: seq<End>)
    requires After(p, q, a)
    ensures NoError(p, a + b) ==> NoError(q, b)
    ensures NoneFailed(q) ==> NoneFailed(p)
  {
    if NoError(p, a + b) {
      forall i | 0 <= i < |q|
        ensures q[i].status != Ready(false)
      {
        FateAllOk(p[i].status, a, b, i);
      }
      forall k | 0 <= k < |b|
        ensures b[k].ok
      {
        assert (a + b)[|a| + k] == b[k];
      }
    }
  }

  lemma {:induction false} FateAllOk(status: Status, a: seq<End>, b: seq<End>, i: nat)
    requires AllOk(a + b) && status != Ready(false)
    ensures Fate(status, a, i) != Ready(false)
    decreases |a|
  {
    if a != [] && status.Running? {
      assert (a + b)[1..] == a[1..] + b && (a + b)[0] == a[0];
      FateAllOk(if a[0].index == i then Ready(a[0].ok) else status, a[1..], b, i);
    }
  }

  lemma WriteStep(s: State, data: seq<Byte>)
    requires s.control.Idle? && !s.finalized && !s.aborted
    ensures Next(s, Write(data)) == s.(control := Writing(data, 0), handed := s.handed + data)
  {
  }

  lemma FinalizeStep(s: State)
    requires s.control.Idle? && !s.finalized && !s.aborted
    ensures Next(s, Finalize) ==
            if s.buffer != [] then NameBlock(s).(control := UploadingLast) else s.(control := Joining(0))
  {
  }

  lemma UploadEndsStep(s: State, i: nat, ok: bool, stages: bool)
    requires i < |s.pending| && s.pending[i].status.Running?
    ensures Next(s, UploadEnds(i, ok, stages)) ==
            s.(pending := s.pending[i := s.pending[i].(status := Ready(ok))],
               staged := Stage(s, s.pending[i].number, s.pending[i].data, ok || stages))
  {
  }

  lemma LastUploadStep(s: State, ok: bool, stages: bool)
    requires s.control.UploadingLast?
    ensures Next(s, LastUploadEnds(ok, stages)) ==
            var s' := s.(staged := Stage(s, s.number, s.buffer, ok || stages));
            if ok then s'.(control := Joining(0)) else FailFinal(s')
  {
  }

  lemma CommitStep(s: State, ok: bool)
    requires s.control.Committing?
    ensures Next(s, CommitReply(ok)) ==
            if ok && AllStaged(s.blockIds, s.staged) then
              s.(committed := Blob(Concat(StagedParts(s.blockIds, s.staged))), staged := map[], control := Idle)
            else FailFinal(s)
  {
  }

  /** `wait_all_uploads` at a future that is no longer running. */
  lemma TakeStep(s: State, i: nat)
    requires s.control == Joining(i) && i < |s.pending| && !s.pending[i].status.Running?
    ensures var t := AdvanceCaller(s);
            var failed := s.pending[i].status == Ready(false);
            && t.pending == s.pending[i := s.pending[i].(status := Consumed)]
            && t.control == (if failed then Idle else Joining(i + 1))
            && t.anyFailure == (failed || s.anyFailure)
            && t.brokenFinals == s.brokenFinals + (if failed && s.buffer != [] then 1 else 0)
            && t == s.(pending := t.pending, control := t.control, anyFailure := t.anyFailure,
                       brokenFinals := t.brokenFinals)
  {
  }

  /** `collect_completed_uploads` at its `i`-th future. */
  lemma CollectAt(all: seq<Pending>, i: nat)
    requires i < |all|
    ensures all[i].status.Consumed? || all[i].status == Ready(true) ==> Collect(all[i..]) == Collect(all[i + 1..])
    ensures all[i].status.Running? ==>
              Collect(all[i..]) == ([all[i]] + Collect(all[i + 1..]).0, Collect(all[i + 1..]).1)
    ensures all[i].status == Ready(false) ==> Collect(all[i..]) == ([all[i].(status := Consumed)] + all[i + 1..], false)
  {
  }

  lemma CollectNothing()
    ensures Collect([]) == ([], true)
  {
  }

  class AzureUploadStream {
    const partSize: nat
    const maxConcurrentParts: nat
    var blockBuffer: seq<Byte>
    var blockIds: seq<string>
    var currentBlockNumber: nat
    var bytesWritten: nat
    var finalized: bool
    var aborted: bool
    var pendingUploads: seq<Pending>

    // the server
    var staged: map<string, seq<Byte>>
    var committed: Committed

    // the step system that this object follows
    ghost var model: State
    ghost var trace: seq<Event>

    /** The fields are those of the step system's state. */
    ghost predicate Shows()
      reads this
    {
      && model.partSize == partSize && model.maxParallel == maxConcurrentParts
      && model.buffer == blockBuffer && model.blockIds == blockIds
      && model.number == currentBlockNumber && model.bytesWritten == bytesWritten
      && model.finalized == finalized && model.aborted == aborted
      && model.pending == pendingUploads && model.staged == staged && model.committed == committed
    }

    /** The step system's state is the one that the events of the trace lead to. */
    ghost predicate Follows()
      reads this`model, this`trace
    {
      partSize > 0 && model == Run(Init(partSize, maxConcurrentParts), trace)
    }

    ghost predicate Valid()
      reads this
    {
      Shows() && Follows()
    }

    constructor (partSize: nat, maxConcurrentParts: nat)
      requires partSize > 0
      ensures Valid() && trace == [] && model.control.Idle?
      ensures this.partSize == partSize && this.maxConcurrentParts == maxConcurrentParts
    {
      this.partSize, this.maxConcurrentParts := partSize, maxConcurrentParts;
      blockBuffer, blockIds, currentBlockNumber, bytesWritten := [], [], 0, 0;
      finalized, aborted, pendingUploads, staged, committed := false, false, [], map[], Nothing;
      model, trace := Init(partSize, maxConcurrentParts), [];
    }

    /** Books the step that the code takes here. */
    ghost method Record(e: Event)
      requires Follows()
      modifies this`model, this`trace
      ensures Follows() && trace == old(trace) + [e] && model == Next(old(model), e)
    {
      hide Next, Run;
      RunOneMore(Init(partSize, maxConcurrentParts), trace, e);
      model, trace := Next(model, e), trace + [e];
    }

    /** Between two states only these ends have happened. */
    twostate predicate OnlyUploadsEnded(ends: seq<End>)
      reads this
    {
      && Valid() && old(trace) <= trace
      && After(old(pendingUploads), pendingUploads, ends)
      && model == old(model).(pending := pendingUploads, staged := staged)
    }

    /** An asynchronous upload ends: its future becomes ready and the server may have staged its block. */
    method EndUpload(end: End)
      requires Valid()
      modifies this`pendingUploads, this`staged, this`model, this`trace
      ensures OnlyUploadsEnded([end])
    {
      hide Run, Next, BlockId, Fate;
      AfterOne(pendingUploads, end);
      if end.index < |pendingUploads| && pendingUploads[end.index].status.Running? {
        UploadEndsStep(model, end.index, end.ok, end.stages);
        var p := pendingUploads[end.index];
        if end.ok || end.stages {
          staged := staged[BlockId(p.number) := p.data];
        }
        pendingUploads := pendingUploads[end.index := p.(status := Ready(end.ok))];
        Record(UploadEnds(end.index, end.ok, end.stages));
      }
    }

    /** Lets the next batch of the schedule happen. */
    method Tick(schedule: Schedule) returns (rest: Schedule, ghost used: seq<End>)
      requires Valid()
      modifies this`pendingUploads, this`staged, this`model, this`trace
      ensures OnlyUploadsEnded(used) && Ends(schedule) == used + Ends(rest)
      ensures |rest| <= |schedule| && (schedule != [] ==> |rest| < |schedule|)
    {
      hide Run, After;
      rest, used := schedule, [];
      AfterNothing(pendingUploads);
      if schedule != [] {
        rest := schedule[1..];
        for k := 0 to |schedule[0]|
          invariant OnlyUploadsEnded(used) && used == schedule[0][..k]
        {
          ghost var before := pendingUploads;
          EndUpload(schedule[0][k]);
          AfterInSteps(old(pendingUploads), before, pendingUploads, used, [schedule[0][k]]);
          used := used + [schedule[0][k]];
        }
        assert used == schedule[0];
      }
    }

    /** The next batch, for a caller who only wants to know whether there is an error. */
    method TickWell(schedule: Schedule) returns (rest: Schedule)
      requires Valid()
      modifies this`pendingUploads, this`staged, this`model, this`trace
      ensures Valid() && old(trace) <= trace && model == old(model).(pending := pendingUploads, staged := staged)
      ensures KeepsNoError(schedule, rest) && (NoneFailed(pendingUploads) ==> NoneFailed(old(pendingUploads)))
    {
      hide Run, Ends, After, NoneFailed, AllOk;
      ghost var used;
      rest, used := Tick(schedule);
      AfterAllOk(old(pendingUploads), pendingUploads, used, Ends(rest));
    }

    /** `collect_completed_uploads` */
    method CollectCompletedUploads() returns (ok: bool)
      modifies this`pendingUploads
      ensures (pendingUploads, ok) == Collect(old(pendingUploads))
    {
      hide Collect;
      ghost var all := pendingUploads;
      var i := 0;
      assert pendingUploads[0..] == all && pendingUploads[..0] + Collect(all).0 == Collect(all).0;
      while i < |pendingUploads|
        invariant 0 <= i <= |pendingUploads|
        invariant Collect(all) == (pendingUploads[..i] + Collect(pendingUploads[i..]).0, Collect(pendingUploads[i..]).1)
        decreases |pendingUploads| - i
      {
        CollectAt(pendingUploads, i);
        var p := pendingUploads[i];
        ghost var kept, rest := pendingUploads[..i], pendingUploads[i + 1..];
        if p.status.Consumed? || p.status == Ready(true) {
          pendingUploads := pendingUploads[..i] + pendingUploads[i + 1..];
          assert pendingUploads[..i] == kept && pendingUploads[i..] == rest;
        } else if p.status == Ready(false) {
          pendingUploads := pendingUploads[i := p.(status := Consumed)];
          assert pendingUploads == kept + ([p.(status := Consumed)] + rest);
          return false;
        } else {
          i := i + 1;
          assert pendingUploads[..i] == kept + [p];
          assert kept + ([p] + Collect(rest).0) == kept + [p] + Collect(rest).0;
        }
      }
      CollectNothing();
      assert pendingUploads[i..] == [] && pendingUploads[..i] + [] == pendingUploads;
      ok := true;
    }

    // ---- `write` -----------------------------------------------------------

    /** The calling thread has taken one step of its own. */
    twostate predicate StepTaken()
      reads this
    {
      Valid() && trace == old(trace) + [Advance] && model == AdvanceCaller(old(model))
    }

    /** The body of the copy loop up to the test of the buffer. */
    method Copy(remaining: seq<Byte>, ghost processed: nat) returns (copied: nat)
      requires Valid() && model.control == Writing(remaining, processed) && remaining != [] && |blockBuffer| <= partSize
      modifies this`blockBuffer, this`model, this`trace
      ensures StepTaken()
      ensures copied == Min(|remaining|, partSize - |old(blockBuffer)|)
    {
      hide Run, Next;
      AdvanceStep(model);
      var spaceInBuffer := partSize - |blockBuffer|;
      copied := Min(|remaining|, spaceInBuffer);
      blockBuffer := blockBuffer + remaining[..copied];
      Record(Advance);
    }

    /** Collecting, after the sleep of `wait_for_slot` and once more before the launch. */
    method CollectNow() returns (ok: bool)
      requires Valid() && (model.control.Sleeping? || model.control.CollectingUploads?)
      modifies this`pendingUploads, this`model, this`trace
      ensures StepTaken()
      ensures ok == Collect(old(pendingUploads)).1
    {
      hide Run, Next, Collect;
      AdvanceStep(model);
      ok := CollectCompletedUploads();
      Record(Advance);
    }

    /** The launch at the end of the loop body. */
    method Launch()
      requires Valid() && model.control.Launching?
      modifies this`blockBuffer, this`blockIds, this`currentBlockNumber, this`pendingUploads, this`model, this`trace
      ensures StepTaken()
      ensures NoneFailed(old(pendingUploads)) ==> NoneFailed(pendingUploads)
    {
      hide Run, Next, BlockId;
      AdvanceStep(model);
      var blockId := BlockId(currentBlockNumber);
      blockIds := blockIds + [blockId];
      pendingUploads := pendingUploads + [Pending(currentBlockNumber, blockBuffer, Running)];
      currentBlockNumber := currentBlockNumber + 1;
      blockBuffer := [];
      Record(Advance);
    }

    /** Between two states the calling thread has moved, but neither copied, named nor launched anything. */
    twostate predicate OnlyWaited()
      reads this
    {
      && Valid() && old(trace) <= trace
      && model == old(model).(pending := pendingUploads, staged := staged, control := model.control,
                              anyFailure := model.anyFailure)
    }

    /** The test of `wait_for_slot`. */
    method SlotIsFree() returns (free: bool)
      requires Valid() && model.control.WaitingForSlot?
      modifies this`model, this`trace
      ensures OnlyWaited()
      ensures pendingUploads == old(pendingUploads) && model.anyFailure == old(model).anyFailure
      ensures free == (ActiveCount(pendingUploads) < maxConcurrentParts)
      ensures model.control == if free then CollectingUploads(old(model).control.rest, old(model).control.processed)
                               else Sleeping(old(model).control.rest, old(model).control.processed)
    {
      hide Run, Next, ActiveCount;
      AdvanceStep(model);
      free := ActiveCount(pendingUploads) < maxConcurrentParts;
      Record(Advance);
    }

    /** If there was no error, neither in a future nor ahead in the schedule, there still is none. */
    twostate predicate KeepsNoError(schedule: Schedule, left: Schedule)
      reads this
    {
      NoError(old(pendingUploads), Ends(schedule)) ==> NoError(pendingUploads, Ends(left))
    }

    /** What collecting does to the calling thread. */
    method CollectOrFail(schedule: Schedule) returns (ok: bool, left: Schedule)
      requires Valid() && (model.control.Sleeping? || model.control.CollectingUploads?)
      modifies this`pendingUploads, this`staged, this`model, this`trace
      ensures OnlyWaited() && |left| <= |schedule| && (schedule != [] ==> |left| < |schedule|)
      ensures if ok then NoneFailed(old(pendingUploads)) && KeepsNoError(schedule, left)
              else !NoError(old(pendingUploads), Ends(schedule))
      ensures var rest, processed := old(model).control.rest, old(model).control.processed;
              model.control == if !ok then Idle
                               else if old(model).control.Sleeping? then WaitingForSlot(rest, processed)
                               else Launching(rest, processed)
      ensures if ok then model.anyFailure == old(model).anyFailure else model.anyFailure
    {
      hide Run, Next, Collect, Ends, After, NoneFailed, AllOk;
      ghost var used;
      left, used := Tick(schedule);
      AfterAllOk(old(pendingUploads), pendingUploads, used, Ends(left));
      CollectFailsIff(pendingUploads);
      ok := CollectNow();
    }

    /** The call sleeps in `wait_for_slot`, and the cap on unfinished uploads is reached. */
    ghost predicate AwaitsSlot()
      reads this
    {
      model.control.Sleeping? && ActiveCount(pendingUploads) >= maxConcurrentParts
    }

    /** The call blocks in `wait_all_uploads` on an unfinished upload. */
    ghost predicate AwaitsUpload()
      reads this
    {
      && model.control.Joining? && model.control.next < |pendingUploads|
      && pendingUploads[model.control.next].status.Running?
    }

    /** `wait_for_slot`; `slot` is false when the schedule ends first. */
    method WaitForSlot(schedule: Schedule) returns (slot: bool, failed: bool, left: Schedule)
      requires Valid() && model.control.WaitingForSlot?
      modifies this`pendingUploads, this`staged, this`model, this`trace
      ensures OnlyWaited() && |left| <= |schedule|
      ensures slot ==>
                !failed && model.control == CollectingUploads(old(model).control.rest, old(model).control.processed)
      ensures failed ==>
                model.control.Idle? && model.anyFailure && !NoError(old(pendingUploads), Ends(schedule))
      ensures !failed ==> model.anyFailure == old(model).anyFailure && KeepsNoError(schedule, left)
      ensures slot && NoneFailed(pendingUploads) ==> NoneFailed(old(pendingUploads))
      ensures !slot && !failed ==> AwaitsSlot() && left == []
    {
      hide Run, Next, ActiveCount, Collect, Ends, NoneFailed, AllOk;
      left := schedule;
      slot := SlotIsFree();
      while !slot
        invariant OnlyWaited() && |left| <= |schedule| && model.anyFailure == old(model).anyFailure
        invariant KeepsNoError(schedule, left)
        invariant NoneFailed(pendingUploads) ==> NoneFailed(old(pendingUploads))
        invariant !slot ==> AwaitsSlot()
        invariant var rest, processed := old(model).control.rest, old(model).control.processed;
                  model.control == if slot then CollectingUploads(rest, processed) else Sleeping(rest, processed)
        decreases |left|
      {
        if left == [] {
          return false, false, left;
        }
        var ok;
        ok, left := CollectOrFail(left);
        if !ok {
          return false, true, left;
        }
        slot := SlotIsFree();
      }
      failed := false;
    }

    /**
     The rest of the loop body once the buffer is full: wait for a slot, collect,
     name the block and start its upload. The buffer moves whole into one new
     block, which takes the next id.
     */
    method SendBlock(schedule: Schedule) returns (sent: bool, failed: bool, left: Schedule)
      requires Valid() && model.control.WaitingForSlot?
      modifies this`blockBuffer, this`blockIds, this`currentBlockNumber, this`pendingUploads, this`staged
      modifies this`model, this`trace
      ensures Valid() && old(trace) <= trace
      ensures model.handed == old(model).handed && bytesWritten == old(bytesWritten)
      ensures sent ==>
                && !failed && blockBuffer == [] && model.anyFailure == old(model).anyFailure
                && blockIds == old(blockIds) + [BlockId(old(currentBlockNumber))]
                && model.blocks == old(model).blocks + [(old(currentBlockNumber), old(blockBuffer))]
                && currentBlockNumber == old(currentBlockNumber) + 1
                && model.control == Writing(old(model).control.rest, old(model).control.processed)
      ensures !sent ==> blockBuffer == old(blockBuffer) && blockIds == old(blockIds)
      ensures failed ==>
                model.control.Idle? && model.anyFailure && !NoError(old(pendingUploads), Ends(schedule))
      ensures sent ==> NoneFailed(old(pendingUploads)) && KeepsNoError(schedule, left)
      ensures !sent && !failed ==> AwaitsSlot() && left == []
    {
      hide Run, Next, BlockId, ActiveCount, Ends, NoneFailed, AllOk, After;
      sent, failed, left := WaitForSlot(schedule);
      if sent {
        sent, left := CollectOrFail(left);
        failed := !sent;
        if sent {
          left := TickWell(left);
          Launch();
          left := TickWell(left);
        }
      }
    }

    /** The call is admitted. */
    method BeginWrite(data: seq<Byte>)
      requires Valid() && model.control.Idle? && !finalized && !aborted
      modifies this`model, this`trace
      ensures Valid() && old(trace) <= trace
      ensures model == old(model).(control := Writing(data, 0), handed := old(model).handed + data)
    {
      hide Run, Next;
      WriteStep(model, data);
      Record(Event.Write(data));
    }

    /** Everything is copied: count it. */
    method EndWrite(bytesProcessed: nat)
      requires Valid() && model.control == Writing([], bytesProcessed)
      modifies this`bytesWritten, this`model, this`trace
      ensures Valid() && old(trace) <= trace
      ensures bytesWritten == old(bytesWritten) + bytesProcessed
      ensures model == old(model).(control := Idle, bytesWritten := bytesWritten)
    {
      hide Run, Next;
      AdvanceStep(model);
      bytesWritten := bytesWritten + bytesProcessed;
      Record(Advance);
    }

    /** Copying, and the uploads that end meanwhile. */
    method CopySome(remaining: seq<Byte>, bytesProcessed: nat, schedule: Schedule) returns (copied: nat, left: Schedule)
      requires Valid() && model.control == Writing(remaining, bytesProcessed) && remaining != []
      modifies this`blockBuffer, this`pendingUploads, this`staged, this`model, this`trace
      ensures Valid() && old(trace) <= trace
      ensures |old(blockBuffer)| <= partSize && copied == Min(|remaining|, partSize - |old(blockBuffer)|)
      ensures blockBuffer == old(blockBuffer) + remaining[..copied]
      ensures model.handed == old(model).handed && bytesWritten == old(bytesWritten)
      ensures model.control ==
              if |blockBuffer| >= partSize then WaitingForSlot(remaining[copied..], bytesProcessed + copied)
              else Writing(remaining[copied..], bytesProcessed + copied)
      ensures model.anyFailure == old(model).anyFailure
      ensures KeepsNoError(schedule, left) && (NoneFailed(pendingUploads) ==> NoneFailed(old(pendingUploads)))
    {
      BufferFits();
      hide Run, Next, NoneFailed, AllOk, Ends;
      copied := Copy(remaining, bytesProcessed);
      left := TickWell(schedule);
    }

    /** The body of the copy loop; `sent` is false only if a full buffer still waits for a slot or the call fails. */
    method CopyAndSend(remaining: seq<Byte>, bytesProcessed: nat, schedule: Schedule)
      returns (copied: nat, sent: bool, failed: bool, left: Schedule)
      requires Valid() && model.control == Writing(remaining, bytesProcessed) && remaining != []
      modifies this`blockBuffer, this`blockIds, this`currentBlockNumber, this`pendingUploads, this`staged
      modifies this`model, this`trace
      ensures Valid() && old(trace) <= trace && copied <= |remaining|
      ensures model.handed == old(model).handed && bytesWritten == old(bytesWritten)
      ensures sent ==>
                && !failed && model.anyFailure == old(model).anyFailure && KeepsNoError(schedule, left)
                && model.control == Writing(remaining[copied..], bytesProcessed + copied)
                && (copied > 0 || |blockBuffer| < |old(blockBuffer)|)
                && (NoneFailed(old(pendingUploads)) ||
                    (copied == |remaining| && |old(blockBuffer)| + copied < partSize))
      ensures failed ==>
                model.control.Idle? && model.anyFailure && !NoError(old(pendingUploads), Ends(schedule))
      ensures !sent && !failed ==> AwaitsSlot() && left == []
    {
      hide Run, Next, BlockId, AdvanceCaller, ActiveCount, Ends, NoneFailed, AllOk;
      copied, left := CopySome(remaining, bytesProcessed, schedule);
      sent, failed := true, false;
      if |blockBuffer| >= partSize {
        sent, failed, left := SendBlock(left);
      }
    }

    /** The buffer never exceeds a part, so the space left in it does not wrap around. */
    lemma BufferFits()
      requires Valid()
      ensures |blockBuffer| <= partSize
    {
      hide Run;
      RunPhases(partSize, maxConcurrentParts, trace);
    }

    /**
     `write`. A successful call has taken all of the data and counted it; a
     failed one has left the stream open. The call can fail only if an upload
     has failed, it does not get past its first full buffer if one had failed
     before, and it waits only while the schedule is used up and the cap is
     reached. In any case the object is where the step system is after the
     extended trace.
     */
    method Write(data: seq<Byte>, schedule: Schedule) returns (out: Outcome<nat>, left: Schedule)
      requires Valid() && model.control.Idle?
      modifies this
      ensures Valid() && old(trace) <= trace
      ensures old(finalized) || old(aborted) ==> out == Returned(Err(InternalError)) && trace == old(trace)
      ensures !old(finalized) && !old(aborted) ==> model.handed == old(model).handed + data
      ensures out.Returned? ==> model.control.Idle?
      ensures out.Returned? && out.result.Ok? ==>
                && out.result.value == |data| && bytesWritten == old(bytesWritten) + |data|
                && model.anyFailure == old(model).anyFailure
                && (data == [] || |old(blockBuffer)| + |data| < partSize || NoneFailed(old(pendingUploads)))
      ensures out.Returned? && out.result.Err? && !old(finalized) && !old(aborted) ==>
                model.anyFailure && !NoError(old(pendingUploads), Ends(schedule))
      ensures out.StillRunning? ==> AwaitsSlot() && left == []
    {
      left := schedule;
      if finalized || aborted {
        return Returned(Err(InternalError)), left;
      }
      hide Run, Next, BlockId, AdvanceCaller, ActiveCount, Ends, NoneFailed, AllOk;
      BeginWrite(data);
      var bytesProcessed, remaining := 0, data;
      while |remaining| > 0
        invariant Valid() && old(trace) <= trace
        invariant model.control == Writing(remaining, bytesProcessed) && bytesProcessed + |remaining| == |data|
        invariant model.handed == old(model).handed + data && bytesWritten == old(bytesWritten)
        invariant model.anyFailure == old(model).anyFailure && KeepsNoError(schedule, left)
        invariant (remaining == data && blockBuffer == old(blockBuffer) && pendingUploads == old(pendingUploads)) ||
                  (remaining == [] && |old(blockBuffer)| + |data| < partSize) || NoneFailed(old(pendingUploads))
        decreases |remaining|, |blockBuffer|
      {
        var toCopy, sent, failed;
        toCopy, sent, failed, left := CopyAndSend(remaining, bytesProcessed, left);
        if failed {
          return Returned(Err(InternalError)), left;
        }
        if !sent {
          return StillRunning, left;
        }
        remaining := remaining[toCopy..];
        bytesProcessed := bytesProcessed + toCopy;
      }
      EndWrite(bytesProcessed);
      out := Returned(Ok(bytesProcessed));
    }

    // ---- `finalize` and `abort` --------------------------------------------

    /** Between two states of a finalize call nothing was written, copied or named. */
    twostate predicate OnlyFinishing()
      reads this
    {
      && Valid() && old(trace) <= trace
      && blockIds == old(blockIds) && blockBuffer == old(blockBuffer) && bytesWritten == old(bytesWritten)
      && model.handed == old(model).handed && model.accepted == old(model).accepted
    }

    /** The call is admitted and names what is left in the buffer. */
    method NameLastBlock()
      requires Valid() && model.control.Idle? && !finalized && !aborted
      modifies this`blockIds, this`model, this`trace
      ensures Valid() && old(trace) <= trace
      ensures blockIds == old(blockIds) + if blockBuffer != [] then [BlockId(currentBlockNumber)] else []
      ensures model.control == if blockBuffer != [] then UploadingLast else Joining(0)
      ensures model.handed == old(model).handed && model.accepted == old(model).accepted
      ensures model.brokenFinals == old(model).brokenFinals && model.anyFailure == old(model).anyFailure
    {
      hide Run, Next, BlockId;
      FinalizeStep(model);
      if |blockBuffer| > 0 {
        var blockId := BlockId(currentBlockNumber);
        blockIds := blockIds + [blockId];
      }
      Record(Event.Finalize);
    }

    /** The synchronous upload of the last block; asynchronous uploads end meanwhile. */
    method UploadLast(ok: bool, stages: bool, schedule: Schedule) returns (left: Schedule, ghost used: seq<End>)
      requires Valid() && model.control.UploadingLast? && blockBuffer != []
      modifies this`pendingUploads, this`staged, this`model, this`trace
      ensures OnlyFinishing() && After(old(pendingUploads), pendingUploads, used)
      ensures Ends(schedule) == used + Ends(left)
      ensures if ok then model.control == Joining(0) && model.brokenFinals == old(model).brokenFinals &&
                         model.anyFailure == old(model).anyFailure
              else model.control.Idle? && model.anyFailure && model.brokenFinals == old(model).brokenFinals + 1
    {
      hide Run, Next, BlockId, Ends, After;
      left, used := Tick(schedule);
      if ok || stages {
        staged := staged[BlockId(currentBlockNumber) := blockBuffer];
      }
      LastUploadStep(model, ok, stages);
      Record(LastUploadEnds(ok, stages));
    }

    /** `wait_all_uploads` takes the result of one future that is no longer running. */
    method TakeResult(i: nat) returns (ok: bool)
      requires Valid() && model.control == Joining(i) && i < |pendingUploads| && !pendingUploads[i].status.Running?
      modifies this`pendingUploads, this`model, this`trace
      ensures OnlyFinishing()
      ensures pendingUploads == old(pendingUploads)[i := old(pendingUploads)[i].(status := Consumed)]
      ensures ok == (old(pendingUploads)[i].status != Ready(false))
      ensures if ok then model.control == Joining(i + 1) && model.brokenFinals == old(model).brokenFinals &&
                         model.anyFailure == old(model).anyFailure
              else model.control.Idle? && model.anyFailure &&
                   model.brokenFinals == old(model).brokenFinals + if blockBuffer != [] then 1 else 0
    {
      hide Run, Next, BlockId, AdvanceCaller;
      AdvanceStep(model);
      TakeStep(model, i);
      var p := pendingUploads[i];
      ok := p.status != Ready(false);
      pendingUploads := pendingUploads[i := p.(status := Consumed)];
      Record(Advance);
    }

    /** All uploads have succeeded: forget them and close the stream. */
    method Close()
      requires Valid() && model.control == Joining(|pendingUploads|)
      modifies this`pendingUploads, this`finalized, this`model, this`trace
      ensures OnlyFinishing() && finalized
      ensures model.control.Committing? && model.brokenFinals == old(model).brokenFinals
      ensures model.anyFailure == old(model).anyFailure
    {
      hide Run, Next, BlockId;
      AdvanceStep(model);
      pendingUploads := [];
      finalized := true;
      Record(Advance);
    }

    /**
     `wait_all_uploads` passes the uploads in order; it fails at the first one
     that fails, and waits at the first one that has no end in the schedule.
     */
    method WaitAllUploads(schedule: Schedule) returns (done: bool, failed: bool, left: Schedule)
      requires Valid() && model.control == Joining(0)
      modifies this`pendingUploads, this`staged, this`finalized, this`model, this`trace
      ensures OnlyFinishing() && !(done && failed)
      ensures done ==> forall i :: 0 <= i < |old(pendingUploads)| ==> Passes(old(pendingUploads), Ends(schedule), i)
      ensures failed ==> exists i: nat :: StopsAt(old(pendingUploads), Ends(schedule), i, Ready(false))
      ensures !done && !failed ==>
                && AwaitsUpload() && left == []
                && exists i: nat :: StopsAt(old(pendingUploads), Ends(schedule), i, Running)
      ensures done ==> finalized && model.control.Committing? && model.brokenFinals == old(model).brokenFinals &&
                       model.anyFailure == old(model).anyFailure
      ensures failed ==> model.control.Idle? && model.anyFailure &&
                         model.brokenFinals == old(model).brokenFinals + if blockBuffer != [] then 1 else 0
    {
      hide Run, Next, BlockId, AdvanceCaller, Ends, After, Fate, WaitsAt, Passes, StopsAt;
      ghost var before, used: seq<End> := pendingUploads, [];
      var i := 0;
      left := schedule;
      WaitsAtFirst(before);
      while i < |pendingUploads|
        invariant OnlyFinishing() && WaitsAt(before, pendingUploads, used, i) && Ends(schedule) == used + Ends(left)
        invariant model.control == Joining(i) && model.brokenFinals == old(model).brokenFinals
        invariant model.anyFailure == old(model).anyFailure && |pendingUploads| == |before| && i <= |before|
        decreases |left|, |pendingUploads| - i
      {
        ghost var now := pendingUploads;
        StopsHere(before, now, used, Ends(left), i);
        if pendingUploads[i].status.Running? {
          if left == [] {
            NoEnds();
            return false, false, left;
          }
          ghost var ends;
          left, ends := Tick(left);
          AfterKeepsLength(now, pendingUploads, ends);
          WaitsOn(before, now, pendingUploads, used, ends, i);
          assert used + (ends + Ends(left)) == used + ends + Ends(left);
          used := used + ends;
        } else {
          var ok := TakeResult(i);
          if !ok {
            return false, true, left;
          }
          WaitsAtNext(before, now, used, i);
          i := i + 1;
        }
      }
      StopsHere(before, pendingUploads, used, Ends(left), i);
      Close();
      done, failed := true, false;
    }

    /** `finalize` up to the commit: the last block, then the wait. */
    method FinishUploads(schedule: Schedule, lastOk: bool, lastStages: bool)
      returns (done: bool, failed: bool, left: Schedule)
      requires Valid() && model.control.Idle? && !finalized && !aborted
      modifies this
      ensures Valid() && old(trace) <= trace && committed == old(committed)
      ensures blockBuffer == old(blockBuffer) && bytesWritten == old(bytesWritten)
      ensures model.handed == old(model).handed && model.accepted == old(model).accepted
      ensures blockIds == old(blockIds) + if blockBuffer != [] then [BlockId(old(currentBlockNumber))] else []
      ensures !(done && failed)
      ensures done ==>
                && (blockBuffer == [] || lastOk)
                && (forall i :: 0 <= i < |old(pendingUploads)| ==> Passes(old(pendingUploads), Ends(schedule), i))
                && finalized && model.control.Committing? && model.brokenFinals == old(model).brokenFinals
                && model.anyFailure == old(model).anyFailure
      ensures failed ==>
                && ((blockBuffer != [] && !lastOk) ||
                    exists i: nat :: StopsAt(old(pendingUploads), Ends(schedule), i, Ready(false)))
                && model.control.Idle? && model.anyFailure
                && model.brokenFinals == old(model).brokenFinals + if blockBuffer != [] then 1 else 0
      ensures !done && !failed ==>
                && (blockBuffer == [] || lastOk) && AwaitsUpload() && left == []
                && exists i: nat :: StopsAt(old(pendingUploads), Ends(schedule), i, Running)
    {
      hide Run, Next, BlockId, AdvanceCaller, Ends, Fate, After, Passes, StopsAt;
      NameLastBlock();
      ghost var used: seq<End> := [];
      left := schedule;
      AfterNothing(pendingUploads);
      assert [] + Ends(schedule) == Ends(schedule);
      if |blockBuffer| > 0 {
        left, used := UploadLast(lastOk, lastStages, left);
        if !lastOk {
          return false, true, left;
        }
      }
      FatesInSteps(old(pendingUploads), pendingUploads, used, Ends(left));
      AfterKeepsLength(old(pendingUploads), pendingUploads, used);
      done, failed, left := WaitAllUploads(left);
    }

    /** If no call has failed, the list is complete and stands for what was handed over. */
    lemma BeforeCommit()
      requires Valid()
      ensures model.control.Committing? && !model.anyFailure ==>
                AllStaged(blockIds, staged) && bytesWritten == |model.handed|
    {
      hide Run, Next, AllStaged;
      CommitSucceeds(partSize, maxConcurrentParts, trace);
    }

    /** What a committed blob holds. */
    lemma AfterCommit()
      requires Valid()
      ensures committed.Blob? && model.brokenFinals == 0 ==> committed.content == model.accepted
      ensures committed.Blob? && !model.anyFailure ==>
                committed.content == model.handed && bytesWritten == |model.handed|
    {
      hide Run, NamesEachOnce;
      CommitIsFaithful(partSize, maxConcurrentParts, trace);
      ErrorFreeCommit(partSize, maxConcurrentParts, trace);
    }

    /** `commit_block_list`: the server accepts the list only if it has every block of it. */
    method CommitBlockList(accepts: bool) returns (result: Result<nat>)
      requires Valid() && model.control.Committing?
      modifies this`staged, this`committed, this`model, this`trace
      ensures OnlyFinishing() && model.control.Idle?
      ensures result == if accepts && AllStaged(blockIds, old(staged)) then Ok(bytesWritten) else Err(InternalError)
      ensures result.Ok? ==> committed == Blob(Concat(StagedParts(blockIds, old(staged))))
      ensures result.Ok? ==> model.brokenFinals == old(model).brokenFinals && model.anyFailure == old(model).anyFailure
      ensures result.Err? ==> model.anyFailure && committed == old(committed) &&
                              model.brokenFinals == old(model).brokenFinals + if blockBuffer != [] then 1 else 0
    {
      hide Run, Next, BlockId, Concat, AllStaged, StagedParts;
      CommitStep(model, accepts);
      if accepts && AllStaged(blockIds, staged) {
        committed := Blob(Concat(StagedParts(blockIds, staged)));
        staged := map[];
        result := Ok(bytesWritten);
      } else {
        result := Err(InternalError);
      }
      Record(CommitReply(accepts));
    }

    /** The last part of `finalize`. */
    method Commit(accepts: bool) returns (result: Result<nat>)
      requires Valid() && model.control.Committing?
      modifies this`staged, this`committed, this`model, this`trace
      ensures OnlyFinishing() && model.control.Idle?
      ensures result == Ok(bytesWritten) || result == Err(InternalError)
      ensures !accepts ==> result.Err?
      ensures accepts && !old(model).anyFailure ==>
                result == Ok(|model.handed|) && committed == Blob(model.handed) && bytesWritten == |model.handed|
      ensures result.Ok? ==>
                && committed.Blob? && (model.brokenFinals == 0 ==> committed.content == model.accepted)
                && (!model.anyFailure ==> committed.content == model.handed && bytesWritten == |model.handed|)
      ensures result.Err? ==> model.anyFailure && committed == old(committed) &&
                              model.brokenFinals == old(model).brokenFinals + if blockBuffer != [] then 1 else 0
    {
      hide Run, Next, BlockId, Concat, AllStaged, StagedParts;
      BeforeCommit();
      result := CommitBlockList(accepts);
      AfterCommit();
    }

    /**
     `finalize`. What it returns is decided by the caller's inputs. Once the last
     block is uploaded it waits if and only if, in the order of the list, an
     upload without an end in the schedule comes before every failing one. If it
     returns and no call had failed before, it fails if and only if the last
     block is not uploaded, the server does not accept the list, or an upload has
     failed or will fail; otherwise it has committed exactly the bytes handed to
     `write`, and reports their number. After earlier failures a success still
     commits the accepted bytes if no earlier finalize broke. A call that fails
     after naming its last block leaves the name in the list.
     */
    method Finalize(schedule: Schedule, lastOk: bool, lastStages: bool, accepts: bool)
      returns (out: Outcome<nat>, left: Schedule)
      requires Valid() && model.control.Idle?
      modifies this
      ensures Valid() && old(trace) <= trace
      ensures old(finalized) || old(aborted) ==> out == Returned(Err(InternalError)) && trace == old(trace)
      ensures !old(finalized) && !old(aborted) ==> model.handed == old(model).handed
      ensures !old(finalized) && !old(aborted) ==>
                (out.StillRunning? <==> MustWait(old(blockBuffer), old(pendingUploads), Ends(schedule), lastOk))
      ensures out.Returned? && MustFail(old(blockBuffer), old(pendingUploads), Ends(schedule), lastOk, accepts) ==>
                out.result == Err(InternalError) && committed == old(committed)
      ensures out.Returned? && !old(finalized) && !old(aborted) && !old(model).anyFailure &&
              !MustFail(old(blockBuffer), old(pendingUploads), Ends(schedule), lastOk, accepts) ==>
                out.result == Ok(|old(model).handed|) && committed == Blob(old(model).handed)
      ensures out.StillRunning? ==> AwaitsUpload() && left == []
      ensures out.Returned? && out.result.Ok? ==>
                && finalized && committed.Blob? && out.result.value == bytesWritten == old(bytesWritten)
                && model.handed == old(model).handed && model.accepted == old(model).accepted
                && (model.brokenFinals == 0 ==> committed.content == model.accepted)
                && (!model.anyFailure ==> committed.content == model.handed && bytesWritten == |model.handed|)
      ensures out.Returned? && out.result.Err? && !old(finalized) && !old(aborted) ==>
                && model.anyFailure
                && (old(blockBuffer) != [] ==>
                      model.brokenFinals == old(model).brokenFinals + 1 &&
                      blockIds == old(blockIds) + [BlockId(old(currentBlockNumber))])
    {
      left := schedule;
      if finalized || aborted {
        return Returned(Err(InternalError)), left;
      }
      hide Run, Next, BlockId, AdvanceCaller, Concat, AllStaged, StagedParts, Ends, Fate, After, StopsAt, Passes, Fails;
      Verdicts(pendingUploads, Ends(schedule));
      var done, failed;
      done, failed, left := FinishUploads(schedule, lastOk, lastStages);
      if failed {
        return Returned(Err(InternalError)), left;
      }
      if !done {
        return StillRunning, left;
      }
      var result := Commit(accepts);
      out := Returned(result);
    }

    /** `abort` */
    method Abort()
      requires Valid() && model.control.Idle?
      modifies this`aborted, this`model, this`trace
      ensures Valid() && trace == old(trace) + [Event.Abort] && aborted && model == old(model).(aborted := true)
    {
      hide Run;
      aborted := true;
      Record(Event.Abort);
    }
  }
}
