/**
 The upload half of `file_transfer_client.cpp`. Its fields are shared by all
 threads: between two of its own steps a call lets other threads take theirs,
 as a schedule says. Every method is proved to take the steps of
 `UploadControl`, so what holds in all runs there holds here.
 */
module UploadClient {
  import opened Bytes
  import opened UploadControl

  type Schedule = seq<seq<Step>>

  /** The thread whose calls the methods are. */
  const ME: nat := 0

  // ---- What a batch call does to its members --------------------------------

  function Moved(kind: Kind, s: TransferState): TransferState {
    if Selects(kind, ToTransferStatus(s)) then Target(kind) else s
  }

  /** The same, state by state. */
  function MemberAfter(s: TransferState, member: bool, kind: Kind): TransferState {
    if !member then s
    else
      match kind
      case ToPause => if s == Transferring then Paused else s
      case ToResume => if s == Paused then Transferring else s
      case ToCancel => if s !in {Completed, Failed, Cancelled} then Cancelled else s
  }

  lemma MovedMeans(kind: Kind, s: TransferState)
    ensures Moved(kind, s) == MemberAfter(s, true, kind)
  {
  }

  lemma FlagMeans(batch: Batch, kind: Kind)
    ensures Flagged(batch, kind) ==
            match kind
            case ToPause => batch.(paused := true)
            case ToResume => batch.(paused := false)
            case ToCancel => batch.(cancelled := true)
  {
  }

  /** The uploads after one pass over a batch. */
  function MoveMembers(uploads: map<nat, TransferState>, ids: seq<nat>, kind: Kind): (m: map<nat, TransferState>)
    ensures m.Keys == uploads.Keys
  {
    map id | id in uploads :: if id != 0 && id in ids then Moved(kind, uploads[id]) else uploads[id]
  }

  /** Pausing and then resuming a batch restores every upload if and only if no member was paused before. */
  lemma PauseThenResume(uploads: map<nat, TransferState>, ids: seq<nat>)
    ensures MoveMembers(MoveMembers(uploads, ids, ToPause), ids, ToResume) == uploads <==>
            forall id :: id in uploads && id != 0 && id in ids ==> uploads[id] != Paused
  {
    var after := MoveMembers(MoveMembers(uploads, ids, ToPause), ids, ToResume);
    if after == uploads {
      forall id | id in uploads && id != 0 && id in ids
        ensures uploads[id] != Paused
      {
        assert after[id] == uploads[id];
      }
    }
  }

  /**
   The same while others interleave: of an upload that no other thread touched
   during the two calls, the state is restored if and only if it was not a
   paused member.
   */
  lemma PauseThenResumeAmongOthers(u0: map<nat, TransferState>, u1: map<nat, TransferState>,
                                   u2: map<nat, TransferState>, ids: seq<nat>, t1: set<nat>, t2: set<nat>, id: nat)
    requires u0.Keys <= u1.Keys <= u2.Keys && id in u0 && id !in t1 && id !in t2
    requires forall k :: k in u0 && k !in t1 ==> u1[k] == MoveMembers(u0, ids, ToPause)[k]
    requires forall k :: k in u1 && k !in t2 ==> u2[k] == MoveMembers(u1, ids, ToResume)[k]
    ensures u2[id] == u0[id] <==> !(id != 0 && id in ids && u0[id] == Paused)
  {
    hide MoveMembers;
    assert u1[id] == MoveMembers(u0, ids, ToPause)[id] && u2[id] == MoveMembers(u1, ids, ToResume)[id];
    MemberMoved(u0, ids, ToPause, id);
    MemberMoved(u1, ids, ToResume, id);
  }

  lemma MemberMoved(uploads: map<nat, TransferState>, ids: seq<nat>, kind: Kind, id: nat)
    requires id in uploads
    ensures MoveMembers(uploads, ids, kind)[id] ==
            if id != 0 && id in ids then Moved(kind, uploads[id]) else uploads[id]
  {
  }

  /** A selected member may move, so the control call that follows an undisturbed read succeeds. */
  lemma SelectedMoves(kind: Kind, s: TransferState)
    ensures Selects(kind, ToTransferStatus(s)) ==> IsValidTransition(s, Target(kind))
    ensures kind == ToCancel ==> IsTerminal(Moved(kind, s)) && (IsTerminal(s) ==> Moved(kind, s) == s)
    ensures Moved(kind, Moved(kind, s)) == Moved(kind, s)
  {
  }

  // ---- What other threads may do meanwhile ----------------------------------

  /**
   From `c` to `c'` only other threads have moved: they may have changed the
   uploads in `touched` and made new ones, but nothing terminal, no member
   list, and nothing that belongs to this thread.
   */
  ghost predicate Interfered(c: Client, c': Client, touched: set<nat>) {
    && (ME in c'.jobs <==> ME in c.jobs) && (ME in c.jobs ==> c'.jobs[ME] == c.jobs[ME])
    && c.returned <= c'.returned && c.uploads.Keys <= c'.uploads.Keys
    && (forall id :: id in c.uploads && id !in touched ==> c'.uploads[id] == c.uploads[id])
    && TerminalStays(c, c')
    && (forall b :: b in c.batches ==>
                      b in c'.batches && c'.batches[b].transferIds == c.batches[b].transferIds)
    && (forall b :: b in c.openBatches && c.openBatches[b] == ME ==>
                      b in c'.openBatches && c'.openBatches[b] == ME)
  }

  lemma InterferedTwice(c: Client, c': Client, c'': Client, t: set<nat>, t': set<nat>)
    requires Interfered(c, c', t) && Interfered(c', c'', t') && t <= t'
    ensures Interfered(c, c'', t')
  {
  }

  lemma InterferedJob(c: Client, c': Client, touched: set<nat>)
    requires Interfered(c, c', touched)
    ensures (ME in c'.jobs <==> ME in c.jobs) && (ME in c.jobs ==> c'.jobs[ME] == c.jobs[ME])
  {
  }

  lemma NoInterference(c: Client, touched: set<nat>)
    ensures Interfered(c, c, touched)
  {
  }

  lemma BatchesKept(c: Client, step: Step)
    requires BatchesInOrder(c)
    ensures var c' := Next(c, step);
            && (forall b :: b in c.batches ==>
                              b in c'.batches && c'.batches[b].transferIds == c.batches[b].transferIds)
            && (step.thread != ME ==>
                  forall b :: b in c.openBatches && c.openBatches[b] == ME ==>
                                b in c'.openBatches && c'.openBatches[b] == ME)
  {
    hide Controlled, OwnMembers, AfterRead;
  }

  /** A step of another thread, in a run in which callers use their own handles. */
  lemma OthersStep(steps: seq<Step>, step: Step, touched: set<nat>)
    requires OwnHandles(EMPTY, steps) && step.thread != ME
    ensures var c := Run(EMPTY, steps); Interfered(c, Next(c, step), touched + Touched(c, step))
  {
    hide *;
    var c := Run(EMPTY, steps);
    RunsInOrder(steps);
    RunsAreValid(steps, step);
    ValidKeepsTerminal(c, Next(c, step));
    StepMovesOne(c, step);
    StepKeepsOtherJobs(c, step);
    ReturnedGrows(c, step);
    BatchesKept(c, step);
    InterferedIntro(c, Next(c, step), Touched(c, step), touched);
  }

  lemma InterferedIntro(c: Client, c': Client, moved: set<nat>, touched: set<nat>)
    requires (ME in c'.jobs <==> ME in c.jobs) && (ME in c.jobs ==> c'.jobs[ME] == c.jobs[ME])
    requires c.returned <= c'.returned && c.uploads.Keys <= c'.uploads.Keys && TerminalStays(c, c')
    requires forall id :: id in c.uploads && id !in moved ==> c'.uploads[id] == c.uploads[id]
    requires forall b :: b in c.batches ==> b in c'.batches && c'.batches[b].transferIds == c.batches[b].transferIds
    requires forall b :: b in c.openBatches && c.openBatches[b] == ME ==>
                           b in c'.openBatches && c'.openBatches[b] == ME
    ensures Interfered(c, c', touched + moved)
  {
  }

  /** How many files the start loop of `upload_files` looks at before `maxConcurrent` uploads are started. */
  function Visited(starts: seq<bool>, maxConcurrent: nat): (n: nat)
    ensures n <= |starts|
  {
    if starts == [] || maxConcurrent == 0 then 0
    else 1 + Visited(starts[1..], if starts[0] then maxConcurrent - 1 else maxConcurrent)
  }

  function Failures(starts: seq<bool>): nat {
    if starts == [] then 0 else Failures(starts[..|starts| - 1]) + if starts[|starts| - 1] then 0 else 1
  }

  lemma {:induction false} FailuresFromFirst(starts: seq<bool>, k: nat)
    requires k < |starts|
    ensures Failures(starts[..k + 1]) == Failures(starts[1..][..k]) + if starts[0] then 0 else 1
  {
    var longer, shorter := starts[..k + 1], starts[1..][..k];
    assert longer[..k] == starts[..k];
    if k > 0 {
      assert shorter[..k - 1] == starts[1..][..k - 1] && shorter[k - 1] == longer[k];
      FailuresFromFirst(starts, k - 1);
    } else {
      assert longer[..0] == [] && shorter == [];
    }
  }

  /** The start loop goes on as long as fewer than `maxConcurrent` uploads are started and there is a file left. */
  lemma {:induction false} VisitedMeans(starts: seq<bool>, maxConcurrent: nat)
    ensures var n := Visited(starts, maxConcurrent);
            && (forall k :: 0 <= k < n ==> k - Failures(starts[..k]) < maxConcurrent)
            && n - Failures(starts[..n]) <= maxConcurrent
            && (n < |starts| ==> n - Failures(starts[..n]) == maxConcurrent)
  {
    var n := Visited(starts, maxConcurrent);
    assert starts[..0] == [] && Failures([]) == 0;
    if starts != [] && maxConcurrent > 0 {
      hide Failures;
      VisitedMeans(starts[1..], if starts[0] then maxConcurrent - 1 else maxConcurrent);
      FailuresFromFirst(starts, n - 1);
      forall k | 0 < k < n
        ensures k - Failures(starts[..k]) < maxConcurrent
      {
        FailuresFromFirst(starts, k - 1);
      }
    }
  }

  /**
   What a start leaves in the id list: a fresh handle whose upload is
   transferring unless another thread has moved it already, or zero.
   */
  ghost predicate StartedAs(ok: bool, id: nat, before: Client, after: Client, touched: set<nat>) {
    if ok then
      && id != 0 && id in after.uploads && id !in before.uploads && id in after.returned
      && (id !in touched ==> after.uploads[id] == Transferring)
    else id == 0
  }

  /** The id list of `upload_files`: one entry for each visited file, then zeros, one too many for each failure. */
  ghost predicate BatchAsStarted(ids: seq<nat>, starts: seq<bool>, maxConcurrent: nat, before: Client, after: Client,
                                 touched: set<nat>) {
    var visited := Visited(starts, maxConcurrent);
    && |ids| == |starts| + Failures(starts[..visited]) && visited <= |ids|
    && (forall k :: 0 <= k < visited ==> StartedAs(starts[k], ids[k], before, after, touched))
    && (forall k :: visited <= k < |ids| ==> ids[k] == 0)
  }

  lemma StartedStays(ok: bool, id: nat, before: Client, c: Client, c': Client, t: set<nat>, t': set<nat>)
    requires StartedAs(ok, id, before, c, t) && Interfered(c, c', t') && t <= t'
    ensures StartedAs(ok, id, before, c', t')
  {
  }

  class FileTransferClient {
    const connected: bool
    var uploads: map<nat, TransferState>
    var nextTransferId: nat
    var batches: map<nat, Batch>
    var nextBatchId: nat

    // who has been given which handle, and where the threads stand
    var returned: set<nat>
    var openBatches: map<nat, nat>
    var jobs: map<nat, Job>

    /** The steps of all threads so far. */
    ghost var trace: seq<Step>
    /** The uploads that other threads have moved since the current call began. */
    ghost var touched: set<nat>

    function State(): Client
      reads this
    {
      Client(uploads, nextTransferId, returned, batches, nextBatchId, openBatches, jobs)
    }

    /** The object is where the steps of the trace lead, and all callers have used their own handles. */
    ghost predicate Valid()
      reads this
    {
      State() == Run(EMPTY, trace) && OwnHandles(EMPTY, trace)
    }

    /** No call of this thread is under way. */
    ghost predicate Ready()
      reads this
    {
      Valid() && ME !in jobs
    }

    /** Since the start of the method only other threads have taken steps. */
    twostate predicate OnlyOthers()
      reads this
    {
      && Valid() && old(trace) <= trace && old(touched) <= touched
      && Interfered(old(State()), State(), touched)
    }

    constructor (connected: bool)
      ensures Ready() && State() == EMPTY && trace == [] && this.connected == connected
    {
      this.connected := connected;
      uploads, nextTransferId, batches, nextBatchId := map[], 1, map[], 1;
      returned, openBatches, jobs, trace, touched := {}, map[], map[], [], {};
    }

    /** Books the step that was just taken. */
    ghost method Record(before: Client, step: Step)
      requires before == Run(EMPTY, trace) && OwnHandles(EMPTY, trace) && UsesOwnHandle(before, step)
      requires State() == Next(before, step)
      modifies this`trace
      ensures Valid() && trace == old(trace) + [step]
    {
      hide Next, Run, OwnHandles;
      RunOneMore(EMPTY, trace, step);
      OwnOneMore(EMPTY, trace, step);
      trace := trace + [step];
    }

    /** A step of another thread, which uses its own handles. */
    method Other(step: Step)
      requires Valid()
      modifies this
      ensures OnlyOthers()
    {
      hide Next, Run, OwnHandles, Interfered, Touched;
      NoInterference(State(), touched);
      if step.thread != ME && UsesOwnHandle(State(), step) {
        ghost var before := State();
        OthersStep(trace, step, touched);
        var c := Next(State(), step);
        uploads, nextTransferId, returned, batches := c.uploads, c.nextTransferId, c.returned, c.batches;
        nextBatchId, openBatches, jobs := c.nextBatchId, c.openBatches, c.jobs;
        touched := touched + Touched(before, step);
        Record(before, step);
      }
    }

    /** Lets the next batch of the schedule happen. */
    method Tick(schedule: Schedule) returns (left: Schedule)
      requires Valid()
      modifies this
      ensures OnlyOthers()
      ensures schedule == [] ==> left == [] && State() == old(State()) && touched == old(touched)
    {
      hide Next, Run, OwnHandles, Interfered;
      NoInterference(State(), touched);
      left := schedule;
      if schedule != [] {
        for k := 0 to |schedule[0]|
          invariant OnlyOthers()
        {
          ghost var c, t := State(), touched;
          Other(schedule[0][k]);
          InterferedTwice(old(State()), c, State(), t, touched);
        }
        left := schedule[1..];
      }
    }

    // ---- `upload_file` -----------------------------------------------------

    /** Takes the next id. */
    method Take() returns (id: nat)
      requires Ready()
      modifies this`nextTransferId, this`jobs, this`trace
      ensures Valid() && old(trace) <= trace
      ensures ME in jobs && jobs[ME] == Starting(id) && id != 0 && id !in old(uploads)
      ensures forall t :: t != ME && t in old(jobs) ==> t in jobs && jobs[t] == old(jobs)[t]
    {
      hide Run, OwnHandles;
      RunsInOrder(trace);
      ghost var before := State();
      FreshId(before, ME);
      id := nextTransferId;
      nextTransferId := nextTransferId + 1;
      jobs := jobs[ME := Starting(id)];
      hide Next;
      Record(before, TakeId(ME));
    }

    /** Stores the context. */
    method Store(id: nat)
      requires Valid() && ME in jobs && jobs[ME] == Starting(id)
      modifies this`uploads, this`jobs, this`trace
      ensures Valid() && old(trace) <= trace && jobs == old(jobs)[ME := Stored(id)]
      ensures id !in old(uploads) && uploads == old(uploads)[id := Initializing]
    {
      hide Run, OwnHandles;
      RunsInOrder(trace);
      ghost var before := State();
      uploads := uploads[id := Initializing];
      jobs := jobs[ME := Stored(id)];
      Record(before, StoreUpload(ME));
    }

    /** Marks the upload as transferring, whatever its state, and returns the handle. */
    method Mark(id: nat)
      requires Valid() && ME in jobs && jobs[ME] == Stored(id)
      modifies this`uploads, this`returned, this`jobs, this`trace
      ensures Ready() && old(trace) <= trace && returned == old(returned) + {id}
      ensures id in old(uploads) && uploads == old(uploads)[id := Transferring]
    {
      hide Run, OwnHandles;
      RunsInOrder(trace);
      ghost var before := State();
      if id in uploads {
        uploads := uploads[id := Transferring];
      }
      returned := returned + {id};
      jobs := jobs - {ME};
      Record(before, FinishUpload(ME));
    }

    /** The part of `upload_file` behind its checks. */
    method Start(schedule: Schedule) returns (id: nat, left: Schedule)
      requires Ready()
      modifies this
      ensures Ready() && OnlyOthers()
      ensures StartedAs(true, id, old(State()), State(), touched) && uploads[id] == Transferring
    {
      hide Run, OwnHandles, Next, Interfered, TerminalStays;
      id := Take();
      ghost var c1, t1 := State(), touched;
      left := Tick(schedule);
      ghost var c2, t2 := State(), touched;
      InterferedJob(c1, c2, t2);
      Store(id);
      ghost var c3 := State();
      left := Tick(left);
      ghost var c4, t4 := State(), touched;
      InterferedJob(c3, c4, t4);
      Mark(id);
      StartFrames(old(State()), c1, c2, c3, c4, State(), id, t2, t4);
    }

    /** `upload_file`; the flags report whether the file exists and has a size. */
    method UploadFile(fileExists: bool, sizeKnown: bool, schedule: Schedule) returns (r: Result<nat>, left: Schedule)
      requires Ready()
      modifies this
      ensures Ready() && old(trace) <= trace && Interfered(old(State()), State(), touched)
      ensures r.Err? <==> !connected || !fileExists || !sizeKnown
      ensures r.Err? ==> State() == old(State()) && r.error ==
                         if !connected then NotInitialized else if !fileExists then FileNotFound else FileReadError
      ensures r.Ok? ==>
                && StartedAs(true, r.value, old(State()), State(), touched)
                && uploads[r.value] == Transferring && r.value != 0
    {
      touched := {};
      r, left := StartFile(fileExists, sizeKnown, schedule);
    }

    /** The same inside `upload_files`, which is one call. */
    method StartFile(fileExists: bool, sizeKnown: bool, schedule: Schedule) returns (r: Result<nat>, left: Schedule)
      requires Ready()
      modifies this
      ensures Ready() && OnlyOthers()
      ensures r.Err? <==> !connected || !fileExists || !sizeKnown
      ensures r.Err? ==> State() == old(State()) && touched == old(touched) && r.error ==
                         if !connected then NotInitialized else if !fileExists then FileNotFound else FileReadError
      ensures r.Ok? ==>
                && StartedAs(true, r.value, old(State()), State(), touched)
                && uploads[r.value] == Transferring
    {
      hide Run, OwnHandles, Interfered, StartedAs;
      NoInterference(State(), touched);
      left := schedule;
      if !connected {
        return Err(NotInitialized), left;
      }
      if !fileExists {
        return Err(FileNotFound), left;
      }
      if !sizeKnown {
        return Err(FileReadError), left;
      }
      var id;
      id, left := Start(schedule);
      r := Ok(id);
    }

    // ---- Single control calls -----------------------------------------------

    /** `pause_transfer`, `resume_transfer` and `cancel_transfer` differ in the target state and the error. */
    method ControlTransfer(kind: Kind, id: nat) returns (r: Result<nat>)
      requires Ready() && (id in uploads ==> id in returned)
      modifies this`uploads, this`trace
      ensures Ready() && trace == old(trace) + [Control(ME, kind, id)]
      ensures r == if id !in old(uploads) then Err(TransferNotFound)
                   else if !IsValidTransition(old(uploads)[id], Target(kind)) then Err(Refusal(kind))
                   else Ok(id)
      ensures uploads == if r.Ok? then old(uploads)[id := Target(kind)] else old(uploads)
      ensures r.Ok? ==>
                uploads[id] == match kind
                               case ToPause => Paused
                               case ToResume => Transferring
                               case ToCancel => Cancelled
      ensures id in old(uploads) && r.Err? ==>
                r.error == if kind == ToCancel then TransferAlreadyCompleted else InvalidStateTransition
    {
      hide Run, OwnHandles, IsValidTransition;
      ghost var before := State();
      if id !in uploads {
        r := Err(TransferNotFound);
      } else if !IsValidTransition(uploads[id], Target(kind)) {
        r := Err(Refusal(kind));
      } else {
        uploads := uploads[id := Target(kind)];
        r := Ok(id);
      }
      Record(before, Control(ME, kind, id));
    }

    /** `get_transfer_status` */
    function GetTransferStatus(id: nat): TransferStatus
      reads this
    {
      StatusOf(uploads, id)
    }

    // ---- Batch calls ---------------------------------------------------------

    /** This thread stands before member `k` of a batch call. */
    ghost predicate AtMember(kind: Kind, ids: seq<nat>, k: nat, selected: bool)
      reads this
    {
      Valid() && ME in jobs && jobs[ME] == Sweeping(kind, ids, k, selected)
    }

    /** Members before `k` have been moved and other uploads have not, as far as no other thread has touched them. */
    ghost predicate Swept(before: map<nat, TransferState>, kind: Kind, ids: seq<nat>, k: nat)
      requires k <= |ids|
      reads this
    {
      && before.Keys <= uploads.Keys
      && forall id :: id in before && id !in touched ==> uploads[id] == MoveMembers(before, ids[..k], kind)[id]
    }

    /** Looks the batch up and sets its flag. */
    method Begin(kind: Kind, batchId: nat) returns (ids: seq<nat>)
      requires Ready() && batchId in batches
      modifies this`batches, this`jobs, this`trace
      ensures AtMember(kind, ids, 0, false) && old(trace) <= trace && ids == old(batches)[batchId].transferIds
      ensures batches == old(batches)[batchId := Flagged(old(batches)[batchId], kind)] && BatchesStay()
    {
      hide Run, OwnHandles;
      ghost var before := State();
      ids := batches[batchId].transferIds;
      match kind {
        case ToPause => batches := batches[batchId := batches[batchId].(paused := true)];
        case ToResume => batches := batches[batchId := batches[batchId].(paused := false)];
        case ToCancel => batches := batches[batchId := batches[batchId].(cancelled := true)];
      }
      jobs := jobs[ME := Sweeping(kind, ids, 0, false)];
      Record(before, BeginSweep(ME, kind, batchId));
    }

    /** Reads the status of member `k`, and decides. */
    method Read(kind: Kind, ids: seq<nat>, k: nat) returns (selected: bool)
      requires AtMember(kind, ids, k, false) && k < |ids|
      modifies this`jobs, this`trace
      ensures old(trace) <= trace && AtMember(kind, ids, if selected then k else k + 1, selected)
      ensures selected <==> ids[k] != 0 && Selects(kind, StatusOf(uploads, ids[k]))
    {
      hide Run, OwnHandles, Selects, StatusOf;
      ghost var before := State();
      selected := false;
      if ids[k] != 0 {
        var status := GetTransferStatus(ids[k]);
        selected := Selects(kind, status);
      }
      jobs := jobs[ME := Sweeping(kind, ids, if selected then k else k + 1, selected)];
      Record(before, ReadMember(ME));
    }

    /** The control call on member `k`, whatever has happened since its status was read; the result is ignored. */
    method Act(kind: Kind, ids: seq<nat>, k: nat)
      requires AtMember(kind, ids, k, true) && k < |ids|
      modifies this`uploads, this`jobs, this`trace
      ensures old(trace) <= trace && AtMember(kind, ids, k + 1, false)
      ensures uploads == Controlled(old(uploads), kind, ids[k])
    {
      hide Run, OwnHandles, IsValidTransition;
      ghost var before := State();
      var id := ids[k];
      if id in uploads && IsValidTransition(uploads[id], Target(kind)) {
        uploads := uploads[id := Target(kind)];
      }
      jobs := jobs[ME := Sweeping(kind, ids, k + 1, false)];
      Record(before, ActOnMember(ME));
    }

    method End(kind: Kind, ids: seq<nat>)
      requires AtMember(kind, ids, |ids|, false)
      modifies this`jobs, this`trace
      ensures Ready() && old(trace) <= trace
    {
      hide Run, OwnHandles;
      ghost var before := State();
      jobs := jobs - {ME};
      Record(before, EndSweep(ME));
    }

    /** Others get in; what they leave alone stays swept. */
    method LetOthers(ghost before: map<nat, TransferState>, kind: Kind, ids: seq<nat>, ghost k: nat,
                     ghost selected: bool, schedule: Schedule)
      returns (left: Schedule)
      requires k <= |ids| && AtMember(kind, ids, k, selected) && Swept(before, kind, ids, k)
      modifies this
      ensures old(trace) <= trace && old(touched) <= touched
      ensures AtMember(kind, ids, k, selected) && Swept(before, kind, ids, k)
      ensures BatchesStay() && old(uploads).Keys <= uploads.Keys
      ensures forall id :: id in old(uploads) && id !in touched ==> uploads[id] == old(uploads)[id]
      ensures schedule == [] ==> left == [] && State() == old(State()) && touched == old(touched)
    {
      hide Run, OwnHandles, Next, MoveMembers;
      left := Tick(schedule);
    }

    /** The batches keep their members. */
    twostate predicate BatchesStay()
      reads this
    {
      forall b :: b in old(batches) ==> b in batches && batches[b].transferIds == old(batches)[b].transferIds
    }

    /** The body of the loop over the members; the mutexes are free between the status and the control call. */
    method SweepMember(ghost before: map<nat, TransferState>, kind: Kind, ids: seq<nat>, k: nat, schedule: Schedule)
      returns (left: Schedule)
      requires k < |ids| && AtMember(kind, ids, k, false) && Swept(before, kind, ids, k)
      modifies this
      ensures old(trace) <= trace && AtMember(kind, ids, k + 1, false) && Swept(before, kind, ids, k + 1)
      ensures BatchesStay()
      ensures schedule == [] ==>
                left == [] && touched == old(touched) && batches == old(batches) && uploads.Keys == old(uploads).Keys
    {
      hide Run, OwnHandles, Next, MoveMembers, Selects, IsValidTransition, ToTransferStatus, Moved;
      left := LetOthers(before, kind, ids, k, false, schedule);
      ghost var atRead := uploads;
      var selected := Read(kind, ids, k);
      ghost var atAct := uploads;
      if selected {
        left := LetOthers(before, kind, ids, k, true, left);
        atAct := uploads;
        Act(kind, ids, k);
      }
      SweptOneMore(before, atRead, atAct, uploads, kind, ids, k, selected, touched);
    }

    /** The loop over the members of a batch. */
    method SweepAll(kind: Kind, ids: seq<nat>, schedule: Schedule) returns (left: Schedule)
      requires AtMember(kind, ids, 0, false) && touched == {}
      modifies this
      ensures old(trace) <= trace && Ready()
      ensures old(uploads).Keys <= uploads.Keys && BatchesStay()
      ensures SweptUntouched(ids, kind)
      ensures schedule == [] ==>
                touched == {} && uploads == MoveMembers(old(uploads), ids, kind) && batches == old(batches)
      ensures kind == ToCancel ==>
                forall m :: 0 <= m < |ids| && ids[m] != 0 ==> ids[m] in uploads && IsTerminal(uploads[ids[m]])
    {
      hide Run, OwnHandles, Next, MoveMembers, IsTerminal;
      left := schedule;
      ghost var before := uploads;
      MoveNone(before, ids, kind);
      for k := 0 to |ids|
        invariant old(trace) <= trace && AtMember(kind, ids, k, false) && Swept(before, kind, ids, k)
        invariant BatchesStay()
        invariant schedule == [] ==>
                    left == [] && touched == {} && batches == old(batches) && uploads.Keys == before.Keys
      {
        left := SweepMember(before, kind, ids, k, left);
      }
      assert ids[..|ids|] == ids;
      MembersEnded(trace, State(), kind, ids);
      End(kind, ids);
    }

    /** The uploads are those of an undisturbed pass, except the ones that other threads have touched. */
    twostate predicate SweptUntouched(ids: seq<nat>, kind: Kind)
      reads this
    {
      forall id :: id in old(uploads) && id in uploads && id !in touched ==>
                     uploads[id] == MoveMembers(old(uploads), ids, kind)[id]
    }

    /** `pause_batch` */
    method PauseBatch(batchId: nat, schedule: Schedule) returns (r: Result<nat>, left: Schedule)
      requires Ready()
      modifies this
      ensures Ready() && old(trace) <= trace && BatchesStay() && old(uploads).Keys <= uploads.Keys
      ensures batchId !in old(batches) ==> r == Err(TransferNotFound) && State() == old(State())
      ensures batchId in old(batches) ==>
                r == Ok(batchId) && SweptUntouched(old(batches)[batchId].transferIds, ToPause)
      ensures batchId in old(batches) ==>
                var ids := old(batches)[batchId].transferIds;
                forall id :: id in old(uploads) && id !in touched ==>
                               uploads[id] ==
                               if id != 0 && id in ids && old(uploads)[id] == Transferring then Paused
                               else old(uploads)[id]
      ensures batchId in old(batches) && schedule == [] ==>
                && touched == {} && uploads == MoveMembers(old(uploads), old(batches)[batchId].transferIds, ToPause)
                && batches == old(batches)[batchId := old(batches)[batchId].(paused := true)]
    {
      hide Run, OwnHandles, Next, MoveMembers, IsTerminal, Flagged;
      touched := {};
      left := schedule;
      if batchId !in batches {
        return Err(TransferNotFound), left;
      }
      var ids := Begin(ToPause, batchId);
      FlagMeans(old(batches)[batchId], ToPause);
      ghost var before := old(uploads);
      forall id | id in before
        ensures MoveMembers(before, ids, ToPause)[id] == MemberAfter(before[id], id != 0 && id in ids, ToPause)
      {
        MemberMoved(before, ids, ToPause, id);
        MovedMeans(ToPause, before[id]);
      }
      left := SweepAll(ToPause, ids, schedule);
      r := Ok(batchId);
    }

    /** `resume_batch` */
    method ResumeBatch(batchId: nat, schedule: Schedule) returns (r: Result<nat>, left: Schedule)
      requires Ready()
      modifies this
      ensures Ready() && old(trace) <= trace && BatchesStay() && old(uploads).Keys <= uploads.Keys
      ensures batchId !in old(batches) ==> r == Err(TransferNotFound) && State() == old(State())
      ensures batchId in old(batches) ==>
                r == Ok(batchId) && SweptUntouched(old(batches)[batchId].transferIds, ToResume)
      ensures batchId in old(batches) ==>
                var ids := old(batches)[batchId].transferIds;
                forall id :: id in old(uploads) && id !in touched ==>
                               uploads[id] ==
                               if id != 0 && id in ids && old(uploads)[id] == Paused then Transferring
                               else old(uploads)[id]
      ensures batchId in old(batches) && schedule == [] ==>
                && touched == {} && uploads == MoveMembers(old(uploads), old(batches)[batchId].transferIds, ToResume)
                && batches == old(batches)[batchId := old(batches)[batchId].(paused := false)]
    {
      hide Run, OwnHandles, Next, MoveMembers, IsTerminal, Flagged;
      touched := {};
      left := schedule;
      if batchId !in batches {
        return Err(TransferNotFound), left;
      }
      var ids := Begin(ToResume, batchId);
      FlagMeans(old(batches)[batchId], ToResume);
      ghost var before := old(uploads);
      forall id | id in before
        ensures MoveMembers(before, ids, ToResume)[id] == MemberAfter(before[id], id != 0 && id in ids, ToResume)
      {
        MemberMoved(before, ids, ToResume, id);
        MovedMeans(ToResume, before[id]);
      }
      left := SweepAll(ToResume, ids, schedule);
      r := Ok(batchId);
    }

    /** `cancel_batch`: afterwards every started member is terminal, whatever the other threads did meanwhile. */
    method CancelBatch(batchId: nat, schedule: Schedule) returns (r: Result<nat>, left: Schedule)
      requires Ready()
      modifies this
      ensures Ready() && old(trace) <= trace && BatchesStay() && old(uploads).Keys <= uploads.Keys
      ensures batchId !in old(batches) ==> r == Err(TransferNotFound) && State() == old(State())
      ensures batchId in old(batches) ==>
                r == Ok(batchId) && SweptUntouched(old(batches)[batchId].transferIds, ToCancel)
      ensures batchId in old(batches) ==>
                var ids := old(batches)[batchId].transferIds;
                forall id :: id in old(uploads) && id !in touched ==>
                               uploads[id] ==
                               if id != 0 && id in ids && old(uploads)[id] !in {Completed, Failed, Cancelled}
                               then Cancelled else old(uploads)[id]
      ensures batchId in old(batches) ==>
                var ids := old(batches)[batchId].transferIds;
                forall m :: 0 <= m < |ids| && ids[m] != 0 ==> ids[m] in uploads && IsTerminal(uploads[ids[m]])
      ensures batchId in old(batches) && schedule == [] ==>
                && touched == {} && uploads == MoveMembers(old(uploads), old(batches)[batchId].transferIds, ToCancel)
                && batches == old(batches)[batchId := old(batches)[batchId].(cancelled := true)]
    {
      hide Run, OwnHandles, Next, MoveMembers, IsTerminal, Flagged;
      touched := {};
      left := schedule;
      if batchId !in batches {
        return Err(TransferNotFound), left;
      }
      var ids := Begin(ToCancel, batchId);
      FlagMeans(old(batches)[batchId], ToCancel);
      ghost var before := old(uploads);
      forall id | id in before
        ensures MoveMembers(before, ids, ToCancel)[id] == MemberAfter(before[id], id != 0 && id in ids, ToCancel)
      {
        MemberMoved(before, ids, ToCancel, id);
        MovedMeans(ToCancel, before[id]);
      }
      left := SweepAll(ToCancel, ids, schedule);
      r := Ok(batchId);
    }

    // ---- `upload_files` ------------------------------------------------------

    /**
     `upload_files`: starts uploads in order until `maxConcurrent` run, then
     fills the id list with zeros. `starts` tells for each file whether its
     upload can be started. The fill counts from the number of started uploads,
     not from the number of visited files, so every failed start makes the list
     one entry longer than the file list.
     */
    method UploadFiles(allExist: bool, starts: seq<bool>, maxConcurrent: nat, continueOnError: bool,
                       schedule: Schedule)
      returns (r: Result<nat>, left: Schedule)
      requires Ready()
      modifies this
      ensures Ready() && old(trace) <= trace && Interfered(old(State()), State(), touched)
      ensures !connected ==> r == Err(NotInitialized)
      ensures connected && starts == [] ==> r == Err(InvalidFilePath)
      ensures connected && starts != [] && !allExist ==> r == Err(FileNotFound)
      ensures connected && starts != [] && allExist ==>
                (r.Err? <==> !continueOnError && Failures(starts[..Visited(starts, maxConcurrent)]) > 0)
      ensures r.Ok? ==>
                && r.value !in old(batches) && r.value in batches
                && BatchAsStarted(batches[r.value].transferIds, starts, maxConcurrent, old(State()), State(), touched)
    {
      touched := {};
      left := schedule;
      NoInterference(State(), touched);
      hide Run, OwnHandles, Next, Interfered, StartedAs, Failures, Visited;
      if !connected {
        return Err(NotInitialized), left;
      }
      if starts == [] {
        return Err(InvalidFilePath), left;
      }
      if !allExist {
        return Err(FileNotFound), left;
      }
      r, left := MakeBatch(starts, maxConcurrent, continueOnError, left);
    }

    /** The part of `upload_files` behind its checks. */
    method MakeBatch(starts: seq<bool>, maxConcurrent: nat, continueOnError: bool, schedule: Schedule)
      returns (r: Result<nat>, left: Schedule)
      requires Ready() && connected
      modifies this
      ensures Ready() && OnlyOthers()
      ensures r.Err? <==> !continueOnError && Failures(starts[..Visited(starts, maxConcurrent)]) > 0
      ensures r.Ok? ==>
                && r.value !in old(batches) && r.value in batches
                && BatchAsStarted(batches[r.value].transferIds, starts, maxConcurrent, old(State()), State(), touched)
    {
      hide Run, OwnHandles, Next, Interfered, StartedAs, Failures, Visited;
      var batchId := TakeBatch();
      ghost var c1 := State();
      var ids, started, ok;
      ids, started, ok, left := StartUploads(starts, maxConcurrent, continueOnError, schedule);
      InterferedTwice(old(State()), c1, State(), {}, touched);
      if !ok {
        return Err(InternalError), left;
      }
      ghost var n, c2 := |ids|, State();
      ids := Fill(ids, started, |starts|);
      AllOwn(starts, ids, n, c1, c2, touched);
      BatchIsOpen(c1, c2, batchId, touched);
      StoreOne(batchId, ids);
      StoredFrames(old(State()), c1, c2, State(), batchId, starts, ids, n, touched);
      r := Ok(batchId);
    }

    /** One zero for each file from `started` on. */
    static method Fill(ids: seq<nat>, started: nat, files: nat) returns (longer: seq<nat>)
      requires started <= files
      ensures |longer| == |ids| + (files - started) && ids <= longer
      ensures forall k :: |ids| <= k < |longer| ==> longer[k] == 0
    {
      longer := ids;
      for j := started to files
        invariant |longer| == |ids| + (j - started) && ids <= longer
        invariant forall k :: |ids| <= k < |longer| ==> longer[k] == 0
      {
        longer := longer + [0];
      }
    }

    method TakeBatch() returns (batchId: nat)
      requires Ready()
      modifies this`nextBatchId, this`openBatches, this`trace
      ensures Ready() && old(trace) <= trace && batchId !in old(batches) && batchId !in old(openBatches)
      ensures openBatches == old(openBatches)[batchId := ME] && Interfered(old(State()), State(), {})
    {
      hide Run, OwnHandles;
      RunsInOrder(trace);
      ghost var before := State();
      batchId := nextBatchId;
      nextBatchId := nextBatchId + 1;
      openBatches := openBatches[batchId := ME];
      Record(before, TakeBatchId(ME));
    }

    method StoreOne(batchId: nat, ids: seq<nat>)
      requires Ready() && batchId in openBatches && openBatches[batchId] == ME && OwnMembers(State(), ids)
      modifies this`batches, this`openBatches, this`trace
      ensures Ready() && old(trace) <= trace && batchId !in old(batches)
      ensures batches == old(batches)[batchId := Batch(ids, false, false)]
      ensures openBatches == old(openBatches) - {batchId}
    {
      hide Run, OwnHandles;
      RunsInOrder(trace);
      ghost var before := State();
      batches := batches[batchId := Batch(ids, false, false)];
      openBatches := openBatches - {batchId};
      Record(before, StoreBatch(ME, batchId, ids));
    }

    /** The start loop of `upload_files`. */
    method StartUploads(starts: seq<bool>, maxConcurrent: nat, continueOnError: bool, schedule: Schedule)
      returns (ids: seq<nat>, started: nat, ok: bool, left: Schedule)
      requires Ready() && connected
      modifies this
      ensures Ready() && OnlyOthers()
      ensures ok <==> continueOnError || Failures(starts[..Visited(starts, maxConcurrent)]) == 0
      ensures ok ==>
                && |ids| == Visited(starts, maxConcurrent)
                && started <= maxConcurrent
                && started + Failures(starts[..Visited(starts, maxConcurrent)]) == |ids|
                && forall k :: 0 <= k < |ids| ==> StartedAs(starts[k], ids[k], old(State()), State(), touched)
    {
      hide Run, OwnHandles, Next, Interfered, StartedAs, Failures, Visited;
      ids, started, ok, left := [], 0, true, schedule;
      var i := 0;
      ghost var visited := Visited(starts, maxConcurrent);
      assert starts[0..] == starts;
      NothingVisited(starts);
      NoInterference(State(), touched);
      while i < |starts| && started < maxConcurrent
        invariant Ready() && OnlyOthers()
        invariant started <= maxConcurrent && i <= |starts| && |ids| == i
        invariant i + Visited(starts[i..], maxConcurrent - started) == visited
        invariant started + Failures(starts[..i]) == i
        invariant !continueOnError ==> Failures(starts[..i]) == 0
        invariant forall k :: 0 <= k < i ==> StartedAs(starts[k], ids[k], old(State()), State(), touched)
      {
        VisitOne(starts, i, maxConcurrent - started);
        ghost var c, t := State(), touched;
        var handle;
        handle, left := StartFile(true, starts[i], left);
        InterferedTwice(old(State()), c, State(), t, touched);
        var id := if handle.Ok? then handle.value else 0;
        OneMoreStarted(starts, ids, id, i, old(State()), c, State(), t, touched);
        ids := ids + [id];
        if handle.Ok? {
          started := started + 1;
        } else if !continueOnError {
          FailuresGrow(starts, i + 1, visited);
          ok := false;
          return;
        }
        i := i + 1;
      }
      VisitedNoMore(starts[i..], maxConcurrent - started);
    }
  }

  lemma OneMoreStarted(starts: seq<bool>, ids: seq<nat>, id: nat, i: nat, c0: Client, c: Client, c': Client,
                       t: set<nat>, t': set<nat>)
    requires i == |ids| < |starts| && t <= t' && Interfered(c0, c, t) && Interfered(c, c', t')
    requires forall k :: 0 <= k < i ==> StartedAs(starts[k], ids[k], c0, c, t)
    requires StartedAs(starts[i], id, c, c', t')
    ensures forall k :: 0 <= k <= i ==> StartedAs(starts[k], (ids + [id])[k], c0, c', t')
  {
    forall k | 0 <= k < i
      ensures StartedAs(starts[k], (ids + [id])[k], c0, c', t')
    {
      StartedStays(starts[k], ids[k], c0, c, c', t, t');
    }
  }

  lemma AllOwn(starts: seq<bool>, ids: seq<nat>, n: nat, c1: Client, c2: Client, t: set<nat>)
    requires n <= |ids| && n <= |starts|
    requires forall k :: 0 <= k < n ==> StartedAs(starts[k], ids[k], c1, c2, t)
    requires forall k :: n <= k < |ids| ==> ids[k] == 0
    ensures OwnMembers(c2, ids)
  {
  }

  lemma BatchIsOpen(c1: Client, c2: Client, batchId: nat, t: set<nat>)
    requires Interfered(c1, c2, t) && batchId in c1.openBatches && c1.openBatches[batchId] == ME
    ensures batchId in c2.openBatches && c2.openBatches[batchId] == ME
  {
  }

  /** Storing the batch changes nothing that was there when the call began. */
  lemma StoredFrames(c0: Client, c1: Client, c2: Client, c3: Client, batchId: nat, starts: seq<bool>, ids: seq<nat>,
                     n: nat, t: set<nat>)
    requires Interfered(c0, c1, {}) && Interfered(c0, c2, t) && batchId !in c0.openBatches && batchId !in c2.batches
    requires c0.uploads.Keys <= c1.uploads.Keys && n <= |starts| && n <= |ids|
    requires c3 == c2.(batches := c3.batches, openBatches := c2.openBatches - {batchId})
    requires c3.batches == c2.batches[batchId := Batch(ids, false, false)]
    requires forall k :: 0 <= k < n ==> StartedAs(starts[k], ids[k], c1, c2, t)
    ensures Interfered(c0, c3, t)
    ensures forall k :: 0 <= k < n ==> StartedAs(starts[k], ids[k], c0, c3, t)
  {
  }

  /** A read, perhaps others, and perhaps an action: member `k` is moved unless others touched it. */
  lemma SweptOneMore(before: map<nat, TransferState>, atRead: map<nat, TransferState>, atAct: map<nat, TransferState>,
                     after: map<nat, TransferState>, kind: Kind, ids: seq<nat>, k: nat, selected: bool,
                     touched: set<nat>)
    requires k < |ids| && before.Keys <= atRead.Keys <= atAct.Keys <= after.Keys
    requires forall id :: id in before && id !in touched ==> atRead[id] == MoveMembers(before, ids[..k], kind)[id]
    requires forall id :: id in atRead && id !in touched ==> atAct[id] == atRead[id]
    requires selected <==> ids[k] != 0 && Selects(kind, StatusOf(atRead, ids[k]))
    requires after == if selected then Controlled(atAct, kind, ids[k]) else atAct
    ensures forall id :: id in before && id !in touched ==> after[id] == MoveMembers(before, ids[..k + 1], kind)[id]
  {
    hide MoveMembers, Moved, Selects, IsValidTransition, ToTransferStatus;
    forall id | id in before && id !in touched
      ensures after[id] == MoveMembers(before, ids[..k + 1], kind)[id]
    {
      MoveOneMore(before, ids, k, kind, id);
      MovedWhenSelected(kind, atRead[id]);
    }
  }

  lemma MovedWhenSelected(kind: Kind, s: TransferState)
    ensures Moved(kind, s) == if Selects(kind, ToTransferStatus(s)) then Target(kind) else s
    ensures Selects(kind, ToTransferStatus(s)) ==> IsValidTransition(s, Target(kind))
  {
  }

  lemma MembersEnded(steps: seq<Step>, c: Client, kind: Kind, ids: seq<nat>)
    requires c == Run(EMPTY, steps) && OwnHandles(EMPTY, steps)
    requires ME in c.jobs && c.jobs[ME] == Sweeping(kind, ids, |ids|, false)
    ensures kind == ToCancel ==>
              forall m :: 0 <= m < |ids| && ids[m] != 0 ==> ids[m] in c.uploads && IsTerminal(c.uploads[ids[m]])
  {
    hide *;
    assert steps[..|steps|] == steps;
    if kind == ToCancel {
      forall m | 0 <= m < |ids| && ids[m] != 0
        ensures ids[m] in c.uploads && IsTerminal(c.uploads[ids[m]])
      {
        CancelBatchEndsMembers(steps, |steps|, ME, m);
      }
    }
  }

  lemma MoveOneMore(uploads: map<nat, TransferState>, ids: seq<nat>, k: nat, kind: Kind, id: nat)
    requires k < |ids| && id in uploads
    ensures var m := MoveMembers(uploads, ids[..k], kind)[id];
            MoveMembers(uploads, ids[..k + 1], kind)[id] == if id != 0 && id == ids[k] then Moved(kind, m) else m
  {
    SelectedMoves(kind, uploads[id]);
    hide Moved;
    assert ids[..k + 1] == ids[..k] + [ids[k]];
  }

  lemma MoveNone(uploads: map<nat, TransferState>, ids: seq<nat>, kind: Kind)
    ensures MoveMembers(uploads, ids[..0], kind) == uploads
  {
  }

  /** The id, stored and marked in between what others do, is the only difference this thread makes. */
  lemma StartFrames(c0: Client, c1: Client, c2: Client, c3: Client, c4: Client, c5: Client, id: nat,
                    t2: set<nat>, t4: set<nat>)
    requires ME !in c0.jobs && ME !in c5.jobs && t2 <= t4
    requires c1 == c0.(nextTransferId := c1.nextTransferId, jobs := c1.jobs) && id !in c0.uploads && id != 0
    requires Interfered(c1, c2, t2) && id !in c2.uploads
    requires c3 == c2.(uploads := c2.uploads[id := Initializing], jobs := c3.jobs)
    requires Interfered(c3, c4, t4) && id in c4.uploads
    requires c5 == c4.(uploads := c4.uploads[id := Transferring], returned := c4.returned + {id}, jobs := c5.jobs)
    ensures Interfered(c0, c5, t4) && StartedAs(true, id, c0, c5, t4)
  {
  }

  lemma NothingVisited(starts: seq<bool>)
    ensures Failures(starts[..0]) == 0
  {
  }

  lemma VisitOne(starts: seq<bool>, i: nat, left: nat)
    requires i < |starts| && left > 0
    ensures Failures(starts[..i + 1]) == Failures(starts[..i]) + if starts[i] then 0 else 1
    ensures Visited(starts[i..], left) == 1 + Visited(starts[i + 1..], if starts[i] then left - 1 else left)
  {
    assert starts[..i + 1][..i] == starts[..i];
    assert starts[i..][1..] == starts[i + 1..];
  }

  lemma VisitedNoMore(starts: seq<bool>, left: nat)
    requires starts == [] || left == 0
    ensures Visited(starts, left) == 0
  {
  }

  lemma {:induction false} FailuresGrow(starts: seq<bool>, i: nat, j: nat)
    requires i <= j <= |starts|
    ensures Failures(starts[..i]) <= Failures(starts[..j])
    decreases j
  {
    if i < j {
      assert starts[..j][..j - 1] == starts[..j - 1];
      FailuresGrow(starts, i, j - 1);
    }
  }

  /** So the id list has one entry per file if and only if every visited file could be started. */
  lemma ListLengthIff(starts: seq<bool>, maxConcurrent: nat)
    ensures |starts| + Failures(starts[..Visited(starts, maxConcurrent)]) == |starts| <==>
            forall k :: 0 <= k < Visited(starts, maxConcurrent) ==> starts[k]
  {
    NoFailuresIff(starts[..Visited(starts, maxConcurrent)]);
  }

  /** A case: of two files the first cannot be started; the list has three entries. */
  lemma ThreeEntriesForTwoFiles(ids: seq<nat>, before: Client, after: Client, touched: set<nat>)
    requires BatchAsStarted(ids, [false, true], 2, before, after, touched)
    ensures |ids| == 3 && ids[0] == 0 && ids[1] in after.uploads && ids[2] == 0
  {
    var starts := [false, true];
    assert starts[1..] == [true] && [true][1..] == [];
    assert Visited(starts, 2) == 2 && starts[..2] == starts;
    assert starts[..1] == [false] && [false][..0] == [];
    assert Failures([false]) == 1 && Failures(starts) == 1;
    assert StartedAs(starts[0], ids[0], before, after, touched) && StartedAs(starts[1], ids[1], before, after, touched);
  }

  lemma {:induction false} NoFailuresIff(starts: seq<bool>)
    ensures Failures(starts) == 0 <==> forall k :: 0 <= k < |starts| ==> starts[k]
  {
    if starts != [] {
      NoFailuresIff(starts[..|starts| - 1]);
    }
  }
}
