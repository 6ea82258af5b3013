/**
 Upload control of `file_transfer_client.cpp` as a step system: any number of
 threads start, pause, resume and cancel uploads and do the same for batches,
 and get the locks in any order.
 */
module UploadControl {
  import opened Bytes

  datatype TransferState =
    | Idle | Initializing | Transferring | Paused | Verifying | Completing | Completed | Failed | Cancelled

  datatype TransferStatus = StPending | StInProgress | StPaused | StCompleting | StCompleted | StFailed | StCancelled

  /** `to_transfer_status` */
  function ToTransferStatus(s: TransferState): TransferStatus {
    match s
    case Idle => StPending
    case Initializing => StPending
    case Transferring => StInProgress
    case Paused => StPaused
    case Verifying => StCompleting
    case Completing => StCompleting
    case Completed => StCompleted
    case Failed => StFailed
    case Cancelled => StCancelled
  }

  /** `is_terminal_status` */
  predicate IsTerminalStatus(s: TransferStatus) {
    s == StCompleted || s == StFailed || s == StCancelled
  }

  predicate IsTerminal(s: TransferState) {
    IsTerminalStatus(ToTransferStatus(s))
  }

  /** `is_valid_transition` */
  predicate IsValidTransition(from: TransferState, to: TransferState) {
    if from == Completed || from == Failed || from == Cancelled then false
    else if to == Cancelled then true
    else
      match from
      case Idle => to == Initializing
      case Initializing => to == Transferring || to == Failed
      case Transferring => to == Paused || to == Verifying || to == Completing || to == Failed
      case Paused => to == Transferring || to == Failed
      case Verifying => to == Completing || to == Failed
      case Completing => to == Completed || to == Failed
      case _ => false
  }

  /** How far a transfer has come; pausing does not count. */
  function Progress(s: TransferState): nat {
    match s
    case Idle => 0
    case Initializing => 1
    case Transferring => 2
    case Paused => 2
    case Verifying => 3
    case Completing => 4
    case _ => 5
  }

  /**
   The transition relation: terminal states are exactly those without a
   successor, every other state can be cancelled, nothing moves backwards,
   and only pausing and resuming stay at the same stage.
   */
  lemma TransitionGraph(from: TransferState, to: TransferState)
    ensures IsTerminal(from) <==> forall t :: !IsValidTransition(from, t)
    ensures !IsTerminal(from) ==> IsValidTransition(from, Cancelled)
    ensures IsValidTransition(from, to) ==> Progress(from) <= Progress(to) && from != to
    ensures IsValidTransition(from, to) && Progress(from) == Progress(to) <==>
            (from == Transferring && to == Paused) || (from == Paused && to == Transferring)
    ensures IsValidTransition(from, Completed) ==> from == Completing
  {
    if !IsTerminal(from) {
      assert IsValidTransition(from, Cancelled);
    }
  }

  /** All transitions, one by one. */
  lemma TransitionList(from: TransferState, to: TransferState)
    ensures IsValidTransition(from, to) <==>
            (from, to) in {(Idle, Initializing), (Idle, Cancelled),
                           (Initializing, Transferring), (Initializing, Failed), (Initializing, Cancelled),
                           (Transferring, Paused), (Transferring, Verifying), (Transferring, Completing),
                           (Transferring, Failed), (Transferring, Cancelled),
                           (Paused, Transferring), (Paused, Failed), (Paused, Cancelled),
                           (Verifying, Completing), (Verifying, Failed), (Verifying, Cancelled),
                           (Completing, Completed), (Completing, Failed), (Completing, Cancelled)}
  {
  }

  /** The status that callers see, state by state. */
  lemma StatusMeans(s: TransferState)
    ensures ToTransferStatus(s) == StPending <==> s in {Idle, Initializing}
    ensures ToTransferStatus(s) == StInProgress <==> s == Transferring
    ensures ToTransferStatus(s) == StPaused <==> s == Paused
    ensures ToTransferStatus(s) == StCompleting <==> s in {Verifying, Completing}
    ensures ToTransferStatus(s) == StCompleted <==> s == Completed
    ensures ToTransferStatus(s) == StFailed <==> s == Failed
    ensures ToTransferStatus(s) == StCancelled <==> s == Cancelled
  {
  }

  // ---- The steps -----------------------------------------------------------

  /** What a control call, or a batch call over its members, is about. */
  datatype Kind = ToPause | ToResume | ToCancel

  function Target(kind: Kind): TransferState {
    match kind
    case ToPause => Paused
    case ToResume => Transferring
    case ToCancel => Cancelled
  }

  function Refusal(kind: Kind): ErrorCode {
    if kind == ToCancel then TransferAlreadyCompleted else InvalidStateTransition
  }

  /** The status of the members that the batch call acts on. */
  predicate Selects(kind: Kind, status: TransferStatus) {
    match kind
    case ToPause => status == StInProgress
    case ToResume => status == StPaused
    case ToCancel => !IsTerminalStatus(status)
  }

  datatype Batch = Batch(transferIds: seq<nat>, cancelled: bool, paused: bool)

  /** The flag that the batch call sets before it looks at the members. */
  function Flagged(batch: Batch, kind: Kind): Batch {
    match kind
    case ToPause => batch.(paused := true)
    case ToResume => batch.(paused := false)
    case ToCancel => batch.(cancelled := true)
  }

  /** Where a thread stands inside a call that takes more than one lock. */
  datatype Job =
    | Starting(id: nat)   // `upload_file` has an id, its context is not stored yet
    | Stored(id: nat)     // stored, and not yet marked as transferring
    | Sweeping(kind: Kind, ids: seq<nat>, next: nat, selected: bool)   // a batch call before member `next`

  /**
   The client. `returned` are the handles that `upload_file` has given to its
   callers, `openBatches` the batch ids taken by a thread that has not stored
   the batch yet.
   */
  datatype Client = Client(
    uploads: map<nat, TransferState>,
    nextTransferId: nat,
    returned: set<nat>,
    batches: map<nat, Batch>,
    nextBatchId: nat,
    openBatches: map<nat, nat>,
    jobs: map<nat, Job>)

  const EMPTY := Client(map[], 1, {}, map[], 1, map[], map[])

  /** What a thread does between two points at which others can come in. */
  datatype Step =
    | TakeId(thread: nat)
    | StoreUpload(thread: nat)
    | FinishUpload(thread: nat)   // marks the upload as transferring, whatever its state
    | Control(thread: nat, kind: Kind, id: nat)
    | TakeBatchId(thread: nat)
    | StoreBatch(thread: nat, batchId: nat, ids: seq<nat>)
    | BeginSweep(thread: nat, kind: Kind, batchId: nat)
    | ReadMember(thread: nat)     // reads the status of the next member
    | ActOnMember(thread: nat)    // the control call on a selected member
    | EndSweep(thread: nat)

  /** `get_transfer_status` for uploads; an unknown handle counts as failed. */
  function StatusOf(uploads: map<nat, TransferState>, id: nat): TransferStatus {
    if id in uploads then ToTransferStatus(uploads[id]) else StFailed
  }

  /** A control call: the new state if the transition is valid, else the error of the call. */
  function ControlResult(uploads: map<nat, TransferState>, kind: Kind, id: nat): Result<nat> {
    if id !in uploads then Err(TransferNotFound)
    else if !IsValidTransition(uploads[id], Target(kind)) then Err(Refusal(kind))
    else Ok(id)
  }

  function Controlled(uploads: map<nat, TransferState>, kind: Kind, id: nat): map<nat, TransferState> {
    if ControlResult(uploads, kind, id).Ok? then uploads[id := Target(kind)] else uploads
  }

  /** The members of a batch are handles of its maker, or zero. */
  predicate OwnMembers(c: Client, ids: seq<nat>) {
    forall k :: 0 <= k < |ids| ==> ids[k] == 0 || ids[k] in c.returned
  }

  /** One step; a step that its thread is not ready for changes nothing. */
  function Next(c: Client, step: Step): Client {
    var t := step.thread;
    match step
    case TakeId(_) =>
      if t in c.jobs then c
      else c.(nextTransferId := c.nextTransferId + 1, jobs := c.jobs[t := Starting(c.nextTransferId)])
    case StoreUpload(_) =>
      if t in c.jobs && c.jobs[t].Starting? then
        c.(uploads := c.uploads[c.jobs[t].id := Initializing], jobs := c.jobs[t := Stored(c.jobs[t].id)])
      else c
    case FinishUpload(_) =>
      if t in c.jobs && c.jobs[t].Stored? then
        c.(uploads := c.uploads[c.jobs[t].id := Transferring],
           returned := c.returned + {c.jobs[t].id},
           jobs := c.jobs - {t})
      else c
    case Control(_, kind, id) => c.(uploads := Controlled(c.uploads, kind, id))
    case TakeBatchId(_) =>
      c.(nextBatchId := c.nextBatchId + 1, openBatches := c.openBatches[c.nextBatchId := t])
    case StoreBatch(_, batchId, ids) =>
      if batchId in c.openBatches && c.openBatches[batchId] == t && OwnMembers(c, ids) then
        c.(batches := c.batches[batchId := Batch(ids, false, false)], openBatches := c.openBatches - {batchId})
      else c
    case BeginSweep(_, kind, batchId) =>
      if t in c.jobs || batchId !in c.batches then c
      else
        c.(batches := c.batches[batchId := Flagged(c.batches[batchId], kind)],
           jobs := c.jobs[t := Sweeping(kind, c.batches[batchId].transferIds, 0, false)])
    case ReadMember(_) =>
      if t in c.jobs && c.jobs[t].Sweeping? && !c.jobs[t].selected && c.jobs[t].next < |c.jobs[t].ids| then
        c.(jobs := c.jobs[t := AfterRead(c.uploads, c.jobs[t])])
      else c
    case ActOnMember(_) =>
      if t in c.jobs && c.jobs[t].Sweeping? && c.jobs[t].selected && c.jobs[t].next < |c.jobs[t].ids| then
        var j := c.jobs[t];
        c.(uploads := Controlled(c.uploads, j.kind, j.ids[j.next]),
           jobs := c.jobs[t := j.(next := j.next + 1, selected := false)])
      else c
    case EndSweep(_) =>
      if t in c.jobs && c.jobs[t].Sweeping? && c.jobs[t].next == |c.jobs[t].ids| then c.(jobs := c.jobs - {t}) else c
  }

  /** A zero or unselected member is passed over. */
  function AfterRead(uploads: map<nat, TransferState>, j: Job): Job
    requires j.Sweeping? && j.next < |j.ids|
  {
    if j.ids[j.next] != 0 && Selects(j.kind, StatusOf(uploads, j.ids[j.next])) then j.(selected := true)
    else j.(next := j.next + 1)
  }

  function Run(c: Client, steps: seq<Step>): Client {
    if steps == [] then c else Next(Run(c, steps[..|steps| - 1]), steps[|steps| - 1])
  }

  lemma RunOneMore(c: Client, steps: seq<Step>, step: Step)
    ensures Run(c, steps + [step]) == Next(Run(c, steps), step)
  {
    hide Next;
    assert (steps + [step])[..|steps|] == steps;
  }

  // ---- What every run keeps ------------------------------------------------

  predicate IsUploading(j: Job) {
    j.Starting? || j.Stored?
  }

  /** Ids in use lie below the counter; a thread's new id belongs to that thread alone. */
  ghost predicate IdsInOrder(c: Client) {
    && c.nextTransferId >= 1
    && (forall id :: id in c.uploads ==> 1 <= id < c.nextTransferId)
    && c.returned <= c.uploads.Keys
    && (forall t :: t in c.jobs && c.jobs[t].Starting? ==>
                      1 <= c.jobs[t].id < c.nextTransferId && c.jobs[t].id !in c.uploads)
    && (forall t :: t in c.jobs && c.jobs[t].Stored? ==>
                      c.jobs[t].id in c.uploads && c.jobs[t].id !in c.returned)
    && (forall t, u :: t in c.jobs && u in c.jobs && t != u && IsUploading(c.jobs[t]) && IsUploading(c.jobs[u]) ==>
                         c.jobs[t].id != c.jobs[u].id)
  }

  /** Batches, and the calls that work on them, contain only zeros and returned handles. */
  ghost predicate BatchesInOrder(c: Client) {
    && c.nextBatchId >= 1
    && (forall b :: b in c.batches ==> 1 <= b < c.nextBatchId && OwnMembers(c, c.batches[b].transferIds))
    && (forall b :: b in c.openBatches ==> 1 <= b < c.nextBatchId && b !in c.batches)
    && (forall t :: t in c.jobs && c.jobs[t].Sweeping? ==> SweepInOrder(c, c.jobs[t]))
  }

  ghost predicate SweepInOrder(c: Client, j: Job)
    requires j.Sweeping?
  {
    && j.next <= |j.ids| && OwnMembers(c, j.ids)
    && (j.selected ==> j.next < |j.ids| && j.ids[j.next] != 0)
  }

  /** Uploads reach only four of the states. */
  ghost predicate UploadStates(c: Client) {
    forall id :: id in c.uploads ==> c.uploads[id] in {Initializing, Transferring, Paused, Cancelled}
  }

  lemma TakeKeepsIds(c: Client, t: nat)
    requires IdsInOrder(c)
    ensures IdsInOrder(Next(c, TakeId(t)))
  {
  }

  lemma StoreKeepsIds(c: Client, t: nat)
    requires IdsInOrder(c)
    ensures IdsInOrder(Next(c, StoreUpload(t)))
  {
  }

  lemma FinishKeepsIds(c: Client, t: nat)
    requires IdsInOrder(c)
    ensures IdsInOrder(Next(c, FinishUpload(t)))
  {
  }

  /** Every other step leaves the new ids alone. */
  lemma OtherStepIds(c: Client, step: Step)
    requires !step.TakeId? && !step.StoreUpload? && !step.FinishUpload?
    ensures var c' := Next(c, step);
            && c'.nextTransferId == c.nextTransferId && c'.returned == c.returned && c'.uploads.Keys == c.uploads.Keys
            && (forall t :: t in c'.jobs && IsUploading(c'.jobs[t]) ==> t in c.jobs && c.jobs[t] == c'.jobs[t])
  {
    hide IsValidTransition, ToTransferStatus, OwnMembers, Selects, Flagged;
  }

  lemma OtherKeepsIds(c: Client, c': Client)
    requires IdsInOrder(c)
    requires c'.nextTransferId == c.nextTransferId && c'.returned == c.returned && c'.uploads.Keys == c.uploads.Keys
    requires forall t :: t in c'.jobs && IsUploading(c'.jobs[t]) ==> t in c.jobs && c.jobs[t] == c'.jobs[t]
    ensures IdsInOrder(c')
  {
    assert forall t :: t in c'.jobs && c'.jobs[t].Starting? ==> IsUploading(c'.jobs[t]);
    assert forall t :: t in c'.jobs && c'.jobs[t].Stored? ==> IsUploading(c'.jobs[t]);
  }

  lemma ReturnedGrows(c: Client, step: Step)
    ensures c.returned <= Next(c, step).returned
  {
    hide Controlled, OwnMembers, Flagged, AfterRead;
  }

  lemma StepKeepsIds(c: Client, step: Step)
    requires IdsInOrder(c)
    ensures IdsInOrder(Next(c, step)) && c.returned <= Next(c, step).returned
  {
    hide Next, IdsInOrder;
    ReturnedGrows(c, step);
    match step {
      case TakeId(t) => TakeKeepsIds(c, t);
      case StoreUpload(t) => StoreKeepsIds(c, t);
      case FinishUpload(t) => FinishKeepsIds(c, t);
      case _ =>
        OtherStepIds(c, step);
        OtherKeepsIds(c, Next(c, step));
    }
  }

  lemma OwnMembersStay(c: Client, c': Client, ids: seq<nat>)
    requires c.returned <= c'.returned
    ensures OwnMembers(c, ids) ==> OwnMembers(c', ids)
  {
  }

  lemma StepKeepsBatchMap(c: Client, step: Step)
    requires BatchesInOrder(c)
    ensures var c' := Next(c, step);
            && c'.nextBatchId >= 1
            && (forall b :: b in c'.batches ==> 1 <= b < c'.nextBatchId && OwnMembers(c', c'.batches[b].transferIds))
            && (forall b :: b in c'.openBatches ==> 1 <= b < c'.nextBatchId && b !in c'.batches)
  {
    var c' := Next(c, step);
    ReturnedGrows(c, step);
    hide Controlled, AfterRead;
    forall b | b in c'.batches
      ensures 1 <= b < c'.nextBatchId && OwnMembers(c', c'.batches[b].transferIds)
    {
      OwnMembersStay(c, c', c'.batches[b].transferIds);
    }
  }

  lemma StepKeepsSweeps(c: Client, step: Step, t: nat)
    requires BatchesInOrder(c)
    requires t in Next(c, step).jobs && Next(c, step).jobs[t].Sweeping?
    ensures SweepInOrder(Next(c, step), Next(c, step).jobs[t])
  {
    var c' := Next(c, step);
    ReturnedGrows(c, step);
    hide Controlled, Flagged, Selects, StatusOf;
    OwnMembersStay(c, c', c'.jobs[t].ids);
  }

  lemma StepKeepsBatches(c: Client, step: Step)
    requires BatchesInOrder(c)
    ensures BatchesInOrder(Next(c, step))
  {
    StepKeepsBatchMap(c, step);
    var c' := Next(c, step);
    hide Next, SweepInOrder, OwnMembers;
    forall t | t in c'.jobs && c'.jobs[t].Sweeping?
      ensures SweepInOrder(c', c'.jobs[t])
    {
      StepKeepsSweeps(c, step, t);
    }
  }

  lemma StepKeepsStates(c: Client, step: Step)
    requires UploadStates(c)
    ensures UploadStates(Next(c, step))
  {
    hide OwnMembers, Flagged, AfterRead;
  }

  lemma EmptyInOrder()
    ensures IdsInOrder(EMPTY) && BatchesInOrder(EMPTY) && UploadStates(EMPTY)
  {
  }

  /** In every run at all, whatever the threads do. */
  lemma {:induction false} RunsInOrder(steps: seq<Step>)
    ensures var c := Run(EMPTY, steps); IdsInOrder(c) && BatchesInOrder(c) && UploadStates(c)
  {
    hide Next, IdsInOrder, BatchesInOrder, UploadStates;
    if steps == [] {
      EmptyInOrder();
    } else {
      var before, last := steps[..|steps| - 1], steps[|steps| - 1];
      RunsInOrder(before);
      StepKeepsIds(Run(EMPTY, before), last);
      StepKeepsBatches(Run(EMPTY, before), last);
      StepKeepsStates(Run(EMPTY, before), last);
    }
  }

  // ---- Which uploads a step touches ----------------------------------------

  /** The upload that the step may move. */
  function Touched(c: Client, step: Step): set<nat> {
    var t := step.thread;
    match step
    case StoreUpload(_) => if t in c.jobs && c.jobs[t].Starting? then {c.jobs[t].id} else {}
    case FinishUpload(_) => if t in c.jobs && c.jobs[t].Stored? then {c.jobs[t].id} else {}
    case Control(_, _, id) => if id in c.uploads then {id} else {}
    case ActOnMember(_) =>
      if t in c.jobs && c.jobs[t].Sweeping? && c.jobs[t].next < |c.jobs[t].ids| then {c.jobs[t].ids[c.jobs[t].next]}
      else {}
    case _ => {}
  }

  lemma StepMovesOne(c: Client, step: Step)
    ensures var c' := Next(c, step);
            && c.uploads.Keys <= c'.uploads.Keys && |Touched(c, step)| <= 1
            && c'.uploads.Keys - c.uploads.Keys <= Touched(c, step)
            && (forall id :: id in c.uploads && id !in Touched(c, step) ==> c'.uploads[id] == c.uploads[id])
  {
    hide IsValidTransition, OwnMembers, Flagged, AfterRead;
  }

  lemma StepKeepsOtherJobs(c: Client, step: Step)
    ensures var c' := Next(c, step);
            forall t :: t in c.jobs && t != step.thread ==> t in c'.jobs && c'.jobs[t] == c.jobs[t]
    ensures var c' := Next(c, step);
            forall t :: t in c'.jobs && t != step.thread ==> t in c.jobs
  {
    hide Controlled, OwnMembers, Flagged, AfterRead;
  }

  /** A step moves one upload at most, makes one at most, and a new id is fresh, not 0 and nobody else's. */
  lemma StepFrames(c: Client, step: Step)
    requires IdsInOrder(c)
    ensures var c' := Next(c, step);
            && c.uploads.Keys <= c'.uploads.Keys && |Touched(c, step)| <= 1
            && c'.uploads.Keys - c.uploads.Keys <= Touched(c, step)
            && (forall id :: id in c.uploads && id !in Touched(c, step) ==> c'.uploads[id] == c.uploads[id])
            && (forall t :: t in c.jobs && t != step.thread ==> t in c'.jobs && c'.jobs[t] == c.jobs[t])
            && (step.TakeId? && step.thread !in c.jobs ==>
                  && step.thread in c'.jobs && c'.jobs[step.thread].Starting?
                  && var id := c'.jobs[step.thread].id;
                  && id != 0 && id !in c'.uploads && id !in c.returned
                  && forall t :: t in c.jobs && IsUploading(c.jobs[t]) ==> c.jobs[t].id != id)
  {
    StepMovesOne(c, step);
    StepKeepsOtherJobs(c, step);
    hide Touched, Controlled, OwnMembers, Flagged, AfterRead;
    if step.TakeId? && step.thread !in c.jobs {
      FreshId(c, step.thread);
    }
  }

  lemma FreshId(c: Client, thread: nat)
    requires IdsInOrder(c) && thread !in c.jobs
    ensures Next(c, TakeId(thread)) ==
            c.(nextTransferId := c.nextTransferId + 1, jobs := c.jobs[thread := Starting(c.nextTransferId)])
    ensures c.nextTransferId != 0 && c.nextTransferId !in c.uploads && c.nextTransferId !in c.returned
    ensures forall t :: t in c.jobs && IsUploading(c.jobs[t]) ==> c.jobs[t].id != c.nextTransferId
  {
  }

  // ---- The transition rules ------------------------------------------------

  /** Every change of the step is a valid transition; new uploads begin as `Initializing`. */
  ghost predicate ValidStep(c: Client, c': Client) {
    && (forall id :: id in c.uploads ==>
                       id in c'.uploads &&
                       (c'.uploads[id] == c.uploads[id] || IsValidTransition(c.uploads[id], c'.uploads[id])))
    && (forall id :: id in c'.uploads && id !in c.uploads ==>
                       c'.uploads[id] == Initializing && IsValidTransition(Idle, c'.uploads[id]))
  }

  /** `upload_file` marks as transferring an upload that may not become so. */
  predicate BreaksRules(c: Client, step: Step) {
    && step.FinishUpload? && step.thread in c.jobs && c.jobs[step.thread].Stored?
    && c.jobs[step.thread].id in c.uploads
    && var s := c.uploads[c.jobs[step.thread].id];
    s != Transferring && !IsValidTransition(s, Transferring)
  }

  /** That is the only step that does not follow `is_valid_transition`. */
  lemma StepIsValidIff(c: Client, step: Step)
    requires IdsInOrder(c)
    ensures ValidStep(c, Next(c, step)) <==> !BreaksRules(c, step)
  {
    hide ToTransferStatus, OwnMembers, Selects, Flagged, AfterRead;
    if BreaksRules(c, step) {
      assert Next(c, step).uploads[c.jobs[step.thread].id] == Transferring;
    }
  }

  /**
   In any run at all: a step breaks the rules if and only if `upload_file`
   finishes an upload that someone has cancelled.
   */
  lemma BrokenIffCancelledTooEarly(steps: seq<Step>, step: Step)
    ensures var c := Run(EMPTY, steps);
            !ValidStep(c, Next(c, step)) <==>
            && step.FinishUpload? && step.thread in c.jobs && c.jobs[step.thread].Stored?
            && c.jobs[step.thread].id in c.uploads && c.uploads[c.jobs[step.thread].id] == Cancelled
  {
    RunsInOrder(steps);
    StepIsValidIff(Run(EMPTY, steps), step);
    hide Run, ValidStep, BatchesInOrder, Next;
  }

  /** It can happen: an upload cancelled between the two locks of `upload_file` comes back to life. */
  lemma CancelledUploadRevives()
    ensures var c := Run(EMPTY, [TakeId(0)] + [StoreUpload(0)] + [Control(1, ToCancel, 1)]);
            && c.uploads == map[1 := Cancelled]
            && Next(c, FinishUpload(0)).uploads == map[1 := Transferring]
  {
    RunOneMore(EMPTY, [TakeId(0)] + [StoreUpload(0)], Control(1, ToCancel, 1));
    RunOneMore(EMPTY, [TakeId(0)], StoreUpload(0));
    assert [] + [TakeId(0)] == [TakeId(0)];
    RunOneMore(EMPTY, [], TakeId(0));
    assert Run(EMPTY, []) == EMPTY;
    hide Run;
    var c := Next(Next(EMPTY, TakeId(0)), StoreUpload(0));
    assert c.uploads == map[1 := Initializing] && c.jobs == map[0 := Stored(1)];
  }

  // ---- Runs in which callers use their own handles --------------------------

  /** A caller uses only handles it has been given. Batch calls do so by themselves. */
  predicate UsesOwnHandle(c: Client, step: Step) {
    step.Control? && step.id in c.uploads ==> step.id in c.returned
  }

  ghost predicate OwnHandles(c: Client, steps: seq<Step>) {
    forall k :: 0 <= k < |steps| ==> UsesOwnHandle(Run(c, steps[..k]), steps[k])
  }

  lemma PrefixOwn(c: Client, steps: seq<Step>)
    requires steps != [] && OwnHandles(c, steps)
    ensures OwnHandles(c, steps[..|steps| - 1])
    ensures UsesOwnHandle(Run(c, steps[..|steps| - 1]), steps[|steps| - 1])
  {
    hide UsesOwnHandle, Run;
    var before := steps[..|steps| - 1];
    forall k | 0 <= k < |before|
      ensures UsesOwnHandle(Run(c, before[..k]), before[k])
    {
      assert before[..k] == steps[..k];
    }
  }

  lemma OwnOneMore(c: Client, steps: seq<Step>, step: Step)
    requires OwnHandles(c, steps) && UsesOwnHandle(Run(c, steps), step)
    ensures OwnHandles(c, steps + [step])
  {
    hide UsesOwnHandle, Run;
    var longer := steps + [step];
    forall k | 0 <= k < |longer|
      ensures UsesOwnHandle(Run(c, longer[..k]), longer[k])
    {
      if k < |steps| {
        assert longer[..k] == steps[..k];
      } else {
        assert longer[..k] == steps;
      }
    }
  }

  /** An upload whose handle is not yet returned is still initializing. */
  ghost predicate UnreturnedInitializing(c: Client) {
    forall id :: id in c.uploads && id !in c.returned ==> c.uploads[id] == Initializing
  }

  lemma StepKeepsUnreturned(c: Client, step: Step)
    requires IdsInOrder(c) && BatchesInOrder(c) && UnreturnedInitializing(c) && UsesOwnHandle(c, step)
    ensures UnreturnedInitializing(Next(c, step))
  {
    hide IsValidTransition, ToTransferStatus, Selects, Flagged, AfterRead;
    if step.ActOnMember? && step.thread in c.jobs && c.jobs[step.thread].Sweeping? {
      assert SweepInOrder(c, c.jobs[step.thread]);
    }
  }

  lemma NothingBreaks(c: Client, step: Step)
    requires IdsInOrder(c) && UnreturnedInitializing(c)
    ensures !BreaksRules(c, step)
  {
  }

  /** In every such run, batch calls and all, every step follows the transition rules. */
  lemma {:induction false} RunsAreValid(steps: seq<Step>, step: Step)
    requires OwnHandles(EMPTY, steps)
    ensures var c := Run(EMPTY, steps); UnreturnedInitializing(c) && ValidStep(c, Next(c, step))
  {
    hide Next, ValidStep, UsesOwnHandle, IdsInOrder, BatchesInOrder, UnreturnedInitializing, BreaksRules;
    if steps == [] {
      assert UnreturnedInitializing(EMPTY) by { EmptyUnreturned(); }
    } else {
      var before, last := steps[..|steps| - 1], steps[|steps| - 1];
      PrefixOwn(EMPTY, steps);
      RunsAreValid(before, last);
      RunsInOrder(before);
      StepKeepsUnreturned(Run(EMPTY, before), last);
    }
    RunsInOrder(steps);
    StepIsValidIff(Run(EMPTY, steps), step);
    NothingBreaks(Run(EMPTY, steps), step);
  }

  lemma EmptyUnreturned()
    ensures UnreturnedInitializing(EMPTY)
  {
  }

  ghost predicate TerminalStays(c: Client, c': Client) {
    forall id :: id in c.uploads && IsTerminal(c.uploads[id]) ==> id in c'.uploads && c'.uploads[id] == c.uploads[id]
  }

  lemma ValidKeepsTerminal(c: Client, c': Client)
    requires ValidStep(c, c')
    ensures TerminalStays(c, c')
  {
    forall id | id in c.uploads && IsTerminal(c.uploads[id])
      ensures id in c'.uploads && c'.uploads[id] == c.uploads[id]
    {
      TransitionGraph(c.uploads[id], c'.uploads[id]);
    }
  }

  /** Terminal states are absorbing in such runs. */
  lemma {:induction false} TerminalForever(steps: seq<Step>, k: nat, id: nat)
    requires OwnHandles(EMPTY, steps) && k <= |steps|
    requires id in Run(EMPTY, steps[..k]).uploads && IsTerminal(Run(EMPTY, steps[..k]).uploads[id])
    ensures id in Run(EMPTY, steps).uploads
    ensures Run(EMPTY, steps).uploads[id] == Run(EMPTY, steps[..k]).uploads[id]
    decreases |steps|
  {
    hide Next, IsTerminal, UsesOwnHandle, ValidStep;
    if k == |steps| {
      assert steps[..k] == steps;
    } else {
      var before, last := steps[..|steps| - 1], steps[|steps| - 1];
      assert before[..k] == steps[..k];
      PrefixOwn(EMPTY, steps);
      TerminalForever(before, k, id);
      RunsAreValid(before, last);
      ValidKeepsTerminal(Run(EMPTY, before), Run(EMPTY, steps));
    }
  }

  /** So a cancel call on a known handle, anywhere in a run, leaves the upload terminal at the end. */
  lemma CancelEndsUpload(steps: seq<Step>, k: nat, id: nat)
    requires OwnHandles(EMPTY, steps) && k < |steps|
    requires steps[k].Control? && steps[k].kind == ToCancel && steps[k].id == id
    requires id in Run(EMPTY, steps[..k]).uploads
    ensures id in Run(EMPTY, steps).uploads && IsTerminal(Run(EMPTY, steps).uploads[id])
  {
    hide *;
    var c := Run(EMPTY, steps[..k]);
    assert steps[..k + 1] == steps[..k] + [steps[k]];
    RunOneMore(EMPTY, steps[..k], steps[k]);
    ControlStep(c, steps[k]);
    CancelledIsTerminal(c.uploads, id);
    TerminalForever(steps, k + 1, id);
  }

  lemma ControlStep(c: Client, step: Step)
    requires step.Control?
    ensures Next(c, step) == c.(uploads := Controlled(c.uploads, step.kind, step.id))
  {
  }

  lemma CancelledIsTerminal(uploads: map<nat, TransferState>, id: nat)
    requires id in uploads
    ensures var m := Controlled(uploads, ToCancel, id); id in m && IsTerminal(m[id])
  {
  }

  // ---- Cancelling a batch while others interleave ---------------------------

  /** Every member that a `cancel_batch` has passed is terminal. */
  ghost predicate PassedAreTerminal(c: Client) {
    forall t :: t in c.jobs && c.jobs[t].Sweeping? && c.jobs[t].kind == ToCancel ==>
                  forall k :: 0 <= k < c.jobs[t].next ==> MemberEnded(c, c.jobs[t].ids, k)
  }

  ghost predicate MemberEnded(c: Client, ids: seq<nat>, k: int) {
    0 <= k < |ids| && (ids[k] != 0 ==> ids[k] in c.uploads && IsTerminal(c.uploads[ids[k]]))
  }

  lemma EndedStays(c: Client, c': Client, ids: seq<nat>, k: nat)
    requires TerminalStays(c, c') && MemberEnded(c, ids, k)
    ensures MemberEnded(c', ids, k)
  {
  }

  /** The member that the step passes is terminal afterwards. */
  lemma PassingEnds(c: Client, step: Step, t: nat)
    requires IdsInOrder(c) && BatchesInOrder(c) && t in c.jobs && c.jobs[t].Sweeping? && c.jobs[t].kind == ToCancel
    requires var c' := Next(c, step); t in c'.jobs && c'.jobs[t].Sweeping? && c'.jobs[t].next > c.jobs[t].next
    ensures var c' := Next(c, step);
            c'.jobs[t].next == c.jobs[t].next + 1 && c'.jobs[t].ids == c.jobs[t].ids &&
            MemberEnded(c', c.jobs[t].ids, c.jobs[t].next)
  {
    hide IsValidTransition, Flagged;
    assert SweepInOrder(c, c.jobs[t]);
    var id := if c.jobs[t].next < |c.jobs[t].ids| then c.jobs[t].ids[c.jobs[t].next] else 0;
    if id in c.uploads {
      CancelledIsTerminal(c.uploads, id);
    }
  }

  lemma SweepKept(c: Client, step: Step, t: nat)
    requires t in Next(c, step).jobs && Next(c, step).jobs[t].Sweeping? && Next(c, step).jobs[t].next > 0
    ensures t in c.jobs && c.jobs[t].Sweeping? && c.jobs[t].kind == Next(c, step).jobs[t].kind
    ensures c.jobs[t].ids == Next(c, step).jobs[t].ids && c.jobs[t].next <= Next(c, step).jobs[t].next
  {
    hide Controlled, Selects, StatusOf, OwnMembers, Flagged;
  }

  lemma StepKeepsPassed(c: Client, step: Step)
    requires IdsInOrder(c) && BatchesInOrder(c) && PassedAreTerminal(c) && ValidStep(c, Next(c, step))
    ensures PassedAreTerminal(Next(c, step))
  {
    hide *;
    var c' := Next(c, step);
    ValidKeepsTerminal(c, c');
    forall t | t in c'.jobs && c'.jobs[t].Sweeping? && c'.jobs[t].kind == ToCancel
      ensures forall k :: 0 <= k < c'.jobs[t].next ==> MemberEnded(c', c'.jobs[t].ids, k)
    {
      forall k | 0 <= k < c'.jobs[t].next
        ensures MemberEnded(c', c'.jobs[t].ids, k)
      {
        SweepKept(c, step, t);
        if c'.jobs[t].next > c.jobs[t].next {
          PassingEnds(c, step, t);
        }
        if k < c.jobs[t].next {
          PassedAt(c, t, k);
          EndedStays(c, c', c.jobs[t].ids, k);
        }
      }
    }
    PassedIntro(c');
  }

  lemma PassedAt(c: Client, t: nat, k: nat)
    requires PassedAreTerminal(c) && t in c.jobs && c.jobs[t].Sweeping? && c.jobs[t].kind == ToCancel
    requires k < c.jobs[t].next
    ensures MemberEnded(c, c.jobs[t].ids, k)
  {
  }

  lemma PassedIntro(c: Client)
    requires forall t :: t in c.jobs && c.jobs[t].Sweeping? && c.jobs[t].kind == ToCancel ==>
                           forall k :: 0 <= k < c.jobs[t].next ==> MemberEnded(c, c.jobs[t].ids, k)
    ensures PassedAreTerminal(c)
  {
  }

  /** At every step of such a run, every member that any `cancel_batch` has passed is terminal. */
  lemma {:induction false} PassedAlways(steps: seq<Step>)
    requires OwnHandles(EMPTY, steps)
    ensures PassedAreTerminal(Run(EMPTY, steps))
  {
    hide Next, ValidStep, UsesOwnHandle, IdsInOrder, BatchesInOrder, UnreturnedInitializing, MemberEnded;
    if steps != [] {
      var before, last := steps[..|steps| - 1], steps[|steps| - 1];
      PrefixOwn(EMPTY, steps);
      PassedAlways(before);
      RunsInOrder(before);
      RunsAreValid(before, last);
      StepKeepsPassed(Run(EMPTY, before), last);
    }
  }

  /**
   Once a thread stands at the end of its `cancel_batch`, every started member
   of the batch is terminal and stays so to the end of the run, whatever the
   other threads did meanwhile and do later.
   */
  lemma CancelBatchEndsMembers(steps: seq<Step>, k: nat, t: nat, m: nat)
    requires OwnHandles(EMPTY, steps) && k <= |steps|
    requires var c := Run(EMPTY, steps[..k]);
             && t in c.jobs && c.jobs[t].Sweeping? && c.jobs[t].kind == ToCancel
             && c.jobs[t].next == |c.jobs[t].ids| && m < |c.jobs[t].ids| && c.jobs[t].ids[m] != 0
    ensures var id := Run(EMPTY, steps[..k]).jobs[t].ids[m];
            id in Run(EMPTY, steps).uploads && IsTerminal(Run(EMPTY, steps).uploads[id])
  {
    hide *;
    OwnPrefix(EMPTY, steps, k);
    PassedAlways(steps[..k]);
    var c := Run(EMPTY, steps[..k]);
    PassedAt(c, t, m);
    EndedMeans(c, c.jobs[t].ids, m);
    TerminalForever(steps, k, c.jobs[t].ids[m]);
  }

  lemma EndedMeans(c: Client, ids: seq<nat>, k: nat)
    requires MemberEnded(c, ids, k)
    ensures k < |ids| && (ids[k] != 0 ==> ids[k] in c.uploads && IsTerminal(c.uploads[ids[k]]))
  {
  }

  lemma OwnPrefix(c: Client, steps: seq<Step>, k: nat)
    requires OwnHandles(c, steps) && k <= |steps|
    ensures OwnHandles(c, steps[..k])
  {
    hide UsesOwnHandle, Run;
    forall j | 0 <= j < k
      ensures UsesOwnHandle(Run(c, steps[..k][..j]), steps[..k][j])
    {
      assert steps[..k][..j] == steps[..j];
    }
  }

  /** At some point of the run the upload was terminal, or a cancel call named it. */
  ghost predicate OnceEnded(steps: seq<Step>, id: nat) {
    || (exists k :: 0 <= k <= |steps| && EndedAt(steps, k, id))
    || (exists k :: 0 <= k < |steps| && CancelledAt(steps, k, id))
  }

  ghost predicate EndedAt(steps: seq<Step>, k: nat, id: nat)
    requires k <= |steps|
  {
    id in Run(EMPTY, steps[..k]).uploads && IsTerminal(Run(EMPTY, steps[..k]).uploads[id])
  }

  ghost predicate CancelledAt(steps: seq<Step>, k: nat, id: nat)
    requires k < |steps|
  {
    && steps[k].Control? && steps[k].kind == ToCancel && steps[k].id == id
    && id in Run(EMPTY, steps[..k]).uploads
  }

  /** A batch cancelled piecemeal: if each started member was ended or cancelled at some point, all are terminal. */
  lemma EveryMemberEnds(steps: seq<Step>, ids: seq<nat>)
    requires OwnHandles(EMPTY, steps)
    requires forall m :: 0 <= m < |ids| && ids[m] != 0 ==> OnceEnded(steps, ids[m])
    ensures forall m :: 0 <= m < |ids| && ids[m] != 0 ==> EndedAt(steps, |steps|, ids[m])
  {
    hide Run, OwnHandles, IsTerminal;
    assert steps[..|steps|] == steps;
    forall m | 0 <= m < |ids| && ids[m] != 0
      ensures EndedAt(steps, |steps|, ids[m])
    {
      if k :| 0 <= k <= |steps| && EndedAt(steps, k, ids[m]) {
        TerminalForever(steps, k, ids[m]);
      } else {
        var k :| 0 <= k < |steps| && CancelledAt(steps, k, ids[m]);
        CancelEndsUpload(steps, k, ids[m]);
      }
    }
  }
}
