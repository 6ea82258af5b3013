/**
 The counters of `thread_pool_adapter.cpp`: `stage_tracker` as a class, and the
 interleavings of `submit`, `submit_to_stage` and the ends of their tasks as a
 step system in which every increment and decrement is a step of its own.
 Counters are 64-bit words that wrap.
 */
module TransferPool {

  const WORD: nat := 0x1_0000_0000_0000_0000

  /** `stage_tracker`; each method holds the mutex. */
  class StageTracker {
    var counts: map<string, nat>

    constructor ()
      ensures counts == map[]
    {
      counts := map[];
    }

    method Increment(stage: string)
      modifies this
      ensures counts == Incremented(old(counts), stage)
      ensures Count(stage) == (old(Count(stage)) + 1) % WORD
      ensures forall other :: other != stage ==> Count(other) == old(Count(other))
    {
      if stage !in counts {
        counts := counts[stage := 1];
      } else {
        counts := counts[stage := (counts[stage] + 1) % WORD];
      }
    }

    method Decrement(stage: string)
      modifies this
      ensures counts == Decremented(old(counts), stage)
      ensures Count(stage) == if old(Count(stage)) > 0 then old(Count(stage)) - 1 else 0
      ensures forall other :: other != stage ==> Count(other) == old(Count(other))
    {
      if stage in counts {
        var current := counts[stage];
        if current > 0 {
          counts := counts[stage := current - 1];
        }
      }
    }

    function Count(stage: string): nat
      reads this
    {
      CountOf(counts, stage)
    }
  }

  function CountOf(counts: map<string, nat>, stage: string): nat {
    if stage in counts then counts[stage] else 0
  }

  function Incremented(counts: map<string, nat>, stage: string): map<string, nat> {
    counts[stage := (CountOf(counts, stage) + 1) % WORD]
  }

  function Decremented(counts: map<string, nat>, stage: string): map<string, nat> {
    if CountOf(counts, stage) > 0 then counts[stage := counts[stage] - 1] else counts
  }

  // ---- Interleavings -------------------------------------------------------

  /** How a task was submitted. */
  datatype Kind = Plain | Staged(stage: string)

  /**
   The life of a submitted task, between the steps of its submission and its
   end. A task that throws ends by the same two decrements as one that returns.
   When no thread can be started for it, `std::async` throws after the counters
   went up, and nobody brings them down again.
   */
  datatype Phase =
    | Entered           // `submit_to_stage` has begun
    | StageCounted      // the stage counter is up
    | Counted           // both counters are up; the task is queued or runs
    | Lost              // no thread could be started
    | Ended(threw: bool)
    | Released(threw: bool)   // `active_tasks` is down again
    | Gone(threw: bool)       // the stage counter is down again

  datatype Task = Task(kind: Kind, phase: Phase)

  datatype Pool = Pool(tasks: map<nat, Task>, activeTasks: nat, counts: map<string, nat>)

  datatype Event =
    | Submit(id: nat)                 // up to the increment of `active_tasks`
    | SubmitToStage(id: nat, stage: string)
    | CountStage(id: nat)
    | CountActive(id: nat)
    | StartFails(id: nat)
    | End(id: nat, threw: bool)
    | Release(id: nat)
    | ReleaseStage(id: nat)

  const EMPTY := Pool(map[], 0, map[])

  /** `fetch_sub(1)` on a 64-bit word. */
  function SubtractOne(n: nat): nat { (n + WORD - 1) % WORD }

  function Move(p: Pool, id: nat, phase: Phase): Pool
    requires id in p.tasks
  {
    p.(tasks := p.tasks[id := p.tasks[id].(phase := phase)])
  }

  /** One step of one thread; a step that the task is not ready for changes nothing. */
  function Next(p: Pool, e: Event): Pool {
    match e
    case Submit(id) =>
      if id in p.tasks then p
      else p.(tasks := p.tasks[id := Task(Plain, Counted)], activeTasks := (p.activeTasks + 1) % WORD)
    case SubmitToStage(id, stage) =>
      if id in p.tasks then p else p.(tasks := p.tasks[id := Task(Staged(stage), Entered)])
    case CountStage(id) =>
      if id !in p.tasks || p.tasks[id].phase != Entered || !p.tasks[id].kind.Staged? then p
      else Move(p, id, StageCounted).(counts := Incremented(p.counts, p.tasks[id].kind.stage))
    case CountActive(id) =>
      if id !in p.tasks || p.tasks[id].phase != StageCounted then p
      else Move(p, id, Counted).(activeTasks := (p.activeTasks + 1) % WORD)
    case StartFails(id) =>
      if id !in p.tasks || p.tasks[id].phase != Counted then p else Move(p, id, Lost)
    case End(id, threw) =>
      if id !in p.tasks || p.tasks[id].phase != Counted then p else Move(p, id, Ended(threw))
    case Release(id) =>
      if id !in p.tasks || !p.tasks[id].phase.Ended? then p
      else
        var threw := p.tasks[id].phase.threw;
        Move(p, id, if p.tasks[id].kind.Plain? then Gone(threw) else Released(threw))
        .(activeTasks := SubtractOne(p.activeTasks))
    case ReleaseStage(id) =>
      if id !in p.tasks || !p.tasks[id].phase.Released? || !p.tasks[id].kind.Staged? then p
      else Move(p, id, Gone(p.tasks[id].phase.threw)).(counts := Decremented(p.counts, p.tasks[id].kind.stage))
  }

  function Run(p: Pool, events: seq<Event>): Pool {
    if events == [] then p else Next(Run(p, events[..|events| - 1]), events[|events| - 1])
  }

  // ---- What the counters count ---------------------------------------------

  /** The task is in `active_tasks`. */
  predicate IsActive(t: Task) {
    t.phase.Counted? || t.phase.Lost? || t.phase.Ended?
  }

  /** The task is in the counter of the stage. */
  predicate InStage(t: Task, stage: string) {
    t.kind == Staged(stage) && !t.phase.Entered? && !t.phase.Gone?
  }

  function ActiveTasks(tasks: map<nat, Task>): set<nat> {
    set id | id in tasks && IsActive(tasks[id])
  }

  function StageTasks(tasks: map<nat, Task>, stage: string): set<nat> {
    set id | id in tasks && InStage(tasks[id], stage)
  }

  function ActiveInStage(tasks: map<nat, Task>, stage: string): set<nat> {
    set id | id in tasks && IsActive(tasks[id]) && tasks[id].kind == Staged(stage)
  }

  /** The tasks for which no thread could be started, all of them and those of one stage. */
  function LostTasks(tasks: map<nat, Task>): set<nat> {
    set id | id in tasks && tasks[id].phase.Lost?
  }

  function LostInStage(tasks: map<nat, Task>, stage: string): set<nat> {
    set id | id in tasks && tasks[id].phase.Lost? && tasks[id].kind == Staged(stage)
  }

  /** Nothing runs or is on its way: every task has gone, or could not be started. */
  ghost predicate AtRest(tasks: map<nat, Task>) {
    forall id :: id in tasks ==> tasks[id].phase.Gone? || tasks[id].phase.Lost?
  }

  /** The counters are the numbers of submitted and not yet released tasks. */
  ghost predicate Exact(p: Pool) {
    && p.activeTasks == |ActiveTasks(p.tasks)|
    && (forall stage :: CountOf(p.counts, stage) == |StageTasks(p.tasks, stage)|)
    && |p.tasks| < WORD
  }

  lemma AddOne(s: set<nat>, id: nat)
    requires id !in s
    ensures |s + {id}| == |s| + 1
  {
  }

  lemma {:induction false} SubsetSize(a: set<nat>, b: set<nat>)
    requires a <= b
    ensures |a| <= |b|
  {
    if a != {} {
      var x :| x in a;
      SubsetSize(a - {x}, b - {x});
    }
  }

  /** A set of tasks is never larger than the number of tasks. */
  lemma FewerThanTasks(p: Pool, s: set<nat>)
    requires s <= p.tasks.Keys
    ensures |s| <= |p.tasks|
  {
    SubsetSize(s, p.tasks.Keys);
  }

  /** How one task's change moves the two sets. */
  lemma SetsAfterChange(tasks: map<nat, Task>, id: nat, t: Task)
    ensures ActiveTasks(tasks[id := t]) ==
            if IsActive(t) then ActiveTasks(tasks) + {id} else ActiveTasks(tasks) - {id}
    ensures forall stage :: StageTasks(tasks[id := t], stage) ==
                            if InStage(t, stage) then StageTasks(tasks, stage) + {id}
                            else StageTasks(tasks, stage) - {id}
  {
  }

  lemma ChangeKeepsActive(p: Pool, id: nat, t: Task)
    requires Exact(p)
    ensures var was := id in p.tasks && IsActive(p.tasks[id]);
            |ActiveTasks(p.tasks[id := t])| ==
            p.activeTasks + (if IsActive(t) then 1 else 0) - (if was then 1 else 0)
  {
    SetsAfterChange(p.tasks, id, t);
    var s := ActiveTasks(p.tasks);
    if id !in s {
      AddOne(s, id);
      assert s - {id} == s;
    } else {
      assert s + {id} == s;
      assert |s - {id}| == |s| - 1;
    }
  }

  lemma ChangeKeepsStage(p: Pool, id: nat, t: Task, stage: string)
    requires Exact(p)
    ensures var was := id in p.tasks && InStage(p.tasks[id], stage);
            |StageTasks(p.tasks[id := t], stage)| ==
            CountOf(p.counts, stage) + (if InStage(t, stage) then 1 else 0) - (if was then 1 else 0)
  {
    SetsAfterChange(p.tasks, id, t);
    var s := StageTasks(p.tasks, stage);
    if id !in s {
      AddOne(s, id);
      assert s - {id} == s;
    } else {
      assert s + {id} == s;
      assert |s - {id}| == |s| - 1;
    }
  }

  /** Every step of every thread keeps the counters exact. */
  lemma NextExact(p: Pool, e: Event)
    requires Exact(p) && |Next(p, e).tasks| < WORD
    ensures Exact(Next(p, e))
  {
    var p' := Next(p, e);
    if p' != p {
      var id := e.id;
      var t := p'.tasks[id];
      assert p'.tasks == p.tasks[id := t];
      ChangeKeepsActive(p, id, t);
      ActiveFits(p');
      hide ActiveTasks, StageTasks;
      forall stage
        ensures CountOf(p'.counts, stage) == |StageTasks(p'.tasks, stage)|
      {
        ChangeKeepsStage(p, id, t, stage);
        StageFits(p', stage);
      }
    }
  }

  lemma ActiveFits(p: Pool)
    requires |p.tasks| < WORD
    ensures |ActiveTasks(p.tasks)| < WORD
  {
    FewerThanTasks(p, ActiveTasks(p.tasks));
  }

  lemma StageFits(p: Pool, stage: string)
    requires |p.tasks| < WORD
    ensures |StageTasks(p.tasks, stage)| < WORD
  {
    FewerThanTasks(p, StageTasks(p.tasks, stage));
  }

  /** Tasks are never forgotten. */
  lemma TasksGrow(p: Pool, e: Event)
    ensures p.tasks.Keys <= Next(p, e).tasks.Keys
    ensures |p.tasks| <= |Next(p, e).tasks|
  {
  }

  // ---- The main results ----------------------------------------------------

  lemma EmptyExact()
    ensures Exact(EMPTY)
  {
  }

  /**
   In every interleaving, as long as fewer than 2^64 tasks have been submitted:
   `active_tasks` and each stage counter are exactly the numbers of tasks
   submitted and not yet released.
   */
  lemma {:induction false} RunExact(events: seq<Event>)
    requires |Run(EMPTY, events).tasks| < WORD
    ensures Exact(Run(EMPTY, events))
  {
    hide Next, Exact;
    if events == [] {
      EmptyExact();
    } else {
      var before, e := events[..|events| - 1], events[|events| - 1];
      TasksGrow(Run(EMPTY, before), e);
      RunExact(before);
      NextExact(Run(EMPTY, before), e);
    }
  }

  /**
   So the guard at zero in `decrement` never fires, `active_tasks` never
   underflows, and no active task of a stage is missing from its stage counter.
   */
  lemma CountersAreSound(events: seq<Event>, id: nat, stage: string)
    requires |Run(EMPTY, events).tasks| < WORD
    ensures var p := Run(EMPTY, events);
            && (id in p.tasks && p.tasks[id].phase.Released? && p.tasks[id].kind.Staged? ==>
                  CountOf(p.counts, p.tasks[id].kind.stage) > 0)
            && (id in p.tasks && p.tasks[id].phase.Ended? ==>
                  p.activeTasks > 0 && SubtractOne(p.activeTasks) == p.activeTasks - 1)
            && |ActiveInStage(p.tasks, stage)| <= CountOf(p.counts, stage)
  {
    RunExact(events);
    hide *;
    var p := Run(EMPTY, events);
    ExactStage(p, stage);
    ActiveAreStaged(p.tasks, stage);
    SubsetSize(ActiveInStage(p.tasks, stage), StageTasks(p.tasks, stage));
    if id in p.tasks && p.tasks[id].phase.Released? && p.tasks[id].kind.Staged? {
      ExactStage(p, p.tasks[id].kind.stage);
      ReleasedIsStaged(p.tasks, id);
    }
    if id in p.tasks && p.tasks[id].phase.Ended? {
      ExactActive(p);
      EndedIsActive(p.tasks, id);
      SubtractFromPositive(p.activeTasks);
    }
  }

  lemma ExactStage(p: Pool, stage: string)
    requires Exact(p)
    ensures CountOf(p.counts, stage) == |StageTasks(p.tasks, stage)|
  {
  }

  lemma ExactActive(p: Pool)
    requires Exact(p)
    ensures p.activeTasks == |ActiveTasks(p.tasks)| < WORD
  {
    ActiveFits(p);
  }

  lemma ActiveAreStaged(tasks: map<nat, Task>, stage: string)
    ensures ActiveInStage(tasks, stage) <= StageTasks(tasks, stage)
  {
  }

  lemma ReleasedIsStaged(tasks: map<nat, Task>, id: nat)
    requires id in tasks && tasks[id].phase.Released? && tasks[id].kind.Staged?
    ensures id in StageTasks(tasks, tasks[id].kind.stage) && |StageTasks(tasks, tasks[id].kind.stage)| > 0
  {
  }

  lemma EndedIsActive(tasks: map<nat, Task>, id: nat)
    requires id in tasks && tasks[id].phase.Ended?
    ensures id in ActiveTasks(tasks) && |ActiveTasks(tasks)| > 0
  {
  }

  lemma SubtractFromPositive(n: nat)
    requires 0 < n < WORD
    ensures SubtractOne(n) == n - 1
  {
  }

  /** Submission to a stage, step by step, brings both counters up by one. */
  lemma StagedStart(p: Pool, id: nat, stage: string)
    requires Exact(p) && id !in p.tasks && |p.tasks| + 1 < WORD
    ensures var q := Next(Next(Next(p, SubmitToStage(id, stage)), CountStage(id)), CountActive(id));
            && q.tasks == p.tasks[id := Task(Staged(stage), Counted)]
            && q.activeTasks == p.activeTasks + 1 && CountOf(q.counts, stage) == CountOf(p.counts, stage) + 1
            && forall other :: other != stage ==> CountOf(q.counts, other) == CountOf(p.counts, other)
  {
    CountersFit(p, stage);
  }

  /** The end of a task of a stage, step by step, brings both counters down by one. */
  lemma StagedEnd(q: Pool, id: nat, stage: string, threw: bool)
    requires id in q.tasks && q.tasks[id] == Task(Staged(stage), Counted)
    requires 0 < q.activeTasks < WORD && CountOf(q.counts, stage) > 0
    ensures var q' := Next(Next(Next(q, End(id, threw)), Release(id)), ReleaseStage(id));
            && q'.tasks == q.tasks[id := Task(Staged(stage), Gone(threw))]
            && q'.activeTasks == q.activeTasks - 1 && CountOf(q'.counts, stage) == CountOf(q.counts, stage) - 1
            && forall other :: other != stage ==> CountOf(q'.counts, other) == CountOf(q.counts, other)
  {
  }

  /** The life of a task without a stage: `active_tasks` goes up and down by one, no stage counter moves. */
  lemma PlainLife(p: Pool, id: nat, threw: bool)
    requires Exact(p) && id !in p.tasks && |p.tasks| + 1 < WORD
    ensures var q := Next(p, Submit(id));
            var q' := Next(Next(q, End(id, threw)), Release(id));
            && q == Pool(p.tasks[id := Task(Plain, Counted)], p.activeTasks + 1, p.counts)
            && q' == Pool(p.tasks[id := Task(Plain, Gone(threw))], p.activeTasks, p.counts)
  {
    CountersFit(p, "");
  }

  lemma CountersFit(p: Pool, stage: string)
    requires Exact(p) && |p.tasks| + 1 < WORD
    ensures p.activeTasks + 1 < WORD && CountOf(p.counts, stage) + 1 < WORD
  {
    FewerThanTasks(p, ActiveTasks(p.tasks));
    FewerThanTasks(p, StageTasks(p.tasks, stage));
  }

  /** A task that is ready to end, to be released or to leave its stage does so, whatever the other tasks do. */
  lemma ReadyTasksMove(p: Pool, id: nat, threw: bool)
    requires id in p.tasks
    ensures var t := p.tasks[id];
            && (t.phase == Counted ==> Next(p, End(id, threw)).tasks[id].phase == Ended(threw))
            && (t.phase == Ended(threw) ==>
                  Next(p, Release(id)).tasks[id].phase == if t.kind == Plain then Gone(threw) else Released(threw))
            && (t.phase == Released(threw) && t.kind != Plain ==>
                  Next(p, ReleaseStage(id)).tasks[id].phase == Gone(threw))
  {
  }

  /**
   What is left when everything has come to rest: each counter is the number
   of its tasks that could not be started. So all counters are zero if and
   only if a thread was found for every task.
   */
  lemma ZeroAtRestIff(events: seq<Event>, stage: string)
    requires |Run(EMPTY, events).tasks| < WORD && AtRest(Run(EMPTY, events).tasks)
    ensures var p := Run(EMPTY, events);
            && p.activeTasks == |LostTasks(p.tasks)|
            && CountOf(p.counts, stage) == |LostInStage(p.tasks, stage)|
            && (p.activeTasks == 0 <==> forall id :: id in p.tasks ==> !p.tasks[id].phase.Lost?)
            && (p.activeTasks == 0 ==> CountOf(p.counts, stage) == 0)
  {
    RunExact(events);
    hide *;
    var p := Run(EMPTY, events);
    ExactActive(p);
    ExactStage(p, stage);
    RestIsLost(p.tasks, stage);
  }

  lemma RestIsLost(tasks: map<nat, Task>, stage: string)
    requires AtRest(tasks)
    ensures ActiveTasks(tasks) == LostTasks(tasks) && StageTasks(tasks, stage) == LostInStage(tasks, stage)
    ensures LostInStage(tasks, stage) <= LostTasks(tasks)
    ensures |LostTasks(tasks)| == 0 <==> forall id :: id in tasks ==> !tasks[id].phase.Lost?
    ensures |LostTasks(tasks)| == 0 ==> |LostInStage(tasks, stage)| == 0
  {
    if id :| id in tasks && tasks[id].phase.Lost? {
      assert id in LostTasks(tasks);
    }
  }

  /** A task that could not be started is counted ever after. */
  lemma {:induction false} LostForever(p: Pool, events: seq<Event>, id: nat)
    requires id in p.tasks && p.tasks[id].phase.Lost?
    ensures id in Run(p, events).tasks && Run(p, events).tasks[id] == p.tasks[id]
  {
    hide Incremented, Decremented, SubtractOne;
    if events != [] {
      LostForever(p, events[..|events| - 1], id);
    }
  }

  /** A case: the only task is submitted to a stage and cannot be started; both counters stay at one. */
  lemma LostTaskIsCounted(stage: string)
    ensures var p := Run(EMPTY, [SubmitToStage(0, stage), CountStage(0), CountActive(0), StartFails(0)]);
            AtRest(p.tasks) && p.activeTasks == 1 && CountOf(p.counts, stage) == 1
  {
    var e0, e1, e2, e3 := SubmitToStage(0, stage), CountStage(0), CountActive(0), StartFails(0);
    assert [e0, e1, e2, e3][..3] == [e0, e1, e2] && [e0, e1, e2][..2] == [e0, e1];
    assert [e0, e1][..1] == [e0] && [e0][..0] == [];
    assert Run(EMPTY, []) == EMPTY && Run(EMPTY, [e0]) == Next(EMPTY, e0);
    assert Run(EMPTY, [e0, e1]) == Next(Next(EMPTY, e0), e1);
    assert Run(EMPTY, [e0, e1, e2]) == Next(Next(Next(EMPTY, e0), e1), e2);
  }

  /** `pending_tasks`: zero counters mean that no task is between its counting and its release. */
  lemma ZeroMeansQuiet(events: seq<Event>, id: nat)
    requires |Run(EMPTY, events).tasks| < WORD
    requires id in Run(EMPTY, events).tasks
    ensures var p := Run(EMPTY, events); var t := p.tasks[id];
            && (p.activeTasks == 0 ==> !IsActive(t))
            && (t.kind.Staged? && CountOf(p.counts, t.kind.stage) == 0 ==> t.phase.Entered? || t.phase.Gone?)
  {
    RunExact(events);
    hide Run;
    var p := Run(EMPTY, events);
    var t := p.tasks[id];
    if IsActive(t) {
      assert id in ActiveTasks(p.tasks);
    }
    if t.kind.Staged? && InStage(t, t.kind.stage) {
      assert id in StageTasks(p.tasks, t.kind.stage);
    }
  }
}
