/** src/queue/scheduler.py in its own form: task objects with a mutable status, the scheduler
    that registers them, and the state that `run` keeps while it executes them. */
module Scheduler {
  import opened Sorting
  import opened TaskGraph
  import opened RunSystem
  import opened RunOutcomes
  import opened RunTheorems
  import opened Wrappers

  class TaskSpec {
    const id: TaskId
    const dependsOn: seq<TaskId>
    const priority: int
    var status: Status
    var result: Option<string>
    var error: Option<string>

    constructor (id: TaskId, dependsOn: seq<TaskId>, priority: int)
      ensures this.id == id && this.dependsOn == dependsOn && this.priority == priority
      ensures status == PENDING && result == None && error == None
    {
      this.id, this.dependsOn, this.priority := id, dependsOn, priority;
      status, result, error := PENDING, None, None;
    }
  }

  /** The pending tasks whose registered dependencies have all completed, as registered. */
  function ReadyInOrder(g: Graph, status: map<TaskId, Status>, ids: seq<TaskId>): seq<TaskId> {
    if ids == [] then []
    else ReadyInOrder(g, status, ids[..|ids| - 1]) +
         if IsReady(g, status, ids[|ids| - 1]) then [ids[|ids| - 1]] else []
  }

  lemma {:induction false} ReadyInOrderContents(g: Graph, status: map<TaskId, Status>, ids: seq<TaskId>)
    requires NoDuplicates(ids)
    ensures NoDuplicates(ReadyInOrder(g, status, ids))
    ensures forall t :: t in ReadyInOrder(g, status, ids) <==> t in ids && IsReady(g, status, t)
  {
    if ids != [] {
      ReadyInOrderContents(g, status, ids[..|ids| - 1]);
      assert ids == ids[..|ids| - 1] + [ids[|ids| - 1]];
    }
  }

  /** What `get_ready_tasks` returns is the ready tasks, each once, highest priority first. */
  lemma ReadyTasksSorted(g: Graph, status: map<TaskId, Status>)
    requires g.Valid()
    ensures var ready := StableSort(ByPriority(g), ReadyInOrder(g, status, g.ids));
      NoDuplicates(ready) && Sorted(ByPriority(g), ready) && forall t :: t in ready <==> IsReady(g, status, t)
  {
    ReadyInOrderContents(g, status, g.ids);
    SortQueue(g, ReadyInOrder(g, status, g.ids));
  }

  lemma {:induction false} ReadyAsRegistered(g: Graph, status: map<TaskId, Status>, k: nat)
    requires g.Valid() && k <= |g.ids|
    ensures forall i, j :: 0 <= i < j < |ReadyInOrder(g, status, g.ids[..k])| ==>
      RegisteredBefore(g, ReadyInOrder(g, status, g.ids[..k])[i], ReadyInOrder(g, status, g.ids[..k])[j])
  {
    if k > 0 {
      assert g.ids[..k][..k - 1] == g.ids[..k - 1];
      ReadyAsRegistered(g, status, k - 1);
      ReadyInOrderContents(g, status, g.ids[..k - 1]);
      var last := g.ids[k - 1];
      forall t | t in g.ids[..k - 1] ensures RegisteredBefore(g, t, last) {}
    }
  }

  /** t goes before u: of higher priority, or equal and registered first. */
  ghost predicate Precedes(g: Graph, t: TaskId, u: TaskId) {
    g.PriorityOf(t) > g.PriorityOf(u) || (g.PriorityOf(t) == g.PriorityOf(u) && RegisteredBefore(g, t, u))
  }

  /** Among equal priorities the ready tasks come as registered. */
  lemma ReadyTasksTakeTurns(g: Graph, status: map<TaskId, Status>)
    requires g.Valid()
    ensures var ready := StableSort(ByPriority(g), ReadyInOrder(g, status, g.ids));
      forall i, j :: 0 <= i < j < |ready| ==> Precedes(g, ready[i], ready[j])
  {
    hide ReadyInOrder, RegisteredBefore, StableSort;
    ReadyAsRegistered(g, status, |g.ids|);
    assert g.ids[..|g.ids|] == g.ids;
    SortInTurn(ByPriority(g), Registered(g), ReadyInOrder(g, status, g.ids));
  }

  ghost function Registered(g: Graph): (TaskId, TaskId) -> bool {
    (t, u) => RegisteredBefore(g, t, u)
  }

  /** Any such list by priority that leaves ties as registered is the one returned. */
  lemma ReadyTasksDetermined(g: Graph, status: map<TaskId, Status>, other: seq<TaskId>)
    requires Sorted(ByPriority(g), other)
    requires forall x :: TiesWith(ByPriority(g), x, other) == TiesWith(ByPriority(g), x, ReadyInOrder(g, status, g.ids))
    ensures other == StableSort(ByPriority(g), ReadyInOrder(g, status, g.ids))
  {
    hide ReadyInOrder;
    StableSortCorrect(ByPriority(g), ReadyInOrder(g, status, g.ids));
    StableSortUnique(ByPriority(g), other, StableSort(ByPriority(g), ReadyInOrder(g, status, g.ids)));
  }

  class TaskScheduler {
    /** `_tasks`, and the order in which the dictionary lists its keys. */
    var tasks: map<TaskId, TaskSpec>
    var order: seq<TaskId>
    const concurrency: int

    ghost predicate Valid()
      reads this
    {
      && NoDuplicates(order)
      && (forall t :: t in order <==> t in tasks)
      && (forall t :: t in tasks ==> tasks[t].id == t)
    }

    function Tasks(): Graph
      reads this
    {
      Graph(order, map t | t in tasks :: tasks[t].dependsOn, map t | t in tasks :: tasks[t].priority)
    }

    function Statuses(): map<TaskId, Status>
      reads this, tasks.Values
    {
      map t | t in tasks :: tasks[t].status
    }

    constructor (concurrency: int)
      ensures Valid() && tasks == map[] && this.concurrency == concurrency
    {
      tasks, order, this.concurrency := map[], [], concurrency;
    }

    lemma StatusAt()
      requires Valid()
      ensures Statuses().Keys == tasks.Keys
      ensures forall t :: t in tasks ==> Statuses()[t] == tasks[t].status
    {
    }

    /** Assigning to one task's status changes that one entry. */
    method SetStatus(t: TaskId, status: Status)
      requires Valid() && t in tasks
      modifies {tasks[t]}`status
      ensures Statuses() == old(Statuses())[t := status] && tasks[t].status == status
    {
      tasks[t].status := status;
      forall u | u in tasks ensures Statuses()[u] == old(Statuses())[t := status][u] {
        assert tasks[u].id == u;
      }
    }

    lemma GraphValid()
      requires Valid()
      ensures Tasks().Valid()
    {
    }

    /** `add_task`: a second task with the same id is refused and changes nothing. */
    method AddTask(task: TaskSpec) returns (duplicate: bool)
      requires Valid()
      modifies this
      ensures Valid()
      ensures duplicate <==> task.id in old(tasks)
      ensures duplicate ==> tasks == old(tasks) && order == old(order)
      ensures !duplicate ==> tasks == old(tasks)[task.id := task] && order == old(order) + [task.id]
    {
      duplicate := task.id in tasks;
      if !duplicate {
        tasks, order := tasks[task.id := task], order + [task.id];
      }
    }

    method TopologicalSort() returns (r: SortResult)
      requires Valid()
      ensures r.UnknownDependency? <==> !Tasks().AllKnown()
      ensures r.UnknownDependency? ==> IsFirstUnknown(Tasks(), r.task, r.dep)
      ensures r.Order? <==> Runnable(Tasks())
      ensures r.Order? ==> IsSchedule(Tasks(), r.order) && TakesTurns(Tasks(), r.order)
      ensures r.CyclicDependency? ==> StuckOnCycles(Tasks(), r.missing)
    {
      GraphValid();
      r := TaskGraph.TopologicalSort(Tasks());
    }

    /** The test of `get_ready_tasks` on one task. */
    predicate MayStart(t: TaskId)
      requires Valid() && t in tasks
      reads this, tasks.Values
      ensures MayStart(t) <==> IsReady(Tasks(), Statuses(), t)
    {
      StatusAt();
      tasks[t].status.PENDING? && forall d :: d in tasks[t].dependsOn && d in tasks ==> tasks[d].status.COMPLETED?
    }

    /** `get_ready_tasks`: exactly the ready tasks, by priority, ties as registered. */
    method GetReadyTasks() returns (ready: seq<TaskId>)
      requires Valid()
      ensures ready == StableSort(ByPriority(Tasks()), ReadyInOrder(Tasks(), Statuses(), order))
      ensures forall t :: t in ready <==> IsReady(Tasks(), Statuses(), t)
      ensures forall i, j :: 0 <= i < j < |ready| ==> Precedes(Tasks(), ready[i], ready[j])
    {
      hide IsReady, MayStart, StableSort, Precedes;
      ready := [];
      ghost var g, status := Tasks(), Statuses();
      for i := 0 to |order|
        invariant ready == ReadyInOrder(g, status, order[..i])
      {
        assert order[..i + 1][..i] == order[..i] && order[..i + 1][i] == order[i];
        if MayStart(order[i]) {
          ready := ready + [order[i]];
        }
      }
      assert order[..|order|] == order;
      ReadyTasksSorted(g, status);
      ReadyTasksTakeTurns(g, status);
      ready := StableSort(ByPriority(Tasks()), ready);
    }

    /** `reset`: every task is as freshly registered again. */
    method Reset()
      requires Valid()
      modifies tasks.Values
      ensures Valid()
      ensures forall t :: t in tasks ==> tasks[t].status == PENDING && tasks[t].result == None && tasks[t].error == None
      ensures Statuses() == map t | t in tasks :: PENDING
    {
      for i := 0 to |order|
        invariant forall t :: t in order[..i] ==>
          tasks[t].status == PENDING && tasks[t].result == None && tasks[t].error == None
      {
        var task := tasks[order[i]];
        task.status, task.result, task.error := PENDING, None, None;
        assert order[..i + 1] == order[..i] + [order[i]];
      }
      assert order[..|order|] == order;
    }

    // ---- the pieces of `run` between two suspension points ----

    ghost function State(l: Locals): RunState
      reads this, tasks.Values
    {
      l.With(Statuses())
    }

    /** Finished tasks hold what the executor returned or raised for them. */
    ghost predicate Reports(outcome: TaskId -> Outcome)
      reads this, tasks.Values
    {
      forall t :: t in tasks ==>
        && (tasks[t].status.COMPLETED? ==> outcome(t).Value? && tasks[t].result == Some(outcome(t).value))
        && (tasks[t].status.FAILED? ==> outcome(t).Raised? && tasks[t].error == Some(outcome(t).message))
    }

    /** Mark every ready task and create its coroutine, in priority order. */
    method DispatchReady(running0: set<TaskId>) returns (running: set<TaskId>)
      requires Valid()
      modifies tasks.Values`status
      ensures Statuses() == Dispatch(Tasks(), old(Statuses()))
      ensures forall t :: t in tasks && tasks[t].status.Done() ==> old(tasks[t].status) == tasks[t].status
      ensures running == running0 + ReadySet(Tasks(), old(Statuses()))
    {
      hide StableSort, ReadyInOrder, Dispatch, ReadySet, IsReady;
      var ready := GetReadyTasks();
      ghost var before := Statuses();
      StatusAt();
      running := running0;
      for i := 0 to |ready|
        invariant running == running0 + Elements(ready[..i])
        invariant Statuses() == Marked(before, ready[..i])
      {
        assert ready[i] in ready;
        ReadyIsPending(Tasks(), before, ready[i]);
        MarkStep(before, ready, i);
        SetStatus(ready[i], READY);
        running := running + {ready[i]};
      }
      assert ready[..|ready|] == ready;
      MarkedAll(Tasks(), before, ready);
      DispatchKeepsDone(Tasks(), before);
      StatusAt();
    }

    predicate AllTasksDone()
      requires Valid()
      reads this, tasks.Values
      ensures AllTasksDone() <==> AllDone(Statuses())
    {
      StatusAt();
      forall t :: t in tasks ==> tasks[t].status.Done()
    }

    /** One pass of the `while True` loop, up to the next suspension or the return. */
    method MainPass(l: Locals, ghost outcome: TaskId -> Outcome) returns (l': Locals)
      requires Valid() && Reports(outcome)
      modifies tasks.Values`status
      ensures State(l') == RunSystem.MainPass(Tasks(), old(State(l))) && Reports(outcome)
    {
      hide Dispatch, ReadySet, Tasks;
      var running := DispatchReady(l.running);
      assert Reports(outcome);
      hide AllDone, Reports;
      var allDone := AllTasksDone();
      if allDone {
        l' := l.(running := running, main := Returned);
      } else if running != {} {
        l' := l.(running := running, main := Waiting, event := false);
      } else {
        l' := l.(running := running, main := Returned);
      }
    }

    /** `_run_task` up to the executor's first suspension: take a permit, start. */
    method Acquire(l: Locals, t: TaskId, ghost outcome: TaskId -> Outcome) returns (l': Locals)
      requires Valid() && t in tasks && tasks[t].status.READY? && t in l.calls && l.permits > 0 && Reports(outcome)
      modifies {tasks[t]}`status
      ensures State(l') == AcquireTask(old(State(l)), t)
      ensures tasks[t].status.RUNNING? && Reports(outcome) && forall u :: u in tasks && u != t ==> unchanged(tasks[u])
    {
      forall u | u in tasks && u != t ensures tasks[u] != tasks[t] {
        assert tasks[u].id == u;
      }
      SetStatus(t, RUNNING);
      l' := l.(permits := l.permits - 1, calls := l.calls[t := l.calls[t] + 1]);
    }

    /** Store what the executor returned or raised. */
    method RecordOutcome(t: TaskId, outcome: Outcome)
      requires Valid() && t in tasks
      modifies tasks[t]
      ensures Statuses() == old(Statuses())[t := if outcome.Value? then COMPLETED else FAILED]
      ensures tasks[t].status == if outcome.Value? then COMPLETED else FAILED
      ensures outcome.Value? ==> tasks[t].result == Some(outcome.value)
      ensures outcome.Raised? ==> tasks[t].error == Some(outcome.message)
    {
      var task := tasks[t];
      if outcome.Value? {
        task.result := Some(outcome.value);
      } else {
        task.error := Some(outcome.message);
      }
      SetStatus(t, if outcome.Value? then COMPLETED else FAILED);
    }

    /** The rest of `_run_task`: the executor returned a value, or raised. */
    method Finish(l: Locals, t: TaskId, outcome: TaskId -> Outcome) returns (l': Locals)
      requires Valid() && t in tasks && tasks[t].status.RUNNING? && Reports(outcome)
      modifies tasks[t]
      ensures State(l') == FinishTask(old(State(l)), t, outcome(t).Value?)
      ensures Reports(outcome)
      ensures tasks[t].status == if outcome(t).Value? then COMPLETED else FAILED
      ensures forall u :: u in tasks && u != t ==> unchanged(tasks[u])
      ensures outcome(t).Value? ==> tasks[t].result == Some(outcome(t).value)
      ensures outcome(t).Raised? ==> tasks[t].error == Some(outcome(t).message)
    {
      forall u | u in tasks && u != t ensures tasks[u] != tasks[t] {
        assert tasks[u].id == u;
      }
      RecordOutcome(t, outcome(t));
      var callbacks := l.callbacks;
      if l.main.Waiting? && !l.event { callbacks := callbacks + [WakeMain]; }
      l' := l.(event := true, permits := l.permits + 1, callbacks := callbacks + [Discard(t)]);
    }

    /** The event loop makes its oldest pending callback. */
    method Call(l: Locals, ghost outcome: TaskId -> Outcome) returns (l': Locals)
      requires Valid() && l.callbacks != [] && Reports(outcome)
      modifies tasks.Values`status
      ensures State(l') == RunCallback(Tasks(), old(State(l))) && Reports(outcome)
    {
      var rest := l.(callbacks := l.callbacks[1..]);
      match l.callbacks[0] {
        case WakeMain => l' := MainPass(rest, outcome);
        case Discard(t) => l' := rest.(running := rest.running - {t});
      }
    }

    lemma NothingLeft(l: Locals)
      requires Valid() && !l.main.Starting? && l.callbacks == []
      requires forall t :: t in tasks ==> !tasks[t].status.RUNNING? && (tasks[t].status.READY? ==> l.permits <= 0)
      ensures Quiescent(State(l))
    {
      StatusAt();
    }

    /** Any one thing that can happen next, or none. */
    method StepOnce(l: Locals, outcome: TaskId -> Outcome) returns (quiet: bool, l': Locals, ghost step: Step)
      requires Valid() && !l.main.Starting? && l.calls.Keys == tasks.Keys && Reports(outcome)
      modifies tasks.Values
      ensures Reports(outcome)
      ensures quiet ==> State(l') == old(State(l)) && Quiescent(State(l'))
      ensures !quiet ==> Enabled(old(State(l)), step) && State(l') == Apply(Tasks(), old(State(l)), step)
      ensures !quiet && step.Finish? ==> step.ok == outcome(step.task).Value?
    {
      hide Reports, RunCallback, AcquireTask, FinishTask, Quiescent;
      quiet, step, l' := false, Step.Call, l;
      if {
        case l.callbacks != [] =>
          l' := Call(l, outcome);
        case t: TaskId :| t in tasks && tasks[t].status.READY? && l.permits > 0 =>
          step := Step.Acquire(t);
          l' := Acquire(l, t, outcome);
        case t: TaskId :| t in tasks && tasks[t].status.RUNNING? =>
          step := Step.Finish(t, outcome(t).Value?);
          l' := Finish(l, t, outcome);
        case l.callbacks == [] && forall t :: t in tasks ==>
          !tasks[t].status.RUNNING? && (tasks[t].status.READY? ==> l.permits <= 0) =>
          quiet := true;
          NothingLeft(l);
      }
    }

    /** What `run` keeps before its first pass. */
    function Idle(): Locals
      reads this
    {
      Locals(Starting, false, [], {}, concurrency, map t | t in tasks :: 0)
    }

    /** The first pass of the loop, on freshly registered tasks. */
    method FirstPass(outcome: TaskId -> Outcome) returns (l: Locals)
      requires Valid() && concurrency >= 0 && Runnable(Tasks())
      requires forall t :: t in tasks ==> tasks[t].status == PENDING
      modifies tasks.Values`status
      ensures Progress(Tasks(), concurrency, [Begin], State(l)) && Reports(outcome)
    {
      assert Reports(outcome);
      IdleIsInitial();
      ProgressBegin(Tasks(), concurrency);
      hide Progress, Runnable, Initial, RunSystem.MainPass, Idle, State, Reports;
      l := MainPass(Idle(), outcome);
    }

    lemma IdleIsInitial()
      requires Valid() && forall t :: t in tasks ==> tasks[t].status == PENDING
      ensures State(Idle()) == Initial(Tasks(), concurrency)
    {}

    /** Let the event loop run until nothing can happen any more. */
    method Drive(l0: Locals, outcome: TaskId -> Outcome, ghost steps0: seq<Step>)
      returns (l: Locals, ghost steps: seq<Step>)
      requires Valid() && Progress(Tasks(), concurrency, steps0, State(l0)) && FollowsOutcome(steps0, outcome)
      requires Reports(outcome)
      modifies tasks.Values
      ensures Reports(outcome)
      ensures Progress(Tasks(), concurrency, steps, State(l)) && FollowsOutcome(steps, outcome)
      ensures Quiescent(State(l))
    {
      hide Progress, FollowsOutcome, Apply, Measure;
      ghost var g := Tasks();
      var quiet := false;
      l, steps := l0, steps0;
      while !quiet
        invariant Progress(g, concurrency, steps, State(l)) && FollowsOutcome(steps, outcome) && Reports(outcome)
        invariant quiet ==> Quiescent(State(l))
        decreases !quiet, Measure(g, State(l))
      {
        ghost var s := State(l);
        ghost var step;
        ProgressMeans(g, concurrency, steps, s);
        StatusAt();
        quiet, l, step := StepOnce(l, outcome);
        if !quiet {
          ProgressStep(g, concurrency, steps, s, step, outcome);
          steps := steps + [step];
        }
      }
    }

    /** `run` after its sort has succeeded. */
    method Execute(outcome: TaskId -> Outcome) returns (l: Locals, ghost steps: seq<Step>)
      requires Valid() && concurrency >= 0 && Runnable(Tasks())
      requires forall t :: t in tasks ==> tasks[t].status == PENDING
      modifies tasks.Values
      ensures RunsToEnd(Tasks(), concurrency, steps, State(l), outcome) && Reports(outcome)
    {
      hide Progress, Runnable, Quiescent, FollowsOutcome, RunsToEnd, Reports;
      l := FirstPass(outcome);
      BeginFollows(outcome);
      l, steps := Drive(l, outcome, [Begin]);
      RunEnds(Tasks(), concurrency, steps, State(l), outcome);
    }
  }

  /** What one call of `run` keeps beside the task objects: where the main coroutine stands,
      the event, the callbacks the event loop has still to make, the `running` set, the free
      permits of the semaphore, and how often each task's executor has been called. */
  datatype Locals = Locals(
    main: Main,
    event: bool,
    callbacks: seq<Callback>,
    running: set<TaskId>,
    permits: int,
    calls: map<TaskId, nat>)
  {
    function With(status: map<TaskId, Status>): RunState {
      RunState(status, main, event, callbacks, running, permits, calls)
    }
  }

  ghost function Marked(status: map<TaskId, Status>, ready: seq<TaskId>): map<TaskId, Status> {
    map t | t in status :: if t in ready then READY else status[t]
  }

  lemma ReadyIsPending(g: Graph, status: map<TaskId, Status>, t: TaskId)
    requires IsReady(g, status, t)
    ensures t in g.deps && t in status && status[t].PENDING?
  {}

  lemma MarkStep(status: map<TaskId, Status>, ready: seq<TaskId>, i: nat)
    requires i < |ready| && ready[i] in status
    ensures Marked(status, ready[..i])[ready[i] := READY] == Marked(status, ready[..i + 1])
    ensures Elements(ready[..i]) + {ready[i]} == Elements(ready[..i + 1])
  {
    assert ready[..i + 1] == ready[..i] + [ready[i]];
  }

  lemma DispatchKeepsDone(g: Graph, status: map<TaskId, Status>)
    ensures Dispatch(g, status).Keys == status.Keys
    ensures forall t :: t in status && Dispatch(g, status)[t].Done() ==> Dispatch(g, status)[t] == status[t]
  {}

  lemma MarkedAll(g: Graph, status: map<TaskId, Status>, ready: seq<TaskId>)
    requires forall t :: t in ready <==> IsReady(g, status, t)
    ensures Marked(status, ready) == Dispatch(g, status)
    ensures Elements(ready) == ReadySet(g, status)
  {
  }

  /** What a call of `run` leads to: a complete run of the transition system with these outcomes;
      and with a permit to give, the statuses that the outcomes alone determine, and a return exactly
      if nobody depends on a task that raises. */
  ghost predicate RunsToEnd(g: Graph, concurrency: int, steps: seq<Step>, s: RunState, outcome: TaskId -> Outcome) {
    && IsRun(g, Initial(g, concurrency), steps, s) && Quiescent(s) && FollowsOutcome(steps, outcome)
    && (concurrency >= 1 ==>
          s.status == FinalStatuses(g, outcome) && (s.main.Returned? <==> !FailureIsAwaited(g, outcome)))
  }

  /** `run` on freshly registered tasks, driven through some interleaving until nothing can
      happen any more; `outcome` is what the executor does with each task. */
  method Run(scheduler: TaskScheduler, outcome: TaskId -> Outcome)
    returns (verdict: SortResult, l: Locals, ghost steps: seq<Step>)
    requires scheduler.Valid() && forall t :: t in scheduler.tasks ==> scheduler.tasks[t].status == PENDING
    requires scheduler.concurrency >= 0
    modifies scheduler.tasks.Values
    ensures verdict.Order? <==> Runnable(scheduler.Tasks())
    ensures !verdict.Order? ==> scheduler.Statuses() == old(scheduler.Statuses())
    ensures verdict.Order? ==> scheduler.Reports(outcome)
    ensures verdict.Order? ==> RunsToEnd(scheduler.Tasks(), scheduler.concurrency, steps, scheduler.State(l), outcome)
  {
    hide Runnable, RunsToEnd, IsFirstUnknown, IsSchedule, StuckOnCycles;
    verdict := scheduler.TopologicalSort();
    l, steps := scheduler.Idle(), [];
    if verdict.Order? {
      l, steps := scheduler.Execute(outcome);
    }
  }

  lemma RunEnds(g: Graph, c: int, steps: seq<Step>, s: RunState, outcome: TaskId -> Outcome)
    requires Progress(g, c, steps, s) && Quiescent(s) && FollowsOutcome(steps, outcome)
    ensures RunsToEnd(g, c, steps, s, outcome)
  {
    if c >= 1 {
      EndIsDetermined(g, c, steps, s, outcome);
    }
  }

  lemma ProgressBegin(g: Graph, c: int)
    requires Runnable(g) && c >= 0
    ensures Progress(g, c, [Begin], MainPass(g, Initial(g, c)))
  {
    InitialInvariant(g, c);
    StepKeepsInvariant(g, c, Initial(g, c), Begin);
    assert IsRun(g, Initial(g, c), [], Initial(g, c));
    RunAppend(g, Initial(g, c), [], Initial(g, c), Begin);
    assert [] + [Begin] == [Begin];
  }

  ghost predicate Progress(g: Graph, c: int, steps: seq<Step>, s: RunState) {
    Runnable(g) && Invariant(g, c, s) && !s.main.Starting? && IsRun(g, Initial(g, c), steps, s)
  }

  lemma ProgressMeans(g: Graph, c: int, steps: seq<Step>, s: RunState)
    requires Progress(g, c, steps, s)
    ensures IsRun(g, Initial(g, c), steps, s) && !s.main.Starting? && s.calls.Keys == s.status.Keys
  {}

  lemma BeginFollows(outcome: TaskId -> Outcome)
    ensures FollowsOutcome([Begin], outcome)
  {}

  lemma ProgressStep(g: Graph, c: int, steps: seq<Step>, s: RunState, step: Step, outcome: TaskId -> Outcome)
    requires Progress(g, c, steps, s) && Enabled(s, step)
    requires FollowsOutcome(steps, outcome) && (step.Finish? ==> step.ok == outcome(step.task).Value?)
    ensures Progress(g, c, steps + [step], Apply(g, s, step)) && FollowsOutcome(steps + [step], outcome)
    ensures Measure(g, Apply(g, s, step)) < Measure(g, s)
  {
    StepIsNoStart(g, s, step);
    hide Invariant, Apply, Measure, IsRun;
    StepKeepsInvariant(g, c, s, step);
    StepDecreases(g, c, s, step);
    RunAppend(g, Initial(g, c), steps, s, step);
  }

  lemma StepIsNoStart(g: Graph, s: RunState, step: Step)
    requires Enabled(s, step) && !s.main.Starting?
    ensures !Apply(g, s, step).main.Starting?
  {}
}
