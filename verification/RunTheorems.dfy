/** What `TaskScheduler.run` keeps and where it can end, over every interleaving. */
module RunTheorems {
  import opened Sorting
  import opened TaskGraph
  import opened RunSystem

  lemma {:induction false} RunKeepsInvariant(g: Graph, concurrency: int, s: RunState, steps: seq<Step>, end: RunState)
    requires Runnable(g) && Invariant(g, concurrency, s) && IsRun(g, s, steps, end)
    ensures Invariant(g, concurrency, end)
    decreases |steps|
  {
    if steps != [] {
      StepKeepsInvariant(g, concurrency, s, steps[0]);
      RunKeepsInvariant(g, concurrency, Apply(g, s, steps[0]), steps[1..], end);
    }
  }

  lemma ReachableInvariant(g: Graph, concurrency: int, s: RunState)
    requires Runnable(g) && concurrency >= 0 && Reachable(g, concurrency, s)
    ensures Invariant(g, concurrency, s)
  {
    var steps :| IsRun(g, Initial(g, concurrency), steps, s);
    InitialInvariant(g, concurrency);
    RunKeepsInvariant(g, concurrency, Initial(g, concurrency), steps, s);
  }

  function RunningTasks(s: RunState): set<TaskId> {
    set t | t in s.status && s.status[t].RUNNING?
  }

  lemma {:induction false} RunningCountIsSize(ids: seq<TaskId>, status: map<TaskId, Status>)
    requires NoDuplicates(ids)
    ensures Total(ids, status, RunningWeight) == |RunningAmong(ids, status)|
  {
    if ids != [] {
      RunningCountIsSize(ids[1..], status);
      assert ids == [ids[0]] + ids[1..] && ids[0] !in ids[1..];
      var rest := RunningAmong(ids[1..], status);
      if ids[0] in status && status[ids[0]].RUNNING? {
        assert RunningAmong(ids, status) == rest + {ids[0]} && ids[0] !in rest;
      } else {
        assert RunningAmong(ids, status) == rest;
      }
    }
  }

  function RunningAmong(ids: seq<TaskId>, status: map<TaskId, Status>): set<TaskId> {
    set t | t in ids && t in status && status[t].RUNNING?
  }

  lemma ConcurrencyBound(g: Graph, concurrency: int, s: RunState)
    requires g.Valid() && TasksOk(g, concurrency, s)
    ensures |RunningTasks(s)| <= concurrency
  {
    RunningCountIsSize(g.ids, s.status);
    assert RunningTasks(s) == RunningAmong(g.ids, s.status);
  }

  /** Safety: dispatch order, one executor call per task, the concurrency bound. */
  lemma RunIsSafe(g: Graph, concurrency: int, s: RunState)
    requires Runnable(g) && concurrency >= 0 && Reachable(g, concurrency, s)
    ensures forall t, d :: t in s.status && t in g.deps && !s.status[t].PENDING? && d in g.deps[t] ==>
      d in s.status && s.status[d].COMPLETED?
    ensures forall t :: t in s.calls ==> s.calls[t] <= 1
    ensures forall t :: t in s.status && s.status[t].Done() ==> t in s.calls && s.calls[t] == 1
    ensures |RunningTasks(s)| <= concurrency
    ensures s.main.Returned? ==> AllDone(s.status)
  {
    ReachableInvariant(g, concurrency, s);
    ConcurrencyBound(g, concurrency, s);
    forall t, d | t in s.status && t in g.deps && !s.status[t].PENDING? && d in g.deps[t]
      ensures d in s.status && s.status[d].COMPLETED? {
      assert DependenciesMet(g, s.status, t);
    }
  }

  // ---- every run is short ----

  function StepsLeft(x: Status): nat {
    match x
    case PENDING => 4
    case READY => 4
    case RUNNING => 3
    case COMPLETED => 0
    case FAILED => 0
  }

  function Measure(g: Graph, s: RunState): nat {
    Total(g.ids, s.status, StepsLeft) + |s.callbacks| + if s.main.Starting? then 1 else 0
  }

  lemma DispatchKeepsTotal(g: Graph, status: map<TaskId, Status>)
    ensures Total(g.ids, Dispatch(g, status), StepsLeft) == Total(g.ids, status, StepsLeft)
  {
    TotalSame(g.ids, status, Dispatch(g, status), StepsLeft);
  }

  lemma StepDecreases(g: Graph, concurrency: int, s: RunState, step: Step)
    requires Runnable(g) && Invariant(g, concurrency, s) && Enabled(s, step)
    ensures Measure(g, Apply(g, s, step)) < Measure(g, s)
  {
    assert s.callbacks != [] && s.callbacks[0].WakeMain? ==> s.callbacks[0] in s.callbacks;
    StepLowersMeasure(g, s, step);
  }

  lemma StepLowersMeasure(g: Graph, s: RunState, step: Step)
    requires g.Valid() && s.status.Keys == g.deps.Keys && Enabled(s, step)
    requires s.callbacks != [] && s.callbacks[0].WakeMain? ==> s.main.Waiting?
    ensures Measure(g, Apply(g, s, step)) < Measure(g, s)
  {
    match step
    case Begin => DispatchKeepsTotal(g, s.status);
    case Call => CallDecreases(g, s);
    case Acquire(t) => TaskStepDecreases(g, s.status, t, RUNNING);
    case Finish(t, ok) => TaskStepDecreases(g, s.status, t, if ok then COMPLETED else FAILED);
  }

  lemma CallDecreases(g: Graph, s: RunState)
    requires s.callbacks != [] && (s.callbacks[0].WakeMain? ==> s.main.Waiting?)
    ensures Measure(g, RunCallback(g, s)) < Measure(g, s)
  {
    DispatchKeepsTotal(g, s.status);
  }

  lemma TaskStepDecreases(g: Graph, status: map<TaskId, Status>, t: TaskId, x: Status)
    requires g.Valid() && status.Keys == g.deps.Keys && t in status
    ensures Total(g.ids, status[t := x], StepsLeft)
      == Total(g.ids, status, StepsLeft) - StepsLeft(status[t]) + StepsLeft(x)
  {
    assert t in g.ids;
    TotalUpdate(g.ids, status, t, x, StepsLeft);
  }

  lemma {:induction false} RunIsBounded(g: Graph, concurrency: int, s: RunState, steps: seq<Step>, end: RunState)
    requires Runnable(g) && Invariant(g, concurrency, s) && IsRun(g, s, steps, end)
    ensures |steps| + Measure(g, end) <= Measure(g, s)
    decreases |steps|
  {
    if steps != [] {
      StepDecreases(g, concurrency, s, steps[0]);
      StepKeepsInvariant(g, concurrency, s, steps[0]);
      RunIsBounded(g, concurrency, Apply(g, s, steps[0]), steps[1..], end);
    }
  }

  lemma {:induction false} TotalOfPending(ids: seq<TaskId>, status: map<TaskId, Status>)
    requires forall t :: t in ids ==> t in status && status[t].PENDING?
    ensures Total(ids, status, StepsLeft) == 4 * |ids|
  {
    if ids != [] {
      assert ids[0] in ids && forall t :: t in ids[1..] ==> t in ids;
      TotalOfPending(ids[1..], status);
    }
  }

  /** No schedule of n tasks, whatever its executors do, takes more than 4n + 1 steps. */
  lemma RunLength(g: Graph, concurrency: int, steps: seq<Step>, end: RunState)
    requires Runnable(g) && concurrency >= 0 && IsRun(g, Initial(g, concurrency), steps, end)
    ensures |steps| <= 4 * |g.ids| + 1
  {
    InitialInvariant(g, concurrency);
    RunIsBounded(g, concurrency, Initial(g, concurrency), steps, end);
    TotalOfPending(g.ids, Initial(g, concurrency).status);
  }

  // ---- where runs end ----

  /** Some task that t waits for, directly or through others, failed. */
  ghost predicate HasFailedAncestor(g: Graph, status: map<TaskId, Status>, t: TaskId) {
    exists p :: IsWalk(g, p) && |p| >= 2 && p[0] == t && p[|p| - 1] in status && status[p[|p| - 1]].FAILED?
  }

  lemma QuiescentMeans(g: Graph, concurrency: int, s: RunState)
    requires Runnable(g) && concurrency >= 1 && Invariant(g, concurrency, s) && Quiescent(s)
    ensures s.callbacks == [] && (s.main.Waiting? || s.main.Returned?)
    ensures forall t :: t in s.status ==> !s.status[t].Active()
    ensures forall t :: !IsReady(g, s.status, t)
    ensures s.main.Returned? <==> AllDone(s.status)
  {
    assert !Enabled(s, Begin) && !Enabled(s, Call);
    forall t | t in s.status ensures !s.status[t].RUNNING? {
      assert !Enabled(s, Finish(t, true));
    }
    NoneRunning(g.ids, s.status);
    forall t | t in s.status ensures !s.status[t].READY? {
      assert !Enabled(s, Acquire(t));
    }
  }

  lemma {:induction false} AncestorsCompleted(g: Graph, concurrency: int, s: RunState, p: seq<TaskId>, i: nat)
    requires TasksOk(g, concurrency, s) && IsWalk(g, p) && 1 <= i < |p|
    requires p[0] in s.status && !s.status[p[0]].PENDING?
    ensures p[i] in s.status && s.status[p[i]].COMPLETED?
  {
    if i > 1 { AncestorsCompleted(g, concurrency, s, p, i - 1); }
    assert DependenciesMet(g, s.status, p[i - 1]);
    assert p[i - 1 + 1] in g.deps[p[i - 1]];
  }

  /** A task whose blocked dependency failed, or has a failed ancestor itself, has one too. */
  lemma FailureSpreads(g: Graph, status: map<TaskId, Status>, t: TaskId, d: TaskId)
    requires status.Keys == g.deps.Keys && t in g.deps && d in g.deps[t] && d in g.deps
    requires status[d].FAILED? || HasFailedAncestor(g, status, d)
    ensures HasFailedAncestor(g, status, t)
  {
    if status[d].FAILED? {
      var p := [t, d];
      assert IsWalk(g, p);
    } else {
      var p :| IsWalk(g, p) && |p| >= 2 && p[0] == d && p[|p| - 1] in status && status[p[|p| - 1]].FAILED?;
      var q := [t] + p;
      assert IsWalk(g, q) && q[|q| - 1] == p[|p| - 1];
    }
  }

  /** Without a ready or active task, what is pending and not below a failure would be a cycle. */
  lemma NothingElseBlocks(g: Graph, status: map<TaskId, Status>)
    requires Runnable(g) && status.Keys == g.deps.Keys
    requires forall t :: t in status ==> !status[t].Active()
    requires forall t :: !IsReady(g, status, t)
    ensures forall t :: t in status && status[t].PENDING? ==> HasFailedAncestor(g, status, t)
  {
    var stuck := set t | t in status && status[t].PENDING? && !HasFailedAncestor(g, status, t);
    forall t {:trigger Waits(g, stuck, t)} | t in stuck ensures Waits(g, stuck, t) {
      assert !IsReady(g, status, t) && g.KnowsDependenciesOf(t);
      var d :| d in g.deps[t] && d in status && !status[d].COMPLETED?;
      if status[d].FAILED? || HasFailedAncestor(g, status, d) { FailureSpreads(g, status, t, d); }
      assert d in stuck;
    }
    if t :| t in stuck {
      var c := StuckDependsOnCycle(g, stuck, t);
    }
    forall t | t in status && status[t].PENDING? ensures HasFailedAncestor(g, status, t) {
      assert t !in stuck;
    }
  }

  /** Where a run ends, failures or not: what is still pending is exactly what lies below a
      failure, the rest is completed or failed, and the coroutine has returned exactly when
      no failed task has a dependent. Otherwise it waits for an event nobody will set. */
  lemma QuiescentStates(g: Graph, concurrency: int, s: RunState)
    requires Runnable(g) && concurrency >= 1 && Reachable(g, concurrency, s) && Quiescent(s)
    ensures forall t :: t in s.status ==> s.status[t].PENDING? || s.status[t].Done()
    ensures forall t :: t in s.status ==> (s.status[t].PENDING? <==> HasFailedAncestor(g, s.status, t))
    ensures s.main.Returned? <==> !exists t, d :: t in g.deps && d in g.deps[t] && d in s.status && s.status[d].FAILED?
    ensures s.main.Returned? || (s.main.Waiting? && !s.event && s.callbacks == [])
  {
    ReachableInvariant(g, concurrency, s);
    QuiescentMeans(g, concurrency, s);
    NothingElseBlocks(g, s.status);
    forall t | t in s.status && !s.status[t].PENDING? ensures !HasFailedAncestor(g, s.status, t) {
      if HasFailedAncestor(g, s.status, t) {
        var p :| IsWalk(g, p) && |p| >= 2 && p[0] == t && p[|p| - 1] in s.status && s.status[p[|p| - 1]].FAILED?;
        AncestorsCompleted(g, concurrency, s, p, |p| - 1);
      }
    }
    if t :| t in s.status && s.status[t].PENDING? {
      AncestorHasDependent(g, s.status, t);
    }
    forall t, d | t in g.deps && d in g.deps[t] && d in s.status && s.status[d].FAILED? ensures s.status[t].PENDING? {
      assert s.status[t].PENDING? || DependenciesMet(g, s.status, t);
    }
  }

  lemma AncestorHasDependent(g: Graph, status: map<TaskId, Status>, t: TaskId)
    requires HasFailedAncestor(g, status, t)
    ensures exists u, d :: u in g.deps && d in g.deps[u] && d in status && status[d].FAILED?
  {
    var p :| IsWalk(g, p) && |p| >= 2 && p[0] == t && p[|p| - 1] in status && status[p[|p| - 1]].FAILED?;
    assert p[|p| - 2 + 1] in g.deps[p[|p| - 2]];
  }

  // ---- runs in which every executor succeeds ----

  ghost predicate AllSucceed(steps: seq<Step>) {
    forall i :: 0 <= i < |steps| && steps[i].Finish? ==> steps[i].ok
  }

  ghost predicate NoneFailed(s: RunState) {
    forall t :: t in s.status ==> !s.status[t].FAILED?
  }

  lemma {:induction false} SuccessLeavesNoFailure(g: Graph, s: RunState, steps: seq<Step>, end: RunState)
    requires NoneFailed(s) && AllSucceed(steps) && IsRun(g, s, steps, end)
    ensures NoneFailed(end)
    decreases |steps|
  {
    if steps != [] {
      assert steps[0].Finish? ==> steps[0].ok;
      assert AllSucceed(steps[1..]) by {
        assert forall i :: 0 <= i < |steps[1..]| ==> steps[1..][i] == steps[i + 1];
      }
      SuccessLeavesNoFailure(g, Apply(g, s, steps[0]), steps[1..], end);
    }
  }

  /** Deadlock freedom: while something is not completed, some task is ready, READY or RUNNING;
      and when nothing can happen any more everything is completed and `run` has returned. */
  lemma SuccessfulRunCompletes(g: Graph, concurrency: int, steps: seq<Step>, s: RunState)
    requires Runnable(g) && concurrency >= 1
    requires IsRun(g, Initial(g, concurrency), steps, s) && AllSucceed(steps)
    ensures (forall t :: t in s.status ==> s.status[t].COMPLETED?)
         || (exists t :: t in s.status && (IsReady(g, s.status, t) || s.status[t].Active()))
    ensures Quiescent(s) ==> s.main.Returned? && forall t :: t in s.status ==> s.status[t].COMPLETED?
  {
    ReachableInvariant(g, concurrency, s);
    SuccessLeavesNoFailure(g, Initial(g, concurrency), steps, s);
    if forall t :: t in s.status ==> !IsReady(g, s.status, t) && !s.status[t].Active() {
      NothingElseBlocks(g, s.status);
    }
    if Quiescent(s) { QuiescentMeans(g, concurrency, s); }
  }

  // ---- a run that never returns ----

  const FIRST := TaskId("t1")
  const SECOND := TaskId("t2")

  lemma TwoTasks()
    ensures FIRST != SECOND
  {
    assert "t1"[1] != "t2"[1];
  }

  /** t2 depends on t1. */
  function Chain(): Graph {
    Graph([FIRST, SECOND], map[FIRST := [], SECOND := [FIRST]], map[FIRST := 1, SECOND := 1])
  }

  lemma ChainIsRunnable()
    ensures Runnable(Chain())
  {
    var g, order := Chain(), [FIRST, SECOND];
    assert order[..0] == [] && order[..1] == [FIRST];
    assert GreedyAt(g, order, 0) && GreedyAt(g, order, 1);
    ScheduleIsAcyclic(g, order);
    assert g.KnowsDependenciesOf(FIRST) && g.KnowsDependenciesOf(SECOND);
  }

  lemma ChainDispatch()
    ensures var s := Apply(Chain(), Initial(Chain(), 1), Begin);
      s == ChainDispatched()
  {
    TwoTasks();
    var g := Chain();
    var status := Initial(g, 1).status;
    assert status == map[FIRST := PENDING, SECOND := PENDING];
    assert IsReady(g, status, FIRST) && !IsReady(g, status, SECOND);
    assert ReadySet(g, status) == {FIRST};
    assert Dispatch(g, status).Keys == {FIRST, SECOND};
    assert Dispatch(g, status) == map[FIRST := READY, SECOND := PENDING];
  }

  lemma ChainWakes()
    ensures Enabled(ChainFailed(), Call) && Apply(Chain(), ChainFailed(), Call) == ChainWoken()
    ensures Enabled(ChainWoken(), Call) && Apply(Chain(), ChainWoken(), Call) == ChainHung()
  {
    TwoTasks();
    var g, status := Chain(), ChainFailed().status;
    assert !IsReady(g, status, FIRST) && !IsReady(g, status, SECOND);
    assert Dispatch(g, status) == status && ReadySet(g, status) == {};
    assert !status[SECOND].Done();
    assert {FIRST} - {FIRST} == {};
  }

  /** If t1 fails, main wakes up before t1 has left `running`, clears the event and waits for ever. */
  lemma FailureCanHangRun()
    ensures Runnable(Chain()) && Reachable(Chain(), 1, ChainHung())
    ensures Quiescent(ChainHung()) && ChainHung().main.Waiting? && ChainHung().status[SECOND].PENDING?
  {
    ChainIsRunnable();
    ChainDispatch();
    ChainFailure();
    var g, s1, s2, s3 := Chain(), ChainDispatched(), ChainRunning(), ChainFailed();
    ChainWakes();
    RunStep(g, 1, Initial(g, 1), Begin, s1);
    RunStep(g, 1, s1, Acquire(FIRST), s2);
    RunStep(g, 1, s2, Finish(FIRST, false), s3);
    RunStep(g, 1, s3, Call, ChainWoken());
    RunStep(g, 1, ChainWoken(), Call, ChainHung());
    ChainHungIsQuiescent();
  }

  lemma ChainHungIsQuiescent()
    ensures Quiescent(ChainHung()) && ChainHung().status[SECOND].PENDING?
  {
    TwoTasks();
    forall step ensures !Enabled(ChainHung(), step) {
      match step
      case Begin =>
      case Call =>
      case Acquire(t) => assert t == FIRST || t == SECOND || t !in ChainHung().status;
      case Finish(t, _) => assert t == FIRST || t == SECOND || t !in ChainHung().status;
    }
  }

  function ChainWoken(): RunState {
    RunState(map[FIRST := FAILED, SECOND := PENDING], Waiting, false, [Discard(FIRST)], {FIRST}, 1,
      map[FIRST := 1, SECOND := 0])
  }

  function ChainHung(): RunState {
    RunState(map[FIRST := FAILED, SECOND := PENDING], Waiting, false, [], {}, 1, map[FIRST := 1, SECOND := 0])
  }

  function ChainDispatched(): RunState {
    RunState(map[FIRST := READY, SECOND := PENDING], Waiting, false, [], {FIRST}, 1, map[FIRST := 0, SECOND := 0])
  }

  function ChainRunning(): RunState {
    RunState(map[FIRST := RUNNING, SECOND := PENDING], Waiting, false, [], {FIRST}, 0, map[FIRST := 1, SECOND := 0])
  }

  function ChainFailed(): RunState {
    RunState(map[FIRST := FAILED, SECOND := PENDING], Waiting, true, [WakeMain, Discard(FIRST)], {FIRST}, 1,
      map[FIRST := 1, SECOND := 0])
  }

  lemma ChainFailure()
    ensures Enabled(ChainDispatched(), Acquire(FIRST))
      && Apply(Chain(), ChainDispatched(), Acquire(FIRST)) == ChainRunning()
    ensures Enabled(ChainRunning(), Finish(FIRST, false))
      && Apply(Chain(), ChainRunning(), Finish(FIRST, false)) == ChainFailed()
  {
    TwoTasks();
    assert SetEvent(ChainRunning()) + [Discard(FIRST)] == [WakeMain, Discard(FIRST)];
  }

  lemma {:induction false} RunAppend(g: Graph, s: RunState, steps: seq<Step>, mid: RunState, step: Step)
    requires IsRun(g, s, steps, mid) && Enabled(mid, step)
    ensures IsRun(g, s, steps + [step], Apply(g, mid, step))
    decreases |steps|
  {
    if steps == [] {
      assert IsRun(g, Apply(g, mid, step), [], Apply(g, mid, step));
      assert [step][1..] == [];
    } else {
      assert (steps + [step])[1..] == steps[1..] + [step];
      RunAppend(g, Apply(g, s, steps[0]), steps[1..], mid, step);
    }
  }

  /** Reachability goes along with every enabled step. */
  lemma RunStep(g: Graph, concurrency: int, s: RunState, step: Step, next: RunState)
    requires s == Initial(g, concurrency) || Reachable(g, concurrency, s)
    requires Enabled(s, step) && next == Apply(g, s, step)
    ensures Reachable(g, concurrency, next)
  {
    assert IsRun(g, Initial(g, concurrency), [], Initial(g, concurrency));
    var steps :| IsRun(g, Initial(g, concurrency), steps, s);
    RunAppend(g, Initial(g, concurrency), steps, s, step);
  }
}
