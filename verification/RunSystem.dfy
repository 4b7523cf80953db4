/** `TaskScheduler.run` as a transition system: the main coroutine, one coroutine per
    dispatched task, the semaphore as a counter, and the callback queue of the event loop.
    A step is one uninterrupted stretch of code between two suspension points. */
module RunSystem {
  import opened Sorting
  import opened TaskGraph

  datatype Status = PENDING | READY | RUNNING | COMPLETED | FAILED {
    predicate Done() { COMPLETED? || FAILED? }
    predicate Active() { READY? || RUNNING? }
    predicate Started() { RUNNING? || COMPLETED? || FAILED? }
  }

  /** Where the main coroutine stands: before its first pass, in `completed_event.wait()`,
      or past its loop. */
  datatype Main = Starting | Waiting | Returned

  /** What the event loop still has to call, oldest first. */
  datatype Callback = WakeMain | Discard(task: TaskId)

  datatype RunState = RunState(
    status: map<TaskId, Status>,
    main: Main,
    event: bool,
    callbacks: seq<Callback>,
    running: set<TaskId>,
    permits: int,
    calls: map<TaskId, nat>)

  datatype Step = Begin | Acquire(task: TaskId) | Finish(task: TaskId, ok: bool) | Call

  predicate IsReady(g: Graph, status: map<TaskId, Status>, t: TaskId)
  {
    && t in g.deps && t in status && status[t].PENDING?
    && forall d :: d in g.deps[t] && d in status ==> status[d].COMPLETED?
  }

  function ReadySet(g: Graph, status: map<TaskId, Status>): set<TaskId> {
    set t | t in status && IsReady(g, status, t)
  }

  function Dispatch(g: Graph, status: map<TaskId, Status>): map<TaskId, Status> {
    map t | t in status :: if IsReady(g, status, t) then READY else status[t]
  }

  predicate AllDone(status: map<TaskId, Status>) {
    forall t :: t in status ==> status[t].Done()
  }

  /** The end of a pass of the `while True` body: return, or clear the event and wait. */
  function Settle(s: RunState): RunState {
    if AllDone(s.status) then s.(main := Returned)
    else if s.running != {} then s.(main := Waiting, event := false)
    else s.(main := Returned)
  }

  /** A whole pass: dispatch what is ready, then settle. */
  function MainPass(g: Graph, s: RunState): RunState {
    Settle(s.(status := Dispatch(g, s.status), running := s.running + ReadySet(g, s.status)))
  }

  function Initial(g: Graph, concurrency: int): RunState {
    RunState(map t | t in g.deps :: PENDING, Starting, false, [], {}, concurrency, map t | t in g.deps :: 0)
  }

  predicate Enabled(s: RunState, step: Step) {
    match step
    case Begin => s.main.Starting?
    case Acquire(t) => t in s.status && t in s.calls && s.status[t].READY? && s.permits > 0
    case Finish(t, _) => t in s.status && s.status[t].RUNNING?
    case Call => s.callbacks != []
  }

  /** `completed_event.set()` schedules the waiting main coroutine, once. */
  function SetEvent(s: RunState): seq<Callback> {
    if s.main.Waiting? && !s.event then s.callbacks + [WakeMain] else s.callbacks
  }

  function AcquireTask(s: RunState, t: TaskId): RunState
    requires t in s.calls
  {
    s.(status := s.status[t := RUNNING], permits := s.permits - 1, calls := s.calls[t := s.calls[t] + 1])
  }

  /** Status, then the event, then the permit; the done-callback is queued last. */
  function FinishTask(s: RunState, t: TaskId, ok: bool): RunState {
    s.(status := s.status[t := if ok then COMPLETED else FAILED], event := true,
       permits := s.permits + 1, callbacks := SetEvent(s) + [Discard(t)])
  }

  function RunCallback(g: Graph, s: RunState): RunState
    requires s.callbacks != []
  {
    var rest := s.(callbacks := s.callbacks[1..]);
    match s.callbacks[0]
    case WakeMain => MainPass(g, rest)
    case Discard(t) => rest.(running := rest.running - {t})
  }

  function Apply(g: Graph, s: RunState, step: Step): RunState
    requires Enabled(s, step)
  {
    match step
    case Begin => MainPass(g, s)
    case Acquire(t) => AcquireTask(s, t)
    case Finish(t, ok) => FinishTask(s, t, ok)
    case Call => RunCallback(g, s)
  }

  ghost predicate IsRun(g: Graph, s: RunState, steps: seq<Step>, end: RunState)
    decreases |steps|
  {
    if steps == [] then s == end
    else Enabled(s, steps[0]) && IsRun(g, Apply(g, s, steps[0]), steps[1..], end)
  }

  ghost predicate Reachable(g: Graph, concurrency: int, s: RunState) {
    exists steps :: IsRun(g, Initial(g, concurrency), steps, s)
  }

  /** Nothing can happen any more. */
  ghost predicate Quiescent(s: RunState) {
    forall step :: !Enabled(s, step)
  }

  // ---- sums over the tasks ----

  function Total(ids: seq<TaskId>, status: map<TaskId, Status>, w: Status -> nat): nat {
    if ids == [] then 0
    else (if ids[0] in status then w(status[ids[0]]) else 0) + Total(ids[1..], status, w)
  }

  lemma {:induction false} TotalSame(ids: seq<TaskId>, a: map<TaskId, Status>, b: map<TaskId, Status>, w: Status -> nat)
    requires a.Keys == b.Keys
    requires forall t :: t in ids && t in a ==> w(a[t]) == w(b[t])
    ensures Total(ids, a, w) == Total(ids, b, w)
  {
    if ids != [] {
      assert ids[0] in ids && forall t :: t in ids[1..] ==> t in ids;
      TotalSame(ids[1..], a, b, w);
    }
  }

  lemma {:induction false} TotalUpdate(ids: seq<TaskId>, status: map<TaskId, Status>, t: TaskId, x: Status,
          w: Status -> nat)
    requires NoDuplicates(ids) && t in ids && t in status
    ensures Total(ids, status[t := x], w) == Total(ids, status, w) - w(status[t]) + w(x)
  {
    if ids[0] == t {
      assert t !in ids[1..];
      TotalSame(ids[1..], Restrict(status, t), Restrict(status[t := x], t), w);
      TotalWithout(ids[1..], status, t, w);
      TotalWithout(ids[1..], status[t := x], t, w);
      assert Restrict(status, t) == Restrict(status[t := x], t);
    } else {
      assert t in ids[1..];
      TotalUpdate(ids[1..], status, t, x, w);
    }
  }

  function Restrict(status: map<TaskId, Status>, t: TaskId): map<TaskId, Status> {
    map u | u in status && u != t :: status[u]
  }

  lemma {:induction false} TotalWithout(ids: seq<TaskId>, status: map<TaskId, Status>, t: TaskId, w: Status -> nat)
    requires t !in ids
    ensures Total(ids, status, w) == Total(ids, Restrict(status, t), w)
  {
    if ids != [] {
      assert ids[0] in ids && t !in ids[1..];
      TotalWithout(ids[1..], status, t, w);
    }
  }

  function RunningWeight(x: Status): nat { if x.RUNNING? then 1 else 0 }

  function RunningCount(g: Graph, status: map<TaskId, Status>): nat {
    Total(g.ids, status, RunningWeight)
  }

  // ---- the invariant ----

  ghost predicate DependenciesMet(g: Graph, status: map<TaskId, Status>, t: TaskId)
    requires t in g.deps
  {
    forall d :: d in g.deps[t] ==> d in status && status[d].COMPLETED?
  }

  /** No task is dispatched before its dependencies have completed. */
  ghost predicate OrderRespected(g: Graph, status: map<TaskId, Status>) {
    forall t {:trigger DependenciesMet(g, status, t)} ::
      t in status && t in g.deps && !status[t].PENDING? ==> DependenciesMet(g, status, t)
  }

  /** What the tasks look like, whatever the main coroutine is doing. */
  ghost predicate TasksOk(g: Graph, concurrency: int, s: RunState) {
    && s.status.Keys == s.calls.Keys == g.deps.Keys
    && OrderRespected(g, s.status)
    && (forall t :: t in s.status ==> s.calls[t] == if s.status[t].Started() then 1 else 0)
    && s.permits >= 0 && s.permits + RunningCount(g, s.status) == concurrency
  }

  /** How the callback queue and the `running` set follow the tasks. */
  ghost predicate CallbacksOk(s: RunState) {
    && NoDuplicates(s.callbacks)
    && (forall t :: Discard(t) in s.callbacks ==> t in s.status && s.status[t].Done())
    && (forall t :: t in s.running <==> (t in s.status && s.status[t].Active()) || Discard(t) in s.callbacks)
    && (forall i :: 0 <= i < |s.callbacks| && s.callbacks[i].WakeMain? ==> i + 1 < |s.callbacks|)
  }

  ghost predicate MainOk(g: Graph, s: RunState) {
    && (s.main.Starting? ==> s.callbacks == [] && s.running == {} && forall t :: t in s.status ==> s.status[t].PENDING?)
    && (WakeMain in s.callbacks <==> s.main.Waiting? && s.event)
    && (s.main.Waiting? && !s.event ==> !AllDone(s.status) && forall t :: !IsReady(g, s.status, t))
    && (s.main.Returned? ==> AllDone(s.status))
  }

  ghost predicate Invariant(g: Graph, concurrency: int, s: RunState) {
    TasksOk(g, concurrency, s) && CallbacksOk(s) && MainOk(g, s)
  }

  ghost predicate Runnable(g: Graph) {
    g.Valid() && g.AllKnown() && Acyclic(g)
  }

  lemma DispatchedInOrder(g: Graph, status: map<TaskId, Status>, t: TaskId)
    requires g.AllKnown() && status.Keys == g.deps.Keys && OrderRespected(g, status)
    requires t in status && !Dispatch(g, status)[t].PENDING?
    ensures DependenciesMet(g, Dispatch(g, status), t)
  {
    assert g.KnowsDependenciesOf(t);
    assert IsReady(g, status, t) || DependenciesMet(g, status, t);
  }

  lemma DispatchKeepsOrder(g: Graph, status: map<TaskId, Status>)
    requires g.AllKnown() && status.Keys == g.deps.Keys && OrderRespected(g, status)
    ensures OrderRespected(g, Dispatch(g, status))
  {
    var after := Dispatch(g, status);
    forall t {:trigger DependenciesMet(g, after, t)} | t in after && t in g.deps && !after[t].PENDING?
      ensures DependenciesMet(g, after, t)
    {
      DispatchedInOrder(g, status, t);
    }
  }

  lemma DispatchKeepsTasks(g: Graph, concurrency: int, s: RunState)
    requires g.Valid() && g.AllKnown() && TasksOk(g, concurrency, s)
    ensures TasksOk(g, concurrency, MainPass(g, s))
  {
    DispatchKeepsOrder(g, s.status);
    DispatchStartsNothing(g, s.status);
    MainPassDispatches(g, s);
    hide Dispatch, OrderRespected, MainPass, RunningWeight, Total;
    DispatchKeepsCount(g, s.status);
  }

  lemma MainPassDispatches(g: Graph, s: RunState)
    ensures var after := MainPass(g, s);
      after.status == Dispatch(g, s.status) && after.calls == s.calls && after.permits == s.permits
  {}

  lemma DispatchKeepsCount(g: Graph, status: map<TaskId, Status>)
    ensures RunningCount(g, Dispatch(g, status)) == RunningCount(g, status)
  {
    DispatchStartsNothing(g, status);
    TotalSame(g.ids, status, Dispatch(g, status), RunningWeight);
  }

  lemma DispatchStartsNothing(g: Graph, status: map<TaskId, Status>)
    ensures Dispatch(g, status).Keys == status.Keys
    ensures forall t :: t in status ==> (Dispatch(g, status)[t].Started() <==> status[t].Started())
    ensures forall t :: t in status ==> (Dispatch(g, status)[t].RUNNING? <==> status[t].RUNNING?)
  {}

  lemma UpdateKeepsOrder(g: Graph, status: map<TaskId, Status>, t: TaskId, x: Status)
    requires OrderRespected(g, status) && t in status && t in g.deps
    requires !status[t].PENDING? && !status[t].COMPLETED?
    ensures OrderRespected(g, status[t := x])
  {
    forall u {:trigger DependenciesMet(g, status[t := x], u)} | u in status && u in g.deps
      && !status[t := x][u].PENDING?
      ensures DependenciesMet(g, status[t := x], u)
    {
      assert DependenciesMet(g, status, u);
    }
  }

  /** A main pass that had something to look at leaves main and callbacks consistent; it never
      takes the branch that gives up with tasks still pending. */
  lemma MainPassKeepsMain(g: Graph, s: RunState)
    requires s.status.Keys == g.deps.Keys && CallbacksOk(s) && WakeMain !in s.callbacks
    requires s.running != {} || (exists t :: IsReady(g, s.status, t)) || AllDone(s.status)
    requires !s.main.Starting? ==> s.event
    ensures CallbacksOk(MainPass(g, s)) && MainOk(g, MainPass(g, s))
  {
    var after := MainPass(g, s);
    if t :| IsReady(g, s.status, t) {
      assert t in after.running;
    }
    forall t ensures !IsReady(g, after.status, t) {
      if IsReady(g, after.status, t) {
        forall d | d in g.deps[t] && d in s.status ensures s.status[d].COMPLETED? {
          assert after.status[d].COMPLETED?;
        }
        assert IsReady(g, s.status, t);
      }
    }
  }

  lemma AcyclicHasRoot(g: Graph)
    requires Runnable(g) && g.deps != map[]
    ensures exists t :: t in g.deps && g.deps[t] == []
  {
    if forall t :: t in g.deps ==> g.deps[t] != [] {
      forall t {:trigger Waits(g, g.deps.Keys, t)} | t in g.deps ensures Waits(g, g.deps.Keys, t) {
        assert g.KnowsDependenciesOf(t) && g.deps[t][0] in g.deps[t];
      }
      var t :| t in g.deps;
      var c := StuckDependsOnCycle(g, g.deps.Keys, t);
    }
  }

  lemma InitialInvariant(g: Graph, concurrency: int)
    requires g.Valid() && concurrency >= 0
    ensures Invariant(g, concurrency, Initial(g, concurrency))
  {
    NoneRunning(g.ids, Initial(g, concurrency).status);
  }

  lemma {:induction false} NoneRunning(ids: seq<TaskId>, status: map<TaskId, Status>)
    requires forall t :: t in status ==> !status[t].RUNNING?
    ensures Total(ids, status, RunningWeight) == 0
  {
    if ids != [] { NoneRunning(ids[1..], status); }
  }

  lemma BeginKeepsInvariant(g: Graph, concurrency: int, s: RunState)
    requires Runnable(g) && Invariant(g, concurrency, s) && s.main.Starting?
    ensures Invariant(g, concurrency, MainPass(g, s))
  {
    DispatchKeepsTasks(g, concurrency, s);
    if g.deps != map[] {
      AcyclicHasRoot(g);
      var t :| t in g.deps && g.deps[t] == [];
      assert IsReady(g, s.status, t);
    }
    MainPassKeepsMain(g, s);
  }

  lemma AcquireKeepsTasks(g: Graph, concurrency: int, s: RunState, t: TaskId)
    requires g.Valid() && TasksOk(g, concurrency, s) && Enabled(s, Acquire(t))
    ensures TasksOk(g, concurrency, AcquireTask(s, t))
  {
    TotalUpdate(g.ids, s.status, t, RUNNING, RunningWeight);
    UpdateKeepsOrder(g, s.status, t, RUNNING);
  }

  lemma AcquireKeepsInvariant(g: Graph, concurrency: int, s: RunState, t: TaskId)
    requires Runnable(g) && Invariant(g, concurrency, s) && Enabled(s, Acquire(t))
    ensures Invariant(g, concurrency, AcquireTask(s, t))
  {
    AcquireKeepsTasks(g, concurrency, s, t);
    var after := AcquireTask(s, t);
    assert CallbacksOk(after);
    forall u ensures IsReady(g, after.status, u) ==> IsReady(g, s.status, u) {
      ReadyAfterUpdate(g, s.status, t, RUNNING, u);
    }
  }

  lemma ReadyAfterUpdate(g: Graph, status: map<TaskId, Status>, t: TaskId, x: Status, u: TaskId)
    requires t in status && !x.PENDING? && !x.COMPLETED?
    ensures IsReady(g, status[t := x], u) ==> IsReady(g, status, u)
  {
    if IsReady(g, status[t := x], u) {
      forall d | d in g.deps[u] && d in status ensures status[d].COMPLETED? {
        assert status[t := x][d].COMPLETED?;
      }
    }
  }

  lemma FinishKeepsTasks(g: Graph, concurrency: int, s: RunState, t: TaskId, ok: bool)
    requires g.Valid() && TasksOk(g, concurrency, s) && Enabled(s, Finish(t, ok))
    ensures TasksOk(g, concurrency, FinishTask(s, t, ok))
  {
    var x := if ok then COMPLETED else FAILED;
    TotalUpdate(g.ids, s.status, t, x, RunningWeight);
    UpdateKeepsOrder(g, s.status, t, x);
  }

  lemma FinishKeepsCallbacks(g: Graph, s: RunState, t: TaskId, ok: bool)
    requires CallbacksOk(s) && Enabled(s, Finish(t, ok))
    requires WakeMain in s.callbacks <==> s.main.Waiting? && s.event
    ensures CallbacksOk(FinishTask(s, t, ok))
  {
    var after := FinishTask(s, t, ok);
    assert Discard(t) !in s.callbacks;
    assert forall c :: c in after.callbacks <==>
      c in s.callbacks || c == Discard(t) || (c.WakeMain? && s.main.Waiting? && !s.event);
  }

  lemma FinishKeepsInvariant(g: Graph, concurrency: int, s: RunState, t: TaskId, ok: bool)
    requires Runnable(g) && Invariant(g, concurrency, s) && Enabled(s, Finish(t, ok))
    ensures Invariant(g, concurrency, FinishTask(s, t, ok))
  {
    FinishKeepsTasks(g, concurrency, s, t, ok);
    FinishKeepsCallbacks(g, s, t, ok);
    assert t in s.running;
    var after := FinishTask(s, t, ok);
    assert MainOk(g, after);
  }

  lemma PopKeepsCallbacks(g: Graph, s: RunState)
    requires CallbacksOk(s) && s.callbacks != []
    ensures s.callbacks[0] !in s.callbacks[1..]
    ensures s.callbacks[0].Discard? ==> CallbacksOk(RunCallback(g, s))
    ensures s.callbacks[0].WakeMain? ==> CallbacksOk(s.(callbacks := s.callbacks[1..])) && s.running != {}
  {
    var head, tail := s.callbacks[0], s.callbacks[1..];
    assert s.callbacks == [head] + tail;
    assert forall c :: c in s.callbacks <==> c == head || c in tail;
    if head.WakeMain? {
      // the callback queued right behind the wake-up discards a finished task
      assert s.callbacks[1] in s.callbacks && s.callbacks[1] != head;
      assert s.callbacks[1].task in s.running;
    }
  }

  lemma CallKeepsInvariant(g: Graph, concurrency: int, s: RunState)
    requires Runnable(g) && Invariant(g, concurrency, s) && s.callbacks != []
    ensures Invariant(g, concurrency, RunCallback(g, s))
  {
    PopKeepsCallbacks(g, s);
    assert s.callbacks == [s.callbacks[0]] + s.callbacks[1..];
    if s.callbacks[0].WakeMain? {
      var rest := s.(callbacks := s.callbacks[1..]);
      DispatchKeepsTasks(g, concurrency, rest);
      MainPassKeepsMain(g, rest);
    }
  }

  lemma StepKeepsInvariant(g: Graph, concurrency: int, s: RunState, step: Step)
    requires Runnable(g) && Invariant(g, concurrency, s) && Enabled(s, step)
    ensures Invariant(g, concurrency, Apply(g, s, step))
  {
    match step
    case Begin => BeginKeepsInvariant(g, concurrency, s);
    case Acquire(t) => AcquireKeepsInvariant(g, concurrency, s, t);
    case Finish(t, ok) => FinishKeepsInvariant(g, concurrency, s, t, ok);
    case Call => CallKeepsInvariant(g, concurrency, s);
  }
}
