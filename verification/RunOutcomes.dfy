/** Where `TaskScheduler.run` ends as a function of what the executors do: no schedule, and no
    concurrency, can change it. */
module RunOutcomes {
  import opened TaskGraph
  import opened RunSystem
  import opened RunTheorems

  datatype Outcome = Value(value: string) | Raised(message: string)

  /** Every executor call in the run ends as the outcome of its task says. */
  ghost predicate FollowsOutcome(steps: seq<Step>, outcome: TaskId -> Outcome) {
    forall i :: 0 <= i < |steps| && steps[i].Finish? ==> steps[i].ok == outcome(steps[i].task).Value?
  }

  /** Some task that t waits for, directly or through others, raises when it is executed. */
  ghost predicate HasRaisingAncestor(g: Graph, outcome: TaskId -> Outcome, t: TaskId) {
    exists p :: IsWalk(g, p) && |p| >= 2 && p[0] == t && outcome(p[|p| - 1]).Raised?
  }

  /** Where a task ends, told from the graph and the outcomes alone. */
  ghost function FinalStatus(g: Graph, outcome: TaskId -> Outcome, t: TaskId): Status {
    if HasRaisingAncestor(g, outcome, t) then PENDING
    else if outcome(t).Value? then COMPLETED
    else FAILED
  }

  ghost function FinalStatuses(g: Graph, outcome: TaskId -> Outcome): map<TaskId, Status> {
    map t | t in g.deps :: FinalStatus(g, outcome, t)
  }

  /** Some task raises that another depends on. */
  ghost predicate FailureIsAwaited(g: Graph, outcome: TaskId -> Outcome) {
    exists t, d :: t in g.deps && d in g.deps[t] && outcome(d).Raised?
  }

  /** Finished tasks finished as their outcome says. */
  ghost predicate StatusFollows(status: map<TaskId, Status>, outcome: TaskId -> Outcome) {
    forall t :: t in status ==>
      (status[t].COMPLETED? ==> outcome(t).Value?) && (status[t].FAILED? ==> outcome(t).Raised?)
  }

  lemma StepFollows(g: Graph, s: RunState, step: Step, outcome: TaskId -> Outcome)
    requires StatusFollows(s.status, outcome) && Enabled(s, step)
    requires step.Finish? ==> step.ok == outcome(step.task).Value?
    ensures StatusFollows(Apply(g, s, step).status, outcome)
  {}

  lemma {:induction false} RunFollows(g: Graph, s: RunState, steps: seq<Step>, end: RunState,
          outcome: TaskId -> Outcome)
    requires StatusFollows(s.status, outcome) && FollowsOutcome(steps, outcome) && IsRun(g, s, steps, end)
    ensures StatusFollows(end.status, outcome)
    decreases |steps|
  {
    if steps != [] {
      StepFollows(g, s, steps[0], outcome);
      assert FollowsOutcome(steps[1..], outcome) by {
        assert forall i :: 0 <= i < |steps[1..]| ==> steps[1..][i] == steps[i + 1];
      }
      RunFollows(g, Apply(g, s, steps[0]), steps[1..], end, outcome);
    }
  }

  lemma WalkJoin(g: Graph, p: seq<TaskId>, q: seq<TaskId>)
    requires IsWalk(g, p) && IsWalk(g, q) && p[|p| - 1] == q[0] && |q| >= 2
    ensures IsWalk(g, p + q[1..]) && |p + q[1..]| >= 2
    ensures (p + q[1..])[0] == p[0] && (p + q[1..])[|p + q[1..]| - 1] == q[|q| - 1]
  {
    var r := p + q[1..];
    forall i | 0 <= i < |r| - 1 ensures r[i + 1] in g.deps[r[i]] {
      if i >= |p| - 1 {
        var k := i - (|p| - 1);
        assert r[i] == q[k] && r[i + 1] == q[k + 1];
      }
    }
  }

  /** At a quiescent end a raising ancestor has failed, or waits below a failure itself. */
  lemma RaisingMeansFailed(g: Graph, status: map<TaskId, Status>, outcome: TaskId -> Outcome, t: TaskId)
    requires status.Keys == g.deps.Keys && StatusFollows(status, outcome)
    requires forall u :: u in status ==> status[u].PENDING? || status[u].Done()
    requires forall u :: u in status ==> (status[u].PENDING? <==> HasFailedAncestor(g, status, u))
    ensures HasFailedAncestor(g, status, t) <==> HasRaisingAncestor(g, outcome, t)
  {
    if HasRaisingAncestor(g, outcome, t) {
      var p :| IsWalk(g, p) && |p| >= 2 && p[0] == t && outcome(p[|p| - 1]).Raised?;
      var a := p[|p| - 1];
      assert a in g.deps && a in status;
      if status[a].PENDING? {
        var q :| IsWalk(g, q) && |q| >= 2 && q[0] == a && q[|q| - 1] in status && status[q[|q| - 1]].FAILED?;
        WalkJoin(g, p, q);
        var r := p + q[1..];
        assert r[|r| - 1] in status && status[r[|r| - 1]].FAILED?;
      }
    }
  }

  /** Wherever a run ends, every task is where its own outcome and its ancestors' outcomes put it, and
      the coroutine has returned exactly if nobody depends on a task that raises. */
  lemma EndIsDetermined(g: Graph, concurrency: int, steps: seq<Step>, s: RunState, outcome: TaskId -> Outcome)
    requires Runnable(g) && concurrency >= 1
    requires IsRun(g, Initial(g, concurrency), steps, s) && Quiescent(s) && FollowsOutcome(steps, outcome)
    ensures s.status == FinalStatuses(g, outcome)
    ensures s.main.Returned? <==> !FailureIsAwaited(g, outcome)
  {
    QuiescentStates(g, concurrency, s);
    RunFollows(g, Initial(g, concurrency), steps, s, outcome);
    ReachableInvariant(g, concurrency, s);
    forall t | t in s.status ensures s.status[t] == FinalStatus(g, outcome, t) {
      RaisingMeansFailed(g, s.status, outcome, t);
    }
    ReturnedIff(g, s, outcome);
  }

  lemma ReturnedIff(g: Graph, s: RunState, outcome: TaskId -> Outcome)
    requires g.AllKnown() && s.status.Keys == g.deps.Keys && StatusFollows(s.status, outcome)
    requires forall t :: t in s.status ==> s.status[t] == FinalStatus(g, outcome, t)
    requires s.main.Returned? <==> !exists t, d :: t in g.deps && d in g.deps[t] && d in s.status && s.status[d].FAILED?
    requires s.main.Returned? ==> AllDone(s.status)
    ensures s.main.Returned? <==> !FailureIsAwaited(g, outcome)
  {
    if FailureIsAwaited(g, outcome) {
      var t := AwaitingStaysPending(g, outcome);
      assert !s.status[t].Done();
    }
    if t, d :| t in g.deps && d in g.deps[t] && d in s.status && s.status[d].FAILED? {
      assert outcome(d).Raised?;
    }
  }

  lemma AwaitingStaysPending(g: Graph, outcome: TaskId -> Outcome) returns (t: TaskId)
    requires g.AllKnown() && FailureIsAwaited(g, outcome)
    ensures t in g.deps && FinalStatus(g, outcome, t) == PENDING
  {
    var d;
    t, d :| t in g.deps && d in g.deps[t] && outcome(d).Raised?;
    assert g.KnowsDependenciesOf(t);
    var p := [t, d];
    assert IsWalk(g, p) && outcome(p[|p| - 1]).Raised?;
  }

  /** Two runs of the same tasks with the same outcomes end alike, whatever their schedules and
      their concurrency. */
  lemma ScheduleDoesNotMatter(g: Graph, c: int, steps: seq<Step>, s: RunState, c': int, steps': seq<Step>, s': RunState,
                              outcome: TaskId -> Outcome)
    requires Runnable(g) && c >= 1 && c' >= 1
    requires IsRun(g, Initial(g, c), steps, s) && Quiescent(s) && FollowsOutcome(steps, outcome)
    requires IsRun(g, Initial(g, c'), steps', s') && Quiescent(s') && FollowsOutcome(steps', outcome)
    ensures s.status == s'.status && s.main == s'.main
  {
    EndIsDetermined(g, c, steps, s, outcome);
    EndIsDetermined(g, c', steps', s', outcome);
    QuiescentStates(g, c, s);
    QuiescentStates(g, c', s');
  }
}
