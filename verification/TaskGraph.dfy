/** The dependency graph behind src/queue/scheduler.py: walks, cycles, schedules, and the
    Kahn pass that `TaskScheduler.topological_sort` runs over it. */
module TaskGraph {
  import opened Sorting

  /** The `task_id` string, wrapped: only its identity matters here. */
  datatype TaskId = TaskId(name: string)

  /** Registered tasks in registration order, with their `depends_on` lists and priorities. */
  datatype Graph = Graph(ids: seq<TaskId>, deps: map<TaskId, seq<TaskId>>, priority: map<TaskId, int>) {
    ghost predicate Valid() {
      && NoDuplicates(ids)
      && deps.Keys == priority.Keys == set t | t in ids
    }

    function PriorityOf(t: TaskId): int {
      if t in priority then priority[t] else 0
    }

    ghost predicate KnowsDependenciesOf(t: TaskId) {
      t in deps && forall d :: d in deps[t] ==> d in deps
    }

    ghost predicate AllKnown() {
      forall t {:trigger KnowsDependenciesOf(t)} :: t in deps ==> KnowsDependenciesOf(t)
    }
  }

  datatype SortResult =
    | Order(order: seq<TaskId>)
    | UnknownDependency(task: TaskId, dep: TaskId)
    | CyclicDependency(missing: set<TaskId>)

  /** p follows dependencies: each task is followed by one it depends on. */
  ghost predicate IsWalk(g: Graph, p: seq<TaskId>) {
    && |p| > 0
    && (forall i :: 0 <= i < |p| ==> p[i] in g.deps)
    && (forall i :: 0 <= i < |p| - 1 ==> p[i + 1] in g.deps[p[i]])
  }

  ghost predicate IsCycle(g: Graph, p: seq<TaskId>) {
    IsWalk(g, p) && |p| >= 2 && p[0] == p[|p| - 1]
  }

  ghost predicate Acyclic(g: Graph) {
    forall p :: !IsCycle(g, p)
  }

  /** t depends, directly or through others, on a task that lies on a cycle. */
  ghost predicate DependsOnCycle(g: Graph, t: TaskId) {
    exists p, c :: IsWalk(g, p) && p[0] == t && IsCycle(g, c) && c[0] == p[|p| - 1]
  }

  /** t is not yet emitted and everything it depends on is. */
  ghost predicate Available(g: Graph, emitted: seq<TaskId>, t: TaskId) {
    t in g.deps && t !in emitted && forall d :: d in g.deps[t] ==> d in emitted
  }

  /** The k-th task was available, and none available at that point had a higher priority. */
  ghost predicate GreedyAt(g: Graph, order: seq<TaskId>, k: nat)
    requires k < |order|
  {
    && Available(g, order[..k], order[k])
    && forall t :: Available(g, order[..k], t) ==> g.PriorityOf(t) <= g.PriorityOf(order[k])
  }

  /** Every registered task exactly once, each after its dependencies, by priority. */
  ghost predicate IsSchedule(g: Graph, order: seq<TaskId>) {
    && NoDuplicates(order)
    && (forall t :: t in order <==> t in g.deps)
    && (forall k :: 0 <= k < |order| ==> GreedyAt(g, order, k))
  }

  function ByPriority(g: Graph): (TaskId, TaskId) -> bool {
    (x, y) => g.PriorityOf(x) > g.PriorityOf(y)
  }

  // ---- whose turn it is among equal priorities ----

  /** All that t depends on has been emitted. */
  ghost predicate Free(g: Graph, emitted: seq<TaskId>, t: TaskId) {
    t in g.deps && forall d :: d in g.deps[t] ==> d in emitted
  }

  ghost predicate FreeAt(g: Graph, emitted: seq<TaskId>, t: TaskId, m: int) {
    0 <= m <= |emitted| && Free(g, emitted[..m], t)
  }

  /** At some moment t had become free and u had not. */
  ghost predicate FreeBefore(g: Graph, emitted: seq<TaskId>, t: TaskId, u: TaskId) {
    exists m :: FreeAt(g, emitted, t, m) && !FreeAt(g, emitted, u, m)
  }

  ghost predicate RegisteredBefore(g: Graph, t: TaskId, u: TaskId) {
    exists i, j :: 0 <= i < j < |g.ids| && g.ids[i] == t && g.ids[j] == u
  }

  /** t became free first; or at the same moment as u, and was registered first. */
  ghost predicate CameFirst(g: Graph, emitted: seq<TaskId>, t: TaskId, u: TaskId) {
    FreeBefore(g, emitted, t, u) || (!FreeBefore(g, emitted, u, t) && RegisteredBefore(g, t, u))
  }

  /** Of the tasks available at position k with the priority of the k-th, the k-th came first. */
  ghost predicate TurnAt(g: Graph, order: seq<TaskId>, k: nat)
    requires k < |order|
  {
    forall t :: Available(g, order[..k], t) && t != order[k] && g.PriorityOf(t) == g.PriorityOf(order[k]) ==>
      CameFirst(g, order[..k], order[k], t)
  }

  /** Equal priorities take turns: first come, first served, and together as registered. */
  ghost predicate TakesTurns(g: Graph, order: seq<TaskId>) {
    forall k :: 0 <= k < |order| ==> TurnAt(g, order, k)
  }

  /** `CameFirst`, for the sorts. */
  ghost function First(g: Graph, emitted: seq<TaskId>): (TaskId, TaskId) -> bool {
    (t, u) => CameFirst(g, emitted, t, u)
  }

  lemma FreeLonger(g: Graph, emitted: seq<TaskId>, t: TaskId, m: int, n: int)
    requires FreeAt(g, emitted, t, m) && m <= n <= |emitted|
    ensures FreeAt(g, emitted, t, n)
  {
    assert emitted[..m] == emitted[..n][..m];
  }

  lemma FirstIsAsymmetric(g: Graph, emitted: seq<TaskId>, t: TaskId, u: TaskId)
    requires g.Valid() && CameFirst(g, emitted, t, u)
    ensures !CameFirst(g, emitted, u, t)
  {
    if m :| FreeAt(g, emitted, t, m) && !FreeAt(g, emitted, u, m) {
      forall n | FreeAt(g, emitted, u, n) ensures FreeAt(g, emitted, t, n) {
        if m <= n { FreeLonger(g, emitted, t, m, n); } else { FreeLonger(g, emitted, u, n, m); }
      }
    }
  }

  /** Two orders that follow the dependencies, the priorities and the turns are one and the same. */
  lemma ScheduleIsUnique(g: Graph, a: seq<TaskId>, b: seq<TaskId>)
    requires g.Valid() && IsSchedule(g, a) && TakesTurns(g, a) && IsSchedule(g, b) && TakesTurns(g, b)
    ensures a == b
  {
    SameUpTo(g, a, b, |a|);
    SameUpTo(g, b, a, |b|);
  }

  lemma {:induction false} SameUpTo(g: Graph, a: seq<TaskId>, b: seq<TaskId>, k: nat)
    requires g.Valid() && IsSchedule(g, a) && TakesTurns(g, a) && IsSchedule(g, b) && TakesTurns(g, b) && k <= |a|
    ensures k <= |b| && a[..k] == b[..k]
  {
    if k > 0 {
      var i := k - 1;
      SameUpTo(g, a, b, i);
      assert a[i] !in a[..i] && a[i] in b;
      if a[i] != b[i] {
        assert GreedyAt(g, a, i) && GreedyAt(g, b, i);
        assert TurnAt(g, a, i) && TurnAt(g, b, i);
        FirstIsAsymmetric(g, a[..i], a[i], b[i]);
      }
      assert a[..k] == a[..i] + [a[i]] && b[..k] == b[..i] + [b[i]];
    }
  }

  /** What is free keeps its turn when another task is emitted. */
  lemma StillFirst(g: Graph, emitted: seq<TaskId>, c: TaskId, t: TaskId, u: TaskId)
    requires Free(g, emitted, t) && Free(g, emitted, u) && CameFirst(g, emitted, t, u)
    ensures CameFirst(g, emitted + [c], t, u)
  {
    FreedBefore(g, emitted, c, t, u);
    FreedBefore(g, emitted, c, u, t);
  }

  lemma FreedBefore(g: Graph, emitted: seq<TaskId>, c: TaskId, t: TaskId, u: TaskId)
    requires Free(g, emitted, u)
    ensures FreeBefore(g, emitted + [c], t, u) <==> FreeBefore(g, emitted, t, u)
  {
    var after := emitted + [c];
    forall m | 0 <= m <= |emitted| ensures after[..m] == emitted[..m] {}
    assert emitted[..|emitted|] == emitted;
    assert FreeAt(g, after, u, |after|) by { assert after[..|after|] == after; }
    if FreeBefore(g, after, t, u) {
      var m :| FreeAt(g, after, t, m) && !FreeAt(g, after, u, m);
      assert FreeAt(g, emitted, t, m) && !FreeAt(g, emitted, u, m);
    }
    if FreeBefore(g, emitted, t, u) {
      var m :| FreeAt(g, emitted, t, m) && !FreeAt(g, emitted, u, m);
      assert FreeAt(g, after, t, m) && !FreeAt(g, after, u, m);
    }
  }

  /** A task that waits for the one just emitted comes after all that were free before, and after those
      that are freed together with it and registered before it. */
  lemma NewcomerIsLast(g: Graph, before: seq<TaskId>, c: TaskId, y: TaskId, t: TaskId)
    requires c !in before && t in g.deps && c in g.deps[t]
    requires Free(g, before, y) || (Free(g, before + [c], y) && RegisteredBefore(g, y, t))
    ensures CameFirst(g, before + [c], y, t)
  {
    var after := before + [c];
    forall m | 0 <= m <= |before| ensures after[..m] == before[..m] && !FreeAt(g, after, t, m) {}
    assert after[..|before|] == before && after[..|after|] == after;
    if Free(g, before, y) {
      assert FreeAt(g, after, y, |before|);
    } else {
      forall m ensures !(FreeAt(g, after, t, m) && !FreeAt(g, after, y, m)) {
        assert m == |after| ==> after[..m] == after;
      }
    }
  }

  // ---- schedules and cycles exclude each other ----

  lemma {:induction false} WalkDescends(g: Graph, order: seq<TaskId>, p: seq<TaskId>, i: nat, j: nat)
    requires g.Valid() && NoDuplicates(order)
    requires forall k :: 0 <= k < |order| ==> Available(g, order[..k], order[k])
    requires IsWalk(g, p) && i < |order| && order[i] == p[0] && j < |p|
    ensures exists k :: 0 <= k <= i && order[k] == p[j] && (j > 0 ==> k < i)
    decreases j
  {
    if j > 0 {
      WalkDescends(g, order, p, i, j - 1);
      var k :| 0 <= k <= i && order[k] == p[j - 1];
      assert Available(g, order[..k], order[k]);
      assert p[j - 1 + 1] in order[..k];
    }
  }

  /** Whatever has been emitted in dependency order does not depend on a cycle. */
  lemma {:induction false} EmittedAvoidsCycles(g: Graph, order: seq<TaskId>, t: TaskId)
    requires g.Valid() && NoDuplicates(order) && t in order
    requires forall k :: 0 <= k < |order| ==> Available(g, order[..k], order[k])
    ensures !DependsOnCycle(g, t)
  {
    if DependsOnCycle(g, t) {
      var p, c :| IsWalk(g, p) && p[0] == t && IsCycle(g, c) && c[0] == p[|p| - 1];
      var i :| 0 <= i < |order| && order[i] == t;
      WalkDescends(g, order, p, i, |p| - 1);
      var k :| 0 <= k <= i && order[k] == c[0];
      WalkDescends(g, order, c, k, |c| - 1);
    }
  }

  ghost predicate Waits(g: Graph, stuck: set<TaskId>, t: TaskId) {
    t in g.deps && exists d :: d in g.deps[t] && d in stuck
  }

  /** Every task of the set waits for another of the set. */
  ghost predicate AllWait(g: Graph, stuck: set<TaskId>) {
    forall u {:trigger Waits(g, stuck, u)} :: u in stuck ==> Waits(g, stuck, u)
  }

  lemma {:induction false} WalkWithin(g: Graph, stuck: set<TaskId>, t: TaskId, n: nat) returns (p: seq<TaskId>)
    requires stuck <= g.deps.Keys && t in stuck
    requires AllWait(g, stuck)
    ensures IsWalk(g, p) && p[0] == t && |p| == n + 1
    ensures forall i :: 0 <= i < |p| ==> p[i] in stuck
    decreases n
  {
    if n == 0 {
      p := [t];
    } else {
      assert Waits(g, stuck, t);
      var d :| d in g.deps[t] && d in stuck;
      p := WalkWithin(g, stuck, d, n - 1);
      p := [t] + p;
    }
  }

  lemma {:induction false} Pigeonhole<T>(s: seq<T>, pool: set<T>) returns (i: nat, j: nat)
    requires forall k :: 0 <= k < |s| ==> s[k] in pool
    requires |s| > |pool|
    ensures i < j < |s| && s[i] == s[j]
    decreases |s|
  {
    var rest, last := s[..|s| - 1], s[|s| - 1];
    if last in rest {
      i :| 0 <= i < |rest| && rest[i] == last;
      j := |s| - 1;
    } else {
      i, j := Pigeonhole(rest, pool - {last});
    }
  }

  /** If every task of a set still waits for another of the set, each of them depends on a
      cycle, and that cycle lies within the set. */
  lemma {:induction false} StuckDependsOnCycle(g: Graph, stuck: set<TaskId>, t: TaskId) returns (c: seq<TaskId>)
    requires stuck <= g.deps.Keys && t in stuck
    requires AllWait(g, stuck)
    ensures IsCycle(g, c) && (forall i :: 0 <= i < |c| ==> c[i] in stuck)
    ensures DependsOnCycle(g, t)
  {
    var p := WalkWithin(g, stuck, t, |stuck|);
    var i, j := Pigeonhole(p, stuck);
    c := p[i..j + 1];
    SubWalk(g, p, 0, i + 1);
    SubWalk(g, p, i, j + 1);
    var approach := p[0..i + 1];
    assert approach[0] == t && approach[|approach| - 1] == c[0];
  }

  lemma SubWalk(g: Graph, p: seq<TaskId>, i: nat, j: nat)
    requires IsWalk(g, p) && i < j <= |p|
    ensures IsWalk(g, p[i..j])
  {
    forall k | 0 <= k < j - i - 1 ensures p[i..j][k + 1] in g.deps[p[i..j][k]] {
      assert p[i + k + 1] in g.deps[p[i + k]];
    }
  }

  lemma CycleMemberDependsOnCycle(g: Graph, c: seq<TaskId>)
    requires IsCycle(g, c)
    ensures DependsOnCycle(g, c[0])
  {
    assert IsWalk(g, [c[0]]) && [c[0]][0] == c[0];
  }

  // ---- counting unmet dependencies, repeated entries included ----

  function Unmet(deps: seq<TaskId>, emitted: set<TaskId>): (n: nat)
    ensures n == 0 <==> forall d :: d in deps ==> d in emitted
  {
    if deps == [] then 0
    else assert deps == [deps[0]] + deps[1..];
         (if deps[0] in emitted then 0 else 1) + Unmet(deps[1..], emitted)
  }

  lemma {:induction false} UnmetNothingEmitted(deps: seq<TaskId>)
    ensures Unmet(deps, {}) == |deps|
  {
    if deps != [] { UnmetNothingEmitted(deps[1..]); }
  }

  lemma {:induction false} UnmetEmit(deps: seq<TaskId>, emitted: set<TaskId>, t: TaskId)
    requires t !in emitted
    ensures Unmet(deps, emitted) == Unmet(deps, emitted + {t}) + multiset(deps)[t]
  {
    if deps != [] {
      assert deps == [deps[0]] + deps[1..];
      UnmetEmit(deps[1..], emitted, t);
    }
  }

  // ---- the algorithm ----

  /** Dictionary lookup with the `defaultdict(list)` default. */
  function Lookup(m: map<TaskId, seq<TaskId>>, t: TaskId): seq<TaskId> {
    if t in m then m[t] else []
  }

  /** How often `dependents` lists t under d. */
  function Copies(m: map<TaskId, seq<TaskId>>, d: TaskId, t: TaskId): nat {
    multiset(Lookup(m, d))[t]
  }

  /** `dependents` lists t under d once per entry of d in t's list, for the tasks in `done`,
      and for `task` as far as the prefix of its list goes. */
  ghost predicate Recorded(g: Graph, dependents: map<TaskId, seq<TaskId>>,
                           done: set<TaskId>, task: TaskId, prefix: multiset<TaskId>)
  {
    && (forall d, t :: t in done && t in g.deps ==> Copies(dependents, d, t) == multiset(g.deps[t])[d])
    && (forall d :: Copies(dependents, d, task) == prefix[d])
    && (forall d, t :: Copies(dependents, d, t) > 0 ==> t in done || t == task)
  }

  ghost predicate AllRecorded(g: Graph, dependents: map<TaskId, seq<TaskId>>, done: set<TaskId>) {
    && (forall d, t :: t in done && t in g.deps ==> Copies(dependents, d, t) == multiset(g.deps[t])[d])
    && (forall d, t :: Copies(dependents, d, t) > 0 ==> t in done)
  }

  /** Listed as registered, repetitions side by side. */
  ghost predicate AsRegistered(g: Graph, s: seq<TaskId>) {
    forall i, j :: 0 <= i < j < |s| ==> s[i] == s[j] || RegisteredBefore(g, s[i], s[j])
  }

  ghost predicate ListedAsRegistered(g: Graph, m: map<TaskId, seq<TaskId>>) {
    forall d {:trigger Lookup(m, d)} :: AsRegistered(g, Lookup(m, d))
  }

  lemma AppendAsRegistered(g: Graph, m: map<TaskId, seq<TaskId>>, dep: TaskId, task: TaskId)
    requires ListedAsRegistered(g, m)
    requires forall t :: t in Lookup(m, dep) ==> t == task || RegisteredBefore(g, t, task)
    ensures ListedAsRegistered(g, m[dep := Lookup(m, dep) + [task]])
  {
    var after := m[dep := Lookup(m, dep) + [task]];
    forall d {:trigger Lookup(after, d)} ensures AsRegistered(g, Lookup(after, d)) {
      assert AsRegistered(g, Lookup(m, d)) && AsRegistered(g, Lookup(m, dep));
      assert Lookup(after, d) == if d == dep then Lookup(m, dep) + [task] else Lookup(m, d);
    }
  }

  lemma ListedEarlier(g: Graph, dependents: map<TaskId, seq<TaskId>>, done: set<TaskId>, task: TaskId,
                      prefix: multiset<TaskId>, dep: TaskId)
    requires Recorded(g, dependents, done, task, prefix) && forall t :: t in done ==> RegisteredBefore(g, t, task)
    ensures forall t :: t in Lookup(dependents, dep) ==> t == task || RegisteredBefore(g, t, task)
  {
    forall t | t in Lookup(dependents, dep) ensures t == task || RegisteredBefore(g, t, task) {
      assert Copies(dependents, dep, t) > 0;
    }
  }

  lemma NothingRecorded(g: Graph)
    ensures AllRecorded(g, map[], {})
  {}

  lemma NothingListed(g: Graph)
    ensures ListedAsRegistered(g, map[])
  {}

  lemma RecordFirst(g: Graph, dependents: map<TaskId, seq<TaskId>>, done: set<TaskId>, task: TaskId)
    requires AllRecorded(g, dependents, done) && task !in done
    ensures Recorded(g, dependents, done, task, multiset{})
  {}

  lemma RecordLast(g: Graph, dependents: map<TaskId, seq<TaskId>>, done: set<TaskId>, task: TaskId)
    requires task in g.deps && Recorded(g, dependents, done, task, multiset(g.deps[task]))
    ensures AllRecorded(g, dependents, done + {task})
  {}

  lemma RecordStep(g: Graph, dependents: map<TaskId, seq<TaskId>>, done: set<TaskId>,
                   task: TaskId, prefix: multiset<TaskId>, dep: TaskId)
    requires done <= g.deps.Keys && task !in done
    requires Recorded(g, dependents, done, task, prefix)
    ensures Recorded(g, dependents[dep := Lookup(dependents, dep) + [task]], done, task, prefix + multiset{dep})
  {
    hide Copies, Lookup;
    var after := dependents[dep := Lookup(dependents, dep) + [task]];
    forall d, t ensures Copies(after, d, t) == Copies(dependents, d, t) + (if d == dep && t == task then 1 else 0) {
      CopyAdded(dependents, dep, task, d, t);
    }
  }

  lemma CopyAdded(m: map<TaskId, seq<TaskId>>, dep: TaskId, task: TaskId, d: TaskId, t: TaskId)
    ensures Copies(m[dep := Lookup(m, dep) + [task]], d, t)
      == Copies(m, d, t) + (if d == dep && t == task then 1 else 0)
  {}

  /** The k-th entry of the i-th task's list is the first, in order of registration, that is not registered. */
  ghost predicate FirstUnknownAt(g: Graph, i: int, k: int, task: TaskId, dep: TaskId) {
    && 0 <= i < |g.ids| && g.ids[i] == task && task in g.deps && FirstUnknownIn(g, g.deps[task], k, dep)
    && forall j :: 0 <= j < i ==> g.KnowsDependenciesOf(g.ids[j])
  }

  ghost predicate FirstUnknownIn(g: Graph, deps: seq<TaskId>, k: int, dep: TaskId) {
    && 0 <= k < |deps| && deps[k] == dep && dep !in g.deps
    && forall j :: 0 <= j < k ==> deps[j] in g.deps
  }

  /** The pair that the sort reports when a dependency is not registered. */
  ghost predicate IsFirstUnknown(g: Graph, task: TaskId, dep: TaskId) {
    exists i, k :: FirstUnknownAt(g, i, k, task, dep)
  }

  lemma FirstUnknownUnique(g: Graph, task: TaskId, dep: TaskId, task': TaskId, dep': TaskId)
    requires IsFirstUnknown(g, task, dep) && IsFirstUnknown(g, task', dep')
    ensures task == task' && dep == dep' && !g.AllKnown()
  {
    var i, k :| FirstUnknownAt(g, i, k, task, dep);
    var i', k' :| FirstUnknownAt(g, i', k', task', dep');
    assert !g.KnowsDependenciesOf(task) && !g.KnowsDependenciesOf(task');
  }

  /** The body of the first loop: one task's `depends_on` list. */
  method CountTask(g: Graph, ghost done: set<TaskId>, task: TaskId, before: map<TaskId, seq<TaskId>>)
    returns (unknown: seq<TaskId>, degree: int, dependents: map<TaskId, seq<TaskId>>)
    requires done <= g.deps.Keys && task in g.deps && task !in done && AllRecorded(g, before, done)
    requires ListedAsRegistered(g, before) && forall t :: t in done ==> RegisteredBefore(g, t, task)
    ensures unknown == [] <==> g.KnowsDependenciesOf(task)
    ensures unknown != [] ==> exists k :: FirstUnknownIn(g, g.deps[task], k, unknown[0])
    ensures unknown == [] ==> degree == |g.deps[task]| && AllRecorded(g, dependents, done + {task})
    ensures unknown == [] ==> ListedAsRegistered(g, dependents)
  {
    hide Recorded, AllRecorded, ListedAsRegistered, RegisteredBefore;
    unknown, degree, dependents := [], 0, before;
    var deps := g.deps[task];
    ghost var told := multiset{};
    RecordFirst(g, before, done, task);
    for j := 0 to |deps|
      invariant unknown == [] && degree == j
      invariant forall k :: 0 <= k < j ==> deps[k] in g.deps
      invariant told == multiset(deps[..j]) && Recorded(g, dependents, done, task, told)
      invariant ListedAsRegistered(g, dependents)
    {
      var dep := deps[j];
      if dep !in g.deps {
        unknown := [dep];
        assert FirstUnknownIn(g, g.deps[task], j, unknown[0]);
        return;
      }
      MultisetPrefix(deps, j);
      RecordStep(g, dependents, done, task, told, dep);
      ListedEarlier(g, dependents, done, task, told, dep);
      AppendAsRegistered(g, dependents, dep, task);
      told := told + multiset{dep};
      degree := degree + 1;
      dependents := dependents[dep := Lookup(dependents, dep) + [task]];
    }
    assert deps[..|deps|] == deps;
    RecordLast(g, dependents, done, task);
  }

  lemma UnknownFound(g: Graph, i: nat, done: set<TaskId>, dep: TaskId)
    requires i < |g.ids| && g.ids[i] in g.deps && exists k :: FirstUnknownIn(g, g.deps[g.ids[i]], k, dep)
    requires done == (set t | t in g.ids[..i]) && forall t :: t in done ==> g.KnowsDependenciesOf(t)
    ensures IsFirstUnknown(g, g.ids[i], dep)
  {
    var k :| FirstUnknownIn(g, g.deps[g.ids[i]], k, dep);
    forall j | 0 <= j < i ensures g.KnowsDependenciesOf(g.ids[j]) {
      assert g.ids[..i][j] in done;
    }
    assert FirstUnknownAt(g, i, k, g.ids[i], dep);
  }

  lemma EarlierRegistered(g: Graph, i: nat, done: set<TaskId>)
    requires i < |g.ids| && done == (set t | t in g.ids[..i])
    ensures forall t :: t in done ==> RegisteredBefore(g, t, g.ids[i])
  {}

  /** First loop of the sort: count each task's dependencies, collect each task's dependents,
      and stop at the first dependency that is not registered. */
  method CountDependencies(g: Graph)
    returns (unknown: seq<(TaskId, TaskId)>, inDegree: map<TaskId, int>, dependents: map<TaskId, seq<TaskId>>)
    requires g.Valid()
    ensures unknown == [] <==> g.AllKnown()
    ensures unknown != [] ==> IsFirstUnknown(g, unknown[0].0, unknown[0].1)
    ensures unknown == [] ==> inDegree.Keys == g.deps.Keys && forall t :: t in g.deps ==> inDegree[t] == |g.deps[t]|
    ensures unknown == [] ==> AllRecorded(g, dependents, g.deps.Keys) && ListedAsRegistered(g, dependents)
  {
    hide AllRecorded, FirstUnknownIn, IsFirstUnknown, ListedAsRegistered, RegisteredBefore;
    unknown, inDegree, dependents := [], map[], map[];
    NothingRecorded(g);
    NothingListed(g);
    ghost var done: set<TaskId> := {};
    for i := 0 to |g.ids|
      invariant unknown == [] && done == (set t | t in g.ids[..i]) && inDegree.Keys == done <= g.deps.Keys
      invariant forall t :: t in done ==> inDegree[t] == |g.deps[t]|
      invariant forall t :: t in done ==> g.KnowsDependenciesOf(t)
      invariant AllRecorded(g, dependents, done) && ListedAsRegistered(g, dependents)
    {
      var task := g.ids[i];
      assert task !in done;
      EarlierRegistered(g, i, done);
      var bad, degree, after := CountTask(g, done, task, dependents);
      if bad != [] {
        UnknownFound(g, i, done, bad[0]);
        unknown := [(task, bad[0])];
        return;
      }
      inDegree, dependents := inDegree[task := degree], after;
      assert g.ids[..i + 1] == g.ids[..i] + [task];
      done := done + {task};
    }
    assert g.ids[..|g.ids|] == g.ids;
  }

  /** The queue holds exactly the ready tasks, each once, highest priority first. */
  ghost predicate ReadyQueue(g: Graph, queue: seq<TaskId>, emitted: seq<TaskId>, inDegree: map<TaskId, int>) {
    && NoDuplicates(queue) && Sorted(ByPriority(g), queue)
    && inDegree.Keys == g.deps.Keys
    && forall t :: t in queue <==> t in g.deps && t !in emitted && inDegree[t] == 0
  }

  /** What holds between two rounds of the main loop. */
  ghost predicate KahnInvariant(g: Graph, queue: seq<TaskId>, emitted: seq<TaskId>, inDegree: map<TaskId, int>) {
    && ReadyQueue(g, queue, emitted, inDegree)
    && NoDuplicates(emitted)
    && (forall k :: 0 <= k < |emitted| ==> GreedyAt(g, emitted, k))
    && (forall t :: t in g.deps ==> inDegree[t] == Unmet(g.deps[t], Elements(emitted)))
  }

  function Elements(s: seq<TaskId>): set<TaskId> {
    set t | t in s
  }

  lemma SortQueue(g: Graph, queue: seq<TaskId>)
    requires NoDuplicates(queue)
    ensures var sorted := StableSort(ByPriority(g), queue);
      NoDuplicates(sorted) && Sorted(ByPriority(g), sorted) && forall t :: t in sorted <==> t in queue
  {
    StableSortCorrect(ByPriority(g), queue);
    SamePermutation(queue, StableSort(ByPriority(g), queue));
  }

  /** Everything emitted had all its dependencies emitted before it. */
  lemma EmittedClosed(g: Graph, emitted: seq<TaskId>, t: TaskId)
    requires t in emitted && forall k :: 0 <= k < |emitted| ==> GreedyAt(g, emitted, k)
    ensures t in g.deps && forall d :: d in g.deps[t] ==> d in emitted
  {
    var k :| 0 <= k < |emitted| && emitted[k] == t;
    assert GreedyAt(g, emitted, k);
  }

  /** Counting t down keeps the queue right: it joins exactly when its count reaches zero. */
  lemma LowerDegree(g: Graph, queue: seq<TaskId>, emitted: seq<TaskId>, inDegree: map<TaskId, int>, t: TaskId)
    requires ReadyQueue(g, queue, emitted, inDegree)
    requires t in g.deps && t !in emitted && inDegree[t] >= 1
    ensures var after := inDegree[t := inDegree[t] - 1];
      ReadyQueue(g, if after[t] == 0 then StableSort(ByPriority(g), queue + [t]) else queue, emitted, after)
  {
    SortQueue(g, queue + [t]);
  }

  /** Inner loop, after `current` was emitted and the dependents in `told` were counted down. */
  ghost predicate Releasing(g: Graph, before: seq<TaskId>, current: TaskId, told: multiset<TaskId>,
                            queue: seq<TaskId>, inDegree: map<TaskId, int>)
  {
    && ReadyQueue(g, queue, before + [current], inDegree)
    && forall t :: t in g.deps ==> inDegree[t] == Unmet(g.deps[t], Elements(before)) - told[t]
  }

  lemma ReleaseStep(g: Graph, before: seq<TaskId>, current: TaskId, told: multiset<TaskId>, t: TaskId,
                    queue: seq<TaskId>, inDegree: map<TaskId, int>)
    requires current !in before && t in g.deps && t !in before + [current]
    requires told[t] < multiset(g.deps[t])[current]
    requires Releasing(g, before, current, told, queue, inDegree)
    ensures var after := inDegree[t := inDegree[t] - 1];
      Releasing(g, before, current, told + multiset{t},
                if after[t] == 0 then StableSort(ByPriority(g), queue + [t]) else queue, after)
  {
    UnmetAfter(g.deps[t], before, current);
    LowerDegree(g, queue, before + [current], inDegree, t);
  }

  lemma MultisetPrefix(s: seq<TaskId>, j: nat)
    requires j < |s|
    ensures multiset(s[..j + 1]) == multiset(s[..j]) + multiset{s[j]}
    ensures multiset(s[..j])[s[j]] < multiset(s)[s[j]]
  {
    assert s[..j + 1] == s[..j] + [s[j]];
    assert s == s[..j + 1] + s[j + 1..];
  }

  /** The queue is in turn, and holds what was free before or has just been told. */
  ghost predicate QueuesUp(g: Graph, before: seq<TaskId>, current: TaskId, told: seq<TaskId>, queue: seq<TaskId>) {
    && InTurn(ByPriority(g), First(g, before + [current]), queue)
    && forall y :: y in queue ==> Free(g, before, y) || (y in told && Free(g, before + [current], y))
  }

  /** A task whose count has reached zero goes behind its equals in the queue. */
  lemma QueueUp(g: Graph, before: seq<TaskId>, current: TaskId, told: seq<TaskId>, queue: seq<TaskId>, t: TaskId)
    requires current !in before && t in g.deps && current in g.deps[t] && Free(g, before + [current], t)
    requires Sorted(ByPriority(g), queue) && t !in queue && AsRegistered(g, told + [t])
    requires QueuesUp(g, before, current, told, queue)
    ensures QueuesUp(g, before, current, told + [t], StableSort(ByPriority(g), queue + [t]))
  {
    forall y | y in queue ensures First(g, before + [current])(y, t) {
      if !Free(g, before, y) {
        var i :| 0 <= i < |told| && told[i] == y;
        assert (told + [t])[i] == y && (told + [t])[|told|] == t;
      }
      NewcomerIsLast(g, before, current, y, t);
    }
    SortOfSorted(ByPriority(g), queue);
    assert (queue + [t])[..|queue|] == queue;
    InsertInTurn(ByPriority(g), First(g, before + [current]), t, queue);
    StableSortCorrect(ByPriority(g), queue + [t]);
    SamePermutation(StableSort(ByPriority(g), queue + [t]), queue + [t]);
  }

  lemma LongerTold(g: Graph, before: seq<TaskId>, current: TaskId, told: seq<TaskId>, queue: seq<TaskId>, t: TaskId)
    requires QueuesUp(g, before, current, told, queue)
    ensures QueuesUp(g, before, current, told + [t], queue)
  {}

  /** Inner loop: `current` has just been emitted; tell each of its dependents. */
  method ReleaseDependents(g: Graph, ghost before: seq<TaskId>, current: TaskId, waiting: seq<TaskId>,
                           queue0: seq<TaskId>, inDegree0: map<TaskId, int>)
    returns (queue: seq<TaskId>, inDegree: map<TaskId, int>)
    requires current !in before && forall t :: t in waiting ==> t in g.deps && t !in before + [current]
    requires forall t :: t in g.deps ==> multiset(waiting)[t] == multiset(g.deps[t])[current]
    requires Releasing(g, before, current, multiset{}, queue0, inDegree0)
    requires AsRegistered(g, waiting) && QueuesUp(g, before, current, [], queue0)
    ensures QueuesUp(g, before, current, waiting, queue)
    ensures ReadyQueue(g, queue, before + [current], inDegree)
    ensures forall t :: t in g.deps ==> inDegree[t] == Unmet(g.deps[t], Elements(before + [current]))
  {
    queue, inDegree := queue0, inDegree0;
    ghost var told := multiset{};
    for j := 0 to |waiting|
      invariant told == multiset(waiting[..j])
      invariant Releasing(g, before, current, told, queue, inDegree)
      invariant QueuesUp(g, before, current, waiting[..j], queue)
    {
      var t := waiting[j];
      assert t in waiting;
      MultisetPrefix(waiting, j);
      ReleaseStep(g, before, current, told, t, queue, inDegree);
      QueueStep(g, before, current, waiting, j, queue, inDegree);
      inDegree := inDegree[t := inDegree[t] - 1];
      if inDegree[t] == 0 {
        queue := StableSort(ByPriority(g), queue + [t]);
      }
      told := told + multiset{t};
    }
    assert waiting[..|waiting|] == waiting;
    forall t | t in g.deps ensures inDegree[t] == Unmet(g.deps[t], Elements(before + [current])) {
      UnmetAfter(g.deps[t], before, current);
    }
  }

  lemma QueueStep(g: Graph, before: seq<TaskId>, current: TaskId, waiting: seq<TaskId>, j: nat, queue: seq<TaskId>,
                  inDegree: map<TaskId, int>)
    requires current !in before && j < |waiting| && AsRegistered(g, waiting) && waiting[j] in g.deps
    requires waiting[j] !in before + [current] && waiting[j] in inDegree
    requires multiset(waiting)[waiting[j]] == multiset(g.deps[waiting[j]])[current]
    requires Releasing(g, before, current, multiset(waiting[..j]), queue, inDegree)
    requires QueuesUp(g, before, current, waiting[..j], queue)
    ensures QueuesUp(g, before, current, waiting[..j + 1],
      if inDegree[waiting[j]] - 1 == 0 then StableSort(ByPriority(g), queue + [waiting[j]]) else queue)
  {
    hide *;
    var t := waiting[j];
    assert waiting[..j + 1] == waiting[..j] + [t];
    MultisetPrefix(waiting, j);
    ToldPrefix(g, waiting, j);
    if inDegree[t] - 1 == 0 {
      JustFreed(g, before, current, multiset(waiting[..j]), t, queue, inDegree);
      QueueUp(g, before, current, waiting[..j], queue, t);
    } else {
      LongerTold(g, before, current, waiting[..j], queue, t);
    }
  }

  lemma ToldPrefix(g: Graph, waiting: seq<TaskId>, j: nat)
    requires j < |waiting| && AsRegistered(g, waiting)
    ensures AsRegistered(g, waiting[..j] + [waiting[j]])
  {
    assert waiting[..j] + [waiting[j]] == waiting[..j + 1];
  }

  lemma JustFreed(g: Graph, before: seq<TaskId>, current: TaskId, told: multiset<TaskId>, t: TaskId,
                  queue: seq<TaskId>, inDegree: map<TaskId, int>)
    requires current !in before && t in g.deps && t !in before + [current]
    requires told[t] < multiset(g.deps[t])[current]
    requires Releasing(g, before, current, told, queue, inDegree) && t in inDegree && inDegree[t] == 1
    ensures current in g.deps[t] && Free(g, before + [current], t)
    ensures Sorted(ByPriority(g), queue) && t !in queue
  {
    UnmetAfter(g.deps[t], before, current);
    assert current in multiset(g.deps[t]);
    assert Unmet(g.deps[t], Elements(before + [current])) == 0;
  }

  lemma UnmetAfter(deps: seq<TaskId>, before: seq<TaskId>, current: TaskId)
    requires current !in before
    ensures Unmet(deps, Elements(before)) - multiset(deps)[current] == Unmet(deps, Elements(before + [current]))
  {
    UnmetEmit(deps, Elements(before), current);
    assert Elements(before + [current]) == Elements(before) + {current};
  }

  lemma StillWaiting(g: Graph, before: seq<TaskId>, current: TaskId, t: TaskId)
    requires current !in before && t in g.deps && current in g.deps[t]
    requires forall k :: 0 <= k < |before + [current]| ==> GreedyAt(g, before + [current], k)
    ensures t !in before + [current]
  {
    var emitted := before + [current];
    forall k | 0 <= k < |emitted| ensures emitted[k] != t {
      assert GreedyAt(g, emitted, k);
      assert emitted[..k] == before[..k];
    }
  }

  lemma KahnStart(g: Graph, queue: seq<TaskId>, inDegree: map<TaskId, int>)
    requires ReadyQueue(g, queue, [], inDegree)
    requires forall t :: t in g.deps ==> inDegree[t] == |g.deps[t]|
    ensures KahnInvariant(g, queue, [], inDegree)
  {
    forall t | t in g.deps ensures inDegree[t] == Unmet(g.deps[t], Elements([])) {
      UnmetNothingEmitted(g.deps[t]);
      assert Elements([]) == {};
    }
  }

  /** Taking the head of the queue emits a task of maximal priority among those available. */
  lemma Emit(g: Graph, queue: seq<TaskId>, emitted: seq<TaskId>, inDegree: map<TaskId, int>)
    requires KahnInvariant(g, queue, emitted, inDegree) && queue != []
    ensures var after := emitted + [queue[0]];
      && NoDuplicates(after)
      && (forall k :: 0 <= k < |after| ==> GreedyAt(g, after, k))
      && ReadyQueue(g, queue[1..], after, inDegree)
  {
    var current, after := queue[0], emitted + [queue[0]];
    assert queue == [current] + queue[1..];
    assert after[..|emitted|] == emitted;
    forall t | Available(g, emitted, t) ensures g.PriorityOf(t) <= g.PriorityOf(current) {
      assert Unmet(g.deps[t], Elements(emitted)) == 0;
      assert t in queue;
      var i :| 0 <= i < |queue| && queue[i] == t;
      assert i > 0 ==> !ByPriority(g)(queue[i], queue[0]);
    }
    assert Unmet(g.deps[current], Elements(emitted)) == 0;
    assert GreedyAt(g, after, |emitted|);
    forall k | 0 <= k < |emitted| ensures GreedyAt(g, after, k) {
      assert GreedyAt(g, emitted, k) && after[..k] == emitted[..k];
    }
  }

  /** Between two rounds of the main loop: the queue is in turn, and what is in it is free. */
  ghost predicate QueueInTurn(g: Graph, emitted: seq<TaskId>, queue: seq<TaskId>) {
    InTurn(ByPriority(g), First(g, emitted), queue) && forall t :: t in queue ==> Free(g, emitted, t)
  }

  /** The head of a queue in turn is the next in turn, and the rest stays in turn. */
  lemma HeadHasTurn(g: Graph, queue: seq<TaskId>, emitted: seq<TaskId>, inDegree: map<TaskId, int>)
    requires KahnInvariant(g, queue, emitted, inDegree) && queue != []
    requires QueueInTurn(g, emitted, queue) && TakesTurns(g, emitted)
    ensures var after := emitted + [queue[0]];
      && NoDuplicates(after) && (forall k :: 0 <= k < |after| ==> GreedyAt(g, after, k))
      && Releasing(g, emitted, queue[0], multiset{}, queue[1..], inDegree)
      && TakesTurns(g, after) && QueuesUp(g, emitted, queue[0], [], queue[1..]) && queue[0] !in emitted
  {
    Emit(g, queue, emitted, inDegree);
    hide GreedyAt, CameFirst, KahnInvariant;
    HeadIsNext(g, queue, emitted, inDegree);
    TailInTurn(g, queue, emitted);
  }

  lemma HeadIsNext(g: Graph, queue: seq<TaskId>, emitted: seq<TaskId>, inDegree: map<TaskId, int>)
    requires KahnInvariant(g, queue, emitted, inDegree) && queue != []
    requires QueueInTurn(g, emitted, queue) && TakesTurns(g, emitted)
    ensures TakesTurns(g, emitted + [queue[0]])
  {
    var current, after := queue[0], emitted + [queue[0]];
    assert after[..|emitted|] == emitted;
    forall t | Available(g, emitted, t) && t != current && g.PriorityOf(t) == g.PriorityOf(current)
      ensures CameFirst(g, emitted, current, t)
    {
      assert Unmet(g.deps[t], Elements(emitted)) == 0;
      assert t in queue;
      var i :| 0 <= i < |queue| && queue[i] == t;
      assert First(g, emitted)(queue[0], queue[i]);
    }
    forall k | 0 <= k < |emitted| ensures TurnAt(g, after, k) {
      assert TurnAt(g, emitted, k) && after[..k] == emitted[..k];
    }
  }

  lemma TailInTurn(g: Graph, queue: seq<TaskId>, emitted: seq<TaskId>)
    requires queue != [] && QueueInTurn(g, emitted, queue)
    ensures QueuesUp(g, emitted, queue[0], [], queue[1..])
  {
    var tail := queue[1..];
    forall i, j | 0 <= i < j < |tail| && First(g, emitted)(tail[i], tail[j])
      ensures First(g, emitted + [queue[0]])(tail[i], tail[j])
    {
      StillFirst(g, emitted, queue[0], tail[i], tail[j]);
    }
    forall i, j | 0 <= i < j < |tail| ensures ByPriority(g)(tail[i], tail[j])
      || (!ByPriority(g)(tail[j], tail[i]) && First(g, emitted)(tail[i], tail[j])) {
      assert tail[i] == queue[i + 1] && tail[j] == queue[j + 1];
    }
  }

  /** All that was told has queued up: the next round can begin. */
  lemma NextRound(g: Graph, before: seq<TaskId>, current: TaskId, told: seq<TaskId>, queue: seq<TaskId>,
                  inDegree: map<TaskId, int>)
    requires var after := before + [current];
      && NoDuplicates(after) && (forall k :: 0 <= k < |after| ==> GreedyAt(g, after, k))
      && ReadyQueue(g, queue, after, inDegree)
      && forall t :: t in g.deps ==> inDegree[t] == Unmet(g.deps[t], Elements(after))
    requires QueuesUp(g, before, current, told, queue)
    ensures KahnInvariant(g, queue, before + [current], inDegree) && QueueInTurn(g, before + [current], queue)
  {}

  /** Before the first round. */
  lemma FirstRound(g: Graph, queue: seq<TaskId>, inDegree: map<TaskId, int>)
    requires ReadyQueue(g, queue, [], inDegree) && forall t :: t in g.deps ==> inDegree[t] == |g.deps[t]|
    requires InTurn(ByPriority(g), First(g, []), queue) && forall t :: t in queue ==> Free(g, [], t)
    ensures KahnInvariant(g, queue, [], inDegree) && QueueInTurn(g, [], queue) && TakesTurns(g, [])
  {
    KahnStart(g, queue, inDegree);
  }

  lemma {:induction false} DistinctCount(s: seq<TaskId>)
    requires NoDuplicates(s)
    ensures |Elements(s)| == |s|
  {
    if s != [] {
      var init, last := s[..|s| - 1], s[|s| - 1];
      DistinctCount(init);
      assert Elements(s) == Elements(init) + {last} && last !in Elements(init);
    }
  }

  lemma EmittedAreFree(g: Graph, emitted: seq<TaskId>)
    requires g.Valid() && NoDuplicates(emitted) && forall k :: 0 <= k < |emitted| ==> GreedyAt(g, emitted, k)
    ensures forall t :: t in emitted ==> t in g.deps && !DependsOnCycle(g, t)
  {
    forall t | t in emitted ensures t in g.deps && !DependsOnCycle(g, t) {
      forall k | 0 <= k < |emitted| ensures Available(g, emitted[..k], emitted[k]) {
        assert GreedyAt(g, emitted, k);
      }
      EmittedClosed(g, emitted, t);
      EmittedAvoidsCycles(g, emitted, t);
    }
  }

  lemma LeftoverWaits(g: Graph, emitted: seq<TaskId>, inDegree: map<TaskId, int>)
    requires g.Valid() && g.AllKnown() && KahnInvariant(g, [], emitted, inDegree)
    ensures AllWait(g, g.deps.Keys - Elements(emitted))
  {
    var missing := g.deps.Keys - Elements(emitted);
    forall t {:trigger Waits(g, missing, t)} | t in missing ensures Waits(g, missing, t) {
      assert Unmet(g.deps[t], Elements(emitted)) != 0;
      var d :| d in g.deps[t] && d !in emitted;
      assert g.KnowsDependenciesOf(t);
    }
  }

  lemma AllWaitMeansCycles(g: Graph, missing: set<TaskId>)
    requires missing <= g.deps.Keys && missing != {} && AllWait(g, missing)
    requires forall t :: t in g.deps && t !in missing ==> !DependsOnCycle(g, t)
    ensures StuckOnCycles(g, missing)
  {
    forall t | t in missing ensures DependsOnCycle(g, t) {
      var _ := StuckDependsOnCycle(g, missing, t);
    }
    var t :| t in missing;
    var c := StuckDependsOnCycle(g, missing, t);
  }

  lemma EmittedCount(g: Graph, emitted: seq<TaskId>)
    requires NoDuplicates(emitted) && forall k :: 0 <= k < |emitted| ==> GreedyAt(g, emitted, k)
    ensures Elements(emitted) <= g.deps.Keys
    ensures |g.deps.Keys - Elements(emitted)| == |g.deps| - |emitted| >= 0
  {
    forall t | t in emitted ensures t in g.deps { EmittedClosed(g, emitted, t); }
    DistinctCount(emitted);
    assert |g.deps.Keys - Elements(emitted)| == |g.deps.Keys| - |Elements(emitted)|;
  }

  /** The queue ran dry after every task: the order is a schedule. */
  lemma KahnComplete(g: Graph, emitted: seq<TaskId>)
    requires g.Valid() && NoDuplicates(emitted) && forall k :: 0 <= k < |emitted| ==> GreedyAt(g, emitted, k)
    requires |emitted| == |g.deps|
    ensures IsSchedule(g, emitted) && Acyclic(g)
  {
    EmittedCount(g, emitted);
    assert g.deps.Keys - Elements(emitted) == {};
    forall t ensures t in emitted <==> t in g.deps {
      assert t in Elements(emitted) <==> t in g.deps.Keys;
    }
    ScheduleIsAcyclic(g, emitted);
  }

  /** The queue ran dry early: what is left is exactly what depends on a cycle. */
  lemma KahnStuck(g: Graph, emitted: seq<TaskId>, inDegree: map<TaskId, int>)
    requires g.Valid() && g.AllKnown() && KahnInvariant(g, [], emitted, inDegree)
    requires |emitted| != |g.deps|
    ensures StuckOnCycles(g, g.deps.Keys - Elements(emitted))
  {
    EmittedCount(g, emitted);
    EmittedAreFree(g, emitted);
    LeftoverWaits(g, emitted, inDegree);
    AllWaitMeansCycles(g, g.deps.Keys - Elements(emitted));
  }

  lemma ScheduleIsAcyclic(g: Graph, order: seq<TaskId>)
    requires g.Valid() && IsSchedule(g, order)
    ensures Acyclic(g)
  {
    EmittedAreFree(g, order);
    forall c ensures !IsCycle(g, c) {
      if IsCycle(g, c) { CycleMemberDependsOnCycle(g, c); }
    }
  }

  lemma StuckIsCyclic(g: Graph, missing: set<TaskId>)
    requires StuckOnCycles(g, missing)
    ensures !Acyclic(g)
  {}

  lemma KahnMeans(g: Graph, emitted: seq<TaskId>, inDegree: map<TaskId, int>)
    requires KahnInvariant(g, [], emitted, inDegree)
    ensures NoDuplicates(emitted) && forall k :: 0 <= k < |emitted| ==> GreedyAt(g, emitted, k)
  {}

  /** `missing` is the tasks that depend on a cycle, and a cycle lies within it. */
  ghost predicate StuckOnCycles(g: Graph, missing: set<TaskId>) {
    && (forall t :: t in missing <==> t in g.deps && DependsOnCycle(g, t))
    && exists c :: IsCycle(g, c) && forall i :: 0 <= i < |c| ==> c[i] in missing
  }

  lemma RootsInTurn(g: Graph, roots: seq<TaskId>)
    requires forall t :: t in roots ==> t in g.deps && g.deps[t] == []
    requires forall j, k :: 0 <= j < k < |roots| ==> RegisteredBefore(g, roots[j], roots[k])
    ensures InTurn(ByPriority(g), First(g, []), StableSort(ByPriority(g), roots))
  {
    forall j, k | 0 <= j < k < |roots| ensures First(g, [])(roots[j], roots[k]) {
      forall m ensures FreeAt(g, [], roots[k], m) <==> FreeAt(g, [], roots[j], m) {}
    }
    SortInTurn(ByPriority(g), First(g, []), roots);
  }

  /** The tasks without dependencies, in registration order, then sorted. */
  method InitialQueue(g: Graph, inDegree: map<TaskId, int>) returns (queue: seq<TaskId>)
    requires g.Valid() && inDegree.Keys == g.deps.Keys && forall t :: t in g.deps ==> inDegree[t] == |g.deps[t]|
    ensures ReadyQueue(g, queue, [], inDegree)
    ensures InTurn(ByPriority(g), First(g, []), queue) && forall t :: t in queue ==> Free(g, [], t)
  {
    var roots := [];
    for i := 0 to |g.ids|
      invariant NoDuplicates(roots) && forall t :: t in roots <==> t in g.ids[..i] && inDegree[t] == 0
      invariant forall j, k :: 0 <= j < k < |roots| ==> RegisteredBefore(g, roots[j], roots[k])
    {
      assert g.ids[..i + 1] == g.ids[..i] + [g.ids[i]];
      assert forall t :: t in g.ids[..i] ==> RegisteredBefore(g, t, g.ids[i]);
      if inDegree[g.ids[i]] == 0 { roots := roots + [g.ids[i]]; }
    }
    assert g.ids[..|g.ids|] == g.ids;
    SortQueue(g, roots);
    RootsInTurn(g, roots);
    queue := StableSort(ByPriority(g), roots);
  }

  /** `TaskScheduler.topological_sort`. */
  method TopologicalSort(g: Graph) returns (r: SortResult)
    requires g.Valid()
    ensures r.UnknownDependency? <==> !g.AllKnown()
    ensures r.UnknownDependency? ==> IsFirstUnknown(g, r.task, r.dep)
    ensures r.Order? <==> g.AllKnown() && Acyclic(g)
    ensures r.Order? ==> IsSchedule(g, r.order) && TakesTurns(g, r.order)
    ensures r.CyclicDependency? ==> StuckOnCycles(g, r.missing)
  {
    hide ListedAsRegistered, AllRecorded, GreedyAt, KahnInvariant, QueueInTurn, TakesTurns, QueuesUp, AsRegistered,
      Releasing, InTurn;
    var unknown, inDegree, dependents := CountDependencies(g);
    if unknown != [] {
      return UnknownDependency(unknown[0].0, unknown[0].1);
    }
    var queue := InitialQueue(g, inDegree);
    var order: seq<TaskId> := [];
    FirstRound(g, queue, inDegree);
    while queue != []
      invariant KahnInvariant(g, queue, order, inDegree) && QueueInTurn(g, order, queue) && TakesTurns(g, order)
      decreases |g.deps| - |order|
    {
      var current := queue[0];
      HeadHasTurn(g, queue, order, inDegree);
      EmittedCount(g, order + [current]);
      WaitingTasks(g, dependents, order, current);
      queue, inDegree := ReleaseDependents(g, order, current, Lookup(dependents, current), queue[1..], inDegree);
      NextRound(g, order, current, Lookup(dependents, current), queue, inDegree);
      order := order + [current];
    }
    KahnMeans(g, order, inDegree);
    if |order| != |g.deps| {
      KahnStuck(g, order, inDegree);
      StuckIsCyclic(g, g.deps.Keys - Elements(order));
      return CyclicDependency(g.deps.Keys - Elements(order));
    }
    KahnComplete(g, order);
    return Order(order);
  }

  /** Who is listed as waiting for the task just emitted. */
  lemma WaitingTasks(g: Graph, dependents: map<TaskId, seq<TaskId>>, before: seq<TaskId>, d: TaskId)
    requires AllRecorded(g, dependents, g.deps.Keys) && d !in before
    requires forall k :: 0 <= k < |before + [d]| ==> GreedyAt(g, before + [d], k)
    ensures forall t :: t in Lookup(dependents, d) ==> t in g.deps && t !in before + [d]
    ensures forall t :: t in g.deps ==> multiset(Lookup(dependents, d))[t] == multiset(g.deps[t])[d]
    ensures ListedAsRegistered(g, dependents) ==> AsRegistered(g, Lookup(dependents, d))
  {
    forall t | t in g.deps ensures multiset(Lookup(dependents, d))[t] == multiset(g.deps[t])[d] {
      assert Copies(dependents, d, t) == multiset(g.deps[t])[d];
    }
    forall t | t in Lookup(dependents, d) ensures t in g.deps && t !in before + [d] {
      assert Copies(dependents, d, t) > 0;
      StillWaiting(g, before, d, t);
    }
  }
}
