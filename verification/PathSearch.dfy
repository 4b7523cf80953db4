/** src/migration/schema_migrator.py: the breadth-first search for a route over the registered steps. */
module PathSearch {
  import opened Sorting
  import opened Wrappers
  import opened VersionGraph

  /** Where an edge leads from `current`, whichever way round it is stored. */
  function Neighbour(e: (Version, Version), current: Version): Option<Version> {
    if e.0 == current then Some(e.1) else if e.1 == current then Some(e.0) else None
  }

  function Last(p: seq<Version>): Version {
    if p == [] then Version("") else p[|p| - 1]
  }

  // ---- which of the shortest routes ----

  /** From u, an edge to v is stored before any to w. */
  ghost predicate LeadsFirst(order: seq<(Version, Version)>, u: Version, v: Version, w: Version) {
    exists k :: 0 <= k < |order| && Neighbour(order[k], u) == Some(v)
      && forall j :: 0 <= j <= k ==> Neighbour(order[j], u) != Some(w)
  }

  ghost predicate PartsAt(order: seq<(Version, Version)>, p: seq<Version>, q: seq<Version>, k: int) {
    0 <= k < |p| - 1 && k < |q| - 1 && p[..k + 1] == q[..k + 1] && LeadsFirst(order, p[k], p[k + 1], q[k + 1])
  }

  /** The two go the same way up to some version, from which p takes the edge that is stored first. */
  ghost predicate TurnsFirst(order: seq<(Version, Version)>, p: seq<Version>, q: seq<Version>) {
    exists k :: PartsAt(order, p, q, k)
  }

  /** Of the routes as long as p to where it ends, p turns first. */
  ghost predicate IsFirst(edges: Edges, order: seq<(Version, Version)>, p: seq<Version>, source: Version) {
    forall q :: IsRoute(edges, q, source, Last(p)) && |q| == |p| ==> q == p || TurnsFirst(order, p, q)
  }

  /** The route that the search returns: a shortest one, and of those the first in the order of the table. */
  ghost predicate IsChosen(edges: Edges, order: seq<(Version, Version)>, p: seq<Version>, source: Version,
          target: Version)
  {
    IsShortest(edges, p, source, target) && IsFirst(edges, order, p, source)
  }

  lemma LeadsTransitive(order: seq<(Version, Version)>, u: Version, v: Version, w: Version, x: Version)
    requires LeadsFirst(order, u, v, w) && LeadsFirst(order, u, w, x)
    ensures LeadsFirst(order, u, v, x)
  {
    var k :| 0 <= k < |order| && Neighbour(order[k], u) == Some(v)
      && forall j :: 0 <= j <= k ==> Neighbour(order[j], u) != Some(w);
    var m :| 0 <= m < |order| && Neighbour(order[m], u) == Some(w)
      && forall j :: 0 <= j <= m ==> Neighbour(order[j], u) != Some(x);
    assert k < m;
  }

  lemma TurnsTransitive(order: seq<(Version, Version)>, p: seq<Version>, q: seq<Version>, r: seq<Version>)
    requires TurnsFirst(order, p, q) && TurnsFirst(order, q, r)
    ensures TurnsFirst(order, p, r)
  {
    var k :| PartsAt(order, p, q, k);
    var m :| PartsAt(order, q, r, m);
    hide LeadsFirst;
    var n := if k <= m then k else m;
    assert p[..n + 1] == p[..k + 1][..n + 1] == q[..n + 1] == q[..m + 1][..n + 1] == r[..n + 1];
    if k < m {
      assert q[..m + 1][k + 1] == r[..m + 1][k + 1];
    } else if m < k {
      assert p[..k + 1][m + 1] == q[..k + 1][m + 1] && p[..k + 1][m] == q[..k + 1][m];
    } else {
      assert p[..k + 1][k] == q[..k + 1][k];
      LeadsTransitive(order, p[k], p[k + 1], q[k + 1], r[k + 1]);
    }
    assert PartsAt(order, p, r, n);
  }

  lemma LeadsOneWay(order: seq<(Version, Version)>, u: Version, v: Version, w: Version)
    requires LeadsFirst(order, u, v, w)
    ensures v != w && !LeadsFirst(order, u, w, v)
  {}

  lemma TurnsOneWay(order: seq<(Version, Version)>, p: seq<Version>, q: seq<Version>)
    requires TurnsFirst(order, p, q)
    ensures p != q && !TurnsFirst(order, q, p)
  {
    var k :| PartsAt(order, p, q, k);
    LeadsOneWay(order, p[k], p[k + 1], q[k + 1]);
    hide LeadsFirst;
    assert p[..k + 1][k] == q[..k + 1][k];
    forall m ensures !PartsAt(order, q, p, m) {
      if 0 <= m < |p| - 1 && m < |q| - 1 {
        if m < k {
          assert p[..k + 1][m + 1] == q[..k + 1][m + 1];
          SameTurn(order, q, p, m);
        } else if k < m {
          assert p[..m + 1][k + 1] != q[..m + 1][k + 1];
        }
      }
    }
  }

  lemma SameTurn(order: seq<(Version, Version)>, p: seq<Version>, q: seq<Version>, m: nat)
    requires m < |p| - 1 && m < |q| - 1 && p[m + 1] == q[m + 1]
    ensures !PartsAt(order, p, q, m)
  {
    if LeadsFirst(order, p[m], p[m + 1], q[m + 1]) { LeadsOneWay(order, p[m], p[m + 1], q[m + 1]); }
  }

  /** So there is but one. */
  lemma ChosenIsUnique(edges: Edges, order: seq<(Version, Version)>, p: seq<Version>, q: seq<Version>, source: Version,
                       target: Version)
    requires IsChosen(edges, order, p, source, target) && IsChosen(edges, order, q, source, target)
    ensures p == q
  {
    if p != q {
      assert |p| == |q| && Last(p) == target == Last(q);
      assert TurnsFirst(order, p, q) && TurnsFirst(order, q, p);
      TurnsOneWay(order, p, q);
    }
  }

  lemma TurnsExtend(order: seq<(Version, Version)>, p: seq<Version>, q: seq<Version>, v: Version, w: Version)
    requires TurnsFirst(order, p, q)
    ensures TurnsFirst(order, p + [v], q + [w])
  {
    var k :| PartsAt(order, p, q, k);
    assert (p + [v])[..k + 1] == p[..k + 1] && (q + [w])[..k + 1] == q[..k + 1];
    assert PartsAt(order, p + [v], q + [w], k);
  }

  // ---- breadth-first search ----

  ghost predicate QueueOk(edges: Edges, source: Version, queue: seq<seq<Version>>, dist: map<Version, nat>,
          level: nat)
  {
    && (forall i :: 0 <= i < |queue| ==>
        |queue[i]| >= 1 && IsRoute(edges, queue[i], source, Last(queue[i])) && NoDuplicates(queue[i]))
    && (forall i, v :: 0 <= i < |queue| && v in queue[i] ==> v in dist)
    && (forall i :: 0 <= i < |queue| ==> dist[Last(queue[i])] == |queue[i]|)
    && (forall i :: 0 <= i < |queue| ==> level <= |queue[i]| <= level + 1)
    && (forall i, j :: 0 <= i < j < |queue| ==> |queue[i]| <= |queue[j]| && Last(queue[i]) != Last(queue[j]))
  }

  ghost predicate InQueue(queue: seq<seq<Version>>, v: Version) {
    exists i :: 0 <= i < |queue| && Last(queue[i]) == v
  }

  /** Distances recorded so far are the lengths of shortest routes. */
  ghost predicate DistancesOk(edges: Edges, source: Version, dist: map<Version, nat>) {
    && source in dist && dist[source] == 1
    && forall v, q :: v in dist && IsRoute(edges, q, source, v) ==> dist[v] <= |q|
  }

  /** Every neighbour of an expanded version is known, at most one hop further away. */
  ghost predicate Expanded(edges: Edges, done: set<Version>, dist: map<Version, nat>) {
    forall u, v :: u in done && Hop(edges, u, v) ==> u in dist && v in dist && dist[v] <= dist[u] + 1
  }

  ghost predicate Partition(queue: seq<seq<Version>>, done: set<Version>, dist: map<Version, nat>) {
    && (forall v :: v in dist <==> v in done || InQueue(queue, v))
    && (forall v :: v in done ==> !InQueue(queue, v))
  }

  ghost predicate DoneWithin(done: set<Version>, dist: map<Version, nat>, level: nat) {
    forall u :: u in done ==> u in dist && dist[u] <= level
  }

  ghost predicate BfsInvariant(edges: Edges, source: Version, queue: seq<seq<Version>>,
                               done: set<Version>, dist: map<Version, nat>, level: nat)
  {
    && QueueOk(edges, source, queue, dist, level)
    && DistancesOk(edges, source, dist)
    && Expanded(edges, done, dist)
    && Partition(queue, done, dist)
    && DoneWithin(done, dist, level)
  }

  /** Along a route, as long as it is no longer than the queue's level, everything is known. */
  lemma {:induction false} RouteIsKnown(edges: Edges, source: Version, queue: seq<seq<Version>>,
                     done: set<Version>, dist: map<Version, nat>, level: nat, q: seq<Version>, target: Version, i: nat)
    requires BfsInvariant(edges, source, queue, done, dist, level)
    requires IsRoute(edges, q, source, target) && i < |q| && (queue == [] || |q| <= level)
    ensures q[i] in dist && dist[q[i]] <= i + 1
    decreases i
  {
    if i > 0 {
      RouteIsKnown(edges, source, queue, done, dist, level, q, target, i - 1);
      var u := q[i - 1];
      assert u in done || InQueue(queue, u);
      assert Hop(edges, q[i - 1], q[i - 1 + 1]);
    }
  }

  /** A version not seen yet is further away than the whole current level. */
  lemma UnseenIsFar(edges: Edges, source: Version, queue: seq<seq<Version>>,
                    done: set<Version>, dist: map<Version, nat>, level: nat, q: seq<Version>, v: Version)
    requires BfsInvariant(edges, source, queue, done, dist, level)
    requires v !in dist && IsRoute(edges, q, source, v)
    ensures queue != [] && |q| >= level + 1
  {
    if queue == [] || |q| <= level {
      RouteIsKnown(edges, source, queue, done, dist, level, q, v, |q| - 1);
    }
  }

  /** The version being expanded: the end of a shortest route that has left the queue. */
  ghost predicate HeadOk(edges: Edges, source: Version, head: seq<Version>, done: set<Version>,
          dist: map<Version, nat>)
  {
    && head != [] && IsRoute(edges, head, source, Last(head)) && NoDuplicates(head)
    && Last(head) !in done && Last(head) in dist && dist[Last(head)] == |head|
    && forall v :: v in head ==> v in dist
  }

  ghost predicate Followed(head: seq<Version>, followed: seq<(Version, Version)>, dist: map<Version, nat>) {
    forall e :: e in followed && e.0 == Last(head) && e.1.text != "" ==> e.1 in dist && dist[e.1] <= |head| + 1
  }

  /** The inner loop: `head` has left the queue, and the first edges have been followed. */
  ghost predicate Expanding(edges: Edges, source: Version, head: seq<Version>, followed: seq<(Version, Version)>,
                            queue: seq<seq<Version>>, done: set<Version>, dist: map<Version, nat>)
  {
    && QueueOk(edges, source, queue, dist, |head|)
    && DistancesOk(edges, source, dist)
    && Expanded(edges, done, dist)
    && Partition(queue, done + {Last(head)}, dist)
    && DoneWithin(done, dist, |head|)
    && HeadOk(edges, source, head, done, dist)
    && Followed(head, followed, dist)
  }

  lemma HeadLeavesQueue(queue: seq<seq<Version>>, v: Version)
    requires queue != []
    ensures InQueue(queue, v) <==> v == Last(queue[0]) || InQueue(queue[1..], v)
  {
    if InQueue(queue[1..], v) {
      var i :| 0 <= i < |queue[1..]| && Last(queue[1..][i]) == v;
      assert Last(queue[i + 1]) == v;
    }
    if InQueue(queue, v) && v != Last(queue[0]) {
      var i :| 0 <= i < |queue| && Last(queue[i]) == v;
      assert Last(queue[1..][i - 1]) == v;
    }
  }

  lemma PartitionWithoutHead(queue: seq<seq<Version>>, done: set<Version>, dist: map<Version, nat>)
    requires Partition(queue, done, dist) && queue != []
    requires forall j :: 0 < j < |queue| ==> Last(queue[0]) != Last(queue[j])
    ensures Partition(queue[1..], done + {Last(queue[0])}, dist)
    ensures Last(queue[0]) !in done
  {
    forall v ensures InQueue(queue, v) <==> v == Last(queue[0]) || InQueue(queue[1..], v) { HeadLeavesQueue(queue, v); }
  }

  lemma StartExpanding(edges: Edges, source: Version, queue: seq<seq<Version>>,
                       done: set<Version>, dist: map<Version, nat>, level: nat)
    requires BfsInvariant(edges, source, queue, done, dist, level) && queue != []
    ensures BfsInvariant(edges, source, queue, done, dist, |queue[0]|)
    ensures Expanding(edges, source, queue[0], [], queue[1..], done, dist)
  {
    PartitionWithoutHead(queue, done, dist);
    assert forall v :: v in queue[0] ==> v in dist;
    assert HeadOk(edges, source, queue[0], done, dist);
    QueueTail(edges, source, queue, dist, level);
    hide IsRoute, Hop, NoDuplicates, Partition, Expanded, QueueOk;
  }

  lemma QueueTail(edges: Edges, source: Version, queue: seq<seq<Version>>, dist: map<Version, nat>, level: nat)
    requires QueueOk(edges, source, queue, dist, level) && queue != []
    ensures QueueOk(edges, source, queue, dist, |queue[0]|) && QueueOk(edges, source, queue[1..], dist, |queue[0]|)
  {
    hide IsRoute, Hop, NoDuplicates;
  }

  /** Appending the newly seen v to the queue. */
  lemma EnqueueKeeps(edges: Edges, source: Version, head: seq<Version>, followed: seq<(Version, Version)>,
                     queue: seq<seq<Version>>, done: set<Version>, dist: map<Version, nat>, v: Version)
    requires Expanding(edges, source, head, followed, queue, done, dist)
    requires v !in dist && Hop(edges, Last(head), v)
    requires forall q :: IsRoute(edges, q, source, v) ==> |q| >= |head| + 1
    ensures Expanding(edges, source, head, followed, queue + [head + [v]], done, dist[v := |head| + 1])
  {
    var path := head + [v];
    assert IsRoute(edges, path, source, v) && NoDuplicates(path);
    NewPathKeepsQueue(edges, source, head, queue, dist, v);
    NewPathKeepsPartition(queue, path, done + {Last(head)}, dist, v);
    NewDistanceKeeps(edges, source, head, followed, done, dist, v);
  }

  lemma NewDistanceKeeps(edges: Edges, source: Version, head: seq<Version>, followed: seq<(Version, Version)>,
                         done: set<Version>, dist: map<Version, nat>, v: Version)
    requires DistancesOk(edges, source, dist) && Expanded(edges, done, dist) && DoneWithin(done, dist, |head|)
    requires HeadOk(edges, source, head, done, dist) && Followed(head, followed, dist)
    requires v !in dist && forall q :: IsRoute(edges, q, source, v) ==> |q| >= |head| + 1
    ensures var after := dist[v := |head| + 1];
      && DistancesOk(edges, source, after) && Expanded(edges, done, after) && DoneWithin(done, after, |head|)
      && HeadOk(edges, source, head, done, after) && Followed(head, followed, after)
  {
  }

  lemma NewPathKeepsPartition(queue: seq<seq<Version>>, path: seq<Version>, done: set<Version>,
          dist: map<Version, nat>, v: Version)
    requires Partition(queue, done, dist) && v !in dist && path != [] && Last(path) == v
    ensures Partition(queue + [path], done, dist[v := |path|])
  {
    forall u ensures InQueue(queue + [path], u) <==> InQueue(queue, u) || u == v {
      if InQueue(queue, u) {
        var i :| 0 <= i < |queue| && Last(queue[i]) == u;
        assert Last((queue + [path])[i]) == u;
      }
      assert Last((queue + [path])[|queue|]) == v;
    }
    assert v !in done && !InQueue(queue, v);
  }

  lemma NewPathKeepsQueue(edges: Edges, source: Version, head: seq<Version>, queue: seq<seq<Version>>,
                          dist: map<Version, nat>, v: Version)
    requires QueueOk(edges, source, queue, dist, |head|) && v !in dist
    requires IsRoute(edges, head + [v], source, v) && NoDuplicates(head + [v])
    requires forall u :: u in head ==> u in dist
    ensures QueueOk(edges, source, queue + [head + [v]], dist[v := |head| + 1], |head|)
  {
    var after := queue + [head + [v]];
    forall i | 0 <= i < |queue| ensures Last(queue[i]) != v {
      assert queue[i][|queue[i]| - 1] in queue[i];
    }
    forall i, u | 0 <= i < |after| && u in after[i] ensures u in dist[v := |head| + 1] {
      if i < |queue| { assert u in queue[i]; }
    }
  }

  lemma FinishExpanding(edges: Edges, source: Version, head: seq<Version>, order: seq<(Version, Version)>,
                        queue: seq<seq<Version>>, done: set<Version>, dist: map<Version, nat>)
    requires Expanding(edges, source, head, order, queue, done, dist)
    requires forall e :: e in order <==> e in edges
    ensures BfsInvariant(edges, source, queue, done + {Last(head)}, dist, |head|)
  {
    forall u, v | u in done + {Last(head)} && Hop(edges, u, v)
      ensures u in dist && v in dist && dist[v] <= dist[u] + 1 {
      if u == Last(head) { assert (u, v) in order; }
    }
  }

  /** A neighbour already seen is at most one hop beyond the head. */
  lemma FollowedIsKnown(edges: Edges, source: Version, head: seq<Version>, queue: seq<seq<Version>>,
                        done: set<Version>, dist: map<Version, nat>, v: Version)
    requires QueueOk(edges, source, queue, dist, |head|) && Partition(queue, done + {Last(head)}, dist)
    requires Last(head) in dist && dist[Last(head)] == |head| && DoneWithin(done, dist, |head|)
    ensures v in dist ==> dist[v] <= |head| + 1
  {
    if v in dist && v !in done && v != Last(head) {
      assert InQueue(queue, v);
      var i :| 0 <= i < |queue| && Last(queue[i]) == v;
    }
  }

  lemma FollowedOneMore(edges: Edges, source: Version, head: seq<Version>, followed: seq<(Version, Version)>,
                        queue: seq<seq<Version>>, done: set<Version>, dist: map<Version, nat>, e: (Version, Version))
    requires Expanding(edges, source, head, followed, queue, done, dist)
    requires e.0 == Last(head) && e.1.text != "" ==> e.1 in dist
    ensures Expanding(edges, source, head, followed + [e], queue, done, dist)
  {
    FollowedIsKnown(edges, source, head, queue, done, dist, e.1);
    forall f | f in followed + [e] ensures f in followed || f == e {}
  }

  /** The version that following e from `current` adds to the queue, if any. */
  function Discovered(e: (Version, Version), current: Version, visited: set<Version>): Option<Version> {
    var n := Neighbour(e, current);
    if n.Some? && n.value.text != "" && n.value !in visited then n else None
  }

  lemma FollowEdge(edges: Edges, source: Version, before: seq<seq<Version>>, dist0: map<Version, nat>,
                   head: seq<Version>, followed: seq<(Version, Version)>, queue: seq<seq<Version>>,
                   done: set<Version>, dist: map<Version, nat>, e: (Version, Version))
    requires Symmetric(edges) && e in edges
    requires BfsInvariant(edges, source, before, done, dist0, |head|) && dist0.Keys <= dist.Keys
    requires Expanding(edges, source, head, followed, queue, done, dist)
    ensures var d := Discovered(e, Last(head), dist.Keys);
      if d.Some? then Expanding(edges, source, head, followed + [e], queue + [head + [d.value]], done,
        dist[d.value := |head| + 1])
      else Expanding(edges, source, head, followed + [e], queue, done, dist)
  {
    var d := Discovered(e, Last(head), dist.Keys);
    if d.Some? {
      Unseen(edges, source, before, done, dist0, head, d.value);
      EnqueueKeeps(edges, source, head, followed, queue, done, dist, d.value);
      FollowedOneMore(edges, source, head, followed, queue + [head + [d.value]], done, dist[d.value := |head| + 1], e);
    } else {
      FollowedOneMore(edges, source, head, followed, queue, done, dist, e);
    }
  }

  /** The body of the inner loop: one stored edge. */
  method FollowOne(e: (Version, Version), head: seq<Version>, queue0: seq<seq<Version>>, visited0: set<Version>)
    returns (queue: seq<seq<Version>>, visited: set<Version>)
    requires |head| >= 1
    ensures var d := Discovered(e, Last(head), visited0);
      if d.Some? then queue == queue0 + [head + [d.value]] && visited == visited0 + {d.value}
      else queue == queue0 && visited == visited0
  {
    queue, visited := queue0, visited0;
    var neighbour := Discovered(e, head[|head| - 1], visited);
    if neighbour.Some? {
      visited := visited + {neighbour.value};
      queue := queue + [head + [neighbour.value]];
    }
  }

  /** The state of the inner loop, with the distances of the versions seen. */
  ghost predicate Searching(edges: Edges, source: Version, all: set<Version>, head: seq<Version>,
          followed: seq<(Version, Version)>,
                            queue: seq<seq<Version>>, visited: set<Version>, done: set<Version>,
                            first: map<Version, nat>, dist: map<Version, nat>)
  {
    && Expanding(edges, source, head, followed, queue, done, dist)
    && visited == dist.Keys <= all && first.Keys <= dist.Keys
  }

  lemma SearchOne(edges: Edges, source: Version, all: set<Version>, before: seq<seq<Version>>, head: seq<Version>,
                  followed: seq<(Version, Version)>, queue: seq<seq<Version>>, visited: set<Version>,
                    done: set<Version>,
                  first: map<Version, nat>, dist: map<Version, nat>, e: (Version, Version))
    requires Symmetric(edges) && e in edges && e.0 in all && e.1 in all
    requires BfsInvariant(edges, source, before, done, first, |head|)
    requires Searching(edges, source, all, head, followed, queue, visited, done, first, dist)
    ensures var d := Discovered(e, Last(head), visited);
      if d.Some?
      then Searching(edges, source, all, head, followed + [e], queue + [head + [d.value]], visited + {d.value}, done,
        first, dist[d.value := |head| + 1])
      else Searching(edges, source, all, head, followed + [e], queue, visited, done, first, dist)
  {
    hide BfsInvariant, Expanding, Symmetric;
    FollowEdge(edges, source, before, first, head, followed, queue, done, dist, e);
  }

  // ---- the order of the queue ----

  /** Of two paths of the same length, the earlier in the queue turns first. */
  ghost predicate InOrder(order: seq<(Version, Version)>, queue: seq<seq<Version>>) {
    forall i, j :: 0 <= i < j < |queue| && |queue[i]| == |queue[j]| ==> TurnsFirst(order, queue[i], queue[j])
  }

  ghost predicate AllFirst(edges: Edges, order: seq<(Version, Version)>, source: Version, queue: seq<seq<Version>>) {
    forall i :: 0 <= i < |queue| ==> IsFirst(edges, order, queue[i], source)
  }

  /** e is one hop longer than p, and what it comes from turns first. */
  ghost predicate ComesBefore(order: seq<(Version, Version)>, e: seq<Version>, p: seq<Version>) {
    |e| == |p| + 1 && TurnsFirst(order, e[..|p|], p)
  }

  /** Between two rounds of the search. */
  ghost predicate QueueOrder(edges: Edges, order: seq<(Version, Version)>, source: Version,
          queue: seq<seq<Version>>)
  {
    && InOrder(order, queue) && AllFirst(edges, order, source, queue)
    && forall i, j :: 0 <= i < |queue| && 0 <= j < |queue| && |queue[j]| == |queue[i]| + 1 ==>
      ComesBefore(order, queue[j], queue[i])
  }

  /** The path comes from the head, along one of the first k stored edges. */
  ghost predicate FromHead(order: seq<(Version, Version)>, k: nat, head: seq<Version>, e: seq<Version>)
    requires k <= |order|
  {
    |e| == |head| + 1 && e[..|head|] == head
      && exists j :: 0 <= j < k && Neighbour(order[j], Last(head)) == Some(Last(e))
  }

  /** Within a round: the head turns before what is as long, and after what the longer paths come from. */
  ghost predicate AroundHead(order: seq<(Version, Version)>, k: nat, head: seq<Version>, queue: seq<seq<Version>>)
    requires k <= |order|
  {
    && (forall i :: 0 <= i < |queue| && |queue[i]| == |head| ==> TurnsFirst(order, head, queue[i]))
    && (forall i :: 0 <= i < |queue| && |queue[i]| == |head| + 1 ==>
          ComesBefore(order, queue[i], head) || FromHead(order, k, head, queue[i]))
  }

  /** Where the first k stored edges lead from the head has been seen. */
  ghost predicate SeenSoFar(order: seq<(Version, Version)>, k: nat, head: seq<Version>, visited: set<Version>)
    requires k <= |order|
  {
    forall j, v :: 0 <= j < k && Neighbour(order[j], Last(head)) == Some(v) && v.text != "" ==> v in visited
  }

  ghost predicate RoundOrder(edges: Edges, order: seq<(Version, Version)>, k: nat, source: Version,
          head: seq<Version>, queue: seq<seq<Version>>, visited: set<Version>)
    requires k <= |order|
  {
    && InOrder(order, queue) && AllFirst(edges, order, source, queue)
    && AroundHead(order, k, head, queue) && SeenSoFar(order, k, head, visited)
  }

  lemma StartRound(edges: Edges, order: seq<(Version, Version)>, source: Version, queue: seq<seq<Version>>,
                   visited: set<Version>)
    requires queue != [] && QueueOrder(edges, order, source, queue)
    ensures RoundOrder(edges, order, 0, source, queue[0], queue[1..], visited)
  {
    hide TurnsFirst, IsFirst;
    var head, rest := queue[0], queue[1..];
    forall i | 0 <= i < |rest| ensures rest[i] == queue[i + 1] {}
    forall i | 0 <= i < |rest| && |rest[i]| == |head| + 1 ensures ComesBefore(order, rest[i], head) {
      assert ComesBefore(order, queue[i + 1], queue[0]);
    }
  }

  /** Whoever is as long as the head and as far on as a route of that length is turned to no earlier. */
  lemma EndRound(edges: Edges, order: seq<(Version, Version)>, source: Version, head: seq<Version>,
                 queue: seq<seq<Version>>, visited: set<Version>)
    requires RoundOrder(edges, order, |order|, source, head, queue, visited)
    requires forall i :: 0 <= i < |queue| ==> |head| <= |queue[i]| <= |head| + 1
    ensures QueueOrder(edges, order, source, queue)
  {
    hide TurnsFirst, IsFirst;
    forall i, j | 0 <= i < |queue| && 0 <= j < |queue| && |queue[j]| == |queue[i]| + 1
      ensures ComesBefore(order, queue[j], queue[i])
    {
      assert TurnsFirst(order, head, queue[i]);
      if ComesBefore(order, queue[j], head) {
        TurnsTransitive(order, queue[j][..|head|], head, queue[i]);
      }
    }
  }

  /** The first route to a version just seen goes through the head. */
  lemma FirstThroughHead(edges: Edges, order: seq<(Version, Version)>, source: Version, before: seq<seq<Version>>,
                         done: set<Version>, dist: map<Version, nat>, v: Version)
    requires before != [] && BfsInvariant(edges, source, before, done, dist, |before[0]|)
    requires QueueOrder(edges, order, source, before) && v !in dist
    ensures IsFirst(edges, order, before[0] + [v], source)
  {
    hide BfsInvariant, QueueOrder, IsRoute, TurnsFirst;
    var path := before[0] + [v];
    forall q | IsRoute(edges, q, source, v) && |q| == |path| ensures q == path || TurnsFirst(order, path, q) {
      OtherRoute(edges, order, source, before, done, dist, v, q);
    }
  }

  lemma OtherRoute(edges: Edges, order: seq<(Version, Version)>, source: Version, before: seq<seq<Version>>,
                   done: set<Version>, dist: map<Version, nat>, v: Version, q: seq<Version>)
    requires before != [] && BfsInvariant(edges, source, before, done, dist, |before[0]|)
    requires QueueOrder(edges, order, source, before) && v !in dist
    requires IsRoute(edges, q, source, v) && |q| == |before[0]| + 1
    ensures q == before[0] + [v] || TurnsFirst(order, before[0] + [v], q)
  {
    hide BfsInvariant, QueueOrder, IsRoute, TurnsFirst;
    var head, r := before[0], q[..|q| - 1];
    NonEmptyHead(edges, source, before, done, dist);
    RouteInit(edges, q, source, v);
    RouteEnds(edges, q, source, v);
    var i := LastHopFrom(edges, source, before, done, dist, r, v);
    EntryIsFirst(edges, order, source, before, i, r);
    if i > 0 && r != before[i] { TurnsTransitive(order, head, before[i], r); }
    if r != head { TurnsExtend(order, head, r, v, v); }
  }

  lemma NonEmptyHead(edges: Edges, source: Version, before: seq<seq<Version>>, done: set<Version>,
                     dist: map<Version, nat>)
    requires before != [] && BfsInvariant(edges, source, before, done, dist, |before[0]|)
    ensures |before[0]| >= 1
  {
    hide DistancesOk, Expanded, Partition, DoneWithin, IsRoute;
  }

  lemma RouteEnds(edges: Edges, q: seq<Version>, source: Version, v: Version)
    requires IsRoute(edges, q, source, v)
    ensures q == q[..|q| - 1] + [v]
  {}

  lemma EntryIsFirst(edges: Edges, order: seq<(Version, Version)>, source: Version, before: seq<seq<Version>>, i: nat,
                     r: seq<Version>)
    requires QueueOrder(edges, order, source, before) && i < |before| && |before[i]| == |r| == |before[0]|
    requires IsRoute(edges, r, source, Last(before[i]))
    ensures r == before[i] || TurnsFirst(order, before[i], r)
    ensures i > 0 ==> TurnsFirst(order, before[0], before[i])
  {
    hide IsRoute, TurnsFirst;
    assert IsFirst(edges, order, before[i], source);
  }

  lemma RouteInit(edges: Edges, q: seq<Version>, source: Version, v: Version)
    requires IsRoute(edges, q, source, v) && |q| >= 2
    ensures IsRoute(edges, q[..|q| - 1], source, Last(q[..|q| - 1])) && Hop(edges, Last(q[..|q| - 1]), v)
  {
    var r := q[..|q| - 1];
    forall i | 0 <= i < |r| - 1 ensures Hop(edges, r[i], r[i + 1]) {
      assert Hop(edges, q[i], q[i + 1]);
    }
    assert Hop(edges, q[|q| - 2], q[|q| - 2 + 1]);
  }

  lemma LastHopFrom(edges: Edges, source: Version, before: seq<seq<Version>>, done: set<Version>,
                    dist: map<Version, nat>, r: seq<Version>, v: Version) returns (i: nat)
    requires before != [] && BfsInvariant(edges, source, before, done, dist, |before[0]|) && v !in dist
    requires IsRoute(edges, r, source, Last(r)) && |r| == |before[0]| && Hop(edges, Last(r), v)
    ensures i < |before| && Last(before[i]) == Last(r) && |before[i]| == |r|
  {
    RouteIsKnown(edges, source, before, done, dist, |before[0]|, r, Last(r), |r| - 1);
    assert InQueue(before, Last(r));
    i :| 0 <= i < |before| && Last(before[i]) == Last(r);
  }

  /** A newly seen version goes behind all paths as long as its own. */
  lemma NewcomerInOrder(edges: Edges, order: seq<(Version, Version)>, k: nat, source: Version, head: seq<Version>,
                        queue: seq<seq<Version>>, visited: set<Version>, v: Version)
    requires k < |order| && head != [] && RoundOrder(edges, order, k, source, head, queue, visited)
    requires Neighbour(order[k], Last(head)) == Some(v) && v.text != "" && v !in visited
    requires IsFirst(edges, order, head + [v], source)
    ensures RoundOrder(edges, order, k + 1, source, head, queue + [head + [v]], visited + {v})
  {
    var path, after := head + [v], queue + [head + [v]];
    hide IsFirst, IsRoute;
    forall i | 0 <= i < |queue| && |queue[i]| == |path| ensures TurnsFirst(order, queue[i], path) {
      var e := queue[i];
      if ComesBefore(order, e, head) {
        TurnsExtend(order, e[..|head|], head, Last(e), v);
        assert e == e[..|head|] + [Last(e)];
      } else {
        var j :| 0 <= j < k && Neighbour(order[j], Last(head)) == Some(Last(e));
        assert LeadsFirst(order, Last(head), Last(e), v);
        assert e[..|head| - 1 + 1] == path[..|head| - 1 + 1] && PartsAt(order, e, path, |head| - 1);
      }
    }
    hide TurnsFirst, Neighbour;
    assert path[..|head|] == head && Last(path) == v;
    assert FromHead(order, k + 1, head, path);
    forall i | 0 <= i < |queue| && FromHead(order, k, head, queue[i]) ensures FromHead(order, k + 1, head, queue[i]) {}
  }

  lemma NothingNew(edges: Edges, order: seq<(Version, Version)>, k: nat, source: Version, head: seq<Version>,
                   queue: seq<seq<Version>>, visited: set<Version>)
    requires k < |order| && RoundOrder(edges, order, k, source, head, queue, visited)
    requires Discovered(order[k], Last(head), visited).None?
    ensures RoundOrder(edges, order, k + 1, source, head, queue, visited)
  {
    hide IsFirst, TurnsFirst;
    forall i | 0 <= i < |queue| && FromHead(order, k, head, queue[i]) ensures FromHead(order, k + 1, head, queue[i]) {}
  }

  lemma TurnOne(edges: Edges, order: seq<(Version, Version)>, k: nat, source: Version, before: seq<seq<Version>>,
                head: seq<Version>, queue: seq<seq<Version>>, visited: set<Version>, done: set<Version>,
                dist: map<Version, nat>)
    requires before != [] && head == before[0] && head != []
    requires BfsInvariant(edges, source, before, done, dist, |head|) && QueueOrder(edges, order, source, before)
    requires k < |order| && RoundOrder(edges, order, k, source, head, queue, visited) && dist.Keys <= visited
    ensures var d := Discovered(order[k], Last(head), visited);
      if d.Some? then
        RoundOrder(edges, order, k + 1, source, head, queue + [head + [d.value]], visited + {d.value})
      else RoundOrder(edges, order, k + 1, source, head, queue, visited)
  {
    hide BfsInvariant, QueueOrder, RoundOrder;
    var d := Discovered(order[k], Last(head), visited);
    if d.Some? {
      FirstThroughHead(edges, order, source, before, done, dist, d.value);
      NewcomerInOrder(edges, order, k, source, head, queue, visited, d.value);
    } else {
      NothingNew(edges, order, k, source, head, queue, visited);
    }
  }

  /** The state of the inner loop after the first k stored edges. */
  ghost predicate InRound(edges: Edges, order: seq<(Version, Version)>, k: nat, source: Version, all: set<Version>,
                          before: seq<seq<Version>>, head: seq<Version>, queue: seq<seq<Version>>,
                          visited: set<Version>, done: set<Version>, first: map<Version, nat>, dist: map<Version, nat>)
  {
    && Symmetric(edges) && (forall e :: e in order ==> e in edges && e.0 in all && e.1 in all)
    && before != [] && head == before[0] && head != [] && QueueOrder(edges, order, source, before)
    && BfsInvariant(edges, source, before, done, first, |head|)
    && k <= |order| && Searching(edges, source, all, head, order[..k], queue, visited, done, first, dist)
    && RoundOrder(edges, order, k, source, head, queue, visited)
  }

  lemma RoundStep(edges: Edges, order: seq<(Version, Version)>, k: nat, source: Version, all: set<Version>,
                  before: seq<seq<Version>>, head: seq<Version>, queue: seq<seq<Version>>,
                  visited: set<Version>, done: set<Version>, first: map<Version, nat>, dist: map<Version, nat>)
    requires k < |order| && InRound(edges, order, k, source, all, before, head, queue, visited, done, first, dist)
    ensures var d := Discovered(order[k], Last(head), visited);
      if d.Some?
      then InRound(edges, order, k + 1, source, all, before, head, queue + [head + [d.value]], visited + {d.value},
        done, first, dist[d.value := |head| + 1])
      else InRound(edges, order, k + 1, source, all, before, head, queue, visited, done, first, dist)
  {
    hide BfsInvariant, Searching, Symmetric, Discovered, Last, QueueOrder, RoundOrder, Neighbour;
    assert order[k] in order && order[..k + 1] == order[..k] + [order[k]];
    SeenIsVisited(edges, source, all, head, order[..k], queue, visited, done, first, dist);
    SearchOne(edges, source, all, before, head, order[..k], queue, visited, done, first, dist, order[k]);
    TurnOne(edges, order, k, source, before, head, queue, visited, done, first);
  }

  lemma StartInRound(edges: Edges, order: seq<(Version, Version)>, source: Version, all: set<Version>,
                     queue: seq<seq<Version>>, visited: set<Version>, done: set<Version>, dist: map<Version, nat>)
    requires Symmetric(edges) && forall e :: e in order ==> e in edges && e.0 in all && e.1 in all
    requires queue != [] && queue[0] != [] && QueueOrder(edges, order, source, queue)
    requires BfsInvariant(edges, source, queue, done, dist, |queue[0]|)
    requires Expanding(edges, source, queue[0], [], queue[1..], done, dist) && visited == dist.Keys <= all
    ensures InRound(edges, order, 0, source, all, queue, queue[0], queue[1..], visited, done, dist, dist)
  {
    hide QueueOrder, BfsInvariant, Expanding, Symmetric, RoundOrder;
    StartRound(edges, order, source, queue, visited);
    assert order[..0] == [];
  }

  lemma EndInRound(edges: Edges, order: seq<(Version, Version)>, source: Version, all: set<Version>,
                   before: seq<seq<Version>>, head: seq<Version>, queue: seq<seq<Version>>, visited: set<Version>,
                   done: set<Version>, first: map<Version, nat>, dist: map<Version, nat>)
    requires InRound(edges, order, |order|, source, all, before, head, queue, visited, done, first, dist)
    requires forall e :: e in order <==> e in edges
    ensures BfsInvariant(edges, source, queue, done + {Last(head)}, dist, |head|)
    ensures QueueOrder(edges, order, source, queue)
    ensures visited == dist.Keys <= all && first.Keys <= dist.Keys && Last(head) in visited
  {
    hide QueueOrder, BfsInvariant, RoundOrder, Symmetric, QueueOk, DistancesOk, Expanded, Partition, DoneWithin,
      Followed;
    assert order[..|order|] == order;
    FinishExpanding(edges, source, head, order, queue, done, dist);
    LengthsOk(edges, source, queue, dist, |head|);
    EndRound(edges, order, source, head, queue, visited);
  }

  lemma LengthsOk(edges: Edges, source: Version, queue: seq<seq<Version>>, dist: map<Version, nat>, level: nat)
    requires QueueOk(edges, source, queue, dist, level)
    ensures forall i :: 0 <= i < |queue| ==> level <= |queue[i]| <= level + 1
  {}

  lemma SeenIsVisited(edges: Edges, source: Version, all: set<Version>, head: seq<Version>,
                      followed: seq<(Version, Version)>, queue: seq<seq<Version>>, visited: set<Version>,
                      done: set<Version>, first: map<Version, nat>, dist: map<Version, nat>)
    requires Searching(edges, source, all, head, followed, queue, visited, done, first, dist)
    ensures first.Keys <= visited
  {}

  /** The inner loop of the search: put the unseen neighbours of the head's end in the queue. */
  method FollowEdges(order: seq<(Version, Version)>, ghost edges: Edges, ghost source: Version, ghost all: set<Version>,
                     head: seq<Version>, queue0: seq<seq<Version>>, visited0: set<Version>,
                     ghost before: seq<seq<Version>>, ghost done: set<Version>, ghost dist0: map<Version, nat>)
    returns (queue: seq<seq<Version>>, visited: set<Version>, ghost dist: map<Version, nat>)
    requires head != [] && InRound(edges, order, 0, source, all, before, head, queue0, visited0, done, dist0, dist0)
    ensures InRound(edges, order, |order|, source, all, before, head, queue, visited, done, dist0, dist)
  {
    hide *;
    queue, visited, dist := queue0, visited0, dist0;
    for k := 0 to |order|
      invariant InRound(edges, order, k, source, all, before, head, queue, visited, done, dist0, dist)
    {
      RoundStep(edges, order, k, source, all, before, head, queue, visited, done, dist0, dist);
      ghost var d := Discovered(order[k], Last(head), visited);
      queue, visited := FollowOne(order[k], head, queue, visited);
      dist := if d.Some? then dist[d.value := |head| + 1] else dist;
    }
  }

  lemma Unseen(edges: Edges, source: Version, before: seq<seq<Version>>, done: set<Version>, dist: map<Version, nat>,
               head: seq<Version>, v: Version)
    requires BfsInvariant(edges, source, before, done, dist, |head|) && v !in dist
    ensures forall q :: IsRoute(edges, q, source, v) ==> |q| >= |head| + 1
  {
    forall q | IsRoute(edges, q, source, v) ensures |q| >= |head| + 1 {
      UnseenIsFar(edges, source, before, done, dist, |head|, q, v);
    }
  }

  /** `_resolve_path`, given the registered versions and the step keys in dictionary order. */
  method ResolvePath(versions: seq<Version>, order: seq<(Version, Version)>, ghost edges: Edges, source: Version,
          target: Version)
    returns (path: Option<seq<Version>>)
    requires forall e :: e in order <==> e in edges
    requires Symmetric(edges) && forall u, v :: (u, v) in edges ==> u in versions && v in versions
    ensures path.None? <==> source !in versions || target !in versions || !Connected(edges, source, target)
    ensures path.Some? ==> IsChosen(edges, order, path.value, source, target)
  {
    hide QueueOrder, RoundOrder, InRound, BfsInvariant, Connected, IsChosen;
    if source !in versions || target !in versions {
      return None;
    }
    var queue, visited := [[source]], {source};
    ghost var done: set<Version>, dist: map<Version, nat> := {}, map[source := 1];
    ghost var level: nat := 1;
    InitialSearch(edges, source);
    InitialOrder(edges, order, source);
    ghost var all := set v | v in versions;
    while queue != []
      invariant BfsInvariant(edges, source, queue, done, dist, level) && QueueOrder(edges, order, source, queue)
      invariant visited == dist.Keys <= all && done <= visited && target !in done
      decreases |all - done|
    {
      var head := queue[0];
      ghost var before := queue;
      StartExpanding(edges, source, queue, done, dist, level);
      if head[|head| - 1] == target {
        HeadIsChosen(edges, order, source, queue, done, dist);
        return Some(head);
      }
      StartInRound(edges, order, source, all, queue, visited, done, dist);
      ghost var first := dist;
      queue, visited, dist := FollowEdges(order, edges, source, all, head, queue[1..], visited, queue, done, dist);
      EndInRound(edges, order, source, all, before, head, queue, visited, done, first, dist);
      Progress(all, done, Last(head));
      done, level := done + {Last(head)}, |head|;
    }
    Exhausted(edges, source, done, dist, level, target);
    return None;
  }

  lemma Progress(all: set<Version>, done: set<Version>, v: Version)
    requires v in all && v !in done
    ensures |all - (done + {v})| < |all - done|
  {
    assert all - done == (all - (done + {v})) + {v};
  }

  lemma HeadIsChosen(edges: Edges, order: seq<(Version, Version)>, source: Version, queue: seq<seq<Version>>,
                     done: set<Version>, dist: map<Version, nat>)
    requires queue != [] && QueueOrder(edges, order, source, queue)
    requires DistancesOk(edges, source, dist) && HeadOk(edges, source, queue[0], done, dist)
    ensures IsChosen(edges, order, queue[0], source, Last(queue[0])) && Connected(edges, source, Last(queue[0]))
  {
    hide IsRoute;
  }

  lemma Exhausted(edges: Edges, source: Version, done: set<Version>, dist: map<Version, nat>, level: nat,
          target: Version)
    requires BfsInvariant(edges, source, [], done, dist, level) && target !in done
    ensures !Connected(edges, source, target)
  {
    assert !InQueue([], target);
    forall q | IsRoute(edges, q, source, target) ensures false {
      RouteIsKnown(edges, source, [], done, dist, level, q, target, |q| - 1);
    }
  }

  lemma InitialOrder(edges: Edges, order: seq<(Version, Version)>, source: Version)
    ensures QueueOrder(edges, order, source, [[source]])
  {}

  lemma InitialSearch(edges: Edges, source: Version)
    ensures BfsInvariant(edges, source, [[source]], {}, map[source := 1], 1)
  {
    assert Last([[source]][0]) == source;
  }
}
