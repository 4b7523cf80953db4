/** src/queue/priority.py: scores across projects, ranking, and the slots handed out. */
module Ranking {
  import opened Arithmetic
  import opened Sorting
  import opened Wrappers

  datatype ProjectId = ProjectId(name: string)

  /** Times are seconds on one clock. */
  datatype ProjectWeight = ProjectWeight(project: ProjectId, priority: int, deadline: Option<real>)
  datatype Task = Task(id: nat, project: ProjectId, priority: int)
  datatype RankedTask = RankedTask(task: Task, score: real)

  const HOUR: real := 3600.0

  function DeadlineBonus(deadline: Option<real>, now: real): real {
    if deadline.None? then 0.0
    else
      var remaining := deadline.value - now;
      if remaining <= 0.0 then 50.0
      else if remaining <= 24.0 * HOUR then 30.0
      else if remaining <= 72.0 * HOUR then 15.0
      else if remaining <= 168.0 * HOUR then 5.0
      else 0.0
  }

  /** project_priority * 10 + task_priority + deadline_bonus, with priority 5 for unknown projects. */
  function Score(weights: map<ProjectId, ProjectWeight>, task: Task, now: real): real {
    if task.project in weights then
      var weight := weights[task.project];
      weight.priority as real * 10.0 + task.priority as real + DeadlineBonus(weight.deadline, now)
    else 50.0 + task.priority as real
  }

  // ---- what the score weighs ----

  /** The deadline is at most so many seconds away. */
  predicate DueWithin(deadline: Option<real>, now: real, seconds: real) {
    deadline.Some? && deadline.value <= now + seconds
  }

  /** The bonus for each of the intervals: overdue, a day, three days, a week, and beyond. */
  lemma BonusIff(deadline: Option<real>, now: real)
    ensures var bonus := DeadlineBonus(deadline, now);
      && (bonus == 50.0 <==> DueWithin(deadline, now, 0.0))
      && (bonus == 30.0 <==> DueWithin(deadline, now, 86400.0) && !DueWithin(deadline, now, 0.0))
      && (bonus == 15.0 <==> DueWithin(deadline, now, 259200.0) && !DueWithin(deadline, now, 86400.0))
      && (bonus == 5.0 <==> DueWithin(deadline, now, 604800.0) && !DueWithin(deadline, now, 259200.0))
      && (bonus == 0.0 <==> !DueWithin(deadline, now, 604800.0))
  {}

  /** A project nobody has weighted counts like one of priority 5 without a deadline. */
  lemma UnknownProjectIsAverage(weights: map<ProjectId, ProjectWeight>, task: Task, now: real)
    requires task.project !in weights
    ensures var weighted := weights[task.project := ProjectWeight(task.project, 5, None)];
      Score(weights, task, now) == Score(weighted, task, now)
  {}

  /** Of two tasks of weighted projects the first scores higher exactly if ten times its lead in project
      priority, its lead in task priority and its lead in bonus add up to more than nothing. */
  lemma ScoresHigherIff(weights: map<ProjectId, ProjectWeight>, a: Task, b: Task, now: real)
    requires a.project in weights && b.project in weights
    ensures var (p, q) := (weights[a.project], weights[b.project]);
      Score(weights, a, now) > Score(weights, b, now) <==>
        (10 * (p.priority - q.priority) + (a.priority - b.priority)) as real
          + (DeadlineBonus(p.deadline, now) - DeadlineBonus(q.deadline, now)) > 0.0
  {}

  /** A step of project priority outweighs nine of task priority, unless a deadline is nearer. */
  lemma ProjectOutweighs(weights: map<ProjectId, ProjectWeight>, a: Task, b: Task, now: real)
    requires a.project in weights && b.project in weights
    requires weights[a.project].priority > weights[b.project].priority && b.priority <= a.priority + 9
    requires forall s :: DueWithin(weights[b.project].deadline, now, s) ==>
      DueWithin(weights[a.project].deadline, now, s)
    ensures Score(weights, a, now) > Score(weights, b, now)
  {
    BonusIff(weights[a.project].deadline, now);
    BonusIff(weights[b.project].deadline, now);
    SoonerBonus(weights[a.project].deadline, weights[b.project].deadline, now);
  }

  /** A nearer deadline never has the lower bonus. */
  lemma SoonerBonus(sooner: Option<real>, later: Option<real>, now: real)
    requires forall s :: DueWithin(later, now, s) ==> DueWithin(sooner, now, s)
    ensures DeadlineBonus(sooner, now) >= DeadlineBonus(later, now)
  {
    assert DueWithin(later, now, 0.0) ==> DueWithin(sooner, now, 0.0);
    assert DueWithin(later, now, 86400.0) ==> DueWithin(sooner, now, 86400.0);
    assert DueWithin(later, now, 259200.0) ==> DueWithin(sooner, now, 259200.0);
    assert DueWithin(later, now, 604800.0) ==> DueWithin(sooner, now, 604800.0);
    BonusIff(sooner, now);
    BonusIff(later, now);
  }

  function Scored(weights: map<ProjectId, ProjectWeight>, tasks: seq<Task>, now: real): (r: seq<RankedTask>)
    ensures |r| == |tasks|
    ensures forall i :: 0 <= i < |r| ==> r[i].task == tasks[i] && r[i].score == Score(weights, tasks[i], now)
  {
    seq(|tasks|, i requires 0 <= i < |tasks| => RankedTask(tasks[i], Score(weights, tasks[i], now)))
  }

  function ByScore(): (RankedTask, RankedTask) -> bool {
    (x: RankedTask, y: RankedTask) => x.score > y.score
  }

  function Ranked(weights: map<ProjectId, ProjectWeight>, tasks: seq<Task>, now: real): (r: seq<RankedTask>)
    ensures |r| == |tasks|
  {
    StableSortCorrect(ByScore(), Scored(weights, tasks, now));
    StableSort(ByScore(), Scored(weights, tasks, now))
  }

  /** Any score-descending rearrangement that leaves ties as they were is the ranking, whatever
      stable sort computes it. */
  lemma RankingIsDetermined(weights: map<ProjectId, ProjectWeight>, tasks: seq<Task>, now: real, other: seq<RankedTask>)
    requires Sorted(ByScore(), other)
    requires forall x :: TiesWith(ByScore(), x, other) == TiesWith(ByScore(), x, Scored(weights, tasks, now))
    ensures other == Ranked(weights, tasks, now)
  {
    StableSortCorrect(ByScore(), Scored(weights, tasks, now));
    StableSortUnique(ByScore(), other, Ranked(weights, tasks, now));
  }

  function Total(s: seq<RankedTask>): real {
    if s == [] then 0.0 else s[0].score + Total(s[1..])
  }

  /** The elements of s that the mask selects. */
  function Select(s: seq<RankedTask>, mask: seq<bool>): seq<RankedTask>
    requires |s| == |mask|
  {
    if s == [] then [] else (if mask[0] then [s[0]] else []) + Select(s[1..], mask[1..])
  }

  /** Python's `s[:n]`, a negative n counting from the end. */
  function SliceLength(length: nat, n: int): nat {
    if n >= 0 then if n <= length then n else length
    else if length + n >= 0 then length + n else 0
  }

  /** The element at place i is taken exactly if it is among the first n; for a negative n, exactly if
      at least -n elements come after it. */
  lemma SliceTakes(length: nat, n: int, i: nat)
    ensures i < SliceLength(length, n) <==> i < length && (if n >= 0 then i < n else i + -n < length)
  {}

  // ---- the selection bound, by comparing every score with the last one handed a slot ----

  /** How far the scores exceed the threshold; those below it count as nothing. */
  function Excess(s: seq<RankedTask>, threshold: real): real {
    if s == [] then 0.0
    else (if s[0].score > threshold then s[0].score - threshold else 0.0) + Excess(s[1..], threshold)
  }

  lemma {:induction false} SelectionBound(s: seq<RankedTask>, mask: seq<bool>, threshold: real)
    requires |s| == |mask|
    ensures Total(Select(s, mask)) <= Excess(s, threshold) + Times(threshold, |Select(s, mask)|)
  {
    if s != [] {
      SelectionBound(s[1..], mask[1..], threshold);
      var rest := Select(s[1..], mask[1..]);
      if mask[0] {
        assert Select(s, mask)[1..] == rest && |Select(s, mask)| == |rest| + 1;
      } else {
        assert Select(s, mask) == rest;
      }
    }
  }

  lemma {:induction false} InsertExcess(x: RankedTask, s: seq<RankedTask>, threshold: real)
    ensures Excess(Insert(ByScore(), x, s), threshold) == Excess([x], threshold) + Excess(s, threshold)
  {
    if s != [] {
      if x.score > s[0].score {
        assert ([x] + s)[1..] == s;
      } else {
        InsertExcess(x, s[1..], threshold);
        assert ([s[0]] + Insert(ByScore(), x, s[1..]))[1..] == Insert(ByScore(), x, s[1..]);
      }
    }
  }

  lemma {:induction false} ExcessAppend(s: seq<RankedTask>, x: RankedTask, threshold: real)
    ensures Excess(s + [x], threshold) == Excess(s, threshold) + Excess([x], threshold)
  {
    if s == [] {
      assert s + [x] == [x];
    } else {
      ExcessAppend(s[1..], x, threshold);
      assert (s + [x])[1..] == s[1..] + [x];
    }
  }

  lemma {:induction false} SortKeepsExcess(s: seq<RankedTask>, threshold: real)
    ensures Excess(StableSort(ByScore(), s), threshold) == Excess(s, threshold)
  {
    if s != [] {
      var init, last := s[..|s| - 1], s[|s| - 1];
      SortKeepsExcess(init, threshold);
      InsertExcess(last, StableSort(ByScore(), init), threshold);
      ExcessAppend(init, last, threshold);
      assert s == init + [last];
    }
  }

  lemma {:induction false} TopReachesBound(s: seq<RankedTask>, k: nat, threshold: real)
    requires k <= |s|
    requires forall i :: 0 <= i < |s| ==> if i < k then s[i].score >= threshold else s[i].score <= threshold
    ensures Total(s[..k]) == Excess(s, threshold) + Times(threshold, k)
  {
    if s != [] {
      if k == 0 {
        TopReachesBound(s[1..], 0, threshold);
      } else {
        TopReachesBound(s[1..], k - 1, threshold);
        assert s[..k][1..] == s[1..][..k - 1];
      }
    }
  }

  lemma NothingSelected(s: seq<RankedTask>, mask: seq<bool>)
    requires |s| == |mask| && |Select(s, mask)| == 0
    ensures Total(Select(s, mask)) == 0.0
  {}

  lemma SortedAroundThreshold(ranked: seq<RankedTask>, k: nat)
    requires Sorted(ByScore(), ranked) && 0 < k <= |ranked|
    ensures forall i :: 0 <= i < |ranked| ==>
      if i < k then ranked[i].score >= ranked[k - 1].score else ranked[i].score <= ranked[k - 1].score
  {
    forall i | 0 <= i < |ranked|
      ensures if i < k then ranked[i].score >= ranked[k - 1].score else ranked[i].score <= ranked[k - 1].score
    {
      assert i < k - 1 ==> !ByScore()(ranked[k - 1], ranked[i]);
      assert i > k - 1 ==> !ByScore()(ranked[i], ranked[k - 1]);
    }
  }

  /** No other choice of as many tasks has a higher total score than the head of the ranking. */
  lemma TopIsOptimal(s: seq<RankedTask>, k: nat, mask: seq<bool>)
    requires |mask| == |s| && |Select(s, mask)| == k <= |StableSort(ByScore(), s)|
    ensures Total(Select(s, mask)) <= Total(StableSort(ByScore(), s)[..k])
  {
    var ranked := StableSort(ByScore(), s);
    StableSortCorrect(ByScore(), s);
    if k == 0 {
      NothingSelected(s, mask);
    } else {
      var threshold := ranked[k - 1].score;
      SortedAroundThreshold(ranked, k);
      SelectionBound(s, mask, threshold);
      SortKeepsExcess(s, threshold);
      TopReachesBound(ranked, k, threshold);
    }
  }

  predicate IsLastFor(weights: seq<ProjectWeight>, i: nat)
    requires i < |weights|
  {
    forall j :: i < j < |weights| ==> weights[j].project != weights[i].project
  }

  class PriorityRanker {
    var weights: map<ProjectId, ProjectWeight>
    const maxSlots: int

    /** The last weight given for a project counts. */
    constructor (projectWeights: seq<ProjectWeight>, maxSlots: int)
      ensures this.maxSlots == maxSlots
      ensures forall p :: p in weights ==> weights[p] in projectWeights && weights[p].project == p
      ensures forall i :: 0 <= i < |projectWeights| ==> projectWeights[i].project in weights
      ensures forall i :: 0 <= i < |projectWeights| && IsLastFor(projectWeights, i) ==>
        weights[projectWeights[i].project] == projectWeights[i]
    {
      this.maxSlots := maxSlots;
      weights := map[];
      new;
      for i := 0 to |projectWeights|
        invariant forall p :: p in weights ==> weights[p] in projectWeights && weights[p].project == p
        invariant forall k :: 0 <= k < i ==> projectWeights[k].project in weights
        invariant forall k :: 0 <= k < i && IsLastFor(projectWeights, k) ==>
          weights[projectWeights[k].project] == projectWeights[k]
      {
        SetProjectWeight(projectWeights[i]);
      }
    }

    method SetProjectWeight(weight: ProjectWeight)
      modifies `weights
      ensures weights == old(weights)[weight.project := weight]
    {
      weights := weights[weight.project := weight];
    }

    /** `rank`: every task once with its score, highest first, ties as given. */
    method Rank(tasks: seq<Task>, now: real) returns (ranked: seq<RankedTask>)
      ensures multiset(ranked) == multiset(Scored(weights, tasks, now))
      ensures forall i, j :: 0 <= i < j < |ranked| ==> ranked[i].score >= ranked[j].score
      ensures forall x :: TiesWith(ByScore(), x, ranked) == TiesWith(ByScore(), x, Scored(weights, tasks, now))
      ensures ranked == Ranked(weights, tasks, now)
    {
      ranked := [];
      for i := 0 to |tasks|
        invariant ranked == Scored(weights, tasks, now)[..i]
      {
        ranked := ranked + [RankedTask(tasks[i], Score(weights, tasks[i], now))];
      }
      assert Scored(weights, tasks, now)[..|tasks|] == Scored(weights, tasks, now);
      StableSortCorrect(ByScore(), ranked);
      ranked := StableSort(ByScore(), ranked);
      forall i, j | 0 <= i < j < |ranked| ensures ranked[i].score >= ranked[j].score {
        assert !ByScore()(ranked[j], ranked[i]);
      }
    }

    /** `allocate_slots`: as many tasks as there are slots, from the head of the ranking, and with the
        highest total score possible. */
    method AllocateSlots(tasks: seq<Task>, now: real) returns (chosen: seq<Task>)
      ensures |chosen| == SliceLength(|tasks|, maxSlots)
      ensures forall i :: 0 <= i < |chosen| ==> chosen[i] == Ranked(weights, tasks, now)[i].task
      ensures forall mask | |mask| == |tasks| && |Select(Scored(weights, tasks, now), mask)| == |chosen| ::
        Total(Select(Scored(weights, tasks, now), mask)) <= Total(Ranked(weights, tasks, now)[..|chosen|])
    {
      var all := Rank(tasks, now);
      var n := SliceLength(|all|, maxSlots);
      ghost var scored := Scored(weights, tasks, now);
      forall mask | |mask| == |tasks| && |Select(scored, mask)| == n
        ensures Total(Select(scored, mask)) <= Total(all[..n]) {
        TopIsOptimal(scored, n, mask);
      }
      chosen := seq(n, i requires 0 <= i < n => all[i].task);
    }
  }
}
