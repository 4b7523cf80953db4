/** src/gate/consensus.py: the reviews of several models resolved into one decision. */
module Consensus {
  import opened Arithmetic
  import opened Gates
  import opened Sorting
  import opened Wrappers

  datatype ModelId = ModelId(name: string)

  datatype Severity = LOW | MEDIUM | HIGH | CRITICAL

  /** A flag as a model reports it; None stands for a severity outside the four known ones. */
  datatype RawFlag = RawFlag(severity: Option<Severity>, category: string, detail: string)

  datatype ModelReview = ModelReview(model: ModelId, score: int, gate: GateDecision, flags: seq<RawFlag>, failed: bool)

  datatype Strategy = MAJORITY | UNANIMOUS | STRICTEST

  datatype Config = Config(strategy: Strategy, minAgreement: real, divergence: real)

  /** `variance` is the square of the deviation that the source stores. */
  datatype Resolution = Resolution(
    decision: GateDecision,
    score: real,
    reached: bool,
    variance: real,
    dissenting: seq<ModelId>)

  function Successful(reviews: seq<ModelReview>): (r: seq<ModelReview>)
    ensures forall v :: v in r <==> v in reviews && !v.failed
  {
    if reviews == [] then [] else (if reviews[0].failed then [] else [reviews[0]]) + Successful(reviews[1..])
  }

  function Dissenting(votes: seq<ModelReview>, d: GateDecision): (r: seq<ModelId>)
    ensures r == [] <==> forall v :: v in votes ==> v.gate == d
    ensures forall m :: m in r <==> exists v :: v in votes && v.gate != d && v.model == m
    ensures |r| + Votes(votes, d) == |votes|
  {
    if votes == [] then []
    else
      var rest := Dissenting(votes[1..], d);
      if votes[0].gate == d then rest else [votes[0].model] + rest
  }

  /** `max` by severity, the first of equals. */
  function Strictest(votes: seq<ModelReview>): (r: ModelReview)
    requires votes != []
    ensures r in votes
    ensures forall v :: v in votes ==> r.gate.AtLeast(v.gate)
  {
    if |votes| == 1 then votes[0]
    else
      var later := Strictest(votes[1..]);
      if votes[0].gate.AtLeast(later.gate) then votes[0] else later
  }

  predicate AllAgree(votes: seq<ModelReview>) {
    forall v, w :: v in votes && w in votes ==> v.gate == w.gate
  }

  function Scores(votes: seq<ModelReview>): (r: seq<real>)
    ensures |r| == |votes| && forall i :: 0 <= i < |r| ==> r[i] == votes[i].score as real
  {
    seq(|votes|, i requires 0 <= i < |votes| => votes[i].score as real)
  }

  /** The standard deviation is at most the threshold, in squares. */
  predicate Close(variance: real, threshold: real) {
    threshold >= 0.0 && variance <= Square(threshold)
  }

  // ---- voting ----

  function Votes(votes: seq<ModelReview>, d: GateDecision): (n: nat) {
    if votes == [] then 0 else (if votes[0].gate == d then 1 else 0) + Votes(votes[1..], d)
  }

  lemma {:induction false} VoteCast(votes: seq<ModelReview>, d: GateDecision) returns (i: nat)
    requires Votes(votes, d) > 0
    ensures i < |votes| && votes[i].gate == d
  {
    if votes[0].gate == d {
      i := 0;
    } else {
      i := VoteCast(votes[1..], d);
      i := i + 1;
    }
  }

  lemma {:induction false} CastCounts(votes: seq<ModelReview>, i: nat)
    requires i < |votes|
    ensures Votes(votes, votes[i].gate) > 0
  {
    if i > 0 {
      CastCounts(votes[1..], i - 1);
    }
  }

  /** The decision with the most votes; among equals the one voted first. */
  predicate IsPluralityAt(votes: seq<ModelReview>, i: int) {
    && 0 <= i < |votes|
    && (forall e :: Votes(votes, e) <= Votes(votes, votes[i].gate))
    && (forall j :: 0 <= j < i ==> Votes(votes, votes[j].gate) < Votes(votes, votes[i].gate))
  }

  /** First vote from i on with the most votes. */
  function Leader(votes: seq<ModelReview>, i: nat): (r: nat)
    requires i < |votes|
    ensures i <= r < |votes|
    decreases |votes| - i
  {
    if i + 1 == |votes| then i
    else
      var later := Leader(votes, i + 1);
      if Votes(votes, votes[i].gate) < Votes(votes, votes[later].gate) then later else i
  }

  lemma {:induction false} LeaderLeads(votes: seq<ModelReview>, i: nat)
    requires i < |votes|
    ensures forall j :: i <= j < |votes| ==> Votes(votes, votes[j].gate) <= Votes(votes, votes[Leader(votes, i)].gate)
    ensures forall j :: i <= j < Leader(votes, i) ==>
      Votes(votes, votes[j].gate) < Votes(votes, votes[Leader(votes, i)].gate)
    decreases |votes| - i
  {
    if i + 1 < |votes| {
      LeaderLeads(votes, i + 1);
    }
  }

  function Plurality(votes: seq<ModelReview>): GateDecision
    requires votes != []
  {
    votes[Leader(votes, 0)].gate
  }

  lemma LeaderIsPlurality(votes: seq<ModelReview>)
    requires votes != []
    ensures IsPluralityAt(votes, Leader(votes, 0))
  {
    var i := Leader(votes, 0);
    LeaderLeads(votes, 0);
    forall e ensures Votes(votes, e) <= Votes(votes, votes[i].gate) {
      if Votes(votes, e) > 0 {
        var j := VoteCast(votes, e);
      }
    }
  }

  lemma PluralityUnique(votes: seq<ModelReview>, i: int, j: int)
    requires IsPluralityAt(votes, i) && IsPluralityAt(votes, j)
    ensures i == j
  {
    assert Votes(votes, votes[i].gate) == Votes(votes, votes[j].gate);
  }

  predicate Carried(votes: seq<ModelReview>, ratio: real)
    requires votes != []
  {
    Votes(votes, Plurality(votes)) as real >= Times(ratio, |votes|)
  }

  /** `_resolve_majority` */
  function Majority(votes: seq<ModelReview>, ratio: real): GateDecision
    requires votes != []
  {
    if Carried(votes, ratio) then Plurality(votes) else Strictest(votes).gate
  }

  /** `_resolve_unanimous` */
  function Unanimous(votes: seq<ModelReview>): GateDecision
    requires votes != []
  {
    if AllAgree(votes) then votes[0].gate else Escalate(Strictest(votes).gate)
  }

  /** `_resolve_consensus` */
  function Resolve(c: Config, reviews: seq<ModelReview>): Resolution {
    var votes := Successful(reviews);
    if votes == [] then Resolution(L2_HUMAN, 0.0, false, 0.0, [])
    else
      var scores := Scores(votes);
      var (decision, dissenting) := Outcome(c, votes);
      var reached := if c.strategy.UNANIMOUS? then dissenting == [] else Close(Variance(scores), c.divergence);
      Resolution(if !reached && decision == AUTO_PASS then L1_REWORK else decision,
                 RoundTenth(Average(scores)), reached, Variance(scores), dissenting)
  }

  function Outcome(c: Config, votes: seq<ModelReview>): (GateDecision, seq<ModelId>)
    requires votes != []
  {
    match c.strategy
    case STRICTEST => (Strictest(votes).gate, Dissenting(votes, Strictest(votes).gate))
    case UNANIMOUS => (Unanimous(votes), Dissenting(votes, Strictest(votes).gate))
    case MAJORITY => (Majority(votes, c.minAgreement), Dissenting(votes, Majority(votes, c.minAgreement)))
  }

  // ---- what a resolution guarantees ----

  /** No successful vote is stricter than the decision, except that MAJORITY may outvote it. */
  lemma ResolutionIsSafe(c: Config, reviews: seq<ModelReview>, v: ModelReview)
    requires v in reviews && !v.failed
    ensures !c.strategy.MAJORITY? ==> Resolve(c, reviews).decision.AtLeast(v.gate)
    ensures c.strategy.UNANIMOUS? && !AllAgree(Successful(reviews)) ==>
      Resolve(c, reviews).decision.Severity() > v.gate.Severity() || Resolve(c, reviews).decision == L4_DEPLOY
  {
    var votes := Successful(reviews);
    assert v in votes;
  }

  /** The decision that the resolution holds the votes against: the strictest vote, or under MAJORITY the
      winner; a later lift to L1_REWORK changes nothing about who dissents. */
  predicate IsMeasure(c: Config, votes: seq<ModelReview>, d: GateDecision) {
    if c.strategy.MAJORITY? && exists e :: Wins(votes, c.minAgreement, e) then Wins(votes, c.minAgreement, d)
    else (exists v :: v in votes && v.gate == d) && forall v :: v in votes ==> d.AtLeast(v.gate)
  }

  /** d is the first decision with the most votes, and they meet the quota. */
  predicate Wins(votes: seq<ModelReview>, ratio: real, d: GateDecision) {
    exists i :: 0 <= i < |votes| && IsPluralityAt(votes, i) && votes[i].gate == d
      && Votes(votes, d) as real >= Times(ratio, |votes|)
  }

  lemma WinsIff(votes: seq<ModelReview>, ratio: real, d: GateDecision)
    requires votes != []
    ensures Wins(votes, ratio, d) <==> Carried(votes, ratio) && Plurality(votes) == d
  {
    var first := Leader(votes, 0);
    LeaderIsPlurality(votes);
    forall i | IsPluralityAt(votes, i) ensures i == first { PluralityUnique(votes, i, first); }
  }

  /** A model is named as dissenting exactly if it succeeded with another decision than that, once for
      each such vote. */
  lemma DissentersIff(c: Config, reviews: seq<ModelReview>, d: GateDecision)
    requires Successful(reviews) != [] && IsMeasure(c, Successful(reviews), d)
    ensures forall m :: m in Resolve(c, reviews).dissenting <==>
      exists v :: v in reviews && !v.failed && v.gate != d && v.model == m
    ensures |Resolve(c, reviews).dissenting| == |Successful(reviews)| - Votes(Successful(reviews), d)
  {
    var votes := Successful(reviews);
    MeasureIs(c, votes, d);
    ResolvedDissent(c, reviews);
    hide *;
  }

  /** They are named in the order of their reviews. */
  lemma {:induction false} DissentersInOrder(a: seq<ModelReview>, b: seq<ModelReview>, d: GateDecision)
    ensures Dissenting(a + b, d) == Dissenting(a, d) + Dissenting(b, d)
  {
    if a == [] {
      assert a + b == b;
    } else {
      assert (a + b)[0] == a[0] && (a + b)[1..] == a[1..] + b;
      DissentersInOrder(a[1..], b, d);
    }
  }

  lemma ResolvedDissent(c: Config, reviews: seq<ModelReview>)
    requires Successful(reviews) != []
    ensures Resolve(c, reviews).dissenting == Outcome(c, Successful(reviews)).1
  {
    hide Outcome, Variance, Scores, Average;
  }

  lemma MeasureIs(c: Config, votes: seq<ModelReview>, d: GateDecision)
    requires votes != [] && IsMeasure(c, votes, d)
    ensures Outcome(c, votes).1 == Dissenting(votes, d)
  {
    hide Plurality, Wins, Carried, Dissenting, Strictest, Times, Votes, IsPluralityAt;
    forall e ensures Wins(votes, c.minAgreement, e) <==> Carried(votes, c.minAgreement) && Plurality(votes) == e {
      WinsIff(votes, c.minAgreement, e);
    }
    assert Wins(votes, c.minAgreement, Plurality(votes)) <==> Carried(votes, c.minAgreement);
    TopIsStrictest(votes, d);
  }

  lemma TopIsStrictest(votes: seq<ModelReview>, d: GateDecision)
    requires votes != []
    ensures (exists v :: v in votes && v.gate == d) && (forall v :: v in votes ==> d.AtLeast(v.gate)) ==>
      Strictest(votes).gate == d
  {
    assert Strictest(votes) in votes;
  }

  lemma NoSuccessIsHuman(c: Config, reviews: seq<ModelReview>)
    ensures Successful(reviews) == [] ==> Resolve(c, reviews).decision == L2_HUMAN && !Resolve(c, reviews).reached
  {}

  lemma PassIsReached(c: Config, reviews: seq<ModelReview>)
    ensures Resolve(c, reviews).decision == AUTO_PASS ==> Resolve(c, reviews).reached
  {}

  lemma NoneSuccessful(reviews: seq<ModelReview>)
    ensures (forall v :: v in reviews ==> v.failed) <==> Successful(reviews) == []
  {
    if Successful(reviews) != [] {
      assert Successful(reviews)[0] in Successful(reviews);
    }
    forall v | v in reviews && !v.failed ensures v in Successful(reviews) {}
  }

  /** AUTO_PASS needs a success and an agreement; a failed agreement never passes. */
  lemma PassNeedsConsensus(c: Config, reviews: seq<ModelReview>)
    ensures Resolve(c, reviews).decision == AUTO_PASS ==>
      Successful(reviews) != [] && Resolve(c, reviews).reached
    ensures Resolve(c, reviews).decision == AUTO_PASS && !c.strategy.MAJORITY? ==>
      forall v :: v in reviews && !v.failed ==> v.gate == AUTO_PASS
    ensures (forall v :: v in reviews ==> v.failed) <==> Successful(reviews) == []
    ensures Successful(reviews) == [] ==> Resolve(c, reviews).decision == L2_HUMAN && !Resolve(c, reviews).reached
  {
    hide Resolve, Successful;
    NoSuccessIsHuman(c, reviews);
    PassIsReached(c, reviews);
    NoneSuccessful(reviews);
    if !c.strategy.MAJORITY? {
      forall v | v in reviews && !v.failed
        ensures Resolve(c, reviews).decision == AUTO_PASS ==> v.gate == AUTO_PASS
      {
        ResolutionIsSafe(c, reviews, v);
      }
    }
  }

  /** Under UNANIMOUS, consensus is exactly agreement; the scores play no part. */
  lemma UnanimousReachedIff(c: Config, reviews: seq<ModelReview>)
    requires c.strategy.UNANIMOUS? && Successful(reviews) != []
    ensures Resolve(c, reviews).reached <==> AllAgree(Successful(reviews))
  {
    var votes := Successful(reviews);
    var top := Strictest(votes);
    assert top in votes;
  }

  // ---- divergence ----

  predicate Clamped(votes: seq<ModelReview>) {
    forall v :: v in votes ==> 0 <= v.score <= 100
  }

  /** Whether the scores alone can withhold consensus. */
  predicate Blocks(c: Config, reviews: seq<ModelReview>) {
    Clamped(reviews) && Successful(reviews) != [] && !Resolve(c, reviews).reached
  }

  /** With scores between lo and hi the deviation is at most half of their distance. */
  lemma SpreadBound(votes: seq<ModelReview>, lo: int, hi: int)
    requires votes != [] && forall v :: v in votes ==> lo <= v.score <= hi
    ensures Variance(Scores(votes)) <= Square((hi - lo) as real / 2.0)
  {
    forall i | 0 <= i < |votes| ensures lo as real <= Scores(votes)[i] <= hi as real {
      assert votes[i] in votes;
    }
    VarianceBound(Scores(votes), lo as real, hi as real);
    assert (hi as real - lo as real) / 2.0 == (hi - lo) as real / 2.0;
  }

  lemma WidestSpread(model: ModelId)
    ensures Variance(Scores([ModelReview(model, 0, AUTO_PASS, [], false),
      ModelReview(model, 100, AUTO_PASS, [], false)])) == 2500.0
  {
    var votes := [ModelReview(model, 0, AUTO_PASS, [], false), ModelReview(model, 100, AUTO_PASS, [], false)];
    var s := Scores(votes);
    assert s == [0.0, 100.0] && s[1..] == [100.0] && s[1..][1..] == [];
    assert Sum(s[1..]) == 100.0 + Sum([]) == 100.0;
    assert SquaredDeviations(s[1..], 50.0) == Square(50.0) + SquaredDeviations([], 50.0) == 2500.0;
    assert Average(s) == 50.0;
  }

  lemma WideSpreadBlocks(c: Config, reviews: seq<ModelReview>, model: ModelId)
    requires !c.strategy.UNANIMOUS? && c.divergence < 50.0
    requires reviews == [ModelReview(model, 0, AUTO_PASS, [], false), ModelReview(model, 100, AUTO_PASS, [], false)]
    ensures Blocks(c, reviews)
  {
    WidestSpread(model);
    assert reviews[1..][1..] == [] && Successful(reviews[1..]) == reviews[1..];
    assert Successful(reviews) == reviews;
    if c.divergence >= 0.0 {
      SquareLess(c.divergence, 50.0);
    }
  }

  lemma NarrowSpread(c: Config, reviews: seq<ModelReview>)
    requires !c.strategy.UNANIMOUS? && c.divergence >= 50.0
    ensures !Blocks(c, reviews)
  {
    var votes := Successful(reviews);
    if Clamped(reviews) && votes != [] {
      SpreadBound(votes, 0, 100);
      assert (100 - 0) as real / 2.0 == 50.0;
      SquareWithin(50.0, c.divergence);
      assert Close(Variance(Scores(votes)), c.divergence);
    }
  }

  /** Some clamped scores withhold consensus exactly when the threshold is below 50. */
  lemma ThresholdCanBlockIff(c: Config)
    requires !c.strategy.UNANIMOUS?
    ensures (exists reviews :: Blocks(c, reviews)) <==> c.divergence < 50.0
  {
    if c.divergence < 50.0 {
      var m := ModelId("any");
      var reviews := [ModelReview(m, 0, AUTO_PASS, [], false), ModelReview(m, 100, AUTO_PASS, [], false)];
      WideSpreadBlocks(c, reviews, m);
    } else {
      forall reviews ensures !Blocks(c, reviews) {
        NarrowSpread(c, reviews);
      }
    }
  }

  /** The merged score lies between the successful scores, for all its double rounding. */
  lemma ScoreBetween(c: Config, reviews: seq<ModelReview>, lo: int, hi: int)
    requires Successful(reviews) != [] && forall v :: v in reviews && !v.failed ==> lo <= v.score <= hi
    ensures lo <= Round(Resolve(c, reviews).score) <= hi
  {
    var votes := Successful(reviews);
    forall i | 0 <= i < |votes| ensures lo as real <= Scores(votes)[i] <= hi as real {
      assert votes[i] in votes;
    }
    AverageBetween(Scores(votes), lo as real, hi as real);
    RoundTwiceBetween(Average(Scores(votes)), lo, hi);
  }

  // ---- the order of the votes ----

  lemma {:induction false} VotesAppend(a: seq<ModelReview>, b: seq<ModelReview>, d: GateDecision)
    ensures Votes(a + b, d) == Votes(a, d) + Votes(b, d)
  {
    if a == [] {
      assert a + b == b;
    } else {
      assert (a + b)[1..] == a[1..] + b;
      VotesAppend(a[1..], b, d);
    }
  }

  lemma VotesOfMoved(votes: seq<ModelReview>, i: nat, d: GateDecision)
    requires i < |votes|
    ensures multiset([votes[i]] + (votes[..i] + votes[i + 1..])) == multiset(votes)
    ensures Votes([votes[i]] + (votes[..i] + votes[i + 1..]), d) == Votes(votes, d)
  {
    var before, after := votes[..i], votes[i + 1..];
    assert votes == before + ([votes[i]] + after);
    VotesAppend(before, [votes[i]] + after, d);
    VotesAppend([votes[i]], after, d);
    VotesAppend([votes[i]], before + after, d);
    VotesAppend(before, after, d);
  }

  lemma Removed(a: seq<ModelReview>, rest: seq<ModelReview>)
    requires a != [] && multiset(a) == multiset([a[0]] + rest)
    ensures multiset(a[1..]) == multiset(rest)
  {
    assert a == [a[0]] + a[1..];
    assert multiset(a) - multiset{a[0]} == multiset(a[1..]);
    assert multiset([a[0]] + rest) - multiset{a[0]} == multiset(rest);
  }

  lemma {:induction false} SameVotes(a: seq<ModelReview>, b: seq<ModelReview>, d: GateDecision)
    requires multiset(a) == multiset(b)
    ensures Votes(a, d) == Votes(b, d)
  {
    SamePermutation(a, b);
    if a != [] {
      assert a[0] in a;
      var k :| 0 <= k < |b| && b[k] == a[0];
      VotesOfMoved(b, k, d);
      var rest := b[..k] + b[k + 1..];
      Removed(a, rest);
      SameVotes(a[1..], rest, d);
      VotesAppend([b[k]], rest, d);
      VotesAppend([a[0]], a[1..], d);
      assert a == [a[0]] + a[1..];
    }
  }

  predicate TiedWithTop(votes: seq<ModelReview>, e: GateDecision)
    requires votes != []
  {
    e != Plurality(votes) && Votes(votes, e) == Votes(votes, Plurality(votes))
  }

  predicate TiedAtTheTop(votes: seq<ModelReview>)
    requires votes != []
  {
    exists e :: TiedWithTop(votes, e)
  }

  lemma SameStrictest(a: seq<ModelReview>, b: seq<ModelReview>)
    requires a != [] && b != [] && multiset(a) == multiset(b)
    ensures Strictest(a).gate == Strictest(b).gate
  {
    SamePermutation(a, b);
    assert Strictest(a) in b && Strictest(b) in a;
  }

  /** The same reviews in another order. */
  predicate Reordered(a: seq<ModelReview>, b: seq<ModelReview>) {
    b != [] && multiset(a) == multiset(b)
  }

  lemma PluralityIsMost(votes: seq<ModelReview>, e: GateDecision)
    requires votes != []
    ensures Votes(votes, e) <= Votes(votes, Plurality(votes))
  {
    LeaderIsPlurality(votes);
  }

  lemma {:induction false} TwoDecisions(votes: seq<ModelReview>, d: GateDecision, e: GateDecision)
    requires d != e
    ensures Votes(votes, d) + Votes(votes, e) <= |votes|
  {
    if votes != [] {
      TwoDecisions(votes[1..], d, e);
    }
  }

  /** A decision with more than half of the votes is the plurality, in any order; it is the outcome
      exactly if it meets the quota or is the strictest, so always for a ratio of at most one half. */
  lemma AbsoluteMajorityWins(votes: seq<ModelReview>, d: GateDecision, ratio: real)
    requires votes != [] && 2 * Votes(votes, d) > |votes|
    ensures Majority(votes, ratio) == d <==>
      Votes(votes, d) as real >= Times(ratio, |votes|) || forall v :: v in votes ==> d.AtLeast(v.gate)
    ensures ratio <= 0.5 ==> Majority(votes, ratio) == d
  {
    hide Plurality, Votes, Times, Strictest;
    AbsoluteMajorityLeads(votes, d);
    StrictestIs(votes, d);
    QuotaMet(Votes(votes, d), |votes|, ratio);
  }

  /** More than half meets every quota of up to one half. */
  lemma QuotaMet(count: nat, n: nat, ratio: real)
    requires 2 * count > n
    ensures ratio <= 0.5 ==> count as real >= Times(ratio, n)
  {
    if ratio <= 0.5 {
      TimesGrows(ratio, 0.5, n);
      TimesIsProduct(0.5, n);
    }
  }

  lemma AbsoluteMajorityLeads(votes: seq<ModelReview>, d: GateDecision)
    requires votes != [] && 2 * Votes(votes, d) > |votes|
    ensures Plurality(votes) == d
  {
    hide Plurality, Votes;
    PluralityIsMost(votes, d);
    if Plurality(votes) != d {
      TwoDecisions(votes, d, Plurality(votes));
    }
  }

  lemma StrictestIs(votes: seq<ModelReview>, d: GateDecision)
    requires votes != [] && Votes(votes, d) > 0
    ensures Strictest(votes).gate == d <==> forall v :: v in votes ==> d.AtLeast(v.gate)
  {
    var i := VoteCast(votes, d);
    assert votes[i] in votes && Strictest(votes) in votes;
  }

  /** Half of the votes can be enough: of two models that disagree the first decides exactly if the
      ratio is at most one half or it is the stricter one. */
  lemma FirstOfTwoDecidesIff(v: ModelReview, w: ModelReview, ratio: real)
    ensures Majority([v, w], ratio) == v.gate <==> v.gate == w.gate || ratio <= 0.5 || v.gate.AtLeast(w.gate)
  {
    var votes := [v, w];
    TwoCounts(v, w);
    LeaderIsPlurality(votes);
    assert Leader(votes, 0) == 0;
    StrictestIs(votes, v.gate);
    assert v in votes && w in votes;
    assert Times(ratio, 2) == ratio + (ratio + Times(ratio, 0));
  }

  lemma TwoCounts(v: ModelReview, w: ModelReview)
    ensures forall d :: Votes([v, w], d) == (if v.gate == d then 1 else 0) + if w.gate == d then 1 else 0
  {
    forall d ensures Votes([v, w], d) == (if v.gate == d then 1 else 0) + if w.gate == d then 1 else 0 {
      assert [v, w][1..] == [w] && [w][1..] == [] && Votes([w], d) == if w.gate == d then 1 else 0;
    }
  }

  lemma SameTop(votes: seq<ModelReview>, other: seq<ModelReview>)
    requires votes != [] && Reordered(votes, other)
    ensures |votes| == |other|
    ensures Votes(votes, Plurality(other)) == Votes(votes, Plurality(votes)) == Votes(other, Plurality(other))
  {
    var p, q := Plurality(votes), Plurality(other);
    assert |multiset(votes)| == |multiset(other)|;
    SameVotes(votes, other, p);
    SameVotes(votes, other, q);
    PluralityIsMost(votes, q);
    PluralityIsMost(other, p);
  }

  lemma SameQuota(votes: seq<ModelReview>, other: seq<ModelReview>, ratio: real)
    requires votes != [] && Reordered(votes, other)
    ensures Carried(votes, ratio) <==> Carried(other, ratio)
  {
    SameTop(votes, other);
  }

  /** Without a carried tie, the order of the reviews cannot change the outcome. */
  lemma OrderIrrelevant(votes: seq<ModelReview>, other: seq<ModelReview>, ratio: real)
    requires votes != [] && Reordered(votes, other)
    requires !(Carried(votes, ratio) && TiedAtTheTop(votes))
    ensures Majority(other, ratio) == Majority(votes, ratio)
  {
    SameQuota(votes, other, ratio);
    if Carried(votes, ratio) {
      SameTop(votes, other);
      assert !TiedWithTop(votes, Plurality(other));
    } else {
      SameStrictest(votes, other);
    }
  }

  lemma MoveToFront(votes: seq<ModelReview>, e: GateDecision) returns (other: seq<ModelReview>)
    requires votes != [] && TiedWithTop(votes, e)
    ensures Reordered(votes, other) && Plurality(other) == e
  {
    CastCounts(votes, Leader(votes, 0));
    var i := VoteCast(votes, e);
    other := [votes[i]] + (votes[..i] + votes[i + 1..]);
    forall d ensures Votes(other, d) == Votes(votes, d) {
      VotesOfMoved(votes, i, d);
    }
    VotesOfMoved(votes, i, e);
    LeaderIsPlurality(votes);
    LeaderIsPlurality(other);
    assert IsPluralityAt(other, 0);
    PluralityUnique(other, 0, Leader(other, 0));
  }

  predicate Changes(votes: seq<ModelReview>, other: seq<ModelReview>, ratio: real)
    requires votes != []
  {
    Reordered(votes, other) && Majority(other, ratio) != Majority(votes, ratio)
  }

  /** MAJORITY depends on the order of the reviews exactly when two decisions share the most votes
      and that many carry. */
  lemma OrderMattersIff(votes: seq<ModelReview>, ratio: real)
    requires votes != []
    ensures (exists other :: Changes(votes, other, ratio)) <==> Carried(votes, ratio) && TiedAtTheTop(votes)
  {
    if Carried(votes, ratio) && TiedAtTheTop(votes) {
      var e :| TiedWithTop(votes, e);
      var other := MoveToFront(votes, e);
      SameQuota(votes, other, ratio);
      assert Changes(votes, other, ratio);
    } else {
      forall other ensures !Changes(votes, other, ratio) {
        if Reordered(votes, other) {
          OrderIrrelevant(votes, other, ratio);
        }
      }
    }
  }
}
