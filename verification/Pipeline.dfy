/** src/orchestrator/orchestrator.py: the reviews of one attempt, merged and evaluated. */
module Pipeline {
  import opened Arithmetic
  import opened Consensus
  import opened GateEvaluator
  import opened Gates
  import opened Texts
  import opened Wrappers

  datatype Mode = SINGLE | SHADOW | CONSENSUS | STRICT

  /** strategy is None for a name that `ConsensusStrategy` does not know. */
  datatype ReviewerConfig = ReviewerConfig(mode: Mode, models: seq<ModelId>, strategy: Option<Strategy>,
    divergence: real)

  datatype Registry = Registry(policy: QualityPolicy, reviewer: Option<ReviewerConfig>)

  /** What one attempt delivers: an exception, or the records of QA, reviewer and review models. */
  datatype Work =
    | Crashed
    | Done(quality: QualityGates, paths: seq<string>, reviews: seq<ModelReview>)

  /** QA and reviewer leave the gate at its default and know of no consensus. */
  function Fresh(q: QualityGates): QualityGates {
    q.(gate := L2_HUMAN, consensusScore := None, consensusReached := None, variance := None, dissenting := [])
  }

  function Gating(r: ReviewerConfig): Config
    requires r.strategy.Some?
  {
    Config(r.strategy.value, 0.5, r.divergence)
  }

  // ---- merging a resolution ----

  function RaisedFlags(model: ModelId, flags: seq<RawFlag>): seq<ReviewFlag> {
    if flags == [] then []
    else
      var rest := RaisedFlags(model, flags[1..]);
      if flags[0].severity.None? then rest
      else [ReviewFlag(flags[0].severity.value, flags[0].category, "[" + model.name + "] " + flags[0].detail)] + rest
  }

  function AllFlags(reviews: seq<ModelReview>): seq<ReviewFlag> {
    if reviews == [] then []
    else (if reviews[0].failed then [] else RaisedFlags(reviews[0].model, reviews[0].flags)) + AllFlags(reviews[1..])
  }

  /** `_merge_consensus`: without any success only the consensus fields change. */
  function Merged(q: QualityGates, reviews: seq<ModelReview>, r: Resolution): QualityGates {
    var m := q.(consensusScore := Some(r.score), consensusReached := Some(r.reached),
                variance := Some(r.variance), dissenting := r.dissenting);
    if Successful(reviews) == [] then m
    else m.(reviewScore := Round(r.score), gate := r.decision, reviewFlags := q.reviewFlags + AllFlags(reviews))
  }

  /** Whether several models review at all. */
  predicate Reviews(reg: Registry, toReviewer: bool) {
    && !toReviewer && reg.reviewer.Some?
    && reg.reviewer.value.mode != SINGLE && reg.reviewer.value.models != []
  }

  /** The record after `_run_multi_provider_review`; None when it raises. */
  function AfterReview(q: QualityGates, reg: Registry, toReviewer: bool,
          reviews: seq<ModelReview>): Option<QualityGates>
  {
    if !Reviews(reg, toReviewer) then Some(q)
    else if reg.reviewer.value.strategy.None? then None
    else
      var r := Resolve(Gating(reg.reviewer.value), reviews);
      match reg.reviewer.value.mode
      case SINGLE | SHADOW => Some(q)
      case CONSENSUS => Some(Merged(q, reviews, r))
      case STRICT => Some(if r.reached then Merged(q, reviews, r) else Merged(q, reviews, r).(gate := L2_HUMAN))
  }

  function ChangeOf(paths: seq<string>, instructions: string, retries: int): Change {
    Change(
      exists p :: p in paths && (Contains(p, "migration") || Contains(p, "schema")),
      exists p :: p in paths && (Contains(p, "integration") || Contains(p, "external")),
      false, retries, paths, instructions)
  }

  /** The record after a whole attempt; None when the pipeline raises. */
  function Attempt(reg: Registry, toReviewer: bool, instructions: string, retries: int, w: Work): Option<QualityGates> {
    if w.Crashed? then None
    else
      match AfterReview(Fresh(w.quality), reg, toReviewer, w.reviews)
      case None => None
      case Some(q) => Some(q.(gate := Gate(q, reg.policy, ChangeOf(w.paths, instructions, retries))))
  }

  // ---- what the merge takes from the reviews ----

  /** The review holds this flag, of a known severity, and the model's name is put before its detail. */
  predicate Raises(model: ModelId, flags: seq<RawFlag>, f: ReviewFlag) {
    exists k :: 0 <= k < |flags| && flags[k].severity == Some(f.severity) && flags[k].category == f.category
      && f.detail == "[" + model.name + "] " + flags[k].detail
  }

  lemma {:induction false} RaisedIff(model: ModelId, flags: seq<RawFlag>, f: ReviewFlag)
    ensures f in RaisedFlags(model, flags) <==> Raises(model, flags, f)
  {
    if flags != [] {
      RaisedIff(model, flags[1..], f);
      if Raises(model, flags[1..], f) {
        var k :| 0 <= k < |flags[1..]| && flags[1..][k].severity == Some(f.severity)
          && flags[1..][k].category == f.category && f.detail == "[" + model.name + "] " + flags[1..][k].detail;
        assert flags[k + 1] == flags[1..][k];
      }
      if Raises(model, flags, f) {
        var k :| 0 <= k < |flags| && flags[k].severity == Some(f.severity) && flags[k].category == f.category
          && f.detail == "[" + model.name + "] " + flags[k].detail;
        assert k > 0 ==> flags[1..][k - 1] == flags[k];
        assert k == 0 ==> f == ReviewFlag(flags[0].severity.value, flags[0].category,
          "[" + model.name + "] " + flags[0].detail);
      }
    }
  }

  /** The merged flags are exactly those that successful reviews raise. */
  lemma {:induction false} FlagMergedIff(reviews: seq<ModelReview>, f: ReviewFlag)
    ensures f in AllFlags(reviews) <==>
      exists i :: 0 <= i < |reviews| && !reviews[i].failed && Raises(reviews[i].model, reviews[i].flags, f)
  {
    if reviews != [] {
      var rest := reviews[1..];
      FlagMergedIff(rest, f);
      RaisedIff(reviews[0].model, reviews[0].flags, f);
      hide Raises, RaisedFlags;
      if i :| 0 <= i < |rest| && !rest[i].failed && Raises(rest[i].model, rest[i].flags, f) {
        assert reviews[i + 1] == rest[i];
      }
      if i :| 1 <= i < |reviews| && !reviews[i].failed && Raises(reviews[i].model, reviews[i].flags, f) {
        assert rest[i - 1] == reviews[i];
      }
    }
  }

  /** Review by review, as they were given. */
  lemma {:induction false} FlagsInOrder(a: seq<ModelReview>, b: seq<ModelReview>)
    ensures AllFlags(a + b) == AllFlags(a) + AllFlags(b)
  {
    if a == [] {
      assert a + b == b;
    } else {
      assert (a + b)[0] == a[0] && (a + b)[1..] == a[1..] + b;
      FlagsInOrder(a[1..], b);
    }
  }

  predicate Differ(reg: Registry, toReviewer: bool, q: QualityGates, a: seq<ModelReview>, b: seq<ModelReview>) {
    AfterReview(q, reg, toReviewer, a) != AfterReview(q, reg, toReviewer, b)
  }

  /** What the models say can make a difference exactly if they are asked: not about a reviewer's own work,
      and in CONSENSUS or STRICT mode, with models and a known strategy. */
  lemma ReviewsCountIff(reg: Registry, toReviewer: bool)
    ensures (exists q, a, b :: Differ(reg, toReviewer, q, a, b)) <==>
      && !toReviewer && reg.reviewer.Some? && reg.reviewer.value.mode in {CONSENSUS, STRICT}
      && reg.reviewer.value.models != [] && reg.reviewer.value.strategy.Some?
  {
    if !toReviewer && reg.reviewer.Some? && reg.reviewer.value.mode in {CONSENSUS, STRICT}
      && reg.reviewer.value.models != [] && reg.reviewer.value.strategy.Some? {
      var q := QualityGates(0, 0.0, PASSED, PASSED, 0, 0, 0, 0, [], L2_HUMAN, None, false, None, None, None, []);
      var vote := ModelReview(ModelId("m"), 80, L2_HUMAN, [], false);
      OneScore(Gating(reg.reviewer.value), vote);
      assert Resolve(Gating(reg.reviewer.value), []).score == 0.0;
      hide Resolve;
      assert Differ(reg, toReviewer, q, [], [vote]);
    }
  }

  lemma OneScore(c: Config, vote: ModelReview)
    requires !vote.failed && vote.score == 80
    ensures Resolve(c, [vote]).score == 80.0
  {
    assert Successful([vote]) == [vote] + Successful([]);
    var s := Scores([vote]);
    assert s == [80.0] && s[1..] == [] && Sum(s) == 80.0 + Sum([]);
    assert Average(s) == 80.0;
    RoundTenthIff(80.0, 800);
    hide Average, RoundTenth, Variance, Outcome;
    assert Successful([vote]) == [vote];
  }

  /** The review raises exactly if it would run under a strategy that is not known. */
  lemma ReviewRaisesIff(q: QualityGates, reg: Registry, toReviewer: bool, reviews: seq<ModelReview>)
    ensures AfterReview(q, reg, toReviewer, reviews).None? <==>
      && !toReviewer && reg.reviewer.Some? && reg.reviewer.value.mode in {SHADOW, CONSENSUS, STRICT}
      && reg.reviewer.value.models != [] && reg.reviewer.value.strategy.None?
  {}

  /** The pipeline's quota is half of the votes that succeeded. */
  lemma HalfWinsIff(r: ReviewerConfig, votes: seq<ModelReview>, d: GateDecision)
    requires r.strategy.Some?
    ensures Wins(votes, Gating(r).minAgreement, d) <==>
      (exists i :: 0 <= i < |votes| && IsPluralityAt(votes, i) && votes[i].gate == d)
        && 2 * Votes(votes, d) >= |votes|
  {
    hide IsPluralityAt;
    TimesIsProduct(0.5, |votes|);
  }

  /** So two of three models decide under MAJORITY, whatever the third says; a pass still needs close scores. */
  lemma TwoOfThreeWin(r: ReviewerConfig, reviews: seq<ModelReview>, d: GateDecision)
    requires r.strategy == Some(MAJORITY) && |Successful(reviews)| == 3 && Votes(Successful(reviews), d) >= 2
    ensures Resolve(Gating(r), reviews).decision ==
      if d == AUTO_PASS && !Resolve(Gating(r), reviews).reached then L1_REWORK else d
  {
    AbsoluteMajorityWins(Successful(reviews), d, Gating(r).minAgreement);
    hide Majority, Successful, Votes, Variance, Scores, Average;
  }

  /** Scores are close enough exactly if their deviation is at most the configured divergence. */
  lemma ReachedIff(r: ReviewerConfig, reviews: seq<ModelReview>)
    requires r.strategy.Some? && Successful(reviews) != []
    ensures Resolve(Gating(r), reviews).reached <==>
      if r.strategy.value.UNANIMOUS?
      then forall v, w :: v in reviews && w in reviews && !v.failed && !w.failed ==> v.gate == w.gate
      else r.divergence >= 0.0 && Variance(Scores(Successful(reviews))) <= r.divergence * r.divergence
  {
    hide *;
    GatingIs(r);
    if r.strategy.value.UNANIMOUS? {
      UnanimousReachedIff(Gating(r), reviews);
      AgreeingReviews(reviews);
    } else {
      ReachedByScores(Gating(r), reviews);
    }
  }

  lemma GatingIs(r: ReviewerConfig)
    requires r.strategy.Some?
    ensures Gating(r).strategy == r.strategy.value && Gating(r).divergence == r.divergence
  {}

  lemma AgreeingReviews(reviews: seq<ModelReview>)
    ensures AllAgree(Successful(reviews)) <==>
      forall v, w :: v in reviews && w in reviews && !v.failed && !w.failed ==> v.gate == w.gate
  {
    var votes := Successful(reviews);
    assert forall v :: v in votes <==> v in reviews && !v.failed;
    hide Successful;
  }

  lemma ReachedByScores(c: Config, reviews: seq<ModelReview>)
    requires !c.strategy.UNANIMOUS? && Successful(reviews) != []
    ensures Resolve(c, reviews).reached <==>
      c.divergence >= 0.0 && Variance(Scores(Successful(reviews))) <= c.divergence * c.divergence
  {
    hide Outcome, Variance, Scores, Average, RoundTenth, Successful;
  }

  /** The merged score reaches an integer exactly as the average of the successful scores does, but for the
      double rounding. */
  lemma MergedScoreReachesIff(q: QualityGates, r: ReviewerConfig, reviews: seq<ModelReview>, k: int)
    requires r.strategy.Some? && Successful(reviews) != []
    ensures var average := Average(Scores(Successful(reviews)));
      Merged(q, reviews, Resolve(Gating(r), reviews)).reviewScore >= k <==>
        if k % 2 == 0 then average > k as real - 0.55 else average >= k as real - 0.45
  {
    RoundTwiceReachesIff(Average(Scores(Successful(reviews))), k);
    hide Round, RoundTenth, Average, Variance, Outcome, Scores, Successful, AllFlags;
  }

  // ---- the chain from votes to gate ----

  /** Several models review in this mode, under a strategy that a vote cannot be lost to. */
  predicate Binding(reg: Registry, toReviewer: bool, mode: Mode) {
    && Reviews(reg, toReviewer) && reg.reviewer.value.mode == mode
    && reg.reviewer.value.strategy.Some? && !reg.reviewer.value.strategy.value.MAJORITY?
  }

  /** The gate of an attempt whose reviews do not raise. */
  function GateAfter(q: QualityGates, reg: Registry, toReviewer: bool, reviews: seq<ModelReview>,
          c: Change): GateDecision
    requires AfterReview(q, reg, toReviewer, reviews).Some?
  {
    Gate(AfterReview(q, reg, toReviewer, reviews).value, reg.policy, c)
  }

  lemma GateAtLeastResolution(q: QualityGates, p: QualityPolicy, c: Change)
    requires q.consensusScore.Some?
    ensures Gate(q, p, c).AtLeast(q.gate)
  {
    assert Demanded(q, p, c, q.gate);
  }

  /** In CONSENSUS mode, and in STRICT mode with a consensus, no successful vote is lost on the way to the gate. */
  lemma VotesBindGate(q: QualityGates, reg: Registry, toReviewer: bool, reviews: seq<ModelReview>, c: Change,
          v: ModelReview)
    requires v in reviews && !v.failed
    requires Binding(reg, toReviewer, CONSENSUS)
      || (Binding(reg, toReviewer, STRICT) && Resolve(Gating(reg.reviewer.value), reviews).reached)
    ensures AfterReview(q, reg, toReviewer, reviews).Some?
    ensures GateAfter(q, reg, toReviewer, reviews, c).AtLeast(v.gate)
    ensures reg.reviewer.value.strategy.value.UNANIMOUS? && !AllAgree(Successful(reviews)) ==>
      GateAfter(q, reg, toReviewer, reviews, c).Severity() > v.gate.Severity()
        || GateAfter(q, reg, toReviewer, reviews, c) == L4_DEPLOY
  {
    hide Gate, Resolve;
    var config := Gating(reg.reviewer.value);
    var m := Merged(q, reviews, Resolve(config, reviews));
    assert v in Successful(reviews);
    GateAtLeastResolution(m, reg.policy, c);
    ResolutionIsSafe(config, reviews, v);
  }

  /** When every model fails, a human has to look, in both modes and under every strategy. */
  lemma FailureNeedsHuman(q: QualityGates, reg: Registry, toReviewer: bool, reviews: seq<ModelReview>, c: Change)
    requires Reviews(reg, toReviewer) && reg.reviewer.value.mode in {CONSENSUS, STRICT}
      && reg.reviewer.value.strategy.Some?
    requires q.gate == L2_HUMAN && forall v :: v in reviews ==> v.failed
    ensures AfterReview(q, reg, toReviewer, reviews).Some?
    ensures GateAfter(q, reg, toReviewer, reviews, c).AtLeast(L2_HUMAN)
  {
    PassNeedsConsensus(Gating(reg.reviewer.value), reviews);
    GateAtLeastResolution(AfterReview(q, reg, toReviewer, reviews).value, reg.policy, c);
  }

  /** Without agreement STRICT mode asks for at least a human. */
  lemma StrictNeedsHuman(q: QualityGates, reg: Registry, toReviewer: bool, reviews: seq<ModelReview>, c: Change)
    requires Reviews(reg, toReviewer) && reg.reviewer.value.mode == STRICT && reg.reviewer.value.strategy.Some?
    requires !Resolve(Gating(reg.reviewer.value), reviews).reached
    ensures AfterReview(q, reg, toReviewer, reviews).Some?
    ensures GateAfter(q, reg, toReviewer, reviews, c).AtLeast(L2_HUMAN)
  {
    GateAtLeastResolution(AfterReview(q, reg, toReviewer, reviews).value, reg.policy, c);
  }

  /** When every successful model scores below the threshold, a human has to look. */
  lemma LowScoresNeedHuman(q: QualityGates, reg: Registry, toReviewer: bool, reviews: seq<ModelReview>, c: Change)
    requires Reviews(reg, toReviewer) && reg.reviewer.value.mode in {CONSENSUS, STRICT}
      && reg.reviewer.value.strategy.Some?
    requires q.gate == L2_HUMAN && forall v :: v in reviews && !v.failed ==>
      0 <= v.score < reg.policy.reviewScoreThreshold
    ensures AfterReview(q, reg, toReviewer, reviews).Some?
    ensures GateAfter(q, reg, toReviewer, reviews, c).AtLeast(L2_HUMAN)
  {
    var m := AfterReview(q, reg, toReviewer, reviews).value;
    if Successful(reviews) != [] {
      ScoreBetween(Gating(reg.reviewer.value), reviews, 0, reg.policy.reviewScoreThreshold - 1);
      assert Demanded(m, reg.policy, c, L2_HUMAN);
    } else {
      GateAtLeastResolution(m, reg.policy, c);
    }
  }
}
