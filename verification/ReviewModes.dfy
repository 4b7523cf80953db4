/** src/orchestrator/orchestrator.py: what the review modes make of the same votes, told from the votes,
    the scores and the reasons for a stop. */
module ReviewModes {
  import opened Arithmetic
  import opened Consensus
  import opened GateEvaluator
  import opened Gates
  import opened Pipeline
  import opened Wrappers

  // ---- a resolution, told from the votes ----

  /** The votes disagree under UNANIMOUS; otherwise the scores are too far apart. */
  predicate Dissents(c: Config, votes: seq<ModelReview>)
    requires votes != []
  {
    if c.strategy.UNANIMOUS? then exists v, w :: v in votes && w in votes && v.gate != w.gate
    else !Close(Variance(Scores(votes)), c.divergence)
  }

  predicate SomeVote(votes: seq<ModelReview>, d: GateDecision) {
    exists v :: v in votes && v.gate.AtLeast(d)
  }

  /** Some vote is at most one level below d. */
  predicate SomeVoteBelow(votes: seq<ModelReview>, d: GateDecision) {
    exists v :: v in votes && v.gate.Severity() + 1 >= d.Severity()
  }

  /** The first decision with the most votes reaches the quota and d; or it misses the quota, and some
      vote reaches d. */
  predicate WinnerAtLeast(votes: seq<ModelReview>, ratio: real, d: GateDecision) {
    exists i :: 0 <= i < |votes| && IsPluralityAt(votes, i) &&
      if Votes(votes, votes[i].gate) as real >= Times(ratio, |votes|) then votes[i].gate.AtLeast(d)
        else SomeVote(votes, d)
  }

  predicate DecidesAtLeast(c: Config, votes: seq<ModelReview>, d: GateDecision) {
    match c.strategy
    case STRICTEST => SomeVote(votes, d)
    case UNANIMOUS => if AllAgree(votes) then SomeVote(votes, d) else SomeVoteBelow(votes, d)
    case MAJORITY => WinnerAtLeast(votes, c.minAgreement, d)
  }

  lemma StrictestReaches(votes: seq<ModelReview>, d: GateDecision)
    requires votes != []
    ensures Strictest(votes).gate.AtLeast(d) <==> SomeVote(votes, d)
    ensures Escalate(Strictest(votes).gate).AtLeast(d) <==> SomeVoteBelow(votes, d)
    ensures AllAgree(votes) ==> votes[0].gate == Strictest(votes).gate
  {
    var top := Strictest(votes);
    assert top in votes && votes[0] in votes;
    forall v | v in votes ensures top.gate.AtLeast(v.gate) {}
  }

  lemma MajorityReaches(votes: seq<ModelReview>, ratio: real, d: GateDecision)
    requires votes != []
    ensures Majority(votes, ratio).AtLeast(d) <==> WinnerAtLeast(votes, ratio, d)
  {
    var first := Leader(votes, 0);
    LeaderIsPlurality(votes);
    StrictestReaches(votes, d);
    forall i | IsPluralityAt(votes, i) ensures i == first {
      PluralityUnique(votes, i, first);
    }
  }

  /** The lift of an AUTO_PASS without consensus stays below L2. */
  lemma OutcomeDecides(c: Config, reviews: seq<ModelReview>, d: GateDecision)
    requires Successful(reviews) != [] && d.AtLeast(L2_HUMAN)
    ensures Resolve(c, reviews).decision.AtLeast(d) <==> Outcome(c, Successful(reviews)).0.AtLeast(d)
  {
    hide Successful, Outcome, Variance, Scores, Average;
  }

  /** From L2 up, the resolved decision is what the votes say under the strategy. */
  lemma DecisionByVotes(c: Config, reviews: seq<ModelReview>, d: GateDecision)
    requires Successful(reviews) != [] && d.AtLeast(L2_HUMAN)
    ensures Resolve(c, reviews).decision.AtLeast(d) <==> DecidesAtLeast(c, Successful(reviews), d)
  {
    OutcomeDecides(c, reviews, d);
    hide Resolve, Successful, Strictest, Majority, SomeVote, SomeVoteBelow, WinnerAtLeast, AllAgree;
    var votes := Successful(reviews);
    StrictestReaches(votes, d);
    MajorityReaches(votes, c.minAgreement, d);
  }

  lemma ReachedByVotes(c: Config, reviews: seq<ModelReview>)
    requires Successful(reviews) != []
    ensures Resolve(c, reviews).reached <==> !Dissents(c, Successful(reviews))
  {
    if c.strategy.UNANIMOUS? {
      UnanimousReachedIff(c, reviews);
    }
  }

  // ---- the gate of each mode ----

  /** Several models are configured, whatever the mode. */
  predicate Configured(reg: Registry) {
    reg.reviewer.Some? && reg.reviewer.value.strategy.Some? && reg.reviewer.value.models != []
  }

  function InMode(reg: Registry, mode: Mode): Registry
    requires Configured(reg)
  {
    reg.(reviewer := Some(reg.reviewer.value.(mode := mode)))
  }

  function GateInMode(reg: Registry, mode: Mode, q: QualityGates, reviews: seq<ModelReview>, c: Change): GateDecision
    requires Configured(reg)
  {
    GateAfter(q, InMode(reg, mode), false, reviews, c)
  }

  function ConfigOf(reg: Registry): Config
    requires Configured(reg)
  {
    Gating(reg.reviewer.value)
  }

  /** The merged record without its consensus: what the policy alone sees. */
  function Alone(reg: Registry, q: QualityGates, reviews: seq<ModelReview>): QualityGates
    requires Configured(reg)
  {
    Merged(q, reviews, Resolve(ConfigOf(reg), reviews)).(consensusScore := None)
  }

  /** The first unless the second is stricter. */
  function Stricter(a: GateDecision, b: GateDecision): (r: GateDecision)
    ensures r.AtLeast(a) && r.AtLeast(b) && (r == a || r == b)
  {
    if a.Severity() > b.Severity() then a else b
  }

  /** Without a consensus the decision recorded so far plays no part. */
  lemma GateIgnoresRecord(q: QualityGates, p: QualityPolicy, c: Change, recorded: GateDecision)
    requires q.consensusScore.None?
    ensures Gate(q.(gate := recorded), p, c) == Gate(q, p, c)
  {
    forall d ensures Demanded(q.(gate := recorded), p, c, d) <==> Demanded(q, p, c, d) {}
  }

  /** The gate in CONSENSUS and in STRICT mode as a join of the policy and one decision; a single
      reviewer leaves it to the policy. */
  lemma ModesJoin(reg: Registry, q: QualityGates, reviews: seq<ModelReview>, c: Change)
    requires Configured(reg) && q.gate == L2_HUMAN
    ensures var r := Resolve(ConfigOf(reg), reviews); var policy := Gate(Alone(reg, q, reviews), reg.policy, c);
      && GateInMode(reg, SINGLE, q, reviews, c) == Gate(q, reg.policy, c)
      && GateInMode(reg, CONSENSUS, q, reviews, c) == Stricter(r.decision, policy)
      && GateInMode(reg, STRICT, q, reviews, c) == Stricter(if r.reached then r.decision else L2_HUMAN, policy)
  {
    hide Resolve, Gate, Demanded;
    var m := Merged(q, reviews, Resolve(ConfigOf(reg), reviews));
    NoSuccessIsHuman(ConfigOf(reg), reviews);
    assert m.gate == Resolve(ConfigOf(reg), reviews).decision;
    GateJoins(m, reg.policy, c);
    GateJoins(m.(gate := L2_HUMAN), reg.policy, c);
    GateIgnoresRecord(Alone(reg, q, reviews), reg.policy, c, L2_HUMAN);
    assert m.(gate := L2_HUMAN).(consensusScore := None) == Alone(reg, q, reviews).(gate := L2_HUMAN);
  }

  /** The policy's own decision, level by level. */
  lemma PolicyLevels(q: QualityGates, p: QualityPolicy, c: Change)
    requires q.consensusScore.None?
    ensures Gate(q, p, c) == L4_DEPLOY <==> c.deploy
    ensures Gate(q, p, c).AtLeast(L3_HALT) <==> c.deploy || DemandsHalt(q)
    ensures Gate(q, p, c).AtLeast(L2_HUMAN) <==>
      c.deploy || DemandsHalt(q) || BelowPolicy(q, p, c) || q.pathGuard || Guarded(p, c) || SopTooLow(q, p)
  {}

  /** Merging changes what is measured in the score alone. */
  lemma AloneMeasures(reg: Registry, q: QualityGates, reviews: seq<ModelReview>)
    requires Configured(reg)
    ensures var m := Alone(reg, q, reviews);
      && m.consensusScore.None? && (DemandsHalt(m) <==> DemandsHalt(q)) && m.pathGuard == q.pathGuard
      && (SopTooLow(m, reg.policy) <==> SopTooLow(q, reg.policy))
      && (DemandsRework(m, reg.policy) <==> DemandsRework(q, reg.policy))
      && m.reviewScore == (if Successful(reviews) == [] then q.reviewScore
        else Round(RoundTenth(Average(Scores(Successful(reviews))))))
      && forall c :: BelowPolicy(m, reg.policy, c) <==> BelowPolicy(q.(reviewScore := m.reviewScore), reg.policy, c)
  {}

  // ---- the modes compared ----

  /** STRICT mode is laxer than CONSENSUS mode exactly when the models dissent, the votes decide for a
      halt or more, and the policy does not stop at that level by itself: the overwrite with L2 loses
      the decision. */
  lemma StrictIsLaxerIff(reg: Registry, q: QualityGates, reviews: seq<ModelReview>, c: Change)
    requires Configured(reg) && q.gate == L2_HUMAN
    ensures var votes := Successful(reviews);
      GateInMode(reg, STRICT, q, reviews, c).Severity() < GateInMode(reg, CONSENSUS, q, reviews, c).Severity()
      <==> && votes != [] && Dissents(ConfigOf(reg), votes) && DecidesAtLeast(ConfigOf(reg), votes, L3_HALT)
           && !c.deploy && (DecidesAtLeast(ConfigOf(reg), votes, L4_DEPLOY) || !DemandsHalt(q))
  {
    hide Resolve, Gate, GateInMode, Alone, Dissents, DecidesAtLeast, DemandsHalt, Successful;
    ModesJoin(reg, q, reviews, c);
    AloneMeasures(reg, q, reviews);
    PolicyLevels(Alone(reg, q, reviews), reg.policy, c);
    NoSuccessIsHuman(ConfigOf(reg), reviews);
    if Successful(reviews) != [] {
      ReachedByVotes(ConfigOf(reg), reviews);
      DecisionByVotes(ConfigOf(reg), reviews, L3_HALT);
      DecisionByVotes(ConfigOf(reg), reviews, L4_DEPLOY);
    }
  }

  /** CONSENSUS mode is laxer than a single reviewer exactly when the models lift a score below the
      threshold to it, their votes do not decide for a human, and nothing else asks for one. */
  lemma ConsensusIsLaxerIff(reg: Registry, q: QualityGates, reviews: seq<ModelReview>, c: Change)
    requires Configured(reg) && q.gate == L2_HUMAN && q.consensusScore.None?
    ensures var votes, p := Successful(reviews), reg.policy;
      GateInMode(reg, CONSENSUS, q, reviews, c).Severity() < GateInMode(reg, SINGLE, q, reviews, c).Severity()
      <==> && votes != [] && !DecidesAtLeast(ConfigOf(reg), votes, L2_HUMAN) && q.reviewScore < p.reviewScoreThreshold
           && !BelowPolicy(q.(reviewScore := Round(RoundTenth(Average(Scores(votes))))), p, c)
           && !DemandsHalt(q) && !c.deploy && !q.pathGuard && !Guarded(p, c) && !SopTooLow(q, p)
  {
    hide Resolve, Gate, GateInMode, Alone, DecidesAtLeast, DemandsHalt, Successful, Guarded, SopTooLow;
    var m := Alone(reg, q, reviews);
    ModesJoin(reg, q, reviews, c);
    AloneMeasures(reg, q, reviews);
    PolicyLevels(q, reg.policy, c);
    PolicyLevels(m, reg.policy, c);
    NoSuccessIsHuman(ConfigOf(reg), reviews);
    if !Gate(q, reg.policy, c).AtLeast(L2_HUMAN) && !Gate(m, reg.policy, c).AtLeast(L2_HUMAN) {
      SameBelowHuman(q, m, reg.policy, c);
    }
    if Successful(reviews) != [] {
      DecisionByVotes(ConfigOf(reg), reviews, L2_HUMAN);
    }
  }

  /** If neither record asks for a human, whether rework is due does not depend on the score. */
  lemma SameBelowHuman(q: QualityGates, m: QualityGates, p: QualityPolicy, c: Change)
    requires q.consensusScore.None? && m.consensusScore.None? && (DemandsRework(m, p) <==> DemandsRework(q, p))
    requires !Gate(q, p, c).AtLeast(L2_HUMAN) && !Gate(m, p, c).AtLeast(L2_HUMAN)
    ensures Gate(q, p, c) == Gate(m, p, c)
  {}

  // ---- the two modes at work ----

  /** A record that the policy below has nothing to say about. */
  const CLEAN := QualityGates(0, 100.0, PASSED, PASSED, 0, 0, 0, 80, [], L2_HUMAN, None, false, None, None, None, [])

  /** The default thresholds, without the word lists. */
  const POLICY := QualityPolicy(80, 70, 3, true, true, 70, [], [])

  const QUIET := Change(false, false, false, 0, [], "")

  function Models(strategy: Strategy): Registry {
    Registry(POLICY, Some(ReviewerConfig(CONSENSUS, [ModelId("a"), ModelId("b")], Some(strategy), 20.0)))
  }

  function Vote(gate: GateDecision, score: int): ModelReview {
    ModelReview(ModelId("m"), score, gate, [], false)
  }

  lemma TwoVotes(v: ModelReview, w: ModelReview)
    requires !v.failed && !w.failed
    ensures Successful([v, w]) == [v, w]
  {
    assert [v, w][1..] == [w] && [w][1..] == [] && Successful([w]) == [w] + Successful([]);
  }

  /** One model asks for a human and one for a halt: CONSENSUS mode escalates to L4, STRICT mode
      overwrites that with L2. */
  lemma StrictLosesHalt()
    ensures var reviews := [Vote(L2_HUMAN, 80), Vote(L3_HALT, 80)];
      && GateInMode(Models(UNANIMOUS), CONSENSUS, CLEAN, reviews, QUIET) == L4_DEPLOY
      && GateInMode(Models(UNANIMOUS), STRICT, CLEAN, reviews, QUIET) == L2_HUMAN
  {
    hide Resolve, Gate, GateInMode, Alone;
    var reg, v, w := Models(UNANIMOUS), Vote(L2_HUMAN, 80), Vote(L3_HALT, 80);
    var votes := [v, w];
    TwoVotes(v, w);
    assert v in votes && w in votes;
    DecisionByVotes(ConfigOf(reg), votes, L4_DEPLOY);
    ReachedByVotes(ConfigOf(reg), votes);
    ModesJoin(reg, CLEAN, votes, QUIET);
    AloneMeasures(reg, CLEAN, votes);
    PolicyLevels(Alone(reg, CLEAN, votes), POLICY, QUIET);
  }

  lemma EqualScores(v: ModelReview, w: ModelReview)
    requires v.score == w.score
    ensures Average(Scores([v, w])) == v.score as real && Variance(Scores([v, w])) == 0.0
  {
    var s, x := Scores([v, w]), v.score as real;
    assert s == [x, x] && s[1..] == [x] && s[1..][1..] == [];
    assert Sum(s[1..]) == x + Sum([]) == x;
    assert SquaredDeviations(s[1..], x) == Square(x - x) + SquaredDeviations([], x) == 0.0;
  }

  /** The reviewer's score of 60 stops for a human; two models that pass with 80 replace it. */
  lemma ConsensusLiftsScore()
    ensures var q, reviews := CLEAN.(reviewScore := 60), [Vote(AUTO_PASS, 80), Vote(AUTO_PASS, 80)];
      && GateInMode(Models(STRICTEST), SINGLE, q, reviews, QUIET) == L2_HUMAN
      && GateInMode(Models(STRICTEST), CONSENSUS, q, reviews, QUIET) == AUTO_PASS
  {
    var reg, q, v := Models(STRICTEST), CLEAN.(reviewScore := 60), Vote(AUTO_PASS, 80);
    var votes := [v, v];
    TwoVotes(v, v);
    EqualScores(v, v);
    ReachedByVotes(ConfigOf(reg), votes);
    ModesJoin(reg, q, votes, QUIET);
    AloneMeasures(reg, q, votes);
    assert RoundTenth(80.0) == 80.0 && Round(80.0) == 80;
    AutoPassIff(Alone(reg, q, votes), POLICY, QUIET);
    PolicyLevels(q, POLICY, QUIET);
  }
}
