/** src/gate/consensus.py: whether stricter votes can lead to a laxer outcome. */
module VoteMonotonicity {
  import opened Arithmetic
  import opened Consensus
  import opened GateEvaluator
  import opened Gates
  import opened Pipeline
  import opened ReviewModes

  /** The same models succeed with the same scores, and each votes at least as strictly. */
  predicate StricterVotes(a: seq<ModelReview>, b: seq<ModelReview>) {
    && |a| == |b|
    && forall i :: 0 <= i < |a| ==>
      a[i].failed == b[i].failed && a[i].score == b[i].score && b[i].gate.AtLeast(a[i].gate)
  }

  lemma {:induction false} SuccessfulStricter(a: seq<ModelReview>, b: seq<ModelReview>)
    requires StricterVotes(a, b)
    ensures StricterVotes(Successful(a), Successful(b))
  {
    if a != [] {
      assert StricterVotes(a[1..], b[1..]) by {
        assert forall i :: 0 <= i < |a[1..]| ==> a[1..][i] == a[i + 1] && b[1..][i] == b[i + 1];
      }
      SuccessfulStricter(a[1..], b[1..]);
      var own, other := if a[0].failed then [] else [a[0]], if b[0].failed then [] else [b[0]];
      StricterAppend(own, Successful(a[1..]), other, Successful(b[1..]));
    }
  }

  lemma StricterAppend(a: seq<ModelReview>, rest: seq<ModelReview>, b: seq<ModelReview>, more: seq<ModelReview>)
    requires StricterVotes(a, b) && StricterVotes(rest, more)
    ensures StricterVotes(a + rest, b + more)
  {}

  lemma StrictestRises(a: seq<ModelReview>, b: seq<ModelReview>)
    requires StricterVotes(a, b) && a != []
    ensures Strictest(b).gate.AtLeast(Strictest(a).gate)
    ensures Scores(a) == Scores(b)
  {
    var i :| 0 <= i < |a| && a[i] == Strictest(a);
    assert b[i] in b;
  }

  /** Under STRICTEST stricter votes never lead to a laxer decision. */
  lemma StrictestIsMonotone(c: Config, a: seq<ModelReview>, b: seq<ModelReview>)
    requires c.strategy.STRICTEST? && StricterVotes(a, b)
    ensures Resolve(c, b).decision.AtLeast(Resolve(c, a).decision)
    ensures Resolve(c, b).reached == Resolve(c, a).reached && Resolve(c, b).score == Resolve(c, a).score
  {
    var votes, other := Successful(a), Successful(b);
    SuccessfulStricter(a, b);
    if votes != [] {
      StrictestRises(votes, other);
    }
  }

  /** Nor to a laxer gate, in CONSENSUS and in STRICT mode. */
  lemma StrictestGateIsMonotone(q: QualityGates, reg: Registry, a: seq<ModelReview>, b: seq<ModelReview>, c: Change,
          mode: Mode)
    requires Configured(reg) && ConfigOf(reg).strategy.STRICTEST? && q.gate == L2_HUMAN && mode in {CONSENSUS, STRICT}
    requires StricterVotes(a, b)
    ensures GateInMode(reg, mode, q, b, c).AtLeast(GateInMode(reg, mode, q, a, c))
  {
    hide Resolve, Successful, Gate, GateInMode;
    ModesJoin(reg, q, a, c);
    ModesJoin(reg, q, b, c);
    StrictestIsMonotone(ConfigOf(reg), a, b);
    SamePolicy(reg, q, a, b, c);
  }

  lemma SamePolicy(reg: Registry, q: QualityGates, a: seq<ModelReview>, b: seq<ModelReview>, c: Change)
    requires Configured(reg) && StricterVotes(a, b)
    ensures Gate(Alone(reg, q, a), reg.policy, c) == Gate(Alone(reg, q, b), reg.policy, c)
  {
    SuccessfulStricter(a, b);
    if Successful(a) != [] {
      StrictestRises(Successful(a), Successful(b));
    }
    hide Resolve, Successful, Alone, Gate, Demanded, DemandsHalt, DemandsRework, Guarded, SopTooLow;
    var m, n := Alone(reg, q, a), Alone(reg, q, b);
    AloneMeasures(reg, q, a);
    AloneMeasures(reg, q, b);
    PolicyLevels(m, reg.policy, c);
    PolicyLevels(n, reg.policy, c);
    if !Gate(m, reg.policy, c).AtLeast(L2_HUMAN) {
      SameBelowHuman(m, n, reg.policy, c);
    }
  }

  /** Under UNANIMOUS stricter votes do lead to a laxer decision exactly if they end a disagreement on
      the level that was the strictest before: that level is then no longer raised. */
  lemma UnanimousFallsIff(c: Config, a: seq<ModelReview>, b: seq<ModelReview>)
    requires c.strategy.UNANIMOUS? && StricterVotes(a, b)
    ensures Resolve(c, b).decision.Severity() < Resolve(c, a).decision.Severity() <==>
      var votes, other := Successful(a), Successful(b);
      && votes != [] && !AllAgree(votes) && Strictest(votes).gate != L4_DEPLOY
      && forall w :: w in other ==> w.gate == Strictest(votes).gate
  {
    hide *;
    var votes, other := Successful(a), Successful(b);
    SuccessfulStricter(a, b);
    NoSuccessIsHuman(c, a);
    NoSuccessIsHuman(c, b);
    if votes != [] {
      StrictestRises(votes, other);
      UnanimousDecision(c, a);
      UnanimousDecision(c, b);
      AgreedOn(other, Strictest(votes).gate);
      RaisedOrNot(Strictest(votes).gate, AllAgree(votes), Strictest(other).gate, AllAgree(other));
    }
  }

  lemma RaisedOrNot(a: GateDecision, agreedA: bool, b: GateDecision, agreedB: bool)
    requires b.AtLeast(a)
    ensures (if agreedB then b else Escalate(b)).Severity() < (if agreedA then a else Escalate(a)).Severity()
      <==> !agreedA && agreedB && a == b && a != L4_DEPLOY
  {}

  lemma AgreedOn(votes: seq<ModelReview>, d: GateDecision)
    requires votes != []
    ensures (forall v :: v in votes ==> v.gate == d) <==> AllAgree(votes) && Strictest(votes).gate == d
  {
    assert Strictest(votes) in votes;
  }

  /** The decision under UNANIMOUS; a disagreement never leaves AUTO_PASS as the outcome. */
  lemma UnanimousDecision(c: Config, reviews: seq<ModelReview>)
    requires c.strategy.UNANIMOUS? && Successful(reviews) != []
    ensures var votes := Successful(reviews);
      Resolve(c, reviews).decision == if AllAgree(votes) then Strictest(votes).gate else Escalate(Strictest(votes).gate)
  {
    var votes := Successful(reviews);
    UnanimousReachedIff(c, reviews);
    assert Strictest(votes) in votes && votes[0] in votes;
  }

  /** L2 and AUTO_PASS resolve to a halt; two times L2, which is stricter, resolves to L2. */
  lemma StricterVoteLowersUnanimous(c: Config)
    requires c.strategy.UNANIMOUS?
    ensures var a, b := [Vote(AUTO_PASS, 80), Vote(L2_HUMAN, 80)], [Vote(L2_HUMAN, 80), Vote(L2_HUMAN, 80)];
      StricterVotes(a, b) && Resolve(c, a).decision == L3_HALT && Resolve(c, b).decision == L2_HUMAN
  {
    UnanimousOfTwo(c, Vote(AUTO_PASS, 80), Vote(L2_HUMAN, 80));
    UnanimousOfTwo(c, Vote(L2_HUMAN, 80), Vote(L2_HUMAN, 80));
  }

  lemma UnanimousOfTwo(c: Config, v: ModelReview, w: ModelReview)
    requires c.strategy.UNANIMOUS? && !v.failed && !w.failed && w.gate.AtLeast(v.gate)
    ensures Resolve(c, [v, w]).decision == if v.gate == w.gate then w.gate else Escalate(w.gate)
  {
    hide Resolve, Successful;
    TwoVotes(v, w);
    UnanimousDecision(c, [v, w]);
    assert v in [v, w] && w in [v, w];
  }

  /** The lowest level that makes a difference to g: a failed consensus lifts AUTO_PASS to L1 anyway. */
  function Above(c: Config, votes: seq<ModelReview>, g: GateDecision): GateDecision
    requires votes != []
  {
    if g == AUTO_PASS && Dissents(c, votes) then L2_HUMAN else Escalate(g)
  }

  /** Under MAJORITY stricter votes lead to a laxer decision exactly if, counting them, the first
      decision with the most votes meets the quota, and counting the votes before, their winner or
      strictest vote made a difference above it. */
  lemma MajorityFallsIff(c: Config, a: seq<ModelReview>, b: seq<ModelReview>)
    requires c.strategy.MAJORITY? && StricterVotes(a, b)
    ensures Resolve(c, b).decision.Severity() < Resolve(c, a).decision.Severity() <==>
      var votes, other := Successful(a), Successful(b);
      exists i :: 0 <= i < |other| && IsPluralityAt(other, i)
        && Votes(other, other[i].gate) as real >= Times(c.minAgreement, |other|)
        && other[i].gate != L4_DEPLOY && WinnerAtLeast(votes, c.minAgreement, Above(c, votes, other[i].gate))
  {
    hide *;
    SuccessfulStricter(a, b);
    SameSuccess(a, b);
    if Successful(a) == [] {
      NoSuccessIsHuman(c, a);
      NoSuccessIsHuman(c, b);
    } else {
      MajorityDecision(c, a);
      MajorityDecision(c, b);
      SameReached(c, a, b);
      ReachedByVotes(c, a);
      WinnerFallsIff(c, Successful(a), Successful(b));
    }
  }

  lemma SameSuccess(a: seq<ModelReview>, b: seq<ModelReview>)
    requires StricterVotes(Successful(a), Successful(b))
    ensures |Successful(a)| == |Successful(b)| && (Successful(a) == [] <==> Successful(b) == [])
  {}

  lemma SameReached(c: Config, a: seq<ModelReview>, b: seq<ModelReview>)
    requires !c.strategy.UNANIMOUS? && Successful(a) != [] && StricterVotes(Successful(a), Successful(b))
    ensures Resolve(c, a).reached == Resolve(c, b).reached
  {
    StrictestRises(Successful(a), Successful(b));
    hide Successful, Strictest, Majority, Variance, Average;
  }

  /** A failed consensus turns AUTO_PASS into L1. */
  function Lifted(failed: bool, d: GateDecision): GateDecision {
    if failed && d == AUTO_PASS then L1_REWORK else d
  }

  /** The decision under MAJORITY, with the lift of an AUTO_PASS without consensus. */
  lemma MajorityDecision(c: Config, reviews: seq<ModelReview>)
    requires c.strategy.MAJORITY? && Successful(reviews) != []
    ensures var outcome := Majority(Successful(reviews), c.minAgreement);
      && Resolve(c, reviews).decision == Lifted(!Resolve(c, reviews).reached, outcome)
      && (outcome != AUTO_PASS ==> Resolve(c, reviews).decision == outcome)
  {
    hide Successful, Strictest, Majority, Variance, Average, Scores;
  }

  /** The difference between two outcomes, on the counts; d stands for a failed consensus. */
  lemma WinnerFallsIff(c: Config, a: seq<ModelReview>, b: seq<ModelReview>)
    requires a != [] && StricterVotes(a, b)
    ensures var x, y, d := Majority(a, c.minAgreement), Majority(b, c.minAgreement), Dissents(c, a);
      Lifted(d, y).Severity() < Lifted(d, x).Severity() <==>
      exists i :: 0 <= i < |b| && IsPluralityAt(b, i) && Votes(b, b[i].gate) as real >= Times(c.minAgreement, |b|)
        && b[i].gate != L4_DEPLOY && WinnerAtLeast(a, c.minAgreement, Above(c, a, b[i].gate))
  {
    assert b != [];
    hide *;
    var first := MajorityByCount(b, c.minAgreement);
    MajorityReaches(a, c.minAgreement, Above(c, a, b[first].gate));
    AboveIs(c, a, b[first].gate);
    StrictestRises(a, b);
    MajorityAtMostStrictest(a, c.minAgreement);
    LiftedFallsIff(Dissents(c, a), Majority(a, c.minAgreement), Majority(b, c.minAgreement), b[first].gate,
                   Votes(b, b[first].gate) as real >= Times(c.minAgreement, |b|), Above(c, a, b[first].gate));
  }

  lemma AboveIs(c: Config, votes: seq<ModelReview>, g: GateDecision)
    requires votes != []
    ensures Above(c, votes, g) == if g == AUTO_PASS && Dissents(c, votes) then L2_HUMAN else Escalate(g)
  {
    hide Dissents;
  }

  /** The outcome, told from the one position that the count singles out. */
  lemma MajorityByCount(votes: seq<ModelReview>, ratio: real) returns (first: nat)
    requires votes != []
    ensures first < |votes| && IsPluralityAt(votes, first) && forall i :: IsPluralityAt(votes, i) ==> i == first
    ensures Majority(votes, ratio) ==
      if Votes(votes, votes[first].gate) as real >= Times(ratio, |votes|) then votes[first].gate
        else Strictest(votes).gate
  {
    first := Leader(votes, 0);
    LeaderIsPlurality(votes);
    hide Votes, Times, Strictest, IsPluralityAt, Leader;
    forall i | IsPluralityAt(votes, i) ensures i == first {
      PluralityUnique(votes, i, first);
    }
  }

  lemma MajorityAtMostStrictest(votes: seq<ModelReview>, ratio: real)
    requires votes != []
    ensures Strictest(votes).gate.AtLeast(Majority(votes, ratio))
  {
    PluralityIsVote(votes);
  }

  lemma LiftedFallsIff(d: bool, x: GateDecision, y: GateDecision, g: GateDecision, carried: bool, above: GateDecision)
    requires if carried then y == g else y.AtLeast(x)
    requires above == if g == AUTO_PASS && d then L2_HUMAN else Escalate(g)
    ensures Lifted(d, y).Severity() < Lifted(d, x).Severity()
      <==> carried && g != L4_DEPLOY && x.AtLeast(above)
  {}

  /** One vote for AUTO_PASS, one for L1 and two for L3 resolve to L3; raising the first to L1 and the
      last to L4 gives L1 the quota. */
  lemma StricterVoteLowersMajority(c: Config)
    requires c.strategy.MAJORITY? && c.minAgreement == 0.5
    ensures var a, b := Votes4(AUTO_PASS, L1_REWORK, L3_HALT, L3_HALT),
      Votes4(L1_REWORK, L1_REWORK, L3_HALT, L4_DEPLOY);
      StricterVotes(a, b) && Resolve(c, a).decision == L3_HALT && Resolve(c, b).decision == L1_REWORK
  {
    var a, b := Votes4(AUTO_PASS, L1_REWORK, L3_HALT, L3_HALT), Votes4(L1_REWORK, L1_REWORK, L3_HALT, L4_DEPLOY);
    RaisedFour();
    hide *;
    AllFourSucceed(AUTO_PASS, L1_REWORK, L3_HALT, L3_HALT);
    AllFourSucceed(L1_REWORK, L1_REWORK, L3_HALT, L4_DEPLOY);
    HaltWins();
    ReworkWins();
    MajorityDecision(c, a);
    MajorityDecision(c, b);
  }

  function Votes4(w: GateDecision, x: GateDecision, y: GateDecision, z: GateDecision): seq<ModelReview> {
    [Vote(w, 80), Vote(x, 80), Vote(y, 80), Vote(z, 80)]
  }

  function Count(d: GateDecision, e: GateDecision): nat {
    if d == e then 1 else 0
  }

  lemma RaisedFour()
    ensures StricterVotes(Votes4(AUTO_PASS, L1_REWORK, L3_HALT, L3_HALT),
      Votes4(L1_REWORK, L1_REWORK, L3_HALT, L4_DEPLOY))
    ensures Votes4(AUTO_PASS, L1_REWORK, L3_HALT, L3_HALT) != []
      && Votes4(L1_REWORK, L1_REWORK, L3_HALT, L4_DEPLOY) != []
  {}

  lemma SuccessCons(v: ModelReview, rest: seq<ModelReview>)
    requires !v.failed && Successful(rest) == rest
    ensures Successful([v] + rest) == [v] + rest
  {
    assert ([v] + rest)[1..] == rest;
  }

  lemma AllFourSucceed(w: GateDecision, x: GateDecision, y: GateDecision, z: GateDecision)
    ensures Successful(Votes4(w, x, y, z)) == Votes4(w, x, y, z)
  {
    hide Successful;
    TwoVotes(Vote(y, 80), Vote(z, 80));
    SuccessCons(Vote(x, 80), [Vote(y, 80), Vote(z, 80)]);
    SuccessCons(Vote(w, 80), [Vote(x, 80)] + [Vote(y, 80), Vote(z, 80)]);
    assert Votes4(w, x, y, z) == [Vote(w, 80)] + ([Vote(x, 80)] + [Vote(y, 80), Vote(z, 80)]);
  }

  lemma VotesCons(v: ModelReview, rest: seq<ModelReview>, d: GateDecision)
    ensures Votes([v] + rest, d) == Count(v.gate, d) + Votes(rest, d)
  {
    assert ([v] + rest)[1..] == rest;
  }

  lemma FourVotes(w: GateDecision, x: GateDecision, y: GateDecision, z: GateDecision, d: GateDecision)
    ensures Votes(Votes4(w, x, y, z), d) == Count(w, d) + Count(x, d) + Count(y, d) + Count(z, d)
  {
    hide Votes;
    TwoCounts(Vote(y, 80), Vote(z, 80));
    VotesCons(Vote(x, 80), [Vote(y, 80), Vote(z, 80)], d);
    VotesCons(Vote(w, 80), [Vote(x, 80)] + [Vote(y, 80), Vote(z, 80)], d);
    assert Votes4(w, x, y, z) == [Vote(w, 80)] + ([Vote(x, 80)] + [Vote(y, 80), Vote(z, 80)]);
  }

  lemma HaltWins()
    ensures Majority(Votes4(AUTO_PASS, L1_REWORK, L3_HALT, L3_HALT), 0.5) == L3_HALT
  {
    hide Votes, Majority;
    var votes := Votes4(AUTO_PASS, L1_REWORK, L3_HALT, L3_HALT);
    forall d
      ensures Votes(votes, d) == Count(AUTO_PASS, d) + Count(L1_REWORK, d) + Count(L3_HALT, d) + Count(L3_HALT, d)
    {
      FourVotes(AUTO_PASS, L1_REWORK, L3_HALT, L3_HALT, d);
    }
    PluralityOfFour(votes, 2, 0.5);
  }

  lemma ReworkWins()
    ensures Majority(Votes4(L1_REWORK, L1_REWORK, L3_HALT, L4_DEPLOY), 0.5) == L1_REWORK
  {
    hide Votes, Majority;
    var votes := Votes4(L1_REWORK, L1_REWORK, L3_HALT, L4_DEPLOY);
    forall d
      ensures Votes(votes, d) == Count(L1_REWORK, d) + Count(L1_REWORK, d) + Count(L3_HALT, d) + Count(L4_DEPLOY, d)
    {
      FourVotes(L1_REWORK, L1_REWORK, L3_HALT, L4_DEPLOY, d);
    }
    PluralityOfFour(votes, 0, 0.5);
  }

  /** With two of four votes the first decision to have the most wins at a ratio of one half. */
  lemma PluralityOfFour(votes: seq<ModelReview>, i: nat, ratio: real)
    requires |votes| == 4 && ratio == 0.5 && IsPluralityAt(votes, i) && Votes(votes, votes[i].gate) == 2
    ensures Majority(votes, ratio) == votes[i].gate
  {
    LeaderIsPlurality(votes);
    PluralityUnique(votes, i, Leader(votes, 0));
    hide Votes, Leader, Strictest;
    TimesIsProduct(ratio, 4);
  }

  lemma PluralityIsVote(votes: seq<ModelReview>)
    requires votes != []
    ensures Strictest(votes).gate.AtLeast(Plurality(votes))
  {
    assert votes[Leader(votes, 0)] in votes;
  }
}
