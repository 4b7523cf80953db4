/** src/gate/consensus.py: the counting loop of `_resolve_majority`, and `_resolve_consensus`. */
module ConsensusGate {
  import opened Arithmetic
  import opened Consensus
  import opened Gates
  import opened Sorting

  type Count = (GateDecision, nat)

  /** `key=lambda x: x[1], reverse=True` */
  function ByCount(): (Count, Count) -> bool {
    (x: Count, y: Count) => x.1 > y.1
  }

  /** The decisions in the order in which they are first voted: the key order of the dict. */
  function FirstVotes(votes: seq<ModelReview>): (r: seq<GateDecision>)
    ensures forall d :: d in r <==> exists j :: 0 <= j < |votes| && votes[j].gate == d
  {
    if votes == [] then []
    else
      var init, last := votes[..|votes| - 1], votes[|votes| - 1].gate;
      if last in FirstVotes(init) then FirstVotes(init) else FirstVotes(init) + [last]
  }

  predicate Counted(votes: seq<ModelReview>, counts: map<GateDecision, nat>) {
    forall d :: (d in counts <==> Votes(votes, d) > 0) && (d in counts ==> counts[d] == Votes(votes, d))
  }

  lemma CountOne(votes: seq<ModelReview>, i: nat, d: GateDecision)
    requires i < |votes|
    ensures Votes(votes[..i + 1], d) == Votes(votes[..i], d) + if votes[i].gate == d then 1 else 0
  {
    assert votes[..i + 1] == votes[..i] + [votes[i]];
    VotesAppend(votes[..i], [votes[i]], d);
  }

  lemma VotedIsListed(votes: seq<ModelReview>, d: GateDecision)
    ensures d in FirstVotes(votes) <==> Votes(votes, d) > 0
  {
    if Votes(votes, d) > 0 {
      var i := VoteCast(votes, d);
    }
    if d in FirstVotes(votes) {
      var j :| 0 <= j < |votes| && votes[j].gate == d;
      CastCounts(votes, j);
    }
  }

  /** Counting a prefix lists a prefix. */
  lemma {:induction false} FirstVotesPrefix(votes: seq<ModelReview>, i: nat)
    requires i <= |votes|
    ensures FirstVotes(votes[..i]) <= FirstVotes(votes)
  {
    if i == |votes| {
      assert votes[..i] == votes;
    } else {
      assert votes[..|votes| - 1][..i] == votes[..i];
      FirstVotesPrefix(votes[..|votes| - 1], i);
    }
  }

  /** The plurality is listed after decisions with fewer votes only. */
  lemma PluralityPosition(votes: seq<ModelReview>) returns (k: nat)
    requires votes != []
    ensures k < |FirstVotes(votes)| && FirstVotes(votes)[k] == Plurality(votes)
    ensures forall j :: 0 <= j < k ==> Votes(votes, FirstVotes(votes)[j]) < Votes(votes, Plurality(votes))
  {
    var p := Leader(votes, 0);
    LeaderLeads(votes, 0);
    var earlier := FirstVotes(votes[..p]);
    k := |earlier|;
    FirstVotesPrefix(votes, p);
    FirstVotesPrefix(votes, p + 1);
    assert votes[..p + 1][..p] == votes[..p];
    forall j | 0 <= j < k ensures Votes(votes, earlier[j]) < Votes(votes, Plurality(votes)) {
      assert earlier[j] in earlier;
      var m :| 0 <= m < p && votes[..p][m].gate == earlier[j];
    }
    assert Plurality(votes) !in earlier;
    assert FirstVotes(votes[..p + 1]) == earlier + [Plurality(votes)];
  }

  /** A stable sort starts with the first of the greatest. */
  lemma {:induction false} HeadOfSort<T(!new)>(before: (T, T) -> bool, s: seq<T>, k: nat)
    requires StrictWeakOrder(before) && k < |s|
    requires forall j :: 0 <= j < |s| ==> !before(s[j], s[k])
    requires forall j :: 0 <= j < k ==> before(s[k], s[j])
    ensures StableSort(before, s) != [] && StableSort(before, s)[0] == s[k]
  {
    var n := |s| - 1;
    var init := s[..n];
    if k < n {
      HeadOfSort(before, init, k);
    } else if n > 0 {
      StableSortCorrect(before, init);
      SamePermutation(StableSort(before, init), init);
      assert StableSort(before, init)[0] in init;
    }
  }

  lemma TopIsPlurality(votes: seq<ModelReview>, items: seq<Count>)
    requires votes != [] && |items| == |FirstVotes(votes)|
    requires forall i :: 0 <= i < |items| ==> items[i] == (FirstVotes(votes)[i], Votes(votes, FirstVotes(votes)[i]))
    ensures StableSort(ByCount(), items) != []
    ensures StableSort(ByCount(), items)[0] == (Plurality(votes), Votes(votes, Plurality(votes)))
  {
    var k := PluralityPosition(votes);
    forall j | 0 <= j < |items| ensures !ByCount()(items[j], items[k]) {
      PluralityIsMost(votes, FirstVotes(votes)[j]);
    }
    HeadOfSort(ByCount(), items, k);
  }

  method CountVotes(votes: seq<ModelReview>) returns (keys: seq<GateDecision>, counts: map<GateDecision, nat>)
    ensures keys == FirstVotes(votes) && Counted(votes, counts)
  {
    keys, counts := [], map[];
    for i := 0 to |votes|
      invariant keys == FirstVotes(votes[..i]) && Counted(votes[..i], counts)
    {
      var d := votes[i].gate;
      VotedIsListed(votes[..i], d);
      forall e ensures Votes(votes[..i + 1], e) == Votes(votes[..i], e) + if votes[i].gate == e then 1 else 0 {
        CountOne(votes, i, e);
      }
      assert votes[..i + 1][..i] == votes[..i];
      if d !in counts {
        keys := keys + [d];
      }
      counts := counts[d := (if d in counts then counts[d] else 0) + 1];
    }
    assert votes[..|votes|] == votes;
  }

  method ResolveMajority(c: Config, votes: seq<ModelReview>) returns (decision: GateDecision, dissenting: seq<ModelId>)
    requires votes != []
    ensures decision == Majority(votes, c.minAgreement)
    ensures dissenting == Dissenting(votes, decision)
  {
    var keys, counts := CountVotes(votes);
    forall d | d in keys ensures d in counts && counts[d] == Votes(votes, d) {
      VotedIsListed(votes, d);
    }
    var items := seq(|keys|, i requires 0 <= i < |keys| && keys[i] in counts => (keys[i], counts[keys[i]]));
    TopIsPlurality(votes, items);
    var (top, count) := StableSort(ByCount(), items)[0];
    if count as real >= Times(c.minAgreement, |votes|) {
      return top, Dissenting(votes, top);
    }
    var strictest := Strictest(votes);
    return strictest.gate, Dissenting(votes, strictest.gate);
  }

  method ResolveConsensus(c: Config, reviews: seq<ModelReview>) returns (r: Resolution)
    ensures r == Resolve(c, reviews)
  {
    var votes := Successful(reviews);
    if votes == [] {
      return Resolution(L2_HUMAN, 0.0, false, 0.0, []);
    }
    var scores := Scores(votes);
    var variance := Variance(scores);
    var final: GateDecision, dissenting: seq<ModelId>;
    match c.strategy {
      case STRICTEST =>
        var strictest := Strictest(votes);
        final, dissenting := strictest.gate, Dissenting(votes, strictest.gate);
      case UNANIMOUS =>
        final, dissenting := ResolveUnanimous(votes);
      case MAJORITY =>
        final, dissenting := ResolveMajority(c, votes);
    }
    var reached := if c.strategy.UNANIMOUS? then dissenting == [] else Close(variance, c.divergence);
    if !reached && final == AUTO_PASS {
      final := L1_REWORK;
    }
    r := Resolution(final, RoundTenth(Average(scores)), reached, variance, dissenting);
  }

  method ResolveUnanimous(votes: seq<ModelReview>) returns (decision: GateDecision, dissenting: seq<ModelId>)
    requires votes != []
    ensures decision == Unanimous(votes)
    ensures dissenting == Dissenting(votes, Strictest(votes).gate)
    ensures dissenting == [] <==> AllAgree(votes)
  {
    var decisions := set v | v in votes :: v.gate;
    OneDecision(votes, decisions);
    var strictest := Strictest(votes);
    if |decisions| == 1 {
      return votes[0].gate, [];
    }
    return Escalate(strictest.gate), Dissenting(votes, strictest.gate);
  }

  lemma OneDecision(votes: seq<ModelReview>, decisions: set<GateDecision>)
    requires votes != [] && decisions == set v | v in votes :: v.gate
    ensures |decisions| == 1 <==> AllAgree(votes)
  {
    var d := votes[0].gate;
    assert votes[0] in votes && d in decisions;
    assert |decisions| == |decisions - {d}| + 1;
    if AllAgree(votes) {
      assert decisions - {d} == {};
    }
    forall v | v in votes ensures decisions - {d} == {} ==> v.gate == d {
      assert v.gate in decisions;
    }
  }
}
