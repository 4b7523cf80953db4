/** src/gate/models.py, and the order of strictness that the consensus and the evaluator share. */
module Gates {
  datatype GateDecision = AUTO_PASS | L1_REWORK | L2_HUMAN | L3_HALT | L4_DEPLOY {
    /** `_gate_severity`: the position in the order. */
    function Severity(): nat {
      match this
      case AUTO_PASS => 0
      case L1_REWORK => 1
      case L2_HUMAN => 2
      case L3_HALT => 3
      case L4_DEPLOY => 4
    }

    predicate AtLeast(other: GateDecision) { other.Severity() <= Severity() }
  }

  const ORDER: seq<GateDecision> := [AUTO_PASS, L1_REWORK, L2_HUMAN, L3_HALT, L4_DEPLOY]

  /** `_escalate`: one level up, and the top stays. */
  function Escalate(d: GateDecision): (r: GateDecision)
    ensures r.AtLeast(d)
    ensures d != L4_DEPLOY ==> r.Severity() == d.Severity() + 1
    ensures r == d <==> d == L4_DEPLOY
  {
    if d.Severity() + 1 < |ORDER| then ORDER[d.Severity() + 1] else d
  }
}
