/** src/gate/evaluator.py: the cascade of gate checks against the strictest level that anything demands. */
module GateEvaluator {
  import opened Consensus
  import opened Gates
  import opened Texts
  import opened Wrappers

  datatype CheckResult = PASSED | FAILED | SKIPPED

  datatype ReviewFlag = ReviewFlag(severity: Severity, category: string, detail: string)

  datatype QualityGates = QualityGates(
    unitFailed: nat,
    coverage: real,
    lint: CheckResult,
    build: CheckResult,
    critical: nat,
    high: nat,
    medium: nat,
    reviewScore: int,
    reviewFlags: seq<ReviewFlag>,
    gate: GateDecision,
    sopScore: Option<int>,
    pathGuard: bool,
    consensusScore: Option<real>,
    consensusReached: Option<bool>,
    variance: Option<real>,
    dissenting: seq<ModelId>)

  datatype QualityPolicy = QualityPolicy(
    coverageThreshold: int,
    reviewScoreThreshold: int,
    maxRetry: int,
    humanOnSchemaChange: bool,
    humanOnExternalIntegration: bool,
    sopThreshold: int,
    riskyPaths: seq<string>,
    riskyWords: seq<string>)

  /** The remaining arguments of `evaluate_gate`. */
  datatype Change = Change(
    schema: bool,
    external: bool,
    deploy: bool,
    retries: int,
    paths: seq<string>,
    instructions: string)

  // ---- what each level is demanded for ----

  predicate DemandsHalt(q: QualityGates) {
    q.build != PASSED || q.critical > 0 || q.high > 0
  }

  predicate BelowPolicy(q: QualityGates, p: QualityPolicy, c: Change) {
    || q.reviewScore < p.reviewScoreThreshold
    || q.coverage < (p.coverageThreshold - 10) as real
    || (c.schema && p.humanOnSchemaChange)
    || (c.external && p.humanOnExternalIntegration)
    || q.medium > 0
    || c.retries >= p.maxRetry
  }

  predicate RiskyPath(p: QualityPolicy, path: string) {
    exists w :: w in p.riskyPaths && Contains(Lower(path), w)
  }

  predicate RiskyText(p: QualityPolicy, text: string) {
    exists w :: w in p.riskyWords && Contains(Lower(text), w)
  }

  predicate Guarded(p: QualityPolicy, c: Change) {
    || (exists path :: path in c.paths && RiskyPath(p, path))
    || (c.instructions != "" && RiskyText(p, c.instructions))
  }

  predicate SopTooLow(q: QualityGates, p: QualityPolicy) {
    q.sopScore.Some? && q.sopScore.value < p.sopThreshold
  }

  predicate DemandsRework(q: QualityGates, p: QualityPolicy) {
    || q.lint != PASSED
    || (p.coverageThreshold - 10) as real <= q.coverage < p.coverageThreshold as real
    || q.unitFailed > 0
  }

  /** The level d is demanded by the request, the measurements or a consensus that has run. */
  predicate Demanded(q: QualityGates, p: QualityPolicy, c: Change, d: GateDecision) {
    || (q.consensusScore.Some? && q.gate == d)
    || match d
       case AUTO_PASS => true
       case L1_REWORK => DemandsRework(q, p)
       case L2_HUMAN => BelowPolicy(q, p, c) || q.pathGuard || Guarded(p, c) || SopTooLow(q, p)
       case L3_HALT => DemandsHalt(q)
       case L4_DEPLOY => c.deploy
  }

  /** The strictest level that is demanded. */
  function Gate(q: QualityGates, p: QualityPolicy, c: Change): (d: GateDecision)
    ensures Demanded(q, p, c, d)
    ensures forall e :: Demanded(q, p, c, e) ==> d.AtLeast(e)
  {
    if Demanded(q, p, c, L4_DEPLOY) then L4_DEPLOY
    else if Demanded(q, p, c, L3_HALT) then L3_HALT
    else if Demanded(q, p, c, L2_HUMAN) then L2_HUMAN
    else if Demanded(q, p, c, L1_REWORK) then L1_REWORK
    else AUTO_PASS
  }

  // ---- the checks as the source runs them ----

  datatype Reason =
    | BuildFailed | SecurityFindings | LowScore | LowCoverage | SchemaChange | ExternalIntegration
    | MediumFindings | RetriesExhausted | HighRiskPath(path: string) | HighRiskWords(words: seq<string>)
    | LintIssues | CoverageSlightlyLow | TestsFailed

  method CheckL3Halt(q: QualityGates) returns (halt: bool)
    ensures halt <==> DemandsHalt(q)
  {
    var reasons: seq<Reason> := [];
    if q.build != PASSED { reasons := reasons + [BuildFailed]; }
    if q.critical > 0 || q.high > 0 { reasons := reasons + [SecurityFindings]; }
    halt := reasons != [];
  }

  method CheckL2Human(q: QualityGates, p: QualityPolicy, c: Change) returns (human: bool)
    ensures human <==> BelowPolicy(q, p, c)
  {
    var reasons: seq<Reason> := [];
    if q.reviewScore < p.reviewScoreThreshold { reasons := reasons + [LowScore]; }
    if q.coverage < (p.coverageThreshold - 10) as real { reasons := reasons + [LowCoverage]; }
    if c.schema && p.humanOnSchemaChange { reasons := reasons + [SchemaChange]; }
    if c.external && p.humanOnExternalIntegration { reasons := reasons + [ExternalIntegration]; }
    if q.medium > 0 { reasons := reasons + [MediumFindings]; }
    if c.retries >= p.maxRetry { reasons := reasons + [RetriesExhausted]; }
    human := reasons != [];
  }

  method CheckDynamicGuardrails(p: QualityPolicy, c: Change) returns (guarded: bool)
    ensures guarded <==> Guarded(p, c)
  {
    var reasons: seq<Reason> := [];
    for i := 0 to |c.paths|
      invariant reasons != [] <==> exists j :: 0 <= j < i && RiskyPath(p, c.paths[j])
    {
      ghost var before := reasons;
      for k := 0 to |p.riskyPaths|
        invariant reasons == before
        invariant forall m :: 0 <= m < k ==> !Contains(Lower(c.paths[i]), p.riskyPaths[m])
      {
        if Contains(Lower(c.paths[i]), p.riskyPaths[k]) {
          reasons := reasons + [HighRiskPath(c.paths[i])];
          assert RiskyPath(p, c.paths[i]);
          break;
        }
      }
    }
    if c.instructions != "" {
      var matched := Matched(p.riskyWords, Lower(c.instructions));
      if matched != [] {
        reasons := reasons + [HighRiskWords(matched)];
      }
    }
    guarded := reasons != [];
  }

  function Matched(words: seq<string>, text: string): (r: seq<string>)
    ensures r == [] <==> forall w :: w in words ==> !Contains(text, w)
  {
    if words == [] then []
    else (if Contains(text, words[0]) then [words[0]] else []) + Matched(words[1..], text)
  }

  method CheckL1Rework(q: QualityGates, p: QualityPolicy) returns (rework: bool)
    ensures rework <==> DemandsRework(q, p)
  {
    var reasons: seq<Reason> := [];
    if q.lint != PASSED { reasons := reasons + [LintIssues]; }
    if (p.coverageThreshold - 10) as real <= q.coverage < p.coverageThreshold as real {
      reasons := reasons + [CoverageSlightlyLow];
    }
    if q.unitFailed > 0 { reasons := reasons + [TestsFailed]; }
    rework := reasons != [];
  }

  /** `_apply_consensus_gate` */
  function ApplyConsensusGate(q: QualityGates, decision: GateDecision): (d: GateDecision)
    ensures d.AtLeast(decision)
    ensures q.consensusScore.Some? ==> d.AtLeast(q.gate)
    ensures d == decision || (q.consensusScore.Some? && d == q.gate)
  {
    if q.consensusScore.None? then decision
    else if q.gate.Severity() > decision.Severity() then q.gate
    else decision
  }

  /** The early returns find the strictest level that is demanded. */
  method EvaluateGate(q: QualityGates, p: QualityPolicy, c: Change) returns (d: GateDecision)
    ensures d == Gate(q, p, c)
  {
    if c.deploy { return ApplyConsensusGate(q, L4_DEPLOY); }
    var halt := CheckL3Halt(q);
    if halt { return ApplyConsensusGate(q, L3_HALT); }
    var human := CheckL2Human(q, p, c);
    if human { return ApplyConsensusGate(q, L2_HUMAN); }
    if q.pathGuard { return ApplyConsensusGate(q, L2_HUMAN); }
    var guarded := CheckDynamicGuardrails(p, c);
    if guarded { return ApplyConsensusGate(q, L2_HUMAN); }
    if SopTooLow(q, p) { return ApplyConsensusGate(q, L2_HUMAN); }
    var rework := CheckL1Rework(q, p);
    if rework { return ApplyConsensusGate(q, L1_REWORK); }
    d := ApplyConsensusGate(q, AUTO_PASS);
  }

  // ---- monotonicity ----

  predicate NoBetter(a: CheckResult, b: CheckResult) { a != PASSED ==> b != PASSED }

  /** b is at least as bad a measurement as a, input by input. */
  predicate WorseQuality(a: QualityGates, b: QualityGates) {
    && a.unitFailed <= b.unitFailed
    && a.coverage >= b.coverage
    && NoBetter(a.lint, b.lint) && NoBetter(a.build, b.build)
    && a.critical <= b.critical && a.high <= b.high && a.medium <= b.medium
    && a.reviewScore >= b.reviewScore
    && (a.sopScore.Some? ==> b.sopScore.Some? && a.sopScore.value >= b.sopScore.value)
    && (a.pathGuard ==> b.pathGuard)
    && (a.consensusScore.Some? ==> b.consensusScore.Some? && b.gate.AtLeast(a.gate))
  }

  predicate StricterPolicy(a: QualityPolicy, b: QualityPolicy) {
    && a.coverageThreshold <= b.coverageThreshold
    && a.reviewScoreThreshold <= b.reviewScoreThreshold
    && a.maxRetry >= b.maxRetry
    && (a.humanOnSchemaChange ==> b.humanOnSchemaChange)
    && (a.humanOnExternalIntegration ==> b.humanOnExternalIntegration)
    && a.sopThreshold <= b.sopThreshold
    && (forall w :: w in a.riskyPaths ==> w in b.riskyPaths)
    && (forall w :: w in a.riskyWords ==> w in b.riskyWords)
  }

  predicate RiskierChange(a: Change, b: Change) {
    && (a.schema ==> b.schema) && (a.external ==> b.external) && (a.deploy ==> b.deploy)
    && a.retries <= b.retries
    && (forall path :: path in a.paths ==> path in b.paths)
    && Contains(b.instructions, a.instructions)
  }

  lemma RiskyTextGrows(a: QualityPolicy, b: QualityPolicy, text: string, longer: string)
    requires (forall w :: w in a.riskyWords ==> w in b.riskyWords) && Contains(longer, text) && RiskyText(a, text)
    ensures RiskyText(b, longer)
  {
    var w :| w in a.riskyWords && Contains(Lower(text), w);
    LowerContains(longer, text);
    ContainsTransitive(Lower(longer), Lower(text), w);
  }

  lemma GuardedGrows(a: QualityPolicy, b: QualityPolicy, c: Change, d: Change)
    requires StricterPolicy(a, b) && RiskierChange(c, d) && Guarded(a, c)
    ensures Guarded(b, d)
  {
    if path :| path in c.paths && RiskyPath(a, path) {
      var w :| w in a.riskyPaths && Contains(Lower(path), w);
      assert RiskyPath(b, path);
    } else {
      RiskyTextGrows(a, b, c.instructions, d.instructions);
    }
  }

  /** Worse measurements, a stricter policy and a riskier change never make the gate laxer. */
  lemma GateIsMonotone(q: QualityGates, r: QualityGates, a: QualityPolicy, b: QualityPolicy, c: Change, d: Change)
    requires WorseQuality(q, r) && StricterPolicy(a, b) && RiskierChange(c, d)
    ensures Gate(r, b, d).AtLeast(Gate(q, a, c))
  {
    if Guarded(a, c) {
      GuardedGrows(a, b, c, d);
    }
    assert DemandsRework(q, a) ==> Demanded(r, b, d, L1_REWORK) || Demanded(r, b, d, L2_HUMAN);
  }

  /** The consensus only joins in: the gate is the stricter of the policy's own and the consensus. */
  lemma GateJoins(q: QualityGates, p: QualityPolicy, c: Change)
    requires q.consensusScore.Some?
    ensures Gate(q, p, c) == ApplyConsensusGate(q, Gate(q.(consensusScore := None), p, c))
  {}

  // ---- each level, told from the record ----

  /** A consensus has run and decided for d or more. */
  predicate ConsensusAsks(q: QualityGates, d: GateDecision) {
    q.consensusScore.Some? && q.gate.AtLeast(d)
  }

  /** Some changed path holds one of the words, in lower case. */
  predicate PathsHold(paths: seq<string>, words: seq<string>) {
    exists i, k :: 0 <= i < |paths| && 0 <= k < |words| && Contains(Lower(paths[i]), words[k])
  }

  predicate TextHolds(text: string, words: seq<string>) {
    text != "" && exists k :: 0 <= k < |words| && Contains(Lower(text), words[k])
  }

  lemma GuardedIsHeld(p: QualityPolicy, c: Change)
    ensures Guarded(p, c) <==> PathsHold(c.paths, p.riskyPaths) || TextHolds(c.instructions, p.riskyWords)
  {
    if i, k :| 0 <= i < |c.paths| && 0 <= k < |p.riskyPaths| && Contains(Lower(c.paths[i]), p.riskyPaths[k]) {
      assert p.riskyPaths[k] in p.riskyPaths && c.paths[i] in c.paths;
      assert RiskyPath(p, c.paths[i]);
    }
    if path :| path in c.paths && RiskyPath(p, path) {
      var w :| w in p.riskyPaths && Contains(Lower(path), w);
      var i :| 0 <= i < |c.paths| && c.paths[i] == path;
      var k :| 0 <= k < |p.riskyPaths| && p.riskyPaths[k] == w;
      assert Contains(Lower(c.paths[i]), p.riskyPaths[k]);
    }
    if k :| 0 <= k < |p.riskyWords| && Contains(Lower(c.instructions), p.riskyWords[k]) {
      assert p.riskyWords[k] in p.riskyWords;
    }
  }

  /** The single findings that each level takes, or a consensus that asks for it. */
  lemma GateLevels(q: QualityGates, p: QualityPolicy, c: Change)
    ensures Gate(q, p, c).AtLeast(L4_DEPLOY) <==> c.deploy || ConsensusAsks(q, L4_DEPLOY)
    ensures Gate(q, p, c).AtLeast(L3_HALT) <==>
      || Gate(q, p, c).AtLeast(L4_DEPLOY)
      || q.build != PASSED || q.critical > 0 || q.high > 0 || ConsensusAsks(q, L3_HALT)
    ensures Gate(q, p, c).AtLeast(L2_HUMAN) <==>
      || Gate(q, p, c).AtLeast(L3_HALT)
      || q.reviewScore < p.reviewScoreThreshold || q.coverage + 10.0 < p.coverageThreshold as real || q.medium > 0
      || (p.humanOnSchemaChange && c.schema) || (p.humanOnExternalIntegration && c.external)
      || p.maxRetry <= c.retries || q.pathGuard
      || PathsHold(c.paths, p.riskyPaths) || TextHolds(c.instructions, p.riskyWords)
      || (q.sopScore.Some? && q.sopScore.value < p.sopThreshold) || ConsensusAsks(q, L2_HUMAN)
    ensures Gate(q, p, c).AtLeast(L1_REWORK) <==>
      || Gate(q, p, c).AtLeast(L2_HUMAN)
      || q.lint != PASSED || q.unitFailed > 0 || q.coverage < p.coverageThreshold as real
      || ConsensusAsks(q, L1_REWORK)
  {
    hide Guarded, PathsHold, TextHolds;
    GuardedIsHeld(p, c);
  }

  /** Everything that an automatic pass certifies. */
  predicate Clean(q: QualityGates, p: QualityPolicy, c: Change) {
    && !c.deploy && q.build == PASSED && q.lint == PASSED && q.unitFailed == 0
    && q.critical == q.high == q.medium == 0
    && q.reviewScore >= p.reviewScoreThreshold
    && q.coverage >= p.coverageThreshold as real
    && !(c.schema && p.humanOnSchemaChange) && !(c.external && p.humanOnExternalIntegration)
    && c.retries < p.maxRetry
    && !q.pathGuard && !Guarded(p, c)
    && (q.sopScore.Some? ==> q.sopScore.value >= p.sopThreshold)
    && (q.consensusScore.Some? ==> q.gate == AUTO_PASS)
  }

  lemma AutoPassIff(q: QualityGates, p: QualityPolicy, c: Change)
    ensures Gate(q, p, c) == AUTO_PASS <==> Clean(q, p, c)
  {}
}
