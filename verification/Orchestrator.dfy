/** src/orchestrator/orchestrator.py: the rework loop of `process_handoff` over whole attempts. */
module Orchestration {
  import Arithmetic
  import opened Consensus
  import opened ConsensusGate
  import opened GateEvaluator
  import opened Gates
  import opened Pipeline
  import opened Texts
  import opened Wrappers

  datatype Trigger = PIPELINE_ERROR | POLICY_TRIGGERED | DEPLOY_REQUESTED | NO_CONSENSUS

  datatype HumanGatePackage = HumanGatePackage(level: GateDecision, trigger: Trigger)

  class HandoffArtifact {
    var retryCount: int
    var instructions: string
    var changedPaths: seq<string>
    var quality: QualityGates
    var package: Option<HumanGatePackage>

    constructor (retryCount: int, instructions: string, changedPaths: seq<string>, quality: QualityGates,
            package: Option<HumanGatePackage>)
      ensures this.retryCount == retryCount && this.instructions == instructions && this.changedPaths == changedPaths
      ensures this.quality == quality && this.package == package
    {
      this.retryCount, this.instructions, this.changedPaths := retryCount, instructions, changedPaths;
      this.quality, this.package := quality, package;
    }

    /** `model_copy(deep=True)` */
    method Copy() returns (copy: HandoffArtifact)
      ensures fresh(copy)
      ensures copy.retryCount == retryCount && copy.instructions == instructions && copy.changedPaths == changedPaths
      ensures copy.quality == quality && copy.package == package
    {
      copy := new HandoffArtifact(retryCount, instructions, changedPaths, quality, package);
    }
  }

  // ---- the rework instructions ----

  function SeverityName(s: Severity): string {
    match s
    case LOW => "low"
    case MEDIUM => "medium"
    case HIGH => "high"
    case CRITICAL => "critical"
  }

  function FlagLine(f: ReviewFlag): string {
    "- [" + SeverityName(f.severity) + "] " + f.category + ": " + f.detail
  }

  function FlagLines(flags: seq<ReviewFlag>): (lines: seq<string>)
    ensures |lines| == |flags| && forall i :: 0 <= i < |flags| ==> lines[i] == FlagLine(flags[i])
  {
    seq(|flags|, i requires 0 <= i < |flags| => FlagLine(flags[i]))
  }

  function ReworkLines(original: string, q: QualityGates): seq<string> {
    [original, "", "## Rework Required"] + FlagLines(q.reviewFlags)
    + (if q.lint != PASSED then ["- Fix all lint issues"] else [])
    + (if q.unitFailed > 0 then ["- Fix " + Decimal(q.unitFailed) + " failing unit tests"] else [])
  }

  function Rework(original: string, q: QualityGates): string {
    Join(ReworkLines(original, q))
  }

  /** `_prepare_rework_handoff`: always from the original, with the findings of the last attempt. */
  method PrepareRework(original: HandoffArtifact, q: QualityGates, retryCount: int) returns (rework: HandoffArtifact)
    ensures fresh(rework) && rework.retryCount == retryCount && rework.instructions == Rework(original.instructions, q)
    ensures rework.quality == original.quality && rework.package == original.package
    ensures rework.changedPaths == original.changedPaths
  {
    var lines := [original.instructions, "", "## Rework Required"];
    for i := 0 to |q.reviewFlags|
      invariant lines == [original.instructions, "", "## Rework Required"] + FlagLines(q.reviewFlags)[..i]
    {
      lines := lines + [FlagLine(q.reviewFlags[i])];
    }
    if q.lint != PASSED {
      lines := lines + ["- Fix all lint issues"];
    }
    if q.unitFailed > 0 {
      lines := lines + ["- Fix " + Decimal(q.unitFailed) + " failing unit tests"];
    }
    assert lines == ReworkLines(original.instructions, q);
    rework := original.Copy();
    rework.instructions := Join(lines);
    rework.retryCount := retryCount;
  }

  // ---- one attempt ----

  /** `_merge_consensus` */
  method MergeConsensus(result: HandoffArtifact, reviews: seq<ModelReview>, r: Resolution)
    modifies result`quality
    ensures result.quality == Merged(old(result.quality), reviews, r)
  {
    result.quality := result.quality.(consensusScore := Some(r.score), consensusReached := Some(r.reached),
                                      variance := Some(r.variance), dissenting := r.dissenting);
    if Successful(reviews) != [] {
      var flags := AppendFlags(result.quality.reviewFlags, reviews);
      result.quality := result.quality.(reviewScore := Arithmetic.Round(r.score), gate := r.decision,
        reviewFlags := flags);
    }
  }

  method AppendFlags(before: seq<ReviewFlag>, reviews: seq<ModelReview>) returns (flags: seq<ReviewFlag>)
    ensures flags == before + AllFlags(reviews)
  {
    flags := before;
    for i := 0 to |reviews|
      invariant flags + AllFlags(reviews[i..]) == before + AllFlags(reviews)
    {
      if !reviews[i].failed {
        flags := AppendRaised(flags, reviews[i].model, reviews[i].flags);
      }
    }
  }

  method AppendRaised(before: seq<ReviewFlag>, model: ModelId, raw: seq<RawFlag>) returns (flags: seq<ReviewFlag>)
    ensures flags == before + RaisedFlags(model, raw)
  {
    flags := before;
    for k := 0 to |raw|
      invariant flags + RaisedFlags(model, raw[k..]) == before + RaisedFlags(model, raw)
    {
      if raw[k].severity.Some? {
        flags := flags + [ReviewFlag(raw[k].severity.value, raw[k].category, "[" + model.name + "] " + raw[k].detail)];
      }
    }
  }

  /** STRICT mode packages a missing consensus. */
  predicate Unsettled(reg: Registry, toReviewer: bool, reviews: seq<ModelReview>) {
    && Reviews(reg, toReviewer) && reg.reviewer.value.mode == STRICT && reg.reviewer.value.strategy.Some?
    && !Resolve(Gating(reg.reviewer.value), reviews).reached
  }

  function ReviewPackage(reg: Registry, toReviewer: bool, reviews: seq<ModelReview>): Option<HumanGatePackage> {
    if Unsettled(reg, toReviewer, reviews) then Some(HumanGatePackage(L2_HUMAN, NO_CONSENSUS)) else None
  }

  /** `_run_multi_provider_review`; ok is false when it raises. */
  method RunMultiProviderReview(result: HandoffArtifact, reg: Registry, toReviewer: bool, reviews: seq<ModelReview>)
    returns (ok: bool)
    requires result.package == None
    modifies result`quality, result`package
    ensures ok <==> AfterReview(old(result.quality), reg, toReviewer, reviews).Some?
    ensures ok ==> result.quality == AfterReview(old(result.quality), reg, toReviewer, reviews).value
    ensures ok ==> result.package == ReviewPackage(reg, toReviewer, reviews)
  {
    if toReviewer || reg.reviewer.None? || reg.reviewer.value.mode == SINGLE || reg.reviewer.value.models == [] {
      return true;
    }
    if reg.reviewer.value.strategy.None? {
      return false;
    }
    if reg.reviewer.value.mode == SHADOW {
      return true;
    }
    var r := ResolveConsensus(Gating(reg.reviewer.value), reviews);
    MergeConsensus(result, reviews, r);
    if reg.reviewer.value.mode == STRICT && !r.reached {
      result.quality := result.quality.(gate := L2_HUMAN);
      result.package := Some(HumanGatePackage(L2_HUMAN, NO_CONSENSUS));
    }
    ok := true;
  }

  /** `_execute_pipeline`; None when it raises. */
  method ExecutePipeline(handoff: HandoffArtifact, reg: Registry, toReviewer: bool, w: Work)
    returns (r: Option<HandoffArtifact>)
    ensures r.Some? <==> Attempt(reg, toReviewer, handoff.instructions, handoff.retryCount, w).Some?
    ensures r.Some? ==> fresh(r.value) && r.value.changedPaths == w.paths
    ensures r.Some? ==> r.value.quality == Attempt(reg, toReviewer, handoff.instructions, handoff.retryCount, w).value
    ensures r.Some? ==> r.value.package == ReviewPackage(reg, toReviewer, w.reviews)
  {
    if w.Crashed? {
      return None;
    }
    var result := new HandoffArtifact(0, "", w.paths, Fresh(w.quality), None);
    var ok := RunMultiProviderReview(result, reg, toReviewer, w.reviews);
    if !ok {
      return None;
    }
    var gate := EvaluateGate(result.quality, reg.policy, ChangeOf(w.paths, handoff.instructions, handoff.retryCount));
    result.quality := result.quality.(gate := gate);
    r := Some(result);
  }

  // ---- all attempts ----

  /** What `process_handoff` is given, with the work of every attempt that may come. */
  datatype Job = Job(reg: Registry, toReviewer: bool, instructions: string, quality: QualityGates, work: nat -> Work)

  function InstructionsAt(job: Job, k: nat): string
    decreases k, 0
  {
    if k > 0 && QualityAt(job, k - 1).Some? then Rework(job.instructions, QualityAt(job, k - 1).value)
      else job.instructions
  }

  /** The record of attempt k; None when its pipeline raises. */
  function QualityAt(job: Job, k: nat): Option<QualityGates>
    decreases k, 1
  {
    Attempt(job.reg, job.toReviewer, InstructionsAt(job, k), k, job.work(k))
  }

  predicate Reworks(job: Job, k: nat) {
    QualityAt(job, k).Some? && QualityAt(job, k).value.gate == L1_REWORK
  }

  /** Attempt n is the first that does not end in rework. */
  predicate EndsAt(job: Job, n: nat) {
    !Reworks(job, n) && forall k: nat :: k < n ==> Reworks(job, k)
  }

  function FinalQuality(job: Job, n: nat): QualityGates {
    if QualityAt(job, n).Some? then QualityAt(job, n).value else job.quality.(gate := L2_HUMAN)
  }

  /** The package that the handler of a gate leaves behind. */
  function Handled(gate: GateDecision, before: Option<HumanGatePackage>): Option<HumanGatePackage> {
    match gate
    case L2_HUMAN => Some(HumanGatePackage(L2_HUMAN, POLICY_TRIGGERED))
    case L4_DEPLOY => Some(HumanGatePackage(L4_DEPLOY, DEPLOY_REQUESTED))
    case _ => before
  }

  function PackageAt(job: Job, n: nat): Option<HumanGatePackage> {
    if job.work(n).Crashed? then None else ReviewPackage(job.reg, job.toReviewer, job.work(n).reviews)
  }

  function FinalPackage(job: Job, n: nat): Option<HumanGatePackage> {
    if QualityAt(job, n).None? then Some(HumanGatePackage(L2_HUMAN, PIPELINE_ERROR))
    else Handled(QualityAt(job, n).value.gate, PackageAt(job, n))
  }

  predicate Committed(job: Job, n: nat) {
    && QualityAt(job, n).Some? && QualityAt(job, n).value.gate == AUTO_PASS
    && job.work(n).Done? && job.work(n).paths != []
  }

  /** With the retries used up, something at least asks for a human. */
  lemma ExhaustedNeedsHuman(job: Job, k: nat)
    requires k >= job.reg.policy.maxRetry && QualityAt(job, k).Some?
    ensures QualityAt(job, k).value.gate.AtLeast(L2_HUMAN)
  {
    var w := job.work(k);
    var q := AfterReview(Fresh(w.quality), job.reg, job.toReviewer, w.reviews).value;
    assert Demanded(q, job.reg.policy, ChangeOf(w.paths, InstructionsAt(job, k), k), L2_HUMAN);
  }

  method RunAttempt(current: HandoffArtifact, job: Job, attempt: nat) returns (r: Option<HandoffArtifact>)
    requires current.instructions == InstructionsAt(job, attempt)
    modifies current`retryCount
    ensures current.retryCount == attempt
    ensures r.Some? <==> QualityAt(job, attempt).Some?
    ensures r.Some? ==> fresh(r.value) && r.value.quality == QualityAt(job, attempt).value
    ensures r.Some? ==> r.value.package == PackageAt(job, attempt)
    ensures r.Some? ==> job.work(attempt).Done? && r.value.changedPaths == job.work(attempt).paths
  {
    current.retryCount := attempt;
    r := ExecutePipeline(current, job.reg, job.toReviewer, job.work(attempt));
  }

  /** The result of a pipeline that raised: the handoff of that attempt, for a human. */
  method PipelineFailed(current: HandoffArtifact) returns (result: HandoffArtifact)
    ensures fresh(result) && result.quality == current.quality.(gate := L2_HUMAN)
    ensures result.package == Some(HumanGatePackage(L2_HUMAN, PIPELINE_ERROR))
    ensures result.retryCount == current.retryCount && result.instructions == current.instructions
    ensures result.changedPaths == current.changedPaths
  {
    result := current.Copy();
    result.quality := result.quality.(gate := L2_HUMAN);
    result.package := Some(HumanGatePackage(L2_HUMAN, PIPELINE_ERROR));
  }

  /** `_handle_auto_pass`, `_handle_human_gate`, `_handle_halt` and `_handle_deploy_gate`. */
  method HandleGate(result: HandoffArtifact) returns (committed: bool)
    modifies result`package
    ensures result.package == Handled(result.quality.gate, old(result.package))
    ensures committed <==> result.quality.gate == AUTO_PASS && result.changedPaths != []
  {
    committed := false;
    match result.quality.gate {
      case AUTO_PASS => committed := result.changedPaths != [];
      case L1_REWORK =>
      case L2_HUMAN => result.package := Some(HumanGatePackage(L2_HUMAN, POLICY_TRIGGERED));
      case L3_HALT =>
      case L4_DEPLOY => result.package := Some(HumanGatePackage(L4_DEPLOY, DEPLOY_REQUESTED));
    }
  }

  /** What the loop hands out when it stops at attempt n. */
  predicate Outcome(job: Job, n: nat, quality: QualityGates, package: Option<HumanGatePackage>, committed: bool) {
    quality == FinalQuality(job, n) && package == FinalPackage(job, n) && (committed <==> Committed(job, n))
  }

  /** The body of the loop: run an attempt and branch on its gate. */
  method AttemptOnce(current: HandoffArtifact, job: Job, attempt: nat)
    returns (done: bool, result: HandoffArtifact, committed: bool)
    requires current.instructions == InstructionsAt(job, attempt) && current.quality == job.quality
    modifies current`retryCount
    ensures current.retryCount == attempt && fresh(result)
    ensures done <==> !Reworks(job, attempt)
    ensures done ==> Outcome(job, attempt, result.quality, result.package, committed)
    ensures !done ==> attempt < job.reg.policy.maxRetry
    ensures !done ==> Rework(job.instructions, result.quality) == InstructionsAt(job, attempt + 1)
  {
    var ran := RunAttempt(current, job, attempt);
    if ran.None? {
      result := PipelineFailed(current);
      return true, result, false;
    }
    result := ran.value;
    if result.quality.gate == L1_REWORK {
      // The escalation for the last attempt (lines 193-204) is never reached.
      assert attempt < job.reg.policy.maxRetry by {
        if attempt >= job.reg.policy.maxRetry {
          ExhaustedNeedsHuman(job, attempt);
        }
      }
      return false, result, false;
    }
    committed := HandleGate(result);
    done := true;
  }

  /** The loop stops at the first attempt that does not end in rework, after at most maxRetry + 1
      attempts, and hands out that attempt's record. A negative maxRetry makes the source raise. */
  method ProcessHandoff(handoff: HandoffArtifact, job: Job)
    returns (result: Option<HandoffArtifact>, runs: nat, committed: bool)
    requires job.instructions == handoff.instructions && job.quality == handoff.quality
    modifies handoff`retryCount
    ensures result.None? <==> job.reg.policy.maxRetry < 0
    ensures result.None? ==> runs == 0 && !committed && handoff.retryCount == old(handoff.retryCount)
    ensures result.Some? ==>
      1 <= runs <= job.reg.policy.maxRetry + 1 && EndsAt(job, runs - 1) && handoff.retryCount == 0
    ensures result.Some? ==> Outcome(job, runs - 1, result.value.quality, result.value.package, committed)
  {
    hide Attempt, Rework;
    var maxRetries := job.reg.policy.maxRetry;
    var current := handoff;
    runs, committed := 0, false;
    while runs <= maxRetries
      invariant if maxRetries >= 0 then runs <= maxRetries else runs == 0
      invariant if runs == 0 then current == handoff && handoff.retryCount == old(handoff.retryCount)
        else fresh(current) && handoff.retryCount == 0
      invariant current.instructions == InstructionsAt(job, runs) && current.quality == handoff.quality
      invariant !committed && forall k: nat :: k < runs ==> Reworks(job, k)
    {
      var done, attempted, commits := AttemptOnce(current, job, runs);
      runs := runs + 1;
      if done {
        return Some(attempted), runs, commits;
      }
      current := PrepareRework(handoff, attempted.quality, runs);
    }
    result := None;
  }
}
