/** src/orchestrator/orchestrator.py: what every run of the rework loop guarantees. */
module ReworkTheorems {
  import opened Consensus
  import opened GateEvaluator
  import opened Gates
  import opened Orchestration
  import opened Pipeline
  import opened ReviewModes
  import opened Texts
  import opened Wrappers

  /** The record that attempt n evaluates. */
  function Evaluated(job: Job, n: nat): QualityGates
    requires QualityAt(job, n).Some?
  {
    AfterReview(Fresh(job.work(n).quality), job.reg, job.toReviewer, job.work(n).reviews).value
  }

  function ChangeAt(job: Job, n: nat): Change
    requires QualityAt(job, n).Some?
  {
    ChangeOf(job.work(n).paths, InstructionsAt(job, n), n)
  }

  lemma GateOfAttempt(job: Job, n: nat)
    requires QualityAt(job, n).Some?
    ensures QualityAt(job, n).value.gate == Gate(Evaluated(job, n), job.reg.policy, ChangeAt(job, n))
  {}

  /** No run hands out a rework, and a run that ends is unique. */
  lemma RunEndsOnce(job: Job, n: nat, m: nat)
    requires EndsAt(job, n) && EndsAt(job, m)
    ensures n == m && FinalQuality(job, n).gate != L1_REWORK
  {
    assert n < m ==> Reworks(job, n);
    assert m < n ==> Reworks(job, m);
  }

  /** Whether several models decide on this job, and no vote can be lost. */
  predicate Reviewed(job: Job) {
    Binding(job.reg, job.toReviewer, CONSENSUS) || Binding(job.reg, job.toReviewer, STRICT)
  }

  lemma PassedVote(reg: Registry, toReviewer: bool, q: QualityGates, reviews: seq<ModelReview>)
    requires Binding(reg, toReviewer, CONSENSUS) || Binding(reg, toReviewer, STRICT)
    requires q.gate == L2_HUMAN && AfterReview(q, reg, toReviewer, reviews).value.gate == AUTO_PASS
    ensures (exists v :: v in reviews && !v.failed) && forall v :: v in reviews && !v.failed ==> v.gate == AUTO_PASS
    ensures Resolve(Gating(reg.reviewer.value), reviews).reached
  {
    var c := Gating(reg.reviewer.value);
    PassNeedsConsensus(c, reviews);
    var votes := Successful(reviews);
    assert votes != [] && votes[0] in votes;
  }

  /** An automatic pass comes before the last attempt, from a clean record; and when several models
      review without majority votes, from at least one success, of which all voted to pass. */
  lemma PassIsEarned(job: Job, n: nat)
    requires FinalQuality(job, n).gate == AUTO_PASS
    ensures n < job.reg.policy.maxRetry
    ensures QualityAt(job, n).Some? && Clean(Evaluated(job, n), job.reg.policy, ChangeAt(job, n))
    ensures Reviewed(job) ==>
      && (exists v :: v in job.work(n).reviews && !v.failed)
      && (forall v :: v in job.work(n).reviews && !v.failed ==> v.gate == AUTO_PASS)
      && Resolve(Gating(job.reg.reviewer.value), job.work(n).reviews).reached
  {
    GateOfAttempt(job, n);
    AutoPassIff(Evaluated(job, n), job.reg.policy, ChangeAt(job, n));
    if Reviewed(job) {
      var q := Fresh(job.work(n).quality);
      assert Evaluated(job, n).consensusScore.Some?;
      PassedVote(job.reg, job.toReviewer, q, job.work(n).reviews);
    }
  }

  // ---- the paths that an attempt may change unseen ----

  /** Some path contains one of the two words. */
  predicate Touches(paths: seq<string>, a: string, b: string) {
    exists i :: 0 <= i < |paths| && (Contains(paths[i], a) || Contains(paths[i], b))
  }

  /** What the change is taken for follows from its paths alone; nothing requests a deployment. */
  lemma ChangeIsTold(paths: seq<string>, instructions: string, n: nat)
    ensures var c := ChangeOf(paths, instructions, n);
      && (c.schema <==> Touches(paths, "migration", "schema"))
      && (c.external <==> Touches(paths, "integration", "external"))
      && !c.deploy && c.retries == n && c.paths == paths && c.instructions == instructions
  {
    hide Contains;
    if i :| 0 <= i < |paths| && (Contains(paths[i], "migration") || Contains(paths[i], "schema")) {
      assert paths[i] in paths;
    }
    if i :| 0 <= i < |paths| && (Contains(paths[i], "integration") || Contains(paths[i], "external")) {
      assert paths[i] in paths;
    }
  }

  /** The reviews change the score, the gate and the flags, and leave every measurement as it was; a single
      reviewer leaves the score, too. */
  lemma ReviewsKeepMeasurements(job: Job, n: nat)
    requires QualityAt(job, n).Some?
    ensures var q, told := Evaluated(job, n), job.work(n).quality;
      && q.build == told.build && q.lint == told.lint && q.unitFailed == told.unitFailed && q.coverage == told.coverage
      && q.critical == told.critical && q.high == told.high && q.medium == told.medium
      && q.sopScore == told.sopScore && q.pathGuard == told.pathGuard
      && (q.consensusScore.None? ==> q.reviewScore == told.reviewScore && q.reviewFlags == told.reviewFlags)
      && (q.consensusScore.Some? <==>
            Reviews(job.reg, job.toReviewer) && job.reg.reviewer.value.mode in {CONSENSUS, STRICT})
  {
    hide Resolve, Gate;
  }

  /** An attempt passes exactly if its record, its paths and its instructions are clean, and a retry is left. */
  lemma AttemptPassesIff(job: Job, n: nat)
    requires QualityAt(job, n).Some?
    ensures var q, p, paths := Evaluated(job, n), job.reg.policy, job.work(n).paths;
      QualityAt(job, n).value.gate == AUTO_PASS <==>
        && q.build == PASSED && q.lint == PASSED && q.unitFailed == 0
        && q.critical == 0 && q.high == 0 && q.medium == 0
        && q.reviewScore >= p.reviewScoreThreshold && q.coverage >= p.coverageThreshold as real
        && !(p.humanOnSchemaChange && Touches(paths, "migration", "schema"))
        && !(p.humanOnExternalIntegration && Touches(paths, "integration", "external"))
        && !PathsHold(paths, p.riskyPaths) && !TextHolds(InstructionsAt(job, n), p.riskyWords)
        && n < p.maxRetry && !q.pathGuard && (q.sopScore.Some? ==> q.sopScore.value >= p.sopThreshold)
        && (q.consensusScore.Some? ==> q.gate == AUTO_PASS)
  {
    GateOfAttempt(job, n);
    hide Attempt, AfterReview, Gate, Touches, PathsHold, TextHolds;
    ChangeIsTold(job.work(n).paths, InstructionsAt(job, n), n);
    GateLevels(Evaluated(job, n), job.reg.policy, ChangeAt(job, n));
  }

  /** A path that the policy reserves for a human stops the attempt, whatever else it delivers. */
  lemma SensitivePathNeedsHuman(job: Job, n: nat, i: nat)
    requires QualityAt(job, n).Some? && i < |job.work(n).paths|
    requires var path, p := job.work(n).paths[i], job.reg.policy;
      || (p.humanOnSchemaChange && (Contains(path, "migration") || Contains(path, "schema")))
      || (p.humanOnExternalIntegration && (Contains(path, "integration") || Contains(path, "external")))
    ensures QualityAt(job, n).value.gate.AtLeast(L2_HUMAN) && !Reworks(job, n) && !Committed(job, n)
  {
    GateOfAttempt(job, n);
    hide Attempt, AfterReview, Gate, Contains;
    ChangeIsTold(job.work(n).paths, InstructionsAt(job, n), n);
    GateLevels(Evaluated(job, n), job.reg.policy, ChangeAt(job, n));
  }

  /** Where a run ends, something is committed exactly if the attempt passes and has changed anything. */
  lemma CommittedIff(job: Job, n: nat)
    requires EndsAt(job, n)
    ensures Committed(job, n) <==>
      QualityAt(job, n).Some? && FinalQuality(job, n).gate == AUTO_PASS && |job.work(n).paths| > 0
  {
    hide Gate, AfterReview;
  }

  /** A clean first attempt that changes one path. */
  function OneChange(path: string): Job {
    Job(Registry(POLICY, None), false, "", CLEAN, (k: nat) => Done(CLEAN, [path], []))
  }

  lemma OneChangeRecord(path: string)
    ensures var job := OneChange(path);
      && QualityAt(job, 0).Some? && Evaluated(job, 0) == CLEAN && job.work(0).paths == [path]
      && ChangeAt(job, 0) == ChangeOf([path], "", 0)
  {
    hide Gate, Contains;
  }

  /** It is committed exactly if its path names neither a schema nor an integration; else a human looks. */
  lemma OneChangeIff(path: string)
    ensures var job := OneChange(path);
      && EndsAt(job, 0)
      && (Committed(job, 0) <==>
          !Contains(path, "migration") && !Contains(path, "schema") && !Contains(path, "integration")
          && !Contains(path, "external"))
      && (!Committed(job, 0) ==> FinalQuality(job, 0).gate == L2_HUMAN)
  {
    var job := OneChange(path);
    OneChangeRecord(path);
    hide QualityAt, Attempt, Gate, Contains;
    assert Touches([path], "migration", "schema")
      <==> Contains([path][0], "migration") || Contains([path][0], "schema");
    assert Touches([path], "integration", "external")
      <==> Contains([path][0], "integration") || Contains([path][0], "external");
    AttemptPassesIff(job, 0);
    GateOfAttempt(job, 0);
    GateLevels(CLEAN, POLICY, ChangeAt(job, 0));
    assert !PathsHold([path], []) && !TextHolds("", []);
  }

  lemma IntegrationStops()
    ensures !Committed(OneChange("integration/crm.py"), 0)
    ensures FinalQuality(OneChange("integration/crm.py"), 0).gate == L2_HUMAN
  {
    hide *;
    ContainsPart("", "integration", "/crm.py");
    assert "" + "integration" + "/crm.py" == "integration/crm.py";
    OneChangeIff("integration/crm.py");
  }

  lemma PlainPathIsCommitted()
    ensures Committed(OneChange("app.py"), 0)
  {
    hide *;
    LacksChar("app.py", "migration", 0);
    LacksChar("app.py", "schema", 0);
    LacksChar("app.py", "integration", 0);
    LacksChar("app.py", "external", 0);
    OneChangeIff("app.py");
  }

  /** The package names the gate, but a halt that lacks a consensus is packaged as L2_HUMAN. */
  lemma PackageLevel(job: Job, n: nat)
    requires EndsAt(job, n)
    ensures var gate, package := FinalQuality(job, n).gate, FinalPackage(job, n);
      && (gate in {L2_HUMAN, L4_DEPLOY} ==> package.Some? && package.value.level == gate)
      && (gate == AUTO_PASS ==> package.None?)
      && (gate == L3_HALT ==> (package.Some? <==> Unsettled(job.reg, job.toReviewer, job.work(n).reviews)))
      && (gate == L3_HALT && package.Some? ==> package.value.level == L2_HUMAN)
      && (QualityAt(job, n).None? ==> package == Some(HumanGatePackage(L2_HUMAN, PIPELINE_ERROR)))
      && (QualityAt(job, n).Some? && gate == L2_HUMAN ==> package.Some? && package.value.trigger == POLICY_TRIGGERED)
      && (gate == L4_DEPLOY ==> package.Some? && package.value.trigger == DEPLOY_REQUESTED)
      && (gate == L3_HALT && package.Some? ==> package.value.trigger == NO_CONSENSUS)
  {
    RunEndsOnce(job, n, n);
    if QualityAt(job, n).Some? {
      GateOfAttempt(job, n);
      if Unsettled(job.reg, job.toReviewer, job.work(n).reviews) {
        StrictNeedsHuman(Fresh(job.work(n).quality), job.reg, job.toReviewer, job.work(n).reviews, ChangeAt(job, n));
      }
    }
  }

  /** A broken build, and two models that disagree under STRICT mode. */
  function BrokenBuild(): Job {
    var reg := InMode(Models(UNANIMOUS), STRICT);
    Job(reg, false, "", CLEAN,
        (k: nat) => Done(CLEAN.(build := FAILED), [], [Vote(AUTO_PASS, 80), Vote(L2_HUMAN, 80)]))
  }

  /** It is halted, and the package says L2. */
  lemma HaltIsMislabelled()
    ensures EndsAt(BrokenBuild(), 0) && FinalQuality(BrokenBuild(), 0).gate == L3_HALT
    ensures FinalPackage(BrokenBuild(), 0) == Some(HumanGatePackage(L2_HUMAN, NO_CONSENSUS))
  {
    var job, v, w := BrokenBuild(), Vote(AUTO_PASS, 80), Vote(L2_HUMAN, 80);
    hide Resolve, Gate, Demanded;
    TwoVotes(v, w);
    assert v in [v, w] && w in [v, w];
    ReachedByVotes(Gating(job.reg.reviewer.value), [v, w]);
    assert Unsettled(job.reg, false, [v, w]);
    GateOfAttempt(job, 0);
    HaltOnly(Evaluated(job, 0), POLICY, ChangeAt(job, 0));
  }

  lemma HaltOnly(q: QualityGates, p: QualityPolicy, c: Change)
    requires DemandsHalt(q) && !c.deploy && (q.consensusScore.Some? ==> q.gate != L4_DEPLOY)
    ensures Gate(q, p, c) == L3_HALT
  {}

  // ---- words that decide the next attempt ----

  lemma RiskyAttempt(job: Job, n: nat)
    requires InstructionsAt(job, n) != "" && RiskyText(job.reg.policy, InstructionsAt(job, n))
    ensures !Reworks(job, n) && FinalQuality(job, n).gate.AtLeast(L2_HUMAN)
  {
    if QualityAt(job, n).Some? {
      GateOfAttempt(job, n);
      assert Demanded(Evaluated(job, n), job.reg.policy, ChangeAt(job, n), L2_HUMAN);
    }
  }

  /** Instructions with a high-risk word end the run at once, for a human. */
  lemma RiskyTaskEndsAtOnce(job: Job)
    requires job.instructions != "" && RiskyText(job.reg.policy, job.instructions)
    ensures EndsAt(job, 0) && FinalQuality(job, 0).gate.AtLeast(L2_HUMAN)
  {
    RiskyAttempt(job, 0);
  }

  lemma LineIsMentioned(original: string, q: QualityGates, line: string)
    requires line in ReworkLines(original, q)
    ensures Contains(Rework(original, q), line) && Rework(original, q) != ""
  {
    var lines := ReworkLines(original, q);
    var i :| 0 <= i < |lines| && lines[i] == line;
    JoinContains(lines, i);
    assert lines[2] == "## Rework Required";
    NonEmptyLine(lines, 2);
  }

  lemma NonEmptyLine(lines: seq<string>, i: nat)
    requires i < |lines| && lines[i] != ""
    ensures Join(lines) != ""
  {
    JoinContains(lines, i);
    var k :| 0 <= k <= |Join(lines)| && FoundAt(Join(lines), lines[i], k);
  }

  /** A rework with a high-risk word in any line of its instructions cannot succeed: the guardrail stops
      the next attempt for a human, whatever it delivers. */
  lemma RiskyLineEndsNext(job: Job, n: nat, line: string)
    requires Reworks(job, n) && forall k: nat :: k < n ==> Reworks(job, k)
    requires line in ReworkLines(job.instructions, QualityAt(job, n).value) && RiskyText(job.reg.policy, line)
    ensures EndsAt(job, n + 1) && FinalQuality(job, n + 1).gate.AtLeast(L2_HUMAN)
  {
    var text := InstructionsAt(job, n + 1);
    LineIsMentioned(job.instructions, QualityAt(job, n).value, line);
    RiskyTextGrows(job.reg.policy, job.reg.policy, line, text);
    RiskyAttempt(job, n + 1);
  }

  /** So the words of the review, in whatever part of a flag, stop the attempt that is to mend it. */
  lemma RiskyReviewEndsNext(job: Job, n: nat, f: ReviewFlag)
    requires Reworks(job, n) && forall k: nat :: k < n ==> Reworks(job, k)
    requires f in QualityAt(job, n).value.reviewFlags
    requires RiskyText(job.reg.policy, FlagLine(f)) || RiskyText(job.reg.policy, f.category)
      || RiskyText(job.reg.policy, f.detail)
    ensures EndsAt(job, n + 1) && FinalQuality(job, n + 1).gate.AtLeast(L2_HUMAN)
  {
    var flags := QualityAt(job, n).value.reviewFlags;
    var i :| 0 <= i < |flags| && flags[i] == f;
    assert ReworkLines(job.instructions, QualityAt(job, n).value)[3 + i] == FlagLine(f);
    FlagParts(f);
    if RiskyText(job.reg.policy, f.category) {
      RiskyTextGrows(job.reg.policy, job.reg.policy, f.category, FlagLine(f));
    }
    if RiskyText(job.reg.policy, f.detail) {
      RiskyTextGrows(job.reg.policy, job.reg.policy, f.detail, FlagLine(f));
    }
    RiskyLineEndsNext(job, n, FlagLine(f));
  }

  lemma FlagParts(f: ReviewFlag)
    ensures Contains(FlagLine(f), f.category) && Contains(FlagLine(f), f.detail)
  {
    var severity := "- [" + SeverityName(f.severity) + "] ";
    ContainsPart(severity, f.category, ": " + f.detail);
    assert severity + f.category + (": " + f.detail) == FlagLine(f);
    ContainsPart(severity + f.category + ": ", f.detail, "");
    assert severity + f.category + ": " + f.detail + "" == FlagLine(f);
  }

  /** The instructions of a rework: the original, and one line for each finding of the last attempt. */
  lemma ReworkLineIff(job: Job, n: nat, line: string)
    requires Reworks(job, n)
    ensures var q := QualityAt(job, n).value;
      line in ReworkLines(job.instructions, q) <==>
        || line == job.instructions || line == "" || line == "## Rework Required"
        || (exists f :: f in q.reviewFlags && line == FlagLine(f))
        || (q.lint != PASSED && line == "- Fix all lint issues")
        || (q.unitFailed > 0 && line == "- Fix " + Decimal(q.unitFailed) + " failing unit tests")
  {
    hide QualityAt, FlagLine;
    var q := QualityAt(job, n).value;
    FlagLineIff(q.reviewFlags, line);
    hide FlagLines;
  }

  /** The line of a flag, for each severity. */
  lemma FlagLineReads(category: string, detail: string)
    ensures FlagLine(ReviewFlag(LOW, category, detail)) == "- [low] " + category + ": " + detail
    ensures FlagLine(ReviewFlag(MEDIUM, category, detail)) == "- [medium] " + category + ": " + detail
    ensures FlagLine(ReviewFlag(HIGH, category, detail)) == "- [high] " + category + ": " + detail
    ensures FlagLine(ReviewFlag(CRITICAL, category, detail)) == "- [critical] " + category + ": " + detail
  {
    assert "- [" + "low" + "] " == "- [low] " && "- [" + "medium" + "] " == "- [medium] ";
    assert "- [" + "high" + "] " == "- [high] " && "- [" + "critical" + "] " == "- [critical] ";
  }

  lemma FlagLineIff(flags: seq<ReviewFlag>, line: string)
    ensures line in FlagLines(flags) <==> exists f :: f in flags && line == FlagLine(f)
  {
    hide FlagLine;
    if f :| f in flags && line == FlagLine(f) {
      var i :| 0 <= i < |flags| && flags[i] == f;
      assert FlagLines(flags)[i] == line;
    }
  }

  /** So a flag that a model raises, with such a word in its detail, stops the next attempt as well. */
  lemma RiskyModelFlagEndsNext(job: Job, n: nat, i: nat, k: nat)
    requires Reworks(job, n) && forall m: nat :: m < n ==> Reworks(job, m)
    requires Reviews(job.reg, job.toReviewer) && job.reg.reviewer.value.mode in {CONSENSUS, STRICT}
    requires i < |job.work(n).reviews| && !job.work(n).reviews[i].failed && k < |job.work(n).reviews[i].flags|
    requires var flag := job.work(n).reviews[i].flags[k];
      flag.severity.Some? && RiskyText(job.reg.policy, flag.detail)
    ensures EndsAt(job, n + 1) && FinalQuality(job, n + 1).gate.AtLeast(L2_HUMAN)
  {
    var v, raw := job.work(n).reviews[i], job.work(n).reviews[i].flags[k];
    var prefix := "[" + v.model.name + "] ";
    var f := ReviewFlag(raw.severity.value, raw.category, prefix + raw.detail);
    assert Raises(v.model, v.flags, f);
    FlagMergedIff(job.work(n).reviews, f);
    assert v in Successful(job.work(n).reviews);
    FlagIsMerged(job, n, f);
    hide *;
    ContainsPart(prefix, raw.detail, "");
    assert prefix + raw.detail + "" == f.detail;
    RiskyTextGrows(job.reg.policy, job.reg.policy, raw.detail, f.detail);
    RiskyReviewEndsNext(job, n, f);
  }

  lemma FlagIsMerged(job: Job, n: nat, f: ReviewFlag)
    requires QualityAt(job, n).Some? && Successful(job.work(n).reviews) != [] && f in AllFlags(job.work(n).reviews)
    requires Reviews(job.reg, job.toReviewer) && job.reg.reviewer.value.mode in {CONSENSUS, STRICT}
    ensures f in QualityAt(job, n).value.reviewFlags
  {
    hide Resolve, Gate, AllFlags, Successful;
  }

  /** No high-risk word spans two lines. */
  predicate PlainWords(p: QualityPolicy) {
    forall w :: w in p.riskyWords ==> '\n' !in w
  }

  /** The instructions of the next attempt hold a high-risk word exactly if one of their lines does. */
  lemma RiskyReworkIff(job: Job, n: nat)
    requires PlainWords(job.reg.policy) && Reworks(job, n)
    ensures RiskyText(job.reg.policy, InstructionsAt(job, n + 1)) <==>
      exists line :: line in ReworkLines(job.instructions, QualityAt(job, n).value) && RiskyText(job.reg.policy, line)
  {
    var lines := ReworkLines(job.instructions, QualityAt(job, n).value);
    RiskyJoinIff(job.reg.policy, lines);
  }

  lemma RiskyJoinIff(p: QualityPolicy, lines: seq<string>)
    requires PlainWords(p) && lines != []
    ensures RiskyText(p, Join(lines)) <==> exists line :: line in lines && RiskyText(p, line)
  {
    hide Contains, Lower, Join;
    if RiskyText(p, Join(lines)) {
      var w :| w in p.riskyWords && Contains(Lower(Join(lines)), w);
      JoinContainsIff(lines, w);
      var i :| 0 <= i < |lines| && Contains(Lower(lines[i]), w);
      assert lines[i] in lines && RiskyText(p, lines[i]);
    }
    if line :| line in lines && RiskyText(p, line) {
      var w :| w in p.riskyWords && Contains(Lower(line), w);
      var i :| 0 <= i < |lines| && lines[i] == line;
      JoinContainsIff(lines, w);
    }
  }

  /** A next attempt that would pass, but for its instructions, passes exactly if no line of them holds
      a high-risk word. */
  lemma CleanRetryPassesIff(job: Job, n: nat)
    requires PlainWords(job.reg.policy) && Reworks(job, n) && QualityAt(job, n + 1).Some?
    requires Clean(Evaluated(job, n + 1), job.reg.policy, ChangeAt(job, n + 1).(instructions := ""))
    ensures QualityAt(job, n + 1).value.gate == AUTO_PASS <==>
      forall line :: line in ReworkLines(job.instructions, QualityAt(job, n).value) ==> !RiskyText(job.reg.policy, line)
  {
    var lines := ReworkLines(job.instructions, QualityAt(job, n).value);
    assert lines[2] in lines;
    LineIsMentioned(job.instructions, QualityAt(job, n).value, lines[2]);
    GateOfAttempt(job, n + 1);
    hide Gate, Demanded, RiskyText, Attempt, AfterReview;
    AutoPassIff(Evaluated(job, n + 1), job.reg.policy, ChangeAt(job, n + 1));
    RiskyReworkIff(job, n);
  }

  /** A lint failure and a review that speaks of a token; the next attempt is clean. */
  function TokenReview(): Job {
    var flag := ReviewFlag(LOW, "style", "token");
    Job(Registry(POLICY.(riskyWords := ["token"]), None), false, "", CLEAN,
        (k: nat) => Done(if k == 0 then CLEAN.(lint := FAILED, reviewFlags := [flag]) else CLEAN, [], []))
  }

  /** The first attempt is reworked, and the second stopped although nothing else is wrong with it. */
  lemma TokenStopsRetry()
    ensures var job := TokenReview();
      && Reworks(job, 0) && EndsAt(job, 1) && QualityAt(job, 1).Some? && FinalQuality(job, 1).gate.AtLeast(L2_HUMAN)
      && Clean(Evaluated(job, 1), job.reg.policy, ChangeAt(job, 1).(instructions := ""))
  {
    var job := TokenReview();
    GateOfAttempt(job, 0);
    var flag := ReviewFlag(LOW, "style", "token");
    assert flag in QualityAt(job, 0).value.reviewFlags;
    TokenIsRisky();
    RiskyReviewEndsNext(job, 0, flag);
  }

  lemma TokenIsRisky()
    ensures RiskyText(TokenReview().reg.policy, "token")
  {
    var words := TokenReview().reg.policy.riskyWords;
    assert words == ["token"] && words[0] in words;
    assert Lower("token") == "token";
    ContainsPart("", "token", "");
    assert "" + "token" + "" == "token";
  }
}
