# Verified model of the orchestration cores

This project models five control cores of the agent-orchestration framework and proves what they
guarantee over all inputs, all runs and all interleavings.

1. **Dependency scheduler** (`TaskGraph`, `RunSystem`, `RunTheorems`, `RunOutcomes`, `Scheduler`) with slot
   allocation (`Ranking`). The Kahn pass is a loop over a dictionary of in-degrees and a sorted
   queue. The asyncio runner is a transition system: a step is one uninterrupted stretch of code
   between two suspension points, the semaphore is a counter, and the event loop's callback queue
   is explicit, because the order of wake-up and done-callback decides whether `run` returns. The
   class `TaskScheduler` refines both.
2. **Schema migrator** (`VersionGraph`, `PathSearch`, `Migration`, `Migrator`, `MigrationRoundTrip`). Breadth-first
   search over the step table, composition of steps along the path, and the round trip over chains
   of versions and over the built-in pair of steps on JSON documents.
3. **Circuit breaker, retry, recovery step** (`Breakers`, `BreakerSystem`, `BreakerRecovery`,
   `Recovery`). Admission and completion are atomic steps, calls overlap, and a log records what an
   observer sees, so that stale completions of earlier states are part of every theorem.
4. **Gate decision chain** (`Gates`, `Consensus`, `ConsensusGate`, `GateEvaluator`, `Pipeline`,
   `ReviewModes`, `VoteMonotonicity`, `Orchestration`, `ReworkTheorems`). From the votes of several models through
   merging and the policy cascade to the rework loop.
5. **Health monitor** (`Health`). A window and a counter that refine the full history.

`Sorting`, `Arithmetic`, `Texts` and `Wrappers` are shared. Code that updates state is written as
classes and methods with loops; each is proved against a function or predicate on values, and the
theorems are about those. Scores, averages, latencies and clocks are reals; deviations are compared
by their squares.

## Where the code differs from what it says

What fails in some cases is shown at a concrete input, and the exact condition is proved for all inputs.

- `run` does not return after every failure: it hangs exactly when some task raises that another depends on
  (`RunOutcomes.EndIsDetermined`, with a two-task run in `RunTheorems.FailureCanHangRun`). The branch at
  src/queue/scheduler.py:209-211 that was meant for this is never taken (`RunSystem.MainPassKeepsMain`).
- A breaker whose probe allowance does not cover the successes it needs can wedge in HALF_OPEN for ever
  (`BreakerRecovery.CanWedgeIff`); with the default configuration the first successful probe does it
  (`BreakerRecovery.DefaultBreakerWedges`, from a new breaker in
  `BreakerRecovery.DefaultBreakerGetsWedged`). Cancelling a call reports neither success nor failure, so that under
  cancellation every configuration can wedge (`BreakerRecovery.CancellationCanWedge`). Overlapping calls can close a
  breaker that one call at a time cannot, since completions of calls from an earlier state count as probe
  successes (`BreakerRecovery.ClosableIff` against `BreakerRecovery.SequentiallyClosableIff`).
- `RetryResult.attempts` is not the number of attempts when a non-retryable exception ends the loop before its
  last attempt, and right otherwise; a policy is always right exactly if it retries on everything or not at all
  (`Recovery.ReportedIsMadeIff`, `Recovery.PolicyReportsRightIff`, `Recovery.EarlyStopMisreports`).
- A migration step registered from the newer to the older version has the wrong one of its functions
  called (`Migration.HopLandsIff`, `MigrationRoundTrip.ReversedStepMisses`), and the search misses versions that steps
  join exactly if some other version has a step to the one called "" (`VersionGraph.SearchIsCompleteIff`,
  `MigrationRoundTrip.NamelessTargetIsMissed`). A version with a letter in it counts as the oldest of all, so that a
  step up to a release candidate has its downgrade applied (`VersionGraph.LettersAreOldest`,
  `MigrationRoundTrip.LetteredTargetGoesDown`).
- Rolling back a migration that began with the built-in step restores the document only if its `quality_gates` is
  an object without the two new keys (`MigrationRoundTrip.MixedRoundTrip`, `MigrationRoundTrip.BuiltinRoundTrip`,
  `MigrationRoundTrip.BareDocumentGrows`).
- MAJORITY is documented as a majority but half of the votes are enough, so that of two models the first one listed
  decides (`Consensus.FirstOfTwoDecidesIff`, `Consensus.OrderMattersIff`). Under UNANIMOUS and
  MAJORITY stricter votes can lead to a laxer decision (`VoteMonotonicity.UnanimousFallsIff`,
  `VoteMonotonicity.StricterVoteLowersUnanimous`, `VoteMonotonicity.MajorityFallsIff`,
  `VoteMonotonicity.StricterVoteLowersMajority`). The average score is rounded twice, so that the default threshold of
  70 is met by an average of just over 69.45 (`Pipeline.MergedScoreReachesIff`).
- STRICT mode can be laxer than CONSENSUS mode (`ReviewModes.StrictIsLaxerIff`, `ReviewModes.StrictLosesHalt`), and
  CONSENSUS mode laxer than a single reviewer (`ReviewModes.ConsensusIsLaxerIff`, `ReviewModes.ConsensusLiftsScore`).
  An emergency halt without consensus carries a package labelled L2_HUMAN (`ReworkTheorems.PackageLevel`,
  `ReworkTheorems.HaltIsMislabelled`).
- The last permitted rework attempt can never pass, and the escalation at
  src/orchestrator/orchestrator.py:193-204 is unreachable (`Orchestration.ExhaustedNeedsHuman`,
  `Orchestration.AttemptOnce`). A rework with a high-risk word in any line of its instructions, be
  it from the review that asked for it, is stopped at the next attempt by that very word; an otherwise clean attempt
  passes exactly if there is none (`ReworkTheorems.RiskyReviewEndsNext`, `ReworkTheorems.CleanRetryPassesIff`,
  `ReworkTheorems.TokenStopsRetry`).
- The override of a monitor's status by an open circuit leaves no trace in any later result
  (`Health.OpeningsLeaveNoTrace`); a failure right after it can make the monitor healthy again
  (`Health.OverrideSurvivesIff`, `Health.CircuitOpenIsForgotten`). A new default monitor that only sees quick failures
  is UNHEALTHY with the third already, where the threshold says DEGRADED, by their share (`Health.FailuresInARow`).

## Model

| member | source | states |
|---|---|---|
| TaskGraph.TopologicalSort | src/queue/scheduler.py:87-137 | Returns an order exactly if all dependencies are registered and the graph is acyclic; the order is a permutation, each task after its dependencies, of maximal priority among those then available, and of those with that priority the one that became available first, or was registered first if they became available together; otherwise names the first unregistered dependency in registration order, or exactly the tasks that depend on a cycle |
| TaskGraph.ScheduleIsUnique | src/queue/scheduler.py:110-137 | Only one order follows the dependencies, the priorities and the turns among equals |
| TaskGraph.CountDependencies | src/queue/scheduler.py:96-108 | In-degrees and dependents lists hold every edge with its multiplicity, the dependents of a task as registered; or the first unregistered dependency in registration order is found |
| TaskGraph.FirstUnknownUnique | src/queue/scheduler.py:99-106 | There is only one such pair of task and dependency |
| TaskGraph.InitialQueue | src/queue/scheduler.py:110-115 | The first queue is exactly the tasks without dependencies, by priority, equal ones as registered |
| TaskGraph.ReleaseDependents | src/queue/scheduler.py:122-129 | After emitting a task the queue is again exactly the set of available tasks, repeated dependencies included, by priority, and equal ones in the order in which they became available |
| TaskGraph.UnmetEmit | src/queue/scheduler.py:122-124 | Emitting a task lowers a dependent's count of unmet entries by the number of times it lists that task |
| TaskGraph.Emit | src/queue/scheduler.py:118-120 | The head of the queue is an available task of maximal priority |
| TaskGraph.HeadHasTurn | src/queue/scheduler.py:118-120 | And of the available tasks with that priority it is the one whose turn it is, by when they became available and were registered |
| TaskGraph.NewcomerIsLast | src/queue/scheduler.py:122-129 | A task that becomes available comes after all that were available before, and after those freed with it that were registered earlier |
| TaskGraph.EmittedAvoidsCycles | src/queue/scheduler.py:118-129 | What has been emitted in dependency order does not depend on a cycle |
| TaskGraph.StuckDependsOnCycle | src/queue/scheduler.py:131-135 | In a set whose members all wait for members, every task leads to a cycle within the set |
| TaskGraph.KahnComplete | src/queue/scheduler.py:131-137 | When as many tasks were emitted as are registered, the order is a schedule and the graph acyclic |
| TaskGraph.KahnStuck | src/queue/scheduler.py:131-135 | When the queue dries up early the leftover is exactly the tasks that depend on a cycle, and contains one |
| TaskGraph.ScheduleIsAcyclic | src/queue/scheduler.py:87-95 | Only an acyclic graph has a schedule |
| RunSystem.InitialInvariant | src/queue/scheduler.py:166-186 | Before the first pass the run invariant holds |
| RunSystem.StepKeepsInvariant | src/queue/scheduler.py:172-208 | Every step (dispatch, acquire, finish, wake-up, done-callback) keeps: dependencies completed before dispatch, permits plus running tasks equal the concurrency, one call per task, the running set and event follow tasks and callbacks |
| RunSystem.MainPassKeepsMain | src/queue/scheduler.py:188-211 | A pass returns only when all is done; the branch for nothing ready and nothing running is never taken |
| RunSystem.AcyclicHasRoot | src/queue/scheduler.py:166-167 | The initial sort guarantees that the first pass finds a task to dispatch |
| RunTheorems.RunIsSafe | src/queue/scheduler.py:139-195 | In every reachable state a dispatched task has all dependencies COMPLETED, executors are invoked at most once, exactly once for finished tasks, and at most `concurrency` tasks are RUNNING |
| RunTheorems.StepDecreases | src/queue/scheduler.py:172-208 | Every step lowers a measure on statuses, callbacks and main coroutine |
| RunTheorems.RunLength | src/queue/scheduler.py:157-217 | No run over n tasks has more than 4n + 1 steps, whatever the executors do |
| RunTheorems.NothingElseBlocks | src/queue/scheduler.py:139-155 | Without ready or active tasks every pending task has a failed ancestor |
| RunTheorems.QuiescentStates | src/queue/scheduler.py:172-217 | Where a run ends, PENDING is exactly what has a transitive FAILED ancestor, the rest is COMPLETED or FAILED, and `run` has returned exactly if no FAILED task has a dependent; otherwise it waits for an event nobody sets |
| RunOutcomes.EndIsDetermined | src/queue/scheduler.py:157-217 | From the outcomes of the executors alone: where a run ends a task is PENDING exactly if a proper ancestor raises, otherwise COMPLETED or FAILED as its own outcome says, and `run` has returned exactly if nobody depends on a task that raises |
| RunOutcomes.ScheduleDoesNotMatter | src/queue/scheduler.py:157-217 | Two runs with the same outcomes end in the same statuses, both returned or both waiting, whatever their interleavings and concurrency |
| RunTheorems.SuccessfulRunCompletes | src/queue/scheduler.py:157-217 | If every executor succeeds, an incomplete state has a ready, READY or RUNNING task, and a run that ends has returned with all COMPLETED |
| RunTheorems.FailureCanHangRun | src/queue/scheduler.py:180-208 | A run of two chained tasks whose first fails reaches a state in which `run` waits for ever |
| Scheduler.TaskScheduler.AddTask | src/queue/scheduler.py:76-80 | A new task goes to the end of the registration order; a duplicate id changes nothing |
| Scheduler.TaskScheduler.TopologicalSort | src/queue/scheduler.py:87-137 | The sort of the registered task objects, with the same four answers and the same turns among equal priorities |
| Scheduler.TaskScheduler.GetReadyTasks | src/queue/scheduler.py:139-155 | Exactly the pending tasks whose registered dependencies are completed, by priority, ties as registered |
| Scheduler.ReadyTasksSorted | src/queue/scheduler.py:139-155 | That list has each ready task once, highest priority first |
| Scheduler.ReadyTasksTakeTurns | src/queue/scheduler.py:153-154 | Of two ready tasks the earlier has the higher priority, or an equal one and was registered first |
| Scheduler.ReadyTasksDetermined | src/queue/scheduler.py:153-154 | Any list by priority with ties as registered is that list |
| Scheduler.TaskScheduler.Reset | src/queue/scheduler.py:219-224 | Every task is PENDING again without result or error |
| Scheduler.TaskScheduler.DispatchReady | src/queue/scheduler.py:189-195 | Marks exactly the ready tasks READY and adds them to the running set |
| Scheduler.TaskScheduler.MainPass | src/queue/scheduler.py:188-211 | One pass of the loop on the task objects is the pass of the transition system |
| Scheduler.TaskScheduler.Acquire | src/queue/scheduler.py:173-174 | Taking a permit and starting is the acquire step |
| Scheduler.TaskScheduler.RecordOutcome | src/queue/scheduler.py:176-182 | The task keeps what its executor returned or raised, with the matching status |
| Scheduler.TaskScheduler.Finish | src/queue/scheduler.py:176-184 | Storing result or error, setting the event and giving the permit back is the finish step |
| Scheduler.TaskScheduler.Call | src/queue/scheduler.py:195-208 | The oldest callback of the event loop is made: wake-up or removal from the running set |
| Scheduler.TaskScheduler.FirstPass | src/queue/scheduler.py:166-208 | The first pass on fresh tasks is the begin step and keeps the run invariant |
| Scheduler.TaskScheduler.StepOnce | src/queue/scheduler.py:157-217 | Does one enabled step, any of them, or finds that none is left |
| Scheduler.TaskScheduler.Execute | src/queue/scheduler.py:169-217 | The same once the sort has succeeded |
| Scheduler.Run | src/queue/scheduler.py:157-217 | On fresh tasks: nothing happens unless the sort succeeds; otherwise the objects go through a run of the transition system, with the executors' outcomes, up to a quiescent state with the statuses that the outcomes determine; completed tasks hold what their executor returned, failed ones what it raised, and the coroutine has returned exactly if nobody depends on a task that raises |
| Ranking.PriorityRanker.constructor | src/queue/priority.py:57-71 | The last weight given for a project counts |
| Ranking.PriorityRanker.SetProjectWeight | src/queue/priority.py:73-75 | Replaces one project's weight |
| Ranking.BonusIff | src/queue/priority.py:77-92 | The bonus for each interval: overdue 50, within a day 30, within three days 15, within a week 5, later or without deadline 0, ends included |
| Ranking.UnknownProjectIsAverage | src/queue/priority.py:110-119 | A project without a weight counts like one of priority 5 without a deadline |
| Ranking.ScoresHigherIff | src/queue/priority.py:115-119 | A task scores higher exactly if ten times its lead in project priority, its lead in task priority and its lead in bonus sum to more than zero |
| Ranking.ProjectOutweighs | src/queue/priority.py:115-119 | A step of project priority outweighs up to nine of task priority, unless the other deadline is nearer |
| Ranking.SoonerBonus | src/queue/priority.py:77-92 | A nearer deadline never has the lower bonus |
| Ranking.PriorityRanker.Rank | src/queue/priority.py:94-124 | A stable, score-descending permutation of the scored input |
| Ranking.RankingIsDetermined | src/queue/priority.py:123 | Any score-descending rearrangement that leaves ties as they were is that ranking, whichever stable sort computes it |
| Ranking.PriorityRanker.AllocateSlots | src/queue/priority.py:126-137 | The head of the ranking, as many tasks as slots (negative slot counts slice from the end), and no selection of as many has a higher total score |
| Ranking.TopIsOptimal | src/queue/priority.py:123-137 | The head of the ranking has the maximal total among all selections of its size |
| Ranking.SliceTakes | src/queue/priority.py:137 | A place gets a slot exactly if it is among the first max_slots; for a negative number exactly if at least that many come after it |
| PathSearch.ResolvePath | src/migration/schema_migrator.py:120-140 | None exactly if a version is unregistered or no route connects the two; otherwise a simple route over registered edges that no other route beats, and of the shortest ones the one that, where they part, takes the edge stored first |
| PathSearch.ChosenIsUnique | src/migration/schema_migrator.py:135-139 | There is only one such route |
| PathSearch.FirstThroughHead | src/migration/schema_migrator.py:130-139 | The first of the shortest routes to a version just discovered goes through the version being expanded |
| VersionGraph.SearchIsCompleteIff | src/migration/schema_migrator.py:135-139 | The search reaches all that the steps join exactly if no other version has a step to the one called "" |
| VersionGraph.NamedVersionsConnect | src/migration/schema_migrator.py:135-139 | So if no version is called "", what is connected is exactly what the steps join |
| VersionGraph.EmptyVersionIsUnreachable | src/migration/schema_migrator.py:136-137 | The version called "" is never reached from another one |
| MigrationRoundTrip.NamelessTargetIsMissed | src/migration/schema_migrator.py:56-60 | With a step between 1.0.0 and "", migrating a 1.0.0 document to "" finds no path |
| VersionGraph.AgeIsOrder | src/migration/schema_migrator.py:97-147 | Comparing version tuples is a strict weak order |
| VersionGraph.DottedTuple | src/migration/schema_migrator.py:142-147 | Numbers with dots between them are read as those numbers |
| VersionGraph.OlderIff | src/migration/schema_migrator.py:142-147 | So versions compare number by number: at the first difference the smaller is older, and a version that the other continues is older |
| VersionGraph.UnderscoredNumerals | src/migration/schema_migrator.py:145 | A single underscore between digits does not count, and one at an end makes no number |
| VersionGraph.SignedNumerals | src/migration/schema_migrator.py:145 | A sign in front of the digits counts |
| VersionGraph.LettersAreOldest | src/migration/schema_migrator.py:145-147 | A version with a letter in it is older than every dotted one that starts above 0 and newer than none |
| MigrationRoundTrip.LetteredTargetGoesDown | src/migration/schema_migrator.py:75-77 | So a step up to such a version has its downgrade applied, and its upgrade on the way back |
| Migration.HopLandsIff | src/migration/schema_migrator.py:71-77 | A hop lands on its version exactly if the version numbers select the function written for its direction |
| Migration.PathLandsIff | src/migration/schema_migrator.py:69-80 | With steps that set what they claim, a whole path lands on its last version exactly if its last hop picks the function written for that direction |
| Migration.MigrationReachesTarget | src/migration/schema_migrator.py:46-80 | With steps that set what they claim, a migration that succeeds ends at the target version |
| Migration.NeverMissing | src/migration/schema_migrator.py:72-74 | Along a resolved path no step is missing |
| Migrator.SchemaMigrator.constructor | src/migration/schema_migrator.py:37-112 | Starts with the built-in pair registered in both directions, the upward key first |
| Migrator.SchemaMigrator.Register | src/migration/schema_migrator.py:90-97 | The step serves both directions; keys already in the table keep their place and new ones go last; the table stays symmetric, the version list sorted, without repetition and exactly the endpoints |
| Migrator.SchemaMigrator.ResolvePath | src/migration/schema_migrator.py:120-140 | The search on the migrator's own tables |
| Migrator.SchemaMigrator.Migrate | src/migration/schema_migrator.py:46-80 | Unreadable version, already at the target, no path, or the composition of the steps along the chosen one of the shortest paths |
| Migrator.TableMigrationIsOne | src/migration/schema_migrator.py:46-80 | That result is determined by the table and its order, and is one of those that every shortest path theorem is about |
| Migrator.SchemaMigrator.FollowPath | src/migration/schema_migrator.py:69-80 | The loop composes the steps of the path and stops at the first error |
| Migrator.SchemaMigrator.Rollback | src/migration/schema_migrator.py:86-88 | Is a migration to the older version |
| Migrator.RegisterKeeps | src/migration/schema_migrator.py:90-97 | Registration keeps the table symmetric and the version list exactly its endpoints |
| MigrationRoundTrip.ChainShortest | src/migration/schema_migrator.py:120-140 | On a chain of versions the search returns the direct way |
| MigrationRoundTrip.ChainRoundTrip | src/migration/schema_migrator.py:46-88 | On a chain of lawful steps an upward migration ends at its target, and if each hop of this document is undone by its step's downgrade, rolling back returns the original document |
| MigrationRoundTrip.FirstHopDecides | src/migration/schema_migrator.py:69-80 | If the hops above the first are undone, the rollback ends in what the first step's downgrade makes of its own upgrade |
| MigrationRoundTrip.MixedRoundTrip | src/migration/schema_migrator.py:46-112 | On a chain that begins with the built-in step and goes on with registered ones that are undone, the round trip restores a 1.0.0 document exactly if its gates are plain |
| MigrationRoundTrip.BuiltinHopUndoneIff | src/migration/migrations/v1_0_to_v1_1.py:12-33 | The built-in hop is undone exactly for documents with plain gates |
| MigrationRoundTrip.BareDocumentGrows | src/migration/migrations/v1_0_to_v1_1.py:17-31 | A document without quality gates comes back with empty ones |
| MigrationRoundTrip.ReversedStepMisses | src/migration/schema_migrator.py:75-77 | The built-in pair registered from newer to older: migrating a 1.0.0 document up leaves it at 1.0.0 |
| MigrationRoundTrip.BuiltinIsLawful | src/migration/migrations/v1_0_to_v1_1.py:12-33 | The built-in pair is oriented and sets the versions it claims |
| MigrationRoundTrip.UpgradeIff | src/migration/migrations/v1_0_to_v1_1.py:12-21 | The upgrade succeeds exactly if envelope and, if present, gates are objects; every gate keeps its value, the two keys are null and false exactly where they were absent, the version is 1.1.0, and nothing else differs |
| MigrationRoundTrip.DowngradeIff | src/migration/migrations/v1_0_to_v1_1.py:24-33 | The downgrade succeeds for the same documents; the two keys are gone, the version is 1.0.0, and nothing else differs |
| MigrationRoundTrip.MigratedUpIff | src/migration/schema_migrator.py:46-80 | A migration from 1.0.0 to 1.1.0, on any chain that starts with the built-in step, returns exactly that upgraded document, or fails exactly for the others |
| MigrationRoundTrip.MigratedDownIff | src/migration/schema_migrator.py:46-88 | And a migration from 1.1.0 to 1.0.0 the downgraded one |
| MigrationRoundTrip.DowngradeUndoesUpgradeIff | src/migration/migrations/v1_0_to_v1_1.py:12-33 | Exactly for documents whose `quality_gates` is an object without the two new keys |
| MigrationRoundTrip.UpgradeUndoesDowngradeIff | src/migration/migrations/v1_0_to_v1_1.py:12-33 | Exactly for documents whose `quality_gates` holds both keys with their defaults |
| MigrationRoundTrip.BuiltinRoundTrip | src/migration/schema_migrator.py:46-112 | Migrating a 1.0.0 document to 1.1.0 and back through the migrator restores it under exactly that condition |
| Breakers.CircuitBreaker.constructor | src/resilience/circuit_breaker.py:47-61 | A new breaker is closed with all counters at zero |
| Breakers.CircuitBreaker.EvaluateState | src/resilience/circuit_breaker.py:122-134 | OPEN turns HALF_OPEN with fresh counters once the timeout has passed |
| Breakers.CircuitBreaker.TryAdmit | src/resilience/circuit_breaker.py:78-92 | Lets a call in, fails it fast with the time left, or refuses it at the probe limit |
| BreakerRecovery.FastFailTellsWhen | src/resilience/circuit_breaker.py:78-92 | An open breaker fails fast exactly until its timeout has run out, and the time left that it reports is exact: left alone it fails fast until then, and lets a call in from then on if it allows probes |
| Breakers.CircuitBreaker.Succeeded | src/resilience/circuit_breaker.py:136-146 | A success resets failures when closed and closes after enough successes when half-open |
| Breakers.CircuitBreaker.Failed | src/resilience/circuit_breaker.py:148-169 | A failure counts, reopens a half-open breaker, trips a closed one at the threshold and then, only then, tells the health monitor |
| Breakers.CircuitBreaker.Reset | src/resilience/circuit_breaker.py:102-109 | Back to a new breaker's state |
| BreakerSystem.NextKeepsInvariant | src/resilience/circuit_breaker.py:71-155 | Every event of overlapping calls keeps counters and clock consistent with the log |
| BreakerSystem.BreakerIsSafe | src/resilience/circuit_breaker.py:71-169 | Over every interleaving: CLOSED means the failure count equals the failed completions since the last success, close or reset and is zero or below the threshold; no call starts within a timeout after an opening unless reset; at most `half_open_max_calls` start per HALF_OPEN episode |
| BreakerSystem.BreakerIsItsLog | src/resilience/circuit_breaker.py:71-169 | Over every interleaving state, counters, probes and time stamp of the breaker are what replaying the observed entries makes of them |
| BreakerRecovery.ClosableIff | src/resilience/circuit_breaker.py:88-146 | An open breaker with k calls in flight can close without reset exactly if two probes may overlap or k plus the probe allowance covers the successes needed |
| BreakerRecovery.PileUp | src/resilience/circuit_breaker.py:88-155 | With two probes at a time, failing probes leave calls in flight behind until enough stale successes close the breaker |
| BreakerRecovery.SequentiallyClosableIff | src/resilience/circuit_breaker.py:88-146 | With one call at a time it can close exactly if `success_threshold` (at least one) is at most `half_open_max_calls` |
| BreakerRecovery.ProbesClose | src/resilience/circuit_breaker.py:136-143 | Then that many successful probes do close it, with failure count 0 |
| BreakerRecovery.WedgedForever | src/resilience/circuit_breaker.py:88-92 | A half-open breaker with its probes used up and nothing in flight never changes again without a reset |
| BreakerRecovery.CanWedgeIff | src/resilience/circuit_breaker.py:88-146 | Without cancelled calls an open breaker can wedge exactly if its probe allowance is below the successes needed |
| BreakerRecovery.CancellationCanWedge | src/resilience/circuit_breaker.py:94-100 | With cancelled calls, which are neither success nor failure, every open breaker can wedge |
| BreakerRecovery.DefaultBreakerGetsWedged | src/resilience/circuit_breaker.py:32-169 | From a new default breaker: five failures, the timeout and one success |
| BreakerRecovery.DefaultBreakerWedges | src/resilience/circuit_breaker.py:32-36 | The default configuration gets there with its first successful probe |
| Recovery.Call | src/resilience/circuit_breaker.py:71-100 | A whole guarded call without fallback: breaker, result and whether the function was called |
| Recovery.RetryAsync | src/resilience/retry.py:54-107 | The loop over guarded calls leaves the breaker, result, number of invocations and number of rounds of the specified retry |
| Recovery.FailingRetry | src/resilience/retry.py:64-107 | From a closed breaker an always-failing function is invoked exactly min(max_retries + 1, failure_threshold - failure_count) times; the rest fail fast and leave the count |
| Recovery.RetryFrom | src/resilience/retry.py:64-107 | The function is invoked at most once per attempt left; a success says at which attempt; which exceptions go on is stated by the next rows |
| Recovery.RetrySucceedsIff | src/resilience/retry.py:38-107 | If some attempt is the first that returns, the loop succeeds with it exactly if every exception raised before it is an instance of some listed class, or the list is empty |
| Recovery.RetryFailsWith | src/resilience/retry.py:64-107 | If none returns it fails with what the last attempt allowed raised, or the first attempt that raised something not listed, and makes no further attempt |
| Recovery.TimeoutIsRetried | src/resilience/retry.py:110-116 | Under the agents' policy a TimeoutError and then a return: success at the second attempt |
| Recovery.OpenBreakerStopsAgents | src/resilience/retry.py:110-116 | Under that policy an open breaker ends the loop after one attempt, without a call |
| Recovery.DelaysGrow | src/resilience/retry.py:31-36 | The longest sleep is the one before times the base, up to the maximum |
| Recovery.ReportedIsMadeIff | src/resilience/retry.py:64-107 | The reported attempts are the attempts made exactly if no attempt before the last is reached and raises a non-retryable exception |
| Recovery.PolicyReportsRightIff | src/resilience/retry.py:38-107 | A policy reports right for every breaker and environment exactly if it retries on everything or makes no retry (and its maximum is not below -1) |
| Recovery.EarlyStopMisreports | src/resilience/retry.py:77-107 | A ValueError under a policy for agent errors: one attempt made, four reported |
| Recovery.PunctualFailingRetry | src/resilience/retry.py:31-107 | The same invocation count, given only that the sleeps of the policy plus a slack fit into the breaker's timeout |
| Recovery.OpenRetryIsIdle | src/resilience/retry.py:64-107 | While the breaker is open, retries call nothing and change nothing |
| Recovery.RetryIsSequentialRun | src/resilience/retry.py:64-107 | A retry loop is a one-call-at-a-time run of the breaker, so the recovery theorems apply to it |
| Recovery.RecoveryManager.GetBreaker | src/resilience/circuit_breaker.py:179-182 | One breaker per role, created on demand |
| Recovery.RecoveryManager.RunStep | src/resilience/recovery.py:75-143 | Outcome status, result, error, attempts, fallback mark, cache and raised exception of a step, from the retry result and the steps before; other roles' breakers are untouched |
| Recovery.RecoveryManager.Conclude | src/resilience/recovery.py:98-143 | What happens to a step after its retries |
| Recovery.StepEndsIff | src/resilience/recovery.py:98-143 | A failed step is RECOVERED exactly if caching is configured and the last success of its role returned something, with that very result, or if the alternative model is configured and returns, with its result; otherwise SKIPPED exactly if the fallback degrades or failures may be passed over, and FAILED if not |
| Recovery.CacheHoldsLastSuccess | src/resilience/fallback.py:44-49 | After any steps the cache holds, for each role, what its last successful step returned |
| Consensus.ResolutionIsSafe | src/gate/consensus.py:227-354 | Under STRICTEST and UNANIMOUS the decision is at least as strict as every successful vote; disagreement under UNANIMOUS goes above every vote unless at L4 |
| Consensus.PassNeedsConsensus | src/gate/consensus.py:227-279 | AUTO_PASS needs a success and consensus, and outside MAJORITY only AUTO_PASS votes; without a success the decision is L2 without consensus |
| Consensus.UnanimousReachedIff | src/gate/consensus.py:256-258 | Under UNANIMOUS consensus is exactly agreement of the votes |
| Consensus.SpreadBound | src/gate/consensus.py:240-245 | The squared deviation of scores between lo and hi is at most the square of half their distance |
| Consensus.ThresholdCanBlockIff | src/gate/consensus.py:259-264 | Clamped scores can withhold consensus exactly if the threshold is below 50 |
| Consensus.ScoreBetween | src/orchestrator/orchestrator.py:690-691 | The merged score, rounded twice, lies between the successful scores |
| Pipeline.MergedScoreReachesIff | src/orchestrator/orchestrator.py:690-691 | The merged score, rounded to a tenth and then to an integer, reaches an even k exactly if the average is above k - 0.55, an odd k exactly from k - 0.45 on |
| Arithmetic.RoundIff | src/orchestrator/orchestrator.py:691 | `round` gives the nearest integer, halfway the even one |
| Consensus.Strictest | src/gate/consensus.py:337-346 | A cast vote that no vote exceeds in severity |
| Consensus.AbsoluteMajorityWins | src/gate/consensus.py:291-317 | A decision with more than half of the votes wins, in any order, exactly if it meets the quota or is the strictest; always for a ratio of at most one half |
| Consensus.FirstOfTwoDecidesIff | src/gate/consensus.py:291-317 | Of two models that disagree the first decides exactly if the ratio is at most one half or it is the stricter |
| Consensus.OrderMattersIff | src/gate/consensus.py:291-317 | The MAJORITY outcome depends on the order of the reviews exactly if a tie for the most votes carries |
| Consensus.DissentersIff | src/gate/consensus.py:291-346 | A model is named as dissenting exactly if it succeeded with another decision than the winner at quota under MAJORITY, or else the strictest vote; once for each such vote |
| Consensus.DissentersInOrder | src/gate/consensus.py:306-317 | In the order of the reviews |
| ConsensusGate.CountVotes | src/gate/consensus.py:295-297 | The dict holds the votes of every decision, its keys in the order first voted |
| ConsensusGate.ResolveMajority | src/gate/consensus.py:291-317 | The decision with the most votes, the first voted among equals, if it reaches the quota; else the strictest; and who dissents |
| ConsensusGate.ResolveUnanimous | src/gate/consensus.py:319-335 | The common vote, or one level above the strictest; nobody dissents exactly if all agree |
| ConsensusGate.ResolveConsensus | src/gate/consensus.py:227-289 | The resolution of all reviews under the configured strategy |
| Gates.Escalate | src/gate/consensus.py:348-354 | One level up, except at the top |
| GateEvaluator.EvaluateGate | src/gate/evaluator.py:51-109 | The cascade of early returns finds the strictest of all demanded levels, a consensus included |
| GateEvaluator.Gate | src/gate/evaluator.py:25-48 | The strictest demanded level is demanded and at least every demanded level |
| GateEvaluator.CheckL3Halt | src/gate/evaluator.py:112-131 | Build not passed, or critical or high findings |
| GateEvaluator.CheckL2Human | src/gate/evaluator.py:134-169 | Low score, coverage more than ten below, guarded changes, medium findings or retries used up |
| GateEvaluator.CheckDynamicGuardrails | src/gate/evaluator.py:172-207 | Some changed path or the instructions contain, in lower case, a high-risk word |
| Texts.ContainsIff | src/gate/evaluator.py:189 | A text contains a word exactly if the word can be cut out of it |
| Texts.CapitalsAreLowered | src/gate/evaluator.py:187 | Each of the 26 capitals becomes its small letter |
| Texts.OthersStay | src/gate/evaluator.py:187 | Text without capitals stays as it is (the other ASCII characters) |
| GateEvaluator.CheckL1Rework | src/gate/evaluator.py:225-244 | Lint not passed, coverage just below, or failed tests |
| GateEvaluator.ApplyConsensusGate | src/gate/evaluator.py:32-48 | The stricter of policy and consensus if a consensus has run |
| GateEvaluator.GateIsMonotone | src/gate/evaluator.py:51-244 | Worse measurements, a stricter policy, more paths, longer instructions or more retries never make the gate laxer |
| GateEvaluator.GateJoins | src/gate/evaluator.py:32-48 | The gate is the policy's own decision joined with the consensus |
| GateEvaluator.AutoPassIff | src/gate/evaluator.py:96-109 | Exactly what an automatic pass certifies |
| GateEvaluator.GateLevels | src/gate/evaluator.py:51-244 | For each level the single findings of record, policy, paths and instructions that lead to it or above, exactly |
| Pipeline.VotesBindGate | src/orchestrator/orchestrator.py:640-692 | In CONSENSUS mode, and in STRICT mode with consensus, the final gate is at least every successful vote, and above every vote on disagreement under UNANIMOUS unless at L4 |
| Pipeline.FailureNeedsHuman | src/orchestrator/orchestrator.py:640-692 | If every model fails the gate is at least L2 in CONSENSUS and STRICT mode |
| Pipeline.StrictNeedsHuman | src/orchestrator/orchestrator.py:652-680 | Without consensus STRICT mode is at least L2 |
| Pipeline.LowScoresNeedHuman | src/orchestrator/orchestrator.py:682-692 | If all successful models score below the threshold the gate is at least L2 |
| Pipeline.HalfWinsIff | src/gate/consensus.py:299-309 | The quota of the pipeline: the plurality wins under MAJORITY exactly with half of the successful votes or more |
| Pipeline.TwoOfThreeWin | src/orchestrator/orchestrator.py:569-680 | Two of three models decide under MAJORITY, whatever the third says |
| Pipeline.ReachedIff | src/gate/consensus.py:256-264 | Consensus is agreement of the votes under UNANIMOUS, otherwise a deviation of at most the configured divergence |
| Pipeline.FlagMergedIff | src/orchestrator/orchestrator.py:694-705 | The merged flags are exactly those of known severity that successful reviews raise, with the model's name before the detail |
| Pipeline.FlagsInOrder | src/orchestrator/orchestrator.py:694-705 | In the order of the reviews |
| Pipeline.ReviewsCountIff | src/orchestrator/orchestrator.py:290-612 | The models' reviews can make a difference exactly in CONSENSUS and STRICT mode, with models and a known strategy, and not about the reviewer's own work |
| Pipeline.ReviewRaisesIff | src/orchestrator/orchestrator.py:580-589 | The review raises exactly if it is due under a strategy that is not known |
| ReviewModes.DecisionByVotes | src/gate/consensus.py:227-335 | From L2 up the resolved decision is what the votes say under each strategy: some vote that strict, some vote one below it on disagreement, or the winner at quota |
| ReviewModes.ModesJoin | src/orchestrator/orchestrator.py:569-692 | The gate of each mode as the policy's decision on the merged record joined with the resolution, or with L2 where STRICT overwrites it |
| ReviewModes.StrictIsLaxerIff | src/orchestrator/orchestrator.py:652-668 | STRICT is laxer than CONSENSUS exactly if votes or scores dissent, the votes decide for a halt or more, and neither a deploy request nor, at L3, the build or security findings stop at that level anyway |
| ReviewModes.StrictLosesHalt | src/orchestrator/orchestrator.py:652-668 | Votes for L2 and L3 on a clean record: L4 in CONSENSUS mode, L2 in STRICT mode |
| ReviewModes.ConsensusIsLaxerIff | src/orchestrator/orchestrator.py:682-692 | CONSENSUS is laxer than a single reviewer exactly if the models' average lifts a score below the threshold to it, their votes do not decide for a human, and no other reason for L2 or more holds |
| ReviewModes.ConsensusLiftsScore | src/orchestrator/orchestrator.py:682-692 | A score of 60 stops for a human; two models passing with 80 make it AUTO_PASS |
| VoteMonotonicity.StrictestIsMonotone | src/gate/consensus.py:337-346 | Under STRICTEST stricter votes never lead to a laxer decision |
| VoteMonotonicity.StrictestGateIsMonotone | src/orchestrator/orchestrator.py:640-680 | Nor to a laxer gate, in CONSENSUS and in STRICT mode |
| VoteMonotonicity.UnanimousFallsIff | src/gate/consensus.py:319-335 | Under UNANIMOUS they do exactly if they end a disagreement on what was the strictest vote, below L4 |
| VoteMonotonicity.StricterVoteLowersUnanimous | src/gate/consensus.py:319-335 | AUTO_PASS and L2 resolve to L3, twice L2 resolves to L2 |
| VoteMonotonicity.MajorityFallsIff | src/gate/consensus.py:227-317 | Under MAJORITY they do exactly if, on the new counts, the first decision with the most votes meets the quota, and on the old counts the winner at quota, or else some vote, was above it (by a level that a failed consensus does not level out) |
| VoteMonotonicity.StricterVoteLowersMajority | src/gate/consensus.py:291-317 | AUTO_PASS, L1, L3, L3 resolve to L3; the stricter L1, L1, L3, L4 to L1 |
| Orchestration.HandoffArtifact.Copy | src/orchestrator/orchestrator.py:386 | A fresh handoff with the same contents |
| Orchestration.PrepareRework | src/orchestrator/orchestrator.py:364-390 | A copy of the original with the findings of the last attempt as instructions |
| Orchestration.MergeConsensus | src/orchestrator/orchestrator.py:682-705 | Consensus fields always; score, decision and flags only with a success |
| Orchestration.RunMultiProviderReview | src/orchestrator/orchestrator.py:569-680 | The record and package after the review in each mode, or an exception for an unknown strategy |
| Orchestration.ExecutePipeline | src/orchestrator/orchestrator.py:243-362 | The evaluated record of one attempt in a fresh artifact, or an exception |
| Orchestration.HandleGate | src/orchestrator/orchestrator.py:393-565 | The package a gate leaves behind, and whether a commit is made |
| Orchestration.PipelineFailed | src/orchestrator/orchestrator.py:145-165 | A pipeline exception ends in L2 on a copy of the attempt's handoff |
| Orchestration.ExhaustedNeedsHuman | src/gate/evaluator.py:162-163 | From the last permitted attempt on the gate is at least L2 |
| ReworkTheorems.AttemptPassesIff | src/orchestrator/orchestrator.py:324-344 | An attempt passes exactly if its measurements are clean, no path contains a word reserved for a human ("migration", "schema", "integration", "external", or a high-risk path), its instructions hold no high-risk word, and a retry is left |
| ReworkTheorems.SensitivePathNeedsHuman | src/orchestrator/orchestrator.py:326-331 | A path with a reserved word stops the attempt for a human and is not committed, whatever else it delivers |
| ReworkTheorems.CommittedIff | src/orchestrator/orchestrator.py:393-414 | Where a run ends, there is a commit exactly if the attempt passes and has changed a file |
| ReworkTheorems.ReviewsKeepMeasurements | src/orchestrator/orchestrator.py:682-705 | Reviews change score, gate and flags, and no measurement |
| ReworkTheorems.OneChangeIff | src/orchestrator/orchestrator.py:324-344 | A clean attempt that changes one path is committed exactly if the path contains none of the four words; otherwise L2_HUMAN |
| ReworkTheorems.IntegrationStops | src/orchestrator/orchestrator.py:329-331 | A clean change of integration/crm.py stops for a human |
| ReworkTheorems.PlainPathIsCommitted | src/orchestrator/orchestrator.py:324-344 | A clean change of app.py is committed |
| Orchestration.AttemptOnce | src/orchestrator/orchestrator.py:125-226 | One pass of the loop: stop with the attempt's outcome, or rework; a rework always has an attempt left |
| Orchestration.ProcessHandoff | src/orchestrator/orchestrator.py:102-229 | At most max_retry_before_escalation + 1 attempts, stopping at the first that does not end in rework with exactly its record, package and commit; a negative maximum raises |
| ReworkTheorems.RunEndsOnce | src/orchestrator/orchestrator.py:125-229 | The stopping attempt is unique and never hands out L1_REWORK |
| ReworkTheorems.PassIsEarned | src/orchestrator/orchestrator.py:166-174 | AUTO_PASS comes strictly before the last attempt, from a clean record, and with several reviewers from at least one success whose votes are all AUTO_PASS and in consensus |
| ReworkTheorems.PackageLevel | src/orchestrator/orchestrator.py:517-565 | The package names the gate and its trigger at L2 and L4, is absent on a pass, and says L2 for a halt without consensus |
| ReworkTheorems.HaltIsMislabelled | src/orchestrator/orchestrator.py:663-680 | A broken build under STRICT mode with disagreeing models is halted with a package for L2 |
| ReworkTheorems.RiskyTaskEndsAtOnce | src/gate/evaluator.py:194-203 | Instructions with a high-risk word end the first attempt for a human |
| ReworkTheorems.RiskyLineEndsNext | src/orchestrator/orchestrator.py:374-387 | Any line of the rework instructions with a high-risk word ends the next attempt for a human, whatever it delivers |
| ReworkTheorems.RiskyReviewEndsNext | src/orchestrator/orchestrator.py:376-377 | So does a review flag with such a word in its category, its detail or across its line |
| ReworkTheorems.RiskyModelFlagEndsNext | src/orchestrator/orchestrator.py:374-387 | So does a flag of a successful model in CONSENSUS or STRICT mode |
| ReworkTheorems.ReworkLineIff | src/orchestrator/orchestrator.py:374-384 | The lines of a rework are the original, a blank, the heading, and one for each flag, a lint failure and failed tests, and no others |
| ReworkTheorems.FlagLineReads | src/orchestrator/orchestrator.py:376-377 | The line of a flag for each severity |
| Texts.JoinedLines | src/orchestrator/orchestrator.py:387 | Joined with newlines, the lines are those lines again |
| ReworkTheorems.RiskyReworkIff | src/orchestrator/orchestrator.py:374-387 | For words without newline, the instructions of the next attempt are risky exactly if one of their lines is |
| ReworkTheorems.CleanRetryPassesIff | src/gate/evaluator.py:194-203 | A next attempt that is clean but for its instructions passes exactly if none of their lines is risky |
| ReworkTheorems.TokenStopsRetry | src/orchestrator/orchestrator.py:374-387 | A lint failure with a review flag on a token: the clean second attempt is stopped for a human |
| Health.AgentHealthMonitor.constructor | src/healing/health_monitor.py:52-65 | A new monitor is healthy with an empty history |
| Health.AgentHealthMonitor.RecordSuccess | src/healing/health_monitor.py:75-84 | The window is the last results since reset, the failure run is over, and the status follows the history |
| Health.AgentHealthMonitor.RecordFailure | src/healing/health_monitor.py:86-96 | The same with the failure run one longer |
| Health.AgentHealthMonitor.RecordCircuitOpen | src/healing/health_monitor.py:98-104 | Raises a good status to UNHEALTHY and leaves a bad one |
| Health.AgentHealthMonitor.Reset | src/healing/health_monitor.py:106-111 | The history starts anew and the status is HEALTHY |
| Health.AgentHealthMonitor.EvaluateNow | src/healing/health_monitor.py:136-163 | The status of the window and failure run at hand |
| Health.StatusIff | src/healing/health_monitor.py:136-163 | From the results alone: DEAD exactly if the last dead_consecutive_failures failed; UNHEALTHY if not that, and the last unhealthy_consecutive_failures failed or, of at least three in the window, the share of failures reaches the rate; DEGRADED if none of those, and the last degraded_consecutive_failures failed or the window is slow on average; HEALTHY otherwise |
| Health.FailuresInARow | src/healing/health_monitor.py:136-163 | Failures alone, on a new default monitor: HEALTHY up to two, UNHEALTHY from the third, DEAD from the eighth |
| Health.MonitorIsTold | src/healing/health_monitor.py:75-111 | Over any run of results, open circuits and resets: the status of the results since the last reset, HEALTHY without any, and UNHEALTHY instead of a good one if a circuit has opened since |
| Health.FailuresKeepBad | src/healing/health_monitor.py:136-163 | Once a result yields UNHEALTHY or DEAD, further failures stay within the two |
| Health.SuccessesHeal | src/healing/health_monitor.py:136-163 | A window full of quick successes yields HEALTHY from any history, exactly if no threshold is reached without failures |
| Health.OpeningsLeaveNoTrace | src/healing/health_monitor.py:75-111 | Over any run of results, open circuits and resets, the next result or reset leaves the monitor as if no circuit had opened |
| Health.OverrideSurvivesIff | src/healing/health_monitor.py:86-104 | After an open circuit a failure keeps the status UNHEALTHY or DEAD exactly if the failures in a row, this one included, or the window's failure rate reach a threshold |
| Health.CircuitOpenIsForgotten | src/healing/health_monitor.py:86-104 | On a fresh default monitor an open circuit and then a failure end in HEALTHY |

## Left out

- Model calls, prompts, output parsing, QA subprocesses, git, memory, notifications, tracing and logging: the
  reviews of an attempt and the records of QA and reviewer are arbitrary inputs.
- Floating-point rounding: reals throughout; `round` is exact half-to-even, and `score_variance` is kept as the
  square of the deviation.
- `add_tasks`, `process_chain`, `get_summary`, `is_pipeline_healthy`, `get_status` and the registries other than
  the breaker's: they only iterate over or report what is modelled.
- src/runtime/hybrid.py, src/mcp/a2a.py, token budgets, watchdog, self-healer and evolution: easy members, or
  invariants that do not hold.
- Scheduler.TaskScheduler.GetReadyTasks: returns task ids instead of the task objects.
- Scheduler.Run: starts from freshly registered tasks, executors raise only what `except Exception` catches, and
  the semaphore may wake waiting tasks in any order; theorems on how runs end assume a concurrency of at least one,
  since with zero permits no task ever starts.
- Recovery.RetryAsync: the sleeps appear only as the times at which attempts arrive, so jitter is any delay.
- Recovery.Call: the `fallback` argument is left out, as `run_step` passes none.
- Migrator.SchemaMigrator.Migrate: documents are values, so that steps which modify their argument instead of a copy
  are not captured; `int()` on non-ASCII digits or on more than 4300 digits is not modelled.
- GateEvaluator.CheckDynamicGuardrails: lower-casing covers the ASCII letters.
- ReworkTheorems.RiskyReworkIff: a high-risk word that itself contains a newline can also match across two lines.
- Orchestration.HandoffArtifact.Copy: the nested records of a handoff are values; ids, timestamps, memory context
  and the wording of packages are left out.
- Orchestration.ProcessHandoff: exceptions raised by the commit itself are left out, and the agent is taken not to
  change the retry count of the handoff it is given.
- Orchestration.ExecutePipeline: SHADOW reviews only log and are not run.
- Consensus.OrderMattersIff: is about `_resolve_majority`; a failed consensus may map different outcomes to L1_REWORK.
- VoteMonotonicity.StrictestIsMonotone: in the votes alone; changed scores may also make or break the consensus.
- Health.AgentHealthMonitor.RecordFailure: error texts and timestamps of results are left out.
