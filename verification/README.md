# HuntLoop: a verified model of its run protocol, its adaptive loop and its discovery writes

HuntLoop discovers job listings on a schedule, scores them with a language
model under a spend cap, and proposes edits to the user's search criteria from
what the user rejected. This project models the parts of it in which several
processes, several operations or exact arithmetic interact.

- `RunStore`, `RunProtocol`, `RunSafety`, `RunBranches`, `RunWitnesses`: the `runs` and
  `settings` tables, and every process that touches a run (its thread, its
  employer branches, its heartbeat, the API's calls, both sweeps, the
  scheduler) as one transition system in which any number of runs interleave
  and every step reads its own clock.
- `Pricing`, `SpendLedger`, `SpendRace`, `Refinement`: the price table, the shared
  ledger, employer branches spending from it in parallel, and the proof that the
  scoring code of `Pipeline` is one such branch.
- `Pipeline`, `Jobs`, `Resolve`, `Signals`: one employer from fetched listings to
  committed rows, the jobs table and its status history, the probing of job
  boards, and the classification of a history into one signal.
- `Scoring`, `Criteria`, `Detect`, `Presence`, `Predict`, `Convergence`, `Proposals`,
  `AdaptiveLoop`: the overall score, the criteria payload, detection of candidate
  edits and exactly when each is there, their predicted effect, repeated acceptance,
  the store of versions and proposals as a state machine, and how long the loop over
  that store can go on.
- `Common`, `Counting`, `Sorting`: shared vocabulary, rounding, counting by position,
  and the stable sort.

Instants are whole microseconds, money whole micro-dollars, scores whole
hundredths, weights and dimension scores exact reals. A method of a class is
proved equal to a function of the old state; the theorems are about those
functions and about sequences of them.

## Where the code and its own text disagree

The model follows the code.

- `src/huntloop/scoring/spend_cap.py:6` allows an overshoot of one call. With two
  or more branches the overshoot can be larger (`SpendRace.TwoBranchesOvershoot`);
  the claim holds iff there is at most one branch, the cap is zero or calls are free.
- `src/huntloop/api/routers/runs.py:189-190` says two runs cannot both run. Guard and
  start are separate commits, and `src/huntloop/cli/run.py:13-21` has no guard. A guarded
  start keeps one RUNNING row iff every run started in between is over
  (`RunSafety.GuardedStartKeepsOneRunning`).
- `src/huntloop/graph/nodes.py:268-269` says a stop after the last employer escapes to
  the STOPPED path. It does not when another run's clean-up deletes the shared
  marker first. A run loses its marker exactly through a stop call, stopped exit or
  clean-up of another run (`RunSafety.MarkerIsHeldExactly`), without which the
  request is honoured (`RunSafety.UndisturbedStopIsHonoured`), and at its last gate
  it can end SUCCESS exactly when the marker is gone (`RunSafety.LastGateDecides`).
- `src/huntloop/db/repository.py:20-25` says the discovery-owned columns exclude
  `first_seen_at`, `source_run_id` and the filter tier; the list includes them.
  `first_seen_at` is still never overwritten, because only inserts supply it.
- `src/huntloop/db/repository.py:370-371` says the stale finalize uses the
  unconditional finish; `src/huntloop/db/run_liveness.py:150-173` uses the conditional one.
- `src/huntloop/db/repository.py:215` calls `mark_scored` the only write path to the
  score columns. The backlog rescorer writes the overall score too
  (`src/huntloop/scoring/aggregate.py:59`, from `src/huntloop/cli/criteria.py:40-42`).
- `src/huntloop/graph/build.py:330-333` clears the lease because the run is terminal. A beat
  that may still follow puts it back, exactly under `RunSafety.LeaseCanReturnExactly`.
- A rejection counts as fast up to 10.005 days, since the dwell is rounded first.
- Track A reads bare numbers only, while the scorer stores nested objects, so over
  the scorer's own output it never proposes. Over bare numbers, once a rubric
  dimension has a majority and the eight observations of a weight edit, acceptance
  can go on without end; otherwise it cannot (`AdaptiveLoop.LoopEndsExactly`).
- `src/huntloop/loop/predicted_effect.py:418-422` lets no bad row abort a prediction,
  but one bad row aborts the rescoring that the prediction anticipates
  (`Predict.DryRunMatchesRescoring`).
- Widening the eligible places can drop listings, when a list that was empty (and
  so judged nothing) gets some entries but not all (`Predict.GeographyWidening`).
- An employer whose final commit fails keeps its `written` count; it is wrong exactly
  when the write had inserted rows (`Pipeline.ClaimsLostRows`).

## Model

| member | source | states |
|---|---|---|
| `RunStore.Session.Finish` | src/huntloop/db/repository.py:402-437 | Column by column: status, counters and finish time are the ones given, a note replaces the old one only when given, trigger and start stay; no setting and no other row changes |
| `RunStore.Session.FinishIfRunning` | src/huntloop/db/repository.py:347-389 | A RUNNING row ends with those columns and this is reported; a terminal or absent row leaves both tables as they were |
| `RunStore.Session.ReconcileStaleRuns` | src/huntloop/db/run_liveness.py:176-203 | Whatever order the rows come in, exactly the RUNNING rows whose lease (or start) is older than the threshold end FAILED with their last-seen time and lose their lease; they are listed once each |
| `RunStore.Session.FinalizeGraceExpiredStops` | src/huntloop/db/run_liveness.py:206-275 | Exactly the RUNNING rows whose request time is older than the grace end STOPPED and lose lease and request time; the shared marker goes only if it names one of them |
| `RunStore.InterruptOne` | src/huntloop/db/run_liveness.py:150-203 | Finalizing other stale rows first changes neither how a row is judged nor what finalizing it does |
| `RunStore.StopOne` | src/huntloop/db/run_liveness.py:225-273 | The same for the grace sweep, whose rows share one marker |
| `RunStore.GateOutcome` | src/huntloop/db/run_liveness.py:131-275 | After both sweeps a row is RUNNING iff it was live and not grace-expired, and it still is both |
| `RunStore.Session.RequestStop` | src/huntloop/graph/cancellation.py:52-69 | Overwrites the shared marker and this run's own request time, nothing else |
| `RunStore.Session.IsStopRequested` | src/huntloop/graph/cancellation.py:86-97 | True iff the marker names this run; another run's marker does not stop it |
| `RunStore.Session.ClearStopRequest` | src/huntloop/graph/cancellation.py:101-116 | Deletes the marker whatever it names, and the request time of the given run only |
| `RunStore.Session.StopRun` | src/huntloop/api/routers/runs.py:220-272 | Unknown, finished, stale and live targets: which reply, and what each reply says of rows and settings |
| `RunStore.Session.TriggerRun` | src/huntloop/api/routers/runs.py:185-217 | Refused only for a run that is live and not grace-expired; admitted iff every RUNNING row was stale or grace-expired |
| `RunStore.Session.ScheduledFire` | src/huntloop/scheduler/jobs.py:100-126 | The same gate; a refusal adds one SKIPPED row naming a live run, an admission leaves no RUNNING row behind |
| `RunStore.Session.FindRunInProgress` | src/huntloop/scheduler/jobs.py:69-84 | A RUNNING row if there is one, else none exists |
| `RunStore.Session.RecordSkippedRun` | src/huntloop/scheduler/jobs.py:87-97 | The unconditional finish touches only the row started in the same transaction, which ends SKIPPED with zero counters and the blocking run in its note |
| `RunStore.Session.StartRun` | src/huntloop/graph/build.py:213-223 | Row and first lease appear together |
| `RunStore.Session.ExitStopped` | src/huntloop/graph/build.py:336-375 | Conditional STOPPED, then marker, request time and lease are gone |
| `RunStore.Session.ExitFailed` | src/huntloop/graph/build.py:390-416 | Conditional FAILED, then only the lease is gone |
| `RunStore.Session.ClearRunArtifacts` | src/huntloop/graph/build.py:423-435 | Lease, request time and the shared marker (whosever) are deleted, no row changes |
| `RunProtocol.RowStep` | src/huntloop/graph/build.py:336-417 | One step of any process leaves a terminal row alone, and a RUNNING row either unchanged or finished |
| `RunProtocol.StopCallIsAStep` | src/huntloop/api/routers/runs.py:220-272 | A stop call records a request iff that step of the protocol is possible, ends a stale run iff that one is, and else changes nothing |
| `RunProtocol.InvAlways` | src/huntloop/graph/nodes.py:100-136 | In every reachable state at most `concurrency` branches run, and a thread past its exit has a terminal row |
| `RunProtocol.TerminalRowsFrozen` | src/huntloop/db/repository.py:347-437 | Once a row has left RUNNING no schedule of steps changes any of its columns |
| `RunProtocol.FinishTimeIffTerminal` | src/huntloop/db/repository.py:280-437 | In every reachable state finish time is set iff the row is terminal, and a RUNNING row has zero counters and no note |
| `RunSafety.EndIsRecorded` | src/huntloop/db/repository.py:402-437 | The step that ends a run leaves in its row that step's own status, counters, note and clock: a sweep zero counters, the thread's exits the counters given |
| `RunSafety.EndIsRecordedForGood` | src/huntloop/db/repository.py:347-437 | In every schedule the row holds those columns at the end too, whatever steps follow |
| `RunSafety.NewRowIsRecorded` | src/huntloop/db/repository.py:280-299 | A row appears through a start or a skip only, with that step's trigger and start and, after a start, its first lease |
| `RunSafety.StopTimeSurvives` | src/huntloop/graph/cancellation.py:101-116 | While a run is not terminal its request time is its own latest request, whatever other runs' clean-ups and requests do to the marker |
| `RunSafety.StopIsNeverLost` | src/huntloop/db/run_liveness.py:206-275 | Any grace sweep later than the latest request plus the grace leaves the run terminal for good |
| `RunSafety.GraceSweepEndsExactly` | src/huntloop/db/run_liveness.py:206-275 | The sweep ends exactly the runs whose latest request is older than the grace |
| `RunSafety.LastSeenIsLastBeat` | src/huntloop/db/run_liveness.py:92-128 | A RUNNING run is judged by the latest lease its own process wrote |
| `RunSafety.ReconcileFinalizesExactly` | src/huntloop/db/run_liveness.py:131-203 | Reconcile ends a run iff its last written lease is older than the threshold, with that time in the note |
| `RunSafety.UnleasedRunIsJudgedByItsStart` | src/huntloop/db/run_liveness.py:92-128 | A RUNNING row without a readable lease is interrupted iff it started longer ago than the threshold |
| `RunSafety.RenewedRunIsNeverInterrupted` | src/huntloop/db/run_liveness.py:39-43 | A run that never misses more beats in a row than the threshold covers is never finalized by reconcile |
| `RunSafety.SevenMissedBeatsAreTolerated` | src/huntloop/db/run_liveness.py:39-50 | At 15 s beats and a 120 s threshold a reconcile ends a RUNNING run iff it has missed eight beats since its last lease |
| `RunSafety.LateBatchesAreBounded` | src/huntloop/graph/nodes.py:111-251 | After a run is terminal only branches already past the row check of their write gate commit a batch, each once, at most `concurrency` of them |
| `RunSafety.BatchesAreCommits` | src/huntloop/graph/nodes.py:230-258 | The batches of a run are exactly its commit steps so far |
| `RunBranches.EmployersAreConserved` | src/huntloop/graph/nodes.py:139-261 | In every schedule each employer of a run is waiting, in the pool or over: starts and ends of branches balance |
| `RunBranches.FinalGateMeansAllOver` | src/huntloop/graph/nodes.py:264-297 | A run reaches its final gates only when the branch of every employer it was started with has begun and ended |
| `RunBranches.EveryGateIsPassed` | src/huntloop/graph/nodes.py:100-136 | No branch works on a stage, or commits, without a row check and a marker check of its own for that stage and each stage before |
| `RunBranches.NoStageIsEnteredAfterAStop` | src/huntloop/graph/nodes.py:100-136 | While the marker names a RUNNING run no branch of it enters a stage: what is worked on later was being worked on at the stop |
| `RunBranches.StopEndsTheBranch` | src/huntloop/graph/nodes.py:440-446 | At its next marker gate or listing check a branch of a stopped run is over, and the run can no longer pass its final gates |
| `RunSafety.OnlyAskedRunsAreStopped` | src/huntloop/graph/nodes.py:100-136 | STOPPED, stop times and markers only ever come from a stop call for that run |
| `RunSafety.StoppedMeansAsked` | src/huntloop/graph/build.py:336-388 | A run started in the schedule ends STOPPED only if some stop call named it |
| `RunSafety.UndisturbedStopIsHonoured` | src/huntloop/graph/nodes.py:264-270 | While no step of another run touches the marker, a run asked before its last gate ends STOPPED or FAILED, never through finalize_run |
| `RunSafety.MarkerIsHeldExactly` | src/huntloop/graph/cancellation.py:52-116 | A step costs a RUNNING run its stop marker iff it is a stop call, stopped exit or clean-up of another run |
| `RunSafety.LastGateDecides` | src/huntloop/graph/nodes.py:264-328 | At its last gate a run can still end SUCCESS iff the marker no longer names it |
| `RunSafety.ExitLeftovers` | src/huntloop/graph/build.py:336-420 | Which of lease and request time survive the step that ended a run: exactly which, for every kind of end |
| `RunSafety.LeaseReturnsExactly` | src/huntloop/graph/build.py:413-435 | An ended run without a lease has one again iff a beat of its own was committed since and no exit of its own followed |
| `RunSafety.LeaseCanReturnExactly` | src/huntloop/db/run_liveness.py:293-333 | Some schedule brings that lease back iff a beat is under way, the heartbeat waits untold to stop, or the thread has yet to start it |
| `RunSafety.StopTimeStaysExactly` | src/huntloop/graph/cancellation.py:101-116 | The request time of an ended run is never set again and goes exactly with a stopped exit or clean-up of that run |
| `RunSafety.SingleRunIsKeptExactly` | src/huntloop/scheduler/jobs.py:69-84 | "At most one RUNNING row" is lost by a step iff it is a start while another row is RUNNING |
| `RunSafety.GuardedStartKeepsOneRunning` | src/huntloop/api/routers/runs.py:201-217 | A start whose guard passed leaves one RUNNING row iff every run started between guard and start is over by then |
| `RunSafety.GuardedStartsNeverOverlap` | src/huntloop/api/routers/runs.py:201-217 | If every start is guarded and no other start commits in between, there is never more than one RUNNING row |
| `RunWitnesses.TwoAdmittedRunsOverlap` | src/huntloop/api/routers/runs.py:189-217 | A schedule in which two guards pass, then both runs start and both are RUNNING |
| `RunWitnesses.LeaseCanOutliveTheRun` | src/huntloop/graph/build.py:330-420 | A beat already under way puts the lease back after the clean-up |
| `RunWitnesses.StopTimeCanOutliveTheRun` | src/huntloop/graph/build.py:390-417 | The FAILED exit leaves the request time behind |
| `RunWitnesses.AcceptedStopCanEndInSuccess` | src/huntloop/graph/cancellation.py:101-116 | A run whose stop was accepted before it did anything can end SUCCESS, because another run's clean-up deleted the marker |
| `Pricing.Cost` | src/huntloop/pricing/table.py:36-52 | The recorded cost is within half a micro-dollar of the exact one, ties to the even neighbour |
| `Pricing.MillionTokenPrices` | src/huntloop/pricing/table.py:21-28 | What a million input or output tokens of each priced model cost |
| `SpendLedger.OrderDoesNotMatter` | src/huntloop/scoring/spend_cap.py:74-84 | Two orders of the same usages give the same spend, tokens and unpriced models |
| `SpendLedger.RoundingIsBounded` | src/huntloop/pricing/table.py:36-52 | Spend over n priced calls is within n half-micro-dollars of the exact cost |
| `SpendLedger.UnpricedExactly` | src/huntloop/scoring/spend_cap.py:74-84 | The unpriced models are exactly the named ones without a price that some recorded usage carries |
| `SpendRace.SpendStaysBelowCapPlusCalls` | src/huntloop/scoring/spend_cap.py:66-84 | N branches, calls of at most C: spend < cap + N*C in every interleaving |
| `SpendRace.NoCallAfterTheCap` | src/huntloop/scoring/spend_cap.py:66-72 | Once the cap is reached no branch issues a call, and at most the calls in flight return |
| `SpendRace.OvershootBelowOneCallIffSequential` | src/huntloop/scoring/spend_cap.py:4-7 | "Overshoot by at most one in-flight call" holds iff there is at most one branch, the cap is zero or calls are free |
| `SpendRace.TokensAreConserved` | src/huntloop/graph/nodes.py:276-297 | Ledger tokens = tokens in results + tokens of listings and employers without a result + tokens still held by branches |
| `SpendRace.ResultsNeverExceedTheLedger` | src/huntloop/graph/nodes.py:288-295 | The per-employer sums never exceed the ledger; when nothing is running the gap is exactly the lost usage |
| `SpendRace.LedgerIsTheTotal` | src/huntloop/scoring/spend_cap.py:74-84 | In every interleaving the ledger is the total of the usages recorded so far |
| `Refinement.CaseIsASchedule` | src/huntloop/scoring/pipeline.py:84-121 | Scoring one listing is a schedule of the race of one branch, with the same ledger, and the branch holds exactly the usage of the result |
| `Refinement.BatchIsASchedule` | src/huntloop/graph/nodes.py:440-482 | Scoring a batch is such a schedule too, however it ends |
| `Jobs.JobTable.UpsertDiscovered` | src/huntloop/db/repository.py:123-162 | Inserts a NEW row or refreshes the discovery columns of the row with that key |
| `Jobs.JobTable.SetStatus` | src/huntloop/db/repository.py:177-200 | Moves the status and appends the event from the old status to the new one |
| `Jobs.JobTable.WriteListing` | src/huntloop/discovery/write.py:29-92 | The row with the listing's key has its facts, tier, run and time, and its score if it has one; every other row is as it was; inserted, updated or failed is told apart |
| `Jobs.WrittenIsStored` | src/huntloop/discovery/write.py:29-92 | After the write of a keyed listing one row holds its facts, tier, run and time; the score is the listing's, else the old one; a new row is NEW with empty notes; all other rows are unchanged |
| `Jobs.BatchIsStored` | src/huntloop/discovery/write.py:95-116 | After a batch every row holds what the last listing of its key says and the score of the last scored one of that key; rows of other keys are unchanged |
| `Jobs.JobTable.WriteBatch` | src/huntloop/discovery/write.py:95-116 | inserted + updated + failed is the batch, inserted is the growth of the table, failed the listings without a key |
| `Jobs.BatchPreserves` | src/huntloop/discovery/write.py:29-116 | A batch keeps keys unique, first-seen, status and notes of every row, adds every key it carries, and changes a score only to that of a scored listing with the key |
| `Jobs.HistoryPreserves` | src/huntloop/db/repository.py:123-232 | Over any interleaving of writes, status calls and note edits: keys stay unique, first_seen_at never changes, events are only appended |
| `Jobs.OnlyOwnersWrite` | src/huntloop/db/repository.py:20-48 | Status and notes of a row change only through their owner; its score only by a scored write of its key or a rescoring, which moves the overall score alone |
| `Jobs.RescoringChangesAScore` | src/huntloop/db/repository.py:202-232 | A row whose score changes although no scored listing is written |
| `Jobs.RescoringChangesExactly` | src/huntloop/scoring/aggregate.py:37-68 | A rescoring changes the score of a row iff no row aborts the pass and its dimensions give another overall score |
| `Jobs.JobTable.Recompute` | src/huntloop/scoring/aggregate.py:37-68 | Rescores every scored row and counts those that got a score; raises iff some stored value is not a number, and then changes nothing |
| `Jobs.RewriteInsertsNothing` | src/huntloop/db/upsert.py:13-45 | Writing the same batch again, after anything else, inserts nothing and moves no key |
| `Jobs.HistoryIsChained` | src/huntloop/db/repository.py:177-200 | The events of each job form a chain from NEW to its present status |
| `Signals.ClassificationIgnoresOrder` | src/huntloop/loop/signals.py:128-183 | Supplied in any order, events of which no two different ones share a time are classified as in time order |
| `Signals.OrderIsIgnoredExactly` | src/huntloop/loop/signals.py:128-183 | The supplied order never matters iff no two different events carry the same time |
| `Signals.VerdictIgnoresOrderExactly` | src/huntloop/loop/signals.py:128-183 | Kind, dwell and depth never depend on the supplied order iff the events at the latest time all lead to one verdict |
| `Signals.SignalOfHistory` | src/huntloop/loop/signals.py:128-183 | For histories made by status calls in time order: FAST_REJECT, LATE_REJECT and PROGRESSED each hold iff their rule does |
| `Signals.FastRejectAfterTenDays` | src/huntloop/loop/signals.py:110-116 | A rejection after more than ten days that is still fast, because the dwell is rounded to two places |
| `Signals.RoundedDwell` | src/huntloop/loop/signals.py:110-116 | The rounded dwell is within the limit iff the exact one is at most 10.005 days |
| `Signals.DepthExactly` | src/huntloop/loop/signals.py:61-66 | The order of the depths: shortlisted, applied, interviewing, offer |
| `Pipeline.DedupeWithinBatch` | src/huntloop/graph/nodes.py:391-411 | Keeps the first listing of each key in order and counts those without a key |
| `Pipeline.DedupedKeys` | src/huntloop/graph/nodes.py:391-411 | What is kept has pairwise different keys and loses no key |
| `Pipeline.KeepsTheFirst` | src/huntloop/graph/nodes.py:391-411 | The kept listings stand at exactly the positions where a key occurs for the first time, in order |
| `Pipeline.ScoreListing` | src/huntloop/scoring/pipeline.py:47-165 | Check, call, record, check, call, record in that order: result and ledger for every mix of refusals and failures; tier, dropped, error, score and usage of a result are told from the listing's case alone |
| `Pipeline.ListedTellsTheCase` | src/huntloop/scoring/pipeline.py:47-165 | A result has the filters' tier iff the filters dropped it, is in error iff the answer was bad, has a score iff there was an answer; the cap refuses iff it is met before a call that would follow; the call raises iff it is made and fails |
| `Pipeline.UsageIsWhatWasRecorded` | src/huntloop/scoring/pipeline.py:84-121 | A result carries exactly the usage recorded for it; a refusal met the cap and cost at most the triage call; at the cap only the free filters run |
| `Pipeline.ScoreBatch` | src/huntloop/graph/nodes.py:414-492 | The listings that get a result, the ledger and how the batch ended; every counter is the number of processed listings whose case says so |
| `Pipeline.ScanTellsTheBatch` | src/huntloop/graph/nodes.py:414-492 | The results are those of a prefix of the batch, in order, each told from its case, also in no-score mode; a batch stops early iff a stop, the cap or a failed call meets the next listing |
| `Pipeline.CountersTellTheCases` | src/huntloop/graph/nodes.py:448-482 | after_deterministic is the number of processed listings that the filters kept, after_triage of those that triage kept as well, scored of the answered and failed of the badly answered ones |
| `Pipeline.BatchFunnel` | src/huntloop/graph/nodes.py:448-482 | after_deterministic >= after_triage >= scored within one batch |
| `Pipeline.ProcessEmployer` | src/huntloop/graph/nodes.py:139-261 | The first obstacle decides stop, error or success; only a success changes the jobs table; what was spent stays spent; the result satisfies the funnel, and its `written` is wrong iff the final commit fails after rows were inserted |
| `Pipeline.LostRowsAreClaimed` | src/huntloop/graph/nodes.py:230-258 | An employer whose failed commit leaves a written count of one and no row |
| `Pipeline.SumResults` | src/huntloop/graph/nodes.py:274-286 | The run totals are the column sums of the results |
| `Pipeline.TotalsAddUp` | src/huntloop/graph/nodes.py:274-286 | The totals of two groups of employers add up column by column, and those of one employer are its own columns |
| `Pipeline.RunFunnel` | src/huntloop/graph/nodes.py:274-286 | fetched >= after_dedup >= after_deterministic >= after_triage >= scored and new_jobs_written <= after_dedup for the run |
| `Pipeline.StatusOf` | src/huntloop/graph/nodes.py:80-97 | FAILED, SUCCESS and CAPPED each hold iff their condition on errors and caps does |
| `Resolve.EvidenceOrderSorts` | src/huntloop/registry/resolve.py:125-129 | Exactly the candidates with a slug, strongest source first, slugs alphabetically |
| `Resolve.ProbeCandidates` | src/huntloop/registry/resolve.py:115-150 | At most 12 probes, no pair twice, at most one verified per platform, each the first real board of its platform; short of the cap every candidate is settled |
| `Resolve.PassPicksFirstBoards` | src/huntloop/registry/resolve.py:115-150 | Short of the cap the verified probes are exactly the first real board of each platform in evidence order |
| `Resolve.UncappedPassVerifiesExactly` | src/huntloop/registry/resolve.py:115-150 | Short of the cap a platform is verified iff some candidate of it is a real board |
| `Resolve.StrongestBoardIsVerified` | src/huntloop/registry/resolve.py:35-40 | Short of the cap no real board of a platform has stronger evidence than the verified one: static page before rendered page before guess, slugs alphabetically within one source |
| `Resolve.ResolveEmployer` | src/huntloop/registry/resolve.py:216-293 | The rendered pass happens iff the first verified nothing; AMBIGUOUS iff two platforms are verified, UNRESOLVED iff none, else the one pair |
| `Scoring.OverallIsBetween` | src/huntloop/scoring/aggregate.py:12-35 | The stored score lies within half a hundredth of the lowest and the highest assessed score |
| `Scoring.OverallIsNearest` | src/huntloop/scoring/aggregate.py:35-35 | The stored score is the hundredth nearest to the weighted mean, a half going away from zero |
| `Scoring.OverallOfFour` | src/huntloop/scoring/aggregate.py:12-35 | For four assessed dimensions that mean is written out, and there is no score iff the weights sum to zero |
| `Scoring.NullIsLeftOut` | src/huntloop/scoring/aggregate.py:14-17 | A dimension that came back null changes nothing: the score is that of the others alone |
| `Scoring.NoScoreExactly` | src/huntloop/scoring/aggregate.py:19-33 | A dimension without a weight is an error; with no negative weight there is no score iff no dimension was assessed under a weight of its own |
| `Scoring.TwoThirdsRoundUp` | src/huntloop/scoring/aggregate.py:35-35 | 4, 4 and 3 under equal weights give 3.67 |
| `Scoring.ScalingIsInvisible` | src/huntloop/scoring/aggregate.py:12-35 | Multiplying all weights by a positive number changes no outcome, errors included |
| `Scoring.OverallIsMonotone` | src/huntloop/scoring/aggregate.py:12-35 | Raising assessed scores never lowers the overall score |
| `Scoring.RaisingTheLowestNeverHelps` | src/huntloop/scoring/aggregate.py:12-35 | Raising the weight of the lowest dimension never raises the score |
| `Scoring.RaisingHelpsExactly` | src/huntloop/scoring/aggregate.py:12-35 | Raising one weight raises the unrounded mean iff the score of that dimension is above it |
| `Scoring.OverallIgnoresOrder` | src/huntloop/scoring/aggregate.py:12-35 | The order in which the stored mapping iterates does not matter |
| `Criteria.AppliedEdit` | src/huntloop/loop/apply.py:71-98 | An applied edit is valid, sets its one leaf and changes no other; a refusal means no valid payload differs in that leaf only |
| `Criteria.EditIsAcceptedExactly` | src/huntloop/criteria/schema.py:8-120 | Over a valid payload an edit is accepted iff the value of its one leaf meets the stated limits: ladder and other bound, positive age, known codes and regions, weights with a positive sum |
| `Detect.AttributedIsLowest` | src/huntloop/loop/detect.py:160-184 | The attributed dimension is the first one no numeric score is below; none iff no score is a bare number |
| `Detect.DimensionsStandInOrder` | src/huntloop/loop/detect.py:100-135 | Ties are broken in the order of the rubric, any other name last |
| `Detect.TrackARaisesTheMajorityDimension` | src/huntloop/loop/detect.py:267-305 | The raised dimension is behind at least half of the attributable rejections and no fewer than any other |
| `Detect.EvidenceIsAttributed` | src/huntloop/loop/detect.py:296-301 | The evidence is exactly the rejections attributed to that dimension |
| `Detect.TrackAEvidenceNeverGains` | src/huntloop/loop/detect.py:267-305 | Every listing in Track A's own evidence scores no higher under the proposed weights unless a nested score is lower than the attributed one |
| `Detect.TrackAEvidenceCanGain` | src/huntloop/loop/detect.py:172-178 | A listing with a lower nested score that goes from 2.50 to 3.00 under the proposal it is evidence for |
| `Detect.TrackAIgnoresTheScorersShape` | src/huntloop/scoring/dimensions.py:81-91 | Over scores in the nested shape the scorer stores, Track A proposes nothing |
| `Detect.TrackBEdits` | src/huntloop/loop/detect.py:324-440 | A Track B edit moves one limit by one step, never past the other bound, the floor to the median of the comparable amounts, backed by exactly the rejected listings carrying its flag |
| `Detect.CollectComparable` | src/huntloop/loop/detect.py:380-394 | The flagged amounts, or none as soon as one is in another currency or period |
| `Detect.MedianIsCentral` | src/huntloop/loop/detect.py:313-321 | Half of the amounts lie on either side of the proposed floor, rounding included |
| `Detect.BestTokenIsFirst` | src/huntloop/loop/detect.py:457-539 | No qualifying title token has more titles than the excluded one; ties alphabetically |
| `Detect.BestCompanyIsFirst` | src/huntloop/loop/detect.py:457-539 | The same for the excluded employer |
| `Detect.FieldsAreDistinct` | src/huntloop/loop/detect.py:547-589 | One pass never emits two candidates for the same field |
| `Detect.DetectedCandidatesApply` | src/huntloop/loop/detect.py:547-589 | Every candidate detected against a valid payload applies to it without a validation error and changes its leaf |
| `Presence.FindsExactly` | src/huntloop/loop/detect.py:324-539 | Field by field, one pass emits a Track B or C candidate iff: some fast rejection carries its flag and the limit can move one step; the amounts compare and their median is above the floor; the age limit is over seven days; some token or employer stands |
| `Presence.TrackCEdits` | src/huntloop/loop/detect.py:457-539 | A Track C edit appends one token of three or more rejected titles, or one employer of three or more rejected listings, that nothing progressed carries and no exclusion names, backed by exactly the rejections that carry it |
| `Presence.ThresholdsExactly` | src/huntloop/loop/types.py:105-115 | Listings plus quotes that each field asks for |
| `Detect.TitleTokensExactly` | src/huntloop/loop/detect.py:448-454 | The tokens of a title are its maximal runs of letters and digits, case ignored, of three or more characters and not stopwords |
| `Convergence.AcceptDecreases` | src/huntloop/loop/detect.py:324-539 | Accepting a Track B or C candidate makes a natural-number measure smaller |
| `Convergence.AcceptingTerminates` | src/huntloop/loop/apply.py:71-98 | Over a fixed history the number of gated Track B and C edits ever accepted is bounded by the initial measure, weight edits in between included |
| `Convergence.TrackAProposesExactly` | src/huntloop/loop/detect.py:267-305 | Whatever the valid payload, Track A proposes iff some rubric dimension is behind at least half of the attributable rejections |
| `Convergence.WeightEditIsOfferedExactly` | src/huntloop/loop/detect.py:592-602 | A pass offers a weight edit iff some rubric dimension has a majority and, with the matching claims, eight observations |
| `Convergence.AcceptingEndsExactly` | src/huntloop/loop/generate.py:211-293 | Detecting, gating and accepting over a fixed history, with at most k matching claims a pass, ends within the measure iff no rubric dimension has a majority and, with k claims, eight observations |
| `Convergence.AcceptingEndsExactlyUnder` | src/huntloop/loop/generate.py:131-165 | The same when every pass reads the same claims |
| `Convergence.TrackANeverSettles` | src/huntloop/loop/detect.py:267-305 | Track A proposes again after each accepted weight edit |
| `Convergence.WeightEditsAreUnbounded` | src/huntloop/loop/detect.py:267-305 | With that evidence a chain of n gated and accepted weight edits exists for every n |
| `AdaptiveLoop.StaleAcceptDecreases` | src/huntloop/loop/apply.py:71-98 | An edit makes the measure smaller on any payload that still holds the value it was detected against |
| `AdaptiveLoop.LoopTerminates` | src/huntloop/loop/generate.py:211-293 | Over any run of passes, acceptances and rejections, proposals left pending and accepted late included, accepted edits other than weight edits are bounded by the measure of the active payload |
| `AdaptiveLoop.LoopEndsExactly` | src/huntloop/loop/generate.py:211-293 | From a store where no weight edit is pending or rejected, all accepted edits are bounded by that measure iff no rubric dimension has a majority and, with k claims, eight observations |
| `Predict.PredictFilterChange` | src/huntloop/loop/predicted_effect.py:153-201 | Counts and sample are exactly the live listings the edit newly drops or lets pass |
| `Predict.LiveExactly` | src/huntloop/loop/predicted_effect.py:119-123 | The backlog is every listing neither rejected nor withdrawn, counted by position |
| `Predict.ExcludedExactly` | src/huntloop/loop/predicted_effect.py:153-201 | The excluded listings are counted by position: passed before, dropped after |
| `Predict.AgeDropsExactly` | src/huntloop/scoring/filters.py:83-144 | A posting is dropped iff its age in whole days is known, not negative and above the limit |
| `Predict.GeographyDropsExactly` | src/huntloop/scoring/filters.py:147-226 | A place is dropped iff it is not worldwide, its region is not eligible, and either its country is missing from a non-empty list or it has a region alone and regions are listed |
| `Predict.AgeTightening` | src/huntloop/scoring/filters.py:83-144 | A lower age limit lets nothing back in and drops exactly the ages between the limits |
| `Predict.GeographyWidening` | src/huntloop/scoring/filters.py:147-226 | More eligible places drop no location that parsing can produce, except iff an empty list becomes a list of some but not all countries or regions |
| `Predict.WideningDropsAListing` | src/huntloop/scoring/filters.py:147-226 | Making DE eligible where nothing was configured drops a listing in FR |
| `Predict.PredictFlagChange` | src/huntloop/loop/predicted_effect.py:246-299 | Counts exactly the live listings whose flag is raised, cleared or cannot be judged |
| `Predict.CeilingShiftsExactly` | src/huntloop/loop/predicted_effect.py:209-220 | A moved ceiling raises the flag of exactly the titles above the new and not above the old one, and clears it the other way round |
| `Predict.GroundShiftsExactly` | src/huntloop/loop/predicted_effect.py:209-220 | The same for the lower limit |
| `Predict.FloorShiftsExactly` | src/huntloop/loop/predicted_effect.py:223-243 | A moved floor raises exactly the comparable amounts from the old floor to below the new one; unknown iff currency, period or amount do not compare |
| `Predict.DetectedEditsMoveOneWay` | src/huntloop/loop/predicted_effect.py:153-299 | For every backlog: a detected age edit includes nothing, a detected seniority or floor edit clears no flag |
| `Predict.PredictScoreChange` | src/huntloop/loop/predicted_effect.py:394-447 | affected, mean, max and skipped over the live backlog; the mean is at most the max in magnitude |
| `Predict.MeanIsWithinMax` | src/huntloop/loop/predicted_effect.py:430-447 | The rounded mean delta never exceeds the largest one |
| `Predict.LargestIsFirst` | src/huntloop/loop/predicted_effect.py:430-436 | The reported maximum is the first delta of the greatest magnitude |
| `Predict.PredictionRefinesRescorer` | src/huntloop/scoring/aggregate.py:37-68 | For each row of a table the rescorer stores the predicted score, keeps a row that the prediction skips, and leaves the whole table as it was when some row aborts it |
| `Predict.DryRunMatchesRescoring` | src/huntloop/loop/predicted_effect.py:394-447 | With no aborting row, the deltas of the dry run are the changes that rescoring the table under the current and then the proposed weights stores; an abort under the proposed weights stores none, one under the current weights alone leaves the old scores to change from |
| `Predict.DryRunMatchesOneRescoring` | src/huntloop/loop/predicted_effect.py:394-447 | With the current scores stored already, one rescoring under the proposed weights stores the predicted deltas, unless a row aborts it |
| `Predict.OneBadRowStoresNothing` | src/huntloop/loop/predicted_effect.py:413-422 | A table of two rows for which the dry run predicts a gain and rescoring stores nothing |
| `Proposals.FoldClaims` | src/huntloop/loop/generate.py:131-165 | Each claim adds a quote to the candidates of its signature and to nothing else |
| `Proposals.GateKeepsExactly` | src/huntloop/loop/detect.py:592-602 | The gate keeps exactly the candidates that meet their own threshold, strongest first |
| `Proposals.StrongestStandFirst` | src/huntloop/loop/detect.py:592-602 | Of two gated candidates the earlier has no fewer observations and, with as many, the field name that comes first |
| `Proposals.FieldOrderIsAlphabetical` | src/huntloop/loop/detect.py:592-602 | Fields rank by the alphabetical order of their stored names |
| `Proposals.CriteriaStore.LoadHistory` | src/huntloop/loop/generate.py:173-203 | Pending and rejected signatures, the newest rejection deciding its count, unusable rows skipped |
| `Proposals.HistoryKnows` | src/huntloop/loop/generate.py:173-203 | The index knows every pending proposal and a count no lower than that of any rejected one |
| `Proposals.HistoryIsExact` | src/huntloop/loop/generate.py:173-203 | A signature is pending iff some proposal with it is, rejected iff some was, and its count is that of the latest rejection |
| `Proposals.ProposesExactlyTheUnblocked` | src/huntloop/loop/generate.py:85-93 | A pass proposes exactly the gated candidates that are neither pending nor rejected on as much evidence |
| `Proposals.ProposedExactly` | src/huntloop/loop/generate.py:85-93 | A gated candidate is proposed iff every stored proposal of its signature is accepted, or rejected on less evidence |
| `Proposals.PassProposesExactly` | src/huntloop/loop/generate.py:211-293 | From detection to the table: a pass adds a detected candidate iff its listings and quotes meet its threshold and no stored proposal of its signature is pending or was rejected on as much; nothing else of the store changes |
| `Proposals.CriteriaStore.GenerateProposals` | src/huntloop/loop/generate.py:211-293 | One pass appends those proposals and touches nothing else; without active criteria it does nothing |
| `Proposals.CriteriaStore.SaveNewCriteriaVersion` | src/huntloop/criteria/loader.py:19-35 | Deactivates every version and appends one numbered past the highest |
| `Proposals.CriteriaStore.AcceptProposal` | src/huntloop/loop/apply.py:101-134 | Writes one active version and the decision naming it on one pending proposal, everything else as before, or changes nothing at all |
| `Proposals.CriteriaStore.RejectProposal` | src/huntloop/loop/apply.py:137-160 | Decides one pending proposal, an empty reason becoming none, or changes nothing |
| `Proposals.ActiveIndex` | src/huntloop/criteria/loader.py:37-41 | An active version if there is one, else none is active |
| `Proposals.EveryHistoryIsGood` | src/huntloop/loop/apply.py:101-160 | Over any saves, passes, accepts and rejects: versions 1..n with only n active and all valid, old payloads and decisions final, accepted proposals and accepted versions in bijection |
| `Proposals.PendingAndRejectedProposals` | src/huntloop/loop/generate.py:85-93 | Of two proposals with one signature at most one is pending, and of two rejected ones the later has strictly more evidence |
| `Proposals.LateCommitCollidesExactly` | src/huntloop/loop/generate.py:248-293 | A pass that commits after other commits leaves two pending proposals of one signature iff one of its signatures is pending by then |
| `Proposals.TwoPassesCollideExactly` | src/huntloop/loop/generate.py:248-293 | Of two passes over one reading the second collides with the first iff there is anything to propose |

## Left out

- Atomicity: a session's work up to its commit is one step, and database isolation between such steps is assumed; a whole generation pass is one step of the proposal store too, and creation order is insertion order. Proposals.LateCommitCollidesExactly says what a pass that commits late can break.
- HTTP fetching, page rendering, applicant-tracking adapters, HTML and regular-expression parsing, country lookup and model calls are inputs or oracles; stop checks inside the crawl of one employer fall together with the gate after its fetch.
- Identifiers are fresh by assumption; a session reads the clock once for its finish times, and each sweep judges its rows by one reading.
- The retry policy of the graph: branches may be retried without the bound on attempts, so the theorems hold for more schedules than the code has.
- The cap is a whole number of micro-dollars, the least one at or above the configured cap; the lower-casing and trimming of model names is not modelled.
- Binary floating point and 28-digit decimals: scores and weights are exact reals, `int(days * 2 / 3)` is the floor, and the share in Track A is compared exactly.
- The upper-casing done by criteria validators: codes are taken as already normalised, and seniority labels are positions on the ladder.
- Case folding is ASCII only; company names compare by it.
- The deduplication key is an abstract partial function of the listing; URL normalisation and hashing are not part of this model.
- Database errors inside the write of one listing: only a missing key fails it.
- `run_errors` rows, company columns written after a fetch, top listings, and the notes composed for a finished run beyond one text.
- Secret settings and the settings router.
- Literal-count predictions, rationales, evidence truncation and feedback extraction: claims arrive as signatures.
- `classify_trigger`, the scheduler's cron logic, configuration, credentials, migrations, the command line and the web UI.
- Detection of seniority, language and compensation from text: the raised flags and amounts of a listing are inputs.
- AdaptiveLoop.LoopEndsExactly: over a history that does not change and without manual saves; either can make new room at any time.
- Detect.TrackAEvidenceNeverGains: not for a listing that also holds a nested score below the attributed one, which attribution does not read; Scoring.RaisingHelpsExactly says when such a score rises before rounding.
