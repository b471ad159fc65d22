# Vlytics: a verification model

Vlytics audits volleyball predictions. This project models its durable protocols and its
order-sensitive algorithms in Dafny and proves what they keep. Times are exact (reals or integer
microseconds), stored tables are fields of classes, every database transaction is one atomic step, and
clocks, network answers and the work of other processes are parameters that may take any value.

| file | what it models |
|---|---|
| `HealthDispatch.dfy`, `HealthDispatcher.dfy` | the alert row's four transactions over every interleaving, and the dispatch loop on top of them |
| `BackfillCheckpoints.dfy` | the resumable backfill: checkpoint stores, racing and crashing runs |
| `RequestSpacing.dfy`, `SyncOnce.dfy` | rate limiter, slot lease, and the recurring sync job with retries and deadlines |
| `TomlPrinter.dfy`, `TomlReader.dfy`, `TomlNumber.dfy`, `TomlScalar.dfy`, `TomlText.dfy` | the settings printer, a TOML v1.0.0 line reader, the text of numbers and other scalars, and of whole documents |
| `Timing.dfy` | the T-60 timing rules as the configuration and as the scheduler write them |
| `Publication.dfy`, `PredictionOrchestrator.dfy` | the prediction runs' transactions over every interleaving, and one execution |
| `Paging.dfy`, `CursorCodec.dfy` | keyset paging in memory and in the database, and the cursor text |
| `CurrentPredictions.dfy`, `Performance.dfy`, `MarketOrder.dfy`, `ComparisonOrder.dfy`, `Ranks.dfy` | which rows the read API shows, the performance groups and comparisons, and where input order shows in them and where not |
| `SetScore.dfy`, `ResultParser.dfy` | the closed-form set score against the rally game, and the result row parser |
| `SyncPlanning.dfy` | poll jobs and their keys |
| `PredictionContract.dfy` | the semantic check of a prediction document |

## What the model found

- `BackfillRunner.run` releases its lease without the cooldown that `sync_once` takes. Whether the next
  process keeps the interval depends on its own last token and on the `wait_after_global_lease` flag,
  which is off by default: `RunKeepsSpacingIff` gives the exact condition for both values of the flag,
  `Collector.Run` proves it of whole runs, and `RunBreaksSpacing` reaches a state that breaks the spacing
  with either value. Runs that wait after the lease and bring a limiter without a token keep it, in any
  number and by any processes (`Collector.FreshRuns`).
- The closed-form set score accepts unreachable scores when the winning margin is one
  (`MarginOneAcceptsTooMuch`); `ClosedFormIsTheGame` says exactly which scores it gets right.
- The result parser accepts at most two sets for the loser. `NoMatchIsLostIff` says which rules lose
  legal matches by that: those with more than three sets to win that also allow at least three sets more
  than it takes to win. `FourSetsToWinLosesAMatch` is an instance; the default rule loses none
  (`DefaultRuleAcceptsEveryMatch`), and `ParseResultRow` states exactly what is accepted.
- A string with U+007F prints as text TOML v1.0.0 does not allow (`TextRoundTrip`, `ScalarRoundTrip`,
  `DeleteCharacterIsLost`).
- The database page accepts a boundary that is not a row of the list; the in-memory page refuses it.
  `DatabaseMatchesLoaded` shows this is the only difference.
- The timing check of the configuration does not by itself refuse zero or fewer attempts, which the
  scheduler does (`TimingCheckAcceptsNoAttempts`). No shipped configuration gets that far: the schema in
  `contracts/config.schema.json` is checked first and fixes every timing field.
- Accepted settings bound an attempt chain by its own start, but the deadline counts from the cutoff:
  `TimelyChainsCompleteIff` gives the exact condition, which the shipped settings meet and
  the settings of `LongToleranceIsAccepted` do not. The bound itself needs retry delays that are not negative
  (`ChainsEndWithinGraceIff`, `NegativeDelayBreaksTheBound`).
- The rows of an added market group are those of whichever AI group of the context comes first.
  `OrderIsIrrelevantIff` says exactly when no order of the AI groups shows: when of any two that compete
  for a market group neither knows a market probability with an outcome and their cohorts differ only in
  what names the producer. `OrderShows` and `TwoProvidersShowOrder` give two rows whose order does show.
  The home-rate and statistical counts never depend on it (`CountsIgnoreOrder`).
- A document cannot mix the two statistical derivation methods (`OneStatisticalMethod`), because their
  lineage tuples have different lengths.
- In the publish transaction the final lease check cannot fail after the first one, so
  `lost_job_lease` is never raised there (`PredictionStore.PublishTransaction`).

## Model

| member | source | states |
|---|---|---|
| HealthDispatch.RunInvariant | backend/src/vlytics/ops/health_dispatch.py:464-653 | over every history of the four transactions with arbitrary clocks: grants of one episode carry one fingerprint and status, a sent episode is never reserved or sent again, the row answers to a token exactly while that token's grant is the last event |
| HealthDispatch.EpisodeAndObservationTimeNeverDecrease | backend/src/vlytics/ops/health_dispatch.py:464-598 | further transactions only extend the log and never lower `episode` or `latest_evaluated_at` |
| HealthDispatch.EpisodeIsIdempotencyKey | backend/src/vlytics/ops/health_dispatch.py:431-435 | two reservations have the same idempotency key exactly when they belong to one episode |
| HealthDispatch.SentClosesItsEpisode | backend/src/vlytics/ops/health_dispatch.py:511-653 | an episode is marked sent at most once, by the token whose grant of it comes immediately before, and is never granted again |
| HealthDispatch.TokenActsOnlyRightAfterItsGrant | backend/src/vlytics/ops/health_dispatch.py:601-653 | releasing or marking with a token changes the row exactly when that token's grant is the last thing that happened |
| HealthDispatch.StaleTokenIsDeadForever | backend/src/vlytics/ops/health_dispatch.py:601-653 | with fresh tokens, a token overtaken by any event changes nothing for the rest of the run |
| HealthDispatch.GrantsHaveDistinctTokens | backend/src/vlytics/ops/health_dispatch.py:511-598 | with fresh tokens no two grants share one |
| HealthDispatch.NoSecondGrantBeforeExpiry | backend/src/vlytics/ops/health_dispatch.py:541-575 | directly after a grant the same episode is granted again only when that reservation has run out, twice the request timeout and thirty seconds later |
| HealthDispatch.UnsentIsReservedAgain | backend/src/vlytics/ops/health_dispatch.py:541-597 | on a row of the same unsent observation a running reservation refuses and moves only `latest_evaluated_at`; an expired or released one hands out the same episode again with the new token and expiry |
| HealthDispatch.ReservedIff | backend/src/vlytics/ops/health_dispatch.py:511-598 | for every row, exactly when a reservation is granted, in the row's columns |
| HealthDispatch.RecoveredIff | backend/src/vlytics/ops/health_dispatch.py:464-508 | a recovery takes effect exactly on no row or an older one, clears everything and keeps the episode |
| HealthDispatch.ClosedIff | backend/src/vlytics/ops/health_dispatch.py:601-653 | releasing and marking take effect exactly on an unsent row that holds the token; what each leaves in the row |
| HealthDispatch.AlertsAreRetriedUntilDelivered | backend/src/vlytics/ops/health_dispatch.py:139-212 | over undisturbed reports with increasing evaluation times, whatever becomes of their POSTs: an alert is raised in every report of an unbroken observation until the first POST that succeeds and never after; the whole log and row are given |
| HealthDispatch.OneEpisodePerObservation | backend/src/vlytics/ops/health_dispatch.py:431-435 | all reports of an unbroken observation share an episode and so one idempotency key |
| HealthDispatch.SendsAreConsecutiveDistinct | backend/src/vlytics/ops/health_dispatch.py:139-212 | if besides every POST succeeds, the alerts sent are exactly the non-ok observations that differ from the one before, and `episode` counts them |
| HealthDispatcher.Tally | backend/src/vlytics/ops/health_dispatch.py:78-100 | planned is sent plus suppressed plus failed, and the exit code is zero exactly when nothing failed |
| HealthDispatcher.TallyCounts | backend/src/vlytics/ops/health_dispatch.py:136-212 | the counters are the numbers of checks with these outcomes |
| HealthDispatcher.FingerprintTells | backend/src/vlytics/ops/health_dispatch.py:389-402 | two checks have one fingerprint exactly when destination, check, status and stable evidence agree |
| HealthDispatcher.OwnGrantEpisode | backend/src/vlytics/ops/health_dispatch.py:511-653 | while a fresh token is live the row is still in the episode granted to it |
| HealthDispatcher.DispatchState.RecordRecovery | backend/src/vlytics/ops/health_dispatch.py:464-508 | the stored rows change by exactly one recovery transaction on the given row |
| HealthDispatcher.DispatchState.Reserve | backend/src/vlytics/ops/health_dispatch.py:511-598 | one reserve transaction: the branch taken, the new row and the episode handed out, and in columns exactly when there is one |
| HealthDispatcher.DispatchState.ReleaseReservation | backend/src/vlytics/ops/health_dispatch.py:601-622 | one release transaction, which only a live token can make count |
| HealthDispatcher.DispatchState.RecordSent | backend/src/vlytics/ops/health_dispatch.py:625-653 | one mark-sent transaction, reported as lost exactly when the token is not live |
| HealthDispatcher.DispatchState.DeliverAlert | backend/src/vlytics/ops/health_dispatch.py:159-209 | with other processes active during the POST, each outcome is justified by this row's history: what was granted, marked, released or lost, and the idempotency key used |
| HealthDispatcher.DispatchState.RecordRecoveries | backend/src/vlytics/ops/health_dispatch.py:140-147 | with other processes active before each, every healthy check gets its recovery and no history loses a step; without interference each reported row gets exactly that |
| HealthDispatcher.DispatchState.Dispatch | backend/src/vlytics/ops/health_dispatch.py:139-212 | with other processes active between any two transactions, every check of a report has a justified outcome and the counters are their tally; without interference each row has run exactly its script |
| HealthDispatcher.DispatchState.DispatchSeries | backend/src/vlytics/ops/health_dispatch.py:139-212 | over any series of undisturbed reports with increasing evaluation times, whatever becomes of their POSTs, each row raises an alert in every report of its check's unbroken observation until one is delivered, and `episode` counts the changes |
| BackfillCheckpoints.GenerationDeterminesCheckpoint | backend/src/vlytics/mirror/backfill.py:574-625 | over a fixed source a generation fixes the whole checkpoint but its time |
| BackfillCheckpoints.AdvanceStaysExact | backend/src/vlytics/mirror/backfill.py:608-618 | the checkpoint a run asks for describes one page more of the chain exactly |
| BackfillCheckpoints.ChainInColumns | backend/src/vlytics/mirror/backfill.py:588-593 | the first page is the small one asked for without a cursor, every further one a batch asked for with the cursor before, up to a page without one |
| BackfillCheckpoints.StoresAgree | backend/src/vlytics/mirror/backfill.py:122-227 | with a clock that does not go back, the in-memory store accepts exactly what the generation check accepts |
| BackfillCheckpoints.StoresDifferOnlyByTime | backend/src/vlytics/mirror/backfill.py:129-149 | without that assumption the in-memory store refuses more, and only by its time check |
| BackfillCheckpoints.InMemoryCheckpointStore.Advance | backend/src/vlytics/mirror/backfill.py:129-149 | refuses exactly on a conflict, names it, and otherwise stores the next generation; in columns, what it accepts only moves forward |
| BackfillCheckpoints.PostgresCheckpointStore.Advance | backend/src/vlytics/mirror/backfill.py:178-227 | accepts exactly when the stored generation is the expected one (absent for zero) |
| BackfillCheckpoints.BackfillWorld.IngestNext | backend/src/vlytics/mirror/backfill.py:596-607 | ingests exactly the next response and counts it, or ends the run |
| BackfillCheckpoints.BackfillWorld.AdvanceRun | backend/src/vlytics/mirror/backfill.py:608-622 | at whatever time the process's own clock shows: the database advances exactly when the generation is still the run's, the in-memory store refuses more only by its time check, and either store stays an exact account of an ingested prefix and moves only along the chain |
| BackfillCheckpoints.BackfillWorld.RunPage | backend/src/vlytics/mirror/backfill.py:588-625 | one page of a run with any commands of other runs before the fetch, before each response and before the advance keeps all of that, and says when and how the run stops |
| BackfillCheckpoints.BackfillWorld.RunLeased | backend/src/vlytics/mirror/backfill.py:574-625 | a whole run, interrupted or racing, with clocks that need not agree, leaves the stored checkpoint an exact ingested prefix, completed only at the end of the chain; undisturbed, and with enough pages to reach the end, it completes |
| RequestSpacing.RequestRateLimiter.Wait | backend/src/vlytics/mirror/backfill.py:372-380 | the token's time is at least one interval after the limiter's previous one, and no later than it must be on an exact clock |
| RequestSpacing.RequestRateLimiter.WaitAfterGlobalLease | backend/src/vlytics/mirror/backfill.py:382-390 | waits a full interval without a previous token, otherwise until that token's interval is over |
| RequestSpacing.RequestRateLimiter.Cooldown | backend/src/vlytics/mirror/backfill.py:392-400 | waits out the last token's interval without taking one |
| RequestSpacing.InMemoryScopeLease.Acquire | backend/src/vlytics/mirror/backfill.py:409-417 | hands out the lowest free slot, and none only when all are taken |
| RequestSpacing.InMemoryScopeLease.Release | backend/src/vlytics/mirror/backfill.py:419-422 | frees that slot and no other |
| RequestSpacing.ScopesShareSlots | backend/src/vlytics/mirror/backfill.py:403-422 | a configured lease key makes all scopes share their slots; without one each scope has its own |
| RequestSpacing.Collector.Acquire | backend/src/vlytics/mirror/backfill.py:524-538 | the single slot is granted exactly when no process stands between acquire and release |
| RequestSpacing.Collector.Request | backend/src/vlytics/mirror/backfill.py:372-380 | one more token, at least an interval after every token of every process |
| RequestSpacing.TokenStaysSpaced | backend/src/vlytics/mirror/backfill.py:372-400 | a token taken after all intervals are over but the pending one keeps all tokens spaced |
| RequestSpacing.SpacingAddsUp | backend/src/vlytics/mirror/backfill.py:339-400 | tokens n apart are at least n intervals apart |
| RequestSpacing.WindowHoldsAtMostTheRate | backend/src/vlytics/mirror/backfill.py:339-400 | no half-open 60-second window holds more than the approved number of requests |
| RequestSpacing.RunKeepsSpacingIff | backend/src/vlytics/mirror/backfill.py:512-513 | with the wait after the lease and without it: exactly when the earliest next token keeps the interval from the newest one |
| RequestSpacing.NewestDecides | backend/src/vlytics/mirror/backfill.py:372-380 | a further token keeps spaced tokens spaced exactly when it keeps the interval from the newest |
| RequestSpacing.Collector.ReleaseWithoutCooldown | backend/src/vlytics/mirror/backfill.py:511-522 | the release of `run`: the slot is free, and the spacing discipline survives exactly if all intervals are over |
| RequestSpacing.Collector.FirstRequest | backend/src/vlytics/mirror/backfill.py:511-522 | the first request after the lease, for both values of the flag: spaced on every clock if the condition holds, and on an exact clock only then |
| RequestSpacing.Collector.Run | backend/src/vlytics/mirror/backfill.py:496-522 | a whole run of any number of requests keeps the tokens spaced on every clock if the condition holds before it, and on an exact clock only then; with the flag set a fresh limiter waits out a full interval |
| RequestSpacing.Collector.FreshRuns | backend/src/vlytics/mirror/backfill.py:496-522 | any number of runs that wait after the lease, each with a limiter that has no token yet, keep the tokens spaced |
| RequestSpacing.RunBreaksSpacing | backend/src/vlytics/mirror/backfill.py:496-522 | three runs of two processes reach tokens that are too close, with either value of the flag |
| SyncOnce.RepeatedCursorNeverEnds | backend/src/vlytics/mirror/backfill.py:561-566 | once a cursor repeats the chain never ends |
| SyncOnce.DelayIsBounded | backend/src/vlytics/mirror/backfill.py:329-336 | a wait is never longer than the policy allows nor shorter than the server asked for, and is refused exactly when both cannot be |
| SyncOnce.BackoffMultiplies | backend/src/vlytics/mirror/backfill.py:329-336 | the policy's own waits: the initial delay first, then the multiplier times the wait before, jitter on top, capped |
| SyncOnce.DelayNeverShrinks | backend/src/vlytics/mirror/backfill.py:335-336 | with a multiplier of at least one and no negative initial delay, waits do not shrink |
| SyncOnce.BackfillRunner.SleepForRetry | backend/src/vlytics/mirror/backfill.py:681-690 | sleeps the policy's delay, never reaching the deadline, and refuses exactly when the policy or the deadline does |
| SyncOnce.BackfillRunner.Inspect | backend/src/vlytics/mirror/backfill.py:658-670 | finds a backdated response, whether some status is 429 or at least 500, and the longest wait such responses ask for, which is one of theirs or zero |
| SyncOnce.BackfillRunner.Attempt | backend/src/vlytics/mirror/backfill.py:636-672 | one attempt makes at most one request, which starts before the deadline and times out no later, and what it returns is what the adapter answered |
| SyncOnce.BackfillRunner.TryOnce | backend/src/vlytics/mirror/backfill.py:636-679 | one attempt and the wait after it, or the result it ends with |
| SyncOnce.BackfillRunner.FetchWithRetry | backend/src/vlytics/mirror/backfill.py:627-679 | at most `max_attempts` requests, exactly that many when they run out; a page only if no status in it is 429 or at least 500; each wait is the policy's after a failed connection and what such responses ask for at the longest after a page; a first page is refused if backdated, returned if no status forbids it, and retried otherwise |
| SyncOnce.BackfillRunner.IngestPage | backend/src/vlytics/mirror/backfill.py:549-560 | ingests in order up to the first response the sink does not accept |
| SyncOnce.BackfillRunner.SyncPages | backend/src/vlytics/mirror/backfill.py:542-567 | stops on every finite source, cyclic ones included, within the number of distinct cursors; `accepted` is the responses along the chain; a job at its deadline makes no request |
| SyncOnce.BackfillRunner.Sync | backend/src/vlytics/mirror/backfill.py:524-572 | the whole job holds nothing and leaves nothing unsettled however it ends, keeps all tokens spaced, reports a repeated cursor only on an endless chain and a deadline only once it has passed, completes if nothing goes wrong, and with the flag set waits out a full interval before the first token of a fresh limiter |
| TomlPrinter.TomlWriter.Table | infra/scripts/compile_desktop_settings.py:40-54 | appends exactly the table's lines: its scalars first, then its subtables under their headers |
| TomlPrinter.TomlWriter.Nested | infra/scripts/compile_desktop_settings.py:46-54 | a subtable or an array of tables appends its headers and lines, a scalar nothing |
| TomlPrinter.DumpToml | infra/scripts/compile_desktop_settings.py:37-56 | the document's lines are those of its root table |
| TomlReader.FillLookup | infra/scripts/compile_desktop_settings.py:37-57 | the map of a document has exactly its entries |
| TomlReader.ScalarsFirst | infra/scripts/compile_desktop_settings.py:41-46 | printing scalars before subtables describes the same map as the entries in their order |
| TomlReader.TableReads | infra/scripts/compile_desktop_settings.py:40-54 | the lines of a table, read with that table current, fill exactly that table |
| TomlReader.NodeReads | infra/scripts/compile_desktop_settings.py:47-54 | the lines of a subtable or an array of tables, read from any current table, add exactly that item |
| TomlReader.RoundTrip | infra/scripts/compile_desktop_settings.py:37-57 | a TOML v1.0.0 line reader gives every printed document back, at any depth |
| TomlReader.PrintingIsInjective | infra/scripts/compile_desktop_settings.py:37-57 | documents with the same lines are the same map |
| TomlScalar.StringReads | infra/scripts/compile_desktop_settings.py:28-29 | a printed string reads back, unless it contains U+007F, when it does not read at all |
| TomlNumber.NumberReads | infra/scripts/compile_desktop_settings.py:30-31 | every integer and every float, special values included, reads back from its text |
| TomlNumber.NumberTexts | infra/scripts/compile_desktop_settings.py:30-31 | what numbers look like: no leading zeros, a minus sign, `inf` and `nan` |
| TomlNumber.ExponentTexts | infra/scripts/compile_desktop_settings.py:30-31 | an exponent has a sign and at least two digits |
| TomlScalar.NumericReads | infra/scripts/compile_desktop_settings.py:30-31 | a printed number reads back as a value, whatever follows it in the array or line |
| TomlScalar.ItemsRead | infra/scripts/compile_desktop_settings.py:32-33 | a printed list reads back item by item |
| TomlScalar.ScalarRoundTrip | infra/scripts/compile_desktop_settings.py:25-34 | the text of any scalar, floats and nested lists included, reads back exactly when no string in it contains U+007F |
| TomlScalar.EscapeTexts | infra/scripts/compile_desktop_settings.py:25-34 | only quotes, backslashes and control characters are escaped |
| TomlScalar.ListTexts | infra/scripts/compile_desktop_settings.py:25-34 | what flags and lists look like: items are separated by a comma and a blank |
| TomlScalar.DeleteCharacterIsLost | infra/scripts/compile_desktop_settings.py:28-29 | the string of the single character U+007F prints as no TOML value |
| TomlText.DumpTomlText | infra/scripts/compile_desktop_settings.py:37-57 | the returned text is the document's lines joined by newlines |
| TomlText.LineReads | infra/scripts/compile_desktop_settings.py:45-52 | the text of each line reads back as that line, unless its value holds U+007F |
| TomlText.PrintIsOneLine | infra/scripts/compile_desktop_settings.py:25-34 | no printed scalar contains a newline |
| TomlText.TableLinesAre | infra/scripts/compile_desktop_settings.py:40-54 | the lines of a table hold U+007F exactly when its entries do, and only bare keys |
| TomlText.TextRoundTrip | infra/scripts/compile_desktop_settings.py:37-57 | the whole text, split at newlines and read line by line, gives the document back exactly when no string in it holds U+007F, and otherwise does not read |
| TomlText.SampleText | infra/scripts/compile_desktop_settings.py:37-57 | what the text of a document with scalars, subtables and an array of tables looks like |
| Timing.ValidateTiming | backend/src/vlytics/config.py:254-284 | the list of faults, in order, is exactly those of the window, the retry budget and the three flags |
| Timing.SameSettingsAccepted | backend/src/vlytics/ops/scheduler.py:50-84 | the scheduler accepts exactly what the configuration's window and budget checks accept with a 60-minute cutoff, at least one attempt and no T-10 retry |
| Timing.TimingCheckAcceptsNoAttempts | backend/src/vlytics/config.py:268-277 | taken by itself, the budget check passes without attempts, where the scheduler refuses |
| Timing.SameWindows | backend/src/vlytics/config.py:420-469 | both files compute the same deadline, start eligibility and completion eligibility |
| Timing.OnTimeMeans | backend/src/vlytics/ops/scheduler.py:90-125 | under accepted settings only the grace period and a known actual start decide |
| Timing.DelaysAgree | backend/src/vlytics/ops/scheduler.py:59-63 | the two ways of adding up retry waits agree |
| Timing.DelaysMultiply | backend/src/vlytics/ops/scheduler.py:102-108 | the initial delay first, then the multiplier times the one before, never more than the maximum |
| Timing.ChainsEndWithinGraceIff | backend/src/vlytics/ops/scheduler.py:59-64 | for all accepted settings, every chain of attempts within timeouts and retry waits ends within the grace period of its start exactly when the longest chain does |
| Timing.OrdinaryChainsEndWithinGrace | backend/src/vlytics/ops/scheduler.py:59-64 | without negative delays the longest chain takes the worst case the constructor checks, so every chain does |
| Timing.NegativeDelayBreaksTheBound | backend/src/vlytics/ops/scheduler.py:59-64 | accepted settings with a negative delay whose chains can outlast the grace period |
| Timing.TimelyChainsCompleteIff | backend/src/vlytics/ops/scheduler.py:50-125 | for all accepted settings, every chain that starts in its window completes on time exactly when tolerance plus the longest chain is shorter than the grace period |
| Timing.ShippedSettings | config/example.toml:85-97 | the shipped settings are accepted and meet both conditions |
| Timing.LongToleranceIsAccepted | backend/src/vlytics/ops/scheduler.py:50-64 | accepted settings under which a timely chain can end too late |
| Publication.StepKeepsInv | backend/src/vlytics/engine/orchestrator.py:173-457 | every transaction of any execution, schedule change or queue change keeps the invariant and only adds to revisions, attempts and predictions |
| Publication.RunKeepsInv | backend/src/vlytics/engine/orchestrator.py:204-457 | the invariant holds after every sequence of transactions |
| Publication.StoredIsTimely | backend/src/vlytics/engine/orchestrator.py:389-439 | a step that stores a prediction is a timely publication |
| Publication.StartsIff | backend/src/vlytics/engine/orchestrator.py:245-273 | in columns: an attempt starts exactly when it starts in the window, or is a retry of a timely attempt that was not skipped and starts before the deadline; and which reason a refusal gives |
| Publication.EveryPredictionWasTimely | backend/src/vlytics/engine/orchestrator.py:204-552 | in every interleaving each stored prediction was made for the match's latest revision, on time, after a start in the window or a retry of one, under a held lease, in one step with its attempt row and the finished job |
| Publication.OneRowPerExecution | backend/src/vlytics/engine/orchestrator.py:280-457 | an execution that ran a model and returned has left exactly one attempt row, any other none |
| Publication.NothingIsLost | backend/src/vlytics/engine/repositories/predictions.py:48-108 | revisions and attempts only grow and a stored prediction is never replaced |
| Publication.PublishedJobSucceeds | backend/src/vlytics/ops/repositories/jobs.py:161-212 | a job whose own deadline is no earlier than its schedule's ends as succeeded when it publishes |
| PredictionOrchestrator.PublishesIff | backend/src/vlytics/engine/orchestrator.py:204-457 | in columns, exactly when an undisturbed execution publishes, for a first attempt and for a retry |
| PredictionOrchestrator.PredictionStore.PublishableSchedule | backend/src/vlytics/engine/orchestrator.py:517-552 | the latest live schedule, if the lease is held and the completion on time |
| PredictionOrchestrator.PredictionStore.Finish | backend/src/vlytics/ops/repositories/jobs.py:161-212 | finishes the job exactly while the caller's lease runs |
| PredictionOrchestrator.PredictionStore.FreezeTransaction | backend/src/vlytics/engine/orchestrator.py:173-221 | the freeze transaction as one step: what it refuses and in which order |
| PredictionOrchestrator.PredictionStore.CheckTransaction | backend/src/vlytics/engine/orchestrator.py:222-243 | whether the prediction exists already, and in columns whether an earlier attempt of this job and variant proves a start in the window |
| PredictionOrchestrator.PredictionStore.StartTransaction | backend/src/vlytics/engine/orchestrator.py:245-273 | the start decision and its two reasons, in columns |
| PredictionOrchestrator.PredictionStore.CompleteTransaction | backend/src/vlytics/engine/orchestrator.py:274-388 | what follows the model call: the outcome and the attempt row of a failed, skipped or late one, or the validated output |
| PredictionOrchestrator.PredictionStore.PublishTransaction | backend/src/vlytics/engine/orchestrator.py:389-439 | attempt, prediction and job in one step or none of them, exactly when the latest schedule, the lease and the time allow it |
| PredictionOrchestrator.PredictionStore.Execute | backend/src/vlytics/engine/orchestrator.py:204-457 | with anything happening between its transactions: its outcome, exactly one attempt row, of that outcome's status, if it ran a model and returned, and a timely publication if it created a prediction; undisturbed, the outcome is the one decided at once from the stored columns |
| PredictionOrchestrator.PredictionStore.Handle | backend/src/vlytics/engine/orchestrator.py:634-646 | a job is reported as finalized exactly when the publish transaction finished it |
| Paging.PageLoadedRows | backend/src/vlytics/api/service.py:614-654 | the in-memory page: the rows after the boundary, the next cursor, or the error |
| Paging.LoadedPageInColumns | backend/src/vlytics/api/service.py:614-654 | the in-memory page in columns: its rows, its cursor, and its errors in their order |
| Paging.IndexAfterBounds | backend/src/vlytics/api/service.py:634-645 | the boundary is found exactly when the list has its row, and paging starts right after it |
| Paging.QueryIsSuffix | backend/src/vlytics/api/repository.py:256-273 | the strict tuple boundary selects exactly the rest of the sorted list |
| Paging.DatabaseMatchesLoaded | backend/src/vlytics/api/service.py:656-715 | the database page and the in-memory page agree exactly when the cursor is absent, foreign, or names a row of the list |
| Paging.FollowingVisitsEveryRow | backend/src/vlytics/api/service.py:614-715 | following `next_cursor`, in memory or through the database, visits every matching row once, in order, in full pages but the last, in max(1, ceil(n / limit)) pages |
| CurrentPredictions.GroupRows | backend/src/vlytics/api/service.py:838-853 | the dictionary holds exactly the non-empty groups of showable rows |
| CurrentPredictions.SelectGroup | backend/src/vlytics/api/service.py:855-869 | the chosen group is outranked by none |
| CurrentPredictions.Representatives | backend/src/vlytics/api/service.py:870-883 | each provider of the group keeps a row no other of its rows outranks |
| CurrentPredictions.CurrentPredictionRows | backend/src/vlytics/api/service.py:834-884 | the answer is one best row for each provider of a winning group, by provider, or nothing when no row may be shown |
| CurrentPredictions.SelectionIsSound | backend/src/vlytics/api/service.py:834-884 | shown rows are stored, of the current schedule, published if succeeded, of one snapshot and cutoff, one per provider; every provider with such a row of that snapshot and cutoff is shown; nothing is shown exactly when no stored row is of the current schedule with snapshot and cutoff and published if succeeded |
| CurrentPredictions.WinnerIsMaximal | backend/src/vlytics/api/service.py:855-869 | in columns: no snapshot and cutoff has rows of more providers than the shown one; of those with as many, none more succeeded rows; then none a later cutoff; then none a later row; then none a greater snapshot |
| CurrentPredictions.ShownRowIsBest | backend/src/vlytics/api/service.py:875-883 | in columns: of a provider's rows of the shown snapshot and cutoff, a succeeded one if there is any, then the latest, then the one with the greatest id |
| CurrentPredictions.BestIsMaximal | backend/src/vlytics/api/service.py:875-883 | the row of a provider is a succeeded one if there is any, then the latest, then the one with the greatest id |
| CurrentPredictions.OrderDoesNotMatter | backend/src/vlytics/api/service.py:834-884 | with distinct ids the answer is the same for every permutation of the stored rows |
| Performance.LatestEvaluations | backend/src/vlytics/api/performance.py:99-123 | one row for each evaluation, in the order of first appearance, and none of that evaluation is newer, in columns |
| Performance.KeyMeansSameEvaluation | backend/src/vlytics/api/performance.py:105-118 | evaluations are of one identity exactly when prediction, evaluator, policy and every cohort name but `result_finality` agree |
| Performance.LatestInColumns | backend/src/vlytics/api/performance.py:99-131 | each stored row has exactly one kept row of its evaluation, with the greatest revision number, creation and id of them |
| Performance.NewestIsMaximal | backend/src/vlytics/api/performance.py:126-131 | the row kept has the highest revision number, then the latest creation, then the greatest id |
| Performance.LatestIgnoresOrder | backend/src/vlytics/api/performance.py:99-131 | with distinct ids the rows kept do not depend on input order |
| Performance.EveryRowIsInItsGroupOnly | backend/src/vlytics/api/performance.py:134-176 | grouping loses and repeats nothing: a row's count in a group is its count in the input if the group is its own, else zero |
| Performance.CohortInColumns | backend/src/vlytics/api/performance.py:134-149 | a group's cohort has the stored names and the ten every group has |
| Performance.SameGroupIff | backend/src/vlytics/api/performance.py:151-158 | two rows belong to one group exactly when cohort, evaluator, policy, prediction type and baseline kind agree |
| Performance.NewGroupInColumns | backend/src/vlytics/api/performance.py:159-176 | a new group is named after its first row, and a baseline after its kind |
| Performance.SameContextIff | backend/src/vlytics/api/performance.py:206-218 | two groups have one context exactly when evaluator, policy and all of the ten names but the producer's agree |
| Performance.GroupTable.GroupEvaluations | backend/src/vlytics/api/performance.py:134-192 | the table holds exactly one group for each key, in order of first rows, with the first row's fields and all rows of the key |
| Performance.TakenKeyHasKind | backend/src/vlytics/api/performance.py:221-322 | a key that is taken already belongs to a baseline of the same kind and context, so adding never overwrites |
| Performance.FallbackInColumns | backend/src/vlytics/api/performance.py:221-322 | an added group in columns: what of it comes from its AI group and what is fixed |
| Performance.MarketRowInColumns | backend/src/vlytics/api/performance.py:266-304 | the row of a market group in columns, with the market's Brier score and loss |
| Performance.GroupTable.AddMarketGroups | backend/src/vlytics/api/performance.py:258-322 | every group stays; each new one is the market group of the first AI group that needed it; every AI context has one |
| Performance.GroupTable.AddMissingBaselineGroups | backend/src/vlytics/api/performance.py:221-255 | the same for the empty home-rate and statistical groups |
| MarketOrder.FirstIsAdded | backend/src/vlytics/api/performance.py:258-322 | the market group of a context is that of its first AI group |
| MarketOrder.FallbacksAgreeIff | backend/src/vlytics/api/performance.py:266-322 | two AI groups of a context give the same market group exactly when neither knows a market probability with an outcome and their cohorts differ only in provider, model and prompt |
| MarketOrder.OrderIsIrrelevantIff | backend/src/vlytics/api/performance.py:258-322 | all orders of any number of AI groups give the same table exactly when that holds of every two that compete |
| MarketOrder.MarketTable | backend/src/vlytics/api/performance.py:134-322 | grouping any rows and then adding the market groups leaves a table of the kind the order lemmas speak of |
| MarketOrder.OrderShows | backend/src/vlytics/api/performance.py:258-322 | any two rows that meet the condition, in one order and in the other: the market group has a row in every table of the one and none in any of the other |
| MarketOrder.TwoProvidersShowOrder | backend/src/vlytics/api/performance.py:258-282 | two predictions of one match by two providers, one of which knows a market probability and the other none, are such rows |
| ComparisonOrder.BaselinesOfSummary | backend/src/vlytics/api/performance.py:221-255 | the home-rate or statistical baselines of an AI group's context are the groups of its rows, or a single empty group when there are none |
| ComparisonOrder.CountsIgnoreOrder | backend/src/vlytics/api/performance.py:55-96 | with distinct ids, the counts of an AI group's home-rate and statistical comparisons are the same in whatever order the stored rows come |
| Performance.MarketPairs | backend/src/vlytics/api/performance.py:266-304 | the added market group pairs exactly the matches its AI group knows a market probability and an outcome for |
| Performance.PairsAreTheEligibleRows | backend/src/vlytics/api/performance.py:544-562 | the pair keys are exactly those of the eligible rows |
| Performance.PairsInColumns | backend/src/vlytics/api/performance.py:544-562 | a pair key is there exactly when an eligible row has both scores and the whole key |
| Performance.EligiblePairs | backend/src/vlytics/api/performance.py:544-562 | the loop keeps the last eligible row of each pair key |
| Performance.Compare | backend/src/vlytics/api/performance.py:509-541 | both sides add up: each individual count is the paired count plus the other side's unavailable count |
| Performance.Comparisons | backend/src/vlytics/api/performance.py:494-506 | one comparison for each baseline group of the context, by kind name |
| Performance.CandidatesByName | backend/src/vlytics/api/performance.py:494-506 | comparisons come by the names of the baseline kinds |
| Performance.BuildPerformance | backend/src/vlytics/api/performance.py:55-96 | latest rows, one per evaluation in columns, their groups untouched by the added ones, every AI group compared with all three kinds of baseline, and its comparisons those of its context's baseline groups, by kind name |
| SetScore.ValidScoreIsPlayed | backend/src/vlytics/mirror/parser.py:607-618 | an accepted score is reached by some sequence of rallies, with a margin of two or a loser below the target |
| SetScore.PlayedScoreIsValid | backend/src/vlytics/mirror/parser.py:607-618 | a score reached by rallies is accepted |
| SetScore.ClosedFormIsTheGame | backend/src/vlytics/mirror/parser.py:607-618 | for every target and margin, the reachable scores are exactly the accepted ones with a margin of two or more or a loser below the target |
| SetScore.MarginOneAcceptsTooMuch | backend/src/vlytics/mirror/rules.py:16-40 | with margin one, 26:25 is accepted and unreachable |
| ResultParser.NullableInteger | backend/src/vlytics/mirror/parser.py:778-786 | null is nothing, a non-negative integer is itself, anything else is an error |
| ResultParser.PrefixIsForced | backend/src/vlytics/mirror/parser.py:520-561 | every match the row can stand for agrees with the sets read so far |
| ResultParser.ReadColumn | backend/src/vlytics/mirror/parser.py:525-558 | one column: why it cannot continue the match, or the set it holds, or neither when it is empty |
| ResultParser.ReadColumns | backend/src/vlytics/mirror/parser.py:520-561 | the loop reads exactly the sets in the columns, or finds a column that fits no match and says why |
| ResultParser.ColumnsDecide | backend/src/vlytics/mirror/parser.py:562-605 | after all columns at most one match is left, and the totals and the deciding set settle it |
| ResultParser.ParseResultRow | backend/src/vlytics/mirror/parser.py:498-605 | a row yields a result exactly when it writes down a legal match whose loser won at most two sets, and the result is that match's; otherwise the reason is that of the first column that cannot continue the match, or of the totals |
| ResultParser.LegalIff | backend/src/vlytics/mirror/parser.py:520-605 | a legal match without its history: valid sets, as many as allowed, the winner with the winning number of them and the last set, the loser with fewer |
| ResultParser.PaddingDoesNotMatter | backend/src/vlytics/mirror/parser.py:528-541 | null and 0:0 are the same in a column after the last set |
| ResultParser.DefaultRuleAcceptsEveryMatch | backend/src/vlytics/mirror/rules.py:16-40 | under the default rule every encoding of a legal match is accepted, and each set is reachable by rallies |
| ResultParser.NoMatchIsLostIff | backend/src/vlytics/mirror/parser.py:585-595 | a rule loses no legal match that is written down exactly when it takes at most three sets to win or allows fewer than three sets more |
| ResultParser.FourSetsToWinLosesAMatch | backend/src/vlytics/mirror/parser.py:585-595 | with four sets to win out of seven, a legal match that no row gets accepted |
| ResultParser.WinsAddUp | backend/src/vlytics/mirror/parser.py:536-561 | the set counts add up to the number of sets |
| ResultParser.WinsAreCounts | backend/src/vlytics/mirror/parser.py:536-561 | the wins are the numbers of sets in which a side has more points |
| CursorCodec.Decode64Encode64 | backend/src/vlytics/api/security.py:80-91 | unpadded base64url text decodes to its bytes |
| CursorCodec.LettersInOrder | backend/src/vlytics/api/security.py:80-91 | the letters of base64url are A to Z, a to z, 0 to 9, minus and underscore |
| CursorCodec.GroupIsNumber | backend/src/vlytics/api/security.py:80-91 | three bytes are one number, written as four digits to the base 64 |
| CursorCodec.LastGroupIsFilled | backend/src/vlytics/api/security.py:80-91 | a last group of one or two bytes is filled up with zeros and cut |
| CursorCodec.DecodeEncode | backend/src/vlytics/api/security.py:80-102 | every payload comes back from its cursor |
| CursorCodec.AcceptedTexts | backend/src/vlytics/api/security.py:85-107 | a text is accepted exactly when it is the canonical text of a signed, loadable body |
| CursorCodec.ShortTextsAreRefused | backend/src/vlytics/api/security.py:85-107 | no text too short for a body and a 32-byte digest is accepted |
| CursorCodec.OnlyAsciiIsRead | backend/src/vlytics/api/security.py:87-91 | a character outside ASCII makes a text unreadable |
| CursorCodec.OneTextPerByteString | backend/src/vlytics/api/security.py:87-91 | no byte string has two accepted texts |
| CursorCodec.DecoderIsLenient | backend/src/vlytics/api/security.py:87-91 | two texts decode to the same bytes, so the canonical comparison is needed |
| SyncPlanning.Plan | backend/src/vlytics/ops/sync.py:92-140 | one schedule poll in the bucket of now and, for each match in order, the job it needs; in columns, for which matches a result is polled |
| SyncPlanning.JobsInColumns | backend/src/vlytics/ops/sync.py:108-139 | in columns: the planned jobs beside the schedule poll are exactly the result jobs of matches that await a result and the correction jobs of those due for one |
| SyncPlanning.ResultPolledIff | backend/src/vlytics/ops/sync.py:110-126 | a result is polled for a match exactly while it has started, has no final result, and is neither cancelled nor postponed |
| SyncPlanning.OneResultKeyPerInterval | backend/src/vlytics/ops/sync.py:115-126 | two ticks of the wait plan one key exactly when one result interval's bucket holds both |
| SyncPlanning.CorrectionsLieInTheWindow | backend/src/vlytics/ops/sync.py:127-139 | a final match is planned only for corrections, between one interval after its first final result and the end of its window |
| SyncPlanning.CorrectionKeysAreBounded | backend/src/vlytics/ops/sync.py:127-139 | however often the planner runs, at most ceil(window / interval) distinct correction keys for one match: 28 by default |
| SyncPlanning.BucketsInWindow | backend/src/vlytics/ops/sync.py:268-275 | the bucket numbers of such ticks lie in a range of that size |
| SyncPlanning.SameKeyIffSameBucket | backend/src/vlytics/ops/sync.py:268-275 | two ticks plan the same key exactly when they fall into one bucket |
| SyncPlanning.DefaultBoundIsReached | backend/src/vlytics/ops/sync.py:58-63 | all 28 keys of the default timing can occur |
| PredictionContract.ValidateTargets | backend/src/vlytics/engine/prediction_validation.py:93-116 | the first-seen loop accepts exactly the documents whose targets pairwise agree on snapshot and statistical lineage |
| PredictionContract.EntryInColumns | backend/src/vlytics/engine/prediction_validation.py:95-108 | what a target of each source must say about itself |
| PredictionContract.PartsInColumns | backend/src/vlytics/engine/prediction_validation.py:66-91 | capabilities and provenance name the same targets, and the document has exactly the parts they ask for |
| PredictionContract.LineageInColumns | backend/src/vlytics/engine/prediction_validation.py:109-116 | two statistical targets name one upstream by one method, and one set prediction if the method uses one |
| PredictionContract.ValidateSets | backend/src/vlytics/engine/prediction_validation.py:117-136 | labels in the fixed order, probabilities in range, mass and winner marginal within the tolerance |
| PredictionContract.SetsInColumns | backend/src/vlytics/engine/prediction_validation.py:117-136 | six outcomes in their order, each a probability, together one and the first three the winner's, up to a millionth |
| PredictionContract.ValidateJoint | backend/src/vlytics/engine/prediction_validation.py:138-166 | the joint reference is found, owned by the producer, of the same snapshot, and its marginals are close |
| PredictionContract.JointInColumns | backend/src/vlytics/engine/prediction_validation.py:138-166 | the joint reference is found under its own id, of the same producer and snapshot, and agrees with the winner and all outcomes up to a millionth |
| PredictionContract.ValidateSemantics | backend/src/vlytics/engine/prediction_validation.py:62-166 | accepts exactly the documents that satisfy all of it |
| PredictionContract.OneStatisticalMethod | backend/src/vlytics/engine/prediction_validation.py:169-216 | no accepted document mixes the two statistical derivation methods |
| PredictionContract.JointSharesSnapshot | backend/src/vlytics/engine/prediction_validation.py:144-152 | the joint distribution was made from every target's snapshot |
| PredictionContract.AwayMarginal | backend/src/vlytics/engine/prediction_validation.py:121-142 | the away outcomes' mass is within two tolerances of one minus the winner probability |
| PredictionContract.JointMass | backend/src/vlytics/engine/prediction_validation.py:144-166 | the joint distribution's own mass is within seven tolerances of one and its home marginal within five of its stored winner |

## Left out

- SHA-256, HMAC and JSON text: digests are the tuples they are computed from, the cursor's MAC and JSON
  body are functions of which only the stated facts are used, and JSON of a cohort is the cohort itself.
- SQL, SQLite and PostgreSQL: a transaction is one atomic step, a query a filter, a sort and a take over
  rows. Deadlock, serialization failure and retry of a transaction are not part of this model.
- HTTP, files, the egress relay and the monotonic clock: an answer is a parameter, and wall and monotonic
  time are one timeline.
- Floating point: probabilities, durations and odds are reals.
- Process death between a token and the cooldown: the spacing results cover exits through `finally`.
- Signed cursors whose key is not a time and an id, or that carry no revision: the service never makes them.
- Checks that raise before any work: report and destination validation in the dispatcher, the collection
  gate, page-size validation, malformed job payloads, time zones.
- TOML keys are bare keys, as all of the configuration's are. The readers take the forms the printer
  uses, not comments, dates, literal or multi-line strings, inline tables and other spellings of numbers.
  A float is its shortest decimal text.
- Set rules are taken with positive numbers, as `VolleyballSetRule` itself demands.
- The dispatcher, freeze and audit rows of a prediction job, budgets and the provider call itself: a
  model call is its result and its two clock readings; there is one snapshot for each revision and cutoff.
- Performance: metrics, calibration, failure counts, market availability and the paired differences; which
  kind of baseline a row is comes in as a function of the row.
- PredictionContract.ValidateSemantics: does not say which of several faults is reported first, because
  the source promises only that a faulty document is refused.
- `SchedulePlanner.plan`, `classify_schedule_change`, `reconcile_coverage`, `_latest_coverage_rows` and
  `request_retry`: no promise of theirs is part of a property stated here.
- Receipt preparation, health thresholds, budget merging, migrations, backup, the desktop app and the web
  pages.
