# openWeave, modelled and proved

openWeave carries an application's traces from an SDK through a Redis stream into PostgreSQL, has
an eval worker score them, and serves each trace back as a tree. This project models the parts of
that pipeline that keep state and proves what they promise: what every step keeps, what whole runs
guarantee, and where the code does less than it set out to do.

`dafny verify dfyconfig.toml` checks all of it.

## The modules

| files | what they model |
|---|---|
| `Tables`, `Events`, `Ingest` | rows, the upsert kinds (merge, patch, do-nothing), the row builders, and `apply_events` as a function, as loops and as a database connection that commits or rolls back |
| `Stored` | what a batch leaves in the tables field by field, and which single events it may hold |
| `SingleCalls`, `BatchRefinement`, `Convergence`, `DbInvariants` | what any list of events makes of the tables: last writer, batch against one at a time, order independence, invariants of whole runs |
| `Pricing`, `PriceCache`, `Auth` | as-of price matching, exact costs, the price cache, the API-key cache |
| `StreamWorker`, `Consumer`, `Retries`, `SharedRetries` | the consumer group with its pending list as steps of several workers that may crash anywhere; `handle_batch` as one worker runs it; why redelivery ends; retry counts under interleaving |
| `Evaluations`, `EvalTransaction`, `Verdicts` | SETNX claims, jobs and scores in several eval workers with rollbacks, crashes and expiring claims; `evaluate_trace` as one worker runs it; what each score says of the judge's answer |
| `LastWrites`, `Settling`, `Spacing`, `EvalLoop` | the settle query on the tables; the debounce: due set, leases, bounce counts, as steps among committing batches and as `drain_due`; how far apart checks are |
| `Spans`, `Forest`, `RoundTrip`, `Delivery` | the SDK's span stack, tree assembly in `get_trace`, the round trip between them, and the same end to end through the tables |
| `Rollups` | the dashboard's joins and the run comparison |

Code that works step by step is modelled as methods with loops and as classes; each is tied to a
function of the old state, and the properties are proved about that function. Protocols
(`StreamWorker`, `Evaluations`, `Settling`) are transition systems whose runs are arbitrary
sequences of moves. A worker's uninterrupted call (`Drive`) is the same steps in a row, and the
imperative methods are proved equal to it.

Clock readings, query results, the judge's answers and outages are parameters.

## Where the code falls short of its intent

Each with the condition under which it does what it should, proved exact wherever it says so.

- The SDK's create always sends `level`, so when the update that reports an error arrives before
  it, the create resets the level to DEFAULT (`Convergence.ErrorLevelLostOutOfOrder`, and
  `Convergence.FailedSpanLosesError` on one span). The events of an observation are accepted and
  end in one row in every order exactly when no end is before a start it can meet and every two
  agree on the columns both set (`Convergence.ConvergeIffAgree`, and
  `Convergence.AcceptedInEveryOrderIffTimely` for acceptance alone).
- `dead_letter` acks even when its own write fails. A message that was not committed before is
  lost exactly when that write fails (`StreamWorker.LostIffLetterFails`), and in no other way
  (`StreamWorker.LostAsTried`); without outages and with payloads the row can hold nothing is
  (`StreamWorker.NeverFailsNothingLost`). Other payloads, for example JSON that is no object, need
  no outage to be lost (`Retries.UnrecordableLost`).
- Retry counts of several crash-free workers are exact for a message exactly when it may not be
  claimed from a worker that has it in hand (`SharedRetries.CountsExactIffExclusive`); otherwise an
  acked message can keep its count (`SharedRetries.OverlapMiscounts`).
- A lost create whose end event arrives leaves a row without a parent and without a flag, and a
  span is flagged only when its parent has no row at all (`Delivery.LossShown`).
- Bounce counts are filed under `project:trace`. The cap on deferrals holds for a member exactly
  when no other member shares that string (`Settling.CapIffKeptApart`).
- An announcement handled by another worker can be forgotten exactly when it arrives between the
  settle check and ZREM of the same trace (`Settling.ForgettableIffBeingEvaluated`).
- Settle checks of a trace are SETTLE_SECONDS apart unless a crash or an exception cuts one short
  (`Spacing.ChecksSpaced`): then the next follows when the lease ends, and the lease counts from the
  start of the drain, so after a long one it may follow at once (`Spacing.RaisedCheckedAtOnce`).
- The claim is taken before the commit. Every claim leads to its job exactly when no transaction
  that had won one ends without committing (`Evaluations.AllHeldIffNoneLost`); one that does
  leaves the trace unjudged for the claim's lifetime (`Evaluations.ClaimedButNeverJudged`). Claim
  keys join the names with colons, so two traces can share one (`Evaluations.SharedClaims`); within
  the claims' lifetime two can both be judged exactly when theirs differ
  (`Evaluations.BothJudgedIffApart`), as they do for ids without colons
  (`Evaluations.ColonFreeClaims`).
- `is_settled` returns False for a missing result, but its query has no GROUP BY and coalesces to
  the epoch, so a trace without a row counts as settled (`LastWrites.AbsentTraceSettled`).
- Cache failures are meant never to reject a valid request, but three things found in the cache
  break the call: JSON that is no object, an object for the caller's public key whose expiry is not
  a time with a zone, and an entry that cannot be read and whose delete fails
  (`Auth.ApiKeyVerifier.Verify`). The code itself never writes any of them
  (`Auth.BreaksOnlyIfDamaged`).

## Model

| member | source | states |
|---|---|---|
| `Tables.CellAfter` | agent-observability/worker/worker.py:269-287 | after any list of merges, patches and do-nothing inserts, every cell holds the last value that overwrote it, else what the stored or first inserted row had |
| `Tables.AcceptedIffChecked` | agent-observability/worker/models.py:431-434 | a list of upserts is accepted exactly when each proposed row and each row stored on the way meets the CHECKs |
| `Events.CollectFields` | agent-observability/worker/worker.py:183-218 | the dict filled key by key holds exactly the columns sent, coerced; it raises exactly when a coercion does |
| `Ingest.GroupBySent` | agent-observability/worker/worker.py:290-296 | the loop builds the groups of `Grouped`, in first-seen order |
| `Ingest.GroupingKeepsRows` | agent-observability/worker/worker.py:290-296 | grouping neither loses nor invents a row |
| `Ingest.GroupedWrittenOut` | agent-observability/worker/worker.py:290-296 | what those groups are: no set of columns twice, the first seen first, and each group the rows with its set in the order given |
| `Ingest.ExecuteGroups` | agent-observability/worker/worker.py:343-355 | one statement per group is the rows one by one, failing as soon as one row fails |
| `Ingest.Connection.InsertStubs` | agent-observability/worker/worker.py:325-351 | stubs fill gaps and change no existing trace |
| `Ingest.Connection.InsertScoreRows` | agent-observability/worker/worker.py:371-375 | scores already there stay; a score that breaks a CHECK fails the statement |
| `Ingest.Connection.Build` | agent-observability/worker/worker.py:309-323 | the builders raise exactly on an event that cannot be built, and else give each table its rows in stream order |
| `Ingest.Connection.ResolveCosts` | agent-observability/shared/pricing.py:214-240 | with the models the cache holds, prices exactly the touched generations with usage that the client did not price |
| `Ingest.Connection.Apply` | agent-observability/worker/worker.py:299-388 | the whole of `apply_events` on the tables, with the cases in which it raises |
| `Ingest.Connection.Begin` | agent-observability/worker/worker.py:454-457 | all of a batch or nothing of it |
| `Stored.ScoresStored` | agent-observability/worker/worker.py:244-266 | after an accepted batch a score that was there is as it was, and a new one holds, field by field, what the first event of the batch that names it sent |
| `Stored.TraceStored` | agent-observability/worker/worker.py:143-162 | after an accepted batch with one trace_create of a trace: each cell of a new row, and of one that was there, by what the body sends |
| `Stored.StubStored` | agent-observability/worker/worker.py:325-351 | a trace only observations name keeps its row, or gets one with no more than the times and that it is no experiment |
| `Stored.ObservationStored` | agent-observability/worker/worker.py:183-241 | after an accepted batch with one event of an observation: each cell of a new row, of one a create was merged into, and of one an update patched, by what the body sends |
| `Stored.OtherObservationsKept` | agent-observability/worker/worker.py:343-369 | a batch leaves every other observation as it was, and adds none |
| `Stored.ObservationAcceptedIff` | agent-observability/worker/models.py:431-434 | a lone event of a new observation is accepted exactly if its type and level are known names, its start is a time, its objects are objects and it ends no earlier than it starts |
| `Stored.ScoreAcceptedIff` | agent-observability/worker/models.py:541-550 | a lone score is accepted exactly if it hangs on a trace or a run item and not both, is of a known data type and has the kind of value that calls for |
| `Stored.PricedRow` | agent-observability/shared/pricing.py:182-240 | which rows pricing changes, and the three columns it then writes; all others stay |
| `Stored.TouchedPriced` | agent-observability/worker/worker.py:377-388 | a batch prices exactly the observations it has an event of |
| `SingleCalls.LastWriterWins` | agent-observability/worker/worker.py:269-351 | over any run of single-event calls each trace column is the last non-null value an accepted event sent, else what the first insert or stub fixed |
| `BatchRefinement.BatchRefinesSingleCalls` | agent-observability/worker/worker.py:290-375 | one batch equals its events one at a time in stream order, despite grouping and creates-first |
| `Convergence.Converges` | agent-observability/worker/worker.py:183-241 | a create and any updates with disjoint columns end, in every order and however often each is delivered, in the row the calls determine, accepted at every step |
| `Convergence.AcceptedInEveryOrderIffTimely` | agent-observability/worker/models.py:431-434 | whatever columns the events of an observation share, every order, and every sequence with redeliveries, is accepted exactly when no end is before a start it can meet in a row |
| `Convergence.AcceptedInEveryOrderIffInTime` | agent-observability/worker/models.py:431-434 | when no two share a column, that is when the end comes after the start and no other update is stamped after it |
| `Convergence.PairConvergesIff` | agent-observability/worker/worker.py:353-369 | a create and an update give one row in both orders exactly when no column both send differs |
| `Convergence.ConvergeIffAgree` | agent-observability/worker/worker.py:353-369 | any number of events of one observation are accepted and end in one row in every order exactly when no end is before a start it can meet and every two agree on the columns both set; then redeliveries change nothing either |
| `Convergence.ErrorLevelLostOutOfOrder` | agent-observability/sdk/openweave.py:393-416 | the SDK's own create and error end do not converge |
| `Convergence.FailedSpanLosesError` | agent-observability/sdk/openweave.py:393-418 | for one failing span both orders are accepted, and ERROR survives in one of them only |
| `Convergence.QuietSpanConverges` | agent-observability/sdk/openweave.py:393-418 | the events of a span that ends quietly meet the conditions of convergence |
| `DbInvariants.TracesGrow` | agent-observability/worker/worker.py:325-351 | a batch adds every trace it names, drops none, and leaves the traces no trace_create names as they were |
| `DbInvariants.FailedBatchLeavesNothing` | agent-observability/worker/worker.py:454-457 | a batch that meets an outage or cannot be applied leaves the rest of the run as it would be without it |
| `DbInvariants.EveryObservationHasItsTrace` | agent-observability/worker/worker.py:325-369 | over every run of batches, rollbacks and re-costings each observation's trace has a row |
| `DbInvariants.ClientCostNeverOverwritten` | agent-observability/shared/pricing.py:182-199 | over every run a client-provided cost stays the cost shown, and its sum the total |
| `Pricing.Match` | agent-observability/shared/pricing.py:117-141 | the match is an applicable row no other applicable row outranks by (project override, start date); none exactly when none applies |
| `Pricing.MatchWrittenOut` | agent-observability/shared/pricing.py:117-141 | the match applies to the project, the name and the time; a project's own row goes before everybody's, then the later start date, then the first in the cache |
| `Pricing.NoMatchIff` | agent-observability/shared/pricing.py:117-141 | there is none exactly when the name is empty or no row applies |
| `Pricing.MatchIgnoresLaterPrices` | agent-observability/shared/pricing.py:117-141 | price rows dated after the observation never change the match |
| `Pricing.MatchIsOrderFree` | agent-observability/shared/pricing.py:135-141 | without rows of equal rank the match does not depend on the cache's order |
| `Pricing.ComputeCost` | agent-observability/shared/pricing.py:144-172 | the loop's total is the sum of the amounts it reports; None exactly when nothing is priceable |
| `Pricing.TotalWrittenOut` | agent-observability/shared/pricing.py:155-168 | the total is the sum of tokens times unit price over the entries whose key is neither aggregate and has a price |
| `Pricing.DetailsWrittenOut` | agent-observability/shared/pricing.py:155-168 | each reported amount is that product, for exactly those entries in order; without any there is no cost |
| `Pricing.SumIsBill` | agent-observability/shared/pricing.py:155-168 | the total is the bill added up price key by price key |
| `Pricing.CostIsAdditive` | agent-observability/shared/pricing.py:144-172 | the cost of added-up usage is the sum of the costs |
| `Pricing.RecostingIgnoresLaterPrices` | agent-observability/shared/pricing.py:202-240 | re-costing after later-dated prices were added gives the same row |
| `PriceCache.ModelPriceCache.Gather` | agent-observability/shared/pricing.py:85-95 | the dict built from the left join holds every model once with exactly its own prices |
| `PriceCache.ModelPriceCache.Reload` | agent-observability/shared/pricing.py:78-114 | what is loaded is a snapshot: each model whose pattern compiles, once |
| `PriceCache.ModelPriceCache.Refresh` | agent-observability/shared/pricing.py:74-115 | over any table edits the models in use are a snapshot less than ttl old, on first use too |
| `PriceCache.SnapshotsAgree` | agent-observability/shared/pricing.py:74-115 | two snapshots of the same tables hold the same rows |
| `PriceCache.SnapshotWrittenOut` | agent-observability/shared/pricing.py:85-114 | each row of a snapshot is a model's own definition with exactly the prices filed under its id, and every model whose pattern compiles is there |
| `PriceCache.ModelPriceCache.ResolveCosts` | agent-observability/shared/pricing.py:202-240 | the touched rows are priced by the cache as refreshed: a snapshot of the price tables less than ttl old, or taken just now |
| `PriceCache.ModelPriceCache.ApplyEvents` | agent-observability/worker/worker.py:299-388 | the batch is `apply_events` priced by that snapshot; a batch that fails or touches no observation leaves the cache be |
| `Auth.OneDirectVerdict` | agent-observability/shared/auth.py:147-169 | a lookup without cache has one verdict |
| `Auth.ApiKeyVerifier.CacheGet` | agent-observability/shared/auth.py:181-204 | hits exactly on a live entry or an object with an unreadable expiry; deletes text that is no JSON or lacks a key; raises exactly on JSON that is no object, or when that delete fails |
| `Auth.ApiKeyVerifier.CachePut` | agent-observability/shared/auth.py:206-225 | stores the row for ttl, or nothing when the write fails |
| `Auth.ApiKeyVerifier.Disturb` | agent-observability/shared/auth.py:191-204 | entries lapse, are dropped or come to hold something unreadable; the usable ones left are as they were |
| `Auth.ApiKeyVerifier.Verify` | agent-observability/shared/auth.py:103-169 | the call breaks exactly on JSON that is no object, on an object for its public key with an unreadable expiry, or on a garbled entry it cannot delete; what it answers, keeps and counts otherwise |
| `Auth.VerdictsSound` | agent-observability/shared/auth.py:129-225 | over every run of calls, failures and disturbances: an acceptance is of an unexpired row that was there within the last ttl, and while the table is steady each verdict that does not break is the table's |
| `Auth.BreaksOnlyIfDamaged` | agent-observability/shared/auth.py:181-225 | a call breaks only on an entry that was damaged; what the code itself writes never breaks one |
| `Auth.ExpiryWrittenOut` | agent-observability/shared/auth.py:103-161 | over every run what is accepted has not expired, what is rejected as expired has, and an invalid key is not in the table |
| `Auth.ServedWithinTtl` | agent-observability/shared/auth.py:129-145 | after an accepted call the same one within ttl has the same verdict from the cache alone |
| `Auth.GarbledHealed` | agent-observability/shared/auth.py:199-204 | a garbled entry does not survive a call that reads it and can delete it |
| `Forest.Assemble` | agent-observability/api-server/main.py:236-263 | the two loops put each child under its parent in row order, the rest at the top, and flag exactly the parents that are absent |
| `Forest.PlacedOnce` | agent-observability/api-server/main.py:256-263 | for arbitrary parent links each span is placed exactly once |
| `Forest.WalkFromRoots` | agent-observability/ui/index.html:745-751 | the walk from the roots ends, repeats nothing and visits exactly what hangs from a root |
| `Forest.WalkCompleteIffAcyclic` | agent-observability/ui/index.html:745-751 | the walk visits every span exactly when the parent links have no cycle |
| `Spans.Client.StartSpan` | agent-observability/sdk/openweave.py:377-409 | emits the create below the top of the stack and pushes the span, minting a trace when there is none |
| `Spans.Client.EndSpan` | agent-observability/sdk/openweave.py:411-419 | emits the end event |
| `Spans.Client.Span` | agent-observability/sdk/openweave.py:422-435 | the block emits its call's events, restores both context variables, and raises exactly if its body lets something escape |
| `Spans.Client.Observe` | agent-observability/sdk/openweave.py:468-487 | the same for a decorated function |
| `Spans.Client.Trace` | agent-observability/sdk/openweave.py:339-375 | a trace block opens the given trace or a new one, starts an empty stack, restores both variables, and raises exactly if its body does |
| `Spans.RaisesIffEscapes` | agent-observability/sdk/openweave.py:422-487 | a program raises exactly if a statement of it escapes, by its text alone: blocks raise again what their bodies raise |
| `Spans.NothingAfterEscape` | agent-observability/sdk/openweave.py:422-487 | statements after one that escapes call nothing and use no id and no clock reading |
| `RoundTrip.OneOrder` | agent-observability/api-server/main.py:230-234 | rows with rising start times come back in emission order |
| `RoundTrip.EveryCallEndsOnce` | agent-observability/sdk/openweave.py:377-435 | in every program each call has one create and one end event, in one trace |
| `RoundTrip.CallTreeRoundTrip` | agent-observability/api-server/main.py:230-263 | for every program `get_trace` on the emitted creates returns each trace's forest of calls in call order |
| `RoundTrip.LossKeepsParents` | agent-observability/api-server/main.py:256-263 | whatever spans have no row at all, the others keep their present parents and sibling order, and orphans become flagged roots |
| `RoundTrip.CallsAcyclic` | agent-observability/sdk/openweave.py:377-409 | what the SDK emits has distinct ids, no cycle and no missing parent |
| `Delivery.RunFits` | agent-observability/worker/worker.py:299-388 | over any run of batches in which one trace's events are the SDK's, each row of it shows its call's trace, and its parent and start once its create committed |
| `Delivery.TreeRebuilt` | agent-observability/api-server/main.py:230-263 | end to end: any order, grouping, redelivery, rollback and re-costing of a trace's events, among any others, leads to the same tree of calls |
| `Delivery.LossShown` | agent-observability/api-server/main.py:230-263 | end to end with losses: a span has a row exactly if an event of it committed, shows its parent exactly if its create did, and is flagged exactly if it shows a parent that has no row; siblings keep call order and the walk visits every row once |
| `StreamWorker.StepKept` | agent-observability/worker/worker.py:410-488 | every effect of a worker keeps the invariant of the stream and the tables |
| `StreamWorker.FreshAreNext` | agent-observability/worker/worker.py:557-563 | a read delivers the next messages in stream order, as many as asked for up to a batch and the end of the stream |
| `StreamWorker.TransactWrittenOut` | agent-observability/worker/worker.py:454-457 | a transaction commits exactly if the database is there and `apply_events` succeeds on the messages' events in order, and changes the tables alone |
| `StreamWorker.NoSilentAck` | agent-observability/worker/worker.py:410-488 | over every interleaving each message is undelivered, pending or acked, and acked only after a commit or a due dead letter |
| `StreamWorker.TablesAreCommits` | agent-observability/worker/worker.py:454-488 | the tables are the committed batches in order, so the run invariants hold of them |
| `StreamWorker.LostIffLetterFails` | agent-observability/worker/worker.py:410-434 | from any reachable state in which a worker is about to write the dead letter of a message not committed before, its next two effects ack the message, and it is lost exactly when the write fails |
| `StreamWorker.LostAsTried` | agent-observability/worker/worker.py:410-488 | an acked message is in a commit or in the dead-letter queue unless a write of its dead letter failed and none succeeded |
| `StreamWorker.NothingLost` | agent-observability/worker/worker.py:410-488 | if no dead-letter write fails, every acked message is in the tables or in the queue |
| `StreamWorker.NeverFailsNothingLost` | agent-observability/worker/worker.py:410-434 | without outages and with payloads a dead-letter row can hold, none fails |
| `Consumer.Worker.DeadLetter` | agent-observability/worker/worker.py:410-435 | the row or its loss, then xack and hdel |
| `Consumer.Worker.OneByOne` | agent-observability/worker/worker.py:463-481 | the fallback loop is the steps of one uninterrupted worker |
| `Consumer.Worker.HandleBatch` | agent-observability/worker/worker.py:438-488 | the whole call is the steps of one uninterrupted worker |
| `Consumer.Worker.ReclaimStranded` | agent-observability/worker/worker.py:518-534 | handles the first BATCH_SIZE pending messages that were idle long enough |
| `Consumer.StrandedArePending` | agent-observability/worker/worker.py:520-527 | what is claimed is pending and no message twice |
| `Consumer.StrandedInOrder` | agent-observability/worker/worker.py:520-527 | they are the first of the idle ones in stream order, at most a batch |
| `Retries.FallbackIsFold` | agent-observability/worker/worker.py:463-481 | the fallback commits exactly the messages that succeed alone, and the tables are the fold of their events |
| `Retries.EachTried` | agent-observability/worker/worker.py:463-481 | in the fallback a message is acked once committed, and else counted once more, dead at MAX_RETRIES |
| `Retries.EachHandled` | agent-observability/worker/worker.py:438-488 | what a call does with each message it is given |
| `Retries.OthersHandled` | agent-observability/worker/worker.py:438-488 | a call changes nothing about other messages |
| `Retries.RetriesBounded` | agent-observability/worker/worker.py:467-480 | with calls one at a time pending messages have their exact failure count below MAX_RETRIES, acked ones none, and a parsed message is dead exactly after MAX_RETRIES failures |
| `Retries.HandlingLowers` | agent-observability/worker/worker.py:458-486 | handling pending messages strictly lowers the attempts left |
| `Retries.RedeliveriesEnd` | agent-observability/worker/worker.py:458-486 | so at most MAX_RETRIES times the messages redeliveries can find anything pending |
| `Retries.UnrecordableLost` | agent-observability/worker/worker.py:412-434 | a message that is JSON but no object is lost after MAX_RETRIES deliveries with no outage anywhere |
| `SharedRetries.CountsExactIffExclusive` | agent-observability/worker/worker.py:458-486 | with several crash-free workers interleaved step by step, a message no worker has in hand is counted exactly in every run exactly when it is not among those that may be claimed from a worker that has them |
| `SharedRetries.RetriesExact` | agent-observability/worker/worker.py:458-486 | what exactly counted means, for one such run |
| `SharedRetries.SharedMessageMiscounted` | agent-observability/worker/worker.py:467-477 | from any reachable state in which two workers have failed one message alone, one of them for the last time, an acked message keeps a count |
| `SharedRetries.OverlapMiscounts` | agent-observability/worker/worker.py:518-534 | for every message a run without crashes that gets there, claiming no other |
| `LastWrites.SettledIffQuiet` | agent-observability/evaluator/eval_worker.py:324-340 | `is_settled` holds exactly when the trace's rows were all written SETTLE_SECONDS ago or earlier |
| `LastWrites.SettledWrittenOut` | agent-observability/evaluator/eval_worker.py:324-340 | the same in terms of the trace's row and the observations that name it |
| `LastWrites.AbsentTraceSettled` | agent-observability/evaluator/eval_worker.py:324-340 | a trace without a row counts as settled, whatever observations name it |
| `LastWrites.CreatedTraceUnsettled` | agent-observability/worker/worker.py:325-351 | a batch with a trace_create makes its time the trace's last write |
| `LastWrites.WrittenObservationUnsettles` | agent-observability/worker/worker.py:343-369 | a batch with an observation event does the same for the trace its row belongs to |
| `Settling.EvaluationsGated` | agent-observability/evaluator/eval_worker.py:377-399 | over every run, with batches committing in between: when an evaluation begins, the last settle check was of its trace, and the tables had it settled, or it failed as had more than MAX_BOUNCES checks under its bounce key since an evaluation last ended |
| `Settling.BouncesCounted` | agent-observability/evaluator/eval_worker.py:390-407 | the bounce hash counts exactly the failed checks under each key since an evaluation under it last ended |
| `Settling.CapIffKeptApart` | agent-observability/evaluator/eval_worker.py:390-399 | at most MAX_BOUNCES checks in a row put a member off, in every run that announces only given members, exactly when no other of them has its bounce key |
| `Settling.ColonFreeKeptApart` | agent-observability/evaluator/eval_worker.py:390-390 | project ids without a colon are enough |
| `Settling.CollidingKeysDefeatCap` | agent-observability/evaluator/eval_worker.py:390-396 | the cap fails for members with one bounce key |
| `Settling.NoScheduledTraceForgotten` | agent-observability/evaluator/eval_worker.py:359-409 | crashes anywhere and announcements handled anywhere: unless one arrives elsewhere in the middle of an evaluation, a scheduled trace stays due until an evaluation begun later has completed |
| `Settling.ForgettableIffBeingEvaluated` | agent-observability/evaluator/eval_worker.py:401-406 | from any reachable state, an announcement handled elsewhere can come to be forgotten exactly when this worker is evaluating the trace |
| `Settling.LeaseHeld` | agent-observability/evaluator/eval_worker.py:379-387 | with one worker the member worked on was due when the drain began and stays leased, so a crash leaves it due when the lease ends |
| `Settling.TwoWorkersForget` | agent-observability/evaluator/eval_worker.py:401-406 | a run in which that happens |
| `Settling.AnnouncedNeverEarlier` | agent-observability/evaluator/eval_worker.py:359-374 | an announcement never moves a check earlier and moves no other |
| `Settling.AnnouncedDue` | agent-observability/evaluator/eval_worker.py:359-374 | an announced check is due SETTLE_SECONDS later, or when it was due if that is later still |
| `Spacing.PutOffUntil` | agent-observability/evaluator/eval_worker.py:394-397 | a check that is put off is due again exactly SETTLE_SECONDS after the clock reading, and no other check moves |
| `Spacing.ChecksSpaced` | agent-observability/evaluator/eval_worker.py:377-409 | over every run two settle checks of a trace with no completed evaluation between them are at least SETTLE_SECONDS apart, unless a crash or an exception cut the first one's handling short; then the second waits for the lease the first was made under |
| `Spacing.RaisedCheckedAtOnce` | agent-observability/evaluator/eval_worker.py:379-387 | when an evaluation raises after a long drain, the next check can follow at once |
| `Spacing.OverCapOnlyLate` | agent-observability/evaluator/eval_worker.py:390-399 | without crashes a member with a bounce key of its own is evaluated over the cap only MAX_BOUNCES times SETTLE_SECONDS or more after its first failed check |
| `EvalLoop.Worker.HandleMessage` | agent-observability/evaluator/eval_worker.py:359-374 | ZADD GT, and nothing for an incomplete message |
| `EvalLoop.Worker.SettleCheck` | agent-observability/evaluator/eval_worker.py:391-400 | the check, the bounce count and the deferral are the steps of the protocol |
| `EvalLoop.Worker.DrainDue` | agent-observability/evaluator/eval_worker.py:377-409 | the whole drain is the steps of one uninterrupted worker; a raising evaluation ends it |
| `Evaluations.AtMostOncePerTtl` | agent-observability/evaluator/eval_worker.py:218-222 | over every interleaving two committed jobs of one claim key were claimed DONE_TTL apart |
| `Evaluations.AtMostOnce` | agent-observability/evaluator/eval_worker.py:299-318 | within the claims' lifetime at most one committed job per claim key, and so per project, trace and rule |
| `Evaluations.AtMostOneScore` | agent-observability/evaluator/eval_worker.py:225-318 | and at most one score; every score belongs to some claim |
| `Evaluations.BothJudgedIffApart` | agent-observability/evaluator/eval_worker.py:218-222 | two traces or rules can both have a committed job within the claims' lifetime, in some run, exactly when their claim keys differ |
| `Evaluations.SharedClaims` | agent-observability/evaluator/eval_worker.py:220-220 | different traces of one project, and of two, that share a claim key |
| `Evaluations.ColonFreeClaims` | agent-observability/evaluator/eval_worker.py:220-220 | project and trace ids without a colon have claim keys of their own |
| `Evaluations.CommittedJobsFinished` | agent-observability/evaluator/eval_worker.py:225-296 | each committed job is COMPLETED with its own score, under its version and of the kind its data type calls for, or ERROR with none, and each score belongs to one job |
| `Verdicts.JobsAsJudged` | agent-observability/evaluator/eval_worker.py:225-296 | over every run each committed job comes from a judging step of its own: ERROR exactly if the judge failed or converting its score raised, else with a score under the rule's name, version and data type that is worth what the answer says |
| `Verdicts.ScoresAsJudged` | agent-observability/evaluator/eval_worker.py:225-296 | and each committed score is the score of such a job |
| `Evaluations.AllHeldIffNoneLost` | agent-observability/evaluator/eval_worker.py:218-318 | over every interleaving each claim won has its job committed or in an open transaction exactly when no transaction that had won a claim ended by a crash, a failing statement, a taken job id or a failed commit |
| `Evaluations.ExactlyOnce` | agent-observability/evaluator/eval_worker.py:299-318 | then, with no transaction open, each claim won has exactly one committed job, its own |
| `Evaluations.ClaimedButNeverJudged` | agent-observability/evaluator/eval_worker.py:315-317 | otherwise a claim can outlive a crashed evaluation: a run |
| `EvalTransaction.Worker.AlreadyEvaluated` | agent-observability/evaluator/eval_worker.py:218-222 | wins the claim exactly when it is not live |
| `EvalTransaction.Worker.RunRule` | agent-observability/evaluator/eval_worker.py:225-296 | the transaction gains the job, finished by the judge's answer as its data type converts it, with a score exactly when that succeeds |
| `EvalTransaction.Worker.Converted` | agent-observability/evaluator/eval_worker.py:252-260 | the conversion by data type: text for a category, 0 or 1 for a boolean, else what `float` makes of it, or nothing |
| `EvalTransaction.Worker.EvaluateTrace` | agent-observability/evaluator/eval_worker.py:299-318 | the whole transaction is the steps of one uninterrupted worker |
| `EvalTransaction.EvaluatesChosen` | agent-observability/evaluator/eval_worker.py:299-318 | while the database stays up one evaluation runs exactly the rules that are selected and whose claim is free: each leaves one finished job, no other job appears or changes, no score that was there changes, and just their claims are taken |
| `Rollups.GroupedJoin` | agent-observability/api-server/main.py:645-654 | grouping a LEFT JOIN by its left row gives each left row once with its own matches |
| `Rollups.OneRowPerTrace` | agent-observability/api-server/main.py:637-682 | the joined rollup has one row per trace with its own cost and mean score, whatever the numbers of observations and scores |
| `Rollups.OwnCostWrittenOut` | agent-observability/api-server/main.py:645-654 | a trace's own cost is the sum over its observations that have one |
| `Rollups.OwnValuesAt` | agent-observability/api-server/main.py:655-661 | the values a trace's mean is taken of are its own scores that have one |
| `Rollups.SumWrittenOut` | agent-observability/api-server/main.py:645-654 | SUM adds each value that is there once, and is NULL if none is |
| `Rollups.AvgWrittenOut` | agent-observability/api-server/main.py:655-661 | AVG divides the sum by the number of values that are there |
| `Rollups.DaysAddUp` | agent-observability/api-server/main.py:664-682 | the days' trace counts and costs add up to the summary's |
| `Rollups.DayWrittenOut` | agent-observability/api-server/main.py:665-682 | a row per day counts exactly the traces of that day and costs what they cost |
| `Rollups.CompareRuns` | agent-observability/api-server/main.py:522-582 | a run's item count and costs are its own items', whatever scores there are; under each score name it has exactly the mean and the number of its own items' scores |
| `Rollups.RunCostsAt` | agent-observability/api-server/main.py:522-540 | a run's costs are its own items', in order |
| `Rollups.RunScoresWrittenOut` | agent-observability/api-server/main.py:542-553 | a run's scores of one name are its own items' one after the other |
| `Rollups.ScoresNamedAt` | agent-observability/api-server/main.py:542-553 | an item's scores are those that hang on its trace or on the item itself |

## Left out

- Drivers and plumbing: gRPC, HTTP, Redis and PostgreSQL connections, signals, logging, environment parsing. Only the semantics of the commands used is modelled.
- Stream trimming (MAXLEN) and Redis outages during ack or scheduling: these lose messages, and are not steps of the model.
- `announce_for_eval`: best effort after the commit; a crash before it loses the announcement, so it promises nothing to prove.
- Two transactions interleaving inside PostgreSQL: each transaction is atomic.
- The SDK's flush thread, buffer and queue limit, asyncio tasks and the async wrapper: programs are single-threaded; dropped events are creates and updates that never commit (`Delivery.LossShown`). A disabled client, and block arguments such as names and inputs, are not modelled.
- Regular expressions, sha256, base64 and Basic-header parsing, and time parsing are parameters or already done; money is exact (`real`), times are integers.
- Column types beyond the checks named in `Events` and the rounding of Numeric(18,12).
- The clock is read once per `apply_events` call, where the source reads it once per row; the price cache has its own reading.
- A `type` that begins with `observation_` but is neither create nor update counts as unknown; the source would still add a stub for its trace.
- Consumer.Worker.ReclaimStranded: idle times are a predicate on messages, since Redis keeps them; XAUTOCLAIM looks at a bounded number of entries a call, so idle messages behind many busy ones may be claimed only by a later call.
- Job ids are arbitrary strings, taken or free; client scores that happen to carry an eval score's id are not modelled.
- EvalTransaction.Worker.RunRule: takes the score in the judge's validated verdict, or that judging failed, from outside; judge providers, prompts, schema validation, NaN and Infinity, and latencies are not modelled.
- Sampling and filters are one decision per rule, `selected`, given from outside.
- `verify` takes one clock reading for its cache lookup, expiry check and cache write. A cache entry altered so that it still reads well is not modelled.
- Rollups.CompareRuns: leaves out the average latency and the per-item table.
- Latency averages of the dashboard, dataset endpoints, the experiment runner, the ingestion server and the UI's drawing.
