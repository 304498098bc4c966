# FlightPulse: verified model of delivery, balancing, identity and marts

FlightPulse polls aircraft positions, posts them in batches through a load balancer to
several ingestion processes, queues each batch as a job, and stores the events in one
PostgreSQL table from which dbt builds marts. Every hop may repeat work: the balancer
forwards again, the queue delivers again, a commit may succeed without an acknowledgement.
The pipeline nevertheless claims that each observation is stored once. This project models
the code behind that claim and proves it, for every batch, every interleaving and every
run, and follows it to the numbers the marts report.

`dafny verify dfyconfig.toml` checks everything.

## How the model is organised

| file | what it models |
|---|---|
| Common, Ids, Telemetry | optional values, sums, slicing, a stable sort; UUID text and the value the index compares; the event |
| Store | the table, row-by-row and chunked insertion, `persist_batch` as a class method over its connection's faults |
| Processor | normalise, dedupe, one attempt at a job |
| Transactions | any number of concurrent `persist_batch` transactions as step machines over one table |
| LockOrder | exactly which batches the sort protects from deadlock |
| Jobs, Drain | the job queue: claim, attempt, crash, retry, redelivery, timeout, lost results; progress of the queue and of the whole pipeline, and single calls as runs |
| Health, Router, Metrics | the three load-balancer classes and what their state means |
| Balancer | requests, health probes and shared state as interleaved steps |
| Server | `proxy` as a loop over the three classes, proved to be a run of Balancer |
| Ingestion, Delivery, Idempotency | the endpoint with its cache; balancer, instances and queue composed; what the cache prevents when handlers overlap |
| Identity | the strings behind `ingestion_id`; normalising an OpenSky response |
| Replay | slicing, identity modes and accounting of the replay player |
| Relational, Facts, QualityMart, AircraftMart | group-by and joins with SQL nulls; the dbt models built from them |

A *run* is a schedule, a sequence of actions, executed by a step function that is undefined
where an action is not possible. A theorem about `Run(initial, schedule)` for every schedule
is a theorem about every interleaving. Code that changes state is a class method or a loop,
proved against a function; the theorems are about those functions.

## What the environment is taken to do

- PostgreSQL: a transaction that needs a key held uncommitted by another waits; when the
  holder ends it skips the key if the holder committed and inserts it if not; commit and
  rollback are atomic; the index compares UUID values, not text.
- arq: a job is claimed at least once; an attempt that raises Retry or dies with its worker
  is handed out again; one that runs into the job timeout or raises anything else is recorded
  as a failure and never handed out again; a result may be lost after a commit.
- `uuid5` (section 5.5 of RFC 9562) is injective on the strings used and `uuid4` gives
  arbitrary ids; what is proved is about the strings. Where ids must be canonical
  text, the theorem says so.
- The text of a timestamp determines the timestamp and contains no `|`.
- A value other than an id that PostgreSQL refuses is an outcome of the call, like a broken
  connection.
- Which methods are retryable follows load_balancer/config.py:37 (idempotent methods,
  section 9.2.2 of RFC 9110) and the presence of the Idempotency-Key header.

## Where the code differs from its own description

- Returning to HEALTHY takes max(2, `recoveries_required`) passes, because the first pass only
  reaches RECOVERING (load_balancer/health.py:105-114).
- `total_requests` counts forwards and 503s, not client requests (load_balancer/server.py:149, 178, 191).
- A valid batch that uses up its attempts is not dead-lettered, although worker/settings.py:88
  says so; only validation failures are (worker/processor.py:92-101). `ExhaustedExactly` and
  `WearOut` give the third outcome.
- At-least-once delivery (worker/persistence.py:123-124) ends at the job timeout: an attempt killed
  in mid-write is gone (worker/persistence.py:63-66), neither stored nor queued nor dead-lettered:
  `KilledMidWrite`.
- An Idempotency-Key header with an empty value makes a request safe to retry for the balancer
  (load_balancer/server.py:107) and leaves it without a key at the endpoint (ingestion/routes.py:74):
  such a request may be enqueued by every forward, and `LookFindsIff` says it is never answered
  from the cache.
- `_dedupe_events` merges events whose `last_contact` is null, although their ids are distinct
  random UUIDs (collector/normalizer.py:80-81, worker/processor.py:67), and says its key is
  the one the unique index enforces. `DedupeInvisibleIff` gives the exact condition,
  `RepeatedIdentityLosesRow` a batch that loses a row.
- `ingestion_id` is an unchecked string (ingestion/schemas.py:28) sorted as text, while the
  index compares UUID values (sql/001_raw_telemetry.sql:20-21). The sort removes deadlocks for
  canonical ids; `LockOrderExact` says exactly when, and `UpperCaseInstance` gives ids for which two
  calls block each other. Spelling also decides which duplicate is stored: `SortInvisibleIff`,
  with rows in `SpellingDecidesRow`.
- An idempotency key is said to let a retry be deduplicated by the endpoint (load_balancer/server.py:104-106).
  The handler stores its response only at the end (ingestion/routes.py:136-138), so a retry that
  arrives while the first handler still runs enqueues the batch again, on the same instance too:
  `OverlapReachable`. `RepeatEnqueuesIff` says exactly when it does not. The store does not notice: `EveryBatchOnce`.
- `retry_duplicate_count` (dbt/models/marts/mart_telemetry_quality.sql:54-61, 104) is described as
  retry duplication. Over collector rows it counts none: `DuplicatesAreVariants` shows that
  it is positive exactly when one observation is stored under two sources or two spellings.
- With a negative batch size the replay player reports success with nothing sent (replay/player.py:110);
  for every positive size its totals account for the whole fixture.

## Model

| member | source | states |
|---|---|---|
| Ids.CanonicalSpelled | sql/001_raw_telemetry.sql:20-21 | canonical text is 36 characters, hyphens after 8, 12, 16 and 20 digits, the rest small hexadecimal digits |
| Ids.LexMeaning | worker/persistence.py:163 | the order of the sort: a prefix first, else the smaller character where two texts first differ |
| Store.InsertAllMeaning | worker/persistence.py:182-188 | insertion described without steps: old rows stay, every batch key is present, and a new key holds the first row of the batch that carried it |
| Store.InsertionUnique | worker/persistence.py:182-188 | that description determines the table, so anything meeting it equals the row-by-row insert |
| Store.ChunkedInsertRefinesRowByRow | worker/persistence.py:182-188 | for every batch and chunk size the chunk loop runs ceil(n/size) statements and yields the table and the count of the one-row-at-a-time loop |
| Store.SortRowsStable | worker/persistence.py:163 | rows with the same id text keep their batch order |
| Store.SameFirstsIff | worker/persistence.py:182-188 | two batches leave every table alike if and only if each UUID has the same first row in both |
| Store.SortInvisibleIff | worker/persistence.py:151-163 | for any ids, sorting before inserting is invisible in every table if and only if each UUID's first row in the batch has its least text |
| Store.SpellingDecidesRow | worker/persistence.py:163 | two rows with one UUID, its first digit written a in the one and A in the other: row by row the first is stored, sorted the second, whatever they report |
| Store.RawTelemetry.Execute | worker/persistence.py:186-187 | one statement inserts its rows in order and returns as many ids as the table grew |
| Store.RawTelemetry.ExecuteChunks | worker/persistence.py:168-188 | if no statement fails, the working table is the insertion of the whole batch and `newly_inserted` its growth; with UUIDs throughout it fails exactly if the fault hits one of the ceil(n/2000) statements, as a data error for a refused value and as a connection error for a break |
| Store.RawTelemetry.PersistBatch | worker/persistence.py:119-207 | all or nothing under every fault; the count is the growth of the table; each new row holds the id, source, icao24, collector_id, ingested_at and payload of an event of the batch, old rows stay; with UUIDs throughout it succeeds exactly if no fault hits it; an error leaves the batch absent, or whole when only the acknowledgement was lost |
| Processor.NormalizeEvents | worker/processor.py:39-50 | the loop normalises every event, in order: a ground flag that is there is kept, a missing one is true at altitude 0 or below, false above and stays missing without an altitude, nothing else changes |
| Processor.DedupeEvents | worker/processor.py:53-77 | the loop with its `seen` set keeps the first occurrence of every identity, in order |
| Processor.DedupeDistinct | worker/processor.py:64-77 | no identity survives twice |
| Processor.DedupeCovers | worker/processor.py:64-77 | no identity is lost |
| Processor.DedupeKeepsFirsts | worker/processor.py:64-77 | when every dropped event repeats an earlier UUID, dedupe keeps the first event of every UUID |
| Processor.DedupeInvisibleIff | worker/processor.py:53-77 | for any ids, dedupe and sort are invisible in every store if and only if each dropped event repeats an earlier UUID and each UUID kept is first spelled with its least text |
| Processor.DedupeInvisible | worker/processor.py:103-118 | if equal identities carry equal ids and first spellings are least, the job stores the map and reports the count of inserting the raw normalised batch row by row |
| Processor.RepeatedIdentityLosesRow | worker/processor.py:67 | two events without `last_contact` and with distinct ids: one row is stored where two were sent |
| Processor.ProcessTelemetryBatch | worker/processor.py:80-143 | every outcome of an attempt with what it leaves in the table; each new row is, column by column, that of an event of the payload with the flag so filled in; dead-lettered exactly for invalid payloads; failed only for an id that is no UUID or a refused value; a retry only after a connection fault, with the backoff of its attempt |
| Processor.BackoffValues | worker/processor.py:28-36 | the delays are 2, 4, 8, 16 and 32 seconds, then 60 |
| Transactions.StepIsMonotone | worker/persistence.py:168-189 | no step of any transaction changes a batch, undoes a commit or removes a stored row |
| Transactions.RunKeepsInv | worker/persistence.py:168-189 | every run keeps: uncommitted keys are disjoint and absent from the table, counts match them, the table is the serial insertion of the committed batches |
| Transactions.Conservation | worker/persistence.py:168-189 | every interleaving equals the serial run in commit order, with the same count for each transaction; growth is the sum of `newly_inserted` over committed ones; the id set is the base and all committed batches |
| Transactions.CommittedBatchVisible | worker/persistence.py:168-189 | all ids of a committed batch are in the table |
| Transactions.LaterBatchInsertsNothing | worker/persistence.py:122-128 | a batch committed after one that covers its ids reports 0 |
| Transactions.CanonicalSortLockOrdered | worker/persistence.py:153-163 | with canonical ids the sorted batch takes its keys in increasing order |
| Transactions.WaitEdgeIncreases | worker/persistence.py:153-163 | a transaction that holds an awaited key and waits itself awaits a greater key |
| Transactions.DeadlockFreedom | worker/persistence.py:153-189 | in every reachable state of any number of ordered batches some unfinished transaction can step without an abort |
| Transactions.StepReducesWork | worker/persistence.py:182-189 | every step lowers the rows and statements still to be handled |
| Transactions.RunsFinish | worker/persistence.py:182-189 | a schedule that starts no transaction is no longer than that measure, so all runs finish |
| LockOrder.OrderedIsSafe | worker/persistence.py:153-163 | over any table and beside any number of ordered batches a batch whose attempted rows are ordered is never in a group of transactions that wait for each other |
| LockOrder.InversionDeadlocks | worker/persistence.py:153-163 | a batch that comes to take two keys out of order has a schedule of two calls, with an explicit ordered rival, that block each other |
| LockOrder.LockOrderExact | worker/persistence.py:153-163 | any batch is safe over every table in every company of ordered batches if and only if the rows it attempts are ordered: all rows if its ids are UUIDs, else the chunks before the first with an id that is none |
| LockOrder.CanonicalNeverDeadlocks | worker/persistence.py:153-189 | in no schedule of any number of `persist_batch` calls with canonical ids does any group of transactions wait for each other |
| LockOrder.UpperCaseDeadlocks | sql/001_raw_telemetry.sql:20-21 | two `persist_batch` calls, one with an upper-case id, have a schedule that ends with each waiting for the other |
| LockOrder.UpperCaseInstance | ingestion/schemas.py:28 | the same for two given id texts that the schema accepts |
| Jobs.GrowthAccounts | replay/fault_injection.py:475-482 | over all runs, growth is the reported sum plus what lost results inserted: never less, and equal if and only if no lost result inserted a row |
| Jobs.JobsAreAtomic | worker/processor.py:80-143 | a completed job's rows are all stored, the table is a serial insertion of whole batches, only invalid payloads are dead-lettered |
| Jobs.RedeliveryInsertsNothing | worker/persistence.py:122-128 | of two committed attempts at one job the later inserts nothing |
| Jobs.DrainedIdSet | worker/processor.py:113-143 | when all jobs are completed the id set is the base and all batches, whatever crashed or was redelivered |
| Jobs.ExhaustedExactly | worker/processor.py:119-132 | in every run a valid batch without a recorded result is never dead-lettered; it is Lost exactly when an attempt was killed by the timeout or failed otherwise, Exhausted exactly when it has been claimed once more than it may be tried, and waits or runs until then |
| Jobs.LostExactly | worker/persistence.py:63-66 | from any state a job ends lost if and only if it was or an attempt of it was killed: nothing brings it back |
| Jobs.KilledMidWrite | worker/persistence.py:63-66 | from rest, a job killed while its transaction is open leaves the table as it was and a state in which, without new jobs, no step is possible |
| Jobs.WearOut | worker/processor.py:119-132 | a run in which each of the attempts left begins one transaction on the whole batch and rolls it back ends Exhausted, with the table as it was and these as its only new transactions |
| Drain.RunAlone | worker/persistence.py:168-189 | left to itself a transaction commits its whole batch with the count of a row-by-row insert |
| Drain.Quiesce | worker/persistence.py:153-189 | from every state that any number of ordered transactions reach, all of them finish without an abort |
| Drain.CompleteQueued | worker/processor.py:80-143 | from a quiet state a queued job is claimed, stores its batch and completes with the counts of ProcessTelemetryBatch |
| Drain.DrainReachable | worker/processor.py:113-143 | from every reachable state with canonical ids, if the unfinished jobs are valid and have a claim left, some continuation completes them all and leaves the finished ones alone |
| Drain.PipelineDrains | worker/processor.py:113-143 | the same from every reachable state of the whole pipeline, by steps of the workers alone, whatever balancer and handlers were doing; with no job lost or exhausted all jobs are then completed |
| Drain.OutcomeIsRun | worker/persistence.py:119-207 | every outcome of one PersistBatch call, table and count, is a run of the transaction machine |
| Identity.IntTextInjective | collector/normalizer.py:82 | the decimal text of a timestamp determines it |
| Identity.IntTextReads | collector/normalizer.py:82 | read as a number the text gives the timestamp back, without leading zeros |
| Identity.IdTextSpelled | collector/normalizer.py:82 | the collector's and the replay's string at one input, spelled out |
| Identity.CollectorTextInjective | collector/normalizer.py:82-83 | for colon-free sources the hashed string determines source, icao24 (colons included) and timestamp |
| Identity.ColonInSourceCollides | collector/normalizer.py:82-83 | a source with a colon shares its string with another source |
| Identity.DifferentSaltsDisjoint | replay/player.py:90-91 | replay runs with different colon-free salts share no id string |
| Identity.FreshTextInjective | replay/player.py:90-91 | within a run the string determines the observation |
| Identity.FreshMeetsCollectorIff | replay/player.py:90-91 | a replay string equals a collector string exactly when the salt is that source and the rest coincides |
| Identity.CollectorIdIff | collector/normalizer.py:71-83 | collector ids are equal if and only if the observations are |
| Identity.CollectorBatchDedupes | worker/processor.py:53-77 | a collector batch with every `last_contact` present is deduplicated and sorted without a trace in any store, in map and count |
| Identity.UsableIndicesMeaning | collector/normalizer.py:124-128 | the entries kept are exactly those with an icao24 that is not empty, in order |
| Identity.NormalizeBatch | collector/normalizer.py:119-130 | one event per entry kept, in order, every field from the entry's own, with the hash of its observation as id, or the random id drawn for it when it has no `last_contact` |
| Identity.StripMeaning | collector/normalizer.py:67-68 | stripping cuts off nothing but characters to drop and leaves none at either end |
| Metrics.LastNPush | load_balancer/metrics.py:39-43 | trimming after every append keeps the last n of everything appended |
| Metrics.Metrics.RecordRequest | load_balancer/metrics.py:29-43 | the counters move as recorded; total stays successes plus failures and the sum of selections; the window is the last 1000 latencies ever recorded |
| Metrics.Metrics.RecordHealthCheckFailure | load_balancer/metrics.py:45-47 | one more failure for that backend, nothing else changes |
| Metrics.NearestRank | load_balancer/metrics.py:49-67 | the percentile is a sample with at least pct% of the samples at or below it and fewer than pct% strictly below |
| Metrics.PercentileMonotone | load_balancer/metrics.py:61-67 | percentiles do not cross and stay within the samples |
| Metrics.Metrics.Snapshot | load_balancer/metrics.py:69-88 | sample count, average and percentiles are those of the last min(1000, total) latencies, in exact arithmetic; minimum and maximum are the least and the greatest of them; min <= p50 <= p95 <= p99 <= max and min <= average <= max; 0 when empty |
| Health.AutomatonIsSummary | load_balancer/health.py:99-133 | state and pass counter are a closed function of the history: passes since the last failure against max(2, recoveries_required) |
| Health.HealthyAfterFailure | load_balancer/health.py:102-119 | a backend that failed is HEALTHY exactly when enough passes end its history, all of them after that failure |
| Health.HealthChecker.CheckOne | load_balancer/health.py:87-119 | appends the result to that backend's history, keeps the dictionaries at the status the history leads to, and counts a failed check and only that |
| Health.HealthChecker.ApplyResult | load_balancer/health.py:99-119 | the branches under the lock follow the history |
| Health.HealthChecker.MarkUnhealthy | load_balancer/health.py:121-133 | acts as a failed check on that backend alone |
| Health.HealthChecker.HealthyBackends | load_balancer/health.py:139-144 | exactly the backends that never failed or have passed often enough since |
| Router.RoundRobinRouter.NextBackend | load_balancer/router.py:29-51 | the bounded search picks the first healthy URL from the cursor, or None exactly as the specification does, and leaves the cursor just after it |
| Router.SelectServesHead | load_balancer/router.py:44-51 | with some URL healthy the search never falls through: it serves the head of the healthy order and moves it to the end |
| Router.ServeIsRoundRobin | load_balancer/router.py:26-51 | from any cursor position the calls are textbook round robin over the healthy URLs |
| Router.ExactFairness | load_balancer/router.py:26-51 | every window of as many calls as there are healthy backends returns each exactly once |
| Router.CountsBalanced | load_balancer/router.py:26-51 | over any run the selections of two healthy backends differ by at most one |
| Router.NoStarvation | load_balancer/router.py:40-50 | however the others' health changes, a backend in every snapshot is chosen within n calls |
| Balancer.MetricsAccounting | load_balancer/server.py:141-211 | over all runs total = forwards + 503s = successes + failures = selections; each backend's selection count is the number of recorded forwards to it, that of "none" the 503s; retried = forwards less the requests that forwarded at all |
| Balancer.OutcomesCounted | load_balancer/server.py:141-211 | over all runs successes are the requests answered below 500; failures are those answered from 500 on, the 503s and the recorded forwards that broke |
| Balancer.HealthAccounting | load_balancer/server.py:164-184 | over all runs a backend's health events are the passing and the failing probes of it and the forwards to it that broke; an answer, whatever its status, marks nobody |
| Balancer.ReforwardSafety | load_balancer/server.py:137-184 | at most 1 + MAX_RETRIES forwards, one if unsafe; a failed backend is tried again only after max(2, recoveries_required) passes between its failure and the new decision, and with no more healthy backends than were tried |
| Balancer.AttemptsAccounted | load_balancer/server.py:141-211 | over all runs every attempt is a forward or is skipped because its backend had been tried while more backends were healthy than tried; 502 only when all attempts are spent and every forward broke, 503 only before; an answer comes from the last forward alone |
| Balancer.DistinctWithoutRecovery | load_balancer/server.py:152-156 | after any run, a request during whose time no backend passes as many probes as a recovery takes never tries one backend twice |
| Balancer.SafeToRetryIff | load_balancer/server.py:101-107 | a request may be retried exactly if its method is, up to case, GET, PUT, DELETE, HEAD or OPTIONS or a header is, up to case, Idempotency-Key |
| Server.LoadBalancer.Proxy | load_balancer/server.py:101-211 | the loop over the real objects, with health results between any two steps, extends the run so far, leaves earlier requests alone and is a run of the balancer model with these tries and this response; the forwards ended as the outcomes say; the five safe methods or the key header, in any case, decide whether it may retry, and a POST or a PATCH without the header is forwarded once at most |
| Ingestion.OneJobPerKey | ingestion/routes.py:69-140 | requests handled one at a time: those with one key enqueue one job among them if the key is new and any is valid, otherwise none |
| Ingestion.RepeatOnSameInstance | ingestion/routes.py:74-78 | a keyed request handled again after the first was finished gets the same answer, which lists the ids of its events, and no second job, whatever requests were handled in between |
| Idempotency.HandlerIsPost | ingestion/routes.py:69-140 | the handler taken apart into lookup, enqueue and store does, when nothing interrupts it, to cache, queue and response what PostTelemetry does in one piece |
| Idempotency.LookFindsIff | ingestion/routes.py:74-78 | in every run a handler finds the response exactly when its request is keyed, another handler of it stored it on that instance before, and the instance has not restarted since; without the header or with an empty one it never does |
| Idempotency.RepeatEnqueuesIff | ingestion/routes.py:74-138 | in every run a handler of a valid request never enqueues, whatever follows, if and only if the request is keyed and it looks after such a store |
| Idempotency.OverlapReachable | ingestion/routes.py:74-138 | from the start, one client with the header (empty or not), one instance and one retry reach two jobs for one request; the instance passes two probes in between |
| Delivery.JobsPerRequest | load_balancer/server.py:135-184 | jobs of a request never exceed its forwards, those never exceed 1 + MAX_RETRIES, or one without the header; it is answered 200, 422 or 500, a 200 means there is a job and a 422 an invalid body |
| Delivery.HeaderDecides | load_balancer/server.py:101-107 | for the POST of a batch the balancer's decision is whether the header is there, whatever its value, as the pipeline model has it |
| Idempotency.KeyedIff | ingestion/routes.py:74 | the endpoint takes a request to be keyed exactly if the header has a value |
| Delivery.RetryTransparency | ingestion/routes.py:74-140 | in every reachable state the id set lies between the base and a single delivery of every queued request, and once all jobs are done it is that delivery, requests answered 200 included, however often retried and on whichever instances |
| Delivery.EveryBatchOnce | worker/persistence.py:182-189 | for any number of clients and in every reachable state the table, payloads included, is the serial row-by-row insertion of queued requests in some order, none twice, those of all completed jobs among them; once all jobs are done, of each queued request exactly once |
| Delivery.OneClientOneInsert | worker/persistence.py:182-189 | so one client's batch, enqueued any number of times, leaves the very table of one row-by-row insert |
| Delivery.StoredRowsWereSent | worker/persistence.py:94-116 | in every reachable state each row beyond the base is, column by column, that of an event some client sent in a request that reached the queue |
| Replay.Chunk | replay/player.py:109-111 | the generator yields ceil(n/size) slices that concatenate to the fixture; size 0 is an error, a negative size yields none |
| Replay.PrepareBatch | replay/player.py:114-139 | replay mode passes events through; fresh mode changes the id and the ingestion time of each event and nothing else; the id is the hash of the salted observation, or the random one drawn without a `last_contact` |
| Replay.FreshIdsAreFresh | replay/player.py:71-91 | fresh ids repeat exactly where salt and observation do, and are no collector's ids unless the salt is its source |
| Replay.Collect | replay/player.py:221-238 | in every completion order the totals are those of the batches in submission order |
| Replay.NothingUnaccounted | replay/player.py:207-238 | events of accepted and of failed batches are together the fixture |
| Replay.RunReplay | replay/player.py:181-251 | batches sent are ceil(n/size); events sent are the events whose batch (position / size) was accepted, failed batches those that were not, and events sent plus those of failed batches are the fixture; an empty fixture or a zero size ends without a summary |
| Facts.StatusValues | dbt/models/intermediate/int_aircraft_activity.sql:51-67 | each activity status and each rate category holds exactly for its values of on_ground and vertical rate |
| Facts.TrimMeaning | dbt/models/staging/stg_opensky_states.sql:37-41 | trimming cuts off nothing but spaces and leaves none at either end |
| Facts.RoundedToCents | dbt/models/intermediate/int_aircraft_activity.sql:44-45 | the rounded velocity is the nearest hundredth, halves away from zero |
| Relational.GroupBySums | dbt/models/marts/mart_telemetry_quality.sql:82-88 | a sum totalled over the groups is the sum over all rows |
| Relational.GroupByConserves | dbt/models/marts/mart_telemetry_quality.sql:49-50 | and so is a filtered count |
| Relational.GroupApart | dbt/models/marts/mart_telemetry_quality.sql:64-70 | pairs within a group are exactly the pairs of rows with that key |
| Relational.NoFanOut | dbt/models/marts/mart_telemetry_quality.sql:120-122 | a left join on a key of its right side keeps every left row once, in place |
| Relational.FullJoinKeepsRight | dbt/models/marts/mart_telemetry_quality.sql:116-119 | a full outer join in which no right row meets two left rows keeps every right row once |
| QualityMart.MartConserves | dbt/models/marts/mart_telemetry_quality.sql:18-122 | total observations sum to the number of stored rows, extraction cycles to the log rows, reported records to the log's, and so for every filtered count |
| QualityMart.FactColumnsOfRow | dbt/models/marts/mart_telemetry_quality.sql:24-50 | in each row every column from the facts counts the facts of the row's own window that meet its condition, written out |
| QualityMart.ExtractionColumnsOfRow | dbt/models/marts/mart_telemetry_quality.sql:74-90 | in each row the extraction columns are those of the log rows of its window, null exactly where there are none; the reported records are null exactly where none has a count |
| QualityMart.EachWindowOnce | dbt/models/marts/mart_telemetry_quality.sql:92-122 | the mart's windows are those of facts and log, each exactly once, the null one included although null meets nothing |
| QualityMart.ObservationTextInjective | dbt/models/marts/mart_telemetry_quality.sql:68 | the concatenated text tells observations apart even if icao24 contains the separator |
| QualityMart.RetryDuplicates | dbt/models/marts/mart_telemetry_quality.sql:62-104 | the column is null exactly without facts or timestamps, never negative, and 0 exactly when no two facts of the window report one observation |
| QualityMart.DuplicatesAreVariants | dbt/models/marts/mart_telemetry_quality.sql:54-61 | over collector rows with unique ids it is positive exactly when one observation is stored under two sources or two icao24 spellings |
| QualityMart.NoRetryDuplicates | dbt/models/marts/mart_telemetry_quality.sql:104 | one source and normal icao24 text force 0 in every window with observations |
| QualityMart.TwoSourcesLookLikeARetry | dbt/models/marts/mart_telemetry_quality.sql:104 | two sources reporting one observation make the column positive though nothing was retried |
| QualityMart.ConcurrentRunsReportNoDuplicates | dbt/models/marts/mart_telemetry_quality.sql:54-61 | over any table of rows of one collector source and after any interleaving of its batches, repeated or not, the mart built on the table reports 0 |
| QualityMart.PipelineReportsNoDuplicates | dbt/models/marts/mart_telemetry_quality.sql:54-61 | the same in every reachable state of the whole pipeline: forwards repeated, batches enqueued twice, jobs redelivered or lost |
| AircraftMart.DimRows | dbt/models/marts/core/dim_aircraft.sql:21-56 | the self-join yields one row per icao24 with the aggregates of its rows and the callsign and country of its picked row |
| AircraftMart.DimensionDoesNotFanOut | dbt/models/marts/mart_aircraft_activity.sql:54-59 | the join to the dimension keeps the hourly aggregates row by row |
| AircraftMart.MartShowsLatest | dbt/models/marts/mart_aircraft_activity.sql:54-59 | every hourly row finds its aircraft and shows its latest callsign and country |
| AircraftMart.CountsAgree | dbt/models/marts/core/dim_aircraft.sql:27 | an aircraft's observation count is the number of its facts and the total of its hourly counts |
| AircraftMart.SourcesCounted | dbt/models/marts/core/dim_aircraft.sql:28 | its source count is the number of different sources among its facts |
| AircraftMart.SightingsAreExtremes | dbt/models/marts/core/dim_aircraft.sql:25-26 | its first and last sighting are the least and the greatest `last_contact_at` of its facts |
| AircraftMart.LastSightingAgrees | dbt/models/marts/core/dim_aircraft.sql:26 | its last sighting is the greatest of its windows' last sightings |
| AircraftMart.FirstSightingAgrees | dbt/models/marts/core/dim_aircraft.sql:25 | its first sighting is the least of its windows' first sightings |
| AircraftMart.LatestIsLastSeen | dbt/models/marts/core/dim_aircraft.sql:36-45 | whatever the tie-break, the latest callsign and country come from a row seen at `last_seen_at` |
| AircraftMart.StatusColumns | dbt/models/marts/mart_aircraft_activity.sql:41-44 | down the rows of one aircraft each of the four status columns totals the aircraft's facts with that status |
| AircraftMart.SlotColumns | dbt/models/marts/mart_aircraft_activity.sql:27-50 | each row's count, status columns and first and last sighting are those of the facts of its aircraft and its hour |
| AircraftMart.StatusesAccountForAll | dbt/models/marts/mart_aircraft_activity.sql:41-44 | the four status counts fall short of the observation count by exactly the rows with one of the two uncounted statuses |

## Left out

- Store.RawTelemetry.PersistBatch: which values other than ids PostgreSQL refuses (the text of a timestamp, a NUL character) is not modelled; a refusal is the fault StatementRefused of the call.
- Processor.ProcessTelemetryBatch: the same; a refusal ends the attempt as Failed.
- Transactions.DeadlockFreedom: needs the rows each batch attempts to be lock-ordered, which canonical ids give (LockOrder.CanonicalNeverDeadlocks) and LockOrder.LockOrderExact shows to be necessary.
- Transactions.Conservation: reads at PostgreSQL's default isolation are the steps' reads of the committed table; other isolation levels and a lost server are not modelled.
- Jobs.GrowthAccounts: the harness reads count and results at different instants and also requires a number of jobs (replay/fault_injection.py:477-479); the theorem is about one instant.
- Metrics.Metrics.Snapshot: latencies are exact reals; the rounding to two decimals and binary floating point are not modelled.
- Balancer.SafeToRetryIff: upper- and lower-casing are ASCII; a method or header name with other letters is compared as it is.
- Server.LoadBalancer.Proxy: one call of the loop with health results in between; concurrent calls are interleaved in Balancer, where the theorems are.
- Ingestion.OneJobPerKey: about requests handled one at a time; overlapping ones are the subject of Idempotency.RepeatEnqueuesIff.
- Idempotency.RepeatEnqueuesIff: each client request has a key of its own, as collector/producer.py mints one per batch; a client that reuses a key for another batch is not modelled.
- Drain.OutcomeIsRun: a call that fails before its transaction begins is shown as one that begins and rolls back; an empty batch begins none.
- Identity.NormalizeBatch: fields are typed; whitespace stripped from callsigns is ASCII; OpenSky arrays shorter than their fields read as nulls.
- AircraftMart.DimRows: averages, `mode()`, altitude and velocity aggregates are not modelled.
- QualityMart.MartConserves: averages, percentiles and freshness are not modelled; `velocity_kmh` is rounded exactly, not through binary floating point.
- UUID spellings other than 8-4-4-4-12 with hyphens (braces, no hyphens), which PostgreSQL also accepts.
- The SQL text that `_build_multi_row_insert` writes; a statement is the sequence of rows it carries.
- The extraction-log job and endpoint, which have the shape of the telemetry ones.
- Header filtering, bodies, timeouts and the 404 and health endpoints; the time a probe takes before the lock is any number of steps.
- Schema validation is one bit of a payload; JSON and pydantic details are not modelled.
- The dead-letter list's contents in Redis, queue order and job expiry.
- Pacing, thread-pool size and durations of the replay player; its events carry every field.
- collector/opensky_client.py, collector/producer.py, replay/export_fixture.py, replay/report.py, ingestion/app.py, worker/consumer.py and the process control in replay/fault_injection.py: calls, sleeps and wiring.
- dbt/models/marts/mart_airspace_activity.sql and the dbt tests, which repeat group-by conservation.
