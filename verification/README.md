# Correctness of the commerce platform, in Dafny

This project models the parts of the platform that have to stay right when things fail: the
CDC materializer, the watermark protocol of the polled pipeline with its publisher, the order
stream, and the incremental marts. Each part is a state machine whose runs include crashes,
replays and skipped steps, and each is proved to leave the tables that a simple computation
from scratch would give.

Run `dafny verify dfyconfig.toml` to check everything.

## How it is organised

| file | what it covers |
|---|---|
| `Prelude.dfy`, `Aggregates.dfy` | option and result types, keys; SUM and MAX |
| `CdcStore.dfy` | Bronze and Silver, the (LSN, offset) guard, the live view |
| `CdcMaterializer.dfy` | the materializer as it runs: transaction, batch loop, offset commit, poll loop |
| `CdcGuard.dfy` | the same by columns: what is stored, refused and shown, and the guard in plain comparisons |
| `CdcSystem.dfy`, `CdcTheorems.dfy` | the log, compaction, consumers and crashes; what holds in every run |
| `CdcConvergence.dfy` | from source histories through an at-least-once topic to `customers_current` |
| `Watermarks.dfy`, `WatermarkRuns.dfy` | one polled table; whole histories of runs, backfills, sinks and the barrier |
| `CommittedRuns.dfy` | undisturbed runs reach their barrier; a history in which a candidate falls below its watermark |
| `PipelineTasks.dfy`, `Publisher.dfy` | the extract, commit and publish tasks as they run |
| `OrderEvents.dfy`, `OrderStream.dfy` | the event, its validity rule, and the three-sink micro-batch |
| `StreamAudit.dfy` | which Kafka record each history row and dead letter comes from, and what it keeps |
| `Publication.dfy` | the watermark protocol, the producer's log, the topic and the stream composed |
| `SalesView.dfy`, `TemporalJoin.dfy` | the sales queries of both engines, the high-water delta, the customer join |
| `FactSales.dfy`, `DailySales.dfy`, `ForgottenDay.dfy` | the dbt marts, stale days and the exact condition for the daily one, and its failure |
| `IcebergSales.dfy`, `Warehouse.dfy` | the lakehouse table and the dbt tables as they are updated in place |
| `MartRuns.dfy` | whole histories of loads and mart runs |

Operations that change state are class methods proved equal to a specification function;
the lemmas are about that function and about all runs made of it. Pure queries are functions.

## Assumptions

- A customer key stays on one partition, the record key equals `after.customer_id`, and LSNs do
  not decrease along one customer's source history (`CdcSystem.WellKeyed`,
  `CdcConvergence.ValidHistory`).
- A source commit to a polled table carries an `updated_at` above everything captured from the
  table, and above the staged image of its own row (`Watermarks.AboveCaptured`). The repository
  accepts late rows as a risk (`ROADMAP.txt`, lines 62-68).
- At most one DAG run is active, and a database transaction, a Kafka partition and a Spark offset
  range behave as the code relies on.
- Each staging upsert has a load time above all earlier ones, and a payment does not change its
  order (`MartRuns.Next`). `SalesView.MovedPaymentIsMissed` shows what happens otherwise.
- Fact runs and lakehouse jobs run on staging tables whose items all name a staged order
  (`SalesView.Related`): the DAG validates that before them
  (`airflow/dags/ecommerce_pipeline.py`, lines 310-369).
- Customer versions have unique keys and disjoint ranges when they are joined.
- UUIDv5 (section 5.5 of RFC 9562) and SHA-256 are injective. Validity follows the boolean
  operators of ISO/IEC 9075-2.

## What turned out false

- The candidate watermark can fall below the watermark after a source delete
  (`CommittedRuns.CandidateCanFall`; `Watermarks.CandidateReachesWatermark` is the exact condition).
- While the connector emits old changes again, a customer can fall back if its changes share an LSN
  (`CdcConvergence.EqualLsnsFallBack`; `CdcConvergence.ViewLagsExactly` is the exact condition).
- A deleted customer can stay live for good if compaction removes the delete before it is read
  (`CdcConvergence.DeletedCustomerStaysLive`; `CdcTheorems.CompactedView` is the exact condition).
- The fold alone leaves attributes of deleted customers that depend on arrival
  (`CdcStore.DeletedAttributesDependOnOrder`; `SilverAttributesByArrival` says what they are). Partitions
  are read in order, so reachable states do not show it (`CdcTheorems.SilverIsRebuildable`).
- The daily mart forgets a day if a moved item is merged again before the daily model runs, and
  later runs do not repair it unless the day is affected again (`ForgottenDay.DailyKeepsMonday`,
  `ForgottenDay.SecondRunDoesNotRepair`; `MartRuns.StaleDaysEvolve` and
  `MartRuns.DailyIsExactInHistory` are the exact condition).
- An order event without a type or schema version reaches neither history nor dead letters,
  although the comment at `spark/jobs/order_stream.py`, lines 102-103, keeps unsupported events
  (`OrderEvents.UntypedEventIsDropped`; `Routing` is the exact condition).
- dbt calls an order with a completed payment and a payment without a status paid, Spark calls it
  partially paid (`SalesView.UnknownAttemptSplitsEngines`; `SalesView.StatusesAgree` is the exact
  condition). The source forbids such a payment (`postgres/init/001_schema.sql`, line 89), the staging
  table does not.
- A payment that moves to another order can change a sales row without making it newer
  (`SalesView.MovedPaymentIsMissed`; `SalesView.MovedPaymentsExactly` is the exact condition).

## Model

| member | source | states |
|---|---|---|
| `CdcStore.ViewIsNewestBronzeEvent` | postgres/sql/003_cdc_customer_layers.sql:61-71 | Whenever Silver projects Bronze, a customer's live row is the payload of the Bronze data event with the greatest (LSN, offset); the row is absent iff that event is a delete or there is none |
| `CdcStore.ApplyBatchKeepsProjection` | cdc/materialize_customers.py:148-243 | Every batch keeps the relation between the two layers: each Silver row carries the position of its customer's greatest Bronze event and is deleted iff that event is a delete |
| `CdcStore.SameBronzeSameView` | postgres/sql/003_cdc_customer_layers.sql:1-5 | Equal Bronze implies equal live views, equal Silver keys and equal Silver rows up to the attributes of deleted customers |
| `CdcStore.BatchOutcome` | cdc/materialize_customers.py:261-290 | A batch is stored whole iff each of its records is acceptable, and then Bronze gains exactly its records, once each |
| `CdcStore.ArrivalOrderIrrelevant` | cdc/materialize_customers.py:206-207 | Two batches with the same records in any order and with any repetition succeed together, give the same Bronze, and give the same live view when no customer is split over partitions |
| `CdcStore.OlderEventsNeverApply` | cdc/materialize_customers.py:158-159 | Any sequence of events not newer than a Silver row leaves the row as it is, so an old event never revives a deleted customer |
| `CdcStore.SilverAttributesByArrival` | cdc/materialize_customers.py:219-243 | For every arrival order, which attributes a Silver row has, deleted or not: those of the last upsert that beat all data events about the customer before it, else NULLs |
| `CdcStore.DeletedAttributesDependOnOrder` | cdc/materialize_customers.py:220-222 | Of the fold alone, order independence fails for deleted rows: create then delete keeps the name, delete then create has NULLs, with the same Bronze and view; in-order reading rules the second order out |
| `CdcStore.SplitKeyDependsOnOrder` | cdc/materialize_customers.py:206-207 | With one customer on two partitions the (LSN, offset) guard can tie and the live view depends on arrival |
| `CdcGuard.BronzeIsEvidence` | cdc/materialize_customers.py:117-145 | From empty tables a batch is stored whole iff no record is refused; Bronze then has a row for exactly the coordinates of the batch, with the key, operation, LSN, source time, transaction id, before and after image of its record |
| `CdcGuard.FirstRefusalAborts` | cdc/materialize_customers.py:114-174 | The error of a batch is what its first refused record raises, by columns: no key, an operation outside r, c, u, d and t, no LSN, no after image, no customer in it |
| `CdcGuard.RowIsGreatestReport` | cdc/materialize_customers.py:206-207 | After any accepted batch a customer has a Silver row iff some record reports the customer, and the row is that of the report with the greatest LSN and, among those, the greatest offset, in plain integers |
| `CdcGuard.ViewIsGreatestReport` | postgres/sql/003_cdc_customer_layers.sql:61-71 | The view then shows the after image of that report, or nothing if it is a delete |
| `CdcGuard.BatchNeverLowers` | cdc/materialize_customers.py:239-240 | On top of any tables no batch removes a Silver row or lowers its LSN, or its offset at an equal LSN |
| `CdcGuard.LsnNeverFalls` | cdc/materialize_customers.py:158-159 | Nor does any stretch of any run, through crashes, replays, rebalances and compaction |
| `CdcMaterializer.Connection.InsertBronze` | cdc/materialize_customers.py:103-145 | An unsupported operation is rejected without a write, a known offset returns false and changes nothing, a new offset adds exactly the record's evidence row |
| `CdcMaterializer.Connection.ApplySilver` | cdc/materialize_customers.py:148-243 | The guarded upsert or delete in place equals the Silver fold, and every error path leaves Silver as it was |
| `CdcMaterializer.Connection.PersistRecord` | cdc/materialize_customers.py:272-288 | One loop iteration: key check, Bronze insert, Silver fold only for a new Bronze row |
| `CdcMaterializer.CommitOffsets` | cdc/materialize_customers.py:246-258 | The maximum loop names exactly the partitions of the batch and for each one past its greatest offset, then commits them in one call that may fail |
| `CdcMaterializer.AcknowledgesIsUnique` | cdc/materialize_customers.py:248-251 | The offsets of a batch are determined: no other map acknowledges it |
| `CdcMaterializer.ProcessBatch` | cdc/materialize_customers.py:261-294 | An error aborts the whole batch and moves neither tables nor offsets; otherwise the tables are the fold of the batch, the two counters partition its records, and only the offsets lag when the acknowledgement fails |
| `CdcMaterializer.PersistBatch` | cdc/materialize_customers.py:271-288 | The row loop equals the fold, stops at the first bad record with its error, and counts new and duplicate rows |
| `CdcMaterializer.FailureIsFinal` | cdc/materialize_customers.py:268-275 | Once a prefix of a batch fails, the batch fails with the same error |
| `CdcMaterializer.ValidMessages` | cdc/materialize_customers.py:344-352 | End-of-partition markers are skipped, any other consumer error ends the process, all records are kept in order |
| `CdcMaterializer.RecordsInPollOrder` | cdc/materialize_customers.py:344-352 | The k-th record handed on is the k-th message of the poll, tombstones included: none is dropped, invented or moved |
| `CdcMaterializer.PollLoop` | cdc/materialize_customers.py:342-381 | For every sequence of polls: tables and offsets are those of the whole batches before the first error, and on a clean stop the printed totals are the new rows and the replayed records |
| `CdcSystem.NextInv` | cdc/materialize_customers.py:290-294 | The system invariant (Bronze comes from the log and has no gaps below any committed offset, Silver is the in-order fold of Bronze) survives production, polling with a crash on either side of the offset commit, restarts, compaction and a second consumer moving a committed offset backwards |
| `CdcSystem.RunInv` | cdc/materialize_customers.py:261-294 | So it holds in every state of every run |
| `CdcTheorems.OffsetSafety` | cdc/materialize_customers.py:290-293 | In every reachable state every retained log record below a committed offset is in Bronze, as that record |
| `CdcTheorems.ViewInEveryState` | postgres/sql/003_cdc_customer_layers.sql:59-71 | In every reachable state a live row is the payload of the newest Bronze event, and is absent after a delete |
| `CdcTheorems.SilverIsRebuildable` | postgres/sql/003_cdc_customer_layers.sql:4-5 | Reachable states with the same Bronze have the same Silver, attributes of deleted customers included |
| `CdcTheorems.ExactlyOnce` | cdc/materialize_customers.py:290-294 | Two runs over one log, with any batches, crashes, replays and rebalances, have identical tables once they have read it, and Bronze is then exactly the log |
| `CdcTheorems.DrainedIsRead` | cdc/materialize_customers.py:290-294 | When the committed offsets are at the end of every partition, every retained record has been read |
| `CdcTheorems.SameRecordsSameTables` | cdc/materialize_customers.py:290-294 | Reachable states that have stored the same records of one log, in the middle of it too, have identical tables |
| `CdcTheorems.CrashFreeRunAgrees` | cdc/materialize_customers.py:271-294 | A run with crashes that has stored exactly the log below some offsets has the tables of one uninterrupted batch up to them |
| `CdcTheorems.ReadLogIsOneBatch` | cdc/materialize_customers.py:271-294 | A run with crashes that has read the log has the tables of one batch over the whole log |
| `CdcTheorems.NewestReadDecides` | cdc/materialize_customers.py:206-207 | Once the newest event of the log about a customer is in Bronze, the live view shows it |
| `CdcTheorems.CompactionTransparent` | cdc/bootstrap.py:217-228 | For a customer whose newest record is a data event with the customer's greatest LSN, the view shows that event once the customer's retained events are read, whatever compaction removed and whenever |
| `CdcTheorems.ViewIsFrozen` | cdc/bootstrap.py:227-228 | With nothing about a customer left to read and nothing new written, its live row never changes again |
| `CdcTheorems.CompactedView` | cdc/bootstrap.py:217-228 | From any state on after which no data event about a customer is written or lost unread: once the rest is read, the customer is missing from the view iff the newest event read or retained in that state is a delete, or there was none |
| `CdcTheorems.CompactedDelete` | cdc/bootstrap.py:197-228 | For a customer ending in a delete: read or retained, the delete is honoured; removed before it was read, the customer is live iff the newest event left to the reader is not a delete |
| `CdcConvergence.CustomersConverge` | cdc/reconcile_customers.py:26-47 | For every source history, every at-least-once re-emission, every batch split and every crash or replay: once the connector has caught up and every record is read, customers_current equals the source table |
| `CdcConvergence.ViewByEmission` | cdc/materialize_customers.py:206-207 | However far the connector got and wherever it rewound to: the view of a customer in a fully read topic is the effect of the emitted change with the greatest LSN, the last emission of those that share it, and a customer never emitted is absent |
| `CdcConvergence.ViewLagsExactly` | cdc/materialize_customers.py:158-159 | For a connector that is behind or rewinding: the view of a fully read topic equals the source table up to the furthest change ever emitted iff of each customer the last emission with the greatest LSN has the effect of the last change |
| `CdcConvergence.ConvergesWhileRewound` | cdc/materialize_customers.py:158-159 | With LSNs strictly rising along a customer that always holds, also while old changes are being emitted again |
| `CdcConvergence.EqualLsnsFallBack` | cdc/materialize_customers.py:206-207 | A create and a delete with one LSN: the condition fails after the create is emitted again, and holds again after the delete is |
| `CdcConvergence.LiveKeysConvergeUnderCompaction` | cdc/reconcile_customers.py:26-47 | On a compacted topic the same holds for every customer that the source has or never had, once the customer's retained events are read |
| `CdcConvergence.DeletedCustomerStaysLive` | cdc/materialize_customers.py:161-162 | A concrete drained, caught-up run in which compaction removed a delete before it was read: the reader skips the tombstone and the deleted customer stays live |
| `Watermarks.CommitInv` | ROADMAP.txt:62-68 | A source commit above everything captured keeps the staging invariant: staged rows trail their source rows, and rows up to the watermark and the candidate are staged as they are |
| `Watermarks.LoadCopiesWindow` | airflow/dags/ecommerce_pipeline.py:102-149 | By column names: each source row of the window is staged with its time and its listed columns, a payment's status under payment_status, and no others; all other staged rows stay. The candidate becomes the greater of itself and the upper bound |
| `Watermarks.DeleteInv` | airflow/dags/ecommerce_pipeline.py:118-132 | A source delete keeps it too: the extract never removes staged rows |
| `Watermarks.UpsertInv` | airflow/dags/ecommerce_pipeline.py:115-149 | The staging upsert keeps it even if the source moved on after the window was captured |
| `Watermarks.UpsertCaptures` | airflow/dags/ecommerce_pipeline.py:88-100 | What was captured stays captured, and an incremental extract captures every source row up to its upper bound |
| `Watermarks.PromoteInv` | airflow/dags/ecommerce_pipeline.py:472-486 | Promotion keeps it and never lowers the watermark |
| `Watermarks.CandidateReachesWatermark` | airflow/dags/ecommerce_pipeline.py:95-98 | The candidate is at least the watermark after an extract iff the earlier candidate was, or the source is empty or still has a row at or above the watermark |
| `Watermarks.BackfillsCompose` | airflow/dags/ecommerce_pipeline.py:86-92 | Backfilling [a,b) and then [b,c) equals backfilling [a,c) |
| `Watermarks.BackfillRepeats` | airflow/dags/ecommerce_pipeline.py:55-57 | Repeating a backfill on an unchanged source changes nothing, and no backfill touches a mark or the source |
| `Watermarks.BackfillBelowWatermarkIsNoOp` | airflow/dags/ecommerce_pipeline.py:88-92 | A backfill behind the watermark finds every staged row already as the source has it |
| `WatermarkRuns.ValidateRunConfig` | airflow/dags/ecommerce_pipeline.py:178-194 | A backfill starts iff both bounds are given and the start is before the end, and then its window is exactly [start, end); an incremental run ignores the bounds |
| `WatermarkRuns.NextInv` | airflow/dags/ecommerce_pipeline.py:490-518 | Source commits and deletes, failed and repeated extracts, validation, sinks in any order, the barrier and aborts at any point all keep the world invariant |
| `WatermarkRuns.NoRowLost` | airflow/dags/ecommerce_pipeline.py:102-149 | In every state of every history, for each polled table, a source row at or below the watermark equals its staged row, column by column |
| `WatermarkRuns.OnlyTheBarrierCommits` | airflow/dags/ecommerce_pipeline.py:440-486 | A watermark moves only at the barrier of an incremental run whose extracts and three sinks are done, then forward, for all four tables together with the candidates cleared; steps of a backfill leave the marks alone |
| `WatermarkRuns.SinksSeeValidTables` | airflow/dags/ecommerce_pipeline.py:310-369 | In every state of every history in which a sink may run, no staged table is empty, every staged item names a staged order and product, and every staged payment a staged order |
| `WatermarkRuns.WatermarksNeverDecrease` | airflow/dags/ecommerce_pipeline.py:472-486 | Over any part of any history of interleaved runs and backfills no watermark decreases |
| `WatermarkRuns.CommittedOrdersArePublished` | airflow/dags/ecommerce_pipeline.py:512-518 | In every state every staged order at or below the order watermark is in the topic as it is staged |
| `WatermarkRuns.AbortedRunIsRetried` | airflow/dags/ecommerce_pipeline.py:107-111 | A source row that is there when no run is active, for example after an abort, and stays there, is behind the watermark, staged and (an order) published as soon as an incremental barrier succeeds, whatever failed in between |
| `CommittedRuns.UndisturbedRunCommits` | airflow/dags/ecommerce_pipeline.py:488-518 | From every reachable world without an active run, whatever was aborted before, an incremental run can go through to its barrier if the loaded tables are valid; then every source row of all four tables is staged and behind its watermark |
| `CommittedRuns.DeleteLowersCandidate` | airflow/dags/ecommerce_pipeline.py:95-98 | In every history: deleting the only source row that reaches the watermark makes the next extract prepare a candidate below it, on a table that keeps the staging invariant |
| `CommittedRuns.CandidateCanFall` | airflow/dags/ecommerce_pipeline.py:476-479 | A history from empty staging in which that happens after a committed run; the next barrier promotes the fallen candidate and GREATEST keeps the watermark where it was |
| `PipelineTasks.EtlDatabase.SourceMax` | airflow/dags/ecommerce_pipeline.py:95-98 | COALESCE(MAX(updated_at), lower): an upper bound of the source that is attained, or the lower bound for an empty source |
| `PipelineTasks.EtlDatabase.CaptureWindow` | airflow/dags/ecommerce_pipeline.py:74-100 | Fails iff the table has no watermark row; otherwise the bounds are the backfill's, or the watermark and the source maximum |
| `PipelineTasks.EtlDatabase.LoadWindow` | airflow/dags/ecommerce_pipeline.py:115-149 | Staging and candidate of one table change together as specified: each source row of the window is copied column by column, every other staged row stays, a backfill leaves the candidate, and no other table changes |
| `PipelineTasks.EtlDatabase.ExtractIncremental` | airflow/dags/ecommerce_pipeline.py:50-149 | The two halves in sequence: the captured window is copied column by column; on failure nothing changes |
| `PipelineTasks.EtlDatabase.AdvanceWatermarks` | airflow/dags/ecommerce_pipeline.py:441-486 | A no-op for a backfill; otherwise it fails iff some candidate is missing, names exactly the tables without one and changes nothing, or promotes all four |
| `PipelineTasks.ExtractCapturesSource` | airflow/dags/ecommerce_pipeline.py:88-132 | After an extract with no commit in between, staging holds a copy of every source row |
| `Publisher.Producer.Produce` | kafka/producer/publish_orders.py:163-177 | BufferError exactly when the buffer is full, and then nothing was enqueued |
| `Publisher.Producer.Acknowledge` | kafka/producer/publish_orders.py:81-87 | A delivery without error moves the message from the buffer to the log and counts it, in balance with everything sent |
| `Publisher.Producer.Reject` | kafka/producer/publish_orders.py:81-87 | A failed delivery is recorded as an error and takes the message out of the buffer without touching the log |
| `Publisher.Producer.RejectWritten` | kafka/producer/publish_orders.py:81-87 | A failed delivery may have reached the log all the same; the books still balance |
| `Publisher.Producer.Enqueue` | kafka/producer/publish_orders.py:160-178 | The retry loop enqueues the message exactly once, however often the buffer was full, and drops none |
| `Publisher.Producer.SendRows` | kafka/producer/publish_orders.py:138-178 | One message per row, in row order, each the deterministic event of that row |
| `Publisher.BalanceAtEnd` | kafka/producer/publish_orders.py:180-188 | The log never grows by more than was sent; with an empty buffer and no error it grew by exactly that |
| `Publisher.Publish` | kafka/producer/publish_orders.py:89-189 | One bound of two, or a missing candidate, publishes nothing and says which; success means that the topic grew by exactly one message for each of the first rows of the query, up to the cap, and reports their number; failure means that it grew by no more than that |
| `Publisher.SuccessDelivers` | airflow/dags/ecommerce_pipeline.py:421-438 | A successful publish task with the DAG's command line leaves every staged order of the run's window in the topic |
| `OrderEvents.Routing` | spark/jobs/order_stream.py:104-111 | Under three-valued logic a record reaches at most one of history and dead letters, and neither exactly when no condition is violated and its type or schema version is NULL |
| `OrderEvents.UntypedEventIsDropped` | spark/jobs/order_stream.py:102-103 | An event without a type is kept by neither sink, unlike the stated rule that unsupported events are retained |
| `OrderEvents.PublishedReachesHistory` | kafka/producer/publish_orders.py:141-159 | Every published event reaches history, and parsing returns the published version and its deterministic id |
| `OrderStream.HoldsIsUnique` | spark/jobs/order_stream.py:200-205 | The facts and letters of a topic determine the business columns of the three tables |
| `OrderStream.DedupExists` | spark/jobs/order_stream.py:221-221 | dropDuplicates always has a representative set to choose |
| `OrderStream.LatestExists` | spark/jobs/order_stream.py:276-284 | Every set of valid rows has a newest row per order |
| `OrderStream.ChoicesExist` | spark/jobs/order_stream.py:221-284 | Every batch has representatives for history and, chosen independently, for current state |
| `OrderStream.AttemptInv` | spark/jobs/order_stream.py:206-211 | An attempt that dies after any of the three writes leaves each table at the checkpoint or exactly one batch ahead, in sink order, whether it appended or merged |
| `OrderStream.CheckpointIsExact` | spark/jobs/order_stream.py:241-338 | After any number of crashed attempts, the one that finishes leaves exactly the facts and letters of the consumed batches |
| `OrderStream.CrashConvergence` | spark/jobs/order_stream.py:374-376 | Two runs with any crashes agree at equal checkpoints on history, current state and dead letters |
| `OrderStream.CurrentRefersToHistory` | spark/jobs/order_stream.py:241-312 | At every crash point each current row's event and version are in history |
| `OrderStream.CurrentIsNewestInHistory` | spark/jobs/order_stream.py:296-312 | At every checkpoint each order in history has a current row, and it is the newest version in history |
| `OrderStream.NeverRollsBack` | spark/jobs/order_stream.py:296-297 | No attempt, replay or late event lowers the version of an order's current row |
| `OrderStream.OneRowPerFact` | spark/jobs/order_stream.py:261-274 | History has as many rows as distinct event versions |
| `StreamAudit.DeadLettersAreRecords` | spark/jobs/order_stream.py:314-337 | At a checkpoint the dead letters are exactly the consumed records that violate a condition of the validity rule, each with the coordinates and the raw value of its record |
| `StreamAudit.HistoryRowsAreRecords` | spark/jobs/order_stream.py:241-260 | At every crash point each history row is that of a usable record read so far, with the record's coordinates, key, event id, times and business columns |
| `StreamAudit.UsableRecordsAreInHistory` | spark/jobs/order_stream.py:241-274 | At a checkpoint every usable record consumed has a history row with its event id and business columns |
| `StreamAudit.EvidenceIsAppendOnly` | spark/jobs/order_stream.py:119-119 | Over any stretch of any run, crashes included, no row of history or of the dead letters is removed or changed |
| `OrderStream.IcebergSinks.CommitHistory` | spark/jobs/order_stream.py:241-274 | Append to an empty table or insert unmatched events |
| `OrderStream.IcebergSinks.CommitCurrent` | spark/jobs/order_stream.py:278-312 | Append to an empty table or replace rows that are not newer |
| `OrderStream.IcebergSinks.CommitDeadLetters` | spark/jobs/order_stream.py:314-337 | Append to an empty table or insert unmatched coordinates |
| `OrderStream.IcebergSinks.MergeBatch` | spark/jobs/order_stream.py:199-340 | For any representatives chosen for history, any others behind the newest rows, and a death after any number of commits, the tables are the specified partial result |
| `Publication.TopicIsGood` | kafka/producer/publish_orders.py:140-144 | What the stream needs of its topic (event ids name versions, one content per version) follows from the watermark protocol |
| `Publication.FactsOfTopic` | spark/jobs/order_stream.py:219-221 | A fully read topic has exactly the facts of the published versions, whatever foreign invalid records it contains |
| `Publication.ProjectionShowsStaging` | spark/jobs/order_stream.py:296-312 | After the barrier and a caught-up stream, current_orders holds for every staged order at or below the watermark exactly the staged version |
| `Publication.ProjectionShowsSource` | airflow/dags/ecommerce_pipeline.py:485-518 | End to end: a source order at or below the watermark is in current_orders, and the row has the source row's customer_id, status, total_amount, order_date and updated_at |
| `Publication.HistoryCountsVersions` | spark/jobs/order_stream.py:261-274 | order_events has exactly one row per version ever published, however often it was published |
| `Publication.HistoryTellsVersions` | kafka/producer/publish_orders.py:141-159 | At every crash point of a stream over the producer's log each history row tells of a published version: its id is that of the version, its message key the order and its event time the order date |
| `Publication.AppendsAreSteps` | kafka/producer/publish_orders.py:163-178 | Whatever a publish task does to the log is, append by append, a sequence of publish steps of the world |
| `Publication.PublishTask` | airflow/dags/ecommerce_pipeline.py:416-438 | The publish task run inside a history extends it to a history whose topic is the producer's log; on success the run may finish its topic sink |
| `Publication.LogIsTopic` | spark/jobs/order_stream.py:365-373 | Micro-batches that hold each message of the producer's log, and otherwise only invalid records, read the topic of the world |
| `Publication.SourceToProjection` | airflow/dags/ecommerce_pipeline.py:485-518 | The whole chain through the log: a source order at or below the watermark is in current_orders with those source columns |
| `SalesView.StatusesAgree` | dbt/models/intermediate/int_payments_by_order.sql:12-20 | Counting completed payments (Spark) classifies an order as bool_and/bool_or (dbt) do, except exactly when it has a completed payment, a payment without a status and no payment with another status |
| `SalesView.PaymentStatusOfSale` | dbt/models/intermediate/int_payments_by_order.sql:12-20 | By the staged payments of its order: a sale is unpaid iff none is completed; paid means for Spark that there is a payment and all are completed, for dbt that one is completed and so is every other with a status; else it is partially paid |
| `SalesView.ColumnsOfSale` | dbt/models/intermediate/int_sales_order_items.sql:7-34 | By the staged rows: a sale exists iff its item names a staged order; its amount is quantity times price, its attempts are the number of payments of the order, and its load time is the latest of order, item and payments |
| `SalesView.JoinKeepsGrain` | dbt/models/intermediate/int_sales_order_items.sql:35-40 | The three-way join returns one row per item iff the joined payment relation has at most one row per sold order |
| `SalesView.GroupingKeepsGrain` | spark/jobs/sales_batch.py:70-105 | Aggregating payments first keeps one row per item, in the dbt and in the Spark query |
| `SalesView.RawAttemptsMultiply` | dbt/models/intermediate/int_payments_by_order.sql:1-5 | Joining raw attempts instead would return each item once per payment of its order |
| `SalesView.QueryIsView` | dbt/models/intermediate/int_sales_order_items.sql:7-40 | Each query returns exactly the rows of its relation by item, no other row and none missing |
| `SalesView.RowsAgree` | spark/jobs/sales_batch.py:106-135 | Column by column, the two rows of an item agree in amounts, attempts and load time always, and in status outside the exceptional case |
| `SalesView.EnginesAgree` | spark/jobs/sales_batch.py:72-136 | The dbt and Spark queries return the same rows iff no sold order has a completed payment, a payment without a status and no payment with another status |
| `SalesView.UnknownAttemptSplitsEngines` | spark/jobs/sales_batch.py:82-90 | A concrete staging table with a payment without a status, which dbt calls paid and Spark partially paid |
| `SalesView.KnownStatusesAgree` | spark/jobs/sales_batch.py:82-90 | With a status on every payment, as the source demands, the queries always agree |
| `SalesView.ChangedRowsAreNew` | dbt/models/intermediate/int_sales_order_items.sql:25-34 | After any load, each row of the relation is unchanged or carries a load time at least the load's |
| `SalesView.MovedPaymentsExactly` | dbt/models/intermediate/int_sales_order_items.sql:25-34 | If payments may move: after a later load of payments, an item's row is unchanged or as new as the load iff a payment of the load is for the item's order or no payment leaves that order |
| `SalesView.MovedPaymentIsMissed` | dbt/models/intermediate/int_sales_order_items.sql:25-34 | A concrete payment that moves changes a row that then looks older |
| `SalesView.LoadFollows` | dbt/models/marts/fact_sales.sql:65-73 | A mart that has not run since still follows after a later load: what it misses is above its high water |
| `SalesView.DeltaCompletes` | dbt/models/marts/fact_sales.sql:45-75 | Merging the rows above the high water makes a following mart equal to the full relation |
| `SalesView.NothingNew` | spark/jobs/iceberg_sales.py:130-132 | An up-to-date mart has nothing to read |
| `TemporalJoin.GrainKept` | dbt/models/marts/fact_sales.sql:178-192 | The two left joins give exactly one row for a sale iff at most one version of the customer has a half-open range that holds the date |
| `TemporalJoin.DisjointKeepsGrain` | dbt/models/marts/fact_sales.sql:180-187 | With disjoint half-open ranges every sale gives exactly one row |
| `TemporalJoin.StandInOnlyBeforeTheFirst` | dbt/models/marts/fact_sales.sql:189-192 | The earliest version stands in iff the customer has versions and all of them start after the sale |
| `TemporalJoin.UnresolvedOnlyInGaps` | dbt/models/marts/fact_sales.sql:170-176 | No sale of a customer is unresolved at any date iff the customer has a version and no date from a version's start onward is unowned |
| `TemporalJoin.ResolutionByRange` | dbt/models/marts/fact_sales.sql:170-192 | A sale is resolved as of a version iff the version is the customer's, starts at or before the date and has no end or ends after it; by the earliest version iff that is the first by start and key and starts after the date; else it is unresolved |
| `FactSales.FactEqualsView` | dbt/models/marts/fact_sales.sql:45-75 | A run over a relation that the table follows makes all order, item and payment columns equal to the full relation |
| `DailySales.DaysConserveTotals` | dbt/models/marts/daily_sales.sql:75-102 | Conservation: the item, sales and paid totals of all days add up to those of all sales and all paid sales, no row counted twice or lost |
| `DailySales.MetricsByColumn` | dbt/models/marts/daily_sales.sql:79-91 | The metrics of some facts: the number of distinct orders, the sums of quantities and amounts, the sum of the amounts of exactly the paid rows, and the latest load time |
| `DailySales.FullDailyByHours` | dbt/models/marts/daily_sales.sql:80-102 | The full aggregate has a row for exactly the days with sales, computed from the sales of the 24 hours of the day |
| `DailySales.AffectedByLoads` | dbt/models/marts/daily_sales.sql:47-64 | A day is affected iff a fact loaded after everything in the daily table is sold on it or was moved away from it |
| `DailySales.BasisHighWater` | dbt/models/marts/daily_sales.sql:49-52 | Even with wrong days in it, the daily table's high water is the fact table's at the last daily run |
| `DailySales.UnaffectedDay` | dbt/models/marts/daily_sales.sql:41-73 | A day that is not affected has gained and changed no row; it has lost rows iff an item left it |
| `DailySales.BasisKept` | dbt/models/marts/daily_sales.sql:41-113 | Every run, also one that forgets a day, leaves exactly the days that sell, each computed from its present rows and perhaps rows that have left since |
| `DailySales.StaleAfterRun` | dbt/models/marts/daily_sales.sql:41-113 | The stale days after any run: those stale before or left since, as far as they are neither affected nor empty |
| `DailySales.FreshDaysAreExact` | dbt/tests/marts/assert_daily_sales_matches_fact.sql:3-50 | Every day that is not stale has the metrics of its facts |
| `DailySales.DailyIsExact` | dbt/tests/marts/assert_daily_sales_matches_fact.sql:3-50 | For any table that runs can leave behind and quantities that are not negative: it equals the full aggregate iff every stale day is harmless, that is, the rows that left had quantity 0, their orders still sell on the day, and a row as new as each is still there |
| `DailySales.CheckIsExact` | dbt/tests/marts/assert_daily_sales_matches_fact.sql:3-50 | The project's own assertion, which ignores load times, passes iff no stale day has lost sold items or an order |
| `DailySales.StaleDaysAreWrong` | dbt/tests/marts/assert_daily_sales_matches_fact.sql:3-50 | With positive quantities the table equals the full aggregate iff no day is stale |
| `DailySales.ExactIffFresh` | dbt/tests/marts/assert_daily_sales_matches_fact.sql:3-50 | If rows keep their order and an order has one date, the table equals the full aggregate, and the assertion passes, iff no day is stale, whatever the quantities |
| `DailySales.FirstBuild` | dbt/models/marts/daily_sales.sql:66-71 | A first build is the full aggregate |
| `DailySales.NoNewStaleDay` | dbt/models/marts/daily_sales.sql:54-64 | A run that forgets no day adds no stale day, and an old one goes only when it is affected or empty |
| `DailySales.RememberedIsEnough` | dbt/models/marts/daily_sales.sql:54-64 | If each moved item still remembers the day it left, no day is forgotten |
| `ForgottenDay.SecondMergeForgets` | dbt/models/marts/fact_sales.sql:152-155 | A history from the empty warehouse: an order moves to another day and its item is merged, which remembers the day; the item is merged again for a payment, which overwrites it with NULL |
| `ForgottenDay.DailyKeepsMonday` | dbt/models/marts/daily_sales.sql:54-64 | The daily run of that history is wrong: it keeps a day's totals with an item it no longer has, and the project's assertion fails |
| `ForgottenDay.SecondRunDoesNotRepair` | dbt/models/marts/daily_sales.sql:41-113 | A further daily run of that history on the same facts leaves it wrong, though no item has left a day since |
| `IcebergSales.CountsShowGrain` | spark/jobs/sales_batch.py:144-164 | COUNT = COUNT(DISTINCT order_item_id) holds iff no item repeats |
| `IcebergSales.ValidSales` | spark/jobs/sales_batch.py:140-170 | The job goes on iff no item repeats and no quantity or amount is negative; otherwise the errors say which of the two it is and how many rows are invalid |
| `IcebergSales.WriteRepresents` | spark/jobs/iceberg_sales.py:58-86 | Append or MERGE keeps one row per item and puts newer updates over what was there |
| `IcebergSales.MergeKeepsNewer` | spark/jobs/iceberg_sales.py:58-86 | MERGE of any updates, one per item: a stored row takes the update of its item iff that is at least as new, and exactly the updates of other items are inserted |
| `IcebergSales.SameHighWater` | spark/jobs/iceberg_sales.py:126-129 | The maximum load time of the rows is that of the relation they represent |
| `IcebergSales.NewSalesRepresent` | spark/jobs/iceberg_sales.py:130-137 | Filtering the transform by the table's own maximum yields exactly the rows the table has yet to read |
| `IcebergSales.JobRefreshes` | spark/jobs/iceberg_sales.py:122-142 | A committed job leaves the table with exactly the rows of the full transform; it commits iff no row newer than the table has a negative quantity or amount, and a rejected job changes nothing; the final grain check never fails |
| `IcebergSales.SecondJobIsNoOp` | spark/jobs/iceberg_sales.py:130-141 | A job without new rows is a no-op |
| `IcebergSales.LakeTable.Write` | spark/jobs/iceberg_sales.py:58-86 | The write in place equals the specified append or MERGE and reports which one it was |
| `IcebergSales.LakeTable.HighWatermark` | spark/jobs/iceberg_sales.py:126-129 | The maximum load time of the rows, or 1900 for an empty table |
| `IcebergSales.LakeTable.Run` | spark/jobs/iceberg_sales.py:118-142 | High water, filter, validation, no-op test, write and grain check in sequence equal the specified job, outcome included |
| `Warehouse.ResolveSale` | dbt/models/marts/fact_sales.sql:143-192 | The as-of join of one sale, computed, is the resolution that every joined row gives |
| `Warehouse.DayMetrics` | dbt/models/marts/daily_sales.sql:79-91 | Counting, summing and maximising the rows of a day one by one gives the day's metrics; paid sales are the amounts of the paid rows only |
| `Warehouse.SalesMarts.ResolvedSales` | dbt/models/marts/fact_sales.sql:45-199 | The candidates computed row by row from the table's own high water and existing dates are those of the specification |
| `Warehouse.SalesMarts.RunFactSales` | dbt/models/marts/fact_sales.sql:45-221 | A computed run with its MERGE in place equals the fact run; over a relation that the table follows the result is the full relation |
| `Warehouse.SalesMarts.Affected` | dbt/models/marts/daily_sales.sql:41-73 | The affected dates computed from the daily table's own high water are those of the specification |
| `Warehouse.SalesMarts.RecomputedDays` | dbt/models/marts/daily_sales.sql:75-102 | The recomputed days, day by day, are those of the specification |
| `Warehouse.SalesMarts.RunDailySales` | dbt/models/marts/daily_sales.sql:14-113 | A computed run with MERGE and deleting post-hook in place equals the daily run |
| `MartRuns.NextInv` | dbt/models/marts/fact_sales.sql:45-75 | Loads, fact runs, daily runs and lakehouse jobs in any order, skipped or failed any number of times, keep both marts following, and each day of the daily table computed from its present rows and perhaps rows that have left since |
| `MartRuns.FactIsFullView` | dbt/models/marts/fact_sales.sql:45-75 | In every history, after a fact run fact_sales has exactly the rows of the full query on all order, item and payment columns |
| `MartRuns.StagingIsLastLoads` | airflow/dags/ecommerce_pipeline.py:115-132 | In every history a staged item, order or payment is what the last load of its key brought |
| `MartRuns.FactShowsLastLoads` | dbt/models/marts/fact_sales.sql:45-75 | In every history, after a fact run the row of an item has the columns brought by the last load of the item and by the last load of its order, whatever was skipped or failed before |
| `MartRuns.MergedRowsAreResolved` | dbt/models/marts/fact_sales.sql:180-192 | In every history a fact run stores with each row it merges the customer version whose range holds the order date, or the first version before all ranges |
| `MartRuns.FreshDaysMatchFact` | dbt/tests/marts/assert_daily_sales_matches_fact.sql:3-50 | In every history, a daily run leaves exactly the days that sell, and every day that is not stale has the metrics of its facts |
| `MartRuns.StaleDaysEvolve` | dbt/models/marts/daily_sales.sql:41-73 | In every history, a daily run keeps stale days and adds those an item has left, except the affected and the empty ones; no other step changes them |
| `MartRuns.DailyIsExactInHistory` | dbt/tests/marts/assert_daily_sales_matches_fact.sql:3-50 | In every history without negative quantities, after a daily run the table equals the full aggregate iff every stale day is harmless |
| `MartRuns.FactKeepsMemory` | dbt/models/marts/fact_sales.sql:152-155 | A fact run that merges no item that has moved since the last daily run forgets no day |
| `MartRuns.OneFactRunForgetsNothing` | dbt/models/marts/daily_sales.sql:5-12 | One fact run after a daily run forgets no day |
| `MartRuns.UnmergedMovesStayExact` | dbt/models/marts/fact_sales.sql:152-155 | In every history in which no moved item is merged again before the next daily run, however many fact runs lie between daily runs, the daily table equals the full aggregate after every daily run |
| `MartRuns.PairedBuildsStayExact` | dbt/models/marts/daily_sales.sql:5-12 | In particular in every history whose fact runs are each followed at once by a daily run |
| `MartRuns.ExactIffNoDayIsStale` | dbt/tests/marts/assert_daily_sales_matches_fact.sql:3-50 | In every history in which no item changes its order, and whatever the quantities: after a daily run the table equals the full aggregate, and the assertion passes, iff no day is stale |
| `MartRuns.LakeIsFullTransform` | spark/jobs/iceberg_sales.py:125-142 | In every history, after a committed job the lakehouse table has exactly the rows of the full transform, each once |
| `MartRuns.ValidStagingCommits` | spark/jobs/iceberg_sales.py:140-142 | In every history, a job over staged items without negative quantities or prices commits |
| `MartRuns.MartsAgree` | spark/jobs/sales_batch.py:64-137 | Once both marts have run on the same staging, in either order and with any runs around them, with a status on every payment the lakehouse table represents fact_sales |

## Left out

- Avro, JSON and registry decoding: records arrive decoded, with optional fields.
- Audit columns set from a clock (`ingested_at`, `applied_at`, the Kafka record timestamp, `produced_at` beyond its presence): not part of any state equality.
- The 500-record bound of a poll, idle exit and signal handling: a run stops after any turn.
- Equality of `customer_sk` in `fact_sales` after the dimension changes: the key is resolved at merge time and not refreshed, so equality is on order, item and payment columns.
- Numeric overflow of `NUMERIC(14, 2)` and `NUMERIC(16, 2)`: money is in unbounded integer cents; prices have two decimals, so no rounding occurs.
- NULLs in business columns other than payment and order status.
- The comparison of staged customers with `customers_current` in the DAG's validation, and dbt's snapshot and tests: they only stop runs.
- The one-time branches for tables created before their load-time column existed, and dbt's full refresh of an existing table.
- Publisher.Producer.Enqueue: assumes that polling a full buffer eventually runs a callback, as the client's delivery timeout ensures; the time that takes is not modelled.
- Publisher.IsCursor: orders rows by `updated_at` only; ties are in any order.
- Publisher.Publish: a row cap is modelled, but only uncapped runs finish a DAG sink; the DAG never passes one.
- WatermarkRuns.Finish: the dbt and Iceberg sinks only report success there; their content is the subject of `MartRuns`.
- Warehouse.SalesMarts.RunFactSales: takes the rows of the sales view and of `dim_customer` as arguments; the view is the subject of `SalesView`.
- IcebergSales.ValidSales: leaves out the null-key count of `validate_sales`, because rows have no NULL keys or dates here.
- IcebergSales.LakeTable.Run: takes the rows of `transform_sales` as an argument; `SalesView.QueryIsView` says which they are.
- Spark's plain Parquet output: it overwrites the whole dataset, so nothing is incremental.
- Iceberg maintenance, monitoring, the job gateway, connector registration and the data generator.
