# ingestkit: a verified model

This project models the hard parts of ingestkit in Dafny and proves what they
are for.

- **Delivery.** Partition logs, consumer-group offsets, the events table and the
  quarantine topic, with any number of workers that overlap, retry, crash and are
  replaced (`ReaderPlan`, `Worker`, `Delivery`, `Resumption`, `Recovery`), fed by the
  publisher, the HTTP handler, the client and the transactional outbox (`Publisher`,
  `Outbox`, `EndToEnd`, `Rejections`), on top of a first-wins table (`EventTable`).
- **The load driver and its auditor.** Scheduler, workers, observer and
  accounting loop as state machines (`LoadDriver`, `Observer`), the accounting
  itself (`Accounting`, `Reconcile`, `Errors`), the backlog sweep (`Sweep`), the
  stored id lists (`Populations`), the independent auditor (`Audit`) and the theorem that
  joins them (`MeasuredRun`). `WriteMethods` covers the database benchmark.
- **Admissible JSON.** The escape scanner (`JsonText`), the decimal check for
  PostgreSQL `numeric` (`JsonNumber`) and the streaming nesting check
  (`JsonDepth`). Standards: sections 6, 7 and 8.2 of RFC 8259 and section 8.1 of
  the PostgreSQL manual.
- **Two small machines.** The rate limiter with eviction (`RateLimiter`) and the
  study runner: what a case must have measured (`StudyCase`) and the journal with
  crashes, resumes and cancellation (`StudyJournal`).

`Chains` holds the one generic notion used by `Delivery`: operations that are
each safe in the state the earlier ones leave. `Basics` holds what several
modules share.

`dafny verify dfyconfig.toml` checks everything.

## How the parts fit

A reader is described once, by the automaton of `ReaderPlan`: after a poll it owes
a plan, it issues the plan's operations in order, only a failed write is issued
again, and any other failure is the end. `Worker.Reader` is the imperative code;
its methods are proved to produce only histories of that automaton. `Delivery`
lets arbitrarily many such automata run against shared logs, offsets, table and
quarantine topic. A request reported as failed stays in flight and may take
effect at any later time, repeatedly, or never, which covers an applied write
whose acknowledgement was lost and one that lands after its reader is gone. The
invariant has one unknown, a frontier for each partition: committed offsets and
every request any reader still makes stay at or below it, and the table is the
first-wins fold of the log up to it. `Resumption` adds what the invariant does not
need: a reader starts where the group committed, and without failures every record
is handled once however readers take over from each other.

The environment is stated, not hidden: decoding is a function of the bytes; polls
return contiguous runs of any length from the reader's position; offsets increase but may have
gaps; a commit sets the last offset plus one and may go backwards; the rows of one
statement are tried in order; a record's partition is a function of its key; no
retention expiry and no database restore; a group without a commit starts at 0.
In `EndToEnd` a new event id is fresh, the API reads the body that was sent or
refuses it, the broker client calls back at most once for a record and without an
error only after the broker appended it, a readable 202 comes from the handler, and
other publishers do not reuse an outbox id with different content. For the driver,
planned ids are distinct, clock readings do not go backwards, and rows the observer
saw are still there at the final verification.

From a saved order to a stored row the links are functions of each other: the
callbacks read in time give the result of a publish (`Publisher.SendOutcome`), that
result gives the reply (`Reply`), the reply and the fate of the connection give the
attempt as the client sees it (`Seen`), the attempts give the client's report
(`Report`), and the report gives the state of the outbox rows (`Outbox.StateFor`).
`EndToEnd` runs these together with brokers and readers; that an acknowledged row is
in the log is a theorem about that chain, and so is that a rejected row was refused.

In the driver every reply of a request and every answer of an observer query is
followed from the step that produced it to the recorded result, so that the lists and
times in the report are those of the run. The auditor's checks are shown to be exactly
the existence of a request history that explains the report.

## Findings

What was found about the code, each with an input and the exact condition.

| finding | source | shown by |
|---|---|---|
| A study that is cancelled while its last unfinished case ends in an observation-only failure is journaled as complete with that case incomplete. | internal/benchmark/study.go:544-547 | `StudyJournal.CancelledStudyCanClaimComplete`; exactly when: `StudyJournal.CompleteIsExact` and `StudyJournal.CompleteOnDiskIsExact` |
| A JSON zero whose exponent exceeds 131072 plus the length of its digits is refused although it would fit, for example 0e131074; nothing inadmissible is accepted. | internal/event/jsonb.go:74-76 | `JsonNumber.AFittingZeroIsRefused`; exactly when: `JsonNumber.ExactWhenZero` |
| Evicting idle buckets is visible to callers for a time to live below one second; the default is five minutes. | internal/api/middleware/ratelimit.go:65-79 | `RateLimiter.EvictionIsInvisibleIff`, both directions |

## Model

| member | source | states |
|---|---|---|
| `EventTable.InsertAllIsFirstWins` | internal/persistence/events.go:22-40 | After a multi-row insert with ON CONFLICT DO NOTHING, for every key: a row already there keeps its content, and a new key holds the first event of the statement that carries it. |
| `EventTable.InsertAllConcat` | internal/persistence/events.go:26-40 | Splitting a statement's rows over consecutive statements gives the same table. |
| `EventTable.InsertAllExtends` | migrations/showcase/000001_events.up.sql:10 | No statement ever changes or removes a row that is present. |
| `EventTable.EventStore.Exec` | internal/persistence/events.go:28-39 | One statement is atomic in all three outcomes (applied, applied but reported as failed, not applied) and counts exactly the rows it added. |
| `EventTable.EventStore.WriteBatch` | internal/persistence/events.go:22-40 | Success means the whole batch is in the table and inserted + duplicates equals the batch; an error leaves either the old table or the complete new one, never a part. |
| `WriteMethods.OrderDoesNotMatter` | internal/benchmark/copy_reference.go:29-43 | When duplicates repeat the original, a merge may scan its staged rows in any order and still produce the same table. |
| `WriteMethods.InsertedIsExpected` | internal/benchmark/database.go:178-184 | Starting without rows of the tenant, the tenant's rows afterwards are exactly the expected events and the table grows by exactly their number. |
| `WriteMethods.ExpectedEvents` | internal/benchmark/workload.go:70-78 | The loop builds the map from each event id to its first submission. |
| `WriteMethods.Database.Merge` | internal/benchmark/copy_reference.go:15-44 | Stage and merge, with an arbitrary scan order, equals inserting the rows in order, with the same count. |
| `WriteMethods.Database.WriteMethod` | internal/benchmark/database.go:54-82 | Single insert, batch insert and stage-and-merge leave the same table and report the same number of inserted rows; an unknown method changes nothing; it succeeds exactly when the server failed no call, the method is known and a batch insert has rows. |
| `WriteMethods.Database.MeasuredRun` | internal/benchmark/database.go:155-185 | For every method and batch size a run completes exactly when the server fails no call; it then leaves exactly the expected events of the tenant, inserted equals their number, inserted + duplicates equals the submissions, and the run is marked correct. |
| `WriteMethods.Workload` | internal/benchmark/workload.go:26-69 | Exactly `count` submissions: `count - floor(count * fraction)` distinct events, at least one, then repeats of them in turn. |
| `WriteMethods.WorkloadIsConsistent` | internal/benchmark/workload.go:24-68 | Every repeated id in a generated workload repeats the same event. |
| `WriteMethods.WorkloadExpects` | internal/benchmark/workload.go:30-78 | The expected events of a workload are exactly its distinct events. |
| `WriteMethods.MeasureWorkload` | internal/benchmark/database.go:123-190 | A measured run of a generated workload, by any method, inserts exactly the distinct events with their own content, counts exactly the repeats as duplicates and is marked correct. |
| `ReaderPlan.PlanCovers` | internal/messaging/process.go:11-64 | The operations of one pass take care of exactly the given records in order: batches are contiguous, hold only valid records and at most BatchSize of them, only poison is quarantined, and each commit names the last record of the operation before it. |
| `ReaderPlan.PlanFills` | internal/messaging/process.go:33-63 | A batch of a pass is shorter than BatchSize only if a poison record or the end of the records follows it. |
| `ReaderPlan.CommitsIncrease` | internal/messaging/process.go:14-53 | Commits strictly increase, never name a record that was not handled before, and the last one is the last record. |
| `ReaderPlan.CallsMakeProgress` | internal/messaging/process.go:14-63 | Between two polls, whatever fails, the acknowledged operations are a prefix of the plan and the rest is still to do; only a failed quarantine or commit stops the reader without a retry. |
| `ReaderPlan.CallsFollowPlan` | internal/messaging/process.go:14-63 | Every call a reader makes is the first operation of its plan that is not yet acknowledged. |
| `ReaderPlan.PartitionPassEffects` | internal/messaging/process.go:11-64 | For every list of records, every failure pattern and whatever the poll holds after it: what was acknowledged for a partition handles a prefix of its records, commits strictly increase and directly follow what they cover, and a finished pass has handled all and committed the last. |
| `Worker.MaxWaitsIsLargest` | internal/messaging/process.go:68-106 | The retry bound is the largest number of doubling-then-capped waits whose total fits in the retry window. |
| `Worker.DefaultRetryBound` | internal/messaging/reader.go:47-64 | The default settings are accepted and allow at most 11 attempts for a batch. |
| `Worker.Reader.Persist` | internal/messaging/process.go:65-108 | Success only after a successful write of exactly this batch; all earlier attempts failed; at most 1 + (the largest number of waits that fits) attempts, for every timing, cancellation and failure pattern; it gives up uncancelled only after an attempt and when the next wait would not end before the retry window does. |
| `Worker.Reader.FlushBuffer` | internal/messaging/process.go:14-31 | An empty buffer needs nothing; otherwise the batch is stored and only then its last record committed. |
| `Worker.Reader.QuarantineRecord` | internal/messaging/process.go:37-53 | A poison record forces a flush, then an acknowledged quarantine write, then its own commit. |
| `Worker.Reader.ProcessPartition` | internal/messaging/process.go:11-64 | Whatever fails, what the pass got acknowledged is confined to this partition's plan: it handles a prefix of the records, commits strictly increase and directly follow what they cover; success means every record is handled and the last one committed. |
| `Worker.Reader.ProcessFetched` | internal/messaging/reader.go:131-154 | The acknowledged operations are a prefix of the plan of all partitions in order, the whole of it after success; fetch errors are reported after the records were processed, except the cancelled poll of a stopping reader. |
| `Worker.Reader.Run` | internal/messaging/reader.go:104-127 | The whole history of a reader is a run of the reader automaton that the delivery protocol uses: it never polls again after a failed pass. |
| `Delivery.OverlappingWrite` | internal/messaging/process.go:18-20 | Writing again any contiguous run that starts within the handled prefix extends the first-wins reading of that prefix and nothing else. |
| `Delivery.PlanCarries` | internal/messaging/process.go:11-64 | The plan of a run that starts at or before the frontier only makes safe requests and carries the frontier past the run. |
| `Delivery.PollSafe` | internal/messaging/reader.go:118-121 | A poll from the reader's positions keeps every later request of the reader safe. |
| `Delivery.EffectKeepsInv` | internal/messaging/process.go:14-53 | Whenever a safe request takes effect, at once, late or repeatedly, the table, the quarantine topic and the committed offsets stay what the handled prefixes say. |
| `Delivery.InvokeKeepsInv` | internal/messaging/process.go:14-53 | A call of any reader, successful or reported as failed, keeps the invariant of all readers and of all requests still in flight. |
| `Delivery.StepKeepsInv` | internal/messaging/reader.go:104-154 | Every step of the protocol (publish, join, assign, revoke, poll, call, late effect, crash) keeps the invariant. |
| `Delivery.RunKeepsInv` | internal/messaging/reader.go:104-154 | In every run with any number of overlapping readers there is a handled prefix of each log of which the table is the first-wins fold and the quarantine topic exactly the poison records; the prefix only grows. |
| `Delivery.CommittedIsHandled` | internal/messaging/process.go:14-53 | In every reachable state each record below the committed offset is stored, with the content of the first record of its key, or its bytes are quarantined. |
| `Delivery.HistoryIsKept` | docs/delivery.md:17-20 | Along every run rows never change once present, and logs and the quarantine topic only grow. |
| `Resumption.ResumesAtCommitted` | internal/messaging/reader.go:70-70 | On every run, from its assignment of a partition until its next one, a reader writes and quarantines only records from the offset on that was committed at the assignment. |
| `Resumption.EachRecordOnce` | internal/messaging/process.go:11-64 | Without failed calls, with one reader at a time that leaves only when idle: the records of a partition are handled in log order, each exactly once, across any number of readers; while none is at work exactly those below the committed offset were handled. |
| `Resumption.QuarantinedOnce` | internal/messaging/process.go:37-53 | Without failed calls, over any number of readers, no poison record is quarantined twice. |
| `Recovery.CrashFreeReadsAll` | internal/messaging/process.go:11-64 | One reader that meets no failure stores or quarantines every record of every log. |
| `Recovery.SameAsCrashFree` | internal/messaging/reader.go:104-154 | In every reachable state the table and the contents of the quarantine topic are exactly what one crash-free reader would produce from a prefix of each log. |
| `Recovery.ReplacementFinishes` | internal/messaging/reader.go:104-127 | From every state of the invariant a replacement reader can act so that the handled prefix of every log becomes the complete log, without anything new being published; it handles exactly the records that were not committed, each once and in order. |
| `Recovery.RecoveryCompletes` | docs/delivery.md:56-62 | From every reachable state one replacement reader that meets no failure brings every record into the table or quarantine, and the table equals the crash-free one of the complete logs. |
| `Recovery.CarryingOnLosesARecord` | internal/messaging/reader.go:118-121 | If a reader polled on after a failed write, a commit could pass over a record that is neither stored nor quarantined: a concrete run. |
| `Publisher.EveryRecordCalledBack` | internal/messaging/publisher.go:84-103 | As many callbacks as records, each for a different record, means one for every record. |
| `Publisher.SentExactly` | internal/messaging/publisher.go:84-107 | A publish succeeds if and only if every single record was acknowledged among the callbacks read in time. |
| `Publisher.Send` | internal/messaging/publisher.go:69-107 | The loop returns the outcome of the callbacks read before the deadline; success means the broker acknowledged every record, in whatever order callbacks arrive; saturation is reported only for a full buffer; never more callbacks than channel slots. |
| `Publisher.ReplyIsExact` | internal/api/ingest.go:24-53 | Every status has its exact cause: 202 if and only if the request is well formed, every event passes the checks and the broker acknowledged every one, naming exactly those ids in order; 413 for oversized input only; 400 for unreadable input or an event that fails the checks only; 503 if and only if an accepted event could not be encoded or was not acknowledged. |
| `Publisher.Ingest` | internal/api/ingest.go:12-55 | The handler with its loops gives the reply that follows from request, checks and callbacks; 413 exactly for oversized input; 400 publishes nothing; after 202 the published events are those of the request and all were acknowledged. |
| `Publisher.TryingExactly` | examples/checkout/ingest_client.py:89-98 | The client goes on trying if and only if attempts are left and every attempt made failed in a way that may be retried. |
| `Publisher.DecidedBy` | examples/checkout/ingest_client.py:77-98 | What the client reports comes from the first attempt that decides: delivery if that one was acknowledged, otherwise a failure with its status. |
| `Publisher.DeliveredIsAcknowledged` | examples/checkout/ingest_client.py:144-159 | A delivery is reported only with an attempt that was answered 202, accepted and with exactly the expected ids. |
| `Publisher.SendBatch` | examples/checkout/ingest_client.py:77-98 | The client reports what the attempts call for and stops at the first one that decides: delivery exactly when that attempt was acknowledged with the lower-cased ids, otherwise a final failure or the last attempt; malformed or missing ids are refused before any attempt. |
| `Outbox.CreatedKeeps` | examples/outbox/app.py:33-54 | Creating an order keeps orders and outbox rows in one-to-one correspondence, changes nothing that exists and appends one pending row without attempts; an error changes nothing at all and has its reason. |
| `Outbox.MarkedAllKeeps` | examples/outbox/app.py:83-85 | Marking rows keeps the correspondence, all bodies and every final state. |
| `Outbox.MarkedAllMoves` | examples/outbox/app.py:83-85 | Exactly the selected rows that are still pending move to the new state, once each; all others stay as they are. |
| `Outbox.SelectedArePending` | examples/outbox/app.py:67-68 | A selection holds saved bodies of distinct pending rows, at most the requested number, and a pending row is missing from it only when it is full. |
| `Outbox.SelectionIsExact` | examples/outbox/app.py:68-68 | A selection is the first pending rows in row order: at rising positions, with a pending row passed over only after the limit is reached. |
| `Outbox.SelectionSize` | examples/outbox/app.py:68-68 | A selection has exactly the smaller of the limit and the number of pending rows. |
| `Outbox.SelectedAgain` | examples/outbox/app.py:68-85 | Rows that a pass leaves pending, whatever their attempts and error, are exactly the next selection. |
| `Outbox.PassLeaves` | examples/outbox/app.py:83-89 | A pass that decides takes exactly its rows out of the pending ones; one that does not leaves their number unchanged. |
| `Outbox.OutboxFile.CreateOrder` | examples/outbox/app.py:33-54 | The order row and the outbox row appear together or not at all; a repeated order returns its event id, a changed amount is an error. |
| `Outbox.OutboxFile.Mark` | examples/outbox/app.py:83-85 | The loop over the selected ids performs exactly the conditional updates, keeping the correspondence and history. |
| `Outbox.OutboxFile.DispatchOnce` | examples/outbox/app.py:64-90 | A pass attempts the smaller of the batch size and the number of pending rows, in row order; every selected row ends in exactly the state the client's report calls for (acknowledged only if the ids come back as saved, rejected only for 400 and 413, otherwise still pending and selected again by the next pass), every other row is untouched, and counts and error are exact. |
| `EndToEnd.AcknowledgedExactly` | examples/checkout/ingest_client.py:144-159 | The client takes an answer as an acknowledgement if and only if it arrives intact, the API accepted the request and the handler read a successful callback for every event. |
| `EndToEnd.AnswerMeansAppended` | internal/api/ingest.go:44-53 | An answer that the client takes as an acknowledgement, whatever the order of callbacks and the fate of the connection, means the broker appended every event of the request. |
| `EndToEnd.DeliveredIsLogged` | examples/outbox/app.py:71-76 | A pass whose rows will be marked acknowledged has every one of its events in the log. |
| `EndToEnd.StepKeepsInv` | examples/outbox/app.py:64-90 | Every step of outbox, client, API, broker and readers keeps: acknowledged rows and acknowledged attempts have their events in the log, and every publish of an outbox id carries the saved body. |
| `EndToEnd.AcknowledgedIsInLog` | docs/delivery.md:46-50 | An outbox row marked acknowledged has its event, with the saved body, in the log of its partition. |
| `EndToEnd.PassedIsStored` | docs/delivery.md:29-33 | Once the committed offset has passed any record of an outbox event, the table holds the row of that event with exactly the saved body. |
| `EndToEnd.AcknowledgedCanBeStored` | docs/delivery.md:46-62 | Whatever dispatchers, publishers and readers went through, from every reachable state one replacement reader without failures stores each acknowledged event with its saved body. |
| `EndToEnd.OutboxHistory` | examples/outbox/app.py:33-90 | Over every run orders and outbox rows stay in one-to-one correspondence, bodies never change, and acknowledged and rejected are final. |
| `Rejections.RefusedExactly` | examples/outbox/app.py:80-82 | An attempt is final if and only if a stage before the handler answered 400 or 413, or the handler's answer arrived and the body was unreadable, too large or held an event that fails the checks. |
| `Rejections.RejectedWasRefused` | examples/outbox/app.py:77-85 | Over every run a row is marked rejected only if some request that carried its event was refused in that way; broker trouble, lost answers, time-outs and crashes never reject an order's event. |
| `JsonNumber.DigitCount` | internal/event/jsonb.go:82-86 | Without its leading zeros a digit string of n digits stands for a number from 10^(n-1) up to 10^n - 1. |
| `JsonNumber.LessByDigits` | internal/event/jsonb.go:83-89 | A number of d digits shifted by x places is below 10^k exactly when d + x <= k. |
| `JsonNumber.SplitRender` | internal/event/jsonb.go:64-73 | Taking the text of any well-formed number apart gives back its mantissa and exponent, or a refusal exactly when the exponent leaves 32 bits. |
| `JsonNumber.ExactWhenNonzero` | internal/event/jsonb.go:63-90 | For every well-formed number with a nonzero digit and any digit limits, the check accepts exactly the numbers whose magnitude and written scale fit; the early exponent guard refuses nothing extra. |
| `JsonNumber.ExactWhenZero` | internal/event/jsonb.go:63-90 | For zero the check accepts exactly the numbers whose scale fits and whose exponent passes the guard, so what it accepts is storable (a zero with a huge exponent is refused although it would fit). |
| `JsonNumber.AFittingZeroIsRefused` | internal/event/jsonb.go:74-76 | 0e131074 is a zero whose scale fits and which is refused. |
| `JsonNumber.RepresentableIsExact` | internal/event/jsonb.go:61-90 | Within the event size limit a nonzero number is accepted if and only if its magnitude is below 10^131072 and its written scale is at most 16383. |
| `JsonText.AcceptSingle` | internal/event/jsonb.go:25-46 | Reading one item that is not a high surrogate: the text is acceptable exactly when the item is complete, not NUL, not a lone low surrogate and the rest is acceptable. |
| `JsonText.AcceptHigh` | internal/event/jsonb.go:47-56 | Reading a high surrogate: the text is acceptable exactly when a low surrogate escape follows at once and the rest after it is acceptable. |
| `JsonText.ValidUtf8Exactly` | internal/event/jsonb.go:22-24 | The accepted byte strings are exactly the UTF-8 encodings of sequences of Unicode scalar values. |
| `JsonText.HexDigitExactly` | internal/event/jsonb.go:39-42 | A byte counts as a hexadecimal digit, with that value, exactly when it is the lower-case or upper-case character of it. |
| `JsonText.Hex4Exactly` | internal/event/jsonb.go:39-42 | Four bytes are read as the number n exactly when they are its base-16 numeral. |
| `JsonText.ItemsExactly` | internal/event/jsonb.go:25-57 | The reading of a text into bytes, escapes and \u code units exists exactly when the text can be written from such items, and is then the only one. |
| `JsonText.AcceptableExactly` | internal/event/jsonb.go:25-57 | A text is acceptable if and only if it can be written from items without NUL in which every high surrogate is followed by a low one and every low one follows a high one. |
| `JsonText.ValidUnicodeJson` | internal/event/jsonb.go:19-59 | For every byte string the index-jumping scanner accepts if and only if it is valid UTF-8 in which every escape is complete, no \u escape is zero and \u escapes form well-paired surrogates. |
| `JsonDepth.CheckTokens` | internal/event/jsonb.go:95-121 | The token loop accepts exactly the streams that never nest above 64 and whose numbers are all representable. |
| `JsonDepth.StreamingCheckIsExact` | internal/event/jsonb.go:91-122 | For every JSON tree, one counter over its token stream accepts it if and only if its nesting depth is at most 64 and every number in it is representable. |
| `RateLimiter.Limiter.Allow` | internal/api/middleware/ratelimit.go:87-127 | A request refills, caps and spends from its own tenant's bucket only, and reports the limit and the whole tokens left; over runs the answers are those of `RateLimiter.RefusedExactly`. |
| `RateLimiter.Limiter.Cleanup` | internal/api/middleware/ratelimit.go:65-79 | The sweep removes exactly the buckets idle for longer than the time to live. |
| `RateLimiter.RefusedExactly` | internal/api/middleware/ratelimit.go:105-126 | On every run without eviction, in terms of events and answers alone: a request at time t is refused if and only if since some earlier moment s of the run k admissions of its tenant have (k + 1) > rps + rps * (t - s). |
| `RateLimiter.TokensExactly` | internal/api/middleware/ratelimit.go:108-118 | At every time of every run the tokens of a tenant are exactly the least amount that its admissions since some moment leave of a full bucket and the refill since then. |
| `RateLimiter.TenantsAreIndependent` | internal/api/middleware/ratelimit.go:87-127 | A tenant's answers are the same with all other tenants' requests and buckets removed. |
| `RateLimiter.AdmittedIsCovered` | internal/api/middleware/ratelimit.go:105-124 | From any point of a run without eviction, what a tenant is admitted is covered by what was available plus what the elapsed time refilled. |
| `RateLimiter.RateIsBounded` | internal/api/middleware/ratelimit.go:65-127 | In any stretch of any run, sweeps included, a tenant is admitted at most rps + rps * (seconds of the stretch) times when the time to live is at least a second. |
| `RateLimiter.EvictionIsInvisibleIff` | internal/api/middleware/ratelimit.go:65-79 | For a positive rate, no run shows whether idle buckets are evicted if and only if the time to live is at least a second (999,999,999 ns). |
| `Sweep.Collect` | internal/benchmark/pipeline.go:548-563 | From maps visited in any order: the finish times stand for the acknowledged ids at every moment, and the changes for the acknowledged but unobserved ones, including ids observed before their acknowledgement. |
| `Sweep.WeightOfPermutation` | internal/benchmark/pipeline.go:564-565 | Sorting in any order of equal times changes no count. |
| `Sweep.Timeline` | internal/benchmark/pipeline.go:546-578 | The sorted two-pointer sweep gives at every backlog point exactly the naive counts: ids acknowledged by then, and ids acknowledged by then but not observed by then. |
| `Sweep.BacklogAt` | internal/benchmark/pipeline.go:540-545 | The backlog at the end of the window is the same count at that moment. |
| `LoadDriver.StepConserves` | internal/benchmark/pipeline.go:264-324 | Every step of scheduler, workers and accounting loop keeps any quantity summed over all places a job can be in. |
| `LoadDriver.ExactlyOnePlace` | internal/benchmark/pipeline.go:263-463 | In every reachable state each scheduled job is in exactly one place: missed, queued, with a worker, waiting to be recorded, or recorded; no other job is anywhere. |
| `LoadDriver.ResultsNeverBlock` | internal/benchmark/pipeline.go:265-279 | In every interleaving a worker that holds a result finds room in the results channel. |
| `LoadDriver.JobsIsCeiling` | internal/benchmark/pipeline.go:265-265 | The number of jobs is the planned count divided by the batch size, rounded up, which is the capacity of the results channel. |
| `LoadDriver.StoppingMissesTheRest` | internal/benchmark/pipeline.go:293-315 | Stopping early counts as missed exactly the ids from the scheduler's index on. |
| `LoadDriver.MissedExactly` | internal/benchmark/pipeline.go:293-321 | A job is missed if and only if the run has the step at which its time had come and the queue was full, the active time was over, or the scheduler was cancelled while it waited for this or an earlier job. |
| `LoadDriver.NeverAheadOfSchedule` | internal/benchmark/pipeline.go:293-306 | In every interleaving no job is queued, sent or recorded with a start before its time in the even schedule. |
| `LoadDriver.QueueIsOrdered` | internal/benchmark/pipeline.go:264-264 | In every reachable state the queue holds jobs in schedule order, at most two for each worker. |
| `LoadDriver.RepliesExactly` | internal/benchmark/pipeline.go:271-279 | A result stands for a reply exactly when some step of the run is that reply: with its two flags, by the worker that took the job at the recorded start, at the recorded finish. |
| `LoadDriver.RepliesAreRecorded` | internal/benchmark/pipeline.go:271-279 | When the loop ends, what it recorded are exactly the replies of the run, each once, whatever the order. |
| `LoadDriver.CancelledExactly` | internal/benchmark/pipeline.go:435-440 | The context counts as cancelled exactly when it was cancelled, and a run is aborted only then. |
| `LoadDriver.EverythingIsAccounted` | internal/benchmark/pipeline.go:433-463 | When the loop ends, cancelled or not, planned = attempted + missed, and every job was missed or recorded exactly once. |
| `LoadDriver.NeverStuck` | internal/benchmark/pipeline.go:433-460 | In no reachable state is the driver stuck: some goroutine can move, or the scheduler waits for a time within the active time, or the loop only waits for its window. |
| `LoadDriver.StepsUseUpRank` | internal/benchmark/pipeline.go:433-460 | Every step but the clock and the cancellation uses up a bounded amount of work, so the loop cannot go on for ever. |
| `Observer.SendsNeverBlock` | internal/benchmark/pipeline_observer.go:23-47 | In every interleaving an outstanding observation is in at most one of request slot, worker and result slot, so neither channel send can block. |
| `Observer.CancelledWorkerExits` | internal/benchmark/pipeline.go:500-506 | After cancellation, on every schedule: the worker takes at most three more steps, some step of its own is possible until it is gone, gone is final, and then it can be joined. |
| `Observer.PollsAreOrdered` | internal/benchmark/pipeline.go:349-393 | Recorded observations are ordered in time and do not overlap. |
| `Observer.PollsInOrder` | internal/benchmark/pipeline.go:349-393 | In every interleaving all recorded observations are in the order of time and lie between the start of the run and now. |
| `Observer.PollsExactly` | internal/benchmark/pipeline_observer.go:30-46 | In every interleaving each answer of a query is recorded once, in order and as it came, from the time its request was taken to the time it was over, but for the one that may still be on its way. |
| `Observer.NeverAsksAgain` | internal/benchmark/pipeline.go:394-399 | In every run nothing is asked of the database once an observation has failed or the observer was joined. |
| `Accounting.KindsAddUp` | internal/benchmark/pipeline.go:400-428 | The in-window and after-window splits add up, and attempted = accepted + ambiguous + rejected, for every list of results. |
| `Accounting.Requests.Record` | internal/benchmark/pipeline.go:400-428 | After every result all lists, counters and acknowledgement times are exactly those of the results recorded so far. |
| `Accounting.Observations.Record` | internal/benchmark/pipeline.go:349-393 | After every observation the first-seen times, stored ids, latency samples, backlog points and the slow, late and outage counters are those of the observations recorded so far; the run fails exactly on a query error that is neither a tolerated outage nor the expected cancellation, or on a new row with a negative latency. |
| `Accounting.SeenMeans` | internal/benchmark/pipeline.go:374-391 | What is kept about rows: each id once, in the order of first sight, with the time of the first observation that returned it, and the latency of that row when it is usable. |
| `Accounting.TroubledExactly` | internal/benchmark/pipeline.go:365-391 | A phase of observations has failed exactly when some observation in it failed untolerated or brought a new row with a negative latency. |
| `Accounting.FirstSeenIsFirst` | internal/benchmark/pipeline.go:374-379 | The observation time of an id is the finish time of the first observation that returned it. |
| `Accounting.PointsRise` | internal/benchmark/pipeline.go:374-392 | Observations in the order of time give backlog points whose times and row counts never fall. |
| `Accounting.TimingMeans` | internal/benchmark/pipeline.go:350-373 | The counters are the numbers of queries longer than two intervals, of polls more than two intervals after the one before, and of tolerated outages. |
| `Errors.JoinIsHarmless` | internal/benchmark/pipeline_observer.go:49-69 | A joined error counts as an observation error exactly when each of its parts does. |
| `Reconcile.CombinedError` | internal/benchmark/pipeline.go:769-772 | The combined error of a run is fatal exactly when the run was aborted, its first reconciliation failed without an observation failure, or delivery did not pass. |
| `Reconcile.Drain` | internal/benchmark/pipeline.go:464-506 | After the drain, without a failure or an abort every acknowledged id was seen, for every order of results, deadline and cancellation; the deadline counts as missed only with an acknowledged id unseen, and the cancellation of the last observation is tolerated only when none was; it aborts only with the context; what was recorded is a prefix of what the observer delivers. |
| `Reconcile.AwaitRows` | internal/benchmark/pipeline.go:464-493 | The wait records an observation only while an acknowledged or ambiguous id is unseen and nothing has gone wrong, and ends with the deadline missed only if an acknowledged id is unseen. |
| `Reconcile.SampleBacklog` | internal/benchmark/pipeline.go:546-578 | Every observed point keeps its time and row count and gets the counts of the timeline. |
| `Reconcile.ReconcileFailsExactly` | internal/benchmark/pipeline.go:118-177 | The first reconciliation reports an error exactly when an acknowledged id was not observed, an observed one was never sent, a row came twice, some content differs or no time has passed. |
| `Reconcile.ReconcileIds` | internal/benchmark/pipeline.go:118-177 | Missing, unexpected, duplicate and ambiguous-unobserved counts are the sizes of the set differences, and a run is correct and passed exactly when all are clean and verification succeeded. |
| `Reconcile.Finish` | internal/benchmark/pipeline.go:507-588 | The published report describes the accounting: counts, sets, backlog with acknowledged and pending counts at every point and its final point, the backlog at the end of the window, load status and outcome; observation is complete exactly when nothing failed or was aborted and every acknowledged and ambiguous id was seen. |
| `Audit.AuditRequests` | benchmarks/audit_study.py:69-78 | The cursor walk accepts exactly when every request is well-formed and the attempted ids handed out in order give the accepted and the ambiguous list. |
| `Audit.AuditBacklog` | benchmarks/audit_study.py:117-126 | The walk over the backlog accepts exactly when every point satisfies the timeline, row and acknowledgement checks against its predecessor. |
| `Audit.AuditIsExact` | benchmarks/audit_study.py:57-130 | A report passes if and only if there is a history of requests whose samples and ids are those of the report and lists, that explains counts, timeline and labels, and in which everything accepted is stored, everything stored was attempted and nothing is both accepted and ambiguous. |
| `Audit.AuditRun` | benchmarks/audit_study.py:57-130 | The auditor accepts exactly the reports that satisfy its checks, which are exactly those with such a history; after acceptance every accepted id is stored and not ambiguous and every stored id was attempted. |
| `Audit.EventsAreIds` | benchmarks/audit_study.py:94-98 | The auditor's sums over request samples are the driver's id counts, for every kind of request. |
| `Audit.AssignedAreIds` | benchmarks/audit_study.py:75-78 | Handing the attempted ids out to the requests in order gives every request its own ids. |
| `Audit.AckCount` | internal/benchmark/pipeline.go:546-577 | With distinct ids the reconstructed acknowledgement count at any time is the auditor's sum over request samples. |
| `Audit.VisibilityPasses` | internal/benchmark/pipeline.go:507-516 | A complete observation has one latency sample for every observed id. |
| `Audit.CorrectRunsPassTheAudit` | benchmarks/audit_study.py:57-130 | Every run that was not aborted and that the driver marks correct with delivery passed satisfies the auditor's checks. |
| `MeasuredRun.Account` | internal/benchmark/pipeline.go:442-448 | Recording the results one by one yields an accounting of exactly that list. |
| `MeasuredRun.DistinctJobsDistinctIds` | internal/benchmark/pipeline.go:307-321 | Jobs recorded once each never repeat an id when the planned ids are distinct. |
| `MeasuredRun.CountedAreReplies` | internal/benchmark/pipeline.go:271-279 | In every interleaving an id is counted as accepted, ambiguous, rejected, in the window or after it exactly when a reply of the run to a request with that id says so. |
| `MeasuredRun.RequestFlowDelivers` | internal/benchmark/pipeline.go:249-463 | In every interleaving the finished request flow hands over distinct, bounded, well-timed requests with planned = missed + attempted, past its window unless aborted, whose accepted and ambiguous ids are exactly those that some reply accepted or left open. |
| `MeasuredRun.ObserverDelivers` | internal/benchmark/pipeline_observer.go:23-47 | In every interleaving of the observer, any recorded part of its results is in order, lies within the run and is the first answers of the database. |
| `MeasuredRun.MeasuredRunPassesAudit` | internal/benchmark/pipeline.go:249-589 | From any interleaving of scheduler, workers, observer and accounting loop to the audited report: a correct run that was not aborted passes the independent audit. |
| `MeasuredRun.CorrectLosesNothing` | internal/benchmark/pipeline.go:118-177 | A run marked correct lost nothing: every id that some reply acknowledged is stored, and every stored id was sent. |
| `MeasuredRun.SetsComeBack` | benchmarks/audit_study.py:47-55 | The id lists of a run in which everything stored was attempted come back from the capture unchanged, in order. |
| `MeasuredRun.RunAndAudit` | internal/benchmark/pipeline.go:746-773 | The whole composition, accounting, observations, drain, report, stored lists, decoding and audit: for every interleaving of the request flow, every run of the observer and every verification result, a report marked correct whose load was not aborted is accepted by the auditor, and every id that some reply of the run acknowledged is stored; the load is aborted only by the end of the context. |
| `Populations.EncodeList` | internal/benchmark/study.go:213-221 | The loop splits a list into the indices of planned ids and the remaining ids, in order. |
| `Populations.Encode` | internal/benchmark/study.go:197-224 | Every named list is stored as its indices and, only if it has any, its unplanned ids; outbox lists are stored as they are. |
| `Populations.RoundTrip` | benchmarks/audit_study.py:47-55 | Decoding never meets an index out of range, gives back every id as often as it was, and the very same list when all its ids were planned. |
| `StudyCase.ValidateRuns` | internal/benchmark/study.go:88-107 | Passes exactly when the runs are the repetitions 1..n, each correct and none twice. |
| `StudyCase.ValidateWrites` | internal/benchmark/results.go:14-27 | Passes exactly when every write method has the repetitions 1..n, at least three, each correct with its counts adding up and none twice. |
| `StudyCase.Conclude` | internal/benchmark/study.go:530-549 | The status after a measurement is the one its report, its error and the cancellation call for. |
| `StudyCase.ClassifyIsExact` | internal/benchmark/study.go:530-573 | A case is finished, and the study goes on past it, only with every repetition validated; it is complete exactly without an error and without a limited run, limited exactly with a limited run and no error or with only its observations failed; it is passed unfinished if and only if the study was cancelled and only its observations failed. |
| `StudyJournal.StepKeepsInv` | internal/benchmark/study.go:330-574 | Every step of a study process, with saves and publications that may fail or take effect unreported, keeps the invariant of disk and memory. |
| `StudyJournal.NamesAreFresh` | internal/benchmark/artifacts.go:58-61 | Across any sequence of processes, crashes and resumes a manifest, capture or resource name about to be published is new, so nothing is written twice. |
| `StudyJournal.DoneIsForever` | internal/benchmark/study.go:496-500 | The progress of a complete or limited case is identical in every later journal, and no published artifact is ever changed or removed. |
| `StudyJournal.FinishedIsValidated` | internal/benchmark/study.go:530-561 | Whatever was cancelled or crashed, a case journaled complete or limited has a capture that holds every repetition, correct and once. |
| `StudyJournal.CompleteMeansDone` | internal/benchmark/study.go:429-437 | A study that was never cancelled and is journaled complete has every case done, with a capture that holds exactly its repetitions, each correct. |
| `StudyJournal.CompleteIsExact` | internal/benchmark/study.go:535-547 | With cancellation, a process about to journal complete has every case done if and only if it did not publish the capture of a case that it measured while cancelled and whose observations alone had failed. |
| `StudyJournal.CompleteOnDiskIsExact` | internal/benchmark/study.go:429-439 | A journal on disk that says complete is right about every case if and only if the process that wrote it last left no such case. |
| `StudyJournal.CancelledStudyCanClaimComplete` | internal/benchmark/study.go:544-547 | A concrete run in which a cancelled study is journaled complete although its only case is incomplete. |

## Left out

- Kafka, PostgreSQL, SQLite, HTTP, TLS and DNS themselves: only the contracts stated above are modelled.
- Go's JSON, time and UUID decoding: an envelope is decoded by a total classifier, `JsonDepth` starts from tokens and `JsonNumber` from grammar-valid numbers; that UTF-8 bytes, well-formed JSON and tokens fit together is not part of the model.
- The text of SQL statements and their placeholders, metrics, notifications and logging.
- Worker.Reader.Run: looks at any finite number of answers from the broker, since the loop itself has no end; the group protocol behind joins and rebalances is the Join, Assign and Revoke steps.
- Delivery.StepKeepsInv: brokers, offsets and database are values in a state machine rather than objects, because steps of many processes interleave on them.
- Publisher.Send: the deadline is given as the number of callbacks read before it; metrics and the wording of failures are not modelled.
- Publisher.SendBatch: the answers are given as a sequence; the waits between attempts and the sockets behind an attempt are not modelled.
- Outbox.OutboxFile.CreateOrder: the JSON text of the body is an opaque value.
- EndToEnd.StepKeepsInv: selecting rows, one callback, one answer and the update of the rows are single steps of a machine, because dispatchers, handlers, broker and readers interleave on them.
- RateLimiter.Limiter.Allow: lookup and update of a bucket are one atomic step; token amounts are exact billionths instead of floating point.
- LoadDriver.NeverAheadOfSchedule: due times are exact fractions instead of floating point, a job's check against the clock and its offer to the queue are one step, and the late-schedule count is a free number.
- Accounting.Observations.Record: maximum gaps and query times, which only feed the report's diagnostics, are not modelled.
- Audit.AuditRun: latency percentiles and event rates, computed by the same expressions on both sides, connection statistics and SHA-256 (id sets are compared as sets) are not modelled.
- Reconcile.Drain: whether an observation under way when the observer is cancelled is still delivered is a free choice.
- Reconcile.Finish: percentiles, event rates and the list of limit reasons behind the outcome are not modelled.
- StudyJournal.StepKeepsInv: one process at a time works on an output directory; the runner is a step machine over disk and memory because it may stop between any two effects; the index and summary files and the identity checks before a resume are not modelled.
- Recovery cases, calibration, connection studies, manifests, resource sampling, registries, plotting, deployment, authentication, request ids and health flags: they would only add easy members.
