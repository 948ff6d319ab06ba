# The write buffer of the ClickHouse storage client

`storage_clickhouse` (lib/index.js) is a small Node client that batches rows for
ClickHouse. `insert(table_name, row, errors_key)` appends a row to an
insertion-ordered `Map` keyed by `table_name+'_'+errors_key`. It also starts an
interval timer if none is running. Each firing of the timer does three things:

- it stops the timer, in full mode, once `timer_miss` has reached 10;
- it flushes every non-empty batch;
- it counts an idle tick in `timer_miss`, or resets the count to 0 when some
  batch was found.

`flush_buffer` handles a batch in one of three ways:

- a batch of at most `max_values_per_query + 100` rows is sent whole and its key
  is deleted;
- a larger batch gives up its first `max_values_per_query` rows;
- a batch of more than `5 * max_values_per_query` rows, seen at the default
  interval, sends nothing and instead switches the timer to a 200 ms cadence
  (the "storage optimizer").

The callback of `insert_json` adds the row count to `line_inserted` on success.
On failure it appends the error to the list for `errors_key || 'all'`.

The project models this engine in two layers:

- `BufferEngine` (buffer_engine.dfy) describes the client's fields as a value
  `State`, with one transition function per operation. `insert_json` is split into
  a send step (`InsertJson`, which records the request) and a completion step
  (`Complete`, which applies the transport's outcome).
- `ClickhouseStorage.StorageClickhouse` (clickhouse_storage.dfy) is the class
  itself. Its fields are updated in place by methods that follow the source
  statement by statement. Each method proves that it performs exactly the
  transition `BufferEngine` defines. The constructor and the methods
  `RunTimer`, `ClearTimer`, `Insert`, `FlushBuffer`, `Tick` and `Complete` also
  keep the invariant. `InsertJson` is the second half of a flush: `flush_buffer`
  first takes the rows out of the buffer (lib/index.js:164-169), and the FIFO law
  does not hold again until `insert_json` records them as sent (lib/index.js:173).
  - The timer body is `Tick`, which calls `Sweep`. In `Sweep` the `forEach` is a
    `while` loop over the keys, with the `buffer_is_not_empty` flag.
  - Each public method (`Insert`, `FlushBuffer`, `Tick`, `Complete`) pairs with a
    helper (`AppendRow`, `DrainBatch`, `Sweep`, `Record`). The helper carries out
    the steps on the fields. The public method adds the invariant around it.

The properties are proved about the transition functions:

- `BufferInvariants` proves that every operation keeps the invariant. The heart
  of the invariant is the FIFO law: for every buffer key, the rows already sent
  followed by the rows still buffered are exactly the rows inserted under that
  key, in order.
- `TickProperties` proves what one timer firing does to every batch, to the miss
  count and to the timer.
- `Scenarios` proves what runs of several operations do. These are the idle stop
  and the restart that stops again, a remainder stranded by an idle stop,
  colliding keys, the draining of a backlog, and series of completions.

A request records the buffer key its rows were taken from. This bookkeeping is
what the FIFO law is stated against. The `received` field (every row ever
inserted, per key) is ghost for the same reason.

Facts about the code that the model makes explicit:

- A lone backlog of 10000 rows leaves in 198 requests (197 of 50 rows, then one
  of 150), not 200, because `flush_buffer` never splits a batch of 150 rows or
  fewer (lib/index.js:152). The tick before those requests only switches the
  cadence (`Scenarios.TenThousandRowsTake198Requests`,
  `Scenarios.TenThousandRowBacklog`).
- `flush_buffer` on a key that is not in the buffer throws at
  `Object.assign(undefined)` (lib/index.js:149). The timer never does this,
  because it only flushes keys it is visiting that hold rows. `Flush` and
  `FlushBuffer` therefore require the key to be present.
- The error sink keeps only the error of a failed request (lib/index.js:242). The
  failed rows travel in the `error` notification, which is how `Complete`
  records them.
- The batch size is the constant 50 (lib/index.js:16), not a setting.

## Model

| member | source | states |
|---|---|---|
| BufferEngine.ErrorsBucket | lib/index.js:226 | a failure is filed under the tag itself, except that a missing or empty tag (and the tag "all") goes to "all"; the bucket is never empty |
| BufferEngine.PostOutcome | lib/index.js:51-55 | the transport reports success exactly for status 200, with the body; any other status is a failure carrying the body |
| BufferEngine.TagText | lib/index.js:203 | in the key, a tag stands for itself and a missing tag for "undefined"; only those two give the text "undefined" |
| BufferEngine.InsertQuery | lib/index.js:229 | the statement is `INSERT INTO `, the table name, then ` FORMAT JSONEachRow` |
| BufferEngine.IsTruthy | lib/index.js:233 | every error is truthy except a response body that is empty |
| BufferEngine.Fails | lib/index.js:233 | the callback takes its error branch only when an error was passed, and then exactly when that error is not the empty body |
| BufferEngine.Without | lib/index.js:169 | deleting a key from the key order removes exactly that key; the other keys keep their order, which is the order of the next tick's `forEach`; an absent key leaves the order as it was |
| BufferEngine.Init | lib/index.js:7-24 | a new client has an empty buffer and error sink, no timer, the default 1000 ms interval and zero counters |
| BufferEngine.RunTimer | lib/index.js:110-113 | `runTimer` starts a timer at the current interval and changes nothing else |
| BufferEngine.ClearTimer | lib/index.js:95-108 | `clearTimer` stops the timer and zeroes both line counters; it restores the default interval only in full mode; it leaves the miss count, the buffer and the errors alone |
| BufferEngine.Insert | lib/index.js:198-223 | the row is appended at the end of the batch for `table_name+'_'+errors_key`, which is created with that table and tag when absent and then keeps its place in the key order; every other batch is unchanged; `line_recieved` grows by 1; a timer is started only when none runs |
| BufferEngine.InsertJson | lib/index.js:225-232 | the send step issues exactly one request, with the statement `INSERT INTO <table> FORMAT JSONEachRow`, the bucket `errors_key`, or 'all' when it is falsy, and the rows, and changes nothing else |
| BufferEngine.DrainCount | lib/index.js:152-170 | a flush that does not switch cadence takes the whole batch exactly when it has at most 150 rows, and exactly 50 rows of a larger batch |
| BufferEngine.Accelerates | lib/index.js:152-156 | the optimizer fires exactly on a batch of more than 250 rows at the default interval; the outer 150-row guard is implied |
| BufferEngine.Flush | lib/index.js:144-175 | the three outcomes: a whole batch is sent and its key deleted; a large batch sends its first 50 rows and keeps the rest in order under the same key; under the optimizer's guard nothing is sent and the interval becomes 200 with a restarted timer and zeroed counters; no other key changes |
| BufferEngine.IdleChecked | lib/index.js:118-120 | once `timer_miss` has reached 10 the check stops the timer, restores the 1000 ms interval and zeroes both line counters; below 10 it changes nothing; the buffer, the requests and the miss count are always kept |
| BufferEngine.Scan | lib/index.js:122-131 | the `forEach` never creates a key, never clears the flag once set, and leaves errors, notifications and the miss count alone; what it does to each batch is stated by `TickProperties.ScanDrains`, `TickProperties.ScanHoldsAtMostOne`, `TickProperties.ScanFrame` and `TickProperties.ScanTimer` |
| BufferEngine.Tick | lib/index.js:113-141 | a tick leaves `timer_miss` at 0 or one more than before and files no error; its effect on each batch and on the timer is stated by `TickProperties.TickFlushesEveryBatch`, `TickProperties.TickCountsMisses` and `TickProperties.TickStopsTimer` |
| BufferEngine.Complete | lib/index.js:232-251 | a truthy error is appended to its bucket after the earlier ones, is notified and leaves `line_inserted` alone; otherwise `line_inserted` grows by the number of rows; the buffer is never refilled |
| BufferInvariants.InitWf | lib/index.js:7-24 | the constructor's state satisfies the invariant |
| BufferInvariants.InsertPreservesWf | lib/index.js:198-223 | `insert` keeps the invariant, the FIFO law included |
| BufferInvariants.RunTimerPreservesWf | lib/index.js:110-113 | `runTimer` keeps the invariant |
| BufferInvariants.ClearTimerPreservesWf | lib/index.js:95-108 | `clearTimer` keeps the invariant |
| BufferInvariants.CompletePreservesWf | lib/index.js:232-251 | a completion keeps the invariant |
| BufferInvariants.FlushPreservesWf | lib/index.js:144-175 | `flush_buffer` keeps the invariant |
| BufferInvariants.FlushKeepsKeys | lib/index.js:152-170 | after a flush the key order still lists exactly the present keys, each batch is non-empty and under its own key, and the interval is 1000 or 200 |
| BufferInvariants.FlushKeepsFifo | lib/index.js:164-174 | a flush of any present key, an empty batch included, moves the first rows of the batch into a request and keeps the rest in order, so sent rows followed by buffered rows are still the inserted rows |
| BufferInvariants.SentRowsAppend | lib/index.js:173 | a request adds its rows after the rows sent earlier under its key, and nothing under other keys |
| TickProperties.FlushSends | lib/index.js:144-175 | per key, a flush either sends exactly the first DrainCount rows of the batch and keeps the rest (slice followed by remainder is the old batch), or, under the optimizer's guard, holds the batch; every other key is untouched |
| TickProperties.FlushKeepsVisitable | lib/index.js:124-131 | after flushing the key being visited, the keys still to visit are present and hold rows |
| TickProperties.ScanPreservesWf | lib/index.js:124-131 | the scan of a tick keeps the invariant |
| TickProperties.ScanFrame | lib/index.js:122-131 | the scan reports a non-empty buffer exactly when it visited a key; keys it does not visit keep their rows and send nothing; errors, notifications and the miss count are untouched |
| TickProperties.DrainedAcross | lib/index.js:124-131 | a batch drained once and held at the other steps of a scan ends drained |
| TickProperties.ScanDrains | lib/index.js:124-131 | every visited key is drained by DrainCount rows, or held when the optimizer fires on it |
| TickProperties.ScanTimer | lib/index.js:152-161 | during a scan the timer and counters change only through the optimizer, which moves the interval from 1000 to 200, restarts the timer and zeroes the counters; without a batch over the guard the interval does not change |
| TickProperties.ScanHoldsAtMostOne | lib/index.js:124-161 | at most one key is held in a scan: after the optimizer fires, the rest of the `forEach` keeps running and drains every later key |
| TickProperties.BufferEmptyIffNoKeys | lib/index.js:124 | the key order is empty exactly when the buffer `Map` is |
| TickProperties.WfVisitable | lib/index.js:124 | a well-formed buffer can be scanned over its own key order |
| TickProperties.TickPreservesWf | lib/index.js:113-141 | a tick keeps the invariant |
| TickProperties.TickFlushesEveryBatch | lib/index.js:122-131 | a tick calls `flush_buffer` on every batch: each loses its first DrainCount rows to a request, except at most one batch of more than 250 rows, which is held whole |
| TickProperties.TickTouchesOnlyBuffered | lib/index.js:122-131 | a tick creates no key, sends nothing for keys without a batch, and files no error |
| TickProperties.TickCountsMisses | lib/index.js:133-140 | after a tick, `timer_miss` is the old count plus one when the buffer was empty, and 0 otherwise |
| TickProperties.TickStopsTimer | lib/index.js:118-120 | a tick stops the timer exactly when the miss count had reached 10 and the optimizer did not restart it; with no batch over 250 rows the stop always happens and restores the default interval with zero counters |
| TickProperties.AccelerationIsOneShot | lib/index.js:154-161 | at the 200 ms interval the optimizer's guard is false for every batch, a flush keeps the interval, and a tick keeps it unless it takes the idle stop (the only full `clearTimer`) |
| Scenarios.IdleTick | lib/index.js:118-137 | a tick over an empty buffer only counts a miss, after the idle stop when the count had reached 10 |
| Scenarios.IdleTicksStopTimer | lib/index.js:118-137 | with nothing buffered the timer runs until `timer_miss` reaches 10; the next tick stops it with the default interval and zero counters, and the count becomes 11 |
| Scenarios.RestartAfterIdleStopStopsAgain | lib/index.js:118-120 | after an idle stop, `insert` restarts the timer with the miss count still at least 10, so the first tick stops it again; that tick still sends the row and resets the count |
| Scenarios.OneRowFlush | lib/index.js:167-174 | flushing the only batch, of one row, empties the buffer and sends that row to its table |
| Scenarios.WithoutOnly | lib/index.js:169 | deleting the only key leaves no key |
| Scenarios.IdleStopStrandsRemainder | lib/index.js:118-131 | a tick that takes the idle stop still splits a batch of more than 150 rows, leaving its remainder buffered with no timer running |
| Scenarios.KeysCollide | lib/index.js:203 | ("a_b", "c") and ("a", "b_c") share a buffer key, and so do a missing tag and the tag "undefined", whose errors go to different buckets |
| Scenarios.PlainTablesKeepKeysApart | lib/index.js:203 | for table names without an underscore, two inserts share a buffer key exactly when they name the same table and their tags have the same text |
| Scenarios.ShorterTableOtherKey | lib/index.js:203 | a table name shorter than another that holds no underscore never shares that one's key, whatever the tags |
| Scenarios.InsertQueryNamesTable | lib/index.js:229 | two flushes send the same statement exactly when they name the same table |
| Scenarios.SameKeyInsertsShareBatch | lib/index.js:203-211 | two inserts under one key into an empty buffer fill one batch with both rows, keeping the first table and tag, and it leaves in one request to the first table |
| Scenarios.CollidingInsertsShareBatch | lib/index.js:203-211 | two colliding inserts fill one batch that keeps the first table and tag, so the second row is sent to the first row's table |
| Scenarios.RoundsShape | lib/index.js:152-168 | the flushes that drain a batch take every row once: rounds of 50 rows, then one last round of 1 to 150 rows |
| Scenarios.RoundsCount | lib/index.js:152-168 | a batch of n rows takes 1 request when n is at most 150, and (n - 101) / 50 + 1 requests otherwise |
| Scenarios.TenThousandRowsTake198Requests | lib/index.js:152-168 | 10000 rows leave in 198 requests |
| Scenarios.Sizes | lib/index.js:173 | the size list has one entry per request, its row count |
| Scenarios.SingleKeyTick | lib/index.js:118-140 | a tick over a buffer with one key is one flush of that key after the idle check, and resets the miss count |
| Scenarios.LoneRequestsRows | lib/index.js:164-174 | the requests that drain a batch carry its rows in order, under its key only |
| Scenarios.LoneRequestsSizes | lib/index.js:164-174 | those requests have the sizes of the rounds |
| Scenarios.LoneStep | lib/index.js:122-174 | one tick over a lone accelerated batch sends its first request and leaves the rest, if any, as a lone accelerated batch |
| Scenarios.LoneBacklogDrains | lib/index.js:122-175 | once accelerated, a lone batch is drained by one tick per round; afterwards the buffer is empty, exactly those requests have been sent and the timer still runs at 200 ms |
| Scenarios.LoneBacklogSends | lib/index.js:122-175 | draining a lone backlog of n rows sends as many requests as Rounds(n) has entries, with the sizes Rounds(n), carrying its rows in order |
| Scenarios.BacklogAccelerates | lib/index.js:154-161 | the first tick over a lone batch of more than 250 rows at the default interval sends nothing and switches to the 200 ms cadence |
| Scenarios.BacklogDrains | lib/index.js:113-175 | such a backlog of n rows is gone after one tick more than Rounds(n) has entries, with all its rows sent in order |
| Scenarios.TenThousandRowBacklog | lib/index.js:113-175 | a lone backlog of 10000 rows is gone after 199 ticks and 198 requests |
| Scenarios.CompleteAllEffect | lib/index.js:232-251 | over a series of completions, each bucket gains exactly its failures in order; `line_inserted` grows by the rows of the successes; one notification per completion; the buffer and the requests are untouched |
| Scenarios.AllFailedInsertsNothing | lib/index.js:233-247 | when every request fails, no row is counted as inserted |
| Scenarios.EmptyErrorBodyCountsAsInserted | lib/index.js:51-55 | a non-200 answer is a failure, but `if (err)` is false for an empty body, so such an answer counts its rows as inserted and files nothing |
| ClickhouseStorage.StorageClickhouse.constructor | lib/index.js:7-24 | the fields start in the state `Init`, which satisfies the invariant |
| ClickhouseStorage.StorageClickhouse.RunTimer | lib/index.js:110-113 | sets the timer as `BufferEngine.RunTimer` does and keeps the invariant |
| ClickhouseStorage.StorageClickhouse.ClearTimer | lib/index.js:95-108 | updates the fields as `BufferEngine.ClearTimer` does and keeps the invariant |
| ClickhouseStorage.StorageClickhouse.Insert | lib/index.js:198-223 | performs `BufferEngine.Insert` on the fields and keeps the invariant |
| ClickhouseStorage.StorageClickhouse.AppendRow | lib/index.js:198-223 | the statements of `insert` on the fields perform `BufferEngine.Insert` |
| ClickhouseStorage.StorageClickhouse.InsertJson | lib/index.js:225-232 | records the request as `BufferEngine.InsertJson` does |
| ClickhouseStorage.StorageClickhouse.FlushBuffer | lib/index.js:144-175 | performs `BufferEngine.Flush` on the fields and keeps the invariant |
| ClickhouseStorage.StorageClickhouse.DrainBatch | lib/index.js:144-175 | the statements of `flush_buffer` on the fields perform `BufferEngine.Flush` |
| ClickhouseStorage.StorageClickhouse.Tick | lib/index.js:113-141 | performs `BufferEngine.Tick` on the fields and keeps the invariant |
| ClickhouseStorage.StorageClickhouse.Sweep | lib/index.js:113-141 | the idle check, the `forEach` loop with its flag and the miss count update on the fields perform `BufferEngine.Tick` |
| ClickhouseStorage.StorageClickhouse.Complete | lib/index.js:232-251 | performs `BufferEngine.Complete` on the fields and keeps the invariant |
| ClickhouseStorage.StorageClickhouse.Record | lib/index.js:232-251 | the statements of the callback on the fields perform `BufferEngine.Complete` |

## Left out

- `http_post` (lib/index.js:26-81) is Node `http` I/O: sockets, the 10 s socket timeout, the streamed body and the basic-auth header. Its outcome is a parameter of `Complete`; only its status rule is kept, as `PostOutcome`.
- Overlapping in-flight requests are not modelled. Completions arrive as explicit calls in any order the caller chooses.
- The `JSON.stringify` body (lib/index.js:232) is left out. Rows are opaque values of a type parameter.
- `setInterval`/`clearInterval` timing is left out. A firing of the timer is an explicit `Tick` call, allowed while a timer is set, and the `timer` field holds only the period of the running timer.
- `log`, `console.log` and the `log` events are left out. The `inserted` and `error` notifications are kept as the `events` field.
- `init` zeroes `line_recieved` and `line_inserted` (lib/index.js:180-181), probes the transport with `SELECT 'test ok'` and emits `error` on failure; `query` passes a statement to the transport; `close` only logs (lib/index.js:177-196, 254-264). All three are left out, so the model has no call that resets the two counters between inserts other than `clearTimer`.
- The `params` object and `enable_log` are left out. So is `processor` being `null`, where `emit` would throw in the source, and a processor without an `error` listener, where `emit('error', …)` throws before the error reaches `this.errors` (lib/index.js:235-242). The model assumes the observer listens for `error`, as example.js does.
- Tags are `Option<string>`; the source takes any JavaScript value. A tag of `null`, `0` or `false` gives the key text `null`, `0` or `false` at lib/index.js:203 while `errors_key || 'all'` files its errors under "all" (lib/index.js:226). The model cannot express such tags.
- example.js is not part of this model. It calls `insert` without a tag, which the model covers as the `None` tag ("undefined" in the key, bucket "all").
- `Object.assign(buffer)` (lib/index.js:149) returns the stored object, not a copy. The model treats the batch as a value and stores the shortened batch back under its key, as the source does at line 166. No other reference to the batch exists, so the aliasing has no other observable effect.
- ClickhouseStorage.StorageClickhouse.FlushBuffer: requires the key to be present. The source throws for an absent key (lib/index.js:149), and the timer never flushes one.
- BufferEngine.Flush: requires the key to be present, for the same reason.
- ClickhouseStorage.StorageClickhouse.Tick: requires a running timer, because the source only fires the callback while an interval is set.
