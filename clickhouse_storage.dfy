/** The class storage_clickhouse of lib/index.js: the buffer `Map`, the error sink, the
    timer handle and the counters are fields that its methods update in place. Each
    method proves that it performs the transition BufferEngine defines for it and that
    it keeps the invariant of BufferInvariants. */
module ClickhouseStorage {
  import opened BufferEngine
  import opened BufferInvariants
  import TickProperties

  class StorageClickhouse<Row> {
    /** The keys of `this.buffer` in insertion order, and its values. */
    var order: seq<Key>
    var buffer: map<Key, Batch<Row>>
    /** `this.errors`: failures per error bucket. */
    var errors: map<string, seq<Failure>>
    /** `this.timer`: the period of the running interval timer, None for `null`. */
    var timer: Option<nat>
    var timerMiss: nat
    var currentTimerInterval: nat
    var lineReceived: nat
    var lineInserted: nat
    /** The requests handed to the transport, and the `inserted`/`error` notifications. */
    var sent: seq<Request<Row>>
    var events: seq<Event<Row>>
    /** Every row ever inserted, per buffer key. */
    ghost var received: map<Key, seq<Row>>

    ghost function Model(): State<Row>
      reads this
    {
      State(order, buffer, errors, timer, timerMiss, currentTimerInterval,
            lineReceived, lineInserted, sent, events, received)
    }

    ghost predicate Valid()
      reads this
    {
      Wf(Model())
    }

    /** lib/index.js:7-24 */
    constructor ()
      ensures Valid() && Model() == Init()
    {
      order, buffer, errors := [], map[], map[];
      timer, timerMiss, currentTimerInterval := None, 0, TimerDefaultInterval;
      lineReceived, lineInserted := 0, 0;
      sent, events := [], [];
      received := map[];
      InitWf<Row>();
    }

    /** lib/index.js:110-113 */
    method RunTimer()
      modifies this
      ensures Model() == BufferEngine.RunTimer(old(Model()))
      ensures old(Valid()) ==> Valid()
    {
      timer := Some(currentTimerInterval);
      if old(Valid()) {
        RunTimerPreservesWf(old(Model()));
      }
    }

    /** lib/index.js:95-108 */
    method ClearTimer(full: bool)
      modifies this
      ensures Model() == BufferEngine.ClearTimer(old(Model()), full)
      ensures old(Valid()) ==> Valid()
    {
      if full {
        currentTimerInterval := TimerDefaultInterval;
      }
      lineInserted := 0;
      lineReceived := 0;
      timer := None;
      if old(Valid()) {
        ClearTimerPreservesWf(old(Model()), full);
      }
    }

    /** lib/index.js:198-223 */
    method Insert(tableName: string, row: Row, errorsKey: Option<string>)
      requires Valid()
      modifies this
      ensures Valid()
      ensures Model() == BufferEngine.Insert(old(Model()), tableName, row, errorsKey)
    {
      AppendRow(tableName, row, errorsKey);
      InsertPreservesWf(old(Model()), tableName, row, errorsKey);
    }

    /** The steps of `insert` on the fields, with no appeal to the invariant. */
    method AppendRow(tableName: string, row: Row, errorsKey: Option<string>)
      modifies this
      ensures Model() == BufferEngine.Insert(old(Model()), tableName, row, errorsKey)
    {
      ghost var s := Model();
      lineReceived := lineReceived + 1;
      var bufferKey := BufferKey(tableName, errorsKey);
      var batch;
      if bufferKey in buffer {
        batch := buffer[bufferKey];
      } else {
        batch := Batch(tableName, errorsKey, []);
        order := order + [bufferKey];
      }
      buffer := buffer[bufferKey := batch.(values := batch.values + [row])];
      received := received[bufferKey := Received(s, bufferKey) + [row]];
      ghost var s1 := Model();
      if timer == None {
        RunTimer();
      }
      assert s1 == s.(lineReceived := s1.lineReceived, order := s1.order, buffer := s1.buffer, received := s1.received);
    }

    /** The send half of `insert_json` (lib/index.js:225-232). */
    method InsertJson(key: Key, tableName: string, values: seq<Row>, errorsKey: Option<string>)
      modifies this
      ensures Model() == BufferEngine.InsertJson(old(Model()), key, tableName, values, errorsKey)
    {
      var bucket := ErrorsBucket(errorsKey);
      var query := InsertQuery(tableName);
      sent := sent + [Request(key, query, tableName, bucket, values)];
    }

    /** lib/index.js:144-175 */
    method FlushBuffer(key: Key)
      requires Valid() && key in buffer
      modifies this
      ensures Valid()
      ensures Model() == Flush(old(Model()), key)
    {
      DrainBatch(key);
      FlushPreservesWf(old(Model()), key);
    }

    /** The steps of `flush_buffer` on the fields. The batch is a value here: the source's
        `Object.assign(buffer)` hands back the stored object itself, and the one change
        made through it (the `splice`) is stored back under the same key at once. */
    method DrainBatch(key: Key)
      requires key in buffer
      modifies this
      ensures Model() == Flush(old(Model()), key)
    {
      var batch := buffer[key];
      var valuesForInsert: seq<Row> := [];
      if |batch.values| > MaxValuesPerQuery + SplitSlack {
        if |batch.values| > MaxValuesPerQuery * BacklogFactor && currentTimerInterval == TimerDefaultInterval {
          currentTimerInterval := AcceleratedInterval;
          ClearTimer(false);
          RunTimer();
          return;
        }
        valuesForInsert := batch.values[..MaxValuesPerQuery];
        batch := batch.(values := batch.values[MaxValuesPerQuery..]);
        buffer := buffer[key := batch];
      } else {
        valuesForInsert := batch.values;
        buffer := buffer - {key};
        order := Without(order, key);
      }
      if |valuesForInsert| > 0 {
        InsertJson(key, batch.tableName, valuesForInsert, batch.errorsKey);
      }
    }

    /** The body of the interval timer (lib/index.js:113-141); it runs only while a timer
        is set. */
    method Tick()
      requires Valid() && timer.Some?
      modifies this
      ensures Valid()
      ensures Model() == BufferEngine.Tick(old(Model()))
    {
      Sweep();
      TickProperties.TickPreservesWf(old(Model()));
    }

    /** The steps of one timer tick on the fields. */
    method Sweep()
      modifies this
      ensures Model() == BufferEngine.Tick(old(Model()))
    {
      if timerMiss >= MissLimit {
        ClearTimer(true);
      }
      ghost var checked := Model();
      var bufferIsNotEmpty := false;
      // forEach visits the keys present when it starts: a flush never adds a key
      var keys := order;
      var i := 0;
      while i < |keys|
        invariant 0 <= i <= |keys|
        invariant Scan(Model(), keys[i..], bufferIsNotEmpty) == Scan(checked, keys, false)
      {
        var key := keys[i];
        if key in buffer && |buffer[key].values| > 0 {
          bufferIsNotEmpty := true;
          DrainBatch(key);
        }
        i := i + 1;
      }
      if !bufferIsNotEmpty {
        timerMiss := timerMiss + 1;
      } else {
        timerMiss := 0;
      }
    }

    /** The callback of `insert_json` (lib/index.js:232-251) for request `req`. */
    method Complete(req: Request<Row>, outcome: Outcome)
      requires Valid()
      modifies this
      ensures Valid()
      ensures Model() == BufferEngine.Complete(old(Model()), req, outcome)
    {
      Record(req, outcome);
      CompletePreservesWf(old(Model()), req, outcome);
    }

    /** The steps of the callback on the fields. */
    method Record(req: Request<Row>, outcome: Outcome)
      modifies this
      ensures Model() == BufferEngine.Complete(old(Model()), req, outcome)
    {
      if Fails(outcome) {
        events := events + [InsertFailed(outcome.failure, req.query, req.values)];
        var container := if req.bucket in errors then errors[req.bucket] else [];
        errors := errors[req.bucket := container + [outcome.failure]];
        return;
      }
      var numLines := |req.values|;
      lineInserted := lineInserted + numLines;
      events := events + [Inserted(numLines)];
    }
  }
}
