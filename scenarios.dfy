/** Runs of several operations: the idle stop, the restart that stops again because the
    miss count survives `clearTimer`, the remainder an idle stop strands, colliding
    buffer keys, the draining of a backlog one request per tick, and a series of
    completions. */
module Scenarios {
  import opened BufferEngine
  import opened BufferInvariants
  import opened TickProperties

  /** `n` successive firings of the timer. */
  function Ticks<Row>(s: State<Row>, n: nat): State<Row>
    decreases n
  {
    if n == 0 then s else Ticks(Tick(s), n - 1)
  }

  /** A tick over an empty buffer flushes nothing and only counts a miss, after the idle
      stop when the count had reached MissLimit. */
  lemma IdleTick<Row>(s: State<Row>)
    requires Wf(s) && s.buffer == map[]
    ensures Tick(s) == IdleChecked(s).(timerMiss := s.timerMiss + 1)
  {
  }

  /** With nothing buffered, a running timer keeps firing until the miss count reaches
      MissLimit; the tick after that stops it, restores the default interval, zeroes the
      line counters and still counts one more miss. */
  lemma {:induction false} IdleTicksStopTimer<Row>(s: State<Row>)
    requires Wf(s) && s.buffer == map[] && s.timerMiss <= MissLimit
    ensures Ticks(s, MissLimit - s.timerMiss) == s.(timerMiss := MissLimit)
    ensures Ticks(s, MissLimit - s.timerMiss + 1) == ClearTimer(s, true).(timerMiss := MissLimit + 1)
    decreases MissLimit - s.timerMiss
  {
    IdleTick(s);
    if s.timerMiss < MissLimit {
      var s' := Tick(s);
      TickPreservesWf(s);
      IdleTicksStopTimer(s');
      assert ClearTimer(s', true).(timerMiss := MissLimit + 1) == ClearTimer(s, true).(timerMiss := MissLimit + 1);
    }
  }

  /** `clearTimer` leaves the miss count alone, so after an idle stop the next `insert`
      restarts the timer with the count still at or above MissLimit, and the first tick
      of the restarted timer stops it again. That tick still flushes the row, and the
      row is sent to its table under its error bucket. */
  lemma RestartAfterIdleStopStopsAgain<Row>(s: State<Row>, tableName: string, row: Row, errorsKey: Option<string>)
    requires Wf(s) && s.buffer == map[] && s.timer == None && s.timerMiss >= MissLimit
    ensures var s' := Insert(s, tableName, row, errorsKey);
      && s'.timer == Some(s.interval) && s'.timerMiss == s.timerMiss
    ensures var r := Tick(Insert(s, tableName, row, errorsKey)); var k := BufferKey(tableName, errorsKey);
      && r.timer == None && r.interval == TimerDefaultInterval && r.timerMiss == 0
      && r.buffer == map[]
      && r.sent == s.sent + [Request(k, InsertQuery(tableName), tableName, ErrorsBucket(errorsKey), [row])]
  {
    var k := BufferKey(tableName, errorsKey);
    BufferEmptyIffNoKeys(s);
    InsertPreservesWf(s, tableName, row, errorsKey);
    var s' := Insert(s, tableName, row, errorsKey);
    assert s'.order == [k] && s'.buffer[k] == Batch(tableName, errorsKey, [row]);
    SingleKeyTick(s', k);
    ClearTimerPreservesWf(s', true);
    OneRowFlush(ClearTimer(s', true), k);
  }

  /** Flushing the only batch, of one row, empties the buffer and sends that row. */
  lemma OneRowFlush<Row>(s: State<Row>, k: Key)
    requires Wf(s) && s.order == [k] && |s.buffer[k].values| == 1
    ensures var b := s.buffer[k];
      Flush(s, k) == s.(buffer := map[], order := [],
        sent := s.sent + [Request(k, InsertQuery(b.tableName), b.tableName, ErrorsBucket(b.errorsKey), b.values)])
  {
    var v := s.buffer[k].values;
    assert v[..1] == v;
    WithoutOnly(k);
    FlushPreservesWf(s, k);
    BufferEmptyIffNoKeys(Flush(s, k));
  }

  /** Deleting the only key leaves no key. */
  lemma WithoutOnly(k: Key)
    ensures Without([k], k) == []
  {
  }

  /** An idle stop does not wait for the buffer: when the miss count has reached
      MissLimit while rows keep arriving (an `insert` on a running timer does not reset
      it), the next tick stops the timer and then splits a batch of more than
      MaxValuesPerQuery + SplitSlack rows, so its remainder stays buffered with no timer
      running until the next `insert`. */
  lemma IdleStopStrandsRemainder<Row>(s: State<Row>, k: Key)
    requires Wf(s) && s.timer.Some? && s.timerMiss >= MissLimit
    requires forall x :: x in s.buffer ==> |s.buffer[x].values| <= MaxValuesPerQuery * BacklogFactor
    requires k in s.buffer && |s.buffer[k].values| > MaxValuesPerQuery + SplitSlack
    ensures var r := Tick(s);
      && r.timer == None && r.timerMiss == 0
      && k in r.buffer && r.buffer[k].values == s.buffer[k].values[MaxValuesPerQuery..]
  {
    TickStopsTimer(s);
    TickFlushesEveryBatch(s);
    TickCountsMisses(s);
    TickPreservesWf(s);
  }

  /** Buffer keys are built by plain concatenation, so different (table, tag) pairs can
      share a key, and a missing tag shares its key with the tag "undefined". */
  lemma KeysCollide()
    ensures BufferKey("a_b", Some("c")) == BufferKey("a", Some("b_c")) == "a_b_c"
    ensures BufferKey("logs", None) == BufferKey("logs", Some("undefined"))
    ensures ErrorsBucket(None) != ErrorsBucket(Some("undefined"))
  {
  }

  /** The key is the table name, an underscore and the tag's text, so tables whose names
      hold no underscore never share a key and a key names its table and its tag. */
  lemma PlainTablesKeepKeysApart(t1: string, e1: Option<string>, t2: string, e2: Option<string>)
    requires '_' !in t1 && '_' !in t2
    ensures BufferKey(t1, e1) == BufferKey(t2, e2) <==> t1 == t2 && TagText(e1) == TagText(e2)
  {
    if |t1| < |t2| {
      ShorterTableOtherKey(t1, e1, t2, e2);
    } else if |t2| < |t1| {
      ShorterTableOtherKey(t2, e2, t1, e1);
    } else if BufferKey(t1, e1) == BufferKey(t2, e2) {
      var k := BufferKey(t1, e1);
      assert t1 == k[..|t1|] == t2;
      assert TagText(e1) == k[|t1| + 1..] == TagText(e2);
    }
  }

  /** Where the shorter table name ends, its key holds the underscore and the longer
      name's key a letter of that name. */
  lemma ShorterTableOtherKey(t1: string, e1: Option<string>, t2: string, e2: Option<string>)
    requires '_' !in t2 && |t1| < |t2|
    ensures BufferKey(t1, e1) != BufferKey(t2, e2)
  {
    assert BufferKey(t2, e2)[|t1|] == t2[|t1|];
  }

  /** The statement names its table: two flushes send the same statement only for the
      same table. */
  lemma InsertQueryNamesTable(t1: string, t2: string)
    ensures InsertQuery(t1) == InsertQuery(t2) <==> t1 == t2
  {
    var q1, q2 := InsertQuery(t1), InsertQuery(t2);
    if q1 == q2 {
      assert t1 == q1[12..|q1| - 19] == q2[12..|q2| - 19] == t2;
    }
  }

  /** Two colliding inserts land in one batch, which keeps the table and tag of the
      first: the second row is sent to the first row's table and its failure would be
      filed under the first row's bucket. */
  lemma CollidingInsertsShareBatch<Row>(s: State<Row>, x: Row, y: Row)
    requires Wf(s) && s.buffer == map[]
    ensures var r := Insert(Insert(s, "a_b", x, Some("c")), "a", y, Some("b_c"));
      && r.order == ["a_b_c"]
      && r.buffer == map["a_b_c" := Batch("a_b", Some("c"), [x, y])]
      && Flush(r, "a_b_c").sent == s.sent + [Request("a_b_c", InsertQuery("a_b"), "a_b", "c", [x, y])]
  {
    KeysCollide();
    BufferEmptyIffNoKeys(s);
    SameKeyInsertsShareBatch(s, "a_b", Some("c"), x, "a", Some("b_c"), y);
  }

  /** Two inserts under one buffer key into an empty buffer fill one batch, which keeps the
      first insert's table and tag and leaves in one request to that table. */
  lemma SameKeyInsertsShareBatch<Row>(s: State<Row>, t1: string, e1: Option<string>, x: Row,
                                      t2: string, e2: Option<string>, y: Row)
    requires s.buffer == map[] && s.order == [] && BufferKey(t1, e1) == BufferKey(t2, e2)
    ensures var k := BufferKey(t1, e1); var r := Insert(Insert(s, t1, x, e1), t2, y, e2);
      && r.order == [k]
      && r.buffer == map[k := Batch(t1, e1, [x, y])]
      && Flush(r, k).sent == s.sent + [Request(k, InsertQuery(t1), t1, ErrorsBucket(e1), [x, y])]
  {
    var k := BufferKey(t1, e1);
    var r := Insert(Insert(s, t1, x, e1), t2, y, e2);
    assert r.buffer[k].values == [x, y];
    assert r.buffer == map[k := Batch(t1, e1, [x, y])];
    assert [x, y][..2] == [x, y];
  }

  /** The sizes of the successive requests that drain a batch of `n` rows, one flush per
      tick, once the optimizer no longer fires. */
  function Rounds(n: nat): seq<nat>
    decreases n
  {
    if n == 0 then [] else [DrainCount(n)] + Rounds(n - DrainCount(n))
  }

  function Sum(xs: seq<nat>): nat {
    if xs == [] then 0 else xs[0] + Sum(xs[1..])
  }

  /** The rounds take every row exactly once: full rounds of MaxValuesPerQuery rows, then
      one final round of at most MaxValuesPerQuery + SplitSlack rows. */
  lemma {:induction false} RoundsShape(n: nat)
    ensures Sum(Rounds(n)) == n
    ensures forall i :: 0 <= i < |Rounds(n)| - 1 ==> Rounds(n)[i] == MaxValuesPerQuery
    ensures n > 0 ==> 0 < Rounds(n)[|Rounds(n)| - 1] <= MaxValuesPerQuery + SplitSlack
    decreases n
  {
    if n > 0 {
      var d := DrainCount(n);
      RoundsShape(n - d);
      if n - d > 0 {
        assert Rounds(n)[1..] == Rounds(n - d);
      }
    }
  }

  /** How many requests a backlog of `n` rows takes: one when it fits in a final round,
      otherwise one per MaxValuesPerQuery rows above the largest final round. */
  lemma {:induction false} RoundsCount(n: nat)
    ensures |Rounds(n)| == if n == 0 then 0
                           else if n <= MaxValuesPerQuery + SplitSlack then 1
                           else (n - SplitSlack - 1) / MaxValuesPerQuery + 1
    decreases n
  {
    if n > MaxValuesPerQuery + SplitSlack {
      RoundsCount(n - MaxValuesPerQuery);
    }
  }

  /** A backlog of 10000 rows is sent in 198 requests, not 10000 / 50 = 200: the last
      request carries 150 rows. */
  lemma TenThousandRowsTake198Requests()
    ensures |Rounds(10000)| == 198
  {
    RoundsCount(10000);
  }

  /** The sizes of a sequence of requests. */
  function Sizes<Row>(reqs: seq<Request<Row>>): (sizes: seq<nat>)
    ensures |sizes| == |reqs|
    ensures forall i :: 0 <= i < |reqs| ==> sizes[i] == |reqs[i].values|
  {
    if reqs == [] then [] else [|reqs[0].values|] + Sizes(reqs[1..])
  }

  /** A batch that is alone in the buffer, at the accelerated interval. */
  ghost predicate LoneBacklog<Row>(s: State<Row>, k: Key) {
    && s.order == [k] && s.buffer.Keys == {k} && s.buffer[k].values != []
    && s.interval == AcceleratedInterval && s.timerMiss < MissLimit
  }

  /** A tick over a buffer holding the one key `k` is a single flush of it, after the
      idle check. */
  lemma SingleKeyTick<Row>(s: State<Row>, k: Key)
    requires s.order == [k] && k in s.buffer && s.buffer[k].values != []
    ensures Tick(s) == Flush(IdleChecked(s), k).(timerMiss := 0)
  {
    var s1 := IdleChecked(s);
    assert Scan(s1, s1.order, false) == Scan(Flush(s1, k), [], true);
  }

  /** The requests that drain batch `b`, stored under key `k`, one flush at a time when
      the optimizer no longer fires. */
  function LoneRequests<Row>(k: Key, b: Batch<Row>): seq<Request<Row>>
    decreases |b.values|
  {
    if b.values == [] then []
    else
      var d := DrainCount(|b.values|);
      [Request(k, InsertQuery(b.tableName), b.tableName, ErrorsBucket(b.errorsKey), b.values[..d])]
        + LoneRequests(k, b.(values := b.values[d..]))
  }

  /** Those requests carry the batch's rows in order, all under its key. */
  lemma {:induction false} LoneRequestsRows<Row>(sent: seq<Request<Row>>, k: Key, b: Batch<Row>, x: Key)
    ensures SentRows(sent + LoneRequests(k, b), x) == SentRows(sent, x) + (if x == k then b.values else [])
    decreases |b.values|
  {
    if b.values != [] {
      var v := b.values;
      var d := DrainCount(|v|);
      var req := Request(k, InsertQuery(b.tableName), b.tableName, ErrorsBucket(b.errorsKey), v[..d]);
      var rest := LoneRequests(k, b.(values := v[d..]));
      assert sent + LoneRequests(k, b) == (sent + [req]) + rest;
      LoneRequestsRows(sent + [req], k, b.(values := v[d..]), x);
      SentRowsAppend(sent, req, x);
      assert v[..d] + v[d..] == v;
    } else {
      assert sent + LoneRequests(k, b) == sent;
    }
  }

  /** Their sizes are the rounds of the batch's length. */
  lemma {:induction false} LoneRequestsSizes<Row>(k: Key, b: Batch<Row>)
    ensures Sizes(LoneRequests(k, b)) == Rounds(|b.values|)
    decreases |b.values|
  {
    if b.values != [] {
      var d := DrainCount(|b.values|);
      LoneRequestsSizes(k, b.(values := b.values[d..]));
    }
  }

  /** One tick over a lone accelerated batch sends its first request and leaves the rest,
      if any, as a lone accelerated batch. */
  lemma LoneStep<Row>(s: State<Row>, k: Key)
    requires LoneBacklog(s, k)
    ensures var b := s.buffer[k]; var d := DrainCount(|b.values|); var r := Tick(s);
      var req := Request(k, InsertQuery(b.tableName), b.tableName, ErrorsBucket(b.errorsKey), b.values[..d]);
      && (d == |b.values| ==> r == s.(buffer := map[], order := [], sent := s.sent + [req], timerMiss := 0))
      && (d < |b.values| ==>
            && r == s.(buffer := s.buffer[k := b.(values := b.values[d..])], sent := s.sent + [req], timerMiss := 0)
            && LoneBacklog(r, k))
  {
    SingleKeyTick(s, k);
    var b := s.buffer[k];
    var d := DrainCount(|b.values|);
    var r := Tick(s);
    if d == |b.values| {
      WithoutOnly(k);
      assert r.buffer == s.buffer - {k};
    } else {
      assert r.buffer == s.buffer[k := b.(values := b.values[d..])];
    }
  }

  /** Emptying the buffer and replacing the requests forgets an earlier flush. */
  lemma Emptied<Row>(s: State<Row>, buffer: map<Key, Batch<Row>>, sent0: seq<Request<Row>>, sent: seq<Request<Row>>)
    ensures s.(buffer := buffer, sent := sent0, timerMiss := 0).(buffer := map[], order := [], sent := sent, timerMiss := 0)
         == s.(buffer := map[], order := [], sent := sent, timerMiss := 0)
  {
  }

  lemma SendThenRest<Row>(sent: seq<Request<Row>>, req: Request<Row>, rest: seq<Request<Row>>)
    ensures (sent + [req]) + rest == sent + ([req] + rest)
  {
  }

  /** Once accelerated, a lone batch is drained by one tick per round: the buffer ends
      empty, exactly the requests of LoneRequests are sent, the timer keeps running at
      the accelerated interval, and nothing else changes. */
  lemma {:induction false} LoneBacklogDrains<Row>(s: State<Row>, k: Key)
    requires LoneBacklog(s, k)
    ensures var b := s.buffer[k];
      Ticks(s, |Rounds(|b.values|)|)
        == s.(buffer := map[], order := [], sent := s.sent + LoneRequests(k, b), timerMiss := 0)
    decreases |s.buffer[k].values|
  {
    var b := s.buffer[k];
    var v := b.values;
    var d := DrainCount(|v|);
    LoneStep(s, k);
    assert Rounds(|v|) == [d] + Rounds(|v| - d);
    var req := Request(k, InsertQuery(b.tableName), b.tableName, ErrorsBucket(b.errorsKey), v[..d]);
    var b' := b.(values := v[d..]);
    assert LoneRequests(k, b) == [req] + LoneRequests(k, b');
    var s' := Tick(s);
    if d == |v| {
      assert LoneRequests(k, b') == [];
      assert Ticks(s, |Rounds(|v|)|) == Ticks(s', 0);
    } else {
      assert s'.buffer[k] == b' && |b'.values| < |v|;
      LoneBacklogDrains(s', k);
      var n' := |Rounds(|v| - d)|;
      assert Ticks(s, n' + 1) == Ticks(s', n');
      var sent := s'.sent + LoneRequests(k, b');
      SendThenRest(s.sent, req, LoneRequests(k, b'));
      Emptied(s, s.buffer[k := b'], s.sent + [req], sent);
    }
  }

  /** A backlog of n rows, once accelerated, leaves in |Rounds(n)| requests of the sizes
      Rounds(n), carrying its rows in order. */
  lemma LoneBacklogSends<Row>(s: State<Row>, k: Key)
    requires LoneBacklog(s, k)
    ensures var v := s.buffer[k].values; var r := Ticks(s, |Rounds(|v|)|);
      && r.buffer == map[] && r.timer == s.timer && r.interval == AcceleratedInterval
      && |r.sent| == |s.sent| + |Rounds(|v|)| && Sizes(r.sent[|s.sent|..]) == Rounds(|v|)
      && SentRows(r.sent, k) == SentRows(s.sent, k) + v
      && forall x :: x != k ==> SentRows(r.sent, x) == SentRows(s.sent, x)
  {
    var b := s.buffer[k];
    LoneBacklogDrains(s, k);
    var r := Ticks(s, |Rounds(|b.values|)|);
    assert r.sent[|s.sent|..] == LoneRequests(k, b);
    LoneRequestsSizes(k, b);
    assert |LoneRequests(k, b)| == |Sizes(LoneRequests(k, b))|;
    forall x ensures SentRows(r.sent, x) == SentRows(s.sent, x) + (if x == k then b.values else []) {
      LoneRequestsRows(s.sent, k, b, x);
    }
  }

  /** A lone batch of more than MaxValuesPerQuery * BacklogFactor rows at the default
      interval: the first tick sends nothing and switches to the accelerated interval,
      and the ticks after it drain the batch as LoneBacklogDrains says. */
  lemma BacklogAccelerates<Row>(s: State<Row>, k: Key)
    requires Wf(s) && s.order == [k] && s.interval == TimerDefaultInterval && s.timer.Some?
    requires s.timerMiss < MissLimit
    requires k in s.buffer && |s.buffer[k].values| > MaxValuesPerQuery * BacklogFactor
    ensures var r := Tick(s);
      && r.buffer == s.buffer && r.sent == s.sent && r.timer == Some(AcceleratedInterval)
      && LoneBacklog(r, k)
  {
    assert Scan(s, s.order, false) == Scan(Flush(s, k), [], true);
    TickPreservesWf(s);
  }

  /** A lone backlog of n > MaxValuesPerQuery * BacklogFactor rows at the default interval
      is gone after 1 + |Rounds(n)| ticks: one tick that only accelerates, then one
      request per tick, all its rows sent in order, the timer still running at the
      accelerated interval. */
  lemma BacklogDrains<Row>(s: State<Row>, k: Key)
    requires Wf(s) && s.order == [k] && s.interval == TimerDefaultInterval && s.timer.Some?
    requires s.timerMiss < MissLimit
    requires k in s.buffer && |s.buffer[k].values| > MaxValuesPerQuery * BacklogFactor
    ensures var v := s.buffer[k].values; var r := Ticks(s, 1 + |Rounds(|v|)|);
      && r.buffer == map[] && r.timer == Some(AcceleratedInterval)
      && |r.sent| == |s.sent| + |Rounds(|v|)| && Sizes(r.sent[|s.sent|..]) == Rounds(|v|)
      && SentRows(r.sent, k) == SentRows(s.sent, k) + v
  {
    BacklogAccelerates(s, k);
    LoneBacklogSends(Tick(s), k);
  }

  /** The backlog of 10000 rows: 199 ticks, 198 requests. */
  lemma TenThousandRowBacklog<Row>(s: State<Row>, k: Key)
    requires Wf(s) && s.order == [k] && s.interval == TimerDefaultInterval && s.timer.Some?
    requires s.timerMiss < MissLimit
    requires k in s.buffer && |s.buffer[k].values| == 10000
    ensures var r := Ticks(s, 199);
      && r.buffer == map[] && |r.sent| == |s.sent| + 198
      && SentRows(r.sent, k) == SentRows(s.sent, k) + s.buffer[k].values
  {
    BacklogDrains(s, k);
    TenThousandRowsTake198Requests();
  }

  /** A series of completions, in the order the callbacks run. */
  function CompleteAll<Row>(s: State<Row>, done: seq<(Request<Row>, Outcome)>): State<Row>
    decreases |done|
  {
    if done == [] then s
    else
      var last := done[|done| - 1];
      Complete(CompleteAll(s, done[..|done| - 1]), last.0, last.1)
  }

  /** The failures a series of completions files under `bucket`, in order. */
  function FailuresFor<Row>(done: seq<(Request<Row>, Outcome)>, bucket: string): seq<Failure>
    decreases |done|
  {
    if done == [] then []
    else
      var last := done[|done| - 1];
      FailuresFor(done[..|done| - 1], bucket)
        + (if last.0.bucket == bucket && Fails(last.1) then [last.1.failure] else [])
  }

  /** The rows a series of completions counts as inserted. */
  function RowsInserted<Row>(done: seq<(Request<Row>, Outcome)>): nat
    decreases |done|
  {
    if done == [] then 0
    else
      var last := done[|done| - 1];
      RowsInserted(done[..|done| - 1]) + (if Fails(last.1) then 0 else |last.0.values|)
  }

  /** Every failure is appended to its bucket after the earlier ones, every success adds
      its rows to `line_inserted`, one notification is emitted per completion, and no
      row goes back into the buffer. */
  lemma {:induction false} CompleteAllEffect<Row>(s: State<Row>, done: seq<(Request<Row>, Outcome)>)
    ensures var r := CompleteAll(s, done);
      && (forall b :: Errors(r, b) == Errors(s, b) + FailuresFor(done, b))
      && r.lineInserted == s.lineInserted + RowsInserted(done)
      && |r.events| == |s.events| + |done|
      && r.buffer == s.buffer && r.order == s.order && r.sent == s.sent && r.received == s.received
      && r.timer == s.timer && r.interval == s.interval && r.timerMiss == s.timerMiss
      && r.lineReceived == s.lineReceived
    decreases |done|
  {
    if done != [] {
      var init, last := done[..|done| - 1], done[|done| - 1];
      CompleteAllEffect(s, init);
      var m := CompleteAll(s, init);
      forall b ensures Errors(CompleteAll(s, done), b) == Errors(s, b) + FailuresFor(done, b) {
        assert Errors(CompleteAll(s, done), b)
            == Errors(m, b) + (if last.0.bucket == b && Fails(last.1) then [last.1.failure] else []);
      }
    }
  }

  /** When every request of a series fails, `line_inserted` does not move. */
  lemma {:induction false} AllFailedInsertsNothing<Row>(done: seq<(Request<Row>, Outcome)>)
    requires forall i :: 0 <= i < |done| ==> Fails(done[i].1)
    ensures RowsInserted(done) == 0
    decreases |done|
  {
    if done != [] {
      AllFailedInsertsNothing(done[..|done| - 1]);
    }
  }

  /** `if (err)` is false for an empty response body, so a non-200 answer with an empty
      body is counted as inserted and nothing is filed, while a non-empty one is filed. */
  lemma EmptyErrorBodyCountsAsInserted<Row>(s: State<Row>, req: Request<Row>, statusCode: int, body: string)
    requires statusCode != 200
    ensures PostOutcome(statusCode, body).Err?
    ensures Fails(PostOutcome(statusCode, body)) <==> body != ""
    ensures body == "" ==>
      var r := Complete(s, req, PostOutcome(statusCode, body));
      r.lineInserted == s.lineInserted + |req.values| && r.errors == s.errors
  {
  }
}
