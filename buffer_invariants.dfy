/** The invariant every reachable client state keeps, and the proof that each
    operation of BufferEngine preserves it. Its heart is the FIFO law: for every
    buffer key, the rows already sent followed by the rows still waiting are exactly
    the rows inserted under that key, in insertion order. */
module BufferInvariants {
  import opened BufferEngine

  /** The buffer `Map`: its key order lists each present key once, every batch holds
      at least one row, and every batch sits under the key its table and tag build. */
  ghost predicate KeysWf<Row>(s: State<Row>) {
    && Distinct(s.order)
    && (forall k :: k in s.order <==> k in s.buffer)
    && (forall k :: k in s.buffer ==> s.buffer[k].values != [])
    && (forall k :: k in s.buffer ==> BufferKey(s.buffer[k].tableName, s.buffer[k].errorsKey) == k)
  }

  /** The interval is the default or the accelerated one, and a running timer fires at it. */
  ghost predicate TimerWf<Row>(s: State<Row>) {
    && (s.interval == TimerDefaultInterval || s.interval == AcceleratedInterval)
    && (s.timer.Some? ==> s.timer.value == s.interval)
  }

  /** The FIFO law. */
  ghost predicate Fifo<Row>(s: State<Row>) {
    forall k :: SentRows(s.sent, k) + Pending(s, k) == Received(s, k)
  }

  ghost predicate Wf<Row>(s: State<Row>) {
    KeysWf(s) && TimerWf(s) && Fifo(s)
  }

  lemma SentRowsAppend<Row>(sent: seq<Request<Row>>, req: Request<Row>, k: Key)
    ensures SentRows(sent + [req], k) == SentRows(sent, k) + (if req.key == k then req.values else [])
  {
    assert (sent + [req])[..|sent|] == sent;
  }

  lemma InitWf<Row>()
    ensures Wf(Init<Row>())
  {
  }

  lemma InsertPreservesWf<Row>(s: State<Row>, tableName: string, row: Row, errorsKey: Option<string>)
    requires Wf(s)
    ensures Wf(Insert(s, tableName, row, errorsKey))
  {
    var r := Insert(s, tableName, row, errorsKey);
    var k := BufferKey(tableName, errorsKey);
    if k !in s.buffer {
      assert k !in s.order;
      forall i, j | 0 <= i < j < |r.order| ensures r.order[i] != r.order[j] {
        if j == |s.order| {
          assert r.order[i] == s.order[i];
        }
      }
    }
    forall x ensures SentRows(r.sent, x) + Pending(r, x) == Received(r, x) {
      assert SentRows(s.sent, x) + Pending(s, x) == Received(s, x);
      if x == k {
        assert Received(r, x) == Received(s, x) + [row];
      }
    }
  }

  lemma RunTimerPreservesWf<Row>(s: State<Row>)
    requires Wf(s)
    ensures Wf(RunTimer(s))
  {
  }

  lemma ClearTimerPreservesWf<Row>(s: State<Row>, full: bool)
    requires Wf(s)
    ensures Wf(ClearTimer(s, full))
  {
  }

  lemma CompletePreservesWf<Row>(s: State<Row>, req: Request<Row>, outcome: Outcome)
    requires Wf(s)
    ensures Wf(Complete(s, req, outcome))
  {
  }

  /** A flush moves the first DrainCount rows of its batch from the buffer to a request
      (or, under the optimizer's guard, moves nothing), so the FIFO law survives it. */
  lemma FlushPreservesWf<Row>(s: State<Row>, k: Key)
    requires Wf(s) && k in s.buffer
    ensures Wf(Flush(s, k))
  {
    FlushKeepsKeys(s, k);
    FlushKeepsFifo(s, k);
  }

  lemma FlushKeepsKeys<Row>(s: State<Row>, k: Key)
    requires KeysWf(s) && TimerWf(s) && k in s.buffer
    ensures KeysWf(Flush(s, k)) && TimerWf(Flush(s, k))
  {
  }

  lemma FlushKeepsFifo<Row>(s: State<Row>, k: Key)
    requires Fifo(s) && k in s.buffer
    ensures Fifo(Flush(s, k))
  {
  }
}
