/** What one firing of the flush timer does to every batch, to the miss count and
    to the timer itself (lib/index.js:110-175). */
module TickProperties {
  import opened BufferEngine
  import opened BufferInvariants

  /** Batch `k` of `s` lost exactly its first DrainCount rows in reaching `r`, and exactly
      those rows were sent, in order, under its key. */
  ghost predicate Drained<Row>(s: State<Row>, r: State<Row>, k: Key)
    requires k in s.buffer
  {
    var v := s.buffer[k].values;
    var d := DrainCount(|v|);
    Pending(r, k) == v[d..] && SentRows(r.sent, k) == SentRows(s.sent, k) + v[..d]
  }

  /** Nothing was taken from key `k` and nothing was sent from it. */
  ghost predicate Held<Row>(s: State<Row>, r: State<Row>, k: Key) {
    Pending(r, k) == Pending(s, k) && SentRows(r.sent, k) == SentRows(s.sent, k)
  }

  /** One flush, per key: the flushed batch is drained, or held when the optimizer fires;
      every other key keeps its rows and sends nothing. */
  lemma FlushSends<Row>(s: State<Row>, k: Key)
    requires k in s.buffer
    ensures Accelerates(s, k) ==> Held(s, Flush(s, k), k)
    ensures !Accelerates(s, k) ==> Drained(s, Flush(s, k), k)
    ensures forall x :: x != k ==> Held(s, Flush(s, k), x)
  {
  }

  /** Every batch in the buffer holds a row. */
  ghost predicate NonEmpty<Row>(s: State<Row>) {
    forall k :: k in s.buffer ==> s.buffer[k].values != []
  }

  /** Distinct keys, all in the buffer: what a scan over the buffer's key order visits. */
  ghost predicate Visitable<Row>(s: State<Row>, keys: seq<Key>) {
    Distinct(keys) && forall k :: k in keys ==> k in s.buffer
  }

  lemma FlushKeepsVisitable<Row>(s: State<Row>, keys: seq<Key>)
    requires NonEmpty(s) && Visitable(s, keys) && keys != []
    ensures NonEmpty(Flush(s, keys[0])) && Visitable(Flush(s, keys[0]), keys[1..])
  {
  }

  lemma {:induction false} ScanPreservesWf<Row>(s: State<Row>, keys: seq<Key>, busy: bool)
    requires Wf(s)
    ensures Wf(Scan(s, keys, busy).0)
    decreases |keys|
  {
    if keys != [] {
      if keys[0] in s.buffer && |s.buffer[keys[0]].values| > 0 {
        FlushPreservesWf(s, keys[0]);
        ScanPreservesWf(Flush(s, keys[0]), keys[1..], true);
      } else {
        ScanPreservesWf(s, keys[1..], busy);
      }
    }
  }

  /** The scan touches only the keys it visits, reports a non-empty buffer as soon as it
      visits a key, and leaves the error sink, the events and the miss count alone. */
  lemma {:induction false} ScanFrame<Row>(s: State<Row>, keys: seq<Key>, busy: bool)
    requires NonEmpty(s) && Visitable(s, keys)
    ensures var r := Scan(s, keys, busy).0;
      && Scan(s, keys, busy).1 == (busy || keys != [])
      && (forall k :: k !in keys ==> Held(s, r, k) && (k in r.buffer <==> k in s.buffer))
      && r.errors == s.errors && r.events == s.events && r.received == s.received
      && r.timerMiss == s.timerMiss
    decreases |keys|
  {
    if keys != [] {
      var s' := Flush(s, keys[0]);
      FlushKeepsVisitable(s, keys);
      FlushSends(s, keys[0]);
      ScanFrame(s', keys[1..], true);
    }
  }

  /** Held then drained, or drained then held, is drained. */
  lemma DrainedAcross<Row>(s: State<Row>, s': State<Row>, r: State<Row>, k: Key)
    requires k in s.buffer
    requires (Drained(s, s', k) && Held(s', r, k))
          || (k in s'.buffer && s'.buffer[k] == s.buffer[k] && Held(s, s', k) && Drained(s', r, k))
    ensures Drained(s, r, k)
  {
  }

  /** The scan drains every key it visits, except that a key past the optimizer's guard
      is held. */
  lemma {:induction false} ScanDrains<Row>(s: State<Row>, keys: seq<Key>, busy: bool)
    requires NonEmpty(s) && Visitable(s, keys)
    ensures var r := Scan(s, keys, busy).0;
      forall k :: k in keys ==> Drained(s, r, k) || (Held(s, r, k) && Accelerates(s, k))
    decreases |keys|
  {
    if keys != [] {
      var k0, rest := keys[0], keys[1..];
      var s' := Flush(s, k0);
      FlushKeepsVisitable(s, keys);
      FlushSends(s, k0);
      ScanDrains(s', rest, true);
      ScanFrame(s', rest, true);
      var r := Scan(s', rest, true).0;
      assert r == Scan(s, keys, busy).0;
      forall k | k in keys
        ensures Drained(s, r, k) || (Held(s, r, k) && Accelerates(s, k))
      {
        if k == k0 {
          assert Held(s', r, k0);
          if !Accelerates(s, k0) {
            DrainedAcross(s, s', r, k0);
          }
        } else {
          assert k in rest && Held(s, s', k);
          if Drained(s', r, k) {
            DrainedAcross(s, s', r, k);
          }
        }
      }
    }
  }

  /** The scan moves the timer only through the optimizer: either timer, interval and
      line counters are as before, or the interval went from the default to the
      accelerated one with a restarted timer and zeroed counters; and with no batch
      past the optimizer's guard the interval cannot change. */
  lemma {:induction false} ScanTimer<Row>(s: State<Row>, keys: seq<Key>, busy: bool)
    requires NonEmpty(s) && Visitable(s, keys)
    ensures var r := Scan(s, keys, busy).0;
      && (r.interval == s.interval ==>
            r.timer == s.timer && r.lineReceived == s.lineReceived && r.lineInserted == s.lineInserted)
      && (r.interval != s.interval ==>
            && s.interval == TimerDefaultInterval && r.interval == AcceleratedInterval
            && r.timer == Some(AcceleratedInterval) && r.lineReceived == 0 && r.lineInserted == 0)
      && ((forall k :: k in keys ==> !Accelerates(s, k)) ==> r.interval == s.interval)
    decreases |keys|
  {
    if keys != [] {
      var k0, rest := keys[0], keys[1..];
      var s' := Flush(s, k0);
      FlushKeepsVisitable(s, keys);
      ScanTimer(s', rest, true);
      if (forall k :: k in keys ==> !Accelerates(s, k)) {
        assert !Accelerates(s, k0);
        forall k | k in rest ensures !Accelerates(s', k) {
          assert k in keys && k != k0;
          assert s'.buffer[k] == s.buffer[k] && s'.interval == s.interval;
        }
      }
    }
  }

  /** At most one key of a scan is held: the optimizer fires at most once per tick, and
      the rest of the scan drains. */
  lemma {:induction false} ScanHoldsAtMostOne<Row>(s: State<Row>, keys: seq<Key>, busy: bool)
    requires NonEmpty(s) && Visitable(s, keys)
    ensures var r := Scan(s, keys, busy).0;
      forall k1, k2 :: k1 in keys && k2 in keys && Held(s, r, k1) && Held(s, r, k2) ==> k1 == k2
    decreases |keys|
  {
    if keys != [] {
      var k0, rest := keys[0], keys[1..];
      var s' := Flush(s, k0);
      FlushKeepsVisitable(s, keys);
      FlushSends(s, k0);
      ScanHoldsAtMostOne(s', rest, true);
      ScanFrame(s', rest, true);
      ScanDrains(s', rest, true);
      var r := Scan(s', rest, true).0;
      // a drained key is never held: its batch was non-empty and lost at least one row
      forall k | k in keys && Drained(s, r, k) ensures !Held(s, r, k) {
        var v := s.buffer[k].values;
        assert |v[DrainCount(|v|)..]| < |v|;
      }
      if Held(s, r, k0) {
        // the optimizer fired at k0, so nothing after it can fire
        assert Accelerates(s, k0) && s'.interval == AcceleratedInterval;
        forall k | k in rest ensures !Held(s, r, k) {
          assert k != k0;
          assert !Accelerates(s', k);
          assert Drained(s', r, k);
          DrainedAcross(s, s', r, k);
        }
      } else {
        forall k1, k2 | k1 in rest && k2 in rest && Held(s, r, k1) && Held(s, r, k2) ensures k1 == k2 {
          assert k1 != k0 && k2 != k0;
          assert Held(s', r, k1) && Held(s', r, k2);
        }
      }
    }
  }

  lemma BufferEmptyIffNoKeys<Row>(s: State<Row>)
    requires KeysWf(s)
    ensures s.order == [] <==> s.buffer == map[]
  {
    if s.order != [] {
      assert s.order[0] in s.buffer;
    }
  }

  /** A well-formed state can be scanned over its own key order. */
  lemma WfVisitable<Row>(s: State<Row>)
    requires Wf(s)
    ensures NonEmpty(s) && Visitable(s, s.order)
  {
  }

  lemma TickPreservesWf<Row>(s: State<Row>)
    requires Wf(s)
    ensures Wf(Tick(s))
  {
    ClearTimerPreservesWf(s, true);
    var s1 := IdleChecked(s);
    ScanPreservesWf(s1, s1.order, false);
    var r := Tick(s);
    var s2 := Scan(s1, s1.order, false).0;
    assert r == s2.(timerMiss := r.timerMiss);
    assert forall k :: Pending(r, k) == Pending(s2, k) && Received(r, k) == Received(s2, k);
  }

  /** The buffer and the requests after a tick are those its scan left. */
  lemma TickScan<Row>(s: State<Row>) returns (s2: State<Row>)
    ensures s2 == Scan(IdleChecked(s), s.order, false).0
    ensures Tick(s).buffer == s2.buffer && Tick(s).sent == s2.sent
    ensures forall k :: Pending(Tick(s), k) == Pending(s2, k)
  {
    s2 := Scan(IdleChecked(s), s.order, false).0;
  }

  /** A tick flushes every batch: each loses its first DrainCount rows to a request under
      its key, except at most one batch past the optimizer's guard, which is held whole
      while the cadence switches. */
  lemma TickFlushesEveryBatch<Row>(s: State<Row>)
    requires Wf(s)
    ensures var r := Tick(s);
      && (forall k :: k in s.buffer ==>
            Drained(s, r, k)
            || (Held(s, r, k) && |s.buffer[k].values| > MaxValuesPerQuery * BacklogFactor))
      && (forall k1, k2 :: k1 in s.buffer && k2 in s.buffer && Held(s, r, k1) && Held(s, r, k2) ==> k1 == k2)
  {
    var s1 := IdleChecked(s);
    WfVisitable(s);
    ScanDrains(s1, s1.order, false);
    ScanHoldsAtMostOne(s1, s1.order, false);
    var r := Tick(s);
    var s2 := TickScan(s);
    forall k | k in s.buffer ensures Drained(s, r, k) || (Held(s, r, k) && |s.buffer[k].values| > MaxValuesPerQuery * BacklogFactor) {
      assert k in s1.order;
      assert Drained(s1, s2, k) || (Held(s1, s2, k) && Accelerates(s1, k));
    }
  }

  /** A tick creates no key, sends nothing for a key that had no batch, and leaves the
      error sink and the notifications alone. */
  lemma TickTouchesOnlyBuffered<Row>(s: State<Row>)
    requires Wf(s)
    ensures var r := Tick(s);
      && (forall k :: k !in s.buffer ==> k !in r.buffer && SentRows(r.sent, k) == SentRows(s.sent, k))
      && r.errors == s.errors && r.events == s.events
  {
    var s1 := IdleChecked(s);
    WfVisitable(s);
    ScanFrame(s1, s1.order, false);
  }

  /** The miss count: reset by a tick that found a batch, one more after an idle tick. */
  lemma TickCountsMisses<Row>(s: State<Row>)
    requires Wf(s)
    ensures Tick(s).timerMiss == if s.buffer == map[] then s.timerMiss + 1 else 0
  {
    var s1 := IdleChecked(s);
    WfVisitable(s);
    ScanFrame(s1, s1.order, false);
    BufferEmptyIffNoKeys(s);
  }

  /** The timer after a tick that fired while running: stopped exactly when the idle
      check ran at the start of the tick and the scan did not restart it through the
      optimizer. With no batch past the optimizer's guard the idle check always stops
      it, restores the default interval and zeroes both line counters. */
  lemma TickStopsTimer<Row>(s: State<Row>)
    requires Wf(s) && s.timer.Some?
    ensures var r := Tick(s);
      && (r.timer == None <==> s.timerMiss >= MissLimit && r.interval == TimerDefaultInterval)
      && (s.timerMiss >= MissLimit && (forall k :: k in s.buffer ==> |s.buffer[k].values| <= MaxValuesPerQuery * BacklogFactor)
          ==> r.timer == None && r.interval == TimerDefaultInterval && r.lineReceived == 0 && r.lineInserted == 0)
  {
    var s1 := IdleChecked(s);
    WfVisitable(s);
    ScanTimer(s1, s1.order, false);
  }

  /** Once the optimizer has switched to the accelerated interval, it cannot fire again:
      the interval stays accelerated through inserts, flushes, completions, partial
      timer clears and every tick that does not take the idle stop. */
  lemma AccelerationIsOneShot<Row>(s: State<Row>)
    requires Wf(s) && s.interval == AcceleratedInterval
    ensures forall k :: k in s.buffer ==> !Accelerates(s, k) && Flush(s, k).interval == AcceleratedInterval
    ensures s.timerMiss < MissLimit ==> Tick(s).interval == AcceleratedInterval
  {
    WfVisitable(s);
    ScanTimer(s, s.order, false);
  }
}
