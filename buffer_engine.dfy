/** The write-buffering and flush engine of the ClickHouse storage client
    (class storage_clickhouse in lib/index.js) as a state machine over values.

    Every operation of the client that changes its state is a function from the
    old `State` to the new one. The class in ClickhouseStorage performs the same
    steps in place and proves that it agrees with these functions; the lemmas in
    BufferInvariants, TickProperties and Scenarios are stated over them. */
module BufferEngine {

  /** `max_values_per_query` (lib/index.js:16). */
  const MaxValuesPerQuery: nat := 50
  /** `timer_default_interval`, also the initial `current_timer_interval` (lib/index.js:14-15). */
  const TimerDefaultInterval: nat := 1000
  /** The cadence the storage optimizer switches to under backlog (lib/index.js:158). */
  const AcceleratedInterval: nat := 200
  /** Idle ticks after which a tick stops the timer (lib/index.js:118). */
  const MissLimit: nat := 10
  /** Rows tolerated above MaxValuesPerQuery before a batch is split (lib/index.js:152). */
  const SplitSlack: nat := 100
  /** A batch above MaxValuesPerQuery * BacklogFactor rows triggers the optimizer (lib/index.js:154). */
  const BacklogFactor: nat := 5

  datatype Option<T> = None | Some(value: T)

  /** A key of the buffer `Map`. */
  type Key = string

  /** The text JavaScript produces for `errors_key` in a string concatenation:
      None stands for `undefined`, which the caller gets by leaving the tag out. */
  function TagText(errorsKey: Option<string>): (text: string)
    ensures errorsKey.Some? ==> text == errorsKey.value
    ensures text == "undefined" <==> errorsKey in {None, Some("undefined")}
  {
    match errorsKey
    case None => "undefined"
    case Some(s) => s
  }

  /** `table_name+'_'+errors_key` (lib/index.js:203). */
  function BufferKey(tableName: string, errorsKey: Option<string>): Key {
    tableName + "_" + TagText(errorsKey)
  }

  /** `errors_key || 'all'` (lib/index.js:226): a missing or empty tag files errors under "all". */
  function ErrorsBucket(errorsKey: Option<string>): (bucket: string)
    ensures bucket != ""
    ensures bucket == "all" <==> errorsKey in {None, Some(""), Some("all")}
    ensures bucket != "all" ==> errorsKey == Some(bucket)
  {
    match errorsKey
    case None => "all"
    case Some(s) => if s == "" then "all" else s
  }

  /** The statement sent with every flush (lib/index.js:229). */
  function InsertQuery(tableName: string): (query: string)
    ensures |query| == |tableName| + 31
    ensures query[..12] == "INSERT INTO " && query[|query| - 19..] == " FORMAT JSONEachRow"
    ensures query[12..|query| - 19] == tableName
  {
    "INSERT INTO " + tableName + " FORMAT JSONEachRow"
  }

  /** One value of the buffer `Map`: `{table_name, errors_key, values}` (lib/index.js:207). */
  datatype Batch<Row> = Batch(tableName: string, errorsKey: Option<string>, values: seq<Row>)

  /** The `err` a request hands to its callback: the body of a non-200 response
      (lib/index.js:51-52), or an error of the request or the response (lib/index.js:59-67,
      including the abort after the socket timeout). */
  datatype Failure = StatusBody(body: string) | RequestError(message: string)

  /** What `http_post` reports to its callback. */
  datatype Outcome = Ok(body: string) | Err(failure: Failure)

  /** `if (err)` (lib/index.js:233): an error object is truthy, a response body only when non-empty. */
  predicate IsTruthy(f: Failure)
    ensures IsTruthy(f) <==> f != StatusBody("")
  {
    match f
    case StatusBody(body) => body != ""
    case RequestError(_) => true
  }

  /** The completion handler takes the error branch: an `err` was passed and it is truthy. */
  predicate Fails(outcome: Outcome)
    ensures Fails(outcome) ==> outcome.Err?
    ensures outcome.Err? ==> (Fails(outcome) <==> outcome.failure != StatusBody(""))
  {
    outcome.Err? && IsTruthy(outcome.failure)
  }

  /** The status rule of `http_post` (lib/index.js:51-55). */
  function PostOutcome(statusCode: int, body: string): (outcome: Outcome)
    ensures outcome.Ok? <==> statusCode == 200
    ensures outcome.Ok? ==> outcome.body == body
    ensures outcome.Err? ==> outcome.failure == StatusBody(body)
  {
    if statusCode != 200 then Err(StatusBody(body)) else Ok(body)
  }

  /** One insert request handed to the transport by `insert_json`: the statement, the
      table, the error bucket, the rows, and (model bookkeeping) the buffer key the rows
      were taken from. */
  datatype Request<Row> = Request(key: Key, query: string, tableName: string, bucket: string, values: seq<Row>)

  /** The `inserted` and `error` notifications of `processor.emit` (lib/index.js:235, 250). */
  datatype Event<Row> = Inserted(count: nat) | InsertFailed(error: Failure, query: string, values: seq<Row>)

  /** The fields of one client. `order` lists the keys of the buffer `Map` in insertion
      order; `timer` is the running interval timer with its period, None for `null`;
      `sent` is every request issued so far; `received` is every row ever inserted,
      per buffer key, which the FIFO law is stated against. */
  datatype State<Row> = State(
    order: seq<Key>,
    buffer: map<Key, Batch<Row>>,
    errors: map<string, seq<Failure>>,
    timer: Option<nat>,
    timerMiss: nat,
    interval: nat,
    lineReceived: nat,
    lineInserted: nat,
    sent: seq<Request<Row>>,
    events: seq<Event<Row>>,
    received: map<Key, seq<Row>>)

  /** The rows waiting under key `k`. */
  function Pending<Row>(s: State<Row>, k: Key): seq<Row> {
    if k in s.buffer then s.buffer[k].values else []
  }

  /** Every row ever inserted under key `k`, in insertion order. */
  function Received<Row>(s: State<Row>, k: Key): seq<Row> {
    if k in s.received then s.received[k] else []
  }

  /** The failures recorded under an error bucket. */
  function Errors<Row>(s: State<Row>, bucket: string): seq<Failure> {
    if bucket in s.errors then s.errors[bucket] else []
  }

  /** The rows of all requests taken from key `k`, in the order they were sent. */
  function SentRows<Row>(sent: seq<Request<Row>>, k: Key): seq<Row> {
    if sent == [] then []
    else SentRows(sent[..|sent| - 1], k) + (if sent[|sent| - 1].key == k then sent[|sent| - 1].values else [])
  }

  predicate Distinct(keys: seq<Key>) {
    forall i, j :: 0 <= i < j < |keys| ==> keys[i] != keys[j]
  }

  /** `Map.delete` on the key order: the key leaves, the others keep their order. */
  function Without(keys: seq<Key>, k: Key): (rest: seq<Key>)
    ensures forall x :: x in rest <==> x in keys && x != k
    ensures Distinct(keys) ==> Distinct(rest)
    ensures k !in keys ==> rest == keys
    ensures Distinct(keys) ==> forall i :: 0 <= i < |keys| && keys[i] == k ==> rest == keys[..i] + keys[i + 1..]
  {
    if keys == [] then []
    else if keys[0] == k then Without(keys[1..], k)
    else
      var tail := Without(keys[1..], k);
      assert Distinct(keys) ==> keys[0] !in tail;
      [keys[0]] + tail
  }

  /** The state the constructor builds (lib/index.js:7-24). */
  function Init<Row>(): (s: State<Row>)
    ensures s.buffer == map[] && s.errors == map[] && s.timer == None
    ensures s.interval == TimerDefaultInterval && s.timerMiss == 0
    ensures s.lineReceived == 0 && s.lineInserted == 0
  {
    State([], map[], map[], None, 0, TimerDefaultInterval, 0, 0, [], [], map[])
  }

  /** `runTimer` (lib/index.js:110-113): a new interval timer at the current interval. */
  function RunTimer<Row>(s: State<Row>): (r: State<Row>)
    ensures r.timer == Some(s.interval)
    ensures r == s.(timer := r.timer)
  {
    s.(timer := Some(s.interval))
  }

  /** `clearTimer(full)` (lib/index.js:95-108). */
  function ClearTimer<Row>(s: State<Row>, full: bool): (r: State<Row>)
    ensures r.timer == None && r.lineInserted == 0 && r.lineReceived == 0
    ensures r.interval == if full then TimerDefaultInterval else s.interval
    ensures r.timerMiss == s.timerMiss
    ensures r.order == s.order && r.buffer == s.buffer && r.errors == s.errors
    ensures r.sent == s.sent && r.events == s.events && r.received == s.received
  {
    var s1 := if full then s.(interval := TimerDefaultInterval) else s;
    s1.(lineInserted := 0, lineReceived := 0, timer := None)
  }

  /** `insert(table_name, row, errors_key)` (lib/index.js:198-223). */
  function Insert<Row>(s: State<Row>, tableName: string, row: Row, errorsKey: Option<string>): (r: State<Row>)
    ensures var k := BufferKey(tableName, errorsKey);
      && k in r.buffer
      && Pending(r, k) == Pending(s, k) + [row]
      && r.buffer[k].tableName == (if k in s.buffer then s.buffer[k].tableName else tableName)
      && r.buffer[k].errorsKey == (if k in s.buffer then s.buffer[k].errorsKey else errorsKey)
      && r.order == (if k in s.buffer then s.order else s.order + [k])
      && r.received == s.received[k := Received(s, k) + [row]]
    ensures forall k :: k != BufferKey(tableName, errorsKey) ==>
      (k in r.buffer <==> k in s.buffer) && (k in s.buffer ==> r.buffer[k] == s.buffer[k])
    ensures r.lineReceived == s.lineReceived + 1
    ensures r.timer == (if s.timer == None then Some(s.interval) else s.timer)
    ensures r.interval == s.interval && r.timerMiss == s.timerMiss && r.lineInserted == s.lineInserted
    ensures r.errors == s.errors && r.sent == s.sent && r.events == s.events
  {
    var k := BufferKey(tableName, errorsKey);
    var batch := if k in s.buffer then s.buffer[k] else Batch(tableName, errorsKey, []);
    var s1 := s.(
      lineReceived := s.lineReceived + 1,
      order := if k in s.buffer then s.order else s.order + [k],
      buffer := s.buffer[k := batch.(values := batch.values + [row])],
      received := s.received[k := Received(s, k) + [row]]);
    if s.timer == None then RunTimer(s1) else s1
  }

  /** The send half of `insert_json(table_name, values, errors_key)` (lib/index.js:225-232):
      the request issued for rows taken from buffer key `k`. */
  function InsertJson<Row>(s: State<Row>, k: Key, tableName: string, values: seq<Row>, errorsKey: Option<string>): (r: State<Row>)
    ensures r.sent == s.sent + [Request(k, InsertQuery(tableName), tableName, ErrorsBucket(errorsKey), values)]
    ensures r == s.(sent := r.sent)
  {
    s.(sent := s.sent + [Request(k, InsertQuery(tableName), tableName, ErrorsBucket(errorsKey), values)])
  }

  /** How many rows a flush takes from a batch of `n` rows when it does not switch
      cadence: the whole batch up to MaxValuesPerQuery + SplitSlack rows, else
      MaxValuesPerQuery of them (lib/index.js:152, 164, 168). */
  function DrainCount(n: nat): (d: nat)
    ensures d <= n
    ensures d == n <==> n <= MaxValuesPerQuery + SplitSlack
    ensures n > MaxValuesPerQuery + SplitSlack ==> d == MaxValuesPerQuery
    ensures n > 0 ==> d > 0
  {
    if n <= MaxValuesPerQuery + SplitSlack then n else MaxValuesPerQuery
  }

  /** The storage optimizer's guard (lib/index.js:152-156). */
  predicate Accelerates<Row>(s: State<Row>, k: Key)
    requires k in s.buffer
    ensures Accelerates(s, k) <==>
      |s.buffer[k].values| > MaxValuesPerQuery * BacklogFactor && s.interval == TimerDefaultInterval
  {
    var n := |s.buffer[k].values|;
    n > MaxValuesPerQuery + SplitSlack && n > MaxValuesPerQuery * BacklogFactor
    && s.interval == TimerDefaultInterval
  }

  /** `flush_buffer(buffer_key)` (lib/index.js:144-175), for a key present in the buffer. */
  function Flush<Row>(s: State<Row>, k: Key): (r: State<Row>)
    requires k in s.buffer
    ensures var batch := s.buffer[k]; var d := DrainCount(|batch.values|);
      !Accelerates(s, k) ==>
        && Pending(r, k) == batch.values[d..]
        && r.sent == s.sent + (if d > 0 then [Request(k, InsertQuery(batch.tableName), batch.tableName,
                                                      ErrorsBucket(batch.errorsKey), batch.values[..d])]
                               else [])
        && (k in r.buffer <==> d < |batch.values|)
        && (k in r.buffer ==> r.buffer[k].tableName == batch.tableName && r.buffer[k].errorsKey == batch.errorsKey)
        && r.order == (if d < |batch.values| then s.order else Without(s.order, k))
        && r.timer == s.timer && r.interval == s.interval
        && r.lineReceived == s.lineReceived && r.lineInserted == s.lineInserted
    ensures Accelerates(s, k) ==>
      && r.buffer == s.buffer && r.order == s.order && r.sent == s.sent
      && r.interval == AcceleratedInterval && r.timer == Some(AcceleratedInterval)
      && r.lineReceived == 0 && r.lineInserted == 0
    ensures forall k' :: k' != k ==>
      (k' in r.buffer <==> k' in s.buffer) && (k' in s.buffer ==> r.buffer[k'] == s.buffer[k'])
    ensures r.errors == s.errors && r.events == s.events && r.received == s.received
    ensures r.timerMiss == s.timerMiss
  {
    var batch := s.buffer[k];
    if |batch.values| > MaxValuesPerQuery + SplitSlack then
      if |batch.values| > MaxValuesPerQuery * BacklogFactor && s.interval == TimerDefaultInterval then
        RunTimer(ClearTimer(s.(interval := AcceleratedInterval), false))
      else
        var slice := batch.values[..MaxValuesPerQuery];
        var s1 := s.(buffer := s.buffer[k := batch.(values := batch.values[MaxValuesPerQuery..])]);
        InsertJson(s1, k, batch.tableName, slice, batch.errorsKey)
    else
      var s1 := s.(buffer := s.buffer - {k}, order := Without(s.order, k));
      assert batch.values[..|batch.values|] == batch.values;
      if |batch.values| > 0 then InsertJson(s1, k, batch.tableName, batch.values, batch.errorsKey) else s1
  }

  /** The `forEach` of a tick (lib/index.js:122-131) over the keys it visits, with the
      `buffer_is_not_empty` flag as accumulator. A key deleted earlier in the same scan
      is skipped, as `Map.prototype.forEach` skips it. */
  function Scan<Row>(s: State<Row>, keys: seq<Key>, busy: bool): (r: (State<Row>, bool))
    ensures busy ==> r.1
    ensures forall k :: k !in s.buffer ==> k !in r.0.buffer
    ensures r.0.errors == s.errors && r.0.events == s.events && r.0.received == s.received
    ensures r.0.timerMiss == s.timerMiss
    decreases |keys|
  {
    if keys == [] then (s, busy)
    else if keys[0] in s.buffer && |s.buffer[keys[0]].values| > 0 then
      Scan(Flush(s, keys[0]), keys[1..], true)
    else
      Scan(s, keys[1..], busy)
  }

  /** The idle check at the start of a tick (lib/index.js:118-120): once `timer_miss` has
      reached MissLimit, `clearTimer(true)`; the buffer and the miss count are kept. */
  function IdleChecked<Row>(s: State<Row>): (s1: State<Row>)
    ensures s.timerMiss >= MissLimit ==>
      s1.timer == None && s1.interval == TimerDefaultInterval && s1.lineReceived == 0 && s1.lineInserted == 0
    ensures s.timerMiss < MissLimit ==> s1 == s
    ensures s1.order == s.order && s1.buffer == s.buffer && s1.sent == s.sent
    ensures s1.errors == s.errors && s1.events == s.events && s1.received == s.received
    ensures s1.timerMiss == s.timerMiss
  {
    if s.timerMiss >= MissLimit then ClearTimer(s, true) else s
  }

  /** One firing of the interval timer (lib/index.js:113-141): the idle stop is checked
      first, then every key is scanned, then the miss count is updated. */
  function Tick<Row>(s: State<Row>): (r: State<Row>)
    ensures r.timerMiss == 0 || r.timerMiss == s.timerMiss + 1
    ensures r.errors == s.errors && r.events == s.events && r.received == s.received
  {
    var s1 := IdleChecked(s);
    var (s2, busy) := Scan(s1, s1.order, false);
    if busy then s2.(timerMiss := 0) else s2.(timerMiss := s2.timerMiss + 1)
  }

  /** The callback of `insert_json` (lib/index.js:232-251) for the request `req`. */
  function Complete<Row>(s: State<Row>, req: Request<Row>, outcome: Outcome): (r: State<Row>)
    ensures Fails(outcome) ==>
      && r.errors == s.errors[req.bucket := Errors(s, req.bucket) + [outcome.failure]]
      && r.events == s.events + [InsertFailed(outcome.failure, req.query, req.values)]
      && r.lineInserted == s.lineInserted
    ensures !Fails(outcome) ==>
      && r.errors == s.errors
      && r.events == s.events + [Inserted(|req.values|)]
      && r.lineInserted == s.lineInserted + |req.values|
    ensures r.order == s.order && r.buffer == s.buffer && r.sent == s.sent && r.received == s.received
    ensures r.timer == s.timer && r.interval == s.interval && r.timerMiss == s.timerMiss
    ensures r.lineReceived == s.lineReceived
  {
    if Fails(outcome) then
      s.(events := s.events + [InsertFailed(outcome.failure, req.query, req.values)],
         errors := s.errors[req.bucket := Errors(s, req.bucket) + [outcome.failure]])
    else
      s.(lineInserted := s.lineInserted + |req.values|,
         events := s.events + [Inserted(|req.values|)])
  }
}
