/** The in-memory batching of traffic statistics, against a ledger that books every event
    directly. */
module TrafficRecorder {
  import opened Options
  import opened VisitorKeys

  datatype Class = Unknown | Crawler | Human

  /** A request. `minute` and `day` are the timestamp truncated, `hash` the hashed client
      address, empty if there is none. */
  datatype Event = Event(host: int, fqdn: string, country: string, agent: Class, minute: int, day: string,
                         hash: string, status: int, bytesIn: int, bytesOut: int, blocked: bool)

  datatype Counts = Counts(requests: int, bytesIn: int, bytesOut: int, blocked: int,
                           status2xx: int, status3xx: int, status4xx: int, status5xx: int)

  datatype Column = Requests | BytesIn | BytesOut | Blocked | Status2xx | Status3xx | Status4xx | Status5xx

  function Field(c: Counts, col: Column): int {
    match col
    case Requests => c.requests
    case BytesIn => c.bytesIn
    case BytesOut => c.bytesOut
    case Blocked => c.blocked
    case Status2xx => c.status2xx
    case Status3xx => c.status3xx
    case Status4xx => c.status4xx
    case Status5xx => c.status5xx
  }

  function Add(a: Counts, b: Counts): (c: Counts)
    ensures forall col :: Field(c, col) == Field(a, col) + Field(b, col)
  {
    Counts(a.requests + b.requests, a.bytesIn + b.bytesIn, a.bytesOut + b.bytesOut, a.blocked + b.blocked,
           a.status2xx + b.status2xx, a.status3xx + b.status3xx, a.status4xx + b.status4xx, a.status5xx + b.status5xx)
  }

  /** The value of a column in a row or batch that may not exist. */
  function Cell<K>(m: map<K, Counts>, k: K, col: Column): int {
    if k in m then Field(m[k], col) else 0
  }

  function Merged<K(!new)>(m: map<K, Counts>, k: K, c: Counts): (m': map<K, Counts>)
    ensures forall k', col :: Cell(m', k', col) == Cell(m, k', col) + if k' == k then Field(c, col) else 0
  {
    m[k := if k in m then Add(m[k], c) else c]
  }

  function Max(a: int, b: int): int {
    if a > b then a else b
  }

  function One(yes: bool): int {
    if yes then 1 else 0
  }

  /** What a request adds to a column. */
  function Worth(e: Event, col: Column): int {
    match col
    case Requests => 1
    case BytesIn => Max(0, e.bytesIn)
    case BytesOut => Max(0, e.bytesOut)
    case Blocked => One(e.blocked)
    case Status2xx => One(200 <= e.status < 300)
    case Status3xx => One(300 <= e.status < 400)
    case Status4xx => One(400 <= e.status < 500)
    case Status5xx => One(500 <= e.status)
  }

  /** What the columns mean: bytes count unless they are negative, and a status counts by its first
      digit, beyond 599 as a server error. */
  lemma ColumnsAreExact(e: Event)
    ensures Worth(e, Requests) == 1 && (Worth(e, Blocked) == 1 <==> e.blocked) && 0 <= Worth(e, Blocked) <= 1
    ensures e.bytesIn >= 0 ==> Worth(e, BytesIn) == e.bytesIn
    ensures e.bytesOut >= 0 ==> Worth(e, BytesOut) == e.bytesOut
    ensures e.bytesIn < 0 ==> Worth(e, BytesIn) == 0
    ensures e.bytesOut < 0 ==> Worth(e, BytesOut) == 0
    ensures Worth(e, Status2xx) == (if e.status / 100 == 2 then 1 else 0)
    ensures Worth(e, Status3xx) == (if e.status / 100 == 3 then 1 else 0)
    ensures Worth(e, Status4xx) == (if e.status / 100 == 4 then 1 else 0)
    ensures Worth(e, Status5xx) == (if e.status / 100 >= 5 then 1 else 0)
  {
  }

  method CountRequest(e: Event) returns (c: Counts)
    ensures forall col :: Field(c, col) == Worth(e, col)
  {
    c := Counts(1, Max(0, e.bytesIn), Max(0, e.bytesOut), 0, 0, 0, 0, 0);
    if e.blocked {
      c := c.(blocked := 1);
    }
    if e.status >= 200 && e.status < 300 {
      c := c.(status2xx := 1);
    } else if e.status >= 300 && e.status < 400 {
      c := c.(status3xx := 1);
    } else if e.status >= 400 && e.status < 500 {
      c := c.(status4xx := 1);
    } else if e.status >= 500 {
      c := c.(status5xx := 1);
    }
  }

  /** The key of a batch, and of a table row, which has no name column in it. The class is part
      of both in the class table only. */
  datatype Key = Key(host: int, fqdn: string, country: string, agent: Option<Class>, minute: int)
  datatype Row = Row(host: int, country: string, agent: Option<Class>, minute: int)

  function KeyOf(e: Event, split: bool): Key {
    Key(e.host, e.fqdn, e.country, if split then Some(e.agent) else None, e.minute)
  }

  function RowOf(k: Key): Row {
    Row(k.host, k.country, k.agent, k.minute)
  }

  /** Two requests share a row exactly if host, country and minute agree, and the class in the class
      table. The name of the host does not matter. */
  lemma SharedRows(a: Event, b: Event, split: bool)
    ensures RowOf(KeyOf(a, split)) == RowOf(KeyOf(b, split)) <==>
            a.host == b.host && a.country == b.country && a.minute == b.minute && (split ==> a.agent == b.agent)
  {
  }

  // ---------- The direct ledger ----------

  function Direct(es: seq<Event>, split: bool, row: Row, col: Column): int {
    if |es| == 0 then 0 else
      var e := es[|es| - 1];
      Direct(es[..|es| - 1], split, row, col) + if RowOf(KeyOf(e, split)) == row then Worth(e, col) else 0
  }

  lemma {:induction false} DirectConcat(a: seq<Event>, b: seq<Event>, split: bool, row: Row, col: Column)
    ensures Direct(a + b, split, row, col) == Direct(a, split, row, col) + Direct(b, split, row, col)
    decreases |b|
  {
    if |b| == 0 {
      assert a + b == a;
    } else {
      var n := |b| - 1;
      assert (a + b)[..|a + b| - 1] == a + b[..n];
      DirectConcat(a, b[..n], split, row, col);
    }
  }

  function OfClass(row: Row, c: Class): Row {
    Row(row.host, row.country, Some(c), row.minute)
  }

  /** The class table rolls up to the minute table. */
  lemma {:induction false} ClassesSumToMinutes(es: seq<Event>, row: Row, col: Column)
    requires row.agent.None?
    ensures Direct(es, false, row, col) ==
      Direct(es, true, OfClass(row, Unknown), col) + Direct(es, true, OfClass(row, Crawler), col) +
      Direct(es, true, OfClass(row, Human), col)
    decreases |es|
  {
    if |es| > 0 {
      var e := es[|es| - 1];
      ClassesSumToMinutes(es[..|es| - 1], row, col);
      assert RowOf(KeyOf(e, true)) == OfClass(row, e.agent) <==> RowOf(KeyOf(e, false)) == row;
      match e.agent
      case Unknown =>
      case Crawler =>
      case Human =>
    }
  }

  /** In every row the blocked requests, and the requests with a counted status, are among the
      requests; nothing is negative. */
  lemma {:induction false} RowsAreSane(es: seq<Event>, split: bool, row: Row)
    ensures forall col :: Direct(es, split, row, col) >= 0
    ensures Direct(es, split, row, Blocked) <= Direct(es, split, row, Requests)
    ensures Direct(es, split, row, Status2xx) + Direct(es, split, row, Status3xx) +
            Direct(es, split, row, Status4xx) + Direct(es, split, row, Status5xx) <= Direct(es, split, row, Requests)
    decreases |es|
  {
    if |es| > 0 {
      RowsAreSane(es[..|es| - 1], split, row);
    }
  }

  // ---------- Batches ----------

  function Batched(es: seq<Event>, split: bool, key: Key, col: Column): int {
    if |es| == 0 then 0 else
      var e := es[|es| - 1];
      Batched(es[..|es| - 1], split, key, col) + if KeyOf(e, split) == key then Worth(e, col) else 0
  }

  /** What the batches with keys in `keys` contribute to a row. */
  function Contribution(es: seq<Event>, split: bool, keys: set<Key>, row: Row, col: Column): int {
    if |es| == 0 then 0 else
      var e := es[|es| - 1];
      var k := KeyOf(e, split);
      Contribution(es[..|es| - 1], split, keys, row, col) + if k in keys && RowOf(k) == row then Worth(e, col) else 0
  }

  lemma {:induction false} OneMoreBatch(es: seq<Event>, split: bool, keys: set<Key>, key: Key, row: Row, col: Column)
    requires key !in keys
    ensures Contribution(es, split, keys + {key}, row, col) ==
      Contribution(es, split, keys, row, col) + if RowOf(key) == row then Batched(es, split, key, col) else 0
    decreases |es|
  {
    if |es| > 0 {
      OneMoreBatch(es[..|es| - 1], split, keys, key, row, col);
    }
  }

  lemma {:induction false} AllBatches(es: seq<Event>, split: bool, keys: set<Key>, row: Row, col: Column)
    requires forall i :: 0 <= i < |es| ==> KeyOf(es[i], split) in keys
    ensures Contribution(es, split, keys, row, col) == Direct(es, split, row, col)
    decreases |es|
  {
    if |es| > 0 {
      AllBatches(es[..|es| - 1], split, keys, row, col);
    }
  }

  lemma {:induction false} NoBatches(es: seq<Event>, split: bool, row: Row, col: Column)
    ensures Contribution(es, split, {}, row, col) == 0
    decreases |es|
  {
    if |es| > 0 {
      NoBatches(es[..|es| - 1], split, row, col);
    }
  }

  /** A batch map holds the batches of `es`. */
  ghost predicate Holds(batch: map<Key, Counts>, es: seq<Event>, split: bool) {
    && (forall k, col :: Cell(batch, k, col) == Batched(es, split, k, col))
    && (forall i :: 0 <= i < |es| ==> KeyOf(es[i], split) in batch)
  }

  ghost function Any(keys: set<Key>): Key
    requires keys != {}
  {
    var k :| k in keys;
    k
  }

  /** What the counts in a batch map, for these keys, add up to in a column of a row. */
  ghost function PendingIn(batch: map<Key, Counts>, keys: set<Key>, row: Row, col: Column): int
    requires keys <= batch.Keys
    decreases |keys|
  {
    if keys == {} then 0 else
      var k := Any(keys);
      PendingIn(batch, keys - {k}, row, col) + if RowOf(k) == row then Field(batch[k], col) else 0
  }

  ghost function Pending(batch: map<Key, Counts>, row: Row, col: Column): int {
    PendingIn(batch, batch.Keys, row, col)
  }

  /** The counts of a batch map are those of its events. */
  lemma {:induction false} PendingContributes(batch: map<Key, Counts>, keys: set<Key>, es: seq<Event>, split: bool,
                                              row: Row, col: Column)
    requires Holds(batch, es, split) && keys <= batch.Keys
    ensures PendingIn(batch, keys, row, col) == Contribution(es, split, keys, row, col)
    decreases |keys|
  {
    if keys == {} {
      NoBatches(es, split, row, col);
    } else {
      var k := Any(keys);
      PendingContributes(batch, keys - {k}, es, split, row, col);
      OneMoreBatch(es, split, keys - {k}, k, row, col);
      assert (keys - {k}) + {k} == keys;
      assert Cell(batch, k, col) == Batched(es, split, k, col);
    }
  }

  lemma PendingIsDirect(batch: map<Key, Counts>, es: seq<Event>, split: bool, row: Row, col: Column)
    requires Holds(batch, es, split)
    ensures Pending(batch, row, col) == Direct(es, split, row, col)
  {
    PendingContributes(batch, batch.Keys, es, split, row, col);
    AllBatches(es, split, batch.Keys, row, col);
  }

  method AddToBatch(batch: map<Key, Counts>, e: Event, split: bool, ghost es: seq<Event>) returns (b: map<Key, Counts>)
    requires Holds(batch, es, split)
    ensures Holds(b, es + [e], split)
  {
    var c := CountRequest(e);
    b := Merged(batch, KeyOf(e, split), c);
    forall k, col
      ensures Cell(b, k, col) == Batched(es + [e], split, k, col)
    {
      BatchedGrows(es, e, split, k, col);
      assert Cell(batch, k, col) == Batched(es, split, k, col);
    }
    forall i | 0 <= i < |es + [e]|
      ensures KeyOf((es + [e])[i], split) in b
    {
      assert i < |es| ==> KeyOf(es[i], split) in batch;
    }
  }

  lemma BatchedGrows(es: seq<Event>, e: Event, split: bool, k: Key, col: Column)
    ensures Batched(es + [e], split, k, col) ==
      Batched(es, split, k, col) + if KeyOf(e, split) == k then Worth(e, col) else 0
  {
    assert (es + [e])[..|es|] == es;
  }

  class TrafficTable {
    var rows: map<Row, Counts>

    constructor ()
      ensures rows == map[]
    {
      rows := map[];
    }

    /** The additive upsert. */
    method Upsert(row: Row, c: Counts)
      modifies this
      ensures rows == Merged(old(rows), row, c)
    {
      rows := rows[row := if row in rows then Add(rows[row], c) else c];
    }

    method Flush(batch: map<Key, Counts>, split: bool, ghost es: seq<Event>)
      requires Holds(batch, es, split)
      modifies this
      ensures forall row, col :: Cell(rows, row, col) == old(Cell(rows, row, col)) + Direct(es, split, row, col)
    {
      var todo := batch.Keys;
      ghost var done: set<Key> := {};
      forall row, col
        ensures Contribution(es, split, done, row, col) == 0
      {
        NoBatches(es, split, row, col);
      }
      while todo != {}
        invariant todo + done == batch.Keys && todo !! done
        invariant forall row, col ::
          Cell(rows, row, col) == old(Cell(rows, row, col)) + Contribution(es, split, done, row, col)
      {
        var key :| key in todo;
        Upsert(RowOf(key), batch[key]);
        forall row, col
          ensures Contribution(es, split, done + {key}, row, col) ==
            Contribution(es, split, done, row, col) + if RowOf(key) == row then Field(batch[key], col) else 0
        {
          OneMoreBatch(es, split, done, key, row, col);
          assert Cell(batch, key, col) == Batched(es, split, key, col);
        }
        todo, done := todo - {key}, done + {key};
      }
      forall row, col
        ensures Contribution(es, split, done, row, col) == Direct(es, split, row, col)
      {
        AllBatches(es, split, done, row, col);
      }
    }
  }

  // ---------- Visitors ----------

  datatype Visitor = Visitor(host: int, day: string, hash: string)

  function VisitorsOf(es: seq<Event>): set<Visitor> {
    set i | 0 <= i < |es| && es[i].hash != "" :: Visitor(es[i].host, es[i].day, es[i].hash)
  }

  function VisitorKeysOf(es: seq<Event>): set<string> {
    set i | 0 <= i < |es| && es[i].hash != "" :: VisitorKey(es[i].host, es[i].day, es[i].hash)
  }

  predicate Recordable(e: Event) {
    0 < e.host <= MAX64 && e.fqdn != "" && e.country != "" && e.country != "LOCAL" && IsDay(e.day)
  }

  /** A visitor key splits and parses back into the triple it was made of. */
  lemma KeyReadsBack(es: seq<Event>, key: string) returns (v: Visitor)
    requires key in VisitorKeysOf(es) && forall i :: 0 <= i < |es| ==> Recordable(es[i])
    ensures v in VisitorsOf(es) && v.host > 0 && key == VisitorKey(v.host, v.day, v.hash)
    ensures Split3(key) == Some((Printed(v.host), v.day, v.hash)) && Parsed(Printed(v.host)) == v.host
  {
    var at :| 0 <= at < |es| && es[at].hash != "" && VisitorKey(es[at].host, es[at].day, es[at].hash) == key;
    VisitorKeysRoundTrip(es[at].host, es[at].day, es[at].hash);
    v := Visitor(es[at].host, es[at].day, es[at].hash);
  }

  function TripleOf(key: string): Option<Visitor> {
    var parts := Split3(key);
    if parts.None? || Parsed(parts.value.0) <= 0 then None
    else Some(Visitor(Parsed(parts.value.0), parts.value.1, parts.value.2))
  }

  /** A key without a positive host id is nobody's. */
  lemma NoVisitorWithoutHost(host: int, day: string, hash: string)
    requires Is64(host) && IsDay(day)
    ensures TripleOf(VisitorKey(host, day, hash)) == if host > 0 then Some(Visitor(host, day, hash)) else None
  {
    VisitorKeysRoundTrip(host, day, hash);
  }

  /** Reading the keys of events back gives exactly their visitors. */
  lemma KeysGiveVisitors(es: seq<Event>, v: Visitor)
    requires forall i :: 0 <= i < |es| ==> Recordable(es[i])
    ensures v in VisitorsOf(es) <==> exists key :: key in VisitorKeysOf(es) && TripleOf(key) == Some(v)
  {
    if v in VisitorsOf(es) {
      var i :| 0 <= i < |es| && es[i].hash != "" && v == Visitor(es[i].host, es[i].day, es[i].hash);
      VisitorKeysRoundTrip(v.host, v.day, v.hash);
      var key := VisitorKey(v.host, v.day, v.hash);
      assert key in VisitorKeysOf(es) && TripleOf(key) == Some(v);
    } else if exists key :: key in VisitorKeysOf(es) && TripleOf(key) == Some(v) {
      var key :| key in VisitorKeysOf(es) && TripleOf(key) == Some(v);
      var w := KeyReadsBack(es, key);
    }
  }

  method AddVisitor(keys: set<string>, e: Event, ghost es: seq<Event>) returns (k: set<string>)
    requires keys == VisitorKeysOf(es) && Is64(e.host)
    ensures k == VisitorKeysOf(es + [e])
  {
    VisitorKeysGrow(es, e);
    k := keys;
    if e.hash != "" {
      var id := Itoa(e.host);
      k := k + {id + [BAR] + e.day + [BAR] + e.hash};
    }
  }

  class VisitorTable {
    var rows: set<Visitor>

    constructor ()
      ensures rows == {}
    {
      rows := {};
    }

    method Flush(keys: set<string>)
      modifies this
      ensures forall v :: v in rows <==> v in old(rows) || exists key :: key in keys && TripleOf(key) == Some(v)
    {
      var todo := keys;
      while todo != {}
        invariant todo <= keys
        invariant forall v :: v in rows <==>
          v in old(rows) || exists key :: key in keys && key !in todo && TripleOf(key) == Some(v)
      {
        var key :| key in todo;
        todo := todo - {key};
        var parts := Split3(key);
        if parts.Some? {
          var id := ParseID(parts.value.0);
          if id > 0 {
            rows := rows + {Visitor(id, parts.value.1, parts.value.2)};
          }
        }
      }
    }
  }

  // ---------- The recorder ----------

  const CAPACITY := 8192

  class Recorder {
    var channel: seq<Event>
    var minuteBatch: map<Key, Counts>
    var classBatch: map<Key, Counts>
    var visitorKeys: set<string>
    const minutes: TrafficTable
    const classes: TrafficTable
    const visitors: VisitorTable
    ghost var consumed: seq<Event>
    ghost var flushed: nat

    ghost predicate Valid()
      reads this, minutes, classes, visitors
    {
      && minutes != classes && flushed <= |consumed| && |channel| <= CAPACITY
      && (forall i :: 0 <= i < |channel| ==> Recordable(channel[i]))
      && (forall i :: 0 <= i < |consumed| ==> Recordable(consumed[i]))
      && Holds(minuteBatch, consumed[flushed..], false)
      && Holds(classBatch, consumed[flushed..], true)
      && visitorKeys == VisitorKeysOf(consumed[flushed..])
      && (forall row, col :: Cell(minutes.rows, row, col) == Direct(consumed[..flushed], false, row, col))
      && (forall row, col :: Cell(classes.rows, row, col) == Direct(consumed[..flushed], true, row, col))
      && visitors.rows == VisitorsOf(consumed[..flushed])
    }

    constructor ()
      ensures Valid() && fresh(minutes) && fresh(classes) && fresh(visitors) && consumed == []
    {
      channel, minuteBatch, classBatch, visitorKeys := [], map[], map[], {};
      consumed, flushed := [], 0;
      minutes := new TrafficTable();
      classes := new TrafficTable();
      visitors := new VisitorTable();
    }

    /** Local and unattributable requests are not recorded; a full channel drops the event. */
    method Record(e: Event) returns (queued: bool)
      requires Valid() && e.host <= MAX64 && IsDay(e.day)
      modifies this`channel
      ensures Valid()
      ensures var named := if e.country == "" then e.(country := "ZZ") else e;
        && (queued <==> Recordable(named) && |old(channel)| < 8192)
        && channel == old(channel) + if queued then [named] else []
    {
      if e.host <= 0 || e.fqdn == "" {
        return false;
      }
      var named := if e.country == "" then e.(country := "ZZ") else e;
      if named.country == "LOCAL" {
        return false;
      }
      queued := |channel| < CAPACITY;
      if queued {
        channel := channel + [named];
      }
    }

    /** Books the oldest queued event in the batches. */
    method Consume()
      requires Valid() && channel != []
      modifies this
      ensures Valid() && flushed == old(flushed)
      ensures consumed == old(consumed) + [old(channel[0])] && channel == old(channel[1..])
      ensures minutes.rows == old(minutes.rows) && classes.rows == old(classes.rows)
      ensures visitors.rows == old(visitors.rows)
    {
      var e := channel[0];
      ghost var pending := consumed[flushed..];
      minuteBatch := AddToBatch(minuteBatch, e, false, pending);
      classBatch := AddToBatch(classBatch, e, true, pending);
      visitorKeys := AddVisitor(visitorKeys, e, pending);
      channel := channel[1..];
      consumed := consumed + [e];
      assert consumed[flushed..] == pending + [e];
      assert consumed[..flushed] == old(consumed)[..flushed];
    }

    /** Writes all batches out; every upsert succeeds. */
    method Flush()
      requires Valid()
      modifies this`minuteBatch, this`classBatch, this`visitorKeys, this`flushed, minutes, classes, visitors
      ensures Valid() && flushed == |consumed|
    {
      ghost var pending := consumed[flushed..];
      ghost var stored := consumed[..flushed];
      assert consumed == stored + pending;
      minutes.Flush(minuteBatch, false, pending);
      classes.Flush(classBatch, true, pending);
      visitors.Flush(visitorKeys);
      forall row, col
        ensures Cell(minutes.rows, row, col) == Direct(consumed, false, row, col)
      {
        DirectConcat(stored, pending, false, row, col);
      }
      forall row, col
        ensures Cell(classes.rows, row, col) == Direct(consumed, true, row, col)
      {
        DirectConcat(stored, pending, true, row, col);
      }
      VisitorsConcat(stored, pending);
      forall v
        ensures v in visitors.rows <==> v in VisitorsOf(consumed)
      {
        KeysGiveVisitors(pending, v);
      }
      minuteBatch, classBatch, visitorKeys := map[], map[], {};
      flushed := |consumed|;
      assert consumed[flushed..] == [] && consumed[..flushed] == consumed;
    }

    /** Local traffic, and requests without a host or country, leave no trace in the tables. */
    lemma LocalTrafficLeavesNoTrace(row: Row, col: Column)
      requires Valid() && (row.country == "LOCAL" || row.country == "" || row.host <= 0)
      ensures Cell(minutes.rows, row, col) == 0 && Cell(classes.rows, row, col) == 0
    {
      NoRequestsNoRow(consumed[..flushed], false, row, col);
      NoRequestsNoRow(consumed[..flushed], true, row, col);
    }

    /** Whatever has been flushed and when: table row plus the counts waiting in the batches is
        the direct ledger of all events consumed, and visitors stored plus the triples that the
        waiting keys read back as are all visitors. */
    lemma StoredPlusPending(row: Row, col: Column)
      requires Valid()
      ensures Cell(minutes.rows, row, col) + Pending(minuteBatch, row, col) == Direct(consumed, false, row, col)
      ensures Cell(classes.rows, row, col) + Pending(classBatch, row, col) == Direct(consumed, true, row, col)
      ensures visitors.rows + TriplesOf(visitorKeys) == VisitorsOf(consumed)
    {
      var stored, pending := consumed[..flushed], consumed[flushed..];
      assert consumed == stored + pending;
      DirectConcat(stored, pending, false, row, col);
      DirectConcat(stored, pending, true, row, col);
      PendingIsDirect(minuteBatch, pending, false, row, col);
      PendingIsDirect(classBatch, pending, true, row, col);
      VisitorsConcat(stored, pending);
      forall v
        ensures v in TriplesOf(visitorKeys) <==> v in VisitorsOf(pending)
      {
        KeysGiveVisitors(pending, v);
      }
    }
  }

  function TriplesOf(keys: set<string>): set<Visitor> {
    set key | key in keys && TripleOf(key).Some? :: TripleOf(key).value
  }

  lemma {:induction false} NoRequestsNoRow(es: seq<Event>, split: bool, row: Row, col: Column)
    requires forall i :: 0 <= i < |es| ==> RowOf(KeyOf(es[i], split)) != row
    ensures Direct(es, split, row, col) == 0
    decreases |es|
  {
    if |es| > 0 {
      NoRequestsNoRow(es[..|es| - 1], split, row, col);
    }
  }

  lemma VisitorsConcat(a: seq<Event>, b: seq<Event>)
    ensures VisitorsOf(a + b) == VisitorsOf(a) + VisitorsOf(b)
  {
    forall v | v in VisitorsOf(b)
      ensures v in VisitorsOf(a + b)
    {
      var i :| 0 <= i < |b| && b[i].hash != "" && v == Visitor(b[i].host, b[i].day, b[i].hash);
      assert (a + b)[|a| + i] == b[i];
    }
    forall v | v in VisitorsOf(a)
      ensures v in VisitorsOf(a + b)
    {
      var i :| 0 <= i < |a| && a[i].hash != "" && v == Visitor(a[i].host, a[i].day, a[i].hash);
      assert (a + b)[i] == a[i];
    }
  }

  lemma VisitorKeysGrow(es: seq<Event>, e: Event)
    ensures VisitorKeysOf(es + [e]) ==
      VisitorKeysOf(es) + if e.hash != "" then {VisitorKey(e.host, e.day, e.hash)} else {}
  {
    forall k | k in VisitorKeysOf(es)
      ensures k in VisitorKeysOf(es + [e])
    {
      var i :| 0 <= i < |es| && es[i].hash != "" && k == VisitorKey(es[i].host, es[i].day, es[i].hash);
      assert (es + [e])[i] == es[i];
    }
    assert (es + [e])[|es|] == e;
  }
}
