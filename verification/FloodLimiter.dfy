/** The limiter for unknown-host floods: 80 hits from one client inside a minute block it for 15
    minutes. Stale entries of all clients are pruned on every call. */
module FloodLimiter {
  import opened Options
  import opened Time

  const WINDOW := MINUTE
  const TTL := 15 * MINUTE
  const THRESHOLD := 80

  datatype Counter = Counter(start: int, count: nat)

  datatype Answer = Answer(triggered: bool, until: int, hits: nat)

  const PASS := Answer(false, 0, 0)

  // ---------- The limiter without pruning, one client at a time ----------

  /** The times of the hits counted in the client's current window, and the end of its block. */
  datatype Client = Client(hits: seq<int>, until: Option<int>)

  const UNSEEN := Client([], None)

  predicate BlockedAt(c: Client, now: int) {
    c.until.Some? && c.until.value > now
  }

  function Counted(c: Client, now: int): seq<int> {
    if c.hits == [] || now - c.hits[0] >= WINDOW then [now] else c.hits + [now]
  }

  function Track(c: Client, now: int): Client {
    if BlockedAt(c, now) then c
    else
      var hits := Counted(c, now);
      if |hits| < THRESHOLD then Client(hits, None) else Client([], Some(now + TTL))
  }

  function TrackAnswer(c: Client, now: int): Answer {
    if BlockedAt(c, now) then Answer(true, c.until.value, THRESHOLD)
    else
      var hits := Counted(c, now);
      if |hits| < THRESHOLD then Answer(false, 0, |hits|) else Answer(true, now + TTL, |hits|)
  }

  /** The counted hits lie in one window, in order, and are fewer than the threshold. */
  predicate ClientInv(c: Client, clock: int) {
    && |c.hits| < THRESHOLD
    && (forall i, j :: 0 <= i <= j < |c.hits| ==> c.hits[i] <= c.hits[j])
    && (forall i :: 0 <= i < |c.hits| ==> c.hits[i] <= clock && c.hits[i] - c.hits[0] < WINDOW)
  }

  lemma TrackKeeps(c: Client, clock: int, now: int)
    requires ClientInv(c, clock) && clock <= now
    ensures ClientInv(Track(c, now), now)
  {
  }

  /** A new trip means exactly 80 counted hits of the client inside one window shorter than 60
      seconds, the last of them now. */
  predicate NewTrip(c: Client, now: int) {
    !BlockedAt(c, now) && TrackAnswer(c, now).triggered
  }

  lemma TripsAreEarned(c: Client, clock: int, now: int)
    requires ClientInv(c, clock) && clock <= now && NewTrip(c, now)
    ensures var hits := Counted(c, now);
      && |hits| == THRESHOLD && TrackAnswer(c, now).hits == THRESHOLD
      && (forall i, j :: 0 <= i <= j < |hits| ==> hits[i] <= hits[j])
      && hits[|hits| - 1] == now && now - hits[0] < WINDOW
      && TrackAnswer(c, now).until == now + TTL
  {
  }

  /** Hits while a block stands do not move its end. */
  lemma {:induction false} BlockedHitsChangeNothing(c: Client, ts: seq<int>)
    requires c.until.Some? && forall i :: 0 <= i < |ts| ==> ts[i] < c.until.value
    ensures AfterHits(c, ts) == c
    decreases |ts|
  {
    if |ts| > 0 {
      assert Track(c, ts[0]) == c;
      BlockedHitsChangeNothing(c, ts[1..]);
    }
  }

  function AfterHits(c: Client, ts: seq<int>): Client
    decreases |ts|
  {
    if |ts| == 0 then c else AfterHits(Track(c, ts[0]), ts[1..])
  }

  /** A trip blocks the client for exactly 15 minutes, whatever it sends meanwhile, and then it
      starts from nothing. */
  lemma BlocksLastAQuarter(c: Client, now: int, ts: seq<int>, later: int)
    requires NewTrip(c, now) && forall i :: 0 <= i < |ts| ==> ts[i] < now + 15 * MINUTE
    ensures var blocked := AfterHits(Track(c, now), ts);
            && (BlockedAt(blocked, later) <==> later < now + 15 * MINUTE)
            && (later >= now + 15 * MINUTE ==> TrackAnswer(blocked, later) == Answer(false, 0, 1))
  {
    BlockedHitsChangeNothing(Track(c, now), ts);
  }

  // ---------- Completeness ----------

  predicate Ordered(ts: seq<int>) {
    forall i, j :: 0 <= i <= j < |ts| ==> ts[i] <= ts[j]
  }

  /** Some hit of the run is answered "triggered". */
  predicate Triggers(c: Client, ts: seq<int>)
    decreases |ts|
  {
    |ts| > 0 && (TrackAnswer(c, ts[0]).triggered || Triggers(Track(c, ts[0]), ts[1..]))
  }

  /** Hits that all fall into the open window fill it up. */
  lemma {:induction false} OneWindowFills(c: Client, ts: seq<int>)
    requires c.hits != [] && |c.hits| < THRESHOLD
    requires forall i :: 0 <= i < |ts| ==> ts[i] - c.hits[0] < WINDOW
    requires !Triggers(c, ts)
    ensures |c.hits| + |ts| < THRESHOLD
    decreases |ts|
  {
    if |ts| > 0 {
      var next := Track(c, ts[0]);
      assert next.hits == c.hits + [ts[0]];
      forall i | 0 <= i < |ts[1..]|
        ensures ts[1..][i] - next.hits[0] < WINDOW
      {
        assert ts[1..][i] == ts[i + 1];
      }
      OneWindowFills(next, ts[1..]);
    }
  }

  /** Hits within less than 60 seconds fall into at most two windows. */
  lemma {:induction false} TwoWindowsFill(c: Client, ts: seq<int>)
    requires |c.hits| < THRESHOLD && Ordered(ts)
    requires |ts| > 0 ==> ts[|ts| - 1] - ts[0] < WINDOW
    requires !Triggers(c, ts)
    ensures |ts| <= (if c.hits == [] then 0 else THRESHOLD - 1 - |c.hits|) + THRESHOLD - 1
    decreases |ts|
  {
    if |ts| > 0 {
      var next := Track(c, ts[0]);
      assert Ordered(ts[1..]) by {
        forall i, j | 0 <= i <= j < |ts[1..]|
          ensures ts[1..][i] <= ts[1..][j]
        {
          assert ts[i + 1] <= ts[j + 1];
        }
      }
      if c.hits == [] || ts[0] - c.hits[0] >= WINDOW {
        forall i | 0 <= i < |ts[1..]|
          ensures ts[1..][i] - next.hits[0] < WINDOW
        {
          assert ts[1..][i] == ts[i + 1] <= ts[|ts| - 1];
        }
        OneWindowFills(next, ts[1..]);
      } else {
        assert |ts| > 1 ==> ts[1..][|ts| - 2] - ts[1..][0] < WINDOW;
        TwoWindowsFill(next, ts[1..]);
      }
    }
  }

  /** 158 tracked hits of a client in less than 60 seconds get at least one "triggered". */
  lemma FloodsAreCaught(c: Client, clock: int, ts: seq<int>)
    requires ClientInv(c, clock) && Ordered(ts) && |ts| >= 158
    requires ts[|ts| - 1] - ts[0] < WINDOW
    ensures Triggers(c, ts)
  {
    if !Triggers(c, ts) {
      TwoWindowsFill(c, ts);
    }
  }

  function Copies(t: int, n: nat): seq<int> {
    if n == 0 then [] else [t] + Copies(t, n - 1)
  }

  lemma {:induction false} QuietCopies(c: Client, t: int, n: nat, rest: seq<int>)
    requires c.until.None? && c.hits != [] && t - c.hits[0] < WINDOW && |c.hits| + n < THRESHOLD
    ensures Triggers(c, Copies(t, n) + rest) <==> Triggers(Client(c.hits + Copies(t, n), None), rest)
    decreases n
  {
    if n == 0 {
      assert c.hits + [] == c.hits && Copies(t, 0) + rest == rest;
    } else {
      var next := Client(c.hits + [t], None);
      assert (Copies(t, n) + rest)[1..] == Copies(t, n - 1) + rest;
      assert Track(c, t) == next;
      assert next.hits + Copies(t, n - 1) == c.hits + Copies(t, n);
      QuietCopies(next, t, n - 1, rest);
    }
  }

  /** 157 do not suffice: 78 hits just before a window ends and 79 just after. */
  lemma OneFewerMayPass(start: int)
    ensures var ts := Copies(start + WINDOW - 1, 78) + Copies(start + WINDOW, 79);
      && |ts| == 157 && Ordered(ts) && ts[156] - ts[0] < WINDOW
      && ClientInv(Client([start], None), start) && !Triggers(Client([start], None), ts)
  {
    var c := Client([start], None);
    var late := Copies(start + WINDOW, 79);
    CopiesAre(start + WINDOW - 1, 78);
    CopiesAre(start + WINDOW, 79);
    QuietCopies(c, start + WINDOW - 1, 78, late);
    var full := Client([start] + Copies(start + WINDOW - 1, 78), None);
    var reopened := Client([start + WINDOW], None);
    assert Track(full, start + WINDOW) == reopened;
    assert late[1..] == Copies(start + WINDOW, 78);
    assert Copies(start + WINDOW, 78) + [] == Copies(start + WINDOW, 78);
    QuietCopies(reopened, start + WINDOW, 78, []);
  }

  lemma {:induction false} CopiesAre(t: int, n: nat)
    ensures |Copies(t, n)| == n && forall i :: 0 <= i < n ==> Copies(t, n)[i] == t
  {
    if n > 0 {
      CopiesAre(t, n - 1);
    }
  }

  // ---------- The limiter itself ----------

  /** What is stored about a client agrees with the unpruned limiter, except for entries of
      which no later call could take notice. */
  predicate Agree(counter: Option<Counter>, block: Option<int>, c: Client, clock: int) {
    && ClientInv(c, clock)
    && (c.until.Some? ==> c.hits == [])
    && (counter.Some? ==> c.hits != [] && counter.value == Counter(c.hits[0], |c.hits|))
    && (counter.None? && c.hits != [] ==> clock - c.hits[0] > WINDOW)
    && (block.Some? ==> c.until == block)
    && (block.None? && c.until.Some? ==> c.until.value <= clock)
  }

  function Seen(clients: map<string, Client>, ip: string): Client {
    if ip in clients then clients[ip] else UNSEEN
  }

  ghost predicate AllAgree(count: map<string, Counter>, block: map<string, int>, clients: map<string, Client>,
                           clock: int)
  {
    forall ip :: Agree(Find(count, ip), Find(block, ip), Seen(clients, ip), clock)
  }

  /** What happens to one client is nobody else's business. */
  lemma OneClientChanges(count: map<string, Counter>, block: map<string, int>, clients: map<string, Client>, clock: int,
                         ip: string, counter: Option<Counter>, until: Option<int>, c: Client)
    requires AllAgree(count, block, clients, clock) && Agree(counter, until, c, clock)
    ensures AllAgree(Put(count, ip, counter), Put(block, ip, until), clients[ip := c], clock)
  {
    var count1, block1, clients1 := Put(count, ip, counter), Put(block, ip, until), clients[ip := c];
    forall other ensures Agree(Find(count1, other), Find(block1, other), Seen(clients1, other), clock) {
      assert Agree(Find(count, other), Find(block, other), Seen(clients, other), clock);
      if other != ip {
        assert Find(count1, other) == Find(count, other) && Find(block1, other) == Find(block, other);
      }
    }
  }

  function Put<T>(m: map<string, T>, ip: string, entry: Option<T>): map<string, T> {
    if entry.Some? then m[ip := entry.value] else m - {ip}
  }

  class Limiter {
    var count: map<string, Counter>
    var block: map<string, int>
    ghost var clients: map<string, Client>
    ghost var clock: int

    ghost function ClientOf(ip: string): Client
      reads this`clients
    {
      Seen(clients, ip)
    }

    ghost predicate Valid()
      reads this
    {
      AllAgree(count, block, clients, clock)
    }

    /** Counters stay between 1 and 79, and no client is both counted and blocked. */
    lemma MapsAreSane(ip: string)
      requires Valid()
      ensures ip in count ==> 1 <= count[ip].count < THRESHOLD
      ensures !(ip in count && ip in block)
    {
      assert Agree(Find(count, ip), Find(block, ip), ClientOf(ip), clock);
    }

    constructor (ghost now: int)
      ensures Valid() && clock == now && clients == map[]
    {
      count, block, clients, clock := map[], map[], map[], now;
    }

    method Prune(now: int)
      requires Valid() && now >= clock
      modifies this
      ensures Valid() && clock == now && clients == old(clients)
      ensures forall ip :: ip in block ==> block[ip] > now
    {
      clock := now;
      PruneBlocks(now);
      PruneCounters(now);
    }

    method PruneBlocks(now: int)
      requires Valid() && now == clock
      modifies this`block
      ensures Valid()
      ensures forall ip :: ip in block ==> block[ip] > now
    {
      var todo := block.Keys;
      while todo != {}
        invariant todo <= block.Keys && Valid()
        invariant forall ip :: ip in block && ip !in todo ==> block[ip] > now
      {
        var ip :| ip in todo;
        assert Agree(Find(count, ip), Find(block, ip), ClientOf(ip), clock);
        todo := todo - {ip};
        if block[ip] <= now {
          block := block - {ip};
        }
      }
    }

    method PruneCounters(now: int)
      requires Valid() && now == clock
      modifies this`count
      ensures Valid()
    {
      var stale := now - (WINDOW + TTL);
      var todo := count.Keys;
      while todo != {}
        invariant todo <= count.Keys && Valid()
      {
        var ip :| ip in todo;
        assert Agree(Find(count, ip), Find(block, ip), ClientOf(ip), clock);
        todo := todo - {ip};
        if count[ip].start < stale {
          count := count - {ip};
        }
      }
    }

    /** Whether a client is blocked: the unpruned limiter's answer. */
    method IsBlocked(ip: string, exempt: bool, now: int) returns (blocked: bool, until: int)
      requires Valid() && now >= clock
      modifies this
      ensures Valid() && clients == old(clients)
      ensures blocked <==> !exempt && BlockedAt(ClientOf(ip), now)
      ensures blocked ==> ClientOf(ip).until == Some(until)
    {
      if exempt {
        return false, 0;
      }
      Prune(now);
      assert Agree(Find(count, ip), Find(block, ip), ClientOf(ip), clock);
      if ip !in block || block[ip] <= now {
        return false, 0;
      }
      return true, block[ip];
    }

    /** Counts a hit: the unpruned limiter's step and answer for this client, and nobody else is
        affected. Empty and local clients are exempt. */
    method TrackUnknownHost(ip: string, exempt: bool, now: int) returns (a: Answer)
      requires Valid() && now >= clock
      modifies this
      ensures Valid()
      ensures exempt ==> a == PASS && clients == old(clients)
      ensures !exempt ==> a == TrackAnswer(old(ClientOf(ip)), now)
      ensures !exempt ==> clients == old(clients)[ip := Track(old(ClientOf(ip)), now)]
    {
      if exempt {
        return PASS;
      }
      Prune(now);
      var counter, until := Find(count, ip), Find(block, ip);
      ghost var before := ClientOf(ip);
      assert Agree(counter, until, before, now);
      TrackAgrees(counter, until, before, now);
      if ip in block && block[ip] > now {
        OneClientChanges(count, block, clients, now, ip, counter, until, before);
        clients := clients[ip := before];
        return Answer(true, block[ip], THRESHOLD);
      }
      a := CountHit(ip, now, before);
    }

    method CountHit(ip: string, now: int, ghost before: Client) returns (a: Answer)
      requires Valid() && now == clock && ip !in block && before == ClientOf(ip)
      modifies this`count, this`block, this`clients
      ensures Valid() && a == TrackAnswer(before, now)
      ensures clients == old(clients)[ip := Track(before, now)]
    {
      var c := NextCounter(Find(count, ip), now);
      ghost var after := Track(before, now);
      assert Agree(Find(count, ip), None, before, now);
      TrackAgrees(Find(count, ip), None, before, now);
      if c.count < THRESHOLD {
        OneClientChanges(count, block, clients, now, ip, Some(c), None, after);
        assert block - {ip} == block;
        clients, count := clients[ip := after], count[ip := c];
        return Answer(false, 0, c.count);
      }
      OneClientChanges(count, block, clients, now, ip, None, Some(now + TTL), after);
      clients, count := clients[ip := after], count[ip := c];
      block := block[ip := now + TTL];
      count := count - {ip};
      assert count == old(count) - {ip};
      return Answer(true, now + TTL, c.count);
    }
  }

  function NextCounter(counter: Option<Counter>, now: int): Counter {
    if counter.None? || now - counter.value.start >= WINDOW then Counter(now, 1)
    else Counter(counter.value.start, counter.value.count + 1)
  }

  /** The stored counter, pruned or not, steps as the unpruned limiter does. */
  lemma TrackAgrees(counter: Option<Counter>, block: Option<int>, c: Client, now: int)
    requires Agree(counter, block, c, now) && (block.Some? ==> block.value > now)
    ensures block.Some? ==> TrackAnswer(c, now) == Answer(true, block.value, THRESHOLD) && Track(c, now) == c
    ensures block.None? ==>
      var next := NextCounter(counter, now);
      if next.count < THRESHOLD then
        TrackAnswer(c, now) == Answer(false, 0, next.count) && Agree(Some(next), None, Track(c, now), now)
      else
        TrackAnswer(c, now) == Answer(true, now + TTL, next.count) && Agree(None, Some(now + TTL), Track(c, now), now)
  {
    TrackKeeps(c, now, now);
    if block.None? {
      var hits := Counted(c, now);
      assert NextCounter(counter, now) == Counter(hits[0], |hits|);
    }
  }
}
