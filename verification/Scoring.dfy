/** What an event is worth: its signals, and the calls that went before it. */
module Scoring {
  import opened BurstWindow
  import opened Levels
  import opened ThreatRecord
  import opened ThreatSignals
  import opened Time

  /** `hit` is how an event with these signals scores after the calls in `log`. */
  predicate IsScored(hit: Hit, log: seq<Call>, ip: string, auto: bool, signals: seq<string>, now: int) {
    IsScoredBy(TABLE, hit, log, ip, auto, signals, now)
  }

  predicate IsScoredBy(table: Table, hit: Hit, log: seq<Call>, ip: string, auto: bool, signals: seq<string>, now: int) {
    var u := Unique(signals);
    && hit.auto == auto && IsTop(table, u, hit.top)
    && (hit.boost <==> exists i :: 0 <= i < |u| && Boosts(u[i]))
    && hit.delta == EventXP(BaseXP(table, u), BurstTenths(BurstHits(log + [CallOf(hit, ip, now)])), |u|)
  }

  function CallOf(hit: Hit, ip: string, now: int): Call {
    Call(ip, Primary(hit.top), now)
  }

  /** How many calls like the last one its window has seen. */
  function BurstHits(log: seq<Call>): nat
    requires |log| > 0
  {
    var last := log[|log| - 1];
    SamePrimary(log, last.ip, last.primary, Opening(log, last.ip))
  }

  /** Signals, mode and the log determine the score. */
  lemma ScoresAreUnique(a: Hit, b: Hit, log: seq<Call>, ip: string, auto: bool, signals: seq<string>, now: int)
    requires IsScored(a, log, ip, auto, signals, now) && IsScored(b, log, ip, auto, signals, now)
    ensures a == b
  {
    TopIsUnique(TABLE, Unique(signals), a.top, b.top);
  }

  lemma TopIsUnique(table: Table, signals: seq<string>, a: string, b: string)
    requires IsTop(table, signals, a) && IsTop(table, signals, b)
    ensures a == b
  {
    if !Worthless(table, signals) {
      var i :| 0 <= i < |signals| && IsFirstMaximum(table, signals, i) && a == signals[i];
      var j :| 0 <= j < |signals| && IsFirstMaximum(table, signals, j) && b == signals[j];
      assert i == j;
    }
  }

  /** No call of the IP lies within the minute before `now`. */
  predicate Quiet(log: seq<Call>, ip: string, now: int) {
    forall i :: 0 <= i < |log| && log[i].ip == ip ==> now - log[i].now > MINUTE
  }

  lemma StaysQuiet(log: seq<Call>, c: Call, now: int)
    requires Quiet(log, c.ip, c.now) && now - c.now > MINUTE
    ensures Quiet(log + [c], c.ip, now)
  {
  }

  /** After a quiet minute a call opens a window of its own. */
  lemma QuietCallStandsAlone(log: seq<Call>, c: Call)
    requires Quiet(log, c.ip, c.now)
    ensures BurstHits(log + [c]) == 1
  {
    var all := log + [c];
    assert all[..|log|] == log;
    var at := Opening(log, c.ip);
    assert at < |log| ==> log[at].ip == c.ip;
    assert Opening(all, c.ip) == |log|;
    assert SamePrimary(log, c.ip, c.primary, |log|) == 0;
  }

  const UNKNOWN_HOST := "behavior.unknown_host"

  /** The least an event can be worth. */
  const WEAKEST := Hit(true, 1, false, UNKNOWN_HOST)

  /** After a quiet minute an event with a lone unknown host is worth exactly that. */
  lemma LoneUnknownHost(log: seq<Call>, ip: string, now: int)
    requires Quiet(log, ip, now)
    ensures IsScored(WEAKEST, log, ip, true, [UNKNOWN_HOST], now)
  {
    LoneSignal(UNKNOWN_HOST);
    LoneBaseXP();
    QuietCallStandsAlone(log, CallOf(WEAKEST, ip, now));
    assert RoundedQuotient(10, 10) == 1;
  }

  lemma LoneSignal(signal: string)
    requires signal != ""
    ensures Unique([signal]) == [signal]
  {
    assert [signal][..0] == [];
  }

  lemma LoneBaseXP()
    ensures BaseXP(TABLE, [UNKNOWN_HOST]) == 1 && IsTop(TABLE, [UNKNOWN_HOST], UNKNOWN_HOST)
    ensures !Boosts(UNKNOWN_HOST)
  {
    var u := [UNKNOWN_HOST];
    assert Points(TABLE, UNKNOWN_HOST) == 1 && IsFirstMaximum(TABLE, u, 0);
    assert u[..0] == [] && SumPoints(TABLE, u) == 1;
  }

  const FEED_HIT := Hit(true, 6, true, "external_feed_hit")

  /** After a quiet minute a lone hit in a feed, whatever its name, is worth 6 XP and a boost. */
  lemma LoneFeedHit(log: seq<Call>, ip: string, feed: string, now: int)
    requires Quiet(log, ip, now) && feed != "" && Boosts(feed) && FromFeed(TABLE, feed)
    ensures IsScored(FEED_HIT, log, ip, true, [feed], now)
  {
    LoneSignal(feed);
    LoneFeedXP(feed);
    QuietCallStandsAlone(log, CallOf(FEED_HIT, ip, now));
    assert RoundedQuotient(60, 10) == 6;
  }

  lemma LoneFeedXP(feed: string)
    requires FromFeed(TABLE, feed)
    ensures BaseXP(TABLE, [feed]) == 6 && IsTop(TABLE, [feed], "external_feed_hit")
  {
    var u := [feed];
    assert FromFeed(TABLE, u[0]) && AnyFromFeed(TABLE, u) && Worthless(TABLE, u);
    assert u[..0] == [] && SumPoints(TABLE, u) == 0;
  }

  /** Every event has a top signal, so the burst window counts by it; an empty one would count as an
      unknown host. */
  lemma TopsArePrimary(signals: seq<string>, top: string)
    requires IsTop(TABLE, Unique(signals), top)
    ensures top != "" && Primary(top) == top && Primary("") == UNKNOWN_HOST
  {
    UniqueIsASet(signals);
  }

  // ---------- Bursts ----------

  /** Calls of one IP with one primary signal. */
  function Burst(ip: string, primary: string, times: seq<int>): seq<Call> {
    if |times| == 0 then []
    else Burst(ip, primary, times[..|times| - 1]) + [Call(ip, primary, times[|times| - 1])]
  }

  predicate WithinAMinute(times: seq<int>) {
    forall i :: 0 <= i < |times| ==> times[i] - times[0] <= MINUTE
  }

  /** After a quiet minute, calls up to a minute after the first one all fall into its window. */
  lemma {:induction false} RapidCallsShareAWindow(log: seq<Call>, ip: string, primary: string, times: seq<int>)
    requires |times| > 0 && Quiet(log, ip, times[0]) && WithinAMinute(times)
    ensures var all := log + Burst(ip, primary, times);
            |all| > |log| && all[|log|] == Call(ip, primary, times[0]) && all[|all| - 1].ip == ip &&
            all[|all| - 1].primary == primary && Opening(all, ip) == |log| && BurstHits(all) == |times|
    decreases |times|
  {
    var n := |times| - 1;
    var c := Call(ip, primary, times[n]);
    var before := log + Burst(ip, primary, times[..n]);
    var all := log + Burst(ip, primary, times);
    assert all == before + [c] && all[..|before|] == before;
    if n == 0 {
      assert before == log;
      QuietCallStandsAlone(log, c);
      var at := Opening(log, ip);
      assert at < |log| ==> log[at].ip == ip;
    } else {
      RapidCallsShareAWindow(log, ip, primary, times[..n]);
      assert all[|log|] == before[|log|];
    }
  }

  /** The next of a burst of lone equal signals scores the points of the signal times the factor of
      its place in the burst. */
  lemma BurstScore(table: Table, log: seq<Call>, ip: string, signal: string, times: seq<int>, now: int, hit: Hit)
    requires signal != "" && Points(table, signal) > 0
    requires Quiet(log, ip, (times + [now])[0]) && WithinAMinute(times + [now])
    requires IsScoredBy(table, hit, log + Burst(ip, signal, times), ip, true, [signal], now)
    ensures hit.top == signal
    ensures hit.delta == EventXP(Points(table, signal), BurstTenths(|times| + 1), 1)
  {
    LoneSignal(signal);
    LonePoints(table, signal);
    TopIsUnique(table, [signal], hit.top, signal);
    assert CallOf(hit, ip, now) == Call(ip, signal, now);
    BurstGoesOn(log, ip, signal, times, now);
  }

  lemma BurstGoesOn(log: seq<Call>, ip: string, primary: string, times: seq<int>, now: int)
    requires Quiet(log, ip, (times + [now])[0]) && WithinAMinute(times + [now])
    ensures BurstHits(log + Burst(ip, primary, times) + [Call(ip, primary, now)]) == |times| + 1
  {
    var all := times + [now];
    assert all[..|times|] == times;
    assert Burst(ip, primary, all) == Burst(ip, primary, times) + [Call(ip, primary, now)];
    RapidCallsShareAWindow(log, ip, primary, all);
    assert log + Burst(ip, primary, all) == log + Burst(ip, primary, times) + [Call(ip, primary, now)];
  }

  lemma LonePoints(table: Table, signal: string)
    requires Points(table, signal) > 0
    ensures BaseXP(table, [signal]) == Points(table, signal) && IsTop(table, [signal], signal)
  {
    var u := [signal];
    assert u[..0] == [] && IsFirstMaximum(table, u, 0);
    assert SumPoints(table, u) == Points(table, signal) && !Worthless(table, u);
    assert !AnyFromFeed(table, u);
  }

  const PATH_SCAN := "behavior.path_scan"

  /** What the place in a burst is worth: from the third hit on the XP rise by a fifth, from the
      fifth by a half, from the eighth they double. */
  lemma PathScanBurst(log: seq<Call>, ip: string, times: seq<int>, now: int, hit: Hit)
    requires Quiet(log, ip, (times + [now])[0]) && WithinAMinute(times + [now])
    requires IsScored(hit, log + Burst(ip, PATH_SCAN, times), ip, true, [PATH_SCAN], now)
    ensures var n := |times| + 1;
            hit.delta == if n <= 2 then 4 else if n <= 4 then 5 else if n <= 7 then 6 else 8
  {
    assert Points(TABLE, PATH_SCAN) == 4;
    BurstScore(TABLE, log, ip, PATH_SCAN, times, now, hit);
    FourPoints();
  }

  lemma FourPoints()
    ensures EventXP(4, 10, 1) == 4 && EventXP(4, 12, 1) == 5 && EventXP(4, 15, 1) == 6 && EventXP(4, 20, 1) == 8
  {
    assert RoundedQuotient(40, 10) == 4 && RoundedQuotient(48, 10) == 5;
    assert RoundedQuotient(60, 10) == 6 && RoundedQuotient(80, 10) == 8;
  }

  // ---------- Several signals ----------

  /** Three different signals earn two points more than their sum. */
  lemma ThreeSignals(log: seq<Call>, ip: string, now: int)
    requires Quiet(log, ip, now)
    ensures IsScored(Hit(true, 9, false, PATH_SCAN), log, ip, true,
                     [UNKNOWN_HOST, PATH_SCAN, "behavior.ua_scanner"], now)
  {
    var u := [UNKNOWN_HOST, PATH_SCAN, "behavior.ua_scanner"];
    ThreeUnique(UNKNOWN_HOST, PATH_SCAN, "behavior.ua_scanner");
    ThreePoints();
    QuietCallStandsAlone(log, Call(ip, PATH_SCAN, now));
    assert RoundedQuotient(70, 10) == 7;
  }

  lemma ThreeUnique(a: string, b: string, c: string)
    requires a != "" && b != "" && c != "" && a != b && b != c && a != c
    ensures Unique([a, b, c]) == [a, b, c]
  {
    UniqueAppend([], a);
    UniqueAppend([a], b);
    UniqueAppend([a, b], c);
    assert [] + [a] == [a] && [a] + [b] == [a, b] && [a, b] + [c] == [a, b, c];
  }

  lemma ThreePoints()
    ensures var u := [UNKNOWN_HOST, PATH_SCAN, "behavior.ua_scanner"];
            BaseXP(TABLE, u) == 7 && IsTop(TABLE, u, PATH_SCAN) && forall i :: 0 <= i < 3 ==> !Boosts(u[i])
    ensures UNKNOWN_HOST != PATH_SCAN && PATH_SCAN != "behavior.ua_scanner" && UNKNOWN_HOST != "behavior.ua_scanner"
  {
    var u := [UNKNOWN_HOST, PATH_SCAN, "behavior.ua_scanner"];
    assert Points(TABLE, u[0]) == 1 && Points(TABLE, u[1]) == 4 && Points(TABLE, u[2]) == 2;
    SumOfThree(TABLE, u[0], u[1], u[2]);
    assert IsFirstMaximum(TABLE, u, 1);
  }

  lemma SumOfThree(table: Table, a: string, b: string, c: string)
    ensures SumPoints(table, [a, b, c]) == Points(table, a) + Points(table, b) + Points(table, c)
  {
    SumAppend(table, [], a);
    SumAppend(table, [a], b);
    SumAppend(table, [a, b], c);
    assert [] + [a] == [a] && [a] + [b] == [a, b] && [a, b] + [c] == [a, b, c];
  }
}
