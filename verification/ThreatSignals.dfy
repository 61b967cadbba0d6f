/** How the signals of an event are scored. Signals are strings that are already trimmed and in
    lower case. */
module ThreatSignals {
  import opened Levels

  type Table = map<string, nat>

  const TABLE: Table := map[
    "behavior.unknown_host" := 1,
    "behavior.path_scan" := 4,
    "behavior.ua_scanner" := 2,
    "behavior.invalid_host" := 2,
    "behavior.auth_failed" := 3,
    "protocol.ssh.auth_denied" := 3,
    "protocol.ssh.forward_denied" := 4,
    "signature.wp_scanner" := 6,
    "signature.secret_hunter" := 7,
    "signature.webshell_probe" := 8,
    "signature.flat_php_probe" := 5,
    "signature.hidden_index_dropper" := 7,
    "signature.admin_surface_probe" := 4,
    "signature.api_enum" := 4,
    "signature.scanner_ua" := 3
  ]

  predicate IsBehavior(signal: string) { "behavior." <= signal }
  predicate IsProtocol(signal: string) { "protocol." <= signal }
  predicate IsSignature(signal: string) { "signature." <= signal }

  function Points(table: Table, signal: string): nat {
    var p := if signal in table then table[signal] else 0;
    if p == 0 && IsSignature(signal) then 4 else p
  }

  /** Unknown and worth nothing by itself: taken for a hit in an external feed. */
  predicate FromFeed(table: Table, signal: string) {
    Points(table, signal) == 0 && !IsBehavior(signal)
  }

  /** The first occurrence of each non-empty signal, in order. */
  function Unique(signals: seq<string>): seq<string> {
    if |signals| == 0 then [] else
      var last := |signals| - 1;
      var u := Unique(signals[..last]);
      if signals[last] == "" || signals[last] in u then u else u + [signals[last]]
  }

  method UniqueSignals(signals: seq<string>) returns (unique: seq<string>)
    ensures unique == Unique(signals)
  {
    unique := [];
    var seen: set<string> := {};
    for i := 0 to |signals|
      invariant unique == Unique(signals[..i])
      invariant forall s :: s in seen <==> s in unique
    {
      assert signals[..i + 1][..i] == signals[..i];
      if signals[i] != "" && signals[i] !in seen {
        seen := seen + {signals[i]};
        unique := unique + [signals[i]];
      }
    }
    assert signals[..|signals|] == signals;
  }

  lemma {:induction false} UniqueIsASet(signals: seq<string>)
    ensures forall s :: s in Unique(signals) <==> s in signals && s != ""
    ensures forall i, j :: 0 <= i < j < |Unique(signals)| ==> Unique(signals)[i] != Unique(signals)[j]
  {
    if |signals| > 0 {
      var last := |signals| - 1;
      UniqueIsASet(signals[..last]);
      assert signals == signals[..last] + [signals[last]];
    }
  }

  function FirstAt(signals: seq<string>, signal: string): (i: nat)
    requires signal in signals
    ensures i < |signals| && signals[i] == signal
  {
    if signal in signals[..|signals| - 1] then FirstAt(signals[..|signals| - 1], signal) else |signals| - 1
  }

  /** Signals stay in the order in which they first came. */
  lemma {:induction false} UniqueKeepsOrder(signals: seq<string>, i: nat, j: nat)
    requires i < j < |Unique(signals)|
    ensures var u := Unique(signals);
            u[i] in signals && u[j] in signals && FirstAt(signals, u[i]) < FirstAt(signals, u[j])
    decreases |signals|
  {
    var before := signals[..|signals| - 1];
    UniqueIsASet(signals);
    UniqueIsASet(before);
    if j < |Unique(before)| {
      UniqueKeepsOrder(before, i, j);
    }
  }

  lemma UniqueAppend(signals: seq<string>, last: string)
    ensures var u := Unique(signals);
            Unique(signals + [last]) == if last == "" || last in u then u else u + [last]
  {
    assert (signals + [last])[..|signals|] == signals;
  }

  function SumPoints(table: Table, signals: seq<string>): nat {
    if |signals| == 0 then 0 else SumPoints(table, signals[..|signals| - 1]) + Points(table, signals[|signals| - 1])
  }

  lemma SumAppend(table: Table, signals: seq<string>, last: string)
    ensures SumPoints(table, signals + [last]) == SumPoints(table, signals) + Points(table, last)
  {
    assert (signals + [last])[..|signals|] == signals;
  }

  predicate AnyFromFeed(table: Table, signals: seq<string>) {
    exists i :: 0 <= i < |signals| && FromFeed(table, signals[i])
  }

  function BaseXP(table: Table, signals: seq<string>): (xp: nat)
    ensures xp >= 1
  {
    var total := SumPoints(table, signals) + if AnyFromFeed(table, signals) then 6 else 0;
    if total <= 0 then 1 else total
  }

  predicate IsFirstMaximum(table: Table, signals: seq<string>, i: nat)
    requires i < |signals|
  {
    && (forall j :: 0 <= j < |signals| ==> Points(table, signals[j]) <= Points(table, signals[i]))
    && (forall j :: 0 <= j < i ==> Points(table, signals[j]) < Points(table, signals[i]))
  }

  predicate Worthless(table: Table, signals: seq<string>) {
    forall i :: 0 <= i < |signals| ==> Points(table, signals[i]) == 0
  }

  /** The signal with the most points, the first of them if several tie; a stand-in if none is
      worth anything. */
  predicate IsTop(table: Table, signals: seq<string>, top: string) {
    if Worthless(table, signals) then
      top == if AnyFromFeed(table, signals) then "external_feed_hit" else "behavior.unknown_host"
    else exists i :: 0 <= i < |signals| && IsFirstMaximum(table, signals, i) && top == signals[i]
  }

  method CalcThreatBaseXP(table: Table, signals: seq<string>) returns (total: nat, top: string)
    ensures total == BaseXP(table, signals)
    ensures IsTop(table, signals, top)
  {
    total := 0;
    var at, topPoints := 0, 0;
    var seenExternal := false;
    for i := 0 to |signals|
      invariant total == SumPoints(table, signals[..i])
      invariant seenExternal <==> exists j :: 0 <= j < i && FromFeed(table, signals[j])
      invariant forall j :: 0 <= j < i ==> Points(table, signals[j]) <= topPoints
      invariant topPoints > 0 ==> 0 <= at < i && Points(table, signals[at]) == topPoints
      invariant topPoints > 0 ==> forall j :: 0 <= j < at ==> Points(table, signals[j]) < topPoints
    {
      assert signals[..i + 1][..i] == signals[..i];
      var p := Points(table, signals[i]);
      if p == 0 && !IsBehavior(signals[i]) {
        seenExternal := true;
      }
      total := total + p;
      if p > topPoints {
        topPoints, at := p, i;
      }
    }
    assert signals[..|signals|] == signals;
    if topPoints > 0 {
      top := signals[at];
      assert IsFirstMaximum(table, signals, at);
    } else if seenExternal {
      top := "external_feed_hit";
    } else {
      top := "behavior.unknown_host";
    }
    if seenExternal {
      total := total + 6;
    }
    if total <= 0 {
      total := 1;
    }
  }

  predicate Boosts(signal: string) {
    !IsBehavior(signal) && !IsProtocol(signal)
  }

  /** Feed hits and signature hits together: everything that is neither behaviour nor protocol. */
  method HasKnownThreatBoostSignal(signals: seq<string>) returns (boost: bool)
    ensures boost <==> exists i :: 0 <= i < |signals| && Boosts(signals[i])
  {
    var external := false;
    for i := 0 to |signals|
      invariant external <==> exists j :: 0 <= j < i && Boosts(signals[j]) && !IsSignature(signals[j])
    {
      if !IsBehavior(signals[i]) && !IsProtocol(signals[i]) && !IsSignature(signals[i]) {
        external := true;
      }
    }
    var signature := false;
    for i := 0 to |signals|
      invariant signature <==> exists j :: 0 <= j < i && IsSignature(signals[j])
    {
      if IsSignature(signals[i]) {
        signature := true;
      }
    }
    boost := external || signature;
    forall j | 0 <= j < |signals| && IsSignature(signals[j])
      ensures Boosts(signals[j])
    {
      SignaturesBoost(signals[j]);
    }
  }

  lemma SignaturesBoost(signal: string)
    requires IsSignature(signal)
    ensures Boosts(signal)
  {
    assert signal[0] == 's';
  }

  /** The burst factor in tenths. */
  function BurstTenths(hits: nat): nat {
    if hits >= 8 then 20 else if hits >= 5 then 15 else if hits >= 3 then 12 else 10
  }

  /** Rounded burst XP, at least 1, with 2 on top for three or more different signals. */
  function EventXP(base: nat, tenths: nat, signals: nat): (xp: nat)
    ensures xp >= 1
  {
    var rounded := RoundedQuotient(base * tenths, 10);
    var xp := if rounded < 1 then 1 else rounded;
    if signals >= 3 then xp + 2 else xp
  }

  /** A burst never lowers the XP of an event and at most doubles it. */
  lemma BurstOnlyRaises(base: nat, hits: nat, signals: nat)
    requires base >= 1
    ensures base <= EventXP(base, BurstTenths(hits), signals) <= 2 * base + 2
    ensures EventXP(base, BurstTenths(hits), signals) <= EventXP(base, BurstTenths(hits + 1), signals)
  {
    RoundedQuotientIsNearest(base * BurstTenths(hits), 10);
    RoundedQuotientIsNearest(base * BurstTenths(hits + 1), 10);
  }

  /** The XP of an event is the integer nearest to points times factor, and 2 more for three or more
      different signals. */
  lemma XPIsNearest(base: nat, hits: nat, signals: nat)
    requires base >= 1
    ensures var rounded := EventXP(base, BurstTenths(hits), signals) - if signals >= 3 then 2 else 0;
            (2 * rounded - 1) * 10 <= 2 * (base * BurstTenths(hits)) < (2 * rounded + 1) * 10
  {
    RoundedQuotientIsNearest(base * BurstTenths(hits), 10);
  }

  /** What the signals are worth. */
  lemma KnownPoints()
    ensures Points(TABLE, "behavior.unknown_host") == 1 && Points(TABLE, "behavior.path_scan") == 4
    ensures Points(TABLE, "behavior.ua_scanner") == 2 && Points(TABLE, "behavior.invalid_host") == 2
    ensures Points(TABLE, "behavior.auth_failed") == 3 && Points(TABLE, "protocol.ssh.auth_denied") == 3
    ensures Points(TABLE, "protocol.ssh.forward_denied") == 4 && Points(TABLE, "signature.wp_scanner") == 6
    ensures Points(TABLE, "signature.secret_hunter") == 7 && Points(TABLE, "signature.webshell_probe") == 8
    ensures Points(TABLE, "signature.flat_php_probe") == 5 && Points(TABLE, "signature.hidden_index_dropper") == 7
    ensures Points(TABLE, "signature.admin_surface_probe") == 4 && Points(TABLE, "signature.api_enum") == 4
    ensures Points(TABLE, "signature.scanner_ua") == 3
    ensures forall s :: s !in TABLE ==> Points(TABLE, s) == if "signature." <= s then 4 else 0
  {
  }

  /** Any number of unknown signals that are not behaviour counts as one feed hit. */
  lemma FeedsCountOnce(table: Table, signals: seq<string>)
    requires signals != [] && forall i :: 0 <= i < |signals| ==> FromFeed(table, signals[i])
    ensures BaseXP(table, signals) == 6 && IsTop(table, signals, "external_feed_hit")
  {
    NothingAddsUp(table, signals);
    assert FromFeed(table, signals[0]);
  }

  lemma {:induction false} NothingAddsUp(table: Table, signals: seq<string>)
    requires forall i :: 0 <= i < |signals| ==> Points(table, signals[i]) == 0
    ensures SumPoints(table, signals) == 0
  {
    if |signals| > 0 {
      NothingAddsUp(table, signals[..|signals| - 1]);
    }
  }

  /** An unknown protocol signal is one as well, but does not boost. */
  lemma UnknownProtocol(signal: string)
    requires IsProtocol(signal) && signal !in TABLE
    ensures FromFeed(TABLE, signal) && !Boosts(signal)
  {
    assert signal[0] == 'p';
  }

  /** Unknown behaviour is worth no more than an unknown host, and no feed hit either. */
  lemma UnknownBehaviour(signal: string)
    requires IsBehavior(signal) && signal !in TABLE
    ensures BaseXP(TABLE, [signal]) == 1 && IsTop(TABLE, [signal], "behavior.unknown_host") && !Boosts(signal)
  {
    var u := [signal];
    assert signal[0] == 'b' && !IsSignature(signal) && Points(TABLE, u[0]) == 0;
    NothingAddsUp(TABLE, u);
    assert !AnyFromFeed(TABLE, u) && Worthless(TABLE, u);
  }

  /** Of two signals worth the same, the first one is the top. */
  lemma TiesGoToTheFirst(table: Table, a: string, b: string, top: string)
    requires a != b && Points(table, a) == Points(table, b) > 0 && IsTop(table, [a, b], top)
    ensures top == a
  {
    var s := [a, b];
    assert Points(table, s[0]) == Points(table, s[1]);
    assert !Worthless(table, s);
  }
}
