/** Who is blocked where. The HTTP edge drops an IP that is on the block list, and otherwise goes
    by the verdict of an event, which it raises only for requests with a threat signal. The SSH
    bastion makes the full lookup. The host firewall holds a part of the block list. */
module EdgeGate {
  import opened HardBlocks
  import opened Options
  import opened Scoring
  import opened ThreatInvariants
  import opened ThreatRecord
  import opened ThreatService
  import opened Time

  // ---------- A request at the edge ----------

  datatype EdgeAnswer = Pass | SoftPage | HardDrop

  /** `hit` is the scored event of a request with a threat signal. */
  function Serve(r: Record, ip: string, hit: Option<Hit>, cfg: Config, now: int): EdgeAnswer {
    if EdgeBlocked(r, ip) then HardDrop
    else if hit.None? then Pass
    else
      var v := EventVerdict(r, ip, hit.value, cfg, now);
      if v.hard then HardDrop else if v.blocked then SoftPage else Pass
  }

  function Served(r: Record, ip: string, hit: Option<Hit>, cfg: Config, now: int): Record {
    if EdgeBlocked(r, ip) || hit.None? then r else EventStep(r, ip, hit.value, cfg, now)
  }

  method HandleRequest(svc: Service, ip: string, signalled: bool, auto: bool, signals: seq<string>, now: int)
    returns (a: EdgeAnswer, hit: Option<Hit>)
    requires svc.Valid() && now >= svc.bursts.clock
    modifies svc, svc.bursts, svc.nft
    ensures svc.Valid() && (hit.Some? <==> signalled && !old(EdgeBlocked(svc.Rec(ip), ip)))
    ensures hit.Some? ==> ValidHit(hit.value)
    ensures hit.Some? && ip != "" ==> IsScored(hit.value, old(svc.bursts.log), ip, auto, signals, now)
    ensures a == Serve(old(svc.Rec(ip)), ip, hit, svc.cfg, now)
    ensures svc.Rec(ip) == Served(old(svc.Rec(ip)), ip, hit, svc.cfg, now)
    ensures forall other :: other != ip ==> svc.Rec(other) == old(svc.Rec(other))
  {
    var listed := svc.IsIPBlocked(ip);
    if listed {
      return HardDrop, None;
    }
    if !signalled {
      return Pass, None;
    }
    var v, h := svc.ApplyThreatIntelEvent(ip, auto, signals, now);
    return if v.hard then HardDrop else if v.blocked then SoftPage else Pass, Some(h);
  }

  /** Requests that the list drops, and requests without a signal, leave the record as it is. */
  lemma QuietRequests(r: Record, ip: string, hit: Option<Hit>, cfg: Config, now: int)
    requires EdgeBlocked(r, ip) || hit.None?
    ensures Served(r, ip, hit, cfg, now) == r
    ensures Serve(r, ip, hit, cfg, now) == if EdgeBlocked(r, ip) then HardDrop else Pass
  {
  }

  /** The empty string is no source: no gate blocks it, even if it is listed, and no event tracks it. */
  lemma EmptySourcesPass(r: Record, hit: Hit, cfg: Config, now: int)
    ensures !EdgeBlocked(r, "") && !Lookup(r, "", now).blocked && Lookup(r, "", now).source == NotBlocked
    ensures EventVerdict(r, "", hit, cfg, now) == Verdict(false, false, Zero, MonitorObserve)
    ensures EventStep(r, "", hit, cfg, now) == r
  {
  }

  // ---------- Verdict and lookup ----------

  /** The IP is flagged already, or the event takes it to the hard level in auto mode. */
  predicate TurnsHard(r: Record, hit: Hit, cfg: Config, now: int) {
    PermBlocked(r) || (hit.auto && RaisedRank(Decayed(StateNow(r, now), now).rank, hit, cfg).level >= cfg.hard)
  }

  lemma HardVerdictIff(r: Record, ip: string, hit: Hit, cfg: Config, now: int)
    requires RecordInv(r, ip, cfg) && ValidConfig(cfg) && ValidHit(hit)
    ensures EventVerdict(r, ip, hit, cfg, now).hard <==> ip != "" && TurnsHard(r, hit, cfg, now)
  {
  }

  predicate SameAnswer(v: Verdict, a: Answer) {
    v.blocked == a.blocked && v.hard == a.hard && v.until == a.until
  }

  /** The verdict of an event and the bastion's lookup of its result agree exactly when the IP was
      not on the block list before, or the event turns hard. */
  lemma VerdictAgreesWithLookup(r: Record, ip: string, hit: Hit, cfg: Config, now: int)
    requires RecordInv(r, ip, cfg) && ValidConfig(cfg) && ValidHit(hit)
    ensures SameAnswer(EventVerdict(r, ip, hit, cfg, now), Lookup(EventStep(r, ip, hit, cfg, now), ip, now)) <==>
            (ip == "" || r.block.None? || TurnsHard(r, hit, cfg, now))
  {
    BookingKeepsState(r, hit, cfg, now);
    HardVerdictIff(r, ip, hit, cfg, now);
    var st := Booked(r, hit, cfg, now);
    assert st.perm ==> !After(st.ban, now);
    if ip != "" && r.block.Some? {
      assert Lookup(EventStep(r, ip, hit, cfg, now), ip, now).hard;
    }
  }

  /** The failing case: an IP that an administrator has listed below the hard level. The lookup
      turns it away for good, the verdict does not. */
  lemma ListedBelowTheHardLevel(r: Record, ip: string, hit: Hit, cfg: Config, now: int)
    requires ip != "" && RecordInv(r, ip, cfg) && ValidConfig(cfg) && ValidHit(hit)
    requires r.block.Some? && !TurnsHard(r, hit, cfg, now)
    ensures !EventVerdict(r, ip, hit, cfg, now).hard && Lookup(EventStep(r, ip, hit, cfg, now), ip, now).hard
  {
    HardVerdictIff(r, ip, hit, cfg, now);
  }

  predicate Agrees(e: EdgeAnswer, a: Answer) {
    (e == HardDrop <==> a.hard) && (e == Pass <==> !a.blocked)
  }

  /** What the edge does to a request is what the bastion would do right after it, exactly if the
      request carries a threat signal, or the IP is listed or not blocked at all. Without a
      signal the edge lets a flagged or soft-blocked IP pass that is not on the list. */
  lemma EdgeAgreesWithBastionIff(r: Record, ip: string, hit: Option<Hit>, cfg: Config, now: int)
    requires ip != "" && RecordInv(r, ip, cfg) && ValidConfig(cfg) && (hit.Some? ==> ValidHit(hit.value))
    ensures Agrees(Serve(r, ip, hit, cfg, now), Lookup(Served(r, ip, hit, cfg, now), ip, now)) <==>
            (hit.Some? || r.block.Some? || !Frozen(StateNow(r, now), now))
  {
    if hit.Some? && r.block.None? {
      VerdictAgreesWithLookup(r, ip, hit.value, cfg, now);
    }
  }

  /** The decision on an event, by the level it reaches: what stands already is confirmed, in auto
      mode the hard level blocks for good and the soft level for the configured minutes unless the
      source is known, and everything else is observed. */
  lemma DecisionsAreExact(r: Record, ip: string, hit: Hit, cfg: Config, now: int)
    requires ip != "" && RecordInv(r, ip, cfg) && ValidConfig(cfg) && ValidHit(hit)
    ensures var v := EventVerdict(r, ip, hit, cfg, now);
            var level := EventStep(r, ip, hit, cfg, now).state.value.rank.level;
            var ban := StateNow(r, now).ban;
            if PermBlocked(r) || (hit.auto && level >= cfg.hard) then v == Verdict(true, true, Zero, HardBlockPermanent)
            else if ban.At? && now < ban.t then v == Verdict(true, false, ban, SoftBlockActive)
            else if hit.auto && hit.boost then v == Verdict(false, false, Zero, WatchBoost)
            else if hit.auto && level >= cfg.soft then
              v == Verdict(true, false, At(now + cfg.softMinutes * MINUTE), SoftBlockSet)
            else v == Verdict(false, false, Zero, MonitorObserve)
  {
    BookingKeepsState(r, hit, cfg, now);
  }

  /** In auto mode no unboosted event at the soft level or above goes unblocked. */
  lemma SoftLevelsAreBlocked(r: Record, ip: string, hit: Hit, cfg: Config, now: int)
    requires ip != "" && RecordInv(r, ip, cfg) && ValidConfig(cfg) && ValidHit(hit) && hit.auto && !hit.boost
    ensures EventStep(r, ip, hit, cfg, now).state.value.rank.level >= cfg.soft ==>
            EventVerdict(r, ip, hit, cfg, now).blocked
    ensures var q := EventStep(r, ip, hit, cfg, now);
            cfg.soft <= q.state.value.rank.level < cfg.hard && !Frozen(StateNow(r, now), now) ==>
              q.state.value.ban == At(now + cfg.softMinutes * MINUTE) && HasOpen(q.history, Soft)
  {
    DecisionsAreExact(r, ip, hit, cfg, now);
    EnsuringOpens(r.history, ip, Soft, now);
  }

  /** What the bastion answers, and for which cause. */
  lemma LookupsAreExact(r: Record, ip: string, now: int)
    requires ip != ""
    ensures var a := Lookup(r, ip, now);
            && (a.blocked <==> EdgeBlocked(r, ip) || Frozen(StateNow(r, now), now))
            && (a.hard <==> EdgeBlocked(r, ip) || PermBlocked(r))
            && (a.source == BlockedIPs <==> EdgeBlocked(r, ip))
            && (a.source == IntelHardBlock <==> a.hard && !EdgeBlocked(r, ip))
            && (a.source == IntelSoftBlock <==> a.blocked && !a.hard)
            && (a.source == NotBlocked <==> !a.blocked)
            && (if a.source == IntelSoftBlock then a.until == r.state.value.ban && a.until.At? && now < a.until.t
                else a.until == Zero)
  {
  }

  /** A hard verdict needs the hard level; a soft block needs the soft level and sets the
      configured window; what stands already is confirmed; and without auto mode an event blocks
      nobody anew. */
  lemma VerdictsAreEarned(r: Record, ip: string, hit: Hit, cfg: Config, now: int)
    requires RecordInv(r, ip, cfg) && ValidConfig(cfg) && ValidHit(hit)
    ensures var v := EventVerdict(r, ip, hit, cfg, now);
            var before := Lookup(r.(block := None), ip, now);
            && (v.hard ==> Booked(r, hit, cfg, now).rank.level >= cfg.hard)
            && (before.blocked ==> v.blocked)
            && (v.blocked && !before.blocked ==> hit.auto)
            && (v.decision == SoftBlockSet ==>
                  v.until == At(now + cfg.softMinutes * MINUTE) && cfg.soft <= Booked(r, hit, cfg, now).rank.level)
  {
    BookingKeepsState(r, hit, cfg, now);
  }

  // ---------- After an unblock ----------

  /** A call that puts a flagged IP on the list. */
  predicate Relists(r: Record, op: Op) {
    op.Event? || (op.Block? && !op.loopback) || (op.Tick? && !r.allowed)
  }

  predicate EverRelisted(r: Record, ip: string, ops: seq<Op>, cfg: Config)
    decreases |ops|
  {
    |ops| > 0 && (Relists(r, ops[0]) || EverRelisted(Step(r, ip, ops[0], cfg), ip, ops[1..], cfg))
  }

  lemma OneStepRelists(r: Record, ip: string, op: Op, cfg: Config)
    requires RecordInv(r, ip, cfg) && ValidConfig(cfg) && ValidOp(op) && PermBlocked(r)
    requires !op.Unblock? && !Lifts(r, ip, op, cfg)
    ensures Step(r, ip, op, cfg).block.Some? <==> r.block.Some? || Relists(r, op)
  {
    if op.Event? {
      BookingKeepsState(r, op.hit, cfg, op.now);
    } else if op.Tick? {
      var p := Synced(Promoted(r, cfg, op.now));
      assert AfterExpiry(p, ip, cfg, op.now) == p;
    }
  }

  /** While an IP is flagged, the bastion turns it away whatever happens to the list; the edge
      drops it exactly if it is listed or something has listed it. */
  lemma {:induction false} FlaggedIPs(r: Record, ip: string, ops: seq<Op>, cfg: Config, now: int)
    requires RecordInv(r, ip, cfg) && ValidConfig(cfg) && ValidOps(ops) && PermBlocked(r)
    requires NoUnblock(ops) && NeverLifts(r, ip, ops, cfg)
    ensures var q := Run(r, ip, ops, cfg);
            && PermBlocked(q) && Lookup(q, ip, now).hard
            && (EdgeBlocked(q, ip) <==> EdgeBlocked(r, ip) || EverRelisted(r, ip, ops, cfg))
    decreases |ops|
  {
    if |ops| > 0 {
      var next := Step(r, ip, ops[0], cfg);
      StepKeeps(r, ip, ops[0], cfg);
      OnlyExpiryLifts(r, ip, ops[0], cfg);
      OneStepRelists(r, ip, ops[0], cfg);
      if next.block.Some? {
        ListingsKeepTheirDate(next, ip, ops[1..], cfg);
      }
      FlaggedIPs(next, ip, ops[1..], cfg, now);
    }
  }

  /** After an admin unblock the bastion goes on turning the IP away. The edge, and with it the
      host firewall, lets it pass until an event, an administrator or a tick lists it again. */
  lemma UnblockOpensTheEdge(r: Record, ip: string, falsePositive: bool, ops: seq<Op>, cfg: Config, now: int, later: int)
    requires RecordInv(r, ip, cfg) && ValidConfig(cfg) && ValidOps(ops) && PermBlocked(r)
    requires NoUnblock(ops) && NeverLifts(Released(r, ip, falsePositive, now), ip, ops, cfg)
    ensures var u := Released(r, ip, falsePositive, now);
            var q := Run(u, ip, ops, cfg);
            && Lookup(q, ip, later).hard
            && (EdgeBlocked(q, ip) <==> EverRelisted(u, ip, ops, cfg))
            && forall hardOnly :: Enforced(q, hardOnly, cfg) <==> EverRelisted(u, ip, ops, cfg)
  {
    ReleaseKeeps(r, ip, falsePositive, cfg, now);
    FlaggedIPs(Released(r, ip, falsePositive, now), ip, ops, cfg, later);
  }

  predicate OnlyTicks(ops: seq<Op>) {
    forall i :: 0 <= i < |ops| ==> ops[i].Tick?
  }

  /** Ticks alone list it again at the first opportunity, unless it is allowlisted: then never. */
  lemma {:induction false} TicksRelistIff(r: Record, ip: string, ops: seq<Op>, cfg: Config)
    requires PermBlocked(r) && r.block.None? && OnlyTicks(ops)
    ensures EverRelisted(r, ip, ops, cfg) <==> ops != [] && !r.allowed
    decreases |ops|
  {
    if |ops| > 0 && r.allowed {
      var p := Synced(Promoted(r, cfg, ops[0].now));
      assert p == r && AfterExpiry(p, ip, cfg, ops[0].now) == p;
      TicksRelistIff(Step(r, ip, ops[0], cfg), ip, ops[1..], cfg);
    }
  }

  // ---------- The host firewall ----------

  /** In either mode every refresh after a hard verdict enforces it, as long as the block neither
      expires nor is taken back. */
  lemma HardVerdictsStayEnforced(r: Record, ip: string, hit: Hit, ops: seq<Op>, hardOnly: bool, cfg: Config, now: int)
    requires RecordInv(r, ip, cfg) && ValidConfig(cfg) && ValidHit(hit) && ValidOps(ops)
    requires EventVerdict(r, ip, hit, cfg, now).hard
    requires NoUnblock(ops) && NeverLifts(EventStep(r, ip, hit, cfg, now), ip, ops, cfg)
    ensures Enforced(Run(EventStep(r, ip, hit, cfg, now), ip, ops, cfg), hardOnly, cfg)
  {
    EventKeeps(r, ip, hit, cfg, now);
    BookingKeepsState(r, hit, cfg, now);
    ListingsKeepTheirDate(EventStep(r, ip, hit, cfg, now), ip, ops, cfg);
  }

  /** The host firewall drops no IP that the edge would let pass; with all blocked IPs enforced
      the two are the same. */
  lemma KernelFollowsTheEdge(r: Record, ip: string, hardOnly: bool, cfg: Config, now: int)
    requires ip != ""
    ensures Enforced(r, hardOnly, cfg) ==> EdgeBlocked(r, ip) && Lookup(r, ip, now).hard
    ensures !hardOnly ==> (Enforced(r, hardOnly, cfg) <==> EdgeBlocked(r, ip))
  {
  }
}
