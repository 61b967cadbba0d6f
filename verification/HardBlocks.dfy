/** Hard blocks are complete after a tick, sticky over runs, and finite unless an administrator
    keeps them off the block list. */
module HardBlocks {
  import opened Escalation
  import opened Levels
  import opened Options
  import opened Rehabilitation
  import opened Scoring
  import opened ThreatInvariants
  import opened ThreatRecord
  import opened Time

  // ---------- Completeness ----------

  predicate Complete(r: Record, cfg: Config) {
    r.state.Some? && r.state.value.rank.level >= cfg.hard && !r.allowed ==>
      r.state.value.perm && r.state.value.risk == HardBlock && r.block.Some?
  }

  lemma TickCompletes(r: Record, ip: string, cfg: Config, now: int)
    requires RecordInv(r, ip, cfg) && ValidConfig(cfg) && cfg.hard > WATCH_LEVEL
    ensures Complete(TickStep(r, ip, cfg, now), cfg)
  {
    var p := Synced(Promoted(r, cfg, now));
    PromotionKeeps(r, ip, cfg, now);
    if p.state.Some? {
      var q := AfterExpiry(p, ip, cfg, now);
      ExpiryKeeps(p, ip, cfg, now);
      ReviewKeepsState(q.state.value, cfg, now);
    }
  }

  /** If the watch level is a hard level, a lone feed hit is blocked at once. */
  lemma FeedHitBlocks(cfg: Config)
    requires ValidConfig(cfg) && cfg.hard <= WATCH_LEVEL
    ensures var r := EventStep(EMPTY, "a", FEED_HIT, cfg, 0);
            RecordInv(r, "a", cfg) && PermBlocked(r) && r.block.Some? && !r.allowed
  {
    EventKeeps(EMPTY, "a", FEED_HIT, cfg, 0);
    assert Decayed(Fresh(0), 0).rank == Rank(0, 0);
    assert Climb(Rank(0, 6), cfg.hard) == Rank(0, 6);
    ThresholdMonotone(0, WATCH_LEVEL);
    assert RaisedRank(Rank(0, 0), FEED_HIT, cfg) == Rank(WATCH_LEVEL, 6);
  }

  /** And expiry leaves a hard level without the block. */
  lemma ExpiryBreaksCompleteness(r: Record, ip: string, cfg: Config)
    requires RecordInv(r, ip, cfg) && ValidConfig(cfg) && cfg.hard <= WATCH_LEVEL
    requires PermBlocked(r) && r.block.Some? && !r.allowed
    ensures !Complete(TickStep(r, ip, cfg, r.block.value.created + cfg.retentionDays * DAY + 1), cfg)
  {
    var now := r.block.value.created + cfg.retentionDays * DAY + 1;
    var p := Synced(Promoted(r, cfg, now));
    assert p.block == r.block && p.allowed == r.allowed;
    assert AfterExpiry(p, ip, cfg, now).state == Some(Paroled(now));
    assert Decayed(Paroled(now), now) == Paroled(now);
  }

  ghost predicate TicksComplete(cfg: Config) {
    forall ops, ip, now | ValidOps(ops) :: Complete(TickStep(Run(EMPTY, ip, ops, cfg), ip, cfg, now), cfg)
  }

  /** After a full tick every tracked IP at the hard level that is not allowlisted is blocked
      for good, marked so, and listed, in all reachable states exactly when the hard level is
      above the watch level. At or below it, the level that retention expiry hands out is itself
      a hard level. */
  lemma TickCompletesIffHardAboveWatch(cfg: Config)
    requires ValidConfig(cfg)
    ensures cfg.hard > WATCH_LEVEL <==> TicksComplete(cfg)
  {
    if cfg.hard > WATCH_LEVEL {
      forall ops, ip, now | ValidOps(ops)
        ensures Complete(TickStep(Run(EMPTY, ip, ops, cfg), ip, cfg, now), cfg)
      {
        ReachableRecords(ip, ops, cfg);
        TickCompletes(Run(EMPTY, ip, ops, cfg), ip, cfg, now);
      }
    } else {
      FeedHitRun(cfg);
    }
  }

  lemma RunOne(r: Record, ip: string, op: Op, cfg: Config)
    ensures Run(r, ip, [op], cfg) == Step(r, ip, op, cfg)
  {
    assert [op][1..] == [];
    assert Run(Step(r, ip, op, cfg), ip, [], cfg) == Step(r, ip, op, cfg);
  }

  lemma FeedHitRun(cfg: Config)
    requires ValidConfig(cfg) && cfg.hard <= WATCH_LEVEL
    ensures !TicksComplete(cfg)
  {
    FeedHitBlocks(cfg);
    RunOne(EMPTY, "a", Event(FEED_HIT, 0), cfg);
    StaleBlockRefutes(Run(EMPTY, "a", [Event(FEED_HIT, 0)], cfg), "a", [Event(FEED_HIT, 0)], cfg);
  }

  lemma StaleBlockRefutes(r: Record, ip: string, ops: seq<Op>, cfg: Config)
    requires r == Run(EMPTY, ip, ops, cfg) && ValidOps(ops)
    requires RecordInv(r, ip, cfg) && ValidConfig(cfg) && cfg.hard <= WATCH_LEVEL
    requires PermBlocked(r) && r.block.Some? && !r.allowed
    ensures !TicksComplete(cfg)
  {
    var now := r.block.value.created + cfg.retentionDays * DAY + 1;
    ExpiryBreaksCompleteness(r, ip, cfg);
    assert !Complete(TickStep(Run(EMPTY, ip, ops, cfg), ip, cfg, now), cfg);
  }

  // ---------- Stickiness ----------

  /** The retention-expiry branch of the tick. */
  predicate Lifts(r: Record, ip: string, op: Op, cfg: Config) {
    op.Tick? && Expired(Synced(Promoted(r, cfg, op.now)), ip, cfg, op.now)
  }

  /** Nothing but retention expiry ends a hard block: no event, no admin unblock, no allowlist
      entry, no purge. And retention expiry always does. */
  lemma OnlyExpiryLifts(r: Record, ip: string, op: Op, cfg: Config)
    requires RecordInv(r, ip, cfg) && ValidConfig(cfg) && ValidOp(op) && PermBlocked(r)
    ensures PermBlocked(Step(r, ip, op, cfg)) <==> !Lifts(r, ip, op, cfg)
  {
    if op.Event? {
      BookingKeepsState(r, op.hit, cfg, op.now);
    } else if op.Tick? {
      var p := Synced(Promoted(r, cfg, op.now));
      var q := AfterExpiry(p, ip, cfg, op.now);
      assert PermBlocked(p);
      assert q.state.value.perm <==> !Expired(p, ip, cfg, op.now);
      assert Reviewed(q.state.value, cfg, op.now).perm == q.state.value.perm;
    }
  }

  predicate NeverLifts(r: Record, ip: string, ops: seq<Op>, cfg: Config)
    decreases |ops|
  {
    |ops| > 0 ==> !Lifts(r, ip, ops[0], cfg) && NeverLifts(Step(r, ip, ops[0], cfg), ip, ops[1..], cfg)
  }

  lemma {:induction false} HardBlocksStick(r: Record, ip: string, ops: seq<Op>, cfg: Config)
    requires RecordInv(r, ip, cfg) && ValidConfig(cfg) && ValidOps(ops) && NeverLifts(r, ip, ops, cfg)
    requires PermBlocked(r) || HardBlocked(r, ip, ops, cfg)
    ensures PermBlocked(Run(r, ip, ops, cfg))
    decreases |ops|
  {
    if |ops| > 0 {
      var next := Step(r, ip, ops[0], cfg);
      StepKeeps(r, ip, ops[0], cfg);
      if PermBlocked(r) {
        OnlyExpiryLifts(r, ip, ops[0], cfg);
      }
      HardBlocksStick(next, ip, ops[1..], cfg);
    }
  }

  /** Within the retention period of its creation no block expires. */
  lemma {:induction false} YoungBlocksStay(r: Record, ip: string, ops: seq<Op>, cfg: Config, start: int, clock: int)
    requires ValidConfig(cfg) && start <= clock && Chronological(ops, clock)
    requires r.block.Some? ==> r.block.value.created >= start
    requires forall i :: 0 <= i < |ops| ==> Clock(ops[i], start) <= start + cfg.retentionDays * DAY
    ensures NeverLifts(r, ip, ops, cfg)
    decreases |ops|
  {
    if |ops| > 0 {
      assert Clock(ops[0], start) <= start + cfg.retentionDays * DAY;
      var next := Step(r, ip, ops[0], cfg);
      assert next.block.Some? ==> next.block.value.created >= start;
      YoungBlocksStay(next, ip, ops[1..], cfg, start, Clock(ops[0], clock));
    }
  }

  /** The barrage of `EscalationIsGuaranteed`, on an IP that is not listed yet and in less time
      than blocks are retained, ends with the IP blocked for good. */
  lemma BarrageEndsBlocked(r: Record, ip: string, ops: seq<Op>, cfg: Config, clock: int)
    requires ip != "" && RecordInv(r, ip, cfg) && ValidConfig(cfg) && ValidOps(ops) && r.block.None?
    requires Chronological(ops, clock) && Barrage(ops, None) && Events(ops) >= Below(cfg.hard)
    requires forall i :: 0 <= i < |ops| ==> Clock(ops[i], clock) <= clock + cfg.retentionDays * DAY
    ensures PermBlocked(Run(r, ip, ops, cfg))
  {
    EscalationIsGuaranteed(r, ip, ops, cfg, clock);
    YoungBlocksStay(r, ip, ops, cfg, clock, clock);
    HardBlocksStick(r, ip, ops, cfg);
  }

  predicate NoUnblock(ops: seq<Op>) {
    forall i :: 0 <= i < |ops| ==> !ops[i].Unblock?
  }

  /** The date of a listing never moves while the block stands, however often the IP is caught
      or listed again. */
  lemma {:induction false} ListingsKeepTheirDate(r: Record, ip: string, ops: seq<Op>, cfg: Config)
    requires RecordInv(r, ip, cfg) && ValidConfig(cfg) && ValidOps(ops) && PermBlocked(r) && r.block.Some?
    requires NoUnblock(ops) && NeverLifts(r, ip, ops, cfg)
    ensures var q := Run(r, ip, ops, cfg);
            RecordInv(q, ip, cfg) && PermBlocked(q) && q.block.Some? && q.block.value.created == r.block.value.created
    decreases |ops|
  {
    if |ops| > 0 {
      var next := Step(r, ip, ops[0], cfg);
      StepKeeps(r, ip, ops[0], cfg);
      OnlyExpiryLifts(r, ip, ops[0], cfg);
      OneListingKeepsItsDate(r, ip, ops[0], cfg);
      ListingsKeepTheirDate(next, ip, ops[1..], cfg);
    }
  }

  lemma OneListingKeepsItsDate(r: Record, ip: string, op: Op, cfg: Config)
    requires PermBlocked(r) && r.block.Some? && !op.Unblock? && !Lifts(r, ip, op, cfg)
    ensures var q := Step(r, ip, op, cfg);
            q.block.Some? && q.block.value.created == r.block.value.created
  {
    if op.Tick? {
      var p := Synced(Promoted(r, cfg, op.now));
      assert p.block == r.block && AfterExpiry(p, ip, cfg, op.now) == p;
    }
  }

  /** So a hard block is finite even for an IP that never stops: the first tick past the
      retention period after the listing ends it, whatever has happened in between. */
  lemma HardBlocksAreFinite(r: Record, ip: string, ops: seq<Op>, cfg: Config, now: int)
    requires RecordInv(r, ip, cfg) && ValidConfig(cfg) && ValidOps(ops) && PermBlocked(r) && r.block.Some?
    requires NoUnblock(ops) && NeverLifts(r, ip, ops, cfg)
    requires now > r.block.value.created + cfg.retentionDays * DAY
    ensures var q := TickStep(Run(r, ip, ops, cfg), ip, cfg, now); !PermBlocked(q) && q.block.None?
  {
    ListingsKeepTheirDate(r, ip, ops, cfg);
    var last := Run(r, ip, ops, cfg);
    var p := Synced(Promoted(last, cfg, now));
    assert p.block == last.block && Expired(p, ip, cfg, now);
    OnlyExpiryLifts(last, ip, Tick(now), cfg);
  }

  /** An admin block lists the IP under its reason, with the date of a listing that stands, and
      does not touch what is tracked; loopback addresses are refused. */
  lemma AdminBlockLists(r: Record, ip: string, reason: string, loopback: bool, cfg: Config, now: int)
    requires ip != "" && RecordInv(r, ip, cfg)
    ensures var q := BlockStep(r, ip, reason, loopback, now);
            if loopback then q == r
            else
              && q.state == r.state && q.allowed == r.allowed && HasOpen(q.history, Hard)
              && q.block == Some(BlockRow(reason, if r.block.Some? then r.block.value.created else now))
              && forall later :: Lookup(q, ip, later) == Answer(true, true, Zero, BlockedIPs)
  {
    EnsuringOpens(r.history, ip, Hard, now);
  }

  /** Allowlisting an IP keeps ticks from promoting it, taking it off lets them, and neither touches
      anything else. */
  lemma AllowlistDecidesPromotion(r: Record, ip: string, cfg: Config)
    requires ip != "" && RecordInv(r, ip, cfg)
    ensures var a, u := Step(r, ip, Allow, cfg), Step(r, ip, Unallow, cfg);
            && a == r.(allowed := true) && u == r.(allowed := false)
            && !Promotes(a, cfg) && (Promotes(u, cfg) <==> r.state.Some? && r.state.value.rank.level >= cfg.hard)
  {
  }

  /** When a tick takes an IP off the list: past the retention period, if it is hard-blocked or
      about to be, or if it is neither tracked nor allowlisted. An IP that is listed and tracked
      below the hard level stays on the list for as long as it is tracked. */
  lemma TickUnlistsIff(r: Record, ip: string, cfg: Config, now: int)
    requires ip != "" && RecordInv(r, ip, cfg) && ValidConfig(cfg) && r.block.Some?
    ensures var q := TickStep(r, ip, cfg, now);
            && (q.block.None? <==>
                  now > r.block.value.created + cfg.retentionDays * DAY &&
                  if r.state.Some? then PermBlocked(r) || Promotes(r, cfg) else !r.allowed)
            && (q.block.Some? ==> q.block == r.block)
            && (HasOpen(q.history, Hard) <==> q.block.Some?)
  {
    TickKeeps(r, ip, cfg, now);
    var p := Synced(Promoted(r, cfg, now));
    assert p.block == r.block;
    if p.state.Some? {
      var q := AfterExpiry(p, ip, cfg, now);
      assert q.block.None? <==> p.state.value.perm && Expired(p, ip, cfg, now);
    }
  }

  predicate NoEvents(ops: seq<Op>) {
    forall i :: 0 <= i < |ops| ==> !ops[i].Event?
  }

  /** The listing of an IP that is not tracked is untouched by whatever happens within the
      retention period, short of an event or an unblock. */
  lemma {:induction false} UntrackedListingsStand(r: Record, ip: string, ops: seq<Op>, cfg: Config, end: int)
    requires ip != "" && RecordInv(r, ip, cfg) && ValidConfig(cfg) && ValidOps(ops) && r.state.None? && r.block.Some?
    requires NoUnblock(ops) && NoEvents(ops) && end == r.block.value.created + cfg.retentionDays * DAY
    requires forall i :: 0 <= i < |ops| ==> Clock(ops[i], end) <= end
    ensures var q := Run(r, ip, ops, cfg);
            && RecordInv(q, ip, cfg) && q.state.None?
            && q.block.Some? && q.block.value.created == r.block.value.created
    decreases |ops|
  {
    if |ops| > 0 {
      var next := Step(r, ip, ops[0], cfg);
      assert Clock(ops[0], end) <= end;
      StepKeeps(r, ip, ops[0], cfg);
      if ops[0].Tick? {
        TickUnlistsIff(r, ip, cfg, ops[0].now);
      }
      UntrackedListingsStand(next, ip, ops[1..], cfg, end);
    }
  }

  /** And the first tick past it takes the listing away and closes its row, exactly if the IP is
      not allowlisted then. */
  lemma UntrackedListingsAreFiniteIff(r: Record, ip: string, ops: seq<Op>, cfg: Config, now: int)
    requires ip != "" && RecordInv(r, ip, cfg) && ValidConfig(cfg) && ValidOps(ops) && r.state.None? && r.block.Some?
    requires NoUnblock(ops) && NoEvents(ops)
    requires var end := r.block.value.created + cfg.retentionDays * DAY;
             now > end && forall i :: 0 <= i < |ops| ==> Clock(ops[i], end) <= end
    ensures var last := Run(r, ip, ops, cfg);
            var q := TickStep(last, ip, cfg, now);
            (q.block.None? <==> !last.allowed) && (HasOpen(q.history, Hard) <==> last.allowed)
  {
    UntrackedListingsStand(r, ip, ops, cfg, r.block.value.created + cfg.retentionDays * DAY);
    TickUnlistsIff(Run(r, ip, ops, cfg), ip, cfg, now);
  }

  /** An admin unblock takes the IP off the list, and the next tick puts it back with a new date,
      so that the retention period restarts; an allowlisted IP it does not put back. */
  lemma UnblockRestartsRetention(r: Record, ip: string, falsePositive: bool, cfg: Config, now: int, later: int)
    requires RecordInv(r, ip, cfg) && ValidConfig(cfg) && PermBlocked(r)
    ensures TickStep(Released(r, ip, falsePositive, now), ip, cfg, later).block ==
            if r.allowed then None else Some(BlockRow("threat_intel_auto:level_hard", later))
  {
    var p := Synced(Promoted(Released(r, ip, falsePositive, now), cfg, later));
    assert AfterExpiry(p, ip, cfg, later) == p;
  }

  /** Taken off the list and allowlisted, as the allow action does, a hard-blocked IP keeps its
      permanent flag through every schedule of ticks. */
  lemma {:induction false} AllowedStaysFlagged(r: Record, ip: string, ticks: seq<int>, cfg: Config)
    requires PermBlocked(r) && r.allowed && r.block.None?
    ensures var q := RunTicks(r, ip, ticks, cfg);
            PermBlocked(q) && q.allowed && q.block.None? && StoredRank(q) == StoredRank(r)
    ensures var q := RunTicks(r, ip, ticks, cfg); ip != "" ==> forall now :: Lookup(q, ip, now).hard
    decreases |ticks|
  {
    if |ticks| > 0 {
      var p := Synced(Promoted(r, cfg, ticks[0]));
      assert p == r && AfterExpiry(p, ip, cfg, ticks[0]) == p;
      AllowedStaysFlagged(TickStep(r, ip, cfg, ticks[0]), ip, ticks[1..], cfg);
    }
  }

  ghost predicate TicksCanLift(r: Record, ip: string, cfg: Config, clock: int) {
    exists ticks :: Rising(ticks, clock) && !PermBlocked(RunTicks(r, ip, ticks, cfg))
  }

  lemma ListedIsLifted(r: Record, ip: string, cfg: Config, clock: int)
    requires RecordInv(r, ip, cfg) && ValidConfig(cfg) && PermBlocked(r) && r.block.Some?
    ensures TicksCanLift(r, ip, cfg, clock)
  {
    var due := r.block.value.created + cfg.retentionDays * DAY + 1;
    var t := if clock > due then clock else due;
    assert Run(r, ip, [], cfg) == r;
    HardBlocksAreFinite(r, ip, [], cfg, t);
    assert [t][1..] == [] && Rising([t], clock);
    assert RunTicks(r, ip, [t], cfg) == TickStep(r, ip, cfg, t);
  }

  lemma UnlistedIsLifted(r: Record, ip: string, cfg: Config, clock: int)
    requires RecordInv(r, ip, cfg) && ValidConfig(cfg) && PermBlocked(r) && r.block.None? && !r.allowed
    ensures TicksCanLift(r, ip, cfg, clock)
  {
    var next := TickStep(r, ip, cfg, clock);
    TickKeeps(r, ip, cfg, clock);
    RelistedByTick(r, ip, cfg, clock);
    ListedIsLifted(next, ip, cfg, clock);
    var later :| Rising(later, clock) && !PermBlocked(RunTicks(next, ip, later, cfg));
    var ticks := [clock] + later;
    assert ticks[1..] == later && Rising(ticks, clock);
    assert RunTicks(r, ip, ticks, cfg) == RunTicks(next, ip, later, cfg);
  }

  /** Left to the ticks a hard block comes to an end exactly if the IP is listed, or not on the
      allowlist, so that the next tick lists it. */
  lemma TicksCanLiftIffListable(r: Record, ip: string, cfg: Config, clock: int)
    requires RecordInv(r, ip, cfg) && ValidConfig(cfg) && PermBlocked(r)
    ensures TicksCanLift(r, ip, cfg, clock) <==> r.block.Some? || !r.allowed
  {
    if r.block.Some? {
      ListedIsLifted(r, ip, cfg, clock);
    } else if !r.allowed {
      UnlistedIsLifted(r, ip, cfg, clock);
    } else {
      forall ticks
        ensures PermBlocked(RunTicks(r, ip, ticks, cfg))
      {
        AllowedStaysFlagged(r, ip, ticks, cfg);
      }
    }
  }

  lemma RelistedByTick(r: Record, ip: string, cfg: Config, now: int)
    requires RecordInv(r, ip, cfg) && ValidConfig(cfg) && PermBlocked(r) && r.block.None? && !r.allowed
    ensures var q := TickStep(r, ip, cfg, now);
            PermBlocked(q) && q.block == Some(BlockRow("threat_intel_auto:level_hard", now))
  {
    var p := Synced(Promoted(r, cfg, now));
    assert AfterExpiry(p, ip, cfg, now) == p;
  }

  // ---------- Ticks and the rank of a flagged IP ----------

  const PAROLE := Rank(WATCH_LEVEL, Threshold(WATCH_LEVEL))

  lemma OneTickStaysBelow(r: Record, ip: string, cfg: Config, now: int, top: Rank)
    requires AtMost(Rank(0, 0), StoredRank(r)) && AtMost(StoredRank(r), top) && AtMost(PAROLE, top)
    ensures var q := TickStep(r, ip, cfg, now); AtMost(Rank(0, 0), StoredRank(q)) && AtMost(StoredRank(q), top)
  {
    var p := Synced(Promoted(r, cfg, now));
    if p.state.Some? {
      var st := AfterExpiry(p, ip, cfg, now).state.value;
      assert AtMost(Rank(0, 0), st.rank) && AtMost(st.rank, top);
      DecayedRankMonotone(st.rank, st.rank, now - st.lastSeen);
    }
  }

  /** Ticks lift nobody above the rank that retention expiry hands out. */
  lemma {:induction false} TicksStayBelow(r: Record, ip: string, ticks: seq<int>, cfg: Config, top: Rank)
    requires AtMost(Rank(0, 0), StoredRank(r)) && AtMost(StoredRank(r), top) && AtMost(PAROLE, top)
    ensures var q := RunTicks(r, ip, ticks, cfg); AtMost(Rank(0, 0), StoredRank(q)) && AtMost(StoredRank(q), top)
    decreases |ticks|
  {
    if |ticks| > 0 {
      OneTickStaysBelow(r, ip, cfg, ticks[0], top);
      TicksStayBelow(TickStep(r, ip, cfg, ticks[0]), ip, ticks[1..], cfg, top);
    }
  }

  ghost predicate ParoleIsReached(r: Record, ip: string, cfg: Config) {
    exists ticks, now | TicksUpTo(ticks, now) :: RankAt(RunTicks(r, ip, ticks, cfg), now) == PAROLE
  }

  lemma ListedIsParoled(r: Record, ip: string, cfg: Config)
    requires RecordInv(r, ip, cfg) && ValidConfig(cfg) && PermBlocked(r) && r.block.Some?
    ensures var due := r.block.value.created + cfg.retentionDays * DAY + 1;
            RankAt(TickStep(r, ip, cfg, due), due) == PAROLE
  {
    var due := r.block.value.created + cfg.retentionDays * DAY + 1;
    var p := Synced(Promoted(r, cfg, due));
    assert p.block == r.block && AfterExpiry(p, ip, cfg, due).state == Some(Paroled(due));
    assert Decayed(Paroled(due), due) == Paroled(due);
  }

  lemma FlaggedIsParoled(r: Record, ip: string, cfg: Config)
    requires RecordInv(r, ip, cfg) && ValidConfig(cfg) && PermBlocked(r) && (r.block.Some? || !r.allowed)
    ensures ParoleIsReached(r, ip, cfg)
  {
    if r.block.Some? {
      var due := ListedReachesParole(r, ip, cfg, r.block.value.created);
    } else {
      var next := TickStep(r, ip, cfg, 0);
      TickKeeps(r, ip, cfg, 0);
      RelistedByTick(r, ip, cfg, 0);
      var due := ListedReachesParole(next, ip, cfg, 0);
      var ticks := [0, due];
      assert ticks[1..] == [due] && TicksUpTo(ticks, due);
      assert RunTicks(r, ip, ticks, cfg) == RunTicks(next, ip, [due], cfg);
    }
  }

  lemma ListedReachesParole(r: Record, ip: string, cfg: Config, created: int) returns (due: int)
    requires RecordInv(r, ip, cfg) && ValidConfig(cfg) && PermBlocked(r)
    requires r.block.Some? && r.block.value.created == created
    ensures due > created && TicksUpTo([due], due) && RankAt(RunTicks(r, ip, [due], cfg), due) == PAROLE
  {
    due := created + cfg.retentionDays * DAY + 1;
    ListedIsParoled(r, ip, cfg);
    assert [due][1..] == [];
    assert RunTicks(r, ip, [due], cfg) == TickStep(r, ip, cfg, due);
  }

  lemma TicksNeverHurtFlaggedIff(r: Record, ip: string, cfg: Config)
    requires RecordInv(r, ip, cfg) && ValidConfig(cfg) && PermBlocked(r)
    ensures TicksNeverHurt(r, ip, cfg) <==> (r.block.None? && r.allowed) || AtMost(PAROLE, r.state.value.rank)
  {
    var rank := r.state.value.rank;
    if r.block.None? && r.allowed {
      forall ticks, now | TicksUpTo(ticks, now)
        ensures AtMost(RankAt(RunTicks(r, ip, ticks, cfg), now), RankAt(r, now))
      {
        AllowedStaysFlagged(r, ip, ticks, cfg);
      }
    } else if AtMost(PAROLE, rank) {
      forall ticks, now | TicksUpTo(ticks, now)
        ensures AtMost(RankAt(RunTicks(r, ip, ticks, cfg), now), RankAt(r, now))
      {
        TicksStayBelow(r, ip, ticks, cfg, rank);
        RankFades(RunTicks(r, ip, ticks, cfg), now);
      }
    } else {
      FlaggedIsParoled(r, ip, cfg);
      var ticks, now :| TicksUpTo(ticks, now) && RankAt(RunTicks(r, ip, ticks, cfg), now) == PAROLE;
      assert RankAt(r, now) == rank;
    }
  }

  lemma RankFades(r: Record, now: int)
    requires AtMost(Rank(0, 0), StoredRank(r))
    ensures AtMost(RankAt(r, now), StoredRank(r))
  {
    if r.state.Some? {
      DecayedRankMonotone(r.state.value.rank, r.state.value.rank, now - r.state.value.lastSeen);
    }
  }

  /** For every IP: ticks in an idle stretch never leave it worse off than lazy decay exactly if
      it is not hard-blocked and no tick would promote it, or it is hard-blocked and either no
      tick can lift the block or its rank is no lower than the one that lifting gives it. */
  lemma TicksNeverHurtIff(r: Record, ip: string, cfg: Config)
    requires RecordInv(r, ip, cfg) && ValidConfig(cfg)
    ensures TicksNeverHurt(r, ip, cfg) <==>
            if PermBlocked(r) then (r.block.None? && r.allowed) || AtMost(PAROLE, r.state.value.rank)
            else !Promotes(r, cfg)
  {
    if PermBlocked(r) {
      TicksNeverHurtFlaggedIff(r, ip, cfg);
    } else if r.state.Some? {
      TicksNeverHurtIffNotPromotable(r, ip, cfg);
    } else {
      forall ticks, now | TicksUpTo(ticks, now)
        ensures AtMost(RankAt(RunTicks(r, ip, ticks, cfg), now), RankAt(r, now))
      {
        UntrackedStays(r, ip, ticks, cfg);
      }
    }
  }

  /** Monitor-only mode defers a new hard block to the next tick, however late, and no further. */
  lemma MonitorOnlyStillBlocks(r: Record, ip: string, hit: Hit, cfg: Config, now: int, later: int)
    requires ip != "" && RecordInv(r, ip, cfg) && ValidConfig(cfg) && ValidHit(hit)
    requires !hit.auto && !PermBlocked(r) && r.block.None? && !r.allowed
    requires Booked(r, hit, cfg, now).rank.level >= cfg.hard
    ensures !EventVerdict(r, ip, hit, cfg, now).hard
    ensures var q := TickStep(EventStep(r, ip, hit, cfg, now), ip, cfg, later);
            PermBlocked(q) && Lookup(q, ip, later).hard && q.block.Some?
  {
    var e := EventStep(r, ip, hit, cfg, now);
    assert e.block.None? && Promotes(e, cfg);
    var p := Synced(Promoted(e, cfg, later));
    assert p.block.value.created == later && AfterExpiry(p, ip, cfg, later) == p;
  }

  /** A paroled IP carries exactly the XP of its level, so its next event, within half an hour
      and below the hard level, takes it up a level at once. */
  lemma ParoleIsOneEventFromTheNextLevel(now: int, hit: Hit, cfg: Config, later: int)
    requires ValidConfig(cfg) && ValidHit(hit) && cfg.hard > WATCH_LEVEL && now <= later < now + HALF_HOUR
    ensures Raised(Decayed(Paroled(now), later), hit, cfg, later).rank.level > WATCH_LEVEL
  {
    var t := Threshold(WATCH_LEVEL);
    assert DecayedRank(Rank(WATCH_LEVEL, t), later - now) == Rank(WATCH_LEVEL, t);
    ClimbRests(Rank(WATCH_LEVEL + 1, hit.delta), cfg.hard);
    assert Climb(Rank(WATCH_LEVEL, t + hit.delta), cfg.hard) == Climb(Rank(WATCH_LEVEL + 1, hit.delta), cfg.hard);
  }
}
