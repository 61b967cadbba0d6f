/** Guaranteed escalation: how many events it takes at most, and at least, to get an IP blocked
    for good. */
module Escalation {
  import opened BurstWindow
  import opened Levels
  import opened Options
  import opened Scoring
  import opened ThreatInvariants
  import opened ThreatRecord
  import opened Time

  /** XP held plus XP spent on levels: what an untracked IP starts from is 0. */
  function Standing(r: Record): int {
    if r.state.Some? then Potential(r.state.value.rank.level, r.state.value.rank.xp) else 0
  }

  /** One event raises the potential by at least its XP until the hard level is reached, also
      when it jumps into the watch band. */
  lemma RaiseGains(r: Rank, hit: Hit, cfg: Config)
    requires RankInv(r, cfg) && ValidHit(hit)
    ensures var s := RaisedRank(r, hit, cfg);
            s.level < cfg.hard ==> Potential(s.level, s.xp) >= Potential(r.level, r.xp) + hit.delta
    ensures var s := RaisedRank(r, hit, cfg);
            s.level < cfg.hard && !hit.boost ==> Potential(s.level, s.xp) == Potential(r.level, r.xp) + hit.delta
  {
    var up := Rank(r.level, r.xp + hit.delta);
    SettleConserves(up, cfg.hard);
    var c := Settle(up, cfg.hard);
    if hit.boost && c.level < WATCH_LEVEL && c.level < cfg.hard {
      JumpGains(c);
    }
  }

  /** Short of the hard level nothing is capped, so the potential is conserved. */
  lemma SettleConserves(r: Rank, hard: int)
    requires r.level >= 0 && r.xp >= 0
    ensures var c := Settle(r, hard);
            c.level >= r.level && (c.level < hard ==> 0 <= c.xp < Threshold(c.level))
    ensures var c := Settle(r, hard);
            c.level < hard ==> Potential(c.level, c.xp) == Potential(r.level, r.xp)
  {
    ClimbConserves(r, hard);
    ClimbRests(r, hard);
  }

  /** The jump keeps the XP, since XP below a lower threshold is below the watch level's. */
  lemma JumpGains(c: Rank)
    requires 0 <= c.level < WATCH_LEVEL && 0 <= c.xp < Threshold(c.level)
    ensures Potential(WATCH_LEVEL, c.xp) >= Potential(c.level, c.xp)
    ensures WatchJump(c, true) == Rank(WATCH_LEVEL, c.xp)
  {
    BelowMonotone(c.level, WATCH_LEVEL);
    ThresholdMonotone(c.level, WATCH_LEVEL);
  }

  /** Below the hard level the potential is below the hard level's budget. */
  lemma BudgetBounds(r: Rank, hard: int)
    requires 0 <= r.level < hard && r.xp < Threshold(r.level)
    ensures Potential(r.level, r.xp) < Below(hard)
  {
    BelowMonotone(r.level, hard);
  }

  function Clock(op: Op, default: int): int {
    match op
    case Event(_, now) => now
    case Tick(now) => now
    case Block(_, _, now) => now
    case Unblock(_, now) => now
    case Allow => default
    case Unallow => default
    case Purge(_, now) => now
  }

  /** The clock never runs backwards from `clock` on. */
  predicate Chronological(ops: seq<Op>, clock: int)
    decreases |ops|
  {
    |ops| > 0 ==> Clock(ops[0], clock) >= clock && Chronological(ops[1..], Clock(ops[0], clock))
  }

  /** Events are in auto mode, and each comes less than half an hour after the one before. */
  predicate Barrage(ops: seq<Op>, last: Option<int>)
    decreases |ops|
  {
    if |ops| == 0 then true
    else if ops[0].Event? then
      && ops[0].hit.auto
      && (last.Some? ==> ops[0].now - last.value < HALF_HOUR)
      && Barrage(ops[1..], Some(ops[0].now))
    else Barrage(ops[1..], last)
  }

  function Events(ops: seq<Op>): nat
    decreases |ops|
  {
    if |ops| == 0 then 0 else (if ops[0].Event? then 1 else 0) + Events(ops[1..])
  }

  /** Some event of the run is answered with a permanent block. */
  predicate HardBlocked(r: Record, ip: string, ops: seq<Op>, cfg: Config)
    decreases |ops|
  {
    |ops| > 0 &&
    ((ops[0].Event? && EventVerdict(r, ip, ops[0].hit, cfg, ops[0].now).hard) ||
     HardBlocked(Step(r, ip, ops[0], cfg), ip, ops[1..], cfg))
  }

  /** As long as an event is still to come, the half hour since the last one is not over. */
  lemma {:induction false} EventIsNear(ops: seq<Op>, last: int, clock: int)
    requires Barrage(ops, Some(last)) && Chronological(ops, clock) && Events(ops) > 0
    ensures clock - last < HALF_HOUR
    decreases |ops|
  {
    if !ops[0].Event? {
      EventIsNear(ops[1..], last, Clock(ops[0], clock));
    }
  }

  /** A record in the middle of a barrage: tracked, seen at `last`, below the hard level. */
  predicate Climbing(r: Record, last: int, cfg: Config) {
    && r.state.Some? && r.state.value.lastSeen == last && !r.state.value.perm
    && r.state.value.rank.level < cfg.hard
    && r.state.value.rank.xp < Threshold(r.state.value.rank.level)
  }

  /** What an auto event makes of an IP that is not hard-blocked, in terms of its rank alone. */
  lemma EventOutcome(r: Record, ip: string, hit: Hit, cfg: Config, now: int, rank: Rank)
    requires ip != "" && hit.auto && (r.state.Some? ==> !r.state.value.perm)
    requires rank == RaisedRank(Decayed(StateNow(r, now), now).rank, hit, cfg)
    ensures EventVerdict(r, ip, hit, cfg, now).hard <==> rank.level >= cfg.hard
    ensures var q := EventStep(r, ip, hit, cfg, now);
            && q.state.Some? && q.state.value.rank == rank && q.state.value.lastSeen == now
            && (q.state.value.perm <==> rank.level >= cfg.hard)
  {
  }

  lemma EventClimbs(r: Record, ip: string, hit: Hit, cfg: Config, now: int)
    requires ip != "" && RecordInv(r, ip, cfg) && ValidConfig(cfg) && ValidHit(hit) && hit.auto
    requires r.state.Some? ==> now - r.state.value.lastSeen < HALF_HOUR
    ensures EventVerdict(r, ip, hit, cfg, now).hard || Climbing(EventStep(r, ip, hit, cfg, now), now, cfg)
    ensures EventVerdict(r, ip, hit, cfg, now).hard ||
            Standing(EventStep(r, ip, hit, cfg, now)) >= Standing(r) + hit.delta
  {
    if r.state.None? || !r.state.value.perm {
      var st := StateNow(r, now);
      NoDecayYet(st, now);
      EventOutcome(r, ip, hit, cfg, now, RaisedRank(st.rank, hit, cfg));
      RaiseGains(st.rank, hit, cfg);
      RestsBelow(st.rank, hit, cfg);
    }
  }

  lemma NoDecayYet(st: IPState, now: int)
    requires now - st.lastSeen < HALF_HOUR
    ensures Decayed(st, now) == st
  {
    assert DecayedRank(st.rank, now - st.lastSeen) == st.rank;
  }

  lemma RestsBelow(r: Rank, hit: Hit, cfg: Config)
    requires RankInv(r, cfg) && ValidHit(hit)
    ensures var s := RaisedRank(r, hit, cfg); s.level < cfg.hard ==> s.xp < Threshold(s.level)
  {
    ClimbRests(Rank(r.level, r.xp + hit.delta), cfg.hard);
  }

  /** Ticks, administration and purges inside the half hour leave a climbing record climbing. */
  lemma OthersDoNotSlow(r: Record, ip: string, op: Op, last: int, cfg: Config, clock: int)
    requires Climbing(r, last, cfg) && RecordInv(r, ip, cfg) && ValidOp(op) && ValidConfig(cfg)
    requires !op.Event? && clock - last < HALF_HOUR && Clock(op, clock) - last < HALF_HOUR
    ensures Climbing(Step(r, ip, op, cfg), last, cfg)
    ensures Standing(Step(r, ip, op, cfg)) == Standing(r)
  {
    if op.Tick? {
      TickLeavesClimbing(r, ip, op.now, last, cfg);
    }
  }

  lemma TickLeavesClimbing(r: Record, ip: string, now: int, last: int, cfg: Config)
    requires Climbing(r, last, cfg) && RecordInv(r, ip, cfg) && now - last < HALF_HOUR
    ensures Climbing(TickStep(r, ip, cfg, now), last, cfg)
    ensures TickStep(r, ip, cfg, now).state.value.rank == r.state.value.rank
  {
    var p := Synced(Promoted(r, cfg, now));
    assert p.state == r.state && AfterExpiry(p, ip, cfg, now) == p;
    assert DecayedRank(r.state.value.rank, now - last) == r.state.value.rank;
    assert !Cold(Reviewed(r.state.value, cfg, now), now);
  }

  lemma {:induction false} ClimbingEndsInABlock(r: Record, ip: string, ops: seq<Op>, cfg: Config, last: int, clock: int)
    requires ip != "" && RecordInv(r, ip, cfg) && ValidConfig(cfg) && ValidOps(ops)
    requires Chronological(ops, clock) && Barrage(ops, Some(last)) && Climbing(r, last, cfg)
    requires Standing(r) + Events(ops) >= Below(cfg.hard)
    ensures HardBlocked(r, ip, ops, cfg)
    decreases |ops|
  {
    BudgetBounds(r.state.value.rank, cfg.hard);
    EventIsNear(ops, last, clock);
    var op, rest := ops[0], ops[1..];
    var next := Step(r, ip, op, cfg);
    StepKeeps(r, ip, op, cfg);
    if op.Event? {
      EventClimbs(r, ip, op.hit, cfg, op.now);
      if !EventVerdict(r, ip, op.hit, cfg, op.now).hard {
        ClimbingEndsInABlock(next, ip, rest, cfg, op.now, op.now);
      }
    } else {
      EventIsNear(rest, last, Clock(op, clock));
      OthersDoNotSlow(r, ip, op, last, cfg, clock);
      ClimbingEndsInABlock(next, ip, rest, cfg, last, Clock(op, clock));
    }
  }

  /** Whatever the record, the signals, the ticks and the administration in between: as many
      events as the hard level costs in XP, less than half an hour apart, get the IP blocked
      for good. */
  lemma {:induction false} EscalationIsGuaranteed(r: Record, ip: string, ops: seq<Op>, cfg: Config, clock: int)
    requires ip != "" && RecordInv(r, ip, cfg) && ValidConfig(cfg) && ValidOps(ops)
    requires Chronological(ops, clock) && Barrage(ops, None) && Events(ops) >= Below(cfg.hard)
    ensures HardBlocked(r, ip, ops, cfg)
    decreases |ops|
  {
    BelowMonotone(1, cfg.hard);
    var op, rest := ops[0], ops[1..];
    var next := Step(r, ip, op, cfg);
    StepKeeps(r, ip, op, cfg);
    if op.Event? {
      FirstEvent(r, ip, op.hit, cfg, op.now);
      if !EventVerdict(r, ip, op.hit, cfg, op.now).hard {
        ClimbingEndsInABlock(next, ip, rest, cfg, op.now, op.now);
      }
    } else {
      EscalationIsGuaranteed(next, ip, rest, cfg, Clock(op, clock));
    }
  }

  lemma FirstEvent(r: Record, ip: string, hit: Hit, cfg: Config, now: int)
    requires ip != "" && RecordInv(r, ip, cfg) && ValidConfig(cfg) && ValidHit(hit) && hit.auto
    ensures EventVerdict(r, ip, hit, cfg, now).hard || Climbing(EventStep(r, ip, hit, cfg, now), now, cfg)
    ensures EventVerdict(r, ip, hit, cfg, now).hard || Standing(EventStep(r, ip, hit, cfg, now)) >= 1
  {
    if r.state.None? || !r.state.value.perm {
      var st := StateNow(r, now);
      var rank := Decayed(st, now).rank;
      DecayKeepsRank(st.rank, now - st.lastSeen, cfg);
      EventOutcome(r, ip, hit, cfg, now, RaisedRank(rank, hit, cfg));
      RaiseGains(rank, hit, cfg);
      RestsBelow(rank, hit, cfg);
    }
  }

  /** With the default levels that is 264 events. */
  lemma DefaultEscalation(r: Record, ip: string, ops: seq<Op>, cfg: Config, clock: int)
    requires ip != "" && RecordInv(r, ip, cfg) && ValidConfig(cfg) && ValidOps(ops) && cfg.hard == 6
    requires Chronological(ops, clock) && Barrage(ops, None) && Events(ops) >= 264
    ensures HardBlocked(r, ip, ops, cfg)
  {
    DefaultBudget();
    EscalationIsGuaranteed(r, ip, ops, cfg, clock);
  }

  // ---------- Below the budget ----------

  /** Not hard-blocked, and below the hard level if tracked. */
  predicate Low(r: Record, cfg: Config) {
    r.state.Some? ==> !r.state.value.perm && r.state.value.rank.level < cfg.hard
  }

  /** All the XP that the events of a run add. */
  function TotalXP(ops: seq<Op>): int
    decreases |ops|
  {
    if |ops| == 0 then 0 else (if ops[0].Event? then ops[0].hit.delta else 0) + TotalXP(ops[1..])
  }

  predicate Unboosted(ops: seq<Op>) {
    forall i :: 0 <= i < |ops| && ops[i].Event? ==> !ops[i].hit.boost
  }

  lemma PotentialFades(r: Rank, idle: int)
    requires 0 <= r.level && 0 <= r.xp
    ensures var d := DecayedRank(r, idle);
            0 <= d.level <= r.level && 0 <= d.xp && Potential(d.level, d.xp) <= Potential(r.level, r.xp)
  {
    DecayMonotone(r.xp, r.xp, DecaySteps(idle));
    BelowMonotone(DecayedRank(r, idle).level, r.level);
  }

  lemma EventStaysLow(r: Record, ip: string, hit: Hit, cfg: Config, now: int)
    requires RecordInv(r, ip, cfg) && ValidConfig(cfg) && ValidHit(hit) && Low(r, cfg) && !hit.boost
    requires Standing(r) + hit.delta < Below(cfg.hard)
    ensures var q := EventStep(r, ip, hit, cfg, now);
            !EventVerdict(r, ip, hit, cfg, now).hard && Low(q, cfg) && Standing(q) <= Standing(r) + hit.delta
  {
    var st := StateNow(r, now);
    PotentialFades(st.rank, now - st.lastSeen);
    RaiseStaysLow(Decayed(st, now).rank, hit, cfg);
  }

  lemma RaiseStaysLow(r: Rank, hit: Hit, cfg: Config)
    requires 0 <= r.level && 0 <= r.xp && ValidHit(hit) && !hit.boost && ValidConfig(cfg)
    requires Potential(r.level, r.xp) + hit.delta < Below(cfg.hard)
    ensures var s := RaisedRank(r, hit, cfg);
            s.level < cfg.hard && Potential(s.level, s.xp) == Potential(r.level, r.xp) + hit.delta
  {
    ClimbWithinBudget(Rank(r.level, r.xp + hit.delta), cfg.hard);
  }

  lemma TickStaysLow(r: Record, ip: string, cfg: Config, now: int)
    requires RecordInv(r, ip, cfg) && ValidConfig(cfg) && Low(r, cfg)
    ensures var q := TickStep(r, ip, cfg, now); Low(q, cfg) && 0 <= Standing(q) <= Standing(r)
  {
    var p := Synced(Promoted(r, cfg, now));
    assert p.state == r.state;
    if r.state.Some? {
      var st := r.state.value;
      assert AfterExpiry(p, ip, cfg, now) == p;
      PotentialFades(st.rank, now - st.lastSeen);
    }
  }

  /** Whatever the order, the gaps and the mode of the events, and whatever else happens in
      between: as long as all the XP of a run without boosts stays below the budget, nothing in it
      gets the IP hard-blocked. */
  lemma {:induction false} NobodyIsBlockedBelowTheBudget(r: Record, ip: string, ops: seq<Op>, cfg: Config)
    requires RecordInv(r, ip, cfg) && ValidConfig(cfg) && ValidOps(ops) && Low(r, cfg) && Unboosted(ops)
    requires Standing(r) + TotalXP(ops) < Below(cfg.hard)
    ensures !HardBlocked(r, ip, ops, cfg) && Low(Run(r, ip, ops, cfg), cfg)
    decreases |ops|
  {
    if |ops| > 0 {
      var op, rest := ops[0], ops[1..];
      XPAddsUp(rest);
      StepKeeps(r, ip, op, cfg);
      if op.Event? {
        EventStaysLow(r, ip, op.hit, cfg, op.now);
      } else if op.Tick? {
        TickStaysLow(r, ip, cfg, op.now);
      }
      NobodyIsBlockedBelowTheBudget(Step(r, ip, op, cfg), ip, rest, cfg);
    }
  }

  lemma {:induction false} XPAddsUp(ops: seq<Op>)
    requires ValidOps(ops)
    ensures TotalXP(ops) >= 0
    decreases |ops|
  {
    if |ops| > 0 {
      XPAddsUp(ops[1..]);
    }
  }

  /** Short of the budget the climb ends below the hard level. */
  lemma ClimbWithinBudget(r: Rank, hard: nat)
    requires r.level >= 0 && r.xp >= 0 && Potential(r.level, r.xp) < Below(hard)
    ensures var s := Settle(r, hard); s.level < hard && Potential(s.level, s.xp) == Potential(r.level, r.xp)
  {
    SettleConserves(r, hard);
    SettleWithinBudget(r, hard);
  }

  lemma SettleWithinBudget(r: Rank, hard: nat)
    requires r.level >= 0 && r.xp >= 0 && Potential(r.level, r.xp) < Below(hard)
    ensures Settle(r, hard).level < hard
  {
    var c := Climb(r, hard);
    ClimbConserves(r, hard);
    ClimbRests(r, hard);
    if c.level >= hard {
      BelowMonotone(hard, c.level);
    }
  }

  // ---------- The bound is sharp ----------

  /** The calls to the burst window that the events of a run make. */
  function CallsOf(ops: seq<Op>, ip: string): seq<Call>
    decreases |ops|
  {
    if |ops| == 0 then []
    else (if ops[0].Event? then [CallOf(ops[0].hit, ip, ops[0].now)] else []) + CallsOf(ops[1..], ip)
  }

  /** Every event of the run is what these signals score after the events before it. */
  predicate ScoredRun(ops: seq<Op>, log: seq<Call>, ip: string, signals: seq<string>) {
    forall i :: 0 <= i < |ops| && ops[i].Event? ==>
      IsScored(ops[i].hit, log + CallsOf(ops[..i], ip), ip, ops[i].hit.auto, signals, ops[i].now)
  }

  /** `n` lone unknown-host events at equal distances. */
  function Weakest(n: nat, now: int, gap: int): seq<Op> {
    if n == 0 then [] else [Event(WEAKEST, now)] + Weakest(n - 1, now + gap, gap)
  }

  lemma {:induction false} WeakestAreQuiet(n: nat, now: int, gap: int, log: seq<Call>, ip: string, i: nat)
    requires gap > MINUTE && Quiet(log, ip, now) && i < n
    ensures var ops := Weakest(n, now, gap);
      && |ops| == n && ops[i].Event? && ops[i].hit == WEAKEST
      && Quiet(log + CallsOf(ops[..i], ip), ip, ops[i].now)
    decreases n
  {
    var ops, rest := Weakest(n, now, gap), Weakest(n - 1, now + gap, gap);
    assert ops[1..] == rest;
    if n > 1 {
      var c := CallOf(WEAKEST, ip, now);
      var j := if i == 0 then 0 else i - 1;
      StaysQuiet(log, c, now + gap);
      WeakestAreQuiet(n - 1, now + gap, gap, log + [c], ip, j);
      if i > 0 {
        assert ops[..i][1..] == rest[..j];
        assert log + ([c] + CallsOf(rest[..j], ip)) == (log + [c]) + CallsOf(rest[..j], ip);
      }
    }
    assert log + [] == log;
  }

  /** More than a minute apart, no burst raises them above 1 XP. */
  lemma WeakestAreScored(n: nat, now: int, gap: int, log: seq<Call>, ip: string)
    requires gap > MINUTE && Quiet(log, ip, now)
    ensures ScoredRun(Weakest(n, now, gap), log, ip, [UNKNOWN_HOST])
  {
    var ops := Weakest(n, now, gap);
    WeakestAreMany(n, now, gap);
    forall i | 0 <= i < |ops| && ops[i].Event?
      ensures IsScored(ops[i].hit, log + CallsOf(ops[..i], ip), ip, ops[i].hit.auto, [UNKNOWN_HOST], ops[i].now)
    {
      WeakestAreQuiet(n, now, gap, log, ip, i);
      LoneUnknownHost(log + CallsOf(ops[..i], ip), ip, ops[i].now);
    }
  }

  lemma {:induction false} WeakestAreMany(n: nat, now: int, gap: int)
    ensures |Weakest(n, now, gap)| == n && TotalXP(Weakest(n, now, gap)) == n
    ensures forall i :: 0 <= i < n ==> Weakest(n, now, gap)[i].Event? && Weakest(n, now, gap)[i].hit == WEAKEST
  {
    if n > 0 {
      assert Weakest(n, now, gap)[1..] == Weakest(n - 1, now + gap, gap);
      WeakestAreMany(n - 1, now + gap, gap);
    }
  }

  /** The weakest events do occur, whatever the log of calls before a quiet minute: lone unknown
      hosts, more than a minute and less than half an hour apart. They get an IP that is not
      tracked blocked exactly when their number reaches the budget. */
  lemma BudgetIsSharp(ip: string, n: nat, now: int, gap: int, log: seq<Call>, cfg: Config)
    requires ip != "" && ValidConfig(cfg) && MINUTE < gap < HALF_HOUR && Quiet(log, ip, now)
    ensures ScoredRun(Weakest(n, now, gap), log, ip, [UNKNOWN_HOST])
    ensures HardBlocked(EMPTY, ip, Weakest(n, now, gap), cfg) <==> n >= Below(cfg.hard)
  {
    WeakestAreScored(n, now, gap, log, ip);
    WeakestIsABarrage(n, now, gap, None);
    if n >= Below(cfg.hard) {
      EscalationIsGuaranteed(EMPTY, ip, Weakest(n, now, gap), cfg, now);
    } else {
      WeakestAreMany(n, now, gap);
      NobodyIsBlockedBelowTheBudget(EMPTY, ip, Weakest(n, now, gap), cfg);
    }
  }

  lemma {:induction false} WeakestIsABarrage(n: nat, now: int, gap: int, last: Option<int>)
    requires 0 <= gap < HALF_HOUR && (last.Some? ==> now - last.value < HALF_HOUR)
    ensures var ops := Weakest(n, now, gap);
            Barrage(ops, last) && Chronological(ops, now) && Events(ops) == n && ValidOps(ops)
  {
    if n > 0 {
      assert Weakest(n, now, gap)[1..] == Weakest(n - 1, now + gap, gap);
      WeakestIsABarrage(n - 1, now + gap, gap, Some(now));
      LaterStart(Weakest(n - 1, now + gap, gap), now, now + gap);
    }
  }

  lemma LaterStart(ops: seq<Op>, early: int, late: int)
    requires early <= late && Chronological(ops, late) && (|ops| > 0 ==> ops[0].Event?)
    ensures Chronological(ops, early)
  {
  }
}
