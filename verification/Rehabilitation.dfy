/** Ticks only speed up rehabilitation, and for which IPs they do. */
module Rehabilitation {
  import opened Levels
  import opened ThreatInvariants
  import opened ThreatRecord
  import opened Time

  function RunTicks(r: Record, ip: string, ticks: seq<int>, cfg: Config): Record
    decreases |ticks|
  {
    if |ticks| == 0 then r else RunTicks(TickStep(r, ip, cfg, ticks[0]), ip, ticks[1..], cfg)
  }

  /** The rank the next event would start from: what is stored, lazily decayed; nothing stored
      counts as level 0 without XP. */
  function RankAt(r: Record, now: int): Rank {
    if r.state.Some? then Decayed(r.state.value, now).rank else Rank(0, 0)
  }

  predicate AtMost(a: Rank, b: Rank) {
    a.level <= b.level && a.xp <= b.xp
  }

  predicate TicksUpTo(ticks: seq<int>, now: int) {
    forall i :: 0 <= i < |ticks| ==> ticks[i] <= now
  }

  lemma DecayedRankMonotone(a: Rank, b: Rank, idle: int)
    requires 0 <= a.level <= b.level && 0 <= a.xp <= b.xp
    ensures AtMost(DecayedRank(a, idle), DecayedRank(b, idle))
    ensures 0 <= DecayedRank(a, idle).level && 0 <= DecayedRank(a, idle).xp
    ensures AtMost(DecayedRank(a, idle), a)
  {
    DecayMonotone(a.xp, b.xp, DecaySteps(idle));
    DecayMonotone(a.xp, a.xp, DecaySteps(idle));
  }

  /** `r` is what ticks have made of an idle IP whose state was `st`. */
  predicate Trails(r: Record, st: IPState, now: int) {
    r.state.Some? ==>
      var t := r.state.value;
      && t.lastSeen == st.lastSeen && !t.perm
      && 0 <= t.rank.level && 0 <= t.rank.xp && AtMost(t.rank, st.rank)
      && (t.ban == st.ban || (t.ban == Zero && BanOver(st, now)))
  }

  lemma TickTrails(r: Record, ip: string, st: IPState, cfg: Config, tick: int)
    requires Trails(r, st, tick) && !Promotes(r, cfg)
    ensures Trails(TickStep(r, ip, cfg, tick), st, tick) && !Promotes(TickStep(r, ip, cfg, tick), cfg)
  {
    var p := Synced(Promoted(r, cfg, tick));
    assert p.state == r.state && p.allowed == r.allowed;
    if r.state.Some? {
      var t := r.state.value;
      assert AfterExpiry(p, ip, cfg, tick) == p;
      DecayedRankMonotone(t.rank, t.rank, tick - t.lastSeen);
    }
  }

  lemma TrailingIsFaster(r: Record, st: IPState, now: int)
    requires Trails(r, st, now) && !st.perm && st.rank.level >= 0 && st.rank.xp >= 0
    ensures AtMost(RankAt(r, now), Decayed(st, now).rank)
  {
    DecayedRankMonotone(st.rank, st.rank, now - st.lastSeen);
    if r.state.Some? {
      DecayedRankMonotone(r.state.value.rank, st.rank, now - st.lastSeen);
    }
  }

  lemma {:induction false} TicksTrail(r: Record, ip: string, st: IPState, ticks: seq<int>, cfg: Config, now: int)
    requires Trails(r, st, now) && !Promotes(r, cfg) && TicksUpTo(ticks, now)
    ensures Trails(RunTicks(r, ip, ticks, cfg), st, now)
    decreases |ticks|
  {
    if |ticks| > 0 {
      OneTickTrails(r, ip, st, cfg, ticks[0], now);
      TicksTrail(TickStep(r, ip, cfg, ticks[0]), ip, st, ticks[1..], cfg, now);
    }
  }

  /** As `TickTrails`, but seen from the time of the next event. */
  lemma OneTickTrails(r: Record, ip: string, st: IPState, cfg: Config, tick: int, now: int)
    requires Trails(r, st, now) && !Promotes(r, cfg) && tick <= now
    ensures Trails(TickStep(r, ip, cfg, tick), st, now) && !Promotes(TickStep(r, ip, cfg, tick), cfg)
  {
    if r.state.Some? {
      // The record trails itself at the tick, and trailing is transitive.
      TickTrails(r, ip, r.state.value, cfg, tick);
    } else {
      TickTrails(r, ip, st, cfg, tick);
    }
  }

  /** Every schedule of ticks in an idle stretch leaves the IP pointwise no worse off than lazy
      decay at the next event. */
  ghost predicate TicksNeverHurt(r: Record, ip: string, cfg: Config) {
    forall ticks, now | TicksUpTo(ticks, now) :: AtMost(RankAt(RunTicks(r, ip, ticks, cfg), now), RankAt(r, now))
  }

  /** For an IP that is tracked and not hard-blocked this holds exactly when a tick would not
      promote it: the tick hard-blocks at the hard level even in monitor-only mode. */
  lemma TicksNeverHurtIffNotPromotable(r: Record, ip: string, cfg: Config)
    requires RecordInv(r, ip, cfg) && ValidConfig(cfg) && r.state.Some? && !r.state.value.perm
    ensures TicksNeverHurt(r, ip, cfg) <==> !Promotes(r, cfg)
  {
    var st := r.state.value;
    if !Promotes(r, cfg) {
      forall ticks, now | TicksUpTo(ticks, now)
        ensures AtMost(RankAt(RunTicks(r, ip, ticks, cfg), now), RankAt(r, now))
      {
        TicksTrail(r, ip, st, ticks, cfg, now);
        TrailingIsFaster(RunTicks(r, ip, ticks, cfg), st, now);
      }
    } else {
      PromotionHurts(r, ip, cfg);
    }
  }

  /** One tick right away freezes the IP at its level; left alone until its ban is over and 72
      hours have passed for each level, it would have lost them all. */
  lemma PromotionHurts(r: Record, ip: string, cfg: Config)
    requires RecordInv(r, ip, cfg) && ValidConfig(cfg) && Promotes(r, cfg) && !r.state.value.perm
    ensures !TicksNeverHurt(r, ip, cfg)
  {
    var st := r.state.value;
    var tick := if r.block.Some? then r.block.value.created else st.lastSeen;
    var idle := st.rank.level * REHAB;
    var base := if st.ban.At? && st.ban.t > st.lastSeen then st.ban.t else st.lastSeen;
    var now := (if base > tick then base else tick) + idle;
    var ticks := [tick];
    assert ticks[1..] == [];
    assert RunTicks(r, ip, ticks, cfg) == TickStep(r, ip, cfg, tick);
    FrozenByTick(r, ip, cfg, tick);
    AllLevelsLost(st.rank, now - st.lastSeen);
    assert TicksUpTo(ticks, now);
    assert !AtMost(RankAt(RunTicks(r, ip, ticks, cfg), now), RankAt(r, now));
  }

  lemma FrozenByTick(r: Record, ip: string, cfg: Config, tick: int)
    requires Promotes(r, cfg) && ValidConfig(cfg)
    requires r.block.Some? ==> r.block.value.created == tick
    ensures var q := TickStep(r, ip, cfg, tick);
            q.state.Some? && q.state.value.perm && q.state.value.rank == r.state.value.rank
  {
    var p := Synced(Promoted(r, cfg, tick));
    assert p.state.value.perm && p.state.value.rank == r.state.value.rank;
    assert p.block.value.created == tick;
    assert AfterExpiry(p, ip, cfg, tick) == p;
  }

  lemma AllLevelsLost(r: Rank, idle: int)
    requires r.level > 0 && idle >= r.level * REHAB
    ensures DecayedRank(r, idle).level == 0
  {
  }

  // ---------- How much they help ----------

  predicate Rising(ticks: seq<int>, clock: int)
    decreases |ticks|
  {
    |ticks| > 0 ==> clock <= ticks[0] && Rising(ticks[1..], ticks[0])
  }

  /** The decay steps, and the levels, that a look at an idle state costs it. */
  function StepsAt(st: IPState, now: int): nat {
    if Frozen(st, now) then 0 else DecaySteps(now - st.lastSeen)
  }

  function LevelsAt(st: IPState, now: int): nat {
    if Frozen(st, now) then 0 else LevelsLost(now - st.lastSeen)
  }

  function TotalSteps(st: IPState, times: seq<int>): nat {
    if |times| == 0 then 0 else StepsAt(st, times[0]) + TotalSteps(st, times[1..])
  }

  function TotalLevels(st: IPState, times: seq<int>): nat {
    if |times| == 0 then 0 else LevelsAt(st, times[0]) + TotalLevels(st, times[1..])
  }

  function Faded(r: Rank, steps: nat, levels: nat): Rank {
    Rank(if r.level <= levels then 0 else r.level - levels, Decay(r.xp, steps))
  }

  function StoredRank(r: Record): Rank {
    if r.state.Some? then r.state.value.rank else Rank(0, 0)
  }

  lemma FadedTwice(r: Rank, a: nat, b: nat, c: nat, d: nat)
    requires r.level >= 0
    ensures Faded(Faded(r, a, b), c, d) == Faded(r, a + c, b + d)
  {
    DecayCompose(r.xp, a, c);
  }

  lemma {:induction false} NothingFades(steps: nat, levels: nat)
    ensures Faded(Rank(0, 0), steps, levels) == Rank(0, 0)
    decreases steps
  {
    if steps > 0 {
      NothingFades(steps - 1, levels);
    }
  }

  lemma DecayIsFading(r: Rank, idle: int)
    requires r.level >= 0
    ensures DecayedRank(r, idle) == Faded(r, DecaySteps(idle), LevelsLost(idle))
  {
  }

  /** A tick books the decay since the IP was last seen, also when it drops the state. */
  lemma OneTickFades(r: Record, ip: string, st: IPState, cfg: Config, tick: int)
    requires Trails(r, st, tick) && !st.perm && !Promotes(r, cfg)
    ensures StoredRank(TickStep(r, ip, cfg, tick)) == Faded(StoredRank(r), StepsAt(st, tick), LevelsAt(st, tick))
  {
    var p := Synced(Promoted(r, cfg, tick));
    assert p.state == r.state && p.allowed == r.allowed;
    if r.state.Some? {
      var t := r.state.value;
      assert AfterExpiry(p, ip, cfg, tick) == p;
      DecayIsFading(t.rank, tick - t.lastSeen);
      DecayedRankMonotone(t.rank, t.rank, tick - t.lastSeen);
    } else {
      NothingFades(StepsAt(st, tick), LevelsAt(st, tick));
    }
  }

  lemma EventFades(r: Record, st: IPState, now: int)
    requires Trails(r, st, now) && !st.perm
    ensures RankAt(r, now) == Faded(StoredRank(r), StepsAt(st, now), LevelsAt(st, now))
  {
    if r.state.Some? {
      DecayIsFading(r.state.value.rank, now - st.lastSeen);
    } else {
      NothingFades(StepsAt(st, now), LevelsAt(st, now));
    }
  }

  lemma TrailsOn(r: Record, st: IPState, clock: int, now: int)
    requires Trails(r, st, clock) && clock <= now
    ensures Trails(r, st, now)
  {
  }

  lemma {:induction false} TicksAddUp(r: Record, ip: string, st: IPState, ticks: seq<int>, cfg: Config, clock: int,
                                      now: int)
    requires Trails(r, st, clock) && !st.perm && !Promotes(r, cfg) && StoredRank(r).level >= 0
    requires Rising(ticks + [now], clock)
    ensures RankAt(RunTicks(r, ip, ticks, cfg), now) ==
            Faded(StoredRank(r), TotalSteps(st, ticks + [now]), TotalLevels(st, ticks + [now]))
    decreases |ticks|
  {
    var all := ticks + [now];
    TrailsOn(r, st, clock, all[0]);
    if |ticks| == 0 {
      EventFades(r, st, now);
    } else {
      assert all[1..] == ticks[1..] + [now];
      var next := TickStep(r, ip, cfg, ticks[0]);
      OneTickFades(r, ip, st, cfg, ticks[0]);
      TickTrails(r, ip, st, cfg, ticks[0]);
      TicksAddUp(next, ip, st, ticks[1..], cfg, ticks[0], now);
      FadedTwice(StoredRank(r), StepsAt(st, ticks[0]), LevelsAt(st, ticks[0]),
                 TotalSteps(st, all[1..]), TotalLevels(st, all[1..]));
    }
  }

  /** A tick does not move the time an IP was last seen, so decay compounds: the next event finds
      the stored rank decayed by the sum of what every tick, and the event itself, make of the
      whole time since then. While a ban runs they make nothing of it. */
  lemma TicksCompound(r: Record, ip: string, ticks: seq<int>, cfg: Config, clock: int, now: int)
    requires RecordInv(r, ip, cfg) && ValidConfig(cfg) && r.state.Some? && !r.state.value.perm
    requires !Promotes(r, cfg) && Rising(ticks + [now], clock)
    ensures var st, times := r.state.value, ticks + [now];
            RankAt(RunTicks(r, ip, ticks, cfg), now) == Faded(st.rank, TotalSteps(st, times), TotalLevels(st, times))
  {
    TicksAddUp(r, ip, r.state.value, ticks, cfg, clock, now);
  }

  // ---------- Rehabilitation is complete ----------

  function LevelsOrOne(level: int): int {
    if level < 1 then 1 else level
  }

  lemma {:induction false} UntrackedStays(r: Record, ip: string, ticks: seq<int>, cfg: Config)
    requires r.state.None?
    ensures RunTicks(r, ip, ticks, cfg).state.None?
    decreases |ticks|
  {
    if |ticks| > 0 {
      UntrackedStays(TickStep(r, ip, cfg, ticks[0]), ip, ticks[1..], cfg);
    }
  }

  /** A tick that takes all levels, or finds none after 72 idle hours, takes the XP as well and
      forgets the IP; one that does not keeps it tracked. */
  lemma OneTickForgets(r: Record, ip: string, st: IPState, cfg: Config, tick: int)
    requires Trails(r, st, tick) && !st.perm && !Promotes(r, cfg) && r.state.Some? && ValidConfig(cfg)
    requires RankInv(r.state.value.rank, cfg) && !r.allowed
    ensures TickStep(r, ip, cfg, tick).state.None? <==> LevelsAt(st, tick) >= LevelsOrOne(r.state.value.rank.level)
  {
    var t := r.state.value;
    var p := Synced(Promoted(r, cfg, tick));
    assert p.state == r.state && p.allowed == r.allowed && AfterExpiry(p, ip, cfg, tick) == p;
    if LevelsAt(st, tick) >= LevelsOrOne(t.rank.level) {
      var idle := tick - t.lastSeen;
      assert DecaySteps(idle) >= 144 * LevelsOrOne(t.rank.level);
      ColdInTime(t.rank.xp, t.rank.level, DecaySteps(idle));
      assert DecayedRank(t.rank, idle) == Rank(0, 0);
    }
  }

  lemma {:induction false} TicksForget(r: Record, ip: string, st: IPState, ticks: seq<int>, cfg: Config, clock: int)
    requires Trails(r, st, clock) && !st.perm && !Promotes(r, cfg) && r.state.Some? && ValidConfig(cfg)
    requires RankInv(r.state.value.rank, cfg) && !r.allowed && Rising(ticks, clock)
    ensures RunTicks(r, ip, ticks, cfg).state.None? <==>
            TotalLevels(st, ticks) >= LevelsOrOne(r.state.value.rank.level)
    decreases |ticks|
  {
    if |ticks| > 0 {
      var t, tick := r.state.value, ticks[0];
      var next := TickStep(r, ip, cfg, tick);
      TrailsOn(r, st, clock, tick);
      OneTickForgets(r, ip, st, cfg, tick);
      TickTrails(r, ip, st, cfg, tick);
      if next.state.None? {
        UntrackedStays(next, ip, ticks[1..], cfg);
      } else {
        OneTickFades(r, ip, st, cfg, tick);
        DecayKeepsRank(t.rank, tick - t.lastSeen, cfg);
        KeptRank(r, ip, st, cfg, tick);
        TicksForget(next, ip, st, ticks[1..], cfg, tick);
      }
    }
  }

  lemma KeptRank(r: Record, ip: string, st: IPState, cfg: Config, tick: int)
    requires Trails(r, st, tick) && !st.perm && !Promotes(r, cfg) && r.state.Some?
    requires RankInv(r.state.value.rank, cfg) && !r.allowed
    ensures var next := TickStep(r, ip, cfg, tick);
            next.state.Some? ==> RankInv(next.state.value.rank, cfg) && next.allowed == r.allowed
  {
    var t := r.state.value;
    var p := Synced(Promoted(r, cfg, tick));
    assert p.state == r.state && p.allowed == r.allowed && AfterExpiry(p, ip, cfg, tick) == p;
    DecayKeepsRank(t.rank, tick - t.lastSeen, cfg);
  }

  /** Left alone, an IP that is neither blocked for good nor up for promotion is forgotten exactly
      when the levels that the ticks take, 72 idle hours each and counted anew by every tick, add
      up to its own, or to one if it has none. Whatever its XP was, it is gone by then. */
  lemma IdleIPsAreForgottenIff(r: Record, ip: string, ticks: seq<int>, cfg: Config, clock: int)
    requires RecordInv(r, ip, cfg) && ValidConfig(cfg) && r.state.Some? && !r.state.value.perm
    requires !Promotes(r, cfg) && !r.allowed && Rising(ticks, clock)
    ensures RunTicks(r, ip, ticks, cfg).state.None? <==>
            TotalLevels(r.state.value, ticks) >= LevelsOrOne(r.state.value.rank.level)
  {
    TicksForget(r, ip, r.state.value, ticks, cfg, clock);
  }

  /** So a tick per level, or one if there is none, is enough past 72 idle hours. */
  lemma {:induction false} LateTicksTakeLevels(st: IPState, ticks: seq<int>)
    requires forall i :: 0 <= i < |ticks| ==> !Frozen(st, ticks[i]) && ticks[i] - st.lastSeen >= REHAB
    ensures TotalLevels(st, ticks) >= |ticks|
  {
    if |ticks| > 0 {
      LateTicksTakeLevels(st, ticks[1..]);
    }
  }

  /** By then, in any case, the next event starts from nothing. */
  lemma NextEventStartsOver(r: Record, ip: string, ticks: seq<int>, cfg: Config, clock: int, now: int)
    requires RecordInv(r, ip, cfg) && ValidConfig(cfg) && r.state.Some? && !r.state.value.perm
    requires !Promotes(r, cfg) && Rising(ticks + [now], clock)
    requires TotalLevels(r.state.value, ticks + [now]) >= LevelsOrOne(r.state.value.rank.level)
    ensures RankAt(RunTicks(r, ip, ticks, cfg), now) == Rank(0, 0)
  {
    var st, times := r.state.value, ticks + [now];
    TicksCompound(r, ip, ticks, cfg, clock, now);
    LevelsCostSteps(st, times);
    ColdInTime(st.rank.xp, st.rank.level, TotalSteps(st, times));
  }

  lemma {:induction false} LevelsCostSteps(st: IPState, times: seq<int>)
    ensures TotalSteps(st, times) >= 144 * TotalLevels(st, times)
  {
    if |times| > 0 {
      LevelsCostSteps(st, times[1..]);
    }
  }

  predicate StartedOver(r: Record) {
    r.state.Some? && !r.state.value.perm && r.state.value.rank == Rank(0, 0) && r.state.value.risk == Monitoring
  }

  lemma OneAllowedTick(r: Record, ip: string, st: IPState, cfg: Config, tick: int)
    requires Trails(r, st, tick) && !st.perm && r.allowed && r.state.Some? && ValidConfig(cfg)
    requires RankInv(r.state.value.rank, cfg)
    ensures var next := TickStep(r, ip, cfg, tick);
            && next.allowed && next.state.Some? && RankInv(next.state.value.rank, cfg)
            && (StartedOver(r) ==> StartedOver(next))
            && (LevelsAt(st, tick) >= LevelsOrOne(r.state.value.rank.level) ==> StartedOver(next))
  {
    var t := r.state.value;
    var idle := tick - t.lastSeen;
    var p := Synced(Promoted(r, cfg, tick));
    assert p.state == r.state && p.allowed && AfterExpiry(p, ip, cfg, tick) == p;
    DecayKeepsRank(t.rank, idle, cfg);
    if LevelsAt(st, tick) >= LevelsOrOne(t.rank.level) {
      assert DecaySteps(idle) >= 144 * LevelsOrOne(t.rank.level);
      ColdInTime(t.rank.xp, t.rank.level, DecaySteps(idle));
      assert DecayedRank(t.rank, idle) == Rank(0, 0);
    } else if StartedOver(r) {
      NothingFades(DecaySteps(idle), LevelsLost(idle));
    }
  }

  lemma {:induction false} AllowedTicks(r: Record, ip: string, st: IPState, ticks: seq<int>, cfg: Config, clock: int)
    requires Trails(r, st, clock) && !st.perm && r.allowed && r.state.Some? && ValidConfig(cfg)
    requires RankInv(r.state.value.rank, cfg) && Rising(ticks, clock)
    ensures var q := RunTicks(r, ip, ticks, cfg);
            && q.state.Some? && (StartedOver(r) ==> StartedOver(q))
            && (TotalLevels(st, ticks) >= LevelsOrOne(r.state.value.rank.level) ==> StartedOver(q))
    decreases |ticks|
  {
    if |ticks| > 0 {
      TrailsOn(r, st, clock, ticks[0]);
      OneAllowedTick(r, ip, st, cfg, ticks[0]);
      TickTrails(r, ip, st, cfg, ticks[0]);
      OneTickFades(r, ip, st, cfg, ticks[0]);
      AllowedTicks(TickStep(r, ip, cfg, ticks[0]), ip, st, ticks[1..], cfg, ticks[0]);
    }
  }

  /** An allowlisted IP is never forgotten; at the point where another would be, it starts over. */
  lemma AllowedIPsStartOver(r: Record, ip: string, ticks: seq<int>, cfg: Config, clock: int)
    requires RecordInv(r, ip, cfg) && ValidConfig(cfg) && r.state.Some? && !r.state.value.perm
    requires r.allowed && Rising(ticks, clock)
    ensures var q := RunTicks(r, ip, ticks, cfg);
            && q.state.Some?
            && (TotalLevels(r.state.value, ticks) >= LevelsOrOne(r.state.value.rank.level) ==> StartedOver(q))
  {
    AllowedTicks(r, ip, r.state.value, ticks, cfg, clock);
  }
}
