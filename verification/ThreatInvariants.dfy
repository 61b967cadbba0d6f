/** What every service call keeps, and hence every run: the XP envelope, the shape of a hard
    block, and the agreement of block list, ban windows and ban history. */
module ThreatInvariants {
  import opened Levels
  import opened Options
  import opened ThreatRecord
  import opened Time

  // ---------- The XP envelope ----------

  function TopLevel(cfg: Config): int {
    if cfg.hard < WATCH_LEVEL then WATCH_LEVEL else cfg.hard
  }

  predicate RankInv(r: Rank, cfg: Config) {
    0 <= r.level <= TopLevel(cfg) && 0 <= r.xp <= Threshold(r.level)
  }

  /** The risk label follows the level, except for an IP on watch; a hard block needs the hard
      level and has no ban window. */
  predicate StateInv(st: IPState, cfg: Config) {
    && RankInv(st.rank, cfg)
    && (st.risk != Watch ==> st.risk == RiskOf(st.rank.level, cfg))
    && (st.perm ==> st.rank.level >= cfg.hard && st.risk == HardBlock && st.ban == Zero)
  }

  /** XP never outgrows its level while it decays, even when a level is lost: the 144 half
      hours that cost a level cost more than half of the XP. */
  lemma DecayKeepsRank(r: Rank, idle: int, cfg: Config)
    requires RankInv(r, cfg)
    ensures RankInv(DecayedRank(r, idle), cfg)
    ensures DecayedRank(r, idle).level <= r.level
  {
    var down := LevelsLost(idle);
    var d: nat := if down > r.level then r.level else down;
    DecayOutpacesLevels(r.xp, r.level, d, DecaySteps(idle));
  }

  /** Whoever loses a level has no XP left. */
  ghost predicate LosesCold(level: nat) {
    forall xp: nat, idle: int | xp <= Threshold(level) ::
      DecayedRank(Rank(level, xp), idle).level < level ==> DecayedRank(Rank(level, xp), idle).xp == 0
  }

  /** That holds exactly up to level 21. At level 22 a full threshold outlasts the 72 hours. */
  lemma LevelsAreLostColdIff(level: nat)
    ensures LosesCold(level) <==> level <= 21
  {
    if level <= 21 {
      forall xp: nat, idle: int | xp <= Threshold(level) && DecayedRank(Rank(level, xp), idle).level < level
        ensures DecayedRank(Rank(level, xp), idle).xp == 0
      {
        ColdAfter144Steps(xp, level, DecaySteps(idle));
      }
    } else {
      var xp: nat := Threshold(22);
      ThresholdMonotone(22, level);
      WarmAfter144Steps(DecaySteps(REHAB));
      assert DecayedRank(Rank(level, xp), REHAB) == Rank(level - 1, 2);
    }
  }

  ghost predicate AllLoseCold(cfg: Config) {
    forall r, idle | RankInv(r, cfg) :: DecayedRank(r, idle).level < r.level ==> DecayedRank(r, idle).xp == 0
  }

  /** So it holds of the whole envelope exactly if the hard level is at most 21. */
  lemma EnvelopeIsColdIff(cfg: Config)
    ensures AllLoseCold(cfg) <==> cfg.hard <= 21
  {
    if cfg.hard <= 21 {
      forall r, idle | RankInv(r, cfg) && DecayedRank(r, idle).level < r.level
        ensures DecayedRank(r, idle).xp == 0
      {
        ColdAfter144Steps(r.xp, r.level, DecaySteps(idle));
      }
    } else {
      var r := Rank(22, Threshold(22));
      WarmAfter144Steps(DecaySteps(REHAB));
      assert RankInv(r, cfg) && DecayedRank(r, REHAB) == Rank(21, 2);
    }
  }

  lemma SettleKeepsRank(r: Rank, cfg: Config)
    requires 0 <= r.level <= TopLevel(cfg) && r.xp >= 0
    ensures RankInv(Settle(r, cfg.hard), cfg)
    ensures Settle(r, cfg.hard).level >= r.level
    ensures Settle(r, cfg.hard).level < cfg.hard ==> Settle(r, cfg.hard).xp < Threshold(Settle(r, cfg.hard).level)
  {
    ClimbRests(r, cfg.hard);
    if Climb(r, cfg.hard).level >= cfg.hard {
      ThresholdMonotone(cfg.hard, Climb(r, cfg.hard).level);
    }
  }

  lemma RaiseKeepsRank(r: Rank, hit: Hit, cfg: Config)
    requires RankInv(r, cfg) && ValidHit(hit)
    ensures RankInv(RaisedRank(r, hit, cfg), cfg)
    ensures RaisedRank(r, hit, cfg).level >= r.level
  {
    SettleKeepsRank(Rank(r.level, r.xp + hit.delta), cfg);
  }

  lemma BookingKeepsState(r: Record, hit: Hit, cfg: Config, now: int)
    requires ValidHit(hit) && ValidConfig(cfg)
    requires r.state.Some? ==> StateInv(r.state.value, cfg)
    ensures StateInv(Booked(r, hit, cfg, now), cfg)
    ensures r.state.Some? && r.state.value.perm ==> Booked(r, hit, cfg, now).perm
  {
    var st := StateNow(r, now);
    DecayKeepsRank(st.rank, now - st.lastSeen, cfg);
    RaiseKeepsRank(Decayed(st, now).rank, hit, cfg);
  }

  lemma ReviewKeepsState(st: IPState, cfg: Config, now: int)
    requires StateInv(st, cfg) && ValidConfig(cfg)
    ensures StateInv(Reviewed(st, cfg, now), cfg)
    ensures Reviewed(st, cfg, now).rank.level <= st.rank.level
  {
    DecayKeepsRank(st.rank, now - st.lastSeen, cfg);
  }

  // ---------- The ban-history ledger ----------

  predicate AtMostOneOpen(h: seq<BanRow>, kind: Kind) {
    forall i, j :: 0 <= i < j < |h| ==> !(IsOpen(h[i], kind) && IsOpen(h[j], kind))
  }

  predicate SoundHistory(h: seq<BanRow>) {
    AtMostOneOpen(h, Soft) && AtMostOneOpen(h, Hard)
  }

  /** Rows are only appended, and a row changes at most once: when it is closed. */
  predicate Extends(h: seq<BanRow>, h': seq<BanRow>) {
    |h| <= |h'| && forall i :: 0 <= i < |h| ==> h'[i] == h[i] || ClosedNow(h[i], h'[i])
  }

  predicate ClosedNow(row: BanRow, row': BanRow) {
    row.rehab.Zero? && row'.rehab.At? && row'.kind == row.kind && row'.bannedAt == row.bannedAt
  }

  lemma ExtendsTransitive(a: seq<BanRow>, b: seq<BanRow>, c: seq<BanRow>)
    requires Extends(a, b) && Extends(b, c)
    ensures Extends(a, c)
  {
  }

  /** The row picked for closing is an open one, if there is any. */
  lemma {:induction false} LatestOpenFinds(h: seq<BanRow>, kind: Kind)
    ensures LatestOpen(h, kind) >= 0 <==> HasOpen(h, kind)
    ensures LatestOpen(h, kind) >= 0 ==> IsOpen(h[LatestOpen(h, kind)], kind)
  {
    if |h| > 0 {
      var last := |h| - 1;
      LatestOpenFinds(h[..last], kind);
      if HasOpen(h, kind) && !IsOpen(h[last], kind) {
        var i :| 0 <= i < |h| && IsOpen(h[i], kind);
        assert h[..last][i] == h[i];
      }
    }
  }

  lemma EnsuringOpens(h: seq<BanRow>, ip: string, kind: Kind, now: int)
    requires SoundHistory(h)
    ensures SoundHistory(EnsureOpen(h, ip, kind, now)) && Extends(h, EnsureOpen(h, ip, kind, now))
    ensures ip != "" ==> HasOpen(EnsureOpen(h, ip, kind, now), kind)
    ensures forall k :: k != kind ==> (HasOpen(EnsureOpen(h, ip, kind, now), k) <==> HasOpen(h, k))
  {
    AppendingOpens(h, BanRow(kind, now, Zero, false));
  }

  lemma AppendingOpens(h: seq<BanRow>, row: BanRow)
    requires SoundHistory(h) && row.rehab.Zero?
    ensures Extends(h, h + [row]) && HasOpen(h + [row], row.kind)
    ensures !HasOpen(h, row.kind) ==> SoundHistory(h + [row])
    ensures forall k :: k != row.kind ==> (HasOpen(h + [row], k) <==> HasOpen(h, k))
  {
    var h' := h + [row];
    assert IsOpen(h'[|h|], row.kind);
    forall k | k != row.kind
      ensures HasOpen(h', k) <==> HasOpen(h, k)
    {
      if HasOpen(h, k) {
        var i :| 0 <= i < |h| && IsOpen(h[i], k);
        assert IsOpen(h'[i], k);
      }
    }
  }

  /** Closing leaves no open row of the kind; every row but the open one of the kind, of which a
      sound history has one at most, stays as it is. */
  lemma ClosingCloses(h: seq<BanRow>, ip: string, kind: Kind, falsePositive: bool, now: int)
    requires SoundHistory(h)
    ensures SoundHistory(CloseLatest(h, ip, kind, falsePositive, now))
    ensures Extends(h, CloseLatest(h, ip, kind, falsePositive, now))
    ensures ip != "" ==> !HasOpen(CloseLatest(h, ip, kind, falsePositive, now), kind)
    ensures var h' := CloseLatest(h, ip, kind, falsePositive, now);
            forall i :: 0 <= i < |h| && !IsOpen(h[i], kind) ==> h'[i] == h[i]
    ensures forall k :: k != kind ==> (HasOpen(CloseLatest(h, ip, kind, falsePositive, now), k) <==> HasOpen(h, k))
  {
    LatestOpenFinds(h, kind);
    var h' := CloseLatest(h, ip, kind, falsePositive, now);
    forall k | k != kind
      ensures HasOpen(h', k) <==> HasOpen(h, k)
    {
      if HasOpen(h, k) {
        var i :| 0 <= i < |h| && IsOpen(h[i], k);
        assert IsOpen(h'[i], k);
      }
    }
  }

  /** At operation boundaries: the block list holds exactly the IPs with an open hard row, and
      a ban window is backed by an open soft row. */
  predicate LedgerInv(r: Record, ip: string) {
    && SoundHistory(r.history)
    && (ip != "" ==> (r.block.Some? <==> HasOpen(r.history, Hard)))
    && (ip == "" ==> r.state.None?)
    && (r.state.Some? && r.state.value.ban.At? ==> HasOpen(r.history, Soft))
  }

  predicate RecordInv(r: Record, ip: string, cfg: Config) {
    LedgerInv(r, ip) && (r.state.Some? ==> StateInv(r.state.value, cfg))
  }

  lemma EventKeeps(r: Record, ip: string, hit: Hit, cfg: Config, now: int)
    requires RecordInv(r, ip, cfg) && ValidHit(hit) && ValidConfig(cfg)
    ensures RecordInv(EventStep(r, ip, hit, cfg, now), ip, cfg)
    ensures Extends(r.history, EventStep(r, ip, hit, cfg, now).history)
  {
    BookingKeepsState(r, hit, cfg, now);
    EnsuringOpens(r.history, ip, if Booked(r, hit, cfg, now).perm then Hard else Soft, now);
  }

  lemma PromotionKeeps(r: Record, ip: string, cfg: Config, now: int)
    requires RecordInv(r, ip, cfg)
    ensures RecordInv(Synced(Promoted(r, cfg, now)), ip, cfg)
    ensures Extends(r.history, Synced(Promoted(r, cfg, now)).history)
  {
    var p := Promoted(r, cfg, now);
    if p.block.Some? {
      AppendingOpens(r.history, BanRow(Hard, p.block.value.created, Zero, false));
    }
  }

  lemma ReleaseKeeps(r: Record, ip: string, falsePositive: bool, cfg: Config, now: int)
    requires RecordInv(r, ip, cfg)
    ensures RecordInv(Released(r, ip, falsePositive, now), ip, cfg)
    ensures Extends(r.history, Released(r, ip, falsePositive, now).history)
  {
    ClosingCloses(r.history, ip, Hard, falsePositive, now);
  }

  lemma ExpiryKeeps(r: Record, ip: string, cfg: Config, now: int)
    requires RecordInv(r, ip, cfg) && r.state.Some? && ValidConfig(cfg)
    ensures RecordInv(AfterExpiry(r, ip, cfg, now), ip, cfg)
    ensures Extends(r.history, AfterExpiry(r, ip, cfg, now).history)
  {
    ReleaseKeeps(r, ip, false, cfg, now);
  }

  lemma ReviewKeeps(r: Record, ip: string, cfg: Config, now: int)
    requires RecordInv(r, ip, cfg) && r.state.Some? && ValidConfig(cfg)
    ensures RecordInv(AfterReview(r, ip, cfg, now), ip, cfg)
    ensures Extends(r.history, AfterReview(r, ip, cfg, now).history)
  {
    ClosingCloses(r.history, ip, Soft, false, now);
    ReviewKeepsState(r.state.value, cfg, now);
  }

  lemma TickKeeps(r: Record, ip: string, cfg: Config, now: int)
    requires RecordInv(r, ip, cfg) && ValidConfig(cfg)
    ensures RecordInv(TickStep(r, ip, cfg, now), ip, cfg)
    ensures Extends(r.history, TickStep(r, ip, cfg, now).history)
  {
    var p := Synced(Promoted(r, cfg, now));
    PromotionKeeps(r, ip, cfg, now);
    if p.state.Some? {
      var q := AfterExpiry(p, ip, cfg, now);
      ExpiryKeeps(p, ip, cfg, now);
      ReviewKeeps(q, ip, cfg, now);
      ExtendsTransitive(p.history, q.history, AfterReview(q, ip, cfg, now).history);
    } else {
      ReleaseKeeps(p, ip, false, cfg, now);
    }
    ExtendsTransitive(r.history, p.history, TickStep(r, ip, cfg, now).history);
  }

  lemma StepKeeps(r: Record, ip: string, op: Op, cfg: Config)
    requires RecordInv(r, ip, cfg) && ValidOp(op) && ValidConfig(cfg)
    ensures RecordInv(Step(r, ip, op, cfg), ip, cfg)
    ensures Extends(r.history, Step(r, ip, op, cfg).history)
  {
    match op
    case Event(hit, now) => EventKeeps(r, ip, hit, cfg, now);
    case Tick(now) => TickKeeps(r, ip, cfg, now);
    case Block(reason, loopback, now) => EnsuringOpens(r.history, ip, Hard, now);
    case Unblock(falsePositive, now) => ReleaseKeeps(r, ip, falsePositive, cfg, now);
    case Allow =>
    case Unallow =>
    case Purge(days, now) =>
  }

  /** The envelope and the ledger hold in every state a run can reach, for every valid
      configuration, and no run reopens or rewrites a closed row. */
  lemma {:induction false} RunKeeps(r: Record, ip: string, ops: seq<Op>, cfg: Config)
    requires RecordInv(r, ip, cfg) && ValidOps(ops) && ValidConfig(cfg)
    ensures RecordInv(Run(r, ip, ops, cfg), ip, cfg)
    ensures Extends(r.history, Run(r, ip, ops, cfg).history)
    decreases |ops|
  {
    if |ops| > 0 {
      StepKeeps(r, ip, ops[0], cfg);
      RunKeeps(Step(r, ip, ops[0], cfg), ip, ops[1..], cfg);
      ExtendsTransitive(r.history, Step(r, ip, ops[0], cfg).history, Run(r, ip, ops, cfg).history);
    }
  }

  /** In particular from an empty store. */
  lemma ReachableRecords(ip: string, ops: seq<Op>, cfg: Config)
    requires ValidOps(ops) && ValidConfig(cfg)
    ensures RecordInv(Run(EMPTY, ip, ops, cfg), ip, cfg)
  {
    RunKeeps(EMPTY, ip, ops, cfg);
  }

  predicate ListMatchesHistory(r: Record) {
    r.block.Some? <==> HasOpen(r.history, Hard)
  }

  /** List and history agree in every reachable record exactly for the non-empty IPs: blocking
      the empty string lists it, but its history is skipped. */
  lemma ListMatchesHistoryIffNamed(ip: string, cfg: Config)
    requires ValidConfig(cfg)
    ensures ip != "" <==> forall ops | ValidOps(ops) :: ListMatchesHistory(Run(EMPTY, ip, ops, cfg))
  {
    forall ops | ValidOps(ops) && ip != ""
      ensures ListMatchesHistory(Run(EMPTY, ip, ops, cfg))
    {
      RunKeeps(EMPTY, ip, ops, cfg);
    }
    if ip == "" {
      var ops := [Block("", false, 0)];
      assert ops[1..] == [];
      assert ValidOps(ops) && !ListMatchesHistory(Run(EMPTY, ip, ops, cfg));
    }
  }

  /** What the labels of tracked IPs mean, in every reachable state. */
  lemma LabelsFollowLevels(ip: string, ops: seq<Op>, cfg: Config)
    requires ValidOps(ops) && ValidConfig(cfg)
    ensures var r := Run(EMPTY, ip, ops, cfg);
            r.state.Some? ==>
              var st := r.state.value;
              && (st.risk == HardBlock ==> st.rank.level >= cfg.hard)
              && (st.risk == SoftBlock ==> cfg.soft <= st.rank.level < cfg.hard)
              && (st.risk == Monitoring ==> st.rank.level < cfg.soft)
              && (st.perm ==> st.risk == HardBlock && st.ban == Zero)
  {
    ReachableRecords(ip, ops, cfg);
  }

  /** A boosted event takes the IP into the watch band at once, but on its own no higher, and
      labels it so unless a block stands or the event sets one. */
  lemma BoostEntersTheWatchBand(r: Record, ip: string, hit: Hit, cfg: Config, now: int)
    requires ip != "" && RecordInv(r, ip, cfg) && ValidConfig(cfg) && ValidHit(hit) && hit.boost
    ensures var st := EventStep(r, ip, hit, cfg, now).state.value;
            && st.rank.level >= WATCH_LEVEL
            && (st.rank.level == WATCH_LEVEL < cfg.hard ==> st.rank.xp < Threshold(WATCH_LEVEL))
            && (!Frozen(StateNow(r, now), now) && !st.perm ==> st.risk == Watch)
  {
    var before := StateNow(r, now);
    DecayKeepsRank(before.rank, now - before.lastSeen, cfg);
    BoostJumps(Decayed(before, now).rank, hit, cfg);
  }

  lemma BoostJumps(r: Rank, hit: Hit, cfg: Config)
    requires RankInv(r, cfg) && ValidHit(hit) && hit.boost
    ensures var s := RaisedRank(r, hit, cfg);
            s.level >= WATCH_LEVEL && (s.level == WATCH_LEVEL < cfg.hard ==> s.xp < Threshold(WATCH_LEVEL))
  {
    SettleKeepsRank(Rank(r.level, r.xp + hit.delta), cfg);
  }

  /** The watch label outlasts every tick until level and XP are gone. */
  lemma WatchEndsCold(st: IPState, cfg: Config, now: int)
    requires StateInv(st, cfg) && ValidConfig(cfg) && st.risk == Watch
    ensures var k := Reviewed(st, cfg, now);
            k.risk == if k.rank == Rank(0, 0) then Monitoring else Watch
  {
    ReviewKeepsState(st, cfg, now);
  }

  // ---------- The dates of the history ----------

  /** The open hard row is dated when the IP was listed. */
  predicate Dated(r: Record) {
    forall i :: 0 <= i < |r.history| && IsOpen(r.history[i], Hard) ==>
      r.block.Some? && r.history[i].bannedAt == r.block.value.created
  }

  lemma OpeningDates(r: Record, block: BlockRow, ip: string, now: int)
    requires ip != "" && SoundHistory(r.history) && Dated(r) && (r.block.Some? <==> HasOpen(r.history, Hard))
    requires block.created == if r.block.Some? then r.block.value.created else now
    ensures Dated(r.(block := Some(block), history := EnsureOpen(r.history, ip, Hard, now)))
  {
  }

  lemma ReleaseDates(r: Record, ip: string, falsePositive: bool, now: int)
    requires ip != "" && SoundHistory(r.history)
    ensures Dated(Released(r, ip, falsePositive, now))
  {
    ClosingCloses(r.history, ip, Hard, falsePositive, now);
  }

  lemma TickDates(r: Record, ip: string, cfg: Config, now: int)
    requires ip != "" && RecordInv(r, ip, cfg) && ValidConfig(cfg) && Dated(r)
    ensures Dated(TickStep(r, ip, cfg, now))
  {
    var p := Synced(Promoted(r, cfg, now));
    PromotionKeeps(r, ip, cfg, now);
    PromotionDates(r, ip, cfg, now);
    ReleaseDates(p, ip, false, now);
    if p.state.Some? {
      ExpiryKeeps(p, ip, cfg, now);
      ReviewDates(AfterExpiry(p, ip, cfg, now), ip, cfg, now);
    }
  }

  lemma PromotionDates(r: Record, ip: string, cfg: Config, now: int)
    requires ip != "" && LedgerInv(r, ip) && Dated(r)
    ensures Dated(Synced(Promoted(r, cfg, now)))
  {
  }

  lemma ReviewDates(r: Record, ip: string, cfg: Config, now: int)
    requires SoundHistory(r.history) && r.state.Some? && Dated(r)
    ensures Dated(AfterReview(r, ip, cfg, now))
  {
    ClosingCloses(r.history, ip, Soft, false, now);
  }

  lemma StepDates(r: Record, ip: string, op: Op, cfg: Config)
    requires ip != "" && RecordInv(r, ip, cfg) && ValidConfig(cfg) && ValidOp(op) && Dated(r)
    ensures Dated(Step(r, ip, op, cfg))
  {
    match op
    case Event(hit, now) => OpeningDates(r, Listed(r.block, "threat_intel_auto:" + hit.top, now).value, ip, now);
    case Tick(now) => TickDates(r, ip, cfg, now);
    case Block(reason, _, now) => OpeningDates(r, Listed(r.block, reason, now).value, ip, now);
    case Unblock(falsePositive, now) => ReleaseDates(r, ip, falsePositive, now);
    case Allow =>
    case Unallow =>
    case Purge(_, _) =>
  }

  /** In every run the history dates a hard ban by its listing. */
  lemma {:induction false} RunDates(r: Record, ip: string, ops: seq<Op>, cfg: Config)
    requires ip != "" && RecordInv(r, ip, cfg) && ValidConfig(cfg) && ValidOps(ops) && Dated(r)
    ensures Dated(Run(r, ip, ops, cfg))
    decreases |ops|
  {
    if |ops| > 0 {
      StepKeeps(r, ip, ops[0], cfg);
      StepDates(r, ip, ops[0], cfg);
      RunDates(Step(r, ip, ops[0], cfg), ip, ops[1..], cfg);
    }
  }

  /** Closing stamps the open row with the time, and marks it as a false positive if it is one or
      was one already. */
  lemma ClosingStamps(h: seq<BanRow>, ip: string, kind: Kind, falsePositive: bool, now: int, i: nat)
    requires ip != "" && SoundHistory(h) && i < |h| && IsOpen(h[i], kind)
    ensures CloseLatest(h, ip, kind, falsePositive, now)[i] ==
            BanRow(kind, h[i].bannedAt, At(now), falsePositive || h[i].falsePositive)
  {
    LatestOpenFinds(h, kind);
    assert HasOpen(h, kind);
  }

  predicate Unmarked(h: seq<BanRow>) {
    forall i :: 0 <= i < |h| ==> !h[i].falsePositive
  }

  predicate MarksNothing(ops: seq<Op>) {
    forall i :: 0 <= i < |ops| && ops[i].Unblock? ==> !ops[i].falsePositive
  }

  lemma StepMarksNothing(r: Record, ip: string, op: Op, cfg: Config)
    requires Unmarked(r.history) && (op.Unblock? ==> !op.falsePositive)
    ensures Unmarked(Step(r, ip, op, cfg).history)
  {
    if op.Tick? {
      var p := Synced(Promoted(r, cfg, op.now));
      assert Unmarked(p.history);
      ClosingMarksNothing(p.history, ip, Hard, op.now);
      if p.state.Some? {
        ClosingMarksNothing(AfterExpiry(p, ip, cfg, op.now).history, ip, Soft, op.now);
      }
    }
  }

  lemma ClosingMarksNothing(h: seq<BanRow>, ip: string, kind: Kind, now: int)
    requires Unmarked(h)
    ensures Unmarked(CloseLatest(h, ip, kind, false, now))
  {
  }

  /** Only an administrator marks a ban as a false positive: expiry, the end of a soft block and
      new bans never do. */
  lemma {:induction false} OnlyAdminsMark(r: Record, ip: string, ops: seq<Op>, cfg: Config)
    requires Unmarked(r.history) && MarksNothing(ops)
    ensures Unmarked(Run(r, ip, ops, cfg).history)
    decreases |ops|
  {
    if |ops| > 0 {
      StepMarksNothing(r, ip, ops[0], cfg);
      OnlyAdminsMark(Step(r, ip, ops[0], cfg), ip, ops[1..], cfg);
    }
  }

  // ---------- The retention purge ----------

  /** The purge drops a state exactly if the IP has neither been seen nor been soft-blocked within
      the retention days, and is not flagged; nothing else changes. */
  lemma PurgesAreExact(r: Record, days: int, now: int)
    requires days >= 1
    ensures var q := PurgeStep(r, days, now);
            && q.block == r.block && q.allowed == r.allowed && q.history == r.history
            && (r.state.Some? && Frozen(r.state.value, now) ==> q == r)
            && (r.state.Some? ==>
                  var st := r.state.value;
                  if !st.perm && now > st.lastSeen + days * DAY && (st.ban.At? ==> now > st.ban.t + days * DAY)
                  then q.state.None? else q == r)
            && (r.state.None? ==> q == r)
  {
  }

  // ---------- Statement by statement ----------

  /** The single SQL statements that touch the block list or the history of an IP. Two service
      calls that overlap interleave at this grain. */
  datatype Statement =
    | InsertOpen(kind: Kind, now: int)
    | SyncOpen
    | CloseOne(kind: Kind, falsePositive: bool, now: int)
    | List(reason: string, now: int)
    | Unlist

  function Execute(r: Record, ip: string, s: Statement): Record {
    match s
    case InsertOpen(kind, now) => r.(history := EnsureOpen(r.history, ip, kind, now))
    case SyncOpen => Synced(r)
    case CloseOne(kind, falsePositive, now) => r.(history := CloseLatest(r.history, ip, kind, falsePositive, now))
    case List(reason, now) => r.(block := Listed(r.block, reason, now))
    case Unlist => r.(block := None)
  }

  function ExecuteAll(r: Record, ip: string, ss: seq<Statement>): Record
    decreases |ss|
  {
    if |ss| == 0 then r else ExecuteAll(Execute(r, ip, ss[0]), ip, ss[1..])
  }

  /** However calls interleave, an IP has at most one open row of each kind and closed rows
      stay as they are. */
  lemma {:induction false} InterleavingsKeepHistorySound(r: Record, ip: string, ss: seq<Statement>)
    requires SoundHistory(r.history)
    ensures SoundHistory(ExecuteAll(r, ip, ss).history)
    ensures Extends(r.history, ExecuteAll(r, ip, ss).history)
    decreases |ss|
  {
    if |ss| > 0 {
      var next := Execute(r, ip, ss[0]);
      assert SoundHistory(next.history) && Extends(r.history, next.history) by {
        match ss[0]
        case InsertOpen(kind, now) => EnsuringOpens(r.history, ip, kind, now);
        case SyncOpen =>
          if r.block.Some? {
            AppendingOpens(r.history, BanRow(Hard, r.block.value.created, Zero, false));
          }
        case CloseOne(kind, falsePositive, now) => ClosingCloses(r.history, ip, kind, falsePositive, now);
        case List(reason, now) =>
        case Unlist =>
      }
      InterleavingsKeepHistorySound(next, ip, ss[1..]);
      ExtendsTransitive(r.history, next.history, ExecuteAll(r, ip, ss).history);
    }
  }
}
