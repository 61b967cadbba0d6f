/** Everything the threat-intel store keeps about one IP, and what each service call makes of it.

    No call reads or writes the rows of an IP other than the one it is about, apart from the
    clock tick and the retention purge, which do the same to every IP. So these functions,
    one record at a time, specify the whole of `ThreatService`. Times are integers in
    nanoseconds; each call reads the clock once. */
module ThreatRecord {
  import opened Levels
  import opened Options
  import opened Time

  /** A point in time, or Go's zero time. */
  datatype Instant = Zero | At(t: int)

  predicate After(i: Instant, now: int) {
    i.At? && i.t > now
  }

  const WATCH_LEVEL := 3

  datatype Config = Config(soft: int, hard: int, softMinutes: int, retentionDays: int)

  predicate ValidConfig(cfg: Config) {
    1 <= cfg.soft < cfg.hard && 1 <= cfg.softMinutes && 1 <= cfg.retentionDays
  }

  function Within(setting: Option<int>, lo: int, hi: int, default: int): int {
    if setting.Some? && lo <= setting.value <= hi then setting.value else default
  }

  /** The level settings as loaded: out-of-range values fall back to the defaults, and the
      levels are then pushed apart. */
  function LoadConfig(monitor: Option<int>, soft: Option<int>, hard: Option<int>,
                      softMinutes: Option<int>, blockedDays: int): (cfg: Config)
    ensures ValidConfig(cfg) && Within(monitor, 0, 32, 2) < cfg.soft && cfg.hard <= 64
  {
    var m := Within(monitor, 0, 32, 2);
    var s := Within(soft, 1, 32, 3);
    var s' := if s <= m then m + 1 else s;
    var h := Within(hard, 2, 64, 6);
    var h' := if h <= s' then s' + 1 else h;
    Config(s', h', Within(softMinutes, 1, 1440, 15), if blockedDays <= 0 then 60 else blockedDays)
  }

  /** Settings in range are kept; only the levels move up where they collide. */
  lemma SettingsAreKept(monitor: int, soft: int, hard: int, minutes: int, days: int)
    requires 0 <= monitor <= 32 && 1 <= soft <= 32 && 2 <= hard <= 64 && 1 <= minutes <= 1440 && days >= 1
    ensures var cfg := LoadConfig(Some(monitor), Some(soft), Some(hard), Some(minutes), days);
            && cfg.softMinutes == minutes && cfg.retentionDays == days
            && (monitor < soft < hard ==> cfg.soft == soft && cfg.hard == hard)
            && cfg.soft in {soft, monitor + 1} && cfg.hard in {hard, cfg.soft + 1}
            && soft <= cfg.soft && hard <= cfg.hard
  {
  }

  lemma DefaultSettings()
    ensures LoadConfig(None, None, None, None, 0) == Config(3, 6, 15, 60)
  {
  }

  // ---------- The tracked state of an IP ----------

  datatype Risk = Monitoring | Watch | SoftBlock | HardBlock

  datatype IPState = IPState(rank: Rank, risk: Risk, ban: Instant, perm: bool, lastSeen: int)

  function Fresh(now: int): IPState {
    IPState(Rank(0, 0), Monitoring, Zero, false, now)
  }

  /** While a hard block or an unexpired soft block stands, nothing decays. */
  predicate Frozen(st: IPState, now: int) {
    st.perm || After(st.ban, now)
  }

  function DecaySteps(idle: int): (steps: nat) {
    if idle < HALF_HOUR then 0 else idle / HALF_HOUR
  }

  function LevelsLost(idle: int): (down: nat) {
    if idle < REHAB then 0 else idle / REHAB
  }

  function DecayedRank(r: Rank, idle: int): Rank {
    var down := LevelsLost(idle);
    Rank(if r.level <= 0 then r.level else if down > r.level then 0 else r.level - down,
         Decay(r.xp, DecaySteps(idle)))
  }

  function Decayed(st: IPState, now: int): IPState {
    if Frozen(st, now) then st else st.(rank := DecayedRank(st.rank, now - st.lastSeen))
  }

  function RiskOf(level: int, cfg: Config): Risk {
    if level >= cfg.hard then HardBlock else if level >= cfg.soft then SoftBlock else Monitoring
  }

  // ---------- Ban history ----------

  datatype Kind = Soft | Hard

  datatype BanRow = BanRow(kind: Kind, bannedAt: int, rehab: Instant, falsePositive: bool)

  predicate IsOpen(row: BanRow, kind: Kind) {
    row.kind == kind && row.rehab.Zero?
  }

  predicate HasOpen(h: seq<BanRow>, kind: Kind) {
    exists i :: 0 <= i < |h| && IsOpen(h[i], kind)
  }

  /** Insert an open row unless there is one already. */
  function EnsureOpen(h: seq<BanRow>, ip: string, kind: Kind, now: int): seq<BanRow> {
    if ip == "" || HasOpen(h, kind) then h else h + [BanRow(kind, now, Zero, false)]
  }

  /** The open row of this kind that was banned last, or -1. */
  function LatestOpen(h: seq<BanRow>, kind: Kind): (i: int)
    ensures -1 <= i < |h|
  {
    if |h| == 0 then -1 else
      var last := |h| - 1;
      var best := LatestOpen(h[..last], kind);
      if IsOpen(h[last], kind) && (best < 0 || h[best].bannedAt <= h[last].bannedAt) then last else best
  }

  function CloseLatest(h: seq<BanRow>, ip: string, kind: Kind, falsePositive: bool, now: int): seq<BanRow> {
    var i := LatestOpen(h, kind);
    if ip == "" || i < 0 then h
    else h[i := h[i].(rehab := At(now), falsePositive := falsePositive || h[i].falsePositive)]
  }

  // ---------- The record and its operations ----------

  datatype BlockRow = BlockRow(reason: string, created: int)

  datatype Record = Record(state: Option<IPState>, block: Option<BlockRow>, allowed: bool, history: seq<BanRow>)

  const EMPTY := Record(None, None, false, [])

  /** An upsert into the block list keeps the creation time of a row that exists. */
  function Listed(block: Option<BlockRow>, reason: string, now: int): Option<BlockRow> {
    if block.Some? then Some(block.value.(reason := reason)) else Some(BlockRow(reason, now))
  }

  /** A threat event after its signals are scored: XP to add, whether a feed or signature
      signal was among them, and the top signal. */
  datatype Hit = Hit(auto: bool, delta: int, boost: bool, top: string)

  predicate ValidHit(hit: Hit) {
    hit.delta >= 1
  }

  /** Known bad sources enter the watch band directly, but no higher on the same event. */
  function WatchJump(r: Rank, boost: bool): Rank {
    if boost && r.level < WATCH_LEVEL then
      var most := Threshold(WATCH_LEVEL) - 1;
      Rank(WATCH_LEVEL, if r.xp > most then most else r.xp)
    else r
  }

  function RaisedRank(r: Rank, hit: Hit, cfg: Config): Rank {
    WatchJump(Settle(Rank(r.level, r.xp + hit.delta), cfg.hard), hit.boost)
  }

  function Raised(st: IPState, hit: Hit, cfg: Config, now: int): IPState {
    var rank := RaisedRank(st.rank, hit, cfg);
    if hit.auto && rank.level >= cfg.hard then
      IPState(rank, HardBlock, Zero, true, now)
    else
      var risk := if hit.boost && !Frozen(st, now) then Watch else RiskOf(rank.level, cfg);
      IPState(rank, risk, st.ban, st.perm, now)
  }

  /** What is stored, or what a new IP starts from. */
  function StateNow(r: Record, now: int): IPState {
    if r.state.Some? then r.state.value else Fresh(now)
  }

  predicate PermBlocked(r: Record) {
    r.state.Some? && r.state.value.perm
  }

  /** The state after the event's XP is booked, before the decision on a soft block. */
  function Booked(r: Record, hit: Hit, cfg: Config, now: int): IPState {
    Raised(Decayed(StateNow(r, now), now), hit, cfg, now)
  }

  predicate SetsSoftBlock(st: IPState, hit: Hit, cfg: Config, now: int) {
    !Frozen(st, now) && hit.auto && !hit.boost && st.rank.level >= cfg.soft
  }

  function EventStep(r: Record, ip: string, hit: Hit, cfg: Config, now: int): Record {
    var st := Booked(r, hit, cfg, now);
    if ip == "" then r
    else if st.perm then
      r.(state := Some(st),
         block := Listed(r.block, "threat_intel_auto:" + hit.top, now),
         history := EnsureOpen(r.history, ip, Hard, now))
    else if SetsSoftBlock(st, hit, cfg, now) then
      r.(state := Some(st.(ban := At(now + cfg.softMinutes * MINUTE))),
         history := EnsureOpen(r.history, ip, Soft, now))
    else r.(state := Some(st))
  }

  datatype Decision = MonitorObserve | WatchBoost | SoftBlockSet | SoftBlockActive | HardBlockPermanent

  datatype Verdict = Verdict(blocked: bool, hard: bool, until: Instant, decision: Decision)

  /** What the event call answers. */
  function EventVerdict(r: Record, ip: string, hit: Hit, cfg: Config, now: int): Verdict {
    var st := Booked(r, hit, cfg, now);
    if ip == "" then Verdict(false, false, Zero, MonitorObserve)
    else if st.perm then Verdict(true, true, if After(st.ban, now) then st.ban else Zero, HardBlockPermanent)
    else if After(st.ban, now) then Verdict(true, false, st.ban, SoftBlockActive)
    else if SetsSoftBlock(st, hit, cfg, now) then
      Verdict(true, false, At(now + cfg.softMinutes * MINUTE), SoftBlockSet)
    else Verdict(false, false, Zero, if hit.auto && hit.boost then WatchBoost else MonitorObserve)
  }

  datatype Source = NotBlocked | BlockedIPs | IntelHardBlock | IntelSoftBlock

  datatype Answer = Answer(blocked: bool, hard: bool, until: Instant, source: Source)

  /** The lookup of the SSH bastion, before it looks at a key: block list, permanent flag, soft
      block. The HTTP edge does not make it, see `EdgeGate`. */
  function Lookup(r: Record, ip: string, now: int): Answer {
    if ip == "" then Answer(false, false, Zero, NotBlocked)
    else if r.block.Some? then Answer(true, true, Zero, BlockedIPs)
    else if r.state.None? then Answer(false, false, Zero, NotBlocked)
    else if r.state.value.perm then Answer(true, true, Zero, IntelHardBlock)
    else if After(r.state.value.ban, now) then Answer(true, false, r.state.value.ban, IntelSoftBlock)
    else Answer(false, false, Zero, NotBlocked)
  }

  /** Whether an IP is on the block list: all that the HTTP edge asks. */
  predicate EdgeBlocked(r: Record, ip: string) {
    ip != "" && r.block.Some?
  }

  // ---------- The reconcile tick ----------

  predicate Promotes(r: Record, cfg: Config) {
    r.state.Some? && r.state.value.rank.level >= cfg.hard && !r.allowed
  }

  /** The safety net: a tracked IP at the hard level is blocked for good, whatever the mode. */
  function Promoted(r: Record, cfg: Config, now: int): Record {
    if !Promotes(r, cfg) then r
    else r.(state := Some(r.state.value.(perm := true, ban := Zero, risk := HardBlock)),
            block := if r.block.Some? then r.block else Some(BlockRow("threat_intel_auto:level_hard", now)))
  }

  /** Every block-list row gets an open hard row, dated at its creation. */
  function Synced(r: Record): Record {
    if r.block.Some? && !HasOpen(r.history, Hard) then
      r.(history := r.history + [BanRow(Hard, r.block.value.created, Zero, false)])
    else r
  }

  predicate Expired(r: Record, ip: string, cfg: Config, now: int) {
    ip != "" && r.block.Some? && r.block.value.created < now - cfg.retentionDays * DAY
  }

  function Released(r: Record, ip: string, falsePositive: bool, now: int): Record {
    r.(block := None, history := CloseLatest(r.history, ip, Hard, falsePositive, now))
  }

  /** Retention expiry puts a hard-blocked IP back into the watch band. */
  function Paroled(now: int): IPState {
    IPState(Rank(WATCH_LEVEL, Threshold(WATCH_LEVEL)), Watch, Zero, false, now)
  }

  predicate BanOver(st: IPState, now: int) {
    st.ban.At? && st.ban.t <= now
  }

  function Reviewed(st: IPState, cfg: Config, now: int): IPState {
    var d := Decayed(st, now);
    var c := if BanOver(d, now) then d.(ban := Zero) else d;
    var risk := if c.risk != Watch then RiskOf(c.rank.level, cfg)
                else if c.rank.level <= 0 && c.rank.xp <= 0 then Monitoring else Watch;
    c.(risk := risk)
  }

  predicate Cold(st: IPState, now: int) {
    && st.rank.xp <= 0 && st.rank.level <= 0 && now - st.lastSeen >= REHAB
    && !st.perm && st.ban.Zero?
  }

  function AfterExpiry(r: Record, ip: string, cfg: Config, now: int): (q: Record)
    ensures r.state.Some? ==> q.state.Some?
  {
    if r.state.Some? && r.state.value.perm && Expired(r, ip, cfg, now) then
      Released(r, ip, false, now).(state := Some(Paroled(now)))
    else r
  }

  /** Decay, end of a soft ban, risk, and removal of an IP that has fully cooled down. */
  function AfterReview(r: Record, ip: string, cfg: Config, now: int): Record
    requires r.state.Some?
  {
    var k := Reviewed(r.state.value, cfg, now);
    var h := if BanOver(r.state.value, now) then CloseLatest(r.history, ip, Soft, false, now) else r.history;
    if !Cold(k, now) then r.(state := Some(k), history := h)
    else if r.allowed then r.(state := Some(k.(rank := Rank(0, 0), risk := Monitoring)), history := h)
    else r.(state := None, history := h)
  }

  function TickStep(r: Record, ip: string, cfg: Config, now: int): Record {
    var p := Synced(Promoted(r, cfg, now));
    if p.state.Some? then AfterReview(AfterExpiry(p, ip, cfg, now), ip, cfg, now)
    else if Expired(p, ip, cfg, now) && !p.allowed then Released(p, ip, false, now)
    else p
  }

  // ---------- Administration and retention ----------

  function BlockStep(r: Record, ip: string, reason: string, loopback: bool, now: int): Record {
    if loopback then r
    else r.(block := Listed(r.block, reason, now), history := EnsureOpen(r.history, ip, Hard, now))
  }

  predicate Purged(r: Record, days: int, now: int) {
    var cutoff := now - days * DAY;
    && r.state.Some? && r.state.value.lastSeen < cutoff && !r.state.value.perm
    && (r.state.value.ban.Zero? || r.state.value.ban.t < cutoff)
  }

  function PurgeStep(r: Record, days: int, now: int): Record {
    if Purged(r, days, now) then r.(state := None) else r
  }

  // ---------- Runs ----------

  /** A service call, as far as it concerns one IP. */
  datatype Op =
    | Event(hit: Hit, now: int)
    | Tick(now: int)
    | Block(reason: string, loopback: bool, now: int)
    | Unblock(falsePositive: bool, now: int)
    | Allow
    | Unallow
    | Purge(days: int, now: int)

  predicate ValidOp(op: Op) {
    && (op.Event? ==> ValidHit(op.hit))
    && (op.Purge? ==> op.days >= 1)
  }

  function Step(r: Record, ip: string, op: Op, cfg: Config): Record {
    match op
    case Event(hit, now) => EventStep(r, ip, hit, cfg, now)
    case Tick(now) => TickStep(r, ip, cfg, now)
    case Block(reason, loopback, now) => BlockStep(r, ip, reason, loopback, now)
    case Unblock(falsePositive, now) => Released(r, ip, falsePositive, now)
    case Allow => if ip == "" then r else r.(allowed := true)
    case Unallow => r.(allowed := false)
    case Purge(days, now) => PurgeStep(r, days, now)
  }

  function Run(r: Record, ip: string, ops: seq<Op>, cfg: Config): Record
    decreases |ops|
  {
    if |ops| == 0 then r else Run(Step(r, ip, ops[0], cfg), ip, ops[1..], cfg)
  }

  predicate ValidOps(ops: seq<Op>) {
    forall i :: 0 <= i < |ops| ==> ValidOp(ops[i])
  }
}
