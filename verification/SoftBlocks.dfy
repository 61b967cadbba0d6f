/** Soft blocks: their windows, and the history rows that go with them. */
module SoftBlocks {
  import opened Escalation
  import opened HardBlocks
  import opened ThreatInvariants
  import opened ThreatRecord
  import opened Time

  // ---------- The window ----------

  predicate SoftBlocked(r: Record, until: int) {
    r.state.Some? && !r.state.value.perm && r.state.value.ban == At(until)
  }

  /** While a soft block runs, nothing shortens or extends its window: not the events it blocks,
      no tick, no purge. It can only give way to a hard block, or to the expiry of one. */
  lemma SoftWindowsStand(r: Record, ip: string, op: Op, cfg: Config, until: int, clock: int)
    requires RecordInv(r, ip, cfg) && ValidConfig(cfg) && ValidOp(op)
    requires r.state.Some? && !r.state.value.perm && r.state.value.ban == At(until) && Clock(op, clock) < until
    ensures var q := Step(r, ip, op, cfg);
            q.state.Some? && (q.state.value.perm || Lifts(r, ip, op, cfg) || q.state.value.ban == At(until))
  {
    if op.Event? {
      EventKeepsWindow(r, ip, op.hit, cfg, op.now, until);
    } else if op.Tick? {
      TickKeepsWindow(r, ip, cfg, op.now, until);
    }
  }

  lemma EventKeepsWindow(r: Record, ip: string, hit: Hit, cfg: Config, now: int, until: int)
    requires SoftBlocked(r, until) && now < until
    ensures var q := EventStep(r, ip, hit, cfg, now); PermBlocked(q) || SoftBlocked(q, until)
  {
    var st := Booked(r, hit, cfg, now);
    assert st.perm || (st.ban == At(until) && !SetsSoftBlock(st, hit, cfg, now));
  }

  lemma TickKeepsWindow(r: Record, ip: string, cfg: Config, now: int, until: int)
    requires RecordInv(r, ip, cfg) && ValidConfig(cfg) && SoftBlocked(r, until) && now < until
    ensures var q := TickStep(r, ip, cfg, now);
            PermBlocked(q) || Lifts(r, ip, Tick(now), cfg) || SoftBlocked(q, until)
  {
    var p := Synced(Promoted(r, cfg, now));
    if !Lifts(r, ip, Tick(now), cfg) {
      assert AfterExpiry(p, ip, cfg, now) == p;
    }
  }

  /** The first tick past the window ends the ban. It closes the row as well, unless it turns the
      soft block into a hard one. */
  lemma SoftBlocksEnd(r: Record, ip: string, cfg: Config, now: int)
    requires RecordInv(r, ip, cfg) && ValidConfig(cfg) && r.state.Some? && !r.state.value.perm
    requires BanOver(r.state.value, now)
    ensures var q := TickStep(r, ip, cfg, now);
            && (HasOpen(q.history, Soft) <==> Promotes(r, cfg))
            && (q.state.Some? ==> q.state.value.ban.Zero?)
  {
    var p := Synced(Promoted(r, cfg, now));
    PromotionKeeps(r, ip, cfg, now);
    if Promotes(r, cfg) {
      PromotionOrphansWindow(r, ip, cfg, now);
      ReleaseOrphans(p, ip, now);
      ReviewOrphans(AfterExpiry(p, ip, cfg, now), ip, cfg, now);
    } else {
      assert AfterExpiry(p, ip, cfg, now) == p && p.state == r.state;
      ClosingCloses(p.history, ip, Soft, false, now);
    }
  }

  lemma PromotionOrphansWindow(r: Record, ip: string, cfg: Config, now: int)
    requires RecordInv(r, ip, cfg) && Promotes(r, cfg) && r.state.value.ban.At?
    ensures Orphaned(Synced(Promoted(r, cfg, now)))
  {
    var p := Promoted(r, cfg, now);
    AppendingOpens(r.history, BanRow(Hard, p.block.value.created, Zero, false));
  }

  /** An event that sets a soft block. */
  predicate SetsSoft(r: Record, ip: string, op: Op, cfg: Config) {
    op.Event? && EventVerdict(r, ip, op.hit, cfg, op.now).decision == SoftBlockSet
  }

  function WindowEnd(op: Op, cfg: Config): int
    requires op.Event?
  {
    op.now + cfg.softMinutes * MINUTE
  }

  /** Setting a soft block opens the configured window, and a row unless one is open: then that
      one stands for the new block as well. */
  lemma SettingOpens(r: Record, ip: string, op: Op, cfg: Config)
    requires RecordInv(r, ip, cfg) && ValidConfig(cfg) && ValidOp(op) && SetsSoft(r, ip, op, cfg)
    ensures var q := Step(r, ip, op, cfg);
            && ip != "" && SoftBlocked(q, WindowEnd(op, cfg)) && HasOpen(q.history, Soft)
            && |q.history| == |r.history| + (if HasOpen(r.history, Soft) then 0 else 1)
  {
    BookingKeepsState(r, op.hit, cfg, op.now);
    EnsuringOpens(r.history, ip, Soft, op.now);
  }

  /** The calls fall into the window, and none of them ends it by a hard block. */
  predicate Undisturbed(r: Record, ip: string, ops: seq<Op>, cfg: Config, until: int, clock: int)
    decreases |ops|
  {
    |ops| > 0 ==>
      && Clock(ops[0], clock) < until
      && !Lifts(r, ip, ops[0], cfg) && !PermBlocked(Step(r, ip, ops[0], cfg))
      && Undisturbed(Step(r, ip, ops[0], cfg), ip, ops[1..], cfg, until, Clock(ops[0], clock))
  }

  lemma {:induction false} WindowsStandOverRuns(r: Record, ip: string, ops: seq<Op>, cfg: Config, until: int,
                                                clock: int)
    requires RecordInv(r, ip, cfg) && ValidConfig(cfg) && ValidOps(ops)
    requires SoftBlocked(r, until) && Undisturbed(r, ip, ops, cfg, until, clock)
    ensures RecordInv(Run(r, ip, ops, cfg), ip, cfg) && SoftBlocked(Run(r, ip, ops, cfg), until)
    decreases |ops|
  {
    if |ops| > 0 {
      StepKeeps(r, ip, ops[0], cfg);
      SoftWindowsStand(r, ip, ops[0], cfg, until, clock);
      WindowsStandOverRuns(Step(r, ip, ops[0], cfg), ip, ops[1..], cfg, until, Clock(ops[0], clock));
    }
  }

  /** A soft block that is set and runs out closes the open soft row, however old that row is:
      after any run inside the window, the first tick past it leaves none open, unless it promotes
      the IP to a hard block. */
  lemma SoftBlocksRunOut(r: Record, ip: string, op: Op, ops: seq<Op>, cfg: Config, now: int)
    requires RecordInv(r, ip, cfg) && ValidConfig(cfg) && ValidOp(op) && ValidOps(ops) && SetsSoft(r, ip, op, cfg)
    requires Undisturbed(Step(r, ip, op, cfg), ip, ops, cfg, WindowEnd(op, cfg), op.now)
    requires now >= WindowEnd(op, cfg)
    ensures var last := Run(Step(r, ip, op, cfg), ip, ops, cfg);
            HasOpen(TickStep(last, ip, cfg, now).history, Soft) <==> Promotes(last, cfg)
  {
    var until := WindowEnd(op, cfg);
    SettingOpens(r, ip, op, cfg);
    StepKeeps(r, ip, op, cfg);
    WindowsStandOverRuns(Step(r, ip, op, cfg), ip, ops, cfg, until, op.now);
    SoftBlocksEnd(Run(Step(r, ip, op, cfg), ip, ops, cfg), ip, cfg, now);
  }

  // ---------- Rows without a window ----------

  /** An open soft row that no ban window stands behind. */
  predicate Orphaned(r: Record) {
    HasOpen(r.history, Soft) && (r.state.Some? ==> r.state.value.ban.Zero?)
  }

  /** Escalating to a hard block clears the ban window but not its row. */
  lemma EscalationOrphansTheSoftRow(r: Record, ip: string, hit: Hit, cfg: Config, now: int)
    requires ip != "" && RecordInv(r, ip, cfg) && ValidConfig(cfg) && ValidHit(hit)
    requires HasOpen(r.history, Soft) && EventVerdict(r, ip, hit, cfg, now).hard
    ensures Orphaned(EventStep(r, ip, hit, cfg, now))
  {
    BookingKeepsState(r, hit, cfg, now);
    EnsuringOpens(r.history, ip, Hard, now);
  }

  lemma OrphansSurviveTicks(r: Record, ip: string, cfg: Config, now: int)
    requires RecordInv(r, ip, cfg) && ValidConfig(cfg) && Orphaned(r)
    ensures Orphaned(TickStep(r, ip, cfg, now))
  {
    var p := Synced(Promoted(r, cfg, now));
    PromotionKeeps(r, ip, cfg, now);
    PromotionOrphans(r, cfg, now);
    ReleaseOrphans(p, ip, now);
    if p.state.Some? {
      assert Orphaned(AfterExpiry(p, ip, cfg, now));
      ReviewOrphans(AfterExpiry(p, ip, cfg, now), ip, cfg, now);
    }
  }

  lemma PromotionOrphans(r: Record, cfg: Config, now: int)
    requires SoundHistory(r.history) && Orphaned(r)
    ensures Orphaned(Synced(Promoted(r, cfg, now)))
  {
    var p := Promoted(r, cfg, now);
    if p.block.Some? {
      AppendingOpens(r.history, BanRow(Hard, p.block.value.created, Zero, false));
    }
  }

  lemma ReleaseOrphans(r: Record, ip: string, now: int)
    requires SoundHistory(r.history) && Orphaned(r)
    ensures Orphaned(Released(r, ip, false, now))
  {
    ClosingCloses(r.history, ip, Hard, false, now);
  }

  lemma ReviewOrphans(r: Record, ip: string, cfg: Config, now: int)
    requires Orphaned(r) && r.state.Some?
    ensures Orphaned(AfterReview(r, ip, cfg, now))
  {
  }

  lemma EventOrphans(r: Record, ip: string, hit: Hit, cfg: Config, now: int)
    requires RecordInv(r, ip, cfg) && ValidConfig(cfg) && ValidHit(hit) && Orphaned(r)
    ensures Orphaned(EventStep(r, ip, hit, cfg, now)) <==> EventVerdict(r, ip, hit, cfg, now).decision != SoftBlockSet
  {
    EnsuringOpens(r.history, ip, Hard, now);
  }

  /** What ends the orphanage of a row is exactly an event that sets a new soft block. */
  lemma OnlyANewSoftBlockAdopts(r: Record, ip: string, op: Op, cfg: Config)
    requires RecordInv(r, ip, cfg) && ValidConfig(cfg) && ValidOp(op) && Orphaned(r)
    ensures Orphaned(Step(r, ip, op, cfg)) <==> !SetsSoft(r, ip, op, cfg)
  {
    match op
    case Event(hit, now) => EventOrphans(r, ip, hit, cfg, now);
    case Tick(now) => OrphansSurviveTicks(r, ip, cfg, now);
    case Block(_, _, now) => EnsuringOpens(r.history, ip, Hard, now);
    case Unblock(falsePositive, now) => ClosingCloses(r.history, ip, Hard, falsePositive, now);
    case Allow =>
    case Unallow =>
    case Purge(_, _) =>
  }

  predicate NeverSetsSoft(r: Record, ip: string, ops: seq<Op>, cfg: Config)
    decreases |ops|
  {
    |ops| > 0 ==> !SetsSoft(r, ip, ops[0], cfg) && NeverSetsSoft(Step(r, ip, ops[0], cfg), ip, ops[1..], cfg)
  }

  /** So it stays open through every run in which no event sets a soft block: ticks, expiry and
      unblocks do not close it. */
  lemma {:induction false} OrphansStayOpen(r: Record, ip: string, ops: seq<Op>, cfg: Config)
    requires RecordInv(r, ip, cfg) && ValidConfig(cfg) && ValidOps(ops) && Orphaned(r)
    requires NeverSetsSoft(r, ip, ops, cfg)
    ensures Orphaned(Run(r, ip, ops, cfg))
    decreases |ops|
  {
    if |ops| > 0 {
      StepKeeps(r, ip, ops[0], cfg);
      OnlyANewSoftBlockAdopts(r, ip, ops[0], cfg);
      OrphansStayOpen(Step(r, ip, ops[0], cfg), ip, ops[1..], cfg);
    }
  }
}
