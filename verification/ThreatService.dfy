/** The threat-intel service over its tables, and what each call does to the record of every
    IP. Calls are atomic; ignored store errors are not modelled. */
module ThreatService {
  import opened BurstWindow
  import opened Firewall
  import opened Levels
  import opened Options
  import opened Scoring
  import opened ThreatInvariants
  import opened ThreatRecord
  import opened ThreatSignals
  import opened Time

  datatype Family = PublicV4 | PublicV6 | NotEnforced

  function Lower(c: char): char {
    if 'A' <= c <= 'Z' then c - 'A' + 'a' else c
  }

  function Lowered(s: string): string {
    if |s| == 0 then "" else [Lower(s[0])] + Lowered(s[1..])
  }

  lemma {:induction false} LoweredAt(s: string)
    ensures |Lowered(s)| == |s| && forall i :: 0 <= i < |s| ==> Lowered(s)[i] == Lower(s[i])
  {
    if |s| > 0 {
      LoweredAt(s[1..]);
    }
  }

  predicate HardAt(reason: string, i: int) {
    && 0 <= i <= |reason| - 4
    && Lower(reason[i]) == 'h' && Lower(reason[i + 1]) == 'a'
    && Lower(reason[i + 2]) == 'r' && Lower(reason[i + 3]) == 'd'
  }

  /** The reason of a block contains "hard" in any case. */
  predicate MentionsHard(reason: string) {
    exists i :: 0 <= i <= |reason| - 4 && HardAt(reason, i)
  }

  lemma HardAtIff(reason: string, i: nat)
    requires i <= |reason| - 4
    ensures |Lowered(reason)| == |reason|
    ensures HardAt(reason, i) <==> Lowered(reason)[i..i + 4] == "hard"
  {
    LoweredAt(reason);
    var s := Lowered(reason);
    var part := s[i..i + 4];
    assert part[0] == s[i] && part[1] == s[i + 1] && part[2] == s[i + 2] && part[3] == s[i + 3];
  }

  /** That is, the reason in lower case has "hard" somewhere in it. */
  lemma MentionsHardIff(reason: string)
    ensures MentionsHard(reason) <==> exists a, b :: Lowered(reason) == a + "hard" + b
  {
    var s := Lowered(reason);
    LoweredAt(reason);
    if MentionsHard(reason) {
      var i :| 0 <= i <= |reason| - 4 && HardAt(reason, i);
      HardAtIff(reason, i);
      assert s == s[..i] + "hard" + s[i + 4..];
    }
    if exists a, b :: s == a + "hard" + b {
      var a, b :| s == a + "hard" + b;
      assert s[|a|..|a| + 4] == "hard";
      HardAtIff(reason, |a|);
    }
  }

  lemma HardReasons()
    ensures MentionsHard("threat_intel_auto:level_hard") && MentionsHard("Hard") && MentionsHard("HARD")
    ensures !MentionsHard("manual")
  {
    assert HardAt("threat_intel_auto:level_hard", 24);
    assert HardAt("Hard", 0) && HardAt("HARD", 0);
    assert !HardAt("manual", 0) && !HardAt("manual", 1) && !HardAt("manual", 2);
  }

  predicate HardState(state: Option<IPState>, cfg: Config) {
    state.Some? && (state.value.perm || state.value.risk == HardBlock || state.value.rank.level >= cfg.hard)
  }

  /** Whether the host firewall drops an IP, by its record. */
  predicate Enforced(r: Record, hardOnly: bool, cfg: Config) {
    r.block.Some? && (hardOnly ==> HardState(r.state, cfg) || MentionsHard(r.block.value.reason))
  }

  class Service {
    var states: map<string, IPState>
    var blocked: map<string, BlockRow>
    var allowlist: set<string>
    var history: map<string, seq<BanRow>>
    const cfg: Config
    const osFirewall: bool
    const hardOnly: bool
    const family: string -> Family
    const nft: NftEnforcer
    const bursts: BurstWindows

    function HistoryOf(ip: string): seq<BanRow>
      reads this`history
    {
      if ip in history then history[ip] else []
    }

    function Rec(ip: string): Record
      reads this`states, this`blocked, this`allowlist, this`history
    {
      Record(Find(states, ip), Find(blocked, ip), ip in allowlist, HistoryOf(ip))
    }

    /** The run invariants hold of every record. */
    ghost predicate Sound()
      reads this`states, this`blocked, this`allowlist, this`history
    {
      forall ip :: RecordInv(Rec(ip), ip, cfg)
    }

    ghost predicate Valid()
      reads this, bursts
    {
      ValidConfig(cfg) && Sound() && bursts.Valid()
    }

    constructor (cfg: Config, osFirewall: bool, hardOnly: bool, family: string -> Family,
                 nft: NftEnforcer, bursts: BurstWindows)
      requires ValidConfig(cfg) && bursts.Valid()
      ensures Valid() && forall ip :: Rec(ip) == EMPTY
    {
      states, blocked, allowlist, history := map[], map[], {}, map[];
      this.cfg, this.osFirewall, this.hardOnly, this.family := cfg, osFirewall, hardOnly, family;
      this.nft, this.bursts := nft, bursts;
    }

    // ---------- Lookup ----------

    method IsSourceBlocked(ip: string, now: int) returns (a: Answer)
      ensures a == Lookup(Rec(ip), ip, now)
    {
      if ip == "" {
        return Answer(false, false, Zero, NotBlocked);
      }
      if ip in blocked {
        return Answer(true, true, Zero, BlockedIPs);
      }
      if ip !in states {
        return Answer(false, false, Zero, NotBlocked);
      }
      var st := states[ip];
      if st.perm {
        return Answer(true, true, Zero, IntelHardBlock);
      }
      if After(st.ban, now) {
        return Answer(true, false, st.ban, IntelSoftBlock);
      }
      return Answer(false, false, Zero, NotBlocked);
    }

    method IsIPBlocked(ip: string) returns (listed: bool)
      ensures listed <==> EdgeBlocked(Rec(ip), ip)
    {
      listed := ip != "" && ip in blocked;
    }

    // ---------- Ban history ----------

    method EnsureBanHistory(ip: string, kind: Kind, now: int)
      modifies this`history
      ensures HistoryOf(ip) == EnsureOpen(old(HistoryOf(ip)), ip, kind, now)
      ensures forall other :: other != ip ==> HistoryOf(other) == old(HistoryOf(other))
    {
      if ip != "" && !HasOpen(HistoryOf(ip), kind) {
        history := history[ip := HistoryOf(ip) + [BanRow(kind, now, Zero, false)]];
      }
    }

    method CloseBanHistory(ip: string, kind: Kind, falsePositive: bool, now: int)
      modifies this`history
      ensures HistoryOf(ip) == CloseLatest(old(HistoryOf(ip)), ip, kind, falsePositive, now)
      ensures forall other :: other != ip ==> HistoryOf(other) == old(HistoryOf(other))
    {
      history := history[ip := CloseLatest(HistoryOf(ip), ip, kind, falsePositive, now)];
    }

    // ---------- Events ----------

    method DecayThreatState(st: IPState, now: int) returns (d: IPState)
      ensures d == Decayed(st, now)
    {
      d := st;
      if st.perm || After(st.ban, now) {
        return;
      }
      var idle := now - st.lastSeen;
      if idle >= HALF_HOUR {
        var steps := idle / HALF_HOUR;
        var xp := DecayLoop(d.rank.xp, steps);
        d := d.(rank := Rank(d.rank.level, xp));
      }
      if idle >= REHAB && d.rank.level > 0 {
        var down := idle / REHAB;
        if down > d.rank.level {
          down := d.rank.level;
        }
        d := d.(rank := Rank(d.rank.level - down, d.rank.xp));
      }
    }

    /** Books a hit on a state that has been decayed. */
    method Book(before: IPState, hit: Hit, now: int) returns (st: IPState)
      ensures st == Raised(before, hit, cfg, now)
    {
      var rank := LevelUp(Rank(before.rank.level, before.rank.xp + hit.delta), cfg.hard);
      if hit.boost && rank.level < WATCH_LEVEL {
        var most := Threshold(WATCH_LEVEL) - 1;
        rank := Rank(WATCH_LEVEL, if rank.xp > most then most else rank.xp);
      }
      st := IPState(rank, RiskOf(rank.level, cfg), before.ban, before.perm, now);
      if hit.boost && !st.perm && !After(st.ban, now) {
        st := st.(risk := Watch);
      }
      if hit.auto && rank.level >= cfg.hard {
        st := st.(perm := true, ban := Zero, risk := HardBlock);
      }
    }

    /** Scores the signals of an event. */
    method Score(ip: string, auto: bool, signals: seq<string>, now: int) returns (hit: Hit)
      requires bursts.Valid() && now >= bursts.clock
      modifies bursts
      ensures bursts.Valid() && bursts.clock == now && ValidHit(hit)
      ensures IsScored(hit, old(bursts.log), ip, auto, signals, now)
      ensures bursts.log == old(bursts.log) + [CallOf(hit, ip, now)]
    {
      var unique := UniqueSignals(signals);
      var boost := HasKnownThreatBoostSignal(unique);
      var base, top := CalcThreatBaseXP(TABLE, unique);
      var tenths := bursts.Bump(ip, top, now);
      hit := Hit(auto, EventXP(base, tenths, |unique|), boost, top);
    }

    /** An event about one IP: its record takes the specified step, the answer is the specified
        verdict, and no other record changes. On a hard block the firewall is refreshed, but
        before the new state is stored. */
    method ApplyThreatIntelEvent(ip: string, auto: bool, signals: seq<string>, now: int)
      returns (v: Verdict, hit: Hit)
      requires Valid() && now >= bursts.clock
      modifies this, bursts, nft
      ensures Valid() && ValidHit(hit)
      ensures Rec(ip) == EventStep(old(Rec(ip)), ip, hit, cfg, now)
      ensures v == EventVerdict(old(Rec(ip)), ip, hit, cfg, now)
      ensures forall other :: other != ip ==> Rec(other) == old(Rec(other))
      ensures ip != "" ==> IsScored(hit, old(bursts.log), ip, auto, signals, now)
      ensures bursts.log == old(bursts.log) + if ip != "" then [CallOf(hit, ip, now)] else []
    {
      if ip == "" {
        return Verdict(false, false, Zero, MonitorObserve), Hit(auto, 1, false, "");
      }
      hit := Score(ip, auto, signals, now);
      v := Respond(ip, hit, now);
      EventKeeps(old(Rec(ip)), ip, hit, cfg, now);
      forall other
        ensures RecordInv(Rec(other), other, cfg)
      {
        assert old(RecordInv(Rec(other), other, cfg));
      }
    }

    method BookFor(ip: string, hit: Hit, now: int) returns (st: IPState)
      ensures st == Booked(Rec(ip), hit, cfg, now)
    {
      st := DecayThreatState(if ip in states then states[ip] else Fresh(now), now);
      st := Book(st, hit, now);
    }

    /** Books a scored hit, decides, and stores the outcome. */
    method Respond(ip: string, hit: Hit, now: int) returns (v: Verdict)
      requires ip != ""
      modifies this`states, this`blocked, this`history, nft
      ensures Rec(ip) == EventStep(old(Rec(ip)), ip, hit, cfg, now)
      ensures v == EventVerdict(old(Rec(ip)), ip, hit, cfg, now)
      ensures forall other :: other != ip ==> Rec(other) == old(Rec(other))
      ensures states.Keys == old(states.Keys) + {ip}
    {
      var st := BookFor(ip, hit, now);
      v := Verdict(false, false, if After(st.ban, now) then st.ban else Zero, MonitorObserve);
      if st.perm {
        v := v.(blocked := true, hard := true, decision := HardBlockPermanent);
        StoreBlock(ip, "threat_intel_auto:" + hit.top, now);
        EnsureBanHistory(ip, Hard, now);
        var refreshed := ReconcileOSFirewall();
      } else if After(st.ban, now) {
        v := v.(blocked := true, decision := SoftBlockActive);
      } else if hit.auto && hit.boost {
        v := v.(decision := WatchBoost);
      } else if hit.auto && st.rank.level >= cfg.soft {
        st := st.(ban := At(now + cfg.softMinutes * MINUTE));
        v := Verdict(true, false, st.ban, SoftBlockSet);
        EnsureBanHistory(ip, Soft, now);
      }
      states := states[ip := st];
    }

    method StoreBlock(ip: string, reason: string, now: int)
      modifies this`blocked
      ensures Find(blocked, ip) == Listed(old(Find(blocked, ip)), reason, now)
      ensures forall other :: other != ip ==> Find(blocked, other) == old(Find(blocked, other))
    {
      blocked := blocked[ip := if ip in blocked then blocked[ip].(reason := reason) else BlockRow(reason, now)];
    }

    // ---------- The reconcile tick ----------

    method PromoteHardBlocks(now: int)
      modifies this`states, this`blocked
      ensures states.Keys == old(states.Keys)
      ensures forall ip :: Rec(ip) == Promoted(old(Rec(ip)), cfg, now)
    {
      var hard := set ip | ip in states && states[ip].rank.level >= cfg.hard && ip !in allowlist;
      blocked := (map ip | ip in hard :: BlockRow("threat_intel_auto:level_hard", now)) + blocked;
      states := map ip | ip in states ::
        if ip in hard then states[ip].(perm := true, ban := Zero, risk := HardBlock) else states[ip];
    }

    method SyncBanHistory()
      modifies this`history
      ensures forall ip :: Rec(ip) == Synced(old(Rec(ip)))
    {
      var missing := set ip | ip in blocked && !HasOpen(HistoryOf(ip), Hard);
      history := history + map ip | ip in missing :: HistoryOf(ip) + [BanRow(Hard, blocked[ip].created, Zero, false)];
    }

    method RemoveBlockedTracked(ip: string, falsePositive: bool, now: int)
      modifies this`blocked, this`history
      ensures Rec(ip) == Released(old(Rec(ip)), ip, falsePositive, now)
      ensures forall other :: other != ip ==> Rec(other) == old(Rec(other))
    {
      blocked := blocked - {ip};
      CloseBanHistory(ip, Hard, falsePositive, now);
    }

    /** Decay, end of a soft ban, and risk of one tracked state. */
    method ReviewState(before: IPState, now: int) returns (st: IPState, banOver: bool)
      ensures st == Reviewed(before, cfg, now) && (banOver <==> BanOver(before, now))
    {
      st := DecayThreatState(before, now);
      banOver := st.ban.At? && st.ban.t <= now;
      if banOver {
        st := st.(ban := Zero);
      }
      if st.risk != Watch {
        st := st.(risk := RiskOf(st.rank.level, cfg));
      } else if st.rank.level <= 0 && st.rank.xp <= 0 {
        st := st.(risk := Monitoring);
      }
    }

    method StoreReviewed(ip: string, before: IPState, now: int)
      modifies this`states, this`history
      ensures Rec(ip) == AfterReview(old(Rec(ip)).(state := Some(before)), ip, cfg, now)
      ensures forall other :: other != ip ==> Rec(other) == old(Rec(other))
      ensures states.Keys <= old(states.Keys) + {ip}
    {
      var st, banOver := ReviewState(before, now);
      if banOver {
        CloseBanHistory(ip, Soft, false, now);
      }
      if !Cold(st, now) {
        states := states[ip := st];
      } else if ip in allowlist {
        states := states[ip := st.(rank := Rank(0, 0), risk := Monitoring)];
      } else {
        states := states - {ip};
      }
    }

    /** One tracked IP's share of the tick. */
    method ReviewOne(ip: string, expired: bool, now: int) returns (released: bool)
      requires ip in states && (expired <==> Expired(Rec(ip), ip, cfg, now))
      modifies this`states, this`blocked, this`history
      ensures Rec(ip) == AfterReview(AfterExpiry(old(Rec(ip)), ip, cfg, now), ip, cfg, now)
      ensures forall other :: other != ip ==> Rec(other) == old(Rec(other))
      ensures states.Keys <= old(states.Keys)
    {
      var st := states[ip];
      released := expired && st.perm;
      if released {
        st := IPState(Rank(WATCH_LEVEL, Threshold(WATCH_LEVEL)), Watch, Zero, false, now);
        RemoveBlockedTracked(ip, false, now);
      }
      StoreReviewed(ip, st, now);
    }

    method ReviewTracked(expired: set<string>, now: int) returns (changed: bool)
      requires "" !in states && forall ip :: ip in expired <==> Expired(Rec(ip), ip, cfg, now)
      modifies this`states, this`blocked, this`history
      ensures "" !in states
      ensures forall ip :: Rec(ip) == if old(ip in states) then
        AfterReview(AfterExpiry(old(Rec(ip)), ip, cfg, now), ip, cfg, now) else old(Rec(ip))
    {
      var todo := states.Keys;
      changed := false;
      while todo != {}
        invariant todo <= old(states.Keys) && states.Keys <= old(states.Keys)
        invariant forall ip :: ip in todo || !old(ip in states) ==> Rec(ip) == old(Rec(ip))
        invariant forall ip :: old(ip in states) && ip !in todo ==>
          Rec(ip) == AfterReview(AfterExpiry(old(Rec(ip)), ip, cfg, now), ip, cfg, now)
      {
        var ip :| ip in todo;
        assert Rec(ip).state == old(Rec(ip)).state;
        var released := ReviewOne(ip, ip in expired, now);
        todo, changed := todo - {ip}, changed || released;
      }
    }

    method RemoveAll(ips: set<string>, now: int)
      modifies this`blocked, this`history
      ensures forall ip :: Rec(ip) == if ip in ips then Released(old(Rec(ip)), ip, false, now) else old(Rec(ip))
    {
      var todo := ips;
      while todo != {}
        invariant todo <= ips
        invariant forall ip :: ip in ips && ip !in todo ==> Rec(ip) == Released(old(Rec(ip)), ip, false, now)
        invariant forall ip :: ip !in ips || ip in todo ==> Rec(ip) == old(Rec(ip))
      {
        var ip :| ip in todo;
        RemoveBlockedTracked(ip, false, now);
        todo := todo - {ip};
      }
    }

    lemma NoEmptyKey()
      requires Sound()
      ensures "" !in states
    {
      assert RecordInv(Rec(""), "", cfg);
    }

    method ReconcileThreatIntelDecay(now: int)
      requires Valid()
      modifies this`states, this`blocked, this`history, nft
      ensures Valid()
      ensures forall ip :: Rec(ip) == TickStep(old(Rec(ip)), ip, cfg, now)
    {
      NoEmptyKey();
      PromoteHardBlocks(now);
      SyncBanHistory();
      label synced:
      var expired := set ip | ip in blocked && ip != "" && blocked[ip].created < now - cfg.retentionDays * DAY;
      var tracked := states.Keys;
      var changed := ReviewTracked(expired, now);
      var untracked := expired - tracked - allowlist;
      RemoveAll(untracked, now);
      forall ip
        ensures Rec(ip) == TickStep(old(Rec(ip)), ip, cfg, now)
      {
        assert old@synced(Rec(ip)) == Synced(Promoted(old(Rec(ip)), cfg, now));
        assert ip in untracked <==> ip in expired && ip !in tracked && ip !in allowlist;
      }
      forall ip
        ensures RecordInv(Rec(ip), ip, cfg)
      {
        assert old(RecordInv(Rec(ip), ip, cfg));
        TickKeeps(old(Rec(ip)), ip, cfg, now);
      }
      if changed || untracked != {} {
        var refreshed := ReconcileOSFirewall();
      }
    }

    // ---------- Administration ----------

    method UpsertBlockedIP(ip: string, reason: string, loopback: bool, now: int) returns (ok: bool)
      requires Valid()
      modifies this, nft
      ensures Valid() && (ok <==> !loopback)
      ensures Rec(ip) == BlockStep(old(Rec(ip)), ip, reason, loopback, now)
      ensures forall other :: other != ip ==> Rec(other) == old(Rec(other))
    {
      if loopback {
        return false;
      }
      StoreBlock(ip, reason, now);
      EnsureBanHistory(ip, Hard, now);
      StepKeeps(old(Rec(ip)), ip, Block(reason, loopback, now), cfg);
      forall other
        ensures RecordInv(Rec(other), other, cfg)
      {
        assert old(RecordInv(Rec(other), other, cfg));
      }
      var refreshed := ReconcileOSFirewall();
      ok := true;
    }

    method RemoveBlockedIP(ip: string, falsePositive: bool, now: int)
      requires Valid()
      modifies this, nft
      ensures Valid()
      ensures Rec(ip) == Released(old(Rec(ip)), ip, falsePositive, now)
      ensures forall other :: other != ip ==> Rec(other) == old(Rec(other))
    {
      RemoveBlockedTracked(ip, falsePositive, now);
      ReleaseKeeps(old(Rec(ip)), ip, falsePositive, cfg, now);
      forall other
        ensures RecordInv(Rec(other), other, cfg)
      {
        assert old(RecordInv(Rec(other), other, cfg));
      }
      var refreshed := ReconcileOSFirewall();
    }

    method AddThreatIntelAllowIP(ip: string) returns (ok: bool)
      requires Valid()
      modifies this`allowlist
      ensures Valid() && (ok <==> ip != "")
      ensures Rec(ip) == Step(old(Rec(ip)), ip, Allow, cfg)
      ensures forall other :: other != ip ==> Rec(other) == old(Rec(other))
    {
      ok := ip != "";
      if ok {
        allowlist := allowlist + {ip};
        AllowlistKeeps();
      }
    }

    method RemoveThreatIntelAllowIP(ip: string)
      requires Valid()
      modifies this`allowlist
      ensures Valid()
      ensures Rec(ip) == Step(old(Rec(ip)), ip, Unallow, cfg)
      ensures forall other :: other != ip ==> Rec(other) == old(Rec(other))
    {
      allowlist := allowlist - {ip};
      AllowlistKeeps();
    }

    /** The run invariants do not depend on the allowlist. */
    twostate lemma AllowlistKeeps()
      requires old(Sound()) && states == old(states) && blocked == old(blocked) && history == old(history)
      ensures Sound()
    {
      forall ip
        ensures RecordInv(Rec(ip), ip, cfg)
      {
        assert old(RecordInv(Rec(ip), ip, cfg));
      }
    }

    method PurgeThreatIntelStateBefore(days: int, now: int)
      requires Valid()
      modifies this`states
      ensures Valid()
      ensures forall ip :: Rec(ip) == PurgeStep(old(Rec(ip)), days, now)
    {
      var cutoff := now - days * DAY;
      states := map ip | ip in states && !(states[ip].lastSeen < cutoff && !states[ip].perm &&
                                           (states[ip].ban.Zero? || states[ip].ban.t < cutoff)) :: states[ip];
      forall ip
        ensures RecordInv(Rec(ip), ip, cfg)
      {
        assert old(RecordInv(Rec(ip), ip, cfg));
        assert Rec(ip) == PurgeStep(old(Rec(ip)), days, now);
      }
    }

    // ---------- The host firewall ----------

    ghost predicate Mirrors(kernel: set<string>, wanted: Family)
      reads this
    {
      forall ip :: ip in kernel <==> ip != "" && Enforced(Rec(ip), hardOnly, cfg) && family(ip) == wanted
    }

    /** After a successful refresh the kernel sets hold exactly the public IPs that are blocked
        and eligible in the configured mode; with the firewall off they are empty. */
    method ReconcileOSFirewall() returns (ok: bool)
      modifies nft
      ensures ok && osFirewall ==> Mirrors(nft.set4, PublicV4) && Mirrors(nft.set6, PublicV6)
      ensures ok && !osFirewall ==> nft.set4 == {} && nft.set6 == {}
    {
      if !osFirewall {
        ok := nft.Disable();
        return;
      }
      var hardByIP: set<string> := {};
      if hardOnly {
        hardByIP := set ip | ip in states && ip != "" && HardState(Some(states[ip]), cfg);
      }
      var ips4: seq<string>, ips6: seq<string> := [], [];
      var todo := blocked.Keys;
      while todo != {}
        invariant todo <= blocked.Keys
        invariant forall ip :: ip in ips4 <==>
          ip in blocked && ip !in todo && ip != "" && Enforced(Rec(ip), hardOnly, cfg) && family(ip) == PublicV4
        invariant forall ip :: ip in ips6 <==>
          ip in blocked && ip !in todo && ip != "" && Enforced(Rec(ip), hardOnly, cfg) && family(ip) == PublicV6
      {
        var ip :| ip in todo;
        todo := todo - {ip};
        if ip != "" && (!hardOnly || ip in hardByIP || MentionsHard(blocked[ip].reason)) {
          if family(ip) == PublicV4 {
            ips4 := ips4 + [ip];
          } else if family(ip) == PublicV6 {
            ips6 := ips6 + [ip];
          }
        }
      }
      ok := nft.Replace(ips4, ips6);
    }
  }

  // ---------- Enforcement ----------

  /** In reachable states the three marks of a hard-blocked state come to one: the hard level. */
  lemma HardStatesAreLevels(r: Record, ip: string, cfg: Config)
    requires RecordInv(r, ip, cfg) && ValidConfig(cfg)
    ensures HardState(r.state, cfg) <==> r.state.Some? && r.state.value.rank.level >= cfg.hard
  {
  }

  /** In hard-only mode an administrator's block counts only by its reason or the level. */
  lemma EnforcedIff(r: Record, ip: string, hardOnly: bool, cfg: Config)
    requires RecordInv(r, ip, cfg) && ValidConfig(cfg)
    ensures Enforced(r, hardOnly, cfg) <==>
            r.block.Some? && (!hardOnly || MentionsHard(r.block.value.reason) ||
                              (r.state.Some? && r.state.value.rank.level >= cfg.hard))
  {
  }

  /** The refresh inside the event still sees the old state. In hard-only mode it catches the IP
      exactly if that state was hard already or the reason happens to say so. */
  lemma RefreshInsideTheEventLags(r: Record, ip: string, hit: Hit, cfg: Config, now: int)
    requires RecordInv(r, ip, cfg) && ValidConfig(cfg) && ValidHit(hit)
    requires EventVerdict(r, ip, hit, cfg, now).hard
    ensures Enforced(EventStep(r, ip, hit, cfg, now).(state := r.state), true, cfg) <==>
            HardState(r.state, cfg) || MentionsHard("threat_intel_auto:" + hit.top)
  {
  }
}
