# Domnex threat intelligence and its neighbours, verified

Domnex is a reverse proxy with an intrusion response of its own. Every suspicious request is a threat event: it adds
experience points (XP) to the record of the source IP, XP raises a level, and levels decide between monitoring, a soft
block of some minutes, and a permanent hard block that is mirrored into the host firewall. Idle time rehabilitates: a
tick every five minutes decays XP and levels, expires old blocks, and forgets IPs that have cooled down. This project
models that machine and proves what its design relies on over whole runs of events, ticks and administration. Around it
stand the smaller machines with a whole-run property of their own: the burst window, the flood limiter for unknown
hosts, the traffic recorder, backend selection, the host lifecycle, the login lockout, the setup-code lock, and the
backup schedule.

## How it is built

`Levels` holds the arithmetic of levels, with exact rationals in place of floating point. `ThreatRecord` says, for one
IP, what every service call makes of its record: tracked state, block-list row, allowlist entry, ban history.
`ThreatService` is the imperative service over its tables; each method is proved to take every IP's record through
exactly the step `ThreatRecord` defines, and keeps the run invariants of every record as part of its own validity. So
what is proved about runs of steps (`ThreatInvariants`, `Escalation`, `Rehabilitation`, `HardBlocks`, `SoftBlocks`,
`EdgeGate`) holds of the service. `Scoring` ties the XP of an event to its signals and to the calls before it. The other
files are self-contained: a class with the fields the program updates, proved against a reference that has no pruning,
no batching, or no counter.

Times are integers in nanoseconds, the clock never runs backwards, and configurations are those that the settings
loader produces. Each call of the threat service is one atomic step with one reading of the clock.

## What came out

Some promises hold further than the code suggests, and some do not hold as one would assume.

- Escalation: with default levels, 264 events in auto mode less than half an hour apart are always answered with a
  hard block in the end. For any hard level the budget is the sum of the thresholds below it. The bound is met: lone
  unknown-host events, more than a minute apart so that no burst raises them above 1 XP, block an IP exactly when
  their number reaches the budget.
- The XP envelope holds for every hard level. The stronger fact that XP is gone before a level is lost holds exactly
  up to hard level 21: from level 22, a full threshold of 309485 XP leaves 2 XP when 72 idle hours take the level.
- Below the budget nobody is blocked: no run whose unboosted events add less XP than the thresholds up to the hard
  level sum up to contains a hard verdict, whatever the order, the gaps, the mode and the ticks.
- The block list equals the set of IPs with an open hard row exactly for non-empty IPs: the administration can list
  the empty string, whose history is skipped.
- After a tick every IP at the hard level is blocked exactly when the hard level is above the watch level 3. At or
  below it, retention expiry hands out a level that is itself a hard level.
- Ticks never hurt an idle IP that is not hard-blocked exactly when it is not up for promotion: the tick hard-blocks
  at the hard level, even in monitor-only mode. They never hurt a hard-blocked one exactly when no tick can lift its
  block, or its level is at least 3 and its XP at least 41: that is the rank retention expiry hands out, also to IPs
  with less.
- An idle IP that is not hard-blocked, up for promotion or allowlisted is forgotten exactly when the levels that the
  ticks take, each counting the whole idle time anew, add up to its own, or to one if it has none. A tick per level is
  enough past 72 hours.
- Gates that decide on an IP differ. The login refuses what is on the block list; the HTTP edge drops it, and goes by
  event verdicts otherwise; the SSH bastion also looks at the tracked state; the host firewall holds a part of the
  list. Edge and bastion agree on every request with a threat signal, whatever the record. Without a signal the edge
  lets flagged and soft-blocked IPs pass that are not on the list.
- An event's verdict agrees with the bastion's lookup exactly when the IP was not listed before, or it is flagged
  already, or the event takes it to the hard level in auto mode.
- An admin unblock of a hard-blocked IP opens the edge and the host firewall until an event, an administrator or a
  tick lists the IP again; the bastion goes on turning it away. The relisting restarts the retention period.
- An IP that an administrator has listed stays listed for as long as it is tracked below the hard level, also past the
  retention period; one that is not tracked leaves the list with the first tick past it, unless it is allowlisted.
- The hard block of a listed IP ends with the retention period even if the IP never stops, unless an administrator
  unblocks it. Left to the ticks a hard block ends exactly if the IP is listed or not on the allowlist: after the
  allow action, which unblocks and allowlists, no schedule of ticks takes the flag away.
- Escalation to a hard block leaves an open soft row. It stays open through every run in which no event sets a soft
  block; a new soft block takes the row over, and closes it when it runs out.
- Decay compounds: for an IP that no tick promotes, every tick and the next event each book the whole time since the
  IP was last seen.
- Flood limiter: 158 hits in less than 60 seconds suffice for a trip, and 157 do not.
- Setup code: at most 20 wrong codes are compared, unless an unlock reads the clock before its code expires and
  decides at that very instant: then a 21st is reachable. An unlock is dated 45 minutes ahead but dies with the
  20-minute code.
- Login: for a name without an account, success in the directory still ends in a refusal, because the error of the
  first lookup is returned (internal/auth/auth.go:111-129).
- `itoa` prints the smallest 64-bit integer as a bare minus sign; visitor rows never see it.
- Round robin is seamless across the wrap of its 64-bit counter exactly when the number of backends divides 2^64.
- Backup archives keep the interval from every earlier copy that the earlier run has on record. Either record covers
  the local copy, and without one the next run follows within a minute. The copy on the server is later than the row
  of the local one, and crowded by the next run if that row is all that was written.

## Model

| member | source | states |
|---|---|---|
| `Levels.ThresholdIsNearest` | internal/app/service.go:4396-4401 | the threshold of a level is the integer nearest to 10 * 1.6^level |
| `Levels.ThresholdStep` | internal/app/service.go:4396-4401 | one level up, the threshold grows and at most doubles |
| `Levels.DefaultThresholds` | internal/app/service.go:4396-4401 | the values 10, 16, 26, 41, 66, 105, 168 of levels 0 to 6 |
| `Levels.LevelUp` | internal/app/service.go:4110-4129 | the level-up loop with its cap terminates and computes the settled rank |
| `Levels.ClimbConserves` | internal/app/service.go:4115-4122 | XP held plus XP spent on levels is conserved by the loop, for every start and hard level |
| `Levels.ClimbRests` | internal/app/service.go:4115-4122 | the loop stops at the hard level or below the next threshold, and never lowers a level |
| `Levels.RestingRankIsUnique` | internal/app/service.go:4115-4122 | those two facts determine level and XP, without reference to the loop |
| `Levels.SettledPotential` | internal/app/service.go:4110-4129 | level-up and cap keep all potential up to what the hard level can hold, which with uniqueness determines the result |
| `Levels.GainIsPathIndependent` | internal/app/service.go:4110-4129 | gaining a and then b gives the same level and XP as gaining a + b, cap included |
| `Levels.DecayLoop` | internal/app/service.go:4375-4383 | the loop of floor decay steps computes the decayed XP |
| `Levels.DecayCompose` | internal/app/service.go:4375-4383 | decaying in two stretches is decaying once |
| `Levels.DecayOutpacesLevels` | internal/app/service.go:4375-4393 | XP within its level's threshold stays within the threshold of the level that is left |
| `Levels.ColdAfter144Steps` | internal/app/service.go:4375-4393 | 72 idle hours bring all XP of a level up to 21 to zero |
| `Levels.WarmAfter144Steps` | internal/app/service.go:4375-4393 | they leave 2 of the XP that level 22 can hold |
| `Levels.ColdInTime` | internal/app/service.go:4375-4393 | 72 idle hours per level bring all XP of any level to zero |
| `ThreatRecord.LoadConfig` | internal/store/store.go:2412-2490 | whatever the stored settings are, the loaded levels satisfy monitor < soft < hard <= 64 and the minutes and days are positive |
| `ThreatRecord.SettingsAreKept` | internal/store/store.go:2412-2490 | settings in range are kept, and levels move up by one past the colliding one only where they collide |
| `ThreatRecord.DefaultSettings` | internal/store/store.go:2412-2490 | without settings: soft level 3, hard level 6, 15 minutes, 60 days |
| `ThreatInvariants.DecayKeepsRank` | internal/app/service.go:4360-4394 | decay keeps the XP envelope and never raises a level |
| `ThreatInvariants.LevelsAreLostColdIff` | internal/app/service.go:4360-4394 | at a level, whoever loses a level has no XP left, if and only if the level is at most 21 |
| `ThreatInvariants.EnvelopeIsColdIff` | internal/app/service.go:4360-4394 | that holds of the whole envelope if and only if the hard level is at most 21 |
| `ThreatInvariants.EventKeeps` | internal/app/service.go:4048-4221 | an event keeps envelope, risk label and ban ledger, and only appends to or closes history rows |
| `ThreatInvariants.TickKeeps` | internal/app/service.go:4868-4987 | the reconcile tick keeps them too |
| `ThreatInvariants.StepKeeps` | internal/app/service.go:4868-5016 | so does every other call, administration and purge included |
| `ThreatInvariants.RunKeeps` | internal/app/service.go:4868-5016 | every run keeps 0 <= XP <= threshold(level), 0 <= level <= max(hard, 3), risk label following the level, block list = open hard rows, ban window backed by an open soft row; closed rows never reopen |
| `ThreatInvariants.ReachableRecords` | internal/app/service.go:4048-5016 | all of this holds in every state reachable from an empty store |
| `ThreatInvariants.LabelsFollowLevels` | internal/app/service.go:4403-4413 | in every reachable state the labels mean: hard level reached, soft level reached but not the hard one, below the soft level; a flag means the hard label and no ban |
| `ThreatInvariants.BoostEntersTheWatchBand` | internal/app/service.go:4130-4146 | a boosted event takes the IP to level 3 at least, to level 3 only with less than its threshold, and labels it as watched unless a block stands |
| `ThreatInvariants.WatchEndsCold` | internal/app/service.go:4940-4944 | a tick drops the watch label exactly when level and XP are gone |
| `ThreatInvariants.RunDates` | internal/store/store.go:1287-1344 | in every run the open hard row of an IP is dated exactly as its listing |
| `ThreatInvariants.ClosingStamps` | internal/store/store.go:1327-1344 | the open row gets the time of closing, and a false positive stays one |
| `ThreatInvariants.OnlyAdminsMark` | internal/app/service.go:4868-5036 | no run without an admin's false-positive unblock marks a row as a false positive |
| `ThreatInvariants.PurgesAreExact` | internal/store/store.go:675-686 | the purge drops a state if and only if it was neither seen nor soft-blocked within the days and is not flagged, and touches nothing else |
| `ThreatInvariants.ListMatchesHistoryIffNamed` | internal/store/store.go:1287-1344 | list and open hard rows agree in all reachable states if and only if the IP is not the empty string |
| `ThreatInvariants.ClosingCloses` | internal/store/store.go:1327-1344 | closing leaves no open row of the kind, and every row as it is that was not open of that kind |
| `ThreatInvariants.InterleavingsKeepHistorySound` | internal/store/store.go:1287-1344 | under any interleaving of single statements there is at most one open row per kind and closed rows stay closed |
| `Escalation.RaiseGains` | internal/app/service.go:4110-4142 | below the hard level an event raises the potential by at least its XP, also through the watch jump, and by exactly its XP without it |
| `Escalation.OthersDoNotSlow` | internal/app/service.go:4868-5016 | ticks, administration and purges within half an hour of the last event leave the rank as it is |
| `Escalation.EscalationIsGuaranteed` | internal/app/service.go:4103-4158 | from any reachable record, as many auto events less than half an hour apart as the thresholds below the hard level sum up to end in a hard block, whatever the signals and whatever happens in between |
| `Escalation.DefaultEscalation` | internal/app/service.go:4103-4158 | with the default hard level 6 that is 264 events |
| `Escalation.NobodyIsBlockedBelowTheBudget` | internal/app/service.go:4048-5016 | from any record below the hard level, a run of any calls whose unboosted events add up to less XP than is missing to the budget contains no hard verdict, whatever the gaps and modes |
| `Escalation.BudgetIsSharp` | internal/app/service.go:4063-4158 | n lone unknown-host events, at equal distances of more than a minute and less than half an hour, are worth 1 XP each in the burst window, and block an IP that is not tracked if and only if n reaches the budget |
| `Rehabilitation.TicksNeverHurtIffNotPromotable` | internal/app/service.go:4360-4394 | for a tracked IP that is not hard-blocked, every tick schedule in an idle stretch leaves level and XP at most what lazy decay leaves, if and only if the IP is not at the hard level outside the allowlist |
| `Rehabilitation.PromotionHurts` | internal/store/store.go:2575-2607 | for an IP that is, one tick freezes levels that idle time would have taken away |
| `Rehabilitation.TicksCompound` | internal/app/service.go:4933-4962 | whatever the tick schedule, the next event finds level and XP decayed by the sum of what each tick, and the event itself, make of the whole idle time, nothing while a ban runs |
| `Rehabilitation.IdleIPsAreForgottenIff` | internal/app/service.go:4933-4959 | an IP that is neither hard-blocked, nor promotable, nor allowlisted is dropped by a schedule of ticks if and only if the levels the ticks take add up to its own, or to one, whatever its XP |
| `Rehabilitation.LateTicksTakeLevels` | internal/app/service.go:4384-4393 | every tick past 72 idle hours takes a level, while no ban runs |
| `Rehabilitation.NextEventStartsOver` | internal/app/service.go:4360-4394 | by then the next event starts from level 0 without XP |
| `Rehabilitation.AllowedIPsStartOver` | internal/app/service.go:4947-4962 | an allowlisted IP is never dropped, and is reset to level 0 without XP by then |
| `HardBlocks.TickCompletesIffHardAboveWatch` | internal/app/service.go:4884-4963 | in all reachable states, after a tick every tracked IP at the hard level outside the allowlist is permanently blocked, labelled so and listed, if and only if the hard level is above 3 |
| `HardBlocks.OnlyExpiryLifts` | internal/app/service.go:4920-4932 | a call ends a hard block if and only if it is a tick past the retention period |
| `HardBlocks.HardBlocksStick` | internal/app/service.go:4868-5016 | over any run without such a tick a hard block, old or won during the run, is still there at the end |
| `HardBlocks.YoungBlocksStay` | internal/app/service.go:4904-4915 | within the retention period of its creation no block expires |
| `HardBlocks.ListingsKeepTheirDate` | internal/store/store.go:1262-1271 | while a hard block stands and no admin unblocks it, the date of its listing never moves, however often the IP is caught or listed again |
| `HardBlocks.AdminBlockLists` | internal/app/service.go:4993-5004 | an admin block lists the IP under its reason, keeps the date of a listing that stands, opens its row and leaves the tracked state alone |
| `HardBlocks.AllowlistDecidesPromotion` | internal/store/store.go:2584-2602 | allowlisting keeps ticks from promoting an IP, taking it off lets them, and neither touches anything else |
| `HardBlocks.TickUnlistsIff` | internal/app/service.go:4904-4982 | a tick takes an IP off the list and closes its row if and only if the retention period is over and it is hard-blocked, or promoted by this tick, or neither tracked nor allowlisted |
| `HardBlocks.UntrackedListingsAreFiniteIff` | internal/app/service.go:4964-4982 | over runs without events and unblocks the listing of an IP that is not tracked stands through the retention period, and the first tick past it ends it if and only if the IP is not allowlisted |
| `HardBlocks.HardBlocksAreFinite` | internal/app/service.go:4904-4932 | the first tick past the retention period ends the block of a listed IP and unlists it, even if it never stopped |
| `HardBlocks.AllowedStaysFlagged` | internal/api/server.go:2780-2784 | unblocked and allowlisted, an IP stays flagged, and turned away by the bastion, through every schedule of ticks |
| `HardBlocks.TicksCanLiftIffListable` | internal/app/service.go:4884-4932 | some schedule of ticks ends a hard block if and only if the IP is listed or not allowlisted |
| `HardBlocks.UnblockRestartsRetention` | internal/store/store.go:2575-2607 | after an admin unblock of a hard-blocked IP the next tick lists it with a new date, or not at all if it is allowlisted |
| `HardBlocks.TicksNeverHurtFlaggedIff` | internal/app/service.go:4884-4932 | ticks never leave a hard-blocked IP worse off if and only if it is unlisted and allowlisted, or at least at level 3 with 41 XP |
| `HardBlocks.TicksNeverHurtIff` | internal/app/service.go:4884-4962 | the exact condition for every IP, hard-blocked, tracked or not |
| `HardBlocks.TicksStayBelow` | internal/app/service.go:4916-4962 | no schedule of ticks lifts an IP above its rank, unless to the rank of retention expiry |
| `HardBlocks.MonitorOnlyStillBlocks` | internal/app/service.go:4884-4887 | in monitor-only mode an event at the hard level gives an IP that is neither flagged nor listed no hard answer, but the next tick, however late, blocks it unless it is allowlisted |
| `HardBlocks.BarrageEndsBlocked` | internal/app/service.go:4048-4221 | the guaranteed escalation of an unlisted IP, within the retention period, ends with the IP blocked |
| `HardBlocks.ParoleIsOneEventFromTheNextLevel` | internal/app/service.go:4920-4932 | retention expiry leaves exactly the XP of level 3, so with a hard level above 3 an event within half an hour levels up at once |
| `SoftBlocks.SettingOpens` | internal/app/service.go:4175-4185 | a soft block sets the configured window and has one open row; a row that is open already is taken over |
| `SoftBlocks.SoftWindowsStand` | internal/app/service.go:4168-4192 | nothing shortens or extends a running soft block; it only gives way to a hard one or its expiry |
| `SoftBlocks.WindowsStandOverRuns` | internal/app/service.go:4168-4192 | over every run inside the window without a hard block the window is the one that was set |
| `SoftBlocks.SoftBlocksEnd` | internal/app/service.go:4935-4939 | the first tick past the window ends the ban, and leaves the row open if and only if it promotes the IP to a hard block |
| `SoftBlocks.SoftBlocksRunOut` | internal/app/service.go:4935-4939 | after any undisturbed run inside the window, the first tick past it leaves no open soft row, however old the row, unless it promotes |
| `SoftBlocks.EscalationOrphansTheSoftRow` | internal/app/service.go:4149-4162 | a hard verdict leaves an open soft row without a window |
| `SoftBlocks.OnlyANewSoftBlockAdopts` | internal/app/service.go:4168-4192 | a call gives such a row a window again if and only if it is an event that sets a soft block |
| `SoftBlocks.OrphansStayOpen` | internal/app/service.go:4868-5016 | the row stays open through every run in which no event sets a soft block |
| `EdgeGate.HandleRequest` | internal/proxy/proxy.go:487-595 | a listed IP is dropped without an event, a request without a signal passes, and one with a signal is scored and goes by the event's verdict |
| `EdgeGate.QuietRequests` | internal/proxy/proxy.go:487-515 | requests that the list drops, and requests without a signal, leave the record as it is |
| `EdgeGate.EmptySourcesPass` | internal/store/store.go:1250-1254 | the empty string is blocked by no gate, even if it is listed, and tracked by no event |
| `EdgeGate.HardVerdictIff` | internal/app/service.go:4149-4158 | the verdict is hard if and only if the IP is flagged already or reaches the hard level in auto mode |
| `EdgeGate.VerdictAgreesWithLookup` | internal/app/service.go:4149-4204 | an event's answer equals the bastion's lookup of the stored result if and only if the IP was not listed, or is flagged, or reaches the hard level in auto mode |
| `EdgeGate.ListedBelowTheHardLevel` | internal/app/service.go:4149-4204 | the failing case: the lookup is hard for a listed IP below the hard level, the verdict is not |
| `EdgeGate.EdgeAgreesWithBastionIff` | internal/proxy/proxy.go:487-595 | what the edge does to a request is what the bastion would do right after, if and only if the request carries a threat signal, or the IP is listed or neither flagged nor soft-blocked |
| `EdgeGate.DecisionsAreExact` | internal/app/service.go:4149-4204 | the whole answer of an event, case by case, from the flag, the running ban, the mode, the boost and the level reached |
| `EdgeGate.SoftLevelsAreBlocked` | internal/app/service.go:4173-4192 | in auto mode an unboosted event at the soft level or above is always answered with a block; if none stood and the hard level is not reached, with a soft block for the configured minutes and an open row |
| `EdgeGate.LookupsAreExact` | internal/app/service.go:1781-1808 | the bastion's answer and its cause, from the list, the flag and the running ban |
| `EdgeGate.VerdictsAreEarned` | internal/app/service.go:4143-4192 | hard verdicts need the hard level, soft ones the soft level and set the configured window, a standing block is confirmed, and nothing is blocked anew outside auto mode |
| `EdgeGate.FlaggedIPs` | internal/app/service.go:1781-1808 | over runs, a flagged IP is always turned away by the bastion, and dropped by the edge if and only if it was listed or something has listed it |
| `EdgeGate.UnblockOpensTheEdge` | internal/app/service.go:5006-5024 | after an admin unblock the bastion still turns the IP away; edge and host firewall let it pass until an event, an administrator or a tick lists it again |
| `EdgeGate.TicksRelistIff` | internal/store/store.go:2575-2607 | ticks alone list it again if and only if it is not allowlisted |
| `EdgeGate.HardVerdictsStayEnforced` | internal/app/service.go:4670-4737 | in either mode every refresh after a hard verdict enforces it, through every run without expiry or unblock |
| `EdgeGate.KernelFollowsTheEdge` | internal/app/service.go:4670-4737 | what the host firewall drops edge and bastion block as well; with all blocked IPs enforced it is what the edge drops |
| `ThreatSignals.UniqueSignals` | internal/app/service.go:4223-4235 | the loop keeps the first occurrence of every non-empty signal |
| `ThreatSignals.UniqueIsASet` | internal/app/service.go:4223-4235 | no signal is lost, none occurs twice |
| `ThreatSignals.UniqueKeepsOrder` | internal/app/service.go:4223-4235 | signals stay in the order of their first occurrence |
| `ThreatSignals.CalcThreatBaseXP` | internal/app/service.go:4237-4286 | total points with 6 for a feed hit and at least 1; the top signal is the first of those worth most |
| `ThreatSignals.HasKnownThreatBoostSignal` | internal/app/service.go:4288-4308 | the two scans find a boost exactly if some signal is neither behaviour nor protocol |
| `ThreatSignals.BurstOnlyRaises` | internal/app/service.go:4310-4319 | a burst never lowers an event's XP, at most doubles it, and more hits never give less |
| `ThreatSignals.XPIsNearest` | internal/app/service.go:4310-4319 | an event's XP is the integer nearest to points times factor, plus 2 for three or more signals |
| `ThreatSignals.KnownPoints` | internal/app/service.go:4238-4254 | the points of every known signal, of unknown signatures, and of everything else |
| `ThreatSignals.FeedsCountOnce` | internal/app/service.go:4272-4280 | unknown signals that are not behaviour are worth 6 together, however many |
| `ThreatSignals.UnknownProtocol` | internal/app/service.go:4258-4308 | an unknown protocol signal counts as a feed hit but does not boost |
| `ThreatSignals.UnknownBehaviour` | internal/app/service.go:4258-4308 | unknown behaviour is worth 1 XP, and neither a feed hit nor a boost |
| `ThreatSignals.TiesGoToTheFirst` | internal/app/service.go:4266-4269 | of two signals worth the same the first is the top |
| `Scoring.ScoresAreUnique` | internal/app/service.go:4066-4106 | signals, mode and the calls before determine the score of an event |
| `Scoring.QuietCallStandsAlone` | internal/app/service.go:4329-4332 | a call more than a minute after the IP's last opens a window of its own |
| `Scoring.LoneUnknownHost` | internal/app/service.go:4237-4286 | after such a minute a lone unknown host is worth 1 XP and no boost |
| `Scoring.LoneFeedHit` | internal/app/service.go:4237-4286 | and a lone feed hit 6 XP and a boost |
| `Scoring.TopsArePrimary` | internal/app/service.go:4321-4341 | the top signal of an event is never empty, so it is the primary one; an empty one would count as an unknown host |
| `Scoring.ThreeSignals` | internal/app/service.go:4237-4319 | three lone behaviour signals of 1, 4 and 2 points are worth 9 XP |
| `Scoring.RapidCallsShareAWindow` | internal/app/service.go:4321-4346 | after a quiet minute, calls up to a minute after the first are counted together |
| `Scoring.BurstScore` | internal/app/service.go:4310-4358 | the next of a burst of equal signals scores its points times the factor of its place |
| `Scoring.PathScanBurst` | internal/app/service.go:4310-4358 | a burst of path scans is worth 4, 4, 5, 5, 6, 6, 6 and from the eighth on 8 XP each |
| `BurstWindow.WindowCountsSinceOpening` | internal/app/service.go:4330-4346 | a window is determined by the log: it starts at the opening call and counts calls with the same primary signal since |
| `BurstWindow.BurstWindows.Prune` | internal/app/service.go:4324-4328 | pruning loses no window that a later call could still use |
| `BurstWindow.BurstWindows.Bump` | internal/app/service.go:4321-4358 | the factor depends only on the number of same-primary calls since the window was opened, as if nothing were pruned |
| `ThreatService.Service.IsSourceBlocked` | internal/app/service.go:1781-1808 | the bastion's lookup answers by block list, permanent flag, and unexpired ban, in this order |
| `ThreatService.Service.IsIPBlocked` | internal/store/store.go:1250-1260 | whether a non-empty IP is on the block list |
| `ThreatService.Service.DecayThreatState` | internal/app/service.go:4360-4394 | lazy decay, frozen while a block stands |
| `ThreatService.Service.Book` | internal/app/service.go:4110-4154 | XP, level-up, watch jump, risk label and hard-block decision of one event |
| `ThreatService.Service.Score` | internal/app/service.go:4066-4106 | the XP of an event from its unique signals and its burst window |
| `ThreatService.Service.Respond` | internal/app/service.go:4103-4204 | decision, block list, ban history and stored state, for this IP and no other |
| `ThreatService.Service.ApplyThreatIntelEvent` | internal/app/service.go:4048-4221 | the event is scored, the record takes the specified step, the answer is the specified verdict, every other record is unchanged, and the run invariants hold again |
| `ThreatService.Service.PromoteHardBlocks` | internal/store/store.go:2575-2607 | promotes exactly the tracked IPs at the hard level outside the allowlist, and keeps rows that exist |
| `ThreatService.Service.SyncBanHistory` | internal/store/store.go:1305-1325 | every listed IP without an open hard row gets one, dated at the listing |
| `ThreatService.Service.ReviewOne` | internal/app/service.go:4916-4963 | expiry, decay, end of a soft ban, risk and removal for one tracked IP |
| `ThreatService.Service.ReconcileThreatIntelDecay` | internal/app/service.go:4868-4987 | takes every record at once through the tick step, tracked or not |
| `ThreatService.Service.UpsertBlockedIP` | internal/app/service.go:4993-5004 | lists the IP with an open hard row; loopback addresses are refused |
| `ThreatService.Service.RemoveBlockedIP` | internal/app/service.go:5006-5036 | unlists the IP and closes its hard row, and leaves its tracked state alone |
| `ThreatService.Service.AddThreatIntelAllowIP` | internal/app/service.go:4585-4591 | allowlists a non-empty IP and touches nothing else |
| `ThreatService.Service.RemoveThreatIntelAllowIP` | internal/app/service.go:4593-4599 | and takes it off |
| `ThreatService.Service.PurgeThreatIntelStateBefore` | internal/store/store.go:675-686 | drops exactly the stale states that are not blocked |
| `ThreatService.Service.ReconcileOSFirewall` | internal/app/service.go:4670-4737 | after a successful refresh the kernel sets hold exactly the public IPs that are blocked and eligible in the mode |
| `ThreatService.MentionsHardIff` | internal/app/service.go:4712-4716 | a reason counts as hard if and only if in lower case it has "hard" somewhere in it |
| `ThreatService.HardReasons` | internal/app/service.go:4712-4716 | the reason the tick gives counts as hard, in any case of the letters |
| `ThreatService.HardStatesAreLevels` | internal/app/service.go:4691-4700 | in reachable states the flag, the label and the level come to one: the hard level |
| `ThreatService.EnforcedIff` | internal/app/service.go:4670-4737 | who is eligible for the host firewall in either mode |
| `ThreatService.RefreshInsideTheEventLags` | internal/app/service.go:4155-4196 | the refresh inside the event sees the old state: in hard-only mode it catches the IP if and only if that state was hard or the reason says so |
| `Firewall.NftEnforcer.Fill` | internal/firewall/nft.go:100-121 | refilling in chunks of 200 adds exactly the given addresses, or a part of them if a command fails |
| `Firewall.NftEnforcer.Replace` | internal/firewall/nft.go:90-122 | on success the kernel sets equal the given lists; on failure each is unchanged or a part of its list |
| `FloodLimiter.TripsAreEarned` | internal/proxy/proxy.go:1049-1075 | a new trip means exactly 80 counted hits in order inside one window of less than 60 seconds, the last one now |
| `FloodLimiter.FloodsAreCaught` | internal/proxy/proxy.go:1049-1075 | 158 tracked hits within less than 60 seconds get at least one trip, from any state |
| `FloodLimiter.OneFewerMayPass` | internal/proxy/proxy.go:1049-1075 | 157 may get none |
| `FloodLimiter.BlocksLastAQuarter` | internal/proxy/proxy.go:1049-1075 | a trip blocks for exactly 15 minutes, whatever the client sends meanwhile, and then it starts from nothing |
| `FloodLimiter.Limiter.MapsAreSane` | internal/proxy/proxy.go:1019-1075 | counters stay within 1 and 79, and no client is both counted and blocked |
| `FloodLimiter.Limiter.Prune` | internal/proxy/proxy.go:1019-1032 | pruning changes no later answer for any client |
| `FloodLimiter.Limiter.IsBlocked` | internal/proxy/proxy.go:1034-1047 | answers as the limiter that never prunes |
| `FloodLimiter.Limiter.TrackUnknownHost` | internal/proxy/proxy.go:1049-1075 | steps and answers as the limiter that never prunes, for this client and no other |
| `VisitorKeys.Itoa` | internal/traffic/recorder.go:259-279 | filling a 20-byte buffer from the back prints the decimal digits with the sign, and a bare sign for the smallest integer |
| `VisitorKeys.ParseID` | internal/traffic/recorder.go:137-144 | the inline parser computes the value in wrapping 64-bit arithmetic, or 0 if there is a non-digit |
| `VisitorKeys.ParseInvertsItoa` | internal/traffic/recorder.go:137-144 | parsing what was printed gives the number back if it is not negative, and 0 otherwise |
| `VisitorKeys.VisitorKeysRoundTrip` | internal/traffic/recorder.go:129-152 | the three-way split recovers host, day and hash from every visitor key |
| `VisitorKeys.JoinedKeysDetermineParts` | internal/traffic/recorder.go:167-195 | map keys joined by bars are as good as tuples when no part holds a bar |
| `TrafficRecorder.CountRequest` | internal/traffic/recorder.go:178-193 | what a request adds to each of the eight columns |
| `TrafficRecorder.ColumnsAreExact` | internal/traffic/recorder.go:178-193 | bytes count unless negative, and a status counts by its first digit, beyond 599 as a server error |
| `TrafficRecorder.SharedRows` | internal/store/store.go:1458-1496 | requests share a row if and only if host, country and minute agree, and in the class table the class |
| `TrafficRecorder.ClassesSumToMinutes` | internal/traffic/recorder.go:166-222 | the class table sums over classes to the minute table, in every column |
| `TrafficRecorder.RowsAreSane` | internal/traffic/recorder.go:178-193 | in every row blocked requests and the four status classes together are at most the requests |
| `TrafficRecorder.AddToBatch` | internal/traffic/recorder.go:166-222 | a batch holds the sums of exactly the events since the last flush |
| `TrafficRecorder.TrafficTable.Flush` | internal/store/store.go:1458-1496 | the additive upserts of all batches add the direct ledger of those events to the table |
| `TrafficRecorder.VisitorTable.Flush` | internal/traffic/recorder.go:129-152 | visitor rows gain exactly the triples whose keys are pending |
| `TrafficRecorder.NoVisitorWithoutHost` | internal/traffic/recorder.go:137-147 | a visitor key reads back as its triple, or as nobody if the host id is not positive |
| `TrafficRecorder.Recorder.Record` | internal/traffic/recorder.go:77-100 | what is queued, and that a full channel drops the event |
| `TrafficRecorder.Recorder.Consume` | internal/traffic/recorder.go:163-227 | one event more is pending, tables unchanged |
| `TrafficRecorder.Recorder.Flush` | internal/traffic/recorder.go:110-156 | after a successful flush tables and visitors are those of a ledger that books every event directly |
| `TrafficRecorder.PendingIsDirect` | internal/traffic/recorder.go:166-222 | the counts in a batch map add up, in every column of every row, to the direct ledger of its events |
| `TrafficRecorder.Recorder.StoredPlusPending` | internal/traffic/recorder.go:102-229 | at any time the table row plus the counts waiting in the batch map is the direct ledger of all consumed events, for every row and column, and stored visitors plus the triples that waiting keys read back as are all visitors |
| `TrafficRecorder.Recorder.LocalTrafficLeavesNoTrace` | internal/traffic/recorder.go:77-90 | no table ever has a row for local traffic, or for requests without a host or a country |
| `RoundRobin.Route.SelectBackendIndex` | internal/proxy/proxy.go:1234-1263 | round robin takes the next pick of the wrapping counter; failover returns the first reachable backend and names exactly those before it |
| `RoundRobin.NamedOrAddressed` | internal/proxy/proxy.go:1256-1260 | an offline backend goes by its name, or by its address without one |
| `RoundRobin.FairShare` | internal/proxy/proxy.go:1243-1245 | after k picks before the wrap backend i was chosen k/n times, once more if i < k mod n |
| `RoundRobin.ConsecutivePicksPermute` | internal/proxy/proxy.go:1243-1245 | any n consecutive picks before the wrap are a permutation |
| `RoundRobin.WrapIsSeamlessIff` | internal/proxy/proxy.go:1243-1245 | across the wrap that holds if and only if n divides 2^64 |
| `HostLifecycle.EnteredFrom` | internal/store/store.go:1103-1117 | from which states each state can be entered |
| `HostLifecycle.HostStore.SetHostState` | internal/store/store.go:1088-1117 | refused exactly if unknown or invalid; logged; every host's log stays a gap-free valid path from created to its state |
| `HostLifecycle.HostStore.Insert` | internal/store/store.go:992-1009 | a new host starts its log |
| `HostLifecycle.HostStore.CreateHost` | internal/app/service.go:2239-2289 | ends active, or in error if DNS fails; no step is refused |
| `HostLifecycle.HostStore.SetHostDisabled` | internal/app/service.go:1960-1981 | never refused for a host that exists |
| `HostLifecycle.HostStore.SetHostMaintenance` | internal/app/service.go:1983-2004 | off is never refused; on is refused exactly outside active, error and maintenance |
| `HostLifecycle.HostStore.RetryHost` | internal/app/service.go:2503-2527 | outside the backoff, succeeds exactly for hosts in error and ends active |
| `HostLifecycle.HostStore.DeactivateDomain` | internal/app/service.go:1746-1763 | disables all hosts of the domain and no other |
| `LoginLockout.AuthService.AuthenticatePassword` | internal/auth/auth.go:86-178 | the gate, and at which points a failure is counted or the count cleared, for this user and no other |
| `LoginLockout.AuthService.RegisterLoginFailure` | internal/store/store.go:1947-1962 | one more failure, dated at the second of two clock readings and locked for the delay of the new count from the first |
| `LoginLockout.GrantsAreGated` | internal/auth/auth.go:101-129 | nothing is granted to a locked name, a blocked source, or a name without an account, and a locked attempt does not extend the lock |
| `LoginLockout.LoginsAreExact` | internal/auth/auth.go:86-178 | a login goes through if and only if no gate stops it, the password or the directory vouches for the account, the source is allowed, and a local account has passed the second factor it needs |
| `LoginLockout.FailuresAreExact` | internal/auth/auth.go:86-167 | when a failure is counted, account kind by account kind |
| `LoginLockout.CountsAreExact` | internal/auth/auth.go:86-178 | a login that goes through clears the count, a counted failure adds one, nothing else touches it |
| `LoginLockout.PurgesAreExact` | internal/store/store.go:769-775 | the purge drops exactly the rows without a failure in the days it keeps |
| `LoginLockout.FailuresAreSpaced` | internal/store/store.go:1947-1979 | in every run the n-th counted failure since a clear comes at least 3(n-3)(n-2) seconds after the first for 3 <= n <= 53, and 300 seconds more for each later one |
| `LoginLockout.SpacingIsSharp` | internal/store/store.go:1969-1979 | hammering at the end of every lock meets the bound exactly |
| `LoginLockout.PurgeLiftsNoLock` | internal/store/store.go:769-775 | the retention purge never lifts a standing lock |
| `SetupLock.SetupService.EnsureSetupState` | internal/app/setup.go:81-104 | refresh: initialized for good, or the code is rotated when it has expired |
| `SetupLock.SetupService.RotateCode` | internal/app/setup.go:106-123 | a new code resets unlock, attempts and cooldown, and nothing changes without random bytes |
| `SetupLock.SetupService.UnlockSetup` | internal/app/setup.go:163-197 | the answer and the new lock state for right, wrong, late and cooled-down codes |
| `SetupLock.SetupService.ApplyInitialSetup` | internal/app/setup.go:199-210 | completes exactly if an unlock stands and the rest succeeds |
| `SetupLock.RunKeeps` | internal/app/setup.go:81-210 | what the lock relies on holds after every run |
| `SetupLock.WrongCodesAreBounded` | internal/app/setup.go:163-197 | per code at most 21 wrong codes are compared before a correct one, 20 in every run in which no unlock decides at the instant of expiry |
| `SetupLock.TwentyOneIsReached` | internal/app/setup.go:163-197 | both bounds are reached |
| `SetupLock.InitializedIsAbsorbing` | internal/app/setup.go:81-84 | once set up, nothing changes and nobody is admitted |
| `SetupLock.AdmissionNeedsALiveCode` | internal/app/setup.go:199-210 | in every run from the start, whoever is admitted has given a correct code that is still in force |
| `SetupLock.CorrectCodesUnlockIff` | internal/app/setup.go:163-197 | when a correct code unlocks: in the first-run mode, while the code is in force and no cooldown runs |
| `SetupLock.UnlockAndCompletionReset` | internal/app/setup.go:191-193 | an unlock forgets the wrong codes before it and stands for 45 minutes; completing the setup forgets code, unlock and cooldown |
| `SetupLock.FifthWrongCodeCools` | internal/app/setup.go:183-190 | the fifth wrong code starts exactly five minutes in which no code unlocks |
| `SetupLock.ExpiredCodesAreReplaced` | internal/app/setup.go:176-181 | an answer that the code has expired comes with a new one for the next 20 minutes |
| `SetupLock.UnlockedSetupsComplete` | internal/app/setup.go:191-210 | after an unlock the setup can be completed for exactly 45 minutes, as long as the code is in force |
| `SetupLock.SetupCanBeCompleted` | internal/app/setup.go:138-210 | from the start, status, right code and valid form within 20 minutes complete the setup |
| `BackupSchedule.DeletingTheOldest` | internal/app/backup_schedule.go:516-524 | deleting the oldest row of a storage takes the head off its list and leaves the other storage alone |
| `BackupSchedule.OldestIsNotNewest` | internal/app/backup_schedule.go:516-524 | as long as two rows are left, that is not the newest row of all |
| `BackupSchedule.NewestAreLast` | internal/app/backup_schedule.go:516-524 | retention keeps as many rows as it may, from the end of the list |
| `BackupSchedule.OfIsComplete` | internal/store/store.go:3898-3919 | the list of a storage holds all its rows and no other |
| `BackupSchedule.Schedule.InsertArchive` | internal/store/store.go:3838-3856 | a row dated now, or none if the write fails |
| `BackupSchedule.CopiesAreExact` | internal/app/backup_schedule.go:459-495 | which targets get a copy |
| `BackupSchedule.Schedule.EnforceRetention` | internal/app/backup_schedule.go:511-538 | leaves as many rows of the storage as it may, the last of them, the other storage as it was, and keeps the newest row of all |
| `BackupSchedule.Schedule.StoreArchive` | internal/app/backup_schedule.go:456-495 | stored if one target succeeds; the newest row is the last that this run wrote, if it wrote one |
| `BackupSchedule.Schedule.EnforceArchiveRetention` | internal/app/backup_schedule.go:511-538 | retention of the enabled storages only, that of the server only with its password |
| `BackupSchedule.Schedule.Execute` | internal/app/backup_schedule.go:456-498 | the guard goes by exactly the latest time the run left on record, or by what it went by before if it left none |
| `BackupSchedule.Schedule.RunScheduledBackup` | internal/app/backup_schedule.go:416-509 | which runs are held back, and that every scheduled run keeps the interval from all that earlier runs left on record |
| `BackupSchedule.Schedule.ArchivesAreSpaced` | internal/app/backup_schedule.go:416-509 | a copy made by a scheduled run is at least the interval later than every copy of an earlier run that the earlier run's record covers, whatever other runs failed to record |
| `BackupSchedule.CoveredCopies` | internal/app/backup_schedule.go:459-498 | the local copy is covered if and only if one record was written; the copy on the server if and only if its row or the last-run setting was, or the local row at the same instant |
| `BackupSchedule.UnrecordedRunsRepeat` | internal/app/backup_schedule.go:427-444 | without a record, the next tick a minute later stores again, whatever the interval |
| `BackupSchedule.UncoveredCopiesAreCrowded` | internal/app/backup_schedule.go:427-444 | with the local row alone, the next run stores less than the interval after the copy on the server |

## Left out

- SQL text, SQLite behaviour, row limits of list queries (20000, 50000, 200000), and store errors that the code ignores; timestamps are integers, so the string order of times with different fraction widths is not modelled.
- Overlap of a tick and an event, beyond the ban-history invariant at statement level: a lost update of the tracked state is possible and not modelled.
- ThreatRecord.LoadConfig: settings are fixed during a run; changing levels between events is not modelled. The further clamps inside the event call cannot apply to a loaded configuration.
- Levels.ThresholdIsNearest: 1.6, 0.93 and the burst factors are exact rationals; floating-point rounding is not modelled.
- ThreatService.Service.ApplyThreatIntelEvent: does not model the temporary-block counter, the stored top signal and signal counts, the tier, the match log, signature detection, and the trimming and lowercasing of strings; signals come in as strings in lower case.
- ThreatService.Service.ReconcileThreatIntelDecay: does not model rehabilitation counts and their log; the reason and the XP noted in history rows are left out too.
- ThreatService.Service.ReconcileOSFirewall: the address family and publicness of an IP is a parameter, sorting is left out, and so is a service without an enforcer.
- Firewall.NftEnforcer.Replace: creating the table and the sets is left out; a command that adds elements takes effect as a whole or not at all.
- EdgeGate.HandleRequest: whether a request carries a threat signal is a parameter, with it the exemption of local and allowlisted clients; routing, country rules, the flood limiter's answer and the pages are not part of it.
- The reasons stored with allowlist entries.
- TrafficRecorder.Recorder.Flush: only successful flushes; a failed upsert loses its batch, and the flush at shutdown runs under a cancelled context. The fully qualified name column, 64-bit overflow of sums, and the classification of user agents are not modelled.
- The live view of traffic, which publishes after releasing its lock.
- FloodLimiter.Limiter.IsBlocked: the reason of a block is left out; whether a client is local is a parameter.
- RoundRobin.Route.SelectBackendIndex: reachability is a parameter; a route refresh starts a new route with a new counter.
- HostLifecycle.HostStore.SetHostState: the write of the state and its log row succeed together; removal of hosts is left out. The backoff of retries is a parameter.
- LoginLockout.AuthService.AuthenticatePassword: names are normalised already, password, directory and second-factor checks are parameters, two logins of one name do not overlap, and the sign-on of external identities is left out.
- SetupLock.SetupService.EnsureSetupState: a failing count of users, which ends the call with nothing changed, is left out; so is the validation of the setup form, which is a parameter.
- SetupLock.SetupService.UnlockSetup: whether the code is right is a parameter; generating, hashing and comparing codes is not modelled.
- BackupSchedule.Schedule.RunScheduledBackup: building, encrypting, storing and uploading the package succeed or fail by parameter; the deletion of files, and of rows by an administrator, and failing deletes are left out.
- HTTP handlers, pages, certificates, DNS, directories, FTP, SSH, GeoIP, cryptography and the execution of commands: foreign calls.
