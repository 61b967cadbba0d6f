/** The one-time code that guards the initial setup: its expiry, the cooldown after wrong codes,
    and the unlock it grants. Times are in nanoseconds; each call reads the clock twice, when it
    refreshes the state (`early`) and when it decides (`late`). */
module SetupLock {
  import opened Options
  import opened Time

  const CODE_TTL := 20 * MINUTE
  const UNLOCK_TTL := 45 * MINUTE
  const COOLDOWN := 5 * MINUTE
  const MAX_ATTEMPTS := 5

  /** The lock state. `None` is Go's zero time. The last two fields are history: how many wrong
      codes have been compared with the current code before a correct one, and whether a
      correct one has been given. */
  datatype Setup = Setup(initialized: bool, expires: Option<int>, unlockUntil: Option<int>,
                         attempts: int, cooldown: Option<int>, wrong: int, solved: bool)

  const FRESH := Setup(false, None, None, 0, None, 0, false)

  predicate Before(now: int, t: Option<int>) {
    t.Some? && now < t.value
  }

  /** Outside influences on a call: setup marked as completed in the store, users that exist,
      and whether random bytes are to be had. */
  datatype World = World(completed: bool, users: bool, random: bool)

  function Rotated(now: int): Setup {
    Setup(false, Some(now + CODE_TTL), None, 0, None, 0, false)
  }

  predicate Refreshes(s: Setup, w: World, now: int) {
    s.initialized || w.completed || w.users || Before(now, s.expires) || w.random
  }

  /** The state after the refresh that opens every call. */
  function Refreshed(s: Setup, w: World, now: int): Setup {
    if s.initialized then s
    else if w.completed || w.users then s.(initialized := true)
    else if Before(now, s.expires) || !w.random then s
    else Rotated(now)
  }

  function AfterWrong(s: Setup, now: int): Setup {
    var wrong := if s.solved then s.wrong else s.wrong + 1;
    if s.attempts + 1 >= MAX_ATTEMPTS then s.(attempts := 0, cooldown := Some(now + COOLDOWN), wrong := wrong)
    else s.(attempts := s.attempts + 1, wrong := wrong)
  }

  function AfterCorrect(s: Setup, now: int): Setup {
    s.(unlockUntil := Some(now + UNLOCK_TTL), attempts := 0, cooldown := None, solved := true)
  }

  datatype UnlockResult = UnlockError | AlreadyInitialized | CoolingDown | CodeExpired | WrongCode | Unlocked

  function UnlockAnswer(s: Setup, w: World, correct: bool, early: int, late: int): UnlockResult {
    var r := Refreshed(s, w, early);
    if !Refreshes(s, w, early) then UnlockError
    else if r.initialized then AlreadyInitialized
    else if Before(late, r.cooldown) then CoolingDown
    else if r.expires.None? || late > r.expires.value then CodeExpired
    else if correct then Unlocked else WrongCode
  }

  function UnlockStep(s: Setup, w: World, correct: bool, early: int, late: int): Setup {
    var r := Refreshed(s, w, early);
    match UnlockAnswer(s, w, correct, early, late)
    case CodeExpired => if w.random then Rotated(late) else r
    case WrongCode => AfterWrong(r, late)
    case Unlocked => AfterCorrect(r, late)
    case _ => r
  }

  /** The gate in front of the setup wizard and of the restore upload. */
  predicate Admitted(s: Setup, w: World, early: int, late: int) {
    && Refreshes(s, w, early) && !Refreshed(s, w, early).initialized
    && Before(late, Refreshed(s, w, early).unlockUntil)
  }

  function ApplyStep(s: Setup, w: World, succeeds: bool, early: int, late: int): Setup {
    var r := Refreshed(s, w, early);
    if Admitted(s, w, early, late) && succeeds then Setup(true, None, None, 0, None, r.wrong, r.solved) else r
  }

  class SetupService {
    var initialized: bool
    var expires: Option<int>
    var unlockUntil: Option<int>
    var attempts: int
    var cooldown: Option<int>
    ghost var wrong: int
    ghost var solved: bool

    ghost function Abs(): Setup
      reads this
    {
      Setup(initialized, expires, unlockUntil, attempts, cooldown, wrong, solved)
    }

    constructor ()
      ensures Abs() == FRESH
    {
      initialized, expires, unlockUntil, attempts, cooldown := false, None, None, 0, None;
      wrong, solved := 0, false;
    }

    method RotateCode(w: World, now: int) returns (ok: bool)
      requires !initialized
      modifies this
      ensures ok <==> w.random
      ensures Abs() == if ok then Rotated(now) else old(Abs())
    {
      if !w.random {
        return false;
      }
      expires, unlockUntil, attempts, cooldown := Some(now + CODE_TTL), None, 0, None;
      wrong, solved := 0, false;
      ok := true;
    }

    method EnsureSetupState(w: World, now: int) returns (ok: bool)
      modifies this
      ensures Abs() == Refreshed(old(Abs()), w, now) && (ok <==> Refreshes(old(Abs()), w, now))
    {
      if initialized {
        return true;
      }
      if w.completed || w.users {
        initialized := true;
        return true;
      }
      if Before(now, expires) {
        return true;
      }
      ok := RotateCode(w, now);
    }

    method UnlockSetup(w: World, correct: bool, early: int, late: int) returns (r: UnlockResult)
      modifies this
      ensures r == UnlockAnswer(old(Abs()), w, correct, early, late)
      ensures Abs() == UnlockStep(old(Abs()), w, correct, early, late)
    {
      var ok := EnsureSetupState(w, early);
      if !ok {
        return UnlockError;
      }
      if initialized {
        return AlreadyInitialized;
      }
      if Before(late, cooldown) {
        return CoolingDown;
      }
      if expires.None? || late > expires.value {
        ok := RotateCode(w, late);
        return CodeExpired;
      }
      if !correct {
        attempts := attempts + 1;
        if !solved {
          wrong := wrong + 1;
        }
        if attempts >= MAX_ATTEMPTS {
          cooldown := Some(late + COOLDOWN);
          attempts := 0;
        }
        return WrongCode;
      }
      unlockUntil := Some(late + UNLOCK_TTL);
      attempts, cooldown := 0, None;
      solved := true;
      return Unlocked;
    }

    method ApplyInitialSetup(w: World, succeeds: bool, early: int, late: int) returns (done: bool)
      modifies this
      ensures done <==> Admitted(old(Abs()), w, early, late) && succeeds
      ensures Abs() == ApplyStep(old(Abs()), w, succeeds, early, late)
    {
      var ok := EnsureSetupState(w, early);
      if !ok || initialized || !Before(late, unlockUntil) || !succeeds {
        return false;
      }
      initialized := true;
      expires, unlockUntil, attempts, cooldown := None, None, 0, None;
      done := true;
    }
  }

  // ---------- Runs ----------

  datatype Op =
    | Status(w: World, early: int, late: int)
    | Unlock(w: World, correct: bool, early: int, late: int)
    | Apply(w: World, succeeds: bool, early: int, late: int)

  function Step(s: Setup, op: Op): Setup {
    match op
    case Status(w, early, _) => Refreshed(s, w, early)
    case Unlock(w, correct, early, late) => UnlockStep(s, w, correct, early, late)
    case Apply(w, succeeds, early, late) => ApplyStep(s, w, succeeds, early, late)
  }

  function Run(s: Setup, ops: seq<Op>): Setup
    decreases |ops|
  {
    if |ops| == 0 then s else Run(Step(s, ops[0]), ops[1..])
  }

  predicate Chronological(ops: seq<Op>, clock: int)
    decreases |ops|
  {
    |ops| > 0 ==> clock <= ops[0].early <= ops[0].late && Chronological(ops[1..], ops[0].late)
  }

  /** Completed bursts of five wrong codes. */
  function Bursts(s: Setup): int {
    (s.wrong - s.attempts) / 5
  }

  /** `clock` is the last reading. Every full burst costs five minutes of the code's twenty, so
      four bursts fit; a 21st comparison needs a reading at the very instant of expiry. */
  predicate SetupInv(s: Setup, clock: int) {
    s.initialized ||
    match s.expires
    case None => s == FRESH
    case Some(e) =>
      && (s.unlockUntil.Some? ==> s.solved)
      && 0 <= s.attempts < 5 && 0 <= s.wrong <= 21
      && (s.wrong == 21 ==> e <= clock)
      && (!s.solved ==>
            && s.wrong == 5 * Bursts(s) + s.attempts
            && (Bursts(s) > 0 ==> s.cooldown.Some? && s.cooldown.value >= e - CODE_TTL + Bursts(s) * 5 * MINUTE))
      && e <= clock + CODE_TTL
  }

  lemma RefreshKeeps(s: Setup, w: World, clock: int, now: int)
    requires SetupInv(s, clock) && clock <= now
    ensures SetupInv(Refreshed(s, w, now), now)
    ensures var r := Refreshed(s, w, now);
      Refreshes(s, w, now) && !r.initialized ==> Before(now, r.expires) && r.wrong <= 20
  {
  }

  lemma WrongKeeps(s: Setup, early: int, late: int)
    requires SetupInv(s, early) && early <= late && !s.initialized && Before(early, s.expires) && s.wrong <= 20
    requires !Before(late, s.cooldown) && late <= s.expires.value
    ensures SetupInv(AfterWrong(s, late), late)
    ensures late < s.expires.value ==> AfterWrong(s, late).wrong <= 20
  {
    var n := AfterWrong(s, late);
    if !s.solved {
      var b := Bursts(s);
      assert s.wrong == 5 * b + s.attempts;
      assert b <= 4 && (late < s.expires.value ==> b <= 3);
      if s.attempts == 4 {
        assert n.wrong == 5 * (b + 1) && Bursts(n) == b + 1;
      } else {
        assert n.wrong - n.attempts == 5 * b && Bursts(n) == b;
      }
    }
  }

  /** An unlock that reads the clock before its code expires and decides at that very instant. */
  predicate AtExpiry(s: Setup, op: Op) {
    op.Unlock? && Refreshes(s, op.w, op.early) &&
    var r := Refreshed(s, op.w, op.early);
    !r.initialized && r.expires == Some(op.late)
  }

  /** A single reading cannot do that. */
  lemma AtExpiryTakesTwoReadings(s: Setup, op: Op)
    ensures AtExpiry(s, op) ==> op.early != op.late
  {
  }

  lemma StepKeeps(s: Setup, op: Op, clock: int)
    requires SetupInv(s, clock) && clock <= op.early <= op.late
    ensures SetupInv(Step(s, op), op.late)
    ensures !AtExpiry(s, op) && s.wrong <= 20 && !Step(s, op).initialized ==> Step(s, op).wrong <= 20
  {
    var r := Refreshed(s, op.w, op.early);
    RefreshKeeps(s, op.w, clock, op.early);
    if op.Unlock? && UnlockAnswer(s, op.w, op.correct, op.early, op.late) == WrongCode {
      WrongKeeps(r, op.early, op.late);
    }
  }

  predicate NeverAtExpiry(s: Setup, ops: seq<Op>)
    decreases |ops|
  {
    |ops| > 0 ==> !AtExpiry(s, ops[0]) && NeverAtExpiry(Step(s, ops[0]), ops[1..])
  }

  function LastReading(ops: seq<Op>, clock: int): int {
    if |ops| == 0 then clock else ops[|ops| - 1].late
  }

  lemma {:induction false} RunKeeps(s: Setup, ops: seq<Op>, clock: int)
    requires SetupInv(s, clock) && Chronological(ops, clock)
    ensures SetupInv(Run(s, ops), LastReading(ops, clock))
    decreases |ops|
  {
    if |ops| > 0 {
      StepKeeps(s, ops[0], clock);
      RunKeeps(Step(s, ops[0]), ops[1..], ops[0].late);
      assert |ops| > 1 ==> ops[1..][|ops| - 2] == ops[|ops| - 1];
    }
  }

  /** At most 21 wrong codes are ever compared with a code before a correct one; 20 unless
      an unlock decides at the very instant at which its code expires. */
  lemma {:induction false} WrongCodesAreBounded(s: Setup, ops: seq<Op>, clock: int)
    requires SetupInv(s, clock) && Chronological(ops, clock)
    ensures !Run(s, ops).initialized ==> Run(s, ops).wrong <= 21
    ensures !Run(s, ops).initialized && NeverAtExpiry(s, ops) && s.wrong <= 20 ==> Run(s, ops).wrong <= 20
    decreases |ops|
  {
    RunKeeps(s, ops, clock);
    if |ops| > 0 {
      StepKeeps(s, ops[0], clock);
      if Step(s, ops[0]).initialized {
        InitializedIsAbsorbing(Step(s, ops[0]), ops[1..]);
      }
      WrongCodesAreBounded(Step(s, ops[0]), ops[1..], ops[0].late);
    }
  }

  /** Once set up, always set up; nothing is unlocked or admitted any more. */
  lemma {:induction false} InitializedIsAbsorbing(s: Setup, ops: seq<Op>)
    requires s.initialized
    ensures Run(s, ops) == s
    ensures forall w, early, late :: !Admitted(s, w, early, late)
    decreases |ops|
  {
    if |ops| > 0 {
      InitializedIsAbsorbing(Step(s, ops[0]), ops[1..]);
    }
  }

  /** An unlock never outlives its code: in every run from the start of the program, whoever is
      admitted has given a correct code, and that code is still in force when the call comes in,
      although the unlock itself is dated 45 minutes ahead. */
  lemma AdmissionNeedsALiveCode(ops: seq<Op>, w: World, early: int, late: int, clock: int)
    requires Chronological(ops, clock) && LastReading(ops, clock) <= early <= late
    requires Admitted(Run(FRESH, ops), w, early, late)
    ensures var s := Run(FRESH, ops);
            s.solved && Before(early, s.expires) && s.expires.value <= LastReading(ops, clock) + CODE_TTL
  {
    RunKeeps(FRESH, ops, clock);
    RefreshKeeps(Run(FRESH, ops), w, LastReading(ops, clock), early);
  }

  // ---------- The bounds are sharp ----------

  const QUIET := World(false, false, true)

  function WrongAt(t: int): Op {
    Unlock(QUIET, false, t, t)
  }

  function Five(t: int): seq<Op> {
    [WrongAt(t), WrongAt(t), WrongAt(t), WrongAt(t), WrongAt(t)]
  }

  /** A burst when no cooldown is running. */
  lemma BurstCounts(s: Setup, t: int)
    requires !s.initialized && Before(t, s.expires) && !Before(t, s.cooldown) && s.attempts == 0 && !s.solved
    ensures Run(s, Five(t)) == s.(cooldown := Some(t + COOLDOWN), wrong := s.wrong + 5)
  {
    var ops := Five(t);
    var s1 := Step(s, ops[0]);
    var s2 := Step(s1, ops[0]);
    var s3 := Step(s2, ops[0]);
    var s4 := Step(s3, ops[0]);
    assert Run(s, ops) == Run(s1, ops[1..]);
    assert Run(s1, ops[1..]) == Run(s2, ops[2..]);
    assert Run(s2, ops[2..]) == Run(s3, ops[3..]);
    assert Run(s3, ops[3..]) == Run(s4, ops[4..]);
    assert Run(s4, ops[4..]) == Step(s4, ops[0]);
  }

  /** Twenty wrong codes do get compared, and a 21st with a first reading just before the code
      expires and a second one at that instant. */
  lemma TwentyOneIsReached(t: int)
    ensures var s0 := Step(FRESH, Status(QUIET, t, t));
            var s1 := Run(s0, Five(t));
            var s2 := Run(s1, Five(t + COOLDOWN));
            var s3 := Run(s2, Five(t + 2 * COOLDOWN));
            var s4 := Run(s3, Five(t + 3 * COOLDOWN));
            var s5 := Step(s4, Unlock(QUIET, false, t + CODE_TTL - 1, t + CODE_TTL));
            s4.wrong == 20 && s5.wrong == 21
  {
    var s0 := Step(FRESH, Status(QUIET, t, t));
    var s1 := Run(s0, Five(t));
    BurstCounts(s0, t);
    var s2 := Run(s1, Five(t + COOLDOWN));
    BurstCounts(s1, t + COOLDOWN);
    var s3 := Run(s2, Five(t + 2 * COOLDOWN));
    BurstCounts(s2, t + 2 * COOLDOWN);
    BurstCounts(s3, t + 3 * COOLDOWN);
  }

  // ---------- A correct code opens the wizard ----------

  /** The answer to a correct code, in the first-run mode: it unlocks exactly if the code is still
      in force and no cooldown is running. */
  lemma CorrectCodesUnlockIff(s: Setup, w: World, early: int, late: int, clock: int)
    requires SetupInv(s, clock) && clock <= early <= late
    ensures UnlockAnswer(s, w, true, early, late) == Unlocked <==>
            && !s.initialized && !w.completed && !w.users
            && (Before(early, s.expires) || w.random)
            && (Before(early, s.expires) ==> !Before(late, s.cooldown) && late <= s.expires.value)
            && (!Before(early, s.expires) ==> late <= early + 20 * MINUTE)
  {
  }

  /** It forgets the wrong codes before it, and completing the setup forgets the code itself. */
  lemma UnlockAndCompletionReset(s: Setup, w: World, early: int, late: int, succeeds: bool)
    ensures var q := UnlockStep(s, w, true, early, late);
            UnlockAnswer(s, w, true, early, late) == Unlocked ==>
              q.attempts == 0 && q.cooldown.None? && q.unlockUntil == Some(late + 45 * MINUTE) &&
              q.expires == Refreshed(s, w, early).expires
    ensures var q := ApplyStep(s, w, succeeds, early, late);
            Admitted(s, w, early, late) && succeeds ==>
              q.initialized && q.expires.None? && q.unlockUntil.None? && q.attempts == 0 && q.cooldown.None?
  {
  }

  /** A wrong code never unlocks, and the fifth in a row starts five minutes in which no code does. */
  lemma FifthWrongCodeCools(s: Setup, w: World, correct: bool, early: int, late: int, early2: int, late2: int)
    requires UnlockAnswer(s, w, false, early, late) == WrongCode && Refreshed(s, w, early).attempts == 4
    requires !w.completed && !w.users && early <= late <= early2 <= late2
    requires Before(early2, Refreshed(s, w, early).expires)
    ensures var cooling := UnlockStep(s, w, false, early, late);
            UnlockAnswer(cooling, w, correct, early2, late2) == CoolingDown <==> late2 < late + 5 * MINUTE
  {
  }

  /** An answer that the code has expired comes with a new one for the next 20 minutes. */
  lemma ExpiredCodesAreReplaced(s: Setup, w: World, correct: bool, early: int, late: int)
    requires UnlockAnswer(s, w, correct, early, late) == CodeExpired && w.random
    ensures var q := UnlockStep(s, w, correct, early, late);
            q.expires == Some(late + 20 * MINUTE) && q.unlockUntil.None? && q.cooldown.None? &&
            q.attempts == 0 && q.wrong == 0 && !q.solved
  {
  }

  /** Whoever has unlocked the setup can complete it, for 45 minutes and as long as the code is in
      force. */
  lemma UnlockedSetupsComplete(s: Setup, w: World, early: int, late: int, early2: int, late2: int)
    requires UnlockAnswer(s, w, true, early, late) == Unlocked && early <= late <= early2 <= late2
    requires !w.completed && !w.users && Before(early2, Refreshed(s, w, early).expires)
    ensures var unlocked := UnlockStep(s, w, true, early, late);
            && (Admitted(unlocked, w, early2, late2) <==> late2 < late + 45 * MINUTE)
            && (ApplyStep(unlocked, w, true, early2, late2).initialized <==> late2 < late + 45 * MINUTE)
            && !ApplyStep(unlocked, w, false, early2, late2).initialized
  {
  }

  /** From the start: status, the right code within the 20 minutes, and a valid form before they are
      over complete the setup. */
  lemma SetupCanBeCompleted(t: int, unlock: int, apply: int)
    requires t <= unlock <= apply < t + 20 * MINUTE
    ensures var ops := [Status(QUIET, t, t), Unlock(QUIET, true, unlock, unlock), Apply(QUIET, true, apply, apply)];
            Run(FRESH, ops).initialized
  {
    var ops := [Status(QUIET, t, t), Unlock(QUIET, true, unlock, unlock), Apply(QUIET, true, apply, apply)];
    var s1 := Step(FRESH, ops[0]);
    var s2 := Step(s1, ops[1]);
    UnlockedSetupsComplete(s1, QUIET, unlock, unlock, apply, apply);
    assert Run(FRESH, ops) == Run(s1, ops[1..]);
    assert Run(s1, ops[1..]) == Run(s2, ops[2..]);
    assert Run(s2, ops[2..]) == Step(s2, ops[2]);
  }
}
