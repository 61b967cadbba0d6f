/** The lockout of password logins: which failures count, and how far apart counted failures
    must lie. Times are in nanoseconds. */
module LoginLockout {
  import opened Options
  import opened Time

  /** The delay after the `fails`-th failure, in seconds. */
  function DelaySeconds(fails: int): int {
    if fails < 3 then 0 else if (fails - 2) * 6 > 300 then 300 else (fails - 2) * 6
  }

  function Delay(fails: int): int {
    DelaySeconds(fails) * SECOND
  }

  /** The stored attempt row. */
  datatype Attempt = Attempt(failed: nat, lastFailed: int, lockUntil: int)

  // ---------- One login ----------

  datatype Account = NoAccount | LookupError | LocalAccount | LdapAccount

  /** What the parts of the check answer. `ldapCounts`: the failure detail of the directory is
      not an outage or misconfiguration. */
  datatype Checks = Checks(sourceBlocked: bool, account: Account, ldapOk: bool, ldapCounts: bool, passwordOk: bool,
                           sourceAllowed: bool, mfaRequired: bool, mfaEnrolled: bool, mfaOk: bool, sessionOk: bool)

  datatype Outcome = Granted | NoSession | Locked | Refused | CountedFailure

  predicate IsLocked(a: Option<Attempt>, now: int) {
    a.Some? && a.value.failed > 0 && a.value.lockUntil > now
  }

  /** Multi-factor checks never apply to directory accounts. */
  function MfaApplies(c: Checks): bool {
    c.mfaRequired && !c.account.LdapAccount?
  }

  function OutcomeOf(a: Option<Attempt>, c: Checks, now: int): Outcome {
    if c.sourceBlocked then Refused
    else if IsLocked(a, now) then Locked
    else if c.account.LookupError? then Refused
    else if c.account.NoAccount? then (if !c.ldapOk && c.ldapCounts then CountedFailure else Refused)
    else if c.account.LdapAccount? && !c.ldapOk then (if c.ldapCounts then CountedFailure else Refused)
    else if c.account.LocalAccount? && !c.passwordOk then CountedFailure
    else if !c.sourceAllowed then CountedFailure
    else if MfaApplies(c) && (!c.mfaEnrolled || !c.mfaOk) then CountedFailure
    else if c.sessionOk then Granted else NoSession
  }

  /** The lock runs from a reading of the clock just before the one that dates the failure. */
  function Registered(a: Option<Attempt>, lock: int, now: int): Attempt {
    var failed := 1 + if a.Some? then a.value.failed else 0;
    Attempt(failed, now, lock + Delay(failed))
  }

  /** The clock is read at `gate` to check the lock, and at `lock` and `now` to register a
      failure. */
  function LoginStep(a: Option<Attempt>, c: Checks, gate: int, lock: int, now: int): Option<Attempt> {
    match OutcomeOf(a, c, gate)
    case CountedFailure => Some(Registered(a, lock, now))
    case Granted => None
    case NoSession => None
    case Locked => a
    case Refused => a
  }

  class AuthService {
    var attempts: map<string, Attempt>

    function AttemptOf(user: string): Option<Attempt>
      reads this
    {
      if user in attempts then Some(attempts[user]) else None
    }

    constructor ()
      ensures attempts == map[]
    {
      attempts := map[];
    }

    method RegisterLoginFailure(user: string, lock: int, now: int)
      modifies this
      ensures attempts == old(attempts)[user := Registered(old(AttemptOf(user)), lock, now)]
    {
      var failed := 1 + if user in attempts then attempts[user].failed else 0;
      attempts := attempts[user := Attempt(failed, now, lock + Delay(failed))];
    }

    method ClearLoginFailures(user: string)
      modifies this
      ensures attempts == old(attempts) - {user}
    {
      attempts := attempts - {user};
    }

    method AuthenticatePassword(user: string, c: Checks, gate: int, lock: int, now: int) returns (o: Outcome)
      modifies this
      ensures o == OutcomeOf(old(AttemptOf(user)), c, gate)
      ensures AttemptOf(user) == LoginStep(old(AttemptOf(user)), c, gate, lock, now)
      ensures forall other :: other != user ==> AttemptOf(other) == old(AttemptOf(other))
    {
      if c.sourceBlocked {
        return Refused;
      }
      if user in attempts && attempts[user].failed > 0 && attempts[user].lockUntil > gate {
        return Locked;
      }
      if c.account.NoAccount? {
        if c.ldapOk {
          // The directory vouches for the user, but the error of the lookup is returned.
          return Refused;
        }
        if c.ldapCounts {
          RegisterLoginFailure(user, lock, now);
          return CountedFailure;
        }
        return Refused;
      }
      if c.account.LookupError? {
        return Refused;
      }
      if c.account.LdapAccount? {
        if !c.ldapOk {
          if c.ldapCounts {
            RegisterLoginFailure(user, lock, now);
            return CountedFailure;
          }
          return Refused;
        }
      } else if !c.passwordOk {
        RegisterLoginFailure(user, lock, now);
        return CountedFailure;
      }
      if !c.sourceAllowed {
        RegisterLoginFailure(user, lock, now);
        return CountedFailure;
      }
      if c.mfaRequired && !c.account.LdapAccount? {
        if !c.mfaEnrolled || !c.mfaOk {
          RegisterLoginFailure(user, lock, now);
          return CountedFailure;
        }
      }
      ClearLoginFailures(user);
      return if c.sessionOk then Granted else NoSession;
    }

    method PurgeLoginAttemptsBefore(days: int, now: int)
      modifies this
      ensures forall user :: AttemptOf(user) == Purged(old(AttemptOf(user)), days, now)
    {
      attempts := map user | user in attempts && attempts[user].lastFailed >= now - days * DAY :: attempts[user];
    }
  }

  function Purged(a: Option<Attempt>, days: int, now: int): Option<Attempt> {
    if a.Some? && a.value.lastFailed < now - days * DAY then None else a
  }

  /** No login succeeds while the lock stands, and none for a name without an account, whatever
      the directory says. */
  lemma GrantsAreGated(a: Option<Attempt>, c: Checks, gate: int)
    ensures OutcomeOf(a, c, gate).Granted? ==> !IsLocked(a, gate) && !c.sourceBlocked && !c.account.NoAccount?
    ensures IsLocked(a, gate) ==> forall lock, now :: LoginStep(a, c, gate, lock, now) == a
  {
  }

  /** The password, or the directory, vouches for the account. */
  predicate Vouched(c: Checks) {
    (c.account.LocalAccount? && c.passwordOk) || (c.account.LdapAccount? && c.ldapOk)
  }

  /** The second factor is not asked for, or has been given. */
  predicate FactorPassed(c: Checks) {
    c.account.LocalAccount? && c.mfaRequired ==> c.mfaEnrolled && c.mfaOk
  }

  predicate AtGate(a: Option<Attempt>, c: Checks, gate: int) {
    c.sourceBlocked || (a.Some? && a.value.failed > 0 && gate < a.value.lockUntil)
  }

  /** A login goes through exactly if no gate stops it, the account is vouched for, the source is
      allowed, and a local account has passed the second factor it needs. */
  lemma LoginsAreExact(a: Option<Attempt>, c: Checks, gate: int)
    ensures var o := OutcomeOf(a, c, gate);
            && (o.Granted? || o.NoSession? <==> !AtGate(a, c, gate) && Vouched(c) && c.sourceAllowed && FactorPassed(c))
            && (o.Granted? ==> c.sessionOk) && (o.NoSession? ==> !c.sessionOk)
  {
  }

  /** A failure is counted exactly if no gate stops the login and a wrong password, a refusal by
      the directory that is not an outage, the source, or the second factor does. */
  lemma FailuresAreExact(a: Option<Attempt>, c: Checks, gate: int)
    ensures OutcomeOf(a, c, gate).CountedFailure? <==>
            !AtGate(a, c, gate) &&
            match c.account
            case LookupError => false
            case NoAccount => !c.ldapOk && c.ldapCounts
            case LocalAccount => !(c.passwordOk && c.sourceAllowed && FactorPassed(c))
            case LdapAccount => if c.ldapOk then !c.sourceAllowed else c.ldapCounts
  {
  }

  /** A login that goes through clears the count, a counted failure adds one to it, and nothing else
      touches it. */
  lemma CountsAreExact(a: Option<Attempt>, c: Checks, gate: int, lock: int, now: int)
    ensures var o, next := OutcomeOf(a, c, gate), LoginStep(a, c, gate, lock, now);
            && (o.Granted? || o.NoSession? ==> next.None?)
            && (o.CountedFailure? ==>
                  && next.Some? && next.value.lastFailed == now
                  && next.value.failed == (if a.Some? then a.value.failed else 0) + 1)
            && (o.Locked? || o.Refused? ==> next == a)
  {
  }

  /** The retention purge drops exactly the rows without a failure in the days it keeps. */
  lemma PurgesAreExact(a: Attempt, days: int, now: int)
    ensures Purged(Some(a), days, now) == if now > a.lastFailed + days * DAY then None else Some(a)
  {
  }

  // ---------- Spacing ----------

  /** The least time, in seconds, from the first to the `n`-th counted failure. */
  function Spacing(n: int): int {
    if n <= 3 then 0
    else if n <= 53 then 3 * (n - 3) * (n - 2)
    else 7650 + 300 * (n - 53)
  }

  lemma SpacingStep(n: int)
    requires n >= 1
    ensures Spacing(n + 1) == Spacing(n) + DelaySeconds(n)
  {
    if 3 <= n <= 52 {
      assert 3 * (n - 2) * (n - 1) == 3 * (n - 3) * (n - 2) + 6 * (n - 2);
    }
  }

  /** The row of a user in the course of a run, and when the first of the failures it counts came,
      which the program does not store. */
  datatype Course = Course(row: Option<Attempt>, first: int)

  /** The reading from which the lock runs. */
  function LockedFrom(a: Attempt): int {
    a.lockUntil - Delay(a.failed)
  }

  predicate CourseInv(c: Course, clock: int) {
    c.row.Some? ==>
      var a := c.row.value;
      && a.failed >= 1 && c.first <= a.lastFailed <= clock
      && LockedFrom(a) <= a.lastFailed
      && (a.failed >= 3 ==> LockedFrom(a) - c.first >= Spacing(a.failed) * SECOND)
  }

  datatype Op = Login(checks: Checks, gate: int, lock: int, now: int) | Clear(now: int) | Purge(days: int, now: int)

  function StepRow(a: Option<Attempt>, op: Op): Option<Attempt> {
    match op
    case Login(c, gate, lock, now) => LoginStep(a, c, gate, lock, now)
    case Clear(_) => None
    case Purge(days, now) => Purged(a, days, now)
  }

  function Step(c: Course, op: Op): Course {
    Course(StepRow(c.row, op), if c.row.None? then op.now else c.first)
  }

  function Run(c: Course, ops: seq<Op>): Course
    decreases |ops|
  {
    if |ops| == 0 then c else Run(Step(c, ops[0]), ops[1..])
  }

  predicate InOrder(op: Op, clock: int) {
    op.Login? ==> clock <= op.gate <= op.lock <= op.now
  }

  predicate Chronological(ops: seq<Op>, clock: int)
    decreases |ops|
  {
    |ops| > 0 ==>
      clock <= ops[0].now && InOrder(ops[0], clock) &&
      Chronological(ops[1..], ops[0].now)
  }

  lemma StepKeeps(c: Course, op: Op, clock: int)
    requires CourseInv(c, clock) && clock <= op.now && InOrder(op, clock)
    ensures CourseInv(Step(c, op), op.now)
  {
    if c.row.Some? {
      SpacingStep(c.row.value.failed);
    }
  }

  function LastTime(ops: seq<Op>, clock: int): int {
    if |ops| == 0 then clock else ops[|ops| - 1].now
  }

  /** In every run the `n`-th failure counted since the row was last cleared comes at least
      `3 (n-3) (n-2)` seconds after the first, for 3 <= n <= 53, and each later one adds 300. */
  lemma {:induction false} FailuresAreSpaced(c: Course, ops: seq<Op>, clock: int)
    requires CourseInv(c, clock) && Chronological(ops, clock)
    ensures CourseInv(Run(c, ops), LastTime(ops, clock))
    ensures var r := Run(c, ops);
      r.row.Some? ==>
        var n, spread := r.row.value.failed, r.row.value.lastFailed - r.first;
        && (3 <= n <= 53 ==> spread >= 3 * (n - 3) * (n - 2) * SECOND)
        && (n > 53 ==> spread >= (7650 + 300 * (n - 53)) * SECOND)
    decreases |ops|
  {
    if |ops| > 0 {
      StepKeeps(c, ops[0], clock);
      FailuresAreSpaced(Step(c, ops[0]), ops[1..], ops[0].now);
      assert |ops| > 1 ==> ops[1..][|ops| - 2] == ops[|ops| - 1];
    }
  }

  /** `n` wrong passwords, each the moment the lock is over. */
  function Hammer(c: Course, n: nat, now: int): Course
    decreases n
  {
    if n == 0 then c else
      var t := if c.row.Some? then c.row.value.lockUntil else now;
      Hammer(Step(c, Login(WRONG, t, t, t)), n - 1, now)
  }

  const WRONG := Checks(false, LocalAccount, false, false, false, true, false, false, false, true)

  /** The spacing is exact: nobody who hammers is held up longer. */
  lemma {:induction false} SpacingIsSharp(c: Course, n: nat, now: int)
    requires c.row.Some? && c.row.value.failed >= 1
    requires c.row.value.lockUntil == c.row.value.lastFailed + Delay(c.row.value.failed)
    requires c.row.value.lastFailed - c.first == Spacing(c.row.value.failed) * SECOND
    ensures var r := Hammer(c, n, now);
      r.row.Some? && r.row.value.failed == c.row.value.failed + n && r.first == c.first &&
      r.row.value.lastFailed - r.first == Spacing(c.row.value.failed + n) * SECOND
    decreases n
  {
    if n > 0 {
      var a := c.row.value;
      var op := Login(WRONG, a.lockUntil, a.lockUntil, a.lockUntil);
      SpacingStep(a.failed);
      assert Step(c, op) == Course(Some(Registered(c.row, a.lockUntil, a.lockUntil)), c.first);
      SpacingIsSharp(Step(c, op), n - 1, now);
    }
  }

  /** The retention purge never lifts a lock that stands. */
  lemma PurgeLiftsNoLock(a: Option<Attempt>, days: int, now: int, gate: int)
    requires (a.Some? ==> LockedFrom(a.value) <= a.value.lastFailed) && days >= 1 && gate >= now
    ensures IsLocked(Purged(a, days, now), gate) <==> IsLocked(a, gate)
  {
  }
}
