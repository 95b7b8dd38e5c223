/** Account lockout: one user's row, what a login does to it, and how fast passwords can be tried. */
module Lockout {
  import opened Basics
  import opened RefreshTokens

  datatype User = User(active: bool, failedCount: nat, lockedUntil: Option<Time>, lastLogin: Option<Time>)

  datatype Settings = Settings(maxAttempts: nat, lockSeconds: nat, ttl: nat) {
    // Field(gt=0)
    predicate Valid() { maxAttempts > 0 && lockSeconds > 0 && ttl > 0 }
  }

  function ResetExpired(u: User, now: Time): User {
    if u.lockedUntil.Some? && u.lockedUntil.value <= now then u.(failedCount := 0, lockedUntil := None) else u
  }

  function CountFailure(u: User): User {
    u.(failedCount := u.failedCount + 1)
  }

  function LockUntil(u: User, until: Time): User {
    u.(lockedUntil := Some(until))
  }

  function ClearFailures(u: User, at: Time): User {
    u.(failedCount := 0, lockedUntil := None, lastLogin := Some(at))
  }

  datatype Verdict = Refused | BadPassword | LoggedIn

  predicate Locked(u: User, now: Time) {
    u.lockedUntil.Some? && u.lockedUntil.value > now
  }

  // The password is compared with the account's own hash, not with the dummy.
  predicate ChecksPassword(u: User, now: Time) {
    !Locked(u, now) && u.active
  }

  // One login: it reads the clock at "now", and again at "later" once the password is checked.
  datatype Attempt = Attempt(now: Time, later: Time, correct: bool)

  function Judge(u: User, a: Attempt): Verdict {
    if !ChecksPassword(u, a.now) then Refused else if a.correct then LoggedIn else BadPassword
  }

  function AfterLogin(u: User, a: Attempt, settings: Settings): User {
    if Locked(u, a.now) then u
    else
      var open := ResetExpired(u, a.now);
      if !u.active then open
      else if a.correct then ClearFailures(open, a.later)
      else
        var failed := CountFailure(open);
        if failed.failedCount >= settings.maxAttempts then LockUntil(failed, a.later + settings.lockSeconds)
        else failed
  }

  // No login makes more updates than this.
  const MAX_WRITES: nat := 3

  // The states a login leaves the row in, one for each of its updates: they commit one by one.
  function Writes(u: User, a: Attempt, settings: Settings): (writes: seq<User>)
    ensures |writes| <= MAX_WRITES
  {
    if Locked(u, a.now) then []
    else
      var open := ResetExpired(u, a.now);
      var first := if u.lockedUntil.Some? then [open] else [];
      if !u.active then first
      else if a.correct then first + [ClearFailures(open, a.later)]
      else
        var failed := CountFailure(open);
        if failed.failedCount >= settings.maxAttempts
        then first + [failed] + [LockUntil(failed, a.later + settings.lockSeconds)]
        else first + [failed]
  }

  // The row when only the first n updates came through.
  function RowAfter(u: User, writes: seq<User>, n: nat): User {
    if writes == [] || n == 0 then u else if n <= |writes| then writes[n - 1] else writes[|writes| - 1]
  }

  lemma AllWritesAreTheLogin(u: User, a: Attempt, settings: Settings)
    ensures RowAfter(u, Writes(u, a, settings), |Writes(u, a, settings)|) == AfterLogin(u, a, settings)
  {
  }

  // If a call raises between counting a failure and setting the lock, the next wrong password sets it.
  lemma MissedLockIsMadeUp(u: User, a: Attempt, n: nat, b: Attempt, settings: Settings)
    requires settings.Valid() && u.active && Judge(u, a) == BadPassword
    requires ResetExpired(u, a.now).failedCount + 1 >= settings.maxAttempts
    requires n + 1 == |Writes(u, a, settings)| && !b.correct
    ensures var left := RowAfter(u, Writes(u, a, settings), n);
            && left.lockedUntil == None && left.failedCount >= settings.maxAttempts
            && AfterLogin(left, b, settings).lockedUntil == Some(b.later + settings.lockSeconds)
  {
  }

  // An attempt of which "through" updates come through before a call raises, if it comes to that.
  datatype Try = Try(attempt: Attempt, through: nat)

  predicate Raises(u: User, x: Try, settings: Settings) {
    x.through < |Writes(u, x.attempt, settings)|
  }

  // The password is looked at: the attempt is not refused, and does not raise while resetting.
  predicate Looks(u: User, x: Try) {
    ChecksPassword(u, x.attempt.now) && (u.lockedUntil.Some? ==> x.through >= 1)
  }

  predicate TakesOffExpired(u: User, x: Try) {
    u.lockedUntil.Some? && u.lockedUntil.value <= x.attempt.now && x.through >= 1
  }

  // A sequential run: the user's row, how many passwords were checked, how many expired locks were
  // taken off, and how many attempts raised.
  datatype Trace = Trace(user: User, checks: nat, expired: nat, raised: nat)

  function Next(t: Trace, x: Try, settings: Settings): Trace {
    Trace(RowAfter(t.user, Writes(t.user, x.attempt, settings), x.through),
          t.checks + (if Looks(t.user, x) then 1 else 0),
          t.expired + (if TakesOffExpired(t.user, x) then 1 else 0),
          t.raised + (if Raises(t.user, x, settings) then 1 else 0))
  }

  function Attempts(u: User, tries: seq<Try>, settings: Settings): Trace {
    if tries == [] then Trace(u, 0, 0, 0)
    else Next(Attempts(u, tries[..|tries| - 1], settings), tries[|tries| - 1], settings)
  }

  // Each attempt runs after the one before it has finished, on a clock that does not go back.
  predicate InOrder(tries: seq<Try>) {
    && (forall i :: 0 <= i < |tries| ==> tries[i].attempt.now <= tries[i].attempt.later)
    && (forall i, j :: 0 <= i < j < |tries| ==> tries[i].attempt.later <= tries[j].attempt.now)
  }

  function Span(tries: seq<Try>): int
    requires tries != []
  {
    tries[|tries| - 1].attempt.now - tries[0].attempt.now
  }

  // No right password is looked at.
  predicate NoSuccess(u: User, tries: seq<Try>, settings: Settings) {
    tries == [] ||
    (var before, x := tries[..|tries| - 1], tries[|tries| - 1];
     NoSuccess(u, before, settings) && !(Looks(Attempts(u, before, settings).user, x) && x.attempt.correct))
  }

  function Times(m: nat, k: nat): nat {
    if k == 0 then 0 else Times(m, k - 1) + m
  }

  lemma {:induction false} TimesIsProduct(m: nat, k: nat)
    ensures Times(m, k) == m * k
  {
    if k > 0 {
      TimesIsProduct(m, k - 1);
      assert m * k == m * (k - 1) + m;
    }
  }

  // Each expired lock took a full lock duration, and each stretch between locks allows maxAttempts
  // checks, and one more for each attempt that raised.
  ghost predicate Paced(t: Trace, start: Time, settings: Settings) {
    match t.user.lockedUntil
    case None =>
      t.checks <= Times(settings.maxAttempts, t.expired) + t.raised
                  + Least(t.user.failedCount, settings.maxAttempts - 1)
    case Some(until) =>
      && t.checks <= Times(settings.maxAttempts, t.expired) + settings.maxAttempts + t.raised
      && until >= start + Times(settings.lockSeconds, t.expired) + settings.lockSeconds
  }

  function Least(a: int, b: int): int {
    if a < b then a else b
  }

  // At most maxAttempts password checks for each lock duration that fits in the span, maxAttempts
  // more, and one for each attempt that raised.
  ghost predicate WithinRate(checks: nat, raised: nat, span: int, settings: Settings)
    requires settings.Valid()
  {
    checks <= settings.maxAttempts * (span / settings.lockSeconds + 1) + raised
  }

  lemma PacedIsWithinRate(t: Trace, start: Time, end: Time, settings: Settings)
    requires settings.Valid() && Paced(t, start, settings) && start + Times(settings.lockSeconds, t.expired) <= end
    ensures WithinRate(t.checks, t.raised, end - start, settings)
  {
    var m, d, k, q := settings.maxAttempts, settings.lockSeconds, t.expired, (end - start) / settings.lockSeconds;
    TimesIsProduct(m, k);
    TimesIsProduct(d, k);
    FloorAtLeast(end - start, d, k);
    ProductMonotone(m, k + 1, q + 1);
    assert m * (k + 1) == m * k + m;
  }

  lemma ProductMonotone(m: nat, a: int, b: int)
    requires a <= b
    ensures m * a <= m * b
  {
    assert m * b - m * a == m * (b - a);
  }

  lemma FloorAtLeast(span: int, d: nat, k: nat)
    requires d > 0 && d * k <= span
    ensures k <= span / d
  {
    var q := span / d;
    assert span == d * q + span % d;
    assert d * (q + 1) == d * q + d;
    if k >= q + 1 {
      ProductMonotone(d, q + 1, k);
    }
  }

  lemma PacedStep(t: Trace, x: Try, start: Time, settings: Settings)
    requires settings.Valid() && Paced(t, start, settings) && x.attempt.now <= x.attempt.later
    requires start + Times(settings.lockSeconds, t.expired) <= x.attempt.now
    requires !(Looks(t.user, x) && x.attempt.correct)
    ensures var t' := Next(t, x, settings);
            Paced(t', start, settings) && start + Times(settings.lockSeconds, t'.expired) <= x.attempt.now
  {
  }

  lemma {:induction false} RunsArePaced(u: User, tries: seq<Try>, start: Time, settings: Settings)
    requires settings.Valid() && InOrder(tries) && NoSuccess(u, tries, settings)
    requires u.failedCount == 0 && u.lockedUntil == None
    requires tries != [] && start <= tries[0].attempt.now
    ensures Paced(Attempts(u, tries, settings), start, settings)
    ensures start + Times(settings.lockSeconds, Attempts(u, tries, settings).expired) <= tries[|tries| - 1].attempt.now
    decreases |tries|
  {
    var before, x := tries[..|tries| - 1], tries[|tries| - 1];
    if before != [] {
      assert before[|before| - 1] == tries[|before| - 1];
      RunsArePaced(u, before, start, settings);
    }
    PacedStep(Attempts(u, before, settings), x, start, settings);
  }

  // Guesses are rationed, in every sequential run without a success, whichever calls raise.
  lemma GuessRateBounded(u: User, tries: seq<Try>, settings: Settings)
    requires settings.Valid() && InOrder(tries) && NoSuccess(u, tries, settings)
    requires u.failedCount == 0 && u.lockedUntil == None
    requires tries != []
    ensures var t := Attempts(u, tries, settings); WithinRate(t.checks, t.raised, Span(tries), settings)
  {
    var start := tries[0].attempt.now;
    RunsArePaced(u, tries, start, settings);
    PacedIsWithinRate(Attempts(u, tries, settings), start, start + Span(tries), settings);
  }

  // Until its end a lock refuses every attempt, right or wrong, and nothing moves; from its end on an
  // active account's password is looked at again.
  lemma {:induction false} LockRefusesUntilItsEnd(u: User, until: Time, tries: seq<Try>, settings: Settings)
    requires forall i :: 0 <= i < |tries| ==> tries[i].attempt.now < until
    ensures Attempts(LockUntil(u, until), tries, settings) == Trace(LockUntil(u, until), 0, 0, 0)
    ensures forall now :: ChecksPassword(LockUntil(u, until), now) <==> u.active && until <= now
  {
    if tries != [] {
      LockRefusesUntilItsEnd(u, until, tries[..|tries| - 1], settings);
    }
  }

  predicate AllWrong(tries: seq<Try>) {
    forall i :: 0 <= i < |tries| ==> !tries[i].attempt.correct && tries[i].through >= MAX_WRITES
  }

  // After a success (and so from the start) it takes exactly maxAttempts wrong passwords in a row, none
  // of which raises, to lock an active account.
  lemma {:induction false} SuccessOpensAFreshWindow(u: User, at: Time, tries: seq<Try>, settings: Settings)
    requires settings.Valid() && u.active && AllWrong(tries) && |tries| <= settings.maxAttempts
    ensures var t := Attempts(ClearFailures(u, at), tries, settings);
            && t.checks == |tries| && t.user.failedCount == |tries| && t.user.active && t.raised == 0
            && t.user.lockedUntil == if |tries| == settings.maxAttempts
                                     then Some(tries[|tries| - 1].attempt.later + settings.lockSeconds) else None
    decreases |tries|
  {
    if tries != [] {
      SuccessOpensAFreshWindow(u, at, tries[..|tries| - 1], settings);
    }
  }
}
