/** A login that runs alone, one step after the other, is the login of the service. */
module LoneLogin {
  import opened Basics
  import opened Lockout
  import opened LockoutRace

  // What a login that has begun does next.
  function NextStep(phase: Phase, p: Pid, correct: bool): Action {
    match phase
    case Read(_) => Compare(p)
    case ToReset(_, _) => Reset(p)
    case Ready(_, _) => Verify(p, correct)
    case Passed(_, _) => Succeed(p)
    case Failed => Increment(p)
    case ToLock => ComputeEnd(p)
    case Locking(_) => SetLock(p)
  }

  // At most n steps of p and of nobody else, until it has left.
  function Steps(s: State, p: Pid, correct: bool, n: nat, settings: Settings): State
    decreases n
  {
    if n == 0 || p !in s.logins then s
    else Steps(Effect(s, NextStep(s.logins[p], p, correct), |s.logins|, settings), p, correct, n - 1, settings)
  }

  // The login has left, and the row and the number of checked passwords are these.
  predicate Ends(t: State, p: Pid, u: User, checks: nat) {
    p !in t.logins && t.count == u.failedCount && t.lockedUntil == u.lockedUntil && t.checks == checks
  }

  lemma Locks(s: State, p: Pid, correct: bool, n: nat, settings: Settings)
    requires p in s.logins && s.logins[p].ToLock? && n >= 2
    ensures Ends(Steps(s, p, correct, n, settings), p, LockUntil(RowOf(s), s.clock + settings.lockSeconds), s.checks)
  {
    var computed := Effect(s, ComputeEnd(p), |s.logins|, settings);
    var locked := Effect(computed, SetLock(p), |computed.logins|, settings);
    assert Steps(computed, p, correct, n - 1, settings) == Steps(locked, p, correct, n - 2, settings);
  }

  lemma Counts(s: State, p: Pid, correct: bool, n: nat, settings: Settings)
    requires p in s.logins && s.logins[p].Failed? && n >= 3
    ensures var failed := CountFailure(RowOf(s));
            Ends(Steps(s, p, correct, n, settings), p,
                 if failed.failedCount >= settings.maxAttempts
                 then LockUntil(failed, s.clock + settings.lockSeconds) else failed, s.checks)
  {
    var counted := Effect(s, Increment(p), |s.logins|, settings);
    if p in counted.logins {
      Locks(counted, p, correct, n - 1, settings);
    }
  }

  lemma Verifies(s: State, p: Pid, correct: bool, n: nat, settings: Settings)
    requires p in s.logins && s.logins[p].Ready? && n >= 4
    ensures var failed := CountFailure(RowOf(s));
            Ends(Steps(s, p, correct, n, settings), p,
                 if correct then ClearFailures(RowOf(s), s.clock)
                 else if failed.failedCount >= settings.maxAttempts
                 then LockUntil(failed, s.clock + settings.lockSeconds) else failed, s.checks + 1)
  {
    var verified := Effect(s, Verify(p, correct), |s.logins|, settings);
    if correct {
      assert Steps(verified, p, correct, n - 1, settings) == Effect(verified, Succeed(p), |verified.logins|, settings);
    } else {
      Counts(verified, p, correct, n - 1, settings);
    }
  }

  lemma Resets(s: State, p: Pid, correct: bool, n: nat, settings: Settings)
    requires p in s.logins && s.logins[p] == ToReset(s.lockedUntil, s.clock) && n >= 5
    requires s.lockedUntil.Some? && s.lockedUntil.value <= s.clock
    ensures Ends(Steps(s, p, correct, n, settings), p,
                 AfterLogin(RowOf(s), Attempt(s.clock, s.clock, correct), settings), s.checks + 1)
  {
    Verifies(Effect(s, Reset(p), |s.logins|, settings), p, correct, n - 1, settings);
  }

  lemma Compares(s: State, p: Pid, correct: bool, n: nat, settings: Settings)
    requires p in s.logins && s.logins[p] == Read(s.lockedUntil) && n >= 6
    ensures var u := RowOf(s);
            Ends(Steps(s, p, correct, n, settings), p, AfterLogin(u, Attempt(s.clock, s.clock, correct), settings),
                 s.checks + if ChecksPassword(u, s.clock) then 1 else 0)
  {
    var compared := Effect(s, Compare(p), |s.logins|, settings);
    if s.lockedUntil == None {
      Verifies(compared, p, correct, n - 1, settings);
    } else if s.lockedUntil.value <= s.clock {
      Resets(compared, p, correct, n - 1, settings);
    }
  }

  // Refused while the lock it reads is running; otherwise the password is checked and the row is that
  // of the whole login.
  lemma AloneIsTheLogin(s: State, p: Pid, correct: bool, inFlight: nat, settings: Settings)
    requires p !in s.logins && |s.logins| < inFlight
    ensures var u := RowOf(s);
            Ends(Steps(Effect(s, Begin(p), inFlight, settings), p, correct, 6, settings), p,
                 AfterLogin(u, Attempt(s.clock, s.clock, correct), settings),
                 s.checks + if ChecksPassword(u, s.clock) then 1 else 0)
  {
    Compares(Effect(s, Begin(p), inFlight, settings), p, correct, 6, settings);
  }
}
