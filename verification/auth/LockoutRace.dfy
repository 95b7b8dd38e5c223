/**
 Concurrent logins against one account as interleaved steps on its row. Stale reads
 let requests slip past a lock that is about to be set, but no more of them than are
 in flight; one with the right password then takes the running lock off.
 */
module LockoutRace {
  import opened Basics
  import opened RefreshTokens
  import opened Lockout

  type Pid = nat

  // Where one login stands. A login that is not in the map has not started or has finished.
  datatype Phase =
    | Read(seen: Option<Time>)  // the row was read; "seen" is its locked_until
    | ToReset(seen: Option<Time>, now: Time) // the lock it saw had expired
    | Ready(seen: Option<Time>, now: Time)   // past the lock test, about to verify the password
    | Passed(seen: Option<Time>, now: Time)  // the password was right; the row is not yet written
    | Failed                    // the password was wrong; the count is not yet incremented
    | ToLock                    // the incremented count reached the limit
    | Locking(until: Time)      // the lock's end is computed; the row is not yet written

  datatype State = State(
    count: nat,
    lockedUntil: Option<Time>,
    clock: Time,
    logins: map<Pid, Phase>,
    checks: nat,                 // passwords verified against the account's hash
    correct: nat,                // those that were right
    left: nat,                   // logins that ended early
    finishedLocking: nat,        // logins that finished by setting the lock
    firstEnd: Option<Time>)      // the first lock's end

  datatype Action =
    | Tick(elapsed: nat)
    | Begin(p: Pid)
    | Compare(p: Pid)            // read the clock and test the lock that was seen
    | Reset(p: Pid)              // reset_expired_lockout: one conditional UPDATE
    | Verify(p: Pid, correct: bool)
    | Succeed(p: Pid)            // reset_failed_login: one unconditional UPDATE
    | Increment(p: Pid)          // increment_failed_login: one UPDATE, returning the new count
    | ComputeEnd(p: Pid)
    | SetLock(p: Pid)            // set_locked_until
    | Leave(p: Pid)              // a call raises, or the account is found inactive

  predicate At(s: State, p: Pid, phase: Phase) {
    p in s.logins && s.logins[p] == phase
  }

  predicate Enabled(s: State, a: Action, inFlight: nat) {
    match a
    case Tick(_) => true
    case Begin(p) => p !in s.logins && |s.logins| < inFlight
    case Compare(p) => p in s.logins && s.logins[p].Read?
    case Reset(p) => p in s.logins && s.logins[p].ToReset?
    case Verify(p, _) => p in s.logins && s.logins[p].Ready?
    case Succeed(p) => p in s.logins && s.logins[p].Passed?
    case Increment(p) => At(s, p, Failed)
    case ComputeEnd(p) => At(s, p, ToLock)
    case SetLock(p) => p in s.logins && s.logins[p].Locking?
    case Leave(p) => p in s.logins
  }

  function Move(s: State, p: Pid, phase: Phase): State {
    s.(logins := s.logins[p := phase])
  }

  function Finish(s: State, p: Pid): State {
    s.(logins := s.logins - {p})
  }

  // The row of the account, as far as lockout is concerned.
  function RowOf(s: State): User {
    User(true, s.count, s.lockedUntil, None)
  }

  function Effect(s: State, a: Action, inFlight: nat, settings: Settings): State
    requires Enabled(s, a, inFlight)
  {
    match a
    case Tick(d) => s.(clock := s.clock + d)
    case Begin(p) => Move(s, p, Read(s.lockedUntil))
    case Compare(p) =>
      var seen := s.logins[p].seen;
      if seen == None then Move(s, p, Ready(seen, s.clock))
      else if seen.value > s.clock then Finish(s, p)
      else Move(s, p, ToReset(seen, s.clock))
    case Reset(p) =>
      var login := s.logins[p];
      var reset := ResetExpired(RowOf(s), login.now);
      Move(s.(count := reset.failedCount, lockedUntil := reset.lockedUntil), p, Ready(login.seen, login.now))
    case Verify(p, correct) =>
      var login := s.logins[p];
      if correct then Move(s.(checks := s.checks + 1, correct := s.correct + 1), p, Passed(login.seen, login.now))
      else Move(s.(checks := s.checks + 1), p, Failed)
    case Succeed(p) =>
      var cleared := ClearFailures(RowOf(s), s.clock);
      Finish(s.(count := cleared.failedCount, lockedUntil := cleared.lockedUntil), p)
    case Increment(p) =>
      var s' := s.(count := s.count + 1);
      if s'.count >= settings.maxAttempts then Move(s', p, ToLock) else Finish(s', p)
    case ComputeEnd(p) =>
      var until := s.clock + settings.lockSeconds;
      Move(s.(firstEnd := if s.firstEnd == None then Some(until) else s.firstEnd), p, Locking(until))
    case SetLock(p) =>
      Finish(s.(lockedUntil := Some(s.logins[p].until), finishedLocking := s.finishedLocking + 1), p)
    case Leave(p) => Finish(s.(left := s.left + 1), p)
  }

  function Start(clock: Time): State {
    State(0, None, clock, map[], 0, 0, 0, 0, None)
  }

  function Run(clock: Time, actions: seq<Action>, inFlight: nat, settings: Settings): State {
    if actions == [] then Start(clock)
    else
      var s, a := Run(clock, actions[..|actions| - 1], inFlight, settings), actions[|actions| - 1];
      if Enabled(s, a, inFlight) then Effect(s, a, inFlight, settings) else s
  }

  // No lock that was ever computed has expired yet.
  predicate BeforeFirstExpiry(s: State) {
    s.firstEnd == None || s.clock < s.firstEnd.value
  }

  // Logins that no lock stops any more.
  predicate Past(phase: Phase) {
    (phase.Read? && phase.seen == None) || phase.Ready? || phase.Failed? || phase.ToLock? || phase.Locking?
  }

  // Logins whose password was verified.
  predicate Verified(phase: Phase) {
    phase.Failed? || phase.ToLock? || phase.Locking?
  }

  function PastSet(s: State): set<Pid> {
    set p | p in s.logins && Past(s.logins[p])
  }

  function VerifiedSet(s: State): set<Pid> {
    set p | p in s.logins && Verified(s.logins[p])
  }

  function Min(a: int, b: int): int {
    if a < b then a else b
  }

  ghost predicate Inv(s: State, inFlight: nat, settings: Settings) {
    && |s.logins| <= inFlight
    && (s.lockedUntil == None ==> s.finishedLocking == 0)
    && (s.lockedUntil != None ==> s.firstEnd != None && s.firstEnd.value <= s.lockedUntil.value)
    && (s.firstEnd != None ==> s.firstEnd.value <= s.clock + settings.lockSeconds)
    && (forall p :: p in s.logins ==> PhaseOk(s, s.logins[p]))
    // Increments below the limit finish without locking; the others are on their way to the lock,
    // unless they leave.
    && s.checks <= Min(s.count, settings.maxAttempts - 1) + |VerifiedSet(s)| + s.finishedLocking + s.left
    && s.finishedLocking + |PastSet(s)| <= inFlight
  }

  predicate PhaseOk(s: State, phase: Phase) {
    match phase
    case Read(Some(end)) => s.firstEnd != None && s.firstEnd.value <= end
    case ToReset(_, _) => false
    case Passed(_, _) => false
    case Locking(until) => s.firstEnd != None && s.firstEnd.value <= until
    case _ => true
  }

  // Moving or finishing one login changes the counts by at most that login.

  lemma MoveSize(s: State, p: Pid, phase: Phase)
    ensures |Move(s, p, phase).logins| == |s.logins| + (if p in s.logins then 0 else 1)
  {
    var s' := Move(s, p, phase);
    assert s'.logins.Keys == s.logins.Keys + {p};
    assert |s.logins| == |s.logins.Keys| && |s'.logins| == |s'.logins.Keys|;
  }

  lemma MovePast(s: State, p: Pid, phase: Phase)
    ensures PastSet(Move(s, p, phase)) == if Past(phase) then PastSet(s) + {p} else PastSet(s) - {p}
  {
  }

  lemma MoveVerified(s: State, p: Pid, phase: Phase)
    ensures VerifiedSet(Move(s, p, phase)) == if Verified(phase) then VerifiedSet(s) + {p} else VerifiedSet(s) - {p}
  {
  }

  lemma FinishCounts(s: State, p: Pid)
    ensures var s' := Finish(s, p);
            PastSet(s') == PastSet(s) - {p} && VerifiedSet(s') == VerifiedSet(s) - {p} && |s'.logins| <= |s.logins|
  {
    assert Finish(s, p).logins.Keys == s.logins.Keys - {p};
    SubsetSize(Finish(s, p).logins.Keys, s.logins.Keys);
    assert |s.logins| == |s.logins.Keys| && |Finish(s, p).logins| == |Finish(s, p).logins.Keys|;
  }

  lemma MoveCounts(s: State, p: Pid, phase: Phase)
    requires p in s.logins && (Past(phase) <==> Past(s.logins[p]))
    ensures var s' := Move(s, p, phase);
            && |s'.logins| == |s.logins| && PastSet(s') == PastSet(s)
            && |VerifiedSet(s')| == |VerifiedSet(s)| + (if Verified(phase) then 1 else 0)
                                    - (if Verified(s.logins[p]) then 1 else 0)
  {
    MoveSize(s, p, phase);
    MovePast(s, p, phase);
    MoveVerified(s, p, phase);
    SizeWith(VerifiedSet(s), p);
    SizeWithout(VerifiedSet(s), p);
    assert p in PastSet(s) <==> Past(s.logins[p]);
    assert p in VerifiedSet(s) <==> Verified(s.logins[p]);
  }

  lemma SizeWith(a: set<Pid>, p: Pid)
    ensures |a + {p}| == |a| + (if p in a then 0 else 1)
  {
    if p in a {
      assert a + {p} == a;
    }
  }

  lemma SizeWithout(a: set<Pid>, p: Pid)
    ensures |a - {p}| == |a| - (if p in a then 1 else 0)
  {
    if p !in a {
      assert a - {p} == a;
    }
  }

  lemma PhasesOk(s: State, s': State, p: Pid)
    requires forall q :: q in s.logins ==> PhaseOk(s, s.logins[q])
    requires s'.logins.Keys <= s.logins.Keys + {p} && (p in s'.logins ==> PhaseOk(s', s'.logins[p]))
    requires forall q :: q in s'.logins && q != p ==> s'.logins[q] == s.logins[q]
    requires s.firstEnd != None ==> s'.firstEnd == s.firstEnd
    ensures forall q :: q in s'.logins ==> PhaseOk(s', s'.logins[q])
  {
    forall q | q in s'.logins ensures PhaseOk(s', s'.logins[q]) {
      assert q != p ==> PhaseOk(s, s.logins[q]);
    }
  }

  lemma BeginKeeps(s: State, p: Pid, inFlight: nat, settings: Settings)
    requires Inv(s, inFlight, settings) && Enabled(s, Begin(p), inFlight)
    ensures Inv(Effect(s, Begin(p), inFlight, settings), inFlight, settings)
  {
    var phase := Read(s.lockedUntil);
    var s' := Move(s, p, phase);
    MoveSize(s, p, phase);
    MovePast(s, p, phase);
    MoveVerified(s, p, phase);
    assert PastSet(s) <= s.logins.Keys && VerifiedSet(s') == VerifiedSet(s);
    SubsetSize(PastSet(s), s.logins.Keys);
    PhasesOk(s, s', p);
  }

  lemma CompareKeeps(s: State, p: Pid, inFlight: nat, settings: Settings)
    requires Inv(s, inFlight, settings) && BeforeFirstExpiry(s) && Enabled(s, Compare(p), inFlight)
    ensures Inv(Effect(s, Compare(p), inFlight, settings), inFlight, settings)
  {
    assert PhaseOk(s, s.logins[p]);
    if s.logins[p].seen == None {
      var phase := Ready(None, s.clock);
      MoveCounts(s, p, phase);
      PhasesOk(s, Move(s, p, phase), p);
    } else {
      assert s.logins[p].seen.value > s.clock;
      FinishCounts(s, p);
      assert p !in PastSet(s) && p !in VerifiedSet(s);
      PhasesOk(s, Finish(s, p), p);
    }
  }

  lemma VerifyKeeps(s: State, p: Pid, inFlight: nat, settings: Settings)
    requires Inv(s, inFlight, settings) && Enabled(s, Verify(p, false), inFlight)
    ensures Inv(Effect(s, Verify(p, false), inFlight, settings), inFlight, settings)
  {
    var t := s.(checks := s.checks + 1);
    MoveCounts(t, p, Failed);
    PhasesOk(s, Move(t, p, Failed), p);
    assert PastSet(t) == PastSet(s) && VerifiedSet(t) == VerifiedSet(s);
  }

  lemma IncrementKeeps(s: State, p: Pid, inFlight: nat, settings: Settings)
    requires Inv(s, inFlight, settings) && settings.Valid() && Enabled(s, Increment(p), inFlight)
    ensures Inv(Effect(s, Increment(p), inFlight, settings), inFlight, settings)
  {
    var t := s.(count := s.count + 1);
    var s' := Effect(s, Increment(p), inFlight, settings);
    assert PastSet(t) == PastSet(s) && VerifiedSet(t) == VerifiedSet(s);
    if t.count >= settings.maxAttempts {
      MoveCounts(t, p, ToLock);
    } else {
      FinishCounts(t, p);
      assert p in PastSet(s) && p in VerifiedSet(s);
    }
    PhasesOk(s, s', p);
  }

  lemma ComputeEndKeeps(s: State, p: Pid, inFlight: nat, settings: Settings)
    requires Inv(s, inFlight, settings) && BeforeFirstExpiry(s) && Enabled(s, ComputeEnd(p), inFlight)
    ensures Inv(Effect(s, ComputeEnd(p), inFlight, settings), inFlight, settings)
  {
    var until := s.clock + settings.lockSeconds;
    var t := s.(firstEnd := if s.firstEnd == None then Some(until) else s.firstEnd);
    var s' := Effect(s, ComputeEnd(p), inFlight, settings);
    assert PastSet(t) == PastSet(s) && VerifiedSet(t) == VerifiedSet(s);
    MoveCounts(t, p, Locking(until));
    PhasesOk(s, s', p);
  }

  lemma SetLockKeeps(s: State, p: Pid, inFlight: nat, settings: Settings)
    requires Inv(s, inFlight, settings) && Enabled(s, SetLock(p), inFlight)
    ensures Inv(Effect(s, SetLock(p), inFlight, settings), inFlight, settings)
  {
    var t := s.(lockedUntil := Some(s.logins[p].until), finishedLocking := s.finishedLocking + 1);
    assert PhaseOk(s, s.logins[p]) && p in PastSet(s) && p in VerifiedSet(s);
    assert PastSet(t) == PastSet(s) && VerifiedSet(t) == VerifiedSet(s);
    FinishCounts(t, p);
    PhasesOk(s, Finish(t, p), p);
  }

  lemma LeaveKeeps(s: State, p: Pid, inFlight: nat, settings: Settings)
    requires Inv(s, inFlight, settings) && Enabled(s, Leave(p), inFlight)
    ensures Inv(Effect(s, Leave(p), inFlight, settings), inFlight, settings)
  {
    var t := s.(left := s.left + 1);
    assert PastSet(t) == PastSet(s) && VerifiedSet(t) == VerifiedSet(s);
    FinishCounts(t, p);
    SizeWithout(PastSet(s), p);
    SizeWithout(VerifiedSet(s), p);
    PhasesOk(s, Finish(t, p), p);
  }

  lemma StepKeeps(s: State, a: Action, inFlight: nat, settings: Settings)
    requires Inv(s, inFlight, settings) && BeforeFirstExpiry(s)
    requires settings.Valid() && Enabled(s, a, inFlight)
    requires Effect(s, a, inFlight, settings).correct == s.correct
    ensures Inv(Effect(s, a, inFlight, settings), inFlight, settings)
  {
    match a
    case Tick(d) =>
      var s' := s.(clock := s.clock + d);
      assert PastSet(s') == PastSet(s) && VerifiedSet(s') == VerifiedSet(s);
      forall q | q in s'.logins ensures PhaseOk(s', s'.logins[q]) {
        assert PhaseOk(s, s.logins[q]);
      }
    case Begin(p) => BeginKeeps(s, p, inFlight, settings);
    case Compare(p) => CompareKeeps(s, p, inFlight, settings);
    case Reset(p) => assert false;
    case Verify(p, correct) => VerifyKeeps(s, p, inFlight, settings);
    case Succeed(p) => assert false;
    case Leave(p) => LeaveKeeps(s, p, inFlight, settings);
    case Increment(p) => IncrementKeeps(s, p, inFlight, settings);
    case ComputeEnd(p) => ComputeEndKeeps(s, p, inFlight, settings);
    case SetLock(p) => SetLockKeeps(s, p, inFlight, settings);
  }

  lemma {:induction false} RunKeeps(clock: Time, actions: seq<Action>, inFlight: nat, settings: Settings)
    requires settings.Valid()
    requires BeforeFirstExpiry(Run(clock, actions, inFlight, settings))
    requires Run(clock, actions, inFlight, settings).correct == 0
    ensures Inv(Run(clock, actions, inFlight, settings), inFlight, settings)
  {
    if actions == [] {
      assert PastSet(Start(clock)) == {} && VerifiedSet(Start(clock)) == {};
    } else {
      var before, a := actions[..|actions| - 1], actions[|actions| - 1];
      var s := Run(clock, before, inFlight, settings);
      assert BeforeFirstExpiry(s) && s.correct == 0;
      RunKeeps(clock, before, inFlight, settings);
      if Enabled(s, a, inFlight) {
        StepKeeps(s, a, inFlight, settings);
      }
    }
  }

  // With at most inFlight logins at a time and no success, no more than maxAttempts - 1 + inFlight
  // passwords are verified before the first lock expires, and one more for each login that ends early,
  // however the logins interleave.
  lemma ChecksBeforeFirstExpiry(clock: Time, actions: seq<Action>, inFlight: nat, settings: Settings)
    requires settings.Valid()
    requires BeforeFirstExpiry(Run(clock, actions, inFlight, settings))
    requires Run(clock, actions, inFlight, settings).correct == 0
    ensures var s := Run(clock, actions, inFlight, settings); s.checks <= settings.maxAttempts - 1 + inFlight + s.left
  {
    var s := Run(clock, actions, inFlight, settings);
    RunKeeps(clock, actions, inFlight, settings);
    assert VerifiedSet(s) <= PastSet(s);
    SubsetSize(VerifiedSet(s), PastSet(s));
  }

  lemma RunOne(clock: Time, before: seq<Action>, a: Action, inFlight: nat, settings: Settings)
    ensures var s := Run(clock, before, inFlight, settings);
            Run(clock, before + [a], inFlight, settings)
            == if Enabled(s, a, inFlight) then Effect(s, a, inFlight, settings) else s
  {
    assert (before + [a])[..|before|] == before;
  }

  // Login p has a wrong password and its count reaches the limit.
  function Counted(p: Pid): seq<Action> {
    [Begin(p)] + [Compare(p)] + [Verify(p, false)] + [Increment(p)]
  }

  lemma OneCounts(p: Pid, clock: Time, settings: Settings)
    requires settings.maxAttempts == 1
    ensures Run(clock, Counted(p), 1, settings) == State(1, None, clock, map[p := ToLock], 1, 0, 0, 0, None)
  {
    var a := [Begin(p)];
    assert [] + a == a;
    RunOne(clock, [], Begin(p), 1, settings);
    RunOne(clock, a, Compare(p), 1, settings);
    RunOne(clock, a + [Compare(p)], Verify(p, false), 1, settings);
    RunOne(clock, a + [Compare(p)] + [Verify(p, false)], Increment(p), 1, settings);
    assert Run(clock, a, 1, settings).logins == map[p := Read(None)];
  }

  // The early end does cost a check: with one attempt allowed and one login at a time, p raises after
  // the count and before the lock, and then q's password is verified too.
  lemma LeavingCostsACheck(p: Pid, q: Pid, clock: Time, settings: Settings)
    requires settings.maxAttempts == 1
    ensures var run := Counted(p) + [Leave(p)] + [Begin(q)] + [Compare(q)] + [Verify(q, false)];
            var s := Run(clock, run, 1, settings);
            && s.checks == 2 == settings.maxAttempts - 1 + 1 + s.left
            && s.correct == 0 && s.lockedUntil == None && BeforeFirstExpiry(s)
  {
    var a := Counted(p) + [Leave(p)];
    OneCounts(p, clock, settings);
    RunOne(clock, Counted(p), Leave(p), 1, settings);
    assert Run(clock, a, 1, settings).logins == map[];
    RunOne(clock, a, Begin(q), 1, settings);
    RunOne(clock, a + [Begin(q)], Compare(q), 1, settings);
    RunOne(clock, a + [Begin(q)] + [Compare(q)], Verify(q, false), 1, settings);
  }

  // The step takes the lock off.
  predicate Clears(s: State, a: Action, inFlight: nat, settings: Settings) {
    && Enabled(s, a, inFlight) && s.lockedUntil != None
    && Effect(s, a, inFlight, settings).lockedUntil == None
  }

  function Clearings(clock: Time, actions: seq<Action>, inFlight: nat, settings: Settings): nat {
    if actions == [] then 0
    else
      var before, a := actions[..|actions| - 1], actions[|actions| - 1];
      Clearings(clock, before, inFlight, settings)
      + (if Clears(Run(clock, before, inFlight, settings), a, inFlight, settings) then 1 else 0)
  }

  // A lock is running: its end is not reached.
  predicate Running(s: State) {
    s.lockedUntil != None && s.lockedUntil.value > s.clock
  }

  predicate Tested(phase: Phase) {
    phase.ToReset? || phase.Ready? || phase.Passed?
  }

  // The login's own read showed no lock, or one that had expired when it tested it.
  predicate PastItsTest(phase: Phase, clock: Time)
    requires Tested(phase)
  {
    phase.now <= clock && (phase.seen == None || phase.seen.value <= phase.now)
  }

  lemma {:induction false} TestsWerePassed(clock: Time, actions: seq<Action>, inFlight: nat, settings: Settings, p: Pid)
    requires p in Run(clock, actions, inFlight, settings).logins
    requires Tested(Run(clock, actions, inFlight, settings).logins[p])
    ensures var s := Run(clock, actions, inFlight, settings); PastItsTest(s.logins[p], s.clock)
  {
    if actions != [] {
      var before, a := actions[..|actions| - 1], actions[|actions| - 1];
      var s := Run(clock, before, inFlight, settings);
      if p in s.logins && Tested(s.logins[p]) {
        TestsWerePassed(clock, before, inFlight, settings, p);
      }
    }
  }

  // In every run a stale reset leaves a running lock alone: what it takes off has expired.
  lemma ResetsClearOnlyExpiredLocks(clock: Time, actions: seq<Action>, p: Pid, inFlight: nat, settings: Settings)
    requires Clears(Run(clock, actions, inFlight, settings), Reset(p), inFlight, settings)
    ensures var s := Run(clock, actions, inFlight, settings);
            && s.lockedUntil.value <= s.logins[p].now <= s.clock
            && Effect(s, Reset(p), inFlight, settings).count == 0
  {
    TestsWerePassed(clock, actions, inFlight, settings, p);
  }

  // In every run a running lock is taken off if and only if the step is the success of a login that
  // got past its own lock test.
  lemma OnlyAPassedLoginClearsARunningLock(
    clock: Time, actions: seq<Action>, a: Action, inFlight: nat, settings: Settings)
    requires Running(Run(clock, actions, inFlight, settings))
    ensures var s := Run(clock, actions, inFlight, settings);
            Clears(s, a, inFlight, settings) <==>
            && a.Succeed? && a.p in s.logins && s.logins[a.p].Passed?
            && PastItsTest(s.logins[a.p], s.clock)
  {
    var s := Run(clock, actions, inFlight, settings);
    if a.Succeed? && a.p in s.logins && s.logins[a.p].Passed? {
      TestsWerePassed(clock, actions, inFlight, settings, a.p);
    }
    if Clears(s, a, inFlight, settings) && a.Reset? {
      ResetsClearOnlyExpiredLocks(clock, actions, a.p, inFlight, settings);
    }
  }

  // Login p reads the row unlocked and has the right password; login q has a wrong one.
  function BothRead(p: Pid, q: Pid): seq<Action> {
    [Begin(p)] + [Begin(q)] + [Compare(p)] + [Compare(q)] + [Verify(p, true)]
  }

  function OneCounted(p: Pid, q: Pid): seq<Action> {
    BothRead(p, q) + [Verify(q, false)] + [Increment(q)]
  }

  function LockSet(p: Pid, q: Pid): seq<Action> {
    OneCounted(p, q) + [ComputeEnd(q)] + [SetLock(q)]
  }

  lemma BothPassTheTest(p: Pid, q: Pid, clock: Time, inFlight: nat, settings: Settings)
    requires p != q && inFlight >= 2
    ensures Run(clock, BothRead(p, q), inFlight, settings)
            == State(0, None, clock, map[p := Passed(None, clock), q := Ready(None, clock)], 1, 1, 0, 0, None)
  {
    var a := [Begin(p)];
    assert [] + a == a;
    RunOne(clock, [], Begin(p), inFlight, settings);
    RunOne(clock, a, Begin(q), inFlight, settings);
    RunOne(clock, a + [Begin(q)], Compare(p), inFlight, settings);
    RunOne(clock, a + [Begin(q)] + [Compare(p)], Compare(q), inFlight, settings);
    RunOne(clock, a + [Begin(q)] + [Compare(p)] + [Compare(q)], Verify(p, true), inFlight, settings);
    assert Run(clock, a, inFlight, settings).logins == map[p := Read(None)];
  }

  lemma OneReachesTheLimit(p: Pid, q: Pid, clock: Time, inFlight: nat, settings: Settings)
    requires p != q && inFlight >= 2 && settings.maxAttempts == 1
    ensures Run(clock, OneCounted(p, q), inFlight, settings)
            == State(1, None, clock, map[p := Passed(None, clock), q := ToLock], 2, 1, 0, 0, None)
  {
    BothPassTheTest(p, q, clock, inFlight, settings);
    RunOne(clock, BothRead(p, q), Verify(q, false), inFlight, settings);
    RunOne(clock, BothRead(p, q) + [Verify(q, false)], Increment(q), inFlight, settings);
  }

  lemma OneSetsTheLock(p: Pid, q: Pid, clock: Time, inFlight: nat, settings: Settings)
    requires p != q && inFlight >= 2 && settings.maxAttempts == 1
    ensures var until := clock + settings.lockSeconds;
            Run(clock, LockSet(p, q), inFlight, settings)
            == State(1, Some(until), clock, map[p := Passed(None, clock)], 2, 1, 0, 1, Some(until))
  {
    OneReachesTheLimit(p, q, clock, inFlight, settings);
    RunOne(clock, OneCounted(p, q), ComputeEnd(q), inFlight, settings);
    RunOne(clock, OneCounted(p, q) + [ComputeEnd(q)], SetLock(q), inFlight, settings);
  }

  // A running lock can be taken off: with one attempt allowed, the run above and then p's success, at
  // the very time the lock was set.
  lemma StaleSuccessClearsARunningLock(p: Pid, q: Pid, clock: Time, inFlight: nat, settings: Settings)
    requires p != q && settings.Valid() && inFlight >= 2 && settings.maxAttempts == 1
    ensures var s := Run(clock, LockSet(p, q), inFlight, settings);
            Running(s) && Clears(s, Succeed(p), inFlight, settings)
  {
    OneSetsTheLock(p, q, clock, inFlight, settings);
  }

  // However many stale resets and successes there are, each lock that was set is taken off at most
  // once.
  lemma {:induction false} ClearedOncePerLock(clock: Time, actions: seq<Action>, inFlight: nat, settings: Settings)
    ensures var s := Run(clock, actions, inFlight, settings);
            Clearings(clock, actions, inFlight, settings) + (if s.lockedUntil == None then 0 else 1)
            <= s.finishedLocking
  {
    if actions != [] {
      ClearedOncePerLock(clock, actions[..|actions| - 1], inFlight, settings);
    }
  }
}
