/**
 A request that runs alone, one database step after the other, does what the service
 method does in one go: the interleaved steps are the steps of the service.
 */
module Alone {
  import opened Basics
  import opened RefreshTokens
  import opened Rotation
  import opened AuthService

  // A refresh of the token "key", and the token it would issue.
  datatype Call = Call(p: Pid, key: Key, active: bool, next: Key, ttl: nat)

  // What the request does next.
  function NextStep(pc: Proc, c: Call): Action {
    match pc
    case Idle => PresentToken(c.p, c.key)
    case Found(_, _, _) => Decide(c.p, c.active, c.next, c.ttl)
    case ToRotate(_, _, _, _, _) => LockForRotate(c.p)
    case RotateLocked(_, _, _, _, _) => UpdateToken(c.p)
    case RotateUpdated(_, _, _, _, _) => CommitRotation(c.p)
    case ToBurn(_, _) => LockForBurn(c.p)
    case BurnLocked(_, _) => UpdateAll(c.p)
    case BurnUpdated(_, _, _, _) => CommitBurn(c.p)
    case ToRevoke(_) => RevokeOne(c.p)
    case Finished(_, _, _) => Tick(0)
  }

  ghost function Step(s: State, c: Call): State {
    var a := NextStep(ProcOf(s, c.p), c);
    if Enabled(s, a) then Effect(s, a) else s
  }

  ghost function Steps(s: State, c: Call, n: nat): State
    decreases n
  {
    if n == 0 then s else Steps(Step(s, c), c, n - 1)
  }

  // Every other request has finished.
  ghost predicate Quiet(s: State, p: Pid) {
    forall q :: q in s.procs && q != p ==> s.procs[q].Finished?
  }

  ghost predicate Ends(t: State, p: Pid, db: Db, outcome: Outcome) {
    t.db == db && p in t.procs && t.procs[p].Finished? && t.procs[p].outcome == outcome
  }

  lemma {:induction false} FinishedStays(s: State, c: Call, n: nat)
    requires ProcOf(s, c.p).Finished?
    ensures Steps(s, c, n) == s
  {
    if n > 0 {
      assert Step(s, c) == s;
      FinishedStays(s, c, n - 1);
    }
  }

  lemma CommitsBurn(s: State, c: Call, n: nat)
    requires c.p in s.procs && s.procs[c.p].BurnUpdated? && n >= 1
    ensures var pc := s.procs[c.p];
            Ends(Steps(s, c, n), c.p, RevokeKeys(s.db, pc.keys, pc.stamp), AllRevoked(pc.user, pc.cause))
  {
    FinishedStays(Step(s, c), c, n - 1);
  }

  lemma UpdatesAll(s: State, c: Call, n: nat)
    requires Quiet(s, c.p) && c.p in s.procs && s.procs[c.p].BurnLocked? && n >= 2
    ensures var pc := s.procs[c.p];
            Ends(Steps(s, c, n), c.p, RevokeAll(s.db, pc.user, s.clock), AllRevoked(pc.user, pc.cause))
  {
    CommitsBurn(Step(s, c), c, n - 1);
  }

  lemma Burns(s: State, c: Call, n: nat)
    requires Quiet(s, c.p) && c.p in s.procs && s.procs[c.p].ToBurn? && n >= 3
    ensures var pc := s.procs[c.p];
            Ends(Steps(s, c, n), c.p, RevokeAll(s.db, pc.user, s.clock), AllRevoked(pc.user, pc.cause))
  {
    UpdatesAll(Step(s, c), c, n - 1);
  }

  lemma CommitsRotation(s: State, c: Call, n: nat)
    requires c.p in s.procs && s.procs[c.p].RotateUpdated? && n >= 1
    requires var pc := s.procs[c.p]; CanRotate(s.db, pc.key, pc.user, pc.now)
    ensures var pc := s.procs[c.p];
            Ends(Steps(s, c, n), c.p, Rotate(s.db, pc.key, pc.user, pc.now, pc.next, pc.expiresAt), Rotated(pc.next))
  {
    FinishedStays(Step(s, c), c, n - 1);
  }

  lemma UpdatesToken(s: State, c: Call, n: nat)
    requires Quiet(s, c.p) && c.p in s.procs && s.procs[c.p].RotateLocked? && n >= 2
    requires var pc := s.procs[c.p]; CanRotate(s.db, pc.key, pc.user, pc.now)
    ensures var pc := s.procs[c.p];
            Ends(Steps(s, c, n), c.p, Rotate(s.db, pc.key, pc.user, pc.now, pc.next, pc.expiresAt), Rotated(pc.next))
  {
    CommitsRotation(Step(s, c), c, n - 1);
  }

  lemma Rotates(s: State, c: Call, n: nat)
    requires Quiet(s, c.p) && c.p in s.procs && s.procs[c.p].ToRotate? && n >= 3
    requires var pc := s.procs[c.p]; CanRotate(s.db, pc.key, pc.user, pc.now)
    ensures var pc := s.procs[c.p];
            Ends(Steps(s, c, n), c.p, Rotate(s.db, pc.key, pc.user, pc.now, pc.next, pc.expiresAt), Rotated(pc.next))
  {
    UpdatesToken(Step(s, c), c, n - 1);
  }

  // Without a user there is nothing to rotate, and everything is revoked.
  lemma LosesRotation(s: State, c: Call, n: nat)
    requires Quiet(s, c.p) && c.p in s.procs && s.procs[c.p].ToRotate? && n >= 4
    requires s.procs[c.p].user !in s.db.users
    ensures var user := s.procs[c.p].user;
            Ends(Steps(s, c, n), c.p, RevokeAll(s.db, user, s.clock), AllRevoked(user, Some(|s.log|)))
  {
    Burns(Step(s, c), c, n - 1);
  }

  function AnswerOf(outcome: Outcome): Option<RefreshResult> {
    match outcome
    case Unknown => Some(UnknownToken)
    case Expired(_) => Some(ExpiredToken)
    case Inactive(_) => Some(InactiveAccount)
    case Rotated(next) => Some(NewToken(next))
    case AllRevoked(_, _) => Some(ReuseDetected)
    case LoggedOut => None
    case Failed => None
  }

  ghost predicate Answers(t: State, p: Pid, result: (Db, RefreshResult)) {
    t.db == result.0 && p in t.procs && t.procs[p].Finished? && AnswerOf(t.procs[p].outcome) == Some(result.1)
  }

  // A refresh that runs alone leaves the table and gives the answer of AuthService.Refresh.
  lemma LoneRefresh(s: State, c: Call)
    requires Quiet(s, c.p) && c.p !in s.requests && c.p !in s.procs && c.next !in s.issued
    ensures Answers(Steps(s, c, 6), c.p, RefreshOf(s.db, c.active, c.key, c.next, s.clock, s.clock, s.clock, c.ttl))
  {
    var presented := Step(s, c);
    if c.key in s.db.rows {
      LoneDecision(presented, c, s.db.rows[c.key]);
    } else {
      FinishedStays(presented, c, 5);
    }
  }

  lemma LoneDecision(s: State, c: Call, row: Row)
    requires Quiet(s, c.p) && c.p in s.procs && s.procs[c.p].Found? && c.next !in s.issued
    requires c.key in s.db.rows && row == s.db.rows[c.key]
    requires s.procs[c.p].key == c.key && s.procs[c.p].row == row
    ensures Answers(Steps(s, c, 5), c.p, Continue(s.db, row, c.active, c.key, c.next, s.clock, s.clock, s.clock, c.ttl))
  {
    Decides(s, c, row);
    var decided := Step(s, c);
    if row.revokedAt != None {
      Burns(decided, c, 4);
    } else if row.expiresAt <= s.clock || !c.active {
      FinishedStays(decided, c, 4);
    } else if row.user in s.db.users {
      Rotates(decided, c, 4);
    } else {
      LosesRotation(decided, c, 4);
    }
  }

  lemma Decides(s: State, c: Call, row: Row)
    requires Quiet(s, c.p) && c.p in s.procs && s.procs[c.p].Found? && c.next !in s.issued
    requires s.procs[c.p].key == c.key && s.procs[c.p].row == row
    ensures var decided := Step(s, c);
            && Quiet(decided, c.p) && decided.db == s.db && decided.clock == s.clock && c.p in decided.procs
            && var pc := decided.procs[c.p];
            if row.revokedAt != None then pc.ToBurn? && pc.user == row.user
            else if row.expiresAt <= s.clock then pc.Finished? && pc.outcome.Expired?
            else if !c.active then pc.Finished? && pc.outcome.Inactive?
            else pc == ToRotate(c.key, row.user, s.clock, c.next, s.clock + c.ttl)
  {
  }

  // So do the logouts.
  lemma LoneLogout(s: State, c: Call)
    requires Quiet(s, c.p) && c.p !in s.requests && c.p !in s.procs
    ensures Ends(Steps(Effect(s, PresentLogout(c.p, c.key)), c, 1), c.p,
                 if Unrevoked(s.db, c.key) then SetRevoked(s.db, c.key, s.clock) else s.db, LoggedOut)
  {
    var presented := Effect(s, PresentLogout(c.p, c.key));
    if Unrevoked(s.db, c.key) {
      FinishedStays(Step(presented, c), c, 0);
    } else {
      FinishedStays(presented, c, 1);
    }
  }

  lemma LoneLogoutAll(s: State, c: Call, user: UserId)
    requires Quiet(s, c.p) && c.p !in s.requests && c.p !in s.procs
    ensures Ends(Steps(Effect(s, LogOutAll(c.p, user)), c, 3), c.p,
                 RevokeAll(s.db, user, s.clock), AllRevoked(user, None))
  {
    Burns(Effect(s, LogOutAll(c.p, user)), c, 3);
  }
}
