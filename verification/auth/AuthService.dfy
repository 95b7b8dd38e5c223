/** Login, refresh and logout as ordered calls on the two repositories. */
module AuthService {
  import opened Basics
  import opened RefreshTokens
  import opened Lockout
  import opened Repositories

  datatype LoginResult = LoginToken(key: Key) | AccountLocked | InvalidCredentials

  datatype RefreshResult = NewToken(key: Key) | UnknownToken | ExpiredToken | InactiveAccount | ReuseDetected

  function LoginAnswer(u: User, a: Attempt, next: Key): LoginResult {
    if Locked(u, a.now) then AccountLocked
    else if Judge(u, a) == LoggedIn then LoginToken(next)
    else InvalidCredentials
  }

  // What refresh does once it has read the presented token's row, whatever the table has become
  // since: the table it leaves, and its answer. It reads the clock at "now" for the checks, at
  // "later" for the new expiry, and at "burnAt" for a revoke-all.
  function Continue(
    db: Db, row: Row, active: bool, k: Key, next: Key, now: Time, later: Time, burnAt: Time, ttl: nat)
    : (Db, RefreshResult)
  {
    if row.revokedAt != None then (RevokeAll(db, row.user, burnAt), ReuseDetected)
    else if row.expiresAt <= now then (db, ExpiredToken)
    else if !active then (db, InactiveAccount)
    else if CanRotate(db, k, row.user, now) then (Rotate(db, k, row.user, now, next, later + ttl), NewToken(next))
    else (RevokeAll(db, row.user, burnAt), ReuseDetected)
  }

  // When it raises: the revoke-all meets its fault, or the rotation does.
  predicate ContinueRaises(
    db: Db, row: Row, active: bool, k: Key, next: Key, now: Time, fault: nat, burnFault: nat)
  {
    if row.revokedAt != None then burnFault < 3
    else if row.expiresAt <= now || !active then false
    else
      || RotateRaises(db, k, row.user, now, next, fault)
      || (!CanRotate(db, k, row.user, now) && burnFault < 3)
  }

  function RefreshOf(db: Db, active: bool, k: Key, next: Key, now: Time, later: Time, burnAt: Time, ttl: nat)
    : (Db, RefreshResult)
  {
    if k in db.rows then Continue(db, db.rows[k], active, k, next, now, later, burnAt, ttl) else (db, UnknownToken)
  }

  // Presenting a token a second time - expired by then or not - ends every session of its user,
  // the one just issued included.
  lemma SecondUseBurnsEverything(
    db: Db, active: bool, k: Key, next: Key, now: Time, later: Time, burnAt: Time, ttl: nat,
    active': bool, next': Key, now': Time, later': Time, burnAt': Time)
    requires k in db.rows && next !in db.rows
    requires RefreshOf(db, active, k, next, now, later, burnAt, ttl).1 == NewToken(next)
    ensures var once := RefreshOf(db, active, k, next, now, later, burnAt, ttl).0;
            var twice := RefreshOf(once, active', k, next', now', later', burnAt', ttl);
            && Unrevoked(once, next)
            && twice.1 == ReuseDetected && LiveKeys(twice.0, db.rows[k].user) == {}
  {
    var once := RefreshOf(db, active, k, next, now, later, burnAt, ttl).0;
    assert next != k && once.rows[k].revokedAt == Some(now) && once.rows[k].user == db.rows[k].user;
    BurnLeavesNothing(once, db.rows[k].user, burnAt');
  }

  lemma BurnLeavesNothing(db: Db, user: UserId, at: Time)
    ensures LiveKeys(RevokeAll(db, user, at), user) == {}
    ensures forall k :: k in db.rows && db.rows[k].user != user ==> RevokeAll(db, user, at).rows[k] == db.rows[k]
  {
    forall k | k in RevokeAll(db, user, at).rows ensures k !in LiveKeys(RevokeAll(db, user, at), user) {
      assert k in LiveKeys(db, user) ==> RevokeAll(db, user, at).rows[k].revokedAt == Some(at);
    }
  }

  // What each answer of a refresh means for the snapshot it read, the account, and the table.
  lemma AnswersOfARefresh(
    db: Db, row: Row, active: bool, k: Key, next: Key, now: Time, later: Time, burnAt: Time, ttl: nat)
    ensures var (after, answer) := Continue(db, row, active, k, next, now, later, burnAt, ttl);
            var live := row.revokedAt == None && row.expiresAt > now;
            && (answer == NewToken(next) <==>
                  && live && active && row.user in db.users
                  && k in db.rows && db.rows[k].revokedAt == None && db.rows[k].user == row.user
                  && db.rows[k].expiresAt > now)
            && (answer == ExpiredToken <==> row.revokedAt == None && row.expiresAt <= now)
            && (answer == InactiveAccount <==> live && !active)
            && answer != UnknownToken
            && (answer == ExpiredToken || answer == InactiveAccount ==> after == db)
            && (answer == ReuseDetected ==> LiveKeys(after, row.user) == {} && after.rows.Keys == db.rows.Keys)
            && (answer == NewToken(next) && next != k ==>
                  var consumed := db.rows[k := db.rows[k].(revokedAt := Some(now))];
                  after.rows == consumed[next := Row(row.user, later + ttl, None)])
  {
    BurnLeavesNothing(db, row.user, burnAt);
  }

  // The lifetime of the token a refresh issues: on the table it leaves, the new token of an account
  // that is still active can be refreshed in its turn up to "ttl" after the clock was read for it,
  // and from then on it is expired.
  lemma NewTokenLivesItsTime(
    db: Db, active: bool, k: Key, next: Key, now: Time, later: Time, burnAt: Time, ttl: nat,
    next': Key, now': Time, later': Time, burnAt': Time)
    requires k in db.rows && next !in db.rows
    requires RefreshOf(db, active, k, next, now, later, burnAt, ttl).1 == NewToken(next)
    ensures var once := RefreshOf(db, active, k, next, now, later, burnAt, ttl).0;
            var twice := RefreshOf(once, true, next, next', now', later', burnAt', ttl);
            && active && db.rows[k].revokedAt == None && db.rows[k].expiresAt > now
            && twice.1 == (if now' < later + ttl then NewToken(next') else ExpiredToken)
            && (now' >= later + ttl ==> twice.0 == once)
            && RefreshOf(once, false, next, next', now', later', burnAt', ttl)
               == (once, if now' < later + ttl then InactiveAccount else ExpiredToken)
  {
    var once := RefreshOf(db, active, k, next, now, later, burnAt, ttl).0;
    AnswersOfARefresh(db, db.rows[k], active, k, next, now, later, burnAt, ttl);
    assert once.rows[next] == Row(db.rows[k].user, later + ttl, None);
    AnswersOfARefresh(once, once.rows[next], true, next, next', now', later', burnAt', ttl);
  }

  class AuthService {
    const users: UserRepository
    const tokens: RefreshTokenRepository
    const settings: Settings

    ghost predicate Valid()
      reads this, users, tokens
    {
      settings.Valid() && tokens.NoTransaction() && tokens.committed.users == users.users.Keys
    }

    constructor (users: UserRepository, tokens: RefreshTokenRepository, settings: Settings)
      requires settings.Valid() && tokens.NoTransaction() && tokens.committed.users == users.users.Keys
      ensures Valid() && this.users == users && this.tokens == tokens && this.settings == settings
    {
      this.users, this.tokens, this.settings := users, tokens, settings;
    }

    // "correct" is the verdict of the password hash, "fault" the number of updates that come through
    // before one raises. A lock refuses before the password is looked at.
    method Login(email: UserId, correct: bool, now: Time, later: Time, next: Key, fault: nat)
      returns (r: Reply<LoginResult>)
      requires Valid()
      modifies users, tokens
      ensures Valid()
      ensures email !in old(users.users) ==> r == Returned(InvalidCredentials) && users.users == old(users.users)
      ensures email in old(users.users) ==>
                var u, a := old(users.users)[email], Attempt(now, later, correct);
                var writes := Writes(u, a, settings);
                && users.users == old(users.users)[email := RowAfter(u, writes, fault)]
                && (r == Raised <==> || fault < |writes|
                                     || (Judge(u, a) == LoggedIn && fault == |writes|)
                                     || (Judge(u, a) == LoggedIn && next in old(tokens.committed).rows))
                && (r.Returned? ==> r.value == LoginAnswer(u, a, next))
      ensures tokens.committed == if r == Returned(LoginToken(next))
                                  then Insert(old(tokens.committed), next, email, later + settings.ttl)
                                  else old(tokens.committed)
      // In terms of the stored row: who is let in, who is told of a lock, and what is left behind.
      ensures email in old(users.users) ==>
                var u := old(users.users)[email];
                var locked := u.lockedUntil.Some? && u.lockedUntil.value > now;
                && (r == Returned(AccountLocked) <==> locked)
                && (locked ==> users.users == old(users.users))
                && (r == Returned(LoginToken(next)) ==>
                      u.active && correct && !locked && users.users[email] == User(true, 0, None, Some(later)))
                && (u.active && correct && !locked && fault >= 3 && next !in old(tokens.committed).rows ==>
                      r == Returned(LoginToken(next)))
                && (u.active && !correct && !locked && fault >= 3 ==>
                      var count := (if u.lockedUntil == None then u.failedCount else 0) + 1;
                      var lock := if count >= settings.maxAttempts then Some(later + settings.lockSeconds) else None;
                      r == Returned(InvalidCredentials) && users.users[email] == User(true, count, lock, u.lastLogin))
    {
      if email !in users.users {
        return Returned(InvalidCredentials);
      }
      var user := users.users[email];
      assert users.users[email := user] == users.users;
      if user.lockedUntil.Some? {
        if user.lockedUntil.value > now {
          return Returned(AccountLocked);
        }
        var reset := users.ResetExpiredLockout(email, now, fault == 0);
        if reset.Raised? {
          return Raised;
        }
      }
      var done := if user.lockedUntil.Some? then 1 else 0;
      if !user.active {
        return Returned(InvalidCredentials);
      }
      if !correct {
        r := CountWrongPassword(email, later, fault <= done, fault == done + 1);
        return;
      }
      var cleared := users.ResetFailedLogin(email, later, fault <= done);
      if cleared.Raised? {
        return Raised;
      }
      var created := tokens.Create(next, email, later + settings.ttl, fault == done + 1);
      return if created.Raised? then Raised else Returned(LoginToken(next));
    }

    method CountWrongPassword(email: UserId, later: Time, countFails: bool, lockFails: bool)
      returns (r: Reply<LoginResult>)
      requires Valid() && email in users.users
      modifies users
      ensures Valid()
      ensures var counted := CountFailure(old(users.users)[email]);
              var limit := counted.failedCount >= settings.maxAttempts;
              && r == (if countFails || (limit && lockFails) then Raised else Returned(InvalidCredentials))
              && users.users == if countFails then old(users.users)
                                else if limit && !lockFails
                                then old(users.users)[email := LockUntil(counted, later + settings.lockSeconds)]
                                else old(users.users)[email := counted]
    {
      var count := users.IncrementFailedLogin(email, countFails);
      if count.Raised? {
        return Raised;
      }
      if count.value >= settings.maxAttempts {
        var locked := users.SetLockedUntil(email, later + settings.lockSeconds, lockFails);
        if locked.Raised? {
          return Raised;
        }
      }
      return Returned(InvalidCredentials);
    }

    predicate Active(user: UserId)
      reads users
    {
      user in users.users && users.users[user].active
    }

    // If a database call raises, the table is as it was; otherwise the refresh happened in full. "fault"
    // is the number of calls of the rotation that succeed before one raises, "burnFault" that of the
    // revoke-all.
    method Refresh(k: Key, next: Key, now: Time, later: Time, burnAt: Time, fault: nat, burnFault: nat)
      returns (r: Reply<RefreshResult>)
      requires Valid()
      modifies tokens
      ensures Valid()
      ensures r.Raised? ==> tokens.committed == old(tokens.committed)
      ensures r.Returned? ==>
                var db := old(tokens.committed);
                var active := k in db.rows && Active(db.rows[k].user);
                (tokens.committed, r.value) == RefreshOf(db, active, k, next, now, later, burnAt, settings.ttl)
      ensures r.Raised? <==>
                var db := old(tokens.committed);
                k in db.rows && ContinueRaises(db, db.rows[k], Active(db.rows[k].user), k, next, now, fault, burnFault)
    {
      var existing := tokens.GetByHash(k);
      if existing == None {
        return Returned(UnknownToken);
      }
      r := ContinueRefresh(k, existing.value, next, now, later, burnAt, fault, burnFault);
    }

    method ContinueRefresh(
      k: Key, row: Row, next: Key, now: Time, later: Time, burnAt: Time, fault: nat, burnFault: nat)
      returns (r: Reply<RefreshResult>)
      requires Valid()
      modifies tokens
      ensures Valid()
      ensures r.Raised? ==> tokens.committed == old(tokens.committed)
      ensures r.Returned? ==>
                (tokens.committed, r.value)
                == Continue(old(tokens.committed), row, Active(row.user), k, next, now, later, burnAt, settings.ttl)
      ensures r.Raised? <==>
                ContinueRaises(old(tokens.committed), row, Active(row.user), k, next, now, fault, burnFault)
    {
      if row.revokedAt != None {
        var burned := tokens.RevokeAllForUser(row.user, burnAt, burnFault);
        return if burned.Raised? then Raised else Returned(ReuseDetected);
      }
      if row.expiresAt <= now {
        return Returned(ExpiredToken);
      }
      if row.user !in users.users || !users.users[row.user].active {
        return Returned(InactiveAccount);
      }
      var rotated := tokens.RotateIfActive(k, row.user, now, next, later + settings.ttl, fault);
      if rotated.Raised? {
        return Raised;
      }
      if !rotated.value {
        // A competing request consumed or revoked the token.
        var burned := tokens.RevokeAllForUser(row.user, burnAt, burnFault);
        return if burned.Raised? then Raised else Returned(ReuseDetected);
      }
      return Returned(NewToken(next));
    }

    method Logout(k: Key, clock: Time)
      requires Valid()
      modifies tokens
      ensures Valid()
      ensures tokens.committed == if Unrevoked(old(tokens.committed), k)
                                  then SetRevoked(old(tokens.committed), k, clock) else old(tokens.committed)
    {
      var existing := tokens.GetByHash(k);
      if existing != None && existing.value.revokedAt == None {
        tokens.Revoke(k, clock);
      }
    }

    method LogoutAll(user: UserId, clock: Time, fault: nat) returns (r: Reply<()>)
      requires Valid()
      modifies tokens
      ensures Valid()
      ensures tokens.committed == if r.Raised? then old(tokens.committed)
                                  else RevokeAll(old(tokens.committed), user, clock)
      ensures fault >= 3 ==> r.Returned?
    {
      r := tokens.RevokeAllForUser(user, clock, fault);
    }
  }
}
