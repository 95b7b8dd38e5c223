/** The SQL repositories: each method is one transaction on a table this session can see. */
module Repositories {
  import opened Basics
  import opened RefreshTokens
  import opened Lockout

  // What a call gives back when the database may raise instead.
  datatype Reply<T> = Returned(value: T) | Raised

  // Which of its calls a rotation gets to, and so which fault it meets: the lock, the UPDATE if the
  // user exists, the INSERT and commit if the token was consumed. A duplicate hash raises there too.
  predicate RotateRaises(db: Db, k: Key, user: UserId, now: Time, next: Key, fault: nat) {
    || fault == 0
    || (fault == 1 && user in db.users)
    || (CanRotate(db, k, user, now) && (fault == 2 || next in db.rows))
  }

  class UserRepository {
    var users: map<UserId, User>

    constructor (users: map<UserId, User>)
      ensures this.users == users
    {
      this.users := users;
    }

    // The new count comes from the UPDATE itself; without a row there is nothing to return.
    method IncrementFailedLogin(u: UserId, fails: bool) returns (r: Reply<nat>)
      modifies this
      ensures fails || u !in old(users) ==> r == Raised && users == old(users)
      ensures !fails && u in old(users) ==>
                && users == old(users)[u := CountFailure(old(users)[u])]
                && r == Returned(old(users)[u].failedCount + 1)
    {
      if fails || u !in users {
        return Raised;
      }
      users := users[u := CountFailure(users[u])];
      return Returned(users[u].failedCount);
    }

    method ResetFailedLogin(u: UserId, at: Time, fails: bool) returns (r: Reply<()>)
      modifies this
      ensures r == if fails then Raised else Returned(())
      ensures users == if !fails && u in old(users)
                       then old(users)[u := ClearFailures(old(users)[u], at)] else old(users)
    {
      if fails {
        return Raised;
      }
      if u in users {
        users := users[u := users[u].(failedCount := 0, lockedUntil := None, lastLogin := Some(at))];
      }
      return Returned(());
    }

    method SetLockedUntil(u: UserId, until: Time, fails: bool) returns (r: Reply<()>)
      modifies this
      ensures r == if fails then Raised else Returned(())
      ensures users == if !fails && u in old(users)
                       then old(users)[u := LockUntil(old(users)[u], until)] else old(users)
    {
      if fails {
        return Raised;
      }
      if u in users {
        users := users[u := users[u].(lockedUntil := Some(until))];
      }
      return Returned(());
    }

    // Compare and reset in one statement: a running lock is never cleared, an expired one only once.
    method ResetExpiredLockout(u: UserId, now: Time, fails: bool) returns (r: Reply<()>)
      modifies this
      ensures r == if fails then Raised else Returned(())
      ensures users == if !fails && u in old(users)
                       then old(users)[u := ResetExpired(old(users)[u], now)] else old(users)
      ensures u in users && users[u] != old(users)[u] ==>
                && old(users)[u].lockedUntil.Some? && old(users)[u].lockedUntil.value <= now
                && users[u].lockedUntil == None
      ensures u in users ==> users[u].lastLogin == old(users)[u].lastLogin
    {
      if fails {
        return Raised;
      }
      if u in users && users[u].lockedUntil.Some? && users[u].lockedUntil.value <= now {
        users := users[u := users[u].(failedCount := 0, lockedUntil := None)];
      }
      return Returned(());
    }
  }

  /**
   "committed" is the database, "session" what this session's open transaction has made of it.
   "fault" is the number of database calls that succeed before one raises.
   */
  class RefreshTokenRepository {
    var committed: Db
    var session: Db

    ghost predicate NoTransaction()
      reads this
    {
      session == committed
    }

    constructor (db: Db)
      ensures NoTransaction() && committed == db
    {
      committed, session := db, db;
    }

    method Commit()
      modifies this
      ensures NoTransaction() && committed == old(session)
    {
      committed := session;
    }

    method Rollback()
      modifies this
      ensures NoTransaction() && committed == old(committed)
    {
      session := committed;
    }

    method Create(k: Key, user: UserId, expiresAt: Time, fails: bool) returns (r: Reply<()>)
      requires NoTransaction()
      modifies this
      ensures NoTransaction()
      ensures r == if fails || k in old(committed).rows || user !in old(committed).users then Raised else Returned(())
      ensures committed == if r.Raised? then old(committed) else Insert(old(committed), k, user, expiresAt)
    {
      // The hash is unique and the user a foreign key.
      if fails || k in session.rows || user !in session.users {
        Rollback();
        return Raised;
      }
      session := Insert(session, k, user, expiresAt);
      Commit();
      return Returned(());
    }

    method GetByHash(k: Key) returns (row: Option<Row>)
      ensures row == if k in session.rows then Some(session.rows[k]) else None
    {
      return if k in session.rows then Some(session.rows[k]) else None;
    }

    method ConsumeIfActive(k: Key, now: Time) returns (consumed: bool)
      requires NoTransaction()
      modifies this
      ensures NoTransaction()
      ensures consumed == CanConsume(old(committed), k, now) && committed == Consume(old(committed), k, now)
      ensures var rows := old(committed).rows;
              && (consumed <==> k in rows && rows[k].revokedAt == None && rows[k].expiresAt > now)
              && committed.rows == if consumed then rows[k := rows[k].(revokedAt := Some(now))] else rows
    {
      consumed := k in session.rows && session.rows[k].revokedAt == None && session.rows[k].expiresAt > now;
      if consumed {
        session := SetRevoked(session, k, now);
      }
      Commit();
    }

    // Old token and replacement are written together or not at all, whichever call raises.
    method RotateIfActive(k: Key, user: UserId, now: Time, next: Key, expiresAt: Time, fault: nat)
      returns (r: Reply<bool>)
      requires NoTransaction()
      modifies this
      ensures NoTransaction()
      ensures r.Raised? ==> committed == old(committed)
      ensures r.Returned? ==>
                && r.value == CanRotate(old(committed), k, user, now)
                && committed == Rotate(old(committed), k, user, now, next, expiresAt)
      ensures r.Raised? <==> RotateRaises(old(committed), k, user, now, next, fault)
      ensures r == Returned(true) ==> next !in old(committed).rows
    {
      if fault == 0 {
        Rollback();
        return Raised;
      }
      if user !in session.users {
        Rollback();
        return Returned(false);
      }
      if fault == 1 {
        Rollback();
        return Raised;
      }
      var consumed :=
        && k in session.rows && session.rows[k].user == user
        && session.rows[k].revokedAt == None && session.rows[k].expiresAt > now;
      if consumed {
        session := SetRevoked(session, k, now);
      } else {
        Rollback();
        return Returned(false);
      }
      var duplicate := next in session.rows;
      session := Insert(session, next, user, expiresAt);
      if fault == 2 || duplicate {
        Rollback();
        return Raised;
      }
      Commit();
      return Returned(true);
    }

    method Revoke(k: Key, clock: Time)
      requires NoTransaction()
      modifies this
      ensures NoTransaction() && committed == RefreshTokens.Revoke(old(committed), k, clock)
    {
      if k in session.rows {
        session := SetRevoked(session, k, clock);
      }
      Commit();
    }

    method RevokeAllForUser(user: UserId, clock: Time, fault: nat) returns (r: Reply<()>)
      requires NoTransaction()
      modifies this
      ensures NoTransaction()
      ensures r == if fault < 3 then Raised else Returned(())
      ensures committed == if r.Raised? then old(committed) else RevokeAll(old(committed), user, clock)
    {
      if fault < 2 {
        Rollback();
        return Raised;
      }
      session := session.(rows := map k | k in session.rows ::
        if session.rows[k].user == user && session.rows[k].revokedAt == None
        then session.rows[k].(revokedAt := Some(clock)) else session.rows[k]);
      if fault == 2 {
        Rollback();
        return Raised;
      }
      Commit();
      return Returned(());
    }
  }
}
