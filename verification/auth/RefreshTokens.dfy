/**
 The refresh-token table and the operations on it that a transaction makes atomic.
 Rows are keyed by their token hash, which is unique and stands for the row's id.
 */
module RefreshTokens {
  import opened Basics

  type UserId = nat
  type Key = nat
  type Time = int

  datatype Row = Row(user: UserId, expiresAt: Time, revokedAt: Option<Time>)

  datatype Db = Db(users: set<UserId>, rows: map<Key, Row>)

  predicate Unrevoked(db: Db, k: Key) {
    k in db.rows && db.rows[k].revokedAt == None
  }

  // The WHERE clause of the rotating UPDATE.
  predicate Consumable(db: Db, k: Key, user: UserId, now: Time) {
    Unrevoked(db, k) && db.rows[k].user == user && db.rows[k].expiresAt > now
  }

  function SetRevoked(db: Db, k: Key, at: Time): Db
    requires k in db.rows
  {
    db.(rows := db.rows[k := db.rows[k].(revokedAt := Some(at))])
  }

  function Insert(db: Db, k: Key, user: UserId, expiresAt: Time): Db {
    db.(rows := db.rows[k := Row(user, expiresAt, None)])
  }

  // rotate_if_active: consume the old token and insert its replacement, or neither.

  predicate CanRotate(db: Db, k: Key, user: UserId, now: Time) {
    user in db.users && Consumable(db, k, user, now)
  }

  function Rotate(db: Db, k: Key, user: UserId, now: Time, next: Key, expiresAt: Time): Db {
    if CanRotate(db, k, user, now) then Insert(SetRevoked(db, k, now), next, user, expiresAt) else db
  }

  // consume_if_active

  predicate CanConsume(db: Db, k: Key, now: Time) {
    Unrevoked(db, k) && db.rows[k].expiresAt > now
  }

  function Consume(db: Db, k: Key, now: Time): Db {
    if CanConsume(db, k, now) then SetRevoked(db, k, now) else db
  }

  // revoke: unconditional, it overwrites an earlier revocation time.
  function Revoke(db: Db, k: Key, at: Time): Db {
    if k in db.rows then SetRevoked(db, k, at) else db
  }

  function LiveKeys(db: Db, user: UserId): set<Key> {
    set k | k in db.rows && db.rows[k].user == user && db.rows[k].revokedAt == None
  }

  function RevokeKeys(db: Db, keys: set<Key>, at: Time): Db {
    db.(rows := map k | k in db.rows ::
          if k in keys then db.rows[k].(revokedAt := Some(at)) else db.rows[k])
  }

  // revoke_all_for_user
  function RevokeAll(db: Db, user: UserId, at: Time): Db {
    RevokeKeys(db, LiveKeys(db, user), at)
  }
}
