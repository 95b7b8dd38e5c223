/**
 What every serial history of token operations keeps: rotation chains rooted at
 logins, at most one live token a chain, and nothing that survives a revoke-all.
 */
module Lineage {
  import opened Basics
  import opened RefreshTokens

  // One committed operation, with the answer it gave its caller.
  datatype Op =
    | Lookup(key: Key, found: Option<Row>)
    | Login(key: Key, user: UserId, expiresAt: Time)
    | Rotation(key: Key, user: UserId, now: Time, next: Key, expiresAt: Time, ok: bool)
    | Consumption(key: Key, now: Time, ok: bool)
    | Revocation(key: Key, at: Time)
    | Burn(user: UserId, at: Time)

  function Perform(db: Db, op: Op): Db {
    match op
    case Lookup(_, _) => db
    case Login(k, u, e) => Insert(db, k, u, e)
    case Rotation(k, u, n, f, e, ok) => Rotate(db, k, u, n, f, e)
    case Consumption(k, n, ok) => Consume(db, k, n)
    case Revocation(k, at) => Revoke(db, k, at)
    case Burn(u, at) => RevokeAll(db, u, at)
  }

  // The operation may run here and answers as recorded; keys of new rows are new.
  predicate Answers(db: Db, op: Op) {
    match op
    case Lookup(k, found) => found == if k in db.rows then Some(db.rows[k]) else None
    case Login(k, u, e) => u in db.users && k !in db.rows
    case Rotation(k, u, n, f, e, ok) => ok == CanRotate(db, k, u, n) && (ok ==> f !in db.rows)
    case Consumption(k, n, ok) => ok == CanConsume(db, k, n)
    case _ => true
  }

  function Empty(users: set<UserId>): Db {
    Db(users, map[])
  }

  // The table after a history that starts with no tokens.
  function Replay(users: set<UserId>, log: seq<Op>): Db {
    if log == [] then Empty(users) else Perform(Replay(users, log[..|log| - 1]), log[|log| - 1])
  }

  predicate Serial(users: set<UserId>, log: seq<Op>) {
    log == [] ||
    (Serial(users, log[..|log| - 1]) && Answers(Replay(users, log[..|log| - 1]), log[|log| - 1]))
  }

  lemma SerialExtends(users: set<UserId>, log: seq<Op>, op: Op)
    requires Serial(users, log) && Answers(Replay(users, log), op)
    ensures Serial(users, log + [op]) && Replay(users, log + [op]) == Perform(Replay(users, log), op)
  {
    assert (log + [op])[..|log|] == log;
  }

  lemma {:induction false} SerialPrefix(users: set<UserId>, log: seq<Op>, n: nat)
    requires Serial(users, log) && n <= |log|
    ensures Serial(users, log[..n])
    decreases |log|
  {
    if n == |log| {
      assert log[..n] == log;
    } else {
      SerialPrefix(users, log[..|log| - 1], n);
      assert log[..|log| - 1][..n] == log[..n];
    }
  }

  // Where in the log the login stands that each token descends from.
  function Roots(log: seq<Op>): map<Key, nat> {
    if log == [] then map[] else RootsAfter(Roots(log[..|log| - 1]), log[|log| - 1], |log| - 1)
  }

  function RootsAfter(roots: map<Key, nat>, op: Op, at: nat): map<Key, nat> {
    if op.Login? then roots[op.key := at]
    else if op.Rotation? && op.ok && op.key in roots then roots[op.next := roots[op.key]]
    else roots
  }

  predicate Burns(op: Op, user: UserId) {
    op.Burn? && op.user == user
  }

  predicate Consumes(op: Op, k: Key) {
    ((op.Rotation? && op.ok) || (op.Consumption? && op.ok)) && op.key == k
  }

  // Every token descends from a login of its own user.
  ghost predicate RootsSound(db: Db, log: seq<Op>, roots: map<Key, nat>) {
    && db.rows.Keys == roots.Keys
    && forall k :: k in roots ==> LoginOf(log, roots[k], db.rows[k].user)
  }

  predicate LoginOf(log: seq<Op>, i: nat, user: UserId) {
    i < |log| && log[i].Login? && log[i].user == user
  }

  // A chain has at most one live token.
  ghost predicate OneLiveEach(db: Db, roots: map<Key, nat>) {
    forall k, l :: Unrevoked(db, k) && Unrevoked(db, l) && k in roots && l in roots && roots[k] == roots[l] ==>
                     k == l
  }

  // A live token descends from a login after its user's last revoke-all.
  ghost predicate LiveAfterBurns(db: Db, log: seq<Op>, roots: map<Key, nat>) {
    forall k, i :: Unrevoked(db, k) && k in roots && 0 <= i < |log| && Burns(log[i], db.rows[k].user) ==>
                     i < roots[k]
  }

  // What was consumed exists and is not live.
  ghost predicate ConsumedIsSpent(db: Db, log: seq<Op>) {
    forall k, i :: 0 <= i < |log| && Consumes(log[i], k) ==> k in db.rows && !Unrevoked(db, k)
  }

  ghost predicate Kept(db: Db, log: seq<Op>, roots: map<Key, nat>) {
    RootsSound(db, log, roots) && OneLiveEach(db, roots) && LiveAfterBurns(db, log, roots) && ConsumedIsSpent(db, log)
  }

  // The same rows, and no row live that was not.
  ghost predicate Shrinks(db: Db, db': Db) {
    && db'.users == db.users && db'.rows.Keys == db.rows.Keys
    && (forall k :: k in db.rows ==>
                      db'.rows[k].user == db.rows[k].user && (Unrevoked(db', k) ==> Unrevoked(db, k)))
  }

  lemma KeptWhenShrinking(db: Db, db': Db, log: seq<Op>, roots: map<Key, nat>, op: Op)
    requires Kept(db, log, roots) && Shrinks(db, db')
    requires forall k :: Consumes(op, k) ==> k in db.rows && !Unrevoked(db', k)
    requires forall k :: Unrevoked(db', k) ==> !Burns(op, db.rows[k].user)
    ensures Kept(db', log + [op], roots)
  {
    var more := log + [op];
    assert forall i :: 0 <= i < |log| ==> more[i] == log[i];
    forall k | k in roots ensures LoginOf(more, roots[k], db'.rows[k].user) {
      assert LoginOf(log, roots[k], db.rows[k].user);
    }
    assert LiveAfterBurns(db', more, roots);
    assert ConsumedIsSpent(db', more);
  }

  lemma KeptWhenInserting(db: Db, log: seq<Op>, roots: map<Key, nat>, k: Key, user: UserId, e: Time, root: nat)
    requires Kept(db, log, roots) && k !in db.rows && LoginOf(log, root, user)
    requires forall l :: Unrevoked(db, l) ==> roots[l] != root
    requires forall i :: 0 <= i < |log| && Burns(log[i], user) ==> i < root
    ensures Kept(Insert(db, k, user, e), log, roots[k := root])
  {
    var db', roots' := Insert(db, k, user, e), roots[k := root];
    assert forall l :: l != k ==> (Unrevoked(db', l) <==> Unrevoked(db, l));
    forall l | l in roots' ensures LoginOf(log, roots'[l], db'.rows[l].user) {
      assert l != k ==> LoginOf(log, roots[l], db.rows[l].user);
    }
    assert OneLiveEach(db', roots');
    assert LiveAfterBurns(db', log, roots');
  }

  lemma KeptRotation(db: Db, log: seq<Op>, roots: map<Key, nat>, op: Op)
    requires Kept(db, log, roots) && Answers(db, op) && op.Rotation? && op.ok
    ensures Kept(Perform(db, op), log + [op], RootsAfter(roots, op, |log|))
  {
    var spent := SetRevoked(db, op.key, op.now);
    KeptWhenShrinking(db, spent, log, roots, op);
    assert LoginOf(log, roots[op.key], op.user);
    KeptWhenInserting(spent, log + [op], roots, op.next, op.user, op.expiresAt, roots[op.key]);
  }

  lemma KeptStep(db: Db, log: seq<Op>, roots: map<Key, nat>, op: Op)
    requires Kept(db, log, roots) && Answers(db, op)
    ensures Kept(Perform(db, op), log + [op], RootsAfter(roots, op, |log|))
  {
    if op.Login? {
      KeptWhenShrinking(db, db, log, roots, op);
      KeptWhenInserting(db, log + [op], roots, op.key, op.user, op.expiresAt, |log|);
    } else if op.Rotation? && op.ok {
      KeptRotation(db, log, roots, op);
    } else {
      KeptWhenShrinking(db, Perform(db, op), log, roots, op);
    }
  }

  lemma {:induction false} HistoryKeepsLineage(users: set<UserId>, log: seq<Op>)
    requires Serial(users, log)
    ensures Kept(Replay(users, log), log, Roots(log))
    decreases |log|
  {
    if log != [] {
      var before, op := log[..|log| - 1], log[|log| - 1];
      HistoryKeepsLineage(users, before);
      KeptStep(Replay(users, before), before, Roots(before), op);
      assert before + [op] == log;
    }
  }

  // Single use: no token is consumed twice in any history.
  lemma ConsumedOnce(users: set<UserId>, log: seq<Op>, i: nat, j: nat, k: Key)
    requires Serial(users, log) && i < |log| && j < |log|
    requires Consumes(log[i], k) && Consumes(log[j], k)
    ensures i == j
  {
    if i < j {
      ConsumedBefore(users, log, i, j, k);
    } else if j < i {
      ConsumedBefore(users, log, j, i, k);
    }
  }

  lemma ConsumedBefore(users: set<UserId>, log: seq<Op>, i: nat, j: nat, k: Key)
    requires Serial(users, log) && i < j < |log|
    requires Consumes(log[i], k)
    ensures !Consumes(log[j], k)
  {
    SerialPrefix(users, log, j);
    SerialPrefix(users, log, j + 1);
    assert log[..j + 1][..j] == log[..j];
    HistoryKeepsLineage(users, log[..j]);
    assert log[..j][i] == log[i];
  }

  // A revoked token is never live again.
  lemma {:induction false} RevokedForGood(users: set<UserId>, log: seq<Op>, n: nat, k: Key)
    requires Serial(users, log) && n <= |log|
    requires k in Replay(users, log[..n]).rows && !Unrevoked(Replay(users, log[..n]), k)
    ensures k in Replay(users, log).rows && !Unrevoked(Replay(users, log), k)
    decreases |log|
  {
    if n == |log| {
      assert log[..n] == log;
    } else {
      assert log[..|log| - 1][..n] == log[..n];
      RevokedForGood(users, log[..|log| - 1], n, k);
    }
  }

  // What a hash is looked up to: the row it was issued with, for good, but for its revocation.
  lemma {:induction false} RowsStay(users: set<UserId>, log: seq<Op>, n: nat, k: Key)
    requires Serial(users, log) && n <= |log| && k in Replay(users, log[..n]).rows
    ensures var early, late := Replay(users, log[..n]), Replay(users, log);
            && k in late.rows
            && late.rows[k].user == early.rows[k].user && late.rows[k].expiresAt == early.rows[k].expiresAt
            && (Unrevoked(late, k) ==> late.rows[k] == early.rows[k])
    decreases |log|
  {
    if n == |log| {
      assert log[..n] == log;
    } else {
      assert log[..|log| - 1][..n] == log[..n];
      RowsStay(users, log[..|log| - 1], n, k);
    }
  }

  // The logins of a user after the last revoke-all for that user.
  function LoginsSinceBurn(log: seq<Op>, user: UserId): set<nat> {
    set i: nat | i < |log| && LoginOf(log, i, user) && forall j :: 0 <= j < |log| && Burns(log[j], user) ==> j < i
  }

  lemma {:induction false} InjectionSize(keys: set<Key>, roots: map<Key, nat>, into: set<nat>)
    requires forall k :: k in keys ==> k in roots && roots[k] in into
    requires forall k, l :: k in keys && l in keys && roots[k] == roots[l] ==> k == l
    ensures |keys| <= |into|
    decreases |keys|
  {
    if k :| k in keys {
      InjectionSize(keys - {k}, roots, into - {roots[k]});
    }
  }

  // A user never has more live tokens than logins since the last revoke-all.
  lemma LiveTokensBounded(users: set<UserId>, log: seq<Op>, user: UserId)
    requires Serial(users, log)
    ensures |LiveKeys(Replay(users, log), user)| <= |LoginsSinceBurn(log, user)|
  {
    var db, roots := Replay(users, log), Roots(log);
    HistoryKeepsLineage(users, log);
    forall k | k in LiveKeys(db, user) ensures k in roots && roots[k] in LoginsSinceBurn(log, user) {
      assert Unrevoked(db, k) && LoginOf(log, roots[k], user);
    }
    InjectionSize(LiveKeys(db, user), roots, LoginsSinceBurn(log, user));
  }

  // After a revoke-all, only tokens of later logins are ever live.
  lemma BurnIsForGood(users: set<UserId>, log: seq<Op>, i: nat, user: UserId, k: Key)
    requires Serial(users, log) && i < |log| && Burns(log[i], user)
    requires k in LiveKeys(Replay(users, log), user)
    ensures k in Roots(log) && i < Roots(log)[k] && LoginOf(log, Roots(log)[k], user)
  {
    HistoryKeepsLineage(users, log);
    assert Unrevoked(Replay(users, log), k);
  }
}
