/**
 Concurrent refresh, logout and logout-all requests as interleaved database steps.
 Transactions take row locks, buffer their writes until they commit, and may fail
 at any step. Whatever the interleaving, the table is the one that some serial
 history of whole operations leaves, and each request was told what that history
 answered it.
 */
module Rotation {
  import opened Basics
  import opened RefreshTokens
  import opened Lineage

  // One request; a process that makes several makes them under several numbers.
  type Pid = nat

  // What was asked, and the length of the log when it was.
  datatype Request =
    | RefreshRequest(key: Key, since: nat)
    | LogoutRequest(key: Key, since: nat)
    | LogoutAllRequest(user: UserId, since: nat)

  // "cause" is the log entry that showed the reuse, for a refresh.
  datatype Outcome =
    | Unknown                         // no such token
    | Expired(now: Time)
    | Inactive(now: Time)
    | Rotated(next: Key)
    | AllRevoked(user: UserId, cause: Option<nat>)
    | LoggedOut
    | Failed                          // the database raised; the transaction was rolled back

  // Where one request stands. A finished one was answered by the log entry "at", and finished when
  // the log had the length "until".
  datatype Proc =
    | Idle
    | Found(key: Key, row: Row, at: nat)
    | ToRotate(key: Key, user: UserId, now: Time, next: Key, expiresAt: Time)
    | RotateLocked(key: Key, user: UserId, now: Time, next: Key, expiresAt: Time)
    | RotateUpdated(key: Key, user: UserId, now: Time, next: Key, expiresAt: Time)
    | ToBurn(user: UserId, cause: Option<nat>)
    | BurnLocked(user: UserId, cause: Option<nat>)
    | BurnUpdated(user: UserId, keys: set<Key>, stamp: Time, cause: Option<nat>)
    | ToRevoke(key: Key)
    | Finished(outcome: Outcome, at: nat, until: nat)

  datatype State = State(
    db: Db,                // what is committed
    requests: map<Pid, Request>,
    procs: map<Pid, Proc>,
    clock: Time,
    issued: set<Key>,      // every token ever generated
    log: seq<Op>)          // the operations that took effect, and the lookups, in the order they did

  function ProcOf(s: State, p: Pid): Proc {
    if p in s.procs then s.procs[p] else Idle
  }

  // SELECT ... FOR UPDATE on the user row is held from the lock step to commit or rollback.
  predicate HoldsUser(pc: Proc, user: UserId) {
    (pc.RotateLocked? || pc.RotateUpdated? || pc.BurnLocked? || pc.BurnUpdated?) && pc.user == user
  }

  // An UPDATE holds the rows it changed until commit or rollback.
  predicate HoldsRow(pc: Proc, k: Key) {
    (pc.RotateUpdated? && pc.key == k) || (pc.BurnUpdated? && k in pc.keys)
  }

  ghost predicate UserFree(s: State, user: UserId) {
    forall p :: p in s.procs ==> !HoldsUser(s.procs[p], user)
  }

  ghost predicate RowFree(s: State, k: Key) {
    forall p :: p in s.procs ==> !HoldsRow(s.procs[p], k)
  }

  datatype Action =
    | Tick(elapsed: nat)
    | LogIn(user: UserId, next: Key, ttl: nat)
    | PresentToken(p: Pid, key: Key)               // refresh: get_by_hash
    | Decide(p: Pid, active: bool, next: Key, ttl: nat)  // refresh: the checks on the snapshot
    | LockForRotate(p: Pid)
    | UpdateToken(p: Pid)                          // the conditional UPDATE
    | CommitRotation(p: Pid)                       // the buffered INSERT, and commit
    | LogOutAll(p: Pid, user: UserId)
    | LockForBurn(p: Pid)
    | UpdateAll(p: Pid)
    | CommitBurn(p: Pid)
    | PresentLogout(p: Pid, key: Key)              // logout: get_by_hash
    | RevokeOne(p: Pid)                            // revoke: one UPDATE and commit
    | ConsumeOne(key: Key)                         // consume_if_active: one UPDATE and commit
    | Raise(p: Pid)                                // any transaction step fails

  function Put(s: State, p: Pid, pc: Proc): State {
    s.(procs := s.procs[p := pc])
  }

  function Log(s: State, op: Op): State {
    s.(db := Perform(s.db, op), log := s.log + [op])
  }

  function Ask(s: State, p: Pid, r: Request): State {
    s.(requests := s.requests[p := r])
  }

  function Find(db: Db, k: Key): Option<Row> {
    if k in db.rows then Some(db.rows[k]) else None
  }

  // Whether the database and the request's own position let the action happen now. A step that
  // needs a held lock waits. Inserting a token takes a key-share lock on its user row (it is a
  // foreign key), which waits for a FOR UPDATE holder. New tokens are fresh.
  ghost predicate Enabled(s: State, a: Action) {
    match a
    case Tick(_) => true
    case LogIn(u, k, _) => u in s.db.users && k !in s.issued && UserFree(s, u)
    case PresentToken(p, _) => p !in s.requests
    case Decide(p, _, k, _) => ProcOf(s, p).Found? && k !in s.issued
    case LockForRotate(p) => ProcOf(s, p).ToRotate? && UserFree(s, ProcOf(s, p).user)
    case UpdateToken(p) => ProcOf(s, p).RotateLocked? && RowFree(s, ProcOf(s, p).key)
    case CommitRotation(p) => ProcOf(s, p).RotateUpdated?
    case LogOutAll(p, _) => p !in s.requests
    case LockForBurn(p) => ProcOf(s, p).ToBurn? && UserFree(s, ProcOf(s, p).user)
    case UpdateAll(p) =>
      ProcOf(s, p).BurnLocked? && forall k :: k in LiveKeys(s.db, ProcOf(s, p).user) ==> RowFree(s, k)
    case CommitBurn(p) => ProcOf(s, p).BurnUpdated?
    case PresentLogout(p, _) => p !in s.requests
    case RevokeOne(p) => ProcOf(s, p).ToRevoke? && RowFree(s, ProcOf(s, p).key)
    case ConsumeOne(k) => RowFree(s, k)
    case Raise(p) => var pc := ProcOf(s, p); !pc.Idle? && !pc.Finished?
  }

  ghost function Effect(s: State, a: Action): State
    requires Enabled(s, a)
  {
    match a
    case Tick(d) => s.(clock := s.clock + d)
    case LogIn(u, k, ttl) => Log(s.(issued := s.issued + {k}), Login(k, u, s.clock + ttl))
    case PresentToken(p, k) =>
      var found := Find(s.db, k);
      var read := Log(Ask(s, p, RefreshRequest(k, |s.log|)), Lookup(k, found));
      Put(read, p, if found == None then Finished(Unknown, |s.log|, |s.log| + 1) else Found(k, found.value, |s.log|))
    case Decide(p, active, k, ttl) =>
      var pc := ProcOf(s, p);
      if pc.row.revokedAt != None then Put(s, p, ToBurn(pc.row.user, Some(pc.at)))
      else if pc.row.expiresAt <= s.clock then Put(s, p, Finished(Expired(s.clock), pc.at, |s.log|))
      else if !active then Put(s, p, Finished(Inactive(s.clock), pc.at, |s.log|))
      else Put(s.(issued := s.issued + {k}), p, ToRotate(pc.key, pc.row.user, s.clock, k, s.clock + ttl))
    case LockForRotate(p) =>
      var pc := ProcOf(s, p);
      if pc.user in s.db.users then Put(s, p, RotateLocked(pc.key, pc.user, pc.now, pc.next, pc.expiresAt))
      else Refuse(s, p, pc)
    case UpdateToken(p) =>
      var pc := ProcOf(s, p);
      if Consumable(s.db, pc.key, pc.user, pc.now)
      then Put(s, p, RotateUpdated(pc.key, pc.user, pc.now, pc.next, pc.expiresAt))
      else Refuse(s, p, pc)
    case CommitRotation(p) =>
      var pc := ProcOf(s, p);
      var written := Insert(SetBuffered(s.db, pc.key, pc.now), pc.next, pc.user, pc.expiresAt);
      var op := Rotation(pc.key, pc.user, pc.now, pc.next, pc.expiresAt, true);
      Put(s.(db := written, log := s.log + [op]), p, Finished(Rotated(pc.next), |s.log|, |s.log| + 1))
    case LogOutAll(p, u) => Put(Ask(s, p, LogoutAllRequest(u, |s.log|)), p, ToBurn(u, None))
    case LockForBurn(p) => var pc := ProcOf(s, p); Put(s, p, BurnLocked(pc.user, pc.cause))
    case UpdateAll(p) =>
      var pc := ProcOf(s, p);
      Put(s, p, BurnUpdated(pc.user, LiveKeys(s.db, pc.user), s.clock, pc.cause))
    case CommitBurn(p) =>
      var pc := ProcOf(s, p);
      var written := RevokeKeys(s.db, pc.keys, pc.stamp);
      Put(s.(db := written, log := s.log + [Burn(pc.user, pc.stamp)]), p,
          Finished(AllRevoked(pc.user, pc.cause), |s.log|, |s.log| + 1))
    case PresentLogout(p, k) =>
      var found := Find(s.db, k);
      var read := Log(Ask(s, p, LogoutRequest(k, |s.log|)), Lookup(k, found));
      Put(read, p, if found != None && found.value.revokedAt == None then ToRevoke(k)
                   else Finished(LoggedOut, |s.log|, |s.log| + 1))
    case RevokeOne(p) =>
      Put(Log(s, Revocation(ProcOf(s, p).key, s.clock)), p, Finished(LoggedOut, |s.log|, |s.log| + 1))
    case ConsumeOne(k) => Log(s, Consumption(k, s.clock, CanConsume(s.db, k, s.clock)))
    case Raise(p) => Put(s, p, Finished(Failed, 0, |s.log|))
  }

  // The rotation found no user, or no token to consume, and rolled back; the service goes on to
  // revoke everything.
  function Refuse(s: State, p: Pid, pc: Proc): State
    requires pc.ToRotate? || pc.RotateLocked?
  {
    Put(Log(s, Rotation(pc.key, pc.user, pc.now, pc.next, pc.expiresAt, false)), p, ToBurn(pc.user, Some(|s.log|)))
  }

  // The buffered UPDATE of a rotation, as its commit writes it.
  function SetBuffered(db: Db, k: Key, at: Time): Db {
    if k in db.rows then SetRevoked(db, k, at) else db
  }

  // A run: what is not enabled when its turn comes does not happen.
  ghost function Run(start: State, actions: seq<Action>): State {
    if actions == [] then start
    else
      var s, a := Run(start, actions[..|actions| - 1]), actions[|actions| - 1];
      if Enabled(s, a) then Effect(s, a) else s
  }

  function Start(users: set<UserId>, clock: Time): State {
    State(Empty(users), map[], map[], clock, {}, [])
  }

  // Answers

  predicate SawLive(op: Op, k: Key) {
    op.Lookup? && op.key == k && op.found.Some? && op.found.value.revokedAt == None
  }

  // The log entry shows that the token was presented after it had been consumed or revoked.
  predicate ShowsReuse(op: Op, k: Key, user: UserId) {
    || (op.Lookup? && op.key == k && op.found.Some? && op.found.value.revokedAt != None && op.found.value.user == user)
    || (op.Rotation? && !op.ok && op.key == k && op.user == user)
  }

  // The log entry records the answer to the request.
  predicate Recorded(r: Request, outcome: Outcome, op: Op) {
    match outcome
    case Unknown => r.RefreshRequest? && op == Lookup(r.key, None)
    case Expired(now) => r.RefreshRequest? && SawLive(op, r.key) && op.found.value.expiresAt <= now
    case Inactive(now) => r.RefreshRequest? && SawLive(op, r.key) && op.found.value.expiresAt > now
    case Rotated(next) => r.RefreshRequest? && op.Rotation? && op.ok && op.key == r.key && op.next == next
    case AllRevoked(user, _) => Burns(op, user)
    case LoggedOut =>
      && r.LogoutRequest?
      && ((op.Revocation? && op.key == r.key) || (op.Lookup? && op.key == r.key && !SawLive(op, r.key)))
    case Failed => false
  }

  // Everything is revoked because it was asked for, or because the log shows a reuse since the
  // request began.
  predicate Warranted(log: seq<Op>, r: Request, user: UserId, cause: Option<nat>) {
    match cause
    case None => r.LogoutAllRequest? && r.user == user
    case Some(c) => r.RefreshRequest? && r.since <= c < |log| && ShowsReuse(log[c], r.key, user)
  }

  // A finished request: failed without effect, or answered by a log entry made between its start
  // and its finish.
  predicate Answered(log: seq<Op>, r: Request, pc: Proc)
    requires pc.Finished?
  {
    pc.outcome != Failed ==>
      && r.since <= pc.at < pc.until <= |log| && Recorded(r, pc.outcome, log[pc.at])
      && (pc.outcome.AllRevoked? ==>
            && Warranted(log, r, pc.outcome.user, pc.outcome.cause)
            && (pc.outcome.cause.Some? ==> pc.outcome.cause.value < pc.at))
  }

  // What a request in the middle of a transaction relies on.
  ghost predicate Holds(s: State, pc: Proc) {
    && (pc.ToRotate? || pc.RotateLocked? || pc.RotateUpdated? ==> pc.next in s.issued && pc.next !in s.db.rows)
    && (pc.RotateLocked? ==> pc.user in s.db.users)
    && (pc.RotateUpdated? ==> CanRotate(s.db, pc.key, pc.user, pc.now))
    && (pc.BurnUpdated? ==> pc.keys == LiveKeys(s.db, pc.user))
  }

  // How a request stands to what was asked and to the log.
  predicate Serves(log: seq<Op>, r: Request, pc: Proc) {
    && r.since <= |log|
    && match pc
       case Idle => true
       case Found(k, row, at) =>
         r.RefreshRequest? && k == r.key && r.since <= at < |log| && log[at] == Lookup(k, Some(row))
       case ToRotate(k, _, _, _, _) => r.RefreshRequest? && k == r.key
       case RotateLocked(k, _, _, _, _) => r.RefreshRequest? && k == r.key
       case RotateUpdated(k, _, _, _, _) => r.RefreshRequest? && k == r.key
       case ToBurn(u, cause) => Warranted(log, r, u, cause)
       case BurnLocked(u, cause) => Warranted(log, r, u, cause)
       case BurnUpdated(u, _, _, cause) => Warranted(log, r, u, cause)
       case ToRevoke(k) => r.LogoutRequest? && k == r.key
       case Finished(_, _, _) => Answered(log, r, pc)
  }

  ghost predicate ProcOk(s: State, r: Request, pc: Proc) {
    Holds(s, pc) && Serves(s.log, r, pc)
  }

  predicate Reserves(pc: Proc, k: Key) {
    (pc.ToRotate? || pc.RotateLocked? || pc.RotateUpdated?) && pc.next == k
  }

  // The log entry is this request's own: the one that answered it, or the lookup that may.
  predicate Owns(pc: Proc, i: nat) {
    (pc.Found? && pc.at == i) || (pc.Finished? && pc.outcome != Failed && pc.at == i)
  }

  // Two requests never hold the same lock or the same new token, nor share a log entry.
  ghost predicate Apart(a: Proc, b: Proc) {
    && (forall u :: !(HoldsUser(a, u) && HoldsUser(b, u)))
    && (forall k :: !(HoldsRow(a, k) && HoldsRow(b, k)))
    && (forall k :: !(Reserves(a, k) && Reserves(b, k)))
    && (forall i :: !(Owns(a, i) && Owns(b, i)))
  }

  ghost predicate Inv(s: State, users: set<UserId>) {
    && Serial(users, s.log)
    && s.db == Replay(users, s.log)
    && s.db.rows.Keys <= s.issued
    && s.procs.Keys <= s.requests.Keys
    && (forall p :: p in s.procs ==> ProcOk(s, s.requests[p], s.procs[p]))
    && (forall p, q :: p in s.procs && q in s.procs && p != q ==> Apart(s.procs[p], s.procs[q]))
  }

  // p's own step: it changes nothing but p, and perhaps reserves a new token.
  lemma PutKeeps(s: State, p: Pid, pc: Proc, issued: set<Key>, users: set<UserId>)
    requires Inv(s, users) && s.issued <= issued && p in s.requests
    requires ProcOk(s.(issued := issued), s.requests[p], pc)
    requires forall q :: q in s.procs && q != p ==> Apart(pc, s.procs[q])
    ensures Inv(Put(s.(issued := issued), p, pc), users)
  {
    var s' := Put(s.(issued := issued), p, pc);
    forall q | q in s'.procs ensures ProcOk(s', s'.requests[q], s'.procs[q]) {
      assert q != p ==> ProcOk(s, s.requests[q], s.procs[q]);
    }
    forall q, r | q in s'.procs && r in s'.procs && q != r ensures Apart(s'.procs[q], s'.procs[r]) {
      assert q != p && r != p ==> Apart(s.procs[q], s.procs[r]);
    }
  }

  // A new request.
  lemma AskKeeps(s: State, p: Pid, r: Request, users: set<UserId>)
    requires Inv(s, users) && p !in s.requests
    ensures Inv(Ask(s, p, r), users) && p !in s.procs
  {
    forall q | q in s.procs ensures ProcOk(Ask(s, p, r), Ask(s, p, r).requests[q], s.procs[q]) {
      assert ProcOk(s, s.requests[q], s.procs[q]);
    }
  }

  // The operation takes effect without touching what a request in a transaction relies on.
  ghost predicate Respects(s: State, op: Op) {
    match op
    case Lookup(_, _) => true
    case Login(k, u, e) => UserFree(s, u) && NotReserved(s, k) && k in s.issued
    case Rotation(k, u, n, f, e, ok) =>
      ok ==> UserFree(s, u) && RowFree(s, k) && NotReserved(s, f) && f in s.issued
    case Consumption(k, n, ok) => RowFree(s, k)
    case Revocation(k, at) => RowFree(s, k)
    case Burn(u, at) => UserFree(s, u)
  }

  ghost predicate NotReserved(s: State, k: Key) {
    forall p :: p in s.procs ==> !Reserves(s.procs[p], k)
  }

  lemma RowsAfter(db: Db, op: Op, k: Key)
    requires Answers(db, op)
    ensures Perform(db, op).users == db.users
    ensures k in db.rows ==> k in Perform(db, op).rows
    ensures k in Perform(db, op).rows && k !in db.rows ==>
              (op.Login? && op.key == k) || (op.Rotation? && op.ok && op.next == k)
    ensures k in db.rows && Perform(db, op).rows[k] != db.rows[k] ==>
              (!op.Login? && !op.Burn? && !op.Lookup? && op.key == k && (op.Rotation? ==> op.ok))
              || (op.Burn? && k in LiveKeys(db, op.user))
    ensures k in db.rows ==> Perform(db, op).rows[k].user == db.rows[k].user
    ensures k in db.rows && db.rows[k].revokedAt != None ==> Perform(db, op).rows[k].revokedAt != None
  {
  }

  lemma HoldsKept(s: State, op: Op, p: Pid, users: set<UserId>)
    requires Inv(s, users) && Answers(s.db, op) && Respects(s, op) && p in s.procs
    ensures Holds(Log(s, op), s.procs[p])
  {
    var pc, db' := s.procs[p], Perform(s.db, op);
    assert ProcOk(s, s.requests[p], pc);
    if pc.ToRotate? || pc.RotateLocked? || pc.RotateUpdated? {
      assert Reserves(pc, pc.next);
      RowsAfter(s.db, op, pc.next);
    }
    if pc.RotateUpdated? {
      assert HoldsUser(pc, pc.user) && HoldsRow(pc, pc.key);
      RowsAfter(s.db, op, pc.key);
    }
    if pc.BurnUpdated? {
      assert HoldsUser(pc, pc.user);
      forall k ensures k in LiveKeys(db', pc.user) <==> k in LiveKeys(s.db, pc.user) {
        assert k in pc.keys ==> HoldsRow(pc, k);
        RowsAfter(s.db, op, k);
      }
    }
  }

  lemma ServesStill(log: seq<Op>, op: Op, r: Request, pc: Proc)
    requires Serves(log, r, pc)
    ensures Serves(log + [op], r, pc)
  {
    assert forall i :: 0 <= i < |log| ==> (log + [op])[i] == log[i];
  }

  lemma LogKeeps(s: State, op: Op, users: set<UserId>)
    requires Inv(s, users) && Answers(s.db, op) && Respects(s, op)
    ensures Inv(Log(s, op), users)
  {
    var s' := Log(s, op);
    SerialExtends(users, s.log, op);
    forall q | q in s'.procs ensures ProcOk(s', s'.requests[q], s'.procs[q]) {
      HoldsKept(s, op, q, users);
      assert ProcOk(s, s.requests[q], s.procs[q]);
      ServesStill(s.log, op, s.requests[q], s.procs[q]);
    }
    forall k | k in s'.db.rows ensures k in s'.issued {
      RowsAfter(s.db, op, k);
    }
  }

  // p lets go of everything it holds; what it held is then free.
  lemma ReleaseKeeps(s: State, p: Pid, users: set<UserId>)
    requires Inv(s, users) && p in s.procs
    ensures Inv(Put(s, p, Idle), users)
  {
    assert ProcOk(s, s.requests[p], s.procs[p]);
    PutKeeps(s, p, Idle, s.issued, users);
    assert s.(issued := s.issued) == s;
  }

  lemma ReleasedIsFree(s: State, p: Pid, users: set<UserId>)
    requires Inv(s, users) && p in s.procs
    ensures forall u :: HoldsUser(s.procs[p], u) ==> UserFree(Put(s, p, Idle), u)
    ensures forall k :: HoldsRow(s.procs[p], k) ==> RowFree(Put(s, p, Idle), k)
    ensures forall k :: Reserves(s.procs[p], k) ==> NotReserved(Put(s, p, Idle), k)
  {
    forall q | q in s.procs && q != p ensures Apart(s.procs[p], s.procs[q]) {
    }
  }

  lemma PutTwice(s: State, p: Pid, a: Proc, b: Proc)
    ensures Put(Put(s, p, a), p, b) == Put(s, p, b)
  {
    assert s.procs[p := a][p := b] == s.procs[p := b];
  }

  // An operation by p takes effect, and p moves on.
  lemma LogAndPutKeeps(s: State, p: Pid, op: Op, pc: Proc, users: set<UserId>)
    requires Inv(s, users) && p in s.procs && Answers(s.db, op) && Respects(Put(s, p, Idle), op)
    requires ProcOk(Log(s, op), s.requests[p], pc)
    requires forall q :: q in s.procs && q != p ==> Apart(pc, s.procs[q])
    ensures Inv(Put(Log(s, op), p, pc), users)
  {
    ReleaseKeeps(s, p, users);
    var released := Put(s, p, Idle);
    LogKeeps(released, op, users);
    PutKeeps(Log(released, op), p, pc, s.issued, users);
    PutTwice(s, p, Idle, pc);
    assert Log(released, op).(issued := s.issued) == Log(released, op);
  }

  // The entry about to be made belongs to nobody yet.
  lemma NewEntryIsFree(s: State, users: set<UserId>)
    requires Inv(s, users)
    ensures forall q :: q in s.procs ==> !Owns(s.procs[q], |s.log|)
  {
    forall q | q in s.procs ensures !Owns(s.procs[q], |s.log|) {
      assert ProcOk(s, s.requests[q], s.procs[q]);
    }
  }

  // A new request reads a token's row.
  lemma LookupKeeps(s: State, p: Pid, r: Request, k: Key, pc: Proc, users: set<UserId>)
    requires Inv(s, users) && p !in s.requests && r.since == |s.log|
    requires pc.Found? || pc.ToRevoke? || pc.Finished?
    requires Owns(pc, |s.log|) || pc.ToRevoke?
    requires Serves(s.log + [Lookup(k, Find(s.db, k))], r, pc)
    ensures Inv(Put(Log(Ask(s, p, r), Lookup(k, Find(s.db, k))), p, pc), users)
  {
    var op := Lookup(k, Find(s.db, k));
    AskKeeps(s, p, r, users);
    NewEntryIsFree(s, users);
    LogKeeps(Ask(s, p, r), op, users);
    PutKeeps(Log(Ask(s, p, r), op), p, pc, s.issued, users);
  }

  lemma PresentKeeps(s: State, a: Action, users: set<UserId>)
    requires Inv(s, users) && Enabled(s, a) && (a.PresentToken? || a.PresentLogout?)
    ensures Inv(Effect(s, a), users)
  {
    var r := if a.PresentToken? then RefreshRequest(a.key, |s.log|) else LogoutRequest(a.key, |s.log|);
    LookupKeeps(s, a.p, r, a.key, Effect(s, a).procs[a.p], users);
  }

  lemma LogOutAllKeeps(s: State, p: Pid, u: UserId, users: set<UserId>)
    requires Inv(s, users) && Enabled(s, LogOutAll(p, u))
    ensures Inv(Effect(s, LogOutAll(p, u)), users)
  {
    var r := LogoutAllRequest(u, |s.log|);
    AskKeeps(s, p, r, users);
    PutKeeps(Ask(s, p, r), p, ToBurn(u, None), s.issued, users);
  }

  lemma CommitRotationKeeps(s: State, p: Pid, users: set<UserId>)
    requires Inv(s, users) && Enabled(s, CommitRotation(p))
    ensures Inv(Effect(s, CommitRotation(p)), users)
  {
    var pc := s.procs[p];
    assert ProcOk(s, s.requests[p], pc);
    assert HoldsUser(pc, pc.user) && HoldsRow(pc, pc.key) && Reserves(pc, pc.next);
    ReleasedIsFree(s, p, users);
    NewEntryIsFree(s, users);
    var op := Rotation(pc.key, pc.user, pc.now, pc.next, pc.expiresAt, true);
    LogAndPutKeeps(s, p, op, Finished(Rotated(pc.next), |s.log|, |s.log| + 1), users);
  }

  lemma CommitBurnKeeps(s: State, p: Pid, users: set<UserId>)
    requires Inv(s, users) && Enabled(s, CommitBurn(p))
    ensures Inv(Effect(s, CommitBurn(p)), users)
  {
    var pc := s.procs[p];
    assert ProcOk(s, s.requests[p], pc) && HoldsUser(pc, pc.user);
    ReleasedIsFree(s, p, users);
    NewEntryIsFree(s, users);
    ServesStill(s.log, Burn(pc.user, pc.stamp), s.requests[p], pc);
    LogAndPutKeeps(s, p, Burn(pc.user, pc.stamp), Finished(AllRevoked(pc.user, pc.cause), |s.log|, |s.log| + 1), users);
  }

  lemma RevokeOneKeeps(s: State, p: Pid, users: set<UserId>)
    requires Inv(s, users) && Enabled(s, RevokeOne(p))
    ensures Inv(Effect(s, RevokeOne(p)), users)
  {
    var pc := s.procs[p];
    assert ProcOk(s, s.requests[p], pc);
    NewEntryIsFree(s, users);
    LogAndPutKeeps(s, p, Revocation(pc.key, s.clock), Finished(LoggedOut, |s.log|, |s.log| + 1), users);
  }

  lemma RefusalKeeps(s: State, p: Pid, users: set<UserId>)
    requires Inv(s, users) && p in s.procs && (s.procs[p].ToRotate? || s.procs[p].RotateLocked?)
    requires var pc := s.procs[p]; !CanRotate(s.db, pc.key, pc.user, pc.now)
    ensures Inv(Refuse(s, p, s.procs[p]), users)
  {
    var pc := s.procs[p];
    assert ProcOk(s, s.requests[p], pc);
    var op := Rotation(pc.key, pc.user, pc.now, pc.next, pc.expiresAt, false);
    LogAndPutKeeps(s, p, op, ToBurn(pc.user, Some(|s.log|)), users);
  }

  // Taking a lock, or buffering an UPDATE under one.
  lemma LockKeeps(s: State, p: Pid, pc: Proc, users: set<UserId>)
    requires Inv(s, users) && p in s.procs && ProcOk(s, s.requests[p], pc) && !pc.Finished? && !pc.Found?
    requires forall u :: HoldsUser(pc, u) ==> HoldsUser(s.procs[p], u) || UserFree(s, u)
    requires forall k :: HoldsRow(pc, k) ==> RowFree(s, k)
    requires forall k :: Reserves(pc, k) ==> Reserves(s.procs[p], k)
    ensures Inv(Put(s, p, pc), users)
  {
    forall q | q in s.procs && q != p ensures Apart(pc, s.procs[q]) {
      assert Apart(s.procs[p], s.procs[q]);
    }
    PutKeeps(s, p, pc, s.issued, users);
    assert s.(issued := s.issued) == s;
  }

  // p comes to rest, or goes on to revoke everything: it holds nothing, and owns no new log entry.
  lemma PlainKeeps(s: State, p: Pid, pc: Proc, users: set<UserId>)
    requires Inv(s, users) && p in s.procs && ProcOk(s, s.requests[p], pc)
    requires pc.ToBurn? || pc.Finished?
    requires forall i :: Owns(pc, i) ==> Owns(s.procs[p], i)
    ensures Inv(Put(s, p, pc), users)
  {
    forall q | q in s.procs && q != p ensures Apart(pc, s.procs[q]) {
      assert Apart(s.procs[p], s.procs[q]);
    }
    PutKeeps(s, p, pc, s.issued, users);
    assert s.(issued := s.issued) == s;
  }

  lemma IssueKeeps(s: State, k: Key, users: set<UserId>)
    requires Inv(s, users) && k !in s.issued
    ensures Inv(s.(issued := s.issued + {k}), users) && NotReserved(s, k)
  {
    var s' := s.(issued := s.issued + {k});
    forall p | p in s.procs ensures !Reserves(s.procs[p], k) && ProcOk(s', s.requests[p], s.procs[p]) {
      assert ProcOk(s, s.requests[p], s.procs[p]);
    }
  }

  lemma DecideKeeps(s: State, p: Pid, active: bool, k: Key, ttl: nat, users: set<UserId>)
    requires Inv(s, users) && Enabled(s, Decide(p, active, k, ttl))
    ensures Inv(Effect(s, Decide(p, active, k, ttl)), users)
  {
    var pc' := Effect(s, Decide(p, active, k, ttl)).procs[p];
    assert ProcOk(s, s.requests[p], s.procs[p]);
    if pc'.ToRotate? {
      ReserveKeeps(s, p, pc', users);
    } else {
      PlainKeeps(s, p, pc', users);
    }
  }

  // p takes a fresh token with it into its transaction.
  lemma ReserveKeeps(s: State, p: Pid, pc: Proc, users: set<UserId>)
    requires Inv(s, users) && p in s.procs && pc.ToRotate? && pc.next !in s.issued
    requires Serves(s.log, s.requests[p], pc)
    ensures Inv(Put(s.(issued := s.issued + {pc.next}), p, pc), users)
  {
    IssueKeeps(s, pc.next, users);
    PutKeeps(s, p, pc, s.issued + {pc.next}, users);
  }

  lemma LogInKeeps(s: State, u: UserId, k: Key, ttl: nat, users: set<UserId>)
    requires Inv(s, users) && Enabled(s, LogIn(u, k, ttl))
    ensures Inv(Effect(s, LogIn(u, k, ttl)), users)
  {
    var s', op := s.(issued := s.issued + {k}), Login(k, u, s.clock + ttl);
    IssueKeeps(s, k, users);
    assert NotReserved(s', k) && UserFree(s', u) && k !in s'.db.rows;
    LogKeeps(s', op, users);
    assert Effect(s, LogIn(u, k, ttl)) == Log(s', op);
  }

  lemma LockForRotateKeeps(s: State, p: Pid, users: set<UserId>)
    requires Inv(s, users) && Enabled(s, LockForRotate(p))
    ensures Inv(Effect(s, LockForRotate(p)), users)
  {
    assert ProcOk(s, s.requests[p], s.procs[p]);
    if s.procs[p].user in s.db.users {
      LockKeeps(s, p, Effect(s, LockForRotate(p)).procs[p], users);
    } else {
      RefusalKeeps(s, p, users);
    }
  }

  lemma UpdateTokenKeeps(s: State, p: Pid, users: set<UserId>)
    requires Inv(s, users) && Enabled(s, UpdateToken(p))
    ensures Inv(Effect(s, UpdateToken(p)), users)
  {
    assert ProcOk(s, s.requests[p], s.procs[p]);
    if Consumable(s.db, s.procs[p].key, s.procs[p].user, s.procs[p].now) {
      LockKeeps(s, p, Effect(s, UpdateToken(p)).procs[p], users);
    } else {
      RefusalKeeps(s, p, users);
    }
  }

  lemma BurnStepKeeps(s: State, a: Action, users: set<UserId>)
    requires Inv(s, users) && Enabled(s, a) && (a.LockForBurn? || a.UpdateAll?)
    ensures Inv(Effect(s, a), users)
  {
    assert ProcOk(s, s.requests[a.p], s.procs[a.p]);
    LockKeeps(s, a.p, Effect(s, a).procs[a.p], users);
  }

  lemma TickKeeps(s: State, d: nat, users: set<UserId>)
    requires Inv(s, users)
    ensures Inv(s.(clock := s.clock + d), users)
  {
    forall p | p in s.procs ensures ProcOk(s.(clock := s.clock + d), s.requests[p], s.procs[p]) {
      assert ProcOk(s, s.requests[p], s.procs[p]);
    }
  }

  lemma RaiseKeeps(s: State, p: Pid, users: set<UserId>)
    requires Inv(s, users) && Enabled(s, Raise(p))
    ensures Inv(Effect(s, Raise(p)), users)
  {
    assert ProcOk(s, s.requests[p], s.procs[p]);
    PlainKeeps(s, p, Finished(Failed, 0, |s.log|), users);
  }

  lemma StepKeeps(s: State, a: Action, users: set<UserId>)
    requires Inv(s, users) && Enabled(s, a)
    ensures Inv(Effect(s, a), users)
  {
    match a
    case Tick(d) => TickKeeps(s, d, users);
    case LogIn(u, k, ttl) => LogInKeeps(s, u, k, ttl, users);
    case PresentToken(p, k) => PresentKeeps(s, a, users);
    case Decide(p, active, k, ttl) => DecideKeeps(s, p, active, k, ttl, users);
    case LockForRotate(p) => LockForRotateKeeps(s, p, users);
    case UpdateToken(p) => UpdateTokenKeeps(s, p, users);
    case CommitRotation(p) => CommitRotationKeeps(s, p, users);
    case LogOutAll(p, u) => LogOutAllKeeps(s, p, u, users);
    case LockForBurn(p) => BurnStepKeeps(s, a, users);
    case UpdateAll(p) => BurnStepKeeps(s, a, users);
    case CommitBurn(p) => CommitBurnKeeps(s, p, users);
    case PresentLogout(p, k) => PresentKeeps(s, a, users);
    case RevokeOne(p) => RevokeOneKeeps(s, p, users);
    case ConsumeOne(k) => LogKeeps(s, Consumption(k, s.clock, CanConsume(s.db, k, s.clock)), users);
    case Raise(p) => RaiseKeeps(s, p, users);
  }

  lemma {:induction false} RunKeeps(users: set<UserId>, clock: Time, actions: seq<Action>)
    ensures Inv(Run(Start(users, clock), actions), users)
  {
    if actions != [] {
      var before, a := actions[..|actions| - 1], actions[|actions| - 1];
      RunKeeps(users, clock, before);
      var s := Run(Start(users, clock), before);
      if Enabled(s, a) {
        StepKeeps(s, a, users);
      }
    }
  }

  predicate Finishes(s: State, p: Pid, i: nat) {
    p in s.procs && s.procs[p].Finished? && Owns(s.procs[p], i)
  }

  // Every finished request was answered by its own log entry.
  ghost predicate EachAnswered(s: State) {
    && (forall p :: p in s.procs && s.procs[p].Finished? ==>
                      p in s.requests && Answered(s.log, s.requests[p], s.procs[p]))
    && (forall p, q, i :: (Finishes(s, p, i) && Finishes(s, q, i)) ==> p == q)
  }

  // Every interleaving is a serial history of whole operations: it leaves the same table, and each
  // request was told what its own entry of that history records, at a point between its start and
  // its finish. Consumption and replacement are one entry, so no revoke-all falls between them.
  lemma InterleavingsAreSerial(users: set<UserId>, clock: Time, actions: seq<Action>)
    ensures var s := Run(Start(users, clock), actions);
            Serial(users, s.log) && s.db == Replay(users, s.log) && EachAnswered(s)
  {
    RunKeeps(users, clock, actions);
    var s := Run(Start(users, clock), actions);
    forall p | p in s.procs && s.procs[p].Finished? ensures Answered(s.log, s.requests[p], s.procs[p]) {
      assert ProcOk(s, s.requests[p], s.procs[p]);
    }
  }

  // Two requests never both rotate the same token.
  lemma RotatedOnce(users: set<UserId>, clock: Time, actions: seq<Action>, p: Pid, q: Pid)
    requires var s := Run(Start(users, clock), actions);
             && p != q && ProcOf(s, p).Finished? && ProcOf(s, q).Finished?
             && ProcOf(s, p).outcome.Rotated? && ProcOf(s, q).outcome.Rotated?
    ensures var s := Run(Start(users, clock), actions);
            && p in s.requests && q in s.requests && s.requests[p].RefreshRequest? && s.requests[q].RefreshRequest?
            && s.requests[p].key != s.requests[q].key
  {
    InterleavingsAreSerial(users, clock, actions);
    OwnEntriesOwnTokens(Run(Start(users, clock), actions), users, p, q);
  }

  lemma OwnEntriesOwnTokens(s: State, users: set<UserId>, p: Pid, q: Pid)
    requires Serial(users, s.log) && EachAnswered(s) && p != q
    requires p in s.procs && s.procs[p].Finished? && s.procs[p].outcome.Rotated?
    requires q in s.procs && s.procs[q].Finished? && s.procs[q].outcome.Rotated?
    ensures s.requests[p].RefreshRequest? && s.requests[q].RefreshRequest? && s.requests[p].key != s.requests[q].key
  {
    var i, j := s.procs[p].at, s.procs[q].at;
    assert Answered(s.log, s.requests[p], s.procs[p]) && Answered(s.log, s.requests[q], s.procs[q]);
    assert Finishes(s, p, i) && Finishes(s, q, j);
    if s.requests[p].key == s.requests[q].key {
      ConsumedOnce(users, s.log, i, j, s.requests[p].key);
    }
  }

  // Later states

  // A later state continues the log.
  lemma StepExtendsLog(s: State, a: Action)
    requires Enabled(s, a)
    ensures s.log <= Effect(s, a).log
  {
  }

  lemma {:induction false} LogGrows(users: set<UserId>, clock: Time, actions: seq<Action>, n: nat)
    requires n <= |actions|
    ensures Run(Start(users, clock), actions[..n]).log <= Run(Start(users, clock), actions).log
    decreases |actions|
  {
    if n == |actions| {
      assert actions[..n] == actions;
    } else {
      var before, a := actions[..|actions| - 1], actions[|actions| - 1];
      assert before[..n] == actions[..n];
      LogGrows(users, clock, before, n);
      if Enabled(Run(Start(users, clock), before), a) {
        StepExtendsLog(Run(Start(users, clock), before), a);
      }
    }
  }

  lemma EarlierLog(users: set<UserId>, clock: Time, actions: seq<Action>, n: nat)
    requires n <= |actions|
    ensures var early, late := Run(Start(users, clock), actions[..n]), Run(Start(users, clock), actions);
            && |early.log| <= |late.log| && late.log[..|early.log|] == early.log
            && Serial(users, late.log)
            && early.db == Replay(users, early.log) && late.db == Replay(users, late.log)
  {
    LogGrows(users, clock, actions, n);
    RunKeeps(users, clock, actions[..n]);
    RunKeeps(users, clock, actions);
  }

  // Once a request has reported reuse (or logged out everywhere), in every later state the live
  // tokens of that user descend from logins that came after its revoke-all.
  lemma ReuseBurnsTheFamily(users: set<UserId>, clock: Time, actions: seq<Action>, n: nat, p: Pid, k: Key)
    requires n <= |actions|
    requires var early, late := Run(Start(users, clock), actions[..n]), Run(Start(users, clock), actions);
             && ProcOf(early, p).Finished? && ProcOf(early, p).outcome.AllRevoked?
             && k in LiveKeys(late.db, ProcOf(early, p).outcome.user)
    ensures var early, late := Run(Start(users, clock), actions[..n]), Run(Start(users, clock), actions);
            && p in early.requests && k in Roots(late.log)
            && Roots(late.log)[k] > ProcOf(early, p).at >= early.requests[p].since
            && LoginOf(late.log, Roots(late.log)[k], ProcOf(early, p).outcome.user)
  {
    var early, late := Run(Start(users, clock), actions[..n]), Run(Start(users, clock), actions);
    InterleavingsAreSerial(users, clock, actions[..n]);
    EarlierLog(users, clock, actions, n);
    var pc := early.procs[p];
    assert Answered(early.log, early.requests[p], pc);
    assert late.log[pc.at] == early.log[pc.at];
    BurnIsForGood(users, late.log, pc.at, pc.outcome.user, k);
  }

  // A token that is revoked in some state is revoked in every later state.
  lemma RevokedStaysRevoked(users: set<UserId>, clock: Time, actions: seq<Action>, n: nat, k: Key)
    requires n <= |actions|
    requires var early := Run(Start(users, clock), actions[..n]); k in early.db.rows && !Unrevoked(early.db, k)
    ensures var late := Run(Start(users, clock), actions); k in late.db.rows && !Unrevoked(late.db, k)
  {
    EarlierLog(users, clock, actions, n);
    RevokedForGood(users, Run(Start(users, clock), actions).log, |Run(Start(users, clock), actions[..n]).log|, k);
  }

  // A replay is always noticed: a refresh of a token that was revoked before the request began is told
  // of the reuse, and everything is revoked, unless a call raises.
  lemma ReplayIsDetected(users: set<UserId>, clock: Time, actions: seq<Action>, n: nat, p: Pid, k: Key)
    requires n <= |actions|
    requires var early, late := Run(Start(users, clock), actions[..n]), Run(Start(users, clock), actions);
             && k in early.db.rows && !Unrevoked(early.db, k)
             && p in late.requests && late.requests[p].RefreshRequest?
             && late.requests[p].key == k && late.requests[p].since >= |early.log|
             && ProcOf(late, p).Finished?
    ensures var outcome := ProcOf(Run(Start(users, clock), actions), p).outcome;
            outcome == Failed || (outcome.AllRevoked? && outcome.cause.Some?)
  {
    var early, late := Run(Start(users, clock), actions[..n]), Run(Start(users, clock), actions);
    EarlierLog(users, clock, actions, n);
    InterleavingsAreSerial(users, clock, actions);
    var pc := late.procs[p];
    assert Answered(late.log, late.requests[p], pc);
    if pc.outcome != Failed {
      AnsweredAfterRevocation(users, late.log, |early.log|, pc.at, k);
    }
  }

  // No later entry finds the revoked token missing or live, or rotates it.
  lemma AnsweredAfterRevocation(users: set<UserId>, log: seq<Op>, n: nat, at: nat, k: Key)
    requires Serial(users, log) && n <= at < |log|
    requires k in Replay(users, log[..n]).rows && !Unrevoked(Replay(users, log[..n]), k)
    ensures log[at] != Lookup(k, None) && !SawLive(log[at], k) && !Consumes(log[at], k)
  {
    SerialPrefix(users, log, at);
    SerialPrefix(users, log, at + 1);
    assert log[..at + 1][..at] == log[..at] && log[..at][..n] == log[..n];
    RevokedForGood(users, log[..at], n, k);
  }

  // The request is on its way to a refusal, or has met one: it will not rotate.
  predicate TurnedAway(pc: Proc) {
    pc.ToBurn? || pc.BurnLocked? || pc.BurnUpdated? || (pc.Finished? && !pc.outcome.Rotated?)
  }

  predicate ActsFor(a: Action, p: Pid) {
    !a.Tick? && !a.LogIn? && !a.ConsumeOne? && a.p == p
  }

  lemma OthersStand(s: State, a: Action, p: Pid)
    requires Enabled(s, a) && p in s.procs && !ActsFor(a, p)
    ensures p in Effect(s, a).procs && Effect(s, a).procs[p] == s.procs[p]
  {
  }

  // A request fails only because a call of its own raises.
  lemma OnlyRaisingFails(s: State, a: Action, p: Pid)
    requires Enabled(s, a) && p in Effect(s, a).procs
    requires Effect(s, a).procs[p].Finished? && Effect(s, a).procs[p].outcome == Failed
    ensures a == Raise(p) || (p in s.procs && s.procs[p] == Effect(s, a).procs[p])
  {
    if p in s.procs && !ActsFor(a, p) {
      OthersStand(s, a, p);
    }
  }

  lemma TurnedAwayStays(s: State, a: Action, p: Pid)
    requires Enabled(s, a) && p in s.procs && p in s.requests && TurnedAway(s.procs[p])
    ensures p in Effect(s, a).procs && TurnedAway(Effect(s, a).procs[p])
  {
    if !ActsFor(a, p) {
      OthersStand(s, a, p);
    }
  }

  // A refresh that finds the account disabled never rotates, whatever runs beside it or after it.
  lemma {:induction false} InactiveNeverRotates(users: set<UserId>, clock: Time, actions: seq<Action>, n: nat, p: Pid)
    requires n < |actions| && actions[n].Decide? && actions[n].p == p && !actions[n].active
    requires Enabled(Run(Start(users, clock), actions[..n]), actions[n])
    ensures p in Run(Start(users, clock), actions).procs && TurnedAway(Run(Start(users, clock), actions).procs[p])
    decreases |actions|
  {
    var before, a := actions[..|actions| - 1], actions[|actions| - 1];
    assert before[..n] == actions[..n];
    if n < |before| {
      InactiveNeverRotates(users, clock, before, n, p);
      RunKeeps(users, clock, before);
      if Enabled(Run(Start(users, clock), before), a) {
        TurnedAwayStays(Run(Start(users, clock), before), a, p);
      }
    }
  }

  // The time of a revocation

  // The step writes another time over a revocation time that is set.
  ghost predicate Rewrites(s: State, a: Action, k: Key)
    requires k in s.db.rows
  {
    && Enabled(s, a) && s.db.rows[k].revokedAt.Some?
    && (k !in Effect(s, a).db.rows || Effect(s, a).db.rows[k].revokedAt != s.db.rows[k].revokedAt)
  }

  // In every run a revocation time that is set changes if and only if the step is the UPDATE of a
  // single logout of that token, at another time.
  lemma OnlyALogoutRewritesTheTime(users: set<UserId>, clock: Time, actions: seq<Action>, a: Action, k: Key)
    requires k in Run(Start(users, clock), actions).db.rows
    requires Run(Start(users, clock), actions).db.rows[k].revokedAt.Some?
    ensures var s := Run(Start(users, clock), actions);
            Rewrites(s, a, k) <==>
            && a.RevokeOne? && Enabled(s, a) && ProcOf(s, a.p).key == k
            && s.db.rows[k].revokedAt.value != s.clock
  {
    RunKeeps(users, clock, actions);
    OnlyRevokeOneRewrites(Run(Start(users, clock), actions), a, k, users);
  }

  lemma OnlyRevokeOneRewrites(s: State, a: Action, k: Key, users: set<UserId>)
    requires Inv(s, users) && k in s.db.rows && s.db.rows[k].revokedAt.Some?
    ensures Rewrites(s, a, k) <==>
            a.RevokeOne? && Enabled(s, a) && ProcOf(s, a.p).key == k && s.db.rows[k].revokedAt.value != s.clock
  {
    if a.CommitRotation? || a.CommitBurn? {
      if Enabled(s, a) {
        CommitKeepsTheTime(s, a, k, users);
      }
    } else if !a.RevokeOne? && Enabled(s, a) {
      OthersKeepTheTime(s, a, k);
    }
  }

  lemma CommitKeepsTheTime(s: State, a: Action, k: Key, users: set<UserId>)
    requires Inv(s, users) && k in s.db.rows && s.db.rows[k].revokedAt.Some?
    requires Enabled(s, a) && (a.CommitRotation? || a.CommitBurn?)
    ensures !Rewrites(s, a, k)
  {
    assert ProcOk(s, s.requests[a.p], s.procs[a.p]);
  }

  lemma OthersKeepTheTime(s: State, a: Action, k: Key)
    requires s.db.rows.Keys <= s.issued && k in s.db.rows && s.db.rows[k].revokedAt.Some?
    requires Enabled(s, a) && !a.CommitRotation? && !a.CommitBurn? && !a.RevokeOne?
    ensures !Rewrites(s, a, k)
  {
  }

  lemma RunOne(start: State, before: seq<Action>, a: Action)
    ensures var s := Run(start, before);
            Run(start, before + [a]) == if Enabled(s, a) then Effect(s, a) else s
  {
    assert (before + [a])[..|before|] == before;
  }

  // Two logouts read the live token k of user u; the first revokes it, and time passes.
  function TwoLogouts(u: UserId, k: Key, p: Pid, q: Pid): seq<Action> {
    BothPresent(u, k, p, q) + [RevokeOne(p)] + [Tick(1)]
  }

  function BothPresent(u: UserId, k: Key, p: Pid, q: Pid): seq<Action> {
    [LogIn(u, k, 1)] + [PresentLogout(p, k)] + [PresentLogout(q, k)]
  }

  lemma BothFindItLive(users: set<UserId>, clock: Time, u: UserId, k: Key, p: Pid, q: Pid)
    requires u in users && p != q
    ensures var s := Run(Start(users, clock), BothPresent(u, k, p, q));
            && s.db == Db(users, map[k := Row(u, clock + 1, None)]) && s.clock == clock
            && s.procs == map[p := ToRevoke(k), q := ToRevoke(k)]
  {
    var start, a := Start(users, clock), [LogIn(u, k, 1)];
    assert [] + a == a;
    RunOne(start, [], LogIn(u, k, 1));
    var s := Run(start, a);
    assert s.db.rows == map[k := Row(u, clock + 1, None)] && s.procs == map[] && s.requests == map[];
    RunOne(start, a, PresentLogout(p, k));
    RunOne(start, a + [PresentLogout(p, k)], PresentLogout(q, k));
  }

  // A revocation time can be rewritten: the second of two logouts that both read the token live.
  lemma StaleLogoutRewritesTheTime(users: set<UserId>, clock: Time, u: UserId, k: Key, p: Pid, q: Pid)
    requires u in users && p != q
    ensures var s := Run(Start(users, clock), TwoLogouts(u, k, p, q));
            && k in s.db.rows && s.db.rows[k].revokedAt == Some(clock)
            && Rewrites(s, RevokeOne(q), k) && Effect(s, RevokeOne(q)).db.rows[k].revokedAt == Some(clock + 1)
  {
    var start, b := Start(users, clock), BothPresent(u, k, p, q);
    BothFindItLive(users, clock, u, k, p, q);
    RunOne(start, b, RevokeOne(p));
    RunOne(start, b + [RevokeOne(p)], Tick(1));
  }

  // After any run a user has no more live tokens than logins since the last revoke-all.
  lemma LiveTokensStayBounded(users: set<UserId>, clock: Time, actions: seq<Action>, user: UserId)
    ensures var s := Run(Start(users, clock), actions);
            |LiveKeys(s.db, user)| <= |LoginsSinceBurn(s.log, user)|
  {
    RunKeeps(users, clock, actions);
    LiveTokensBounded(users, Run(Start(users, clock), actions).log, user);
  }
}
