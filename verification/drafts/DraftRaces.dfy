/**
 Concurrent create and revise requests as interleaved database steps, each of which
 may fail and roll back. Whatever the interleaving, the tables are those of some
 serial history of whole operations, each request was told what that history answered
 it, and the unique constraint never fires.
 */
module DraftRaces {
  import opened Json
  import opened RoundTrip
  import opened Preflight
  import opened Drafting
  import opened History

  // One request; a process that makes several makes them under several numbers.
  type Pid = nat

  // What was asked, and the length of the log when it was.
  datatype Request =
    | CreateRequest(owner: OwnerId, draft: Draft, since: nat)
    | ReviseRequest(rule: RuleId, owner: OwnerId, expected: int, draft: Draft, since: nat)

  datatype Outcome =
    | CreatedRule(rule: RuleId, version: VersionId)
    | RevisedRule(version: VersionId)
    | Refused(verdict: Verdict)
    | UniqueViolated // the version insert broke UNIQUE (rule_id, version_number)
    | Failed         // the database raised; the transaction was rolled back

  // Where one request stands. A create reserves the ids of the rows it adds, a revision holds its
  // rule's row lock from the moment it has read the row. A finished request was answered by the log
  // entry "at", and finished when the log had the length "until".
  datatype Proc =
    | Idle
    | ToCreate(rule: RuleId, version: VersionId, owner: OwnerId, draft: Draft)
    | RuleAdded(rule: RuleId, version: VersionId, owner: OwnerId, draft: Draft)
    | FirstAdded(rule: RuleId, version: VersionId, owner: OwnerId, draft: Draft)
    | ToRevise(rule: RuleId, owner: OwnerId, expected: int, draft: Draft)
    | Locked(rule: RuleId, owner: OwnerId, expected: int, draft: Draft, row: Rule)
    | Checked(rule: RuleId, owner: OwnerId, expected: int, draft: Draft, version: VersionId)
    | NextAdded(rule: RuleId, owner: OwnerId, expected: int, draft: Draft, version: VersionId)
    | Finished(outcome: Outcome, at: nat, until: nat)

  datatype State = State(
    db: Store, // what is committed
    requests: map<Pid, Request>,
    procs: map<Pid, Proc>,
    rules: set<RuleId>,       // every id ever generated
    versions: set<VersionId>,
    log: seq<Op>)             // the operations that took effect or were refused, in that order

  function ProcOf(s: State, p: Pid): Proc {
    if p in s.procs then s.procs[p] else Idle
  }

  predicate Creating(pc: Proc) {
    pc.ToCreate? || pc.RuleAdded? || pc.FirstAdded?
  }

  predicate Revising(pc: Proc) {
    pc.Locked? || pc.Checked? || pc.NextAdded?
  }

  predicate HoldsRule(pc: Proc, rule: RuleId) {
    Revising(pc) && pc.rule == rule
  }

  predicate ReservesRule(pc: Proc, rule: RuleId) {
    Creating(pc) && pc.rule == rule
  }

  predicate ReservesVersion(pc: Proc, version: VersionId) {
    (Creating(pc) || pc.Checked? || pc.NextAdded?) && pc.version == version
  }

  // The version row the request has inserted and not yet committed.
  predicate Inserted(pc: Proc, rule: RuleId, number: int) {
    || (pc.FirstAdded? && pc.rule == rule && number == 1)
    || (pc.NextAdded? && pc.rule == rule && number == pc.expected + 1)
  }

  ghost predicate RuleFree(s: State, rule: RuleId) {
    forall p :: p in s.procs ==> !HoldsRule(s.procs[p], rule)
  }

  // No other open transaction has inserted that version: an insert would wait for it.
  ghost predicate NotInserted(s: State, rule: RuleId, number: int) {
    forall p :: p in s.procs ==> !Inserted(s.procs[p], rule, number)
  }

  datatype Action =
    | BeginCreate(p: Pid, owner: OwnerId, draft: Draft, rule: RuleId, version: VersionId)
    | AddRule(p: Pid)
    | AddFirst(p: Pid)
    | CommitCreate(p: Pid)
    | BeginRevise(p: Pid, rule: RuleId, owner: OwnerId, expected: int, draft: Draft)
    | LockRule(p: Pid)                        // SELECT ... FOR UPDATE
    | Examine(p: Pid, version: VersionId)     // the checks, and the id of the new version
    | AddNext(p: Pid)
    | CommitRevision(p: Pid)
    | Raise(p: Pid)                           // any step of an open request fails

  function Put(s: State, p: Pid, pc: Proc): State {
    s.(procs := s.procs[p := pc])
  }

  function Log(s: State, op: Op, rt: Runtime): State {
    s.(db := Perform(s.db, op, rt), log := s.log + [op])
  }

  function Ask(s: State, p: Pid, r: Request): State {
    s.(requests := s.requests[p := r])
  }

  // Whether the step can run now. A step that needs a held lock, or would insert what another open
  // transaction has inserted, waits. Ids are generated fresh, and a draft has passed the preflight.
  ghost predicate Enabled(s: State, a: Action, rt: Runtime) {
    match a
    case BeginCreate(p, _, d, r, v) => p !in s.requests && rt.accepts(d) && r !in s.rules && v !in s.versions
    case AddRule(p) => ProcOf(s, p).ToCreate?
    case AddFirst(p) => ProcOf(s, p).RuleAdded? && NotInserted(s, ProcOf(s, p).rule, 1)
    case CommitCreate(p) => ProcOf(s, p).FirstAdded?
    case BeginRevise(p, _, _, _, d) => p !in s.requests && rt.accepts(d)
    case LockRule(p) =>
      var pc := ProcOf(s, p);
      pc.ToRevise? && (Owned(s.db, pc.rule, pc.owner) ==> RuleFree(s, pc.rule))
    case Examine(p, v) => ProcOf(s, p).Locked? && v !in s.versions
    case AddNext(p) =>
      ProcOf(s, p).Checked? && NotInserted(s, ProcOf(s, p).rule, ProcOf(s, p).expected + 1)
    case CommitRevision(p) => ProcOf(s, p).NextAdded?
    case Raise(p) => !ProcOf(s, p).Idle? && !ProcOf(s, p).Finished?
  }

  function RefusalOf(pc: Proc, verdict: Verdict): Op
    requires pc.ToRevise? || pc.Locked?
  {
    Revise(pc.rule, pc.owner, pc.expected, pc.draft, 0, verdict)
  }

  ghost function Effect(s: State, a: Action, rt: Runtime): State
    requires Enabled(s, a, rt)
  {
    match a
    case BeginCreate(p, o, d, r, v) =>
      var asked := Ask(s, p, CreateRequest(o, d, |s.log|));
      Put(asked.(rules := s.rules + {r}, versions := s.versions + {v}), p, ToCreate(r, v, o, d))
    case AddRule(p) => var pc := ProcOf(s, p); Put(s, p, RuleAdded(pc.rule, pc.version, pc.owner, pc.draft))
    case AddFirst(p) =>
      var pc := ProcOf(s, p);
      if Taken(s.db, pc.rule, 1) then Put(s, p, Finished(UniqueViolated, 0, |s.log|))
      else Put(s, p, FirstAdded(pc.rule, pc.version, pc.owner, pc.draft))
    case CommitCreate(p) =>
      var pc := ProcOf(s, p);
      var op := Create(pc.rule, pc.version, pc.owner, pc.draft);
      Put(Log(s, op, rt), p, Finished(CreatedRule(pc.rule, pc.version), |s.log|, |s.log| + 1))
    case BeginRevise(p, r, o, n, d) => Put(Ask(s, p, ReviseRequest(r, o, n, d, |s.log|)), p, ToRevise(r, o, n, d))
    case LockRule(p) =>
      var pc := ProcOf(s, p);
      if Owned(s.db, pc.rule, pc.owner)
      then Put(s, p, Locked(pc.rule, pc.owner, pc.expected, pc.draft, s.db.rules[pc.rule]))
      else Refuse(s, p, pc, NotFoundError, rt)
    case Examine(p, v) =>
      var pc := ProcOf(s, p);
      var verdict := JudgeRow(pc.row, s.db.versions, pc.rule, pc.expected, pc.draft, rt);
      if verdict == Proceed
      then Put(s.(versions := s.versions + {v}), p, Checked(pc.rule, pc.owner, pc.expected, pc.draft, v))
      else Refuse(s, p, pc, verdict, rt)
    case AddNext(p) =>
      var pc := ProcOf(s, p);
      if Taken(s.db, pc.rule, pc.expected + 1) then Put(s, p, Finished(UniqueViolated, 0, |s.log|))
      else Put(s, p, NextAdded(pc.rule, pc.owner, pc.expected, pc.draft, pc.version))
    case CommitRevision(p) =>
      var pc := ProcOf(s, p);
      var op := Revise(pc.rule, pc.owner, pc.expected, pc.draft, pc.version, Proceed);
      Put(Log(s, op, rt), p, Finished(RevisedRule(pc.version), |s.log|, |s.log| + 1))
    case Raise(p) => Put(s, p, Finished(Failed, 0, |s.log|))
  }

  function Refuse(s: State, p: Pid, pc: Proc, verdict: Verdict, rt: Runtime): State
    requires pc.ToRevise? || pc.Locked?
  {
    Put(Log(s, RefusalOf(pc, verdict), rt), p, Finished(Refused(verdict), |s.log|, |s.log| + 1))
  }

  // A run: what is not enabled when its turn comes does not happen.
  ghost function Run(actions: seq<Action>, rt: Runtime): State {
    if actions == [] then Start()
    else
      var s, a := Run(actions[..|actions| - 1], rt), actions[|actions| - 1];
      if Enabled(s, a, rt) then Effect(s, a, rt) else s
  }

  function Start(): State {
    State(EMPTY, map[], map[], {}, {}, [])
  }

  // Answers

  // The log entry records the answer to the request.
  predicate Recorded(r: Request, outcome: Outcome, op: Op) {
    match outcome
    case CreatedRule(rule, version) => r.CreateRequest? && op == Create(rule, version, r.owner, r.draft)
    case RevisedRule(version) =>
      r.ReviseRequest? && op == Revise(r.rule, r.owner, r.expected, r.draft, version, Proceed)
    case Refused(verdict) =>
      r.ReviseRequest? && verdict != Proceed && op == Revise(r.rule, r.owner, r.expected, r.draft, 0, verdict)
    case UniqueViolated => false
    case Failed => false
  }

  // A finished request: failed without effect, or answered by a log entry made between its start
  // and its finish.
  predicate Answered(log: seq<Op>, r: Request, pc: Proc)
    requires pc.Finished?
  {
    pc.outcome != Failed ==> r.since <= pc.at < pc.until <= |log| && Recorded(r, pc.outcome, log[pc.at])
  }

  // How a request stands to what was asked and to the log.
  predicate Serves(log: seq<Op>, r: Request, pc: Proc) {
    && r.since <= |log|
    && (Creating(pc) ==> r.CreateRequest? && pc.owner == r.owner && pc.draft == r.draft)
    && (pc.ToRevise? || Revising(pc) ==> r == ReviseRequest(pc.rule, pc.owner, pc.expected, pc.draft, r.since))
    && (pc.Finished? ==> Answered(log, r, pc))
  }

  // What a request in the middle of its transaction relies on.
  ghost predicate Holds(s: State, pc: Proc, rt: Runtime) {
    && (Creating(pc) ==>
          && rt.accepts(pc.draft)
          && pc.rule in s.rules && pc.rule !in s.db.rules
          && pc.version in s.versions && pc.version !in s.db.versions)
    && (pc.ToRevise? ==> rt.accepts(pc.draft))
    && (Revising(pc) ==> rt.accepts(pc.draft) && Owned(s.db, pc.rule, pc.owner))
    && (pc.Locked? ==> s.db.rules[pc.rule] == pc.row)
    && (pc.Checked? || pc.NextAdded? ==>
          && Judge(s.db, pc.rule, pc.owner, pc.expected, pc.draft, rt) == Proceed
          && pc.version in s.versions && pc.version !in s.db.versions)
  }

  ghost predicate ProcOk(s: State, r: Request, pc: Proc, rt: Runtime) {
    Holds(s, pc, rt) && Serves(s.log, r, pc)
  }

  // The log entry is the one that answered this request.
  predicate Owns(pc: Proc, i: nat) {
    pc.Finished? && pc.outcome != Failed && pc.at == i
  }

  // Two requests never hold the same lock or the same new ids, nor share a log entry.
  ghost predicate Apart(a: Proc, b: Proc) {
    && (forall r :: !(HoldsRule(a, r) && HoldsRule(b, r)) && !(ReservesRule(a, r) && ReservesRule(b, r)))
    && (forall v :: !(ReservesVersion(a, v) && ReservesVersion(b, v)))
    && (forall i :: !(Owns(a, i) && Owns(b, i)))
  }

  ghost predicate Inv(s: State, rt: Runtime) {
    && Serial(s.log, rt) && s.db == Replay(s.log, rt)
    && s.db.rules.Keys <= s.rules && s.db.versions.Keys <= s.versions
    && s.procs.Keys <= s.requests.Keys
    && (forall p :: p in s.procs ==> ProcOk(s, s.requests[p], s.procs[p], rt))
    && (forall p, q :: p in s.procs && q in s.procs && p != q ==> Apart(s.procs[p], s.procs[q]))
  }

  // p's own step: it changes nothing but p, and perhaps reserves new ids.
  lemma PutKeeps(s: State, p: Pid, pc: Proc, rules: set<RuleId>, versions: set<VersionId>, rt: Runtime)
    requires Inv(s, rt) && s.rules <= rules && s.versions <= versions && p in s.requests
    requires ProcOk(s.(rules := rules, versions := versions), s.requests[p], pc, rt)
    requires forall q :: q in s.procs && q != p ==> Apart(pc, s.procs[q])
    ensures Inv(Put(s.(rules := rules, versions := versions), p, pc), rt)
  {
    var s' := Put(s.(rules := rules, versions := versions), p, pc);
    forall q | q in s'.procs ensures ProcOk(s', s'.requests[q], s'.procs[q], rt) {
      assert q != p ==> ProcOk(s, s.requests[q], s.procs[q], rt);
    }
    forall q, r | q in s'.procs && r in s'.procs && q != r ensures Apart(s'.procs[q], s'.procs[r]) {
      assert q != p && r != p ==> Apart(s.procs[q], s.procs[r]);
    }
  }

  // A new request.
  lemma AskKeeps(s: State, p: Pid, r: Request, rt: Runtime)
    requires Inv(s, rt) && p !in s.requests
    ensures Inv(Ask(s, p, r), rt) && p !in s.procs
  {
    forall q | q in s.procs ensures ProcOk(Ask(s, p, r), Ask(s, p, r).requests[q], s.procs[q], rt) {
      assert ProcOk(s, s.requests[q], s.procs[q], rt);
    }
  }

  // The operation takes effect without touching what a request in a transaction relies on.
  ghost predicate Respects(s: State, op: Op) {
    && (op.Create? ==> op.rule in s.rules && forall p :: p in s.procs ==> !ReservesRule(s.procs[p], op.rule))
    && (Appends(op) ==> RuleFree(s, op.rule))
    && (op.Create? || Appends(op) ==>
          op.version in s.versions && forall p :: p in s.procs ==> !ReservesVersion(s.procs[p], op.version))
  }

  // An operation on one rule leaves the others, and their current versions, as they were.
  lemma OtherRuleUntouched(store: Store, op: Op, rule: RuleId, rt: Runtime)
    requires Answers(store, op, rt) && rule in store.rules && (op.Create? || Appends(op) ==> op.rule != rule)
    ensures var store' := Perform(store, op, rt);
            && rule in store'.rules && store'.rules[rule] == store.rules[rule]
            && forall v :: v in store.versions ==> v in store'.versions && store'.versions[v] == store.versions[v]
  {
  }

  lemma RowsAfter(store: Store, op: Op, rt: Runtime)
    requires Answers(store, op, rt)
    ensures var store' := Perform(store, op, rt);
            && store'.rules.Keys == store.rules.Keys + (if op.Create? then {op.rule} else {})
            && store'.versions.Keys == store.versions.Keys + (if op.Create? || Appends(op) then {op.version} else {})
  {
  }

  lemma VerdictStands(store: Store, store': Store, rule: RuleId, owner: OwnerId, expected: int, d: Draft, rt: Runtime)
    requires Judge(store, rule, owner, expected, d, rt) == Proceed
    requires rule in store'.rules && store'.rules[rule] == store.rules[rule]
    requires forall v :: v in store.versions ==> v in store'.versions && store'.versions[v] == store.versions[v]
    ensures Judge(store', rule, owner, expected, d, rt) == Proceed
  {
  }

  lemma HoldsKept(s: State, op: Op, p: Pid, rt: Runtime)
    requires Inv(s, rt) && Answers(s.db, op, rt) && Respects(s, op) && p in s.procs
    ensures Holds(Log(s, op, rt), s.procs[p], rt)
  {
    var pc := s.procs[p];
    assert ProcOk(s, s.requests[p], pc, rt);
    RowsAfter(s.db, op, rt);
    if Creating(pc) {
      assert ReservesRule(pc, pc.rule) && ReservesVersion(pc, pc.version);
    }
    if Revising(pc) {
      assert HoldsRule(pc, pc.rule);
      OtherRuleUntouched(s.db, op, pc.rule, rt);
    }
    if pc.Checked? || pc.NextAdded? {
      assert ReservesVersion(pc, pc.version);
      VerdictStands(s.db, Perform(s.db, op, rt), pc.rule, pc.owner, pc.expected, pc.draft, rt);
    }
  }

  lemma ServesStill(log: seq<Op>, op: Op, r: Request, pc: Proc)
    requires Serves(log, r, pc)
    ensures Serves(log + [op], r, pc)
  {
    assert forall i :: 0 <= i < |log| ==> (log + [op])[i] == log[i];
  }

  lemma LogKeeps(s: State, op: Op, rt: Runtime)
    requires Inv(s, rt) && Answers(s.db, op, rt) && Respects(s, op)
    ensures Inv(Log(s, op, rt), rt)
  {
    var s' := Log(s, op, rt);
    assert (s.log + [op])[..|s.log|] == s.log;
    forall q | q in s'.procs ensures ProcOk(s', s'.requests[q], s'.procs[q], rt) {
      HoldsKept(s, op, q, rt);
      assert ProcOk(s, s.requests[q], s.procs[q], rt);
      ServesStill(s.log, op, s.requests[q], s.procs[q]);
    }
    RowsAfter(s.db, op, rt);
  }

  // The entry about to be made belongs to nobody yet.
  lemma NewEntryIsFree(s: State, rt: Runtime)
    requires Inv(s, rt)
    ensures forall q :: q in s.procs ==> !Owns(s.procs[q], |s.log|)
  {
    forall q | q in s.procs ensures !Owns(s.procs[q], |s.log|) {
      assert ProcOk(s, s.requests[q], s.procs[q], rt);
    }
  }

  // p lets go of everything it holds; what it held is then free.

  lemma ReleaseKeeps(s: State, p: Pid, rt: Runtime)
    requires Inv(s, rt) && p in s.procs
    ensures Inv(Put(s, p, Idle), rt)
  {
    assert ProcOk(s, s.requests[p], s.procs[p], rt);
    PutKeeps(s, p, Idle, s.rules, s.versions, rt);
  }

  lemma ReleasedIsFree(s: State, p: Pid, rt: Runtime)
    requires Inv(s, rt) && p in s.procs
    ensures forall r :: HoldsRule(s.procs[p], r) ==> RuleFree(Put(s, p, Idle), r)
    ensures forall r, q :: ReservesRule(s.procs[p], r) && q in Put(s, p, Idle).procs ==>
                             !ReservesRule(Put(s, p, Idle).procs[q], r)
    ensures forall v, q :: ReservesVersion(s.procs[p], v) && q in Put(s, p, Idle).procs ==>
                             !ReservesVersion(Put(s, p, Idle).procs[q], v)
  {
    forall q | q in s.procs && q != p ensures Apart(s.procs[p], s.procs[q]) {
    }
  }

  // An operation by p takes effect, and p moves on.
  lemma LogAndPutKeeps(s: State, p: Pid, op: Op, pc: Proc, rt: Runtime)
    requires Inv(s, rt) && p in s.procs && Answers(s.db, op, rt) && Respects(Put(s, p, Idle), op)
    requires ProcOk(Log(s, op, rt), s.requests[p], pc, rt)
    requires forall q :: q in s.procs && q != p ==> Apart(pc, s.procs[q])
    ensures Inv(Put(Log(s, op, rt), p, pc), rt)
  {
    var logged := Log(Put(s, p, Idle), op, rt);
    LogReleased(s, p, op, rt);
    PutKeeps(logged, p, pc, s.rules, s.versions, rt);
    assert logged.(rules := s.rules, versions := s.versions) == logged;
    PutOver(s, p, op, pc, rt);
  }

  lemma PutOver(s: State, p: Pid, op: Op, pc: Proc, rt: Runtime)
    ensures Put(Log(Put(s, p, Idle), op, rt), p, pc) == Put(Log(s, op, rt), p, pc)
  {
    assert s.procs[p := Idle][p := pc] == s.procs[p := pc];
  }

  lemma LogReleased(s: State, p: Pid, op: Op, rt: Runtime)
    requires Inv(s, rt) && p in s.procs && Answers(s.db, op, rt) && Respects(Put(s, p, Idle), op)
    ensures Inv(Log(Put(s, p, Idle), op, rt), rt)
  {
    ReleaseKeeps(s, p, rt);
    LogKeeps(Put(s, p, Idle), op, rt);
  }

  // p moves on within its transaction and keeps exactly what it holds.
  lemma AdvanceKeeps(s: State, p: Pid, pc: Proc, rt: Runtime)
    requires Inv(s, rt) && p in s.procs && ProcOk(s, s.requests[p], pc, rt) && (forall i :: !Owns(pc, i))
    requires forall r :: HoldsRule(pc, r) ==> HoldsRule(s.procs[p], r) || RuleFree(s, r)
    requires forall r :: ReservesRule(pc, r) ==> ReservesRule(s.procs[p], r)
    requires forall v :: ReservesVersion(pc, v) ==> ReservesVersion(s.procs[p], v)
    ensures Inv(Put(s, p, pc), rt)
  {
    forall q | q in s.procs && q != p ensures Apart(pc, s.procs[q]) {
      assert Apart(s.procs[p], s.procs[q]);
    }
    PutKeeps(s, p, pc, s.rules, s.versions, rt);
  }

  // The unique constraint

  lemma NoVersionsYet(log: seq<Op>, rule: RuleId, number: int, rt: Runtime)
    requires Faithful(rt) && Serial(log, rt) && rule !in Replay(log, rt).rules
    ensures !Taken(Replay(log, rt), rule, number)
  {
    HistoryKeepsVersions(log, rt);
    var store := Replay(log, rt);
    forall v | v in store.versions ensures store.versions[v].rule != rule {
      assert VersionChained(ChainsOf(log), v, store.versions[v]);
    }
  }

  lemma NextNumberIsFree(log: seq<Op>, rule: RuleId, owner: OwnerId, expected: int, d: Draft, rt: Runtime)
    requires Faithful(rt) && Serial(log, rt)
    requires Judge(Replay(log, rt), rule, owner, expected, d, rt) == Proceed
    ensures !Taken(Replay(log, rt), rule, expected + 1)
  {
    HistoryKeepsVersions(log, rt);
    JudgedByTheHistory(Replay(log, rt), ChainsOf(log), rule, owner, expected, d, rt);
    NumberedWithoutGaps(log, rule, expected + 1, rt);
  }

  // Each step keeps the invariant.

  lemma BeginCreateKeeps(s: State, p: Pid, o: OwnerId, d: Draft, r: RuleId, v: VersionId, rt: Runtime)
    requires Inv(s, rt) && Enabled(s, BeginCreate(p, o, d, r, v), rt)
    ensures Inv(Effect(s, BeginCreate(p, o, d, r, v), rt), rt)
  {
    var pc := ToCreate(r, v, o, d);
    var asked := Ask(s, p, CreateRequest(o, d, |s.log|));
    AskKeeps(s, p, CreateRequest(o, d, |s.log|), rt);
    forall q | q in s.procs && q != p ensures Apart(pc, s.procs[q]) {
      assert ProcOk(s, s.requests[q], s.procs[q], rt);
    }
    PutKeeps(asked, p, pc, s.rules + {r}, s.versions + {v}, rt);
  }

  lemma BeginReviseKeeps(s: State, p: Pid, r: RuleId, o: OwnerId, n: int, d: Draft, rt: Runtime)
    requires Inv(s, rt) && Enabled(s, BeginRevise(p, r, o, n, d), rt)
    ensures Inv(Effect(s, BeginRevise(p, r, o, n, d), rt), rt)
  {
    var request := ReviseRequest(r, o, n, d, |s.log|);
    AskKeeps(s, p, request, rt);
    PutKeeps(Ask(s, p, request), p, ToRevise(r, o, n, d), s.rules, s.versions, rt);
  }

  lemma InsertKeeps(s: State, a: Action, rt: Runtime)
    requires Faithful(rt) && Inv(s, rt) && Enabled(s, a, rt) && (a.AddRule? || a.AddFirst? || a.AddNext?)
    ensures Inv(Effect(s, a, rt), rt)
  {
    var pc := s.procs[a.p];
    assert ProcOk(s, s.requests[a.p], pc, rt);
    if a.AddFirst? {
      NoVersionsYet(s.log, pc.rule, 1, rt);
    } else if a.AddNext? {
      NextNumberIsFree(s.log, pc.rule, pc.owner, pc.expected, pc.draft, rt);
    }
    AdvanceKeeps(s, a.p, Effect(s, a, rt).procs[a.p], rt);
  }

  // What p commits respects the others: it is under p's own lock, with p's own ids.
  lemma CommitRespects(s: State, p: Pid, op: Op, rt: Runtime)
    requires Inv(s, rt) && p in s.procs && (op.Create? || Appends(op))
    requires op.Create? ==> op.rule in s.rules && ReservesRule(s.procs[p], op.rule)
    requires Appends(op) ==> HoldsRule(s.procs[p], op.rule)
    requires op.version in s.versions && ReservesVersion(s.procs[p], op.version)
    ensures Respects(Put(s, p, Idle), op)
  {
    ReleasedIsFree(s, p, rt);
  }

  // p commits and finishes: the new log entry is its own.
  lemma CommitKeeps(s: State, p: Pid, op: Op, outcome: Outcome, rt: Runtime)
    requires Inv(s, rt) && p in s.procs && Answers(s.db, op, rt) && Respects(Put(s, p, Idle), op)
    requires s.requests[p].since <= |s.log| && Recorded(s.requests[p], outcome, op)
    ensures Inv(Put(Log(s, op, rt), p, Finished(outcome, |s.log|, |s.log| + 1)), rt)
  {
    NewEntryIsFree(s, rt);
    LogAndPutKeeps(s, p, op, Finished(outcome, |s.log|, |s.log| + 1), rt);
  }

  lemma CommitCreateKeeps(s: State, p: Pid, rt: Runtime)
    requires Inv(s, rt) && Enabled(s, CommitCreate(p), rt)
    ensures Inv(Effect(s, CommitCreate(p), rt), rt)
  {
    var pc := s.procs[p];
    assert ProcOk(s, s.requests[p], pc, rt);
    var op := Create(pc.rule, pc.version, pc.owner, pc.draft);
    CommitRespects(s, p, op, rt);
    CommitKeeps(s, p, op, CreatedRule(pc.rule, pc.version), rt);
  }

  lemma CommitRevisionKeeps(s: State, p: Pid, rt: Runtime)
    requires Inv(s, rt) && Enabled(s, CommitRevision(p), rt)
    ensures Inv(Effect(s, CommitRevision(p), rt), rt)
  {
    var pc := s.procs[p];
    assert ProcOk(s, s.requests[p], pc, rt);
    var op := Revise(pc.rule, pc.owner, pc.expected, pc.draft, pc.version, Proceed);
    CommitRespects(s, p, op, rt);
    CommitKeeps(s, p, op, RevisedRule(pc.version), rt);
  }

  lemma RefusalKeeps(s: State, p: Pid, verdict: Verdict, rt: Runtime)
    requires Inv(s, rt) && p in s.procs && (s.procs[p].ToRevise? || s.procs[p].Locked?) && verdict != Proceed
    requires var pc := s.procs[p]; Judge(s.db, pc.rule, pc.owner, pc.expected, pc.draft, rt) == verdict
    ensures Inv(Refuse(s, p, s.procs[p], verdict, rt), rt)
  {
    assert ProcOk(s, s.requests[p], s.procs[p], rt);
    CommitKeeps(s, p, RefusalOf(s.procs[p], verdict), Refused(verdict), rt);
  }

  lemma LockRuleKeeps(s: State, p: Pid, rt: Runtime)
    requires Inv(s, rt) && Enabled(s, LockRule(p), rt)
    ensures Inv(Effect(s, LockRule(p), rt), rt)
  {
    var pc := s.procs[p];
    assert ProcOk(s, s.requests[p], pc, rt);
    if Owned(s.db, pc.rule, pc.owner) {
      AdvanceKeeps(s, p, Locked(pc.rule, pc.owner, pc.expected, pc.draft, s.db.rules[pc.rule]), rt);
    } else {
      RefusalKeeps(s, p, NotFoundError, rt);
    }
  }

  lemma ExamineKeeps(s: State, p: Pid, v: VersionId, rt: Runtime)
    requires Inv(s, rt) && Enabled(s, Examine(p, v), rt)
    ensures Inv(Effect(s, Examine(p, v), rt), rt)
  {
    var pc := s.procs[p];
    assert ProcOk(s, s.requests[p], pc, rt);
    var verdict := JudgeRow(pc.row, s.db.versions, pc.rule, pc.expected, pc.draft, rt);
    assert verdict == Judge(s.db, pc.rule, pc.owner, pc.expected, pc.draft, rt);
    if verdict == Proceed {
      ApprovalKeeps(s, p, v, rt);
    } else {
      RefusalKeeps(s, p, verdict, rt);
    }
  }

  lemma ApprovalKeeps(s: State, p: Pid, v: VersionId, rt: Runtime)
    requires Inv(s, rt) && p in s.procs && s.procs[p].Locked? && v !in s.versions
    requires var pc := s.procs[p]; Judge(s.db, pc.rule, pc.owner, pc.expected, pc.draft, rt) == Proceed
    ensures var pc := s.procs[p];
            Inv(Put(s.(versions := s.versions + {v}), p, Checked(pc.rule, pc.owner, pc.expected, pc.draft, v)), rt)
  {
    var pc := s.procs[p];
    assert ProcOk(s, s.requests[p], pc, rt);
    var after := Checked(pc.rule, pc.owner, pc.expected, pc.draft, v);
    forall q | q in s.procs && q != p ensures Apart(after, s.procs[q]) {
      assert ProcOk(s, s.requests[q], s.procs[q], rt) && Apart(pc, s.procs[q]);
      assert HoldsRule(pc, pc.rule);
    }
    PutKeeps(s, p, after, s.rules, s.versions + {v}, rt);
  }

  lemma RaiseKeeps(s: State, p: Pid, rt: Runtime)
    requires Inv(s, rt) && Enabled(s, Raise(p), rt)
    ensures Inv(Effect(s, Raise(p), rt), rt)
  {
    assert ProcOk(s, s.requests[p], s.procs[p], rt);
    AdvanceKeeps(s, p, Finished(Failed, 0, |s.log|), rt);
  }

  lemma StepKeeps(s: State, a: Action, rt: Runtime)
    requires Faithful(rt) && Inv(s, rt) && Enabled(s, a, rt)
    ensures Inv(Effect(s, a, rt), rt)
  {
    match a
    case BeginCreate(p, o, d, r, v) => BeginCreateKeeps(s, p, o, d, r, v, rt);
    case AddRule(p) => InsertKeeps(s, a, rt);
    case AddFirst(p) => InsertKeeps(s, a, rt);
    case AddNext(p) => InsertKeeps(s, a, rt);
    case CommitCreate(p) => CommitCreateKeeps(s, p, rt);
    case BeginRevise(p, r, o, n, d) => BeginReviseKeeps(s, p, r, o, n, d, rt);
    case LockRule(p) => LockRuleKeeps(s, p, rt);
    case Examine(p, v) => ExamineKeeps(s, p, v, rt);
    case CommitRevision(p) => CommitRevisionKeeps(s, p, rt);
    case Raise(p) => RaiseKeeps(s, p, rt);
  }

  lemma {:induction false} RunKeeps(actions: seq<Action>, rt: Runtime)
    requires Faithful(rt)
    ensures Inv(Run(actions, rt), rt)
  {
    if actions != [] {
      var before, a := actions[..|actions| - 1], actions[|actions| - 1];
      RunKeeps(before, rt);
      var s := Run(before, rt);
      if Enabled(s, a, rt) {
        StepKeeps(s, a, rt);
      }
    }
  }

  predicate Finishes(s: State, p: Pid, i: nat) {
    p in s.procs && Owns(s.procs[p], i)
  }

  // Every finished request was answered by its own log entry.
  ghost predicate EachAnswered(s: State) {
    && (forall p :: p in s.procs && s.procs[p].Finished? ==>
                      p in s.requests && Answered(s.log, s.requests[p], s.procs[p]))
    && (forall p, q, i :: (Finishes(s, p, i) && Finishes(s, q, i)) ==> p == q)
  }

  // Every interleaving is a serial history of whole operations: it leaves the same tables, and each
  // request was told what its own entry of that history records, at a point between its start and
  // its finish. Everything History proves of serial histories therefore holds after every run.
  lemma InterleavingsAreSerial(actions: seq<Action>, rt: Runtime)
    requires Faithful(rt)
    ensures var s := Run(actions, rt); Serial(s.log, rt) && s.db == Replay(s.log, rt) && EachAnswered(s)
  {
    RunKeeps(actions, rt);
    var s := Run(actions, rt);
    forall p | p in s.procs && s.procs[p].Finished? ensures Answered(s.log, s.requests[p], s.procs[p]) {
      assert ProcOk(s, s.requests[p], s.procs[p], rt);
    }
  }

  // A request fails only because a call of its own raises.
  lemma OnlyRaisingFails(s: State, a: Action, p: Pid, rt: Runtime)
    requires Enabled(s, a, rt) && p in Effect(s, a, rt).procs
    requires Effect(s, a, rt).procs[p].Finished? && Effect(s, a, rt).procs[p].outcome == Failed
    ensures a == Raise(p) || (p in s.procs && s.procs[p] == Effect(s, a, rt).procs[p])
  {
    if a.p != p {
      assert p in s.procs;
    }
  }

  // The unique constraint never fires, and no insert ever waits for another request's.
  lemma UniqueNeverFires(actions: seq<Action>, p: Pid, rt: Runtime)
    requires Faithful(rt)
    ensures var s := Run(actions, rt);
            && (ProcOf(s, p).Finished? ==> ProcOf(s, p).outcome != UniqueViolated)
            && (ProcOf(s, p).RuleAdded? ==> Enabled(s, AddFirst(p), rt))
            && (ProcOf(s, p).Checked? ==> Enabled(s, AddNext(p), rt))
  {
    RunKeeps(actions, rt);
    var s := Run(actions, rt);
    if p in s.procs {
      assert ProcOk(s, s.requests[p], s.procs[p], rt);
      if s.procs[p].RuleAdded? || s.procs[p].Checked? {
        NobodyInserted(s, p, rt);
      }
    }
  }

  lemma NobodyInserted(s: State, p: Pid, rt: Runtime)
    requires Inv(s, rt) && p in s.procs && (s.procs[p].RuleAdded? || s.procs[p].Checked?)
    ensures forall n :: NotInserted(s, s.procs[p].rule, n)
  {
    var pc := s.procs[p];
    assert ProcOk(s, s.requests[p], pc, rt);
    forall n, q | q in s.procs ensures !Inserted(s.procs[q], pc.rule, n) {
      assert ProcOk(s, s.requests[q], s.procs[q], rt);
      if q != p {
        assert Apart(pc, s.procs[q]);
        assert HoldsRule(pc, pc.rule) || ReservesRule(pc, pc.rule);
      }
    }
  }

  // Of all requests that revise a rule with the same expected version, at most one commits.
  lemma SameVersionRevisedOnce(actions: seq<Action>, p: Pid, q: Pid, rt: Runtime)
    requires Faithful(rt) && p != q
    requires var s := Run(actions, rt);
             && ProcOf(s, p).Finished? && ProcOf(s, p).outcome.RevisedRule?
             && ProcOf(s, q).Finished? && ProcOf(s, q).outcome.RevisedRule?
    ensures var s := Run(actions, rt);
            && p in s.requests && q in s.requests && s.requests[p].ReviseRequest? && s.requests[q].ReviseRequest?
            && (s.requests[p].rule == s.requests[q].rule ==> s.requests[p].expected != s.requests[q].expected)
  {
    InterleavingsAreSerial(actions, rt);
    OwnEntriesOwnVersions(Run(actions, rt), p, q, rt);
  }

  lemma OwnEntriesOwnVersions(s: State, p: Pid, q: Pid, rt: Runtime)
    requires Faithful(rt) && Serial(s.log, rt) && EachAnswered(s) && p != q
    requires p in s.procs && s.procs[p].Finished? && s.procs[p].outcome.RevisedRule?
    requires q in s.procs && s.procs[q].Finished? && s.procs[q].outcome.RevisedRule?
    ensures s.requests[p].ReviseRequest? && s.requests[q].ReviseRequest?
    ensures s.requests[p].rule == s.requests[q].rule ==> s.requests[p].expected != s.requests[q].expected
  {
    var i, j := s.procs[p].at, s.procs[q].at;
    assert Answered(s.log, s.requests[p], s.procs[p]) && Answered(s.log, s.requests[q], s.procs[q]);
    assert Finishes(s, p, i) && Finishes(s, q, j);
    if s.requests[p].rule == s.requests[q].rule && s.requests[p].expected == s.requests[q].expected {
      RevisedOnce(s.log, i, j, rt);
    }
  }

  lemma {:induction false} LogGrows(actions: seq<Action>, n: nat, rt: Runtime)
    requires n <= |actions|
    ensures Run(actions[..n], rt).log <= Run(actions, rt).log
    decreases |actions|
  {
    if n == |actions| {
      assert actions[..n] == actions;
    } else {
      assert actions[..|actions| - 1][..n] == actions[..n];
      LogGrows(actions[..|actions| - 1], n, rt);
    }
  }

  // A committed version is the same row in every later state.
  lemma CommittedForGood(actions: seq<Action>, n: nat, v: VersionId, rt: Runtime)
    requires Faithful(rt) && n <= |actions| && v in Run(actions[..n], rt).db.versions
    ensures v in Run(actions, rt).db.versions
    ensures Run(actions, rt).db.versions[v] == Run(actions[..n], rt).db.versions[v]
  {
    var early, late := Run(actions[..n], rt), Run(actions, rt);
    InterleavingsAreSerial(actions[..n], rt);
    InterleavingsAreSerial(actions, rt);
    LogGrows(actions, n, rt);
    assert late.log[..|early.log|] == early.log;
    VersionsNeverChange(late.log, |early.log|, v, rt);
  }

  // For the program's own preflight, printer and reader, after any run: gap-free numbering, and a
  // row that mirrors a snapshot which reads back.
  lemma EveryRunKeepsRules(actions: seq<Action>, rule: RuleId, number: int, unicode: Unicode, codec: FloatCodec)
    requires ExactCodec(codec) && rule in Run(actions, RuntimeOf(unicode, codec)).db.rules
    ensures var rt := RuntimeOf(unicode, codec);
            var s := Run(actions, rt);
            && Mirrors(s.db, rule, rt)
            && rule in ChainsOf(s.log)
            && (Taken(s.db, rule, number) <==> 1 <= number <= |ChainsOf(s.log)[rule]|)
  {
    var rt := RuntimeOf(unicode, codec);
    RuntimeIsFaithful(unicode, codec);
    InterleavingsAreSerial(actions, rt);
    RuleMirrorsItsSnapshot(Run(actions, rt).log, rule, rt);
    NumberedWithoutGaps(Run(actions, rt).log, rule, number, rt);
  }
}
