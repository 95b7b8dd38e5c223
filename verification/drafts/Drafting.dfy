/**
 The rule and version tables, and what creating or revising a draft does to them as
 one atomic operation.
 */
module Drafting {
  import opened Basics
  import opened Text
  import opened Json
  import opened RoundTrip
  import opened Canonical
  import opened Preflight
  import opened Snapshots
  import opened Conditions
  import opened Diff

  type OwnerId = nat
  type RuleId = nat
  type VersionId = nat

  datatype Status = DraftStatus | OtherStatus

  datatype Rule = Rule(owner: OwnerId, title: Str, status: Status, logSource: Value, current: Option<VersionId>)

  datatype Version = Version(rule: RuleId, number: nat, text: Str, author: OwnerId)

  datatype Store = Store(rules: map<RuleId, Rule>, versions: map<VersionId, Version>)

  // What the tables are used with: the preflight, the text a draft is stored as, and the reader.
  datatype Runtime = Runtime(accepts: Draft -> bool, write: Draft -> Str, read: Str -> Stored)

  // A stored draft reads back as an equal mapping with the same title and log source, which a diff
  // can compare, and whose conditions mean something; its log source is a short text.
  ghost predicate ReadsBack(rt: Runtime, d: Draft) {
    && WellFormed(Dump(d))
    && rt.read(rt.write(d)) == Snapshot(Canon(Dump(d)))
    && PyEq(Dump(d), Canon(Dump(d))) && PyEq(Canon(Dump(d)), Dump(d))
    && Diffable(Canon(Dump(d))) && ConditionsMean(DraftOf(Canon(Dump(d))))
    && DraftOf(Canon(Dump(d))).title == d.title
    && LogSourceOf(DraftOf(Canon(Dump(d))).logsource) == LogSourceOf(d.logsource)
    && LogSourceOf(d.logsource).String? && 1 <= |LogSourceOf(d.logsource).s| <= 100
  }

  ghost predicate Faithful(rt: Runtime) {
    forall d {:trigger ReadsBack(rt, d)} :: rt.accepts(d) ==> ReadsBack(rt, d)
  }

  // The first of product, category and service that the draft names, else None.
  function LogSourceOf(logsource: seq<Entry>): Value {
    if Has(logsource, PRODUCT) then Get(logsource, PRODUCT)
    else if Has(logsource, CATEGORY) then Get(logsource, CATEGORY)
    else if Has(logsource, SERVICE) then Get(logsource, SERVICE)
    else Null
  }

  // The preflight, printer and reader of the program, for a Unicode table and a float codec.
  ghost function RuntimeOf(unicode: Unicode, codec: FloatCodec): Runtime {
    Runtime(
      d => ValidDraft(d, unicode, codec) && Representable(Dump(d), codec),
      d => Dumps(Dump(d), codec),
      text => DecodeStored(text, unicode, codec))
  }

  lemma RuntimeIsFaithful(unicode: Unicode, codec: FloatCodec)
    requires ExactCodec(codec)
    ensures Faithful(RuntimeOf(unicode, codec))
  {
    var rt := RuntimeOf(unicode, codec);
    forall d | rt.accepts(d) ensures ReadsBack(rt, d) {
      AcceptedReadsBack(d, unicode, codec);
    }
  }

  lemma AcceptedReadsBack(d: Draft, unicode: Unicode, codec: FloatCodec)
    requires ExactCodec(codec) && ValidDraft(d, unicode, codec) && Representable(Dump(d), codec)
    ensures ReadsBack(RuntimeOf(unicode, codec), d)
  {
    StoredDraftReadsBack(d, unicode, codec);
    ValidDraftPrintable(d, unicode, codec);
    AcceptedIsDiffable(Canon(Dump(d)), unicode, codec);
    AcceptedDraftMeansSomething(DraftOf(Canon(Dump(d))), unicode, codec);
    LogSourceIsText(d.logsource, unicode);
    SameShows(d, Canon(Dump(d)));
  }

  lemma SameShows(d: Draft, w: Value)
    requires Same(Dump(d), w) && HasDraftShape(w) && LogSourceOf(d.logsource).String?
    ensures DraftOf(w).title == d.title && LogSourceOf(DraftOf(w).logsource) == LogSourceOf(d.logsource)
  {
    DumpedParts(d);
    SameGet(Dump(d).entries, w.entries, TITLE);
    SameGet(Dump(d).entries, w.entries, LOGSOURCE);
    LogSourceIgnoresOrder(d.logsource, DraftOf(w).logsource);
  }

  // The key whose value is picked.
  function LogSourceKey(logsource: seq<Entry>): Str {
    if Has(logsource, PRODUCT) then PRODUCT else if Has(logsource, CATEGORY) then CATEGORY else SERVICE
  }

  lemma SomeSourceIsNamed(es: seq<Entry>)
    requires Keys(es) * {CATEGORY, PRODUCT, SERVICE} != {}
    ensures Has(es, LogSourceKey(es)) && LogSourceOf(es) == Get(es, LogSourceKey(es))
  {
    var k :| k in Keys(es) * {CATEGORY, PRODUCT, SERVICE};
    HasKey(es, k);
  }

  lemma SourceEntryIsText(e: Entry, unicode: Unicode)
    requires ValidLogsourceEntry(e, unicode) && e.key in {CATEGORY, PRODUCT, SERVICE}
    ensures e.value.String? && 1 <= |e.value.s| <= 100
  {
    assert |DEFINITION| == 10 && |e.key| < 10;
    assert !Blank(e.value.s);
  }

  lemma LogSourceIsText(es: seq<Entry>, unicode: Unicode)
    requires ValidLogsource(es, unicode)
    ensures LogSourceOf(es).String? && 1 <= |LogSourceOf(es).s| <= 100
  {
    SomeSourceIsNamed(es);
    var key := LogSourceKey(es);
    var i :| 0 <= i < |es| && es[i] == Entry(key, Get(es, key));
    assert ValidLogsourceEntry(es[i], unicode);
    SourceEntryIsText(es[i], unicode);
  }

  // Of what a draft names, the product is shown before the category and the category before the service.
  lemma ProductComesFirst(es: seq<Entry>, e: Entry)
    requires UniqueKeys(es) && e in es
    ensures e.key == PRODUCT ==> LogSourceOf(es) == e.value
    ensures e.key == CATEGORY && PRODUCT !in Keys(es) ==> LogSourceOf(es) == e.value
    ensures e.key == SERVICE && PRODUCT !in Keys(es) && CATEGORY !in Keys(es) ==> LogSourceOf(es) == e.value
  {
    GetMember(es, e);
    HasKey(es, PRODUCT);
    HasKey(es, CATEGORY);
  }

  lemma LogSourceIgnoresOrder(es: seq<Entry>, ws: seq<Entry>)
    requires SameEntries(es, ws) && LogSourceOf(es).String?
    ensures LogSourceOf(ws) == LogSourceOf(es)
  {
    forall k ensures Has(es, k) <==> Has(ws, k) {
      HasKey(es, k);
      HasKey(ws, k);
    }
    SameGet(es, ws, LogSourceKey(es));
  }

  function WithDraft(rule: Rule, d: Draft, version: VersionId): Rule {
    rule.(title := d.title, logSource := LogSourceOf(d.logsource), current := Some(version))
  }

  // create_rule_draft
  function Created(store: Store, rule: RuleId, version: VersionId, owner: OwnerId, d: Draft, rt: Runtime): Store {
    var row := Rule(owner, d.title, DraftStatus, LogSourceOf(d.logsource), Some(version));
    Store(store.rules[rule := row], store.versions[version := Version(rule, 1, rt.write(d), owner)])
  }

  // revise_owned_rule_draft, once it has been let through
  function Appended(
    store: Store, rule: RuleId, version: VersionId, number: nat, owner: OwnerId, d: Draft, rt: Runtime): Store
    requires rule in store.rules
  {
    Store(store.rules[rule := WithDraft(store.rules[rule], d, version)],
          store.versions[version := Version(rule, number, rt.write(d), owner)])
  }

  datatype Verdict = Proceed | NotFoundError | NotEditable | VersionConflict | Unchanged

  predicate Owned(store: Store, rule: RuleId, owner: OwnerId) {
    rule in store.rules && store.rules[rule].owner == owner
  }

  // The checks on the locked row, on its current version, and on what that version reads back as.
  function JudgeRow(
    row: Rule, versions: map<VersionId, Version>, rule: RuleId, expected: int, d: Draft, rt: Runtime): Verdict
  {
    if row.status != DraftStatus then NotEditable
    else if row.current == None then NotFoundError
    else if row.current.value !in versions || versions[row.current.value].rule != rule then NotFoundError
    else if versions[row.current.value].number != expected then VersionConflict
    else
      match rt.read(versions[row.current.value].text)
      case NotFound => NotFoundError
      case Snapshot(previous) => if PyEq(Dump(d), previous) then Unchanged else Proceed
  }

  function Judge(store: Store, rule: RuleId, owner: OwnerId, expected: int, d: Draft, rt: Runtime): Verdict {
    if !Owned(store, rule, owner) then NotFoundError
    else JudgeRow(store.rules[rule], store.versions, rule, expected, d, rt)
  }

  // UNIQUE (rule_id, version_number)
  predicate Taken(store: Store, rule: RuleId, number: int) {
    exists v :: v in store.versions && store.versions[v].rule == rule && store.versions[v].number == number
  }

  // One operation, with the answer it gave its caller.
  datatype Op =
    | Create(rule: RuleId, version: VersionId, owner: OwnerId, draft: Draft)
    | Revise(rule: RuleId, owner: OwnerId, expected: int, draft: Draft, version: VersionId, verdict: Verdict)

  predicate Appends(op: Op) {
    op.Revise? && op.verdict == Proceed
  }

  function Perform(store: Store, op: Op, rt: Runtime): Store {
    if op.Create? then Created(store, op.rule, op.version, op.owner, op.draft, rt)
    else if Appends(op) && op.rule in store.rules && op.expected >= 0
    then Appended(store, op.rule, op.version, op.expected + 1, op.owner, op.draft, rt)
    else store
  }

  // The operation may run here and answers as recorded; ids of new rows are new.
  ghost predicate Answers(store: Store, op: Op, rt: Runtime) {
    && rt.accepts(op.draft)
    && (op.Create? ==> op.rule !in store.rules && op.version !in store.versions)
    && (op.Revise? ==> op.verdict == Judge(store, op.rule, op.owner, op.expected, op.draft, rt))
    && (Appends(op) ==> op.version !in store.versions)
  }

  // Reading one version of an owned rule, and comparing it with the one before.

  datatype Page = Missing | Shown(version: VersionId, number: nat, isCurrent: bool, sigma: Value)

  // The row a select by rule and number finds.
  ghost function RowOf(store: Store, rule: RuleId, number: int): (v: VersionId)
    requires Taken(store, rule, number)
    ensures v in store.versions && store.versions[v].rule == rule && store.versions[v].number == number
  {
    var v :| v in store.versions && store.versions[v].rule == rule && store.versions[v].number == number;
    v
  }

  // get_owned_rule_version
  ghost function ReadVersion(store: Store, rule: RuleId, owner: OwnerId, number: int, rt: Runtime): Page {
    if !Owned(store, rule, owner) || store.rules[rule].current == None then Missing
    else if !Taken(store, rule, number) then Missing
    else ShowRow(store, rule, RowOf(store, rule, number), rt)
  }

  ghost function ShowRow(store: Store, rule: RuleId, v: VersionId, rt: Runtime): Page
    requires rule in store.rules && v in store.versions
  {
    match rt.read(store.versions[v].text)
    case NotFound => Missing
    case Snapshot(sigma) =>
      Shown(v, store.versions[v].number, Some(v) == store.rules[rule].current, sigma)
  }

  // diff_owned_rule_version: none is a 404
  ghost function DiffVersion(store: Store, rule: RuleId, owner: OwnerId, number: int, rt: Runtime): Option<Summary> {
    if number < 2 then None
    else DiffPages(ReadVersion(store, rule, owner, number - 1, rt), ReadVersion(store, rule, owner, number, rt))
  }

  function DiffPages(previous: Page, current: Page): Option<Summary> {
    if previous.Missing? || current.Missing? || !HasDraftShape(previous.sigma) || !HasDraftShape(current.sigma)
    then None
    else Some(Summarize(previous.sigma, current.sigma))
  }
}
