/**
 The structural diff of two snapshots. It reports a change exactly when Python
 calls the snapshots unequal, and what it lists is exactly what has to be replaced
 in the old snapshot to make it equal to the new one.
 */
module Diff {
  import opened Text
  import opened Json
  import opened Canonical
  import opened Preflight
  import opened Snapshots

  datatype Field = TitleField | LogsourceField | ConditionField | TimeframeField

  datatype Summary = Summary(
    fieldsChanged: seq<Field>, added: seq<Str>, removed: seq<Str>, modified: seq<Str>, hasChanges: bool)

  // dict.get: None both for a missing key and for a null.
  function GetOrNull(es: seq<Entry>, k: Str): Value {
    if Has(es, k) then Get(es, k) else Null
  }

  predicate NoneOrEq(v: Value, w: Value) {
    (v.Null? && w.Null?) || PyEq(v, w)
  }

  // The entries of es whose key is in names.
  function Restrict(es: seq<Entry>, names: set<Str>): seq<Entry> {
    if es == [] then [] else (if es[0].key in names then [es[0]] else []) + Restrict(es[1..], names)
  }

  function KeyList(es: seq<Entry>): (ks: seq<Str>)
    ensures |ks| == |es| && forall i :: 0 <= i < |es| ==> ks[i] == es[i].key
  {
    seq(|es|, i requires 0 <= i < |es| => es[i].key)
  }

  // sorted(names), for names that are keys of es
  function SortedNames(es: seq<Entry>, names: set<Str>): seq<Str> {
    KeyList(SortEntries(Restrict(es, names)))
  }

  function ModifiedNames(old_: seq<Entry>, new_: seq<Entry>): set<Str> {
    set k | k in SelectorNames(old_) * SelectorNames(new_) && Has(old_, k) && Has(new_, k)
            && !PyEq(Get(old_, k), Get(new_, k))
  }

  function FieldsChanged(d: Draft, e: Draft): seq<Field> {
    (if d.title != e.title then [TitleField] else [])
    + (if !PyEq(Dict(d.logsource), Dict(e.logsource)) then [LogsourceField] else [])
    + (if !NoneOrEq(GetOrNull(d.detection, CONDITION), GetOrNull(e.detection, CONDITION)) then [ConditionField] else [])
    + (if !NoneOrEq(GetOrNull(d.detection, TIMEFRAME), GetOrNull(e.detection, TIMEFRAME)) then [TimeframeField] else [])
  }

  // summarize_rule_version_changes
  function Summarize(previous: Value, current: Value): Summary
    requires HasDraftShape(previous) && HasDraftShape(current)
  {
    var d, e := DraftOf(previous), DraftOf(current);
    var fields := FieldsChanged(d, e);
    var added := SortedNames(e.detection, SelectorNames(e.detection) - SelectorNames(d.detection));
    var removed := SortedNames(d.detection, SelectorNames(d.detection) - SelectorNames(e.detection));
    var modified := SortedNames(d.detection, ModifiedNames(d.detection, e.detection));
    Summary(fields, added, removed, modified, fields != [] || added != [] || removed != [] || modified != [])
  }

  // Sorted lists

  ghost predicate SortedStrings(ks: seq<Str>) {
    forall i, j :: 0 <= i < j < |ks| ==> Less(ks[i], ks[j])
  }

  lemma {:induction false} RestrictKeeps(es: seq<Entry>, names: set<Str>)
    requires UniqueKeys(es)
    ensures UniqueKeys(Restrict(es, names))
    ensures forall e :: e in Restrict(es, names) <==> e in es && e.key in names
  {
    if es != [] {
      assert es == [es[0]] + es[1..];
      UniqueUncons(es[0], es[1..]);
      RestrictKeeps(es[1..], names);
      var rest := Restrict(es[1..], names);
      if es[0].key in names {
        forall i, j | 0 <= i < j < |[es[0]] + rest| ensures ([es[0]] + rest)[i].key != ([es[0]] + rest)[j].key {
          assert rest[j - 1] in rest;
        }
      }
    }
  }

  // The list of names is sorted, without repetition, and has exactly the names asked for.
  lemma SortedNamesExact(es: seq<Entry>, names: set<Str>)
    requires UniqueKeys(es) && names <= Keys(es)
    ensures SortedStrings(SortedNames(es, names))
    ensures forall k :: k in SortedNames(es, names) <==> k in names
  {
    var kept := Restrict(es, names);
    RestrictKeeps(es, names);
    SortIsSorted(kept);
    forall k ensures k in KeyList(SortEntries(kept)) <==> k in names {
      KeyListed(SortEntries(kept), k);
      KeyOfKept(es, names, kept, SortEntries(kept), k);
    }
  }

  lemma KeyListed(es: seq<Entry>, k: Str)
    ensures k in KeyList(es) <==> exists e :: e in es && e.key == k
  {
    if k in KeyList(es) {
      var i :| 0 <= i < |es| && es[i].key == k;
      assert es[i] in es;
    }
    if e :| e in es && e.key == k {
      var i :| 0 <= i < |es| && es[i] == e;
      assert KeyList(es)[i] == k;
    }
  }

  lemma KeyOfKept(es: seq<Entry>, names: set<Str>, kept: seq<Entry>, sorted: seq<Entry>, k: Str)
    requires names <= Keys(es)
    requires forall e :: e in kept <==> e in es && e.key in names
    requires forall e :: e in sorted <==> e in kept
    ensures (exists e :: e in sorted && e.key == k) <==> k in names
  {
    if k in names {
      var e :| e in es && e.key == k;
      assert e in sorted;
    }
  }

  lemma {:induction false} SortedStringsDetermined(a: seq<Str>, b: seq<Str>)
    requires SortedStrings(a) && SortedStrings(b) && forall k :: k in a <==> k in b
    ensures a == b
    decreases |a|
  {
    if a != [] {
      assert a[0] in b;
    }
    if b != [] {
      assert b[0] in a;
      LessTotal(a[0], b[0]);
      var i :| 0 <= i < |a| && a[i] == b[0];
      var j :| 0 <= j < |b| && b[j] == a[0];
      assert a[0] == b[0];
      forall k ensures k in a[1..] <==> k in b[1..] {
        LessIrreflexive(a[0]);
        assert a == [a[0]] + a[1..] && b == [b[0]] + b[1..];
        assert k in a <==> k in b;
        SortedTailLacksHead(a);
        SortedTailLacksHead(b);
      }
      SortedStringsDetermined(a[1..], b[1..]);
    }
  }

  lemma SortedTailLacksHead(a: seq<Str>)
    requires SortedStrings(a) && a != []
    ensures a[0] !in a[1..]
  {
    forall k | k in a[1..] ensures k != a[0] {
      var i :| 0 <= i < |a[1..]| && a[1..][i] == k;
      assert Less(a[0], a[i + 1]);
      LessIrreflexive(k);
    }
  }

  // Bindings

  // The two dicts agree about k: both lack it, or both have it with equal values.
  ghost predicate AgreeAt(es: seq<Entry>, ws: seq<Entry>, k: Str) {
    (Has(es, k) <==> Has(ws, k)) && (Has(es, k) && Has(ws, k) ==> PyEq(Get(es, k), Get(ws, k)))
  }

  lemma HasKey(es: seq<Entry>, k: Str)
    ensures Has(es, k) <==> k in Keys(es)
  {
    if k in Keys(es) {
      KeyAt(es, k);
    }
    if i :| 0 <= i < |es| && es[i].key == k {
      AtKey(es, i);
    }
  }

  lemma GetMember(es: seq<Entry>, e: Entry)
    requires UniqueKeys(es) && e in es
    ensures Has(es, e.key) && Get(es, e.key) == e.value
  {
    var i :| 0 <= i < |es| && es[i] == e;
    GetAt(es, i);
  }

  // Two dicts are equal exactly when they agree about every key.
  lemma EqualAgree(es: seq<Entry>, ws: seq<Entry>)
    requires UniqueKeys(es) && UniqueKeys(ws)
    ensures PyEqEntries(es, ws) <==> forall k :: AgreeAt(es, ws, k)
  {
    if PyEqEntries(es, ws) {
      forall k ensures AgreeAt(es, ws, k) {
        HasKey(es, k);
        HasKey(ws, k);
        if Has(es, k) {
          var i :| 0 <= i < |es| && es[i] == Entry(k, Get(es, k));
          var j :| 0 <= j < |ws| && ws[j] == Entry(k, Get(ws, k));
        }
      }
    }
    if forall k :: AgreeAt(es, ws, k) {
      forall k ensures k in Keys(es) <==> k in Keys(ws) {
        HasKey(es, k);
        HasKey(ws, k);
        assert AgreeAt(es, ws, k);
      }
      forall i, j | 0 <= i < |es| && 0 <= j < |ws| && es[i].key == ws[j].key
        ensures PyEq(es[i].value, ws[j].value)
      {
        GetAt(es, i);
        GetAt(ws, j);
        assert AgreeAt(es, ws, es[i].key);
      }
    }
  }

  lemma EqReflexive(v: Value)
    requires WellFormed(v)
    ensures PyEq(v, v)
  {
    SameReflexive(v);
    SameIsEqual(v, v);
  }

  // Two snapshots are equal exactly when their three parts are.
  lemma EqualParts(u: Value, v: Value)
    requires HasDraftShape(u) && HasDraftShape(v) && UniqueKeys(u.entries) && UniqueKeys(v.entries)
    ensures var d, e := DraftOf(u), DraftOf(v);
            PyEq(u, v) <==> d.title == e.title && PyEq(Dict(d.logsource), Dict(e.logsource))
                            && PyEqEntries(d.detection, e.detection)
  {
    EqualAgree(u.entries, v.entries);
    forall k ensures k in {TITLE, LOGSOURCE, DETECTION} <==> Has(u.entries, k)
             ensures k in {TITLE, LOGSOURCE, DETECTION} <==> Has(v.entries, k)
    {
      HasKey(u.entries, k);
      HasKey(v.entries, k);
    }
    if PyEq(u, v) {
      assert AgreeAt(u.entries, v.entries, TITLE) && AgreeAt(u.entries, v.entries, LOGSOURCE)
             && AgreeAt(u.entries, v.entries, DETECTION);
    }
  }

  // What the decoder lets through: no null among the condition and the time frame, so that an
  // absent time frame differs from every present one.
  ghost predicate Diffable(v: Value) {
    && WellFormed(v) && HasDraftShape(v) && WellFormed(Dump(DraftOf(v)))
    && var detection := DraftOf(v).detection;
    && UniqueKeys(detection)
    && !(Has(detection, CONDITION) && Get(detection, CONDITION).Null?)
    && !(Has(detection, TIMEFRAME) && Get(detection, TIMEFRAME).Null?)
  }

  lemma AcceptedIsDiffable(v: Value, unicode: Unicode, codec: FloatCodec)
    requires WellFormed(v) && Accepts(v, unicode, codec)
    ensures Diffable(v)
  {
    PartsWellFormed(v);
    DumpKeepsUnique(DraftOf(v));
    NoNulls(DraftOf(v).detection, unicode);
  }

  lemma DumpKeepsUnique(d: Draft)
    requires WellFormed(Dump(d))
    ensures WellFormed(Dict(d.logsource)) && WellFormed(Dict(d.detection)) && UniqueKeys(d.detection)
  {
    var es := Dump(d).entries;
    assert WellFormed(es[1].value) && WellFormed(es[2].value);
  }

  lemma NoNulls(es: seq<Entry>, unicode: Unicode)
    requires ValidDetection(es, unicode)
    ensures !(Has(es, CONDITION) && Get(es, CONDITION).Null?)
    ensures !(Has(es, TIMEFRAME) && Get(es, TIMEFRAME).Null?)
  {
    FieldNamesDiffer();
    forall i | 0 <= i < |es| && es[i].key in {CONDITION, TIMEFRAME} ensures !es[i].value.Null? {
      assert ValidDetectionEntry(es[i], SelectorNames(es), unicode);
      if es[i].key == CONDITION {
        assert ValidCondition(ConditionsOf(es[i].value)[0], SelectorNames(es), unicode);
      }
    }
  }

  // What the summary lists

  ghost predicate ListsName(s: Summary, name: Str) {
    name in s.added || name in s.removed || name in s.modified
  }

  lemma FieldsAreExact(d: Draft, e: Draft)
    ensures TitleField in FieldsChanged(d, e) <==> d.title != e.title
    ensures LogsourceField in FieldsChanged(d, e) <==> !PyEq(Dict(d.logsource), Dict(e.logsource))
    ensures ConditionField in FieldsChanged(d, e) <==>
            !NoneOrEq(GetOrNull(d.detection, CONDITION), GetOrNull(e.detection, CONDITION))
    ensures TimeframeField in FieldsChanged(d, e) <==>
            !NoneOrEq(GetOrNull(d.detection, TIMEFRAME), GetOrNull(e.detection, TIMEFRAME))
  {
  }

  // dict.get tells an absent key from a present one unless null is bound to it.
  lemma GetTellsApart(es: seq<Entry>, ws: seq<Entry>, k: Str)
    requires !(Has(es, k) && Get(es, k).Null?) && !(Has(ws, k) && Get(ws, k).Null?)
    ensures NoneOrEq(GetOrNull(es, k), GetOrNull(ws, k)) <==> AgreeAt(es, ws, k)
  {
  }

  lemma DisagreementIsListed(es: seq<Entry>, ws: seq<Entry>, k: Str)
    ensures k !in RESERVED && !AgreeAt(es, ws, k) <==>
            || k in SelectorNames(ws) - SelectorNames(es)
            || k in SelectorNames(es) - SelectorNames(ws)
            || k in ModifiedNames(es, ws)
  {
    HasKey(es, k);
    HasKey(ws, k);
  }

  // The lists say exactly where the two drafts disagree.
  ghost predicate Describes(s: Summary, d: Draft, e: Draft) {
    && (TitleField in s.fieldsChanged <==> d.title != e.title)
    && (LogsourceField in s.fieldsChanged <==> !PyEq(Dict(d.logsource), Dict(e.logsource)))
    && (ConditionField in s.fieldsChanged <==> !AgreeAt(d.detection, e.detection, CONDITION))
    && (TimeframeField in s.fieldsChanged <==> !AgreeAt(d.detection, e.detection, TIMEFRAME))
    && forall k :: ListsName(s, k) <==> k !in RESERVED && !AgreeAt(d.detection, e.detection, k)
  }

  lemma SummaryListsDisagreements(u: Value, v: Value)
    requires Diffable(u) && Diffable(v)
    ensures Describes(Summarize(u, v), DraftOf(u), DraftOf(v))
  {
    var d, e := DraftOf(u), DraftOf(v);
    FieldsAreExact(d, e);
    GetTellsApart(d.detection, e.detection, CONDITION);
    GetTellsApart(d.detection, e.detection, TIMEFRAME);
    NamesAreExact(u, v);
  }

  lemma NamesAreExact(u: Value, v: Value)
    requires HasDraftShape(u) && HasDraftShape(v)
    requires UniqueKeys(DraftOf(u).detection) && UniqueKeys(DraftOf(v).detection)
    ensures forall k :: ListsName(Summarize(u, v), k) <==>
                        k !in RESERVED && !AgreeAt(DraftOf(u).detection, DraftOf(v).detection, k)
  {
    var d, e := DraftOf(u), DraftOf(v);
    ListsAreExact(d, e);
    forall k ensures ListsName(Summarize(u, v), k) <==> k !in RESERVED && !AgreeAt(d.detection, e.detection, k) {
      DisagreementIsListed(d.detection, e.detection, k);
    }
  }

  lemma ListsAreExact(d: Draft, e: Draft)
    requires UniqueKeys(d.detection) && UniqueKeys(e.detection)
    ensures var names, others := SelectorNames(d.detection), SelectorNames(e.detection);
            && (forall k :: k in SortedNames(e.detection, others - names) <==> k in others - names)
            && (forall k :: k in SortedNames(d.detection, names - others) <==> k in names - others)
            && (forall k :: k in SortedNames(d.detection, ModifiedNames(d.detection, e.detection))
                            <==> k in ModifiedNames(d.detection, e.detection))
  {
    var names, others := SelectorNames(d.detection), SelectorNames(e.detection);
    SortedNamesExact(e.detection, others - names);
    SortedNamesExact(d.detection, names - others);
    SortedNamesExact(d.detection, ModifiedNames(d.detection, e.detection));
  }

  // Which list a selector is in: added, removed, or bound to something else in the new snapshot.
  lemma ListsSayWhatHappened(u: Value, v: Value, k: Str)
    requires Diffable(u) && Diffable(v)
    ensures var before, after, s := DraftOf(u).detection, DraftOf(v).detection, Summarize(u, v);
            var selector := k != CONDITION && k != TIMEFRAME;
            && (k in s.added <==> selector && !Has(before, k) && Has(after, k))
            && (k in s.removed <==> selector && Has(before, k) && !Has(after, k))
            && (k in s.modified <==>
                  selector && Has(before, k) && Has(after, k) && MeaningOf(Get(before, k)) != MeaningOf(Get(after, k)))
  {
    DumpKeepsUnique(DraftOf(u));
    DumpKeepsUnique(DraftOf(v));
    SelectorListed(DraftOf(u), DraftOf(v), k);
  }

  lemma SelectorListed(d: Draft, e: Draft, k: Str)
    requires WellFormed(Dict(d.detection)) && WellFormed(Dict(e.detection))
    ensures var before, after := d.detection, e.detection;
            var names, others := SelectorNames(before), SelectorNames(after);
            var selector := k != CONDITION && k != TIMEFRAME;
            && (k in SortedNames(after, others - names) <==> selector && !Has(before, k) && Has(after, k))
            && (k in SortedNames(before, names - others) <==> selector && Has(before, k) && !Has(after, k))
            && (k in SortedNames(before, ModifiedNames(before, after)) <==>
                  selector && Has(before, k) && Has(after, k) && MeaningOf(Get(before, k)) != MeaningOf(Get(after, k)))
  {
    ListsAreExact(d, e);
    HasKey(d.detection, k);
    HasKey(e.detection, k);
    ModifiedMeansAnother(d.detection, e.detection, k);
  }

  lemma ModifiedMeansAnother(es: seq<Entry>, ws: seq<Entry>, k: Str)
    requires WellFormed(Dict(es)) && WellFormed(Dict(ws))
    ensures k in ModifiedNames(es, ws) <==>
            k != CONDITION && k != TIMEFRAME && Has(es, k) && Has(ws, k)
            && MeaningOf(Get(es, k)) != MeaningOf(Get(ws, k))
  {
    HasKey(es, k);
    HasKey(ws, k);
    if Has(es, k) && Has(ws, k) {
      ValueAt(es, k);
      ValueAt(ws, k);
      EqComparesMeanings(Get(es, k), Get(ws, k));
    }
  }

  function Rank(f: Field): nat {
    match f
    case TitleField => 0
    case LogsourceField => 1
    case ConditionField => 2
    case TimeframeField => 3
  }

  // The three lists are sorted and have no name in common; no name is listed twice, nor is a field.
  lemma ListsAreSortedAndDisjoint(u: Value, v: Value)
    requires Diffable(u) && Diffable(v)
    ensures var s := Summarize(u, v);
            && SortedStrings(s.added) && SortedStrings(s.removed) && SortedStrings(s.modified)
            && (forall i, j :: 0 <= i < j < |s.fieldsChanged| ==> Rank(s.fieldsChanged[i]) < Rank(s.fieldsChanged[j]))
            && forall k :: !(k in s.added && k in s.removed) && !(k in s.added && k in s.modified)
                           && !(k in s.removed && k in s.modified)
  {
    var d, e := DraftOf(u), DraftOf(v);
    var names, others := SelectorNames(d.detection), SelectorNames(e.detection);
    SortedNamesExact(e.detection, others - names);
    SortedNamesExact(d.detection, names - others);
    SortedNamesExact(d.detection, ModifiedNames(d.detection, e.detection));
    FieldsInOrder(d, e);
  }

  lemma FieldsInOrder(d: Draft, e: Draft)
    ensures var fs := FieldsChanged(d, e); forall i, j :: 0 <= i < j < |fs| ==> Rank(fs[i]) < Rank(fs[j])
  {
  }

  ghost predicate ListsNothing(s: Summary) {
    (forall f :: f !in s.fieldsChanged) && forall k :: !ListsName(s, k)
  }

  lemma ChangesAreListed(u: Value, v: Value)
    requires HasDraftShape(u) && HasDraftShape(v)
    ensures Summarize(u, v).hasChanges <==> !ListsNothing(Summarize(u, v))
  {
    var s := Summarize(u, v);
    assert s.added != [] ==> ListsName(s, s.added[0]);
    assert s.removed != [] ==> ListsName(s, s.removed[0]);
    assert s.modified != [] ==> ListsName(s, s.modified[0]);
    assert s.fieldsChanged != [] ==> s.fieldsChanged[0] in s.fieldsChanged;
  }

  lemma NothingListedIsAgreement(s: Summary, d: Draft, e: Draft)
    requires Describes(s, d, e) && UniqueKeys(d.detection) && UniqueKeys(e.detection)
    ensures ListsNothing(s) <==>
            d.title == e.title && PyEq(Dict(d.logsource), Dict(e.logsource)) && PyEqEntries(d.detection, e.detection)
  {
    EqualAgree(d.detection, e.detection);
    if ListsNothing(s) {
      forall k ensures AgreeAt(d.detection, e.detection, k) {
        assert !ListsName(s, k);
      }
    } else if f :| f in s.fieldsChanged {
      match f
      case TitleField =>
      case LogsourceField =>
      case ConditionField =>
      case TimeframeField =>
    }
  }

  // The summary reports a change exactly when the "unchanged" check would find the snapshots unequal.
  lemma ChangesAreInequality(u: Value, v: Value)
    requires Diffable(u) && Diffable(v)
    ensures Summarize(u, v).hasChanges <==> !PyEq(u, v)
  {
    ChangesAreListed(u, v);
    NothingListedIsEquality(u, v);
  }

  lemma NothingListedIsEquality(u: Value, v: Value)
    requires Diffable(u) && Diffable(v)
    ensures ListsNothing(Summarize(u, v)) <==> PyEq(u, v)
  {
    EqualParts(u, v);
    SummaryListsDisagreements(u, v);
    NothingListedIsAgreement(Summarize(u, v), DraftOf(u), DraftOf(v));
  }

  // Patching

  function ChosenKeys(fields: set<Field>, names: set<Str>): set<Str> {
    names + (if ConditionField in fields then {CONDITION} else {})
    + (if TimeframeField in fields then {TIMEFRAME} else {})
  }

  // The old dict with the bindings of the chosen keys replaced by the new dict's: set where the new
  // dict has the key, deleted where it has not.
  function PatchEntries(es: seq<Entry>, ws: seq<Entry>, chosen: set<Str>): seq<Entry> {
    Restrict(es, Keys(es) - chosen) + Restrict(ws, chosen)
  }

  function Patch(d: Draft, e: Draft, fields: set<Field>, names: set<Str>): Draft {
    Draft(if TitleField in fields then e.title else d.title,
          if LogsourceField in fields then e.logsource else d.logsource,
          PatchEntries(d.detection, e.detection, ChosenKeys(fields, names)))
  }

  lemma PatchedMembers(es: seq<Entry>, ws: seq<Entry>, chosen: set<Str>)
    requires UniqueKeys(es) && UniqueKeys(ws)
    ensures UniqueKeys(PatchEntries(es, ws, chosen))
    ensures forall e :: e in PatchEntries(es, ws, chosen) <==>
                        (e in es && e.key !in chosen) || (e in ws && e.key in chosen)
  {
    var kept, taken := Restrict(es, Keys(es) - chosen), Restrict(ws, chosen);
    RestrictKeeps(es, Keys(es) - chosen);
    RestrictKeeps(ws, chosen);
    var all := kept + taken;
    forall i, j | 0 <= i < j < |all| ensures all[i].key != all[j].key {
      if i < |kept| <= j {
        assert kept[i] in kept && taken[j - |kept|] in taken;
      }
    }
  }

  // A patched dict agrees with the new one about a key exactly when the key was patched or needed
  // no patching.
  lemma PatchedAgree(es: seq<Entry>, ws: seq<Entry>, chosen: set<Str>, k: Str)
    requires UniqueKeys(es) && WellFormed(Dict(ws))
    ensures AgreeAt(PatchEntries(es, ws, chosen), ws, k) <==> k in chosen || AgreeAt(es, ws, k)
  {
    var ps := PatchEntries(es, ws, chosen);
    PatchedMembers(es, ws, chosen);
    var from := if k in chosen then ws else es;
    if Has(from, k) {
      assert Entry(k, Get(from, k)) in from;
      GetMember(ps, Entry(k, Get(from, k)));
    }
    assert Has(ps, k) ==> Has(from, k) by {
      if Has(ps, k) {
        assert Entry(k, Get(ps, k)) in ps;
      }
    }
    if Has(ws, k) {
      ValueAt(ws, k);
      EqReflexive(Get(ws, k));
    }
  }

  // The summary is an exact description of a patch: replacing the listed fields and selectors - and
  // perhaps others - turns the old snapshot into the new one, and leaving out any of them does not.
  lemma SummaryIsTheLeastPatch(u: Value, v: Value, fields: set<Field>, names: set<Str>)
    requires Diffable(u) && Diffable(v) && names !! RESERVED
    ensures PyEq(Dump(Patch(DraftOf(u), DraftOf(v), fields, names)), Dump(DraftOf(v))) <==>
            Covers(fields, names, Summarize(u, v))
  {
    SummaryListsDisagreements(u, v);
    DumpKeepsUnique(DraftOf(v));
    DescribedPatch(Summarize(u, v), DraftOf(u), DraftOf(v), fields, names);
  }

  ghost predicate Covers(fields: set<Field>, names: set<Str>, s: Summary) {
    && (forall f :: f in s.fieldsChanged ==> f in fields)
    && (forall k :: ListsName(s, k) ==> k in names)
  }

  lemma DescribedPatch(s: Summary, d: Draft, e: Draft, fields: set<Field>, names: set<Str>)
    requires Describes(s, d, e) && names !! RESERVED
    requires UniqueKeys(d.detection) && WellFormed(Dict(e.logsource)) && WellFormed(Dict(e.detection))
    ensures PyEq(Dump(Patch(d, e, fields, names)), Dump(e)) <==> Covers(fields, names, s)
  {
    var p, chosen := Patch(d, e, fields, names), ChosenKeys(fields, names);
    PatchedMembers(d.detection, e.detection, chosen);
    EqualDumps(p, e);
    EqualAgree(p.detection, e.detection);
    EqReflexive(Dict(e.logsource));
    forall k ensures AgreeAt(p.detection, e.detection, k) <==> k in chosen || AgreeAt(d.detection, e.detection, k) {
      PatchedAgree(d.detection, e.detection, chosen, k);
    }
    PatchedFields(s, fields, names, d.detection, e.detection);
    FieldsCovered(s.fieldsChanged, fields);
  }

  lemma FieldsCovered(changed: seq<Field>, fields: set<Field>)
    ensures (forall f :: f in changed ==> f in fields) <==>
            && (TitleField in changed ==> TitleField in fields)
            && (LogsourceField in changed ==> LogsourceField in fields)
            && (ConditionField in changed ==> ConditionField in fields)
            && (TimeframeField in changed ==> TimeframeField in fields)
  {
    forall f | f in changed ensures f in {TitleField, LogsourceField, ConditionField, TimeframeField} {
      match f
      case TitleField =>
      case LogsourceField =>
      case ConditionField =>
      case TimeframeField =>
    }
  }

  lemma EqualDumps(d: Draft, e: Draft)
    ensures PyEq(Dump(d), Dump(e)) <==>
            d.title == e.title && PyEq(Dict(d.logsource), Dict(e.logsource)) && PyEqEntries(d.detection, e.detection)
  {
    DumpedParts(d);
    DumpedParts(e);
    EqualParts(Dump(d), Dump(e));
  }

  lemma PatchedFields(s: Summary, fields: set<Field>, names: set<Str>, es: seq<Entry>, ws: seq<Entry>)
    requires names !! RESERVED
    requires ConditionField in s.fieldsChanged <==> !AgreeAt(es, ws, CONDITION)
    requires TimeframeField in s.fieldsChanged <==> !AgreeAt(es, ws, TIMEFRAME)
    requires forall k :: ListsName(s, k) <==> k !in RESERVED && !AgreeAt(es, ws, k)
    ensures (forall k :: k in ChosenKeys(fields, names) || AgreeAt(es, ws, k)) <==>
            && (ConditionField in s.fieldsChanged ==> ConditionField in fields)
            && (TimeframeField in s.fieldsChanged ==> TimeframeField in fields)
            && (forall k :: ListsName(s, k) ==> k in names)
  {
    var chosen := ChosenKeys(fields, names);
    FieldNamesDiffer();
    if forall k :: k in chosen || AgreeAt(es, ws, k) {
      assert CONDITION in chosen || AgreeAt(es, ws, CONDITION);
      assert TIMEFRAME in chosen || AgreeAt(es, ws, TIMEFRAME);
    }
  }

  // Comparing the other way round

  lemma AgreeSymmetric(es: seq<Entry>, ws: seq<Entry>, k: Str)
    ensures AgreeAt(es, ws, k) <==> AgreeAt(ws, es, k)
  {
    if Has(es, k) && Has(ws, k) {
      EqBothWays(Get(es, k), Get(ws, k));
    }
  }

  lemma EqBothWays(v: Value, w: Value)
    ensures PyEq(v, w) <==> PyEq(w, v)
  {
    if PyEq(v, w) {
      EqSymmetric(v, w);
    }
    if PyEq(w, v) {
      EqSymmetric(w, v);
    }
  }

  // Swapping the versions swaps what was added and what was removed, and changes nothing else.
  lemma SwappingSwapsAddedAndRemoved(u: Value, v: Value)
    requires Diffable(u) && Diffable(v)
    ensures Summarize(v, u) == Summarize(u, v).(added := Summarize(u, v).removed, removed := Summarize(u, v).added)
  {
    var d, e := DraftOf(u), DraftOf(v);
    EqBothWays(Dict(d.logsource), Dict(e.logsource));
    EqBothWays(GetOrNull(d.detection, CONDITION), GetOrNull(e.detection, CONDITION));
    EqBothWays(GetOrNull(d.detection, TIMEFRAME), GetOrNull(e.detection, TIMEFRAME));
    ModifiedSymmetric(d, e);
  }

  lemma ModifiedSymmetric(d: Draft, e: Draft)
    requires UniqueKeys(d.detection) && UniqueKeys(e.detection)
    ensures SortedNames(d.detection, ModifiedNames(d.detection, e.detection))
            == SortedNames(e.detection, ModifiedNames(e.detection, d.detection))
  {
    var here, there := ModifiedNames(d.detection, e.detection), ModifiedNames(e.detection, d.detection);
    forall k ensures k in here <==> k in there {
      AgreeSymmetric(d.detection, e.detection, k);
    }
    assert here == there;
    SortedNamesExact(d.detection, here);
    SortedNamesExact(e.detection, here);
    SortedStringsDetermined(SortedNames(d.detection, here), SortedNames(e.detection, here));
  }

  // Comparing across a version

  lemma AgreeTransitive(es: seq<Entry>, ws: seq<Entry>, zs: seq<Entry>, k: Str)
    requires AgreeAt(es, ws, k) && AgreeAt(ws, zs, k)
    ensures AgreeAt(es, zs, k)
  {
    if Has(es, k) {
      EqTransitive(Get(es, k), Get(ws, k), Get(zs, k));
    }
  }

  // What changed over two versions changed in one of the two steps.
  lemma StepsCoverTheSpan(u: Value, v: Value, w: Value)
    requires Diffable(u) && Diffable(v) && Diffable(w)
    ensures Spans(Summarize(u, v), Summarize(v, w), Summarize(u, w))
  {
    SummaryListsDisagreements(u, w);
    SummaryListsDisagreements(u, v);
    SummaryListsDisagreements(v, w);
    DescribedSpan(Summarize(u, v), Summarize(v, w), Summarize(u, w), DraftOf(u), DraftOf(v), DraftOf(w));
  }

  ghost predicate Spans(first: Summary, second: Summary, whole: Summary) {
    && (forall k :: ListsName(whole, k) ==> ListsName(first, k) || ListsName(second, k))
    && (forall f :: f in whole.fieldsChanged ==> f in first.fieldsChanged || f in second.fieldsChanged)
  }

  lemma DescribedSpan(first: Summary, second: Summary, whole: Summary, d: Draft, m: Draft, e: Draft)
    requires Describes(first, d, m) && Describes(second, m, e) && Describes(whole, d, e)
    ensures Spans(first, second, whole)
  {
    forall k | AgreeAt(d.detection, m.detection, k) && AgreeAt(m.detection, e.detection, k)
      ensures AgreeAt(d.detection, e.detection, k)
    {
      AgreeTransitive(d.detection, m.detection, e.detection, k);
    }
    if PyEq(Dict(d.logsource), Dict(m.logsource)) && PyEq(Dict(m.logsource), Dict(e.logsource)) {
      EqTransitive(Dict(d.logsource), Dict(m.logsource), Dict(e.logsource));
    }
    FieldsCovered(whole.fieldsChanged, set f | f in first.fieldsChanged || f in second.fieldsChanged);
  }
}
