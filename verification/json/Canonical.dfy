/**
 Values that differ only in key order, values Python calls equal, and the sorted
 form json.dumps writes: one text for each mapping.
 */
module Canonical {
  import opened Text
  import opened Json
  import opened RoundTrip

  // Every dict has unique keys, and every number is finite.
  ghost predicate WellFormed(v: Value)
    decreases v
  {
    match v
    case NonFinite => false
    case List(items) => forall i :: 0 <= i < |items| ==> WellFormed(items[i])
    case Dict(es) => UniqueKeys(es) && forall i :: 0 <= i < |es| ==> WellFormed(es[i].value)
    case _ => true
  }

  // The same value but for the order of keys, at every level.
  ghost predicate Same(v: Value, w: Value)
    decreases v
  {
    match v
    case List(items) =>
      w.List? && |items| == |w.items| && forall i :: 0 <= i < |items| ==> Same(items[i], w.items[i])
    case Dict(es) => w.Dict? && SameEntries(es, w.entries)
    case _ => v == w
  }

  ghost predicate SameEntries(es: seq<Entry>, ws: seq<Entry>)
    decreases es, 0
  {
    && Keys(es) == Keys(ws)
    && forall i, j :: 0 <= i < |es| && 0 <= j < |ws| && es[i].key == ws[j].key ==> Same(es[i].value, ws[j].value)
  }

  // Python's ==: dicts regardless of order, and True == 1 == 1.0.

  predicate IsNumeric(v: Value) {
    v.Bool? || v.Int? || v.Float?
  }

  function Number(v: Value): real
    requires IsNumeric(v)
  {
    match v
    case Bool(b) => if b then 1.0 else 0.0
    case Int(n) => n as real
    case Float(f) => f
  }

  predicate PyEq(v: Value, w: Value)
    decreases v
  {
    match v
    case List(items) =>
      w.List? && |items| == |w.items| && forall i :: 0 <= i < |items| ==> PyEq(items[i], w.items[i])
    case Dict(es) => w.Dict? && PyEqEntries(es, w.entries)
    case NonFinite => false
    case _ => if IsNumeric(v) then IsNumeric(w) && Number(v) == Number(w) else v == w
  }

  predicate PyEqEntries(es: seq<Entry>, ws: seq<Entry>)
    decreases es, 0
  {
    && Keys(es) == Keys(ws)
    && forall i, j :: 0 <= i < |es| && 0 <= j < |ws| && es[i].key == ws[j].key ==> PyEq(es[i].value, ws[j].value)
  }

  // What a value is to ==: numbers by what they come to, lists by their items, dicts by what each
  // key is bound to. It is written apart from PyEq.
  datatype Meaning =
    | NoValue | NoNumber | Amount(r: real) | Characters(s: Str)
    | Sequence(parts: seq<Meaning>) | Mapping(bound: map<Str, Meaning>)

  function MeaningOf(v: Value): Meaning
    decreases v, 0
  {
    match v
    case Null => NoValue
    case NonFinite => NoNumber
    case Bool(b) => Amount(if b then 1.0 else 0.0)
    case Int(n) => Amount(n as real)
    case Float(f) => Amount(f)
    case String(s) => Characters(s)
    case List(items) => Sequence(ItemMeanings(items))
    case Dict(es) => Mapping(Bindings(es))
  }

  function ItemMeanings(items: seq<Value>): (r: seq<Meaning>)
    ensures |r| == |items|
    decreases items, 1
  {
    if items == [] then [] else [MeaningOf(items[0])] + ItemMeanings(items[1..])
  }

  function Bindings(es: seq<Entry>): map<Str, Meaning>
    decreases es, 1
  {
    if es == [] then map[] else Bindings(es[1..])[es[0].key := MeaningOf(es[0].value)]
  }

  lemma {:induction false} ItemMeaningsAt(items: seq<Value>, i: nat)
    requires i < |items|
    ensures ItemMeanings(items)[i] == MeaningOf(items[i])
  {
    if i > 0 {
      ItemMeaningsAt(items[1..], i - 1);
    }
  }

  lemma {:induction false} BoundKeys(es: seq<Entry>)
    ensures Bindings(es).Keys == Keys(es)
  {
    if es != [] {
      BoundKeys(es[1..]);
      assert es == [es[0]] + es[1..];
      assert Keys(es) == {es[0].key} + Keys(es[1..]);
    }
  }

  lemma {:induction false} BindingAt(es: seq<Entry>, i: nat)
    requires UniqueKeys(es) && i < |es|
    ensures es[i].key in Bindings(es) && Bindings(es)[es[i].key] == MeaningOf(es[i].value)
  {
    if i > 0 {
      BindingAt(es[1..], i - 1);
      assert es[1..][i - 1] == es[i];
    }
  }

  // Python's == compares meanings.
  lemma {:induction false} EqComparesMeanings(v: Value, w: Value)
    requires WellFormed(v) && WellFormed(w)
    ensures PyEq(v, w) <==> MeaningOf(v) == MeaningOf(w)
    decreases v
  {
    match v
    case List(items) =>
      if w.List? && |items| == |w.items| {
        forall i | 0 <= i < |items|
          ensures PyEq(items[i], w.items[i]) <==> ItemMeanings(items)[i] == ItemMeanings(w.items)[i]
        {
          ItemMeaningsAt(items, i);
          ItemMeaningsAt(w.items, i);
          EqComparesMeanings(items[i], w.items[i]);
        }
        ItemsEqual(items, w.items);
      }
    case Dict(es) =>
      if w.Dict? {
        forall i, j | 0 <= i < |es| && 0 <= j < |w.entries| && es[i].key == w.entries[j].key
          ensures PyEq(es[i].value, w.entries[j].value)
                  <==> MeaningOf(es[i].value) == MeaningOf(w.entries[j].value)
        {
          EqComparesMeanings(es[i].value, w.entries[j].value);
        }
        EntriesEqual(es, w.entries);
      }
    case _ =>
  }

  lemma EqualNumbers(m: int, n: int, f: real, g: real, b: bool, c: bool)
    ensures PyEq(Int(m), Int(n)) <==> m == n
    ensures PyEq(Float(f), Float(g)) <==> f == g
    ensures PyEq(Bool(b), Bool(c)) <==> b == c
    ensures PyEq(Int(n), Float(f)) <==> f == n as real
    ensures PyEq(Bool(b), Int(n)) <==> n == if b then 1 else 0
  {
  }

  lemma ItemsEqual(items: seq<Value>, others: seq<Value>)
    requires |items| == |others|
    requires forall i :: 0 <= i < |items| ==>
                           (PyEq(items[i], others[i]) <==> ItemMeanings(items)[i] == ItemMeanings(others)[i])
    ensures (forall i :: 0 <= i < |items| ==> PyEq(items[i], others[i])) <==>
            ItemMeanings(items) == ItemMeanings(others)
  {
  }

  lemma EntriesEqual(es: seq<Entry>, ws: seq<Entry>)
    requires UniqueKeys(es) && UniqueKeys(ws)
    requires forall i, j :: 0 <= i < |es| && 0 <= j < |ws| && es[i].key == ws[j].key ==>
                              (PyEq(es[i].value, ws[j].value) <==> MeaningOf(es[i].value) == MeaningOf(ws[j].value))
    ensures PyEqEntries(es, ws) <==> Bindings(es) == Bindings(ws)
  {
    BoundKeys(es);
    BoundKeys(ws);
    if PyEqEntries(es, ws) {
      forall k | k in Bindings(es) ensures Bindings(es)[k] == Bindings(ws)[k] {
        KeyAt(es, k);
        KeyAt(ws, k);
        var i :| 0 <= i < |es| && es[i].key == k;
        var j :| 0 <= j < |ws| && ws[j].key == k;
        BindingAt(es, i);
        BindingAt(ws, j);
      }
    }
    if Bindings(es) == Bindings(ws) {
      forall i, j | 0 <= i < |es| && 0 <= j < |ws| && es[i].key == ws[j].key
        ensures PyEq(es[i].value, ws[j].value)
      {
        BindingAt(es, i);
        BindingAt(ws, j);
      }
    }
  }

  lemma KeyAt(es: seq<Entry>, k: Str)
    requires k in Keys(es)
    ensures exists i :: 0 <= i < |es| && es[i].key == k
  {
    var e :| e in es && e.key == k;
    var i :| 0 <= i < |es| && es[i] == e;
  }

  lemma AtKey(es: seq<Entry>, i: nat)
    requires i < |es|
    ensures es[i].key in Keys(es)
  {
    assert es[i] in es;
  }

  lemma ValueAt(es: seq<Entry>, k: Str)
    requires WellFormed(Dict(es)) && Has(es, k)
    ensures WellFormed(Get(es, k))
  {
    var i :| 0 <= i < |es| && es[i] == Entry(k, Get(es, k));
  }

  lemma {:induction false} SameIsEqual(v: Value, w: Value)
    requires WellFormed(v) && Same(v, w)
    ensures PyEq(v, w)
    decreases v
  {
    match v
    case List(items) =>
      forall i | 0 <= i < |items| ensures PyEq(items[i], w.items[i]) {
        SameIsEqual(items[i], w.items[i]);
      }
    case Dict(es) =>
      forall i, j | 0 <= i < |es| && 0 <= j < |w.entries| && es[i].key == w.entries[j].key
        ensures PyEq(es[i].value, w.entries[j].value)
      {
        SameIsEqual(es[i].value, w.entries[j].value);
      }
    case _ =>
  }

  lemma {:induction false} EqSymmetric(v: Value, w: Value)
    requires PyEq(v, w)
    ensures PyEq(w, v)
    decreases v
  {
    match v
    case List(items) =>
      forall i | 0 <= i < |items| ensures PyEq(w.items[i], items[i]) {
        EqSymmetric(items[i], w.items[i]);
      }
    case Dict(es) =>
      forall i, j | 0 <= i < |es| && 0 <= j < |w.entries| && es[i].key == w.entries[j].key
        ensures PyEq(w.entries[j].value, es[i].value)
      {
        EqSymmetric(es[i].value, w.entries[j].value);
      }
    case _ =>
  }

  lemma {:induction false} EqTransitive(u: Value, v: Value, w: Value)
    requires PyEq(u, v) && PyEq(v, w)
    ensures PyEq(u, w)
    decreases u
  {
    match u
    case List(items) =>
      forall i | 0 <= i < |items| ensures PyEq(items[i], w.items[i]) {
        EqTransitive(items[i], v.items[i], w.items[i]);
      }
    case Dict(es) =>
      forall i, j | 0 <= i < |es| && 0 <= j < |w.entries| && es[i].key == w.entries[j].key
        ensures PyEq(es[i].value, w.entries[j].value)
      {
        AtKey(es, i);
        KeyAt(v.entries, es[i].key);
        var m :| 0 <= m < |v.entries| && v.entries[m].key == es[i].key;
        EqTransitive(es[i].value, v.entries[m].value, w.entries[j].value);
      }
    case _ =>
  }

  lemma {:induction false} SameReflexive(v: Value)
    requires WellFormed(v)
    ensures Same(v, v)
    decreases v
  {
    match v
    case List(items) =>
      forall i | 0 <= i < |items| ensures Same(items[i], items[i]) {
        SameReflexive(items[i]);
      }
    case Dict(es) =>
      forall i, j | 0 <= i < |es| && 0 <= j < |es| && es[i].key == es[j].key ensures Same(es[i].value, es[j].value) {
        SameReflexive(es[i].value);
      }
    case _ =>
  }

  lemma {:induction false} SameSymmetric(v: Value, w: Value)
    requires Same(v, w)
    ensures Same(w, v)
    decreases v
  {
    match v
    case List(items) =>
      forall i | 0 <= i < |items| ensures Same(w.items[i], items[i]) {
        SameSymmetric(items[i], w.items[i]);
      }
    case Dict(es) =>
      forall i, j | 0 <= i < |es| && 0 <= j < |w.entries| && es[i].key == w.entries[j].key
        ensures Same(w.entries[j].value, es[i].value)
      {
        SameSymmetric(es[i].value, w.entries[j].value);
      }
    case _ =>
  }

  // Sorting

  lemma UniqueUncons(e: Entry, es: seq<Entry>)
    requires UniqueKeys([e] + es)
    ensures e.key !in Keys(es) && UniqueKeys(es)
  {
    var all := [e] + es;
    forall k | k in Keys(es) ensures k != e.key {
      KeyAt(es, k);
      var i :| 0 <= i < |es| && es[i].key == k;
      assert all[i + 1].key != all[0].key;
    }
    forall i, j | 0 <= i < j < |es| ensures es[i].key != es[j].key {
      assert all[i + 1].key != all[j + 1].key;
    }
  }

  ghost predicate SortedByKey(es: seq<Entry>) {
    forall i, j :: 0 <= i < j < |es| ==> Less(es[i].key, es[j].key)
  }

  lemma SortedCons(e: Entry, es: seq<Entry>)
    requires SortedByKey(es) && forall x :: x in es ==> Less(e.key, x.key)
    ensures SortedByKey([e] + es)
  {
    var all := [e] + es;
    forall i, j | 0 <= i < j < |all| ensures Less(all[i].key, all[j].key) {
      assert all[j] == es[j - 1] && es[j - 1] in es;
    }
  }

  lemma SortedTail(es: seq<Entry>)
    requires SortedByKey(es) && es != []
    ensures SortedByKey(es[1..]) && forall x :: x in es[1..] ==> Less(es[0].key, x.key)
  {
    forall x | x in es[1..] ensures Less(es[0].key, x.key) {
      var i :| 0 <= i < |es[1..]| && es[1..][i] == x;
      assert es[i + 1] == x;
    }
  }

  lemma {:induction false} InsertIsSorted(e: Entry, es: seq<Entry>)
    requires SortedByKey(es) && e.key !in Keys(es)
    ensures SortedByKey(InsertEntry(e, es))
    ensures forall x :: x in InsertEntry(e, es) <==> x == e || x in es
    ensures |InsertEntry(e, es)| == |es| + 1
  {
    if es != [] {
      SortedTail(es);
      AtKey(es, 0);
      LessTotal(e.key, es[0].key);
      assert es == [es[0]] + es[1..];
      if Less(e.key, es[0].key) {
        forall x | x in es ensures Less(e.key, x.key) {
          if x != es[0] {
            LessTransitive(e.key, es[0].key, x.key);
          }
        }
        SortedCons(e, es);
      } else {
        InsertIsSorted(e, es[1..]);
        SortedCons(es[0], InsertEntry(e, es[1..]));
      }
    }
  }

  lemma SortedIsUnique(es: seq<Entry>)
    requires SortedByKey(es)
    ensures UniqueKeys(es)
  {
    forall i, j | 0 <= i < j < |es| ensures es[i].key != es[j].key {
      LessIrreflexive(es[i].key);
    }
  }

  lemma {:induction false} SortIsSorted(es: seq<Entry>)
    requires UniqueKeys(es)
    ensures SortedByKey(SortEntries(es)) && UniqueKeys(SortEntries(es))
    ensures forall x :: x in SortEntries(es) <==> x in es
    ensures |SortEntries(es)| == |es|
  {
    if es != [] {
      assert es == [es[0]] + es[1..];
      UniqueUncons(es[0], es[1..]);
      SortIsSorted(es[1..]);
      InsertIsSorted(es[0], SortEntries(es[1..]));
    }
    SortedIsUnique(SortEntries(es));
  }

  lemma {:induction false} CanonItemsAt(items: seq<Value>, i: nat)
    requires i < |items|
    ensures CanonItems(items)[i] == Canon(items[i])
  {
    if i > 0 {
      CanonItemsAt(items[1..], i - 1);
    }
  }

  lemma {:induction false} CanonEntriesAt(es: seq<Entry>, i: nat)
    requires i < |es|
    ensures CanonEntries(es)[i] == Entry(es[i].key, Canon(es[i].value))
  {
    if i > 0 {
      CanonEntriesAt(es[1..], i - 1);
    }
  }

  lemma CanonEntriesUnique(es: seq<Entry>)
    requires UniqueKeys(es)
    ensures UniqueKeys(CanonEntries(es)) && Keys(CanonEntries(es)) == Keys(es)
  {
    var cs := CanonEntries(es);
    forall i | 0 <= i < |es| ensures cs[i].key == es[i].key {
      CanonEntriesAt(es, i);
    }
    forall k ensures k in Keys(cs) <==> k in Keys(es) {
      if k in Keys(cs) {
        KeyAt(cs, k);
        var i :| 0 <= i < |cs| && cs[i].key == k;
        AtKey(es, i);
      }
      if k in Keys(es) {
        KeyAt(es, k);
        var i :| 0 <= i < |es| && es[i].key == k;
        AtKey(cs, i);
      }
    }
  }

  // Each entry of the sorted dict is an entry of the original, its value in sorted form.
  lemma CanonEntryFrom(es: seq<Entry>, j: nat)
    requires UniqueKeys(es) && j < |SortEntries(CanonEntries(es))|
    ensures var e := SortEntries(CanonEntries(es))[j];
            exists i :: 0 <= i < |es| && es[i].key == e.key && e.value == Canon(es[i].value)
  {
    CanonEntriesUnique(es);
    SortIsSorted(CanonEntries(es));
    var e := SortEntries(CanonEntries(es))[j];
    assert e in CanonEntries(es);
    var i :| 0 <= i < |es| && CanonEntries(es)[i] == e;
    CanonEntriesAt(es, i);
  }

  lemma SortKeepsKeys(es: seq<Entry>)
    requires UniqueKeys(es)
    ensures Keys(SortEntries(es)) == Keys(es)
  {
    SortIsSorted(es);
  }

  // Sorting keys changes nothing but their order.
  lemma {:induction false} CanonIsSame(v: Value)
    requires WellFormed(v)
    ensures Same(v, Canon(v)) && WellFormed(Canon(v))
    decreases v
  {
    match v
    case List(items) =>
      forall i | 0 <= i < |items| ensures Same(items[i], CanonItems(items)[i]) && WellFormed(CanonItems(items)[i]) {
        CanonItemsAt(items, i);
        CanonIsSame(items[i]);
      }
    case Dict(es) =>
      var ws := SortEntries(CanonEntries(es));
      CanonEntriesUnique(es);
      SortIsSorted(CanonEntries(es));
      SortKeepsKeys(CanonEntries(es));
      forall j | 0 <= j < |ws|
        ensures WellFormed(ws[j].value)
        ensures forall i :: 0 <= i < |es| && es[i].key == ws[j].key ==> Same(es[i].value, ws[j].value)
      {
        CanonEntryFrom(es, j);
        var m :| 0 <= m < |es| && es[m].key == ws[j].key && ws[j].value == Canon(es[m].value);
        CanonIsSame(es[m].value);
        forall i | 0 <= i < |es| && es[i].key == ws[j].key ensures i == m {
        }
      }
    case _ =>
  }

  lemma CanonIsEqual(v: Value)
    requires WellFormed(v)
    ensures Same(v, Canon(v)) && WellFormed(Canon(v)) && PyEq(v, Canon(v)) && PyEq(Canon(v), v)
  {
    CanonIsSame(v);
    SameIsEqual(v, Canon(v));
    EqSymmetric(v, Canon(v));
  }

  lemma {:induction false} CanonIsPrintable(v: Value, codec: FloatCodec)
    requires Printable(v, codec)
    ensures Printable(Canon(v), codec)
    decreases v
  {
    match v
    case List(items) =>
      forall i | 0 <= i < |items| ensures Printable(CanonItems(items)[i], codec) {
        CanonItemsAt(items, i);
        CanonIsPrintable(items[i], codec);
      }
    case Dict(es) =>
      var ws := SortEntries(CanonEntries(es));
      CanonEntriesUnique(es);
      SortIsSorted(CanonEntries(es));
      forall j | 0 <= j < |ws| ensures NoPairs(ws[j].key) && Printable(ws[j].value, codec) {
        CanonEntryFrom(es, j);
        var m :| 0 <= m < |es| && es[m].key == ws[j].key && ws[j].value == Canon(es[m].value);
        CanonIsPrintable(es[m].value, codec);
      }
    case _ =>
  }

  // Two sorted dicts with the same keys and the same values are the same sequence.

  lemma {:induction false} SortedIsDetermined(es: seq<Entry>, ws: seq<Entry>)
    requires SortedByKey(es) && SortedByKey(ws) && forall x :: x in es <==> x in ws
    ensures es == ws
    decreases |es|
  {
    if es != [] {
      assert es[0] in ws;
    }
    if ws != [] {
      assert ws[0] in es;
      SortedTail(es);
      SortedTail(ws);
      assert es == [es[0]] + es[1..] && ws == [ws[0]] + ws[1..];
      LessTotal(es[0].key, ws[0].key);
      assert es[0] == ws[0];
      forall x ensures x in es[1..] <==> x in ws[1..] {
        LessIrreflexive(es[0].key);
        assert x in es <==> x in ws;
      }
      SortedIsDetermined(es[1..], ws[1..]);
    }
  }

  lemma SortedMember(es: seq<Entry>, e: Entry)
    requires UniqueKeys(es)
    ensures e in SortEntries(CanonEntries(es)) <==>
            exists i :: 0 <= i < |es| && e == Entry(es[i].key, Canon(es[i].value))
  {
    CanonEntriesUnique(es);
    SortIsSorted(CanonEntries(es));
    if e in CanonEntries(es) {
      var i :| 0 <= i < |es| && CanonEntries(es)[i] == e;
      CanonEntriesAt(es, i);
    }
    if i :| 0 <= i < |es| && e == Entry(es[i].key, Canon(es[i].value)) {
      CanonEntriesAt(es, i);
    }
  }

  // The sorted form is one for all orders of the keys.
  lemma {:induction false} SameCanon(v: Value, w: Value)
    requires WellFormed(v) && WellFormed(w) && Same(v, w)
    ensures Canon(v) == Canon(w)
    decreases v
  {
    match v
    case List(items) =>
      forall i | 0 <= i < |items| ensures CanonItems(items)[i] == CanonItems(w.items)[i] {
        CanonItemsAt(items, i);
        CanonItemsAt(w.items, i);
        SameCanon(items[i], w.items[i]);
      }
    case Dict(es) =>
      var a, b := SortEntries(CanonEntries(es)), SortEntries(CanonEntries(w.entries));
      forall i, j | 0 <= i < |es| && 0 <= j < |w.entries| && es[i].key == w.entries[j].key
        ensures Canon(es[i].value) == Canon(w.entries[j].value)
      {
        SameCanon(es[i].value, w.entries[j].value);
      }
      forall x ensures x in a <==> x in b {
        SameMembers(es, w.entries, x);
      }
      CanonEntriesUnique(es);
      CanonEntriesUnique(w.entries);
      SortIsSorted(CanonEntries(es));
      SortIsSorted(CanonEntries(w.entries));
      SortedIsDetermined(a, b);
    case _ =>
  }

  lemma SameMembers(es: seq<Entry>, ws: seq<Entry>, x: Entry)
    requires UniqueKeys(es) && UniqueKeys(ws) && Keys(es) == Keys(ws)
    requires forall i, j :: 0 <= i < |es| && 0 <= j < |ws| && es[i].key == ws[j].key ==>
                              Canon(es[i].value) == Canon(ws[j].value)
    ensures x in SortEntries(CanonEntries(es)) <==> x in SortEntries(CanonEntries(ws))
  {
    SortedMember(es, x);
    SortedMember(ws, x);
    if i :| 0 <= i < |es| && x == Entry(es[i].key, Canon(es[i].value)) {
      AtKey(es, i);
      KeyAt(ws, es[i].key);
      var j :| 0 <= j < |ws| && ws[j].key == es[i].key;
      assert x == Entry(ws[j].key, Canon(ws[j].value));
    }
    if j :| 0 <= j < |ws| && x == Entry(ws[j].key, Canon(ws[j].value)) {
      AtKey(ws, j);
      KeyAt(es, ws[j].key);
      var i :| 0 <= i < |es| && es[i].key == ws[j].key;
      assert x == Entry(es[i].key, Canon(es[i].value));
    }
  }

  // The stored text names the mapping: two values are written alike exactly when they differ in
  // nothing but key order.
  lemma TextNamesTheMapping(v: Value, w: Value, codec: FloatCodec)
    requires ExactCodec(codec) && Printable(v, codec) && Printable(w, codec)
    requires WellFormed(v) && WellFormed(w)
    ensures Dumps(v, codec) == Dumps(w, codec) <==> Same(v, w)
  {
    if Same(v, w) {
      SameCanon(v, w);
    }
    if Dumps(v, codec) == Dumps(w, codec) {
      CanonIsPrintable(v, codec);
      CanonIsPrintable(w, codec);
      LoadsUndoesPrint(Canon(v), codec);
      LoadsUndoesPrint(Canon(w), codec);
      CanonIsSame(v);
      CanonIsSame(w);
      SameSymmetric(w, Canon(w));
      SameTransitive(v, Canon(v), w);
    }
  }

  lemma {:induction false} SameTransitive(u: Value, v: Value, w: Value)
    requires Same(u, v) && Same(v, w)
    ensures Same(u, w)
    decreases u
  {
    match u
    case List(items) =>
      forall i | 0 <= i < |items| ensures Same(items[i], w.items[i]) {
        SameTransitive(items[i], v.items[i], w.items[i]);
      }
    case Dict(es) =>
      forall i, j | 0 <= i < |es| && 0 <= j < |w.entries| && es[i].key == w.entries[j].key
        ensures Same(es[i].value, w.entries[j].value)
      {
        AtKey(es, i);
        KeyAt(v.entries, es[i].key);
        var m :| 0 <= m < |v.entries| && v.entries[m].key == es[i].key;
        SameTransitive(es[i].value, v.entries[m].value, w.entries[j].value);
      }
    case _ =>
  }
}
