/**
 What the snapshot reader lets through, whatever text was in the row: dicts with
 unique keys, finite numbers, and nothing that the structural diff would confuse.
 */
module Reading {
  import opened Text
  import opened Json
  import opened Decode
  import opened Canonical
  import opened Preflight
  import opened Snapshots
  import opened Conditions
  import opened Diff

  // float() only ever gives doubles.
  ghost predicate ReadsDoubles(codec: FloatCodec) {
    forall t: Str :: codec.parse(t).Exactly? ==> codec.isDouble(codec.parse(t).f)
  }

  ghost predicate RepresentableEntries(es: seq<Entry>, codec: FloatCodec) {
    forall i :: 0 <= i < |es| ==> Representable(es[i].value, codec)
  }

  ghost predicate RepresentableItems(items: seq<Value>, codec: FloatCodec) {
    forall i :: 0 <= i < |items| ==> Representable(items[i], codec)
  }

  // unique_keys: the pairs of one object become a dict unless a key is repeated.
  method CollectPairs(pairs: seq<Entry>) returns (ok: bool, obj: map<Str, Value>)
    ensures ok <==> UniqueKeys(pairs)
    ensures ok ==> obj.Keys == Keys(pairs) && forall i :: 0 <= i < |pairs| ==> obj[pairs[i].key] == pairs[i].value
  {
    obj := map[];
    for n := 0 to |pairs|
      invariant UniqueKeys(pairs[..n])
      invariant forall k :: k in obj <==> exists i :: 0 <= i < n && pairs[i].key == k
      invariant forall i :: 0 <= i < n ==> obj[pairs[i].key] == pairs[i].value
    {
      if pairs[n].key in obj {
        return false, obj;
      }
      obj := obj[pairs[n].key := pairs[n].value];
    }
    assert pairs[..|pairs|] == pairs;
    return true, obj;
  }

  lemma {:induction false} ReadIsRepresentable(s: Str, codec: FloatCodec)
    requires ReadsDoubles(codec)
    ensures ParseValue(s, codec).Ok? ==> Representable(ParseValue(s, codec).value, codec)
    decreases |s|, 2
  {
    if s != [] && s[0] == 0x5B {
      var body := SkipBlanks(s[1..]);
      ItemsAreRepresentable(body, codec);
    } else if s != [] && s[0] == 0x7B {
      var body := SkipBlanks(s[1..]);
      EntriesAreRepresentable(body, codec);
    }
  }

  lemma {:induction false} ItemsAreRepresentable(s: Str, codec: FloatCodec)
    requires ReadsDoubles(codec)
    ensures ParseItems(s, codec).Ok? ==> RepresentableItems(ParseItems(s, codec).value, codec)
    decreases |s|, 3
  {
    ReadIsRepresentable(s, codec);
    if ParseItems(s, codec).Ok? {
      var next := SkipBlanks(ParseValue(s, codec).rest);
      if next[0] != 0x5D {
        ItemsAreRepresentable(SkipBlanks(next[1..]), codec);
      }
    }
  }

  lemma {:induction false} EntriesAreRepresentable(s: Str, codec: FloatCodec)
    requires ReadsDoubles(codec)
    ensures ParseEntries(s, codec).Ok? ==> RepresentableEntries(ParseEntries(s, codec).value, codec)
    decreases |s|, 3
  {
    if ParseEntries(s, codec).Ok? {
      var colon := SkipBlanks(ParseString(s[1..]).rest);
      var value := SkipBlanks(colon[1..]);
      ReadIsRepresentable(value, codec);
      var next := SkipBlanks(ParseValue(value, codec).rest);
      if next[0] != 0x7D {
        EntriesAreRepresentable(SkipBlanks(next[1..]), codec);
      }
    }
  }

  lemma ShapeIsWellFormed(v: Value)
    requires HasDraftShape(v) && UniqueKeys(v.entries) && WellFormed(Dump(DraftOf(v)))
    ensures WellFormed(v)
  {
    DumpKeepsUnique(DraftOf(v));
    forall i | 0 <= i < |v.entries| ensures WellFormed(v.entries[i].value) {
      AtKey(v.entries, i);
      GetAt(v.entries, i);
    }
  }

  lemma PartsAreRepresentable(v: Value, codec: FloatCodec)
    requires HasDraftShape(v) && Representable(v, codec)
    ensures Representable(Dump(DraftOf(v)), codec)
  {
    var d := DraftOf(v);
    DumpedParts(d);
    var i :| 0 <= i < |v.entries| && v.entries[i] == Entry(LOGSOURCE, Dict(d.logsource));
    var j :| 0 <= j < |v.entries| && v.entries[j] == Entry(DETECTION, Dict(d.detection));
    assert Representable(v.entries[i].value, codec) && Representable(v.entries[j].value, codec);
    var es := Dump(d).entries;
    forall m | 0 <= m < |es| ensures Representable(es[m].value, codec) {
      assert m == 0 || m == 1 || m == 2;
    }
  }

  // Every snapshot the reader serves can be compared - the diff theorems hold of it - and has
  // conditions that mean something.
  lemma ServedIsDiffable(text: Str, unicode: Unicode, codec: FloatCodec)
    requires ReadsDoubles(codec)
    ensures var served := DecodeStored(text, unicode, codec);
            served.Snapshot? ==>
              && |text| <= 1048576
              && WellFormed(served.value) && Accepts(served.value, unicode, codec) && Diffable(served.value)
              && ConditionsMean(DraftOf(served.value))
  {
    if DecodeStored(text, unicode, codec).Snapshot? {
      var v := DecodeStored(text, unicode, codec).value;
      ReadIsRepresentable(SkipBlanks(text), codec);
      AcceptedIsServable(v, unicode, codec);
      AcceptedDraftMeansSomething(DraftOf(v), unicode, codec);
    }
  }

  lemma AcceptedIsServable(v: Value, unicode: Unicode, codec: FloatCodec)
    requires Accepts(v, unicode, codec) && Representable(v, codec)
    ensures WellFormed(v) && Diffable(v)
  {
    PartsAreRepresentable(v, codec);
    ValidDraftPrintable(DraftOf(v), unicode, codec);
    ShapeIsWellFormed(v);
    AcceptedIsDiffable(v, unicode, codec);
  }

  // The diff of any two texts that read back reports a change exactly when Python calls what was
  // read unequal, which is what the "unchanged" check of a revision tests.
  lemma ServedDiffIsInequality(text: Str, other: Str, unicode: Unicode, codec: FloatCodec)
    requires ReadsDoubles(codec)
    ensures var u, v := DecodeStored(text, unicode, codec), DecodeStored(other, unicode, codec);
            u.Snapshot? && v.Snapshot? ==>
              HasDraftShape(u.value) && HasDraftShape(v.value)
              && (Summarize(u.value, v.value).hasChanges <==> !PyEq(u.value, v.value))
  {
    ServedIsDiffable(text, unicode, codec);
    ServedIsDiffable(other, unicode, codec);
    var u, v := DecodeStored(text, unicode, codec), DecodeStored(other, unicode, codec);
    if u.Snapshot? && v.Snapshot? {
      ChangesAreInequality(u.value, v.value);
    }
  }
}
