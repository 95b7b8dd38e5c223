/**
 Stored snapshots: what is written for an accepted draft is read back as an equal
 mapping, never refused. The preflight that runs again on every read does not
 depend on the order of keys, and the read cap leaves room for every stored text.
 */
module Snapshots {
  import opened Text
  import opened Lexer
  import opened Json
  import opened Decode
  import opened RoundTrip
  import opened Canonical
  import opened Sizes
  import opened Preflight

  // What a Python value always is: dicts have unique keys, floats are doubles.
  ghost predicate Representable(v: Value, codec: FloatCodec)
    decreases v
  {
    match v
    case Float(f) => codec.isDouble(f)
    case List(items) => forall i :: 0 <= i < |items| ==> Representable(items[i], codec)
    case Dict(es) => UniqueKeys(es) && forall i :: 0 <= i < |es| ==> Representable(es[i].value, codec)
    case _ => true
  }

  // The preflight does not see key order: two values that are the same but for it are both
  // accepted or both rejected.

  lemma SelectionIsSame(v: Value, w: Value, unicode: Unicode)
    requires Same(v, w) && ValidSelection(v, unicode)
    ensures ValidSelection(w, unicode)
  {
    if v.List? {
      forall i | 0 <= i < |w.items| ensures ValidItem(w.items[i], unicode) {
        ItemIsSame(v.items[i], w.items[i], unicode);
      }
    } else {
      ItemIsSame(v, w, unicode);
    }
  }

  lemma ItemIsSame(v: Value, w: Value, unicode: Unicode)
    requires Same(v, w) && ValidItem(v, unicode)
    ensures ValidItem(w, unicode)
  {
    AtKey(v.entries, 0);
    KeyAt(w.entries, v.entries[0].key);
    forall j | 0 <= j < |w.entries|
      ensures ValidFieldKey(w.entries[j].key, unicode) && ValidFieldValue(w.entries[j].value, unicode)
    {
      var i := SameAt(v.entries, w.entries, j);
      FieldValueIsSame(v.entries[i].value, w.entries[j].value, unicode);
    }
  }

  lemma FieldValueIsSame(v: Value, w: Value, unicode: Unicode)
    requires Same(v, w) && ValidFieldValue(v, unicode)
    ensures ValidFieldValue(w, unicode)
  {
    if v.List? {
      forall i | 0 <= i < |w.items| ensures ValidScalar(w.items[i], unicode) {
        assert Same(v.items[i], w.items[i]) && ValidScalar(v.items[i], unicode);
      }
    }
  }

  // The entry that an entry of a same dict corresponds to.
  lemma SameAt(es: seq<Entry>, ws: seq<Entry>, j: nat) returns (i: nat)
    requires SameEntries(es, ws) && j < |ws|
    ensures i < |es| && es[i].key == ws[j].key && Same(es[i].value, ws[j].value)
  {
    AtKey(ws, j);
    KeyAt(es, ws[j].key);
    i :| 0 <= i < |es| && es[i].key == ws[j].key;
  }

  lemma LogsourceIsSame(es: seq<Entry>, ws: seq<Entry>, unicode: Unicode)
    requires SameEntries(es, ws) && ValidLogsource(es, unicode)
    ensures ValidLogsource(ws, unicode)
  {
    forall j | 0 <= j < |ws| ensures ValidLogsourceEntry(ws[j], unicode) {
      var i := SameAt(es, ws, j);
      assert ValidLogsourceEntry(es[i], unicode);
    }
  }

  lemma DetectionIsSame(es: seq<Entry>, ws: seq<Entry>, unicode: Unicode)
    requires SameEntries(es, ws) && ValidDetection(es, unicode)
    ensures ValidDetection(ws, unicode)
  {
    var names := SelectorNames(es);
    assert SelectorNames(ws) == names;
    forall j | 0 <= j < |ws| ensures ValidDetectionEntry(ws[j], names, unicode) {
      var i := SameAt(es, ws, j);
      assert ValidDetectionEntry(es[i], names, unicode);
      if ws[j].key == TIMEFRAME {
      } else if ws[j].key == CONDITION {
        ConditionsAreSame(es[i].value, ws[j].value, names, unicode);
      } else {
        SelectionIsSame(es[i].value, ws[j].value, unicode);
      }
    }
  }

  lemma ConditionsAreSame(v: Value, w: Value, names: set<Str>, unicode: Unicode)
    requires Same(v, w)
    requires forall i :: 0 <= i < |ConditionsOf(v)| ==> ValidCondition(ConditionsOf(v)[i], names, unicode)
    ensures ConditionsOf(w) == ConditionsOf(v)
  {
    forall i | 0 <= i < |ConditionsOf(v)| ensures ConditionsOf(v)[i] == ConditionsOf(w)[i] {
      assert Same(ConditionsOf(v)[i], ConditionsOf(w)[i]);
    }
  }

  lemma DraftStaysValid(d: Draft, e: Draft, unicode: Unicode, codec: FloatCodec)
    requires WellFormed(Dump(d)) && WellFormed(Dump(e)) && Same(Dump(d), Dump(e))
    requires ValidDraft(d, unicode, codec)
    ensures ValidDraft(e, unicode, codec)
  {
    PartsAreSame(d, e);
    SameBytes(Dump(d), Dump(e), codec);
    LogsourceIsSame(d.logsource, e.logsource, unicode);
    DetectionIsSame(d.detection, e.detection, unicode);
  }

  lemma PreflightIgnoresKeyOrder(d: Draft, e: Draft, unicode: Unicode, codec: FloatCodec)
    requires WellFormed(Dump(d)) && WellFormed(Dump(e)) && Same(Dump(d), Dump(e))
    ensures ValidDraft(d, unicode, codec) <==> ValidDraft(e, unicode, codec)
  {
    SameSymmetric(Dump(d), Dump(e));
    if ValidDraft(d, unicode, codec) {
      DraftStaysValid(d, e, unicode, codec);
    }
    if ValidDraft(e, unicode, codec) {
      DraftStaysValid(e, d, unicode, codec);
    }
  }

  lemma FieldNamesDiffer()
    ensures TITLE != LOGSOURCE && LOGSOURCE != DETECTION && TITLE != DETECTION && CONDITION != TIMEFRAME
  {
    assert |TITLE| == 5 && LOGSOURCE[0] == 0x6C && DETECTION[0] == 0x64 && CONDITION[0] == 0x63 && TIMEFRAME[0] == 0x74;
  }

  lemma PartsAreSame(d: Draft, e: Draft)
    requires Same(Dump(d), Dump(e))
    ensures d.title == e.title && SameEntries(d.logsource, e.logsource) && SameEntries(d.detection, e.detection)
  {
    var es, ws := Dump(d).entries, Dump(e).entries;
    FieldNamesDiffer();
    assert SameEntries(es, ws);
    assert es[0].key == ws[0].key && es[1].key == ws[1].key && es[2].key == ws[2].key;
    assert Same(es[0].value, ws[0].value) && Same(es[1].value, ws[1].value) && Same(es[2].value, ws[2].value);
  }

  // What the preflight accepts can be written and read back faithfully.

  predicate NoSurrogates(s: Str) {
    forall i :: 0 <= i < |s| ==> !IsSurrogate(s[i])
  }

  lemma VisibleNoSurrogates(s: Str, unicode: Unicode)
    requires NoInvisible(s, unicode)
    ensures NoSurrogates(s) && NoPairs(s)
  {
    forall i | 0 <= i < |s| ensures !IsSurrogate(s[i]) {
      assert !InvisibleFieldCharacter(s[i], unicode);
    }
  }

  lemma SplitTail(s: Str)
    requires |BeforePipe(s)| < |s|
    ensures SplitPipe(s)[1..] == SplitPipe(s[|BeforePipe(s)| + 1..])
  {
  }

  lemma NoSurrogatesInParts(s: Str)
    requires var first := BeforePipe(s);
             |first| < |s| && NoSurrogates(first) && NoSurrogates(s[|first| + 1..])
    ensures NoSurrogates(s)
  {
    var first := BeforePipe(s);
    var rest := s[|first| + 1..];
    BeforePipeStops(s);
    forall i | 0 <= i < |s| ensures !IsSurrogate(s[i]) {
      if i < |first| {
        assert s[i] == first[i];
      } else if i > |first| {
        assert s[i] == rest[i - |first| - 1];
      }
    }
  }

  // A valid field key has no surrogates: its field has none and its modifiers are plain words.
  lemma KeyNoSurrogates(s: Str, unicode: Unicode)
    requires NoInvisible(SplitPipe(s)[0], unicode)
    requires forall i :: 1 <= i < |SplitPipe(s)| ==> IsSelectorName(SplitPipe(s)[i])
    ensures NoSurrogates(s) && NoPairs(s)
  {
    VisibleNoSurrogates(BeforePipe(s), unicode);
    if |BeforePipe(s)| < |s| {
      SplitTail(s);
      WordsNoSurrogates(s[|BeforePipe(s)| + 1..]);
      NoSurrogatesInParts(s);
    } else {
      assert BeforePipe(s) == s;
    }
  }

  lemma {:induction false} BeforePipeStops(s: Str)
    ensures |BeforePipe(s)| < |s| ==> s[|BeforePipe(s)|] == PIPE
  {
    if s != [] && s[0] != PIPE {
      BeforePipeStops(s[1..]);
    }
  }

  lemma {:induction false} WordsNoSurrogates(s: Str)
    requires forall i :: 0 <= i < |SplitPipe(s)| ==> IsSelectorName(SplitPipe(s)[i])
    ensures NoSurrogates(s)
    decreases |s|
  {
    assert IsSelectorName(SplitPipe(s)[0]) && SplitPipe(s)[0] == BeforePipe(s);
    if |BeforePipe(s)| < |s| {
      SplitTail(s);
      var rest := s[|BeforePipe(s)| + 1..];
      forall i | 0 <= i < |SplitPipe(rest)| ensures IsSelectorName(SplitPipe(rest)[i]) {
        assert SplitPipe(rest)[i] == SplitPipe(s)[i + 1];
      }
      WordsNoSurrogates(rest);
      NoSurrogatesInParts(s);
    } else {
      assert BeforePipe(s) == s;
    }
  }

  function Power2(b: nat): nat {
    if b == 0 then 1 else 2 * Power2(b - 1)
  }

  // int.bit_length: the number lies below that power of two, and not below the one before.
  lemma {:induction false} BitLengthIsTheExponent(n: nat)
    ensures n < Power2(BitLength(n)) && (n > 0 ==> BitLength(n) > 0 && Power2(BitLength(n) - 1) <= n)
  {
    if n > 0 {
      BitLengthIsTheExponent(n / 2);
      assert n == 2 * (n / 2) + n % 2;
    }
  }

  // "|".join(parts)
  function JoinPipe(parts: seq<Str>): Str {
    if parts == [] then [] else if |parts| == 1 then parts[0] else parts[0] + [PIPE] + JoinPipe(parts[1..])
  }

  lemma {:induction false} SplitUndoesJoin(s: Str)
    ensures JoinPipe(SplitPipe(s)) == s
    ensures forall i :: 0 <= i < |SplitPipe(s)| ==> PIPE !in SplitPipe(s)[i]
    decreases |s|
  {
    var first := BeforePipe(s);
    if |first| < |s| {
      SplitTail(s);
      BeforePipeStops(s);
      SplitUndoesJoin(s[|first| + 1..]);
      assert first + [PIPE] + s[|first| + 1..] == s;
    } else {
      assert first == s;
    }
  }

  lemma {:induction false} DigitsWithinBits(n: nat)
    ensures |Digits(n)| <= BitLength(n) + 1
    ensures n > 0 ==> |Digits(n)| <= BitLength(n)
  {
    if n >= 10 {
      DigitsWithinBits(n / 10);
      BitsMonotone(n / 10, n / 2);
    }
  }

  lemma {:induction false} BitsMonotone(m: nat, n: nat)
    requires m <= n
    ensures BitLength(m) <= BitLength(n)
  {
    if m > 0 {
      BitsMonotone(m / 2, n / 2);
    }
  }

  lemma ScalarPrintable(v: Value, unicode: Unicode, codec: FloatCodec)
    requires ValidScalar(v, unicode) && Representable(v, codec)
    ensures Printable(v, codec) && WellFormed(v)
  {
    match v
    case Int(n) => DigitsWithinBits(if n < 0 then -n else n);
    case String(s) => assert NoSurrogates(s);
    case _ =>
  }

  lemma FieldValuePrintable(v: Value, unicode: Unicode, codec: FloatCodec)
    requires ValidFieldValue(v, unicode) && Representable(v, codec)
    ensures Printable(v, codec) && WellFormed(v)
  {
    if v.List? {
      forall i | 0 <= i < |v.items| ensures Printable(v.items[i], codec) && WellFormed(v.items[i]) {
        ScalarPrintable(v.items[i], unicode, codec);
      }
    } else {
      ScalarPrintable(v, unicode, codec);
    }
  }

  lemma ItemPrintable(v: Value, unicode: Unicode, codec: FloatCodec)
    requires ValidItem(v, unicode) && Representable(v, codec)
    ensures Printable(v, codec) && WellFormed(v)
  {
    forall i | 0 <= i < |v.entries|
      ensures NoPairs(v.entries[i].key) && Printable(v.entries[i].value, codec) && WellFormed(v.entries[i].value)
    {
      var e := v.entries[i];
      assert ValidFieldKey(e.key, unicode);
      KeyNoSurrogates(e.key, unicode);
      FieldValuePrintable(e.value, unicode, codec);
    }
  }

  lemma SelectionPrintable(v: Value, unicode: Unicode, codec: FloatCodec)
    requires ValidSelection(v, unicode) && Representable(v, codec)
    ensures Printable(v, codec) && WellFormed(v)
  {
    if v.List? {
      forall i | 0 <= i < |v.items| ensures Printable(v.items[i], codec) && WellFormed(v.items[i]) {
        ItemPrintable(v.items[i], unicode, codec);
      }
    } else {
      ItemPrintable(v, unicode, codec);
    }
  }

  lemma ConditionPrintable(v: Value, names: set<Str>, unicode: Unicode, codec: FloatCodec)
    requires ValidCondition(v, names, unicode)
    ensures Printable(v, codec) && WellFormed(v)
  {
    forall i | 0 <= i < |v.s| ensures !IsSurrogate(v.s[i]) {
      assert IsSurrogate(v.s[i]) ==> InvisibleFieldCharacter(v.s[i], unicode);
    }
  }

  lemma DetectionEntryPrintable(e: Entry, names: set<Str>, unicode: Unicode, codec: FloatCodec)
    requires ValidDetectionEntry(e, names, unicode) && Representable(e.value, codec)
    ensures NoPairs(e.key) && Printable(e.value, codec) && WellFormed(e.value)
  {
    if e.key == TIMEFRAME {
      assert NoSurrogates(e.value.s) && NoSurrogates(e.key);
    } else if e.key == CONDITION {
      assert NoSurrogates(e.key);
      var conditions := ConditionsOf(e.value);
      forall i | 0 <= i < |conditions| ensures Printable(conditions[i], codec) && WellFormed(conditions[i]) {
        ConditionPrintable(conditions[i], names, unicode, codec);
      }
      assert !e.value.List? ==> e.value == conditions[0];
    } else {
      assert NoSurrogates(e.key);
      SelectionPrintable(e.value, unicode, codec);
    }
  }

  lemma LogsourcePrintable(es: seq<Entry>, unicode: Unicode, codec: FloatCodec)
    requires ValidLogsource(es, unicode) && UniqueKeys(es)
    ensures Printable(Dict(es), codec) && WellFormed(Dict(es))
  {
    forall i | 0 <= i < |es|
      ensures NoPairs(es[i].key) && Printable(es[i].value, codec) && WellFormed(es[i].value)
    {
      assert ValidLogsourceEntry(es[i], unicode);
      assert NoSurrogates(es[i].key);
      VisibleNoSurrogates(es[i].value.s, unicode);
    }
  }

  lemma DetectionPrintable(es: seq<Entry>, unicode: Unicode, codec: FloatCodec)
    requires ValidDetection(es, unicode) && Representable(Dict(es), codec)
    ensures Printable(Dict(es), codec) && WellFormed(Dict(es))
  {
    forall i | 0 <= i < |es|
      ensures NoPairs(es[i].key) && Printable(es[i].value, codec) && WellFormed(es[i].value)
    {
      DetectionEntryPrintable(es[i], SelectorNames(es), unicode, codec);
    }
  }

  lemma FieldNamesPrintable()
    ensures NoPairs(TITLE) && NoPairs(LOGSOURCE) && NoPairs(DETECTION)
  {
    assert NoSurrogates(TITLE);
    assert NoSurrogates(LOGSOURCE);
    assert NoSurrogates(DETECTION);
  }

  lemma ValidDraftPrintable(d: Draft, unicode: Unicode, codec: FloatCodec)
    requires ValidDraft(d, unicode, codec) && Representable(Dump(d), codec)
    ensures Printable(Dump(d), codec) && WellFormed(Dump(d))
  {
    PartsRepresentable(d, codec);
    PartsPrintable(d, unicode, codec);
  }

  lemma PartsRepresentable(d: Draft, codec: FloatCodec)
    requires Representable(Dump(d), codec)
    ensures UniqueKeys(Dump(d).entries)
    ensures UniqueKeys(d.logsource) && Representable(Dict(d.detection), codec)
  {
    var es := Dump(d).entries;
    assert Representable(es[1].value, codec) && Representable(es[2].value, codec);
  }

  lemma PartsPrintable(d: Draft, unicode: Unicode, codec: FloatCodec)
    requires NoInvisible(d.title, unicode) && UniqueKeys(Dump(d).entries)
    requires ValidLogsource(d.logsource, unicode) && UniqueKeys(d.logsource)
    requires ValidDetection(d.detection, unicode) && Representable(Dict(d.detection), codec)
    ensures Printable(Dump(d), codec) && WellFormed(Dump(d))
  {
    VisibleNoSurrogates(d.title, unicode);
    LogsourcePrintable(d.logsource, unicode, codec);
    DetectionPrintable(d.detection, unicode, codec);
    DumpPrintable(d, codec);
  }

  lemma DumpPrintable(d: Draft, codec: FloatCodec)
    requires NoPairs(d.title) && UniqueKeys(Dump(d).entries)
    requires Printable(Dict(d.logsource), codec) && WellFormed(Dict(d.logsource))
    requires Printable(Dict(d.detection), codec) && WellFormed(Dict(d.detection))
    ensures Printable(Dump(d), codec) && WellFormed(Dump(d))
  {
    FieldNamesPrintable();
    ThreeEntries(Dump(d).entries, codec);
  }

  lemma ThreeEntries(es: seq<Entry>, codec: FloatCodec)
    requires |es| == 3 && UniqueKeys(es)
    requires NoPairs(es[0].key) && Printable(es[0].value, codec) && WellFormed(es[0].value)
    requires NoPairs(es[1].key) && Printable(es[1].value, codec) && WellFormed(es[1].value)
    requires NoPairs(es[2].key) && Printable(es[2].value, codec) && WellFormed(es[2].value)
    ensures Printable(Dict(es), codec) && WellFormed(Dict(es))
  {
    forall i | 0 <= i < |es|
      ensures NoPairs(es[i].key) && Printable(es[i].value, codec) && WellFormed(es[i].value)
    {
      assert i == 0 || i == 1 || i == 2;
    }
  }

  // Reading a stored snapshot

  const MAX_STORED_SNAPSHOT_CHARS: nat := 1048576

  datatype Stored = NotFound | Snapshot(value: Value)

  // model_validate: the three fields and no other, of the right types.
  predicate HasDraftShape(v: Value) {
    && v.Dict? && Keys(v.entries) == {TITLE, LOGSOURCE, DETECTION}
    && Has(v.entries, TITLE) && Get(v.entries, TITLE).String?
    && Has(v.entries, LOGSOURCE) && Get(v.entries, LOGSOURCE).Dict?
    && Has(v.entries, DETECTION) && Get(v.entries, DETECTION).Dict?
  }

  function DraftOf(v: Value): Draft
    requires HasDraftShape(v)
  {
    Draft(Get(v.entries, TITLE).s, Get(v.entries, LOGSOURCE).entries, Get(v.entries, DETECTION).entries)
  }

  ghost predicate Accepts(v: Value, unicode: Unicode, codec: FloatCodec) {
    HasDraftShape(v) && ValidDraft(DraftOf(v), unicode, codec)
  }

  // The shape test made before validation.
  predicate LooksLikeSnapshot(v: Value) {
    && v.Dict?
    && Has(v.entries, TITLE) && Get(v.entries, TITLE).String?
    && Has(v.entries, LOGSOURCE) && Get(v.entries, LOGSOURCE).Dict?
    && Has(v.entries, DETECTION) && Get(v.entries, DETECTION).Dict?
    && var detection := Get(v.entries, DETECTION).entries;
    && Has(detection, CONDITION)
    && (Get(detection, CONDITION).String? || Get(detection, CONDITION).List?)
  }

  // _decode_stored_rule_snapshot
  ghost function DecodeStored(text: Str, unicode: Unicode, codec: FloatCodec): Stored {
    if |text| > MAX_STORED_SNAPSHOT_CHARS then NotFound
    else
      match Loads(text, codec)
      case Invalid => NotFound
      case Loaded(v) =>
        if LooksLikeSnapshot(v) && Accepts(v, unicode, codec) then Snapshot(v) else NotFound
  }

  lemma SameGet(es: seq<Entry>, ws: seq<Entry>, k: Str)
    requires SameEntries(es, ws) && Has(es, k)
    ensures Has(ws, k) && Same(Get(es, k), Get(ws, k))
  {
    var i :| 0 <= i < |es| && es[i] == Entry(k, Get(es, k));
    AtKey(es, i);
    KeyAt(ws, k);
    var j :| 0 <= j < |ws| && ws[j] == Entry(k, Get(ws, k));
  }

  lemma DumpedParts(d: Draft)
    ensures HasDraftShape(Dump(d)) && DraftOf(Dump(d)) == d && UniqueKeys(Dump(d).entries)
  {
    var es := Dump(d).entries;
    FieldNamesDiffer();
    assert Keys(es) == {TITLE, LOGSOURCE, DETECTION} by {
      assert forall e :: e in es <==> e == es[0] || e == es[1] || e == es[2];
    }
    GetAt(es, 0);
    GetAt(es, 1);
    GetAt(es, 2);
  }

  lemma PartsWellFormed(v: Value)
    requires WellFormed(v) && HasDraftShape(v)
    ensures WellFormed(Dump(DraftOf(v)))
  {
    ValueAt(v.entries, LOGSOURCE);
    ValueAt(v.entries, DETECTION);
    DumpWellFormed(DraftOf(v));
  }

  lemma DumpWellFormed(d: Draft)
    requires WellFormed(Dict(d.logsource)) && WellFormed(Dict(d.detection))
    ensures WellFormed(Dump(d))
  {
    DumpedParts(d);
    var es := Dump(d).entries;
    forall m | 0 <= m < |es| ensures WellFormed(es[m].value) {
      assert m == 0 || m == 1 || m == 2;
    }
  }

  lemma SameDumps(d: Draft, e: Draft)
    requires d.title == e.title && SameEntries(d.logsource, e.logsource) && SameEntries(d.detection, e.detection)
    ensures Same(Dump(d), Dump(e))
  {
    var es, ws := Dump(d).entries, Dump(e).entries;
    FieldNamesDiffer();
    DumpedParts(d);
    DumpedParts(e);
    forall i, j | 0 <= i < |es| && 0 <= j < |ws| && es[i].key == ws[j].key ensures Same(es[i].value, ws[j].value) {
      assert (i == 0 || i == 1 || i == 2) && i == j;
    }
  }

  lemma AcceptanceIgnoresKeyOrder(v: Value, w: Value, unicode: Unicode, codec: FloatCodec)
    requires WellFormed(v) && WellFormed(w) && Same(v, w) && Accepts(v, unicode, codec)
    ensures Accepts(w, unicode, codec)
  {
    SameGet(v.entries, w.entries, TITLE);
    SameGet(v.entries, w.entries, LOGSOURCE);
    SameGet(v.entries, w.entries, DETECTION);
    var d, e := DraftOf(v), DraftOf(w);
    SameDumps(d, e);
    PartsWellFormed(v);
    PartsWellFormed(w);
    PreflightIgnoresKeyOrder(d, e, unicode, codec);
  }

  lemma AcceptedLooksLikeSnapshot(v: Value, unicode: Unicode, codec: FloatCodec)
    requires Accepts(v, unicode, codec)
    ensures LooksLikeSnapshot(v)
  {
    var detection := DraftOf(v).detection;
    KeyAt(detection, CONDITION);
    var i :| 0 <= i < |detection| && detection[i] == Entry(CONDITION, Get(detection, CONDITION));
    FieldNamesDiffer();
    assert ValidDetectionEntry(detection[i], SelectorNames(detection), unicode);
    var conditions := ConditionsOf(detection[i].value);
    assert ValidCondition(conditions[0], SelectorNames(detection), unicode);
  }

  // The read cap never refuses what the write cap let through.
  lemma ReadCapHasRoom(d: Draft, unicode: Unicode, codec: FloatCodec)
    requires ValidDraft(d, unicode, codec) && Representable(Dump(d), codec)
    ensures |Dumps(Dump(d), codec)| <= 6 * MAX_DRAFT_BYTES <= MAX_STORED_SNAPSHOT_CHARS
  {
    ValidDraftPrintable(d, unicode, codec);
    StoredSize(Dump(d), codec);
  }

  // Every draft the preflight accepts is stored as a text that reads back, and what is read is
  // the draft's own mapping with its keys sorted.
  lemma StoredDraftReadsBack(d: Draft, unicode: Unicode, codec: FloatCodec)
    requires ExactCodec(codec) && ValidDraft(d, unicode, codec) && Representable(Dump(d), codec)
    ensures DecodeStored(Dumps(Dump(d), codec), unicode, codec) == Snapshot(Canon(Dump(d)))
    ensures Same(Dump(d), Canon(Dump(d))) && PyEq(Dump(d), Canon(Dump(d))) && PyEq(Canon(Dump(d)), Dump(d))
    ensures WellFormed(Canon(Dump(d))) && Accepts(Canon(Dump(d)), unicode, codec)
  {
    var v := Dump(d);
    ReadCapHasRoom(d, unicode, codec);
    ValidDraftPrintable(d, unicode, codec);
    CanonIsPrintable(v, codec);
    LoadsUndoesPrint(Canon(v), codec);
    SortedIsAccepted(d, unicode, codec);
    CanonIsEqual(v);
  }

  lemma SortedIsAccepted(d: Draft, unicode: Unicode, codec: FloatCodec)
    requires ValidDraft(d, unicode, codec) && WellFormed(Dump(d))
    ensures Accepts(Canon(Dump(d)), unicode, codec) && LooksLikeSnapshot(Canon(Dump(d)))
  {
    var v := Dump(d);
    CanonIsSame(v);
    DumpedParts(d);
    AcceptanceIgnoresKeyOrder(v, Canon(v), unicode, codec);
    AcceptedLooksLikeSnapshot(Canon(v), unicode, codec);
  }
}
