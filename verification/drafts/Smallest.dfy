/**
 A smallest draft, worked through every check of the preflight: the theorems about
 accepted drafts are about something.
 */
module Smallest {
  import opened Text
  import opened Lexer
  import opened Grammar
  import opened Scans
  import opened Recognizer
  import opened Selectors
  import opened Exemption
  import opened Json
  import opened RoundTrip
  import opened Sizes
  import opened Preflight
  import opened Snapshots
  import opened Drafting

  const PLAIN: Unicode := c => Other

  // A runtime without floats.
  const NO_FLOATS: FloatCodec := FloatCodec(f => false, f => [], t => Overflow)

  const FIELD: Value := Dict([Entry(SEL, Null)])

  // title: s, logsource: {product: s}, detection: {condition: s, s: {s: null}}
  const SMALLEST: Draft :=
    Draft(SEL, [Entry(PRODUCT, String(SEL))], [Entry(CONDITION, String(SEL)), Entry(SEL, FIELD)])

  const TREE: Disj := Last(Lone(Selector(Token(0, SEL, Name))))

  lemma OneWordDerives()
    ensures Derives(SEL, TREE) && Grammatical(SEL)
  {
    OperatorKinds();
    OperatorsAreWords();
    var t := Token(0, SEL, Name);
    SpacedWordsLex(SEL, 0, [t]);
    NothingAfterPipe(SEL);
    assert YieldDisj(TREE) == [t] && LeavesDisj(TREE) == [Selector(t)] && NestDisj(TREE) == 0;
  }

  lemma OneWordPasses()
    ensures ReferencesKnownSelectors(SEL, {SEL})
    ensures AllFeasible(NumericWindows(FindTokens(BeforePipe(SEL), 0)), {SEL})
  {
    OneWordDerives();
    OperatorKinds();
    var leaves := LeavesDisj(TREE);
    assert leaves == [Selector(Token(0, SEL, Name))];
    assert leaves[0] in leaves && NameOf(leaves[0]).kind == Name;
    ChecksReadTheTree(SEL, TREE, {SEL});
  }

  lemma ConditionIsValid()
    ensures ValidCondition(String(SEL), {SEL}, PLAIN)
  {
    OneWordDerives();
    OneWordPasses();
  }

  lemma LogsourceIsValid()
    ensures ValidMetadataText(SEL, PLAIN) && ValidLogsource(SMALLEST.logsource, PLAIN)
  {
    assert HasVisibleCharacter(SEL, PLAIN) by {
      assert !IsSpace(SEL[0]);
    }
    assert !Blank(SEL) by {
      assert !IsSpace(SEL[0]);
    }
    var e := Entry(PRODUCT, String(SEL));
    assert SMALLEST.logsource == [e] && e in [e];
    assert PRODUCT in Keys([e]) * {CATEGORY, PRODUCT, SERVICE};
    assert |DEFINITION| != |PRODUCT|;
  }

  lemma FieldIsValid()
    ensures ValidSelection(FIELD, PLAIN)
  {
    NothingAfterPipe(SEL);
    assert SplitPipe(SEL) == [SEL];
    assert HasVisibleCharacter(SEL, PLAIN) by {
      assert !IsSpace(SEL[0]);
    }
  }

  lemma ConditionEntryIsValid()
    ensures ValidDetectionEntry(Entry(CONDITION, String(SEL)), {SEL}, PLAIN)
  {
    FieldNamesDiffer();
    ConditionIsValid();
  }

  lemma SelectorEntryIsValid()
    ensures ValidDetectionEntry(Entry(SEL, FIELD), {SEL}, PLAIN)
  {
    assert |SEL| == 1 && |CONDITION| == 9 && |TIMEFRAME| == 9;
    FieldIsValid();
    OperatorKinds();
    OperatorsAreWords();
  }

  lemma OneSelector()
    ensures Keys(SMALLEST.detection) == {CONDITION, SEL} && SelectorNames(SMALLEST.detection) == {SEL}
  {
    var es := SMALLEST.detection;
    assert |SEL| == 1 && |CONDITION| == 9 && |TIMEFRAME| == 9;
    assert forall e :: e in es <==> e == es[0] || e == es[1];
  }

  lemma DetectionIsValid()
    ensures ValidDetection(SMALLEST.detection, PLAIN)
  {
    OneSelector();
    ConditionEntryIsValid();
    SelectorEntryIsValid();
    forall i | 0 <= i < |SMALLEST.detection| ensures ValidDetectionEntry(SMALLEST.detection[i], {SEL}, PLAIN) {
      assert i == 0 || i == 1;
    }
  }

  // How long its text is.

  lemma {:induction false} EscapedLength(s: Str)
    ensures |EscapeAll(s, false)| <= 12 * |s|
  {
    if s != [] {
      EscapedLength(s[1..]);
    }
  }

  lemma {:induction false} Utf8AtMost(s: Str)
    ensures Utf8Len(s) <= 4 * |s|
  {
    if s != [] {
      Utf8AtMost(s[1..]);
    }
  }

  lemma EntryLength(k: Str, v: Value)
    ensures |PrintEntry(Entry(k, v), false, NO_FLOATS)| <= 12 * |k| + 4 + |Print(v, false, NO_FLOATS)|
  {
    EscapedLength(k);
  }

  lemma OneEntryLength(k: Str, v: Value)
    ensures |Print(Dict([Entry(k, v)]), false, NO_FLOATS)| <= 12 * |k| + 6 + |Print(v, false, NO_FLOATS)|
  {
    EntryLength(k, v);
    assert PrintEntries([Entry(k, v)], false, NO_FLOATS) == PrintEntry(Entry(k, v), false, NO_FLOATS);
  }

  lemma TwoEntriesLength(e: Entry, f: Entry)
    ensures |PrintEntries([e, f], false, NO_FLOATS)| ==
            |PrintEntry(e, false, NO_FLOATS)| + 2 + |PrintEntry(f, false, NO_FLOATS)|
  {
    assert [e, f][1..] == [f];
  }

  lemma ThreeEntriesLength(k: Str, u: Value, l: Str, v: Value, m: Str, w: Value)
    ensures var es := [Entry(k, u), Entry(l, v), Entry(m, w)];
            |Print(Dict(es), false, NO_FLOATS)| <=
            12 * (|k| + |l| + |m|) + 18 + |Print(u, false, NO_FLOATS)| + |Print(v, false, NO_FLOATS)|
            + |Print(w, false, NO_FLOATS)|
  {
    var e, f, g := Entry(k, u), Entry(l, v), Entry(m, w);
    assert [e, f, g][1..] == [f, g];
    TwoEntriesLength(f, g);
    EntryLength(k, u);
    EntryLength(l, v);
    EntryLength(m, w);
  }

  lemma DetectionLength()
    ensures |Print(Dict(SMALLEST.detection), false, NO_FLOATS)| <= 300
  {
    FieldLength();
    EntryLength(CONDITION, String(SEL));
    EntryLength(SEL, FIELD);
    TwoEntriesLength(Entry(CONDITION, String(SEL)), Entry(SEL, FIELD));
  }

  lemma FieldLength()
    ensures |Print(FIELD, false, NO_FLOATS)| <= 22 && |Print(String(SEL), false, NO_FLOATS)| <= 14
  {
    EscapedLength(SEL);
    OneEntryLength(SEL, Null);
  }

  lemma DumpLength(d: Draft)
    ensures |Print(Dump(d), false, NO_FLOATS)| <=
            400 + |Print(String(d.title), false, NO_FLOATS)| + |Print(Dict(d.logsource), false, NO_FLOATS)|
            + |Print(Dict(d.detection), false, NO_FLOATS)|
  {
    ThreeEntriesLength(TITLE, String(d.title), LOGSOURCE, Dict(d.logsource), DETECTION, Dict(d.detection));
    assert |TITLE| == 5 && |LOGSOURCE| == 9 && |DETECTION| == 9;
  }

  lemma SmallestIsSmall()
    ensures Bytes(Dump(SMALLEST), NO_FLOATS) <= MAX_DRAFT_BYTES
  {
    EscapedLength(SEL);
    OneEntryLength(PRODUCT, String(SEL));
    DetectionLength();
    DumpLength(SMALLEST);
    Utf8AtMost(Print(Dump(SMALLEST), false, NO_FLOATS));
  }

  lemma SmallestIsRepresentable()
    ensures Representable(Dump(SMALLEST), NO_FLOATS)
  {
    DumpedParts(SMALLEST);
    assert |SEL| == 1 && |CONDITION| == 9;
    assert Representable(FIELD, NO_FLOATS);
  }

  // The preflight accepts it, so it can be stored, read back, and become a rule.
  lemma SmallestIsAccepted()
    ensures ExactCodec(NO_FLOATS)
    ensures ValidDraft(SMALLEST, PLAIN, NO_FLOATS) && Representable(Dump(SMALLEST), NO_FLOATS)
    ensures RuntimeOf(PLAIN, NO_FLOATS).accepts(SMALLEST)
  {
    LogsourceIsValid();
    DetectionIsValid();
    SmallestIsSmall();
    SmallestIsRepresentable();
  }
}
