/** The structural preflight of a rule draft: everything a draft must satisfy before it is stored. */
module Preflight {
  import opened Text
  import opened Lexer
  import opened Scans
  import opened Recognizer
  import opened Selectors
  import opened Json
  import opened Sizes

  const TITLE: Str := [0x74, 0x69, 0x74, 0x6C, 0x65] // title
  const LOGSOURCE: Str := [0x6C, 0x6F, 0x67, 0x73, 0x6F, 0x75, 0x72, 0x63, 0x65] // logsource
  const DETECTION: Str := [0x64, 0x65, 0x74, 0x65, 0x63, 0x74, 0x69, 0x6F, 0x6E] // detection
  const CONDITION: Str := [0x63, 0x6F, 0x6E, 0x64, 0x69, 0x74, 0x69, 0x6F, 0x6E] // condition
  const TIMEFRAME: Str := [0x74, 0x69, 0x6D, 0x65, 0x66, 0x72, 0x61, 0x6D, 0x65] // timeframe
  const CATEGORY: Str := [0x63, 0x61, 0x74, 0x65, 0x67, 0x6F, 0x72, 0x79] // category
  const PRODUCT: Str := [0x70, 0x72, 0x6F, 0x64, 0x75, 0x63, 0x74] // product
  const SERVICE: Str := [0x73, 0x65, 0x72, 0x76, 0x69, 0x63, 0x65] // service
  const DEFINITION: Str := [0x64, 0x65, 0x66, 0x69, 0x6E, 0x69, 0x74, 0x69, 0x6F, 0x6E] // definition

  const RESERVED: set<Str> := {CONDITION, TIMEFRAME}

  // Unicode general categories, as far as the checks tell them apart. The table itself is a
  // parameter, except that the surrogates are category Cs.
  datatype Category = Cc | Cf | Cs | Co | Cn | Zs | Zl | Zp | Mark | Other

  type Unicode = CodePoint -> Category

  function CategoryOf(c: CodePoint, unicode: Unicode): Category {
    if IsSurrogate(c) then Cs else unicode(c)
  }

  predicate InvisibleFieldCharacter(c: CodePoint, unicode: Unicode) {
    var category := CategoryOf(c, unicode);
    || category in {Cc, Cf, Cs, Zl, Zp}
    || (category == Zs && c != 0x20)
    || c == 0x34F || 0xFE00 <= c <= 0xFE0F || 0xE0100 <= c <= 0xE01EF
  }

  predicate HasVisibleCharacter(s: Str, unicode: Unicode) {
    exists i :: 0 <= i < |s| && !IsSpace(s[i]) && CategoryOf(s[i], unicode) !in {Cc, Cf, Cs, Co, Cn, Mark}
  }

  // s == s.strip(), for s with something in it
  predicate NoEdgeSpace(s: Str)
    requires s != []
  {
    !IsSpace(s[0]) && !IsSpace(s[|s| - 1])
  }

  predicate NoInvisible(s: Str, unicode: Unicode) {
    forall i :: 0 <= i < |s| ==> !InvisibleFieldCharacter(s[i], unicode)
  }

  predicate ValidMetadataText(s: Str, unicode: Unicode) {
    !Blank(s) && HasVisibleCharacter(s, unicode) && NoEdgeSpace(s) && NoInvisible(s, unicode)
  }

  // s.split("|")
  function SplitPipe(s: Str): (parts: seq<Str>)
    ensures parts != []
    decreases |s|
  {
    var first := BeforePipe(s);
    if |first| == |s| then [s] else [first] + SplitPipe(s[|first| + 1..])
  }

  predicate ValidFieldKey(key: Str, unicode: Unicode) {
    && 0 < |key| <= 200
    && var parts := SplitPipe(key);
    && parts[0] != [] && HasVisibleCharacter(parts[0], unicode)
    && NoEdgeSpace(parts[0]) && NoInvisible(parts[0], unicode)
    && forall i :: 1 <= i < |parts| ==> IsSelectorName(parts[i])
  }

  function BitLength(n: nat): nat {
    if n == 0 then 0 else 1 + BitLength(n / 2)
  }

  predicate ValidScalar(v: Value, unicode: Unicode) {
    match v
    case Null => true
    case Bool(_) => true
    case Int(n) => BitLength(if n < 0 then -n else n) <= 4096
    case Float(_) => true
    case String(s) => |s| <= 2048 && forall i :: 0 <= i < |s| ==> CategoryOf(s[i], unicode) != Cs
    case _ => false
  }

  predicate ValidFieldValue(v: Value, unicode: Unicode) {
    if v.List? then 1 <= |v.items| <= 64 && forall i :: 0 <= i < |v.items| ==> ValidScalar(v.items[i], unicode)
    else ValidScalar(v, unicode)
  }

  predicate ValidItem(v: Value, unicode: Unicode) {
    && v.Dict? && v.entries != []
    && forall i :: 0 <= i < |v.entries| ==>
                     ValidFieldKey(v.entries[i].key, unicode) && ValidFieldValue(v.entries[i].value, unicode)
  }

  predicate ValidSelection(v: Value, unicode: Unicode) {
    if v.List? then 1 <= |v.items| <= 64 && forall i :: 0 <= i < |v.items| ==> ValidItem(v.items[i], unicode)
    else ValidItem(v, unicode)
  }

  // [1-9][0-9]{0,5}(s|m|h|d|w|M|y)
  predicate ValidTimeframe(v: Value) {
    && v.String? && 2 <= |v.s| <= 7
    && v.s[0] != 0x30 && (forall i :: 0 <= i < |v.s| - 1 ==> IsDigit(v.s[i]))
    && v.s[|v.s| - 1] in {0x73, 0x6D, 0x68, 0x64, 0x77, 0x4D, 0x79}
  }

  // At most one pipe, with something readable on both sides of it.
  predicate ValidAggregationBoundary(condition: Str, unicode: Unicode) {
    PIPE in condition ==>
      var before := BeforePipe(condition);
      && |before| < |condition|
      && var after := condition[|before| + 1..];
      !Blank(before) && !Blank(after) && HasVisibleCharacter(after, unicode) && PIPE !in after
  }

  // Text of bounded length with something in it.
  predicate Shaped(v: Value) {
    v.String? && !Blank(v.s) && |v.s| <= 512
  }

  // Nothing hidden, before or after a pipe, but tabs and line breaks.
  predicate Clear(s: Str, unicode: Unicode) {
    forall i :: 0 <= i < |s| ==> InvisibleFieldCharacter(s[i], unicode) ==> s[i] in {0x09, 0x0A, 0x0D}
  }

  ghost predicate WithinReach(s: Str, selectors: set<Str>) {
    AllFeasible(NumericWindows(FindTokens(BeforePipe(s), 0)), selectors)
  }

  ghost predicate ValidCondition(v: Value, selectors: set<Str>, unicode: Unicode) {
    && Shaped(v) && Clear(v.s, unicode)
    && ReferencesKnownSelectors(v.s, selectors)
    && ValidAggregationBoundary(v.s, unicode)
    && Grammatical(v.s)
    && WithinReach(v.s, selectors)
  }

  function ConditionsOf(v: Value): seq<Value> {
    if v.List? then v.items else [v]
  }

  function SelectorNames(detection: seq<Entry>): set<Str> {
    Keys(detection) - RESERVED
  }

  datatype Draft = Draft(title: Str, logsource: seq<Entry>, detection: seq<Entry>)

  // model_dump()
  function Dump(d: Draft): Value {
    Dict([Entry(TITLE, String(d.title)), Entry(LOGSOURCE, Dict(d.logsource)), Entry(DETECTION, Dict(d.detection))])
  }

  predicate ValidLogsourceEntry(e: Entry, unicode: Unicode) {
    && e.key in {CATEGORY, PRODUCT, SERVICE, DEFINITION}
    && e.value.String? && ValidMetadataText(e.value.s, unicode)
    && |e.value.s| <= (if e.key == DEFINITION then 200 else 100)
  }

  ghost predicate ValidDetectionEntry(e: Entry, selectors: set<Str>, unicode: Unicode) {
    if e.key == TIMEFRAME then ValidTimeframe(e.value)
    else if e.key == CONDITION then
      var conditions := ConditionsOf(e.value);
      1 <= |conditions| <= 8 && forall i :: 0 <= i < |conditions| ==> ValidCondition(conditions[i], selectors, unicode)
    else
      IsSelectorName(e.key) && !IsKeyword(e.key) && ValidSelection(e.value, unicode)
  }

  ghost predicate ValidLogsource(es: seq<Entry>, unicode: Unicode) {
    && Keys(es) * {CATEGORY, PRODUCT, SERVICE} != {}
    && forall i :: 0 <= i < |es| ==> ValidLogsourceEntry(es[i], unicode)
  }

  ghost predicate ValidDetection(es: seq<Entry>, unicode: Unicode) {
    && 1 <= |SelectorNames(es)| <= 64 && CONDITION in Keys(es)
    && forall i :: 0 <= i < |es| ==> ValidDetectionEntry(es[i], SelectorNames(es), unicode)
  }

  const MAX_DRAFT_BYTES: nat := 65536

  // validate_structure
  ghost predicate ValidDraft(d: Draft, unicode: Unicode, codec: FloatCodec) {
    && 1 <= |d.title| <= 200 && ValidMetadataText(d.title, unicode)
    && ValidLogsource(d.logsource, unicode)
    && ValidDetection(d.detection, unicode)
    && Bytes(Dump(d), codec) <= MAX_DRAFT_BYTES
  }
}
