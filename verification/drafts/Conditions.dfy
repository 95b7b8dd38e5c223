/**
 The conditions and the time frame of an accepted draft: the loops that check the
 conditions, and what acceptance promises of every one of them.
 */
module Conditions {
  import opened Text
  import opened Lexer
  import opened Grammar
  import opened Scans
  import opened Recognizer
  import opened Selectors
  import opened Exemption
  import opened Json
  import opened RoundTrip
  import opened Preflight
  import opened Snapshots

  // d is the condition's parse tree, within the caps, and its names resolve.
  ghost predicate Sensible(condition: Str, d: Disj, selectors: set<Str>) {
    && Derives(condition, d) && NestDisj(d) <= 64 && Separated(LeavesDisj(d))
    && Resolves(LeavesDisj(d), selectors) && NamesSomething(LeavesDisj(d))
  }

  // A condition is accepted if and only if its text is bounded, readable on both sides of a pipe, and
  // has a sensible parse tree.
  lemma AcceptedMeansSensible(v: Value, selectors: set<Str>, unicode: Unicode)
    ensures ValidCondition(v, selectors, unicode) <==>
            && v.String? && !Blank(v.s) && |v.s| <= 512 && ValidAggregationBoundary(v.s, unicode)
            && (forall i :: 0 <= i < |v.s| && v.s[i] !in {0x09, 0x0A, 0x0D} ==>
                              !InvisibleFieldCharacter(v.s[i], unicode))
            && exists d :: Sensible(v.s, d, selectors)
  {
    if v.String? {
      if ValidCondition(v, selectors, unicode) {
        CheckedIsSensible(v.s, selectors);
      }
      if d :| Sensible(v.s, d, selectors) {
        ChecksReadTheTree(v.s, d, selectors);
      }
    }
  }

  lemma CheckedIsSensible(condition: Str, selectors: set<Str>)
    requires Grammatical(condition) && ReferencesKnownSelectors(condition, selectors)
    requires WithinReach(condition, selectors)
    ensures exists d :: Sensible(condition, d, selectors)
  {
    var d :| Derives(condition, d) && NestDisj(d) <= MAX_NESTING && Separated(LeavesDisj(d));
    ChecksReadTheTree(condition, d, selectors);
    assert Sensible(condition, d, selectors);
  }

  // The condition holds when all selectors match, is monotone in what matches, and - unless one of its
  // quantifiers ranges over nothing - is false when nothing matches.
  ghost predicate Positive(d: Disj, selectors: set<Str>) {
    && HoldsDisj(d, selectors, selectors)
    && (NoneExempt(LeavesDisj(d), selectors) ==> !HoldsDisj(d, selectors, {}))
    && forall on, more :: on <= more && HoldsDisj(d, selectors, on) ==> HoldsDisj(d, selectors, more)
  }

  ghost predicate MeansSomething(condition: Str, selectors: set<Str>) {
    exists d :: Sensible(condition, d, selectors) && (NegationFreeDisj(d) ==> Positive(d, selectors))
  }

  ghost predicate EachMeansSomething(conditions: seq<Value>, selectors: set<Str>) {
    && 1 <= |conditions| <= 8
    && forall i :: 0 <= i < |conditions| ==> conditions[i].String? && MeansSomething(conditions[i].s, selectors)
  }

  ghost predicate PlainNames(selectors: set<Str>) {
    1 <= |selectors| <= 64 && forall name :: name in selectors ==> IsSelectorName(name) && !IsKeyword(name)
  }

  // Every condition of the draft means something in terms of the draft's selectors, none of which is
  // called like an operator.
  ghost predicate ConditionsMean(d: Draft) {
    && PlainNames(SelectorNames(d.detection)) && Has(d.detection, CONDITION)
    && EachMeansSomething(ConditionsOf(Get(d.detection, CONDITION)), SelectorNames(d.detection))
  }

  lemma AcceptedMeansSomething(v: Value, selectors: set<Str>, unicode: Unicode)
    requires ValidCondition(v, selectors, unicode)
    ensures v.String? && MeansSomething(v.s, selectors)
  {
    AcceptedMeansSensible(v, selectors, unicode);
    var d :| Sensible(v.s, d, selectors);
    AcceptedConditionMeansSomething(v.s, d, selectors);
    if NegationFreeDisj(d) && NoneExempt(LeavesDisj(d), selectors) {
      NothingOnDisj(d, selectors);
    }
    assert NegationFreeDisj(d) ==> Positive(d, selectors);
  }

  // What the preflight promises of an accepted draft's conditions.
  lemma AcceptedDraftMeansSomething(d: Draft, unicode: Unicode, codec: FloatCodec)
    requires ValidDraft(d, unicode, codec)
    ensures ConditionsMean(d)
  {
    ConditionEntry(d.detection, unicode);
    AllMeanSomething(ConditionsOf(Get(d.detection, CONDITION)), SelectorNames(d.detection), unicode);
    NamesArePlain(d.detection, unicode);
  }

  lemma AllMeanSomething(conditions: seq<Value>, selectors: set<Str>, unicode: Unicode)
    requires 1 <= |conditions| <= 8
    requires forall i :: 0 <= i < |conditions| ==> ValidCondition(conditions[i], selectors, unicode)
    ensures EachMeansSomething(conditions, selectors)
  {
    forall i | 0 <= i < |conditions| ensures conditions[i].String? && MeansSomething(conditions[i].s, selectors) {
      AcceptedMeansSomething(conditions[i], selectors, unicode);
    }
  }

  lemma NamesArePlain(es: seq<Entry>, unicode: Unicode)
    requires ValidDetection(es, unicode)
    ensures PlainNames(SelectorNames(es))
  {
    forall name | name in SelectorNames(es) ensures IsSelectorName(name) && !IsKeyword(name) {
      SelectorEntry(es, name, unicode);
    }
  }

  lemma ConditionEntry(es: seq<Entry>, unicode: Unicode)
    requires ValidDetection(es, unicode)
    ensures Has(es, CONDITION)
    ensures var conditions := ConditionsOf(Get(es, CONDITION));
            && 1 <= |conditions| <= 8
            && forall i :: 0 <= i < |conditions| ==> ValidCondition(conditions[i], SelectorNames(es), unicode)
  {
    FieldNamesDiffer();
    var e :| e in es && e.key == CONDITION;
    var j :| 0 <= j < |es| && es[j] == e;
    var i :| 0 <= i < |es| && es[i] == Entry(CONDITION, Get(es, CONDITION));
    assert ValidDetectionEntry(es[i], SelectorNames(es), unicode);
  }

  lemma SelectorEntry(es: seq<Entry>, name: Str, unicode: Unicode)
    requires ValidDetection(es, unicode) && name in SelectorNames(es)
    ensures IsSelectorName(name) && !IsKeyword(name)
  {
    var e :| e in es && e.key == name;
    var i :| 0 <= i < |es| && es[i] == e;
    assert ValidDetectionEntry(es[i], SelectorNames(es), unicode);
  }

  // A time frame is accepted if and only if it is a number from 1 to 999999, written without leading
  // zeros, and a unit.
  lemma TimeframeIsBounded(v: Value)
    ensures ValidTimeframe(v) <==>
            v.String? && exists n: nat, unit :: IsSpan(v.s, n, unit)
  {
    if ValidTimeframe(v) {
      var digits, unit := v.s[..|v.s| - 1], v.s[|v.s| - 1];
      DigitsOfValue(digits);
      DigitsFit(DecimalValue(digits), 6);
      assert IsSpan(v.s, DecimalValue(digits), unit);
    }
    if n: nat, unit :| v.String? && IsSpan(v.s, n, unit) {
      DigitsRead(n);
      DigitsFit(n, 6);
      assert v.s[0] == Digits(n)[0];
    }
  }

  // n of one of the units s m h d w M y
  predicate IsSpan(s: Str, n: nat, unit: CodePoint) {
    1 <= n <= 999999 && unit in {0x73, 0x6D, 0x68, 0x64, 0x77, 0x4D, 0x79} && s == Digits(n) + [unit]
  }

  lemma AcceptedTimeframe(d: Draft, unicode: Unicode, codec: FloatCodec)
    requires ValidDraft(d, unicode, codec) && Has(d.detection, TIMEFRAME)
    ensures var v := Get(d.detection, TIMEFRAME); v.String? && exists n: nat, unit :: IsSpan(v.s, n, unit)
  {
    var es := d.detection;
    var i :| 0 <= i < |es| && es[i] == Entry(TIMEFRAME, Get(es, TIMEFRAME));
    assert ValidDetectionEntry(es[i], SelectorNames(es), unicode);
    TimeframeIsBounded(es[i].value);
  }

  function Power10(k: nat): (p: nat)
    ensures p >= 1
  {
    if k == 0 then 1 else 10 * Power10(k - 1)
  }

  lemma {:induction false} DigitsFit(n: nat, k: nat)
    requires k > 0
    ensures |Digits(n)| <= k <==> n < Power10(k)
  {
    if n >= 10 && k > 1 {
      DigitsFit(n / 10, k - 1);
    }
  }

  // A string of digits without leading zeros is the one that is written for its value.
  lemma {:induction false} DigitsOfValue(t: Str)
    requires t != [] && t[0] != 0x30 && forall i :: 0 <= i < |t| ==> IsDigit(t[i])
    ensures Digits(DecimalValue(t)) == t && DecimalValue(t) >= 1
    decreases |t|
  {
    var front := t[..|t| - 1];
    assert t == front + [t[|t| - 1]];
    if front != [] {
      DigitsOfValue(front);
    }
  }

  // The condition checks in the order the preflight makes them, each over all conditions.

  predicate AllClear(vs: seq<Value>, unicode: Unicode) {
    forall i :: 0 <= i < |vs| ==> vs[i].String? && Clear(vs[i].s, unicode)
  }

  predicate AllKnown(vs: seq<Value>, selectors: set<Str>) {
    forall i :: 0 <= i < |vs| ==> vs[i].String? && ReferencesKnownSelectors(vs[i].s, selectors)
  }

  predicate AllBounded(vs: seq<Value>, unicode: Unicode) {
    forall i :: 0 <= i < |vs| ==> vs[i].String? && ValidAggregationBoundary(vs[i].s, unicode)
  }

  ghost predicate AllGrammatical(vs: seq<Value>) {
    forall i :: 0 <= i < |vs| ==> vs[i].String? && Grammatical(vs[i].s)
  }

  ghost predicate AllWithinReach(vs: seq<Value>, selectors: set<Str>) {
    forall i :: 0 <= i < |vs| ==> vs[i].String? && WithinReach(vs[i].s, selectors)
  }

  lemma ChecksTogether(vs: seq<Value>, selectors: set<Str>, unicode: Unicode)
    requires forall i :: 0 <= i < |vs| ==> Shaped(vs[i])
    ensures AllClear(vs, unicode) && AllKnown(vs, selectors) && AllBounded(vs, unicode) && AllGrammatical(vs)
            && AllWithinReach(vs, selectors)
            <==> forall i :: 0 <= i < |vs| ==> ValidCondition(vs[i], selectors, unicode)
  {
    forall i | 0 <= i < |vs|
      ensures ValidCondition(vs[i], selectors, unicode) <==>
              && Clear(vs[i].s, unicode) && ReferencesKnownSelectors(vs[i].s, selectors)
              && ValidAggregationBoundary(vs[i].s, unicode) && Grammatical(vs[i].s) && WithinReach(vs[i].s, selectors)
    {
      ChecksOfOne(vs[i], selectors, unicode);
    }
  }

  lemma ChecksOfOne(v: Value, selectors: set<Str>, unicode: Unicode)
    requires Shaped(v)
    ensures ValidCondition(v, selectors, unicode) <==>
            && Clear(v.s, unicode) && ReferencesKnownSelectors(v.s, selectors)
            && ValidAggregationBoundary(v.s, unicode) && Grammatical(v.s) && WithinReach(v.s, selectors)
  {
  }

  method CheckConditions(v: Value, selectors: set<Str>, unicode: Unicode) returns (ok: bool)
    ensures ok <==> && 1 <= |ConditionsOf(v)| <= 8
                    && forall i :: 0 <= i < |ConditionsOf(v)| ==>
                                     ValidCondition(ConditionsOf(v)[i], selectors, unicode)
  {
    var conditions := ConditionsOf(v);
    if !(1 <= |conditions| <= 8) || exists i :: 0 <= i < |conditions| && !Shaped(conditions[i]) {
      return false;
    }
    ChecksTogether(conditions, selectors, unicode);
    if !AllClear(conditions, unicode) {
      return false;
    }
    if !AllKnown(conditions, selectors) {
      return false;
    }
    if !AllBounded(conditions, unicode) {
      return false;
    }
    ok := CheckSyntax(conditions);
    if ok {
      ok := CheckQuantifiers(conditions, selectors);
    }
  }

  method CheckSyntax(vs: seq<Value>) returns (ok: bool)
    requires forall i :: 0 <= i < |vs| ==> Shaped(vs[i])
    ensures ok <==> AllGrammatical(vs)
  {
    for n := 0 to |vs|
      invariant forall i :: 0 <= i < n ==> Grammatical(vs[i].s)
    {
      ghost var peak;
      ok, peak := WellFormedBooleanCondition(vs[n].s);
      if !ok {
        return;
      }
    }
    return true;
  }

  method CheckQuantifiers(vs: seq<Value>, selectors: set<Str>) returns (ok: bool)
    requires forall i :: 0 <= i < |vs| ==> Shaped(vs[i])
    ensures ok <==> AllWithinReach(vs, selectors)
  {
    for n := 0 to |vs|
      invariant AllWithinReach(vs[..n], selectors)
    {
      ok := FeasibleQuantifiers(vs[n].s, selectors);
      OneMoreWithinReach(vs, n, selectors);
      if !ok {
        return;
      }
    }
    assert vs[..|vs|] == vs;
    return true;
  }

  lemma OneMoreWithinReach(vs: seq<Value>, n: nat, selectors: set<Str>)
    requires n < |vs| && vs[n].String? && AllWithinReach(vs[..n], selectors)
    ensures AllWithinReach(vs[..n + 1], selectors) <==> WithinReach(vs[n].s, selectors)
    ensures !WithinReach(vs[n].s, selectors) ==> !AllWithinReach(vs, selectors)
  {
    forall i | 0 <= i < n ensures vs[i].String? && WithinReach(vs[i].s, selectors) {
      assert vs[i] == vs[..n][i];
    }
    assert vs[..n + 1][n] == vs[n];
  }
}
