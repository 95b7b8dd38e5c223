/**
 The two checks that scan a condition flat - references and quantifier
 feasibility - read against its parse tree, and what acceptance means when the
 condition is evaluated.
 */
module Selectors {
  import opened Basics
  import opened Text
  import opened Lexer
  import opened Grammar
  import opened Scans
  import opened Recognizer

  // fnmatchcase for patterns whose only special character is "*".
  predicate GlobMatches(pattern: Str, name: Str)
    decreases |pattern| + |name|
  {
    if pattern == [] then name == []
    else if pattern[0] == STAR then GlobMatches(pattern[1..], name) || (name != [] && GlobMatches(pattern, name[1..]))
    else name != [] && name[0] == pattern[0] && GlobMatches(pattern[1..], name[1..])
  }

  lemma {:induction false} PlainPatternMatchesItself(pattern: Str, name: Str)
    requires STAR !in pattern
    ensures GlobMatches(pattern, name) <==> pattern == name
    decreases |pattern|
  {
    if pattern != [] && name != [] {
      PlainPatternMatchesItself(pattern[1..], name[1..]);
      assert pattern == [pattern[0]] + pattern[1..] && name == [name[0]] + name[1..];
    }
  }

  // A "*" stands for any text: what comes before it is at the front, what comes after it matches some rest.
  lemma {:induction false} StarStandsForAnyText(front: Str, rest: Str, name: Str)
    requires STAR !in front
    ensures GlobMatches(front + [STAR] + rest, name) <==>
            exists i :: |front| <= i <= |name| && front <= name && GlobMatches(rest, name[i..])
    decreases |front| + |name|
  {
    var pattern := front + [STAR] + rest;
    if front == [] {
      assert pattern[0] == STAR && pattern[1..] == rest && name[0..] == name;
      if name != [] {
        StarStandsForAnyText([], rest, name[1..]);
        assert [] + [STAR] + rest == pattern;
        if i :| 0 <= i <= |name[1..]| && GlobMatches(rest, name[1..][i..]) {
          assert name[1..][i..] == name[i + 1..];
        }
        if i :| 0 < i <= |name| && GlobMatches(rest, name[i..]) {
          assert name[1..][i - 1..] == name[i..];
        }
      }
    } else {
      assert pattern[0] == front[0] && pattern[1..] == front[1..] + [STAR] + rest;
      if name != [] && name[0] == front[0] {
        StarStandsForAnyText(front[1..], rest, name[1..]);
        assert front <= name <==> front[1..] <= name[1..];
        if i :| |front| - 1 <= i <= |name[1..]| && GlobMatches(rest, name[1..][i..]) {
          assert name[1..][i..] == name[i + 1..];
        }
        if i :| |front| <= i <= |name| && GlobMatches(rest, name[i..]) {
          assert name[1..][i - 1..] == name[i..];
        }
      }
    }
  }

  // The selectors a quantifier's target ranges over.
  function Matching(target: Str, selectors: set<Str>): set<Str> {
    if Lower(target) == THEM then selectors else set n | n in selectors && GlobMatches(target, n)
  }

  // _references_known_selectors
  predicate ReferencesKnownSelectors(condition: Str, selectors: set<Str>) {
    var words := FindWords(BeforePipe(condition), 0);
    && (exists w :: w in words && (!IsKeyword(w.text) || Lower(w.text) == THEM))
    && (forall w :: w in words && !IsKeyword(w.text) ==>
                      if STAR in w.text then exists n :: n in selectors && GlobMatches(w.text, n)
                      else w.text in selectors)
  }

  // A numeric quantifier that asks for no more selectors than its target ranges over.
  predicate Feasible(q: Atom, selectors: set<Str>)
    requires q.Quantifier?
  {
    DecimalValue(q.count.text) <= |Matching(q.target.text, selectors)|
  }

  lemma {:induction false} WindowsAreQuantifiers(ts: seq<Token>)
    ensures forall q :: q in NumericWindows(ts) ==> q.Quantifier? && q.count.kind == Number
  {
    if |ts| >= 3 {
      WindowsAreQuantifiers(ts[1..]);
    }
  }

  ghost predicate AllFeasible(windows: seq<Leaf>, selectors: set<Str>) {
    forall q :: q in windows ==> q.Quantifier? && Feasible(q, selectors)
  }

  // How many selectors a window's target names, as the scan counts them.
  lemma PlainTargetMatchesOne(target: Str, selectors: set<Str>)
    requires STAR !in target && Lower(target) != THEM
    ensures Matching(target, selectors) == if target in selectors then {target} else {}
  {
    forall n | n in selectors ensures GlobMatches(target, n) <==> target == n {
      PlainPatternMatchesItself(target, n);
    }
  }

  // The window at an index decides, with the windows after it.
  lemma WindowDecides(ts: seq<Token>, i: nat, selectors: set<Str>)
    requires i + 2 < |ts|
    ensures AllFeasible(NumericWindows(ts[i..]), selectors) <==>
            && (ts[i].kind == Number && ts[i + 1].kind == OfWord ==>
                  Feasible(Quantifier(ts[i], ts[i + 1], ts[i + 2]), selectors))
            && AllFeasible(NumericWindows(ts[i + 1..]), selectors)
  {
    var window, rest := ts[i..], NumericWindows(ts[i + 1..]);
    assert window[0] == ts[i] && window[1] == ts[i + 1] && window[2] == ts[i + 2] && window[1..] == ts[i + 1..];
    WindowsAreQuantifiers(ts[i..]);
    if ts[i].kind == Number && ts[i + 1].kind == OfWord {
      var q := Quantifier(ts[i], ts[i + 1], ts[i + 2]);
      assert NumericWindows(window) == [q] + rest && ([q] + rest)[0] == q;
      assert forall x :: x in [q] + rest <==> x == q || x in rest;
    } else {
      assert NumericWindows(window) == rest;
    }
  }

  // The windows of the scan from index i on are all feasible.
  ghost predicate FeasibleFrom(s: Str, i: nat, selectors: set<Str>)
    requires i <= |FindTokens(s, 0)|
  {
    AllFeasible(NumericWindows(FindTokens(s, 0)[i..]), selectors)
  }

  // The test of one window, on the text of its tokens.
  lemma TextDecides(s: Str, i: nat, selectors: set<Str>)
    requires i + 2 < |FindTokens(s, 0)|
    ensures var ts := FindTokens(s, 0);
            FeasibleFrom(s, i, selectors) <==>
            && (IsNumber(ts[i].text) && Lower(ts[i + 1].text) == OF ==>
                  DecimalValue(ts[i].text) <= |Matching(ts[i + 2].text, selectors)|)
            && FeasibleFrom(s, i + 1, selectors)
  {
    var ts := FindTokens(s, 0);
    WindowDecides(ts, i, selectors);
    ScanTag(s, 0, i);
    ScanTag(s, 0, i + 1);
    KindMeaning(ts[i].text);
    KindMeaning(ts[i + 1].text);
  }

  lemma NoWindowLeft(s: Str, i: nat, selectors: set<Str>)
    requires |FindTokens(s, 0)| < i + 3 && i <= |FindTokens(s, 0)|
    ensures FeasibleFrom(s, i, selectors)
  {
  }

  // _feasible_quantifiers
  method FeasibleQuantifiers(condition: Str, selectors: set<Str>) returns (ok: bool)
    ensures ok <==> AllFeasible(NumericWindows(FindTokens(BeforePipe(condition), 0)), selectors)
  {
    var text := BeforePipe(condition);
    var tokens := FindTokens(text, 0);
    var index := 0;
    assert tokens[0..] == tokens;
    while index + 2 < |tokens|
      invariant 0 <= index <= |tokens|
      invariant FeasibleFrom(text, 0, selectors) <==> FeasibleFrom(text, index, selectors)
    {
      var count, operator, target := tokens[index].text, tokens[index + 1].text, tokens[index + 2].text;
      TextDecides(text, index, selectors);
      if IsNumber(count) && Lower(operator) == OF {
        var available := CountAvailable(target, selectors);
        if DecimalValue(count) > available {
          return false;
        }
      }
      index := index + 1;
    }
    NoWindowLeft(text, index, selectors);
    return true;
  }

  method CountAvailable(target: Str, selectors: set<Str>) returns (available: nat)
    ensures available == |Matching(target, selectors)|
  {
    if Lower(target) == THEM {
      return |selectors|;
    }
    if STAR in target {
      return |set n | n in selectors && GlobMatches(target, n)|;
    }
    PlainTargetMatchesOne(target, selectors);
    return if target in selectors then 1 else 0;
  }

  // The windows of the scan are the tree's numeric quantifiers, so feasibility is a property of the tree.
  lemma FeasibilityReadsTheTree(condition: Str, d: Disj)
    requires Derives(condition, d)
    ensures NumericWindows(FindTokens(BeforePipe(condition), 0)) == Numeric(LeavesDisj(d))
  {
    LexesIsScan(BeforePipe(condition), 0, YieldDisj(d));
    WindowsOfDisj(d, []);
    assert YieldDisj(d) + [] == YieldDisj(d);
  }

  // The token a leaf refers to selectors by.
  function NameOf(leaf: Leaf): Token
  {
    if leaf.Quantifier? then leaf.target else leaf.name
  }

  ghost predicate Mentions(leaves: seq<Leaf>, t: Token) {
    exists leaf: Leaf :: leaf in leaves && NameOf(leaf) == t
  }

  // The flat scan for words sees, besides operators, exactly what the tree's leaves refer to.

  lemma {:induction false} MentionsOfDisj(d: Disj, t: Token)
    requires ValidDisj(d) && t.kind in {Glob, Name, ThemWord}
    ensures t in YieldDisj(d) <==> Mentions(LeavesDisj(d), t)
    decreases d
  {
    match d
    case Last(c) => MentionsOfConj(c, t);
    case Or(c, op, r) =>
      MentionsOfConj(c, t);
      MentionsOfDisj(r, t);
  }

  lemma {:induction false} MentionsOfConj(c: Conj, t: Token)
    requires ValidConj(c) && t.kind in {Glob, Name, ThemWord}
    ensures t in YieldConj(c) <==> Mentions(LeavesConj(c), t)
    decreases c
  {
    match c
    case Lone(a) => MentionsOfAtom(a, t);
    case And(a, op, r) =>
      MentionsOfAtom(a, t);
      MentionsOfConj(r, t);
  }

  lemma {:induction false} MentionsOfAtom(a: Atom, t: Token)
    requires ValidAtom(a) && t.kind in {Glob, Name, ThemWord}
    ensures t in YieldAtom(a) <==> Mentions(LeavesAtom(a), t)
    decreases a
  {
    match a
    case Not(op, arg) => MentionsOfAtom(arg, t);
    case Group(o, d, c) => MentionsOfDisj(d, t);
    case Quantifier(n, op, target) => assert a in LeavesAtom(a);
    case Selector(n) => assert a in LeavesAtom(a);
  }

  lemma {:induction false} WordsAreTokens(ts: seq<Token>, t: Token)
    ensures t in WordsOf(ts) <==> t in ts && IsWord(t.text)
  {
    if ts != [] {
      WordsAreTokens(ts[1..], t);
    }
  }

  lemma TaggedMember(s: Str, t: Token)
    requires t in FindTokens(s, 0)
    ensures t.kind == KindOf(t.text)
  {
    var k :| 0 <= k < |FindTokens(s, 0)| && FindTokens(s, 0)[k] == t;
    ScanTag(s, 0, k);
  }

  // Every name in the tree resolves. The one exemption: "all of" followed by a keyword.
  predicate LeafResolves(leaf: Leaf, selectors: set<Str>)
  {
    if leaf.Selector? then leaf.name.text in selectors
    else if leaf.count.kind == Number then Feasible(leaf, selectors)
    else IsKeyword(leaf.target.text) || Matching(leaf.target.text, selectors) != {}
  }

  ghost predicate Resolves(leaves: seq<Leaf>, selectors: set<Str>) {
    forall leaf :: leaf in leaves ==> LeafResolves(leaf, selectors)
  }

  // Some leaf refers to selectors by more than an exempt keyword.
  ghost predicate NamesSomething(leaves: seq<Leaf>) {
    exists leaf: Leaf :: leaf in leaves && NameOf(leaf).kind in {Glob, Name, ThemWord}
  }

  lemma {:induction false} NumericMember(leaves: seq<Leaf>, q: Leaf)
    ensures q in Numeric(leaves) <==> q in leaves && q.Quantifier? && q.count.kind == Number
  {
    if leaves != [] {
      NumericMember(leaves[1..], q);
    }
  }

  lemma {:induction false} LeavesAreTokensDisj(d: Disj, leaf: Leaf)
    requires ValidDisj(d) && leaf in LeavesDisj(d)
    ensures ValidAtom(leaf) && NameOf(leaf) in YieldDisj(d)
    decreases d
  {
    match d
    case Last(c) => LeavesAreTokensConj(c, leaf);
    case Or(c, op, r) =>
      if leaf in LeavesConj(c) {
        LeavesAreTokensConj(c, leaf);
      } else {
        LeavesAreTokensDisj(r, leaf);
      }
  }

  lemma {:induction false} LeavesAreTokensConj(c: Conj, leaf: Leaf)
    requires ValidConj(c) && leaf in LeavesConj(c)
    ensures ValidAtom(leaf) && NameOf(leaf) in YieldConj(c)
    decreases c
  {
    match c
    case Lone(a) => LeavesAreTokensAtom(a, leaf);
    case And(a, op, r) =>
      if leaf in LeavesAtom(a) {
        LeavesAreTokensAtom(a, leaf);
      } else {
        LeavesAreTokensConj(r, leaf);
      }
  }

  lemma {:induction false} LeavesAreTokensAtom(a: Atom, leaf: Leaf)
    requires ValidAtom(a) && leaf in LeavesAtom(a)
    ensures ValidAtom(leaf) && NameOf(leaf) in YieldAtom(a)
    decreases a
  {
    match a
    case Not(op, arg) => LeavesAreTokensAtom(arg, leaf);
    case Group(o, d, c) => LeavesAreTokensDisj(d, leaf);
    case Quantifier(n, op, t) =>
    case Selector(n) =>
  }

  // The words of the reference scan that are not operators are the tokens the leaves refer to.
  lemma WordsReadTheTree(condition: Str, d: Disj, t: Token)
    requires Derives(condition, d)
    ensures var words := FindWords(BeforePipe(condition), 0);
            && (t in words ==> t.kind == KindOf(t.text))
            && (t.kind in {Glob, Name, ThemWord} ==> (t in words <==> Mentions(LeavesDisj(d), t)))
  {
    var s := BeforePipe(condition);
    var ts := YieldDisj(d);
    LexesIsScan(s, 0, ts);
    IdentifierScanIsWordTokens(s, 0);
    WordsAreTokens(ts, t);
    if t in ts {
      TaggedMember(s, t);
      KindMeaning(t.text);
    }
    if t.kind in {Glob, Name, ThemWord} {
      MentionsOfDisj(d, t);
    }
  }

  lemma LeafReadsTheText(condition: Str, d: Disj, leaf: Leaf)
    requires Derives(condition, d) && leaf in LeavesDisj(d)
    ensures ValidAtom(leaf) && NameOf(leaf).kind == KindOf(NameOf(leaf).text)
  {
    LexesIsScan(BeforePipe(condition), 0, YieldDisj(d));
    LeavesAreTokensDisj(d, leaf);
    TaggedMember(BeforePipe(condition), NameOf(leaf));
  }

  predicate WordKnown(w: Token, selectors: set<Str>) {
    if STAR in w.text then exists n :: n in selectors && GlobMatches(w.text, n) else w.text in selectors
  }

  // For a word that is no keyword, the reference check asks for at least one match.
  lemma KnownMeansMatched(w: Token, selectors: set<Str>)
    requires !IsKeyword(w.text)
    ensures WordKnown(w, selectors) <==> Matching(w.text, selectors) != {}
  {
    if STAR !in w.text {
      PlainTargetMatchesOne(w.text, selectors);
    } else if n :| n in selectors && GlobMatches(w.text, n) {
      assert n in Matching(w.text, selectors);
    }
  }

  lemma LeafResolvesIfKnown(condition: Str, d: Disj, leaf: Leaf, selectors: set<Str>)
    requires Derives(condition, d) && leaf in LeavesDisj(d)
    requires ReferencesKnownSelectors(condition, selectors)
    requires AllFeasible(Numeric(LeavesDisj(d)), selectors)
    ensures LeafResolves(leaf, selectors)
  {
    var t := NameOf(leaf);
    LeafReadsTheText(condition, d, leaf);
    WordsReadTheTree(condition, d, t);
    KindMeaning(t.text);
    NumericMember(LeavesDisj(d), leaf);
    if !IsKeyword(t.text) {
      assert Mentions(LeavesDisj(d), t);
      assert WordKnown(t, selectors);
      KnownMeansMatched(t, selectors);
    }
  }

  lemma WordKnownIfResolved(condition: Str, d: Disj, w: Token, selectors: set<Str>)
    requires Derives(condition, d) && w in FindWords(BeforePipe(condition), 0) && !IsKeyword(w.text)
    requires Resolves(LeavesDisj(d), selectors)
    ensures WordKnown(w, selectors)
  {
    WordsReadTheTree(condition, d, w);
    KindMeaning(w.text);
    WordIsWord(BeforePipe(condition), w);
    var leaf: Leaf :| leaf in LeavesDisj(d) && NameOf(leaf) == w;
    LeafReadsTheText(condition, d, leaf);
    assert LeafResolves(leaf, selectors);
    KnownMeansMatched(w, selectors);
  }

  lemma WordIsWord(s: Str, w: Token)
    requires w in FindWords(s, 0)
    ensures IsWord(w.text)
  {
    IdentifierScanIsWordTokens(s, 0);
    WordsAreTokens(FindTokens(s, 0), w);
  }

  lemma CheckedResolves(condition: Str, d: Disj, selectors: set<Str>)
    requires Derives(condition, d) && ReferencesKnownSelectors(condition, selectors)
    requires AllFeasible(Numeric(LeavesDisj(d)), selectors)
    ensures Resolves(LeavesDisj(d), selectors) && NamesSomething(LeavesDisj(d))
  {
    var words, leaves := FindWords(BeforePipe(condition), 0), LeavesDisj(d);
    forall leaf | leaf in leaves ensures LeafResolves(leaf, selectors) {
      LeafResolvesIfKnown(condition, d, leaf, selectors);
    }
    var w :| w in words && (!IsKeyword(w.text) || Lower(w.text) == THEM);
    WordIsWord(BeforePipe(condition), w);
    WordsReadTheTree(condition, d, w);
    KindMeaning(w.text);
    assert Mentions(leaves, w);
  }

  lemma ResolvedIsChecked(condition: Str, d: Disj, selectors: set<Str>)
    requires Derives(condition, d) && Resolves(LeavesDisj(d), selectors) && NamesSomething(LeavesDisj(d))
    ensures ReferencesKnownSelectors(condition, selectors)
    ensures AllFeasible(Numeric(LeavesDisj(d)), selectors)
  {
    var words, leaves := FindWords(BeforePipe(condition), 0), LeavesDisj(d);
    forall w | w in words && !IsKeyword(w.text) ensures WordKnown(w, selectors) {
      WordKnownIfResolved(condition, d, w, selectors);
    }
    forall q | q in Numeric(leaves) ensures q.Quantifier? && Feasible(q, selectors) {
      NumericMember(leaves, q);
      assert LeafResolves(q, selectors);
    }
    var leaf: Leaf :| leaf in leaves && NameOf(leaf).kind in {Glob, Name, ThemWord};
    var w := NameOf(leaf);
    LeafReadsTheText(condition, d, leaf);
    WordsReadTheTree(condition, d, w);
    KindMeaning(w.text);
    assert Mentions(leaves, w);
  }

  // What the two flat checks decide, read off the tree: they pass exactly when every name of the
  // tree resolves and not all of them are exempt keywords.
  lemma ChecksReadTheTree(condition: Str, d: Disj, selectors: set<Str>)
    requires Derives(condition, d)
    ensures ReferencesKnownSelectors(condition, selectors)
            && AllFeasible(NumericWindows(FindTokens(BeforePipe(condition), 0)), selectors)
            <==> Resolves(LeavesDisj(d), selectors) && NamesSomething(LeavesDisj(d))
  {
    FeasibilityReadsTheTree(condition, d);
    if ReferencesKnownSelectors(condition, selectors) && AllFeasible(Numeric(LeavesDisj(d)), selectors) {
      CheckedResolves(condition, d, selectors);
    }
    if Resolves(LeavesDisj(d), selectors) && NamesSomething(LeavesDisj(d)) {
      ResolvedIsChecked(condition, d, selectors);
    }
  }

  // Evaluation of a condition when exactly the selectors in "on" match an event.

  predicate HoldsDisj(d: Disj, selectors: set<Str>, on: set<Str>) {
    match d
    case Last(c) => HoldsConj(c, selectors, on)
    case Or(c, op, r) => HoldsConj(c, selectors, on) || HoldsDisj(r, selectors, on)
  }

  predicate HoldsConj(c: Conj, selectors: set<Str>, on: set<Str>) {
    match c
    case Lone(a) => HoldsAtom(a, selectors, on)
    case And(a, op, r) => HoldsAtom(a, selectors, on) && HoldsConj(r, selectors, on)
  }

  predicate HoldsAtom(a: Atom, selectors: set<Str>, on: set<Str>) {
    match a
    case Not(op, arg) => !HoldsAtom(arg, selectors, on)
    case Group(o, d, c) => HoldsDisj(d, selectors, on)
    case Quantifier(n, op, t) =>
      var range := Matching(t.text, selectors);
      if n.kind == Number then DecimalValue(n.text) <= |range * on| else range <= on
    case Selector(n) => n.text in on
  }

  // What the connectives mean: "or" over "and" over atoms.

  function Terms(d: Disj): set<Conj> {
    match d
    case Last(c) => {c}
    case Or(c, op, r) => {c} + Terms(r)
  }

  function Factors(c: Conj): set<Atom> {
    match c
    case Lone(a) => {a}
    case And(a, op, r) => {a} + Factors(r)
  }

  predicate AllHold(atoms: set<Atom>, selectors: set<Str>, on: set<Str>) {
    forall a :: a in atoms ==> HoldsAtom(a, selectors, on)
  }

  lemma {:induction false} ConjHoldsByFactors(c: Conj, selectors: set<Str>, on: set<Str>)
    ensures HoldsConj(c, selectors, on) <==> AllHold(Factors(c), selectors, on)
    decreases c
  {
    match c
    case Lone(a) =>
    case And(a, op, r) =>
      ConjHoldsByFactors(r, selectors, on);
      assert Factors(c) == {a} + Factors(r);
  }

  lemma {:induction false} DisjHoldsByTerms(d: Disj, selectors: set<Str>, on: set<Str>)
    ensures HoldsDisj(d, selectors, on) <==> exists c :: c in Terms(d) && AllHold(Factors(c), selectors, on)
    decreases d
  {
    match d
    case Last(c) =>
      ConjHoldsByFactors(c, selectors, on);
      assert Terms(d) == {c};
    case Or(c, op, r) =>
      ConjHoldsByFactors(c, selectors, on);
      DisjHoldsByTerms(r, selectors, on);
      assert Terms(d) == {c} + Terms(r);
      assert c in Terms(d);
  }

  lemma AtomsMean(a: Atom, selectors: set<Str>, on: set<Str>)
    ensures a.Not? ==> HoldsAtom(a, selectors, on) != HoldsAtom(a.arg, selectors, on)
    ensures a.Group? ==> HoldsAtom(a, selectors, on) == HoldsDisj(a.body, selectors, on)
    ensures a.Selector? ==> HoldsAtom(a, selectors, on) == (a.name.text in on)
  {
  }

  // A numeric quantifier holds when that many of the selectors its target ranges over match, "all of"
  // when every one of them does.
  lemma QuantifierCounts(q: Leaf, selectors: set<Str>, on: set<Str>)
    requires q.Quantifier?
    ensures q.count.kind == Number ==>
              (HoldsAtom(q, selectors, on) <==>
                 exists chosen: set<Str> :: |chosen| == DecimalValue(q.count.text)
                                            && chosen <= on && chosen <= Matching(q.target.text, selectors))
    ensures q.count.kind != Number ==>
              (HoldsAtom(q, selectors, on) <==> forall n :: n in Matching(q.target.text, selectors) ==> n in on)
  {
    var range := Matching(q.target.text, selectors);
    if q.count.kind == Number {
      if HoldsAtom(q, selectors, on) {
        var chosen := Pick(range * on, DecimalValue(q.count.text));
      }
      if chosen: set<Str> :| |chosen| == DecimalValue(q.count.text) && chosen <= on && chosen <= range {
        SubsetSize(chosen, range * on);
      }
    }
  }

  lemma {:induction false} Pick(a: set<Str>, n: nat) returns (chosen: set<Str>)
    requires n <= |a|
    ensures chosen <= a && |chosen| == n
    decreases |a|
  {
    if n == |a| {
      return a;
    }
    var x :| x in a;
    chosen := Pick(a - {x}, n);
  }

  predicate NegationFreeDisj(d: Disj) {
    match d
    case Last(c) => NegationFreeConj(c)
    case Or(c, op, r) => NegationFreeConj(c) && NegationFreeDisj(r)
  }

  predicate NegationFreeConj(c: Conj) {
    match c
    case Lone(a) => NegationFreeAtom(a)
    case And(a, op, r) => NegationFreeAtom(a) && NegationFreeConj(r)
  }

  predicate NegationFreeAtom(a: Atom) {
    match a
    case Not(op, arg) => false
    case Group(o, d, c) => NegationFreeDisj(d)
    case _ => true
  }

  // A numeric quantifier can be satisfied by some selectors exactly when it is feasible.
  lemma FeasibleIsSatisfiable(q: Leaf, selectors: set<Str>)
    requires q.Quantifier? && q.count.kind == Number
    ensures Feasible(q, selectors) <==> exists on: set<Str> :: on <= selectors && HoldsAtom(q, selectors, on)
  {
    var range := Matching(q.target.text, selectors);
    assert range * selectors == range;
    assert Feasible(q, selectors) ==> HoldsAtom(q, selectors, selectors);
    if on: set<Str> :| on <= selectors && HoldsAtom(q, selectors, on) {
      SubsetSize(range * on, range);
    }
  }

  // Without "not", more matching selectors never turn a condition off.

  lemma {:induction false} MonotoneDisj(d: Disj, selectors: set<Str>, on: set<Str>, more: set<Str>)
    requires NegationFreeDisj(d) && on <= more && HoldsDisj(d, selectors, on)
    ensures HoldsDisj(d, selectors, more)
    decreases d
  {
    match d
    case Last(c) => MonotoneConj(c, selectors, on, more);
    case Or(c, op, r) =>
      if HoldsConj(c, selectors, on) {
        MonotoneConj(c, selectors, on, more);
      } else {
        MonotoneDisj(r, selectors, on, more);
      }
  }

  lemma {:induction false} MonotoneConj(c: Conj, selectors: set<Str>, on: set<Str>, more: set<Str>)
    requires NegationFreeConj(c) && on <= more && HoldsConj(c, selectors, on)
    ensures HoldsConj(c, selectors, more)
    decreases c
  {
    match c
    case Lone(a) => MonotoneAtom(a, selectors, on, more);
    case And(a, op, r) =>
      MonotoneAtom(a, selectors, on, more);
      MonotoneConj(r, selectors, on, more);
  }

  lemma {:induction false} MonotoneAtom(a: Atom, selectors: set<Str>, on: set<Str>, more: set<Str>)
    requires NegationFreeAtom(a) && on <= more && HoldsAtom(a, selectors, on)
    ensures HoldsAtom(a, selectors, more)
    decreases a
  {
    match a
    case Not(op, arg) =>
    case Group(o, d, c) => MonotoneDisj(d, selectors, on, more);
    case Quantifier(n, op, t) =>
      var range := Matching(t.text, selectors);
      SubsetSize(range * on, range * more);
    case Selector(n) =>
  }

  // A condition without "not" whose names all resolve holds when every selector matches.

  lemma {:induction false} AllOnDisj(d: Disj, selectors: set<Str>)
    requires NegationFreeDisj(d) && Resolves(LeavesDisj(d), selectors)
    ensures HoldsDisj(d, selectors, selectors)
    decreases d
  {
    match d
    case Last(c) => AllOnConj(c, selectors);
    case Or(c, op, r) =>
      assert forall leaf :: leaf in LeavesConj(c) ==> leaf in LeavesDisj(d);
      AllOnConj(c, selectors);
  }

  lemma {:induction false} AllOnConj(c: Conj, selectors: set<Str>)
    requires NegationFreeConj(c) && Resolves(LeavesConj(c), selectors)
    ensures HoldsConj(c, selectors, selectors)
    decreases c
  {
    match c
    case Lone(a) => AllOnAtom(a, selectors);
    case And(a, op, r) =>
      assert forall leaf :: leaf in LeavesAtom(a) || leaf in LeavesConj(r) ==> leaf in LeavesConj(c);
      AllOnAtom(a, selectors);
      AllOnConj(r, selectors);
  }

  lemma {:induction false} AllOnAtom(a: Atom, selectors: set<Str>)
    requires NegationFreeAtom(a) && Resolves(LeavesAtom(a), selectors)
    ensures HoldsAtom(a, selectors, selectors)
    decreases a
  {
    match a
    case Not(op, arg) =>
    case Group(o, d, c) => AllOnDisj(d, selectors);
    case Quantifier(n, op, t) =>
      assert a in LeavesAtom(a);
      var range := Matching(t.text, selectors);
      assert range * selectors == range;
    case Selector(n) =>
      assert a in LeavesAtom(a);
  }

  // What acceptance promises: the condition has one parse tree, every name in it
  // resolves, and unless it negates something, some events satisfy it - all selectors matching
  // is one such - and matching more selectors keeps it satisfied.
  lemma AcceptedConditionMeansSomething(condition: Str, d: Disj, selectors: set<Str>)
    requires Derives(condition, d)
    requires ReferencesKnownSelectors(condition, selectors)
    requires AllFeasible(NumericWindows(FindTokens(BeforePipe(condition), 0)), selectors)
    ensures Resolves(LeavesDisj(d), selectors)
    ensures NegationFreeDisj(d) ==> HoldsDisj(d, selectors, selectors)
    ensures NegationFreeDisj(d) ==>
              forall on, more :: on <= more && HoldsDisj(d, selectors, on) ==> HoldsDisj(d, selectors, more)
  {
    ChecksReadTheTree(condition, d, selectors);
    if NegationFreeDisj(d) {
      AllOnDisj(d, selectors);
      forall on, more | on <= more && HoldsDisj(d, selectors, on) ensures HoldsDisj(d, selectors, more) {
        MonotoneDisj(d, selectors, on, more);
      }
    }
  }

  // Declaring one more selector breaks no name that resolved.
  lemma DeclaringMoreKeepsNames(leaves: seq<Leaf>, selectors: set<Str>, more: set<Str>)
    requires Resolves(leaves, selectors) && selectors <= more
    ensures Resolves(leaves, more)
  {
    forall leaf | leaf in leaves ensures LeafResolves(leaf, more) {
      assert LeafResolves(leaf, selectors);
      if leaf.Quantifier? {
        var before, after := Matching(leaf.target.text, selectors), Matching(leaf.target.text, more);
        assert before <= after;
        SubsetSize(before, after);
      }
    }
  }
}
