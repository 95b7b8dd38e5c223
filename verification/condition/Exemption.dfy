/**
 The keyword exemption: the target of "all of" may be an operator word, which the
 reference check does not look up and the feasibility check does not count. Exactly
 those quantifiers of an accepted condition range over no selector at all.
 */
module Exemption {
  import opened Text
  import opened Lexer
  import opened Grammar
  import opened Scans
  import opened Recognizer
  import opened Selectors

  ghost predicate Accepted(condition: Str, d: Disj, selectors: set<Str>) {
    && Derives(condition, d)
    && ReferencesKnownSelectors(condition, selectors)
    && AllFeasible(NumericWindows(FindTokens(BeforePipe(condition), 0)), selectors)
  }

  predicate ExemptTarget(leaf: Leaf) {
    leaf.Quantifier? && leaf.count.kind == AllWord && IsKeyword(leaf.target.text) && Lower(leaf.target.text) != THEM
  }

  lemma KeywordMatchesNothing(target: Str, selectors: set<Str>)
    requires IsKeyword(target) && Lower(target) != THEM
    requires forall n :: n in selectors ==> !IsKeyword(n)
    ensures Matching(target, selectors) == {}
  {
    KindMeaning(target);
    forall n | n in selectors ensures !GlobMatches(target, n) {
      PlainPatternMatchesItself(target, n);
    }
  }

  // Every quantifier of an accepted condition ranges over some selector if and only if no "all of"
  // has an operator word for its target.
  lemma OnlyKeywordTargetsAreEmpty(condition: Str, d: Disj, selectors: set<Str>)
    requires Accepted(condition, d, selectors)
    requires selectors != {} && forall n :: n in selectors ==> !IsKeyword(n)
    ensures forall leaf: Leaf :: leaf in LeavesDisj(d) && leaf.Quantifier? ==>
                                   (Matching(leaf.target.text, selectors) == {} <==> ExemptTarget(leaf))
  {
    ChecksReadTheTree(condition, d, selectors);
    forall leaf: Leaf | leaf in LeavesDisj(d) && leaf.Quantifier?
      ensures Matching(leaf.target.text, selectors) == {} <==> ExemptTarget(leaf)
    {
      LeafReadsTheText(condition, d, leaf);
      assert LeafResolves(leaf, selectors);
      if ExemptTarget(leaf) {
        KeywordMatchesNothing(leaf.target.text, selectors);
      }
    }
  }

  // Without "not", and unless a quantifier ranges over nothing, a condition is false when nothing matches.

  ghost predicate NoneExempt(leaves: seq<Leaf>, selectors: set<Str>) {
    forall leaf: Leaf :: leaf in leaves && leaf.Quantifier? ==> Matching(leaf.target.text, selectors) != {}
  }

  lemma {:induction false} NothingOnDisj(d: Disj, selectors: set<Str>)
    requires ValidDisj(d) && NegationFreeDisj(d) && NoneExempt(LeavesDisj(d), selectors)
    ensures !HoldsDisj(d, selectors, {})
    decreases d
  {
    match d
    case Last(c) => NothingOnConj(c, selectors);
    case Or(c, op, r) =>
      assert forall leaf :: leaf in LeavesConj(c) || leaf in LeavesDisj(r) ==> leaf in LeavesDisj(d);
      NothingOnConj(c, selectors);
      NothingOnDisj(r, selectors);
  }

  lemma {:induction false} NothingOnConj(c: Conj, selectors: set<Str>)
    requires ValidConj(c) && NegationFreeConj(c) && NoneExempt(LeavesConj(c), selectors)
    ensures !HoldsConj(c, selectors, {})
    decreases c
  {
    match c
    case Lone(a) => NothingOnAtom(a, selectors);
    case And(a, op, r) =>
      assert forall leaf :: leaf in LeavesAtom(a) ==> leaf in LeavesConj(c);
      NothingOnAtom(a, selectors);
  }

  lemma {:induction false} NothingOnAtom(a: Atom, selectors: set<Str>)
    requires ValidAtom(a) && NegationFreeAtom(a) && NoneExempt(LeavesAtom(a), selectors)
    ensures !HoldsAtom(a, selectors, {})
    decreases a
  {
    match a
    case Not(op, arg) =>
    case Group(o, d, c) => NothingOnDisj(d, selectors);
    case Quantifier(n, op, t) => assert a in LeavesAtom(a);
    case Selector(n) =>
  }

  lemma {:induction false} NothingAfterPipe(s: Str)
    requires PIPE !in s
    ensures BeforePipe(s) == s
  {
    if s != [] {
      NothingAfterPipe(s[1..]);
    }
  }

  const SPACE: Str := [0x20]
  const SEL: Str := [0x73]

  // all of and and s
  const WITNESS: Str := ALL + SPACE + OF + SPACE + AND + SPACE + AND + SPACE + SEL

  const WITNESS_QUANTIFIER: Leaf := Quantifier(Token(0, ALL, AllWord), Token(4, OF, OfWord), Token(7, AND, AndWord))

  const WITNESS_TREE: Disj :=
    Last(And(WITNESS_QUANTIFIER, Token(11, AND, AndWord), Lone(Selector(Token(15, SEL, Name)))))

  const WITNESS_TOKENS: seq<Token> := [
    Token(0, ALL, AllWord), Token(4, OF, OfWord), Token(7, AND, AndWord), Token(11, AND, AndWord), Token(15, SEL, Name)]

  lemma OperatorKinds()
    ensures KindOf(ALL) == AllWord && KindOf(OF) == OfWord && KindOf(AND) == AndWord && KindOf(SEL) == Name
    ensures !IsKeyword(SEL) && IsKeyword(AND) && Lower(AND) != THEM
  {
    KeywordsDiffer();
    assert Lower(ALL) == ALL && Lower(OF) == OF && Lower(AND) == AND && Lower(SEL) == SEL;
    assert |SEL| == 1;
    KindMeaning(ALL);
    KindMeaning(OF);
    KindMeaning(AND);
    KindMeaning(SEL);
  }

  // A word of s that ends at a space, or with s.
  predicate WordAt(s: Str, t: Token) {
    && t.End() <= |s| && s[t.start..t.End()] == t.text && KindOf(t.text) == t.kind && IsWord(t.text)
    && (t.End() < |s| ==> IsSpace(s[t.End()]))
  }

  lemma WordIsLexed(s: Str, from: nat, t: Token)
    requires WordAt(s, t) && (t.start == from || (t.start == from + 1 && IsSpace(s[from])))
    ensures IsLexemeOf(s, t) && Blank(s[from..t.start])
  {
  }

  // Words with one space between them are lexed as those words.
  lemma {:induction false} SpacedWordsLex(s: Str, from: nat, ts: seq<Token>)
    requires from <= |s| && (forall t :: t in ts ==> WordAt(s, t)) && (ts == [] ==> from == |s|)
    requires ts != [] ==> ts[0].start == (if from == 0 then 0 else from + 1) && ts[|ts| - 1].End() == |s|
    requires from < |s| && from > 0 ==> IsSpace(s[from])
    requires forall i :: 0 < i < |ts| ==> ts[i].start == ts[i - 1].End() + 1
    ensures Lexes(s, from, ts)
    decreases |ts|
  {
    if ts != [] {
      var t, rest := ts[0], ts[1..];
      WordIsLexed(s, from, t);
      forall i | 0 < i < |rest| ensures rest[i].start == rest[i - 1].End() + 1 {
        assert rest[i] == ts[i + 1];
      }
      assert rest != [] ==> rest[0] == ts[1] && ts[1].start == t.End() + 1;
      assert rest == [] ==> ts[|ts| - 1] == t;
      SpacedWordsLex(s, t.End(), rest);
    }
  }

  lemma WitnessText()
    ensures |WITNESS| == 16
    ensures WITNESS[0..3] == ALL && WITNESS[4..6] == OF && WITNESS[7..10] == AND && WITNESS[11..14] == AND
    ensures WITNESS[15..16] == SEL
    ensures WITNESS[3] == WITNESS[6] == WITNESS[10] == WITNESS[14] == 0x20 && PIPE !in WITNESS
  {
  }

  lemma WitnessWordsIn(s: Str)
    requires |s| == 16
    requires s[0..3] == ALL && s[4..6] == OF && s[7..10] == AND && s[11..14] == AND && s[15..16] == SEL
    requires s[3] == s[6] == s[10] == s[14] == 0x20
    ensures forall i :: 0 <= i < 5 ==> WordAt(s, WITNESS_TOKENS[i])
  {
    OperatorKinds();
    OperatorsAreWords();
    var ts := WITNESS_TOKENS;
    assert ts[0].End() == 3 && ts[1].End() == 6 && ts[2].End() == 10 && ts[3].End() == 14 && ts[4].End() == 16;
    assert WordAt(s, ts[0]) && WordAt(s, ts[1]) && WordAt(s, ts[2]) && WordAt(s, ts[3]) && WordAt(s, ts[4]);
  }

  lemma WitnessLexes(s: Str)
    requires |s| == 16 && forall i :: 0 <= i < 5 ==> WordAt(s, WITNESS_TOKENS[i])
    ensures Lexes(s, 0, WITNESS_TOKENS)
  {
    SpacedWordsLex(s, 0, WITNESS_TOKENS);
  }

  lemma OperatorsAreWords()
    ensures IsWord(ALL) && IsWord(OF) && IsWord(AND) && IsWord(SEL)
  {
  }

  lemma WitnessDerives()
    ensures Derives(WITNESS, WITNESS_TREE)
  {
    WitnessText();
    WitnessWordsIn(WITNESS);
    WitnessLexes(WITNESS);
    NothingAfterPipe(WITNESS);
    WitnessYield();
  }

  lemma WitnessYield()
    ensures ValidDisj(WITNESS_TREE) && YieldDisj(WITNESS_TREE) == WITNESS_TOKENS
  {
  }

  lemma WitnessLeaves()
    ensures LeavesDisj(WITNESS_TREE) == [WITNESS_QUANTIFIER, Selector(Token(15, SEL, Name))]
  {
  }

  lemma WitnessResolves()
    ensures Resolves(LeavesDisj(WITNESS_TREE), {SEL}) && NamesSomething(LeavesDisj(WITNESS_TREE))
  {
    OperatorKinds();
    WitnessLeaves();
    var leaves := LeavesDisj(WITNESS_TREE);
    assert leaves[1] in leaves && NameOf(leaves[1]).kind == Name;
  }

  lemma WitnessAccepted()
    ensures Accepted(WITNESS, WITNESS_TREE, {SEL})
  {
    WitnessDerives();
    WitnessResolves();
    ChecksReadTheTree(WITNESS, WITNESS_TREE, {SEL});
  }

  lemma WitnessIsGrammatical()
    ensures Grammatical(WITNESS)
  {
    WitnessDerives();
    WitnessFits();
  }

  lemma WitnessFits()
    ensures NestDisj(WITNESS_TREE) == 0 && Separated(LeavesDisj(WITNESS_TREE))
  {
    WitnessLeaves();
  }

  // Such a condition is accepted: "all of and and s", with s the one selector.
  lemma KeywordTargetIsAccepted()
    ensures Grammatical(WITNESS) && Accepted(WITNESS, WITNESS_TREE, {SEL})
    ensures WITNESS_QUANTIFIER in LeavesDisj(WITNESS_TREE) && ExemptTarget(WITNESS_QUANTIFIER)
    ensures Matching(WITNESS_QUANTIFIER.target.text, {SEL}) == {}
  {
    WitnessIsGrammatical();
    WitnessAccepted();
    WitnessLeaves();
    OperatorKinds();
    KeywordMatchesNothing(AND, {SEL});
  }
}
