/**
 The condition recognizer: a bracket prescan, the tokenizer with its gap loop, a
 separator loop and a recursive-descent parser whose three methods advance one
 shared index. It accepts exactly the grammatical conditions.
 */
module Recognizer {
  import opened Text
  import opened Lexer
  import opened Grammar
  import opened Parser
  import opened Scans

  // d is the parse tree of the text before the first pipe.
  ghost predicate Derives(condition: Str, d: Disj) {
    ValidDisj(d) && Lexes(BeforePipe(condition), 0, YieldDisj(d))
  }

  // The accepted language.
  ghost predicate Grammatical(condition: Str) {
    exists d :: Derives(condition, d) && NestDisj(d) <= MAX_NESTING && Separated(LeavesDisj(d))
  }

  // A condition has at most one parse tree.
  lemma DerivationUnique(condition: Str, d: Disj, e: Disj)
    requires Derives(condition, d) && Derives(condition, e)
    ensures d == e
  {
    var s := BeforePipe(condition);
    LexesIsScan(s, 0, YieldDisj(d));
    LexesIsScan(s, 0, YieldDisj(e));
    ParseIsExact(YieldDisj(d), d);
    ParseIsExact(YieldDisj(e), e);
  }

  // The four stages, on the text before the pipe.
  predicate StagesPass(s: Str) {
    var ts := FindTokens(s, 0);
    && BracketsOk(s, 0) && ts != [] && GapsBlank(s, 0, ts) && SeparatorsOk(ts)
    && ParseDisj(ts, 0).Done? && ParseDisj(ts, 0).next == |ts|
  }

  lemma TreePassesFlatScans(s: Str, d: Disj)
    requires ValidDisj(d) && Lexes(s, 0, YieldDisj(d))
    ensures BracketsOk(s, 0) <==> NestDisj(d) <= MAX_NESTING
    ensures SeparatorsOk(YieldDisj(d)) <==> Separated(LeavesDisj(d))
  {
    var ts := YieldDisj(d);
    assert ts + [] == ts && s[0..] == s;
    BracketsOfTokens(s, 0, ts, 0);
    BracketsOfDisj(d, [], 0);
    LexesKeepsWordsApart(s, 0, ts);
    SeparatorsOfDisj(d, []);
  }

  // Besides the depth cap and the separation of numeric counts, no stage rejects a grammatical text.
  lemma StagesAreExact(condition: Str)
    ensures StagesPass(BeforePipe(condition)) <==> Grammatical(condition)
  {
    var s := BeforePipe(condition);
    var ts := FindTokens(s, 0);
    if StagesPass(s) {
      var d := ParseDisj(ts, 0).tree;
      ParseIsExact(ts, d);
      GapLoopIsExact(s, ts);
      TreePassesFlatScans(s, d);
      assert Derives(condition, d);
    }
    if d :| Derives(condition, d) && NestDisj(d) <= MAX_NESTING && Separated(LeavesDisj(d)) {
      GapLoopIsExact(s, YieldDisj(d));
      ParseIsExact(ts, d);
      TreePassesFlatScans(s, d);
    }
  }

  // Open minus closed brackets, and "not" words, among the first n tokens.

  ghost function Balance(ts: seq<Token>, n: nat): int
    requires n <= |ts|
  {
    if n == 0 then 0
    else Balance(ts, n - 1)
         + (if ts[n - 1].kind == Open then 1 else if ts[n - 1].kind == Close then -1 else 0)
  }

  ghost function Nots(ts: seq<Token>, n: nat): nat
    requires n <= |ts|
  {
    if n == 0 then 0 else Nots(ts, n - 1) + (if ts[n - 1].kind == NotWord then 1 else 0)
  }

  lemma {:induction false} NotsMonotone(ts: seq<Token>, i: nat, j: nat)
    requires i <= j <= |ts|
    ensures Nots(ts, i) <= Nots(ts, j)
    decreases j - i
  {
    if i < j {
      NotsMonotone(ts, i, j - 1);
    }
  }

  // The prescan bounds the bracket depth at every token.
  lemma {:induction false} PrescanBoundsDepth(ts: seq<Token>, k: nat, n: nat)
    requires k <= n <= |ts| && Balance(ts, k) <= MAX_NESTING && TokenBracketsOk(ts[k..], Balance(ts, k))
    ensures Balance(ts, n) <= MAX_NESTING
    decreases n - k
  {
    if k < n {
      assert ts[k..][1..] == ts[k + 1..];
      PrescanBoundsDepth(ts, k + 1, n);
    }
  }

  // How many parser calls can be active inside one another when the first n tokens are read:
  // three for each open bracket, one for each "not".
  ghost function Room(ts: seq<Token>, n: nat): int
    requires n <= |ts|
  {
    if n == 0 then 0
    else
      var k := ts[n - 1].kind;
      Room(ts, n - 1) + (if k == Open then 3 else if k == Close then -3 else if k == NotWord then 1 else 0)
  }

  lemma {:induction false} RoomIsBalanceAndNots(ts: seq<Token>, n: nat)
    requires n <= |ts|
    ensures Room(ts, n) == 3 * Balance(ts, n) + Nots(ts, n)
  {
    if n > 0 {
      RoomIsBalanceAndNots(ts, n - 1);
    }
  }

  // The deepest stack of parser calls that a prescanned text allows.
  ghost function CallBound(ts: seq<Token>): nat {
    3 * (MAX_NESTING + 1) + Nots(ts, |ts|)
  }

  lemma RoomBounded(ts: seq<Token>, n: nat)
    requires n <= |ts| && TokenBracketsOk(ts, 0)
    ensures Room(ts, n) + 3 <= CallBound(ts)
  {
    assert ts[0..] == ts;
    PrescanBoundsDepth(ts, 0, n);
    NotsMonotone(ts, n, |ts|);
    RoomIsBalanceAndNots(ts, n);
  }

  // What a successful parse consumes is balanced, so it leaves no less room.

  lemma {:induction false} DisjKeepsRoom(ts: seq<Token>, i: nat)
    requires i <= |ts| && ParseDisj(ts, i).Done?
    ensures Room(ts, ParseDisj(ts, i).next) >= Room(ts, i)
    decreases |ts| - i, 2
  {
    ConjKeepsRoom(ts, i);
    var j := ParseConj(ts, i).next;
    if NextIs(ts, j, OrWord) {
      DisjKeepsRoom(ts, j + 1);
    }
  }

  lemma {:induction false} ConjKeepsRoom(ts: seq<Token>, i: nat)
    requires i <= |ts| && ParseConj(ts, i).Done?
    ensures Room(ts, ParseConj(ts, i).next) >= Room(ts, i)
    decreases |ts| - i, 1
  {
    AtomKeepsRoom(ts, i);
    var j := ParseAtom(ts, i).next;
    if NextIs(ts, j, AndWord) {
      ConjKeepsRoom(ts, j + 1);
    }
  }

  lemma {:induction false} AtomKeepsRoom(ts: seq<Token>, i: nat)
    requires i <= |ts| && ParseAtom(ts, i).Done?
    ensures Room(ts, ParseAtom(ts, i).next) >= Room(ts, i)
    decreases |ts| - i, 0
  {
    if ts[i].kind == NotWord {
      AtomKeepsRoom(ts, i + 1);
    } else if ts[i].kind == Open {
      DisjKeepsRoom(ts, i + 1);
    } else if ts[i].kind != Name {
      assert Room(ts, i + 2) >= Room(ts, i + 1) >= Room(ts, i);
    }
  }

  // The first n tokens carry the kind of their text.
  ghost predicate Tagged(ts: seq<Token>, n: nat)
    requires n <= |ts|
  {
    n == 0 || (Tagged(ts, n - 1) && ts[n - 1].kind == KindOf(ts[n - 1].text))
  }

  // The parser's tests on the text of token k, in terms of its kind.
  lemma {:induction false} TokenTests(ts: seq<Token>, k: nat, n: nat)
    requires k < n <= |ts| && Tagged(ts, n)
    ensures Lower(ts[k].text) == AND <==> ts[k].kind == AndWord
    ensures Lower(ts[k].text) == OR <==> ts[k].kind == OrWord
    ensures Lower(ts[k].text) == NOT <==> ts[k].kind == NotWord
    ensures Lower(ts[k].text) == OF <==> ts[k].kind == OfWord
    ensures Lower(ts[k].text) == ALL <==> ts[k].kind == AllWord
    ensures Lower(ts[k].text) == THEM <==> ts[k].kind == ThemWord
    ensures ts[k].text == [LPAREN] <==> ts[k].kind == Open
    ensures ts[k].text == [RPAREN] <==> ts[k].kind == Close
    ensures IsNumber(ts[k].text) <==> ts[k].kind == Number
    ensures IsWord(ts[k].text) <==> IsWordKind(ts[k].kind)
    ensures IsSelectorName(ts[k].text) && !IsKeyword(ts[k].text) <==> ts[k].kind == Name
    decreases n
  {
    if k < n - 1 {
      TokenTests(ts, k, n - 1);
    } else {
      KindMeaning(ts[k].text);
    }
  }

  // Those of the two loops.

  lemma AndTest(ts: seq<Token>, k: nat, n: nat)
    requires k < n <= |ts| && Tagged(ts, n)
    ensures Lower(ts[k].text) == AND <==> NextIs(ts, k, AndWord)
  {
    TokenTests(ts, k, n);
  }

  lemma OrTest(ts: seq<Token>, k: nat, n: nat)
    requires k < n <= |ts| && Tagged(ts, n)
    ensures Lower(ts[k].text) == OR <==> NextIs(ts, k, OrWord)
  {
    TokenTests(ts, k, n);
  }

  // Where the disjunction at i ends, or -1; and where it ends once a conjunction has ended at j.

  function DisjEnd(ts: seq<Token>, i: nat): int
    requires i <= |ts|
  {
    if ParseDisj(ts, i).Done? then ParseDisj(ts, i).next else -1
  }

  function DisjTail(ts: seq<Token>, j: nat): int
    requires j <= |ts|
  {
    if NextIs(ts, j, OrWord) then DisjEnd(ts, j + 1) else j
  }

  function ConjEnd(ts: seq<Token>, i: nat): int
    requires i <= |ts|
  {
    if ParseConj(ts, i).Done? then ParseConj(ts, i).next else -1
  }

  function ConjTail(ts: seq<Token>, j: nat): int
    requires j <= |ts|
  {
    if NextIs(ts, j, AndWord) then ConjEnd(ts, j + 1) else j
  }

  function AtomEnd(ts: seq<Token>, i: nat): int
    requires i <= |ts|
  {
    if ParseAtom(ts, i).Done? then ParseAtom(ts, i).next else -1
  }

  // How many calls the parse at i nests, or 0; and what follows an operand that ended at j.

  ghost function DisjCalls(ts: seq<Token>, i: nat): nat
    requires i <= |ts|
  {
    if ParseDisj(ts, i).Done? then CallsOfDisj(ParseDisj(ts, i).tree) else 0
  }

  ghost function DisjTailCalls(ts: seq<Token>, j: nat): nat
    requires j <= |ts|
  {
    if NextIs(ts, j, OrWord) then DisjCalls(ts, j + 1) else 0
  }

  ghost function ConjCalls(ts: seq<Token>, i: nat): nat
    requires i <= |ts|
  {
    if ParseConj(ts, i).Done? then CallsOfConj(ParseConj(ts, i).tree) else 0
  }

  ghost function ConjTailCalls(ts: seq<Token>, j: nat): nat
    requires j <= |ts|
  {
    if NextIs(ts, j, AndWord) then ConjCalls(ts, j + 1) else 0
  }

  ghost function AtomCalls(ts: seq<Token>, i: nat): nat
    requires i <= |ts|
  {
    if ParseAtom(ts, i).Done? then CallsOfAtom(ParseAtom(ts, i).tree) else 0
  }

  // How many calls the atom at i nests, by the kind of its first token.
  lemma AtomCallSteps(ts: seq<Token>, i: nat)
    requires i < |ts|
    ensures AtomCalls(ts, i) <= if ts[i].kind == NotWord then 1 + AtomCalls(ts, i + 1)
                                else if ts[i].kind == Open then 1 + DisjCalls(ts, i + 1) else 1
  {
  }

  lemma ConjEndSteps(ts: seq<Token>, i: nat)
    requires i <= |ts|
    ensures AtomEnd(ts, i) != -1 ==> ConjCalls(ts, i) <= Max(1 + AtomCalls(ts, i), ConjTailCalls(ts, AtomEnd(ts, i)))
    ensures AtomEnd(ts, i) == -1 || i < AtomEnd(ts, i) <= |ts|
    ensures ConjEnd(ts, i) == if AtomEnd(ts, i) == -1 then -1 else ConjTail(ts, AtomEnd(ts, i))
    ensures AtomEnd(ts, i) != -1 ==> Room(ts, AtomEnd(ts, i)) >= Room(ts, i)
  {
    if ParseAtom(ts, i).Done? {
      AtomKeepsRoom(ts, i);
    }
  }

  lemma ConjTailSteps(ts: seq<Token>, j: nat)
    requires NextIs(ts, j, AndWord)
    ensures AtomEnd(ts, j + 1) == -1 || j + 1 < AtomEnd(ts, j + 1) <= |ts|
    ensures ConjTail(ts, j) == if AtomEnd(ts, j + 1) == -1 then -1 else ConjTail(ts, AtomEnd(ts, j + 1))
    ensures AtomEnd(ts, j + 1) != -1 ==>
              ConjTailCalls(ts, j) <= Max(1 + AtomCalls(ts, j + 1), ConjTailCalls(ts, AtomEnd(ts, j + 1)))
    ensures Room(ts, j + 1) == Room(ts, j)
    ensures AtomEnd(ts, j + 1) != -1 ==> Room(ts, AtomEnd(ts, j + 1)) >= Room(ts, j)
  {
    ConjEndSteps(ts, j + 1);
  }

  lemma DisjTailSteps(ts: seq<Token>, j: nat)
    requires NextIs(ts, j, OrWord)
    ensures ConjEnd(ts, j + 1) == -1 || j + 1 < ConjEnd(ts, j + 1) <= |ts|
    ensures DisjTail(ts, j) == if ConjEnd(ts, j + 1) == -1 then -1 else DisjTail(ts, ConjEnd(ts, j + 1))
    ensures ConjEnd(ts, j + 1) != -1 ==>
              DisjTailCalls(ts, j) <= Max(1 + ConjCalls(ts, j + 1), DisjTailCalls(ts, ConjEnd(ts, j + 1)))
    ensures Room(ts, j + 1) == Room(ts, j)
    ensures ConjEnd(ts, j + 1) != -1 ==> Room(ts, ConjEnd(ts, j + 1)) >= Room(ts, j)
  {
    DisjEndSteps(ts, j + 1);
  }

  lemma DisjEndSteps(ts: seq<Token>, i: nat)
    requires i <= |ts|
    ensures ConjEnd(ts, i) != -1 ==> DisjCalls(ts, i) <= Max(1 + ConjCalls(ts, i), DisjTailCalls(ts, ConjEnd(ts, i)))
    ensures ConjEnd(ts, i) == -1 || i < ConjEnd(ts, i) <= |ts|
    ensures DisjEnd(ts, i) == if ConjEnd(ts, i) == -1 then -1 else DisjTail(ts, ConjEnd(ts, i))
    ensures ConjEnd(ts, i) != -1 ==> Room(ts, ConjEnd(ts, i)) >= Room(ts, i)
  {
    if ParseConj(ts, i).Done? {
      ConjKeepsRoom(ts, i);
    }
  }

  // Where the atom at i ends, by the kind of its first token.
  lemma AtomEndSteps(ts: seq<Token>, i: nat)
    requires i < |ts|
    ensures ts[i].kind == NotWord ==> AtomEnd(ts, i) == AtomEnd(ts, i + 1)
    ensures ts[i].kind == Open ==>
              var j := DisjEnd(ts, i + 1);
              && (j == -1 || i < j <= |ts|)
              && AtomEnd(ts, i) == if j != -1 && NextIs(ts, j, Close) then j + 1 else -1
    ensures ts[i].kind == Name ==> AtomEnd(ts, i) == i + 1
    ensures ts[i].kind !in {NotWord, Open, Name} ==>
              AtomEnd(ts, i) == if IsCount(ts[i]) && i + 2 < |ts| && ts[i + 1].kind == OfWord && IsTarget(ts[i + 2])
                                then i + 3 else -1
  {
  }

  /** The parser's state: the tokens, and the index its methods share. */
  class ConditionParser {
    const tokens: seq<Token>
    var index: nat
    ghost var peak: nat // the most parser calls that have been active at once

    constructor (tokens: seq<Token>)
      ensures this.tokens == tokens && index == 0 && peak == 0
    {
      this.tokens := tokens;
      index, peak := 0, 0;
    }

    ghost predicate Valid()
      reads this
    {
      && index <= |tokens| && peak <= CallBound(tokens)
      && TokenBracketsOk(tokens, 0) && Tagged(tokens, |tokens|)
    }

    method Atom(ghost frames: nat) returns (ok: bool)
      requires Valid() && frames <= Room(tokens, index) + 3
      modifies this
      ensures Valid()
      ensures AtomEnd(tokens, old(index)) == if ok then index else -1
      ensures peak >= frames && peak >= old(peak)
      ensures ok ==> peak + 1 >= frames + AtomCalls(tokens, old(index))
      decreases |tokens| - index, 0
    {
      RoomBounded(tokens, index);
      peak := Max(peak, frames);
      if index >= |tokens| {
        return false;
      }
      var token := tokens[index].text;
      TokenTests(tokens, index, |tokens|);
      AtomEndSteps(tokens, index);
      AtomCallSteps(tokens, index);
      index := index + 1;
      var lower := Lower(token);
      if lower == NOT {
        ok := Atom(frames + 1);
        return;
      }
      if token == [LPAREN] {
        ok := Disjunction(frames + 1);
        if !ok || index >= |tokens| {
          return false;
        }
        TokenTests(tokens, index, |tokens|);
        if tokens[index].text != [RPAREN] {
          return false;
        }
        index := index + 1;
        return true;
      }
      if lower == ALL || IsNumber(token) {
        ok := Quantified(token);
        return;
      }
      if IsKeyword(token) || token == [RPAREN] || STAR in token {
        return false;
      }
      return IsSelectorName(token);
    }

    // The rest of a quantifier, after its count.
    method Quantified(token: Str) returns (ok: bool)
      requires Valid() && 0 < index && token == tokens[index - 1].text && tokens[index - 1].kind in {AllWord, Number}
      modifies this`index
      ensures Valid() && AtomEnd(tokens, old(index) - 1) == if ok then index else -1
    {
      AtomEndSteps(tokens, index - 1);
      TokenTests(tokens, index - 1, |tokens|);
      if IsNumber(token) && DecimalValue(token) < 1 {
        return false;
      }
      if index + 1 >= |tokens| {
        return false;
      }
      TokenTests(tokens, index, |tokens|);
      if Lower(tokens[index].text) != OF {
        return false;
      }
      index := index + 1;
      var target := tokens[index].text;
      TokenTests(tokens, index, |tokens|);
      index := index + 1;
      return Lower(target) == THEM || IsWord(target);
    }

    method Conjunction(ghost frames: nat) returns (ok: bool)
      requires Valid() && frames <= Room(tokens, index) + 2
      modifies this
      ensures Valid()
      ensures ConjEnd(tokens, old(index)) == if ok then index else -1
      ensures peak >= frames + 1 && peak >= old(peak)
      ensures ok ==> peak + 1 >= frames + ConjCalls(tokens, old(index))
      decreases |tokens| - index, 1
    {
      ConjEndSteps(tokens, index);
      RoomBounded(tokens, index);
      peak := Max(peak, frames);
      ok := Atom(frames + 1);
      if ok {
        ok := ConjunctionRest(frames);
      }
    }

    // The loop of a conjunction, after its first operand.
    method ConjunctionRest(ghost frames: nat) returns (ok: bool)
      requires Valid() && frames <= Room(tokens, index) + 2
      modifies this
      ensures Valid()
      ensures ConjTail(tokens, old(index)) == if ok then index else -1
      ensures peak >= old(peak)
      ensures ok ==> peak + 1 >= frames + ConjTailCalls(tokens, old(index)) || ConjTailCalls(tokens, old(index)) == 0
      decreases |tokens| - index, 1, 0
    {
      ghost var end, room, calls := ConjTail(tokens, index), Room(tokens, index), ConjTailCalls(tokens, index);
      while index < |tokens| && Lower(tokens[index].text) == AND
        invariant Valid() && old(index) <= index
        invariant Room(tokens, index) >= room
        invariant end == ConjTail(tokens, index)
        invariant peak >= old(peak)
        invariant peak + 1 >= frames + calls || calls <= ConjTailCalls(tokens, index)
        decreases |tokens| - index
      {
        AndTest(tokens, index, |tokens|);
        ConjTailSteps(tokens, index);
        index := index + 1;
        ok := Atom(frames + 1);
        if !ok {
          return false;
        }
      }
      if index < |tokens| {
        AndTest(tokens, index, |tokens|);
      }
      return true;
    }

    method Disjunction(ghost frames: nat) returns (ok: bool)
      requires Valid() && frames <= Room(tokens, index) + 1
      modifies this
      ensures Valid()
      ensures DisjEnd(tokens, old(index)) == if ok then index else -1
      ensures peak >= frames + 2 && peak >= old(peak)
      ensures ok ==> peak + 1 >= frames + DisjCalls(tokens, old(index))
      decreases |tokens| - index, 2
    {
      DisjEndSteps(tokens, index);
      RoomBounded(tokens, index);
      peak := Max(peak, frames);
      ok := Conjunction(frames + 1);
      if ok {
        ok := DisjunctionRest(frames);
      }
    }

    // The loop of a disjunction, after its first operand.
    method DisjunctionRest(ghost frames: nat) returns (ok: bool)
      requires Valid() && frames <= Room(tokens, index) + 1
      modifies this
      ensures Valid()
      ensures DisjTail(tokens, old(index)) == if ok then index else -1
      ensures peak >= old(peak)
      ensures ok ==> peak + 1 >= frames + DisjTailCalls(tokens, old(index)) || DisjTailCalls(tokens, old(index)) == 0
      decreases |tokens| - index, 2, 0
    {
      ghost var end, room, calls := DisjTail(tokens, index), Room(tokens, index), DisjTailCalls(tokens, index);
      while index < |tokens| && Lower(tokens[index].text) == OR
        invariant Valid() && old(index) <= index
        invariant Room(tokens, index) >= room
        invariant end == DisjTail(tokens, index)
        invariant peak >= old(peak)
        invariant peak + 1 >= frames + calls || calls <= DisjTailCalls(tokens, index)
        decreases |tokens| - index
      {
        OrTest(tokens, index, |tokens|);
        DisjTailSteps(tokens, index);
        index := index + 1;
        ok := Conjunction(frames + 1);
        if !ok {
          return false;
        }
      }
      if index < |tokens| {
        OrTest(tokens, index, |tokens|);
      }
      return true;
    }
  }

  lemma ScanIsTagged(s: Str, i: nat, n: nat)
    requires i <= |s| && n <= |FindTokens(s, i)|
    ensures Tagged(FindTokens(s, i), n)
  {
    if n > 0 {
      ScanIsTagged(s, i, n - 1);
      ScanTag(s, i, n - 1);
    }
  }

  lemma {:induction false} ScanTag(s: Str, i: nat, k: nat)
    requires i <= |s| && k < |FindTokens(s, i)|
    ensures FindTokens(s, i)[k].kind == KindOf(FindTokens(s, i)[k].text)
    decreases k
  {
    ScanResumes(s, i);
    if k > 0 {
      var t := FindTokens(s, i)[0];
      assert FindTokens(s, i)[k] == FindTokens(s, t.End())[k - 1];
      ScanTag(s, t.End(), k - 1);
    }
  }

  // Each "not" takes three characters, and one more to part it from the word before it.
  lemma {:induction false} NotsFitInText(s: Str, ts: seq<Token>, n: nat)
    requires Lexes(s, 0, ts) && 0 < n <= |ts|
    ensures 4 * Nots(ts, n) <= ts[n - 1].End() + (if IsWordKind(ts[n - 1].kind) then 1 else 0)
  {
    var t := ts[n - 1];
    LexemeAt(s, 0, ts, n - 1);
    KindMeaning(t.text);
    KeywordsDiffer();
    LexesKeepsWordsApart(s, 0, ts);
    if n > 1 {
      NotsFitInText(s, ts, n - 1);
      assert ts[n - 2].End() <= ts[n - 2 + 1].start;
    }
    assert t.kind == NotWord ==> |t.text| == |Lower(t.text)| == 3;
  }

  lemma {:induction false} LexemeAt(s: Str, from: nat, ts: seq<Token>, k: nat)
    requires from <= |s| && Lexes(s, from, ts) && k < |ts|
    ensures IsLexemeOf(s, ts[k])
    decreases k
  {
    if k > 0 {
      LexemeAt(s, ts[0].End(), ts[1..], k - 1);
    }
  }

  lemma CallBoundOfText(s: Str, ts: seq<Token>)
    requires Lexes(s, 0, ts) && |s| <= 512
    ensures CallBound(ts) <= 323
  {
    if ts != [] {
      NotsFitInText(s, ts, |ts|);
      LexemeAt(s, 0, ts, |ts| - 1);
    }
  }

  method PrescanBrackets(expression: Str) returns (ok: bool)
    ensures ok <==> BracketsOk(expression, 0)
  {
    var depth := 0;
    var at := 0;
    while at < |expression|
      invariant 0 <= at <= |expression| && 0 <= depth <= MAX_NESTING
      invariant BracketsOk(expression, 0) == BracketsOk(expression[at..], depth)
    {
      assert expression[at..][0] == expression[at] && expression[at..][1..] == expression[at + 1..];
      if expression[at] == LPAREN {
        depth := depth + 1;
        if depth > MAX_NESTING {
          return false;
        }
      } else if expression[at] == RPAREN {
        depth := depth - 1;
        if depth < 0 {
          return false;
        }
      }
      at := at + 1;
    }
    return depth == 0;
  }

  method CollectTokens(expression: Str) returns (ok: bool, tokens: seq<Token>)
    ensures ok <==> FindTokens(expression, 0) != [] && GapsBlank(expression, 0, FindTokens(expression, 0))
    ensures ok ==> tokens == FindTokens(expression, 0)
  {
    var matches := FindTokens(expression, 0);
    tokens := [];
    if matches == [] {
      return false, tokens;
    }
    var offset := 0;
    var k := 0;
    while k < |matches|
      invariant 0 <= k <= |matches| && 0 <= offset <= |expression| && tokens == matches[..k]
      invariant matches[k..] == FindTokens(expression, offset)
      invariant GapsBlank(expression, 0, matches) == GapsBlank(expression, offset, matches[k..])
    {
      var m := matches[k];
      ScanResumes(expression, offset);
      assert matches[k..][0] == m && matches[k..][1..] == matches[k + 1..];
      if !Blank(expression[offset..m.start]) {
        return false, tokens;
      }
      tokens := tokens + [m];
      offset := m.End();
      k := k + 1;
    }
    ok := Blank(expression[offset..]);
  }

  method CheckSeparators(matches: seq<Token>) returns (ok: bool)
    requires Tagged(matches, |matches|)
    ensures ok <==> SeparatorsOk(matches)
  {
    var position := 0;
    while position + 2 < |matches|
      invariant 0 <= position <= |matches|
      invariant SeparatorsOk(matches) == SeparatorsOk(matches[position..])
    {
      var first, operator, target := matches[position], matches[position + 1], matches[position + 2];
      TokenTests(matches, position, |matches|);
      TokenTests(matches, position + 1, |matches|);
      var window := matches[position..];
      assert window[0] == first && window[1] == operator && window[2] == target;
      assert window[1..] == matches[position + 1..];
      if && (IsNumber(first.text) || Lower(first.text) == ALL)
         && Lower(operator.text) == OF
         && (first.End() == operator.start || operator.End() == target.start) {
        return false;
      }
      position := position + 1;
    }
    return true;
  }

  // The recognizer accepts exactly the grammatical conditions. "peak" is the deepest stack of
  // parser calls it ever had, on inputs it accepts and on inputs it rejects.
  method WellFormedBooleanCondition(condition: Str) returns (ok: bool, ghost peak: nat)
    ensures ok <==> Grammatical(condition)
    ensures peak <= CallBound(FindTokens(BeforePipe(condition), 0))
    ensures |condition| <= 512 ==> peak <= 323
    ensures ok ==> forall d :: Derives(condition, d) ==> peak >= CallsOfDisj(d)
  {
    StagesAreExact(condition);
    peak := 0;
    var expression := BeforePipe(condition);
    var balanced := PrescanBrackets(expression);
    if !balanced {
      return false, peak;
    }
    var lexed, tokens := CollectTokens(expression);
    if !lexed {
      return false, peak;
    }
    ScanIsTagged(expression, 0, |tokens|);
    var separated := CheckSeparators(tokens);
    if !separated {
      return false, peak;
    }
    GapLoopIsExact(expression, tokens);
    BracketsOfTokens(expression, 0, tokens, 0);
    assert expression[0..] == expression;
    if |condition| <= 512 {
      CallBoundOfText(expression, tokens);
    }
    var parser := new ConditionParser(tokens);
    ok := parser.Disjunction(1);
    ok := ok && parser.index == |tokens|;
    peak := parser.peak;
    if ok {
      PeakCoversTheTree(condition, tokens);
    }
  }

  lemma PeakCoversTheTree(condition: Str, ts: seq<Token>)
    requires ts == FindTokens(BeforePipe(condition), 0)
    ensures forall d :: Derives(condition, d) ==> DisjCalls(ts, 0) == CallsOfDisj(d)
  {
    forall d | Derives(condition, d) ensures DisjCalls(ts, 0) == CallsOfDisj(d) {
      LexesIsScan(BeforePipe(condition), 0, YieldDisj(d));
      ParseIsExact(ts, d);
    }
  }
}
