/**
 The flat scans that run beside the parser - bracket depth, separators around
 "of", (count, of, target) windows - and their agreement with the parse tree.
 */
module Scans {
  import opened Text
  import opened Lexer
  import opened Grammar

  const MAX_NESTING: nat := 64

  // The bracket prescan, over the characters of s.
  predicate BracketsOk(s: Str, depth: int)
    decreases |s|
  {
    if s == [] then depth == 0
    else if s[0] == LPAREN then depth + 1 <= MAX_NESTING && BracketsOk(s[1..], depth + 1)
    else if s[0] == RPAREN then depth - 1 >= 0 && BracketsOk(s[1..], depth - 1)
    else BracketsOk(s[1..], depth)
  }

  // The same, over tokens.
  predicate TokenBracketsOk(ts: seq<Token>, depth: int)
    decreases |ts|
  {
    if ts == [] then depth == 0
    else if ts[0].kind == Open then depth + 1 <= MAX_NESTING && TokenBracketsOk(ts[1..], depth + 1)
    else if ts[0].kind == Close then depth - 1 >= 0 && TokenBracketsOk(ts[1..], depth - 1)
    else TokenBracketsOk(ts[1..], depth)
  }

  lemma {:induction false} NoBracketsSkip(s: Str, rest: Str, depth: int)
    requires LPAREN !in s && RPAREN !in s
    ensures BracketsOk(s + rest, depth) == BracketsOk(rest, depth)
    decreases |s|
  {
    if s == [] {
      assert s + rest == rest;
    } else {
      assert (s + rest)[1..] == s[1..] + rest;
      NoBracketsSkip(s[1..], rest, depth);
    }
  }

  lemma LexemeBrackets(s: Str, t: Token)
    requires IsLexemeOf(s, t)
    ensures t.kind == Open ==> t.text == [LPAREN]
    ensures t.kind == Close ==> t.text == [RPAREN]
    ensures t.kind != Open && t.kind != Close ==> LPAREN !in t.text && RPAREN !in t.text
  {
    KindMeaning(t.text);
  }

  // Blanks hold no brackets, so once the text lexes, counting characters is counting tokens.
  lemma {:induction false} BracketsOfTokens(s: Str, from: nat, ts: seq<Token>, depth: int)
    requires from <= |s| && Lexes(s, from, ts)
    ensures BracketsOk(s[from..], depth) == TokenBracketsOk(ts, depth)
    decreases |ts|
  {
    if ts == [] {
      NoBracketsSkip(s[from..], [], depth);
      assert s[from..] + [] == s[from..];
    } else {
      var t := ts[0];
      var gap := s[from..t.start];
      var rest := s[t.End()..];
      assert s[from..] == gap + (t.text + rest);
      assert LPAREN !in gap && RPAREN !in gap;
      NoBracketsSkip(gap, t.text + rest, depth);
      LexemeBrackets(s, t);
      if t.kind == Open || t.kind == Close {
        assert (t.text + rest)[0] == t.text[0] && (t.text + rest)[1..] == rest;
        BracketsOfTokens(s, t.End(), ts[1..], if t.kind == Open then depth + 1 else depth - 1);
      } else {
        NoBracketsSkip(t.text, rest, depth);
        BracketsOfTokens(s, t.End(), ts[1..], depth);
      }
    }
  }

  lemma BracketsSkip(t: Token, rest: seq<Token>, depth: int)
    requires t.kind != Open && t.kind != Close
    ensures TokenBracketsOk([t] + rest, depth) == TokenBracketsOk(rest, depth)
  {
    assert ([t] + rest)[1..] == rest;
  }

  lemma BracketsOpen(t: Token, rest: seq<Token>, depth: int)
    requires t.kind == Open
    ensures TokenBracketsOk([t] + rest, depth) == (depth + 1 <= MAX_NESTING && TokenBracketsOk(rest, depth + 1))
  {
    assert ([t] + rest)[1..] == rest;
  }

  lemma BracketsClose(t: Token, rest: seq<Token>, depth: int)
    requires t.kind == Close
    ensures TokenBracketsOk([t] + rest, depth) == (depth - 1 >= 0 && TokenBracketsOk(rest, depth - 1))
  {
    assert ([t] + rest)[1..] == rest;
  }

  // A tree's own brackets balance; the prescan only asks that they fit under the cap.

  lemma {:induction false} BracketsOfDisj(d: Disj, rest: seq<Token>, depth: nat)
    requires ValidDisj(d) && depth <= MAX_NESTING
    ensures TokenBracketsOk(YieldDisj(d) + rest, depth) <==>
            depth + NestDisj(d) <= MAX_NESTING && TokenBracketsOk(rest, depth)
    decreases d
  {
    match d
    case Last(c) => BracketsOfConj(c, rest, depth);
    case Or(c, op, r) =>
      var tail := YieldDisj(r) + rest;
      YieldOr(c, op, r, rest);
      BracketsOfConj(c, [op] + tail, depth);
      BracketsSkip(op, tail, depth);
      BracketsOfDisj(r, rest, depth);
  }

  lemma {:induction false} BracketsOfConj(c: Conj, rest: seq<Token>, depth: nat)
    requires ValidConj(c) && depth <= MAX_NESTING
    ensures TokenBracketsOk(YieldConj(c) + rest, depth) <==>
            depth + NestConj(c) <= MAX_NESTING && TokenBracketsOk(rest, depth)
    decreases c
  {
    match c
    case Lone(a) => BracketsOfAtom(a, rest, depth);
    case And(a, op, r) =>
      var tail := YieldConj(r) + rest;
      YieldAnd(a, op, r, rest);
      BracketsOfAtom(a, [op] + tail, depth);
      BracketsSkip(op, tail, depth);
      BracketsOfConj(r, rest, depth);
  }

  lemma {:induction false} BracketsOfAtom(a: Atom, rest: seq<Token>, depth: nat)
    requires ValidAtom(a) && depth <= MAX_NESTING
    ensures TokenBracketsOk(YieldAtom(a) + rest, depth) <==>
            depth + NestAtom(a) <= MAX_NESTING && TokenBracketsOk(rest, depth)
    decreases a
  {
    match a
    case Not(op, arg) =>
      YieldNot(op, arg, rest);
      BracketsSkip(op, YieldAtom(arg) + rest, depth);
      BracketsOfAtom(arg, rest, depth);
    case Group(o, d, c) =>
      YieldGroup(o, d, c, rest);
      BracketsOpen(o, YieldDisj(d) + ([c] + rest), depth);
      if depth < MAX_NESTING {
        BracketsOfDisj(d, [c] + rest, depth + 1);
        BracketsClose(c, rest, depth + 1);
      }
    case Quantifier(n, op, t) =>
      YieldQuantifier(n, op, t, rest);
      BracketsSkip(n, [op] + ([t] + rest), depth);
      BracketsSkip(op, [t] + rest, depth);
      BracketsSkip(t, rest, depth);
    case Selector(n) =>
      BracketsSkip(n, rest, depth);
  }

  // The separator loop: no count that touches its "of", no "of" that touches its target.
  predicate SeparatorsOk(ts: seq<Token>) {
    |ts| < 3 ||
    (!((ts[0].kind == Number || ts[0].kind == AllWord) && ts[1].kind == OfWord
       && (ts[0].End() == ts[1].start || ts[1].End() == ts[2].start))
     && SeparatorsOk(ts[1..]))
  }

  lemma SeparatorsSkip(t: Token, rest: seq<Token>)
    requires (t.kind != Number && t.kind != AllWord) || rest == [] || rest[0].kind != OfWord
    ensures SeparatorsOk([t] + rest) == SeparatorsOk(rest)
  {
    assert ([t] + rest)[1..] == rest;
  }

  lemma SeparatorsQuantifier(n: Token, op: Token, t: Token, rest: seq<Token>)
    requires (n.kind == Number || n.kind == AllWord) && op.kind == OfWord
    ensures SeparatorsOk([n] + ([op] + ([t] + rest))) <==>
            n.End() != op.start && op.End() != t.start && SeparatorsOk([op] + ([t] + rest))
    ensures var all := [n] + ([op] + ([t] + rest)); all[0] == n && all[1] == op && all[2] == t
  {
    var all := [n] + ([op] + ([t] + rest));
    assert all[0] == n && all[1] == op && all[2] == t && all[1..] == [op] + ([t] + rest);
  }

  lemma WordsApartTail(a: seq<Token>, b: seq<Token>)
    requires WordsApart(a + b)
    ensures WordsApart(b)
  {
    forall k | 0 <= k < |b| - 1
      ensures b[k].End() <= b[k + 1].start
      ensures IsWordKind(b[k].kind) && IsWordKind(b[k + 1].kind) ==> b[k].End() < b[k + 1].start
    {
      assert (a + b)[|a| + k] == b[k] && (a + b)[|a| + k + 1] == b[k + 1];
    }
  }

  // On a grammatical token sequence the separator loop fails only at numeric quantifiers.

  lemma {:induction false} SeparatorsOfDisj(d: Disj, rest: seq<Token>)
    requires ValidDisj(d) && WordsApart(YieldDisj(d) + rest) && (rest != [] ==> rest[0].kind != OfWord)
    ensures SeparatorsOk(YieldDisj(d) + rest) <==> Separated(LeavesDisj(d)) && SeparatorsOk(rest)
    decreases d
  {
    match d
    case Last(c) => SeparatorsOfConj(c, rest);
    case Or(c, op, r) =>
      var tail := YieldDisj(r) + rest;
      YieldOr(c, op, r, rest);
      Assoc(YieldConj(c), [op], tail);
      SeparatorsOfConj(c, [op] + tail);
      SeparatorsSkip(op, tail);
      WordsApartTail(YieldConj(c) + [op], tail);
      SeparatorsOfDisj(r, rest);
  }

  lemma {:induction false} SeparatorsOfConj(c: Conj, rest: seq<Token>)
    requires ValidConj(c) && WordsApart(YieldConj(c) + rest) && (rest != [] ==> rest[0].kind != OfWord)
    ensures SeparatorsOk(YieldConj(c) + rest) <==> Separated(LeavesConj(c)) && SeparatorsOk(rest)
    decreases c
  {
    match c
    case Lone(a) => SeparatorsOfAtom(a, rest);
    case And(a, op, r) =>
      var tail := YieldConj(r) + rest;
      YieldAnd(a, op, r, rest);
      Assoc(YieldAtom(a), [op], tail);
      SeparatorsOfAtom(a, [op] + tail);
      SeparatorsSkip(op, tail);
      WordsApartTail(YieldAtom(a) + [op], tail);
      SeparatorsOfConj(r, rest);
  }

  lemma {:induction false} SeparatorsOfAtom(a: Atom, rest: seq<Token>)
    requires ValidAtom(a) && WordsApart(YieldAtom(a) + rest) && (rest != [] ==> rest[0].kind != OfWord)
    ensures SeparatorsOk(YieldAtom(a) + rest) <==> Separated(LeavesAtom(a)) && SeparatorsOk(rest)
    decreases a
  {
    match a
    case Not(op, arg) =>
      var tail := YieldAtom(arg) + rest;
      YieldNot(op, arg, rest);
      SeparatorsSkip(op, tail);
      WordsApartTail([op], tail);
      SeparatorsOfAtom(arg, rest);
    case Group(o, d, c) =>
      var tail := YieldDisj(d) + ([c] + rest);
      YieldGroup(o, d, c, rest);
      SeparatorsSkip(o, tail);
      WordsApartTail([o], tail);
      SeparatorsOfDisj(d, [c] + rest);
      SeparatorsSkip(c, rest);
    case Quantifier(n, op, t) =>
      YieldQuantifier(n, op, t, rest);
      SeparatorsQuantifier(n, op, t, rest);
      SeparatorsSkip(op, [t] + rest);
      SeparatorsSkip(t, rest);
    case Selector(n) =>
      SeparatorsSkip(n, rest);
  }

  // The windows the feasibility scan looks at.
  function NumericWindows(ts: seq<Token>): seq<Leaf> {
    if |ts| < 3 then []
    else
      (if ts[0].kind == Number && ts[1].kind == OfWord then [Quantifier(ts[0], ts[1], ts[2])] else [])
      + NumericWindows(ts[1..])
  }

  // The numeric quantifiers among a tree's leaves.
  function Numeric(leaves: seq<Leaf>): seq<Leaf> {
    if leaves == [] then []
    else
      (if leaves[0].Quantifier? && leaves[0].count.kind == Number then [leaves[0]] else []) + Numeric(leaves[1..])
  }

  lemma {:induction false} NumericConcat(a: seq<Leaf>, b: seq<Leaf>)
    ensures Numeric(a + b) == Numeric(a) + Numeric(b)
    decreases |a|
  {
    if a == [] {
      assert a + b == b;
    } else {
      assert (a + b)[1..] == a[1..] + b;
      NumericConcat(a[1..], b);
    }
  }

  lemma WindowsSkip(t: Token, rest: seq<Token>)
    requires t.kind != Number
    ensures NumericWindows([t] + rest) == NumericWindows(rest)
  {
    assert ([t] + rest)[1..] == rest;
  }

  lemma WindowsHit(n: Token, op: Token, t: Token, rest: seq<Token>)
    requires op.kind == OfWord
    ensures NumericWindows([n] + ([op] + ([t] + rest))) ==
            (if n.kind == Number then [Quantifier(n, op, t)] else []) + NumericWindows([op] + ([t] + rest))
  {
    var all := [n] + ([op] + ([t] + rest));
    assert all[0] == n && all[1] == op && all[2] == t && all[1..] == [op] + ([t] + rest);
  }

  // The sliding scan finds exactly the numeric quantifiers of the tree, in order.

  // An operator between two parts adds no window.
  lemma WindowsJoin(leaves: seq<Leaf>, op: Token, tail: seq<Token>, more: seq<Leaf>, windows: seq<Leaf>)
    requires op.kind != Number && NumericWindows(tail) == Numeric(more) + windows
    ensures Numeric(leaves) + NumericWindows([op] + tail) == Numeric(leaves + more) + windows
  {
    WindowsSkip(op, tail);
    NumericConcat(leaves, more);
  }

  lemma {:induction false} WindowsOfDisj(d: Disj, rest: seq<Token>)
    requires ValidDisj(d)
    ensures NumericWindows(YieldDisj(d) + rest) == Numeric(LeavesDisj(d)) + NumericWindows(rest)
    decreases d
  {
    match d
    case Last(c) => WindowsOfConj(c, rest);
    case Or(c, op, r) =>
      var tail := YieldDisj(r) + rest;
      YieldOr(c, op, r, rest);
      WindowsOfConj(c, [op] + tail);
      WindowsOfDisj(r, rest);
      WindowsJoin(LeavesConj(c), op, tail, LeavesDisj(r), NumericWindows(rest));
  }

  lemma {:induction false} WindowsOfConj(c: Conj, rest: seq<Token>)
    requires ValidConj(c)
    ensures NumericWindows(YieldConj(c) + rest) == Numeric(LeavesConj(c)) + NumericWindows(rest)
    decreases c
  {
    match c
    case Lone(a) => WindowsOfAtom(a, rest);
    case And(a, op, r) =>
      var tail := YieldConj(r) + rest;
      YieldAnd(a, op, r, rest);
      WindowsOfAtom(a, [op] + tail);
      WindowsOfConj(r, rest);
      WindowsJoin(LeavesAtom(a), op, tail, LeavesConj(r), NumericWindows(rest));
  }

  lemma {:induction false} WindowsOfAtom(a: Atom, rest: seq<Token>)
    requires ValidAtom(a)
    ensures NumericWindows(YieldAtom(a) + rest) == Numeric(LeavesAtom(a)) + NumericWindows(rest)
    decreases a
  {
    match a
    case Not(op, arg) =>
      YieldNot(op, arg, rest);
      WindowsSkip(op, YieldAtom(arg) + rest);
      WindowsOfAtom(arg, rest);
    case Group(o, d, c) =>
      YieldGroup(o, d, c, rest);
      WindowsSkip(o, YieldDisj(d) + ([c] + rest));
      WindowsOfDisj(d, [c] + rest);
      WindowsSkip(c, rest);
    case Quantifier(n, op, t) =>
      YieldQuantifier(n, op, t, rest);
      WindowsHit(n, op, t, rest);
      WindowsSkip(op, [t] + rest);
      WindowsSkip(t, rest);
      assert Numeric([a]) == if n.kind == Number then [a] else [];
    case Selector(n) =>
      WindowsSkip(n, rest);
  }
}
