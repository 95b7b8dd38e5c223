/**
 Predictive parsing of the condition grammar: what the recognizer decides, with
 the tree it finds. It is sound and complete for the grammar, so a token sequence
 has at most one tree.
 */
module Parser {
  import opened Lexer
  import opened Grammar

  datatype Parsed<T> = Fail | Done(tree: T, next: nat)

  function ParseDisj(ts: seq<Token>, i: nat): (p: Parsed<Disj>)
    requires i <= |ts|
    ensures p.Done? ==> i < p.next <= |ts|
    decreases |ts| - i, 2
  {
    match ParseConj(ts, i)
    case Fail => Fail
    case Done(c, j) =>
      if j < |ts| && ts[j].kind == OrWord then
        match ParseDisj(ts, j + 1)
        case Fail => Fail
        case Done(d, k) => Done(Or(c, ts[j], d), k)
      else Done(Last(c), j)
  }

  function ParseConj(ts: seq<Token>, i: nat): (p: Parsed<Conj>)
    requires i <= |ts|
    ensures p.Done? ==> i < p.next <= |ts|
    decreases |ts| - i, 1
  {
    match ParseAtom(ts, i)
    case Fail => Fail
    case Done(a, j) =>
      if j < |ts| && ts[j].kind == AndWord then
        match ParseConj(ts, j + 1)
        case Fail => Fail
        case Done(c, k) => Done(And(a, ts[j], c), k)
      else Done(Lone(a), j)
  }

  function ParseAtom(ts: seq<Token>, i: nat): (p: Parsed<Atom>)
    requires i <= |ts|
    ensures p.Done? ==> i < p.next <= |ts|
    decreases |ts| - i, 0
  {
    if i == |ts| then Fail
    else if ts[i].kind == NotWord then
      match ParseAtom(ts, i + 1)
      case Fail => Fail
      case Done(a, j) => Done(Not(ts[i], a), j)
    else if ts[i].kind == Open then
      match ParseDisj(ts, i + 1)
      case Fail => Fail
      case Done(d, j) =>
        if j < |ts| && ts[j].kind == Close then Done(Group(ts[i], d, ts[j]), j + 1) else Fail
    else if ts[i].kind == Name then Done(Selector(ts[i]), i + 1)
    else if IsCount(ts[i]) && i + 2 < |ts| && ts[i + 1].kind == OfWord && IsTarget(ts[i + 2]) then
      Done(Quantifier(ts[i], ts[i + 1], ts[i + 2]), i + 3)
    else Fail
  }

  // Soundness: a parse is a valid tree over exactly the tokens it consumed.

  lemma Split(ts: seq<Token>, i: nat, j: nat, k: nat)
    requires i <= j < k <= |ts|
    ensures ts[i..k] == ts[i..j] + [ts[j]] + ts[j + 1..k]
  {
  }

  lemma Uncons(ts: seq<Token>, i: nat, k: nat)
    requires i < k <= |ts|
    ensures ts[i..k] == [ts[i]] + ts[i + 1..k]
  {
  }

  lemma Unsnoc(ts: seq<Token>, i: nat, k: nat)
    requires i < k <= |ts|
    ensures ts[i..k] == ts[i..k - 1] + [ts[k - 1]]
  {
  }

  lemma {:induction false} ParseDisjSound(ts: seq<Token>, i: nat)
    requires i <= |ts| && ParseDisj(ts, i).Done?
    ensures ValidDisj(ParseDisj(ts, i).tree)
    ensures YieldDisj(ParseDisj(ts, i).tree) == ts[i..ParseDisj(ts, i).next]
    decreases |ts| - i, 2
  {
    ParseConjSound(ts, i);
    var j := ParseConj(ts, i).next;
    if j < |ts| && ts[j].kind == OrWord {
      ParseDisjSound(ts, j + 1);
      Split(ts, i, j, ParseDisj(ts, i).next);
    }
  }

  lemma {:induction false} ParseConjSound(ts: seq<Token>, i: nat)
    requires i <= |ts| && ParseConj(ts, i).Done?
    ensures ValidConj(ParseConj(ts, i).tree)
    ensures YieldConj(ParseConj(ts, i).tree) == ts[i..ParseConj(ts, i).next]
    decreases |ts| - i, 1
  {
    ParseAtomSound(ts, i);
    var j := ParseAtom(ts, i).next;
    if j < |ts| && ts[j].kind == AndWord {
      ParseConjSound(ts, j + 1);
      Split(ts, i, j, ParseConj(ts, i).next);
    }
  }

  lemma {:induction false} ParseAtomSound(ts: seq<Token>, i: nat)
    requires i <= |ts| && ParseAtom(ts, i).Done?
    ensures ValidAtom(ParseAtom(ts, i).tree)
    ensures YieldAtom(ParseAtom(ts, i).tree) == ts[i..ParseAtom(ts, i).next]
    decreases |ts| - i, 0
  {
    var j := ParseAtom(ts, i).next;
    if ts[i].kind == NotWord {
      ParseAtomSound(ts, i + 1);
      Uncons(ts, i, j);
    } else if ts[i].kind == Open {
      ParseDisjSound(ts, i + 1);
      Unsnoc(ts, i, j);
      Uncons(ts, i, j - 1);
    } else if ts[i].kind == Name {
      assert ts[i..i + 1] == [ts[i]];
    } else {
      assert ts[i..i + 3] == [ts[i], ts[i + 1], ts[i + 2]];
    }
  }

  // Completeness: wherever a valid tree's tokens stand, the parser finds that tree,
  // unless the next token continues it.

  ghost predicate StandsAt(ts: seq<Token>, i: nat, part: seq<Token>) {
    i + |part| <= |ts| && forall k :: 0 <= k < |part| ==> part[k] == ts[i + k]
  }

  lemma StandsAtParts(ts: seq<Token>, i: nat, a: seq<Token>, b: seq<Token>)
    requires StandsAt(ts, i, a + b)
    ensures StandsAt(ts, i, a) && StandsAt(ts, i + |a|, b)
  {
    forall k | 0 <= k < |a| ensures a[k] == ts[i + k] {
      assert (a + b)[k] == a[k];
    }
    forall k | 0 <= k < |b| ensures b[k] == ts[i + |a| + k] {
      assert (a + b)[|a| + k] == b[k];
    }
  }

  lemma StandsAtOne(ts: seq<Token>, i: nat, t: Token)
    requires StandsAt(ts, i, [t])
    ensures i < |ts| && ts[i] == t
  {
    assert [t][0] == t;
  }

  lemma StandsAtThree(ts: seq<Token>, i: nat, a: seq<Token>, op: Token, b: seq<Token>)
    requires StandsAt(ts, i, a + [op] + b)
    ensures StandsAt(ts, i, a) && i + |a| < |ts| && ts[i + |a|] == op && StandsAt(ts, i + |a| + 1, b)
  {
    StandsAtParts(ts, i, a + [op], b);
    StandsAtParts(ts, i, a, [op]);
    StandsAtOne(ts, i + |a|, op);
  }

  predicate NextIs(ts: seq<Token>, i: nat, k: Kind) {
    i < |ts| && ts[i].kind == k
  }

  lemma ParseDisjStep(ts: seq<Token>, i: nat, c: Conj, j: nat, r: Disj, k: nat)
    requires i <= |ts| && ParseConj(ts, i) == Done(c, j)
    requires NextIs(ts, j, OrWord) && ParseDisj(ts, j + 1) == Done(r, k)
    ensures ParseDisj(ts, i) == Done(Or(c, ts[j], r), k)
  {
  }

  lemma ParseDisjLast(ts: seq<Token>, i: nat, c: Conj, j: nat)
    requires i <= |ts| && ParseConj(ts, i) == Done(c, j) && !NextIs(ts, j, OrWord)
    ensures ParseDisj(ts, i) == Done(Last(c), j)
  {
  }

  lemma {:induction false} ParseDisjComplete(ts: seq<Token>, i: nat, d: Disj)
    requires ValidDisj(d) && StandsAt(ts, i, YieldDisj(d))
    requires var j := i + |YieldDisj(d)|; !NextIs(ts, j, OrWord) && !NextIs(ts, j, AndWord)
    ensures ParseDisj(ts, i) == Done(d, i + |YieldDisj(d)|)
    decreases d
  {
    match d
    case Last(c) =>
      ParseConjComplete(ts, i, c);
      ParseDisjLast(ts, i, c, i + |YieldConj(c)|);
    case Or(c, op, r) =>
      var j := i + |YieldConj(c)|;
      StandsAtThree(ts, i, YieldConj(c), op, YieldDisj(r));
      ParseConjComplete(ts, i, c);
      ParseDisjComplete(ts, j + 1, r);
      ParseDisjStep(ts, i, c, j, r, j + 1 + |YieldDisj(r)|);
  }

  lemma ParseConjLone(ts: seq<Token>, i: nat, a: Atom, j: nat)
    requires i <= |ts| && ParseAtom(ts, i) == Done(a, j) && !NextIs(ts, j, AndWord)
    ensures ParseConj(ts, i) == Done(Lone(a), j)
  {
  }

  lemma ParseConjStep(ts: seq<Token>, i: nat, a: Atom, j: nat, r: Conj, k: nat)
    requires i <= |ts| && ParseAtom(ts, i) == Done(a, j)
    requires NextIs(ts, j, AndWord) && ParseConj(ts, j + 1) == Done(r, k)
    ensures ParseConj(ts, i) == Done(And(a, ts[j], r), k)
  {
  }

  lemma {:induction false} ParseConjComplete(ts: seq<Token>, i: nat, c: Conj)
    requires ValidConj(c) && StandsAt(ts, i, YieldConj(c)) && !NextIs(ts, i + |YieldConj(c)|, AndWord)
    ensures ParseConj(ts, i) == Done(c, i + |YieldConj(c)|)
    decreases c
  {
    match c
    case Lone(a) =>
      ParseAtomComplete(ts, i, a);
      ParseConjLone(ts, i, a, i + |YieldAtom(a)|);
    case And(a, op, r) =>
      StandsAtThree(ts, i, YieldAtom(a), op, YieldConj(r));
      var j := i + |YieldAtom(a)|;
      ParseAtomComplete(ts, i, a);
      ParseConjComplete(ts, j + 1, r);
      ParseConjStep(ts, i, a, j, r, j + 1 + |YieldConj(r)|);
  }

  lemma ParseNotStep(ts: seq<Token>, i: nat, a: Atom, j: nat)
    requires NextIs(ts, i, NotWord) && ParseAtom(ts, i + 1) == Done(a, j)
    ensures ParseAtom(ts, i) == Done(Not(ts[i], a), j)
  {
  }

  lemma ParseGroupStep(ts: seq<Token>, i: nat, d: Disj, j: nat)
    requires NextIs(ts, i, Open) && ParseDisj(ts, i + 1) == Done(d, j) && NextIs(ts, j, Close)
    ensures ParseAtom(ts, i) == Done(Group(ts[i], d, ts[j]), j + 1)
  {
  }

  lemma {:induction false} ParseAtomComplete(ts: seq<Token>, i: nat, a: Atom)
    requires ValidAtom(a) && StandsAt(ts, i, YieldAtom(a))
    ensures ParseAtom(ts, i) == Done(a, i + |YieldAtom(a)|)
    decreases a
  {
    match a
    case Not(op, arg) =>
      StandsAtParts(ts, i, [op], YieldAtom(arg));
      StandsAtOne(ts, i, op);
      ParseAtomComplete(ts, i + 1, arg);
      ParseNotStep(ts, i, arg, i + 1 + |YieldAtom(arg)|);
    case Group(o, d, c) =>
      var j := i + 1 + |YieldDisj(d)|;
      StandsAtParts(ts, i, [o] + YieldDisj(d), [c]);
      StandsAtParts(ts, i, [o], YieldDisj(d));
      StandsAtOne(ts, i, o);
      StandsAtOne(ts, j, c);
      ParseDisjComplete(ts, i + 1, d);
      ParseGroupStep(ts, i, d, j);
    case Quantifier(n, op, t) =>
      var part := YieldAtom(a);
      assert part[0] == n && part[1] == op && part[2] == t;
    case Selector(n) =>
      StandsAtOne(ts, i, n);
  }

  // The whole token sequence parses exactly when the grammar derives it, and then the tree is unique.
  lemma ParseIsExact(ts: seq<Token>, d: Disj)
    ensures ValidDisj(d) && YieldDisj(d) == ts <==> ParseDisj(ts, 0) == Done(d, |ts|)
  {
    if ValidDisj(d) && YieldDisj(d) == ts {
      ParseDisjComplete(ts, 0, d);
    }
    if ParseDisj(ts, 0) == Done(d, |ts|) {
      ParseDisjSound(ts, 0);
      assert ts[0..|ts|] == ts;
    }
  }
}
