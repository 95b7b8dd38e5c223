/**
 The grammar of the boolean part of a Sigma condition: "or" over "and" over
 negation, parentheses, quantifiers and selector names. Trees keep their tokens,
 so that a tree says where in the text each of its parts stands.
 */
module Grammar {
  import opened Text
  import opened Lexer

  datatype Disj = Last(conj: Conj) | Or(left: Conj, op: Token, right: Disj)

  datatype Conj = Lone(atom: Atom) | And(first: Atom, op: Token, rest: Conj)

  datatype Atom =
    | Not(op: Token, arg: Atom)
    | Group(open: Token, body: Disj, close: Token)
    | Quantifier(count: Token, of: Token, target: Token)
    | Selector(name: Token)

  type Leaf = a: Atom | a.Quantifier? || a.Selector? witness Selector(Token(0, [], Junk))

  // Which tokens may stand where.

  predicate ValidDisj(d: Disj) {
    match d
    case Last(c) => ValidConj(c)
    case Or(c, op, r) => ValidConj(c) && op.kind == OrWord && ValidDisj(r)
  }

  predicate ValidConj(c: Conj) {
    match c
    case Lone(a) => ValidAtom(a)
    case And(a, op, r) => ValidAtom(a) && op.kind == AndWord && ValidConj(r)
  }

  predicate ValidAtom(a: Atom) {
    match a
    case Not(op, arg) => op.kind == NotWord && ValidAtom(arg)
    case Group(o, d, c) => o.kind == Open && ValidDisj(d) && c.kind == Close
    case Quantifier(n, op, t) => IsCount(n) && op.kind == OfWord && IsTarget(t)
    case Selector(n) => n.kind == Name
  }

  // "all", or a number that is at least 1.
  predicate IsCount(t: Token) {
    t.kind == AllWord || (t.kind == Number && DecimalValue(t.text) >= 1)
  }

  // Any word at all, keywords included.
  predicate IsTarget(t: Token) {
    IsWordKind(t.kind)
  }

  // The tokens of a tree, left to right.

  function YieldDisj(d: Disj): (ts: seq<Token>)
    ensures ts != []
  {
    match d
    case Last(c) => YieldConj(c)
    case Or(c, op, r) => YieldConj(c) + [op] + YieldDisj(r)
  }

  function YieldConj(c: Conj): (ts: seq<Token>)
    ensures ts != []
  {
    match c
    case Lone(a) => YieldAtom(a)
    case And(a, op, r) => YieldAtom(a) + [op] + YieldConj(r)
  }

  function YieldAtom(a: Atom): (ts: seq<Token>)
    ensures ts != []
  {
    match a
    case Not(op, arg) => [op] + YieldAtom(arg)
    case Group(o, d, c) => [o] + YieldDisj(d) + [c]
    case Quantifier(n, op, t) => [n, op, t]
    case Selector(n) => [n]
  }

  // How a tree's tokens, with more behind them, take off one part at a time.

  lemma Assoc<T>(a: seq<T>, b: seq<T>, c: seq<T>)
    ensures (a + b) + c == a + (b + c)
  {
  }

  lemma YieldOr(c: Conj, op: Token, r: Disj, rest: seq<Token>)
    ensures YieldDisj(Or(c, op, r)) + rest == YieldConj(c) + ([op] + (YieldDisj(r) + rest))
  {
    Assoc(YieldConj(c) + [op], YieldDisj(r), rest);
    Assoc(YieldConj(c), [op], YieldDisj(r) + rest);
  }

  lemma YieldAnd(a: Atom, op: Token, r: Conj, rest: seq<Token>)
    ensures YieldConj(And(a, op, r)) + rest == YieldAtom(a) + ([op] + (YieldConj(r) + rest))
  {
    Assoc(YieldAtom(a) + [op], YieldConj(r), rest);
    Assoc(YieldAtom(a), [op], YieldConj(r) + rest);
  }

  lemma YieldNot(op: Token, arg: Atom, rest: seq<Token>)
    ensures YieldAtom(Not(op, arg)) + rest == [op] + (YieldAtom(arg) + rest)
  {
    Assoc([op], YieldAtom(arg), rest);
  }

  lemma YieldGroup(o: Token, d: Disj, c: Token, rest: seq<Token>)
    ensures YieldAtom(Group(o, d, c)) + rest == [o] + (YieldDisj(d) + ([c] + rest))
  {
    Assoc([o] + YieldDisj(d), [c], rest);
    Assoc([o], YieldDisj(d), [c] + rest);
  }

  lemma YieldQuantifier(n: Token, op: Token, t: Token, rest: seq<Token>)
    ensures YieldAtom(Quantifier(n, op, t)) + rest == [n] + ([op] + ([t] + rest))
  {
    assert [n, op, t] == [n] + [op] + [t];
    Assoc([n] + [op], [t], rest);
    Assoc([n], [op], [t] + rest);
  }

  // How deeply parentheses nest in a tree.

  function NestDisj(d: Disj): nat {
    match d
    case Last(c) => NestConj(c)
    case Or(c, op, r) => Max(NestConj(c), NestDisj(r))
  }

  function NestConj(c: Conj): nat {
    match c
    case Lone(a) => NestAtom(a)
    case And(a, op, r) => Max(NestAtom(a), NestConj(r))
  }

  function NestAtom(a: Atom): nat {
    match a
    case Not(op, arg) => NestAtom(arg)
    case Group(o, d, c) => 1 + NestDisj(d)
    case Quantifier(n, op, t) => 0
    case Selector(n) => 0
  }

  // How many parser calls a tree nests: one for each disjunction, conjunction and atom, and one for
  // each "not". Operands beside each other share their caller.

  function CallsOfDisj(d: Disj): nat {
    match d
    case Last(c) => 1 + CallsOfConj(c)
    case Or(c, op, r) => Max(1 + CallsOfConj(c), CallsOfDisj(r))
  }

  function CallsOfConj(c: Conj): nat {
    match c
    case Lone(a) => 1 + CallsOfAtom(a)
    case And(a, op, r) => Max(1 + CallsOfAtom(a), CallsOfConj(r))
  }

  function CallsOfAtom(a: Atom): nat {
    match a
    case Not(op, arg) => 1 + CallsOfAtom(arg)
    case Group(o, d, c) => 1 + CallsOfDisj(d)
    case Quantifier(n, op, t) => 1
    case Selector(n) => 1
  }

  function Max(a: nat, b: nat): nat {
    if a < b then b else a
  }

  // The quantifiers and bare selectors of a tree, left to right.

  function LeavesDisj(d: Disj): seq<Leaf> {
    match d
    case Last(c) => LeavesConj(c)
    case Or(c, op, r) => LeavesConj(c) + LeavesDisj(r)
  }

  function LeavesConj(c: Conj): seq<Leaf> {
    match c
    case Lone(a) => LeavesAtom(a)
    case And(a, op, r) => LeavesAtom(a) + LeavesConj(r)
  }

  function LeavesAtom(a: Atom): seq<Leaf> {
    match a
    case Not(op, arg) => LeavesAtom(arg)
    case Group(o, d, c) => LeavesDisj(d)
    case Quantifier(n, op, t) => [a]
    case Selector(n) => [a]
  }

  // Every numeric count stands apart from its "of".
  predicate Separated(leaves: seq<Leaf>) {
    forall q :: q in leaves && q.Quantifier? && q.count.kind == Number ==> q.count.End() < q.of.start
  }
}
