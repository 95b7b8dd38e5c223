/** Python strings as sequences of Unicode code points, lone surrogates included. */
module Text {

  type CodePoint = c: int | 0 <= c <= 0x10FFFF

  type Str = seq<CodePoint>

  const LPAREN: CodePoint := 0x28
  const RPAREN: CodePoint := 0x29
  const STAR: CodePoint := 0x2A
  const UNDERSCORE: CodePoint := 0x5F
  const PIPE: CodePoint := 0x7C

  predicate IsLetter(c: CodePoint) {
    0x41 <= c <= 0x5A || 0x61 <= c <= 0x7A
  }

  predicate IsDigit(c: CodePoint) {
    0x30 <= c <= 0x39
  }

  // str.isspace: the code points that str.strip removes.
  predicate IsSpace(c: CodePoint) {
    || 0x09 <= c <= 0x0D || 0x1C <= c <= 0x20 || c == 0x85 || c == 0xA0 || c == 0x1680
    || 0x2000 <= c <= 0x200A || c == 0x2028 || c == 0x2029 || c == 0x202F || c == 0x205F || c == 0x3000
  }

  // "not s.strip()"
  predicate Blank(s: Str) {
    forall i :: 0 <= i < |s| ==> IsSpace(s[i])
  }

  // str.lower on one code point. Every use below is on text already known to be ASCII.
  function LowerChar(c: CodePoint): CodePoint {
    if 0x41 <= c <= 0x5A then c + 32 else c
  }

  function Lower(s: Str): Str {
    seq(|s|, i requires 0 <= i < |s| => LowerChar(s[i]))
  }

  function DigitValue(c: CodePoint): (d: nat)
    ensures d < 10
  {
    if IsDigit(c) then c as int - 0x30 else 0
  }

  // int(s), for a string of ASCII digits.
  function DecimalValue(s: Str): nat {
    if s == [] then 0 else 10 * DecimalValue(s[..|s| - 1]) + DigitValue(s[|s| - 1])
  }

  // Where the run of digits that starts at i ends.
  function DigitsEnd(s: Str, i: nat): (j: nat)
    requires i <= |s|
    ensures i <= j <= |s| && (forall k :: i <= k < j ==> IsDigit(s[k])) && (j < |s| ==> !IsDigit(s[j]))
    decreases |s| - i
  {
    if i < |s| && IsDigit(s[i]) then DigitsEnd(s, i + 1) else i
  }

  // Python's "<" on strings: lexicographic by code point.
  predicate Less(a: Str, b: Str) {
    b != [] && (a == [] || a[0] < b[0] || (a[0] == b[0] && Less(a[1..], b[1..])))
  }

  // a is smaller at the first place where they differ, or is a proper prefix of b.
  predicate SmallerAt(a: Str, b: Str, i: nat) {
    i <= |a| && i < |b| && a[..i] == b[..i] && (i == |a| || a[i] < b[i])
  }

  lemma SmallerSharesHead(a: Str, b: Str, i: nat)
    requires SmallerAt(a, b, i) && i > 0
    ensures a[0] == b[0]
  {
    assert a[..i][0] == b[..i][0];
  }

  lemma {:induction false} LessIsLexicographic(a: Str, b: Str)
    ensures Less(a, b) <==> exists i :: SmallerAt(a, b, i)
  {
    if a == [] && b != [] {
      assert SmallerAt(a, b, 0);
    } else if a != [] && b != [] {
      LessIsLexicographic(a[1..], b[1..]);
      forall i: nat | SmallerAt(a, b, i) && i > 0 ensures a[0] == b[0] {
        SmallerSharesHead(a, b, i);
      }
      if a[0] == b[0] {
        if i: nat :| SmallerAt(a[1..], b[1..], i) {
          assert a[..i + 1] == [a[0]] + a[1..][..i] && b[..i + 1] == [b[0]] + b[1..][..i];
          assert SmallerAt(a, b, i + 1);
        }
        if i: nat :| SmallerAt(a, b, i) && i > 0 {
          assert a[1..][..i - 1] == a[..i][1..] && b[1..][..i - 1] == b[..i][1..];
          assert SmallerAt(a[1..], b[1..], i - 1);
        }
      } else {
        assert a[0] < b[0] ==> SmallerAt(a, b, 0);
      }
    }
  }

  lemma {:induction false} LessTotal(a: Str, b: Str)
    ensures a == b || Less(a, b) || Less(b, a)
    ensures !(Less(a, b) && Less(b, a)) && !Less(a, a)
  {
    if a != [] && b != [] && a[0] == b[0] {
      LessTotal(a[1..], b[1..]);
      assert a == [a[0]] + a[1..] && b == [b[0]] + b[1..];
    }
    if a != [] {
      LessIrreflexive(a);
    }
  }

  lemma {:induction false} LessIrreflexive(a: Str)
    ensures !Less(a, a)
  {
    if a != [] {
      LessIrreflexive(a[1..]);
    }
  }

  lemma {:induction false} LessTransitive(a: Str, b: Str, c: Str)
    requires Less(a, b) && Less(b, c)
    ensures Less(a, c)
  {
    if a != [] && a[0] == b[0] == c[0] {
      LessTransitive(a[1..], b[1..], c[1..]);
    }
  }
}
