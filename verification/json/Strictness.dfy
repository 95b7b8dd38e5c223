/** What the decoder refuses: raw control characters in strings, and numbers that are no JSON numbers. */
module Strictness {
  import opened Text
  import opened Json
  import opened Decode

  // Strings are strict: no raw control character stands in one.
  lemma {:induction false} StringsHaveNoControls(s: Str)
    ensures ParseString(s).Ok? ==> forall i :: 0 <= i < |s| - |ParseString(s).rest| ==> s[i] >= 0x20
    decreases |s|
  {
    if ParseString(s).Ok? && s[0] != QUOTE {
      var u := if s[0] != BACKSLASH then 1 else if s[1] != 0x75 then 2 else ReadUnits(s);
      StringsHaveNoControls(s[u..]);
      HeadHasNoControls(s, u);
      forall i | u <= i < |s| - |ParseString(s).rest| ensures s[i] >= 0x20 {
        assert s[i] == s[u..][i - u];
      }
    }
  }

  lemma HeadHasNoControls(s: Str, u: nat)
    requires ParseString(s).Ok? && s[0] != QUOTE
    requires u == if s[0] != BACKSLASH then 1 else if s[1] != 0x75 then 2 else ReadUnits(s)
    ensures forall i :: 0 <= i < u ==> s[i] >= 0x20
  {
    if s[0] == BACKSLASH && s[1] == 0x75 {
      UnitHasNoControls(s, 0);
      if u == 12 {
        assert s[6..][0] == s[6] && s[6..][1] == s[7];
        UnitHasNoControls(s, 6);
      }
    }
  }

  lemma UnitHasNoControls(s: Str, j: nat)
    requires j + 2 <= |s| && s[j] == BACKSLASH && s[j + 1] == 0x75 && HasUnit(s[j + 2..])
    ensures forall i :: j <= i < j + 6 ==> s[i] >= 0x20
  {
    forall i | j + 2 <= i < j + 6 ensures s[i] >= 0x20 {
      assert s[j + 2..][..4][i - j - 2] == s[i];
    }
  }

  // How many characters of a \u escape, or of two that make one character, are read at once.
  function ReadUnits(s: Str): (u: nat)
    requires s != [] && s[0] == BACKSLASH && |s| >= 2 && s[1] == 0x75 && HasUnit(s[2..])
    ensures 0 < u <= |s|
  {
    var after := s[6..];
    if IsHigh(UnitValue(s[2..])) && StartsUnit(after) && HasUnit(after[2..]) && IsLow(UnitValue(after[2..]))
    then 12 else 6
  }

  // A number as section 6 of RFC 8259 has it.

  predicate AllDigits(t: Str) {
    forall i :: 0 <= i < |t| ==> IsDigit(t[i])
  }

  predicate IntegerText(t: Str) {
    var digits := if t != [] && t[0] == 0x2D then t[1..] else t;
    digits != [] && AllDigits(digits) && (digits[0] == 0x30 ==> |digits| == 1)
  }

  predicate FractionText(t: Str) {
    t == [] || (t[0] == 0x2E && |t| > 1 && AllDigits(t[1..]))
  }

  predicate ExponentText(t: Str) {
    t == [] || (t[0] in {0x65, 0x45} && |t| > 1 &&
      var digits := if t[1] in {0x2B, 0x2D} then t[2..] else t[1..];
      digits != [] && AllDigits(digits))
  }

  // What is read as a number is one, with what int() or float() makes of its text: an integer of no
  // more digits than int() takes, or a finite double, or none when there is no such double.
  lemma NumberIsRead(s: Str, codec: FloatCodec)
    ensures ParseNumber(s, codec).Ok? ==>
              var v, rest := ParseNumber(s, codec).value, ParseNumber(s, codec).rest;
              var t, i := s[..|s| - |rest|], IntegerEnd(s);
              var j := FractionEnd(s, i);
              && t + rest == s && i <= j <= |t|
              && IntegerText(t[..i]) && FractionText(t[i..j]) && ExponentText(t[j..])
              && (i == |t| ==> v == Int(IntegerOf(t)) && DigitCount(t) <= 4300)
              && (i < |t| ==> v == match codec.parse(t) case Exactly(f) => Float(f) case Overflow => NonFinite)
  {
    if ParseNumber(s, codec).Ok? {
      NumberParts(s);
      assert s[..NumberEnd(s)] + s[NumberEnd(s)..] == s;
    }
  }

  lemma NumberParts(s: Str)
    requires IntegerEnd(s) > 0
    ensures var i := IntegerEnd(s);
            var t, j := s[..NumberEnd(s)], FractionEnd(s, i);
            i <= j <= |t| && IntegerText(t[..i]) && FractionText(t[i..j]) && ExponentText(t[j..])
  {
    var i := IntegerEnd(s);
    var j := FractionEnd(s, i);
    var t := s[..NumberEnd(s)];
    assert t[..i] == s[..i] && t[i..j] == s[i..j] && t[j..] == s[j..NumberEnd(s)];
    IntegerPart(s);
    FractionPart(s, i);
    ExponentPart(s, j);
  }

  lemma IntegerPart(s: Str)
    requires IntegerEnd(s) > 0
    ensures IntegerText(s[..IntegerEnd(s)])
  {
    var t, i := s[..IntegerEnd(s)], if s[0] == 0x2D then 1 else 0;
    var digits := if t[0] == 0x2D then t[1..] else t;
    forall k | 0 <= k < |digits| ensures IsDigit(digits[k]) {
      assert digits[k] == s[k + i];
    }
  }

  lemma FractionPart(s: Str, j: nat)
    requires j <= |s|
    ensures FractionText(s[j..FractionEnd(s, j)])
  {
    var k := FractionEnd(s, j);
    if j < k {
      assert s[j..k][1..] == s[j + 1..k];
    }
  }

  lemma ExponentPart(s: Str, j: nat)
    requires j <= |s|
    ensures ExponentText(s[j..ExponentEnd(s, j)])
  {
    var k := ExponentEnd(s, j);
    if j < k {
      var t := s[j..k];
      assert t[1] == s[j + 1] && t[1..] == s[j + 1..k];
      assert t[1] in {0x2B, 0x2D} ==> t[2..] == s[j + 2..k];
    }
  }
}
