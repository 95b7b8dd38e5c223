/** What json.dumps writes, json.loads reads back. */
module RoundTrip {
  import opened Text
  import opened Json
  import opened Decode

  // Escaping. Reading back joins a high surrogate with a low one that follows it.

  function Merge(s: Str): (r: Str)
    ensures |r| <= |s|
    decreases |s|
  {
    if s == [] then []
    else if |s| >= 2 && IsHigh(s[0]) && IsLow(s[1]) then [Combine(s[0], s[1])] + Merge(s[2..])
    else [s[0]] + Merge(s[1..])
  }

  predicate NoPairs(s: Str) {
    forall i :: 0 <= i < |s| - 1 ==> !(IsHigh(s[i]) && IsLow(s[i + 1]))
  }

  lemma {:induction false} MergeKeepsOnlyUnpaired(s: Str)
    ensures Merge(s) == s <==> NoPairs(s)
    decreases |s|
  {
    if s != [] {
      if |s| >= 2 && IsHigh(s[0]) && IsLow(s[1]) {
        assert |Merge(s)| < |s|;
      } else {
        MergeKeepsOnlyUnpaired(s[1..]);
        assert s == [s[0]] + s[1..];
        assert Merge(s) == s ==> Merge(s[1..]) == s[1..] by {
          assert Merge(s)[1..] == Merge(s[1..]);
        }
        if NoPairs(s[1..]) {
          forall i | 0 <= i < |s| - 1 ensures !(IsHigh(s[i]) && IsLow(s[i + 1])) {
            if i > 0 {
              assert s[1..][i - 1] == s[i] && s[1..][i] == s[i + 1];
            }
          }
        }
      }
    }
  }

  lemma {:induction false} HexReads(u: nat, n: nat)
    requires u < Pow16(n)
    ensures AllHex(Hex(u, n)) && HexNumber(Hex(u, n)) == u
  {
    if n > 0 {
      HexReads(u / 16, n - 1);
      var digits, last := Hex(u / 16, n - 1), HexDigit(u % 16);
      assert Hex(u, n) == digits + [last] && (digits + [last])[..n - 1] == digits;
      assert HexValue(last) == u % 16;
    }
  }

  lemma UnitReads(u: nat, tail: Str)
    requires u < 0x10000
    ensures var s := Unit(u) + tail;
            StartsUnit(s) && HasUnit(s[2..]) && UnitValue(s[2..]) == u && s[6..] == tail
  {
    assert Pow16(4) == 16 * Pow16(3) == 256 * Pow16(2) == 4096 * Pow16(1) == 0x10000;
    HexReads(u, 4);
    assert (Unit(u) + tail)[2..][..4] == Hex(u, 4);
  }

  lemma PairCombines(c: CodePoint)
    requires c >= 0x10000
    ensures IsHigh(HighOf(c)) && IsLow(LowOf(c)) && Combine(HighOf(c), LowOf(c)) == c
  {
  }

  // A \uXXXX comes next whose unit is, or may be, a low surrogate.
  predicate LowFollows(t: Str) {
    StartsUnit(t) && (!HasUnit(t[2..]) || IsLow(UnitValue(t[2..])))
  }

  predicate IsPlain(c: CodePoint) {
    ShortEscape(c) == 0 && 0x20 <= c <= 0x7E
  }

  // Reading one escaped character in front of text that reads.

  lemma ReadShort(c: CodePoint, tail: Str)
    requires ShortEscape(c) != 0
    ensures ParseString(Escape(c, true) + tail) == Prepend(c, ParseString(tail))
    ensures !LowFollows(Escape(c, true) + tail)
  {
    var t := Escape(c, true) + tail;
    assert t[0] == BACKSLASH && t[1] == ShortEscape(c) && t[2..] == tail;
  }

  lemma ReadPlain(c: CodePoint, tail: Str)
    requires IsPlain(c)
    ensures ParseString(Escape(c, true) + tail) == Prepend(c, ParseString(tail))
    ensures !LowFollows(Escape(c, true) + tail)
  {
    var t := Escape(c, true) + tail;
    assert t[0] == c && t[1..] == tail;
  }

  lemma ReadUnit(u: nat, tail: Str)
    requires u < 0x10000 && (IsHigh(u) ==> !LowFollows(tail))
    ensures ParseString(Unit(u) + tail) == Prepend(u, ParseString(tail))
  {
    UnitReads(u, tail);
  }

  lemma ReadPair(high: nat, low: nat, tail: Str)
    requires IsHigh(high) && IsLow(low)
    ensures ParseString(Unit(high) + (Unit(low) + tail)) == Prepend(Combine(high, low), ParseString(tail))
  {
    UnitReads(high, Unit(low) + tail);
    UnitReads(low, tail);
  }

  lemma EscapeIsUnit(c: CodePoint)
    requires ShortEscape(c) == 0 && !IsPlain(c)
    ensures Escape(c, true) == if c < 0x10000 then Unit(c) else Unit(HighOf(c)) + Unit(LowOf(c))
  {
  }

  lemma LowFollowsEscape(c: CodePoint, tail: Str)
    ensures LowFollows(Escape(c, true) + tail) <==> IsLow(c)
  {
    if ShortEscape(c) != 0 {
      ReadShort(c, tail);
    } else if IsPlain(c) {
      ReadPlain(c, tail);
    } else {
      EscapeIsUnit(c);
      if c < 0x10000 {
        UnitReads(c, tail);
      } else {
        PairCombines(c);
        assert Escape(c, true) + tail == Unit(HighOf(c)) + (Unit(LowOf(c)) + tail);
        UnitReads(HighOf(c), Unit(LowOf(c)) + tail);
      }
    }
  }

  lemma ReadOne(c: CodePoint, tail: Str)
    requires IsHigh(c) ==> !LowFollows(tail)
    ensures ParseString(Escape(c, true) + tail) == Prepend(c, ParseString(tail))
  {
    if ShortEscape(c) != 0 {
      ReadShort(c, tail);
    } else if IsPlain(c) {
      ReadPlain(c, tail);
    } else {
      EscapeIsUnit(c);
      if c < 0x10000 {
        ReadUnit(c, tail);
      } else {
        PairCombines(c);
        assert Escape(c, true) + tail == Unit(HighOf(c)) + (Unit(LowOf(c)) + tail);
        ReadPair(HighOf(c), LowOf(c), tail);
      }
    }
  }

  // Reading an escaped string gives it back with its surrogate pairs merged - so it gives the
  // string itself exactly when no high surrogate stands before a low one.
  lemma {:induction false} StringReads(s: Str, rest: Str)
    ensures ParseString(EscapeAll(s, true) + ([QUOTE] + rest)) == Ok(Merge(s), rest)
    decreases |s|
  {
    var end := [QUOTE] + rest;
    if s == [] {
      assert EscapeAll(s, true) + end == end && end[1..] == rest;
    } else {
      var tail := EscapeAll(s[1..], true) + end;
      assert EscapeAll(s, true) + end == Escape(s[0], true) + tail;
      if |s| >= 2 {
        var after := EscapeAll(s[2..], true) + end;
        assert s[1..][1..] == s[2..] && tail == Escape(s[1], true) + after;
        LowFollowsEscape(s[1], after);
        if IsHigh(s[0]) && IsLow(s[1]) {
          EscapeIsUnit(s[0]);
          EscapeIsUnit(s[1]);
          ReadPair(s[0], s[1], after);
          StringReads(s[2..], rest);
          return;
        }
      } else {
        assert tail == end;
      }
      ReadOne(s[0], tail);
      StringReads(s[1..], rest);
    }
  }

  // Numbers

  // Text that cannot continue a number in front of it.
  predicate Stops(rest: Str) {
    rest != [] ==> !IsDigit(rest[0]) && rest[0] !in {0x2E, 0x65, 0x45, 0x2B, 0x2D}
  }

  lemma DigitsEndIs(s: Str, i: nat, j: nat)
    requires i <= j <= |s| && (forall k :: i <= k < j ==> IsDigit(s[k])) && (j < |s| ==> !IsDigit(s[j]))
    ensures DigitsEnd(s, i) == j
  {
  }

  lemma {:induction false} DigitsRead(n: nat)
    ensures DecimalValue(Digits(n)) == n
    ensures n > 0 ==> Digits(n)[0] != 0x30
    ensures n < 10 ==> |Digits(n)| == 1
  {
    if n >= 10 {
      DigitsRead(n / 10);
      assert (Digits(n / 10) + [0x30 + n % 10])[..|Digits(n)| - 1] == Digits(n / 10);
    }
  }

  // Digits standing in s from i on, with no number character after them.
  lemma IntegerEndIs(s: Str, i: nat, j: nat)
    requires i < j <= |s| && i == (if s[0] == 0x2D then 1 else 0)
    requires (forall k :: i <= k < j ==> IsDigit(s[k])) && Stops(s[j..]) && (s[i] == 0x30 ==> j == i + 1)
    ensures IntegerEnd(s) == j && NumberEnd(s) == j
  {
    assert j < |s| ==> s[j..][0] == s[j];
    DigitsEndIs(s, i, j);
  }

  lemma DecimalShape(n: int)
    ensures var t, i := Decimal(n), if n < 0 then 1 else 0;
            && i < |t| && i == (if t[0] == 0x2D then 1 else 0)
            && (forall k :: i <= k < |t| ==> IsDigit(t[k])) && (t[i] == 0x30 ==> |t| == i + 1)
  {
    var size: nat := if n < 0 then -n else n;
    DigitsRead(size);
    assert IsDigit(Digits(size)[0]);
    forall k | (if n < 0 then 1 else 0) <= k < |Decimal(n)| ensures IsDigit(Decimal(n)[k]) {
      assert Decimal(n)[k] == Digits(size)[if n < 0 then k - 1 else k];
    }
  }

  lemma IntegerReads(n: int, rest: Str, codec: FloatCodec)
    requires Stops(rest) && DigitCount(Decimal(n)) <= MAX_INT_DIGITS
    ensures ParseNumber(Decimal(n) + rest, codec) == Ok(Int(n), rest)
  {
    var t := Decimal(n);
    var s := t + rest;
    DecimalShape(n);
    IntegerOfDecimal(n);
    assert s[|t|..] == rest && s[..|t|] == t;
    IntegerEndIs(s, if n < 0 then 1 else 0, |t|);
  }

  lemma IntegerOfDecimal(n: int)
    ensures IntegerOf(Decimal(n)) == n
  {
    DigitsRead(if n < 0 then -n else n);
    if n < 0 {
      assert Decimal(n)[1..] == Digits(-n);
    } else {
      assert IsDigit(Digits(n)[0]);
    }
  }

  // What repr writes for a double: a JSON number that is not an integer.
  predicate IsFloatText(t: Str) {
    NumberEnd(t) == |t| && 0 < IntegerEnd(t) < |t|
  }

  ghost predicate ExactCodec(codec: FloatCodec) {
    forall f: real :: codec.isDouble(f) ==> IsFloatText(codec.repr(f)) && codec.parse(codec.repr(f)) == Exactly(f)
  }

  lemma DigitsEndIn(t: Str, rest: Str, i: nat)
    requires i <= |t| && Stops(rest)
    ensures DigitsEnd(t + rest, i) == DigitsEnd(t, i)
  {
    var j := DigitsEnd(t, i);
    DigitsEndIs(t + rest, i, j);
  }

  lemma IntegerEndIn(t: Str, rest: Str)
    requires 0 < IntegerEnd(t) && Stops(rest)
    ensures IntegerEnd(t + rest) == IntegerEnd(t)
  {
    DigitsEndIn(t, rest, if t[0] == 0x2D then 1 else 0);
  }

  lemma FractionEndIn(t: Str, rest: Str, j: nat)
    requires j <= |t| && Stops(rest)
    ensures FractionEnd(t + rest, j) == FractionEnd(t, j)
  {
    if j + 1 <= |t| {
      DigitsEndIn(t, rest, j + 1);
    }
  }

  lemma ExponentEndIn(t: Str, rest: Str, j: nat)
    requires j <= |t| && ExponentEnd(t, j) == |t| && Stops(rest)
    ensures ExponentEnd(t + rest, j) == |t|
  {
    if j < |t| {
      DigitsEndIn(t, rest, if t[j + 1] == 0x2B || t[j + 1] == 0x2D then j + 2 else j + 1);
    }
  }

  lemma NumberEndIn(t: Str, rest: Str)
    requires IsFloatText(t) && Stops(rest)
    ensures NumberEnd(t + rest) == |t| && IntegerEnd(t + rest) == IntegerEnd(t)
  {
    IntegerEndIn(t, rest);
    FractionEndIn(t, rest, IntegerEnd(t));
    ExponentEndIn(t, rest, FractionEnd(t, IntegerEnd(t)));
  }

  lemma FloatReads(f: real, rest: Str, codec: FloatCodec)
    requires ExactCodec(codec) && codec.isDouble(f) && Stops(rest)
    ensures ParseNumber(codec.repr(f) + rest, codec) == Ok(Float(f), rest)
  {
    var t := codec.repr(f);
    NumberEndIn(t, rest);
    assert (t + rest)[..|t|] == t && (t + rest)[|t|..] == rest;
  }

  // Values

  // A value that json.dumps can write faithfully: unique keys, no text whose surrogates would
  // pair up, integers int() will read back, finite doubles.
  ghost predicate Printable(v: Value, codec: FloatCodec)
    decreases v
  {
    match v
    case Int(n) => DigitCount(Decimal(n)) <= MAX_INT_DIGITS
    case Float(f) => codec.isDouble(f)
    case NonFinite => false
    case String(s) => NoPairs(s)
    case List(items) => forall i :: 0 <= i < |items| ==> Printable(items[i], codec)
    case Dict(es) =>
      UniqueKeys(es) && forall i :: 0 <= i < |es| ==> NoPairs(es[i].key) && Printable(es[i].value, codec)
    case _ => true
  }

  // How the text of a value starts.
  lemma PrintStart(v: Value, rest: Str, codec: FloatCodec)
    requires Printable(v, codec) && ExactCodec(codec)
    ensures var s := Print(v, true, codec) + rest;
            s != [] && SkipBlanks(s) == s && s[0] !in {0x5D, 0x7D}
  {
    match v
    case Int(n) => var d := Digits(if n < 0 then -n else n);
      assert IsDigit(d[0]);
    case Float(f) => assert IsFloatText(codec.repr(f));
    case _ =>
  }

  lemma QuotedReads(t: Str, rest: Str)
    requires NoPairs(t)
    ensures var s := Quote(t, true) + rest;
            s[0] == QUOTE && ParseString(s[1..]) == Ok(t, rest)
  {
    var s := Quote(t, true) + rest;
    assert s[1..] == EscapeAll(t, true) + ([QUOTE] + rest);
    StringReads(t, rest);
    MergeKeepsOnlyUnpaired(t);
  }

  lemma NumberDispatch(s: Str, codec: FloatCodec)
    requires s != [] && (IsDigit(s[0]) || s[0] == 0x2D)
    ensures ParseValue(s, codec) == ParseNumber(s, codec)
  {
    assert NULL[0] == 0x6E && TRUE[0] == 0x74 && FALSE[0] == 0x66;
  }

  lemma NumberReads(v: Value, rest: Str, codec: FloatCodec)
    requires Printable(v, codec) && ExactCodec(codec) && Stops(rest) && (v.Int? || v.Float?)
    ensures ParseValue(Print(v, true, codec) + rest, codec) == Ok(v, rest)
  {
    var t := Print(v, true, codec);
    if v.Int? {
      assert IsDigit(Digits(if v.n < 0 then -v.n else v.n)[0]);
      IntegerReads(v.n, rest, codec);
    } else {
      assert IsFloatText(t);
      FloatReads(v.f, rest, codec);
    }
    assert (t + rest)[0] == t[0];
    NumberDispatch(t + rest, codec);
  }

  lemma WordReads(v: Value, rest: Str, codec: FloatCodec)
    requires v.Null? || v.Bool?
    ensures ParseValue(Print(v, true, codec) + rest, codec) == Ok(v, rest)
  {
    var t := Print(v, true, codec);
    var s := t + rest;
    assert t <= s && s[0] == t[0] && s[|t|..] == rest;
    assert NULL[0] == 0x6E && TRUE[0] == 0x74 && FALSE[0] == 0x66;
  }

  lemma ListReads(items: seq<Value>, body: Str, rest: Str, codec: FloatCodec)
    requires items == [] ==> body == [0x5D] + rest
    requires items != [] ==>
               body != [] && SkipBlanks(body) == body && body[0] != 0x5D && ParseItems(body, codec) == Ok(items, rest)
    ensures ParseValue([0x5B] + body, codec) == Ok(List(items), rest)
  {
    var s := [0x5B] + body;
    assert s[1..] == body;
    assert items == [] ==> body[1..] == rest;
    assert ParseValue(s, codec) == ParseList(s, codec);
  }

  lemma DictReads(es: seq<Entry>, body: Str, rest: Str, codec: FloatCodec)
    requires UniqueKeys(es)
    requires es == [] ==> body == [0x7D] + rest
    requires es != [] ==> body != [] && body[0] == QUOTE && ParseEntries(body, codec) == Ok(es, rest)
    ensures ParseValue([0x7B] + body, codec) == Ok(Dict(es), rest)
  {
    var s := [0x7B] + body;
    assert s[1..] == body;
    assert es == [] ==> body[1..] == rest;
    assert ParseValue(s, codec) == ParseDict(s, codec);
  }

  lemma {:induction false} ValueReads(v: Value, rest: Str, codec: FloatCodec)
    requires Printable(v, codec) && ExactCodec(codec) && Stops(rest)
    ensures ParseValue(Print(v, true, codec) + rest, codec) == Ok(v, rest)
    decreases v, 0
  {
    match v
    case Null => WordReads(v, rest, codec);
    case Bool(b) => WordReads(v, rest, codec);
    case Int(n) => NumberReads(v, rest, codec);
    case Float(f) => NumberReads(v, rest, codec);
    case String(t) => QuotedReads(t, rest);
    case List(items) =>
      var body := PrintItems(items, true, codec) + ([0x5D] + rest);
      assert Print(v, true, codec) + rest == [0x5B] + body;
      if items != [] {
        ItemsRead(items, rest, codec);
        ItemsStart(items, [0x5D] + rest, codec);
      }
      ListReads(items, body, rest, codec);
    case Dict(es) =>
      var body := PrintEntries(es, true, codec) + ([0x7D] + rest);
      assert Print(v, true, codec) + rest == [0x7B] + body;
      if es != [] {
        EntriesRead(es, rest, codec);
      }
      DictReads(es, body, rest, codec);
  }

  lemma CommaBetween(first: Str, more: Str, rest: Str)
    ensures first + COMMA + more + rest == first + (COMMA + (more + rest))
  {
  }

  lemma ItemsStart(items: seq<Value>, rest: Str, codec: FloatCodec)
    requires items != [] && Printable(items[0], codec) && ExactCodec(codec)
    ensures var s := PrintItems(items, true, codec) + rest; s != [] && SkipBlanks(s) == s && s[0] !in {0x5D, 0x7D}
  {
    if |items| == 1 {
      PrintStart(items[0], rest, codec);
    } else {
      var first, more := Print(items[0], true, codec), PrintItems(items[1..], true, codec);
      CommaBetween(first, more, rest);
      PrintStart(items[0], COMMA + (more + rest), codec);
    }
  }

  lemma {:induction false} ItemsRead(items: seq<Value>, rest: Str, codec: FloatCodec)
    requires items != [] && ExactCodec(codec)
    requires forall i :: 0 <= i < |items| ==> Printable(items[i], codec)
    ensures ParseItems(PrintItems(items, true, codec) + ([0x5D] + rest), codec) == Ok(items, rest)
    decreases items, 1
  {
    var v, close := items[0], [0x5D] + rest;
    if |items| == 1 {
      ValueReads(v, close, codec);
      assert close[1..] == rest && items == [v];
    } else {
      var more := PrintItems(items[1..], true, codec) + close;
      assert PrintItems(items, true, codec) + close == Print(v, true, codec) + (COMMA + more);
      ValueReads(v, COMMA + more, codec);
      ItemsStart(items[1..], close, codec);
      ItemsRead(items[1..], rest, codec);
      MoreItems(Print(v, true, codec) + (COMMA + more), v, more, items[1..], rest, codec);
      assert items == [v] + items[1..];
    }
  }

  lemma MoreItems(s: Str, v: Value, more: Str, vs: seq<Value>, rest: Str, codec: FloatCodec)
    requires ParseValue(s, codec) == Ok(v, COMMA + more)
    requires SkipBlanks(more) == more && ParseItems(more, codec) == Ok(vs, rest)
    ensures ParseItems(s, codec) == Ok([v] + vs, rest)
  {
    var tail := COMMA + more;
    assert tail[0] == 0x2C && tail[1..] == [0x20] + more && ([0x20] + more)[1..] == more;
    assert SkipBlanks(tail) == tail && SkipBlanks(tail[1..]) == more;
  }

  // The text s starts with the entry e: its key, a colon, its value; then comes tail.
  ghost predicate ReadsEntry(s: Str, e: Entry, tail: Str, codec: FloatCodec) {
    && s != [] && s[0] == QUOTE
    && match ParseString(s[1..])
       case Fail => false
       case Ok(k, after) =>
         var colon := SkipBlanks(after);
         && k == e.key && colon != [] && colon[0] == 0x3A
         && ParseValue(SkipBlanks(colon[1..]), codec) == Ok(e.value, tail)
  }

  lemma LastEntry(s: Str, e: Entry, rest: Str, codec: FloatCodec)
    requires ReadsEntry(s, e, [0x7D] + rest, codec)
    ensures ParseEntries(s, codec) == Ok([e], rest)
  {
    assert ([0x7D] + rest)[1..] == rest;
  }

  lemma MoreEntries(s: Str, e: Entry, more: Str, es: seq<Entry>, rest: Str, codec: FloatCodec)
    requires ReadsEntry(s, e, COMMA + more, codec)
    requires more != [] && more[0] == QUOTE && ParseEntries(more, codec) == Ok(es, rest)
    ensures ParseEntries(s, codec) == Ok([e] + es, rest)
  {
    var tail := COMMA + more;
    assert tail[0] == 0x2C && tail[1..] == [0x20] + more && ([0x20] + more)[1..] == more;
    assert SkipBlanks(tail) == tail && SkipBlanks(tail[1..]) == more;
  }

  lemma {:induction false} EntriesRead(es: seq<Entry>, rest: Str, codec: FloatCodec)
    requires es != [] && ExactCodec(codec)
    requires forall i :: 0 <= i < |es| ==> NoPairs(es[i].key) && Printable(es[i].value, codec)
    ensures var s := PrintEntries(es, true, codec) + ([0x7D] + rest);
            s[0] == QUOTE && ParseEntries(s, codec) == Ok(es, rest)
    decreases es, 1
  {
    var e, close := es[0], [0x7D] + rest;
    if |es| == 1 {
      EntryReads(e, close, codec);
      LastEntry(PrintEntry(e, true, codec) + close, e, rest, codec);
      assert es == [e];
    } else {
      var more := PrintEntries(es[1..], true, codec) + close;
      var tail := COMMA + more;
      assert PrintEntries(es, true, codec) + close == PrintEntry(e, true, codec) + tail;
      EntryReads(e, tail, codec);
      EntriesRead(es[1..], rest, codec);
      MoreEntries(PrintEntry(e, true, codec) + tail, e, more, es[1..], rest, codec);
      assert es == [e] + es[1..];
    }
  }

  lemma {:induction false} EntryReads(e: Entry, tail: Str, codec: FloatCodec)
    requires ExactCodec(codec) && NoPairs(e.key) && Printable(e.value, codec) && Stops(tail)
    ensures ReadsEntry(PrintEntry(e, true, codec) + tail, e, tail, codec)
    decreases e, 1
  {
    var value := Print(e.value, true, codec) + tail;
    assert PrintEntry(e, true, codec) + tail == Quote(e.key, true) + (COLON + value);
    QuotedReads(e.key, COLON + value);
    PrintStart(e.value, tail, codec);
    ValueReads(e.value, tail, codec);
    ColonSkipped(value);
  }

  lemma ColonSkipped(value: Str)
    requires SkipBlanks(value) == value
    ensures var s := COLON + value; s[0] == 0x3A && SkipBlanks(s) == s && SkipBlanks(s[1..]) == value
  {
    assert (COLON + value)[1..] == [0x20] + value && ([0x20] + value)[1..] == value;
  }

  // json.loads(text json.dumps wrote) is the value that was written.
  lemma LoadsUndoesPrint(v: Value, codec: FloatCodec)
    requires Printable(v, codec) && ExactCodec(codec)
    ensures Loads(Print(v, true, codec), codec) == Loaded(v)
  {
    var s := Print(v, true, codec);
    assert s + [] == s;
    PrintStart(v, [], codec);
    ValueReads(v, [], codec);
  }

  predicate AllBlank(s: Str) {
    forall i :: 0 <= i < |s| ==> IsBlank(s[i])
  }

  lemma {:induction false} SkipsToTheEnd(s: Str)
    ensures SkipBlanks(s) == [] <==> AllBlank(s)
  {
    if s != [] && IsBlank(s[0]) {
      SkipsToTheEnd(s[1..]);
      assert s == [s[0]] + s[1..];
    }
  }

  lemma {:induction false} SkipsTheLead(lead: Str, s: Str)
    requires AllBlank(lead) && SkipBlanks(s) == s
    ensures SkipBlanks(lead + s) == s
  {
    if lead == [] {
      assert lead + s == s;
    } else {
      assert (lead + s)[1..] == lead[1..] + s;
      SkipsTheLead(lead[1..], s);
    }
  }

  // Around the value there may be blanks and nothing else: any other text after it is refused.
  lemma OnlyBlanksAround(v: Value, lead: Str, rest: Str, codec: FloatCodec)
    requires Printable(v, codec) && ExactCodec(codec) && AllBlank(lead) && Stops(rest)
    ensures Loads(lead + (Print(v, true, codec) + rest), codec) == if AllBlank(rest) then Loaded(v) else Invalid
  {
    PrintStart(v, rest, codec);
    SkipsTheLead(lead, Print(v, true, codec) + rest);
    ValueReads(v, rest, codec);
    SkipsToTheEnd(rest);
  }
}
