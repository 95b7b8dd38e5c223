/**
 Reading JSON text the way the stored-snapshot reader does: strict strings, no
 duplicate keys, no NaN or Infinity, nothing after the value. What json.dumps
 wrote reads back as what was written.
 */
module Decode {
  import opened Text
  import opened Json

  datatype Parsed<T> = Fail | Ok(value: T, rest: Str)

  predicate IsBlank(c: CodePoint) {
    c == 0x20 || c == 0x09 || c == 0x0A || c == 0x0D
  }

  function SkipBlanks(s: Str): (r: Str)
    ensures |r| <= |s|
  {
    if s != [] && IsBlank(s[0]) then SkipBlanks(s[1..]) else s
  }

  // Strings

  predicate IsHex(c: CodePoint) {
    IsDigit(c) || 0x41 <= c <= 0x46 || 0x61 <= c <= 0x66
  }

  function HexValue(c: CodePoint): (d: nat)
    ensures d < 16
  {
    if IsDigit(c) then c as int - 0x30
    else if 0x41 <= c <= 0x46 then c as int - 0x37
    else if 0x61 <= c <= 0x66 then c as int - 0x57
    else 0
  }

  function Pow16(n: nat): nat {
    if n == 0 then 1 else 16 * Pow16(n - 1)
  }

  function HexNumber(t: Str): (u: nat)
    ensures u < Pow16(|t|)
  {
    if t == [] then 0 else 16 * HexNumber(t[..|t| - 1]) + HexValue(t[|t| - 1])
  }

  predicate AllHex(t: Str) {
    forall i :: 0 <= i < |t| ==> IsHex(t[i])
  }

  // Whether s starts with XXXX, and its value.
  predicate HasUnit(s: Str) {
    |s| >= 4 && AllHex(s[..4])
  }

  function UnitValue(s: Str): (u: nat)
    requires HasUnit(s)
    ensures u < 0x10000
  {
    assert Pow16(4) == 16 * Pow16(3) == 256 * Pow16(2) == 4096 * Pow16(1) == 0x10000;
    HexNumber(s[..4])
  }

  // What the letter after a backslash stands for; 0 when it is no short escape.
  function LongFor(c: CodePoint): CodePoint {
    if c == 0x22 || c == 0x5C || c == 0x2F then c
    else if c == 0x6E then 0x0A else if c == 0x72 then 0x0D else if c == 0x74 then 0x09
    else if c == 0x66 then 0x0C else if c == 0x62 then 0x08 else 0
  }

  function Combine(high: nat, low: nat): CodePoint
    requires IsHigh(high) && IsLow(low)
  {
    0x10000 + (high - 0xD800) * 1024 + (low - 0xDC00)
  }

  predicate StartsUnit(s: Str) {
    |s| >= 2 && s[0] == BACKSLASH && s[1] == 0x75
  }

  // The rest of a string after its opening quote.
  function ParseString(s: Str): (p: Parsed<Str>)
    ensures p.Ok? ==> |p.rest| < |s|
    decreases |s|
  {
    if s == [] then Fail
    else if s[0] == QUOTE then Ok([], s[1..])
    else if s[0] != BACKSLASH then
      if s[0] < 0x20 then Fail else Prepend(s[0], ParseString(s[1..]))
    else if |s| < 2 then Fail
    else if s[1] != 0x75 then
      if LongFor(s[1]) == 0 then Fail else Prepend(LongFor(s[1]), ParseString(s[2..]))
    else if !HasUnit(s[2..]) then Fail
    else
      var u := UnitValue(s[2..]);
      var after := s[6..];
      if IsHigh(u) && StartsUnit(after) then
        if !HasUnit(after[2..]) then Fail
        else if IsLow(UnitValue(after[2..])) then Prepend(Combine(u, UnitValue(after[2..])), ParseString(after[6..]))
        else Prepend(u, ParseString(after))
      else Prepend(u, ParseString(after))
  }

  function Prepend(c: CodePoint, p: Parsed<Str>): (r: Parsed<Str>)
    ensures r.Ok? <==> p.Ok?
    ensures r.Ok? ==> r.rest == p.rest
  {
    match p
    case Fail => Fail
    case Ok(t, rest) => Ok([c] + t, rest)
  }

  // Numbers: -?(0|[1-9][0-9]*)(\.[0-9]+)?([eE][-+]?[0-9]+)?

  function IntegerEnd(s: Str): (j: nat)
    ensures j <= |s|
  {
    var i := if s != [] && s[0] == 0x2D then 1 else 0;
    if i == |s| || !IsDigit(s[i]) then 0
    else if s[i] == 0x30 then i + 1
    else DigitsEnd(s, i)
  }

  function FractionEnd(s: Str, j: nat): (k: nat)
    requires j <= |s|
    ensures j <= k <= |s|
  {
    if j + 1 < |s| && s[j] == 0x2E && IsDigit(s[j + 1]) then DigitsEnd(s, j + 1) else j
  }

  function ExponentEnd(s: Str, j: nat): (k: nat)
    requires j <= |s|
    ensures j <= k <= |s|
  {
    if j < |s| && (s[j] == 0x65 || s[j] == 0x45) then
      var d := if j + 1 < |s| && (s[j + 1] == 0x2B || s[j + 1] == 0x2D) then j + 2 else j + 1;
      if d < |s| && IsDigit(s[d]) then DigitsEnd(s, d) else j
    else j
  }

  function NumberEnd(s: Str): (k: nat)
    ensures k <= |s|
  {
    var j := IntegerEnd(s);
    if j == 0 then 0 else ExponentEnd(s, FractionEnd(s, j))
  }

  // int() refuses more digits than this.
  const MAX_INT_DIGITS: nat := 4300

  function IntegerOf(t: Str): int {
    if t != [] && t[0] == 0x2D then -(DecimalValue(t[1..]) as int) else DecimalValue(t)
  }

  function DigitCount(t: Str): nat {
    if t != [] && t[0] == 0x2D then |t| - 1 else |t|
  }

  function ParseNumber(s: Str, codec: FloatCodec): (p: Parsed<Value>)
    ensures p.Ok? ==> |p.rest| < |s|
  {
    var k := NumberEnd(s);
    if k == 0 then Fail
    else if k > IntegerEnd(s) then
      match codec.parse(s[..k])
      case Overflow => Ok(NonFinite, s[k..])
      case Exactly(f) => Ok(Float(f), s[k..])
    else if DigitCount(s[..k]) > MAX_INT_DIGITS then Fail
    else Ok(Int(IntegerOf(s[..k])), s[k..])
  }

  // Values

  function ParseValue(s: Str, codec: FloatCodec): (p: Parsed<Value>)
    ensures p.Ok? ==> |p.rest| < |s|
    decreases |s|, 0
  {
    if s == [] then Fail
    else if s[0] == QUOTE then
      match ParseString(s[1..])
      case Fail => Fail
      case Ok(t, rest) => Ok(String(t), rest)
    else if s[0] == 0x5B then ParseList(s, codec)
    else if s[0] == 0x7B then ParseDict(s, codec)
    else if NULL <= s then Ok(Null, s[4..])
    else if TRUE <= s then Ok(Bool(true), s[4..])
    else if FALSE <= s then Ok(Bool(false), s[5..])
    else ParseNumber(s, codec)
  }

  function ParseList(s: Str, codec: FloatCodec): (p: Parsed<Value>)
    requires s != []
    ensures p.Ok? ==> |p.rest| < |s|
    decreases |s| - 1, 3
  {
    var body := SkipBlanks(s[1..]);
    if body != [] && body[0] == 0x5D then Ok(List([]), body[1..])
    else
      match ParseItems(body, codec)
      case Fail => Fail
      case Ok(items, rest) => Ok(List(items), rest)
  }

  // Values separated by commas, up to the closing bracket.
  function ParseItems(s: Str, codec: FloatCodec): (p: Parsed<seq<Value>>)
    ensures p.Ok? ==> |p.rest| < |s|
    decreases |s|, 1
  {
    match ParseValue(s, codec)
    case Fail => Fail
    case Ok(v, after) =>
      var next := SkipBlanks(after);
      if next == [] then Fail
      else if next[0] == 0x5D then Ok([v], next[1..])
      else if next[0] != 0x2C then Fail
      else
        match ParseItems(SkipBlanks(next[1..]), codec)
        case Fail => Fail
        case Ok(vs, rest) => Ok([v] + vs, rest)
  }

  // The pairs hook refuses a dict with a repeated key.
  function ParseDict(s: Str, codec: FloatCodec): (p: Parsed<Value>)
    requires s != []
    ensures p.Ok? ==> |p.rest| < |s|
    decreases |s| - 1, 3
  {
    var body := SkipBlanks(s[1..]);
    if body != [] && body[0] == 0x7D then Ok(Dict([]), body[1..])
    else
      match ParseEntries(body, codec)
      case Fail => Fail
      case Ok(es, rest) => if UniqueKeys(es) then Ok(Dict(es), rest) else Fail
  }

  function ParseEntries(s: Str, codec: FloatCodec): (p: Parsed<seq<Entry>>)
    ensures p.Ok? ==> |p.rest| < |s|
    decreases |s|, 1
  {
    if s == [] || s[0] != QUOTE then Fail
    else
      match ParseString(s[1..])
      case Fail => Fail
      case Ok(k, afterKey) =>
        var colon := SkipBlanks(afterKey);
        if colon == [] || colon[0] != 0x3A then Fail
        else
          match ParseValue(SkipBlanks(colon[1..]), codec)
          case Fail => Fail
          case Ok(v, after) =>
            var next := SkipBlanks(after);
            if next == [] then Fail
            else if next[0] == 0x7D then Ok([Entry(k, v)], next[1..])
            else if next[0] != 0x2C then Fail
            else
              match ParseEntries(SkipBlanks(next[1..]), codec)
              case Fail => Fail
              case Ok(es, rest) => Ok([Entry(k, v)] + es, rest)
  }

  datatype Decoded = Invalid | Loaded(value: Value)

  // json.loads
  function Loads(s: Str, codec: FloatCodec): Decoded {
    match ParseValue(SkipBlanks(s), codec)
    case Fail => Invalid
    case Ok(v, rest) => if SkipBlanks(rest) == [] then Loaded(v) else Invalid
  }
}
