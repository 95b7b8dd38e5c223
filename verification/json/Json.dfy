/**
 JSON values as Python holds them - a dict keeps the order its keys were put in -
 and how json.dumps writes them.
 */
module Json {
  import opened Text

  datatype Value =
    | Null
    | Bool(b: bool)
    | Int(n: int)
    | Float(f: real)
    | NonFinite                     // an infinity or not-a-number
    | String(s: Str)
    | List(items: seq<Value>)
    | Dict(entries: seq<Entry>)

  datatype Entry = Entry(key: Str, value: Value)

  // How the runtime writes and reads floats: repr is exact on the reals that are doubles. Reading
  // a number too large for a double gives none.
  datatype FloatCodec = FloatCodec(isDouble: real -> bool, repr: real -> Str, parse: Str -> Reading)

  datatype Reading = Overflow | Exactly(f: real)

  // Keys

  function Keys(es: seq<Entry>): set<Str> {
    set e | e in es :: e.key
  }

  predicate UniqueKeys(es: seq<Entry>) {
    forall i, j :: 0 <= i < j < |es| ==> es[i].key != es[j].key
  }

  predicate Has(es: seq<Entry>, k: Str) {
    exists i :: 0 <= i < |es| && es[i].key == k
  }

  // dict[k]
  function Get(es: seq<Entry>, k: Str): (v: Value)
    requires Has(es, k)
    ensures exists i :: 0 <= i < |es| && es[i] == Entry(k, v)
  {
    if es[0].key == k then es[0].value else
    assert Has(es[1..], k) by {
      var i :| 0 <= i < |es| && es[i].key == k;
      assert es[1..][i - 1] == es[i];
    }
    Get(es[1..], k)
  }

  lemma {:induction false} GetAt(es: seq<Entry>, i: nat)
    requires UniqueKeys(es) && i < |es|
    ensures Has(es, es[i].key) && Get(es, es[i].key) == es[i].value
  {
    if i > 0 {
      assert es[1..][i - 1] == es[i];
      GetAt(es[1..], i - 1);
    }
  }

  // Writing

  const QUOTE: CodePoint := 0x22
  const BACKSLASH: CodePoint := 0x5C

  predicate IsHigh(c: int) { 0xD800 <= c <= 0xDBFF }
  predicate IsLow(c: int) { 0xDC00 <= c <= 0xDFFF }
  predicate IsSurrogate(c: int) { 0xD800 <= c <= 0xDFFF }

  // Lower-case hexadecimal.
  function HexDigit(d: nat): CodePoint
    requires d < 16
  {
    if d < 10 then 0x30 + d else 0x57 + d
  }

  // The last n hexadecimal digits of u.
  function Hex(u: nat, n: nat): (r: Str)
    ensures |r| == n
  {
    if n == 0 then [] else Hex(u / 16, n - 1) + [HexDigit(u % 16)]
  }

  // \uXXXX for one UTF-16 unit.
  function Unit(u: nat): Str {
    [BACKSLASH, 0x75] + Hex(u, 4)
  }

  function HighOf(c: CodePoint): nat
    requires c >= 0x10000
  {
    0xD800 + (c - 0x10000) / 1024
  }

  function LowOf(c: CodePoint): nat
    requires c >= 0x10000
  {
    0xDC00 + (c - 0x10000) % 1024
  }

  // The short escape letter of a character, if it has one.
  function ShortEscape(c: CodePoint): CodePoint {
    if c == 0x22 then 0x22 else if c == 0x5C then 0x5C
    else if c == 0x0A then 0x6E else if c == 0x0D then 0x72 else if c == 0x09 then 0x74
    else if c == 0x0C then 0x66 else if c == 0x08 then 0x62 else 0
  }

  // With ensure_ascii everything outside the printable ASCII range is escaped, a character beyond
  // the basic plane as a surrogate pair; without it, only control characters are.
  function Escape(c: CodePoint, ascii: bool): Str {
    if ShortEscape(c) != 0 then [BACKSLASH, ShortEscape(c)]
    else if 0x20 <= c <= 0x7E || (!ascii && c >= 0x20) then [c]
    else if c < 0x10000 then Unit(c)
    else Unit(HighOf(c)) + Unit(LowOf(c))
  }

  function EscapeAll(s: Str, ascii: bool): Str {
    if s == [] then [] else Escape(s[0], ascii) + EscapeAll(s[1..], ascii)
  }

  function Quote(s: Str, ascii: bool): Str {
    [QUOTE] + EscapeAll(s, ascii) + [QUOTE]
  }

  // Decimal digits without leading zeros.
  function Digits(n: nat): (ds: Str)
    ensures ds != [] && (forall i :: 0 <= i < |ds| ==> IsDigit(ds[i]))
  {
    if n < 10 then [0x30 + n] else Digits(n / 10) + [0x30 + n % 10]
  }

  function Decimal(n: int): Str {
    if n < 0 then [0x2D] + Digits(-n) else Digits(n)
  }

  const NULL: Str := [0x6E, 0x75, 0x6C, 0x6C]
  const TRUE: Str := [0x74, 0x72, 0x75, 0x65]
  const FALSE: Str := [0x66, 0x61, 0x6C, 0x73, 0x65]
  const NAN: Str := [0x4E, 0x61, 0x4E]
  const COMMA: Str := [0x2C, 0x20]
  const COLON: Str := [0x3A, 0x20]

  function Print(v: Value, ascii: bool, codec: FloatCodec): Str
    decreases v, 0
  {
    match v
    case Null => NULL
    case Bool(b) => if b then TRUE else FALSE
    case Int(n) => Decimal(n)
    case Float(f) => codec.repr(f)
    case NonFinite => NAN
    case String(s) => Quote(s, ascii)
    case List(items) => [0x5B] + PrintItems(items, ascii, codec) + [0x5D]
    case Dict(es) => [0x7B] + PrintEntries(es, ascii, codec) + [0x7D]
  }

  function PrintItems(items: seq<Value>, ascii: bool, codec: FloatCodec): Str
    decreases items, 1
  {
    if items == [] then []
    else if |items| == 1 then Print(items[0], ascii, codec)
    else Print(items[0], ascii, codec) + COMMA + PrintItems(items[1..], ascii, codec)
  }

  function PrintEntry(e: Entry, ascii: bool, codec: FloatCodec): Str
    decreases e, 1
  {
    Quote(e.key, ascii) + COLON + Print(e.value, ascii, codec)
  }

  function PrintEntries(es: seq<Entry>, ascii: bool, codec: FloatCodec): Str
    decreases es, 2
  {
    if es == [] then []
    else if |es| == 1 then PrintEntry(es[0], ascii, codec)
    else PrintEntry(es[0], ascii, codec) + COMMA + PrintEntries(es[1..], ascii, codec)
  }

  // sort_keys: every dict with its entries in key order.

  function InsertEntry(e: Entry, es: seq<Entry>): seq<Entry> {
    if es == [] || Less(e.key, es[0].key) then [e] + es else [es[0]] + InsertEntry(e, es[1..])
  }

  function SortEntries(es: seq<Entry>): seq<Entry> {
    if es == [] then [] else InsertEntry(es[0], SortEntries(es[1..]))
  }

  function Canon(v: Value): Value
    decreases v, 0
  {
    match v
    case List(items) => List(CanonItems(items))
    case Dict(es) => Dict(SortEntries(CanonEntries(es)))
    case _ => v
  }

  function CanonItems(items: seq<Value>): (r: seq<Value>)
    ensures |r| == |items|
    decreases items, 1
  {
    if items == [] then [] else [Canon(items[0])] + CanonItems(items[1..])
  }

  function CanonEntries(es: seq<Entry>): (r: seq<Entry>)
    ensures |r| == |es|
    decreases es, 1
  {
    if es == [] then [] else [Entry(es[0].key, Canon(es[0].value))] + CanonEntries(es[1..])
  }

  // json.dumps(v, ensure_ascii=True, sort_keys=True)
  function Dumps(v: Value, codec: FloatCodec): Str {
    Print(Canon(v), true, codec)
  }
}
