/** How long the texts are: the UTF-8 size a draft is capped by, and the ASCII text that is stored. */
module Sizes {
  import opened Text
  import opened Json
  import opened Canonical

  function Utf8Size(c: CodePoint): (n: nat)
    ensures n >= 1
  {
    if c < 0x80 then 1 else if c < 0x800 then 2 else if c < 0x10000 then 3 else 4
  }

  // The bytes of a character (section 3 of RFC 3629), and what they are read as.

  // The lead byte of a sequence with n continuation bytes starts from this.
  function Mark(n: nat): int {
    if n == 0 then 0 else if n == 1 then 0xC0 else if n == 2 then 0xE0 else 0xF0
  }

  function DropSixes(c: nat, n: nat): nat {
    if n == 0 then c else DropSixes(c / 64, n - 1)
  }

  // n continuation bytes, six bits each
  function Continuation(c: nat, n: nat): (bytes: seq<int>)
    ensures |bytes| == n && forall i :: 0 <= i < n ==> 0x80 <= bytes[i] < 0xC0
  {
    if n == 0 then [] else Continuation(c / 64, n - 1) + [0x80 + c % 64]
  }

  function Encode(c: CodePoint): (bytes: seq<int>)
    ensures bytes != []
  {
    var n := if c < 0x80 then 0 else if c < 0x800 then 1 else if c < 0x10000 then 2 else 3;
    [Mark(n) + DropSixes(c, n)] + Continuation(c, n)
  }

  function ReadContinuation(high: int, bytes: seq<int>): int {
    if bytes == [] then high
    else ReadContinuation(high, bytes[..|bytes| - 1]) * 64 + bytes[|bytes| - 1] - 0x80
  }

  function ReadBytes(bytes: seq<int>): int
    requires bytes != []
  {
    ReadContinuation(bytes[0] - Mark(|bytes| - 1), bytes[1..])
  }

  lemma {:induction false} ContinuationReads(c: nat, n: nat)
    ensures ReadContinuation(DropSixes(c, n), Continuation(c, n)) == c
  {
    if n > 0 {
      ContinuationReads(c / 64, n - 1);
      assert Continuation(c, n)[..n - 1] == Continuation(c / 64, n - 1);
    }
  }

  // The size is that of bytes from which the character can be read back.
  lemma SizeIsTheEncoding(c: CodePoint)
    ensures |Encode(c)| == Utf8Size(c) && ReadBytes(Encode(c)) == c
  {
    var n := |Encode(c)| - 1;
    ContinuationReads(c, n);
    assert Encode(c)[1..] == Continuation(c, n);
  }

  // The first byte says how many there are.
  lemma LeadBytes(c: CodePoint)
    ensures var lead := Encode(c)[0];
            Utf8Size(c) == if lead < 0x80 then 1 else if lead < 0xE0 then 2 else if lead < 0xF0 then 3 else 4
  {
    if 0x80 <= c < 0x800 {
      assert DropSixes(c, 1) == c / 64 < 32;
    } else if 0x800 <= c < 0x10000 {
      assert DropSixes(c, 2) == DropSixes(c / 64, 1) == c / 64 / 64 < 16;
    }
  }

  function Utf8Len(s: Str): nat {
    if s == [] then 0 else Utf8Size(s[0]) + Utf8Len(s[1..])
  }

  lemma {:induction false} Utf8Concat(a: Str, b: Str)
    ensures Utf8Len(a + b) == Utf8Len(a) + Utf8Len(b)
    decreases |a|
  {
    if a == [] {
      assert a + b == b;
    } else {
      assert (a + b)[1..] == a[1..] + b;
      Utf8Concat(a[1..], b);
    }
  }

  lemma Utf8Three(a: Str, b: Str, c: Str)
    ensures Utf8Len(a + b + c) == Utf8Len(a) + Utf8Len(b) + Utf8Len(c)
  {
    Utf8Concat(a + b, c);
    Utf8Concat(a, b);
  }

  lemma {:induction false} Utf8AtLeast(s: Str)
    ensures |s| <= Utf8Len(s)
  {
    if s != [] {
      Utf8AtLeast(s[1..]);
    }
  }

  lemma Utf8Small(s: Str)
    requires |s| <= 2
    ensures Utf8Len(s) == (if |s| == 0 then 0 else if |s| == 1 then Utf8Size(s[0]) else Utf8Size(s[0]) + Utf8Size(s[1]))
  {
  }

  // Escaping a character for ASCII takes at most six times what the character takes in UTF-8: the
  // worst are the one-byte control characters, and a surrogate pair is twelve for four.
  lemma EscapeGrowth(c: CodePoint)
    ensures |Escape(c, true)| <= 6 * Utf8Len(Escape(c, false))
  {
    Utf8AtLeast(Escape(c, false));
    if |Escape(c, true)| == 12 {
      assert Escape(c, false) == [c];
    }
  }

  lemma {:induction false} EscapeAllGrowth(s: Str)
    ensures |EscapeAll(s, true)| <= 6 * Utf8Len(EscapeAll(s, false))
  {
    if s != [] {
      EscapeGrowth(s[0]);
      EscapeAllGrowth(s[1..]);
      Utf8Concat(Escape(s[0], false), EscapeAll(s[1..], false));
    }
  }

  lemma QuoteGrowth(s: Str)
    ensures |Quote(s, true)| <= 6 * Utf8Len(Quote(s, false))
  {
    EscapeAllGrowth(s);
    Utf8Three([QUOTE], EscapeAll(s, false), [QUOTE]);
    Utf8Small([QUOTE]);
  }

  lemma {:induction false} PrintGrowth(v: Value, codec: FloatCodec)
    ensures |Print(v, true, codec)| <= 6 * Utf8Len(Print(v, false, codec))
    decreases v, 0
  {
    match v
    case String(s) => QuoteGrowth(s);
    case List(items) =>
      ItemsGrowth(items, codec);
      Utf8Three([0x5B], PrintItems(items, false, codec), [0x5D]);
      Utf8AtLeast([0x5B]);
    case Dict(es) =>
      EntriesGrowth(es, codec);
      Utf8Three([0x7B], PrintEntries(es, false, codec), [0x7D]);
      Utf8AtLeast([0x7B]);
    case _ => Utf8AtLeast(Print(v, false, codec));
  }

  lemma {:induction false} ItemsGrowth(items: seq<Value>, codec: FloatCodec)
    ensures |PrintItems(items, true, codec)| <= 6 * Utf8Len(PrintItems(items, false, codec))
    decreases items, 1
  {
    if items != [] {
      PrintGrowth(items[0], codec);
      if |items| > 1 {
        ItemsGrowth(items[1..], codec);
        Utf8Three(Print(items[0], false, codec), COMMA, PrintItems(items[1..], false, codec));
        Utf8AtLeast(COMMA);
      }
    }
  }

  lemma {:induction false} EntryGrowth(e: Entry, codec: FloatCodec)
    ensures |PrintEntry(e, true, codec)| <= 6 * Utf8Len(PrintEntry(e, false, codec))
    decreases e, 1
  {
    QuoteGrowth(e.key);
    PrintGrowth(e.value, codec);
    Utf8Three(Quote(e.key, false), COLON, Print(e.value, false, codec));
    Utf8AtLeast(COLON);
  }

  lemma {:induction false} EntriesGrowth(es: seq<Entry>, codec: FloatCodec)
    ensures |PrintEntries(es, true, codec)| <= 6 * Utf8Len(PrintEntries(es, false, codec))
    decreases es, 2
  {
    if es != [] {
      EntryGrowth(es[0], codec);
      if |es| > 1 {
        EntriesGrowth(es[1..], codec);
        Utf8Three(PrintEntry(es[0], false, codec), COMMA, PrintEntries(es[1..], false, codec));
        Utf8AtLeast(COMMA);
      }
    }
  }

  // The UTF-8 size of a value's text does not depend on the order of its keys.

  function Bytes(v: Value, codec: FloatCodec): nat {
    Utf8Len(Print(v, false, codec))
  }

  function EntryBytes(es: seq<Entry>, codec: FloatCodec): nat {
    if es == [] then 0 else Utf8Len(PrintEntry(es[0], false, codec)) + EntryBytes(es[1..], codec)
  }

  lemma {:induction false} EntriesSize(es: seq<Entry>, codec: FloatCodec)
    ensures Utf8Len(PrintEntries(es, false, codec)) == EntryBytes(es, codec) + (if es == [] then 0 else 2 * (|es| - 1))
    decreases |es|
  {
    if |es| > 1 {
      EntriesSize(es[1..], codec);
      Utf8Three(PrintEntry(es[0], false, codec), COMMA, PrintEntries(es[1..], false, codec));
      Utf8Small(COMMA);
    } else if |es| == 1 {
      assert EntryBytes(es[1..], codec) == 0;
    }
  }

  lemma {:induction false} EntryBytesWithout(es: seq<Entry>, j: nat, codec: FloatCodec)
    requires j < |es|
    ensures EntryBytes(es, codec)
            == Utf8Len(PrintEntry(es[j], false, codec)) + EntryBytes(es[..j] + es[j + 1..], codec)
    decreases j
  {
    if j == 0 {
      assert es[..0] + es[1..] == es[1..];
    } else {
      EntryBytesWithout(es[1..], j - 1, codec);
      var rest := es[..j] + es[j + 1..];
      assert rest[0] == es[0] && rest[1..] == es[1..][..j - 1] + es[1..][j..];
    }
  }

  lemma {:induction false} SameBytes(v: Value, w: Value, codec: FloatCodec)
    requires WellFormed(v) && WellFormed(w) && Same(v, w)
    ensures Bytes(v, codec) == Bytes(w, codec)
    decreases v, 0
  {
    match v
    case List(items) =>
      SameItemsBytes(items, w.items, codec);
      Utf8Three([0x5B], PrintItems(items, false, codec), [0x5D]);
      Utf8Three([0x5B], PrintItems(w.items, false, codec), [0x5D]);
    case Dict(es) =>
      SameEntriesBytes(es, w.entries, codec);
      EntriesSize(es, codec);
      EntriesSize(w.entries, codec);
      Utf8Three([0x7B], PrintEntries(es, false, codec), [0x7D]);
      Utf8Three([0x7B], PrintEntries(w.entries, false, codec), [0x7D]);
    case _ =>
  }

  lemma {:induction false} SameItemsBytes(items: seq<Value>, others: seq<Value>, codec: FloatCodec)
    requires |items| == |others|
    requires forall i :: 0 <= i < |items| ==>
                           WellFormed(items[i]) && WellFormed(others[i]) && Same(items[i], others[i])
    ensures Utf8Len(PrintItems(items, false, codec)) == Utf8Len(PrintItems(others, false, codec))
    decreases items, 1
  {
    if items != [] {
      SameBytes(items[0], others[0], codec);
      if |items| > 1 {
        SameItemsBytes(items[1..], others[1..], codec);
        Utf8Three(Print(items[0], false, codec), COMMA, PrintItems(items[1..], false, codec));
        Utf8Three(Print(others[0], false, codec), COMMA, PrintItems(others[1..], false, codec));
      }
    }
  }

  lemma {:induction false} SameEntriesBytes(es: seq<Entry>, ws: seq<Entry>, codec: FloatCodec)
    requires UniqueKeys(es) && UniqueKeys(ws) && SameEntries(es, ws)
    requires forall i :: 0 <= i < |es| ==> WellFormed(es[i].value)
    requires forall i :: 0 <= i < |ws| ==> WellFormed(ws[i].value)
    ensures EntryBytes(es, codec) == EntryBytes(ws, codec) && |es| == |ws|
    decreases es, 1
  {
    if es == [] {
      if ws != [] {
        AtKey(ws, 0);
      }
    } else {
      var e := es[0];
      AtKey(es, 0);
      KeyAt(ws, e.key);
      var j :| 0 <= j < |ws| && ws[j].key == e.key;
      DropMatched(es, ws, j);
      SameEntriesBytes(es[1..], ws[..j] + ws[j + 1..], codec);
      EntryBytesWithout(ws, j, codec);
      SameBytes(e.value, ws[j].value, codec);
      Utf8Three(Quote(e.key, false), COLON, Print(e.value, false, codec));
      Utf8Three(Quote(e.key, false), COLON, Print(ws[j].value, false, codec));
    }
  }

  lemma DropMatched(es: seq<Entry>, ws: seq<Entry>, j: nat)
    requires UniqueKeys(es) && UniqueKeys(ws) && SameEntries(es, ws)
    requires forall i :: 0 <= i < |es| ==> WellFormed(es[i].value)
    requires forall i :: 0 <= i < |ws| ==> WellFormed(ws[i].value)
    requires es != [] && j < |ws| && ws[j].key == es[0].key
    ensures var rest := ws[..j] + ws[j + 1..];
            && UniqueKeys(es[1..]) && UniqueKeys(rest) && SameEntries(es[1..], rest)
            && (forall i :: 0 <= i < |es[1..]| ==> WellFormed(es[1..][i].value))
            && (forall i :: 0 <= i < |rest| ==> WellFormed(rest[i].value))
  {
    var rest := ws[..j] + ws[j + 1..];
    WithoutKey(es, 0);
    WithoutKey(ws, j);
    assert es[..0] + es[1..] == es[1..];
    forall i, m | 0 <= i < |es[1..]| && 0 <= m < |rest| && es[1..][i].key == rest[m].key
      ensures Same(es[1..][i].value, rest[m].value)
    {
      assert es[1..][i] == es[i + 1] && rest[m] == ws[if m < j then m else m + 1];
    }
  }

  lemma WithoutKey(es: seq<Entry>, j: nat)
    requires UniqueKeys(es) && j < |es|
    ensures var rest := es[..j] + es[j + 1..];
            && UniqueKeys(rest) && Keys(rest) == Keys(es) - {es[j].key}
            && forall i :: 0 <= i < |rest| ==> rest[i] == es[if i < j then i else i + 1]
  {
    var rest := es[..j] + es[j + 1..];
    forall k ensures k in Keys(rest) <==> k in Keys(es) - {es[j].key} {
      if k in Keys(rest) {
        KeyAt(rest, k);
        var i :| 0 <= i < |rest| && rest[i].key == k;
        AtKey(es, if i < j then i else i + 1);
      }
      if k in Keys(es) && k != es[j].key {
        KeyAt(es, k);
        var i :| 0 <= i < |es| && es[i].key == k;
        AtKey(rest, if i < j then i else i - 1);
      }
    }
  }

  // The stored text of a value is at most six times its UTF-8 size, keys sorted or not.
  lemma StoredSize(v: Value, codec: FloatCodec)
    requires WellFormed(v)
    ensures |Dumps(v, codec)| <= 6 * Bytes(v, codec)
  {
    CanonIsSame(v);
    SameBytes(v, Canon(v), codec);
    PrintGrowth(Canon(v), codec);
  }
}
