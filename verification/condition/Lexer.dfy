/** The condition tokenizer and what its token scan means. */
module Lexer {
  import opened Text

  const AND: Str := [0x61, 0x6E, 0x64]
  const OR: Str := [0x6F, 0x72]
  const NOT: Str := [0x6E, 0x6F, 0x74]
  const OF: Str := [0x6F, 0x66]
  const ALL: Str := [0x61, 0x6C, 0x6C]
  const THEM: Str := [0x74, 0x68, 0x65, 0x6D]

  predicate IsWordChar(c: CodePoint) {
    IsLetter(c) || IsDigit(c) || c == UNDERSCORE || c == STAR
  }

  // [A-Za-z][A-Za-z0-9_*]*
  predicate IsWord(s: Str) {
    s != [] && IsLetter(s[0]) && forall i :: 0 <= i < |s| ==> IsWordChar(s[i])
  }

  // [0-9]+
  predicate IsNumber(s: Str) {
    s != [] && forall i :: 0 <= i < |s| ==> IsDigit(s[i])
  }

  // [A-Za-z][A-Za-z0-9_]*
  predicate IsSelectorName(s: Str) {
    IsWord(s) && STAR !in s
  }

  predicate IsKeyword(s: Str) {
    Lower(s) in {AND, OR, NOT, OF, ALL, THEM}
  }

  // What a token is to the grammar. Operators are case-insensitive.
  datatype Kind = Open | Close | Number | AndWord | OrWord | NotWord | OfWord | AllWord | ThemWord | Glob | Name | Junk

  function KindOf(s: Str): Kind {
    if s == [LPAREN] then Open
    else if s == [RPAREN] then Close
    else if IsNumber(s) then Number
    else if !IsWord(s) then Junk
    else if Lower(s) == AND then AndWord
    else if Lower(s) == OR then OrWord
    else if Lower(s) == NOT then NotWord
    else if Lower(s) == OF then OfWord
    else if Lower(s) == ALL then AllWord
    else if Lower(s) == THEM then ThemWord
    else if STAR in s then Glob
    else Name
  }

  lemma KeywordsDiffer()
    ensures |AND| == |NOT| == |ALL| == 3 && |OR| == |OF| == 2 && |THEM| == 4
    ensures AND != NOT && AND != ALL && NOT != ALL && OR != OF
  {
    assert AND[0] == 0x61 && NOT[0] == 0x6E && ALL[0] == 0x61 && AND[1] == 0x6E && ALL[1] == 0x6C;
    assert OR[1] == 0x72 && OF[1] == 0x66;
  }

  // A string that lowers to letters only is a word without "*".
  lemma LowersToLetters(s: Str, k: Str)
    requires Lower(s) == k && k != [] && forall i :: 0 <= i < |k| ==> 0x61 <= k[i] <= 0x7A
    ensures IsWord(s) && !IsNumber(s) && STAR !in s && s != [LPAREN] && s != [RPAREN]
  {
    forall i | 0 <= i < |s| ensures IsLetter(s[i]) {
      assert Lower(s)[i] == k[i];
    }
    assert !IsDigit(s[0]);
  }

  // The tests the parser makes on a token's text, in terms of its kind.
  lemma KindMeaning(s: Str)
    ensures Lower(s) == AND <==> KindOf(s) == AndWord
    ensures Lower(s) == OR <==> KindOf(s) == OrWord
    ensures Lower(s) == NOT <==> KindOf(s) == NotWord
    ensures Lower(s) == OF <==> KindOf(s) == OfWord
    ensures Lower(s) == ALL <==> KindOf(s) == AllWord
    ensures Lower(s) == THEM <==> KindOf(s) == ThemWord
    ensures IsNumber(s) <==> KindOf(s) == Number
    ensures IsWord(s) <==> KindOf(s) in {AndWord, OrWord, NotWord, OfWord, AllWord, ThemWord, Glob, Name}
    ensures IsKeyword(s) <==> KindOf(s) in {AndWord, OrWord, NotWord, OfWord, AllWord, ThemWord}
    ensures IsWord(s) && STAR in s <==> KindOf(s) == Glob
    ensures IsSelectorName(s) && !IsKeyword(s) <==> KindOf(s) == Name
  {
    KeywordsDiffer();
    if IsKeyword(s) {
      LowersToLetters(s, Lower(s));
    }
    if s == [LPAREN] || s == [RPAREN] {
      assert s[0] == LPAREN || s[0] == RPAREN;
      assert Lower(s)[0] == s[0];
    }
    if IsNumber(s) {
      assert IsDigit(s[0]);
    }
  }

  // The string is the keyword, letter by letter, each in either case.
  predicate Spells(s: Str, keyword: Str) {
    |s| == |keyword| && forall i :: 0 <= i < |s| ==> s[i] == keyword[i] || s[i] as int + 32 == keyword[i] as int
  }

  // An operator is its word in any mixture of cases, and nothing else is.
  lemma OperatorsInAnyCase(s: Str)
    ensures KindOf(s) == AndWord <==> Spells(s, AND)
    ensures KindOf(s) == OrWord <==> Spells(s, OR)
    ensures KindOf(s) == NotWord <==> Spells(s, NOT)
    ensures KindOf(s) == OfWord <==> Spells(s, OF)
    ensures KindOf(s) == AllWord <==> Spells(s, ALL)
    ensures KindOf(s) == ThemWord <==> Spells(s, THEM)
  {
    KindMeaning(s);
    LowerSpells(s, AND);
    LowerSpells(s, OR);
    LowerSpells(s, NOT);
    LowerSpells(s, OF);
    LowerSpells(s, ALL);
    LowerSpells(s, THEM);
  }

  lemma LowerSpells(s: Str, keyword: Str)
    requires forall i :: 0 <= i < |keyword| ==> 0x61 <= keyword[i] <= 0x7A
    ensures Lower(s) == keyword <==> Spells(s, keyword)
  {
    if Lower(s) == keyword {
      forall i | 0 <= i < |s| ensures s[i] == keyword[i] || s[i] as int + 32 == keyword[i] as int {
        assert Lower(s)[i] == keyword[i];
      }
    }
  }

  // One regex match: where it starts, what it matched, and what that is to the grammar.
  datatype Token = Token(start: nat, text: Str, kind: Kind) {
    function End(): nat { start + |text| }
  }

  // The match of s[i..j].
  function TokenOf(s: Str, i: nat, j: nat): Token
    requires i <= j <= |s|
  {
    Token(i, s[i..j], KindOf(s[i..j]))
  }

  // condition.split("|", 1)[0]
  function BeforePipe(s: Str): (r: Str)
    ensures r <= s && PIPE !in r
  {
    if s == [] || s[0] == PIPE then [] else [s[0]] + BeforePipe(s[1..])
  }

  function WordEnd(s: Str, i: nat): (j: nat)
    requires i <= |s|
    ensures i <= j <= |s| && (forall k :: i <= k < j ==> IsWordChar(s[k])) && (j < |s| ==> !IsWordChar(s[j]))
    decreases |s| - i
  {
    if i < |s| && IsWordChar(s[i]) then WordEnd(s, i + 1) else i
  }

  // The end of the regex match that starts at i, or i when none does.
  function MatchEnd(s: Str, i: nat): (j: nat)
    requires i < |s|
    ensures i <= j <= |s|
  {
    if IsLetter(s[i]) then WordEnd(s, i + 1)
    else if IsDigit(s[i]) then DigitsEnd(s, i + 1)
    else if s[i] == LPAREN || s[i] == RPAREN then i + 1
    else i
  }

  // _CONDITION_TOKENS.finditer: leftmost, greedy, skipping what matches nothing.
  function FindTokens(s: Str, i: nat): seq<Token>
    requires i <= |s|
    decreases |s| - i
  {
    if i == |s| then []
    else
      var j := MatchEnd(s, i);
      if i < j then [TokenOf(s, i, j)] + FindTokens(s, j) else FindTokens(s, i + 1)
  }

  // _CONDITION_IDENTIFIERS.findall
  function FindWords(s: Str, i: nat): seq<Token>
    requires i <= |s|
    decreases |s| - i
  {
    if i == |s| then []
    else if IsLetter(s[i]) then
      var j := WordEnd(s, i + 1);
      [TokenOf(s, i, j)] + FindWords(s, j)
    else FindWords(s, i + 1)
  }

  function WordsOf(ts: seq<Token>): seq<Token> {
    if ts == [] then []
    else (if IsWord(ts[0].text) then [ts[0]] else []) + WordsOf(ts[1..])
  }

  // The scan resumes where its first match ends.
  lemma {:induction false} ScanResumes(s: Str, i: nat)
    requires i <= |s| && FindTokens(s, i) != []
    ensures var t := FindTokens(s, i)[0];
            && i <= t.start < t.End() <= |s| && t.kind == KindOf(t.text)
            && FindTokens(s, i)[1..] == FindTokens(s, t.End())
    decreases |s| - i
  {
    if MatchEnd(s, i) == i {
      ScanResumes(s, i + 1);
    }
  }

  lemma {:induction false} WordsAfterDigits(s: Str, i: nat, j: nat)
    requires i <= j <= |s| && forall k :: i <= k < j ==> !IsLetter(s[k])
    ensures FindWords(s, i) == FindWords(s, j)
    decreases j - i
  {
    if i < j {
      WordsAfterDigits(s, i + 1, j);
    }
  }

  // The identifier regex finds exactly the word tokens of the full tokenizer, on every string.
  lemma {:induction false} IdentifierScanIsWordTokens(s: Str, i: nat)
    requires i <= |s|
    ensures FindWords(s, i) == WordsOf(FindTokens(s, i))
    decreases |s| - i
  {
    if i < |s| {
      var j := MatchEnd(s, i);
      if i == j {
        IdentifierScanIsWordTokens(s, i + 1);
      } else {
        IdentifierScanIsWordTokens(s, j);
        WordsUncons(TokenOf(s, i, j), FindTokens(s, j));
        MatchIsWord(s, i);
        if !IsLetter(s[i]) {
          WordsAfterDigits(s, i, j);
        }
      }
    }
  }

  lemma WordsUncons(t: Token, ts: seq<Token>)
    ensures WordsOf([t] + ts) == (if IsWord(t.text) then [t] else []) + WordsOf(ts)
  {
    assert ([t] + ts)[1..] == ts;
  }

  lemma MatchIsWord(s: Str, i: nat)
    requires i < |s| && i < MatchEnd(s, i)
    ensures IsWord(s[i..MatchEnd(s, i)]) <==> IsLetter(s[i])
  {
    var t := s[i..MatchEnd(s, i)];
    assert t[0] == s[i];
    if IsLetter(s[i]) {
      forall k | 0 <= k < |t| ensures IsWordChar(t[k]) {
        assert t[k] == s[i + k];
      }
    }
  }

  // A complete lexeme of s: text of one token class that cannot be extended to the right.
  predicate IsLexemeOf(s: Str, t: Token) {
    && t.End() <= |s| && t == TokenOf(s, t.start, t.End())
    && (IsWord(t.text) || IsNumber(t.text) || t.text == [LPAREN] || t.text == [RPAREN])
    && (IsWord(t.text) && t.End() < |s| ==> !IsWordChar(s[t.End()]))
    && (IsNumber(t.text) && t.End() < |s| ==> !IsDigit(s[t.End()]))
  }

  // ts cuts s[from..] into complete lexemes separated by nothing but whitespace.
  predicate Lexes(s: Str, from: nat, ts: seq<Token>)
    requires from <= |s|
    decreases |ts|
  {
    if ts == [] then Blank(s[from..])
    else
      && from <= ts[0].start && IsLexemeOf(s, ts[0])
      && Blank(s[from..ts[0].start])
      && Lexes(s, ts[0].End(), ts[1..])
  }

  // What the offset loop checks: no visible text before, between or after the matches.
  predicate GapsBlank(s: Str, offset: nat, ts: seq<Token>)
    requires offset <= |s|
    decreases |ts|
  {
    if ts == [] then Blank(s[offset..])
    else
      && offset <= ts[0].start && ts[0].End() <= |s|
      && Blank(s[offset..ts[0].start])
      && GapsBlank(s, ts[0].End(), ts[1..])
  }

  lemma MatchIsLexeme(s: Str, i: nat)
    requires i < |s| && i < MatchEnd(s, i)
    ensures IsLexemeOf(s, TokenOf(s, i, MatchEnd(s, i)))
  {
    var t := s[i..MatchEnd(s, i)];
    assert t[0] == s[i];
    if IsDigit(s[i]) {
      assert IsNumber(t);
    } else if IsLetter(s[i]) {
      assert IsWord(t);
    } else {
      assert t == [s[i]];
    }
  }

  // The lexeme that starts at a position is unique: it is the regex match there.
  lemma LexemeIsMatch(s: Str, t: Token)
    requires IsLexemeOf(s, t)
    ensures t.start < |s| && t.End() == MatchEnd(s, t.start)
  {
    assert t.text[0] == s[t.start];
    forall k | t.start <= k < t.End() ensures s[k] == t.text[k - t.start] {
    }
  }

  lemma SpaceStartsNoToken(s: Str, i: nat)
    requires i < |s| && IsSpace(s[i])
    ensures MatchEnd(s, i) == i
  {
  }

  // Skipping whitespace does not change the rest of the scan.
  lemma {:induction false} ScanSkipsBlank(s: Str, i: nat, j: nat)
    requires i <= j <= |s| && Blank(s[i..j])
    ensures FindTokens(s, i) == FindTokens(s, j)
    decreases j - i
  {
    if i < j {
      assert IsSpace(s[i..j][0]);
      SpaceStartsNoToken(s, i);
      assert s[i + 1..j] == s[i..j][1..];
      ScanSkipsBlank(s, i + 1, j);
    }
  }

  // A segmentation into lexemes is unique: it can only be what the scan finds.
  lemma {:induction false} LexesIsScan(s: Str, from: nat, ts: seq<Token>)
    requires from <= |s| && Lexes(s, from, ts)
    ensures ts == FindTokens(s, from) && GapsBlank(s, from, ts)
    decreases |ts|
  {
    if ts == [] {
      assert s[from..] == s[from..|s|];
      ScanSkipsBlank(s, from, |s|);
    } else {
      var t := ts[0];
      ScanSkipsBlank(s, from, t.start);
      LexemeIsMatch(s, t);
      LexesIsScan(s, t.End(), ts[1..]);
      assert ts == [t] + ts[1..];
    }
  }

  lemma {:induction false} ScanLexes(s: Str, from: nat, i: nat)
    requires from <= i <= |s| && GapsBlank(s, from, FindTokens(s, i))
    ensures Lexes(s, from, FindTokens(s, i))
    decreases |s| - i
  {
    if i < |s| {
      var j := MatchEnd(s, i);
      if i < j {
        MatchIsLexeme(s, i);
        assert FindTokens(s, i)[1..] == FindTokens(s, j);
        ScanLexes(s, j, j);
      } else {
        ScanLexes(s, from, i + 1);
      }
    }
  }

  // The gap loop accepts the scan's matches exactly when the text can be cut into lexemes at all.
  lemma GapLoopIsExact(s: Str, ts: seq<Token>)
    ensures Lexes(s, 0, ts) <==> ts == FindTokens(s, 0) && GapsBlank(s, 0, ts)
  {
    if Lexes(s, 0, ts) {
      LexesIsScan(s, 0, ts);
    } else if ts == FindTokens(s, 0) && GapsBlank(s, 0, ts) {
      ScanLexes(s, 0, 0);
    }
  }

  predicate IsWordKind(k: Kind) {
    k in {AndWord, OrWord, NotWord, OfWord, AllWord, ThemWord, Glob, Name}
  }

  // In a lexed text tokens do not overlap, and a word never touches the next word.
  predicate WordsApart(ts: seq<Token>) {
    forall k :: 0 <= k < |ts| - 1 ==>
                  && ts[k].End() <= ts[k + 1].start
                  && (IsWordKind(ts[k].kind) && IsWordKind(ts[k + 1].kind) ==> ts[k].End() < ts[k + 1].start)
  }

  lemma {:induction false} LexesKeepsWordsApart(s: Str, from: nat, ts: seq<Token>)
    requires from <= |s| && Lexes(s, from, ts)
    ensures WordsApart(ts)
    decreases |ts|
  {
    if |ts| >= 2 {
      LexesKeepsWordsApart(s, ts[0].End(), ts[1..]);
      assert ts[1..][0] == ts[1];
      assert IsLexemeOf(s, ts[1]) && s[ts[1].start] == ts[1].text[0];
      KindMeaning(ts[0].text);
      KindMeaning(ts[1].text);
      forall k | 0 <= k < |ts| - 1
        ensures ts[k].End() <= ts[k + 1].start
        ensures IsWordKind(ts[k].kind) && IsWordKind(ts[k + 1].kind) ==> ts[k].End() < ts[k + 1].start
      {
        if k > 0 {
          assert ts[1..][k - 1] == ts[k] && ts[1..][k] == ts[k + 1];
        }
      }
    }
  }
}
