/**
 * What rust-lox's scanner promises, stated about the functions of the Lexer
 * module that the `Scanner` class is proved against: the token each kind of
 * lexeme gives, when `next_token` gives none and so ends the scan, the
 * payloads tokens carry, and the shape of the whole token sequence.
 */
module ScanProperties {

  import opened Wrappers
  import opened CharClass
  import opened Tokens
  import opened Lexer

  /**
   * The payload a scanned token carries: Number tokens a number, String and
   * Identifier tokens a text, keyword tokens their own spelling, and every
   * other kind none.
   */
  predicate PayloadMatchesKind(t: Token) {
    if t.tokenType == Number then t.value.Some? && t.value.value.NumberValue?
    else if t.tokenType == String || t.tokenType == Identifier then t.value.Some? && t.value.value.StringValue?
    else if IsKeyword(t.tokenType) then t.value == Some(StringValue(KeywordSpelling(t.tokenType)))
    else t.value == None
  }

  /** A char that starts a lexeme in `next_token`; any other char gives no token. */
  predicate Recognised(c: char) {
    || SingleCharKind(c).Some? || OperatorKinds(c).Some?
    || c == '"' || c == '/' || IsDigit(c) || IsAsciiAlphabetic(c)
  }

  /**
   * The cases in which `next_token`, having skipped whitespace up to `j`,
   * gives no token: the end of the text, a `//` comment, a string with no
   * closing quote, or a char that starts no lexeme.
   */
  predicate NoTokenAt(s: string, j: nat)
    requires j <= |s|
  {
    || j == |s|
    || (s[j] == '/' && j + 1 < |s| && s[j + 1] == '/')
    || (s[j] == '"' && '"' !in s[j + 1..])
    || !Recognised(s[j])
  }

  // ---------------------------------------------------------------------
  // One lexeme at a time.
  // ---------------------------------------------------------------------

  /**
   * `!`, `=`, `>` and `<` munch maximally: followed by `=` they give the
   * two-char kind and consume both chars, otherwise the one-char kind and
   * the next char is left unread.
   */
  lemma OperatorToken(s: string, j: nat, keywords: map<string, TokenType>, alone: TokenType, withEqual: TokenType)
    requires j < |s| && OperatorKinds(s[j]) == Some((alone, withEqual))
    ensures var r := DispatchStep(s, j, keywords);
      && r.token.Some? && r.token.value.value == None
      && (j + 1 < |s| && s[j + 1] == '=' ==> r.token.value.tokenType == withEqual && r.next == j + 2)
      && (!(j + 1 < |s| && s[j + 1] == '=') ==> r.token.value.tokenType == alone && r.next == j + 1)
  {
    DispatchOperator(s, j, keywords);
  }

  /**
   * A `/` followed by `/` is a comment: no token, and the rest of the line
   * up to and including its line feed is consumed. A lone `/` is `Slash`.
   */
  lemma SlashToken(s: string, j: nat, keywords: map<string, TokenType>)
    requires j < |s| && s[j] == '/'
    ensures var r := DispatchStep(s, j, keywords);
      && (j + 1 < |s| && s[j + 1] == '/' ==> r.token.None? && r.next == RestOfLineEnd(s, j + 2))
      && (!(j + 1 < |s| && s[j + 1] == '/') ==> r.token == Some(Create(Slash, LineAt(s, j + 1))) && r.next == j + 1)
  {
    DispatchSlash(s, j, keywords);
  }

  /**
   * The text `read_number` accumulates from a digit at `j` is decimal text
   * (digits and at most one `.`), is followed by no digit, and is followed
   * by a `.` only when it already holds one: a `.` right after the leading
   * digits is consumed even when no digit follows it.
   */
  lemma NumberLexeme(s: string, j: nat)
    requires j < |s| && IsDigit(s[j])
    ensures var e := NumberEnd(s, j + 1);
      && IsDecimalText(s[j..e])
      && (e == |s| || !IsDigit(s[e]))
      && (e < |s| && s[e] == '.' ==> '.' in s[j..e])
  {
    var intEnd := RunEnd(s, j + 1, IsDigit);
    var fracStart := if intEnd < |s| && s[intEnd] == '.' then intEnd + 1 else intEnd;
    var e := RunEnd(s, fracStart, IsDigit);
    assert e == NumberEnd(s, j + 1);
    var w := s[j..e];
    forall k | 0 <= k < |w|
      ensures IsDigit(w[k]) || w[k] == '.'
      ensures j + k != intEnd ==> IsDigit(w[k])
    {
      assert w[k] == s[j + k];
    }
    forall a, b | 0 <= a < b < |w| && w[a] == '.'
      ensures w[b] != '.'
    {
      assert w[b] == s[j + b];
    }
    assert IsDigit(w[0]);
    if e < |s| && s[e] == '.' {
      assert fracStart == intEnd + 1;
      assert w[intEnd - j] == '.';
    }
  }

  /**
   * A digit at `j` always gives a `Number` token: the text read parses, so
   * the failed-parse branch of `read_number` is never taken. The payload is
   * the value of that text.
   */
  lemma NumberToken(s: string, j: nat, keywords: map<string, TokenType>)
    requires j < |s| && IsDigit(s[j])
    ensures var r := DispatchStep(s, j, keywords);
      && r.next == NumberEnd(s, j + 1)
      && ParseDecimal(s[j..r.next]).Some?
      && r.token == Some(CreateWithNumber(Number, LineAt(s, r.next), ParseDecimal(s[j..r.next]).value))
  {
    DispatchNumber(s, j, keywords);
    NumberLexeme(s, j);
  }

  /**
   * A `"` at `j` gives a `String` token exactly when a closing quote follows;
   * its payload is the text strictly between the quotes, which holds no
   * quote and may span lines. Without a closing quote the rest of the text
   * is consumed and there is no token.
   */
  lemma StringToken(s: string, j: nat, keywords: map<string, TokenType>)
    requires j < |s| && s[j] == '"'
    ensures StringOutcome(s, j, DispatchStep(s, j, keywords))
  {
    DispatchString(s, j, keywords);
    StringStepFacts(s, j);
  }

  /**
   * The outcome `r` of a string literal opened at `j`: no token exactly when
   * no quote follows, and then the whole rest consumed; otherwise a `String`
   * token whose payload is the quote-free text up to the closing quote.
   */
  predicate StringOutcome(s: string, j: nat, r: Step)
    requires j < |s|
  {
    && (r.token.None? <==> '"' !in s[j + 1..])
    && (r.token.None? ==> r.next == |s|)
    && (r.token.Some? ==>
          && j + 1 < r.next < |s| + 1 && s[r.next - 1] == '"'
          && '"' !in s[j + 1..r.next - 1]
          && r.token.value == CreateWithString(String, LineAt(s, r.next), s[j + 1..r.next - 1]))
  }

  /** `StringToken`, stated about `StringStep` alone. */
  lemma StringStepFacts(s: string, j: nat)
    requires j < |s| && s[j] == '"'
    ensures StringOutcome(s, j, StringStep(s, j))
  {
    match StringClose(s, j + 1)
    case Some(e) => ClosedString(s, j, e);
    case None => UnterminatedString(s, j);
  }

  /** A string closed by the quote at `e`: its text lies between the quotes and holds no quote. */
  lemma ClosedString(s: string, j: nat, e: nat)
    requires j < |s| && s[j] == '"' && StringClose(s, j + 1) == Some(e)
    ensures StringStep(s, j) == Step(Some(CreateWithString(String, LineAt(s, e + 1), s[j + 1..e])), e + 1)
    ensures '"' in s[j + 1..] && '"' !in s[j + 1..e]
  {
    var rest := s[j + 1..];
    assert rest[e - (j + 1)] == '"';
    var text := s[j + 1..e];
    forall k | 0 <= k < |text|
      ensures text[k] != '"'
    {
      assert text[k] == s[j + 1 + k];
    }
  }

  /** A string with no closing quote: no quote follows the opening one. */
  lemma UnterminatedString(s: string, j: nat)
    requires j < |s| && s[j] == '"' && StringClose(s, j + 1).None?
    ensures StringStep(s, j) == Step(None, |s|)
    ensures '"' !in s[j + 1..]
  {
    var rest := s[j + 1..];
    forall k | 0 <= k < |rest|
      ensures rest[k] != '"'
    {
      assert rest[k] == s[j + 1 + k];
    }
  }

  /**
   * A letter at `j` gives the maximal run of ASCII letters and digits from
   * there. Its kind is a keyword kind exactly when the spelling is a key of
   * the keyword map, and is then the keyword so spelled; otherwise it is
   * `Identifier`. The spelling is the payload either way.
   */
  lemma WordToken(s: string, j: nat)
    requires j < |s| && IsAsciiAlphabetic(s[j])
    ensures var r := DispatchStep(s, j, CreateKeywordMap());
      var word := s[j..r.next];
      && r.token.Some?
      && (forall c <- word :: IsAsciiAlphanumeric(c))
      && (r.next == |s| || !IsAsciiAlphanumeric(s[r.next]))
      && r.token.value.value == Some(StringValue(word))
      && (IsKeyword(r.token.value.tokenType) <==> word in CreateKeywordMap())
      && (IsKeyword(r.token.value.tokenType) ==> KeywordSpelling(r.token.value.tokenType) == word)
      && (!IsKeyword(r.token.value.tokenType) ==> r.token.value.tokenType == Identifier)
  {
    var keywords := CreateKeywordMap();
    DispatchWord(s, j, keywords);
    var r := DispatchStep(s, j, keywords);
    var word := s[j..r.next];
    forall k | 0 <= k < |word|
      ensures IsAsciiAlphanumeric(word[k])
    {
      assert word[k] == s[j + k];
    }
  }

  // ---------------------------------------------------------------------
  // Payloads.
  // ---------------------------------------------------------------------

  /** Each token `DispatchStep` gives carries the payload its kind calls for. */
  lemma DispatchPayload(s: string, j: nat, keywords: map<string, TokenType>)
    requires j < |s| && KeywordTable(keywords)
    ensures var r := DispatchStep(s, j, keywords); r.token.Some? ==> PayloadMatchesKind(r.token.value)
  {
    var c := s[j];
    if SingleCharKind(c).Some? || OperatorKinds(c).Some? || c == '/' {
      SymbolPayload(s, j, keywords);
    } else if c == '"' || IsDigit(c) || IsAsciiAlphabetic(c) {
      LiteralPayload(s, j, keywords);
    }
  }

  /** Tokens made of one or two symbol chars carry no payload. */
  lemma SymbolPayload(s: string, j: nat, keywords: map<string, TokenType>)
    requires j < |s| && (SingleCharKind(s[j]).Some? || OperatorKinds(s[j]).Some? || s[j] == '/')
    ensures var r := DispatchStep(s, j, keywords);
      r.token.Some? ==> r.token.value.value == None && PayloadMatchesKind(r.token.value)
  {
    var c := s[j];
    if SingleCharKind(c).Some? {
    } else if OperatorKinds(c).Some? {
      DispatchOperator(s, j, keywords);
    } else {
      DispatchSlash(s, j, keywords);
    }
  }

  /** String, number, identifier and keyword tokens carry the payload their kind calls for. */
  lemma LiteralPayload(s: string, j: nat, keywords: map<string, TokenType>)
    requires j < |s| && KeywordTable(keywords)
    requires SingleCharKind(s[j]).None? && OperatorKinds(s[j]).None?
    requires s[j] == '"' || IsDigit(s[j]) || IsAsciiAlphabetic(s[j])
    ensures var r := DispatchStep(s, j, keywords); r.token.Some? ==> PayloadMatchesKind(r.token.value)
  {
    var c := s[j];
    if c == '"' {
      DispatchString(s, j, keywords);
    } else if IsDigit(c) {
      DispatchNumber(s, j, keywords);
    } else {
      DispatchWord(s, j, keywords);
    }
  }

  /** Each token `next_token` gives carries the payload its kind calls for. */
  lemma NextTokenPayload(s: string, i: nat, keywords: map<string, TokenType>)
    requires i <= |s| && KeywordTable(keywords)
    ensures var r := NextTokenSpec(s, i, keywords); r.token.Some? ==> PayloadMatchesKind(r.token.value)
  {
    var j := RunEnd(s, i, IsWhitespace);
    if j < |s| {
      DispatchPayload(s, j, keywords);
    }
  }

  /** Every token of `ScanFrom` carries the payload its kind calls for. */
  lemma {:induction false} ScanFromPayloads(s: string, i: nat, keywords: map<string, TokenType>)
    requires i <= |s| && KeywordTable(keywords)
    ensures forall t <- ScanFrom(s, i, keywords) :: PayloadMatchesKind(t)
    decreases |s| - i
  {
    var step := NextTokenSpec(s, i, keywords);
    NextTokenPayload(s, i, keywords);
    if step.token.Some? {
      ScanFromPayloads(s, step.next, keywords);
      var rest := ScanFrom(s, step.next, keywords);
      assert ScanFrom(s, i, keywords) == [step.token.value] + rest;
    }
  }

  // ---------------------------------------------------------------------
  // When the scan ends.
  // ---------------------------------------------------------------------

  /**
   * `next_token` gives no token exactly in the cases of `NoTokenAt`, at the
   * first char that is not whitespace: a number never fails to parse and a
   * letter always starts a word.
   */
  lemma NoTokenIff(s: string, i: nat, keywords: map<string, TokenType>)
    requires i <= |s|
    ensures NextTokenSpec(s, i, keywords).token.None? <==> NoTokenAt(s, RunEnd(s, i, IsWhitespace))
  {
    var j := RunEnd(s, i, IsWhitespace);
    if j < |s| {
      var c := s[j];
      if SingleCharKind(c).Some? {
      } else if OperatorKinds(c).Some? {
        DispatchOperator(s, j, keywords);
      } else if c == '"' {
        StringToken(s, j, keywords);
      } else if c == '/' {
        SlashToken(s, j, keywords);
      } else if IsDigit(c) {
        NumberToken(s, j, keywords);
      } else if IsAsciiAlphabetic(c) {
        DispatchWord(s, j, keywords);
      }
    }
  }

  /**
   * `scan` ends at the first `next_token` that gives none: `ScanFrom` is a
   * lone `Eof` exactly when the first lexeme is one of the `NoTokenAt`
   * cases, whatever text follows it.
   */
  lemma ScanStopsAtNoToken(s: string, i: nat, keywords: map<string, TokenType>)
    requires i <= |s|
    ensures |ScanFrom(s, i, keywords)| == 1 <==> NoTokenAt(s, RunEnd(s, i, IsWhitespace))
  {
    NoTokenIff(s, i, keywords);
    var step := NextTokenSpec(s, i, keywords);
    if step.token.Some? {
      assert ScanFrom(s, i, keywords) == [step.token.value] + ScanFrom(s, step.next, keywords);
    }
  }

  /**
   * A `//` comment ends the scan: what follows its line is never scanned,
   * and the `Eof` token carries the line after the comment's line feed.
   */
  lemma CommentEndsScan(s: string, i: nat, keywords: map<string, TokenType>)
    requires i <= |s|
    requires var j := RunEnd(s, i, IsWhitespace); j + 1 < |s| && s[j] == '/' && s[j + 1] == '/'
    ensures var j := RunEnd(s, i, IsWhitespace);
      ScanFrom(s, i, keywords) == [Create(Eof, LineAt(s, RestOfLineEnd(s, j + 2)))]
  {
    var j := RunEnd(s, i, IsWhitespace);
    SlashToken(s, j, keywords);
    var step := NextTokenSpec(s, i, keywords);
    assert step == DispatchStep(s, j, keywords);
    assert step.token.None?;
  }

  /** A text of whitespace alone scans to a lone `Eof` carrying the number of its line feeds. */
  lemma BlankScan(s: string)
    requires forall k :: 0 <= k < |s| ==> IsWhitespace(s[k])
    ensures ScanSpec(s) == [Create(Eof, LineAt(s, |s|))]
  {
    var keywords := CreateKeywordMap();
    assert RunEnd(s, 0, IsWhitespace) == |s|;
    assert NextTokenSpec(s, 0, keywords) == Step(None, |s|);
  }

  // ---------------------------------------------------------------------
  // The whole scan.
  // ---------------------------------------------------------------------

  /** The line counter is the number of line feeds consumed. */
  lemma {:induction false} LineAtCountsNewlines(s: string, k: nat)
    requires k <= |s|
    ensures LineAt(s, k) == multiset(s[..k])['\n']
  {
    if k > 0 {
      LineAtCountsNewlines(s, k - 1);
      assert s[..k] == s[..k - 1] + [s[k - 1]];
    }
  }

  /** Lines that never decrease from one token to the next are sorted. */
  lemma {:induction false} ConsecutiveLinesSorted(tokens: seq<Token>, a: nat, b: nat)
    requires a <= b < |tokens|
    requires forall k :: 0 <= k < |tokens| - 1 ==> tokens[k].line <= tokens[k + 1].line
    ensures tokens[a].line <= tokens[b].line
    decreases b - a
  {
    if a < b {
      ConsecutiveLinesSorted(tokens, a, b - 1);
    }
  }

  /**
   * `Scanner::scan` always gives a non-empty sequence whose last token is
   * its only `Eof`; every token carries the payload its kind calls for; the
   * lines are sorted and none exceeds the number of line feeds in the text.
   */
  lemma ScanShape(s: string)
    ensures var tokens := ScanSpec(s);
      && |tokens| > 0 && tokens[|tokens| - 1].tokenType == Eof
      && (forall k :: 0 <= k < |tokens| - 1 ==> tokens[k].tokenType != Eof)
      && (forall t <- tokens :: PayloadMatchesKind(t))
      && (forall a, b :: 0 <= a <= b < |tokens| ==> tokens[a].line <= tokens[b].line)
      && (forall t <- tokens :: t.line <= multiset(s)['\n'])
  {
    var keywords := CreateKeywordMap();
    var tokens := ScanSpec(s);
    assert tokens == ScanFrom(s, 0, keywords);
    ScanFromEof(s, 0, keywords);
    ScanFromShape(s, 0, keywords);
    ScanFromPayloads(s, 0, keywords);
    LineAtCountsNewlines(s, |s|);
    assert s[..|s|] == s;
    forall a, b | 0 <= a <= b < |tokens|
      ensures tokens[a].line <= tokens[b].line
    {
      ConsecutiveLinesSorted(tokens, a, b);
    }
  }
}
