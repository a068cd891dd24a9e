/**
 * The behaviour of rust-lox's `Scanner` as functions of the source text and
 * a char index into it. The class in scanner.dfy is proved against these:
 * each of its methods leaves the cursor where the matching function says and
 * returns the token it gives.
 */
module Lexer {

  import opened Wrappers
  import opened CharClass
  import opened Tokens

  /** The value of the `line` counter once `s[..k]` has been consumed: it starts at 0 and counts line feeds. */
  function LineAt(s: string, k: nat): (n: nat)
    requires k <= |s|
    ensures n <= k
  {
    if k == 0 then 0 else LineAt(s, k - 1) + (if s[k - 1] == '\n' then 1 else 0)
  }

  lemma {:induction false} LineAtMonotone(s: string, i: nat, j: nat)
    requires i <= j <= |s|
    ensures LineAt(s, i) <= LineAt(s, j)
    decreases j - i
  {
    if i < j {
      LineAtMonotone(s, i, j - 1);
    }
  }

  /**
   * The end of the maximal run of chars satisfying `p` that starts at `i`:
   * the shape of every `while let Some(c) = self.peek_char()` loop that
   * consumes while a test holds.
   */
  function RunEnd(s: string, i: nat, p: char -> bool): (j: nat)
    requires i <= |s|
    ensures i <= j <= |s|
    ensures forall k :: i <= k < j ==> p(s[k])
    ensures j == |s| || !p(s[j])
    decreases |s| - i
  {
    if i < |s| && p(s[i]) then RunEnd(s, i + 1, p) else i
  }

  /**
   * Where `skip_rest_of_line` stops when started at `i`: just past the first
   * line feed, or at the end of the text when there is none.
   */
  function RestOfLineEnd(s: string, i: nat): (j: nat)
    requires i <= |s|
    ensures i <= j <= |s|
    ensures forall k :: i <= k < j - 1 ==> s[k] != '\n'
    ensures j < |s| ==> i < j && s[j - 1] == '\n'
    ensures i < |s| ==> i < j
    decreases |s| - i
  {
    if i == |s| then i
    else if s[i] == '\n' then i + 1
    else RestOfLineEnd(s, i + 1)
  }

  /** The index of the first `"` at or after `i`, if any: the quote that closes a string literal. */
  function StringClose(s: string, i: nat): (r: Option<nat>)
    requires i <= |s|
    ensures r.Some? ==> i <= r.value < |s| && s[r.value] == '"'
    ensures r.Some? ==> forall k :: i <= k < r.value ==> s[k] != '"'
    ensures r.None? ==> forall k :: i <= k < |s| ==> s[k] != '"'
    decreases |s| - i
  {
    if i == |s| then None
    else if s[i] == '"' then Some(i)
    else StringClose(s, i + 1)
  }

  /**
   * Where `read_number` stops, `i` being just past the first digit: a run of
   * digits, at most one `.`, then another run of digits.
   */
  function NumberEnd(s: string, i: nat): (j: nat)
    requires i <= |s|
    ensures i <= j <= |s|
  {
    var intEnd := RunEnd(s, i, IsDigit);
    var fracStart := if intEnd < |s| && s[intEnd] == '.' then intEnd + 1 else intEnd;
    RunEnd(s, fracStart, IsDigit)
  }

  predicate AllDigits(w: string) {
    forall k :: 0 <= k < |w| ==> IsDigit(w[k])
  }

  /** A text of digits and dots with at most one dot and at least one digit. */
  predicate IsDecimalText(w: string) {
    && (forall k :: 0 <= k < |w| ==> IsDigit(w[k]) || w[k] == '.')
    && (forall a, b :: 0 <= a < b < |w| && w[a] == '.' ==> w[b] != '.')
    && (exists k :: 0 <= k < |w| && IsDigit(w[k]))
  }

  /** The value of a run of decimal digits. */
  function DigitsValue(w: string): (n: nat)
    requires AllDigits(w)
  {
    if w == [] then 0
    else 10 * DigitsValue(w[..|w| - 1]) + (w[|w| - 1] as int - '0' as int)
  }

  /** The value of the digits `w` written after a decimal point. */
  function FractionValue(w: string): (v: real)
    requires AllDigits(w)
  {
    if w == [] then 0.0
    else ((w[0] as int - '0' as int) as real + FractionValue(w[1..])) / 10.0
  }

  /**
   * `str::parse::<f64>` on a text, giving the exact decimal value. On texts
   * made only of digits and dots it succeeds exactly for the forms
   * `digits`, `digits.`, `digits.digits` and `.digits`, as Rust's float
   * grammar does.
   */
  function ParseDecimal(w: string): (r: Option<real>)
    ensures (forall k :: 0 <= k < |w| ==> IsDigit(w[k]) || w[k] == '.') ==> (r.Some? <==> IsDecimalText(w))
    ensures AllDigits(w) && w != [] ==> r == Some(DigitsValue(w) as real)
  {
    var a := RunEnd(w, 0, IsDigit);
    if a == |w| then
      if a == 0 then None else Some(DigitsValue(w) as real)
    else if w[a] != '.' then None
    else
      var b := RunEnd(w, a + 1, IsDigit);
      if b < |w| || |w| == 1 then None
      else Some(DigitsValue(w[..a]) as real + FractionValue(w[a + 1..]))
  }

  /** The reserved spelling of each keyword kind. */
  function KeywordSpelling(t: TokenType): string
    requires IsKeyword(t)
  {
    match t
    case And => "and" case Class => "class" case Else => "else" case False => "false"
    case Fun => "fun" case For => "for" case If => "if" case Nil => "nil"
    case Or => "or" case Print => "print" case Return => "return" case Super => "super"
    case This => "this" case True => "true" case Var => "var" case While => "while"
  }

  /** Each key of `keywords` is the spelling of the keyword kind it maps to. */
  predicate KeywordTable(keywords: map<string, TokenType>) {
    forall w :: w in keywords ==> IsKeyword(keywords[w]) && KeywordSpelling(keywords[w]) == w
  }

  /** The sixteen entries `create_keyword_map` inserts: the reserved words of Lox and their kinds. */
  function LoxKeywords(): map<string, TokenType> {
    map[
      "and" := And, "class" := Class, "else" := Else, "false" := False,
      "fun" := Fun, "for" := For, "if" := If, "nil" := Nil,
      "or" := Or, "print" := Print, "return" := Return, "super" := Super,
      "this" := This, "true" := True, "var" := Var, "while" := While
    ]
  }

  /**
   * `create_keyword_map`: each reserved word mapped to the keyword kind it
   * spells, and every keyword kind reached from its spelling.
   */
  function CreateKeywordMap(): (m: map<string, TokenType>)
    ensures KeywordTable(m)
    ensures forall t :: IsKeyword(t) ==> KeywordSpelling(t) in m && m[KeywordSpelling(t)] == t
  {
    KeywordMapExact();
    LoxKeywords()
  }

  /** Every keyword kind is reached from its spelling among the entries. */
  lemma KeywordMapComplete(t: TokenType)
    requires IsKeyword(t)
    ensures KeywordSpelling(t) in LoxKeywords() && LoxKeywords()[KeywordSpelling(t)] == t
  {
    match t
    case And => case Class => case Else => case False =>
    case Fun => case For => case If => case Nil =>
    case Or => case Print => case Return => case Super =>
    case This => case True => case Var => case While =>
  }

  /** The entries are a keyword table that reaches every keyword kind. */
  lemma KeywordMapExact()
    ensures KeywordTable(LoxKeywords())
    ensures forall t :: IsKeyword(t) ==> KeywordSpelling(t) in LoxKeywords() && LoxKeywords()[KeywordSpelling(t)] == t
  {
    forall t | IsKeyword(t)
      ensures KeywordSpelling(t) in LoxKeywords() && LoxKeywords()[KeywordSpelling(t)] == t
    {
      KeywordMapComplete(t);
    }
    forall w | w in LoxKeywords()
      ensures IsKeyword(LoxKeywords()[w]) && KeywordSpelling(LoxKeywords()[w]) == w
    {
      var t := LoxKeywords()[w];
      assert IsKeyword(t);
      KeywordMapComplete(t);
    }
  }

  /**
   * The kind of a char that is a token on its own in `next_token`: a
   * single-char kind other than `Slash`, for a char that starts no other
   * lexeme and is not whitespace.
   */
  function SingleCharKind(c: char): (k: Option<TokenType>)
    ensures k.Some? ==> IsSingleChar(k.value) && k.value != Slash
    ensures k.Some? ==> c != '"' && c != '/' && !IsAsciiAlphanumeric(c) && !IsWhitespace(c)
  {
    match c
    case '(' => Some(LeftParen) case ')' => Some(RightParen)
    case '{' => Some(LeftBrace) case '}' => Some(RightBrace)
    case ',' => Some(Comma) case '.' => Some(Dot) case '-' => Some(Minus)
    case '+' => Some(Plus) case ';' => Some(Semicolon) case '*' => Some(Star)
    case _ => None
  }

  /**
   * For `!`, `=`, `>` and `<`: the kind of the char alone and the kind of
   * the char followed by `=`, two distinct one-or-two-char kinds, for a char
   * that starts no other lexeme and is not whitespace.
   */
  function OperatorKinds(c: char): (k: Option<(TokenType, TokenType)>)
    ensures k.Some? ==> IsOneOrTwoChar(k.value.0) && IsOneOrTwoChar(k.value.1) && k.value.0 != k.value.1
    ensures k.Some? ==> SingleCharKind(c).None? && c != '"' && c != '/' && !IsAsciiAlphanumeric(c) && !IsWhitespace(c)
  {
    match c
    case '!' => Some((Bang, BangEqual))
    case '=' => Some((Equal, EqualEqual))
    case '>' => Some((Greater, GreaterEqual))
    case '<' => Some((Less, LessEqual))
    case _ => None
  }

  /** The outcome of one `next_token` call: the token, if any, and the char index reached. */
  datatype Step = Step(token: Option<Token>, next: nat)

  /** Every outcome of `next_token` from index `i`: the cursor does not move back, and a token means progress. */
  predicate Progress(s: string, i: nat, r: Step)
    requires i <= |s|
  {
    && i <= r.next <= |s|
    && (r.token.Some? ==> i < r.next)
  }

  /**
   * A token that `next_token` gives is not `Eof` and carries the line
   * counter reached once it is read.
   */
  predicate TokenFacts(s: string, r: Step)
    requires r.next <= |s|
  {
    r.token.Some? ==> r.token.value.tokenType != Eof && r.token.value.line == LineAt(s, r.next)
  }

  /** `!`, `=`, `>` or `<` read at `j`: the two-char kind when `=` follows, else the one-char kind. */
  function OperatorStep(s: string, j: nat): (r: Step)
    requires j < |s| && OperatorKinds(s[j]).Some?
    ensures Progress(s, j, r) && r.token.Some?
  {
    var k := j + 1;
    var (alone, withEqual) := OperatorKinds(s[j]).value;
    if k < |s| && s[k] == '=' then Step(Some(Create(withEqual, LineAt(s, k + 1))), k + 1)
    else Step(Some(Create(alone, LineAt(s, k))), k)
  }

  /** `read_string_literal` after the opening quote at `j`. */
  function StringStep(s: string, j: nat): (r: Step)
    requires j < |s| && s[j] == '"'
    ensures Progress(s, j, r)
  {
    var k := j + 1;
    match StringClose(s, k)
    case Some(e) => Step(Some(CreateWithString(String, LineAt(s, e + 1), s[k..e])), e + 1)
    case None => Step(None, |s|)
  }

  /** A `/` read at `j`: a comment when a second `/` follows, which gives no token, else `Slash`. */
  function SlashStep(s: string, j: nat): (r: Step)
    requires j < |s| && s[j] == '/'
    ensures Progress(s, j, r)
  {
    var k := j + 1;
    if k < |s| && s[k] == '/' then Step(None, RestOfLineEnd(s, k + 1))
    else Step(Some(Create(Slash, LineAt(s, k))), k)
  }

  /** `read_number` after the first digit at `j`. */
  function NumberStep(s: string, j: nat): (r: Step)
    requires j < |s| && IsDigit(s[j])
    ensures Progress(s, j, r)
  {
    var e := NumberEnd(s, j + 1);
    match ParseDecimal(s[j..e])
    case Some(v) => Step(Some(CreateWithNumber(Number, LineAt(s, e), v)), e)
    case None => Step(None, e)
  }

  /** The kind `read_identifier_or_keyword` gives a spelling: its kind in `keywords`, else `Identifier`. */
  function WordKind(word: string, keywords: map<string, TokenType>): (k: TokenType)
    ensures KeywordTable(keywords) ==> (IsKeyword(k) <==> word in keywords)
    ensures KeywordTable(keywords) && IsKeyword(k) ==> KeywordSpelling(k) == word
    ensures KeywordTable(keywords) && !IsKeyword(k) ==> k == Identifier
  {
    if word in keywords then keywords[word] else Identifier
  }

  /** `read_identifier_or_keyword` after the first letter at `j`. */
  function WordStep(s: string, j: nat, keywords: map<string, TokenType>): (r: Step)
    requires j < |s| && IsAsciiAlphabetic(s[j])
    ensures Progress(s, j, r) && r.token.Some?
  {
    var e := RunEnd(s, j + 1, IsAsciiAlphanumeric);
    var word := s[j..e];
    Step(Some(CreateWithString(WordKind(word, keywords), LineAt(s, e), word)), e)
  }

  /**
   * The dispatch of `next_token` on the char `s[j]` it reads once whitespace
   * is skipped. A `//` comment, an unterminated string, a number that does
   * not parse and an unrecognised char give no token.
   */
  function DispatchStep(s: string, j: nat, keywords: map<string, TokenType>): (r: Step)
    requires j < |s|
    ensures Progress(s, j, r)
  {
    var c := s[j];
    if SingleCharKind(c).Some? then Step(Some(Create(SingleCharKind(c).value, LineAt(s, j + 1))), j + 1)
    else if OperatorKinds(c).Some? then OperatorStep(s, j)
    else if c == '"' then StringStep(s, j)
    else if c == '/' then SlashStep(s, j)
    else if IsDigit(c) then NumberStep(s, j)
    else if IsAsciiAlphabetic(c) then WordStep(s, j, keywords)
    else Step(None, j + 1)
  }

  /** The branches of `DispatchStep`, one lemma each, for the methods that follow them. */
  lemma DispatchOperator(s: string, j: nat, keywords: map<string, TokenType>)
    requires j < |s| && OperatorKinds(s[j]).Some?
    ensures DispatchStep(s, j, keywords) == OperatorStep(s, j)
  {
  }

  lemma DispatchString(s: string, j: nat, keywords: map<string, TokenType>)
    requires j < |s| && s[j] == '"'
    ensures DispatchStep(s, j, keywords) == StringStep(s, j)
  {
  }

  lemma DispatchSlash(s: string, j: nat, keywords: map<string, TokenType>)
    requires j < |s| && s[j] == '/'
    ensures DispatchStep(s, j, keywords) == SlashStep(s, j)
  {
  }

  lemma DispatchNumber(s: string, j: nat, keywords: map<string, TokenType>)
    requires j < |s| && IsDigit(s[j])
    ensures DispatchStep(s, j, keywords) == NumberStep(s, j)
  {
    assert SingleCharKind(s[j]).None? && OperatorKinds(s[j]).None?;
  }

  lemma DispatchWord(s: string, j: nat, keywords: map<string, TokenType>)
    requires j < |s| && IsAsciiAlphabetic(s[j])
    ensures DispatchStep(s, j, keywords) == WordStep(s, j, keywords)
  {
    assert SingleCharKind(s[j]).None? && OperatorKinds(s[j]).None?;
  }

  /**
   * `next_token` started at char index `i`: skip whitespace, then dispatch on
   * the next char; the end of the text gives no token.
   */
  function NextTokenSpec(s: string, i: nat, keywords: map<string, TokenType>): (r: Step)
    requires i <= |s|
    ensures Progress(s, i, r)
  {
    var j := RunEnd(s, i, IsWhitespace);
    if j == |s| then Step(None, j) else DispatchStep(s, j, keywords)
  }

  /** Each token `DispatchStep` gives is not `Eof` and carries the line reached. */
  lemma DispatchTokenFacts(s: string, j: nat, keywords: map<string, TokenType>)
    requires j < |s| && KeywordTable(keywords)
    ensures TokenFacts(s, DispatchStep(s, j, keywords))
  {
    var c := s[j];
    if SingleCharKind(c).Some? {
    } else if OperatorKinds(c).Some? {
      DispatchOperator(s, j, keywords);
    } else if c == '"' {
      DispatchString(s, j, keywords);
    } else if c == '/' {
      DispatchSlash(s, j, keywords);
    } else if IsDigit(c) {
      DispatchNumber(s, j, keywords);
    } else if IsAsciiAlphabetic(c) {
      DispatchWord(s, j, keywords);
    }
  }

  /** Each token `next_token` gives is not `Eof` and carries the line counter reached once it is read. */
  lemma NextTokenFacts(s: string, i: nat, keywords: map<string, TokenType>)
    requires i <= |s| && KeywordTable(keywords)
    ensures TokenFacts(s, NextTokenSpec(s, i, keywords))
  {
    var j := RunEnd(s, i, IsWhitespace);
    if j < |s| {
      DispatchTokenFacts(s, j, keywords);
    }
  }

  /**
   * `scan` from char index `i`: the tokens of successive `next_token` calls
   * up to the first call that gives none, then one `Eof` token carrying the
   * line counter reached.
   */
  function ScanFrom(s: string, i: nat, keywords: map<string, TokenType>): (tokens: seq<Token>)
    requires i <= |s|
    ensures 0 < |tokens| <= |s| - i + 1
    decreases |s| - i
  {
    var step := NextTokenSpec(s, i, keywords);
    if step.token.None? then [Create(Eof, LineAt(s, step.next))]
    else
      [step.token.value] + ScanFrom(s, step.next, keywords)
  }

  /** Only the last of `tokens` is `Eof`, and it carries no payload. */
  predicate EofLastOnly(tokens: seq<Token>) {
    && |tokens| > 0
    && tokens[|tokens| - 1].tokenType == Eof && tokens[|tokens| - 1].value == None
    && forall k :: 0 <= k < |tokens| - 1 ==> tokens[k].tokenType != Eof
  }

  /** The lines of `tokens` lie between `lo` and `hi` and never decrease. */
  predicate LinesSortedWithin(tokens: seq<Token>, lo: nat, hi: nat) {
    && (forall k :: 0 <= k < |tokens| ==> lo <= tokens[k].line <= hi)
    && (forall k :: 0 <= k < |tokens| - 1 ==> tokens[k].line <= tokens[k + 1].line)
  }

  /** A token other than `Eof` in front of such a sequence keeps `EofLastOnly`. */
  lemma EofLastOnlyCons(t: Token, rest: seq<Token>)
    requires t.tokenType != Eof && EofLastOnly(rest)
    ensures EofLastOnly([t] + rest)
  {
    var tokens := [t] + rest;
    forall k | 0 < k < |tokens| - 1
      ensures tokens[k].tokenType != Eof
    {
      assert tokens[k] == rest[k - 1];
    }
    assert tokens[|tokens| - 1] == rest[|rest| - 1];
  }

  /** A token whose line is at most the lines that follow keeps the lines sorted. */
  lemma LinesSortedWithinCons(t: Token, rest: seq<Token>, lo: nat, mid: nat, hi: nat)
    requires lo <= t.line <= mid <= hi && LinesSortedWithin(rest, mid, hi)
    ensures LinesSortedWithin([t] + rest, lo, hi)
  {
    var tokens := [t] + rest;
    forall k | 0 < k < |tokens|
      ensures lo <= tokens[k].line <= hi
      ensures k < |tokens| - 1 ==> tokens[k].line <= tokens[k + 1].line
    {
      assert tokens[k] == rest[k - 1];
    }
    if |rest| > 0 {
      assert tokens[1] == rest[0];
    }
  }

  /** `scan` ends in an `Eof` token with no payload, and that is its only `Eof`: `next_token` never gives one. */
  lemma {:induction false} ScanFromEof(s: string, i: nat, keywords: map<string, TokenType>)
    requires i <= |s| && KeywordTable(keywords)
    ensures EofLastOnly(ScanFrom(s, i, keywords))
    decreases |s| - i
  {
    var step := NextTokenSpec(s, i, keywords);
    NextTokenFacts(s, i, keywords);
    if step.token.Some? {
      ScanFromEof(s, step.next, keywords);
      var rest := ScanFrom(s, step.next, keywords);
      assert ScanFrom(s, i, keywords) == [step.token.value] + rest;
      EofLastOnlyCons(step.token.value, rest);
    }
  }

  /**
   * The tokens of `ScanFrom` carry lines between the line at `i` and the
   * line at the end of the text, and their lines never decrease.
   */
  lemma {:induction false} ScanFromShape(s: string, i: nat, keywords: map<string, TokenType>)
    requires i <= |s| && KeywordTable(keywords)
    ensures LinesSortedWithin(ScanFrom(s, i, keywords), LineAt(s, i), LineAt(s, |s|))
    decreases |s| - i
  {
    var step := NextTokenSpec(s, i, keywords);
    NextTokenFacts(s, i, keywords);
    LineAtMonotone(s, i, step.next);
    LineAtMonotone(s, step.next, |s|);
    if step.token.Some? {
      ScanFromShape(s, step.next, keywords);
      var rest := ScanFrom(s, step.next, keywords);
      assert ScanFrom(s, i, keywords) == [step.token.value] + rest;
      LinesSortedWithinCons(step.token.value, rest, LineAt(s, i), LineAt(s, step.next), LineAt(s, |s|));
    }
  }

  /**
   * `Scanner::scan`: the token sequence of the whole text, holding at most
   * one token per char besides the `Eof` token that ends it and is its only
   * `Eof`.
   */
  function ScanSpec(s: string): (tokens: seq<Token>)
    ensures 0 < |tokens| <= |s| + 1 && EofLastOnly(tokens)
  {
    ScanFromEof(s, 0, CreateKeywordMap());
    ScanFrom(s, 0, CreateKeywordMap())
  }
}
