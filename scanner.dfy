/**
 * rust-lox's `Scanner` as a class. Its real fields are those of the Rust
 * struct: the UTF-8 bytes of the input, the byte offset `currentPos`, the
 * last char read, the keyword table and the line counter. The ghost fields
 * `chars` and `charIndex` give the same cursor in chars, so that every method
 * can be stated against the functions of the Lexer module.
 */
module Scanning {

  import opened Wrappers
  import opened CharClass
  import opened Tokens
  import opened Lexer

  class Scanner {
    const input: seq<Byte>
    var currentPos: nat
    var lastReadChar: Option<char>
    const keywordToToken: map<string, TokenType>
    var line: nat

    /** The text the bytes of `input` encode, and the number of its chars before `currentPos`. */
    ghost const chars: string
    ghost var charIndex: nat

    ghost predicate Valid()
      reads this
    {
      && input == Utf8EncodeText(chars)
      && charIndex <= |chars|
      && currentPos == Utf8Offset(chars, charIndex)
      && line == LineAt(chars, charIndex)
      && (lastReadChar.Some? ==> 0 < charIndex && lastReadChar.value == chars[charIndex - 1])
    }

    /** `Scanner::new`: the cursor at the start, no char read yet, line 0. */
    constructor (source: string)
      ensures Valid() && chars == source
      ensures charIndex == 0 && currentPos == 0 && lastReadChar == None && line == 0
      ensures keywordToToken == CreateKeywordMap()
    {
      input := Utf8EncodeText(source);
      chars := source;
      currentPos := 0;
      charIndex := 0;
      lastReadChar := None;
      keywordToToken := CreateKeywordMap();
      line := 0;
    }

    /**
     * `peek_char`: decodes the char that starts at byte `currentPos`, which
     * is the char at the cursor, and changes nothing.
     */
    method PeekChar() returns (c: Option<char>)
      requires Valid()
      ensures c == (if charIndex < |chars| then Some(chars[charIndex]) else None)
    {
      if currentPos >= |input| {
        if charIndex < |chars| {
          Utf8EncodePrefixGrows(chars, charIndex + 1, |chars|);
        }
        c := None;
      } else {
        c := Utf8DecodeFirst(input[currentPos..]);
        Utf8DecodeAtOffset(chars, charIndex);
      }
    }

    /**
     * `read_char`: at the end of the input returns `None`, leaves the cursor
     * and the line where they are and sets `lastReadChar` to `None`;
     * otherwise returns the char at the cursor, moves past its UTF-8 bytes
     * and counts it if it is a line feed.
     */
    method ReadChar() returns (c: Option<char>)
      requires Valid()
      modifies this
      ensures Valid()
      ensures c == (if old(charIndex) < |chars| then Some(chars[old(charIndex)]) else None)
      ensures charIndex == old(charIndex) + (if c.Some? then 1 else 0)
      ensures currentPos == old(currentPos) + (if c.Some? then Utf8Width(c.value) else 0)
      ensures line == old(line) + (if c == Some('\n') then 1 else 0)
      ensures lastReadChar == c
    {
      var next := PeekChar();
      currentPos := currentPos + (if next.Some? then Utf8Width(next.value) else 0);
      charIndex := charIndex + (if next.Some? then 1 else 0);
      lastReadChar := next;
      if next == Some('\n') {
        line := line + 1;
      }
      c := next;
    }

    /**
     * `match_char`: consumes the next char and returns true exactly when it
     * is `expected`; otherwise changes nothing.
     */
    method MatchChar(expected: char) returns (matched: bool)
      requires Valid()
      modifies this
      ensures Valid()
      ensures matched == (old(charIndex) < |chars| && chars[old(charIndex)] == expected)
      ensures matched ==> charIndex == old(charIndex) + 1 && lastReadChar == Some(expected)
      ensures !matched ==> unchanged(this)
    {
      var next := PeekChar();
      if next.Some? && next.value == expected {
        var consumed := ReadChar();
        return true;
      }
      return false;
    }

    /** `skip_white_space`: consumes the maximal run of whitespace at the cursor. */
    method SkipWhiteSpace()
      requires Valid()
      modifies this
      ensures Valid()
      ensures charIndex == RunEnd(chars, old(charIndex), IsWhitespace)
      ensures charIndex == old(charIndex) ==> lastReadChar == old(lastReadChar)
      ensures charIndex > old(charIndex) ==> lastReadChar == Some(chars[charIndex - 1])
    {
      ghost var start := charIndex;
      while true
        invariant Valid() && start <= charIndex
        invariant RunEnd(chars, charIndex, IsWhitespace) == RunEnd(chars, start, IsWhitespace)
        invariant charIndex == start ==> lastReadChar == old(lastReadChar)
        invariant charIndex > start ==> lastReadChar == Some(chars[charIndex - 1])
        decreases |chars| - charIndex
      {
        var c := PeekChar();
        if c.None? || !IsWhitespace(c.value) {
          break;
        }
        var consumed := ReadChar();
      }
    }

    /** `skip_rest_of_line`: consumes up to and including the next line feed, or to the end. */
    method SkipRestOfLine()
      requires Valid()
      modifies this
      ensures Valid()
      ensures charIndex == RestOfLineEnd(chars, old(charIndex))
      ensures charIndex == old(charIndex) ==> lastReadChar == old(lastReadChar)
      ensures charIndex > old(charIndex) ==> lastReadChar == Some(chars[charIndex - 1])
    {
      ghost var start := charIndex;
      while true
        invariant Valid() && start <= charIndex
        invariant RestOfLineEnd(chars, charIndex) == RestOfLineEnd(chars, start)
        invariant charIndex == start ==> lastReadChar == old(lastReadChar)
        invariant charIndex > start ==> lastReadChar == Some(chars[charIndex - 1])
        decreases |chars| - charIndex
      {
        var next := PeekChar();
        if next.None? {
          break;
        }
        var consumed := ReadChar();
        if next.value == '\n' {
          break;
        }
      }
    }

    /**
     * One of the two identical digit loops of `read_number`: consumes the
     * maximal run of ASCII digits at the cursor, appending it to `number`,
     * the text read since index `first`.
     */
    method ReadDigits(ghost first: nat, number: string) returns (extended: string)
      requires Valid() && first <= charIndex && number == chars[first..charIndex]
      modifies this
      ensures Valid()
      ensures charIndex == RunEnd(chars, old(charIndex), IsDigit)
      ensures extended == chars[first..charIndex]
      ensures charIndex == old(charIndex) ==> lastReadChar == old(lastReadChar)
      ensures charIndex > old(charIndex) ==> lastReadChar == Some(chars[charIndex - 1])
    {
      ghost var start := charIndex;
      extended := number;
      while true
        invariant Valid() && start <= charIndex
        invariant extended == chars[first..charIndex]
        invariant RunEnd(chars, charIndex, IsDigit) == RunEnd(chars, start, IsDigit)
        invariant charIndex == start ==> lastReadChar == old(lastReadChar)
        invariant charIndex > start ==> lastReadChar == Some(chars[charIndex - 1])
        decreases |chars| - charIndex
      {
        var d := PeekChar();
        if d.None? || !IsDigit(d.value) {
          break;
        }
        SliceExtend(chars, first, charIndex);
        extended := extended + [d.value];
        var consumed := ReadChar();
      }
    }

    /**
     * The accumulation in `read_number`, entered with the first digit at
     * index `first` just read: digits, at most one `.`, and digits again.
     */
    method ReadNumberText(ghost first: nat) returns (number: string)
      requires Valid() && first + 1 == charIndex && lastReadChar == Some(chars[first])
      modifies this
      ensures Valid()
      ensures charIndex == NumberEnd(chars, first + 1) && number == chars[first..charIndex]
      ensures lastReadChar == Some(chars[charIndex - 1])
    {
      number := [lastReadChar.value];
      // The leading digits.
      number := ReadDigits(first, number);
      ghost var intEnd := charIndex;
      // An optional decimal point.
      var dot := PeekChar();
      if dot == Some('.') {
        SliceExtend(chars, first, charIndex);
        number := number + ['.'];
        var consumed := ReadChar();
      }
      // The trailing digits.
      ghost var fracStart := charIndex;
      assert fracStart == if intEnd < |chars| && chars[intEnd] == '.' then intEnd + 1 else intEnd;
      number := ReadDigits(first, number);
    }

    /**
     * `read_number`, entered with the first digit just read: reads the
     * number's text, then parses it; a text that does not parse gives no
     * token.
     */
    method ReadNumber() returns (t: Option<Token>)
      requires Valid() && lastReadChar.Some? && IsDigit(lastReadChar.value)
      modifies this
      ensures Valid()
      ensures Step(t, charIndex) == NumberStep(chars, old(charIndex) - 1)
      ensures 0 < charIndex && lastReadChar == Some(chars[charIndex - 1])
    {
      ghost var first := charIndex - 1;
      var number := ReadNumberText(first);
      var value := ParseDecimal(number);
      if value.Some? {
        return Some(CreateWithNumber(Number, line, value.value));
      }
      return None;
    }

    /**
     * `read_string_literal`, entered with the opening quote just read:
     * accumulates chars up to the closing quote, which it consumes and
     * leaves out; at the end of the input it gives no token.
     */
    method ReadStringLiteral() returns (t: Option<Token>)
      requires Valid() && lastReadChar == Some('"')
      modifies this
      ensures Valid()
      ensures Step(t, charIndex) == StringStep(chars, old(charIndex) - 1)
      ensures t.Some? ==> lastReadChar == Some('"')
      ensures t.None? ==> lastReadChar == None
    {
      ghost var quote := charIndex - 1;
      var text: string := [];
      while true
        invariant Valid() && quote < charIndex
        invariant text == chars[quote + 1..charIndex]
        invariant StringClose(chars, charIndex) == StringClose(chars, quote + 1)
        decreases |chars| - charIndex
      {
        var character := ReadChar();
        if character.None? {
          break;
        }
        if character.value == '"' {
          return Some(CreateWithString(String, line, text));
        }
        text := text + [character.value];
      }
      return None;
    }

    /**
     * The loop of `read_identifier_or_keyword`: consumes the maximal run of
     * ASCII letters and digits at the cursor, appending it to `word`, the
     * text read since index `first`.
     */
    method ReadAlphanumerics(ghost first: nat, word: string) returns (extended: string)
      requires Valid() && first < charIndex && word == chars[first..charIndex]
      requires lastReadChar == Some(chars[charIndex - 1])
      modifies this
      ensures Valid()
      ensures charIndex == RunEnd(chars, old(charIndex), IsAsciiAlphanumeric)
      ensures extended == chars[first..charIndex]
      ensures lastReadChar == Some(chars[charIndex - 1])
    {
      ghost var start := charIndex;
      extended := word;
      while true
        invariant Valid() && start <= charIndex
        invariant extended == chars[first..charIndex]
        invariant RunEnd(chars, charIndex, IsAsciiAlphanumeric) == RunEnd(chars, start, IsAsciiAlphanumeric)
        invariant lastReadChar == Some(chars[charIndex - 1])
        decreases |chars| - charIndex
      {
        var next := PeekChar();
        if next.None? || !IsAsciiAlphanumeric(next.value) {
          break;
        }
        SliceExtend(chars, first, charIndex);
        var consumed := ReadChar();
        extended := extended + [next.value];
      }
    }

    /**
     * `read_identifier_or_keyword`, entered with the first letter just read:
     * accumulates ASCII letters and digits, then gives the keyword kind of
     * the spelling if it has one and `Identifier` otherwise, with the
     * spelling as payload.
     */
    method ReadIdentifierOrKeyword() returns (t: Option<Token>)
      requires Valid() && lastReadChar.Some? && IsAsciiAlphabetic(lastReadChar.value)
      modifies this
      ensures Valid()
      ensures Step(t, charIndex) == WordStep(chars, old(charIndex) - 1, keywordToToken)
      ensures lastReadChar == Some(chars[charIndex - 1])
    {
      ghost var first := charIndex - 1;
      var word := ReadAlphanumerics(first, [lastReadChar.value]);
      if word in keywordToToken {
        return Some(CreateWithString(keywordToToken[word], line, word));
      }
      return Some(CreateWithString(Identifier, line, word));
    }

    /**
     * The branch of `next_token` for `!`, `=`, `>` and `<`: the two-char kind
     * `withEqual` when `=` follows, else the one-char kind `alone`.
     */
    method ReadOperator(alone: TokenType, withEqual: TokenType) returns (t: Option<Token>)
      requires Valid() && lastReadChar.Some? && OperatorKinds(lastReadChar.value) == Some((alone, withEqual))
      modifies this
      ensures Valid()
      ensures 0 < old(charIndex) && Step(t, charIndex) == OperatorStep(chars, old(charIndex) - 1)
      ensures lastReadChar == Some(chars[charIndex - 1])
    {
      var equal := MatchChar('=');
      if equal {
        t := Some(Create(withEqual, line));
      } else {
        t := Some(Create(alone, line));
      }
    }

    /**
     * The branch of `next_token` for `/`: a second `/` starts a comment,
     * whose rest of line is skipped and which gives no token; else `Slash`.
     */
    method ReadSlashOrComment() returns (t: Option<Token>)
      requires Valid() && lastReadChar == Some('/')
      modifies this
      ensures Valid()
      ensures 0 < old(charIndex) && Step(t, charIndex) == SlashStep(chars, old(charIndex) - 1)
      ensures lastReadChar == Some(chars[charIndex - 1])
    {
      var comment := MatchChar('/');
      if comment {
        SkipRestOfLine();
        t := None;
      } else {
        t := Some(Create(Slash, line));
      }
    }

    /**
     * The arms of the `match` in `next_token` for a char `ch` just read:
     * the token it starts, read to its end, or none.
     */
    method ReadTokenStartingWith(ch: char) returns (t: Option<Token>)
      requires Valid() && lastReadChar == Some(ch)
      modifies this
      ensures Valid()
      ensures 0 < old(charIndex) && Step(t, charIndex) == DispatchStep(chars, old(charIndex) - 1, keywordToToken)
      ensures lastReadChar.None? <==> ch == '"' && t.None?
    {
      ghost var j := charIndex - 1;
      if SingleCharKind(ch).Some? {
        // `(`, `)`, `{`, `}`, `,`, `.`, `-`, `+`, `;` and `*` are tokens alone.
        t := Some(Create(SingleCharKind(ch).value, line));
      } else if OperatorKinds(ch).Some? {
        // `!`, `=`, `>` and `<` are a token alone or the first char of a two-char token.
        t := ReadOperator(OperatorKinds(ch).value.0, OperatorKinds(ch).value.1);
        DispatchOperator(chars, j, keywordToToken);
      } else if ch == '"' {
        t := ReadStringLiteral();
        DispatchString(chars, j, keywordToToken);
      } else if ch == '/' {
        t := ReadSlashOrComment();
        DispatchSlash(chars, j, keywordToToken);
      } else if IsDigit(ch) {
        t := ReadNumber();
        DispatchNumber(chars, j, keywordToToken);
      } else if IsAsciiAlphabetic(ch) {
        t := ReadIdentifierOrKeyword();
        DispatchWord(chars, j, keywordToToken);
      } else {
        t := None;
      }
    }

    /**
     * `next_token`: skips whitespace, reads one char and dispatches on it;
     * the cursor and the token are those of `NextTokenSpec`.
     */
    method NextToken() returns (t: Option<Token>)
      requires Valid()
      modifies this
      ensures Valid()
      ensures Step(t, charIndex) == NextTokenSpec(chars, old(charIndex), keywordToToken)
      ensures var j := RunEnd(chars, old(charIndex), IsWhitespace);
        lastReadChar.None? <==> j == |chars| || (chars[j] == '"' && t.None?)
    {
      SkipWhiteSpace();
      ghost var j := charIndex;
      assert NextTokenSpec(chars, old(charIndex), keywordToToken)
        == if j == |chars| then Step(None, j) else DispatchStep(chars, j, keywordToToken);
      t := ReadToken();
    }

    /**
     * The `match` on `read_char` in `next_token`, after the white space is
     * skipped: none at the end of the input, otherwise the token that the
     * char at the cursor starts.
     */
    method ReadToken() returns (t: Option<Token>)
      requires Valid()
      modifies this
      ensures Valid()
      ensures Step(t, charIndex)
        == if old(charIndex) == |chars| then Step(None, old(charIndex))
           else DispatchStep(chars, old(charIndex), keywordToToken)
      ensures lastReadChar.None? <==> old(charIndex) == |chars| || (chars[old(charIndex)] == '"' && t.None?)
    {
      ghost var j := charIndex;
      var c := ReadChar();
      match c {
        case None => t := None;
        case Some(ch) =>
          assert charIndex - 1 == j;
          t := ReadTokenStartingWith(ch);
      }
    }

    /**
     * `Scanner::scan`: the tokens of successive `next_token` calls up to the
     * first that gives none, followed by one `Eof` token with the line
     * counter reached.
     */
    static method Scan(source: string) returns (tokens: seq<Token>)
      ensures tokens == ScanSpec(source)
    {
      var scanner := new Scanner(source);
      tokens := [];
      while true
        invariant scanner.Valid() && scanner.chars == source
        invariant tokens + ScanFrom(source, scanner.charIndex, scanner.keywordToToken) == ScanSpec(source)
        decreases |source| - scanner.charIndex
      {
        ghost var before := scanner.charIndex;
        var token := scanner.NextToken();
        if token.None? {
          assert ScanFrom(source, before, scanner.keywordToToken) == [Create(Eof, scanner.line)];
          break;
        }
        ghost var rest := ScanFrom(source, scanner.charIndex, scanner.keywordToToken);
        assert ScanFrom(source, before, scanner.keywordToToken) == [token.value] + rest;
        AppendAssociative(tokens, [token.value], rest);
        tokens := tokens + [token.value];
      }
      tokens := tokens + [Create(Eof, scanner.line)];
    }
  }

  lemma AppendAssociative<T>(a: seq<T>, b: seq<T>, c: seq<T>)
    ensures (a + b) + c == a + (b + c)
  {
  }

  /** Extending a slice by one index appends the element there. */
  lemma SliceExtend<T>(s: seq<T>, a: nat, b: nat)
    requires a <= b < |s|
    ensures s[a..b + 1] == s[a..b] + [s[b]]
  {
  }
}
