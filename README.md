# rust-lox scanner in Dafny

A verified model of the lexical scanner of rust-lox, the Rust port of the
Lox interpreter. The scanner turns source text into a sequence of tokens
that ends in an `Eof` token. It is modelled in two layers:

- `lexer.dfy` (module `Lexer`) states what the scanner does as functions of
  the text and a char index. `NextTokenSpec` is one `next_token` call. It
  gives the token, if any, and the index reached. `ScanFrom` / `ScanSpec`
  give the whole scan.
- `scanner.dfy` (module `Scanning`) is the `Scanner` struct as a class. It
  has the struct's fields: the UTF-8 bytes `input`, the byte offset
  `currentPos`, `lastReadChar`, `keywordToToken` and `line`. Its methods are
  the struct's methods, with their loops. Each method is proved to leave the
  cursor where the matching `Lexer` function says and to return the token
  that function gives. `Scanner.Scan` returns exactly `ScanSpec(source)`.
  The class invariant `Valid()` ties `lastReadChar`, when it holds a char,
  to the char just before the cursor. Each method also states when it holds
  none, which is only after a `read_char` at the end of the text.

The other files:
- `tokens.dfy` holds the token data model of `token.rs`.
- `char_class.dfy` holds the char predicates and the UTF-8 encoding that the
  byte cursor moves on.
- `scan_properties.dfy` proves what the scanner promises:
  - the token each lexeme gives;
  - when the scan ends;
  - payloads;
  - lines;
  - the shape of the result.
- `scan_examples.dfy` works through concrete texts.

Conventions the code fixes:
- Lines are counted from 0. The counter is read when a token is created, that
  is after its last char. A string that spans lines gets the line where it
  ends.
- Keyword tokens carry their spelling as a text payload, as identifiers do.
- There is no diagnostics list. `scan` stops at the first `next_token` that
  gives no token. So a `//` comment ends the scan: `// c\n+` scans to a lone
  `Eof` on line 1, not to `Plus`. The same goes for a char that starts no
  lexeme and for an unterminated string. The failed-parse branch of
  `read_number` is never taken (`NumberToken`).

## Model

| member | source | states |
|---|---|---|
| Scanning.Scanner.constructor | rust-lox/src/scanner.rs:27-35 | a scanner over the UTF-8 encoding of the text, at byte 0 with no char read, line 0 and the keyword map |
| Scanning.Scanner.PeekChar | rust-lox/src/scanner.rs:52-58 | decoding at byte `currentPos` gives the char at the cursor, or none at the end; nothing changes |
| Scanning.Scanner.ReadChar | rust-lox/src/scanner.rs:39-50 | returns the char at the cursor, or none at the end; advances the byte offset by its UTF-8 width; sets `lastReadChar`; adds one to `line` exactly for a line feed |
| Scanning.Scanner.MatchChar | rust-lox/src/scanner.rs:62-71 | true exactly when the next char is the expected one; then exactly that char is consumed, otherwise the scanner is unchanged |
| Scanning.Scanner.SkipWhiteSpace | rust-lox/src/scanner.rs:74-83 | consumes exactly the maximal run of whitespace at the cursor |
| Scanning.Scanner.SkipRestOfLine | rust-lox/src/scanner.rs:86-93 | consumes up to and including the first line feed, or to the end of the text, and no further; `lastReadChar` is the last char consumed, since the loop peeks before it reads |
| Scanning.Scanner.ReadDigits | rust-lox/src/scanner.rs:188-195 | consumes exactly the maximal run of ASCII digits and appends it to the text read |
| Scanning.Scanner.ReadNumberText | rust-lox/src/scanner.rs:176-211 | the text read is the source from the first digit to `NumberEnd`: digits, at most one `.`, digits |
| Scanning.Scanner.ReadNumber | rust-lox/src/scanner.rs:176-223 | the token and cursor are those of `NumberStep`: the text parsed as a `Number` token |
| Scanning.Scanner.ReadStringLiteral | rust-lox/src/scanner.rs:226-241 | the token and cursor are those of `StringStep`: the text up to the closing quote, or no token and the whole rest consumed; `lastReadChar` is the closing quote, or none once `read_char` hit the end |
| Scanning.Scanner.ReadAlphanumerics | rust-lox/src/scanner.rs:253-260 | consumes exactly the maximal run of ASCII letters and digits and appends it to the word |
| Scanning.Scanner.ReadIdentifierOrKeyword | rust-lox/src/scanner.rs:243-270 | the token and cursor are those of `WordStep`: the word, kind from the keyword map or `Identifier`, spelling as payload |
| Scanning.Scanner.ReadOperator | rust-lox/src/scanner.rs:124-151 | the token and cursor are those of `OperatorStep`: the two-char kind when `=` follows, else the one-char kind; `lastReadChar` is the last char consumed |
| Scanning.Scanner.ReadSlashOrComment | rust-lox/src/scanner.rs:156-163 | the token and cursor are those of `SlashStep`: a comment skipped to the end of its line with no token, or `Slash`; `lastReadChar` is the last char consumed |
| Scanning.Scanner.ReadTokenStartingWith | rust-lox/src/scanner.rs:110-170 | for the char just read, the token and cursor are those of `DispatchStep`; `lastReadChar` is none exactly after an unterminated string, and otherwise the last char consumed |
| Scanning.Scanner.ReadToken | rust-lox/src/scanner.rs:110-170 | no token at the end of the text, else the outcome of `DispatchStep` at the cursor; `lastReadChar` is none exactly at the end of the text or after an unterminated string |
| Scanning.Scanner.NextToken | rust-lox/src/scanner.rs:107-173 | the token and cursor are those of `NextTokenSpec`; `lastReadChar` is none exactly when the text ends after the whitespace or a string there is unterminated, and otherwise the last char consumed |
| Scanning.Scanner.Scan | rust-lox/src/scanner.rs:14-25 | the tokens are exactly `ScanSpec(source)` |
| Lexer.LineAt | rust-lox/src/scanner.rs:46-48 | the line counter after `k` chars is at most `k` |
| Lexer.LineAtMonotone | rust-lox/src/scanner.rs:46-48 | the line counter never decreases as chars are consumed |
| Lexer.RunEnd | rust-lox/src/scanner.rs:74-83 | the end of the maximal run of chars satisfying a test: all chars before it pass, the char at it fails or the text ends |
| Lexer.RestOfLineEnd | rust-lox/src/scanner.rs:86-93 | just past the first line feed from `i`, or the end of the text, with no line feed before it |
| Lexer.StringClose | rust-lox/src/scanner.rs:229-237 | the first `"` at or after `i`, or none when there is no `"` in the rest |
| Lexer.NumberEnd | rust-lox/src/scanner.rs:186-211 | where the digits, optional `.` and digits of `read_number` end: within the text and not before `i` |
| Lexer.ParseDecimal | rust-lox/src/scanner.rs:213-219 | on texts of digits and dots, succeeds exactly for decimal text with one dot at most and a digit; an all-digit text gives its integer value |
| Lexer.CreateKeywordMap | rust-lox/src/scanner.rs:273-294 | each key is the spelling of the keyword kind it maps to, and every keyword kind is the value of its own spelling: the map is exactly the keyword table |
| Lexer.KeywordMapComplete | rust-lox/src/scanner.rs:276-291 | every keyword kind is the value of its own spelling among the sixteen inserted entries |
| Lexer.KeywordMapExact | rust-lox/src/scanner.rs:276-291 | the inserted entries map each spelling to the keyword kind it spells and reach every keyword kind |
| Lexer.SingleCharKind | rust-lox/src/scanner.rs:112-121 | a char that is a token alone gets a single-char kind other than `Slash`, and starts no other lexeme: it is not `"`, `/`, a letter, a digit or whitespace |
| Lexer.OperatorKinds | rust-lox/src/scanner.rs:124-151 | `!`, `=`, `>` and `<` get two distinct one-or-two-char kinds, and start no other lexeme: not a single-char token, `"`, `/`, a letter, a digit or whitespace |
| Lexer.WordKind | rust-lox/src/scanner.rs:262-269 | with a keyword table, the kind is a keyword exactly when the spelling is a key, is then the keyword so spelled, and is `Identifier` otherwise |
| Lexer.OperatorStep | rust-lox/src/scanner.rs:124-151 | an operator char always gives a token and advances |
| Lexer.StringStep | rust-lox/src/scanner.rs:226-241 | the cursor moves forward, and a token means progress |
| Lexer.SlashStep | rust-lox/src/scanner.rs:156-163 | the cursor moves forward, and a token means progress |
| Lexer.NumberStep | rust-lox/src/scanner.rs:176-223 | the cursor moves forward, and a token means progress |
| Lexer.WordStep | rust-lox/src/scanner.rs:243-270 | a letter always gives a token and advances |
| Lexer.DispatchStep | rust-lox/src/scanner.rs:110-170 | the cursor moves forward, and a token means progress |
| Lexer.DispatchOperator | rust-lox/src/scanner.rs:124-151 | the dispatch on `!`, `=`, `>` and `<` is `OperatorStep` |
| Lexer.DispatchString | rust-lox/src/scanner.rs:153 | the dispatch on `"` is `StringStep` |
| Lexer.DispatchSlash | rust-lox/src/scanner.rs:156-163 | the dispatch on `/` is `SlashStep` |
| Lexer.DispatchNumber | rust-lox/src/scanner.rs:165 | the dispatch on a digit is `NumberStep` |
| Lexer.DispatchWord | rust-lox/src/scanner.rs:167 | the dispatch on a letter is `WordStep` |
| Lexer.NextTokenSpec | rust-lox/src/scanner.rs:107-173 | the cursor never moves back, and every token consumes at least one char, so `scan` terminates |
| Lexer.DispatchTokenFacts | rust-lox/src/scanner.rs:110-170 | no arm builds `Eof`, and every token carries the line counter reached |
| Lexer.NextTokenFacts | rust-lox/src/scanner.rs:107-173 | `next_token` never gives `Eof`, and its token carries the line counter reached |
| Lexer.ScanFrom | rust-lox/src/scanner.rs:14-25 | the scan from a char index holds at least the `Eof` token and at most one token per remaining char besides it |
| Lexer.EofLastOnlyCons | rust-lox/src/scanner.rs:18-22 | a token other than `Eof` pushed in front of a sequence that ends in its only `Eof` keeps that shape |
| Lexer.LinesSortedWithinCons | rust-lox/src/scanner.rs:18-22 | a token whose line is at most the lines that follow keeps the lines sorted and within bounds |
| Lexer.ScanFromEof | rust-lox/src/scanner.rs:14-25 | the scan ends in an `Eof` token with no payload, and that is its only `Eof` |
| Lexer.ScanFromShape | rust-lox/src/scanner.rs:14-25 | the lines of the scan never decrease and lie between the line at the starting index and the line at the end of the text |
| Lexer.ScanSpec | rust-lox/src/scanner.rs:14-25 | `scan` gives at least the `Eof` token and at most one token per char besides it; `Eof` is last and only |
| Tokens.Create | rust-lox/src/token.rs:15-21 | the kind and line are kept and there is no payload |
| Tokens.CreateWithString | rust-lox/src/token.rs:23-29 | the kind and line are kept and the payload is the text |
| Tokens.CreateWithNumber | rust-lox/src/token.rs:31-37 | the kind and line are kept and the payload is the number |
| Tokens.TokenTypeGroups | rust-lox/src/token.rs:41-89 | the single-char, one-or-two-char, literal and keyword groups and `Eof` partition the 39 kinds |
| CharClass.IsWhitespace | rust-lox/src/scanner.rs:76 | `char::is_whitespace` on ASCII holds exactly for space, tab, line feed, vertical tab, form feed and carriage return |
| CharClass.IsDigit | rust-lox/src/scanner.rs:165 | `is_digit(10)` holds only for ASCII chars that are not whitespace |
| CharClass.IsAsciiAlphabetic | rust-lox/src/scanner.rs:167 | an ASCII letter is ASCII and neither a digit nor whitespace, so the letter and digit arms of `next_token` are disjoint |
| CharClass.IsAsciiAlphanumeric | rust-lox/src/scanner.rs:254 | an ASCII letter or digit is ASCII and never whitespace, so a word stops at whitespace |
| CharClass.Utf8DecodeFirst | rust-lox/src/scanner.rs:56 | a decoded char never needs more bytes than there are: its `len_utf8` is at most the bytes left |
| CharClass.Utf8Width | rust-lox/src/scanner.rs:43 | `len_utf8` is between 1 and 4 |
| CharClass.Utf8Encode | rust-lox/src/scanner.rs:6 | a char encodes to `len_utf8` bytes |
| CharClass.Utf8Offset | rust-lox/src/scanner.rs:43 | the byte offset of char `k` is at least `k` |
| CharClass.Utf8EncodePrefix | rust-lox/src/scanner.rs:6 | the encoding of the first `k` chars is as long as the byte offset of char `k` |
| CharClass.Utf8EncodeText | rust-lox/src/scanner.rs:6 | the encoding of the text is as long as the byte offset of its end |
| CharClass.Utf8DecodeEncode | rust-lox/src/scanner.rs:56 | decoding the first char of an encoded char followed by anything gives that char back |
| CharClass.Utf8EncodePrefixGrows | rust-lox/src/scanner.rs:53 | byte offsets grow strictly with the char index, and a shorter prefix encodes to a prefix of a longer one |
| CharClass.Utf8DecodeAtOffset | rust-lox/src/scanner.rs:52-58 | the byte offset of each char lies within the input, and decoding there gives that char |
| ScanProperties.OperatorToken | rust-lox/src/scanner.rs:124-151 | maximal munch: followed by `=`, the two-char kind and two chars consumed; otherwise the one-char kind and the next char left unread |
| ScanProperties.SlashToken | rust-lox/src/scanner.rs:156-163 | `//` gives no token and skips to just past the line feed; a lone `/` gives `Slash` and one char |
| ScanProperties.NumberLexeme | rust-lox/src/scanner.rs:186-211 | the number text is decimal text, is followed by no digit, and is followed by a `.` only when it already holds one |
| ScanProperties.NumberToken | rust-lox/src/scanner.rs:176-223 | a digit always gives a `Number` token, whose text parses; the payload is the parsed value |
| ScanProperties.StringToken | rust-lox/src/scanner.rs:226-241 | `StringOutcome` of the dispatch on `"`: no token exactly when no closing quote follows, and then the rest is consumed; otherwise a `String` token whose payload is the text strictly between the quotes, holding no quote, on the line after the closing quote |
| ScanProperties.StringStepFacts | rust-lox/src/scanner.rs:226-241 | `StringOutcome` of `read_string_literal` itself |
| ScanProperties.ClosedString | rust-lox/src/scanner.rs:229-233 | a string closed at `e` gives the text between the quotes, which holds no quote, and a quote follows the opening one |
| ScanProperties.UnterminatedString | rust-lox/src/scanner.rs:229-240 | a string with no closing quote gives no token, consumes the whole rest, and no quote follows the opening one |
| ScanProperties.WordToken | rust-lox/src/scanner.rs:243-270 | the maximal alphanumeric run, spelling as payload; a keyword kind exactly when the spelling is a key of the keyword map, and then the kind so spelled; otherwise `Identifier` |
| ScanProperties.DispatchPayload | rust-lox/src/scanner.rs:110-170 | each dispatched token carries the payload its kind calls for |
| ScanProperties.SymbolPayload | rust-lox/src/scanner.rs:112-163 | operator and punctuation tokens carry no payload |
| ScanProperties.LiteralPayload | rust-lox/src/scanner.rs:153-167 | string and identifier tokens carry a text payload and number tokens a number payload; keyword tokens carry their own spelling |
| ScanProperties.NextTokenPayload | rust-lox/src/scanner.rs:107-173 | `next_token` gives tokens with the payload their kind calls for |
| ScanProperties.ScanFromPayloads | rust-lox/src/scanner.rs:14-25 | every scanned token carries the payload its kind calls for |
| ScanProperties.NoTokenIff | rust-lox/src/scanner.rs:107-173 | `next_token` gives none exactly at the end of the text, at a `//` comment, at an unterminated string, or at a char that starts no lexeme |
| ScanProperties.ScanStopsAtNoToken | rust-lox/src/scanner.rs:18-22 | the scan is a lone `Eof` exactly when the first lexeme gives no token, whatever follows |
| ScanProperties.CommentEndsScan | rust-lox/src/scanner.rs:156-163 | a `//` comment ends the scan, and `Eof` carries the line after the comment's line feed |
| ScanProperties.BlankScan | rust-lox/src/scanner.rs:74-83 | a text of whitespace alone scans to a lone `Eof` |
| ScanProperties.LineAtCountsNewlines | rust-lox/src/scanner.rs:46-48 | the line counter is the number of line feeds consumed |
| ScanProperties.ScanShape | rust-lox/src/scanner.rs:14-25 | `scan` is non-empty and ends with its only `Eof`; payloads match kinds; lines are sorted and bounded by the line feeds of the text |
| ScanExamples.BangEqualExample | rust-lox/src/scanner.rs:124-130 | `!=` scans to `BangEqual`, `Eof` |
| ScanExamples.BangAloneExample | rust-lox/src/scanner.rs:124-130 | `! ` scans to `Bang`, `Eof` |
| ScanExamples.CommentExample | rust-lox/src/scanner.rs:156-163 | `// c\n+` scans to a lone `Eof` on line 1 |
| ScanExamples.UnterminatedExample | rust-lox/src/scanner.rs:226-241 | an unterminated string that spans a line feed scans to a lone `Eof` on line 1 |
| ScanExamples.UnrecognisedExample | rust-lox/src/scanner.rs:169 | `#+` scans to a lone `Eof` |
| ScanExamples.StringLiteralHi | rust-lox/src/scanner.rs:226-241 | `read_string_literal` on a quoted `hi` gives the String `hi` on line 0 and stops past the closing quote |
| ScanExamples.StringExample | rust-lox/src/scanner.rs:226-241 | a quoted `hi` scans to the String `hi`, then `Eof` |
| ScanExamples.NumberDotExample | rust-lox/src/scanner.rs:176-223 | `12.5.6` scans to Number 12.5, `Dot`, Number 6, `Eof` |
| ScanExamples.KeywordExample | rust-lox/src/scanner.rs:243-270 | `var x` scans to `Var` with payload `var`, `Identifier` with payload `x`, `Eof` |

## Left out

- Lexer.ParseDecimal: the `f64` payload is the exact decimal value of the number's text. The rounding of `str::parse::<f64>` to the nearest binary64 value is not modelled.
- Lexer.ParseDecimal: it decides only texts made of digits and dots. Those are the only texts `read_number` builds. Rust's other float syntax (signs, exponents, `inf`, `NaN`) is not modelled.
- Scanning.Scanner.ReadChar: `line` is a `u32` and `current_pos` a `usize` in Rust. Both are unbounded here; wrap-around would need 2^32 line feeds.
- The branches of `read_number` (scanner.rs:179-184) and `read_identifier_or_keyword` (scanner.rs:246-251) for an empty `last_read_char` are not modelled. Both are unreachable: these methods are entered only with the char just read, which their preconditions state.
- The `create_token` helpers (scanner.rs:95-105) are inlined as calls of `Create`, `CreateWithString` and `CreateWithNumber` with the current line.
- The ten single-char arms of `next_token` are modelled as one table lookup, `SingleCharKind`.
- The `HashMap` of `create_keyword_map` is a Dafny `map`. Hashing and iteration order play no part in the scanner.
- The `Lexer` functions take the keyword table as a parameter. The scanner passes its own `keywordToToken`, which is `CreateKeywordMap()`.
- `char::is_whitespace` is modelled by the list of Unicode White_Space code points. No Unicode tables beyond that are modelled.
- The commented-out `error` and `report` functions (scanner.rs:296-303) are not live code.
- main.rs is not part of this model, because it is file and console I/O. expression.rs is not part of this model either, because it is a floating-point evaluator disconnected from the scanner.
- The `Debug` and `Clone` derivations on the token types are not modelled.
