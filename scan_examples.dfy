/**
 * Concrete texts and the tokens `Scanner::scan` gives for them, derived from
 * the general lemmas of ScanProperties. Each `...Example` lemma states the
 * whole token sequence; the lemmas before it establish one `next_token`
 * call each, or the facts about the text that call needs.
 */
module ScanExamples {
  import opened Wrappers
  import opened CharClass
  import opened Tokens
  import opened Lexer
  import opened ScanProperties

  lemma BangEqualFirst()
    ensures NextTokenSpec("!=", 0, CreateKeywordMap()) == Step(Some(Create(BangEqual, 0)), 2)
  {
    var s, kw := "!=", CreateKeywordMap();
    assert RunEnd(s, 0, IsWhitespace) == 0;
    OperatorToken(s, 0, kw, Bang, BangEqual);
    assert LineAt(s, 2) == 0;
  }

  /** `!=` is one `BangEqual` token. */
  lemma BangEqualExample()
    ensures ScanSpec("!=") == [Create(BangEqual, 0), Create(Eof, 0)]
  {
    BangEqualFirst();
    assert NextTokenSpec("!=", 2, CreateKeywordMap()) == Step(None, 2);
  }

  lemma BangAloneFirst()
    ensures NextTokenSpec("! ", 0, CreateKeywordMap()) == Step(Some(Create(Bang, 0)), 1)
  {
    var s, kw := "! ", CreateKeywordMap();
    assert RunEnd(s, 0, IsWhitespace) == 0;
    OperatorToken(s, 0, kw, Bang, BangEqual);
    assert LineAt(s, 1) == 0;
  }

  /** `!` followed by a space is `Bang`, and the space is skipped afterwards. */
  lemma BangAloneExample()
    ensures ScanSpec("! ") == [Create(Bang, 0), Create(Eof, 0)]
  {
    BangAloneFirst();
    assert RunEnd("! ", 1, IsWhitespace) == 2;
    assert NextTokenSpec("! ", 1, CreateKeywordMap()) == Step(None, 2);
  }

  lemma CommentLine()
    ensures RestOfLineEnd("// c\n+", 2) == 5 && LineAt("// c\n+", 5) == 1
  {
  }

  /** The `+` after the comment is never scanned; `Eof` carries line 1. */
  lemma CommentExample()
    ensures ScanSpec("// c\n+") == [Create(Eof, 1)]
  {
    var s, kw := "// c\n+", CreateKeywordMap();
    assert RunEnd(s, 0, IsWhitespace) == 0;
    CommentEndsScan(s, 0, kw);
    CommentLine();
  }

  lemma UnterminatedFirst()
    ensures NextTokenSpec("\"a\nb", 0, CreateKeywordMap()) == Step(None, 4)
  {
    var s, kw := "\"a\nb", CreateKeywordMap();
    assert RunEnd(s, 0, IsWhitespace) == 0;
    StringToken(s, 0, kw);
    assert s[1..] == "a\nb";
  }

  /** An unterminated string ends the scan, with the rest of the text consumed and its line feed counted. */
  lemma UnterminatedExample()
    ensures ScanSpec("\"a\nb") == [Create(Eof, 1)]
  {
    UnterminatedFirst();
    assert LineAt("\"a\nb", 4) == 1;
  }

  /** A char that starts no lexeme ends the scan. */
  lemma UnrecognisedExample()
    ensures ScanSpec("#+") == [Create(Eof, 0)]
  {
    var s, kw := "#+", CreateKeywordMap();
    assert RunEnd(s, 0, IsWhitespace) == 0;
    NoTokenIff(s, 0, kw);
    assert NextTokenSpec(s, 0, kw) == Step(None, 1);
    assert LineAt(s, 1) == 0;
  }

  lemma StringFirst()
    ensures NextTokenSpec("\"hi\"", 0, CreateKeywordMap()) == Step(Some(CreateWithString(String, 0, "hi")), 4)
  {
    var s, kw := "\"hi\"", CreateKeywordMap();
    assert RunEnd(s, 0, IsWhitespace) == 0;
    DispatchString(s, 0, kw);
    StringLiteralHi();
  }

  lemma StringLiteralHi()
    ensures StringStep("\"hi\"", 0) == Step(Some(CreateWithString(String, 0, "hi")), 4)
  {
    var s := "\"hi\"";
    assert StringClose(s, 1) == Some(3);
    ClosedString(s, 0, 3);
    assert s[1..3] == "hi";
    assert LineAt(s, 4) == 0;
  }

  /** A string literal's payload is the text between its quotes. */
  lemma StringExample()
    ensures ScanSpec("\"hi\"") == [CreateWithString(String, 0, "hi"), Create(Eof, 0)]
  {
    StringFirst();
    assert NextTokenSpec("\"hi\"", 4, CreateKeywordMap()) == Step(None, 4);
  }

  lemma ParseExample()
    ensures ParseDecimal("12.5") == Some(12.5)
  {
    var w := "12.5";
    assert RunEnd(w, 0, IsDigit) == 2;
    assert RunEnd(w, 3, IsDigit) == 4;
    assert w[..2] == "12" && w[3..] == "5";
    assert DigitsValue("12") == 12;
    assert FractionValue("5") == 0.5;
  }

  lemma NumberDotText()
    ensures NumberEnd("12.5.6", 1) == 4 && "12.5.6"[0..4] == "12.5" && LineAt("12.5.6", 4) == 0
  {
    var s := "12.5.6";
    assert RunEnd(s, 1, IsDigit) == 2;
    assert RunEnd(s, 3, IsDigit) == 4;
  }

  lemma NumberDotFirst()
    ensures NextTokenSpec("12.5.6", 0, CreateKeywordMap()) == Step(Some(CreateWithNumber(Number, 0, 12.5)), 4)
  {
    var s, kw := "12.5.6", CreateKeywordMap();
    assert RunEnd(s, 0, IsWhitespace) == 0;
    NumberToken(s, 0, kw);
    NumberDotText();
    ParseExample();
  }

  lemma NumberDotSecond()
    ensures NextTokenSpec("12.5.6", 4, CreateKeywordMap()) == Step(Some(Create(Dot, 0)), 5)
  {
    var s := "12.5.6";
    assert RunEnd(s, 4, IsWhitespace) == 4;
    assert LineAt(s, 5) == 0;
  }

  lemma NumberSixText()
    ensures NumberEnd("12.5.6", 6) == 6 && "12.5.6"[5..6] == "6" && LineAt("12.5.6", 6) == 0
    ensures ParseDecimal("6") == Some(6.0)
  {
    assert DigitsValue("6") == 6;
  }

  lemma NumberDotThird()
    ensures NextTokenSpec("12.5.6", 5, CreateKeywordMap()) == Step(Some(CreateWithNumber(Number, 0, 6.0)), 6)
  {
    var s, kw := "12.5.6", CreateKeywordMap();
    assert RunEnd(s, 5, IsWhitespace) == 5;
    NumberToken(s, 5, kw);
    NumberSixText();
  }

  /** A second `.` ends a number: `12.5.6` is a number, a dot and a number. */
  lemma NumberDotExample()
    ensures ScanSpec("12.5.6")
      == [CreateWithNumber(Number, 0, 12.5), Create(Dot, 0), CreateWithNumber(Number, 0, 6.0), Create(Eof, 0)]
  {
    NumberDotFirst();
    NumberDotSecond();
    NumberDotThird();
    assert NextTokenSpec("12.5.6", 6, CreateKeywordMap()) == Step(None, 6);
  }

  lemma KeywordText()
    ensures RunEnd("var x", 1, IsAsciiAlphanumeric) == 3 && "var x"[0..3] == "var" && LineAt("var x", 3) == 0
  {
  }

  lemma KeywordFirst()
    ensures NextTokenSpec("var x", 0, CreateKeywordMap()) == Step(Some(CreateWithString(Var, 0, "var")), 3)
  {
    var s, kw := "var x", CreateKeywordMap();
    assert RunEnd(s, 0, IsWhitespace) == 0;
    DispatchWord(s, 0, kw);
    KeywordText();
  }

  lemma IdentifierSecond()
    ensures NextTokenSpec("var x", 3, CreateKeywordMap()) == Step(Some(CreateWithString(Identifier, 0, "x")), 5)
  {
    var s, kw := "var x", CreateKeywordMap();
    assert RunEnd(s, 3, IsWhitespace) == 4;
    DispatchWord(s, 4, kw);
    assert RunEnd(s, 5, IsAsciiAlphanumeric) == 5;
    assert s[4..5] == "x";
    assert "x" !in kw;
    assert LineAt(s, 5) == 0;
  }

  /** A keyword carries its spelling; any other word is an identifier. */
  lemma KeywordExample()
    ensures ScanSpec("var x")
      == [CreateWithString(Var, 0, "var"), CreateWithString(Identifier, 0, "x"), Create(Eof, 0)]
  {
    KeywordFirst();
    IdentifierSecond();
    assert NextTokenSpec("var x", 5, CreateKeywordMap()) == Step(None, 5);
  }
}
