/**
 * The token data model of rust-lox: the closed `TokenType` enumeration, the
 * optional `TokenValue` payload and the `Token` record with its three
 * constructors.
 */
module Tokens {

  import opened Wrappers

  /** The 39 kinds of token, in declaration order. */
  datatype TokenType =
    // Single-character tokens.
    | LeftParen | RightParen | LeftBrace | RightBrace | Comma | Dot
    | Minus | Plus | Semicolon | Slash | Star
    // One or two character tokens.
    | Bang | BangEqual | Equal | EqualEqual
    | Greater | GreaterEqual | Less | LessEqual
    // Literals.
    | Identifier | String | Number
    // Keywords.
    | And | Class | Else | False | Fun | For | If | Nil
    | Or | Print | Return | Super | This | True | Var | While
    | Eof

  /**
   * A literal payload. Rust's `f64` is represented by the exact value of the
   * decimal text it was parsed from (rounding to binary64 is not modelled).
   */
  datatype TokenValue = StringValue(text: string) | NumberValue(number: real)

  datatype Token = Token(tokenType: TokenType, value: Option<TokenValue>, line: nat)

  /** `Token::create`: a token without a payload. */
  function Create(tokenType: TokenType, line: nat): (t: Token)
    ensures t.tokenType == tokenType && t.line == line
    ensures t.value == None
  {
    Token(tokenType, None, line)
  }

  /** `Token::create_with_string`: a token whose payload is the text `value`. */
  function CreateWithString(tokenType: TokenType, line: nat, value: string): (t: Token)
    ensures t.tokenType == tokenType && t.line == line
    ensures t.value == Some(StringValue(value))
  {
    Token(tokenType, Some(StringValue(value)), line)
  }

  /** `Token::create_with_number`: a token whose payload is the number `value`. */
  function CreateWithNumber(tokenType: TokenType, line: nat, value: real): (t: Token)
    ensures t.tokenType == tokenType && t.line == line
    ensures t.value == Some(NumberValue(value))
  {
    Token(tokenType, Some(NumberValue(value)), line)
  }

  /** The four groups of the declaration, plus `Eof`. */
  predicate IsSingleChar(t: TokenType) {
    || t.LeftParen? || t.RightParen? || t.LeftBrace? || t.RightBrace? || t.Comma? || t.Dot?
    || t.Minus? || t.Plus? || t.Semicolon? || t.Slash? || t.Star?
  }

  predicate IsOneOrTwoChar(t: TokenType) {
    || t.Bang? || t.BangEqual? || t.Equal? || t.EqualEqual?
    || t.Greater? || t.GreaterEqual? || t.Less? || t.LessEqual?
  }

  predicate IsLiteral(t: TokenType) {
    t.Identifier? || t.String? || t.Number?
  }

  predicate IsKeyword(t: TokenType) {
    || t.And? || t.Class? || t.Else? || t.False? || t.Fun? || t.For? || t.If? || t.Nil?
    || t.Or? || t.Print? || t.Return? || t.Super? || t.This? || t.True? || t.Var? || t.While?
  }

  /**
   * The four groups of the declaration and `Eof` partition the enumeration:
   * every kind is in exactly one of them.
   */
  lemma TokenTypeGroups(t: TokenType)
    ensures IsSingleChar(t) || IsOneOrTwoChar(t) || IsLiteral(t) || IsKeyword(t) || t == Eof
    ensures IsSingleChar(t) ==> !IsOneOrTwoChar(t) && !IsLiteral(t) && !IsKeyword(t) && t != Eof
    ensures IsOneOrTwoChar(t) ==> !IsLiteral(t) && !IsKeyword(t) && t != Eof
    ensures IsLiteral(t) ==> !IsKeyword(t) && t != Eof
    ensures IsKeyword(t) ==> t != Eof
  {
  }
}
