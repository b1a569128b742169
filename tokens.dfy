/** Lexical categories, runtime values and tokens shared by scanner, parser and interpreter. */
module Tokens {

  /** The token categories produced by the scanner and consumed by the parser. */
  datatype TokenType =
    // single-character tokens
    | LeftParen | RightParen | LeftBrace | RightBrace
    | Comma | Dot | Minus | Plus | Semicolon | Slash | Star
    // one- or two-character tokens
    | Bang | BangEqual | Equal | EqualEqual
    | Greater | GreaterEqual | Less | LessEqual
    // literals and names
    | Identifier | String | Number
    // keywords the parser looks at
    | True | False | Nil
    | Eof

  /** The dynamically typed values of the language (`Object` in the Java code). */
  datatype Value = Null | Bool(b: bool) | Num(x: real) | Str(s: string)

  /** A token: category, exact source text, decoded literal (`Null` when none) and line. */
  datatype Token = Token(kind: TokenType, lexeme: string, literal: Value, line: int)
}
