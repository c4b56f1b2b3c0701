/** The lexical vocabulary: token kinds and the token record. */
module Tokens {
  import opened Values

  /**
   * Every token kind the scanner and the parser mention. `Dot` and `KwBool`
   * have parser rules but are never produced by the scanner.
   */
  datatype TokenType =
    | Colon | LeftParen | RightParen | LeftBrace | RightBrace
    | LeftBracket | RightBracket | Comma | Dot | Semicolon
    | Slash | Equal | EqualEqual | Bang | BangEqual
    | Plus | Incremento | Minus | Decremento | Star
    | Greater | GreaterEqual | Less | LessEqual | Percent
    | And | Or
    | Identifier | Number | String
    | KwVar | KwFun | KwReturn | KwPrint | KwFor | KwWhile
    | KwInt | KwFloat | KwBool | KwIf | KwElse
    | KwTrue | KwFalse | KwNil
    | KwSwitch | KwCase | KwDefault | KwInput | KwBreak
    | Eof

  /**
   * A token: its kind, the exact source text, its literal value (`Nil` when
   * it has none), its line and the offset of its first character.
   */
  datatype Token = Token(kind: TokenType, lexeme: string, literal: Value, line: int, column: int)
}
