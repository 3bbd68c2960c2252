/**
 * Token kinds and tokens of the expression compiler (src/Token.h).
 *
 * Token.h declares only the first twelve kinds, but src/Parser.cpp and
 * src/semantic_analyzer.h also use PRINT, TRUE, FALSE, STRING, CHAR, HEX,
 * OCTAL, the two comment kinds and BOOL. One datatype covers the union.
 */
module Tokens {

  datatype Kind =
    | Illegal
    | EndOfFile
    | Identifier
    | Int
    | Assign
    | Plus
    | Minus
    | Asterisk
    | Slash
    | Semicolon
    | LParen
    | RParen
    // kinds used by the parser and the analyzer but missing from Token.h
    | Print
    | True
    | False
    | String
    | Char
    | Hex
    | Octal
    | CommentSingleLine
    | CommentMultiLine
    | Bool

  datatype Token = Token(kind: Kind, literal: string)

  /** Parser::isCommentToken */
  predicate IsComment(k: Kind) {
    k == CommentSingleLine || k == CommentMultiLine
  }

  const EofToken: Token := Token(EndOfFile, "")
}
