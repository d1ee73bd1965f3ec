/**
 * The tokens the parser consumes. The token package itself is not part of
 * this model: the kinds below are the ones the parser names, plus a few
 * further kinds so that examples can show tokens the parser has no handler for.
 */
module Tokens {

  datatype TokenType =
    | ILLEGAL
    | EOF
    | IDENT
    | INT
    | ASSIGN
    | PLUS
    | COMMA
    | SEMICOLON
    | LPAREN
    | RPAREN
    | LBRACE
    | RBRACE
    | FUNCTION
    | LET
    | RETURN

  /** A token: its kind and the text it was read from. */
  datatype Token = Token(kind: TokenType, literal: string)

  /** The end-of-input token the lexer keeps handing out once the input is used up. */
  const EofToken: Token := Token(EOF, "")

  /**
   * The i-th token the lexer hands out when its input lexes to `toks`:
   * the tokens in order, then the end-of-input token for ever.
   */
  function TokenAt(toks: seq<Token>, i: nat): Token
  {
    if i < |toks| then toks[i] else EofToken
  }
}
