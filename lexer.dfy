/**
 * A stand-in for the lexer, whose internals are not part of this model:
 * it hands out the tokens its input lexes to, then end-of-input for ever.
 */
module Lexing {
  import opened Tokens

  class Lexer {
    /** The tokens the input lexes to. */
    const toks: seq<Token>
    /** How many tokens have been handed out so far. */
    var read: nat

    constructor (toks: seq<Token>)
      ensures this.toks == toks && read == 0
    {
      this.toks := toks;
      read := 0;
    }

    method NextToken() returns (t: Token)
      modifies this`read
      ensures t == TokenAt(toks, old(read)) && read == old(read) + 1
    {
      t := if read < |toks| then toks[read] else EofToken;
      read := read + 1;
    }
  }
}
