/** The shape of the AST nodes the parser builds, limited to the fields it sets. */
module Ast {
  import opened Tokens
  import opened Wrappers

  datatype Identifier = Identifier(token: Token, value: string)

  /** Expressions; an identifier is the only kind the parser can build. */
  datatype Expression = Ident(ident: Identifier)

  datatype Statement =
      /** `let <name> = ...`; the value expression is never filled in. */
    | LetStatement(token: Token, name: Identifier)
      /**
       * What a failed let statement returns: a nil `*LetStatement`. Wrapped in
       * the `Statement` interface it is not nil, so the driver keeps it.
       */
    | NilLetStatement
      /** `return ...`; the returned expression is never filled in. */
    | ReturnStatement(token: Token)
      /** An expression used as a statement; `None` when no prefix handler applied. */
    | ExpressionStatement(token: Token, expression: Option<Expression>)

  datatype Program = Program(statements: seq<Statement>)
}
