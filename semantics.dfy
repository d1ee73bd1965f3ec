/**
 * What each parse function does, stated as a function of the token stream
 * and the cursor position `pos` (the index of the current token; the peek
 * token is the one at `pos + 1`). The methods of `Parsing.Parser` are proved
 * to compute exactly these.
 */
module Semantics {
  import opened Wrappers
  import opened Tokens
  import opened Ast

  /** Registered prefix parse function; parseIdentifier is the only one there is. */
  datatype PrefixParseFn = ParseIdentifierFn

  /** Registered infix parse function; the parser defines none, so a tag is all it has. */
  datatype InfixParseFn = InfixParseFn(name: string)

  /** "expected next token to be <expected>, got <got> instead" */
  datatype Diag = ExpectedNext(expected: TokenType, got: TokenType)

  /** The outcome of a parse function that may loop for ever. */
  datatype Run<T> = Halts(value: T) | Diverges

  /**
   * One statement parser's result: the statement, the diagnostics it
   * recorded, and the cursor position it left behind.
   */
  datatype Step = Step(stmt: Statement, diags: seq<Diag>, end: nat)

  /** The statements, the diagnostics and the final cursor position of a whole parse. */
  datatype Outcome = Outcome(statements: seq<Statement>, diags: seq<Diag>, end: nat)

  /** The first position at or after `from` that holds a semicolon, if any. */
  function FirstSemicolon(toks: seq<Token>, from: nat): (r: Option<nat>)
    ensures r.Some? ==> from <= r.value < |toks| && toks[r.value].kind == SEMICOLON
    decreases |toks| - from
  {
    if from >= |toks| then None
    else if toks[from].kind == SEMICOLON then Some(from)
    else FirstSemicolon(toks, from + 1)
  }

  /** No semicolon lies between `from` and the one FirstSemicolon finds, nor anywhere after `from` when it finds none. */
  lemma {:induction false} FirstSemicolonIsFirst(toks: seq<Token>, from: nat)
    ensures FirstSemicolon(toks, from).Some? ==>
      forall j :: from <= j < FirstSemicolon(toks, from).value ==> toks[j].kind != SEMICOLON
    ensures FirstSemicolon(toks, from).None? ==>
      forall j :: from <= j < |toks| ==> toks[j].kind != SEMICOLON
    decreases |toks| - from
  {
    if from < |toks| && toks[from].kind != SEMICOLON {
      FirstSemicolonIsFirst(toks, from + 1);
    }
  }

  /** What parseExpression returns with `cur` as the current token: the prefix handler's result, or nil. */
  function PrefixExpression(prefix: map<TokenType, PrefixParseFn>, cur: Token): Option<Expression>
  {
    if cur.kind !in prefix then None
    else match prefix[cur.kind]
      case ParseIdentifierFn => Some(Ident(Identifier(cur, cur.literal)))
  }

  /** parseLetStatement with the `let` token at `pos`. */
  function LetStep(toks: seq<Token>, pos: nat): (r: Step)
    ensures r.stmt.LetStatement? || r.stmt.NilLetStatement?
    ensures r.stmt.LetStatement? <==> TokenAt(toks, pos + 1).kind == IDENT && TokenAt(toks, pos + 2).kind == ASSIGN
    ensures r.stmt.LetStatement? ==>
      && r.diags == []
      && r.end == pos + 3
      && r.stmt.token == TokenAt(toks, pos)
      && r.stmt.name.token.kind == IDENT
      && r.stmt.name.value == TokenAt(toks, pos + 1).literal
    ensures r.stmt.NilLetStatement? ==>
      && pos <= r.end <= pos + 1
      && (r.end == pos <==> TokenAt(toks, pos + 1).kind != IDENT)
      && r.diags == [ExpectedNext(if r.end == pos then IDENT else ASSIGN, TokenAt(toks, r.end + 1).kind)]
      && TokenAt(toks, r.end + 1).kind != r.diags[0].expected
  {
    var name := TokenAt(toks, pos + 1);
    if name.kind != IDENT then
      Step(NilLetStatement, [ExpectedNext(IDENT, name.kind)], pos)
    else if TokenAt(toks, pos + 2).kind != ASSIGN then
      Step(NilLetStatement, [ExpectedNext(ASSIGN, TokenAt(toks, pos + 2).kind)], pos + 1)
    else
      // cur is the `=` here, never a semicolon, so exactly one more token is consumed
      Step(LetStatement(TokenAt(toks, pos), Identifier(name, name.literal)), [], pos + 3)
  }

  /** parseReturnStatement with the `return` token at `pos`: it stops at the first later semicolon, or never. */
  function ReturnStep(toks: seq<Token>, pos: nat): (r: Run<Step>)
    ensures r.Halts? ==> pos < r.value.end && r.value.diags == [] && r.value.stmt == ReturnStatement(TokenAt(toks, pos))
  {
    match FirstSemicolon(toks, pos + 1)
    case None => Diverges
    case Some(q) => Halts(Step(ReturnStatement(TokenAt(toks, pos)), [], q))
  }

  /**
   * parseReturnStatement returns exactly when a semicolon follows the
   * `return`, and then it stops on the first one.
   */
  lemma ReturnStopsAtFirstSemicolon(toks: seq<Token>, pos: nat)
    ensures ReturnStep(toks, pos).Halts? <==> exists j :: pos < j < |toks| && toks[j].kind == SEMICOLON
    ensures ReturnStep(toks, pos).Halts? ==>
      var e := ReturnStep(toks, pos).value.end;
      && e < |toks| && toks[e].kind == SEMICOLON
      && forall j :: pos < j < e ==> toks[j].kind != SEMICOLON
  {
    FirstSemicolonIsFirst(toks, pos + 1);
    if ReturnStep(toks, pos).Halts? {
      var e := ReturnStep(toks, pos).value.end;
      assert pos < e < |toks| && toks[e].kind == SEMICOLON;
    }
  }

  /** parseExpressionStatement with its first token at `pos`. */
  function ExpressionStep(toks: seq<Token>, pos: nat, prefix: map<TokenType, PrefixParseFn>): (r: Step)
    ensures r.diags == []
    ensures r.stmt.ExpressionStatement? && r.stmt.token == TokenAt(toks, pos)
    ensures r.stmt.expression.Some? <==> TokenAt(toks, pos).kind in prefix
    ensures r.stmt.expression.Some? ==>
      r.stmt.expression.value.ident.token == TokenAt(toks, pos) &&
      r.stmt.expression.value.ident.value == TokenAt(toks, pos).literal
    ensures pos <= r.end <= pos + 1
    ensures r.end == pos + 1 <==> TokenAt(toks, pos + 1).kind == SEMICOLON
  {
    var stmt := ExpressionStatement(TokenAt(toks, pos), PrefixExpression(prefix, TokenAt(toks, pos)));
    if TokenAt(toks, pos + 1).kind == SEMICOLON then Step(stmt, [], pos + 1) else Step(stmt, [], pos)
  }

  /** parseStatement: dispatch on the kind of the current token. */
  function StatementStep(toks: seq<Token>, pos: nat, prefix: map<TokenType, PrefixParseFn>): (r: Run<Step>)
    ensures r.Diverges? ==> TokenAt(toks, pos).kind == RETURN
    ensures r.Halts? ==> pos <= r.value.end && |r.value.diags| <= 1
    ensures r.Halts? ==> (r.value.diags != [] <==> r.value.stmt.NilLetStatement?)
  {
    match TokenAt(toks, pos).kind
    case LET => Halts(LetStep(toks, pos))
    case RETURN => ReturnStep(toks, pos)
    case _ => Halts(ExpressionStep(toks, pos, prefix))
  }

  /** Prefix the statements and diagnostics of earlier iterations to the outcome of the rest of a parse. */
  function Prepend(stmts: seq<Statement>, diags: seq<Diag>, rest: Run<Outcome>): Run<Outcome>
  {
    match rest
    case Diverges => Diverges
    case Halts(o) => Halts(Outcome(stmts + o.statements, diags + o.diags, o.end))
  }

  /**
   * ParseProgram from cursor position `pos`: one statement per iteration,
   * then one more token, until the current token is EOF.
   */
  function ProgramFrom(toks: seq<Token>, pos: nat, prefix: map<TokenType, PrefixParseFn>): (r: Run<Outcome>)
    ensures r.Halts? ==> pos <= r.value.end && TokenAt(toks, r.value.end).kind == EOF
    ensures r.Halts? ==> |r.value.statements| <= r.value.end - pos
    ensures r.Halts? && TokenAt(toks, pos).kind != EOF ==> r.value.statements != []
    decreases |toks| - pos, 1
  {
    if TokenAt(toks, pos).kind == EOF then Halts(Outcome([], [], pos))
    else Continue(toks, pos, StatementStep(toks, pos, prefix), prefix)
  }

  /** The rest of ParseProgram once the statement at `pos` has been parsed with result `step`. */
  function Continue(toks: seq<Token>, pos: nat, step: Run<Step>, prefix: map<TokenType, PrefixParseFn>): (r: Run<Outcome>)
    requires pos < |toks|
    requires step.Halts? ==> pos <= step.value.end
    ensures r.Halts? ==> step.Halts? && pos < r.value.end && TokenAt(toks, r.value.end).kind == EOF
    ensures r.Halts? ==> 0 < |r.value.statements| <= r.value.end - pos
    decreases |toks| - pos, 0
  {
    match step
    case Diverges => Diverges
    case Halts(s) => Prepend([s.stmt], s.diags, ProgramFrom(toks, s.end + 1, prefix))
  }

  lemma PrependNothing(rest: Run<Outcome>)
    ensures Prepend([], [], rest) == rest
  {
    match rest
    case Diverges =>
    case Halts(o) => assert [] + o.statements == o.statements && [] + o.diags == o.diags;
  }

  lemma PrependPrepend(stmts: seq<Statement>, diags: seq<Diag>, stmts': seq<Statement>, diags': seq<Diag>, rest: Run<Outcome>)
    ensures Prepend(stmts, diags, Prepend(stmts', diags', rest)) == Prepend(stmts + stmts', diags + diags', rest)
  {
    match rest
    case Diverges =>
    case Halts(o) =>
      assert stmts + (stmts' + o.statements) == (stmts + stmts') + o.statements;
      assert diags + (diags' + o.diags) == (diags + diags') + o.diags;
  }

  /** One iteration of the driver loop, as an equation on ProgramFrom. */
  lemma ProgramFromUnfold(toks: seq<Token>, pos: nat, prefix: map<TokenType, PrefixParseFn>)
    requires TokenAt(toks, pos).kind != EOF
    ensures StatementStep(toks, pos, prefix).Diverges? ==> ProgramFrom(toks, pos, prefix).Diverges?
    ensures StatementStep(toks, pos, prefix).Halts? ==>
      var s := StatementStep(toks, pos, prefix).value;
      ProgramFrom(toks, pos, prefix) == Prepend([s.stmt], s.diags, ProgramFrom(toks, s.end + 1, prefix))
  {
  }

  /** One iteration of the driver loop, stated on the loop's invariant. */
  lemma DriverIteration(toks: seq<Token>, start: nat, pos: nat, prefix: map<TokenType, PrefixParseFn>,
                        stmts: seq<Statement>, diags: seq<Diag>)
    requires TokenAt(toks, pos).kind != EOF
    requires ProgramFrom(toks, start, prefix) == Prepend(stmts, diags, ProgramFrom(toks, pos, prefix))
    ensures StatementStep(toks, pos, prefix).Diverges? ==> ProgramFrom(toks, start, prefix).Diverges?
    ensures StatementStep(toks, pos, prefix).Halts? ==>
      var s := StatementStep(toks, pos, prefix).value;
      ProgramFrom(toks, start, prefix) == Prepend(stmts + [s.stmt], diags + s.diags, ProgramFrom(toks, s.end + 1, prefix))
  {
    ProgramFromUnfold(toks, pos, prefix);
    if StatementStep(toks, pos, prefix).Halts? {
      var s := StatementStep(toks, pos, prefix).value;
      PrependPrepend(stmts, diags, [s.stmt], s.diags, ProgramFrom(toks, s.end + 1, prefix));
    }
  }

  /** The driver loop's exit: the invariant then gives the whole outcome. */
  lemma DriverDone(toks: seq<Token>, start: nat, pos: nat, prefix: map<TokenType, PrefixParseFn>,
                   stmts: seq<Statement>, diags: seq<Diag>)
    requires TokenAt(toks, pos).kind == EOF
    requires ProgramFrom(toks, start, prefix) == Prepend(stmts, diags, ProgramFrom(toks, pos, prefix))
    ensures ProgramFrom(toks, start, prefix) == Halts(Outcome(stmts, diags, pos))
  {
    assert stmts + [] == stmts && diags + [] == diags;
  }
}
