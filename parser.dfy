/**
 * The parser: a two-token window over the lexer's output, an append-only
 * list of diagnostics, and the prefix and infix handler registries.
 */
module Parsing {
  import opened Wrappers
  import opened Tokens
  import opened Ast
  import opened Lexing
  import opened Semantics

  // Precedence ranks, lowest first. The expression parser receives one but never consults it.
  const LOWEST: int := 1
  const EQUALS: int := 2
  const LESSGREATER: int := 3
  const SUM: int := 4
  const PRODUCT: int := 5
  const PREFIX: int := 6
  const CALL: int := 7

  class Parser {
    const l: Lexer
    var curToken: Token
    var peekToken: Token
    var errors: seq<Diag>
    var prefixParseFns: map<TokenType, PrefixParseFn>
    var infixParseFns: map<TokenType, InfixParseFn>

    /** The window holds the two tokens the lexer handed out last. */
    ghost predicate Valid()
      reads this, l
    {
      2 <= l.read &&
      curToken == TokenAt(l.toks, l.read - 2) &&
      peekToken == TokenAt(l.toks, l.read - 1)
    }

    /** The index of the current token in the lexer's output. */
    ghost function Pos(): nat
      reads this, l
      requires Valid()
    {
      l.read - 2
    }

    constructor New(l: Lexer)
      modifies l
      ensures this.l == l && Valid()
      ensures l.read == old(l.read) + 2
      ensures curToken == TokenAt(l.toks, old(l.read)) && peekToken == TokenAt(l.toks, old(l.read) + 1)
      ensures errors == []
      ensures prefixParseFns == map[IDENT := ParseIdentifierFn] && infixParseFns == map[]
    {
      this.l := l;
      errors := [];
      new;
      prefixParseFns := map[];
      RegisterPrefix(IDENT, ParseIdentifierFn);
      infixParseFns := map[];
      NextToken();
      NextToken();
    }

    /** Hands out the diagnostics recorded so far; it changes nothing. */
    method Errors() returns (errs: seq<Diag>)
      ensures errs == errors
    {
      errs := errors;
    }

    method PeekError(t: TokenType)
      modifies this`errors
      ensures errors == old(errors) + [ExpectedNext(t, peekToken.kind)]
    {
      errors := errors + [ExpectedNext(t, peekToken.kind)];
    }

    method NextToken()
      modifies this`curToken, this`peekToken, l
      ensures curToken == old(peekToken)
      ensures peekToken == TokenAt(l.toks, old(l.read)) && l.read == old(l.read) + 1
      ensures old(Valid()) ==> Valid() && Pos() == old(Pos()) + 1
      ensures errors == old(errors)
      ensures prefixParseFns == old(prefixParseFns) && infixParseFns == old(infixParseFns)
    {
      curToken := peekToken;
      peekToken := l.NextToken();
    }

    method ParseProgram() returns (r: Run<Program>)
      requires Valid()
      modifies this`curToken, this`peekToken, this`errors, l
      ensures Valid()
      ensures r.Diverges? <==> ProgramFrom(l.toks, old(Pos()), prefixParseFns).Diverges?
      ensures r.Halts? ==>
        var o := ProgramFrom(l.toks, old(Pos()), prefixParseFns).value;
        && r.value == Program(o.statements)
        && errors == old(errors) + o.diags
        && Pos() == o.end
        && curToken.kind == EOF
    {
      var program := Program([]);
      ghost var toks, pf, start := l.toks, prefixParseFns, Pos();
      ghost var diags: seq<Diag> := [];
      PrependNothing(ProgramFrom(toks, start, pf));
      while curToken.kind != EOF
        invariant Valid() && l.toks == toks && prefixParseFns == pf && start <= Pos()
        invariant errors == old(errors) + diags
        invariant ProgramFrom(toks, start, pf) == Prepend(program.statements, diags, ProgramFrom(toks, Pos(), pf))
        decreases |toks| - Pos()
      {
        DriverIteration(toks, start, Pos(), pf, program.statements, diags);
        ghost var step := StatementStep(toks, Pos(), pf);
        var stmt := ParseStatement();
        if stmt.Diverges? {
          return Diverges;
        }
        // a failed let is a non-nil Statement, so every iteration appends
        program := Program(program.statements + [stmt.value]);
        diags := diags + step.value.diags;
        NextToken();
      }
      DriverDone(toks, start, Pos(), pf, program.statements, diags);
      r := Halts(program);
    }

    method ParseStatement() returns (r: Run<Statement>)
      requires Valid()
      modifies this`curToken, this`peekToken, this`errors, l
      ensures Valid()
      ensures r.Diverges? <==> StatementStep(l.toks, old(Pos()), prefixParseFns).Diverges?
      ensures r.Halts? ==>
        var s := StatementStep(l.toks, old(Pos()), prefixParseFns).value;
        r.value == s.stmt && errors == old(errors) + s.diags && Pos() == s.end
    {
      match curToken.kind
      case LET =>
        var stmt := ParseLetStatement();
        r := Halts(stmt);
      case RETURN =>
        r := ParseReturnStatement();
      case _ =>
        var stmt := ParseExpressionStatement();
        r := Halts(stmt);
    }

    method ParseLetStatement() returns (stmt: Statement)
      requires Valid()
      modifies this`curToken, this`peekToken, this`errors, l
      ensures Valid()
      ensures var s := LetStep(l.toks, old(Pos()));
        stmt == s.stmt && errors == old(errors) + s.diags && Pos() == s.end
    {
      var letToken := curToken;
      var ok := ExpectPeek(IDENT);
      if !ok {
        return NilLetStatement;
      }
      var name := Identifier(curToken, curToken.literal);
      ok := ExpectPeek(ASSIGN);
      if !ok {
        return NilLetStatement;
      }
      if !CurTokenIs(SEMICOLON) {
        NextToken();
      }
      stmt := LetStatement(letToken, name);
    }

    predicate CurTokenIs(t: TokenType)
      reads this, l
      requires Valid()
      ensures CurTokenIs(t) <==> TokenAt(l.toks, Pos()).kind == t
    {
      curToken.kind == t
    }

    predicate PeekTokenIs(t: TokenType)
      reads this, l
      requires Valid()
      ensures PeekTokenIs(t) <==> TokenAt(l.toks, Pos() + 1).kind == t
    {
      peekToken.kind == t
    }

    method ExpectPeek(t: TokenType) returns (ok: bool)
      requires Valid()
      modifies this`curToken, this`peekToken, this`errors, l
      ensures Valid()
      ensures ok <==> old(peekToken).kind == t
      ensures ok ==> Pos() == old(Pos()) + 1 && curToken == old(peekToken) && errors == old(errors)
      ensures !ok ==>
        && Pos() == old(Pos())
        && curToken == old(curToken) && peekToken == old(peekToken)
        && errors == old(errors) + [ExpectedNext(t, old(peekToken).kind)]
    {
      if PeekTokenIs(t) {
        NextToken();
        ok := true;
      } else {
        PeekError(t);
        ok := false;
      }
    }

    method ParseReturnStatement() returns (r: Run<Statement>)
      requires Valid()
      modifies this`curToken, this`peekToken, l
      ensures Valid()
      ensures r.Diverges? <==> ReturnStep(l.toks, old(Pos())).Diverges?
      ensures r.Halts? ==>
        var s := ReturnStep(l.toks, old(Pos())).value;
        r.value == s.stmt && Pos() == s.end
    {
      var stmt := ReturnStatement(curToken);
      NextToken();
      while !CurTokenIs(SEMICOLON)
        invariant Valid() && old(Pos()) < Pos()
        invariant stmt == ReturnStatement(TokenAt(l.toks, old(Pos())))
        invariant FirstSemicolon(l.toks, old(Pos()) + 1) == FirstSemicolon(l.toks, Pos())
        decreases |l.toks| - Pos()
      {
        if |l.toks| + 2 <= l.read {
          // the window is past the input: cur stays EOF and the loop never exits
          return Diverges;
        }
        NextToken();
      }
      r := Halts(stmt);
    }

    method ParseExpressionStatement() returns (stmt: Statement)
      requires Valid()
      modifies this`curToken, this`peekToken, l
      ensures Valid()
      ensures var s := ExpressionStep(l.toks, old(Pos()), prefixParseFns);
        stmt == s.stmt && Pos() == s.end
    {
      var exprToken := curToken;
      var expression := ParseExpression(LOWEST);
      stmt := ExpressionStatement(exprToken, expression);
      if PeekTokenIs(SEMICOLON) {
        NextToken();
      }
    }

    /** Applies the prefix handler of the current token, if any; the precedence is not consulted. */
    method ParseExpression(precedence: int) returns (e: Option<Expression>)
      ensures e.Some? <==> curToken.kind in prefixParseFns
      ensures e.Some? ==> e.value.ident.token == curToken && e.value.ident.value == curToken.literal
      ensures e == PrefixExpression(prefixParseFns, curToken)
    {
      if curToken.kind !in prefixParseFns {
        return None;
      }
      match prefixParseFns[curToken.kind]
      case ParseIdentifierFn =>
        e := Some(ParseIdentifier());
    }

    /** What the handler registered for identifiers builds from the current token. */
    function ParseIdentifier(): (e: Expression)
      reads this
      ensures Some(e) == PrefixExpression(map[curToken.kind := ParseIdentifierFn], curToken)
    {
      Ident(Identifier(curToken, curToken.literal))
    }

    method RegisterPrefix(tokenType: TokenType, fn: PrefixParseFn)
      modifies this`prefixParseFns
      ensures prefixParseFns == old(prefixParseFns)[tokenType := fn]
    {
      prefixParseFns := prefixParseFns[tokenType := fn];
    }

    method RegisterInfix(tokenType: TokenType, fn: InfixParseFn)
      modifies this`infixParseFns
      ensures infixParseFns == old(infixParseFns)[tokenType := fn]
    {
      infixParseFns := infixParseFns[tokenType := fn];
    }
  }

  /**
   * How the parser is used: lex, construct, parse, read the diagnostics.
   * The result is that of ProgramFrom from the first token with only the
   * identifier handler registered.
   */
  method Parse(toks: seq<Token>) returns (r: Run<Program>, errs: seq<Diag>)
    ensures r.Diverges? <==> ProgramFrom(toks, 0, map[IDENT := ParseIdentifierFn]).Diverges?
    ensures r.Halts? ==>
      var o := ProgramFrom(toks, 0, map[IDENT := ParseIdentifierFn]).value;
      r.value == Program(o.statements) && errs == o.diags
  {
    var l := new Lexer(toks);
    var p := new Parser.New(l);
    r := p.ParseProgram();
    errs := p.Errors();
  }
}
