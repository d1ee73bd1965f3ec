/** What the parser promises over whole token streams, proved from the step functions. */
module Properties {
  import opened Wrappers
  import opened Tokens
  import opened Ast
  import opened Semantics

  /** The identifier registry the constructor leaves behind. */
  const InitialPrefix: map<TokenType, PrefixParseFn> := map[IDENT := ParseIdentifierFn]

  const NoDiags: seq<Diag> := []

  /** The number of failed let statements among `stmts`. */
  function FailedLets(stmts: seq<Statement>): nat
  {
    if stmts == [] then 0
    else (if stmts[0].NilLetStatement? then 1 else 0) + FailedLets(stmts[1..])
  }

  /** One diagnostic per failed let statement, each about the token after `let` or after its name. */
  ghost predicate DiagsAccounted(stmts: seq<Statement>, diags: seq<Diag>)
  {
    && |diags| == FailedLets(stmts)
    && forall i :: 0 <= i < |diags| ==> diags[i].expected == IDENT || diags[i].expected == ASSIGN
  }

  lemma StepDiagsAccounted(toks: seq<Token>, pos: nat, prefix: map<TokenType, PrefixParseFn>)
    requires StatementStep(toks, pos, prefix).Halts?
    ensures var s := StatementStep(toks, pos, prefix).value; DiagsAccounted([s.stmt], s.diags)
  {
    var s := StatementStep(toks, pos, prefix).value;
    assert [s.stmt][1..] == [];
  }

  lemma DiagsAccountedCons(stmt: Statement, diags: seq<Diag>, rest: Outcome)
    requires DiagsAccounted([stmt], diags) && DiagsAccounted(rest.statements, rest.diags)
    ensures DiagsAccounted([stmt] + rest.statements, diags + rest.diags)
  {
    var stmts := [stmt] + rest.statements;
    assert stmts[0] == stmt && stmts[1..] == rest.statements;
    assert [stmt][1..] == [];
    assert FailedLets(stmts) == FailedLets([stmt]) + FailedLets(rest.statements);
    forall i | |diags| <= i < |diags + rest.diags|
      ensures (diags + rest.diags)[i] == rest.diags[i - |diags|]
    {
    }
  }

  /**
   * Every diagnostic comes from a failed let statement, one each: the
   * expression parser records none, even when no prefix handler applies.
   */
  lemma {:induction false} DiagnosticsAreFailedLets(toks: seq<Token>, pos: nat, prefix: map<TokenType, PrefixParseFn>)
    ensures ProgramFrom(toks, pos, prefix).Halts? ==>
      DiagsAccounted(ProgramFrom(toks, pos, prefix).value.statements, ProgramFrom(toks, pos, prefix).value.diags)
    decreases |toks| - pos
  {
    if TokenAt(toks, pos).kind == EOF {
      assert ProgramFrom(toks, pos, prefix) == Halts(Outcome([], [], pos));
    } else if StatementStep(toks, pos, prefix).Halts? {
      var s := StatementStep(toks, pos, prefix).value;
      DiagnosticsAreFailedLets(toks, s.end + 1, prefix);
      StepDiagsAccounted(toks, pos, prefix);
      ProgramFromUnfold(toks, pos, prefix);
      var rest := ProgramFrom(toks, s.end + 1, prefix);
      if rest.Halts? {
        DiagsAccountedCons(s.stmt, s.diags, rest.value);
      }
    }
  }

  /** If every `return` has a semicolon somewhere after it, ParseProgram returns. */
  lemma {:induction false} HaltsWhenReturnsTerminated(toks: seq<Token>, pos: nat, prefix: map<TokenType, PrefixParseFn>)
    requires forall i :: pos <= i < |toks| && toks[i].kind == RETURN ==>
      exists j :: i < j < |toks| && toks[j].kind == SEMICOLON
    ensures ProgramFrom(toks, pos, prefix).Halts?
    decreases |toks| - pos
  {
    if TokenAt(toks, pos).kind != EOF {
      var step := StatementStep(toks, pos, prefix);
      if TokenAt(toks, pos).kind == RETURN {
        assert toks[pos].kind == RETURN;
        ReturnStopsAtFirstSemicolon(toks, pos);
      }
      HaltsWhenReturnsTerminated(toks, step.value.end + 1, prefix);
    }
  }

  /** A `return` with no semicolon after it keeps ParseProgram looping for ever. */
  lemma DivergesOnUnterminatedReturn(toks: seq<Token>, pos: nat, prefix: map<TokenType, PrefixParseFn>)
    requires TokenAt(toks, pos).kind == RETURN
    requires forall j :: pos < j < |toks| ==> toks[j].kind != SEMICOLON
    ensures ProgramFrom(toks, pos, prefix).Diverges?
  {
    ReturnStopsAtFirstSemicolon(toks, pos);
  }

  /** Input that is only the end-of-input token gives no statements and no diagnostics. */
  lemma EmptyInput(toks: seq<Token>, prefix: map<TokenType, PrefixParseFn>)
    requires TokenAt(toks, 0).kind == EOF
    ensures ProgramFrom(toks, 0, prefix) == Halts(Outcome([], [], 0))
  {
  }

  // ---- Programs made of `let <name> = <value>;` lines ----

  /** A line `let <name> = <value>;` whose value is a single token. */
  datatype LetLine = LetLine(name: string, value: Token)

  const LetToken: Token := Token(LET, "let")
  const AssignToken: Token := Token(ASSIGN, "=")
  const SemicolonToken: Token := Token(SEMICOLON, ";")

  function LineTokens(line: LetLine): seq<Token>
  {
    [LetToken, Token(IDENT, line.name), AssignToken, line.value, SemicolonToken]
  }

  /** The tokens of `lines`, one line after another. */
  function LetTokens(lines: seq<LetLine>): (toks: seq<Token>)
    ensures |toks| == 5 * |lines|
  {
    if lines == [] then [] else LineTokens(lines[0]) + LetTokens(lines[1..])
  }

  /** The let statement a line yields. */
  function LineLet(line: LetLine): Statement
  {
    LetStatement(LetToken, Identifier(Token(IDENT, line.name), line.name))
  }

  /**
   * The statements ParseProgram yields for `lines`: per line the let
   * statement, then an expression statement for its semicolon, because the
   * let statement consumes only the value's first token and the driver
   * dispatches from the next one.
   */
  function LetLineStatements(lines: seq<LetLine>, prefix: map<TokenType, PrefixParseFn>): (r: seq<Statement>)
    ensures |r| == 2 * |lines|
  {
    if lines == [] then []
    else
      var line := [LineLet(lines[0]), ExpressionStatement(SemicolonToken, PrefixExpression(prefix, SemicolonToken))];
      line + LetLineStatements(lines[1..], prefix)
  }

  lemma {:induction false} LetLineStatementsAt(lines: seq<LetLine>, prefix: map<TokenType, PrefixParseFn>, i: nat)
    requires i < |lines|
    ensures LetLineStatements(lines, prefix)[2 * i] == LineLet(lines[i])
    ensures LetLineStatements(lines, prefix)[2 * i + 1]
      == ExpressionStatement(SemicolonToken, PrefixExpression(prefix, SemicolonToken))
  {
    if i > 0 {
      LetLineStatementsAt(lines[1..], prefix, i - 1);
      assert lines[1..][i - 1] == lines[i];
    }
  }

  /** The tokens from `p` on start with `line`, and no semicolon follows it. */
  ghost predicate LineAt(toks: seq<Token>, p: nat, line: LetLine)
  {
    && TokenAt(toks, p) == LetToken && TokenAt(toks, p + 1) == Token(IDENT, line.name)
    && TokenAt(toks, p + 2) == AssignToken && TokenAt(toks, p + 4) == SemicolonToken
    && TokenAt(toks, p + 5).kind != SEMICOLON
  }

  /** From `p` on, `toks` is `lines`, one line after another, followed by the end of input. */
  ghost predicate LinesAt(toks: seq<Token>, p: nat, lines: seq<LetLine>)
    decreases |lines|
  {
    if lines == [] then TokenAt(toks, p).kind == EOF
    else LineAt(toks, p, lines[0]) && LinesAt(toks, p + 5, lines[1..])
  }

  /** After any tokens `pre`, the tokens of `lines` are these lines, and the end of input follows. */
  lemma {:induction false} LetTokensLinesAt(pre: seq<Token>, lines: seq<LetLine>)
    ensures LinesAt(pre + LetTokens(lines), |pre|, lines)
    decreases |lines|
  {
    var toks := pre + LetTokens(lines);
    if lines == [] {
      assert toks == pre;
    } else {
      var pre' := pre + LineTokens(lines[0]);
      LetTokensLinesAt(pre', lines[1..]);
      assert toks == pre' + LetTokens(lines[1..]);
      assert LineAt(toks, |pre|, lines[0]) by {
        assert forall k :: 0 <= k < 5 ==> toks[|pre| + k] == LineTokens(lines[0])[k];
        if lines[1..] != [] {
          assert toks[|pre| + 5] == LetTokens(lines[1..])[0] == LetToken;
        }
      }
    }
  }

  /** The driver takes a let line in two iterations: the let statement, then its semicolon. */
  lemma LetLineIterations(toks: seq<Token>, p: nat, line: LetLine, prefix: map<TokenType, PrefixParseFn>)
    requires LineAt(toks, p, line)
    ensures ProgramFrom(toks, p, prefix) == Prepend([LineLet(line)], [], ProgramFrom(toks, p + 4, prefix))
    ensures ProgramFrom(toks, p + 4, prefix)
      == Prepend([ExpressionStatement(SemicolonToken, PrefixExpression(prefix, SemicolonToken))], [], ProgramFrom(toks, p + 5, prefix))
  {
    assert StatementStep(toks, p, prefix) == Halts(Step(LineLet(line), [], p + 3));
    assert StatementStep(toks, p + 4, prefix)
      == Halts(Step(ExpressionStatement(SemicolonToken, PrefixExpression(prefix, SemicolonToken)), [], p + 4));
    ProgramFromUnfold(toks, p, prefix);
    ProgramFromUnfold(toks, p + 4, prefix);
  }

  /** Two driver iterations without diagnostics, followed by the rest of the parse. */
  lemma TwoSteps(toks: seq<Token>, p: nat, prefix: map<TokenType, PrefixParseFn>, a: Statement, b: Statement, rest: Outcome)
    requires ProgramFrom(toks, p, prefix) == Prepend([a], [], ProgramFrom(toks, p + 4, prefix))
    requires ProgramFrom(toks, p + 4, prefix) == Prepend([b], [], ProgramFrom(toks, p + 5, prefix))
    requires ProgramFrom(toks, p + 5, prefix) == Halts(rest) && rest.diags == []
    ensures ProgramFrom(toks, p, prefix) == Halts(Outcome([a, b] + rest.statements, [], rest.end))
  {
    assert NoDiags + (NoDiags + NoDiags) == NoDiags;
    assert [a] + ([b] + rest.statements) == [a, b] + rest.statements;
  }

  /** A let line in front of a parse that halts without diagnostics adds its two entries. */
  lemma LetLineCons(toks: seq<Token>, p: nat, line: LetLine, prefix: map<TokenType, PrefixParseFn>, rest: Outcome)
    requires LineAt(toks, p, line)
    requires ProgramFrom(toks, p + 5, prefix) == Halts(rest) && rest.diags == []
    ensures ProgramFrom(toks, p, prefix) == Halts(Outcome(
      [LineLet(line), ExpressionStatement(SemicolonToken, PrefixExpression(prefix, SemicolonToken))] + rest.statements,
      [], rest.end))
  {
    LetLineIterations(toks, p, line, prefix);
    TwoSteps(toks, p, prefix, LineLet(line), ExpressionStatement(SemicolonToken, PrefixExpression(prefix, SemicolonToken)), rest);
  }

  lemma {:induction false} LetLinesFrom(toks: seq<Token>, p: nat, lines: seq<LetLine>, prefix: map<TokenType, PrefixParseFn>)
    requires LinesAt(toks, p, lines)
    ensures ProgramFrom(toks, p, prefix) == Halts(Outcome(LetLineStatements(lines, prefix), [], p + 5 * |lines|))
    decreases |lines|
  {
    if lines == [] {
      assert ProgramFrom(toks, p, prefix) == Halts(Outcome([], [], p));
    } else {
      LetLinesFrom(toks, p + 5, lines[1..], prefix);
      LetLineCons(toks, p, lines[0], prefix, Outcome(LetLineStatements(lines[1..], prefix), [], p + 5 + 5 * |lines[1..]|));
    }
  }

  /**
   * A program of well-formed let lines parses without diagnostics into two
   * entries per line: the let statement, whose name is the line's
   * identifier, and an expression statement for the line's semicolon (with
   * no expression, since the constructor registers no handler for `;`).
   */
  lemma LetLinesProgram(lines: seq<LetLine>, prefix: map<TokenType, PrefixParseFn>)
    ensures ProgramFrom(LetTokens(lines), 0, prefix).Halts?
    ensures var o := ProgramFrom(LetTokens(lines), 0, prefix).value;
      && o.diags == []
      && |o.statements| == 2 * |lines|
      && forall i :: 0 <= i < |lines| ==>
           o.statements[2 * i].LetStatement? && o.statements[2 * i].name.value == lines[i].name &&
           o.statements[2 * i + 1].ExpressionStatement? && o.statements[2 * i + 1].token == SemicolonToken
    ensures SEMICOLON !in prefix ==>
      forall i :: 0 <= i < |lines| ==>
        ProgramFrom(LetTokens(lines), 0, prefix).value.statements[2 * i + 1].expression == None
  {
    LetTokensLinesAt([], lines);
    assert [] + LetTokens(lines) == LetTokens(lines);
    LetLinesFrom(LetTokens(lines), 0, lines, prefix);
    forall i | 0 <= i < |lines|
      ensures LetLineStatements(lines, prefix)[2 * i] == LineLet(lines[i])
      ensures LetLineStatements(lines, prefix)[2 * i + 1]
        == ExpressionStatement(SemicolonToken, PrefixExpression(prefix, SemicolonToken))
    {
      LetLineStatementsAt(lines, prefix, i);
    }
  }

  // ---- Small inputs ----

  /** One driver iteration from `p` whose statement parser halts with `s`. */
  lemma Iteration(toks: seq<Token>, p: nat, prefix: map<TokenType, PrefixParseFn>, s: Step, rest: Outcome)
    requires TokenAt(toks, p).kind != EOF && StatementStep(toks, p, prefix) == Halts(s)
    requires ProgramFrom(toks, s.end + 1, prefix) == Halts(rest)
    ensures ProgramFrom(toks, p, prefix) == Halts(Outcome([s.stmt] + rest.statements, s.diags + rest.diags, rest.end))
  {
    ProgramFromUnfold(toks, p, prefix);
  }

  /** `foobar;` is one expression statement holding the identifier, with no diagnostics. */
  lemma IdentifierStatement()
    ensures var foobar := Token(IDENT, "foobar");
      ProgramFrom([foobar, SemicolonToken, EofToken], 0, InitialPrefix)
        == Halts(Outcome([ExpressionStatement(foobar, Some(Ident(Identifier(foobar, "foobar"))))], [], 2))
  {
    var foobar := Token(IDENT, "foobar");
    var toks := [foobar, SemicolonToken, EofToken];
    var stmt := ExpressionStatement(foobar, Some(Ident(Identifier(foobar, "foobar"))));
    assert ProgramFrom(toks, 2, InitialPrefix) == Halts(Outcome([], [], 2));
    assert StatementStep(toks, 0, InitialPrefix) == Halts(Step(stmt, [], 1));
    Iteration(toks, 0, InitialPrefix, Step(stmt, [], 1), Outcome([], [], 2));
    assert [stmt] + [] == [stmt] && NoDiags + NoDiags == NoDiags;
  }

  /** `let x 5;` records exactly one diagnostic, naming `=` and the INT found instead. */
  lemma MissingAssign()
    ensures var five := Token(INT, "5");
      ProgramFrom([LetToken, Token(IDENT, "x"), five, SemicolonToken, EofToken], 0, InitialPrefix)
        == Halts(Outcome([NilLetStatement, ExpressionStatement(five, None)], [ExpectedNext(ASSIGN, INT)], 4))
  {
    var five := Token(INT, "5");
    var toks := [LetToken, Token(IDENT, "x"), five, SemicolonToken, EofToken];
    var e := ExpressionStatement(five, None);
    var diag := [ExpectedNext(ASSIGN, INT)];
    assert ProgramFrom(toks, 2, InitialPrefix) == Halts(Outcome([e], [], 4)) by {
      assert ProgramFrom(toks, 4, InitialPrefix) == Halts(Outcome([], [], 4));
      assert StatementStep(toks, 2, InitialPrefix) == Halts(Step(e, [], 3));
      Iteration(toks, 2, InitialPrefix, Step(e, [], 3), Outcome([], [], 4));
      assert [e] + [] == [e] && NoDiags + NoDiags == NoDiags;
    }
    assert StatementStep(toks, 0, InitialPrefix) == Halts(Step(NilLetStatement, diag, 1));
    Iteration(toks, 0, InitialPrefix, Step(NilLetStatement, diag, 1), Outcome([e], [], 4));
    assert diag + [] == diag && [NilLetStatement] + [e] == [NilLetStatement, e];
  }

  /** A bare `=` yields an expression statement with no expression and no diagnostic. */
  lemma NoPrefixHandler()
    ensures ProgramFrom([AssignToken, EofToken], 0, InitialPrefix)
      == Halts(Outcome([ExpressionStatement(AssignToken, None)], [], 1))
  {
    var toks := [AssignToken, EofToken];
    var e := ExpressionStatement(AssignToken, None);
    assert ProgramFrom(toks, 1, InitialPrefix) == Halts(Outcome([], [], 1));
    assert StatementStep(toks, 0, InitialPrefix) == Halts(Step(e, [], 0));
    Iteration(toks, 0, InitialPrefix, Step(e, [], 0), Outcome([], [], 1));
    assert [e] + [] == [e] && NoDiags + NoDiags == NoDiags;
  }

  /**
   * `let x = a + b;`: the let statement swallows `a`, and the driver parses
   * `+` and `b;` as two further expression statements.
   */
  lemma LetValueReparsed()
    ensures var x, a, plus, b := Token(IDENT, "x"), Token(IDENT, "a"), Token(PLUS, "+"), Token(IDENT, "b");
      ProgramFrom([LetToken, x, AssignToken, a, plus, b, SemicolonToken, EofToken], 0, InitialPrefix)
        == Halts(Outcome(
             [ LetStatement(LetToken, Identifier(x, "x")),
               ExpressionStatement(plus, None),
               ExpressionStatement(b, Some(Ident(Identifier(b, "b")))) ],
             [], 7))
  {
    var x, a, plus, b := Token(IDENT, "x"), Token(IDENT, "a"), Token(PLUS, "+"), Token(IDENT, "b");
    var toks := [LetToken, x, AssignToken, a, plus, b, SemicolonToken, EofToken];
    var sl := LetStatement(LetToken, Identifier(x, "x"));
    var sp := ExpressionStatement(plus, None);
    var sb := ExpressionStatement(b, Some(Ident(Identifier(b, "b"))));
    assert ProgramFrom(toks, 5, InitialPrefix) == Halts(Outcome([sb], [], 7)) by {
      assert ProgramFrom(toks, 7, InitialPrefix) == Halts(Outcome([], [], 7));
      assert StatementStep(toks, 5, InitialPrefix) == Halts(Step(sb, [], 6));
      Iteration(toks, 5, InitialPrefix, Step(sb, [], 6), Outcome([], [], 7));
      assert [sb] + [] == [sb] && NoDiags + NoDiags == NoDiags;
    }
    assert ProgramFrom(toks, 4, InitialPrefix) == Halts(Outcome([sp, sb], [], 7)) by {
      assert StatementStep(toks, 4, InitialPrefix) == Halts(Step(sp, [], 4));
      Iteration(toks, 4, InitialPrefix, Step(sp, [], 4), Outcome([sb], [], 7));
      assert [sp] + [sb] == [sp, sb] && NoDiags + NoDiags == NoDiags;
    }
    assert StatementStep(toks, 0, InitialPrefix) == Halts(Step(sl, [], 3));
    Iteration(toks, 0, InitialPrefix, Step(sl, [], 3), Outcome([sp, sb], [], 7));
    assert [sl] + [sp, sb] == [sl, sp, sb] && NoDiags + NoDiags == NoDiags;
  }
}
