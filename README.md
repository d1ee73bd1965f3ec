# A model of the go_interpreter parser

This project models the parser of a small Go interpreter (`src/parser/parser.go`) in Dafny, as the
code is written, and proves what it does.

The parser keeps a two-token window over the lexer's output: the current token and the peek token.
It also keeps a list of diagnostics that only grows, a registry of prefix parse functions and a
registry of infix parse functions. While the current token is not end-of-input, `ParseProgram`
calls `parseStatement`, appends its result and steps one token, so each statement is followed by
one step. `parseStatement` picks a parser by the current token:

- `parseLetStatement` for `let`;
- `parseReturnStatement` for `return`;
- `parseExpressionStatement` for everything else.

`parseExpression` applies the prefix handler registered for the current token. The only handler is
`parseIdentifier`, registered for identifiers.

The model has these modules:

- `Tokens` — token kinds and tokens. `TokenAt(toks, i)` is the i-th token the lexer hands out: the
  tokens of its input in order, then end-of-input for ever.
- `Ast` — the AST nodes, limited to the fields the parser sets.
- `Lexing` — a stand-in lexer. It is a class whose `NextToken` hands out `TokenAt(toks, read)` and
  counts the tokens handed out.
- `Semantics` — each parse function as a function of the token stream and the cursor position:
  - `LetStep`, `ReturnStep`, `ExpressionStep` and `StatementStep` for the statement parsers;
  - `ProgramFrom` for the whole driver loop.
- `Parsing` — the `Parser` class:
  - its fields are the fields of the Go struct;
  - its methods update them in place;
  - each method is proved to compute what the corresponding `Semantics` function says.
- `Properties` — lemmas about whole parses: where diagnostics come from, when the parser stops,
  programs made of `let` lines, and a few small inputs.

Some of the code's behaviour is easy to misread, so the model spells it out:

- **No diagnostic for a missing prefix handler.** `parseExpression` returns nil and records nothing
  when the current token has no prefix handler. The statement then simply has no expression.
- **A let statement consumes only one token after `=`.** The test at line 96 is always false there,
  because the current token is the `=`. So `parseLetStatement` ends on the first token of the value,
  and the driver dispatches again from the token after it.
  - With a one-token value, as in `let x = 5;`, that next token is the `;`. It becomes an
    expression statement of its own, so the line yields two entries.
  - With a longer value, as in `let x = a + b;`, each later value token becomes an expression
    statement. The last of them consumes the `;` (lines 135-137), so there is no separate entry
    for the `;`.
- **A failed let statement is kept.** It returns a nil `*ast.LetStatement`, which is not a nil
  `ast.Statement`. So the `stmt != nil` test in `ParseProgram` always passes, and the model records
  a `NilLetStatement` entry.
- **A return statement with no later `;` never returns.** `parseReturnStatement` loops for ever in
  that case. The model returns `Diverges` for it.

## Model

| member | source | states |
|---|---|---|
| Parsing.Parser.New | src/parser/parser.go:33-44 | cur and peek are the first two tokens, two tokens have been read, there are no diagnostics, the prefix registry holds exactly IDENT ↦ parseIdentifier, and the infix registry is empty |
| Parsing.Parser.Errors | src/parser/parser.go:46-48 | returns the diagnostic list unchanged and modifies nothing |
| Parsing.Parser.PeekError | src/parser/parser.go:49-52 | appends exactly one diagnostic, naming the expected kind and the peek token's kind; it changes nothing else |
| Parsing.Parser.NextToken | src/parser/parser.go:54-57 | the new cur is the old peek; peek is the next token of the stream; the cursor advances by one; diagnostics and both registries are unchanged |
| Parsing.Parser.ParseProgram | src/parser/parser.go:59-70 | diverges exactly when `ProgramFrom` does; otherwise returns `ProgramFrom`'s statements, appends its diagnostics to the list, and stops with cur at EOF |
| Parsing.Parser.ParseStatement | src/parser/parser.go:72-81 | diverges exactly when `StatementStep` does; otherwise returns its statement, appends its diagnostics, and leaves the cursor where it says |
| Parsing.Parser.ParseLetStatement | src/parser/parser.go:84-100 | result, new diagnostics and final cursor are those of `LetStep` |
| Parsing.Parser.CurTokenIs | src/parser/parser.go:102-104 | true exactly when the token at the cursor has the given kind |
| Parsing.Parser.PeekTokenIs | src/parser/parser.go:106-108 | true exactly when the token after the cursor has the given kind |
| Parsing.Parser.ExpectPeek | src/parser/parser.go:110-118 | returns true exactly when peek has the expected kind. On true, the window advances one token and no diagnostic is added. On false, the window is unchanged and exactly one diagnostic naming the expected and the found kind is appended |
| Parsing.Parser.ParseReturnStatement | src/parser/parser.go:121-129 | diverges exactly when `ReturnStep` does; otherwise returns the return statement and leaves the cursor on `ReturnStep`'s semicolon; it cannot touch the diagnostics |
| Parsing.Parser.ParseExpressionStatement | src/parser/parser.go:131-139 | result and final cursor are those of `ExpressionStep`; it cannot touch the diagnostics |
| Parsing.Parser.ParseExpression | src/parser/parser.go:141-148 | yields an expression exactly when the current kind has a prefix handler. That expression is an identifier with the current token and its literal. It moves no token and records no diagnostic |
| Parsing.Parser.ParseIdentifier | src/parser/parser.go:150-155 | the expression is what the identifier handler yields for the current token: an identifier holding that token and its literal |
| Parsing.Parser.RegisterPrefix | src/parser/parser.go:164-166 | the prefix registry changes at the given kind only |
| Parsing.Parser.RegisterInfix | src/parser/parser.go:168-170 | the infix registry changes at the given kind only |
| Parsing.Parse | src/parser/parser.go:33-70 | constructing a parser and running `ParseProgram` gives `ProgramFrom` from the first token with only the identifier handler, together with exactly its diagnostics |
| Semantics.FirstSemicolon | src/parser/parser.go:125-127 | a found position is a semicolon at or after the start, inside the input |
| Semantics.FirstSemicolonIsFirst | src/parser/parser.go:125-127 | no semicolon lies before the position found; when none is found, none lies after the start |
| Semantics.LetStep | src/parser/parser.go:84-100 | a let statement exactly when IDENT and then `=` follow `let`. Then there is no diagnostic, the name is the identifier's literal, and the cursor ends three tokens on, one past the `=`. Otherwise the result is a failed let with one diagnostic naming the kind expected and the kind found instead. When the identifier is missing, the diagnostic expects IDENT and the cursor stays on `let`. When only the `=` is missing, it expects `=` and the cursor stays on the name |
| Semantics.ReturnStep | src/parser/parser.go:121-129 | when it returns, the statement is the return statement, there is no diagnostic, and the cursor has advanced at least once |
| Semantics.ReturnStopsAtFirstSemicolon | src/parser/parser.go:121-129 | returns exactly when a semicolon follows the `return`, and then stops on the first such semicolon |
| Semantics.ExpressionStep | src/parser/parser.go:131-148 | no diagnostic; the statement's token is the current token; an expression is present exactly when the kind has a prefix handler, and then it holds the token and its literal; the cursor advances by one exactly when peek is `;` |
| Semantics.StatementStep | src/parser/parser.go:72-81 | only a `return` can diverge; a statement never leaves the cursor behind where it started; it adds at most one diagnostic, and one exactly when the let failed |
| Semantics.ProgramFrom | src/parser/parser.go:59-70 | a completed parse ends on EOF at or after the start, has at most one statement per token consumed, and has at least one statement unless it starts on EOF |
| Semantics.Continue | src/parser/parser.go:62-68 | after a statement, a completed parse ends on EOF strictly after the start and holds at least one statement |
| Semantics.ProgramFromUnfold | src/parser/parser.go:62-68 | one loop iteration: a diverging statement makes the parse diverge; otherwise the parse is that statement and its diagnostics followed by the parse from one token past where the statement ended |
| Semantics.DriverIteration | src/parser/parser.go:62-68 | the loop invariant "statements and diagnostics so far followed by the parse from here" is kept by one iteration, which appends exactly one entry |
| Semantics.DriverDone | src/parser/parser.go:62-69 | at EOF the invariant gives the whole parse: the statements and diagnostics collected so far, ending at the cursor |
| Properties.DiagnosticsAreFailedLets | src/parser/parser.go:84-100 | in a completed parse, the number of diagnostics is the number of failed let statements, and each diagnostic expects IDENT or `=` |
| Properties.HaltsWhenReturnsTerminated | src/parser/parser.go:121-129 | if every `return` has a semicolon somewhere after it, the parse completes |
| Properties.DivergesOnUnterminatedReturn | src/parser/parser.go:125-127 | a `return` at the cursor with no later semicolon makes the parse diverge |
| Properties.EmptyInput | src/parser/parser.go:59-70 | input whose first token is EOF gives no statements, no diagnostics, and the cursor stays at 0 |
| Properties.LetLinesFrom | src/parser/parser.go:84-100 | from the start of a run of `let <name> = <value>;` lines, each with a single-token value, the parse yields no diagnostics, two entries per line, and ends on the EOF after the last line |
| Properties.LetLinesProgram | src/parser/parser.go:84-100 | a program of `let <name> = <value>;` lines, each with a single-token value, parses without diagnostics into two entries per line. The first is the let statement named by the line's identifier. The second is an expression statement on the `;`, with no expression unless `;` has a handler |
| Properties.IdentifierStatement | src/parser/parser.go:131-155 | `foobar;` parses into one expression statement holding the identifier `foobar`, with no diagnostics |
| Properties.MissingAssign | src/parser/parser.go:93-95 | `let x 5;` gives a failed let and an expression statement for `5` (no expression), and exactly the diagnostic "expected `=`, got INT" |
| Properties.NoPrefixHandler | src/parser/parser.go:141-145 | a bare `=` gives an expression statement with no expression and no diagnostic |
| Properties.LetValueReparsed | src/parser/parser.go:96-98 | `let x = a + b;` gives the let statement, then `+` with no expression, then `b` as an identifier; the `a` is swallowed |

## Left out

- The lexer is not part of this model. A stand-in class hands out a given token sequence and then
  end-of-input for ever; the parser relies on that behaviour when it reads past the end.
- The token package is not part of this model. The token kinds are the ones the parser names, plus
  a few more so that examples can show tokens with no handler.
- AST node methods (`String`, `TokenLiteral`) and the node fields the parser never sets are left out.
- Diagnostic text is left out. The message built with `fmt.Sprintf` is modelled as the value
  `ExpectedNext(expected, got)`, which carries both kinds.
- Parse functions stored in the registries are Go closures. They are modelled as tags: only
  `parseIdentifier` is ever registered, and no infix function exists.
- The precedence argument of `parseExpression` is passed but never read, and there is no infix loop;
  the model has neither.
- Parsing.Parser.ParseReturnStatement: a Dafny method cannot loop for ever. So the method returns
  `Diverges` once the window is past the end of the input and no `;` has been found. From there the
  Go loop would spin on EOF for ever.
- Parsing.Parser.ParseProgram: inherits that treatment of a diverging `return`; every other path
  follows the Go loop step for step.
- Go's pointer identity and aliasing of AST nodes are not modelled: nodes are values.
- Properties.LetLinesProgram: covers only lines whose value is a single token.
  - With a longer value, the number of entries per line depends on the value's length, and
    further tokens are dispatched to the statement parsers in turn.
  - `Properties.LetValueReparsed` shows one such line.
  - Properties.LetLinesFrom carries the same restriction.
