# A verified model of a small tree-walking interpreter

This project models the pipeline of a small Lox-style interpreter written in
Rust, and proves properties of that model in Dafny 4.11. The pipeline is:
- the scanner (`Tokensizer`, src/token.rs);
- the recursive-descent parser (src/parser.rs);
- the expression tree (src/expr.rs) and its S-expression printer (src/astprinter.rs);
- the chain of variable scopes (src/environment.rs);
- the evaluator (src/interpreter.rs).

The shown files come from different snapshots, so the model settles one
shared set of types:
- `Tokens.TokenLiteral` is String, Number, Identifier, Boolean or Null.
- `Ast.Expr` adds `Variable` and `Assign`, which the evaluator uses, to the
  four variants of src/expr.rs.
- `Ast.Stmt` is transcribed from src/stmt.rs.
- `Environments.Value` (Number, Text, Bool, Null) replaces the
  `Box<dyn Any>` values and their `downcast_ref` tests.

Numbers are `real`.

| file | module | form |
|---|---|---|
| wrappers.dfy | `Wrappers` | `Option` and `Result` |
| tokens.dfy | `Tokens` | token kinds, literals, tokens, number text |
| scanner.dfy | `Scanner` | class `Tokensizer`, whose loop is proved against `ScanAll` |
| ast.dfy | `Ast` | `Expr` and `Stmt` |
| astprinter.dfy | `AstPrinter` | pure printer, plus the `Parenthesize` loop |
| environment.dfy | `Environments` | scope chain as a value, proved against the list of scopes `Scopes` |
| parser_spec.dfy | `ParserSpec` | the grammar as functions of the tokens and a cursor position |
| parser.dfy | `Parser` | class `Parser`, each method proved equal to its `ParserSpec` function |
| parser_props.dfy | `ParserProperties` | precedence, associativity, "Expect expression." |
| evaluation.dfy | `Evaluation` | operators, `Eval`, `Exec`, `ExecAll`, `Interpret` |
| interpreter.dfy | `Interpreter` | class `Interpreter`, each method proved equal to its `Evaluation` function |
| evaluation_props.dfy | `EvaluationProperties` | assignment, declaration, operand order, shadowing, error reporting |

Where the code and the intended design differ, the model follows the code:
- **Parse errors.** `expression` (src/parser.rs:38-40) always returns `Ok`.
  Every parse error is a `panic!` inside `primary` or `consume`. So the
  `Err` arms of `print_statement` and `expression_statement` are never
  taken, and `synchronize` is never called. The first syntax error ends
  the whole parse. The model writes a panic as a `ParseError` result that
  carries the cursor position, and that result propagates up to `Parse`.
  `parse`'s `None` is never produced. `Synchronize` is still modelled and
  proved as written, on its own.
- **Blocks.** A block runs in a new scope whose parent is a copy of the
  current environment (src/interpreter.rs:42). The environment from before
  the block is put back afterwards. So an assignment to an outer variable
  made inside a block is lost when the block ends. `Evaluation.Exec` states
  this.

## Model

| member | source | states |
|---|---|---|
| Tokens.NumberText | src/interpreter.rs:255-257 | the text of a number starts with `-` exactly when the number is negative |
| Tokens.IntegralNumberText | src/interpreter.rs:255-257 | an integral number prints as its integer digits, with no fractional part |
| Tokens.LiteralText | src/token.rs:11-20 | strings and identifiers display verbatim, booleans as `true`/`false`, the null literal as `null`; a number displays with a leading `-` iff it is negative, and an integral number as its integer |
| Evaluation.DisplayMatchesStringify | src/token.rs:11-20 | `Display` of a token literal equals `stringify` of its value, except that null displays as `null` and stringifies as `nil` |
| Scanner.Punctuator | src/token.rs:121-134 | a character yields a token kind iff it is one of the ten punctuators `(){},.-+;*`, and that kind is never end-of-input |
| Scanner.ScanAllIsRecognised | src/token.rs:119-141 | the scan has one token per recognised character, in source order; token k is the k-th recognised character as its own lexeme, with the null literal and the scanner's line; every other character yields nothing |
| Scanner.ScanAllAppend | src/token.rs:110-114 | scanning distributes over concatenation, because `add_token` only appends |
| Scanner.ScanStep | src/token.rs:137-141 | one more character of the source adds exactly that character's own tokens after those of the characters before it |
| Scanner.ScanAppendsOne | src/token.rs:137-141 | one turn of the `tokenize` loop: the tokens held so far are those of the source up to and including the character just scanned |
| Scanner.TokenizedShape | src/token.rs:137-148 | `tokenize` ends with exactly one end-of-input token, with empty lexeme and null literal, after all others; there is one token per recognised character; every token is on line 1 |
| Scanner.Tokensizer.constructor | src/token.rs:98-106 | no tokens, `start` and `current` at 0, `line` 1 |
| Scanner.Tokensizer.IsAtEnd | src/token.rs:107-109 | in a scanner whose cursor stays within the source, true exactly when the cursor is at the end of the source |
| Scanner.Tokensizer.AddToken | src/token.rs:110-114 | appends one token whose lexeme is `src[start..current]`, and changes nothing else |
| Scanner.Tokensizer.Advance | src/token.rs:115-118 | returns the current character and moves `current` on by exactly one |
| Scanner.Tokensizer.ScanToken | src/token.rs:119-136 | moves on by one character and appends exactly the tokens of that character |
| Scanner.Tokensizer.Tokenize | src/token.rs:137-149 | ends with `current == |src|`; the tokens are the old tokens, then the scan of the rest of the source, then one end-of-input token; returns them |
| Scanner.Tokenize | src/token.rs:137-149 | a fresh scanner returns `ScanAll(src, 1)` followed by the end-of-input token |
| Ast.Size | src/expr.rs:15-26 | every child of a node is strictly smaller than the node, so a recursive visitor terminates |
| AstPrinter.VisitBinary | src/astprinter.rs:29-31 | a binary node prints as `(op left right)`, using the operator's lexeme |
| AstPrinter.VisitGrouping | src/astprinter.rs:33-35 | a grouping prints as `(group inner)` |
| AstPrinter.VisitLiteral | src/astprinter.rs:37-42 | a string literal prints verbatim; every other literal prints `nil` |
| AstPrinter.VisitUnary | src/astprinter.rs:44-46 | a unary node prints as `(op operand)` |
| AstPrinter.Print | src/astprinter.rs:12-14 | a literal prints as its string or as `nil`; every other node prints as a parenthesised form, starting with `(` and ending with `)` |
| AstPrinter.Parenthesize | src/astprinter.rs:16-25 | the loop builds `"(" + name`, then `" " + print(e)` for each expression in order, then `")"` |
| AstPrinter.PrintBalanced | src/astprinter.rs:16-25 | the printed form holds one `(` and one `)` per non-literal node, when no lexeme or string holds a parenthesis |
| Environments.New | src/environment.rs:13-18 | a single empty scope with no parent: no name is bound, and `get` fails on every name |
| Environments.WithEnclosing | src/environment.rs:21-26 | an empty scope in front of the enclosing chain: every lookup returns what the enclosing chain returns |
| Environments.Define | src/environment.rs:29-31 | only the innermost scope changes; `get(name)` then returns the value, even when an outer scope binds the name too; other names look up as before |
| Environments.Get | src/environment.rs:34-47 | fails with "Undefined variable 'name'." iff no scope binds the name; otherwise returns the value from the innermost scope that binds it |
| Environments.Assign | src/environment.rs:50-64 | fails iff no scope binds the name; otherwise overwrites the binding in the innermost scope that has the name and leaves every other scope and binding unchanged |
| Environments.AssignThenGet | src/environment.rs:50-58 | after a successful assign, `get` returns the new value for that name and the old result for every other name |
| Environments.AssignKeepsNames | src/environment.rs:50-64 | assign never creates a binding: scope by scope, the names bound are the same as before |
| ParserSpec.ExpressionAt | src/parser.rs:38-40 | `expression` consumes at least one token when it succeeds; a failure lies at or after its start, inside the tokens |
| ParserSpec.LevelAt | src/parser.rs:42-109 | each binary level consumes at least one token when it succeeds, and a failure lies at or after its start, inside the tokens |
| ParserSpec.LoopAt | src/parser.rs:42-109 | the operator loop never moves the cursor backwards, and a failure lies at or after the loop's start |
| ParserSpec.Operand | src/parser.rs:42-109 | the operand of a binary level is parsed by the next tighter level (`unary` for `factor`); it consumes a token when it succeeds, and fails at or after its start |
| ParserSpec.UnaryAt | src/parser.rs:111-122 | a unary, prefixed or not, consumes at least one token when it succeeds; a failure lies at or after its start |
| ParserSpec.PrimaryAt | src/parser.rs:124-160 | every successful primary consumes at least one token; a failure lies at or after its start, inside the tokens |
| ParserSpec.SyncLoop | src/parser.rs:218-236 | the loop stops at the first statement boundary from the cursor on |
| ParserSpec.SynchronizeAt | src/parser.rs:214-237 | at end of input it does not move; otherwise it moves at least once and stops at the first boundary: just after a `;`, just before `class/fun/var/for/if/while/print/return`, or at end of input |
| ParserSpec.PrintStatementAt | src/parser.rs:258-273 | after `print`, a statement succeeds only as `(` expression `)` `;`: the tokens at the start, just before the end and at the end are `(`, `)` and `;`, and the statement prints the expression parsed after `(`; a missing `(`, `)` or `;` is the matching "Expect ..." failure at that token, and a failing expression is the statement's failure |
| ParserSpec.ExpressionStatementAt | src/parser.rs:276-286 | a statement succeeds only as an expression followed by `;`, and holds that expression; a missing `;` is "Expect ';' after expression." at that token, and a failing expression is the statement's failure |
| ParserSpec.StatementAt | src/parser.rs:251-256 | every successful statement consumes at least one token, which is what lets the `parse` loop end; a failure lies inside the tokens |
| ParserSpec.ParseFrom | src/parser.rs:238-248 | on success the statements run up to the end-of-input token, at most one per token; the first failure is the result, never a partial list |
| ParserSpec.ParseStep | src/parser.rs:238-248 | one loop step of `parse`: a parsed statement moves to the list, and a failed one is the parse's failure |
| Parser.Parser.constructor | src/parser.rs:34-36 | the cursor starts at the first token |
| Parser.Parser.Peek | src/parser.rs:199-201 | the token under the cursor |
| Parser.Parser.Previous | src/parser.rs:203-205 | the token before the cursor, read only after a token was consumed |
| Parser.Parser.IsAtEnd | src/parser.rs:195-197 | true iff the current token is end-of-input, in particular at the last token |
| Parser.Parser.Check | src/parser.rs:181-186 | false at end of input (even for the end-of-input kind); otherwise whether the current token has the kind |
| Parser.Parser.Advance | src/parser.rs:188-193 | moves on by one unless at end of input, never past the end-of-input token; returns the token before the cursor, which is the one just consumed, or at end of input the token before end-of-input |
| Parser.Parser.MatchTokens | src/parser.rs:164-172 | true iff `check` holds for one of the listed kinds; it then advances exactly once, and otherwise leaves the cursor where it was |
| Parser.Parser.Consume | src/parser.rs:173-179 | the current token when it has the expected kind, after advancing past it; otherwise a failure with the message at the cursor, which does not move |
| Parser.Parser.Expression | src/parser.rs:38-40 | agrees with `ExpressionAt`, both the result and the cursor |
| Parser.Parser.Equality | src/parser.rs:42-56 | agrees with `LevelAt` at level 4 (`!=`, `==`) |
| Parser.Parser.Comparison | src/parser.rs:58-77 | agrees with `LevelAt` at level 3 (`>`, `>=`, `<`, `<=`) |
| Parser.Parser.Term | src/parser.rs:79-93 | agrees with `LevelAt` at level 2 (`-`, `+`) |
| Parser.Parser.Factor | src/parser.rs:95-109 | agrees with `LevelAt` at level 1 (`/`, `*`) |
| Parser.Parser.Unary | src/parser.rs:111-122 | agrees with `UnaryAt` |
| Parser.Parser.Primary | src/parser.rs:124-160 | agrees with `PrimaryAt` |
| Parser.Parser.Synchronize | src/parser.rs:214-237 | leaves the cursor where `SynchronizeAt` says |
| Parser.Parser.Parse | src/parser.rs:238-248 | agrees with `ParseFrom` |
| Parser.Parser.Statement | src/parser.rs:251-256 | agrees with `StatementAt` |
| Parser.Parser.PrintStatement | src/parser.rs:258-273 | agrees with `PrintStatementAt` |
| Parser.Parser.ExpressionStatement | src/parser.rs:276-286 | agrees with `ExpressionStatementAt` |
| ParserProperties.BinaryLevel | src/parser.rs:42-109 | each binary operator belongs to exactly one of the four levels |
| ParserProperties.ExpressionShaped | src/parser.rs:38-40 | every parsed expression obeys the precedence and associativity shape |
| ParserProperties.LevelShaped | src/parser.rs:42-109 | a tree parsed at a level has operators of that level or tighter at the top; left operands are of the same level or tighter (left associativity), right operands strictly tighter (`* /` over `+ -` over comparisons over `== !=`) |
| ParserProperties.LoopShaped | src/parser.rs:42-109 | the operator loop keeps that shape as it folds to the left |
| ParserProperties.UnaryShaped | src/parser.rs:111-122 | prefix operators nest to the right over a primary |
| ParserProperties.PrimaryShaped | src/parser.rs:124-160 | a parenthesised expression may hold any expression |
| ParserProperties.ExpectExpression | src/parser.rs:157-159 | a token that cannot start an expression, end of input included, is the "Expect expression." error at that very token, at every level |
| ParserProperties.SubtractionAssociatesLeft | src/parser.rs:79-93 | `1 - 2 - 3` parses as `Binary(Binary(1, -, 2), -, 3)` |
| ParserProperties.ProductBindsTighter | src/parser.rs:79-109 | `1 + 2 * 3` parses as `Binary(1, +, Binary(2, *, 3))` |
| Evaluation.Stringify | src/interpreter.rs:254-268 | `true`/`false` for booleans, strings verbatim, `nil` for nil, decimal text for numbers |
| Evaluation.LiteralValue | src/interpreter.rs:121-137 | a number literal evaluates to that number and a boolean literal to that boolean; the null literal gives nil; strings and identifiers become their text |
| Evaluation.UnaryOp | src/interpreter.rs:139-159 | `!x` is true iff `x` is the boolean false, so any non-boolean gives false; `-` negates a number and otherwise fails with "Operand must be a number."; the `false` and `true` tokens give the booleans false and true; any other operator is "Unknown unary operator." |
| Evaluation.PlusOp | src/interpreter.rs:165-180 | `+` succeeds iff both sides are numbers or either side is a string: two numbers add, otherwise the two sides' texts are concatenated; the error is "Operands must be two numbers or two strings." |
| Evaluation.EqualityOp | src/interpreter.rs:204-221 | `==`/`!=` succeed iff both sides are numbers or both are strings; the result is value equality for `==` and its negation for `!=` |
| Evaluation.NumericOp | src/interpreter.rs:182-246 | `- * / > >= < <=` fail with "Operands must be numbers." unless both sides are numbers; on two numbers `-` and `*` give the difference and product, `/` the quotient except by zero, which is "Division by zero.", and the comparisons give the boolean the comparison of the two numbers yields |
| Evaluation.BinaryOp | src/interpreter.rs:164-248 | dispatches `+` to `PlusOp`, `==`/`!=` to `EqualityOp` and the arithmetic and comparison operators to `NumericOp`; any other operator is "Unknown binary operator." |
| Evaluation.Eval | src/interpreter.rs:79-252 | evaluation never creates or removes a binding, and without an assignment it leaves the environment unchanged |
| Evaluation.Exec | src/interpreter.rs:39-77 | output is only appended to; a statement leaves as many scopes as it found; after a block the environment is exactly the one from before it |
| Evaluation.ExecAll | src/interpreter.rs:29-36 | the block's statements only append to the output and leave the scope count unchanged |
| Evaluation.ExecAllStops | src/interpreter.rs:32 | once a statement of a block fails, no later statement runs, and that failure is the block's result |
| Evaluation.Step | src/interpreter.rs:19-23 | one top-level statement: a failure adds exactly one "Runtime error: " report, and success adds none |
| Evaluation.Interpret | src/interpreter.rs:18-24 | output and error reports only grow, with at most one report per statement |
| Evaluation.InterpretAppend | src/interpreter.rs:18-24 | running two lists one after the other is running their concatenation: an error does not stop later statements |
| EvaluationProperties.UndeclaredAssignFails | src/interpreter.rs:107-120 | assigning to a name bound nowhere fails with "Undefined variable" and binds nothing |
| EvaluationProperties.AssignYields | src/interpreter.rs:107-120 | the value is evaluated first and a failing value is the result; with a value, assignment succeeds iff the name is bound in some scope, and then it evaluates to the assigned value, which `get` afterwards returns |
| EvaluationProperties.BinaryLeftFirst | src/interpreter.rs:161-164 | the left operand runs first and a failing left operand is the result, without running the right; the right operand runs in the environment the left one left; a failing right operand is the result; otherwise the two values are combined by the binary operator |
| EvaluationProperties.LeftAssignmentSeenByRight | src/interpreter.rs:161-180 | the expression tree of `(a = 1) + a` evaluates to 2 whenever `a` is bound: the right operand sees the left one's assignment |
| EvaluationProperties.DeclareWithoutInitializer | src/interpreter.rs:45-62 | `var name;` succeeds, prints nothing, binds nil in the innermost scope, and every other name looks up as before |
| EvaluationProperties.DeclareWithInitializer | src/interpreter.rs:45-62 | `var name = init;` prints nothing; a failing initializer is the statement's failure; otherwise `get(name)` returns the initializer's value and other names look up as in the environment the initializer left |
| EvaluationProperties.PrintValue | src/interpreter.rs:70-74 | `print e;` with an expression that evaluates appends `stringify` of its value to the output and keeps the environment the expression left, assignments inside it included |
| EvaluationProperties.InterpretTwo | src/interpreter.rs:18-24 | the second statement runs in the state the first one left |
| EvaluationProperties.InterpretThree | src/interpreter.rs:18-24 | three statements run in order, each in the state the one before left |
| EvaluationProperties.DefineOne | src/interpreter.rs:47-64 | the statement tree of `var a = 1;` binds `a` in the current scope |
| EvaluationProperties.ShadowingBlock | src/interpreter.rs:41-44 | the statement tree of `{ var a = 2; print(a); }` prints `2` and leaves the environment as it found it |
| EvaluationProperties.PrintOne | src/interpreter.rs:70-74 | the statement tree of `print(a);`, with `a` bound to 1, prints `1` |
| EvaluationProperties.Shadowing | src/interpreter.rs:29-44 | the statement trees of `var a = 1; { var a = 2; print(a); } print(a);` print `2` then `1` |
| EvaluationProperties.PrintDivisionByZero | src/interpreter.rs:194-202 | the statement tree of `print(1 / 0);` fails with "Division by zero." and prints nothing |
| EvaluationProperties.PrintTwo | src/interpreter.rs:70-74 | the statement tree of `print(2);` prints `2` |
| EvaluationProperties.DivisionByZeroContinues | src/interpreter.rs:18-24 | the statement trees of `print(1 / 0); print(2);` report the division by zero and still print `2` |
| Interpreter.Interpreter.constructor | src/interpreter.rs:12-16 | starts from the global scope, with nothing printed or reported |
| Interpreter.Interpreter.Interpret | src/interpreter.rs:18-24 | agrees with `Evaluation.Interpret`: every statement in order, each runtime error reported, later statements still run |
| Interpreter.Interpreter.ExecuteBlock | src/interpreter.rs:29-36 | runs the statements in the new environment up to the first failure, then puts back the previous environment, also on the error path |
| Interpreter.Interpreter.VisitStmt | src/interpreter.rs:39-77 | agrees with `Exec` |
| Interpreter.Interpreter.Evaluate | src/interpreter.rs:79-252 | agrees with `Eval`, both the value and the environment |

## Left out

- src/main.rs (argument parsing, file reading, printing tokens), src/error.rs (printing to stderr), src/native_fn.rs (`clock` reads the system time) and src/generateAst.rs (a build-time code generator) are not part of this model.
- `AstPrinter::main` and `Tokensizer::print_tokens` only print, so they are left out. Output and error streams are the `output` and `errors` sequences.
- The `EvaluationProperties` examples are statement and expression trees, not source text: the scanner of this snapshot emits no number, identifier or `/` tokens, so no such program reaches the evaluator through `tokenize` and `parse`. Their rows write the trees in the concrete syntax the parser accepts, `print(e);` included.
- Numbers are `real`, not IEEE `f64`: there is no NaN, infinity or rounding.
- Tokens.NumberText: renders integral values exactly as `f64::to_string` does. A non-integral value is approximated by a truncated decimal expansion.
- The source is a sequence of characters. The byte length that `is_at_end` compares against, and the `chars().nth` indexing of `advance`, are not distinguished.
- The Environment chain is a value. `define` and `assign` return the updated chain, and the interpreter stores it back. The chain owns its parent through `Box` and is copied for a block, so there is no sharing to lose. The in-place update itself is not modelled.
- Variable names are strings. `get` and `assign` take a `Token` in the source and use only its lexeme.
- Error text that src/environment.rs does not show: `RuntimeError` is not among the shown files. So the text of a failed `assign` after `to_string()` is modelled as the "Undefined variable 'name'." message that `RuntimeError::new` receives.
- Literal payloads are unified as `TokenLiteral`:
  - the parser stores `true`/`false` as bare `bool` and `nil` as `()`;
  - the evaluator of this snapshot accepts only `TokenLiteral` and bare `bool`, so a `nil` literal would reach its "Unknown literal type." arm;
  - `visit_literal` of the printer (src/astprinter.rs:37-42) downcasts to a bare `String`, which a parser-built `TokenLiteral::String` is not, so the source would print such a literal as `nil`. `AstPrinter.VisitLiteral` prints the text of a string literal, the printer's evident intent for string payloads.
  The model evaluates the unified null literal to nil. The "Unsupported type." arm of variable lookup cannot arise, because stored values are always a number, a string, a boolean or nil.
- A `Token` carries a `TokenLiteral`, as in src/token.rs, rather than the `Option` that `primary` unwraps. A token with no literal is the null literal.
- `If` and `While` statements are handled by neither the parser nor `visit_stmt`, whose `match` has no arm for them. The evaluator's contracts require `Executable` statements.
- Panics of the parser (`consume` and `primary`) are `ParseError` results carrying the cursor position. `ParseError`'s message for "Expect expression." is the text that `error` formats.
- Rust's `Any`/`Arc`/`downcast_ref` plumbing and the `Send + Sync` bounds are replaced by the `Value` datatype. There is no concurrency.
- The node structs' `new` constructors and `Token::new` are the datatype constructors, which store their arguments unchanged. `Expr::accept` is the `match` in `AstPrinter.Print`, which calls the `Visit*` function of the node's variant.
