/** The grammar of src/parser.rs as pure functions of the token sequence
    and a cursor position: what each `Parser` method computes and where it
    leaves the cursor. A panic of the source is a `ParseError` carrying
    the position of the cursor when it happened. */
module ParserSpec {
  import opened Wrappers
  import opened Tokens
  import opened Ast

  datatype ParseError = ParseError(message: string, position: nat)

  /** A parse result and the cursor position after it. */
  datatype Parsed<T> = Parsed(value: T, next: nat)

  /** What the parser needs of its tokens: a last token of end-of-input,
      as `tokenize` always produces (otherwise `peek` would index past the
      end). */
  predicate WellFormed(tokens: seq<Token>)
  {
    0 < |tokens| && tokens[|tokens| - 1].tokenType == Eof
  }

  predicate AtEnd(tokens: seq<Token>, pos: nat)
    requires pos < |tokens|
  {
    tokens[pos].tokenType == Eof
  }

  /** `check`: false at end of input, else the current token's kind. */
  predicate CheckAt(tokens: seq<Token>, pos: nat, t: TokenType)
    requires pos < |tokens|
  {
    !AtEnd(tokens, pos) && tokens[pos].tokenType == t
  }

  /** `match_tokens` succeeds: `check` holds for one of the listed kinds. */
  predicate MatchesAt(tokens: seq<Token>, pos: nat, types: seq<TokenType>)
    requires pos < |tokens|
  {
    !AtEnd(tokens, pos) && tokens[pos].tokenType in types
  }

  /** The operators of the four binary levels: 4 equality, 3 comparison,
      2 term, 1 factor. */
  function Operators(level: nat): seq<TokenType>
    requires 1 <= level <= 4
  {
    if level == 4 then EqualityOperators
    else if level == 3 then ComparisonOperators
    else if level == 2 then TermOperators
    else FactorOperators
  }

  const EqualityOperators: seq<TokenType> := [BangEqual, EqualEqual]
  const ComparisonOperators: seq<TokenType> := [Greater, GreaterEqual, Less, LessEqual]
  const TermOperators: seq<TokenType> := [Minus, Plus]
  const FactorOperators: seq<TokenType> := [Slash, Star]

  /** The prefix operators of `unary`. */
  const UnaryOperators: seq<TokenType> := [Bang, Minus]

  /** The tokens whose literal `primary` takes as it is. */
  const LiteralTokens: seq<TokenType> := [NumberToken, StringToken]

  /** A result that starts at `pos`: success moves the cursor forward,
      and any failure happens at or after `pos`, inside the tokens. */
  predicate Advances<T>(tokens: seq<Token>, pos: nat, r: Result<Parsed<T>, ParseError>)
  {
    match r
    case Success(p) => pos < p.next < |tokens|
    case Failure(e) => pos <= e.position < |tokens|
  }

  /** `expression`: an equality. */
  function ExpressionAt(tokens: seq<Token>, pos: nat): (r: Result<Parsed<Expr>, ParseError>)
    requires WellFormed(tokens) && pos < |tokens|
    ensures Advances(tokens, pos, r)
    decreases |tokens| - pos, 7
  {
    LevelAt(tokens, pos, 4)
  }

  /** `equality`, `comparison`, `term` and `factor`: an operand of the next
      tighter level, then the loop of this level's operators. */
  function LevelAt(tokens: seq<Token>, pos: nat, level: nat): (r: Result<Parsed<Expr>, ParseError>)
    requires WellFormed(tokens) && pos < |tokens| && 1 <= level <= 4
    ensures Advances(tokens, pos, r)
    decreases |tokens| - pos, level + 2
  {
    var operand := if level == 1 then UnaryAt(tokens, pos) else LevelAt(tokens, pos, level - 1);
    match operand
    case Failure(e) => Failure(e)
    case Success(Parsed(left, next)) => LoopAt(tokens, next, level, left)
  }

  /** The `while match_tokens(..)` loop of a binary level: each operator
      found folds the expression so far into the left operand. */
  function LoopAt(tokens: seq<Token>, pos: nat, level: nat, left: Expr): (r: Result<Parsed<Expr>, ParseError>)
    requires WellFormed(tokens) && pos < |tokens| && 1 <= level <= 4
    ensures match r
      case Success(p) => pos <= p.next < |tokens|
      case Failure(e) => pos <= e.position < |tokens|
    decreases |tokens| - pos, level + 2
  {
    if MatchesAt(tokens, pos, Operators(level)) then
      var operand := if level == 1 then UnaryAt(tokens, pos + 1) else LevelAt(tokens, pos + 1, level - 1);
      match operand
      case Failure(e) => Failure(e)
      case Success(Parsed(right, next)) => LoopAt(tokens, next, level, Binary(left, tokens[pos], right))
    else
      Success(Parsed(left, pos))
  }

  /** The operand of a binary level: a unary for `factor`, else the next
      tighter level. */
  function Operand(tokens: seq<Token>, pos: nat, level: nat): (r: Result<Parsed<Expr>, ParseError>)
    requires WellFormed(tokens) && pos < |tokens| && 1 <= level <= 4
    ensures Advances(tokens, pos, r)
  {
    if level == 1 then UnaryAt(tokens, pos) else LevelAt(tokens, pos, level - 1)
  }

  /** A method's result and cursor are those of the specification. */
  predicate Agrees<T(==)>(r: Result<T, ParseError>, current: nat, spec: Result<Parsed<T>, ParseError>)
  {
    match spec
    case Success(Parsed(value, next)) => r == Success(value) && current == next
    case Failure(e) => r == Failure(e) && current == e.position
  }

  /** One turn of a binary level's loop, after an operator: an operand
      that fails is the level's failure; one that parses becomes the right
      side of a new binary node, and the loop goes on after it. */
  predicate Turn(tokens: seq<Token>, pos: nat, level: nat, left: Expr, operand: Result<Expr, ParseError>, next: nat)
    requires WellFormed(tokens) && pos < |tokens| && 1 <= level <= 4
  {
    && (operand.Failure? ==> Agrees(Failure(operand.error), next, LoopAt(tokens, pos, level, left)))
    && (operand.Success? ==>
      next < |tokens| && LoopAt(tokens, pos, level, left) == LoopAt(tokens, next, level, Binary(left, tokens[pos], operand.value)))
  }

  /** After an operator of the level, the operand parsed from the next
      token decides the turn. */
  lemma LoopTurn(tokens: seq<Token>, pos: nat, level: nat, left: Expr, start: nat, operand: Result<Expr, ParseError>, next: nat)
    requires WellFormed(tokens) && pos < |tokens| && 1 <= level <= 4 && start == pos + 1 < |tokens|
    requires MatchesAt(tokens, pos, Operators(level))
    requires Agrees(operand, next, Operand(tokens, start, level))
    ensures Turn(tokens, pos, level, left, operand, next)
  {
  }

  /** `unary`: a prefix `!` or `-` applied to a unary, or a primary. */
  function UnaryAt(tokens: seq<Token>, pos: nat): (r: Result<Parsed<Expr>, ParseError>)
    requires WellFormed(tokens) && pos < |tokens|
    ensures Advances(tokens, pos, r)
    decreases |tokens| - pos, 1
  {
    if MatchesAt(tokens, pos, UnaryOperators) then
      match UnaryAt(tokens, pos + 1)
      case Failure(e) => Failure(e)
      case Success(Parsed(operand, next)) => Success(Parsed(Unary(tokens[pos], operand), next))
    else
      PrimaryAt(tokens, pos)
  }

  /** `primary`: a literal, or a parenthesised expression; anything else
      is "Expect expression." at the current token. */
  function PrimaryAt(tokens: seq<Token>, pos: nat): (r: Result<Parsed<Expr>, ParseError>)
    requires WellFormed(tokens) && pos < |tokens|
    ensures Advances(tokens, pos, r)
    decreases |tokens| - pos, 0
  {
    if MatchesAt(tokens, pos, [False]) then Success(Parsed(Literal(BooleanLit(false)), pos + 1))
    else if MatchesAt(tokens, pos, [True]) then Success(Parsed(Literal(BooleanLit(true)), pos + 1))
    else if MatchesAt(tokens, pos, [Nil]) then Success(Parsed(Literal(NullLit), pos + 1))
    else if MatchesAt(tokens, pos, LiteralTokens) then
      Success(Parsed(Literal(tokens[pos].literal), pos + 1))
    else if MatchesAt(tokens, pos, [LeftParen]) then
      match ExpressionAt(tokens, pos + 1)
      case Failure(e) => Failure(e)
      case Success(Parsed(inner, next)) =>
        if CheckAt(tokens, next, RightParen) then Success(Parsed(Grouping(inner), next + 1))
        else Failure(ParseError(MissingRightParen, next))
    else
      Failure(ParseError(ExpectExpressionMessage(tokens[pos].lexeme), pos))
  }

  /** The panic messages of `consume` calls in the grammar. */
  const MissingRightParen: string := "Expect ')' after expression."
  const MissingLeftParen: string := "Expect '(' after 'print'."
  const MissingPrintSemicolon: string := "Expect ';' after print statement."
  const MissingSemicolon: string := "Expect ';' after expression."

  /** The message `error` formats for a token that cannot start an
      expression. */
  function ExpectExpressionMessage(lexeme: string): string
  {
    " Error at '" + lexeme + "': Expect expression."
  }

  /** The keywords that begin a statement, where `synchronize` stops. */
  const StatementStarts: seq<TokenType> := [Class, Fun, Var, For, If, While, Print, Return]

  /** A statement boundary: the end of input, the token after a `;`, or a
      statement keyword. */
  predicate Boundary(tokens: seq<Token>, pos: nat)
    requires 0 < pos < |tokens|
  {
    AtEnd(tokens, pos) || tokens[pos - 1].tokenType == Semicolon || tokens[pos].tokenType in StatementStarts
  }

  /** Where `synchronize`'s loop stops once the cursor is past a token:
      the first boundary from `pos` on. */
  function SyncLoop(tokens: seq<Token>, pos: nat): (q: nat)
    requires WellFormed(tokens) && 0 < pos < |tokens|
    ensures pos <= q < |tokens| && Boundary(tokens, q)
    ensures forall j :: pos <= j < q ==> !Boundary(tokens, j)
    decreases |tokens| - pos
  {
    if AtEnd(tokens, pos) then pos
    else if tokens[pos - 1].tokenType == Semicolon then pos
    else if tokens[pos].tokenType in StatementStarts then pos
    else SyncLoop(tokens, pos + 1)
  }

  /** `synchronize`: skip one token, then skip tokens up to just after a
      `;`, just before a statement keyword, or to the end of input. At the
      end of input it does not move; otherwise it moves at least once and
      stops at the first boundary after `pos`. */
  function SynchronizeAt(tokens: seq<Token>, pos: nat): (q: nat)
    requires WellFormed(tokens) && pos < |tokens| && (0 < pos || !AtEnd(tokens, pos))
    ensures pos <= q < |tokens|
    ensures AtEnd(tokens, pos) ==> q == pos
    ensures !AtEnd(tokens, pos) ==> pos < q && Boundary(tokens, q)
    ensures forall j :: pos < j < q ==> !Boundary(tokens, j)
  {
    if AtEnd(tokens, pos) then pos else SyncLoop(tokens, pos + 1)
  }

  /** The expression of a print statement: what `expression` parses just
      after the `(` at `pos`. */
  function PrintedAt(tokens: seq<Token>, pos: nat): Result<Parsed<Expr>, ParseError>
    requires WellFormed(tokens) && pos + 1 < |tokens|
  {
    ExpressionAt(tokens, pos + 1)
  }

  /** `print_statement`, after the `print` keyword: `(`, an expression,
      `)` and `;`, each missing one a panic at the cursor. The source's
      `Err` arm for the expression (synchronize and print `nil`) is never
      taken, because `expression` only ever returns `Ok`: its failures are
      panics, which end the parse here as they do in the source. */
  function PrintStatementAt(tokens: seq<Token>, pos: nat): (r: Result<Parsed<Stmt>, ParseError>)
    requires WellFormed(tokens) && 0 < pos < |tokens|
    ensures Advances(tokens, pos, r)
    ensures !CheckAt(tokens, pos, LeftParen) ==> r == Failure(ParseError(MissingLeftParen, pos))
    ensures CheckAt(tokens, pos, LeftParen) && PrintedAt(tokens, pos).Failure? ==>
      r == Failure(PrintedAt(tokens, pos).error)
    ensures CheckAt(tokens, pos, LeftParen) && PrintedAt(tokens, pos).Success? ==>
      var close := PrintedAt(tokens, pos).value.next;
      && (!CheckAt(tokens, close, RightParen) ==> r == Failure(ParseError(MissingRightParen, close)))
      && (CheckAt(tokens, close, RightParen) && !CheckAt(tokens, close + 1, Semicolon) ==>
            r == Failure(ParseError(MissingPrintSemicolon, close + 1)))
    ensures r.Success? ==>
      && CheckAt(tokens, pos, LeftParen)
      && pos + 3 < r.value.next
      && r.value.value.PrintStmt?
      && PrintedAt(tokens, pos) == Success(Parsed(r.value.value.printed, r.value.next - 2))
      && CheckAt(tokens, r.value.next - 2, RightParen)
      && CheckAt(tokens, r.value.next - 1, Semicolon)
  {
    if !CheckAt(tokens, pos, LeftParen) then Failure(ParseError(MissingLeftParen, pos))
    else
      match PrintedAt(tokens, pos)
      case Failure(e) => Failure(e)
      case Success(Parsed(value, next)) =>
        if !CheckAt(tokens, next, RightParen) then Failure(ParseError(MissingRightParen, next))
        else if !CheckAt(tokens, next + 1, Semicolon) then
          Failure(ParseError(MissingPrintSemicolon, next + 1))
        else Success(Parsed(PrintStmt(value), next + 2))
  }

  /** `expression_statement`: an expression and `;`; as in
      `print_statement`, the `Err` arm is never taken. */
  function ExpressionStatementAt(tokens: seq<Token>, pos: nat): (r: Result<Parsed<Stmt>, ParseError>)
    requires WellFormed(tokens) && pos < |tokens|
    ensures Advances(tokens, pos, r)
    ensures ExpressionAt(tokens, pos).Failure? ==> r == Failure(ExpressionAt(tokens, pos).error)
    ensures var e := ExpressionAt(tokens, pos);
      e.Success? && !CheckAt(tokens, e.value.next, Semicolon) ==> r == Failure(ParseError(MissingSemicolon, e.value.next))
    ensures r.Success? ==>
      && pos + 1 < r.value.next
      && r.value.value.ExpressionStmt?
      && ExpressionAt(tokens, pos) == Success(Parsed(r.value.value.expression, r.value.next - 1))
      && CheckAt(tokens, r.value.next - 1, Semicolon)
  {
    match ExpressionAt(tokens, pos)
    case Failure(e) => Failure(e)
    case Success(Parsed(expr, next)) =>
      if CheckAt(tokens, next, Semicolon) then Success(Parsed(ExpressionStmt(expr), next + 1))
      else Failure(ParseError(MissingSemicolon, next))
  }

  /** `statement`: a print statement after `print`, else an expression
      statement. */
  function StatementAt(tokens: seq<Token>, pos: nat): (r: Result<Parsed<Stmt>, ParseError>)
    requires WellFormed(tokens) && pos < |tokens|
    ensures Advances(tokens, pos, r)
  {
    if CheckAt(tokens, pos, Print) then PrintStatementAt(tokens, pos + 1)
    else ExpressionStatementAt(tokens, pos)
  }

  /** `parse`: the statements up to the end of input, in order; the first
      failing statement fails the whole parse. */
  function ParseFrom(tokens: seq<Token>, pos: nat): (r: Result<Parsed<seq<Stmt>>, ParseError>)
    requires WellFormed(tokens) && pos < |tokens|
    ensures r.Success? ==> pos <= r.value.next < |tokens| && AtEnd(tokens, r.value.next)
    ensures r.Success? ==> |r.value.value| <= r.value.next - pos
    ensures r.Failure? ==> pos <= r.error.position < |tokens|
    decreases |tokens| - pos
  {
    if AtEnd(tokens, pos) then Success(Parsed([], pos))
    else
      match StatementAt(tokens, pos)
      case Failure(e) => Failure(e)
      case Success(Parsed(s, next)) =>
        match ParseFrom(tokens, next)
        case Failure(e) => Failure(e)
        case Success(Parsed(ss, end)) => Success(Parsed([s] + ss, end))
  }

  /** The statements already parsed, in front of what the rest gives. */
  function Prepend(done: seq<Stmt>, rest: Result<Parsed<seq<Stmt>>, ParseError>): Result<Parsed<seq<Stmt>>, ParseError>
  {
    match rest
    case Failure(e) => Failure(e)
    case Success(Parsed(more, end)) => Success(Parsed(done + more, end))
  }

  /** Nothing parsed yet: `Prepend` leaves the rest as it is. */
  lemma PrependNothing(rest: Result<Parsed<seq<Stmt>>, ParseError>)
    ensures Prepend([], rest) == rest
  {
    if rest.Success? {
      assert [] + rest.value.value == rest.value.value;
    }
  }

  /** One step of `parse`: a statement that parses moves from the rest of
      the input to the statements already parsed; one that fails is the
      failure of the whole parse. */
  lemma ParseStep(tokens: seq<Token>, pos: nat, done: seq<Stmt>)
    requires WellFormed(tokens) && pos < |tokens| && !AtEnd(tokens, pos)
    ensures StatementAt(tokens, pos).Success? ==>
      Prepend(done, ParseFrom(tokens, pos)) ==
      Prepend(done + [StatementAt(tokens, pos).value.value], ParseFrom(tokens, StatementAt(tokens, pos).value.next))
    ensures StatementAt(tokens, pos).Failure? ==>
      Prepend(done, ParseFrom(tokens, pos)) == Failure(StatementAt(tokens, pos).error)
  {
    var first := StatementAt(tokens, pos);
    if first.Success? {
      var rest := ParseFrom(tokens, first.value.next);
      if rest.Success? {
        assert done + ([first.value.value] + rest.value.value) == (done + [first.value.value]) + rest.value.value;
      }
    }
  }
}
