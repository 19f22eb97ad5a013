/** The recursive-descent parser of src/parser.rs: a cursor `current`
    over the token vector, moved only by `advance`. Each method is proved
    to return what the matching function of `ParserSpec` computes and to
    leave the cursor where that function says. */
module Parser {
  import opened Wrappers
  import opened Tokens
  import opened Ast
  import opened ParserSpec

  class Parser {
    const tokens: seq<Token>
    var current: nat

    ghost predicate Valid()
      reads this
    {
      WellFormed(tokens) && current < |tokens|
    }

    /** `Parser::new`: the cursor at the first token. */
    constructor (tokens: seq<Token>)
      requires WellFormed(tokens)
      ensures Valid() && this.tokens == tokens && current == 0
    {
      this.tokens := tokens;
      current := 0;
    }

    function Peek(): (t: Token)
      reads this
      requires Valid()
      ensures t == tokens[current]
    {
      tokens[current]
    }

    /** `previous`: read only after at least one token was consumed. */
    function Previous(): (t: Token)
      reads this
      requires Valid() && 0 < current
      ensures t == tokens[current - 1]
    {
      tokens[current - 1]
    }

    /** `is_at_end`: the current token is the end-of-input token, which
        `advance` never moves past, so the cursor stays inside the tokens. */
    predicate IsAtEnd()
      reads this
      requires Valid()
      ensures IsAtEnd() <==> AtEnd(tokens, current)
      ensures current == |tokens| - 1 ==> IsAtEnd()
    {
      Peek().tokenType == Eof
    }

    /** `check`: false at end of input, even for the end-of-input kind;
        otherwise whether the current token has the kind. */
    predicate Check(tokenType: TokenType)
      reads this
      requires Valid()
      ensures Check(tokenType) <==> CheckAt(tokens, current, tokenType)
      ensures tokenType == Eof ==> !Check(tokenType)
    {
      if IsAtEnd() then false else Peek().tokenType == tokenType
    }

    /** `advance`: moves past the current token unless it is the end of
        input, and returns the token just consumed. */
    method Advance() returns (t: Token)
      requires Valid() && (0 < current || !IsAtEnd())
      modifies this`current
      ensures Valid()
      ensures current == if old(IsAtEnd()) then old(current) else old(current) + 1
      ensures 0 < current && t == tokens[current - 1]
    {
      if !IsAtEnd() {
        current := current + 1;
      }
      t := Previous();
    }

    /** `match_tokens`: advances exactly once when `check` holds for one of
        the listed kinds, and otherwise leaves the cursor unchanged. */
    method MatchTokens(types: seq<TokenType>) returns (matched: bool)
      requires Valid()
      modifies this`current
      ensures Valid()
      ensures matched == MatchesAt(tokens, old(current), types)
      ensures current == if matched then old(current) + 1 else old(current)
    {
      var i := 0;
      while i < |types|
        invariant 0 <= i <= |types| && current == old(current)
        invariant forall j :: 0 <= j < i ==> !Check(types[j])
      {
        if Check(types[i]) {
          var _ := Advance();
          return true;
        }
        i := i + 1;
      }
      return false;
    }

    /** `consume`: the current token if it has the expected kind, else a
        failure with `message` at the current token. */
    method Consume(tokenType: TokenType, message: string) returns (r: Result<Token, ParseError>)
      requires Valid()
      modifies this`current
      ensures Valid()
      ensures CheckAt(tokens, old(current), tokenType) ==>
        r == Success(tokens[old(current)]) && current == old(current) + 1
      ensures !CheckAt(tokens, old(current), tokenType) ==>
        r == Failure(ParseError(message, old(current))) && current == old(current)
    {
      if Check(tokenType) {
        var t := Advance();
        return Success(t);
      }
      return Failure(ParseError(message, current));
    }

    method Expression() returns (r: Result<Expr, ParseError>)
      requires Valid()
      modifies this`current
      ensures Valid() && Agrees(r, current, ExpressionAt(tokens, old(current)))
      decreases |tokens| - current, 7
    {
      r := Equality();
    }

    method Equality() returns (r: Result<Expr, ParseError>)
      requires Valid()
      modifies this`current
      ensures Valid() && Agrees(r, current, LevelAt(tokens, old(current), 4))
      decreases |tokens| - current, 6
    {
      ghost var spec := LevelAt(tokens, current, 4);
      var expr :- Comparison();
      while true
        invariant Valid()
        invariant spec == LoopAt(tokens, current, 4, expr)
        decreases |tokens| - current
      {
        ghost var at := current;
        var matched := MatchTokens(EqualityOperators);
        if !matched {
          break;
        }
        var operator := Previous();
        ghost var start := current;
        var operand := Comparison();
        assert Turn(tokens, at, 4, expr, operand, current) by {
          LoopTurn(tokens, at, 4, expr, start, operand, current);
        }
        var right :- operand;
        expr := Binary(expr, operator, right);
      }
      r := Success(expr);
    }

    method Comparison() returns (r: Result<Expr, ParseError>)
      requires Valid()
      modifies this`current
      ensures Valid() && Agrees(r, current, LevelAt(tokens, old(current), 3))
      decreases |tokens| - current, 5
    {
      ghost var spec := LevelAt(tokens, current, 3);
      var expr :- Term();
      while true
        invariant Valid()
        invariant spec == LoopAt(tokens, current, 3, expr)
        decreases |tokens| - current
      {
        ghost var at := current;
        var matched := MatchTokens(ComparisonOperators);
        if !matched {
          break;
        }
        var operator := Previous();
        ghost var start := current;
        var operand := Term();
        assert Turn(tokens, at, 3, expr, operand, current) by {
          LoopTurn(tokens, at, 3, expr, start, operand, current);
        }
        var right :- operand;
        expr := Binary(expr, operator, right);
      }
      r := Success(expr);
    }

    method Term() returns (r: Result<Expr, ParseError>)
      requires Valid()
      modifies this`current
      ensures Valid() && Agrees(r, current, LevelAt(tokens, old(current), 2))
      decreases |tokens| - current, 4
    {
      ghost var spec := LevelAt(tokens, current, 2);
      var expr :- Factor();
      while true
        invariant Valid()
        invariant spec == LoopAt(tokens, current, 2, expr)
        decreases |tokens| - current
      {
        ghost var at := current;
        var matched := MatchTokens(TermOperators);
        if !matched {
          break;
        }
        var operator := Previous();
        ghost var start := current;
        var operand := Factor();
        assert Turn(tokens, at, 2, expr, operand, current) by {
          LoopTurn(tokens, at, 2, expr, start, operand, current);
        }
        var right :- operand;
        expr := Binary(expr, operator, right);
      }
      r := Success(expr);
    }

    method Factor() returns (r: Result<Expr, ParseError>)
      requires Valid()
      modifies this`current
      ensures Valid() && Agrees(r, current, LevelAt(tokens, old(current), 1))
      decreases |tokens| - current, 3
    {
      ghost var spec := LevelAt(tokens, current, 1);
      var expr :- Unary();
      while true
        invariant Valid()
        invariant spec == LoopAt(tokens, current, 1, expr)
        decreases |tokens| - current
      {
        ghost var at := current;
        var matched := MatchTokens(FactorOperators);
        if !matched {
          break;
        }
        var operator := Previous();
        ghost var start := current;
        var operand := Unary();
        assert Turn(tokens, at, 1, expr, operand, current) by {
          LoopTurn(tokens, at, 1, expr, start, operand, current);
        }
        var right :- operand;
        expr := Binary(expr, operator, right);
      }
      r := Success(expr);
    }

    method Unary() returns (r: Result<Expr, ParseError>)
      requires Valid()
      modifies this`current
      ensures Valid() && Agrees(r, current, UnaryAt(tokens, old(current)))
      decreases |tokens| - current, 1
    {
      var matched := MatchTokens(UnaryOperators);
      if matched {
        var operator := Previous();
        var right :- Unary();
        return Success(Ast.Unary(operator, right));
      }
      r := Primary();
    }

    method Primary() returns (r: Result<Expr, ParseError>)
      requires Valid()
      modifies this`current
      ensures Valid() && Agrees(r, current, PrimaryAt(tokens, old(current)))
      decreases |tokens| - current, 0
    {
      ghost var pos := current;
      var matched := MatchTokens([False]);
      if matched {
        r := Success(Literal(BooleanLit(false)));
        assert PrimaryAt(tokens, pos) == Success(Parsed(Literal(BooleanLit(false)), pos + 1));
        return;
      }
      matched := MatchTokens([True]);
      if matched {
        r := Success(Literal(BooleanLit(true)));
        assert PrimaryAt(tokens, pos) == Success(Parsed(Literal(BooleanLit(true)), pos + 1));
        return;
      }
      matched := MatchTokens([Nil]);
      if matched {
        r := Success(Literal(NullLit));
        assert PrimaryAt(tokens, pos) == Success(Parsed(Literal(NullLit), pos + 1));
        return;
      }
      matched := MatchTokens(LiteralTokens);
      if matched {
        r := Success(Literal(Previous().literal));
        assert PrimaryAt(tokens, pos) == Success(Parsed(Literal(tokens[pos].literal), pos + 1));
        return;
      }
      matched := MatchTokens([LeftParen]);
      if matched {
        var expr :- Expression();
        var _ :- Consume(RightParen, MissingRightParen);
        return Success(Grouping(expr));
      }
      r := Failure(ParseError(ExpectExpressionMessage(Peek().lexeme), current));
      assert PrimaryAt(tokens, pos) == Failure(ParseError(ExpectExpressionMessage(tokens[pos].lexeme), pos));
    }
  
    /** `synchronize`: discards tokens up to the next statement boundary. */
    method Synchronize()
      requires Valid() && (0 < current || !IsAtEnd())
      modifies this`current
      ensures Valid() && current == SynchronizeAt(tokens, old(current))
    {
      ghost var wasAtEnd := IsAtEnd();
      var _ := Advance();
      while !IsAtEnd()
        invariant Valid() && 0 < current
        invariant wasAtEnd ==> current == old(current)
        invariant !wasAtEnd ==> old(current) < current && SyncLoop(tokens, current) == SynchronizeAt(tokens, old(current))
        decreases |tokens| - current
      {
        if Previous().tokenType == Semicolon {
          return;
        }
        if Peek().tokenType in StatementStarts {
          return;
        }
        var _ := Advance();
      }
    }

    /** `parse`: all statements up to the end of input in order, or the
        first failure; never a partial list. */
    method Parse() returns (r: Result<seq<Stmt>, ParseError>)
      requires Valid()
      modifies this`current
      ensures Valid() && Agrees(r, current, ParseFrom(tokens, old(current)))
    {
      var statements: seq<Stmt> := [];
      PrependNothing(ParseFrom(tokens, current));
      while !IsAtEnd()
        invariant Valid()
        invariant ParseFrom(tokens, old(current)) == Prepend(statements, ParseFrom(tokens, current))
        decreases |tokens| - current
      {
        ParseStep(tokens, current, statements);
        var stmt :- Statement();
        statements := statements + [stmt];
      }
      assert statements + [] == statements;
      return Success(statements);
    }

    /** `statement`: a print statement after `print`, else an expression
        statement. */
    method Statement() returns (r: Result<Stmt, ParseError>)
      requires Valid()
      modifies this`current
      ensures Valid() && Agrees(r, current, StatementAt(tokens, old(current)))
    {
      var matched := MatchTokens([Print]);
      if matched {
        r := PrintStatement();
      } else {
        r := ExpressionStatement();
      }
    }

    /** `print_statement`: `(`, an expression, `)` and `;`. */
    method PrintStatement() returns (r: Result<Stmt, ParseError>)
      requires Valid() && 0 < current
      modifies this`current
      ensures Valid() && Agrees(r, current, PrintStatementAt(tokens, old(current)))
    {
      ghost var pos := current;
      var _ :- Consume(LeftParen, MissingLeftParen);
      ghost var operand := ExpressionAt(tokens, pos + 1);
      var value :- Expression();
      assert operand == Success(Parsed(value, current));
      var _ :- Consume(RightParen, MissingRightParen);
      var _ :- Consume(Semicolon, MissingPrintSemicolon);
      return Success(PrintStmt(value));
    }

    /** `expression_statement`: an expression and `;`. */
    method ExpressionStatement() returns (r: Result<Stmt, ParseError>)
      requires Valid()
      modifies this`current
      ensures Valid() && Agrees(r, current, ExpressionStatementAt(tokens, old(current)))
    {
      var expr :- Expression();
      var _ :- Consume(Semicolon, MissingSemicolon);
      return Success(ExpressionStmt(expr));
    }
  }
}
