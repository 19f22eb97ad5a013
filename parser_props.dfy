/** Precedence and associativity of the expression grammar, and the
    "Expect expression." error, stated over the parser's specification. */
module ParserProperties {
  import opened Wrappers
  import opened Tokens
  import opened Ast
  import opened ParserSpec
  import Scanner

  /** The binding level of a binary operator: 4 equality, 3 comparison,
      2 term, 1 factor; 0 for every other token kind. */
  function BinaryLevel(t: TokenType): (k: nat)
    ensures k <= 4
    ensures 1 <= k ==> t in Operators(k)
    ensures forall j :: 1 <= j <= 4 && t in Operators(j) ==> j == k
  {
    if t in Operators(4) then 4
    else if t in Operators(3) then 3
    else if t in Operators(2) then 2
    else if t in Operators(1) then 1
    else 0
  }

  /** The trees the grammar produces from a level: an operator of level
      `j <= k` at the top, with a left operand of level at most `j` (left
      associativity) and a right operand of level below `j` (so an
      operator binding less tightly, or as tightly, is never the right
      child without parentheses); a prefix operator applied to a level-0
      tree; a literal; or any expression in parentheses. */
  predicate Shaped(e: Expr, k: nat)
    decreases e
  {
    match e
    case Binary(l, op, r) =>
      var j := BinaryLevel(op.tokenType);
      1 <= j <= k && Shaped(l, j) && Shaped(r, j - 1)
    case Unary(op, operand) => op.tokenType in [Bang, Minus] && Shaped(operand, 0)
    case Grouping(inner) => Shaped(inner, 4)
    case Literal(_) => true
    case Variable(_) => false
    case Assign(_, _) => false
  }

  lemma {:induction false} ExpressionShaped(tokens: seq<Token>, pos: nat)
    requires WellFormed(tokens) && pos < |tokens|
    ensures ExpressionAt(tokens, pos).Success? ==> Shaped(ExpressionAt(tokens, pos).value.value, 4)
    decreases |tokens| - pos, 7
  {
    LevelShaped(tokens, pos, 4);
  }

  /** Every successful level parse yields a tree shaped for that level. */
  lemma {:induction false} LevelShaped(tokens: seq<Token>, pos: nat, level: nat)
    requires WellFormed(tokens) && pos < |tokens| && 1 <= level <= 4
    ensures LevelAt(tokens, pos, level).Success? ==> Shaped(LevelAt(tokens, pos, level).value.value, level)
    decreases |tokens| - pos, level + 2
  {
    var operand := if level == 1 then UnaryAt(tokens, pos) else LevelAt(tokens, pos, level - 1);
    if operand.Success? {
      if level == 1 {
        UnaryShaped(tokens, pos);
      } else {
        LevelShaped(tokens, pos, level - 1);
      }
      LoopShaped(tokens, operand.value.next, level, operand.value.value);
    }
  }

  lemma {:induction false} LoopShaped(tokens: seq<Token>, pos: nat, level: nat, left: Expr)
    requires WellFormed(tokens) && pos < |tokens| && 1 <= level <= 4
    requires Shaped(left, level)
    ensures LoopAt(tokens, pos, level, left).Success? ==> Shaped(LoopAt(tokens, pos, level, left).value.value, level)
    decreases |tokens| - pos, level + 2
  {
    if MatchesAt(tokens, pos, Operators(level)) {
      var operand := if level == 1 then UnaryAt(tokens, pos + 1) else LevelAt(tokens, pos + 1, level - 1);
      if operand.Success? {
        if level == 1 {
          UnaryShaped(tokens, pos + 1);
        } else {
          LevelShaped(tokens, pos + 1, level - 1);
        }
        assert BinaryLevel(tokens[pos].tokenType) == level;
        LoopShaped(tokens, operand.value.next, level, Binary(left, tokens[pos], operand.value.value));
      }
    }
  }

  lemma {:induction false} UnaryShaped(tokens: seq<Token>, pos: nat)
    requires WellFormed(tokens) && pos < |tokens|
    ensures UnaryAt(tokens, pos).Success? ==> Shaped(UnaryAt(tokens, pos).value.value, 0)
    decreases |tokens| - pos, 1
  {
    if MatchesAt(tokens, pos, UnaryOperators) {
      UnaryShaped(tokens, pos + 1);
    } else {
      PrimaryShaped(tokens, pos);
    }
  }

  lemma {:induction false} PrimaryShaped(tokens: seq<Token>, pos: nat)
    requires WellFormed(tokens) && pos < |tokens|
    ensures PrimaryAt(tokens, pos).Success? ==> Shaped(PrimaryAt(tokens, pos).value.value, 0)
    decreases |tokens| - pos, 0
  {
    if CheckAt(tokens, pos, LeftParen) && !CheckAt(tokens, pos, False) && !CheckAt(tokens, pos, True) && !CheckAt(tokens, pos, Nil) {
      ExpressionShaped(tokens, pos + 1);
    }
  }

  /** The token kinds an expression can start with. */
  const ExpressionStarts: seq<TokenType> := [Bang, Minus, False, True, Nil, NumberToken, StringToken, LeftParen]

  /** Any other token, end of input included, is the "Expect expression."
      error at that very token, whatever the level the parse starts at. */
  lemma {:induction false} ExpectExpression(tokens: seq<Token>, pos: nat, level: nat)
    requires WellFormed(tokens) && pos < |tokens| && 1 <= level <= 4
    requires AtEnd(tokens, pos) || tokens[pos].tokenType !in ExpressionStarts
    ensures LevelAt(tokens, pos, level) ==
      Failure(ParseError(" Error at '" + tokens[pos].lexeme + "': Expect expression.", pos))
    decreases level
  {
    var error := ParseError(" Error at '" + tokens[pos].lexeme + "': Expect expression.", pos);
    if level > 1 {
      ExpectExpression(tokens, pos, level - 1);
    } else {
      assert !MatchesAt(tokens, pos, UnaryOperators);
      assert PrimaryAt(tokens, pos) == Failure(error);
      assert UnaryAt(tokens, pos) == Failure(error);
    }
  }

  function NumberAt(n: real, lexeme: string): Token
  {
    Token(NumberToken, lexeme, NumberLit(n), 1)
  }

  function OperatorToken(t: TokenType, lexeme: string): Token
  {
    Token(t, lexeme, NullLit, 1)
  }

  /** `1 - 2 - 3` parses as `(1 - 2) - 3`. */
  lemma SubtractionAssociatesLeft()
    ensures var minus := OperatorToken(Minus, "-");
      var tokens := [NumberAt(1.0, "1"), minus, NumberAt(2.0, "2"), minus, NumberAt(3.0, "3"), Scanner.EofToken(1)];
      ExpressionAt(tokens, 0) ==
        Success(Parsed(Binary(Binary(Literal(NumberLit(1.0)), minus, Literal(NumberLit(2.0))), minus, Literal(NumberLit(3.0))), 5))
  {
    var minus := OperatorToken(Minus, "-");
    var tokens := [NumberAt(1.0, "1"), minus, NumberAt(2.0, "2"), minus, NumberAt(3.0, "3"), Scanner.EofToken(1)];
    var one, two, three := Literal(NumberLit(1.0)), Literal(NumberLit(2.0)), Literal(NumberLit(3.0));
    assert LevelAt(tokens, 0, 1) == Success(Parsed(one, 1)) by {
      assert UnaryAt(tokens, 0) == Success(Parsed(one, 1));
    }
    assert LevelAt(tokens, 2, 1) == Success(Parsed(two, 3)) by {
      assert UnaryAt(tokens, 2) == Success(Parsed(two, 3));
    }
    assert LevelAt(tokens, 4, 1) == Success(Parsed(three, 5)) by {
      assert UnaryAt(tokens, 4) == Success(Parsed(three, 5));
    }
    var left := Binary(one, minus, two);
    assert LoopAt(tokens, 3, 2, left) == Success(Parsed(Binary(left, minus, three), 5));
    var whole := Binary(left, minus, three);
    assert LevelAt(tokens, 0, 2) == Success(Parsed(whole, 5));
    assert LevelAt(tokens, 0, 3) == Success(Parsed(whole, 5));
    assert LevelAt(tokens, 0, 4) == Success(Parsed(whole, 5));
  }

  /** `1 + 2 * 3` parses as `1 + (2 * 3)`. */
  lemma ProductBindsTighter()
    ensures var plus, star := OperatorToken(Plus, "+"), OperatorToken(Star, "*");
      var tokens := [NumberAt(1.0, "1"), plus, NumberAt(2.0, "2"), star, NumberAt(3.0, "3"), Scanner.EofToken(1)];
      ExpressionAt(tokens, 0) ==
        Success(Parsed(Binary(Literal(NumberLit(1.0)), plus, Binary(Literal(NumberLit(2.0)), star, Literal(NumberLit(3.0)))), 5))
  {
    var plus, star := OperatorToken(Plus, "+"), OperatorToken(Star, "*");
    var tokens := [NumberAt(1.0, "1"), plus, NumberAt(2.0, "2"), star, NumberAt(3.0, "3"), Scanner.EofToken(1)];
    var one, two, three := Literal(NumberLit(1.0)), Literal(NumberLit(2.0)), Literal(NumberLit(3.0));
    assert LevelAt(tokens, 0, 1) == Success(Parsed(one, 1)) by {
      assert UnaryAt(tokens, 0) == Success(Parsed(one, 1));
    }
    assert UnaryAt(tokens, 2) == Success(Parsed(two, 3));
    assert UnaryAt(tokens, 4) == Success(Parsed(three, 5));
    var product := Binary(two, star, three);
    assert LevelAt(tokens, 2, 1) == Success(Parsed(product, 5)) by {
      assert LoopAt(tokens, 3, 1, two) == Success(Parsed(product, 5));
    }
    var whole := Binary(one, plus, product);
    assert LevelAt(tokens, 0, 2) == Success(Parsed(whole, 5)) by {
      assert LoopAt(tokens, 1, 2, one) == Success(Parsed(whole, 5));
    }
    assert LevelAt(tokens, 0, 3) == Success(Parsed(whole, 5));
    assert LevelAt(tokens, 0, 4) == Success(Parsed(whole, 5));
  }
}
