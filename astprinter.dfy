/** The S-expression printer of src/astprinter.rs. `Expr::accept` with the
    printer as visitor is `Print`'s match, which calls exactly the
    `Visit*` function of the node's variant. */
module AstPrinter {
  import opened Tokens
  import opened Ast

  /** The printer's visitor covers the four variants of src/expr.rs. */
  predicate Printable(e: Expr)
  {
    match e
    case Binary(left, _, right) => Printable(left) && Printable(right)
    case Grouping(inner) => Printable(inner)
    case Literal(_) => true
    case Unary(_, operand) => Printable(operand)
    case Variable(_) => false
    case Assign(_, _) => false
  }

  /** Each part preceded by one space, in order. */
  function Spaced(parts: seq<string>): string
  {
    if parts == [] then "" else Spaced(parts[..|parts| - 1]) + " " + parts[|parts| - 1]
  }

  lemma SpacedOne(a: string)
    ensures Spaced([a]) == " " + a
  {
    assert [a][..0] == [];
  }

  lemma SpacedPair(a: string, b: string)
    ensures Spaced([a, b]) == " " + a + " " + b
  {
    assert [a, b][..1] == [a];
    SpacedOne(a);
  }

  /** Appending one more part to a spaced text behind a fixed prefix. */
  lemma SpacedPrefix(prefix: string, parts: seq<string>, i: nat)
    requires i < |parts|
    ensures prefix + Spaced(parts[..i + 1]) == prefix + Spaced(parts[..i]) + " " + parts[i]
  {
    assert parts[..i + 1][..i] == parts[..i];
  }

  /** What `parenthesize` builds from the printed sub-expressions. */
  function Parenthesized(name: string, parts: seq<string>): string
  {
    "(" + name + Spaced(parts) + ")"
  }

  /** `AstPrinter::print`: `expr.accept(self)`. */
  function Print(e: Expr): (s: string)
    requires Printable(e)
    ensures e.Literal? ==> s == (if e.value.StringLit? then e.value.text else "nil")
    ensures !e.Literal? ==> 2 <= |s| && s[0] == '(' && s[|s| - 1] == ')'
    decreases Size(e), 1
  {
    match e
    case Binary(left, operator, right) => VisitBinary(left, operator, right)
    case Grouping(inner) => VisitGrouping(inner)
    case Literal(value) => VisitLiteral(value)
    case Unary(operator, operand) => VisitUnary(operator, operand)
  }

  /** A binary node prints as `(op left right)` with the operator's lexeme. */
  function VisitBinary(left: Expr, operator: Token, right: Expr): (s: string)
    requires Printable(left) && Printable(right)
    ensures s == "(" + operator.lexeme + " " + Print(left) + " " + Print(right) + ")"
    decreases Size(left) + Size(right) + 1, 0
  {
    SpacedPair(Print(left), Print(right));
    Parenthesized(operator.lexeme, [Print(left), Print(right)])
  }

  /** A grouping prints as `(group inner)`. */
  function VisitGrouping(inner: Expr): (s: string)
    requires Printable(inner)
    ensures s == "(" + "group" + " " + Print(inner) + ")"
    decreases Size(inner) + 1, 0
  {
    SpacedOne(Print(inner));
    Parenthesized("group", [Print(inner)])
  }

  /** A string literal prints verbatim; every other literal prints `nil`. */
  function VisitLiteral(value: TokenLiteral): (s: string)
    ensures value.StringLit? ==> s == value.text
    ensures !value.StringLit? ==> s == "nil"
  {
    if value.StringLit? then value.text else "nil"
  }

  /** A unary node prints as `(op operand)`. */
  function VisitUnary(operator: Token, operand: Expr): (s: string)
    requires Printable(operand)
    ensures s == "(" + operator.lexeme + " " + Print(operand) + ")"
    decreases Size(operand) + 1, 0
  {
    SpacedOne(Print(operand));
    Parenthesized(operator.lexeme, [Print(operand)])
  }

  /** The printed form of each expression, in order. */
  function PrintAll(es: seq<Expr>): (r: seq<string>)
    requires forall i :: 0 <= i < |es| ==> Printable(es[i])
    ensures |r| == |es| && forall i :: 0 <= i < |es| ==> r[i] == Print(es[i])
  {
    seq(|es|, i requires 0 <= i < |es| => Print(es[i]))
  }

  /** `parenthesize`: "(" and the name, then a space and the printed form
      of each expression in turn, then ")". */
  method Parenthesize(name: string, expressions: seq<Expr>) returns (result: string)
    requires forall i :: 0 <= i < |expressions| ==> Printable(expressions[i])
    ensures result == Parenthesized(name, PrintAll(expressions))
  {
    ghost var printed := PrintAll(expressions);
    result := "(";
    result := result + name;
    var i := 0;
    while i < |expressions|
      invariant 0 <= i <= |expressions|
      invariant result == "(" + name + Spaced(printed[..i])
    {
      var part := Print(expressions[i]);
      SpacedPrefix("(" + name, printed, i);
      result := result + " ";
      result := result + part;
      i := i + 1;
    }
    assert printed[..i] == printed;
    result := result + ")";
  }

  /** Occurrences of `c` in `s`. */
  function Count(c: char, s: string): nat
  {
    if s == [] then 0 else Count(c, s[..|s| - 1]) + (if s[|s| - 1] == c then 1 else 0)
  }

  lemma {:induction false} CountAppend(c: char, a: string, b: string)
    ensures Count(c, a + b) == Count(c, a) + Count(c, b)
    decreases |b|
  {
    if b == [] {
      assert a + b == a;
    } else {
      assert (a + b)[..|a + b| - 1] == a + b[..|b| - 1];
      CountAppend(c, a, b[..|b| - 1]);
    }
  }

  /** No operator lexeme and no string literal of the tree holds a
      parenthesis. */
  predicate ParenFree(e: Expr)
    requires Printable(e)
  {
    match e
    case Binary(left, operator, right) =>
      '(' !in operator.lexeme && ')' !in operator.lexeme && ParenFree(left) && ParenFree(right)
    case Grouping(inner) => ParenFree(inner)
    case Literal(value) => value.StringLit? ==> '(' !in value.text && ')' !in value.text
    case Unary(operator, operand) =>
      '(' !in operator.lexeme && ')' !in operator.lexeme && ParenFree(operand)
  }

  /** Nodes other than literals: each prints one pair of parentheses. */
  function Inner(e: Expr): nat
  {
    match e
    case Binary(left, _, right) => 1 + Inner(left) + Inner(right)
    case Grouping(inner) => 1 + Inner(inner)
    case Literal(_) => 0
    case Unary(_, operand) => 1 + Inner(operand)
    case Variable(_) => 0
    case Assign(_, valueExpr) => 1 + Inner(valueExpr)
  }

  lemma {:induction false} CountAbsent(c: char, s: string)
    requires c !in s
    ensures Count(c, s) == 0
  {
    if s != [] {
      CountAbsent(c, s[..|s| - 1]);
    }
  }

  /** The printed form is balanced: it holds one "(" and one ")" for each
      non-literal node, when no lexeme or string literal holds either. */
  lemma {:induction false} PrintBalanced(e: Expr)
    requires Printable(e) && ParenFree(e)
    ensures Count('(', Print(e)) == Inner(e)
    ensures Count(')', Print(e)) == Inner(e)
    decreases Size(e)
  {
    match e
    case Binary(left, operator, right) =>
      PrintBalanced(left);
      PrintBalanced(right);
      BinaryBalanced(left, operator, right);
    case Grouping(inner) =>
      PrintBalanced(inner);
      CountParts1("group", Print(inner), Inner(inner));
    case Literal(value) =>
      CountAbsent('(', Print(e));
      CountAbsent(')', Print(e));
    case Unary(operator, operand) =>
      PrintBalanced(operand);
      CountParts1(operator.lexeme, Print(operand), Inner(operand));
  }

  /** One step of `PrintBalanced` for a binary node. */
  lemma BinaryBalanced(left: Expr, operator: Token, right: Expr)
    requires Printable(left) && Printable(right)
    requires '(' !in operator.lexeme && ')' !in operator.lexeme
    requires Count('(', Print(left)) == Inner(left) && Count(')', Print(left)) == Inner(left)
    requires Count('(', Print(right)) == Inner(right) && Count(')', Print(right)) == Inner(right)
    ensures Count('(', Print(Binary(left, operator, right))) == Inner(left) + Inner(right) + 1
    ensures Count(')', Print(Binary(left, operator, right))) == Inner(left) + Inner(right) + 1
  {
    CountSumPair('(', Print(left), Print(right));
    CountSumPair(')', Print(left), Print(right));
    CountParts(operator.lexeme, [Print(left), Print(right)], Inner(left) + Inner(right));
  }

  /** `CountParts` for a node with one printed child. */
  lemma CountParts1(name: string, part: string, n: nat)
    requires '(' !in name && ')' !in name
    requires Count('(', part) == n && Count(')', part) == n
    ensures Count('(', Parenthesized(name, [part])) == n + 1
    ensures Count(')', Parenthesized(name, [part])) == n + 1
  {
    assert [part][..0] == [];
    assert CountSum('(', [part]) == CountSum('(', []) + Count('(', part);
    assert CountSum(')', [part]) == CountSum(')', []) + Count(')', part);
    CountParts(name, [part], n);
  }

  function CountSum(c: char, parts: seq<string>): nat
  {
    if parts == [] then 0 else CountSum(c, parts[..|parts| - 1]) + Count(c, parts[|parts| - 1])
  }

  lemma CountSumPair(c: char, a: string, b: string)
    ensures CountSum(c, [a, b]) == Count(c, a) + Count(c, b)
  {
    assert [a, b][..1] == [a];
    assert [a][..0] == [];
    assert CountSum(c, [a]) == CountSum(c, []) + Count(c, a);
    assert CountSum(c, [a, b]) == CountSum(c, [a]) + Count(c, b);
  }

  lemma {:induction false} CountSpaced(c: char, parts: seq<string>)
    requires c != ' '
    ensures Count(c, Spaced(parts)) == CountSum(c, parts)
    decreases |parts|
  {
    if parts != [] {
      var init := parts[..|parts| - 1];
      var last := parts[|parts| - 1];
      CountSpaced(c, init);
      CountAppend(c, Spaced(init) + " ", last);
      CountAppend(c, Spaced(init), " ");
      assert Count(c, " ") == Count(c, "") + 0;
    }
  }

  lemma CountParts(name: string, parts: seq<string>, n: nat)
    requires '(' !in name && ')' !in name
    requires CountSum('(', parts) == n && CountSum(')', parts) == n
    ensures Count('(', Parenthesized(name, parts)) == n + 1
    ensures Count(')', Parenthesized(name, parts)) == n + 1
  {
    forall c | c == '(' || c == ')'
      ensures Count(c, Parenthesized(name, parts)) == Count(c, "(") + Count(c, name) + CountSum(c, parts) + Count(c, ")")
    {
      CountSpaced(c, parts);
      CountAppend(c, "(" + name + Spaced(parts), ")");
      CountAppend(c, "(" + name, Spaced(parts));
      CountAppend(c, "(", name);
    }
    CountAbsent('(', name);
    CountAbsent(')', name);
    assert Count('(', "(") == 1 && Count(')', "(") == 0;
    assert Count('(', ")") == 0 && Count(')', ")") == 1;
  }
}
