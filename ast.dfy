/** The syntax trees of src/expr.rs and src/stmt.rs. Each node owns its
    children (Rust's `Box`), so a tree is a datatype value; the node
    structs' `new` constructors are the datatype constructors, which store
    their arguments unchanged. The interpreter also uses `Variable` and
    `Assign`, so they are part of `Expr` here. */
module Ast {
  import opened Wrappers
  import opened Tokens

  datatype Expr =
    | Binary(left: Expr, operator: Token, right: Expr)
    | Grouping(expression: Expr)
    | Literal(value: TokenLiteral)
    | Unary(operator: Token, operand: Expr)
    | Variable(name: Token)
    | Assign(target: string, valueExpr: Expr)

  /** `Stmt`, transcribed from src/stmt.rs. */
  datatype Stmt =
    | ExpressionStmt(expression: Expr)
    | PrintStmt(printed: Expr)
    | VarStmt(name: string, initializer: Option<Expr>)
    | BlockStmt(statements: seq<Stmt>)
    | IfStmt(condition: Expr, thenBranch: Stmt, elseBranch: Option<Stmt>)
    | WhileStmt(loopCondition: Expr, body: Stmt)

  /** Number of nodes of a tree; each child is strictly smaller than its
      parent, which is what makes recursive visitors terminate. */
  function Size(e: Expr): (n: nat)
    ensures 1 <= n
    ensures e.Binary? ==> Size(e.left) < n && Size(e.right) < n
    ensures e.Grouping? ==> Size(e.expression) < n
    ensures e.Unary? ==> Size(e.operand) < n
    ensures e.Assign? ==> Size(e.valueExpr) < n
  {
    match e
    case Binary(left, _, right) => 1 + Size(left) + Size(right)
    case Grouping(inner) => 1 + Size(inner)
    case Literal(_) => 1
    case Unary(_, operand) => 1 + Size(operand)
    case Variable(_) => 1
    case Assign(_, valueExpr) => 1 + Size(valueExpr)
  }
}
