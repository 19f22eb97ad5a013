/** The `Interpreter` of src/interpreter.rs: an environment field that
    `visit_stmt` and `evaluate` update in place and that `execute_block`
    swaps out and restores, plus the printed lines and the reported runtime
    errors, which the source writes to standard output and standard error.
    Every method is proved to compute what the functions of `Evaluation`
    specify. */
module Interpreter {
  import opened Wrappers
  import opened Tokens
  import opened Ast
  import opened Environments
  import opened Evaluation

  class Interpreter {
    var environment: Environment
    var output: seq<string>
    var errors: seq<string>

    /** `Interpreter::new`: the global scope, nothing printed or reported. */
    constructor()
      ensures environment == New() && output == [] && errors == []
    {
      environment := New();
      output := [];
      errors := [];
    }

    /** `interpret`: each statement in turn; a runtime error is reported and
        the next statement still runs. */
    method Interpret(statements: seq<Stmt>)
      requires AllExecutable(statements)
      modifies this
      ensures Session(State(environment, output), errors) ==
        Evaluation.Interpret(old(Session(State(environment, output), errors)), statements)
    {
      ghost var start := Session(State(environment, output), errors);
      for i := 0 to |statements|
        invariant Session(State(environment, output), errors) == Evaluation.Interpret(start, statements[..i])
      {
        assert statements[..i + 1][..i] == statements[..i];
        var r := VisitStmt(statements[i]);
        if r.Failure? {
          errors := errors + [Report(r.error)];
        }
      }
      assert statements[..|statements|] == statements;
    }

    /** `execute_block`: run the statements in `newEnv` up to the first
        failure, then put back the environment that was current before. */
    method ExecuteBlock(statements: seq<Stmt>, newEnv: Environment) returns (r: Result<(), string>)
      requires AllExecutable(statements)
      modifies this`environment, this`output
      ensures environment == old(environment)
      ensures var o := ExecAll(State(newEnv, old(output)), statements);
        r == o.result && output == o.state.output
      decreases statements
    {
      ghost var start := State(newEnv, output);
      var previous := environment;
      environment := newEnv;
      r := Success(());
      var i := 0;
      while i < |statements|
        invariant 0 <= i <= |statements| && r.Success?
        invariant Outcome(r, State(environment, output)) == ExecAll(start, statements[..i])
        decreases |statements| - i
      {
        assert statements[..i + 1][..i] == statements[..i];
        r := VisitStmt(statements[i]);
        i := i + 1;
        if r.Failure? {
          ExecAllStops(start, statements, i);
          break;
        }
      }
      if r.Success? {
        assert statements[..i] == statements;
      }
      environment := previous;
    }

    /** `visit_stmt`. */
    method VisitStmt(s: Stmt) returns (r: Result<(), string>)
      requires Executable(s)
      modifies this`environment, this`output
      ensures Outcome(r, State(environment, output)) == Exec(old(State(environment, output)), s)
      decreases s
    {
      match s
      case BlockStmt(statements) =>
        var enclosing := environment;
        r := ExecuteBlock(statements, WithEnclosing(enclosing));
      case VarStmt(name, initializer) =>
        var value := Null;
        if initializer.Some? {
          value :- Evaluate(initializer.value);
        }
        environment := Define(environment, name, value);
        r := Success(());
      case ExpressionStmt(expression) =>
        var _ :- Evaluate(expression);
        r := Success(());
      case PrintStmt(expression) =>
        var value :- Evaluate(expression);
        output := output + [Stringify(value)];
        r := Success(());
    }

    /** `evaluate`. */
    method Evaluate(e: Expr) returns (r: Result<Value, string>)
      modifies this`environment
      ensures Evaluated(r, environment) == Eval(old(environment), e)
      decreases e
    {
      match e
      case Variable(name) =>
        var found := Get(environment, name.lexeme);
        r := if found.Success? then found else Failure(Undefined(name.lexeme));
      case Assign(target, valueExpr) =>
        var value :- Evaluate(valueExpr);
        var stored := Environments.Assign(environment, target, value);
        if stored.Failure? {
          return Failure(stored.error);
        }
        environment := stored.value;
        r := Success(value);
      case Literal(lit) =>
        r := Success(LiteralValue(lit));
      case Grouping(inner) =>
        r := Evaluate(inner);
      case Unary(operator, operand) =>
        var right :- Evaluate(operand);
        r := UnaryOp(operator.tokenType, right);
      case Binary(left, operator, right) =>
        var l :- Evaluate(left);
        var rv :- Evaluate(right);
        r := BinaryOp(operator.tokenType, l, rv);
    }
  }
}
