/** Properties of the interpreter's specification that relate several
    statements: scoping, error reporting and failed assignments. */
module EvaluationProperties {
  import opened Wrappers
  import opened Tokens
  import opened Ast
  import opened Environments
  import opened Evaluation

  function Name(name: string): Token
  {
    Token(Identifier, name, IdentifierLit(name), 1)
  }

  function NumberLiteral(n: real): Expr
  {
    Literal(NumberLit(n))
  }

  /** Assigning to a name bound in no scope fails with "Undefined variable"
      and binds nothing: the environment is the one the value expression
      left. */
  lemma UndeclaredAssignFails(env: Environment, name: string, valueExpr: Expr)
    requires Eval(env, valueExpr).result.Success? && !Bound(Eval(env, valueExpr).env, name)
    ensures Eval(env, Assign(name, valueExpr)) == Evaluated(Failure(Undefined(name)), Eval(env, valueExpr).env)
  {
  }

  /** A statement that succeeds adds no error report. */
  lemma StepSucceeds(session: Session, s: Stmt, after: State)
    requires Executable(s) && Exec(session.state, s) == Outcome(Success(()), after)
    ensures Step(session, s) == Session(after, session.errors)
  {
  }

  /** A statement that fails adds one report, "Runtime error: " and its
      message. */
  lemma StepFails(session: Session, s: Stmt, message: string, after: State)
    requires Executable(s) && Exec(session.state, s) == Outcome(Failure(message), after)
    ensures Step(session, s) == Session(after, session.errors + [Report(message)])
  {
  }

  /** `print e;` with an expression that evaluates: the text of its value
      is appended to the output, and the environment is the one the
      expression left, assignments inside it included. */
  lemma PrintValue(st: State, e: Expr)
    requires Eval(st.env, e).result.Success?
    ensures var ev := Eval(st.env, e);
      Exec(st, PrintStmt(e)) == Outcome(Success(()), State(ev.env, st.output + [Stringify(ev.result.value)]))
  {
  }

  /** A variable evaluates to its binding. */
  lemma VariableValue(env: Environment, name: string, v: Value)
    requires Get(env, name) == Success(v)
    ensures Eval(env, Variable(Name(name))) == Evaluated(Success(v), env)
  {
  }

  lemma OneText()
    ensures Stringify(Number(1.0)) == "1"
  {
    IntegralNumberText(1);
    assert IntText(1) == "1";
  }

  lemma TwoText()
    ensures Stringify(Number(2.0)) == "2"
  {
    IntegralNumberText(2);
    assert IntText(2) == "2";
  }

  /** `interpret` on two statements: the second runs in the state the
      first leaves, after the first's error, if any, is reported. */
  lemma InterpretTwo(start: Session, first: Stmt, second: Stmt)
    requires Executable(first) && Executable(second)
    ensures AllExecutable([first, second])
    ensures Interpret(start, [first, second]) == Step(Step(start, first), second)
  {
    var both := [first, second];
    assert both[..1] == [first];
    assert [first][..0] == [];
    assert Interpret(start, [first]) == Step(Interpret(start, []), first);
    assert Interpret(start, both) == Step(Interpret(start, both[..1]), both[1]);
  }

  /** `interpret` on three statements. */
  lemma InterpretThree(start: Session, first: Stmt, second: Stmt, third: Stmt)
    requires Executable(first) && Executable(second) && Executable(third)
    ensures AllExecutable([first, second, third])
    ensures Interpret(start, [first, second, third]) == Step(Step(Step(start, first), second), third)
  {
    assert [first, second, third][..2] == [first, second];
    InterpretTwo(start, first, second);
  }

  /** The block `{ var a = 2; print a; }` prints `2` and leaves the
      environment as it found it. */
  lemma ShadowingBlock(outer: Environment, out: seq<string>)
    ensures var block := BlockStmt([VarStmt("a", Some(NumberLiteral(2.0))), PrintStmt(Variable(Name("a")))]);
      Executable(block) && Exec(State(outer, out), block) == Outcome(Success(()), State(outer, out + ["2"]))
  {
    var body := [VarStmt("a", Some(NumberLiteral(2.0))), PrintStmt(Variable(Name("a")))];
    var entered := State(WithEnclosing(outer), out);
    var inner := Define(WithEnclosing(outer), "a", Number(2.0));
    assert Eval(entered.env, NumberLiteral(2.0)) == Evaluated(Success(Number(2.0)), entered.env);
    assert Exec(entered, body[0]) == Outcome(Success(()), State(inner, out));
    VariableValue(inner, "a", Number(2.0));
    TwoText();
    PrintValue(State(inner, out), Variable(Name("a")));
    assert body[..1][..0] == [];
    assert ExecAll(entered, body[..1]) == Outcome(Success(()), State(inner, out));
    assert body[..2][..1] == body[..1] && body[..2] == body;
    assert ExecAll(entered, body) == Outcome(Success(()), State(inner, out + ["2"]));
  }

  /** `var a = 1;` */
  lemma DefineOne(st: State)
    ensures Exec(st, VarStmt("a", Some(NumberLiteral(1.0)))) ==
      Outcome(Success(()), State(Define(st.env, "a", Number(1.0)), st.output))
  {
    assert Eval(st.env, NumberLiteral(1.0)) == Evaluated(Success(Number(1.0)), st.env);
  }

  /** `print a;` where `a` is 1. */
  lemma PrintOne(env: Environment, output: seq<string>)
    requires Get(env, "a") == Success(Number(1.0))
    ensures Exec(State(env, output), PrintStmt(Variable(Name("a")))) == Outcome(Success(()), State(env, output + ["1"]))
  {
    VariableValue(env, "a", Number(1.0));
    OneText();
    PrintValue(State(env, output), Variable(Name("a")));
  }

  /** `var a = 1; { var a = 2; print a; } print a;` prints `2`, then `1`:
      the inner `a` shadows the outer one inside the block only, and
      afterwards the outer `a` is 1 again. */
  lemma Shadowing(start: Session)
    ensures var program := [
        VarStmt("a", Some(NumberLiteral(1.0))),
        BlockStmt([VarStmt("a", Some(NumberLiteral(2.0))), PrintStmt(Variable(Name("a")))]),
        PrintStmt(Variable(Name("a")))];
      && AllExecutable(program)
      && Interpret(start, program) ==
         Session(State(Define(start.state.env, "a", Number(1.0)), start.state.output + ["2", "1"]), start.errors)
  {
    var block := BlockStmt([VarStmt("a", Some(NumberLiteral(2.0))), PrintStmt(Variable(Name("a")))]);
    var program := [VarStmt("a", Some(NumberLiteral(1.0))), block, PrintStmt(Variable(Name("a")))];
    var outer := Define(start.state.env, "a", Number(1.0));
    var out := start.state.output;
    DefineOne(start.state);
    var afterVar := Session(State(outer, out), start.errors);
    StepSucceeds(start, program[0], afterVar.state);
    ShadowingBlock(outer, out);
    var afterBlock := Session(State(outer, out + ["2"]), start.errors);
    StepSucceeds(afterVar, block, afterBlock.state);
    PrintOne(outer, out + ["2"]);
    assert out + ["2"] + ["1"] == out + ["2", "1"];
    StepSucceeds(afterBlock, program[2], State(outer, out + ["2", "1"]));
    InterpretThree(start, program[0], block, program[2]);
  }

  /** `print 1 / 0;` fails with the division by zero and prints nothing. */
  lemma PrintDivisionByZero(st: State, slash: Token)
    requires slash.tokenType == Slash
    ensures Exec(st, PrintStmt(Binary(NumberLiteral(1.0), slash, NumberLiteral(0.0)))) ==
      Outcome(Failure("Division by zero."), st)
  {
    var quotient := Binary(NumberLiteral(1.0), slash, NumberLiteral(0.0));
    assert Eval(st.env, NumberLiteral(1.0)) == Evaluated(Success(Number(1.0)), st.env);
    assert Eval(st.env, NumberLiteral(0.0)) == Evaluated(Success(Number(0.0)), st.env);
    assert BinaryOp(Slash, Number(1.0), Number(0.0)) == Failure("Division by zero.");
    assert Eval(st.env, quotient) == Evaluated(Failure("Division by zero."), st.env);
  }

  /** `print 2;` */
  lemma PrintTwo(st: State)
    ensures Exec(st, PrintStmt(NumberLiteral(2.0))) == Outcome(Success(()), State(st.env, st.output + ["2"]))
  {
    TwoText();
    assert Eval(st.env, NumberLiteral(2.0)) == Evaluated(Success(Number(2.0)), st.env);
    PrintValue(st, NumberLiteral(2.0));
  }

  /** `print 1 / 0; print 2;` reports the division by zero and still
      prints `2`. */
  lemma DivisionByZeroContinues(start: Session)
    ensures var slash := Token(Slash, "/", NullLit, 1);
      var program := [PrintStmt(Binary(NumberLiteral(1.0), slash, NumberLiteral(0.0))), PrintStmt(NumberLiteral(2.0))];
      && AllExecutable(program)
      && Interpret(start, program) ==
         Session(State(start.state.env, start.state.output + ["2"]), start.errors + [Report("Division by zero.")])
  {
    var slash := Token(Slash, "/", NullLit, 1);
    var program := [PrintStmt(Binary(NumberLiteral(1.0), slash, NumberLiteral(0.0))), PrintStmt(NumberLiteral(2.0))];
    PrintDivisionByZero(start.state, slash);
    StepFails(start, program[0], "Division by zero.", start.state);
    var afterFirst := Session(start.state, start.errors + [Report("Division by zero.")]);
    PrintTwo(start.state);
    StepSucceeds(afterFirst, program[1], State(start.state.env, start.state.output + ["2"]));
    InterpretTwo(start, program[0], program[1]);
  }

  /** `evaluate` on a binary node runs the left operand first. A failing
      left operand is the result, and the right operand never runs.
      Otherwise the right operand runs in the environment the left one
      left, and two values are combined by `BinaryOp`. */
  lemma BinaryLeftFirst(env: Environment, left: Expr, op: Token, right: Expr)
    ensures Eval(env, left).result.Failure? ==> Eval(env, Binary(left, op, right)) == Eval(env, left)
    ensures var l := Eval(env, left);
      l.result.Success? ==>
        var r := Eval(l.env, right);
        && Eval(env, Binary(left, op, right)).env == r.env
        && (r.result.Failure? ==> Eval(env, Binary(left, op, right)).result == r.result)
        && (r.result.Success? ==>
              Eval(env, Binary(left, op, right)).result == BinaryOp(op.tokenType, l.result.value, r.result.value))
  {
  }

  /** `a = 1` with `a` bound evaluates to 1 and leaves `a` holding 1. */
  lemma AssignOne(env: Environment) returns (after: Environment)
    requires Bound(env, "a")
    ensures Eval(env, Assign("a", NumberLiteral(1.0))) == Evaluated(Success(Number(1.0)), after)
    ensures Get(after, "a") == Success(Number(1.0))
  {
    assert Eval(env, NumberLiteral(1.0)) == Evaluated(Success(Number(1.0)), env);
    AssignYields(env, "a", NumberLiteral(1.0));
    after := Eval(env, Assign("a", NumberLiteral(1.0))).env;
  }

  /** `(a = 1) + a` is 2 whenever `a` is bound: the right operand sees
      the assignment the left one made. */
  lemma LeftAssignmentSeenByRight(env: Environment, plus: Token)
    requires Bound(env, "a") && plus.tokenType == Plus
    ensures Eval(env, Binary(Assign("a", NumberLiteral(1.0)), plus, Variable(Name("a")))).result == Success(Number(2.0))
  {
    var after := AssignOne(env);
    VariableValue(after, "a", Number(1.0));
    BinaryLeftFirst(env, Assign("a", NumberLiteral(1.0)), plus, Variable(Name("a")));
    assert PlusOp(Number(1.0), Number(1.0)) == Success(Number(2.0));
  }

  /** Assignment evaluates its value first; a failing value is the
      result. With a value, the assignment succeeds exactly when the
      name is bound somewhere in the chain, and then it evaluates to the
      assigned value, which `get` afterwards finds under the name. */
  lemma AssignYields(env: Environment, name: string, valueExpr: Expr)
    ensures var ev, after := Eval(env, valueExpr), Eval(env, Assign(name, valueExpr));
      && (ev.result.Failure? ==> after == ev)
      && (ev.result.Success? ==> (after.result.Success? <==> Bound(ev.env, name)))
      && (after.result.Success? ==> after.result == ev.result && Get(after.env, name) == after.result)
  {
    var ev, after := Eval(env, valueExpr), Eval(env, Assign(name, valueExpr));
    if ev.result.Success? {
      var stored := Environments.Assign(ev.env, name, ev.result.value);
      if stored.Success? {
        assert after == Evaluated(ev.result, stored.value);
        AssignThenGet(ev.env, name, ev.result.value, name);
      } else {
        assert after == Evaluated(Failure(stored.error), ev.env);
      }
    }
  }

  /** `var name;` binds nil in the innermost scope, prints nothing, and
      every other name looks up as before. */
  lemma DeclareWithoutInitializer(st: State, name: string, other: string)
    ensures var r := Exec(st, VarStmt(name, None));
      && r.result.Success? && r.state.output == st.output
      && Get(r.state.env, name) == Success(Null)
      && (other != name ==> Get(r.state.env, other) == Get(st.env, other))
  {
  }

  /** `var name = init;` binds the initializer's value in the innermost
      scope of the environment the initializer left; a failing
      initializer is the statement's failure and binds nothing. */
  lemma DeclareWithInitializer(st: State, name: string, init: Expr, other: string)
    ensures var ev, r := Eval(st.env, init), Exec(st, VarStmt(name, Some(init)));
      && r.state.output == st.output
      && (ev.result.Failure? ==> r.result == Failure(ev.result.error) && r.state.env == ev.env)
      && (ev.result.Success? ==>
            && r.result.Success?
            && Get(r.state.env, name) == ev.result
            && (other != name ==> Get(r.state.env, other) == Get(ev.env, other)))
  {
  }
}
