/** What src/interpreter.rs computes, as pure functions: the operators on
    tagged values, `evaluate` over an environment, `visit_stmt` and
    `execute_block` over an environment and the printed output, and
    `interpret`, which also collects the runtime errors. The `Interpreter`
    class is proved to compute exactly these. */
module Evaluation {
  import opened Wrappers
  import opened Tokens
  import opened Ast
  import opened Environments

  /** `stringify`: numbers as decimal text, booleans as `true`/`false`,
      strings verbatim, and `nil` for nil. */
  function Stringify(v: Value): (s: string)
    ensures v.Text? ==> s == v.s
    ensures v.Bool? ==> s == (if v.b then "true" else "false")
    ensures v.Null? ==> s == "nil"
    ensures v.Number? ==> s == NumberText(v.n)
  {
    match v
    case Number(n) => NumberText(n)
    case Bool(b) => if b then "true" else "false"
    case Text(s) => s
    case Null => "nil"
  }

  /** The `Literal` arm of `evaluate`: an identifier literal evaluates to
      its name as a string. */
  function LiteralValue(lit: TokenLiteral): (v: Value)
    ensures lit.NumberLit? <==> v.Number?
    ensures lit.BooleanLit? <==> v.Bool?
    ensures lit.NullLit? <==> v.Null?
    ensures lit.NumberLit? ==> v == Number(lit.number)
    ensures lit.BooleanLit? ==> v == Bool(lit.truth)
    ensures v.Text? ==> v.s == (if lit.StringLit? then lit.text else lit.name)
  {
    match lit
    case NumberLit(n) => Number(n)
    case StringLit(s) => Text(s)
    case IdentifierLit(id) => Text(id)
    case BooleanLit(b) => Bool(b)
    case NullLit => Null
  }

  /** A token literal's `Display` text is the `stringify` text of the value
      it evaluates to, except for the null literal, which displays as
      `null` but stringifies as `nil`. */
  lemma DisplayMatchesStringify(lit: TokenLiteral)
    ensures LiteralText(lit) == if lit.NullLit? then "null" else Stringify(LiteralValue(lit))
  {
  }

  /** The `Unary` arm of `evaluate`, once the operand is evaluated. */
  function UnaryOp(op: TokenType, right: Value): (r: Result<Value, string>)
    ensures op == Bang ==> r == Success(Bool(right == Bool(false)))
    ensures op == Minus ==> (r.Success? <==> right.Number?)
    ensures op == Minus && right.Number? ==> r.value == Number(-right.n)
    ensures op == Minus && !right.Number? ==> r.error == "Operand must be a number."
    ensures op == False ==> r == Success(Bool(false))
    ensures op == True ==> r == Success(Bool(true))
    ensures !(op == Minus || op == Bang || op == False || op == True) ==> r == Failure("Unknown unary operator.")
  {
    match op
    case Minus => if right.Number? then Success(Number(-right.n)) else Failure("Operand must be a number.")
    case Bang => if right.Bool? then Success(Bool(!right.b)) else Success(Bool(false))
    case False => Success(Bool(false))
    case True => Success(Bool(true))
    case _ => Failure("Unknown unary operator.")
  }

  /** The operators that take two numbers only. */
  predicate NumericOperator(op: TokenType)
  {
    op == Minus || op == Star || op == Slash || op == Greater || op == GreaterEqual || op == Less || op == LessEqual
  }

  /** `==` and `!=`. */
  predicate EqualityOperator(op: TokenType)
  {
    op == EqualEqual || op == BangEqual
  }

  /** The operators `evaluate` knows; any other is "Unknown binary operator.". */
  predicate BinaryOperator(op: TokenType)
  {
    op == Plus || EqualityOperator(op) || NumericOperator(op)
  }

  /** `+`: the sum of two numbers; when either side is a string, the
      concatenation of both sides' text. */
  function PlusOp(left: Value, right: Value): (r: Result<Value, string>)
    ensures r.Success? <==> (left.Number? && right.Number?) || left.Text? || right.Text?
    ensures r.Success? ==>
      r.value == if left.Number? && right.Number? then Number(left.n + right.n)
                 else Text(Stringify(left) + Stringify(right))
    ensures r.Failure? ==> r.error == "Operands must be two numbers or two strings."
  {
    if left.Number? && right.Number? then Success(Number(left.n + right.n))
    else if left.Text? && right.Text? then Success(Text(left.s + right.s))
    else if left.Text? then Success(Text(left.s + Stringify(right)))
    else if right.Text? then Success(Text(Stringify(left) + right.s))
    else Failure("Operands must be two numbers or two strings.")
  }

  /** `==` and `!=`: defined on two numbers or two strings only, and `!=`
      is the negation of `==`. */
  function EqualityOp(op: TokenType, left: Value, right: Value): (r: Result<Value, string>)
    requires EqualityOperator(op)
    ensures r.Success? <==> (left.Number? && right.Number?) || (left.Text? && right.Text?)
    ensures r.Success? ==> r.value == Bool((left == right) == (op == EqualEqual))
    ensures r.Failure? ==> r.error == "Operands must be two numbers or two strings."
  {
    if left.Number? && right.Number? then
      Success(Bool(if op == EqualEqual then left.n == right.n else left.n != right.n))
    else if left.Text? && right.Text? then
      Success(Bool(if op == EqualEqual then left.s == right.s else left.s != right.s))
    else Failure("Operands must be two numbers or two strings.")
  }

  /** `-`, `*`, `/` and the comparisons: two numbers, and no division by
      zero. */
  function NumericOp(op: TokenType, left: Value, right: Value): (r: Result<Value, string>)
    requires NumericOperator(op)
    ensures !(left.Number? && right.Number?) ==> r == Failure("Operands must be numbers.")
    ensures op == Slash && left.Number? && right.Number? ==>
      r == if right.n == 0.0 then Failure("Division by zero.") else Success(Number(left.n / right.n))
    ensures op != Slash ==> (r.Success? <==> left.Number? && right.Number?)
    ensures left.Number? && right.Number? ==>
      var a, b := left.n, right.n;
      && (op == Minus ==> r == Success(Number(a - b)))
      && (op == Star ==> r == Success(Number(a * b)))
      && (op == Greater ==> r == Success(Bool(a > b)))
      && (op == GreaterEqual ==> r == Success(Bool(a >= b)))
      && (op == Less ==> r == Success(Bool(a < b)))
      && (op == LessEqual ==> r == Success(Bool(a <= b)))
  {
    if !(left.Number? && right.Number?) then Failure("Operands must be numbers.")
    else
      match op
      case Minus => Success(Number(left.n - right.n))
      case Star => Success(Number(left.n * right.n))
      case Slash => if right.n == 0.0 then Failure("Division by zero.") else Success(Number(left.n / right.n))
      case Greater => Success(Bool(left.n > right.n))
      case GreaterEqual => Success(Bool(left.n >= right.n))
      case Less => Success(Bool(left.n < right.n))
      case LessEqual => Success(Bool(left.n <= right.n))
  }

  /** The `Binary` arm of `evaluate`, once both operands are evaluated. */
  function BinaryOp(op: TokenType, left: Value, right: Value): (r: Result<Value, string>)
    ensures op == Plus ==> r == PlusOp(left, right)
    ensures EqualityOperator(op) ==> r == EqualityOp(op, left, right)
    ensures NumericOperator(op) ==> r == NumericOp(op, left, right)
    ensures !BinaryOperator(op) ==> r == Failure("Unknown binary operator.")
  {
    if op == Plus then PlusOp(left, right)
    else if EqualityOperator(op) then EqualityOp(op, left, right)
    else if NumericOperator(op) then NumericOp(op, left, right)
    else Failure("Unknown binary operator.")
  }

  /** The environment and the lines printed so far. */
  datatype State = State(env: Environment, output: seq<string>)

  /** The result of `evaluate` and the environment after it: an
      assignment made before a failure stays made. */
  datatype Evaluated = Evaluated(result: Result<Value, string>, env: Environment)

  /** The result of `visit_stmt` or `execute_block` and the state after it. */
  datatype Outcome = Outcome(result: Result<(), string>, state: State)

  /** The expression contains an assignment. */
  predicate Assigns(e: Expr)
  {
    match e
    case Binary(l, _, r) => Assigns(l) || Assigns(r)
    case Grouping(inner) => Assigns(inner)
    case Literal(_) => false
    case Unary(_, operand) => Assigns(operand)
    case Variable(_) => false
    case Assign(_, _) => true
  }

  /** Two chains with the same number of scopes, binding the same names
      scope by scope. */
  predicate SameNames(a: Environment, b: Environment)
  {
    && |Scopes(a)| == |Scopes(b)|
    && forall k :: 0 <= k < |Scopes(a)| ==> Scopes(a)[k].Keys == Scopes(b)[k].Keys
  }

  /** `evaluate`. Operands are evaluated left before right, and a failing
      operand ends the evaluation. Evaluation never creates or removes a
      binding, and without an assignment it leaves the environment as it
      was. */
  function Eval(env: Environment, e: Expr): (r: Evaluated)
    ensures SameNames(env, r.env)
    ensures !Assigns(e) ==> r.env == env
    decreases e
  {
    match e
    case Variable(name) =>
      var found := Get(env, name.lexeme);
      if found.Success? then Evaluated(found, env)
      else Evaluated(Failure(Undefined(name.lexeme)), env)
    case Assign(target, valueExpr) =>
      var ev := Eval(env, valueExpr);
      if ev.result.Failure? then ev
      else
        var stored := Environments.Assign(ev.env, target, ev.result.value);
        if stored.Failure? then Evaluated(Failure(stored.error), ev.env)
        else
          AssignKeepsNames(ev.env, target, ev.result.value);
          Evaluated(ev.result, stored.value)
    case Literal(lit) => Evaluated(Success(LiteralValue(lit)), env)
    case Grouping(inner) => Eval(env, inner)
    case Unary(op, operand) =>
      var ev := Eval(env, operand);
      if ev.result.Failure? then ev
      else Evaluated(UnaryOp(op.tokenType, ev.result.value), ev.env)
    case Binary(left, op, right) =>
      var l := Eval(env, left);
      if l.result.Failure? then l
      else
        var r := Eval(l.env, right);
        if r.result.Failure? then r
        else Evaluated(BinaryOp(op.tokenType, l.result.value, r.result.value), r.env)
  }

  /** The statements `visit_stmt` handles: its `match` has no arm for `If`
      and `While`. */
  predicate Executable(s: Stmt)
  {
    match s
    case BlockStmt(ss) => AllExecutable(ss)
    case IfStmt(_, _, _) => false
    case WhileStmt(_, _) => false
    case _ => true
  }

  /** Every statement of the list is one `visit_stmt` handles. */
  predicate AllExecutable(ss: seq<Stmt>)
  {
    forall i :: 0 <= i < |ss| ==> Executable(ss[i])
  }

  /** `visit_stmt`. Output is only ever appended to, a statement leaves as
      many scopes as it found, and a block leaves the environment exactly
      as it was before the block, assignments to outer variables included,
      because the block runs on a copy of it. */
  function Exec(st: State, s: Stmt): (r: Outcome)
    requires Executable(s)
    ensures st.output <= r.state.output
    ensures |Scopes(r.state.env)| == |Scopes(st.env)|
    ensures s.BlockStmt? ==> r.state.env == st.env
    decreases s
  {
    match s
    case BlockStmt(ss) =>
      var inner := ExecAll(State(WithEnclosing(st.env), st.output), ss);
      Outcome(inner.result, State(st.env, inner.state.output))
    case VarStmt(name, initializer) =>
      if initializer.None? then Outcome(Success(()), State(Define(st.env, name, Null), st.output))
      else
        var ev := Eval(st.env, initializer.value);
        if ev.result.Failure? then Outcome(Failure(ev.result.error), State(ev.env, st.output))
        else Outcome(Success(()), State(Define(ev.env, name, ev.result.value), st.output))
    case ExpressionStmt(e) =>
      var ev := Eval(st.env, e);
      if ev.result.Failure? then Outcome(Failure(ev.result.error), State(ev.env, st.output))
      else Outcome(Success(()), State(ev.env, st.output))
    case PrintStmt(e) =>
      var ev := Eval(st.env, e);
      if ev.result.Failure? then Outcome(Failure(ev.result.error), State(ev.env, st.output))
      else Outcome(Success(()), State(ev.env, st.output + [Stringify(ev.result.value)]))
  }

  /** The `try_for_each` of `execute_block`: the statements in order up to
      the first failure, which is the result. */
  function ExecAll(st: State, ss: seq<Stmt>): (r: Outcome)
    requires AllExecutable(ss)
    ensures st.output <= r.state.output
    ensures |Scopes(r.state.env)| == |Scopes(st.env)|
    decreases ss
  {
    if ss == [] then Outcome(Success(()), st)
    else
      var before := ExecAll(st, ss[..|ss| - 1]);
      if before.result.Failure? then before
      else Exec(before.state, ss[|ss| - 1])
  }

  /** Once a prefix of a block fails, the block's outcome is that failure:
      no later statement runs. */
  lemma {:induction false} ExecAllStops(st: State, ss: seq<Stmt>, k: nat)
    requires AllExecutable(ss)
    requires k <= |ss| && ExecAll(st, ss[..k]).result.Failure?
    ensures ExecAll(st, ss) == ExecAll(st, ss[..k])
    decreases |ss| - k
  {
    if k < |ss| {
      var longer := ss[..k + 1];
      assert longer[..k] == ss[..k];
      ExecAllStops(st, ss, k + 1);
    } else {
      assert ss[..k] == ss;
    }
  }

  /** The state of `interpret`: the interpreter's state and the runtime
      errors reported so far. */
  datatype Session = Session(state: State, errors: seq<string>)

  /** How `interpret` reports a runtime error. */
  function Report(message: string): string
  {
    "Runtime error: " + message
  }

  /** One top-level statement of `interpret`: run it, and report its
      runtime error, if any. */
  function Step(session: Session, s: Stmt): (r: Session)
    requires Executable(s)
    ensures session.state.output <= r.state.output
    ensures var o := Exec(session.state, s);
      r.errors == session.errors + (if o.result.Failure? then [Report(o.result.error)] else [])
  {
    var o := Exec(session.state, s);
    Session(o.state, session.errors + (if o.result.Failure? then [Report(o.result.error)] else []))
  }

  /** `interpret`: every statement in order, each run in the state the one
      before it left, whether or not that one failed. */
  function Interpret(start: Session, ss: seq<Stmt>): (r: Session)
    requires AllExecutable(ss)
    ensures start.state.output <= r.state.output
    ensures start.errors <= r.errors && |r.errors| <= |start.errors| + |ss|
    decreases |ss|
  {
    if ss == [] then start
    else Step(Interpret(start, ss[..|ss| - 1]), ss[|ss| - 1])
  }

  lemma ConcatExecutable(first: seq<Stmt>, second: seq<Stmt>)
    requires AllExecutable(first) && AllExecutable(second)
    ensures AllExecutable(first + second)
  {
    var all := first + second;
    forall i | 0 <= i < |all|
      ensures Executable(all[i])
    {
      if i >= |first| {
        assert all[i] == second[i - |first|];
      }
    }
  }

  /** The last statement runs in the state the others left. */
  lemma InterpretLast(start: Session, ss: seq<Stmt>)
    requires AllExecutable(ss) && ss != []
    ensures AllExecutable(ss[..|ss| - 1])
    ensures Interpret(start, ss) == Step(Interpret(start, ss[..|ss| - 1]), ss[|ss| - 1])
  {
  }

  /** Running two lists of statements one after the other is running their
      concatenation: an error in the first list does not stop the second. */
  lemma {:induction false} InterpretAppend(start: Session, first: seq<Stmt>, second: seq<Stmt>)
    requires AllExecutable(first) && AllExecutable(second)
    ensures AllExecutable(first + second)
    ensures Interpret(start, first + second) == Interpret(Interpret(start, first), second)
    decreases |second|
  {
    ConcatExecutable(first, second);
    var all := first + second;
    if second == [] {
      assert all == first;
    } else {
      var n := |second| - 1;
      var shorter := second[..n];
      assert AllExecutable(shorter) by {
        forall i | 0 <= i < n ensures Executable(shorter[i]) {
          assert shorter[i] == second[i];
        }
      }
      assert all[..|all| - 1] == first + shorter;
      assert all[|all| - 1] == second[n];
      InterpretAppend(start, first, shorter);
      InterpretLast(start, all);
    }
  }
}
