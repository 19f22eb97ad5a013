/** Runtime values and the scope chain of src/environment.rs.

    `Value` is the tagged union that replaces the `Box<dyn Any>` values
    (`f64`, `String`, `bool` and `()` for nil). An `Environment` owns its
    enclosing scope by `Box`, so a chain is a datatype value: `define` and
    `assign` return the updated chain, and the interpreter stores it back. */
module Environments {
  import opened Wrappers

  datatype Value = Number(n: real) | Text(s: string) | Bool(b: bool) | Null

  datatype Environment = Environment(values: map<string, Value>, enclosing: Option<Environment>)

  /** The message of a failed lookup or assignment. */
  function Undefined(name: string): string
  {
    "Undefined variable '" + name + "'."
  }

  /** The scopes of a chain, innermost first: the reference view of the
      chain that the operations below are proved against. */
  function Scopes(env: Environment): (s: seq<map<string, Value>>)
    ensures 1 <= |s| && s[0] == env.values
  {
    [env.values] + (if env.enclosing.Some? then Scopes(env.enclosing.value) else [])
  }

  /** Some scope of the chain binds `name`. */
  predicate Bound(env: Environment, name: string)
  {
    exists i :: 0 <= i < |Scopes(env)| && name in Scopes(env)[i]
  }

  /** Index of the innermost scope that binds `name`. */
  function Innermost(scopes: seq<map<string, Value>>, name: string): (i: nat)
    requires exists i :: 0 <= i < |scopes| && name in scopes[i]
    ensures i < |scopes| && name in scopes[i]
    ensures forall j :: 0 <= j < i ==> name !in scopes[j]
  {
    if name in scopes[0] then 0
    else
      assert exists i :: 1 <= i < |scopes| && name in scopes[i];
      assert exists i :: 0 <= i < |scopes[1..]| && name in scopes[1..][i] by {
        var i :| 1 <= i < |scopes| && name in scopes[i];
        assert scopes[1..][i - 1] == scopes[i];
      }
      1 + Innermost(scopes[1..], name)
  }

  /** `Environment::new`: the global scope, with no bindings and no parent. */
  function New(): (env: Environment)
    ensures env.enclosing == None && Scopes(env) == [map[]]
    ensures forall name :: !Bound(env, name) && Get(env, name) == Failure(Undefined(name))
  {
    Environment(map[], None)
  }

  /** `Environment::with_enclosing`: an empty scope in front of `enclosing`. */
  function WithEnclosing(enclosing: Environment): (env: Environment)
    ensures Scopes(env) == [map[]] + Scopes(enclosing)
    ensures forall name :: Get(env, name) == Get(enclosing, name)
  {
    Environment(map[], Some(enclosing))
  }

  /** `define`: insert or overwrite `name` in the innermost scope only. */
  function Define(env: Environment, name: string, value: Value): (r: Environment)
    ensures Scopes(r) == [env.values[name := value]] + Scopes(env)[1..]
    ensures r.enclosing == env.enclosing
    ensures Get(r, name) == Success(value)
    ensures forall other :: other != name ==> Get(r, other) == Get(env, other)
  {
    Environment(env.values[name := value], env.enclosing)
  }

  /** `get`: the value in the innermost scope that binds `name`, or the
      "Undefined variable" error when no scope of the chain binds it. */
  function Get(env: Environment, name: string): (r: Result<Value, string>)
    ensures r.Failure? <==> !Bound(env, name)
    ensures r.Failure? ==> r.error == Undefined(name)
    ensures r.Success? ==> r.value == Scopes(env)[Innermost(Scopes(env), name)][name]
  {
    if name in env.values then
      assert name in Scopes(env)[0];
      Success(env.values[name])
    else if env.enclosing.Some? then
      GetStep(env, name);
      Get(env.enclosing.value, name)
    else Failure(Undefined(name))
  }

  /** A name missing from the innermost scope is bound in the chain iff it
      is bound in the enclosing chain, at the next index. */
  lemma GetStep(env: Environment, name: string)
    requires name !in env.values && env.enclosing.Some?
    ensures Bound(env, name) <==> Bound(env.enclosing.value, name)
    ensures Bound(env, name) ==>
      Innermost(Scopes(env), name) == 1 + Innermost(Scopes(env.enclosing.value), name)
  {
    var s, t := Scopes(env), Scopes(env.enclosing.value);
    assert s == [env.values] + t;
    assert s[1..] == t;
    if Bound(env.enclosing.value, name) {
      var i :| 0 <= i < |t| && name in t[i];
      assert s[i + 1] == t[i];
    }
  }

  /** `assign`: overwrite `name` in the innermost scope that already binds
      it, leaving every other scope unchanged; fail with "Undefined
      variable", creating nothing, when no scope binds it. */
  function Assign(env: Environment, name: string, value: Value): (r: Result<Environment, string>)
    ensures r.Failure? <==> !Bound(env, name)
    ensures r.Failure? ==> r.error == Undefined(name)
    ensures r.Success? ==>
      var s, i := Scopes(env), Innermost(Scopes(env), name);
      Scopes(r.value) == s[i := s[i][name := value]]
  {
    if name in env.values then
      assert name in Scopes(env)[0];
      Success(Environment(env.values[name := value], env.enclosing))
    else if env.enclosing.Some? then
      GetStep(env, name);
      match Assign(env.enclosing.value, name, value)
      case Success(outer) => Success(Environment(env.values, Some(outer)))
      case Failure(message) => Failure(message)
    else Failure(Undefined(name))
  }

  /** After a successful `assign`, `get` returns the new value for the
      name and what it returned before for every other name. */
  lemma {:induction false} AssignThenGet(env: Environment, name: string, value: Value, other: string)
    requires Assign(env, name, value).Success?
    ensures Get(Assign(env, name, value).value, name) == Success(value)
    ensures other != name ==> Get(Assign(env, name, value).value, other) == Get(env, other)
    decreases env
  {
    if name !in env.values {
      var outer := env.enclosing.value;
      AssignThenGet(outer, name, value, other);
      assert Assign(env, name, value).value == Environment(env.values, Some(Assign(outer, name, value).value));
    }
  }

  /** `assign` never creates a binding: scope by scope, the chain binds
      exactly the names it bound before. */
  lemma AssignKeepsNames(env: Environment, name: string, value: Value)
    requires Assign(env, name, value).Success?
    ensures var after := Scopes(Assign(env, name, value).value);
      && |after| == |Scopes(env)|
      && forall k :: 0 <= k < |after| ==> after[k].Keys == Scopes(env)[k].Keys
  {
    var s, i := Scopes(env), Innermost(Scopes(env), name);
    assert name in s[i];
    assert s[i][name := value].Keys == s[i].Keys;
  }
}
