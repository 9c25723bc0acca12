/** Short-circuit evaluation: what compiled code computes, and how much of the value stack it needs. */
module ShortCircuit {
  import opened Common
  import opened Ast

  /**
   * `peak` is the greatest number of stack slots in use above those in use at the start. Stuck is a failure;
   * Unbound is a read of a variable that has no value.
   */
  datatype Run<+T> = Ran(v: T, env: Env, peak: nat) | Stuck | Unbound

  datatype Exit = Ended | Left | Resumed

  function Max(a: nat, b: nat): nat { if a < b then b else a }

  /** r after something that needed n slots. */
  function After<T>(n: nat, r: Run<T>): Run<T> {
    if r.Ran? then r.(peak := Max(n, r.peak)) else r
  }

  /** A run that did not succeed, as the result of what contains it. */
  function Abort<S, T>(r: Run<S>): Run<T>
    requires !r.Ran?
  {
    if r.Stuck? then Stuck else Unbound
  }

  /** A left operand that decides is the result; otherwise the right operand is, whatever its value. */
  function Evaluate(e: Expr, env: Env): (r: Run<Value>)
    ensures r.Ran? ==> r.peak >= 1
    decreases e, 1, 0
  {
    match e
    case Lit(v) => Ran(v, env, 1)
    case True => Ran(VBool(true), env, 1)
    case False => Ran(VBool(false), env, 1)
    case Nil => Ran(VNil, env, 1)
    case Var(x) => if x in env then Ran(env[x], env, 1) else Unbound
    case And(l, r) =>
      var a := Evaluate(l, env);
      if !a.Ran? then a
      else if !a.v.VBool? then Stuck
      else if Decides(e, a.v.b) then a
      else After(a.peak, Evaluate(r, a.env))
    case Or(l, r) =>
      var a := Evaluate(l, env);
      if !a.Ran? then a
      else if !a.v.VBool? then Stuck
      else if Decides(e, a.v.b) then a
      else After(a.peak, Evaluate(r, a.env))
    case IfExpr(test, thn, els) =>
      var t := Evaluate(test, env);
      if !t.Ran? then t
      else if !t.v.VBool? then Stuck
      else if t.v.b then After(t.peak, Evaluate(thn, t.env))
      else if els.Some? then After(t.peak, Evaluate(els.value, t.env))
      else Ran(VNil, t.env, t.peak)
    case ForExpr(id, iter, key, val, body) =>
      var xs := Evaluate(iter, env);
      if !xs.Ran? then xs
      else if !xs.v.VList? then Stuck
      else
        var r := EvaluateEach(key, val, body, xs.v.elems, 0, xs.env);
        if !r.Ran? then Abort(r) else Ran(VList(r.v), Unbind(Unbind(r.env, key), val), Max(xs.peak, r.peak))
    case List(elems) =>
      var r := EvaluateElems(elems, 0, false, 0, env);
      if !r.Ran? then Abort(r) else Ran(VList(r.v), r.env, Max(1, r.peak))
    case Spread(x) => Evaluate(x, env)
  }

  /**
   * The body's values for the elements from i on; each stays on the stack while the next is computed. Counting
   * it takes two slots, and testing for the end one.
   */
  function EvaluateEach(key: Option<nat>, val: Option<nat>, body: Expr, xs: seq<Value>, i: nat, env: Env):
    (r: Run<seq<Value>>)
    ensures r.Ran? ==> r.peak >= |r.v| + 1
    decreases body, 2, |xs| - i
  {
    if i >= |xs| then Ran([], env, 1)
    else
      var b := Evaluate(body, Bind(Bind(env, key, VInt(i)), val, xs[i]));
      if !b.Ran? then Abort(b)
      else
        var rest := EvaluateEach(key, val, body, xs, i + 1, b.env);
        if !rest.Ran? then rest
        else Ran([b.v] + rest.v, rest.env, Max(Max(2, b.peak), 1 + rest.peak))
  }

  /**
   * The elements of a list literal from i on. Before the first spread the values pile up; then there is one list,
   * and `pend` values that wait for an append, which the machine does not have. The peak is counted from the
   * start of the literal.
   */
  function EvaluateElems(es: seq<Expr>, i: nat, spread: bool, pend: nat, env: Env): Run<seq<Value>>
    decreases es, 0, |es| - i
  {
    if i >= |es| then (if spread && pend > 0 then Stuck else Ran([], env, 0))
    else if es[i].Spread? && spread && pend > 0 then Stuck
    else
      var r := Evaluate(es[i], env);
      if !r.Ran? then Abort(r)
      else if es[i].Spread? then
        if !r.v.VList? then Stuck
        else
          var rest := EvaluateElems(es, i + 1, true, 0, r.env);
          if !rest.Ran? then rest else Ran(r.v.elems + rest.v, rest.env, Max(1 + r.peak, rest.peak))
      else
        var rest := EvaluateElems(es, i + 1, spread, if spread then pend + 1 else pend, r.env);
        if !rest.Ran? then rest
        else Ran([r.v] + rest.v, rest.env, Max((if spread then 1 + pend else i) + r.peak, rest.peak))
  }

  /** Values that wait for an append wait for ever. */
  lemma {:induction false} OwedNeverRuns(es: seq<Expr>, i: nat, pend: nat, env: Env)
    requires pend > 0
    ensures !EvaluateElems(es, i, true, pend, env).Ran?
    decreases |es| - i
  {
    if i < |es| && !es[i].Spread? {
      var r := Evaluate(es[i], env);
      if r.Ran? { OwedNeverRuns(es, i + 1, pend + 1, r.env); }
    }
  }

  function Execute(s: Stmt, env: Env): Run<Exit>
    decreases s, 1, 0
  {
    match s
    case Do(e) =>
      var r := Evaluate(e, env);
      if !r.Ran? then Abort(r) else Ran(Ended, r.env, r.peak)
    case Assign(x, e) =>
      var r := Evaluate(e, env);
      if !r.Ran? then Abort(r) else Ran(Ended, r.env[x := r.v], r.peak)
    case If(test, thn, alternate, els) =>
      var t := Evaluate(test, env);
      if !t.Ran? then Abort(t)
      else if !t.v.VBool? then Stuck
      else if t.v.b then After(t.peak, ExecuteAll(thn, t.env))
      else if alternate then After(t.peak, ExecuteAll(els, t.env))
      else Ran(Ended, t.env, t.peak)
    case For(id, iter, key, val, body) =>
      var xs := Evaluate(iter, env);
      if !xs.Ran? then Abort(xs)
      else if !xs.v.VList? then Stuck
      else
        var r := ExecuteEach(key, val, body, xs.v.elems, 0, xs.env);
        if !r.Ran? then r else Ran(Ended, Unbind(Unbind(r.env, key), val), Max(xs.peak, r.peak))
    case Break => Ran(Left, env, 0)
    case Continue => Ran(Resumed, env, 0)
  }

  function ExecuteAll(ss: seq<Stmt>, env: Env): Run<Exit>
    decreases ss, 1, 0
  {
    if ss == [] then Ran(Ended, env, 0)
    else
      var r := Execute(ss[0], env);
      if r.Ran? && r.v == Ended then After(r.peak, ExecuteAll(ss[1..], r.env)) else r
  }

  /** The turns from element i on; testing for the end takes one slot. */
  function ExecuteEach(key: Option<nat>, val: Option<nat>, body: seq<Stmt>, xs: seq<Value>, i: nat, env: Env): Run<Exit>
    decreases body, 2, |xs| - i
  {
    if i >= |xs| then Ran(Ended, env, 1)
    else
      var r := ExecuteAll(body, Bind(Bind(env, key, VInt(i)), val, xs[i]));
      if !r.Ran? then r
      else if r.v == Left then Ran(Ended, r.env, Max(1, r.peak))
      else After(Max(1, r.peak), ExecuteEach(key, val, body, xs, i + 1, r.env))
  }
}
