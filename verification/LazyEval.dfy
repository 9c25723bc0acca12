/**
 * Short-circuit evaluation with no machine in mind: no stack, and every list literal is built. It notes where the
 * tree walker and the compiled code depart from it.
 */
module LazyEval {
  import opened Common
  import opened Ast
  import opened ShortCircuit

  /**
   * `overlooks`: a right operand of and/or was skipped that fails or itself overlooks something, or the value of one
   * was taken that is not a boolean. `appends`: a plain element was reached after a spread in a list literal.
   */
  datatype Lazy<+T> = Gives(v: T, env: Env, overlooks: bool, appends: bool) | Errs

  /** r after something else that was noted. */
  function Noting<T>(r: Lazy<T>, overlooks: bool, appends: bool): Lazy<T> {
    if r.Gives? then r.(overlooks := overlooks || r.overlooks, appends := appends || r.appends) else r
  }

  function Prepend(vs: seq<Value>, rest: Lazy<seq<Value>>): Lazy<seq<Value>> {
    if rest.Gives? then rest.(v := vs + rest.v) else rest
  }

  function LazyOf(e: Expr, env: Env): Lazy<Value>
    decreases e, 1, 0
  {
    match e
    case Lit(v) => Gives(v, env, false, false)
    case True => Gives(VBool(true), env, false, false)
    case False => Gives(VBool(false), env, false, false)
    case Nil => Gives(VNil, env, false, false)
    case Var(x) => if x in env then Gives(env[x], env, false, false) else Errs
    case And(l, r) =>
      var a := LazyOf(l, env);
      if a.Errs? || !a.v.VBool? then Errs else Settle(e, a, LazyOf(r, a.env))
    case Or(l, r) =>
      var a := LazyOf(l, env);
      if a.Errs? || !a.v.VBool? then Errs else Settle(e, a, LazyOf(r, a.env))
    case IfExpr(test, thn, els) =>
      var t := LazyOf(test, env);
      if t.Errs? || !t.v.VBool? then Errs
      else if t.v.b then Noting(LazyOf(thn, t.env), t.overlooks, t.appends)
      else if els.Some? then Noting(LazyOf(els.value, t.env), t.overlooks, t.appends)
      else t.(v := VNil)
    case ForExpr(id, iter, key, val, body) =>
      var xs := LazyOf(iter, env);
      if xs.Errs? || !xs.v.VList? then Errs
      else
        var r := Noting(LazyEach(key, val, body, xs.v.elems, 0, xs.env), xs.overlooks, xs.appends);
        if r.Errs? then Errs else Gives(VList(r.v), Unbind(Unbind(r.env, key), val), r.overlooks, r.appends)
    case List(elems) =>
      var r := LazyElems(elems, 0, false, env);
      if r.Errs? then Errs else Gives(VList(r.v), r.env, r.overlooks, r.appends)
    case Spread(x) => LazyOf(x, env)
  }

  /** A left operand that decides is the result, b being what the skipped right one would do; otherwise b is. */
  function Settle(e: Expr, a: Lazy<Value>, b: Lazy<Value>): Lazy<Value>
    requires a.Gives? && a.v.VBool?
  {
    if Decides(e, a.v.b) then a.(overlooks := a.overlooks || b.Errs? || b.overlooks)
    else if b.Errs? then Errs
    else Noting(b, a.overlooks || !b.v.VBool?, a.appends)
  }

  function LazyEach(key: Option<nat>, val: Option<nat>, body: Expr, xs: seq<Value>, i: nat, env: Env):
    Lazy<seq<Value>>
    decreases body, 2, |xs| - i
  {
    if i >= |xs| then Gives([], env, false, false)
    else
      var b := LazyOf(body, Bind(Bind(env, key, VInt(i)), val, xs[i]));
      if b.Errs? then Errs
      else Prepend([b.v], Noting(LazyEach(key, val, body, xs, i + 1, b.env), b.overlooks, b.appends))
  }

  /** The elements from i on, a spread having come before if `spread`. */
  function LazyElems(es: seq<Expr>, i: nat, spread: bool, env: Env): Lazy<seq<Value>>
    decreases es, 0, |es| - i
  {
    if i >= |es| then Gives([], env, false, false)
    else
      var r := LazyOf(es[i], env);
      if r.Errs? || (es[i].Spread? && !r.v.VList?) then Errs
      else
        var owed := spread && !es[i].Spread?;
        Prepend(
          if es[i].Spread? then r.v.elems else [r.v],
          Noting(LazyElems(es, i + 1, spread || es[i].Spread?, r.env), r.overlooks, r.appends || owed))
  }

  function Perform(s: Stmt, env: Env): Lazy<Exit>
    decreases s, 1, 0
  {
    match s
    case Do(e) =>
      var r := LazyOf(e, env);
      if r.Errs? then Errs else Gives(Ended, r.env, r.overlooks, r.appends)
    case Assign(x, e) =>
      var r := LazyOf(e, env);
      if r.Errs? then Errs else Gives(Ended, r.env[x := r.v], r.overlooks, r.appends)
    case If(test, thn, alternate, els) =>
      var t := LazyOf(test, env);
      if t.Errs? || !t.v.VBool? then Errs
      else if t.v.b then Noting(PerformAll(thn, t.env), t.overlooks, t.appends)
      else if alternate then Noting(PerformAll(els, t.env), t.overlooks, t.appends)
      else Gives(Ended, t.env, t.overlooks, t.appends)
    case For(id, iter, key, val, body) =>
      var xs := LazyOf(iter, env);
      if xs.Errs? || !xs.v.VList? then Errs
      else
        var r := Noting(PerformEach(key, val, body, xs.v.elems, 0, xs.env), xs.overlooks, xs.appends);
        if r.Errs? then Errs else r.(v := Ended, env := Unbind(Unbind(r.env, key), val))
    case Break => Gives(Left, env, false, false)
    case Continue => Gives(Resumed, env, false, false)
  }

  function PerformAll(ss: seq<Stmt>, env: Env): Lazy<Exit>
    decreases ss, 1, 0
  {
    if ss == [] then Gives(Ended, env, false, false)
    else
      var r := Perform(ss[0], env);
      if r.Gives? && r.v == Ended then Noting(PerformAll(ss[1..], r.env), r.overlooks, r.appends) else r
  }

  function PerformEach(key: Option<nat>, val: Option<nat>, body: seq<Stmt>, xs: seq<Value>, i: nat, env: Env):
    Lazy<Exit>
    decreases body, 2, |xs| - i
  {
    if i >= |xs| then Gives(Ended, env, false, false)
    else
      var r := PerformAll(body, Bind(Bind(env, key, VInt(i)), val, xs[i]));
      if r.Errs? then Errs
      else if r.v == Left then r.(v := Ended)
      else Noting(PerformEach(key, val, body, xs, i + 1, r.env), r.overlooks, r.appends)
  }

  // ---- Compiled code succeeds exactly where nothing is appended ----

  ghost predicate Compiles<T(!new)>(r: Run<T>, g: Lazy<T>) {
    && (r.Ran? <==> g.Gives? && !g.appends)
    && (r.Ran? ==> r.v == g.v && r.env == g.env)
  }

  lemma {:induction false} EvaluateIs(e: Expr, env: Env)
    ensures Compiles(Evaluate(e, env), LazyOf(e, env))
    decreases e, 1, 0
  {
    match e
    case And(_, _) => LogicIs(e, env);
    case Or(_, _) => LogicIs(e, env);
    case IfExpr(test, thn, els) =>
      EvaluateIs(test, env);
      var t := LazyOf(test, env);
      if t.Gives? {
        EvaluateIs(thn, t.env);
        if els.Some? { EvaluateIs(els.value, t.env); }
      }
    case ForExpr(_, iter, key, val, body) =>
      EvaluateIs(iter, env);
      var xs := LazyOf(iter, env);
      if xs.Gives? && xs.v.VList? { EachIs(key, val, body, xs.v.elems, 0, xs.env); }
    case List(elems) => ElemsAre(elems, 0, false, env);
    case Spread(x) => EvaluateIs(x, env);
    case _ =>
  }

  lemma {:induction false} LogicIs(e: Expr, env: Env)
    requires e.And? || e.Or?
    ensures Compiles(Evaluate(e, env), LazyOf(e, env))
    decreases e, 0, 0
  {
    EvaluateIs(e.l, env);
    var a := LazyOf(e.l, env);
    if a.Gives? { EvaluateIs(e.r, a.env); }
  }

  lemma {:induction false} EachIs(
      key: Option<nat>, val: Option<nat>, body: Expr, xs: seq<Value>, i: nat, env: Env)
    ensures Compiles(EvaluateEach(key, val, body, xs, i, env), LazyEach(key, val, body, xs, i, env))
    decreases body, 2, |xs| - i
  {
    if i < |xs| {
      var env1 := Bind(Bind(env, key, VInt(i)), val, xs[i]);
      EvaluateIs(body, env1);
      var b := LazyOf(body, env1);
      if b.Gives? {
        EachIs(key, val, body, xs, i + 1, b.env);
        var rest := LazyEach(key, val, body, xs, i + 1, b.env);
        assert LazyEach(key, val, body, xs, i, env) == Prepend([b.v], Noting(rest, b.overlooks, b.appends));
      }
    }
  }

  lemma {:induction false} ElemsAre(es: seq<Expr>, i: nat, spread: bool, env: Env)
    ensures Compiles(EvaluateElems(es, i, spread, 0, env), LazyElems(es, i, spread, env))
    decreases es, 0, |es| - i
  {
    if i < |es| {
      EvaluateIs(es[i], env);
      var r := LazyOf(es[i], env);
      if r.Gives? {
        ElemsAre(es, i + 1, spread || es[i].Spread?, r.env);
        OwedNeverRuns(es, i + 1, 1, r.env);
      }
    }
  }

  lemma {:induction false} ExecuteIs(s: Stmt, env: Env)
    ensures Compiles(Execute(s, env), Perform(s, env))
    decreases s, 1, 0
  {
    match s
    case Do(e) => EvaluateIs(e, env);
    case Assign(x, e) => EvaluateIs(e, env);
    case If(test, thn, alternate, els) =>
      EvaluateIs(test, env);
      var t := LazyOf(test, env);
      if t.Gives? {
        AllAre(thn, t.env);
        AllAre(els, t.env);
      }
    case For(_, iter, key, val, body) =>
      EvaluateIs(iter, env);
      var xs := LazyOf(iter, env);
      if xs.Gives? && xs.v.VList? { TurnsAre(key, val, body, xs.v.elems, 0, xs.env); }
    case Break =>
    case Continue =>
  }

  lemma {:induction false} AllAre(ss: seq<Stmt>, env: Env)
    ensures Compiles(ExecuteAll(ss, env), PerformAll(ss, env))
    decreases ss, 1, 0
  {
    if ss != [] {
      ExecuteIs(ss[0], env);
      var r := Perform(ss[0], env);
      if r.Gives? { AllAre(ss[1..], r.env); }
    }
  }

  lemma {:induction false} TurnsAre(
      key: Option<nat>, val: Option<nat>, body: seq<Stmt>, xs: seq<Value>, i: nat, env: Env)
    ensures Compiles(ExecuteEach(key, val, body, xs, i, env), PerformEach(key, val, body, xs, i, env))
    decreases body, 2, |xs| - i
  {
    if i < |xs| {
      var env1 := Bind(Bind(env, key, VInt(i)), val, xs[i]);
      AllAre(body, env1);
      var r := PerformAll(body, env1);
      if r.Gives? { TurnsAre(key, val, body, xs, i + 1, r.env); }
    }
  }
}
