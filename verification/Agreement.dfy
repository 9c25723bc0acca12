/** Tree walking succeeds exactly where short-circuit evaluation does and overlooks nothing, with the same result. */
module Agreement {
  import opened Common
  import opened Ast
  import opened ShortCircuit
  import opened LazyEval
  import opened Scope

  /** a tells no more than b. */
  ghost predicate Sub(a: Env, b: Env) {
    forall x :: x in a ==> x in b && a[x] == b[x]
  }

  // ---- Expressions bind no variable; they only forget loop variables ----

  ghost predicate Forgot(a: Env, b: Env, lost: set<nat>) {
    Sub(a, b) && b.Keys - lost <= a.Keys
  }

  lemma {:induction false} EvalForgets(e: Expr, env: Env)
    requires Eval(e, env).Ok?
    ensures Forgot(Eval(e, env).env, env, Forgets(e))
    decreases e, 1, 0
  {
    match e
    case And(l, r) => EvalForgets(l, env); EvalForgets(r, Eval(l, env).env);
    case Or(l, r) => EvalForgets(l, env); EvalForgets(r, Eval(l, env).env);
    case IfExpr(test, thn, els) =>
      EvalForgets(test, env);
      var t := Eval(test, env);
      if t.v.b {
        EvalForgets(thn, t.env);
      } else if els.Some? {
        EvalForgets(els.value, t.env);
      }
    case ForExpr(_, iter, key, val, body) =>
      EvalForgets(iter, env);
      var xs := Eval(iter, env);
      EachForgets(key, val, body, xs.v.elems, 0, xs.env, xs.env);
    case List(elems) => ElemsForgot(elems, 0, env);
    case Spread(x) => EvalForgets(x, env);
    case _ =>
  }

  /** The same, the loop variables apart. */
  ghost predicate ForgotBut(a: Env, b: Env, lost: set<nat>, loop: set<nat>) {
    && (forall x :: x in a && x !in loop ==> x in b && a[x] == b[x])
    && b.Keys - lost - loop <= a.Keys
  }

  lemma {:induction false} EachForgets(
      key: Option<nat>, val: Option<nat>, body: Expr, xs: seq<Value>, i: nat, env: Env, start: Env)
    requires EvalEach(key, val, body, xs, i, env).Oks? && ForgotBut(env, start, Forgets(body), Names(key) + Names(val))
    ensures ForgotBut(EvalEach(key, val, body, xs, i, env).env, start, Forgets(body), Names(key) + Names(val))
    decreases body, 2, |xs| - i
  {
    if i < |xs| {
      var env1 := Bind(Bind(env, key, VInt(i)), val, xs[i]);
      EvalForgets(body, env1);
      EachForgets(key, val, body, xs, i + 1, Eval(body, env1).env, start);
    }
  }

  lemma {:induction false} ElemsForgot(es: seq<Expr>, i: nat, env: Env)
    requires EvalElems(es, i, env).Oks?
    ensures Forgot(EvalElems(es, i, env).env, env, ElemsForget(es, i))
    decreases es, 0, |es| - i
  {
    if i < |es| {
      EvalForgets(es[i], env);
      ElemsForgot(es, i + 1, Eval(es[i], env).env);
    }
  }

  // ---- Expressions ----

  /** The walker succeeds if and only if g does and overlooks nothing; then it has the same value. */
  ghost predicate Alike(t: Res, g: Lazy<Value>, b: set<nat>) {
    && (t.Ok? <==> g.Gives? && !g.overlooks)
    && (t.Ok? ==> t.v == g.v && Sub(t.env, g.env) && b <= t.env.Keys)
  }

  ghost predicate AllAlike(t: ResList, g: Lazy<seq<Value>>, b: set<nat>) {
    && (t.Oks? <==> g.Gives? && !g.overlooks)
    && (t.Oks? ==> t.vs == g.v && Sub(t.env, g.env) && b <= t.env.Keys)
  }

  /** The walker may know fewer variables, but all those that the check lets be read. */
  ghost predicate Known(b: set<nat>, te: Env, le: Env) { b <= te.Keys && Sub(te, le) }

  lemma BindKnown(b: set<nat>, te: Env, le: Env, key: Option<nat>, val: Option<nat>, k: Value, v: Value)
    requires Known(b, te, le)
    ensures Known(b + Names(key) + Names(val), Bind(Bind(te, key, k), val, v), Bind(Bind(le, key, k), val, v))
  {
  }

  lemma {:induction false} EvalAgrees(e: Expr, te: Env, le: Env, b: set<nat>)
    requires Reads(e, b) && Known(b, te, le)
    ensures Alike(Eval(e, te), LazyOf(e, le), b - Forgets(e))
    decreases e, 1, 0
  {
    match e
    case And(_, _) => LogicAgrees(e, te, le, b);
    case Or(_, _) => LogicAgrees(e, te, le, b);
    case IfExpr(test, thn, els) =>
      EvalAgrees(test, te, le, b);
      var t, g := Eval(test, te), LazyOf(test, le);
      if t.Ok? && t.v.VBool? {
        if t.v.b {
          EvalAgrees(thn, t.env, g.env, b - Forgets(test));
        } else if els.Some? {
          EvalAgrees(els.value, t.env, g.env, b - Forgets(test));
        }
      }
    case ForExpr(_, iter, key, val, body) =>
      EvalAgrees(iter, te, le, b);
      var t, g := Eval(iter, te), LazyOf(iter, le);
      if t.Ok? && t.v.VList? {
        EachAgrees(key, val, body, t.v.elems, 0, t.env, g.env, b - Forgets(iter) - Forgets(body));
      }
    case List(elems) => ElemsAgree(elems, 0, false, te, le, b);
    case Spread(x) => EvalAgrees(x, te, le, b);
    case _ =>
  }

  lemma {:induction false} LogicAgrees(e: Expr, te: Env, le: Env, b: set<nat>)
    requires (e.And? || e.Or?) && Reads(e, b) && Known(b, te, le)
    ensures Alike(Eval(e, te), LazyOf(e, le), b - Forgets(e))
    decreases e, 0, 0
  {
    EvalAgrees(e.l, te, le, b);
    var t, g := Eval(e.l, te), LazyOf(e.l, le);
    if t.Ok? {
      EvalAgrees(e.r, t.env, g.env, b - Forgets(e.l));
      if Eval(e.r, t.env).Ok? { EvalForgets(e.r, t.env); }
      assert Eval(e, te) == Logical(e, t, Eval(e.r, t.env));
    }
  }

  lemma {:induction false} EachAgrees(
      key: Option<nat>, val: Option<nat>, body: Expr, xs: seq<Value>, i: nat, te: Env, le: Env, b: set<nat>)
    requires Reads(body, b + Names(key) + Names(val)) && Known(b, te, le) && b !! Forgets(body)
    ensures AllAlike(EvalEach(key, val, body, xs, i, te), LazyEach(key, val, body, xs, i, le), b)
    decreases body, 2, |xs| - i
  {
    if i < |xs| {
      var te1, le1 := Bind(Bind(te, key, VInt(i)), val, xs[i]), Bind(Bind(le, key, VInt(i)), val, xs[i]);
      TurnAgrees(key, val, body, VInt(i), xs[i], te, le, b);
      var t, g := Eval(body, te1), LazyOf(body, le1);
      if t.Ok? { EachAgrees(key, val, body, xs, i + 1, t.env, g.env, b); }
      EachJoins(key, val, body, xs, i, te, le, t, g, b);
    }
  }

  lemma {:induction false} TurnAgrees(
      key: Option<nat>, val: Option<nat>, body: Expr, k: Value, v: Value, te: Env, le: Env, b: set<nat>)
    requires Reads(body, b + Names(key) + Names(val)) && Known(b, te, le) && b !! Forgets(body)
    ensures Alike(Eval(body, Bind(Bind(te, key, k), val, v)), LazyOf(body, Bind(Bind(le, key, k), val, v)), b)
    decreases body, 2, 0
  {
    BindKnown(b, te, le, key, val, k, v);
    EvalAgrees(body, Bind(Bind(te, key, k), val, v), Bind(Bind(le, key, k), val, v), b + Names(key) + Names(val));
  }

  lemma EachJoins(
      key: Option<nat>, val: Option<nat>, body: Expr, xs: seq<Value>, i: nat, te: Env, le: Env, t: Res, g: Lazy<Value>,
      b: set<nat>)
    requires i < |xs| && Alike(t, g, b)
    requires t == Eval(body, Bind(Bind(te, key, VInt(i)), val, xs[i]))
    requires g == LazyOf(body, Bind(Bind(le, key, VInt(i)), val, xs[i]))
    requires t.Ok? ==>
             AllAlike(EvalEach(key, val, body, xs, i + 1, t.env), LazyEach(key, val, body, xs, i + 1, g.env), b)
    ensures AllAlike(EvalEach(key, val, body, xs, i, te), LazyEach(key, val, body, xs, i, le), b)
  {
    if t.Ok? {
      var rt, rg := EvalEach(key, val, body, xs, i + 1, t.env), LazyEach(key, val, body, xs, i + 1, g.env);
      assert LazyEach(key, val, body, xs, i, le) == Prepend([g.v], Noting(rg, g.overlooks, g.appends));
      assert EvalEach(key, val, body, xs, i, te) == if rt.Fails? then rt else Oks([t.v] + rt.vs, rt.env);
    } else if g.Gives? {
      var rg := LazyEach(key, val, body, xs, i + 1, g.env);
      assert LazyEach(key, val, body, xs, i, le) == Prepend([g.v], Noting(rg, g.overlooks, g.appends));
    }
  }

  lemma {:induction false} ElemsAgree(es: seq<Expr>, i: nat, spread: bool, te: Env, le: Env, b: set<nat>)
    requires ElemsRead(es, i, b) && Known(b, te, le)
    ensures AllAlike(EvalElems(es, i, te), LazyElems(es, i, spread, le), b - ElemsForget(es, i))
    decreases es, 0, |es| - i
  {
    if i < |es| {
      EvalAgrees(es[i], te, le, b);
      var t, g := Eval(es[i], te), LazyOf(es[i], le);
      if t.Ok? && (es[i].Spread? ==> t.v.VList?) {
        ElemsAgree(es, i + 1, spread || es[i].Spread?, t.env, g.env, b - Forgets(es[i]));
      }
    }
  }

  // ---- Statements ----

  ghost predicate SameExit(o: Out, x: Exit) {
    match o
    case Normal(_) => x == Ended
    case Broke(_) => x == Left
    case Continued(_) => x == Resumed
    case Failed => false
  }

  /** The same for a statement, however it ends. */
  ghost predicate StmtAlike(o: Out, g: Lazy<Exit>, b: set<nat>, start: set<nat>, lost: set<nat>) {
    && (!o.Failed? <==> g.Gives? && !g.overlooks)
    && (!o.Failed? ==> SameExit(o, g.v) && Sub(o.env, g.env) && start - lost <= o.env.Keys)
    && (o.Normal? ==> b <= o.env.Keys)
  }

  lemma {:induction false} ExecAgrees(s: Stmt, te: Env, le: Env, b: set<nat>)
    requires StmtReads(s, b) && Known(b, te, le)
    ensures StmtAlike(Exec(s, te), Perform(s, le), Bound(s, b), b, StmtForgets(s))
    decreases s, 1, 0
  {
    match s
    case Do(e) => EvalAgrees(e, te, le, b);
    case Assign(x, e) => EvalAgrees(e, te, le, b);
    case If(test, thn, alternate, els) =>
      EvalAgrees(test, te, le, b);
      var t, g := Eval(test, te), LazyOf(test, le);
      if t.Ok? && t.v.VBool? {
        if t.v.b {
          AllAgree(thn, t.env, g.env, b - Forgets(test));
        } else if alternate {
          AllAgree(els, t.env, g.env, b - Forgets(test));
        }
      }
    case For(_, iter, key, val, body) =>
      EvalAgrees(iter, te, le, b);
      var t, g := Eval(iter, te), LazyOf(iter, le);
      if t.Ok? && t.v.VList? {
        TurnsAgree(key, val, body, t.v.elems, 0, t.env, g.env, b - Forgets(iter) - AllForget(body));
      }
    case Break =>
    case Continue =>
  }

  lemma {:induction false} AllAgree(ss: seq<Stmt>, te: Env, le: Env, b: set<nat>)
    requires AllRead(ss, b) && Known(b, te, le)
    ensures StmtAlike(ExecAll(ss, te), PerformAll(ss, le), AllBound(ss, b), b, AllForget(ss))
    decreases ss, 1, 0
  {
    if ss != [] {
      ExecAgrees(ss[0], te, le, b);
      BoundKeeps(ss[0], b);
      var o, g := Exec(ss[0], te), Perform(ss[0], le);
      if o.Normal? { AllAgree(ss[1..], o.env, g.env, Bound(ss[0], b)); }
    }
  }

  lemma {:induction false} TurnsAgree(
      key: Option<nat>, val: Option<nat>, body: seq<Stmt>, xs: seq<Value>, i: nat, te: Env, le: Env, b: set<nat>)
    requires AllRead(body, b + Names(key) + Names(val)) && Known(b, te, le) && b !! AllForget(body)
    ensures StmtAlike(ExecEach(key, val, body, xs, i, te), PerformEach(key, val, body, xs, i, le), b, b, {})
    decreases body, 2, |xs| - i
  {
    if i < |xs| {
      var te1, le1 := Bind(Bind(te, key, VInt(i)), val, xs[i]), Bind(Bind(le, key, VInt(i)), val, xs[i]);
      BindKnown(b, te, le, key, val, VInt(i), xs[i]);
      AllAgree(body, te1, le1, b + Names(key) + Names(val));
      var o, g := ExecAll(body, te1), PerformAll(body, le1);
      if !o.Failed? {
        assert b <= o.env.Keys;
        if !o.Broke? { TurnsAgree(key, val, body, xs, i + 1, o.env, g.env, b); }
      }
    }
  }
}
