/** A static check that every variable has a value when it is read. */
module Scope {
  import opened Common
  import opened Ast
  import opened ShortCircuit

  function Names(x: Option<nat>): set<nat> {
    if x.Some? then {x.value} else {}
  }

  // ---- What may lose its value: the variables of loops that end ----

  function Forgets(e: Expr): set<nat>
    decreases e
  {
    match e
    case And(l, r) => Forgets(l) + Forgets(r)
    case Or(l, r) => Forgets(l) + Forgets(r)
    case IfExpr(test, thn, els) => Forgets(test) + Forgets(thn) + if els.Some? then Forgets(els.value) else {}
    case ForExpr(_, iter, key, val, body) => Forgets(iter) + Forgets(body) + Names(key) + Names(val)
    case List(elems) => ElemsForget(elems, 0)
    case Spread(x) => Forgets(x)
    case _ => {}
  }

  function ElemsForget(es: seq<Expr>, i: nat): set<nat>
    decreases es, |es| - i
  {
    if i >= |es| then {} else Forgets(es[i]) + ElemsForget(es, i + 1)
  }

  function StmtForgets(s: Stmt): set<nat>
    decreases s
  {
    match s
    case Do(e) => Forgets(e)
    case Assign(_, e) => Forgets(e)
    case If(test, thn, _, els) => Forgets(test) + AllForget(thn) + AllForget(els)
    case For(_, iter, key, val, body) => Forgets(iter) + AllForget(body) + Names(key) + Names(val)
    case Break => {}
    case Continue => {}
  }

  function AllForget(ss: seq<Stmt>): set<nat>
    decreases ss
  {
    if ss == [] then {} else StmtForgets(ss[0]) + AllForget(ss[1..])
  }

  // ---- The check, `b` being variables that have a value ----

  predicate Reads(e: Expr, b: set<nat>)
    decreases e
  {
    match e
    case Var(x) => x in b
    case And(l, r) => Reads(l, b) && Reads(r, b - Forgets(l))
    case Or(l, r) => Reads(l, b) && Reads(r, b - Forgets(l))
    case IfExpr(test, thn, els) =>
      Reads(test, b) && Reads(thn, b - Forgets(test)) && (els.Some? ==> Reads(els.value, b - Forgets(test)))
    case ForExpr(_, iter, key, val, body) =>
      Reads(iter, b) && Reads(body, b - Forgets(iter) - Forgets(body) + Names(key) + Names(val))
    case List(elems) => ElemsRead(elems, 0, b)
    case Spread(x) => Reads(x, b)
    case _ => true
  }

  predicate ElemsRead(es: seq<Expr>, i: nat, b: set<nat>)
    decreases es, |es| - i
  {
    i >= |es| || (Reads(es[i], b) && ElemsRead(es, i + 1, b - Forgets(es[i])))
  }

  predicate StmtReads(s: Stmt, b: set<nat>)
    decreases s
  {
    match s
    case Do(e) => Reads(e, b)
    case Assign(_, e) => Reads(e, b)
    case If(test, thn, alternate, els) =>
      && Reads(test, b) && AllRead(thn, b - Forgets(test)) && (alternate ==> AllRead(els, b - Forgets(test)))
    case For(_, iter, key, val, body) =>
      Reads(iter, b) && AllRead(body, b - Forgets(iter) - AllForget(body) + Names(key) + Names(val))
    case Break => true
    case Continue => true
  }

  predicate AllRead(ss: seq<Stmt>, b: set<nat>)
    decreases ss
  {
    ss == [] || (StmtReads(ss[0], b) && AllRead(ss[1..], Bound(ss[0], b)))
  }

  /** What has a value after a statement that ends normally. */
  function Bound(s: Stmt, b: set<nat>): set<nat>
    decreases s
  {
    match s
    case Assign(x, e) => b - Forgets(e) + {x}
    case If(test, thn, alternate, els) =>
      var b1 := b - Forgets(test);
      AllBound(thn, b1) * if alternate then AllBound(els, b1) else b1
    case _ => b - StmtForgets(s)
  }

  function AllBound(ss: seq<Stmt>, b: set<nat>): set<nat>
    decreases ss
  {
    if ss == [] then b else AllBound(ss[1..], Bound(ss[0], b))
  }

  // ---- The check is sound for short-circuit evaluation ----

  /** The run reads no variable without a value, and afterwards the variables in b have one. */
  predicate Sees<T>(r: Run<T>, b: set<nat>) {
    !r.Unbound? && (r.Ran? ==> b <= r.env.Keys)
  }

  lemma {:induction false} EvaluateSees(e: Expr, env: Env, b: set<nat>)
    requires Reads(e, b) && b <= env.Keys
    ensures Sees(Evaluate(e, env), b - Forgets(e))
    decreases e, 1, 0
  {
    match e
    case And(l, r) => LogicSees(e, env, b);
    case Or(l, r) => LogicSees(e, env, b);
    case IfExpr(test, thn, els) =>
      EvaluateSees(test, env, b);
      var t := Evaluate(test, env);
      if t.Ran? && t.v.VBool? {
        if t.v.b {
          EvaluateSees(thn, t.env, b - Forgets(test));
        } else if els.Some? {
          EvaluateSees(els.value, t.env, b - Forgets(test));
        }
      }
    case ForExpr(_, iter, key, val, body) =>
      EvaluateSees(iter, env, b);
      var xs := Evaluate(iter, env);
      if xs.Ran? && xs.v.VList? {
        EachSees(key, val, body, xs.v.elems, 0, xs.env, b - Forgets(iter) - Forgets(body));
      }
    case List(elems) => ElemsSee(elems, 0, false, 0, env, b);
    case Spread(x) => EvaluateSees(x, env, b);
    case _ =>
  }

  lemma {:induction false} LogicSees(e: Expr, env: Env, b: set<nat>)
    requires (e.And? || e.Or?) && Reads(e, b) && b <= env.Keys
    ensures Sees(Evaluate(e, env), b - Forgets(e))
    decreases e, 0, 0
  {
    EvaluateSees(e.l, env, b);
    var a := Evaluate(e.l, env);
    if a.Ran? && a.v.VBool? && !Decides(e, a.v.b) { EvaluateSees(e.r, a.env, b - Forgets(e.l)); }
  }

  lemma {:induction false} EachSees(
      key: Option<nat>, val: Option<nat>, body: Expr, xs: seq<Value>, i: nat, env: Env, b: set<nat>)
    requires Reads(body, b + Names(key) + Names(val)) && b <= env.Keys && b !! Forgets(body)
    ensures Sees(EvaluateEach(key, val, body, xs, i, env), b)
    decreases body, 2, |xs| - i
  {
    if i < |xs| {
      var env1 := Bind(Bind(env, key, VInt(i)), val, xs[i]);
      EvaluateSees(body, env1, b + Names(key) + Names(val));
      var r := Evaluate(body, env1);
      if r.Ran? { EachSees(key, val, body, xs, i + 1, r.env, b); }
    }
  }

  lemma {:induction false} ElemsSee(es: seq<Expr>, i: nat, spread: bool, pend: nat, env: Env, b: set<nat>)
    requires ElemsRead(es, i, b) && b <= env.Keys
    ensures Sees(EvaluateElems(es, i, spread, pend, env), b - ElemsForget(es, i))
    decreases es, 0, |es| - i
  {
    if i < |es| {
      EvaluateSees(es[i], env, b);
      var r := Evaluate(es[i], env);
      if r.Ran? {
        ElemsSee(es, i + 1, true, 0, r.env, b - Forgets(es[i]));
        ElemsSee(es, i + 1, spread, if spread then pend + 1 else pend, r.env, b - Forgets(es[i]));
      }
    }
  }

  /** For a statement: whichever way it ends, it forgets no more than it may. */
  predicate Leaves(r: Run<Exit>, b: set<nat>, start: set<nat>, lost: set<nat>) {
    && !r.Unbound? && (r.Ran? ==> start - lost <= r.env.Keys)
    && (r.Ran? && r.v == Ended ==> b <= r.env.Keys)
  }

  lemma {:induction false} ExecuteSees(s: Stmt, env: Env, b: set<nat>)
    requires StmtReads(s, b) && b <= env.Keys
    ensures Leaves(Execute(s, env), Bound(s, b), b, StmtForgets(s))
    decreases s, 1, 0
  {
    match s
    case Do(e) => EvaluateSees(e, env, b);
    case Assign(x, e) => EvaluateSees(e, env, b);
    case If(test, thn, alternate, els) =>
      EvaluateSees(test, env, b);
      var t := Evaluate(test, env);
      if t.Ran? && t.v.VBool? {
        if t.v.b {
          AllSee(thn, t.env, b - Forgets(test));
        } else if alternate {
          AllSee(els, t.env, b - Forgets(test));
        }
      }
    case For(_, iter, key, val, body) =>
      EvaluateSees(iter, env, b);
      var xs := Evaluate(iter, env);
      if xs.Ran? && xs.v.VList? {
        TurnsSee(key, val, body, xs.v.elems, 0, xs.env, b - Forgets(iter) - AllForget(body));
      }
    case Break =>
    case Continue =>
  }

  lemma {:induction false} AllSee(ss: seq<Stmt>, env: Env, b: set<nat>)
    requires AllRead(ss, b) && b <= env.Keys
    ensures Leaves(ExecuteAll(ss, env), AllBound(ss, b), b, AllForget(ss))
    decreases ss, 1, 0
  {
    if ss != [] {
      ExecuteSees(ss[0], env, b);
      BoundKeeps(ss[0], b);
      var r := Execute(ss[0], env);
      if r.Ran? && r.v == Ended { AllSee(ss[1..], r.env, Bound(ss[0], b)); }
    }
  }

  /** What had a value keeps it unless it may be forgotten. */
  lemma {:induction false} BoundKeeps(s: Stmt, b: set<nat>)
    ensures b - StmtForgets(s) <= Bound(s, b)
    decreases s
  {
    match s
    case If(test, thn, alternate, els) =>
      AllBoundKeeps(thn, b - Forgets(test));
      AllBoundKeeps(els, b - Forgets(test));
    case _ =>
  }

  lemma {:induction false} AllBoundKeeps(ss: seq<Stmt>, b: set<nat>)
    ensures b - AllForget(ss) <= AllBound(ss, b)
    decreases ss
  {
    if ss != [] {
      BoundKeeps(ss[0], b);
      AllBoundKeeps(ss[1..], Bound(ss[0], b));
    }
  }

  lemma {:induction false} TurnsSee(
      key: Option<nat>, val: Option<nat>, body: seq<Stmt>, xs: seq<Value>, i: nat, env: Env, b: set<nat>)
    requires AllRead(body, b + Names(key) + Names(val)) && b <= env.Keys && b !! AllForget(body)
    ensures Sees(ExecuteEach(key, val, body, xs, i, env), b)
    decreases body, 2, |xs| - i
  {
    if i < |xs| {
      var env1 := Bind(Bind(env, key, VInt(i)), val, xs[i]);
      AllSee(body, env1, b + Names(key) + Names(val));
      var r := ExecuteAll(body, env1);
      if r.Ran? {
        assert b <= r.env.Keys;
        if r.v != Left { TurnsSee(key, val, body, xs, i + 1, r.env, b); }
      }
    }
  }
}
