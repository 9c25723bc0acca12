/**
 * Symbols, well-formedness and short-circuit evaluation as function values, unfolded one construct at a time.
 */
module Meaning {
  import opened Common
  import opened Ast
  import opened CodeGen
  import opened ShortCircuit
  import opened View

  datatype Sem = Sem(
    used: Expr -> set<Sym>,
    ok: Expr -> bool,
    eval: (Expr, Env) -> Run<Value>,
    each: (Option<nat>, Option<nat>, Expr, seq<Value>, nat, Env) -> Run<seq<Value>>,
    elemsUsed: seq<Expr> -> set<Sym>,
    elemsEval: (seq<Expr>, nat, bool, nat, Env) -> Run<seq<Value>>)

  ghost predicate IsSem(q: Sem) {
    && (forall e {:trigger ExprSyms(e)} :: q.used(e) == ExprSyms(e))
    && (forall e {:trigger ExprOk(e)} :: q.ok(e) == ExprOk(e))
    && (forall e, env {:trigger Evaluate(e, env)} :: q.eval(e, env) == Evaluate(e, env))
    && (forall e, env {:trigger q.eval(e, env)} :: q.eval(e, env).Ran? ==> q.eval(e, env).peak >= 1)
    && (forall key, val, b, xs, i, env {:trigger EvaluateEach(key, val, b, xs, i, env)} ::
          q.each(key, val, b, xs, i, env) == EvaluateEach(key, val, b, xs, i, env))
    && (forall key, val, b, xs, i, env {:trigger q.each(key, val, b, xs, i, env)} ::
          var r := q.each(key, val, b, xs, i, env); r.Ran? ==> r.peak >= |r.v| + 1)
    && (forall es {:trigger ElemsSyms(es)} :: q.elemsUsed(es) == ElemsSyms(es))
    && (forall es, i, sp, n, env {:trigger EvaluateElems(es, i, sp, n, env)} ::
          q.elemsEval(es, i, sp, n, env) == EvaluateElems(es, i, sp, n, env))
  }

  function SemOf(): Sem {
    Sem(e => ExprSyms(e), e => ExprOk(e), (e, env) => Evaluate(e, env),
      (key, val, b, xs, i, env) => EvaluateEach(key, val, b, xs, i, env), es => ElemsSyms(es),
      (es, i: nat, sp, n: nat, env) => EvaluateElems(es, i, sp, n, env))
  }

  lemma SemOfIsSem()
    ensures IsSem(SemOf())
  {
  }

  // ---- Leaves ----

  function LeafValue(e: Expr, env: Env): Run<Value>
    requires Leaf(e)
  {
    match e
    case Lit(v) => Ran(v, env, 1)
    case True => Ran(VBool(true), env, 1)
    case False => Ran(VBool(false), env, 1)
    case Nil => Ran(VNil, env, 1)
    case Var(x) => if x in env then Ran(env[x], env, 1) else Unbound
  }

  lemma LeafEval(q: Sem, e: Expr, env: Env)
    requires IsSem(q) && Leaf(e)
    ensures q.eval(e, env) == LeafValue(e, env) && (e.Var? ==> q.used(e) == {User(e.x)})
  {
    var _, _ := Evaluate(e, env), ExprSyms(e);
  }

  // ---- And, or ----

  lemma LogicUses(q: Sem, e: Expr)
    requires IsSem(q) && (e.And? || e.Or?)
    ensures q.used(e) == q.used(e.l) + q.used(e.r) && (q.ok(e) ==> q.ok(e.l) && q.ok(e.r))
  {
    var _, _, _ := ExprSyms(e.l), ExprSyms(e.r), ExprSyms(e);
    var _, _, _ := ExprOk(e.l), ExprOk(e.r), ExprOk(e);
  }

  lemma LogicEval(q: Sem, e: Expr, env: Env)
    requires IsSem(q) && (e.And? || e.Or?)
    ensures var a := q.eval(e.l, env);
            q.eval(e, env) ==
            if !a.Ran? then a
            else if !a.v.VBool? then Stuck
            else if Decides(e, a.v.b) then a
            else After(a.peak, q.eval(e.r, a.env))
  {
    var _ := Evaluate(e, env);
    var a := Evaluate(e.l, env);
    if a.Ran? { var b := Evaluate(e.r, a.env); }
  }

  // ---- If ----

  lemma IfUses(q: Sem, e: Expr)
    requires IsSem(q) && e.IfExpr?
    ensures q.used(e) == q.used(e.test) + q.used(e.thn) + if e.els.Some? then q.used(e.els.value) else {}
    ensures q.ok(e) ==> q.ok(e.test) && q.ok(e.thn) && (e.els.Some? ==> q.ok(e.els.value))
  {
    var _, _, _ := ExprSyms(e.test), ExprSyms(e.thn), ExprSyms(e);
    var _, _, _ := ExprOk(e.test), ExprOk(e.thn), ExprOk(e);
    if e.els.Some? { var _, _ := ExprSyms(e.els.value), ExprOk(e.els.value); }
  }

  lemma IfEval(q: Sem, e: Expr, env: Env)
    requires IsSem(q) && e.IfExpr?
    ensures var t := q.eval(e.test, env);
            q.eval(e, env) ==
            if !t.Ran? then t
            else if !t.v.VBool? then Stuck
            else if t.v.b then After(t.peak, q.eval(e.thn, t.env))
            else if e.els.Some? then After(t.peak, q.eval(e.els.value, t.env))
            else Ran(VNil, t.env, t.peak)
  {
    var _ := Evaluate(e, env);
    var t := Evaluate(e.test, env);
    if t.Ran? {
      var _ := Evaluate(e.thn, t.env);
      if e.els.Some? { var _ := Evaluate(e.els.value, t.env); }
    }
  }

  // ---- For ----

  lemma ForUses(q: Sem, e: Expr)
    requires IsSem(q) && e.ForExpr?
    ensures q.used(e) ==
            {Iter(e.id), StreamElem(e.id), Length(e.id)} + q.used(e.iter) + Vars(e.key) + Vars(e.val) + q.used(e.body)
    ensures q.ok(e) ==>
            q.ok(e.iter) && q.ok(e.body) && Iter(e.id) !in q.used(e.body) && Length(e.id) !in q.used(e.body)
  {
    var _, _, _ := ExprSyms(e.iter), ExprSyms(e.body), ExprSyms(e);
    var _, _, _ := ExprOk(e.iter), ExprOk(e.body), ExprOk(e);
  }

  lemma ForEval(q: Sem, e: Expr, env: Env)
    requires IsSem(q) && e.ForExpr?
    ensures var xs := q.eval(e.iter, env);
            if !xs.Ran? then q.eval(e, env) == xs
            else if !xs.v.VList? then q.eval(e, env) == Stuck
            else
              var r := q.each(e.key, e.val, e.body, xs.v.elems, 0, xs.env);
              q.eval(e, env) ==
              if !r.Ran? then Abort(r) else Ran(VList(r.v), Unbind(Unbind(r.env, e.key), e.val), Max(xs.peak, r.peak))
  {
    var _ := Evaluate(e, env);
    var xs := Evaluate(e.iter, env);
    if xs.Ran? && xs.v.VList? { var _ := EvaluateEach(e.key, e.val, e.body, xs.v.elems, 0, xs.env); }
  }

  lemma EachEval(
      q: Sem, key: Option<nat>, val: Option<nat>, body: Expr, xs: seq<Value>, i: nat, env: Env)
    requires IsSem(q)
    ensures i >= |xs| ==> q.each(key, val, body, xs, i, env) == Ran([], env, 1)
    ensures i < |xs| ==>
            var b := q.eval(body, Bind(Bind(env, key, VInt(i)), val, xs[i]));
            if !b.Ran? then q.each(key, val, body, xs, i, env) == Abort(b)
            else
              var rest := q.each(key, val, body, xs, i + 1, b.env);
              q.each(key, val, body, xs, i, env) ==
              if !rest.Ran? then rest else Ran([b.v] + rest.v, rest.env, Max(Max(2, b.peak), 1 + rest.peak))
  {
    var _ := EvaluateEach(key, val, body, xs, i, env);
    if i < |xs| {
      var b := Evaluate(body, Bind(Bind(env, key, VInt(i)), val, xs[i]));
      if b.Ran? { var _ := EvaluateEach(key, val, body, xs, i + 1, b.env); }
    }
  }

  // ---- List literals ----

  lemma ListUses(q: Sem, e: Expr)
    requires IsSem(q) && e.List?
    ensures q.used(e) == q.elemsUsed(e.elems)
    ensures q.ok(e) ==> forall i :: 0 <= i < |e.elems| ==> q.ok(e.elems[i])
  {
    var _, _, _ := ExprSyms(e), ExprOk(e), ElemsSyms(e.elems);
    if ExprOk(e) {
      assert ElemsOk(e.elems);
      forall i | 0 <= i < |e.elems| ensures q.ok(e.elems[i]) { assert ExprOk(e.elems[i]); }
    }
  }

  lemma ListEval(q: Sem, e: Expr, env: Env)
    requires IsSem(q) && e.List?
    ensures var r := q.elemsEval(e.elems, 0, false, 0, env);
            q.eval(e, env) == if !r.Ran? then Abort(r) else Ran(VList(r.v), r.env, Max(1, r.peak))
  {
    var _, _ := Evaluate(e, env), EvaluateElems(e.elems, 0, false, 0, env);
  }

  lemma SpreadMeans(q: Sem, e: Expr, env: Env)
    requires IsSem(q) && e.Spread?
    ensures q.used(e) == q.used(e.e) && q.ok(e) == q.ok(e.e) && q.eval(e, env) == q.eval(e.e, env)
  {
    var _, _, _, _ := ExprSyms(e), ExprSyms(e.e), ExprOk(e), ExprOk(e.e);
    var _, _ := Evaluate(e, env), Evaluate(e.e, env);
  }

  lemma ElemsEndEval(q: Sem, es: seq<Expr>, spread: bool, env: Env)
    requires IsSem(q)
    ensures q.elemsEval(es, |es|, spread, 0, env) == Ran([], env, 0)
  {
    var _ := EvaluateElems(es, |es|, spread, 0, env);
  }

  /** A literal that owes an append never gets to its end. */
  lemma OwedStuck(q: Sem, es: seq<Expr>, i: nat, pend: nat, env: Env)
    requires IsSem(q) && pend > 0
    ensures !q.elemsEval(es, i, true, pend, env).Ran?
  {
    var _ := EvaluateElems(es, i, true, pend, env);
    OwedNeverRuns(es, i, pend, env);
  }

  lemma ElemUses(q: Sem, es: seq<Expr>, i: nat)
    requires IsSem(q) && i < |es|
    ensures q.used(es[i]) <= q.elemsUsed(es)
  {
    var _, _ := ExprSyms(es[i]), ElemsSyms(es);
    ElemSyms(es, i);
  }

  lemma {:induction false} ElemSyms(es: seq<Expr>, i: nat)
    requires i < |es|
    ensures ExprSyms(es[i]) <= ElemsSyms(es)
    decreases es
  {
    if i > 0 { ElemSyms(es[1..], i - 1); }
  }

  /** What an element does to the rest, when no append is due before it. */
  lemma ElemEval(q: Sem, es: seq<Expr>, i: nat, spread: bool, pend: nat, env: Env)
    requires IsSem(q) && i < |es| && !(es[i].Spread? && spread && pend > 0)
    ensures var r := q.eval(es[i], env);
            if !r.Ran? then q.elemsEval(es, i, spread, pend, env) == Abort(r)
            else if es[i].Spread? then
              if !r.v.VList? then q.elemsEval(es, i, spread, pend, env) == Stuck
              else
                var rest := q.elemsEval(es, i + 1, true, 0, r.env);
                q.elemsEval(es, i, spread, pend, env) ==
                if !rest.Ran? then rest else Ran(r.v.elems + rest.v, rest.env, Max(1 + r.peak, rest.peak))
            else
              var rest := q.elemsEval(es, i + 1, spread, if spread then pend + 1 else pend, r.env);
              q.elemsEval(es, i, spread, pend, env) ==
              if !rest.Ran? then rest
              else Ran([r.v] + rest.v, rest.env, Max((if spread then 1 + pend else i) + r.peak, rest.peak))
  {
    var _, r := EvaluateElems(es, i, spread, pend, env), Evaluate(es[i], env);
    if r.Ran? {
      var _, _ := EvaluateElems(es, i + 1, true, 0, r.env),
                  EvaluateElems(es, i + 1, spread, if spread then pend + 1 else pend, r.env);
    }
  }

  // ---- Statements ----

  datatype SSem = SSem(
    used1: Stmt -> set<Sym>,
    used: seq<Stmt> -> set<Sym>,
    ok1: Stmt -> bool,
    ok: seq<Stmt> -> bool,
    exec: (Stmt, Env) -> Run<Exit>,
    execAll: (seq<Stmt>, Env) -> Run<Exit>,
    each: (Option<nat>, Option<nat>, seq<Stmt>, seq<Value>, nat, Env) -> Run<Exit>)

  ghost predicate IsSSem(w: SSem) {
    && (forall s {:trigger StmtSyms(s)} :: w.used1(s) == StmtSyms(s))
    && (forall s {:trigger StmtsSyms(s)} :: w.used(s) == StmtsSyms(s))
    && (forall s {:trigger StmtOk(s)} :: w.ok1(s) == StmtOk(s))
    && (forall s {:trigger StmtsOk(s)} :: w.ok(s) == StmtsOk(s))
    && (forall s, env {:trigger Execute(s, env)} :: w.exec(s, env) == Execute(s, env))
    && (forall s, env {:trigger ExecuteAll(s, env)} :: w.execAll(s, env) == ExecuteAll(s, env))
    && (forall key, val, b, xs, i, env {:trigger ExecuteEach(key, val, b, xs, i, env)} ::
          w.each(key, val, b, xs, i, env) == ExecuteEach(key, val, b, xs, i, env))
  }

  function SSemOf(): SSem {
    SSem(s => StmtSyms(s), s => StmtsSyms(s), s => StmtOk(s), s => StmtsOk(s), (s, env) => Execute(s, env),
      (s, env) => ExecuteAll(s, env), (key, val, b, xs, i, env) => ExecuteEach(key, val, b, xs, i, env))
  }

  lemma SSemOfIsSSem()
    ensures IsSSem(SSemOf())
  {
  }

  lemma SimpleUses(q: Sem, w: SSem, s: Stmt)
    requires IsSem(q) && IsSSem(w) && (s.Do? || s.Assign?)
    ensures w.ok1(s) == q.ok(s.e) && w.used1(s) == (if s.Assign? then {User(s.x)} else {}) + q.used(s.e)
  {
    var _, _, _, _ := StmtOk(s), StmtSyms(s), ExprOk(s.e), ExprSyms(s.e);
  }

  lemma SimpleExec(q: Sem, w: SSem, s: Stmt, env: Env)
    requires IsSem(q) && IsSSem(w) && (s.Do? || s.Assign?)
    ensures var r := q.eval(s.e, env);
            w.exec(s, env) ==
            if !r.Ran? then Abort(r) else Ran(Ended, if s.Assign? then r.env[s.x := r.v] else r.env, r.peak)
  {
    var _, _ := Execute(s, env), Evaluate(s.e, env);
  }

  lemma LeaveExec(w: SSem, s: Stmt, env: Env)
    requires IsSSem(w) && (s.Break? || s.Continue?)
    ensures w.exec(s, env) == Ran(if s.Break? then Left else Resumed, env, 0)
  {
    var _ := Execute(s, env);
  }

  lemma IfStmtUses(q: Sem, w: SSem, s: Stmt)
    requires IsSem(q) && IsSSem(w) && s.If?
    ensures w.used1(s) == q.used(s.test) + w.used(s.thn) + w.used(s.els)
    ensures w.ok1(s) ==> q.ok(s.test) && w.ok(s.thn) && w.ok(s.els)
  {
    var _, _, _, _ := StmtSyms(s), ExprSyms(s.test), StmtsSyms(s.thn), StmtsSyms(s.els);
    var _, _, _, _ := StmtOk(s), ExprOk(s.test), StmtsOk(s.thn), StmtsOk(s.els);
  }

  lemma IfStmtExec(q: Sem, w: SSem, s: Stmt, env: Env)
    requires IsSem(q) && IsSSem(w) && s.If?
    ensures var t := q.eval(s.test, env);
            w.exec(s, env) ==
            if !t.Ran? then Abort(t)
            else if !t.v.VBool? then Stuck
            else if t.v.b then After(t.peak, w.execAll(s.thn, t.env))
            else if s.alternate then After(t.peak, w.execAll(s.els, t.env))
            else Ran(Ended, t.env, t.peak)
  {
    var _, t := Execute(s, env), Evaluate(s.test, env);
    if t.Ran? { var _, _ := ExecuteAll(s.thn, t.env), ExecuteAll(s.els, t.env); }
  }

  lemma ForStmtUses(q: Sem, w: SSem, s: Stmt)
    requires IsSem(q) && IsSSem(w) && s.For?
    ensures w.used1(s) == {Iter(s.id), StreamElem(s.id)} + q.used(s.iter) + Vars(s.key) + Vars(s.val) + w.used(s.body)
    ensures w.ok1(s) ==> q.ok(s.iter) && w.ok(s.body) && Iter(s.id) !in w.used(s.body)
  {
    var _, _, _ := StmtSyms(s), ExprSyms(s.iter), StmtsSyms(s.body);
    var _, _, _ := StmtOk(s), ExprOk(s.iter), StmtsOk(s.body);
  }

  lemma ForStmtExec(q: Sem, w: SSem, s: Stmt, env: Env)
    requires IsSem(q) && IsSSem(w) && s.For?
    ensures var xs := q.eval(s.iter, env);
            if !xs.Ran? then w.exec(s, env) == Abort(xs)
            else if !xs.v.VList? then w.exec(s, env) == Stuck
            else
              var o := w.each(s.key, s.val, s.body, xs.v.elems, 0, xs.env);
              w.exec(s, env) ==
              if !o.Ran? then o else Ran(Ended, Unbind(Unbind(o.env, s.key), s.val), Max(xs.peak, o.peak))
  {
    var _, xs := Execute(s, env), Evaluate(s.iter, env);
    if xs.Ran? && xs.v.VList? { var _ := ExecuteEach(s.key, s.val, s.body, xs.v.elems, 0, xs.env); }
  }

  lemma EachExec(
      w: SSem, key: Option<nat>, val: Option<nat>, body: seq<Stmt>, xs: seq<Value>, i: nat, env: Env)
    requires IsSSem(w)
    ensures i >= |xs| ==> w.each(key, val, body, xs, i, env) == Ran(Ended, env, 1)
    ensures i < |xs| ==>
            var o := w.execAll(body, Bind(Bind(env, key, VInt(i)), val, xs[i]));
            w.each(key, val, body, xs, i, env) ==
            if !o.Ran? then o
            else if o.v == Left then Ran(Ended, o.env, Max(1, o.peak))
            else After(Max(1, o.peak), w.each(key, val, body, xs, i + 1, o.env))
  {
    var _ := ExecuteEach(key, val, body, xs, i, env);
    if i < |xs| {
      var o := ExecuteAll(body, Bind(Bind(env, key, VInt(i)), val, xs[i]));
      if o.Ran? { var _ := ExecuteEach(key, val, body, xs, i + 1, o.env); }
    }
  }

  lemma AllUses(w: SSem, ss: seq<Stmt>)
    requires IsSSem(w) && ss != []
    ensures w.used(ss) == w.used1(ss[0]) + w.used(ss[1..]) && (w.ok(ss) ==> w.ok1(ss[0]) && w.ok(ss[1..]))
  {
    var _, _, _ := StmtsSyms(ss), StmtSyms(ss[0]), StmtsSyms(ss[1..]);
    var _, _, _ := StmtsOk(ss), StmtOk(ss[0]), StmtsOk(ss[1..]);
  }

  lemma EmptyExec(w: SSem, env: Env)
    requires IsSSem(w)
    ensures w.execAll([], env) == Ran(Ended, env, 0)
  {
    var _ := ExecuteAll([], env);
  }

  lemma AllExec(w: SSem, ss: seq<Stmt>, env: Env)
    requires IsSSem(w) && ss != []
    ensures var o := w.exec(ss[0], env);
            w.execAll(ss, env) == if o.Ran? && o.v == Ended then After(o.peak, w.execAll(ss[1..], o.env)) else o
  {
    var _, o := ExecuteAll(ss, env), Execute(ss[0], env);
    if o.Ran? && o.v == Ended { var _ := ExecuteAll(ss[1..], o.env); }
  }
}
