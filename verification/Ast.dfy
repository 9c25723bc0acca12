/** The compiled fragment of the language and its tree-walking evaluation. */
module Ast {
  import opened Common

  /** VIter is a reference to an iterator object and VEmpty what an unused stack slot holds; programs have neither. */
  datatype Value =
    | VNil | VBool(b: bool) | VInt(n: int) | VStr(s: bytes) | VList(elems: seq<Value>) | VIter(ref: nat) | VEmpty

  /**
   * Variables are resolved symbols; Spread stands only as an element of a list literal; `id` is the source
   * position that names a loop's hidden locals.
   */
  datatype Expr =
    | Lit(v: Value)
    | True | False | Nil
    | Var(x: nat)
    | And(l: Expr, r: Expr)
    | Or(l: Expr, r: Expr)
    | IfExpr(test: Expr, thn: Expr, els: Option<Expr>)
    | ForExpr(id: nat, iter: Expr, key: Option<nat>, val: Option<nat>, body: Expr)
    | List(elems: seq<Expr>)
    | Spread(e: Expr)

  datatype Stmt =
    | Do(e: Expr)
    | Assign(x: nat, e: Expr)
    | If(test: Expr, thn: seq<Stmt>, alternate: bool, els: seq<Stmt>)
    | For(id: nat, iter: Expr, key: Option<nat>, val: Option<nat>, body: seq<Stmt>)
    | Break | Continue

  type Env = map<nat, Value>

  datatype Res = Ok(v: Value, env: Env) | Fail

  datatype ResList = Oks(vs: seq<Value>, env: Env) | Fails

  /** How a statement ends. */
  datatype Out = Normal(env: Env) | Broke(env: Env) | Continued(env: Env) | Failed

  function Bind(env: Env, x: Option<nat>, v: Value): Env {
    if x.Some? then env[x.value := v] else env
  }

  function Unbind(env: Env, x: Option<nat>): Env {
    if x.Some? then env - {x.value} else env
  }

  /** The left operand of an and/or settles the result. */
  predicate Decides(e: Expr, b: bool) { b == e.Or? }

  // ---- Evaluation, as the tree walker does it ----

  /**
   * Both operands of and/or are always evaluated. The left one must be a boolean; the right one is looked at,
   * and must be a boolean, only when the left one does not decide.
   */
  function Eval(e: Expr, env: Env): Res
    decreases e, 1, 0
  {
    match e
    case Lit(v) => Ok(v, env)
    case True => Ok(VBool(true), env)
    case False => Ok(VBool(false), env)
    case Nil => Ok(VNil, env)
    case Var(x) => if x in env then Ok(env[x], env) else Fail
    case And(l, r) =>
      var a := Eval(l, env);
      if a.Fail? then a else Logical(e, a, Eval(r, a.env))
    case Or(l, r) =>
      var a := Eval(l, env);
      if a.Fail? then a else Logical(e, a, Eval(r, a.env))
    case IfExpr(test, thn, els) =>
      var t := Eval(test, env);
      if t.Fail? then t
      else if !t.v.VBool? then Fail
      else if t.v.b then Eval(thn, t.env)
      else if els.Some? then Eval(els.value, t.env)
      else Ok(VNil, t.env)
    case ForExpr(id, iter, key, val, body) =>
      var xs := Eval(iter, env);
      if xs.Fail? then xs
      else if !xs.v.VList? then Fail
      else
        var r := EvalEach(key, val, body, xs.v.elems, 0, xs.env);
        if r.Fails? then Fail else Ok(VList(r.vs), Unbind(Unbind(r.env, key), val))
    case List(elems) =>
      var r := EvalElems(elems, 0, env);
      if r.Fails? then Fail else Ok(VList(r.vs), r.env)
    case Spread(x) => Eval(x, env)
  }

  /** The operands of an and/or, both evaluated, put together. */
  function Logical(e: Expr, a: Res, b: Res): Res
    requires a.Ok?
  {
    if !a.v.VBool? then Fail
    else if Decides(e, a.v.b) then (if b.Fail? then Fail else Ok(a.v, b.env))
    else if b.Fail? then b
    else if !b.v.VBool? then Fail
    else b
  }

  /** The body's values for the elements from i on. */
  function EvalEach(key: Option<nat>, val: Option<nat>, body: Expr, xs: seq<Value>, i: nat, env: Env): ResList
    decreases body, 2, |xs| - i
  {
    if i >= |xs| then Oks([], env)
    else
      var r := Eval(body, Bind(Bind(env, key, VInt(i)), val, xs[i]));
      if r.Fail? then Fails
      else
        var rest := EvalEach(key, val, body, xs, i + 1, r.env);
        if rest.Fails? then rest else Oks([r.v] + rest.vs, rest.env)
  }

  /** The values of the elements from i on, spreads flattened. */
  function EvalElems(es: seq<Expr>, i: nat, env: Env): ResList
    decreases es, 0, |es| - i
  {
    if i >= |es| then Oks([], env)
    else
      var r := Eval(es[i], env);
      if r.Fail? then Fails
      else if es[i].Spread? && !r.v.VList? then Fails
      else
        var rest := EvalElems(es, i + 1, r.env);
        if rest.Fails? then rest
        else Oks((if es[i].Spread? then r.v.elems else [r.v]) + rest.vs, rest.env)
  }

  function Exec(s: Stmt, env: Env): Out
    decreases s, 1, 0
  {
    match s
    case Do(e) =>
      var r := Eval(e, env);
      if r.Fail? then Failed else Normal(r.env)
    case Assign(x, e) =>
      var r := Eval(e, env);
      if r.Fail? then Failed else Normal(r.env[x := r.v])
    case If(test, thn, alternate, els) =>
      var t := Eval(test, env);
      if t.Fail? then Failed
      else if !t.v.VBool? then Failed
      else if t.v.b then ExecAll(thn, t.env)
      else if alternate then ExecAll(els, t.env)
      else Normal(t.env)
    case For(id, iter, key, val, body) =>
      var xs := Eval(iter, env);
      if xs.Fail? then Failed
      else if !xs.v.VList? then Failed
      else
        var r := ExecEach(key, val, body, xs.v.elems, 0, xs.env);
        if r.Failed? then r else Normal(Unbind(Unbind(r.env, key), val))
    case Break => Broke(env)
    case Continue => Continued(env)
  }

  function ExecAll(ss: seq<Stmt>, env: Env): Out
    decreases ss, 1, 0
  {
    if ss == [] then Normal(env)
    else
      var r := Exec(ss[0], env);
      if r.Normal? then ExecAll(ss[1..], r.env) else r
  }

  /** The iterations from element i on; the result is Normal or Failed. */
  function ExecEach(key: Option<nat>, val: Option<nat>, body: seq<Stmt>, xs: seq<Value>, i: nat, env: Env): (o: Out)
    ensures o.Normal? || o.Failed?
    decreases body, 2, |xs| - i
  {
    if i >= |xs| then Normal(env)
    else
      var r := ExecAll(body, Bind(Bind(env, key, VInt(i)), val, xs[i]));
      match r
      case Failed => r
      case Broke(env') => Normal(env')
      case Normal(env') => ExecEach(key, val, body, xs, i + 1, env')
      case Continued(env') => ExecEach(key, val, body, xs, i + 1, env')
  }

  // ---- Symbols ----

  /** The locals of a chunk: its variables, and three hidden ones per loop. */
  datatype Sym = User(x: nat) | Iter(id: nat) | StreamElem(id: nat) | Length(id: nat)

  /** A hidden local that a loop relies on while its body runs. */
  predicate Hidden(y: Sym) { y.Iter? || y.Length? }

  function Vars(x: Option<nat>): set<Sym> {
    if x.Some? then {User(x.value)} else {}
  }

  function ExprSyms(e: Expr): set<Sym>
    decreases e
  {
    match e
    case Lit(_) => {}
    case True => {}
    case False => {}
    case Nil => {}
    case Var(x) => {User(x)}
    case And(l, r) => ExprSyms(l) + ExprSyms(r)
    case Or(l, r) => ExprSyms(l) + ExprSyms(r)
    case IfExpr(test, thn, els) =>
      ExprSyms(test) + ExprSyms(thn) + if els.Some? then ExprSyms(els.value) else {}
    case ForExpr(id, iter, key, val, body) =>
      {Iter(id), StreamElem(id), Length(id)} + ExprSyms(iter) + Vars(key) + Vars(val) + ExprSyms(body)
    case List(elems) => ElemsSyms(elems)
    case Spread(x) => ExprSyms(x)
  }

  function ElemsSyms(es: seq<Expr>): set<Sym>
    decreases es
  {
    if es == [] then {} else ExprSyms(es[0]) + ElemsSyms(es[1..])
  }

  function StmtSyms(s: Stmt): set<Sym>
    decreases s
  {
    match s
    case Do(e) => ExprSyms(e)
    case Assign(x, e) => {User(x)} + ExprSyms(e)
    case If(test, thn, alternate, els) => ExprSyms(test) + StmtsSyms(thn) + StmtsSyms(els)
    case For(id, iter, key, val, body) =>
      {Iter(id), StreamElem(id)} + ExprSyms(iter) + Vars(key) + Vars(val) + StmtsSyms(body)
    case Break => {}
    case Continue => {}
  }

  function StmtsSyms(ss: seq<Stmt>): set<Sym>
    decreases ss
  {
    if ss == [] then {} else StmtSyms(ss[0]) + StmtsSyms(ss[1..])
  }

  // ---- Well-formedness ----

  /** In a list literal nothing but spreads follows a spread. */
  predicate SpreadsLast(es: seq<Expr>) {
    forall i, j :: 0 <= i < j < |es| && es[i].Spread? ==> es[j].Spread?
  }

  /** The position of a loop is not that of a loop in its body. */
  predicate ExprOk(e: Expr)
    decreases e
  {
    match e
    case And(l, r) => ExprOk(l) && ExprOk(r)
    case Or(l, r) => ExprOk(l) && ExprOk(r)
    case IfExpr(test, thn, els) => ExprOk(test) && ExprOk(thn) && (els.Some? ==> ExprOk(els.value))
    case ForExpr(id, iter, key, val, body) =>
      ExprOk(iter) && ExprOk(body) && Iter(id) !in ExprSyms(body) && Length(id) !in ExprSyms(body)
    case List(elems) => ElemsOk(elems)
    case Spread(x) => ExprOk(x)
    case _ => true
  }

  predicate ElemsOk(es: seq<Expr>)
    decreases es
  {
    forall i :: 0 <= i < |es| ==> ExprOk(es[i])
  }

  predicate StmtOk(s: Stmt)
    decreases s
  {
    match s
    case Do(e) => ExprOk(e)
    case Assign(_, e) => ExprOk(e)
    case If(test, thn, alternate, els) => ExprOk(test) && StmtsOk(thn) && StmtsOk(els)
    case For(id, iter, key, val, body) => ExprOk(iter) && StmtsOk(body) && Iter(id) !in StmtsSyms(body)
    case Break => true
    case Continue => true
  }

  predicate StmtsOk(ss: seq<Stmt>)
    decreases ss
  {
    forall i :: 0 <= i < |ss| ==> StmtOk(ss[i])
  }

  /** No break or continue stands outside a loop. */
  predicate Closed(s: Stmt)
    decreases s
  {
    match s
    case If(_, thn, alternate, els) => AllClosed(thn) && (alternate ==> AllClosed(els))
    case Break => false
    case Continue => false
    case _ => true
  }

  predicate AllClosed(ss: seq<Stmt>)
    decreases ss
  {
    ss == [] || (Closed(ss[0]) && AllClosed(ss[1..]))
  }
}
