/** The code of each construct with its jump targets already in place, as a function of position. */
module CodeGen {
  import opened Common
  import opened Bytecode
  import opened Ast

  /** The slot of each symbol. */
  type Layout = Sym -> nat

  // ---- Instructions without, with a one-byte and with a two-byte operand ----

  function I0(op: Opcode): bytes { [op] }

  function I1(op: Opcode, a: nat): bytes { [op, a % 256] }

  function I2(op: Opcode, a: nat): bytes { [op, (a / 256) % 256, a % 256] }

  // ---- Constants, in the order in which the compiler adds them ----

  function ExprConsts(e: Expr): seq<Value>
    decreases e, 0
  {
    match e
    case Lit(v) => [v]
    case True => []
    case False => []
    case Nil => []
    case Var(_) => []
    case And(l, r) => ExprConsts(l) + ExprConsts(r)
    case Or(l, r) => ExprConsts(l) + ExprConsts(r)
    case IfExpr(test, thn, els) =>
      ExprConsts(test) + ExprConsts(thn) + if els.Some? then ExprConsts(els.value) else []
    case ForExpr(_, iter, _, _, body) => ExprConsts(iter) + [VInt(0)] + [VInt(1)] + ExprConsts(body)
    case List(elems) => ElemsConsts(elems, 0)
    case Spread(x) => ExprConsts(x)
  }

  function ElemsConsts(es: seq<Expr>, i: nat): seq<Value>
    decreases es, |es| - i
  {
    if i >= |es| then [] else ExprConsts(es[i]) + ElemsConsts(es, i + 1)
  }

  function StmtConsts(s: Stmt): seq<Value>
    decreases s
  {
    match s
    case Do(e) => ExprConsts(e)
    case Assign(_, e) => ExprConsts(e)
    case If(test, thn, alternate, els) =>
      ExprConsts(test) + StmtsConsts(thn) + if alternate then StmtsConsts(els) else []
    case For(_, iter, _, _, body) => ExprConsts(iter) + StmtsConsts(body)
    case Break => []
    case Continue => []
  }

  function StmtsConsts(ss: seq<Stmt>): seq<Value>
    decreases ss
  {
    if ss == [] then [] else StmtConsts(ss[0]) + StmtsConsts(ss[1..])
  }

  // ---- Lengths ----

  function HeadLen(key: Option<nat>, val: Option<nat>): nat {
    7 + (if key.Some? then 5 else 0) + (if val.Some? then 6 else 0)
  }

  function ExprLen(e: Expr): nat
    decreases e, 0
  {
    match e
    case Lit(_) => 3
    case True => 1
    case False => 1
    case Nil => 1
    case Var(_) => 2
    case And(l, r) => ExprLen(l) + 3 + ExprLen(r)
    case Or(l, r) => ExprLen(l) + 3 + ExprLen(r)
    case IfExpr(test, thn, els) =>
      ExprLen(test) + 3 + ExprLen(thn) + 3 + if els.Some? then ExprLen(els.value) else 1
    case ForExpr(_, iter, key, val, body) => ExprLen(iter) + 9 + HeadLen(key, val) + 9 + ExprLen(body) + 3 + 3
    case List(elems) => ElemsLen(elems, 0, false, 0)
    case Spread(x) => ExprLen(x)
  }

  /** What is emitted before a spread element: the appends owed, and the list if there is none yet. */
  function SpreadHeadLen(spread: bool, pend: nat): nat {
    if !spread then 3 else if pend != 0 then 3 else 0
  }

  /** The rest of a list literal from element i on, `pend` elements after a spread being owed an append. */
  function ElemsLen(es: seq<Expr>, i: nat, spread: bool, pend: nat): nat
    decreases es, |es| - i
  {
    if i >= |es| then (if spread && pend == 0 then 0 else 3)
    else if es[i].Spread? then
      SpreadHeadLen(spread, pend) + ExprLen(es[i]) + 1 + ElemsLen(es, i + 1, true, 0)
    else
      ExprLen(es[i]) + ElemsLen(es, i + 1, spread, if spread then pend + 1 else pend)
  }

  function StmtLen(s: Stmt): nat
    decreases s
  {
    match s
    case Do(e) => ExprLen(e) + 1
    case Assign(_, e) => ExprLen(e) + 2
    case If(test, thn, alternate, els) =>
      ExprLen(test) + 3 + StmtsLen(thn) + if alternate then 3 + StmtsLen(els) else 0
    case For(_, iter, key, val, body) => ExprLen(iter) + 4 + HeadLen(key, val) + StmtsLen(body) + 3
    case Break => 3
    case Continue => 3
  }

  function StmtsLen(ss: seq<Stmt>): nat
    decreases ss
  {
    if ss == [] then 0 else StmtLen(ss[0]) + StmtsLen(ss[1..])
  }

  // ---- Code at position p, the next constant having index c ----

  function KeyCode(id: nat, key: Option<nat>, slot: Layout): bytes {
    if key.Some? then I1(GET_LOCAL, slot(Iter(id))) + I0(ITER_KEY) + I1(SET_LOCAL, slot(User(key.value))) else []
  }

  function ValCode(id: nat, val: Option<nat>, slot: Layout): bytes {
    if val.Some?
    then I1(GET_LOCAL, slot(Iter(id))) + I1(ITER_VALUE, slot(StreamElem(id))) + I1(SET_LOCAL, slot(User(val.value)))
    else []
  }

  /** The loop condition, leaving for `post`, and the assignment of the loop variables. */
  function HeadCode(id: nat, key: Option<nat>, val: Option<nat>, post: nat, slot: Layout): (r: bytes)
    ensures |r| == HeadLen(key, val)
  {
    I1(GET_LOCAL, slot(Iter(id))) + I1(ITER_NEXT, slot(StreamElem(id))) + I2(JUMP_IF_FALSE, post)
      + KeyCode(id, key, slot) + ValCode(id, val, slot)
  }

  /** Count one more pending value. */
  function CountCode(id: nat, one: nat, slot: Layout): bytes {
    I1(GET_LOCAL, slot(Length(id))) + I2(PUSH_CONST, one) + I1(INT_BIN, ADD) + I1(SET_LOCAL, slot(Length(id)))
  }

  function InitCode(id: nat, slot: Layout): bytes {
    I1(ITER_INIT, 0) + I1(SET_LOCAL, slot(Iter(id)))
  }

  function ZeroCode(id: nat, zero: nat, slot: Layout): bytes {
    I2(PUSH_CONST, zero) + I1(SET_LOCAL, slot(Length(id)))
  }

  /** The left operand's code, the jump past the right operand's, and that. */
  function LogicCode(op: Opcode, p: nat, x: bytes, y: bytes): (r: bytes)
    ensures |r| == |x| + 3 + |y|
  {
    x + I2(op, p + |x| + 3 + |y|) + y
  }

  /** The test's code, and the two arms with the jumps around them. */
  function IfCode(p: nat, x: bytes, y: bytes, z: bytes): (r: bytes)
    ensures |r| == |x| + 3 + |y| + 3 + |z|
  {
    var p2 := p + |x| + 3 + |y| + 3;
    x + I2(JUMP_IF_FALSE, p2) + y + I2(JUMP, p2 + |z|) + z
  }

  function ExprCode(e: Expr, p: nat, c: nat, slot: Layout): (r: bytes)
    ensures |r| == ExprLen(e)
    decreases e, 0
  {
    match e
    case Lit(_) => I2(PUSH_CONST, c)
    case True => I0(PUSH_TRUE)
    case False => I0(PUSH_FALSE)
    case Nil => I0(PUSH_NIL)
    case Var(x) => I1(GET_LOCAL, slot(User(x)))
    case And(l, r) =>
      var x := ExprCode(l, p, c, slot);
      LogicCode(AND_JUMP, p, x, ExprCode(r, p + |x| + 3, c + |ExprConsts(l)|, slot))
    case Or(l, r) =>
      var x := ExprCode(l, p, c, slot);
      LogicCode(OR_JUMP, p, x, ExprCode(r, p + |x| + 3, c + |ExprConsts(l)|, slot))
    case IfExpr(test, thn, els) =>
      var c1 := c + |ExprConsts(test)|;
      var x := ExprCode(test, p, c, slot);
      var y := ExprCode(thn, p + |x| + 3, c1, slot);
      var p2 := p + |x| + 3 + |y| + 3;
      IfCode(p, x, y, if els.Some? then ExprCode(els.value, p2, c1 + |ExprConsts(thn)|, slot) else I0(PUSH_NIL))
    case ForExpr(id, iter, key, val, body) =>
      var c1 := c + |ExprConsts(iter)|;
      var x := ExprCode(iter, p, c, slot);
      var pre := p + |x| + 9;
      var p2 := pre + HeadLen(key, val);
      var y := ExprCode(body, p2 + 9, c1 + 2, slot);
      x + InitCode(id, slot) + ZeroCode(id, c1, slot) + HeadCode(id, key, val, p2 + 9 + |y| + 3, slot)
        + CountCode(id, c1 + 1, slot) + y + I2(JUMP, pre) + I1(GET_LOCAL, slot(Length(id))) + I0(CREATE_LIST_DYN_LEN)
    case List(elems) => ElemsCode(elems, 0, false, 0, p, c, slot)
    case Spread(x) => ExprCode(x, p, c, slot)
  }

  function SpreadHeadCode(i: nat, spread: bool, pend: nat): bytes {
    if !spread then I2(CREATE_LIST, i) else if pend != 0 then I2(APPEND, pend) else []
  }

  function ElemsCode(es: seq<Expr>, i: nat, spread: bool, pend: nat, p: nat, c: nat, slot: Layout): (r: bytes)
    ensures |r| == ElemsLen(es, i, spread, pend)
    decreases es, |es| - i
  {
    if i >= |es| then
      (if !spread then I2(CREATE_LIST, |es|) else if pend != 0 then I2(APPEND, pend) else [])
    else if es[i].Spread? then
      var p1 := p + SpreadHeadLen(spread, pend);
      var x := ExprCode(es[i], p1, c, slot);
      SpreadHeadCode(i, spread, pend) + x + I0(SPREAD_LIST)
        + ElemsCode(es, i + 1, true, 0, p1 + |x| + 1, c + |ExprConsts(es[i])|, slot)
    else
      var x := ExprCode(es[i], p, c, slot);
      x + ElemsCode(es, i + 1, spread, if spread then pend + 1 else pend, p + |x|, c + |ExprConsts(es[i])|, slot)
  }

  /** `brk` and `cont` are where break and continue of the enclosing loop go. */
  function StmtCode(s: Stmt, p: nat, c: nat, brk: nat, cont: nat, slot: Layout): (r: bytes)
    ensures |r| == StmtLen(s)
    decreases s
  {
    match s
    case Do(e) => ExprCode(e, p, c, slot) + I0(POP)
    case Assign(x, e) => ExprCode(e, p, c, slot) + I1(SET_LOCAL, slot(User(x)))
    case If(test, thn, alternate, els) =>
      var c1 := c + |ExprConsts(test)|;
      var x := ExprCode(test, p, c, slot);
      var y := StmtsCode(thn, p + |x| + 3, c1, brk, cont, slot);
      var p2 := p + |x| + 3 + |y| + if alternate then 3 else 0;
      var z := if alternate then StmtsCode(els, p2, c1 + |StmtsConsts(thn)|, brk, cont, slot) else [];
      x + I2(JUMP_IF_FALSE, p2) + y + if alternate then I2(JUMP, p2 + |z|) + z else []
    case For(id, iter, key, val, body) =>
      var x := ExprCode(iter, p, c, slot);
      var pre := p + |x| + 4;
      var p2 := pre + HeadLen(key, val);
      var postBody := p2 + StmtsLen(body);
      x + InitCode(id, slot) + HeadCode(id, key, val, postBody + 3, slot)
        + StmtsCode(body, p2, c + |ExprConsts(iter)|, postBody + 3, postBody, slot) + I2(JUMP, pre)
    case Break => I2(JUMP, brk)
    case Continue => I2(JUMP, cont)
  }

  function StmtsCode(ss: seq<Stmt>, p: nat, c: nat, brk: nat, cont: nat, slot: Layout): (r: bytes)
    ensures |r| == StmtsLen(ss)
    decreases ss
  {
    if ss == [] then []
    else
      var x := StmtCode(ss[0], p, c, brk, cont, slot);
      x + StmtsCode(ss[1..], p + |x|, c + |StmtConsts(ss[0])|, brk, cont, slot)
  }

  /** The main chunk: nothing, one statement whose value is the result, or several; then a suspend. */
  function MainCode(ss: seq<Stmt>, slot: Layout): bytes {
    (if ss == [] then I0(PUSH_NIL)
     else if |ss| == 1 && ss[0].Do? then ExprCode(ss[0].e, 0, 0, slot)
     else StmtsCode(ss, 0, 0, 0, 0, slot)) + I0(SUSPEND)
  }

  function MainConsts(ss: seq<Stmt>): seq<Value> {
    StmtsConsts(ss)
  }
}
