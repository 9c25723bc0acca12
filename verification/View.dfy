/**
 * The code generator for expressions as function values, unfolded one construct at a time: proofs about code then see
 * one level of the tree and no more.
 */
module View {
  import opened Common
  import opened Bytecode
  import opened Ast
  import opened CodeGen

  datatype View = View(
    code: (Expr, nat, nat) -> bytes,
    consts: Expr -> seq<Value>,
    len: Expr -> nat,
    elemsCode: (seq<Expr>, nat, bool, nat, nat, nat) -> bytes,
    elemsConsts: (seq<Expr>, nat) -> seq<Value>,
    elemsLen: (seq<Expr>, nat, bool, nat) -> nat)

  ghost predicate IsView(k: View, slot: Layout) {
    && (forall e, p, c {:trigger ExprCode(e, p, c, slot)} :: k.code(e, p, c) == ExprCode(e, p, c, slot))
    && (forall e, p, c {:trigger k.code(e, p, c)} :: |k.code(e, p, c)| == k.len(e))
    && (forall e {:trigger ExprConsts(e)} :: k.consts(e) == ExprConsts(e))
    && (forall e {:trigger ExprLen(e)} :: k.len(e) == ExprLen(e))
    && (forall es, i, sp, n, p, c {:trigger ElemsCode(es, i, sp, n, p, c, slot)} ::
          k.elemsCode(es, i, sp, n, p, c) == ElemsCode(es, i, sp, n, p, c, slot))
    && (forall es, i, sp, n, p, c {:trigger k.elemsCode(es, i, sp, n, p, c)} ::
          |k.elemsCode(es, i, sp, n, p, c)| == k.elemsLen(es, i, sp, n))
    && (forall es, i {:trigger ElemsConsts(es, i)} :: k.elemsConsts(es, i) == ElemsConsts(es, i))
    && (forall es, i, sp, n {:trigger ElemsLen(es, i, sp, n)} :: k.elemsLen(es, i, sp, n) == ElemsLen(es, i, sp, n))
  }

  function ViewOf(slot: Layout): View {
    View(
      (e, p, c) => ExprCode(e, p, c, slot), e => ExprConsts(e), e => ExprLen(e),
      (es, i, sp, n, p, c) => ElemsCode(es, i, sp, n, p, c, slot), (es, i: nat) => ElemsConsts(es, i),
      (es, i, sp, n) => ElemsLen(es, i, sp, n))
  }

  lemma ViewOfIsView(slot: Layout)
    ensures IsView(ViewOf(slot), slot)
  {
  }

  // ---- Leaves ----

  predicate Leaf(e: Expr) { e.Lit? || e.True? || e.False? || e.Nil? || e.Var? }

  function LeafCode(e: Expr, c: nat, slot: Layout): bytes
    requires Leaf(e)
  {
    match e
    case Lit(_) => I2(PUSH_CONST, c)
    case True => I0(PUSH_TRUE)
    case False => I0(PUSH_FALSE)
    case Nil => I0(PUSH_NIL)
    case Var(x) => I1(GET_LOCAL, slot(User(x)))
  }

  lemma LeafShape(k: View, slot: Layout, e: Expr, p: nat, c: nat)
    requires IsView(k, slot) && Leaf(e)
    ensures k.code(e, p, c) == LeafCode(e, c, slot) && k.len(e) == |LeafCode(e, c, slot)|
    ensures k.consts(e) == if e.Lit? then [e.v] else []
  {
    var _, _, _ := ExprCode(e, p, c, slot), ExprLen(e), ExprConsts(e);
  }

  // ---- And, or ----

  function LogicOp(e: Expr): Opcode { if e.And? then AND_JUMP else OR_JUMP }

  lemma LogicLen(k: View, slot: Layout, e: Expr)
    requires IsView(k, slot) && (e.And? || e.Or?)
    ensures k.len(e) == k.len(e.l) + 3 + k.len(e.r) && k.len(e) == ExprLen(e)
  {
    var _, _, _ := ExprLen(e), ExprLen(e.l), ExprLen(e.r);
  }

  lemma LogicShape(k: View, slot: Layout, e: Expr, p: nat, c: nat)
    requires IsView(k, slot) && (e.And? || e.Or?)
    ensures k.len(e) == k.len(e.l) + 3 + k.len(e.r)
    ensures k.code(e, p, c) ==
            k.code(e.l, p, c) + I2(LogicOp(e), p + k.len(e)) + k.code(e.r, p + k.len(e.l) + 3, c + |k.consts(e.l)|)
  {
    LogicLen(k, slot, e);
    LogicParts(k, slot, e, p, c);
  }

  lemma LogicParts(k: View, slot: Layout, e: Expr, p: nat, c: nat)
    requires IsView(k, slot) && (e.And? || e.Or?)
    ensures var x := k.code(e.l, p, c);
            k.code(e, p, c) == LogicCode(LogicOp(e), p, x, k.code(e.r, p + |x| + 3, c + |k.consts(e.l)|))
  {
    var x := ExprCode(e.l, p, c, slot);
    var _, _ := ExprCode(e, p, c, slot), ExprCode(e.r, p + |x| + 3, c + |ExprConsts(e.l)|, slot);
  }

  lemma LogicRest(k: View, slot: Layout, e: Expr)
    requires IsView(k, slot) && (e.And? || e.Or?)
    ensures k.consts(e) == k.consts(e.l) + k.consts(e.r)
  {
    var _, _, _ := ExprConsts(e.l), ExprConsts(e.r), ExprConsts(e);
  }

  // ---- If ----

  lemma IfLen(k: View, slot: Layout, e: Expr)
    requires IsView(k, slot) && e.IfExpr?
    ensures k.len(e) == k.len(e.test) + 3 + k.len(e.thn) + 3 + (if e.els.Some? then k.len(e.els.value) else 1)
    ensures k.len(e) == ExprLen(e)
  {
    var _, _, _ := ExprLen(e), ExprLen(e.test), ExprLen(e.thn);
    if e.els.Some? { var _ := ExprLen(e.els.value); }
  }

  lemma IfShape(k: View, slot: Layout, e: Expr, p: nat, c: nat, p1: nat, p2: nat, c1: nat)
    requires IsView(k, slot) && e.IfExpr?
    requires p1 == p + k.len(e.test) + 3 && p2 == p1 + k.len(e.thn) + 3 && c1 == c + |k.consts(e.test)|
    ensures k.len(e) == p2 - p + if e.els.Some? then k.len(e.els.value) else 1
    ensures k.code(e, p, c) ==
            k.code(e.test, p, c) + I2(JUMP_IF_FALSE, p2) + k.code(e.thn, p1, c1) + I2(JUMP, p + k.len(e))
              + if e.els.Some? then k.code(e.els.value, p2, c1 + |k.consts(e.thn)|) else I0(PUSH_NIL)
  {
    IfLen(k, slot, e);
    IfParts(k, slot, e, p, c);
  }

  lemma IfParts(k: View, slot: Layout, e: Expr, p: nat, c: nat)
    requires IsView(k, slot) && e.IfExpr?
    ensures var x, c1 := k.code(e.test, p, c), c + |k.consts(e.test)|;
            var y := k.code(e.thn, p + |x| + 3, c1);
            var p2 := p + |x| + 3 + |y| + 3;
            k.code(e, p, c) ==
            IfCode(p, x, y, if e.els.Some? then k.code(e.els.value, p2, c1 + |k.consts(e.thn)|) else I0(PUSH_NIL))
  {
    var x, c1 := ExprCode(e.test, p, c, slot), c + |ExprConsts(e.test)|;
    var y := ExprCode(e.thn, p + |x| + 3, c1, slot);
    var p2 := p + |x| + 3 + |y| + 3;
    var _, _ := ExprCode(e, p, c, slot), ExprConsts(e.thn);
    if e.els.Some? { var _ := ExprCode(e.els.value, p2, c1 + |ExprConsts(e.thn)|, slot); }
  }

  lemma IfRest(k: View, slot: Layout, e: Expr)
    requires IsView(k, slot) && e.IfExpr?
    ensures k.consts(e) == k.consts(e.test) + k.consts(e.thn) + if e.els.Some? then k.consts(e.els.value) else []
  {
    var _, _, _ := ExprConsts(e.test), ExprConsts(e.thn), ExprConsts(e);
    if e.els.Some? { var _ := ExprConsts(e.els.value); }
  }

  // ---- For ----

  lemma ForLen(k: View, slot: Layout, e: Expr)
    requires IsView(k, slot) && e.ForExpr?
    ensures k.len(e) == k.len(e.iter) + 9 + HeadLen(e.key, e.val) + 9 + k.len(e.body) + 3 + 3
  {
    var _, _, _ := ExprLen(e), ExprLen(e.iter), ExprLen(e.body);
  }

  lemma ForShape(k: View, slot: Layout, e: Expr, p: nat, c: nat, pre: nat, p2: nat, post: nat, c1: nat)
    requires IsView(k, slot) && e.ForExpr?
    requires pre == p + k.len(e.iter) + 9 && p2 == pre + HeadLen(e.key, e.val) && post == p2 + 9 + k.len(e.body) + 3
    requires c1 == c + |k.consts(e.iter)|
    ensures k.len(e) == post + 3 - p
    ensures k.code(e, p, c) ==
            k.code(e.iter, p, c) + InitCode(e.id, slot) + ZeroCode(e.id, c1, slot)
              + HeadCode(e.id, e.key, e.val, post, slot) + CountCode(e.id, c1 + 1, slot)
              + k.code(e.body, p2 + 9, c1 + 2) + I2(JUMP, pre)
              + I1(GET_LOCAL, slot(Length(e.id))) + I0(CREATE_LIST_DYN_LEN)
  {
    ForLen(k, slot, e);
    var _, _, _, _ := ExprCode(e, p, c, slot), ExprLen(e.iter), ExprLen(e.body), ExprConsts(e.iter);
    var _, _ := ExprCode(e.iter, p, c, slot), ExprCode(e.body, p2 + 9, c1 + 2, slot);
  }

  lemma ForRest(k: View, slot: Layout, e: Expr)
    requires IsView(k, slot) && e.ForExpr?
    ensures k.consts(e) == k.consts(e.iter) + [VInt(0)] + [VInt(1)] + k.consts(e.body)
  {
    var _, _, _ := ExprConsts(e.iter), ExprConsts(e.body), ExprConsts(e);
  }

  // ---- List literals ----

  lemma ListShape(k: View, slot: Layout, e: Expr, p: nat, c: nat)
    requires IsView(k, slot) && e.List?
    ensures k.len(e) == k.elemsLen(e.elems, 0, false, 0) && k.code(e, p, c) == k.elemsCode(e.elems, 0, false, 0, p, c)
  {
    var _, _ := ExprCode(e, p, c, slot), ExprLen(e);
    var _, _ := ElemsCode(e.elems, 0, false, 0, p, c, slot), ElemsLen(e.elems, 0, false, 0);
  }

  lemma ListRest(k: View, slot: Layout, e: Expr)
    requires IsView(k, slot) && e.List?
    ensures k.consts(e) == k.elemsConsts(e.elems, 0)
  {
    var _, _ := ExprConsts(e), ElemsConsts(e.elems, 0);
  }

  lemma SpreadShape(k: View, slot: Layout, e: Expr, p: nat, c: nat)
    requires IsView(k, slot) && e.Spread?
    ensures k.len(e) == k.len(e.e) && k.code(e, p, c) == k.code(e.e, p, c) && k.consts(e) == k.consts(e.e)
  {
    var _, _, _, _ := ExprCode(e, p, c, slot), ExprCode(e.e, p, c, slot), ExprLen(e), ExprLen(e.e);
    var _, _ := ExprConsts(e), ExprConsts(e.e);
  }

  lemma ElemsEnd(k: View, slot: Layout, es: seq<Expr>, spread: bool, p: nat, c: nat)
    requires IsView(k, slot)
    ensures k.elemsCode(es, |es|, spread, 0, p, c) == (if spread then [] else I2(CREATE_LIST, |es|))
    ensures k.elemsLen(es, |es|, spread, 0) == (if spread then 0 else 3)
  {
    var _, _ := ElemsCode(es, |es|, spread, 0, p, c, slot), ElemsLen(es, |es|, spread, 0);
  }

  lemma ElemsOwed(k: View, slot: Layout, es: seq<Expr>, pend: nat, p: nat, c: nat)
    requires IsView(k, slot) && pend > 0
    ensures k.elemsCode(es, |es|, true, pend, p, c) == I2(APPEND, pend)
  {
    var _ := ElemsCode(es, |es|, true, pend, p, c, slot);
  }

  lemma PlainElem(k: View, slot: Layout, es: seq<Expr>, i: nat, spread: bool, pend: nat, p: nat, c: nat)
    requires IsView(k, slot) && i < |es| && !es[i].Spread?
    ensures var pend' := if spread then pend + 1 else pend;
            && k.elemsLen(es, i, spread, pend) == k.len(es[i]) + k.elemsLen(es, i + 1, spread, pend')
            && k.elemsCode(es, i, spread, pend, p, c) ==
               k.code(es[i], p, c) + k.elemsCode(es, i + 1, spread, pend', p + k.len(es[i]), c + |k.consts(es[i])|)
  {
    var pend' := if spread then pend + 1 else pend;
    var _, _ := ElemsCode(es, i, spread, pend, p, c, slot), ElemsLen(es, i, spread, pend);
    var _, _, _ := ExprCode(es[i], p, c, slot), ExprLen(es[i]), ExprConsts(es[i]);
    var _, _ := ElemsCode(es, i + 1, spread, pend', p + ExprLen(es[i]), c + |ExprConsts(es[i])|, slot),
      ElemsLen(es, i + 1, spread, pend');
  }

  lemma SpreadElem(k: View, slot: Layout, es: seq<Expr>, i: nat, spread: bool, pend: nat, p: nat, c: nat)
    requires IsView(k, slot) && i < |es| && es[i].Spread?
    ensures var p1 := p + SpreadHeadLen(spread, pend);
            && k.elemsLen(es, i, spread, pend) == SpreadHeadLen(spread, pend) + k.len(es[i]) + 1 +
              k.elemsLen(es, i + 1, true, 0)
            && k.elemsCode(es, i, spread, pend, p, c) ==
               SpreadHeadCode(i, spread, pend) + k.code(es[i], p1, c) + I0(SPREAD_LIST)
                 + k.elemsCode(es, i + 1, true, 0, p1 + k.len(es[i]) + 1, c + |k.consts(es[i])|)
  {
    SpreadElemLen(k, slot, es, i, spread, pend);
    var p1 := p + SpreadHeadLen(spread, pend);
    var _, _ := ExprCode(es[i], p1, c, slot), ExprConsts(es[i]);
    assert ExprLen(es[i]) == k.len(es[i]);
    var _ := ElemsCode(es, i, spread, pend, p, c, slot);
    var _ := ElemsCode(es, i + 1, true, 0, p1 + k.len(es[i]) + 1, c + |k.consts(es[i])|, slot);
  }

  lemma SpreadElemLen(k: View, slot: Layout, es: seq<Expr>, i: nat, spread: bool, pend: nat)
    requires IsView(k, slot) && i < |es| && es[i].Spread?
    ensures k.elemsLen(es, i, spread, pend) ==
            SpreadHeadLen(spread, pend) + k.len(es[i]) + 1 + k.elemsLen(es, i + 1, true, 0)
  {
    var _, _, _ := ElemsLen(es, i, spread, pend), ExprLen(es[i]), ElemsLen(es, i + 1, true, 0);
  }

  lemma ElemRest(k: View, slot: Layout, es: seq<Expr>, i: nat)
    requires IsView(k, slot) && i < |es|
    ensures k.elemsConsts(es, i) == k.consts(es[i]) + k.elemsConsts(es, i + 1)
  {
    var _, _, _ := ElemsConsts(es, i), ExprConsts(es[i]), ElemsConsts(es, i + 1);
  }
}
