/** The one-pass compiler: placeholders are emitted, positions recorded, and operands changed in place. */
module Compiler {
  import opened Common
  import opened Bytecode
  import opened Ast
  import opened CodeGen
  import opened View
  import opened StmtView
  import opened Patching

  predicate Plain(op: Opcode) {
    op in {POP, PUSH_TRUE, PUSH_FALSE, PUSH_NIL, CREATE_LIST_DYN_LEN, SPREAD_LIST, ITER_KEY, SUSPEND}
  }

  predicate Narrow(op: Opcode) {
    op in {GET_LOCAL, SET_LOCAL, ITER_INIT, ITER_NEXT, ITER_VALUE, INT_BIN}
  }

  predicate Wide(op: Opcode) {
    op in {PUSH_CONST, JUMP_IF_FALSE, AND_JUMP, OR_JUMP, JUMP, CREATE_LIST, APPEND}
  }

  lemma WidthsOf(op: Opcode)
    ensures Plain(op) ==> Widths(op) == []
    ensures Narrow(op) ==> Widths(op) == [1]
    ensures Wide(op) ==> Widths(op) == [2]
  {
  }

  lemma MakeForms(op: Opcode, a: nat)
    ensures Plain(op) ==> |Widths(op)| == 0 && Make(op, []) == I0(op)
    ensures Narrow(op) ==> |Widths(op)| == 1 && Make(op, [a]) == I1(op, a)
    ensures Wide(op) ==> |Widths(op)| == 1 && Make(op, [a]) == I2(op, a)
  {
    WidthsOf(op);
    if Plain(op) {
      assert Operands([], []) == [];
    } else if Narrow(op) || Wide(op) {
      var ws := Widths(op);
      assert ws[1..] == [];
      assert Operands(ws, [a]) == Operand(ws[0], a) + Operands([], []);
    }
  }

  /** Patching the jump between what was emitted before and after it. */
  lemma PatchMiddle(pre: bytes, op: Opcode, x: nat, a: nat, post: bytes)
    ensures Patch(pre + I2(op, x) + post, |pre|, a) == pre + I2(op, a) + post && (pre + I2(op, x) + post)[|pre|] == op
  {
  }

  lemma PatchSpan(w: bytes, x: bytes, op: Opcode, a: nat, y: bytes)
    ensures Patch(w + x + I2(op, 0) + y, |w| + |x|, a) == w + (x + I2(op, a) + y)
    ensures (w + x + I2(op, 0) + y)[|w| + |x|] == op
  {
    PatchMiddle(w + x, op, 0, a, y);
    assert w + x + I2(op, a) + y == w + (x + I2(op, a) + y);
  }

  /** The views, `ok` telling that they are the real ones without unfolding what that means. */
  datatype Spec = Spec(
    k: View, v: SView, slot: Layout, ok: (View, SView, Layout) -> bool,
    leaves: (bool, Stmt, nat) -> seq<nat>, allLeaves: (bool, seq<Stmt>, nat) -> seq<nat>,
    closed: Stmt -> bool, allClosed: seq<Stmt> -> bool)

  ghost predicate Sound(h: Spec) {
    (forall k, v, slot {:trigger Views(k, v, slot)} :: h.ok(k, v, slot) == Views(k, v, slot)) && h.ok(h.k, h.v, h.slot)
  }

  ghost predicate Tracks(h: Spec) {
    && (forall b, s, p {:trigger Leaves(b, s, p)} :: h.leaves(b, s, p) == Leaves(b, s, p))
    && (forall b, ss, p {:trigger AllLeaves(b, ss, p)} :: h.allLeaves(b, ss, p) == AllLeaves(b, ss, p))
    && (forall s {:trigger Closed(s)} :: h.closed(s) == Closed(s))
    && (forall ss {:trigger AllClosed(ss)} :: h.allClosed(ss) == AllClosed(ss))
  }

  ghost function SpecOf(slot: Layout): Spec {
    Spec(ViewOf(slot), SViewOf(slot), slot, (k, v, l: Layout) => Views(k, v, l),
      (b, s, p: nat) => Leaves(b, s, p), (b, ss, p: nat) => AllLeaves(b, ss, p), s => Closed(s), ss => AllClosed(ss))
  }

  lemma SpecIsSound(slot: Layout)
    ensures Sound(SpecOf(slot)) && Tracks(SpecOf(slot))
  {
    ViewOfIsView(slot);
    SViewOfIsSView(slot);
    assert Views(SpecOf(slot).k, SpecOf(slot).v, slot);
  }

  lemma Opens(h: Spec)
    requires Sound(h)
    ensures Views(h.k, h.v, h.slot)
  {
  }

  lemma LogicDone(h: Spec, e: Expr, w: bytes, x: bytes, w1: bytes, c: nat)
    requires Sound(h) && (e.And? || e.Or?) && x == h.k.code(e.l, |w|, c)
    requires w1 == w + x + I2(LogicOp(e), 0) + h.k.code(e.r, |w| + |x| + 3, c + |h.k.consts(e.l)|)
    ensures Patch(w1, |w| + |x|, |w1|) == w + h.k.code(e, |w|, c) && w1[|w| + |x|] == LogicOp(e)
  {
    Opens(h);
    LogicShape(h.k, h.slot, e, |w|, c);
    PatchSpan(w, x, LogicOp(e), |w1|, h.k.code(e.r, |w| + |x| + 3, c + |h.k.consts(e.l)|));
  }

  lemma LogicConsts(h: Spec, e: Expr)
    requires Sound(h) && (e.And? || e.Or?)
    ensures h.k.consts(e) == h.k.consts(e.l) + h.k.consts(e.r)
  {
    Opens(h);
    LogicRest(h.k, h.slot, e);
  }

  /** Up to the second jump, the first being patched. */
  lemma PatchSpanMore(w: bytes, x: bytes, op: Opcode, a: nat, y: bytes, z: bytes)
    ensures Patch(w + x + I2(op, 0) + y + z, |w| + |x|, a) == w + (x + I2(op, a) + y) + z
    ensures (w + x + I2(op, 0) + y + z)[|w| + |x|] == op
  {
    PatchSpan(w, x, op, a, y + z);
    var j, j' := I2(op, 0), I2(op, a);
    assert w + x + j + y + z == w + x + j + (y + z);
    assert w + (x + j' + (y + z)) == w + (x + j' + y) + z;
  }

  /** The second arm of a conditional expression; a missing one gives nil. */
  function OtherArm(h: Spec, e: Expr, p: nat, c: nat): bytes
    requires e.IfExpr?
  {
    if e.els.Some? then h.k.code(e.els.value, p, c) else I0(PUSH_NIL)
  }

  function OtherConsts(h: Spec, e: Expr): seq<Value>
    requires e.IfExpr?
  {
    if e.els.Some? then h.k.consts(e.els.value) else []
  }

  lemma IfDone(h: Spec, e: Expr, w: bytes, x: bytes, y: bytes, z: bytes, w1: bytes, c: nat)
    requires Sound(h) && e.IfExpr? && x == h.k.code(e.test, |w|, c)
             && y == h.k.code(e.thn, |w| + |x| + 3, c + |h.k.consts(e.test)|)
    requires w1 == w + (x + I2(JUMP_IF_FALSE, |w| + |x| + 3 + |y| + 3) + y) + I2(JUMP, 0) + z
    requires z == OtherArm(h, e, |w| + |x| + 3 + |y| + 3, c + |h.k.consts(e.test)| + |h.k.consts(e.thn)|)
    ensures var q := |w| + |x| + 3 + |y|;
            w1[q] == JUMP && Patch(w1, q, |w1|) == w + h.k.code(e, |w|, c)
  {
    Opens(h);
    var p1, c1 := |w| + |x| + 3, c + |h.k.consts(e.test)|;
    var p2 := p1 + |y| + 3;
    IfShape(h.k, h.slot, e, |w|, c, p1, p2, c1);
    PatchSpan(w, x + I2(JUMP_IF_FALSE, p2) + y, JUMP, |w1|, z);
  }

  lemma IfConsts(h: Spec, e: Expr, cs: seq<Value>)
    requires Sound(h) && e.IfExpr?
    ensures cs + h.k.consts(e.test) + h.k.consts(e.thn) + OtherConsts(h, e) == cs + h.k.consts(e)
  {
    Opens(h);
    IfRest(h.k, h.slot, e);
  }

  /** A for expression up to its condition. */
  function ForFront(h: Spec, e: Expr, p: nat, c: nat): bytes
    requires e.ForExpr?
  {
    h.k.code(e.iter, p, c) + InitCode(e.id, h.slot) + ZeroCode(e.id, c + |h.k.consts(e.iter)|, h.slot)
  }

  /** From the condition at `pre` to the jump back to it, constant `one` being the next. */
  function ForLoop(h: Spec, e: Expr, pre: nat, one: nat, post: nat): bytes
    requires e.ForExpr?
  {
    HeadCode(e.id, e.key, e.val, post, h.slot) + CountCode(e.id, one, h.slot)
      + h.k.code(e.body, pre + HeadLen(e.key, e.val) + 9, one + 1) + I2(JUMP, pre)
  }

  /** The pending values become a list. */
  function ForBack(h: Spec, e: Expr): bytes
    requires e.ForExpr?
  {
    I1(GET_LOCAL, h.slot(Length(e.id))) + I0(CREATE_LIST_DYN_LEN)
  }

  lemma ForIs(h: Spec, e: Expr, p: nat, c: nat, pre: nat, post: nat)
    requires Sound(h) && e.ForExpr? && pre == p + |ForFront(h, e, p, c)|
    requires post == pre + HeadLen(e.key, e.val) + 9 + h.k.len(e.body) + 3
    ensures h.k.code(e, p, c) ==
            ForFront(h, e, p, c) + ForLoop(h, e, pre, c + |h.k.consts(e.iter)| + 1, post) + ForBack(h, e)
  {
    Opens(h);
    var x, c1 := h.k.code(e.iter, p, c), c + |h.k.consts(e.iter)|;
    var p2 := pre + HeadLen(e.key, e.val);
    ForShape(h.k, h.slot, e, p, c, pre, p2, post, c1);
    ForJoin(x, InitCode(e.id, h.slot), ZeroCode(e.id, c1, h.slot), HeadCode(e.id, e.key, e.val, post, h.slot),
      CountCode(e.id, c1 + 1, h.slot), h.k.code(e.body, p2 + 9, c1 + 2), I2(JUMP, pre),
      I1(GET_LOCAL, h.slot(Length(e.id))), I0(CREATE_LIST_DYN_LEN));
  }

  lemma ForLoopLen(h: Spec, e: Expr, pre: nat, one: nat, post: nat)
    requires Sound(h) && e.ForExpr?
    ensures |ForLoop(h, e, pre, one, post)| == HeadLen(e.key, e.val) + 9 + h.k.len(e.body) + 3
  {
    Opens(h);
  }

  lemma ForDone(h: Spec, e: Expr, w: bytes, c: nat, pre: nat, post: nat, w1: bytes)
    requires Sound(h) && e.ForExpr? && pre == |w| + |ForFront(h, e, |w|, c)|
    requires var loop := ForLoop(h, e, pre, c + |h.k.consts(e.iter)| + 1, post);
             post == pre + |loop| && w1 == w + ForFront(h, e, |w|, c) + loop + ForBack(h, e)
    ensures w1 == w + h.k.code(e, |w|, c)
  {
    ForLoopLen(h, e, pre, c + |h.k.consts(e.iter)| + 1, post);
    ForIs(h, e, |w|, c, pre, post);
    Grouped(w, ForFront(h, e, |w|, c), ForLoop(h, e, pre, c + |h.k.consts(e.iter)| + 1, post), ForBack(h, e));
  }

  lemma Grouped(w: bytes, a: bytes, b: bytes, d: bytes)
    ensures w + a + b + d == w + (a + b + d)
  {
  }

  lemma ForConsts(h: Spec, e: Expr, cs: seq<Value>)
    requires Sound(h) && e.ForExpr?
    ensures cs + h.k.consts(e.iter) + [VInt(0)] + [VInt(1)] + h.k.consts(e.body) == cs + h.k.consts(e)
  {
    Opens(h);
    ForRest(h.k, h.slot, e);
  }

  lemma HeadPatched(w: bytes, id: nat, key: Option<nat>, val: Option<nat>, post: nat, slot: Layout, n: bytes, y: bytes,
      j: bytes)
    ensures var h, h' := HeadCode(id, key, val, 0, slot), HeadCode(id, key, val, post, slot);
            && Patch(w + h + n + y + j, |w| + 4, post) == w + (h' + n + y + j)
            && (w + h + n + y + j)[|w| + 4] == JUMP_IF_FALSE
  {
    var u, t := I1(GET_LOCAL, slot(Iter(id))) + I1(ITER_NEXT, slot(StreamElem(id))),
      KeyCode(id, key, slot) + ValCode(id, val, slot);
    HeadSplit(id, key, val, 0, slot, u, t);
    HeadSplit(id, key, val, post, slot, u, t);
    PatchSpan(w, u, JUMP_IF_FALSE, post, t + n + y + j);
    Regroup(w, u, I2(JUMP_IF_FALSE, 0), t, n, y, j);
    Regroup(w, u, I2(JUMP_IF_FALSE, post), t, n, y, j);
  }

  lemma HeadSplit(id: nat, key: Option<nat>, val: Option<nat>, post: nat, slot: Layout, u: bytes, t: bytes)
    requires u == I1(GET_LOCAL, slot(Iter(id))) + I1(ITER_NEXT, slot(StreamElem(id)))
             && t == KeyCode(id, key, slot) + ValCode(id, val, slot)
    ensures HeadCode(id, key, val, post, slot) == u + I2(JUMP_IF_FALSE, post) + t && |u| == 4
  {
  }

  lemma Regroup(w: bytes, u: bytes, i: bytes, t: bytes, n: bytes, y: bytes, j: bytes)
    ensures w + u + i + (t + n + y + j) == w + (u + i + t) + n + y + j
    ensures w + (u + i + (t + n + y + j)) == w + ((u + i + t) + n + y + j)
  {
  }

  /** The jumps out of a loop being compiled, to be patched when it ends. */
  class LoopCompilation {
    var breakPositions: seq<nat>
    var continuePositions: seq<nat>

    constructor ()
      ensures breakPositions == [] && continuePositions == []
    {
      breakPositions, continuePositions := [], [];
    }
  }

  class Compiler {
    const slot: Layout
    ghost const h: Spec
    var instructions: bytes
    var constants: seq<Value>
    var loops: seq<LoopCompilation>

    constructor (slot: Layout)
      ensures Ready() && this.slot == slot && h == SpecOf(slot)
      ensures instructions == [] && constants == [] && loops == []
    {
      this.slot, h := slot, SpecOf(slot);
      instructions, constants, loops := [], [], [];
      new;
      SpecIsSound(slot);
    }

    ghost predicate Ready() {
      h.slot == slot && Sound(h) && Tracks(h)
    }

    /** The innermost loop, whose lists a statement may extend. */
    function CurrentLoop(): set<LoopCompilation>
      reads this`loops
    {
      if loops == [] then {} else {loops[|loops| - 1]}
    }

    // ---- Emission ----

    method AddConstant(x: Value) returns (i: nat)
      modifies this`constants
      ensures i == |old(constants)| && constants == old(constants) + [x]
    {
      constants := constants + [x];
      i := |constants| - 1;
    }

    method AddInstruction(b: bytes) returns (pos: nat)
      modifies this`instructions
      ensures pos == |old(instructions)| && instructions == old(instructions) + b
    {
      pos := |instructions|;
      instructions := instructions + b;
    }

    method Emit(op: Opcode, os: seq<nat>) returns (pos: nat)
      requires |os| == |Widths(op)|
      modifies this`instructions
      ensures pos == |old(instructions)| && instructions == old(instructions) + Make(op, os)
    {
      var inst := MakeInstruction(op, os);
      pos := AddInstruction(inst[..]);
    }

    method Emit0(op: Opcode)
      requires Plain(op)
      modifies this`instructions
      ensures instructions == old(instructions) + I0(op)
    {
      MakeForms(op, 0);
      var _ := Emit(op, []);
    }

    method Emit1(op: Opcode, a: nat)
      requires Narrow(op)
      modifies this`instructions
      ensures instructions == old(instructions) + I1(op, a)
    {
      MakeForms(op, a);
      var _ := Emit(op, [a]);
    }

    method Emit2(op: Opcode, a: nat) returns (pos: nat)
      requires Wide(op)
      modifies this`instructions
      ensures pos == |old(instructions)| && instructions == old(instructions) + I2(op, a)
    {
      MakeForms(op, a);
      pos := Emit(op, [a]);
    }

    method ReplaceInstruction(pos: nat, inst: bytes)
      requires pos + |inst| <= |instructions|
      modifies this`instructions
      ensures instructions == old(instructions[..pos]) + inst + old(instructions[pos + |inst|..])
    {
      instructions := instructions[..pos] + inst + instructions[pos + |inst|..];
    }

    method ChangeOperand(pos: nat, a: nat)
      requires pos + 3 <= |instructions| && Wide(instructions[pos])
      modifies this`instructions
      ensures instructions == Patch(old(instructions), pos, a)
    {
      var op := instructions[pos];
      MakeForms(op, a);
      var inst := MakeInstruction(op, [a]);
      ReplaceInstruction(pos, inst[..]);
    }

    /** Every jump in the list gets the target. */
    method PatchPositions(qs: seq<nat>, a: nat, ghost lo: nat, ghost hi: nat)
      requires JumpsAt(instructions, qs, lo, hi)
      modifies this`instructions
      ensures instructions == PatchAll(old(instructions), qs, a)
    {
      ghost var goal := PatchAll(instructions, qs, a);
      var i := 0;
      assert qs[0..] == qs;
      while i < |qs|
        invariant 0 <= i <= |qs| && |instructions| == |old(instructions)|
        invariant forall j :: i <= j < |qs| ==> instructions[qs[j]] == JUMP
        invariant PatchAll(instructions, qs[i..], a) == goal
      {
        ChangeOperand(qs[i], a);
        assert qs[i..][1..] == qs[i + 1..];
        i := i + 1;
      }
      assert qs[i..] == [];
    }

    // ---- Expressions ----

    method CompileExpr(e: Expr)
      requires Ready()
      modifies this`instructions, this`constants, this`loops
      ensures loops == old(loops) && constants == old(constants) + h.k.consts(e)
      ensures instructions == old(instructions) + h.k.code(e, |old(instructions)|, |old(constants)|)
      decreases e, 1, 0
    {
      match e
      case And(_, _) => CompileLogical(e);
      case Or(_, _) => CompileLogical(e);
      case IfExpr(_, _, _) => CompileIfExpr(e);
      case ForExpr(_, _, _, _, _) => CompileForExpr(e);
      case List(_) => CompileList(e);
      case Spread(x) =>
        SpreadIs(h, e, |instructions|, |constants|);
        CompileExpr(x);
      case _ => CompileLeaf(e);
    }

    method CompileLeaf(e: Expr)
      requires Ready() && Leaf(e)
      modifies this`instructions, this`constants
      ensures constants == old(constants) + h.k.consts(e)
      ensures instructions == old(instructions) + h.k.code(e, |old(instructions)|, |old(constants)|)
    {
      LeafIs(h, e, |instructions|, |constants|);
      match e
      case Lit(x) => var i := AddConstant(x); var _ := Emit2(PUSH_CONST, i);
      case True => Emit0(PUSH_TRUE);
      case False => Emit0(PUSH_FALSE);
      case Nil => Emit0(PUSH_NIL);
      case Var(x) => Emit1(GET_LOCAL, slot(User(x)));
    }

    method CompileLogical(e: Expr)
      requires Ready() && (e.And? || e.Or?)
      modifies this`instructions, this`constants, this`loops
      ensures loops == old(loops) && constants == old(constants) + h.k.consts(e)
      ensures instructions == old(instructions) + h.k.code(e, |old(instructions)|, |old(constants)|)
      decreases e, 0, 0
    {
      ghost var w, c := instructions, |constants|;
      CompileExpr(e.l);
      ghost var x := h.k.code(e.l, |w|, c);
      var jumpPos := Emit2(if e.And? then AND_JUMP else OR_JUMP, 0);
      CompileExpr(e.r);
      LogicConsts(h, e);
      LogicDone(h, e, w, x, instructions, c);
      ChangeOperand(jumpPos, |instructions|);
    }

    method CompileIfExpr(e: Expr)
      requires Ready() && e.IfExpr?
      modifies this`instructions, this`constants, this`loops
      ensures loops == old(loops) && constants == old(constants) + h.k.consts(e)
      ensures instructions == old(instructions) + h.k.code(e, |old(instructions)|, |old(constants)|)
      decreases e, 0, 1
    {
      ghost var w, c, cs := instructions, |constants|, constants;
      ghost var x := h.k.code(e.test, |w|, c);
      ghost var y := h.k.code(e.thn, |w| + |x| + 3, c + |h.k.consts(e.test)|);
      var jumpPos2 := CompileTestAndThen(e);
      ghost var z := OtherArm(h, e, |instructions|, |constants|);
      CompileAlternate(e);
      IfConsts(h, e, cs);
      IfDone(h, e, w, x, y, z, instructions, c);
      ChangeOperand(jumpPos2, |instructions|);
    }

    method CompileAlternate(e: Expr)
      requires Ready() && e.IfExpr?
      modifies this`instructions, this`constants, this`loops
      ensures loops == old(loops) && constants == old(constants) + OtherConsts(h, e)
      ensures instructions == old(instructions) + OtherArm(h, e, |old(instructions)|, |old(constants)|)
      decreases e, 0, 0
    {
      if e.els.Some? { CompileExpr(e.els.value); } else { Emit0(PUSH_NIL); }
    }

    /** The test, the first arm and the jump over the second; the test's jump is patched. */
    method CompileTestAndThen(e: Expr) returns (jumpPos2: nat)
      requires Ready() && e.IfExpr?
      modifies this`instructions, this`constants, this`loops
      ensures loops == old(loops) && constants == old(constants) + h.k.consts(e.test) + h.k.consts(e.thn)
      ensures var x := h.k.code(e.test, |old(instructions)|, |old(constants)|);
              var p1 := |old(instructions)| + |x| + 3;
              var y := h.k.code(e.thn, p1, |old(constants)| + |h.k.consts(e.test)|);
              && instructions == old(instructions) + (x + I2(JUMP_IF_FALSE, p1 + |y| + 3) + y) + I2(JUMP, 0)
                && jumpPos2 == p1 + |y|
      decreases e, 0, 0
    {
      ghost var w, c := instructions, |constants|;
      ghost var x := h.k.code(e.test, |w|, c);
      CompileExpr(e.test);
      var jumpPos1 := Emit2(JUMP_IF_FALSE, 0);
      ghost var y := h.k.code(e.thn, |instructions|, |constants|);
      CompileExpr(e.thn);
      jumpPos2 := EndFirstArm(jumpPos1, w, x, y);
    }

    /** A jump over the second arm; the test's jump goes past it. */
    method EndFirstArm(jumpPos1: nat, ghost w: bytes, ghost x: bytes, ghost y: bytes) returns (jumpPos2: nat)
      requires jumpPos1 == |w| + |x| && instructions == w + x + I2(JUMP_IF_FALSE, 0) + y
      modifies this`instructions
      ensures jumpPos2 == |w| + |x| + 3 + |y|
      ensures instructions == w + (x + I2(JUMP_IF_FALSE, |w| + |x| + 3 + |y| + 3) + y) + I2(JUMP, 0)
    {
      jumpPos2 := Emit2(JUMP, 0);
      PatchSpanMore(w, x, JUMP_IF_FALSE, |instructions|, y, I2(JUMP, 0));
      ChangeOperand(jumpPos1, |instructions|);
    }

    /** The condition of a loop and the assignment of its variables; the jump out is a placeholder. */
    method EmitHead(id: nat, key: Option<nat>, val: Option<nat>) returns (postCondPos: nat)
      modifies this`instructions
      ensures instructions == old(instructions) + HeadCode(id, key, val, 0, slot)
              && postCondPos == |old(instructions)| + 4
    {
      ghost var w := instructions;
      postCondPos := EmitCondition(id);
      EmitKey(id, key);
      EmitVal(id, val);
      Grouped(w, I1(GET_LOCAL, slot(Iter(id))) + I1(ITER_NEXT, slot(StreamElem(id))) + I2(JUMP_IF_FALSE, 0),
        KeyCode(id, key, slot), ValCode(id, val, slot));
    }

    method EmitCondition(id: nat) returns (postCondPos: nat)
      modifies this`instructions
      ensures postCondPos == |old(instructions)| + 4
      ensures instructions == old(instructions) +
                (I1(GET_LOCAL, slot(Iter(id))) + I1(ITER_NEXT, slot(StreamElem(id))) + I2(JUMP_IF_FALSE, 0))
    {
      Emit1(GET_LOCAL, slot(Iter(id)));
      Emit1(ITER_NEXT, slot(StreamElem(id)));
      postCondPos := Emit2(JUMP_IF_FALSE, 0);
    }

    method EmitKey(id: nat, key: Option<nat>)
      modifies this`instructions
      ensures instructions == old(instructions) + KeyCode(id, key, slot)
    {
      if key.Some? {
        Emit1(GET_LOCAL, slot(Iter(id)));
        Emit0(ITER_KEY);
        Emit1(SET_LOCAL, slot(User(key.value)));
      }
    }

    method EmitVal(id: nat, val: Option<nat>)
      modifies this`instructions
      ensures instructions == old(instructions) + ValCode(id, val, slot)
    {
      if val.Some? {
        Emit1(GET_LOCAL, slot(Iter(id)));
        Emit1(ITER_VALUE, slot(StreamElem(id)));
        Emit1(SET_LOCAL, slot(User(val.value)));
      }
    }

    method EmitInit(id: nat)
      modifies this`instructions
      ensures instructions == old(instructions) + InitCode(id, slot)
    {
      Emit1(ITER_INIT, 0);
      Emit1(SET_LOCAL, slot(Iter(id)));
    }

    method EmitZero(id: nat)
      modifies this`instructions, this`constants
      ensures instructions == old(instructions) + ZeroCode(id, |old(constants)|, slot)
              && constants == old(constants) + [VInt(0)]
    {
      var zero := AddConstant(VInt(0));
      var _ := Emit2(PUSH_CONST, zero);
      Emit1(SET_LOCAL, slot(Length(id)));
    }

    method EmitCount(id: nat)
      modifies this`instructions, this`constants
      ensures instructions == old(instructions) + CountCode(id, |old(constants)|, slot)
              && constants == old(constants) + [VInt(1)]
    {
      Emit1(GET_LOCAL, slot(Length(id)));
      var one := AddConstant(VInt(1));
      var _ := Emit2(PUSH_CONST, one);
      Emit1(INT_BIN, ADD);
      Emit1(SET_LOCAL, slot(Length(id)));
    }

    method EnterLoop() returns (loop: LoopCompilation)
      modifies this`loops
      ensures fresh(loop) && loop.breakPositions == [] && loop.continuePositions == [] && loops == old(loops) + [loop]
    {
      loop := new LoopCompilation();
      loops := loops + [loop];
    }

    method LeaveLoop()
      requires loops != []
      modifies this`loops
      ensures loops == old(loops[..|loops| - 1])
    {
      loops := loops[..|loops| - 1];
    }

    /** Elements before the first spread are counted; later plain ones are owed an append. */
    method CompileList(e: Expr)
      requires Ready() && e.List?
      modifies this`instructions, this`constants, this`loops
      ensures loops == old(loops) && constants == old(constants) + h.k.consts(e)
      ensures instructions == old(instructions) + h.k.code(e, |old(instructions)|, |old(constants)|)
      decreases e, 0, 1
    {
      var es := e.elems;
      var i, spread, lastAppendedCount := 0, false, 0;
      ghost var code, consts := old(instructions) + h.k.code(e, |instructions|, |constants|), constants + h.k.consts(e);
      ListIs(h, e, |instructions|, |constants|);
      while i < |es|
        invariant 0 <= i <= |es| && loops == old(loops) && (!spread ==> lastAppendedCount == 0)
        invariant instructions + h.k.elemsCode(es, i, spread, lastAppendedCount, |instructions|, |constants|) == code
        invariant constants + h.k.elemsConsts(es, i) == consts
      {
        ElemIs(h, es, i, spread, lastAppendedCount, instructions, constants);
        if es[i].Spread? {
          CompileSpread(i, spread, lastAppendedCount, es[i]);
          spread, lastAppendedCount := true, 0;
        } else {
          if spread { lastAppendedCount := lastAppendedCount + 1; }
          CompileExpr(es[i]);
        }
        i := i + 1;
      }
      ListEnds(h, es, spread, lastAppendedCount, |instructions|, |constants|);
      if spread {
        if lastAppendedCount != 0 { var _ := Emit2(APPEND, lastAppendedCount); }
      } else {
        var _ := Emit2(CREATE_LIST, |es|);
      }
    }

    method CompileSpread(i: nat, spread: bool, lastAppendedCount: nat, x: Expr)
      requires Ready() && x.Spread? && (!spread ==> lastAppendedCount == 0)
      modifies this`instructions, this`constants, this`loops
      ensures loops == old(loops) && constants == old(constants) + h.k.consts(x)
      ensures var p1 := |old(instructions)| + SpreadHeadLen(spread, lastAppendedCount);
              instructions == old(instructions) + SpreadHeadCode(i, spread, lastAppendedCount) +
                h.k.code(x, p1, |old(constants)|) + I0(SPREAD_LIST)
      decreases x, 1, 1
    {
      SpreadIs(h, x, |instructions| + SpreadHeadLen(spread, lastAppendedCount), |constants|);
      if spread && lastAppendedCount != 0 { var _ := Emit2(APPEND, lastAppendedCount); }
      if !spread { var _ := Emit2(CREATE_LIST, i); }
      CompileExpr(x.e);
      Emit0(SPREAD_LIST);
    }

    method CompileForExpr(e: Expr)
      requires Ready() && e.ForExpr?
      modifies this`instructions, this`constants, this`loops
      ensures loops == old(loops) && constants == old(constants) + h.k.consts(e)
      ensures instructions == old(instructions) + h.k.code(e, |old(instructions)|, |old(constants)|)
      decreases e, 0, 1
    {
      ghost var w, cs := instructions, constants;
      CompileIterated(e);
      ghost var pre := |instructions|;
      CompileForExprBody(e);
      ghost var post := |instructions|;
      EmitList(e.id);
      ForConsts(h, e, cs);
      ForDone(h, e, w, |cs|, pre, post, instructions);
    }

    /** The pending values become a list. */
    method EmitList(id: nat)
      modifies this`instructions
      ensures instructions == old(instructions) + (I1(GET_LOCAL, slot(Length(id))) + I0(CREATE_LIST_DYN_LEN))
    {
      Emit1(GET_LOCAL, slot(Length(id)));
      Emit0(CREATE_LIST_DYN_LEN);
    }

    method CompileIterated(e: Expr)
      requires Ready() && e.ForExpr?
      modifies this`instructions, this`constants, this`loops
      ensures loops == old(loops) && constants == old(constants) + h.k.consts(e.iter) + [VInt(0)]
      ensures instructions == old(instructions) + ForFront(h, e, |old(instructions)|, |old(constants)|)
      decreases e, 0, 0
    {
      CompileExpr(e.iter);
      EmitInit(e.id);
      EmitZero(e.id);
    }

    /** From the condition to the jump back to it. */
    method CompileForExprBody(e: Expr)
      requires Ready() && e.ForExpr?
      modifies this`instructions, this`constants, this`loops
      ensures loops == old(loops) && constants == old(constants) + [VInt(1)] + h.k.consts(e.body)
      ensures instructions ==
              old(instructions) + ForLoop(h, e, |old(instructions)|, |old(constants)|, |instructions|)
      decreases e, 0, 0
    {
      ghost var w, c := instructions, |constants|;
      var preCondPos := |instructions|;
      var postCondPos := EmitHead(e.id, e.key, e.val);
      var _ := EnterLoop();
      EmitCount(e.id);
      ghost var y := h.k.code(e.body, |instructions|, |constants|);
      CompileExpr(e.body);
      LeaveLoop();
      var _ := Emit2(JUMP, preCondPos);
      HeadPatched(w, e.id, e.key, e.val, |instructions|, slot, CountCode(e.id, c, slot), y, I2(JUMP, preCondPos));
      ChangeOperand(postCondPos, |instructions|);
    }

    // ---- Statements ----

    /** Breaks and continues of the innermost loop are recorded; their jumps are placeholders. */
    method CompileStmt(s: Stmt) returns (ok: bool)
      requires Ready()
      modifies this`instructions, this`constants, this`loops, CurrentLoop()
      ensures loops == old(loops) && (ok <==> loops != [] || h.closed(s))
      ensures ok ==> constants == old(constants) + h.v.consts1(s)
      ensures ok ==> instructions == old(instructions) + h.v.one(s, |old(instructions)|, |old(constants)|, 0, 0)
      ensures ok && loops != [] ==> Extended(loops[|loops| - 1], old(Positions()),
              h.leaves(true, s, |old(instructions)|), h.leaves(false, s, |old(instructions)|))
      decreases s, 3
    {
      match s
      case If(_, _, _, _) => ok := CompileIf(s);
      case For(_, _, _, _, _) => StaysInside(h, s, |instructions|); ok := CompileFor(s);
      case Break => LeaveIs(h, s, |instructions|, |constants|); ok := CompileLeave(s);
      case Continue => LeaveIs(h, s, |instructions|, |constants|); ok := CompileLeave(s);
      case _ => StaysInside(h, s, |instructions|); ok := true; CompileSimple(s);
    }

    /** The recorded positions of the innermost loop. */
    ghost function Positions(): (seq<nat>, seq<nat>)
      reads this`loops, CurrentLoop()
    {
      if loops == [] then ([], []) else (loops[|loops| - 1].breakPositions, loops[|loops| - 1].continuePositions)
    }

    method CompileSimple(s: Stmt)
      requires Ready() && (s.Do? || s.Assign?)
      modifies this`instructions, this`constants, this`loops
      ensures loops == old(loops) && constants == old(constants) + h.v.consts1(s)
      ensures instructions == old(instructions) + h.v.one(s, |old(instructions)|, |old(constants)|, 0, 0)
    {
      SimpleIs(h, s, |instructions|, |constants|);
      CompileExpr(s.e);
      if s.Do? { Emit0(POP); } else { Emit1(SET_LOCAL, slot(User(s.x))); }
    }

    method CompileLeave(s: Stmt) returns (ok: bool)
      requires Ready() && (s.Break? || s.Continue?)
      modifies this`instructions, CurrentLoop()
      ensures ok <==> loops != []
      ensures ok ==> h.v.consts1(s) == []
      ensures ok ==> instructions == old(instructions) + h.v.one(s, |old(instructions)|, |constants|, 0, 0)
      ensures ok ==> Extended(loops[|loops| - 1], old(Positions()), h.leaves(true, s, |old(instructions)|),
              h.leaves(false, s, |old(instructions)|))
    {
      LeaveIs(h, s, |instructions|, |constants|);
      if loops == [] { return false; }
      var loop := loops[|loops| - 1];
      var pos := Emit2(JUMP, 0);
      if s.Break? {
        loop.breakPositions := loop.breakPositions + [pos];
      } else {
        loop.continuePositions := loop.continuePositions + [pos];
      }
      ok := true;
    }

    method CompileBlock(ss: seq<Stmt>) returns (ok: bool)
      requires Ready()
      modifies this`instructions, this`constants, this`loops, CurrentLoop()
      ensures loops == old(loops) && (ok <==> loops != [] || h.allClosed(ss))
      ensures ok ==> constants == old(constants) + h.v.consts(ss)
      ensures ok ==> instructions == old(instructions) + h.v.all(ss, |old(instructions)|, |old(constants)|, 0, 0)
      ensures ok && loops != [] ==> Extended(loops[|loops| - 1], old(Positions()),
              h.allLeaves(true, ss, |old(instructions)|), h.allLeaves(false, ss, |old(instructions)|))
      decreases ss, 4
    {
      ghost var p, was := |instructions|, Positions();
      ghost var code, consts := instructions + h.v.all(ss, p, |constants|, 0, 0), constants + h.v.consts(ss);
      ghost var breaks, continues := was.0 + h.allLeaves(true, ss, p), was.1 + h.allLeaves(false, ss, p);
      var i := 0;
      assert ss[0..] == ss;
      while i < |ss|
        invariant 0 <= i <= |ss| && loops == old(loops) && (loops == [] ==> (h.allClosed(ss) <==> h.allClosed(ss[i..])))
        invariant instructions + h.v.all(ss[i..], |instructions|, |constants|, 0, 0) == code
        invariant constants + h.v.consts(ss[i..]) == consts
        invariant loops != [] ==> Positions().0 + h.allLeaves(true, ss[i..], |instructions|) == breaks
        invariant loops != [] ==> Positions().1 + h.allLeaves(false, ss[i..], |instructions|) == continues
      {
        NextIs(h, ss, i, instructions, constants, Positions());
        ok := CompileStmt(ss[i]);
        if !ok { return; }
        i := i + 1;
      }
      EmptyIs(h, |instructions|, |constants|);
      ok := true;
    }

    method CompileIf(s: Stmt) returns (ok: bool)
      requires Ready() && s.If?
      modifies this`instructions, this`constants, this`loops, CurrentLoop()
      ensures loops == old(loops) && (ok <==> loops != [] || h.closed(s))
      ensures ok ==> constants == old(constants) + h.v.consts1(s)
      ensures ok ==> instructions == old(instructions) + h.v.one(s, |old(instructions)|, |old(constants)|, 0, 0)
      ensures ok && loops != [] ==> Extended(loops[|loops| - 1], old(Positions()),
              h.leaves(true, s, |old(instructions)|), h.leaves(false, s, |old(instructions)|))
      decreases s, 2
    {
      ghost var w, c, cs := instructions, |constants|, constants;
      ghost var x := h.k.code(s.test, |w|, c);
      ghost var y := h.v.all(s.thn, |w| + |x| + 3, c + |h.k.consts(s.test)|, 0, 0);
      var jumpPos1;
      ok, jumpPos1 := CompileThen(s);
      IfStmtConsts(h, s, cs);
      if !ok { return; }
      IfStmtLeaves(h, s, |w|, c, x, y, |w| + |x| + 3);
      if s.alternate {
        ok := CompileElse(s, jumpPos1, w, c, x, y);
      } else {
        IfOnlyDone(h, s, w, c, x, y);
        ChangeOperand(jumpPos1, |instructions|);
      }
    }

    method CompileThen(s: Stmt) returns (ok: bool, jumpPos1: nat)
      requires Ready() && s.If?
      modifies this`instructions, this`constants, this`loops, CurrentLoop()
      ensures loops == old(loops) && (ok <==> loops != [] || h.allClosed(s.thn))
      ensures ok ==> constants == old(constants) + h.k.consts(s.test) + h.v.consts(s.thn)
      ensures var x := h.k.code(s.test, |old(instructions)|, |old(constants)|);
              var p1 := |old(instructions)| + |x| + 3;
              var y := h.v.all(s.thn, p1, |old(constants)| + |h.k.consts(s.test)|, 0, 0);
              && (ok ==> instructions == old(instructions) + x + I2(JUMP_IF_FALSE, 0) + y && jumpPos1 == p1 - 3)
              && (ok && loops != [] ==> Extended(loops[|loops| - 1], old(Positions()), h.allLeaves(true, s.thn, p1),
                h.allLeaves(false, s.thn, p1)))
      decreases s, 1
    {
      CompileExpr(s.test);
      jumpPos1 := Emit2(JUMP_IF_FALSE, 0);
      ok := CompileBlock(s.thn);
    }

    /** The second arm: a jump over it, the first jump patched to it, and then the jump over it patched. */
    method CompileElse(s: Stmt, jumpPos1: nat, ghost w: bytes, ghost c: nat, ghost x: bytes,
        ghost y: bytes) returns (ok: bool)
      requires Ready() && s.If? && s.alternate && jumpPos1 == |w| + |x|
               && instructions == w + x + I2(JUMP_IF_FALSE, 0) + y
      requires x == h.k.code(s.test, |w|, c) && y == h.v.all(s.thn, |w| + |x| + 3, c + |h.k.consts(s.test)|, 0, 0)
      requires |constants| == c + |h.k.consts(s.test)| + |h.v.consts(s.thn)|
      modifies this`instructions, this`constants, this`loops, CurrentLoop()
      ensures loops == old(loops) && (ok <==> loops != [] || h.allClosed(s.els))
      ensures ok ==> constants == old(constants) + h.v.consts(s.els)
      ensures ok ==> instructions == w + h.v.one(s, |w|, c, 0, 0)
      ensures ok && loops != [] ==>
              var p2 := |old(instructions)| + 3; Extended(loops[|loops| - 1], old(Positions()),
                h.allLeaves(true, s.els, p2), h.allLeaves(false, s.els, p2))
      decreases s, 1
    {
      var jumpPos2 := EndFirstArm(jumpPos1, w, x, y);
      ghost var z := h.v.all(s.els, |instructions|, |constants|, 0, 0);
      ok := CompileBlock(s.els);
      if !ok { return; }
      IfElseDone(h, s, w, c, x, y, z, instructions);
      ChangeOperand(jumpPos2, |instructions|);
    }

    /** The loop's own breaks and continues are patched once its end is known. */
    method CompileFor(s: Stmt) returns (ok: bool)
      requires Ready() && s.For?
      modifies this`instructions, this`constants, this`loops
      ensures loops == old(loops) && ok
      ensures constants == old(constants) + h.v.consts1(s)
      ensures instructions == old(instructions) + h.v.one(s, |old(instructions)|, |old(constants)|, 0, 0)
      decreases s, 2
    {
      ghost var w, c := instructions, |constants|;
      ghost var x := h.k.code(s.iter, |w|, c);
      CompileExpr(s.iter);
      EmitInit(s.id);
      ok := CompileForBody(s);
      ForStmtDone(h, s, w, c, x, instructions);
    }

    /** From the condition to the end of the loop. */
    method CompileForBody(s: Stmt) returns (ok: bool)
      requires Ready() && s.For?
      modifies this`instructions, this`constants, this`loops
      ensures loops == old(loops) && ok
      ensures constants == old(constants) + h.v.consts(s.body)
      ensures LoopCode(h, s, old(instructions), |old(constants)|, instructions)
      decreases s, 1
    {
      ghost var w, c := instructions, |constants|;
      var loop;
      ok, loop := CompileLoop(s);
      var postStmtPos := |instructions|;
      PatchLoop(s.body, loop, postStmtPos, postStmtPos - 3, w + HeadCode(s.id, s.key, s.val, postStmtPos, slot), c,
        I2(JUMP, |w|));
    }

    /** The condition, patched, the body and the jump back; breaks and continues are still placeholders. */
    method CompileLoop(s: Stmt) returns (ok: bool, loop: LoopCompilation)
      requires Ready() && s.For?
      modifies this`instructions, this`constants, this`loops
      ensures loops == old(loops) && ok && constants == old(constants) + h.v.consts(s.body)
      ensures var p2 := |old(instructions)| + HeadLen(s.key, s.val);
              && loop.breakPositions == h.allLeaves(true, s.body, p2)
                && loop.continuePositions == h.allLeaves(false, s.body, p2)
              && instructions == old(instructions) + HeadCode(s.id, s.key, s.val, |instructions|, slot)
                                 + h.v.all(s.body, p2, |old(constants)|, 0, 0) + I2(JUMP, |old(instructions)|)
      decreases s, 0
    {
      ghost var w, c := instructions, |constants|;
      var preCondPos := |instructions|;
      var postCondPos := EmitHead(s.id, s.key, s.val);
      loop := EnterLoop();
      ghost var y := h.v.all(s.body, |instructions|, c, 0, 0);
      ok := CompileBlock(s.body);
      LeaveLoop();
      var _ := Emit2(JUMP, preCondPos);
      LoopHeadPatched(w, s.id, s.key, s.val, |instructions|, slot, y, I2(JUMP, preCondPos));
      ChangeOperand(postCondPos, |instructions|);
    }

    /** The recorded breaks go past the loop, the recorded continues to the jump back. */
    method PatchLoop(ghost body: seq<Stmt>, loop: LoopCompilation, postStmtPos: nat, postBodyPos: nat,
        ghost head: bytes, ghost c: nat, ghost tail: bytes)
      requires Ready() && loop.breakPositions == h.allLeaves(true, body, |head|)
               && loop.continuePositions == h.allLeaves(false, body, |head|)
      requires instructions == head + h.v.all(body, |head|, c, 0, 0) + tail
      modifies this`instructions
      ensures instructions == head + h.v.all(body, |head|, c, postStmtPos, postBodyPos) + tail
      ensures |instructions| == |old(instructions)|
    {
      ghost var hi := |head| + |h.v.all(body, |head|, c, 0, 0)|;
      BodyJumps(h, body, c, postStmtPos, head, tail, instructions);
      BodyPatched(h, body, c, postStmtPos, postBodyPos, head, tail, |head|, instructions);
      PatchPositions(loop.breakPositions, postStmtPos, |head|, hi);
      PatchPositions(loop.continuePositions, postBodyPos, |head|, hi);
    }
  }

  lemma ForJoin(x: bytes, a: bytes, b: bytes, h: bytes, n: bytes, y: bytes, j: bytes, g: bytes, l: bytes)
    ensures x + a + b + (h + n + y + j) + (g + l) == x + a + b + h + n + y + j + g + l
  {
  }

  lemma ListIs(h: Spec, e: Expr, p: nat, c: nat)
    requires Sound(h) && e.List?
    ensures h.k.code(e, p, c) == h.k.elemsCode(e.elems, 0, false, 0, p, c)
            && h.k.consts(e) == h.k.elemsConsts(e.elems, 0)
  {
    Opens(h);
    ListShape(h.k, h.slot, e, p, c);
    ListRest(h.k, h.slot, e);
  }

  lemma ListEnds(h: Spec, es: seq<Expr>, spread: bool, pend: nat, p: nat, c: nat)
    requires Sound(h) && (!spread ==> pend == 0)
    ensures h.k.elemsCode(es, |es|, spread, pend, p, c) ==
            (if !spread then I2(CREATE_LIST, |es|) else if pend != 0 then I2(APPEND, pend) else [])
    ensures h.k.elemsConsts(es, |es|) == []
  {
    Opens(h);
    var _, _ := ElemsCode(es, |es|, spread, pend, p, c, h.slot), ElemsConsts(es, |es|);
  }

  /** What compiling element i adds, and what is then left. */
  lemma ElemIs(h: Spec, es: seq<Expr>, i: nat, spread: bool, pend: nat, w: bytes, k: seq<Value>)
    requires Sound(h) && i < |es|
    ensures k + h.k.elemsConsts(es, i) == k + h.k.consts(es[i]) + h.k.elemsConsts(es, i + 1)
    ensures !es[i].Spread? ==>
            var x := h.k.code(es[i], |w|, |k|);
            w + h.k.elemsCode(es, i, spread, pend, |w|, |k|) ==
            w + x + h.k.elemsCode(es, i + 1, spread, if spread then pend + 1
              else pend, |w + x|, |k + h.k.consts(es[i])|)
    ensures es[i].Spread? ==>
            var s := SpreadHeadCode(i, spread, pend);
            var x := h.k.code(es[i], |w| + SpreadHeadLen(spread, pend), |k|);
            w + h.k.elemsCode(es, i, spread, pend, |w|, |k|) ==
            w + s + x + I0(SPREAD_LIST) + h.k.elemsCode(es, i + 1, true, 0, |w + s + x + I0(SPREAD_LIST)|,
              |k + h.k.consts(es[i])|)
  {
    Opens(h);
    ElemRest(h.k, h.slot, es, i);
    if es[i].Spread? { SpreadElem(h.k, h.slot, es, i, spread, pend, |w|, |k|); }
      else { PlainElem(h.k, h.slot, es, i, spread, pend, |w|, |k|); }
  }

  lemma SpreadIs(h: Spec, e: Expr, p: nat, c: nat)
    requires Sound(h) && e.Spread?
    ensures h.k.code(e, p, c) == h.k.code(e.e, p, c) && h.k.consts(e) == h.k.consts(e.e)
  {
    Opens(h);
    SpreadShape(h.k, h.slot, e, p, c);
  }

  lemma LeafIs(h: Spec, e: Expr, p: nat, c: nat)
    requires Sound(h) && Leaf(e)
    ensures h.k.code(e, p, c) == LeafCode(e, c, h.slot) && h.k.consts(e) == if e.Lit? then [e.v] else []
  {
    Opens(h);
    LeafShape(h.k, h.slot, e, p, c);
  }

  /** The positions recorded for a loop have grown by these. */
  ghost predicate Extended(l: LoopCompilation, was: (seq<nat>, seq<nat>), breaks: seq<nat>, continues: seq<nat>)
    reads l
  {
    l.breakPositions == was.0 + breaks && l.continuePositions == was.1 + continues
  }

  lemma SimpleIs(h: Spec, s: Stmt, p: nat, c: nat)
    requires Sound(h) && (s.Do? || s.Assign?)
    ensures h.v.one(s, p, c, 0, 0) == h.k.code(s.e, p, c) + Tail(s, h.slot) && h.v.consts1(s) == h.k.consts(s.e)
  {
    Opens(h);
    SimpleShape(h.k, h.v, h.slot, s, p, c, 0, 0);
  }

  lemma LeaveIs(h: Spec, s: Stmt, p: nat, c: nat)
    requires Sound(h) && Tracks(h) && (s.Break? || s.Continue?)
    ensures h.v.one(s, p, c, 0, 0) == I2(JUMP, 0) && h.v.consts1(s) == [] && !h.closed(s)
    ensures forall b :: h.leaves(b, s, p) == if b == s.Break? then [p] else []
  {
    Opens(h);
    var _ := Closed(s);
    forall b ensures h.leaves(b, s, p) == if b == s.Break? then [p] else [] { var _ := Leaves(b, s, p); }
    LeaveShape(h.v, h.slot, s, p, c, 0, 0);
    var _ := StmtConsts(s);
  }

  lemma EmptyIs(h: Spec, p: nat, c: nat)
    requires Sound(h) && Tracks(h)
    ensures h.v.all([], p, c, 0, 0) == [] && h.v.consts([]) == [] && h.allClosed([])
            && forall b :: h.allLeaves(b, [], p) == []
  {
    Opens(h);
    var _, _, _ := StmtsCode([], p, c, 0, 0, h.slot), StmtsConsts([]), AllClosed([]);
    forall b ensures h.allLeaves(b, [], p) == [] { var _ := AllLeaves(b, [], p); }
  }

  /** What compiling statement i adds, and what is then left. */
  lemma NextIs(h: Spec, ss: seq<Stmt>, i: nat, w: bytes, k: seq<Value>, was: (seq<nat>, seq<nat>))
    requires Sound(h) && Tracks(h) && i < |ss|
    ensures var x, d, rest := h.v.one(ss[i], |w|, |k|, 0, 0), h.v.consts1(ss[i]), ss[i + 1..];
            && w + h.v.all(ss[i..], |w|, |k|, 0, 0) == w + x + h.v.all(rest, |w + x|, |k + d|, 0, 0)
            && k + h.v.consts(ss[i..]) == k + d + h.v.consts(rest)
            && was.0 + h.allLeaves(true, ss[i..], |w|) == was.0 + h.leaves(true, ss[i], |w|) +
              h.allLeaves(true, rest, |w + x|)
            && was.1 + h.allLeaves(false, ss[i..], |w|) == was.1 + h.leaves(false, ss[i], |w|) +
              h.allLeaves(false, rest, |w + x|)
            && h.allClosed(ss[i..]) == (h.closed(ss[i]) && h.allClosed(rest))
  {
    assert ss[i..][0] == ss[i] && ss[i..][1..] == ss[i + 1..];
    ConsIs(h, ss[i..], |w|, |k|);
  }

  lemma ConsIs(h: Spec, ss: seq<Stmt>, p: nat, c: nat)
    requires Sound(h) && Tracks(h) && ss != []
    ensures var x, k := h.v.one(ss[0], p, c, 0, 0), h.v.consts1(ss[0]);
            && h.v.all(ss, p, c, 0, 0) == x + h.v.all(ss[1..], p + |x|, c + |k|, 0, 0)
              && h.v.consts(ss) == k + h.v.consts(ss[1..])
            && (forall b :: h.allLeaves(b, ss, p) == h.leaves(b, ss[0], p) + h.allLeaves(b, ss[1..], p + |x|))
            && h.allClosed(ss) == (h.closed(ss[0]) && h.allClosed(ss[1..]))
  {
    ConsCode(h, ss, p, c);
    ConsLeaves(h, ss, p, c);
    var _, _, _ := AllClosed(ss), Closed(ss[0]), AllClosed(ss[1..]);
  }

  lemma ConsCode(h: Spec, ss: seq<Stmt>, p: nat, c: nat)
    requires Sound(h) && ss != []
    ensures var x, k := h.v.one(ss[0], p, c, 0, 0), h.v.consts1(ss[0]);
            h.v.all(ss, p, c, 0, 0) == x + h.v.all(ss[1..], p + |x|, c + |k|, 0, 0)
              && h.v.consts(ss) == k + h.v.consts(ss[1..])
  {
    Opens(h);
    AllShape(h.v, h.slot, ss, p, c, 0, 0);
    AllRest(h.v, h.slot, ss);
  }

  lemma ConsLeaves(h: Spec, ss: seq<Stmt>, p: nat, c: nat)
    requires Sound(h) && Tracks(h) && ss != []
    ensures forall b ::
              h.allLeaves(b, ss, p) ==
              h.leaves(b, ss[0], p) + h.allLeaves(b, ss[1..], p + |h.v.one(ss[0], p, c, 0, 0)|)
  {
    Opens(h);
    forall b ensures h.allLeaves(b, ss, p) == h.leaves(b, ss[0], p) +
      h.allLeaves(b, ss[1..], p + |h.v.one(ss[0], p, c, 0, 0)|) {
      LeavesOfCons(h.v, h.slot, b, ss, p);
    }
  }

  /** Statements other than conditionals, breaks and continues leave nothing to the enclosing loop. */
  lemma StaysInside(h: Spec, s: Stmt, p: nat)
    requires Sound(h) && Tracks(h) && (s.Do? || s.Assign? || s.For?)
    ensures h.closed(s) && forall b :: h.leaves(b, s, p) == []
  {
    var _ := Closed(s);
    forall b ensures h.leaves(b, s, p) == [] { var _ := Leaves(b, s, p); }
  }

  lemma IfStmtConsts(h: Spec, s: Stmt, cs: seq<Value>)
    requires Sound(h) && Tracks(h) && s.If?
    ensures cs + h.k.consts(s.test) + h.v.consts(s.thn) + (if s.alternate then h.v.consts(s.els) else []) ==
            cs + h.v.consts1(s)
    ensures h.closed(s) == (h.allClosed(s.thn) && (s.alternate ==> h.allClosed(s.els)))
  {
    Opens(h);
    IfStmtRest(h.k, h.v, h.slot, s);
    var _, _, _ := Closed(s), AllClosed(s.thn), AllClosed(s.els);
  }

  lemma IfStmtLeaves(h: Spec, s: Stmt, p: nat, c: nat, x: bytes, y: bytes, p1: nat)
    requires Sound(h) && Tracks(h) && s.If? && x == h.k.code(s.test, p, c) && p1 == p + |x| + 3
             && y == h.v.all(s.thn, p1, c + |h.k.consts(s.test)|, 0, 0)
    ensures forall b :: h.leaves(b, s, p) == h.allLeaves(b, s.thn, p1) + if s.alternate
            then h.allLeaves(b, s.els, p1 + |y| + 3) else []
  {
    Opens(h);
    forall b ensures h.leaves(b, s, p) == h.allLeaves(b, s.thn, p1) + if s.alternate
      then h.allLeaves(b, s.els, p1 + |y| + 3) else [] {
      LeavesOfIf(h.k, h.v, h.slot, b, s, p, p1, p1 + |y| + if s.alternate then 3 else 0);
    }
  }

  lemma IfOnlyDone(h: Spec, s: Stmt, w: bytes, c: nat, x: bytes, y: bytes)
    requires Sound(h) && s.If? && !s.alternate
    requires x == h.k.code(s.test, |w|, c) && y == h.v.all(s.thn, |w| + |x| + 3, c + |h.k.consts(s.test)|, 0, 0)
    ensures var w1 := w + x + I2(JUMP_IF_FALSE, 0) + y;
            Patch(w1, |w| + |x|, |w1|) == w + h.v.one(s, |w|, c, 0, 0) && w1[|w| + |x|] == JUMP_IF_FALSE
  {
    Opens(h);
    var p1 := |w| + |x| + 3;
    IfStmtShape(h.k, h.v, h.slot, s, |w|, c, 0, 0, p1, p1 + |y|, c + |h.k.consts(s.test)|);
    PatchSpan(w, x, JUMP_IF_FALSE, p1 + |y|, y);
  }

  lemma IfElseDone(h: Spec, s: Stmt, w: bytes, c: nat, x: bytes, y: bytes, z: bytes, w1: bytes)
    requires Sound(h) && s.If? && s.alternate
    requires x == h.k.code(s.test, |w|, c) && y == h.v.all(s.thn, |w| + |x| + 3, c + |h.k.consts(s.test)|, 0, 0)
    requires z == h.v.all(s.els, |w| + |x| + 3 + |y| + 3, c + |h.k.consts(s.test)| + |h.v.consts(s.thn)|, 0, 0)
    requires w1 == w + (x + I2(JUMP_IF_FALSE, |w| + |x| + 3 + |y| + 3) + y) + I2(JUMP, 0) + z
    ensures var q := |w| + |x| + 3 + |y|;
            w1[q] == JUMP && Patch(w1, q, |w1|) == w + h.v.one(s, |w|, c, 0, 0)
  {
    Opens(h);
    var p1 := |w| + |x| + 3;
    var p2 := p1 + |y| + 3;
    IfStmtShape(h.k, h.v, h.slot, s, |w|, c, 0, 0, p1, p2, c + |h.k.consts(s.test)|);
    PatchSpan(w, x + I2(JUMP_IF_FALSE, p2) + y, JUMP, |w1|, z);
    Join(x, I2(JUMP_IF_FALSE, p2), y, I2(JUMP, |w1|), z);
  }

  lemma Join(x: bytes, i: bytes, y: bytes, j: bytes, z: bytes)
    ensures x + i + y + j + z == x + i + y + (j + z)
  {
  }

  /** A for statement from its condition on, every jump having its target. */
  ghost predicate LoopCode(h: Spec, s: Stmt, w: bytes, c: nat, w1: bytes)
    requires s.For?
  {
    |w1| >= 3 &&
    var y := h.v.all(s.body, |w| + HeadLen(s.key, s.val), c, |w1|, |w1| - 3);
    |w1| == |w| + HeadLen(s.key, s.val) + |y| + 3 && w1 == w + HeadCode(s.id, s.key, s.val, |w1|, h.slot) + y +
      I2(JUMP, |w|)
  }

  lemma ForStmtDone(h: Spec, s: Stmt, w: bytes, c: nat, x: bytes, w1: bytes)
    requires Sound(h) && s.For? && x == h.k.code(s.iter, |w|, c)
    requires LoopCode(h, s, w + x + InitCode(s.id, h.slot), c + |h.k.consts(s.iter)|, w1)
    ensures w1 == w + h.v.one(s, |w|, c, 0, 0) && h.v.consts1(s) == h.k.consts(s.iter) + h.v.consts(s.body)
  {
    Opens(h);
    ForStmtRest(h.k, h.v, h.slot, s);
    var pre, c1 := |w| + |x| + 4, c + |h.k.consts(s.iter)|;
    var p2 := pre + HeadLen(s.key, s.val);
    var pb := p2 + h.v.len(s.body);
    ForStmtShape(h.k, h.v, h.slot, s, |w|, c, 0, 0, pre, p2, pb, c1);
    Join5(w, x, InitCode(s.id, h.slot), HeadCode(s.id, s.key, s.val, pb + 3, h.slot),
      h.v.all(s.body, p2, c1, pb + 3, pb), I2(JUMP, pre));
  }

  lemma Join5(w: bytes, x: bytes, a: bytes, b: bytes, y: bytes, j: bytes)
    ensures w + x + a + b + y + j == w + (x + a + b + y + j)
  {
  }

  lemma LoopHeadPatched(w: bytes, id: nat, key: Option<nat>, val: Option<nat>, post: nat, slot: Layout, y: bytes,
      j: bytes)
    ensures var h, h' := HeadCode(id, key, val, 0, slot), HeadCode(id, key, val, post, slot);
            && Patch(w + h + y + j, |w| + 4, post) == w + h' + y + j
            && (w + h + y + j)[|w| + 4] == JUMP_IF_FALSE
  {
    var h, h' := HeadCode(id, key, val, 0, slot), HeadCode(id, key, val, post, slot);
    HeadPatched(w, id, key, val, post, slot, y, j, []);
    assert w + h + y + j + [] == w + h + y + j;
    assert w + (h' + y + j + []) == w + h' + y + j;
  }

  lemma BodyPatched(h: Spec, ss: seq<Stmt>, c: nat, brk: nat, cont: nat, pre: bytes, post: bytes, p: nat, w: bytes)
    requires Sound(h) && Tracks(h) && p == |pre| && w == pre + h.v.all(ss, p, c, 0, 0) + post
    ensures PatchAll(PatchAll(w, h.allLeaves(true, ss, p), brk), h.allLeaves(false, ss, p), cont) == pre +
            h.v.all(ss, p, c, brk, cont) + post
    ensures |h.v.all(ss, p, c, brk, cont)| == |h.v.all(ss, p, c, 0, 0)|
  {
    Opens(h);
    PatchedBody(h.k, h.v, h.slot, ss, c, brk, cont, pre, post, p, w);
  }

  lemma BodyJumps(h: Spec, ss: seq<Stmt>, c: nat, brk: nat, pre: bytes, post: bytes, w: bytes)
    requires Sound(h) && Tracks(h) && w == pre + h.v.all(ss, |pre|, c, 0, 0) + post
    ensures LoopJumps(w, h.allLeaves(true, ss, |pre|), h.allLeaves(false, ss, |pre|), brk,
              |pre|, |pre| + |h.v.all(ss, |pre|, c, 0, 0)|)
  {
    Opens(h);
    InMiddle(pre, h.v.all(ss, |pre|, c, 0, 0), post);
    PatchedJumps(h.k, h.v, h.slot, ss, c, brk, w, |pre|);
    var _, _ := AllLeaves(true, ss, |pre|), AllLeaves(false, ss, |pre|);
  }

  // ---- Main chunks ----

  datatype Compiled = Chunk(code: bytes, consts: seq<Value>) | LoopError | TooManyConstants

  /** The main chunk: every jump resolved, or the error of a break or continue outside a loop. */
  method CompileMainChunk(ss: seq<Stmt>, slot: Layout) returns (r: Compiled)
    ensures !AllClosed(ss) ==> r == LoopError
    ensures AllClosed(ss) ==>
            r == if |MainConsts(ss)| > 65535 then TooManyConstants else Chunk(MainCode(ss, slot), MainConsts(ss))
  {
    var c := new Compiler(slot);
    var ok := true;
    if |ss| == 0 {
      c.Emit0(PUSH_NIL);
    } else if |ss| == 1 && ss[0].Do? {
      c.CompileExpr(ss[0].e);
    } else {
      ok := c.CompileBlock(ss);
    }
    ChunkIs(slot, ss);
    if !ok { return LoopError; }
    if |c.constants| > 65535 { return TooManyConstants; }
    return Chunk(c.instructions + [SUSPEND], c.constants);
  }

  lemma ChunkIs(slot: Layout, ss: seq<Stmt>)
    ensures SpecOf(slot).allClosed(ss) == AllClosed(ss)
    ensures ss == [] ==>
            AllClosed(ss) && MainCode(ss, slot) == [] + I0(PUSH_NIL) + [SUSPEND] && MainConsts(ss) == []
    ensures |ss| == 1 && ss[0].Do? ==>
            var k := SpecOf(slot).k;
            && AllClosed(ss) && MainCode(ss, slot) == [] + k.code(ss[0].e, 0, 0) + [SUSPEND]
            && MainConsts(ss) == [] + k.consts(ss[0].e)
    ensures ss != [] && !(|ss| == 1 && ss[0].Do?) ==>
            var v := SpecOf(slot).v;
            MainCode(ss, slot) == [] + v.all(ss, 0, 0, 0, 0) + [SUSPEND] && MainConsts(ss) == [] + v.consts(ss)
  {
    SpecReads(slot, ss);
    if |ss| == 1 && ss[0].Do? {
      OneExpression(slot, ss);
    } else if ss != [] {
      Several(slot, ss, SpecOf(slot).v.all(ss, 0, 0, 0, 0));
    }
  }

  lemma SpecReads(slot: Layout, ss: seq<Stmt>)
    ensures var h := SpecOf(slot);
            && h.allClosed(ss) == AllClosed(ss) && h.v.consts(ss) == StmtsConsts(ss)
            && h.v.all(ss, 0, 0, 0, 0) == StmtsCode(ss, 0, 0, 0, 0, slot)
  {
  }

  lemma Several(slot: Layout, ss: seq<Stmt>, x: bytes)
    requires ss != [] && !(|ss| == 1 && ss[0].Do?) && x == StmtsCode(ss, 0, 0, 0, 0, slot)
    ensures MainCode(ss, slot) == [] + x + [SUSPEND]
  {
    Suspended(x);
  }

  lemma Suspended(x: bytes)
    ensures [] + x + [SUSPEND] == x + I0(SUSPEND)
  {
  }

  lemma OneExpression(slot: Layout, ss: seq<Stmt>)
    requires |ss| == 1 && ss[0].Do?
    ensures var k := SpecOf(slot).k;
            && k.code(ss[0].e, 0, 0) == ExprCode(ss[0].e, 0, 0, slot) && k.consts(ss[0].e) == MainConsts(ss)
            && AllClosed(ss)
  {
    assert ss[1..] == [];
    assert StmtsConsts(ss) == StmtConsts(ss[0]) + [];
  }
}
