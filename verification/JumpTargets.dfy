/** Every jump of a compiled chunk goes to the start of an instruction. */
module JumpTargets {
  import opened Common
  import opened Bytecode
  import opened Ast
  import opened CodeGen
  import opened Machine
  import opened View
  import opened StmtView
  import opened Compiler

  predicate IsJump(op: Opcode) {
    op == JUMP_IF_FALSE || op == AND_JUMP || op == OR_JUMP || op == JUMP
  }

  /** `start` being the instruction starts of each code: a jump at q of w. */
  predicate JumpAt(start: (bytes, nat) -> bool, w: bytes, q: nat) {
    q + 3 <= |w| && start(w, q) && IsJump(w[q])
  }

  function Target(w: bytes, q: nat): nat
    requires q + 3 <= |w|
  {
    Word(w[q + 1], w[q + 2])
  }

  /** Code w at address p: whole instructions, and jumps only to their starts, to its end or to the given addresses. */
  ghost predicate Tidy(start: (bytes, nat) -> bool, w: bytes, p: nat, outs: set<nat>) {
    start(w, |w|) && forall q: nat :: JumpAt(start, w, q) ==> Target(w, q) in outs || Within(start, w, p, Target(w, q))
  }

  predicate Within(start: (bytes, nat) -> bool, w: bytes, p: nat, a: nat) {
    p <= a <= p + |w| && start(w, a - p)
  }

  /** What the composition needs of instruction starts. */
  ghost predicate IsStart(start: (bytes, nat) -> bool) {
    forall w, q {:trigger Start(w, q)} :: start(w, q) == Start(w, q)
  }

  /** Jumps are three bytes wide, so none runs over the end of whole code. */
  lemma {:induction false} JumpFits(w: bytes, q: nat)
    requires WholeCode(w) && Start(w, q) && q < |w| && IsJump(w[q])
    ensures q + 3 <= |w|
  {
    WidthsOf(w[q]);
    SizeOfJump(Size, w, q);
  }

  lemma {:induction false} SizeOfJump(size: Opcode -> nat, w: bytes, q: nat)
    requires Skips(size, w, |w|) && Skips(size, w, q) && q < |w|
    ensures q + size(w[q]) <= |w|
    decreases |w|
  {
    if q > 0 {
      var n := size(w[0]);
      assert w[n..][q - n] == w[q];
      SizeOfJump(size, w[n..], q - n);
    }
  }

  lemma Starts(start: (bytes, nat) -> bool, a: bytes, b: bytes, q: nat)
    requires IsStart(start) && start(a, |a|)
    ensures start(b, |b|) ==> start(a + b, |a + b|)
    ensures q <= |a| ==> (start(a + b, q) <==> start(a, q))
    ensures q >= |a| ==> (start(a + b, q) <==> start(b, q - |a|))
  {
    assert Start(a, |a|) && Start(b, |b|) == start(b, |b|);
    StartAppend(a, b, q);
    if start(b, |b|) { WholeAppend(a, b); }
    assert Start(a + b, |a + b|) == start(a + b, |a + b|);
    assert Start(a + b, q) == start(a + b, q) && Start(a, q) == start(a, q);
    if q >= |a| { assert Start(b, q - |a|) == start(b, q - |a|); }
  }

  lemma TidyAppend(start: (bytes, nat) -> bool, a: bytes, b: bytes, p: nat, outs: set<nat>, more: set<nat>)
    requires IsStart(start) && Tidy(start, a, p, outs) && Tidy(start, b, p + |a|, more)
    ensures Tidy(start, a + b, p, outs + more)
  {
    Starts(start, a, b, 0);
    var w := a + b;
    forall q: nat | JumpAt(start, w, q) ensures Target(w, q) in outs + more || Within(start, w, p, Target(w, q)) {
      Starts(start, a, b, q);
      if q < |a| { JumpInFirst(start, a, b, p, q, outs); } else { JumpInSecond(start, a, b, p, q, more); }
    }
  }

  lemma JumpInFirst(start: (bytes, nat) -> bool, a: bytes, b: bytes, p: nat, q: nat, outs: set<nat>)
    requires IsStart(start) && Tidy(start, a, p, outs) && start(a, q) && q < |a| && q + 3 <= |a + b|
             && IsJump((a + b)[q])
    ensures Target(a + b, q) in outs || Within(start, a + b, p, Target(a + b, q))
  {
    assert Start(a, |a|) && Start(a, q);
    JumpFits(a, q);
    assert JumpAt(start, a, q) && Target(a + b, q) == Target(a, q);
    if Within(start, a, p, Target(a, q)) { Starts(start, a, b, Target(a, q) - p); }
  }

  lemma JumpInSecond(start: (bytes, nat) -> bool, a: bytes, b: bytes, p: nat, q: nat, outs: set<nat>)
    requires IsStart(start) && start(a, |a|) && Tidy(start, b, p + |a|, outs) && |a| <= q && q + 3 <= |a + b|
             && start(b, q - |a|) && IsJump((a + b)[q])
    ensures Target(a + b, q) in outs || Within(start, a + b, p, Target(a + b, q))
  {
    assert JumpAt(start, b, q - |a|) && Target(a + b, q) == Target(b, q - |a|);
    var t := Target(b, q - |a|);
    if Within(start, b, p + |a|, t) { Starts(start, a, b, t - p); }
  }

  /** Addresses that turn out to be instruction starts of w need not be listed. */
  lemma Discharge(start: (bytes, nat) -> bool, w: bytes, p: nat, outs: set<nat>, fewer: set<nat>)
    requires Tidy(start, w, p, outs) && forall a :: a in outs && a !in fewer ==> Within(start, w, p, a)
    ensures Tidy(start, w, p, fewer)
  {
  }

  lemma MoreOuts(start: (bytes, nat) -> bool, w: bytes, p: nat, outs: set<nat>, more: set<nat>)
    requires Tidy(start, w, p, outs) && outs <= more
    ensures Tidy(start, w, p, more)
  {
  }

  // ---- Single instructions ----

  lemma NoJump(start: (bytes, nat) -> bool, op: Opcode, a: nat, p: nat)
    requires IsStart(start) && !IsJump(op)
    ensures Plain(op) ==> Tidy(start, I0(op), p, {})
    ensures Narrow(op) ==> Tidy(start, I1(op, a), p, {})
    ensures Wide(op) ==> Tidy(start, I2(op, a), p, {})
  {
    MakeForms(op, a);
    if Plain(op) { OneIsTidy(start, op, [], p, {}); }
    if Narrow(op) || Wide(op) { OneIsTidy(start, op, [a], p, {}); }
  }

  lemma OneIsTidy(start: (bytes, nat) -> bool, op: Opcode, os: seq<int>, p: nat, outs: set<nat>)
    requires IsStart(start) && |os| == |Widths(op)|
    requires IsJump(op) ==> |Make(op, os)| == 3 && Target(Make(op, os), 0) in outs
    ensures Tidy(start, Make(op, os), p, outs)
  {
    MakeIsWhole(op, os);
    var w := Make(op, os);
    assert Start(w, |w|);
    forall q: nat | JumpAt(start, w, q) ensures Target(w, q) in outs { assert Start(w, q); }
  }

  lemma OneJump(start: (bytes, nat) -> bool, op: Opcode, a: nat, p: nat)
    requires IsStart(start) && IsJump(op) && a < 65536
    ensures Tidy(start, I2(op, a), p, {a})
  {
    MakeForms(op, a);
    assert Wide(op) && Target(I2(op, a), 0) == a;
    OneIsTidy(start, op, [a], p, {a});
  }

  lemma NothingIsTidy(start: (bytes, nat) -> bool, p: nat)
    requires IsStart(start)
    ensures Tidy(start, [], p, {})
  {
    assert Start([], 0);
  }

  // ---- Pieces in a row ----

  lemma TidyThree(start: (bytes, nat) -> bool, a: bytes, b: bytes, d: bytes, p: nat, outs: set<nat>)
    requires IsStart(start) && Tidy(start, a, p, outs) && Tidy(start, b, p + |a|, outs)
             && Tidy(start, d, p + |a| + |b|, outs)
    ensures Tidy(start, a + b + d, p, outs) && start(a + b + d, |a|) && start(a + b + d, |a| + |b|)
  {
    TidyAppend(start, a, b, p, outs, outs);
    assert |a + b| == |a| + |b| && outs + outs == outs;
    TidyAppend(start, a + b, d, p, outs, outs);
    Starts(start, a, b, |a|);
    Starts(start, a + b, d, |a|);
    Starts(start, a + b, d, |a| + |b|);
  }

  /** Code x, a jump, code y, a jump, code z. */
  lemma TidyFive(start: (bytes, nat) -> bool, x: bytes, j: bytes, y: bytes, g: bytes, z: bytes, p: nat, outs: set<nat>,
      q: nat, r: nat)
    requires IsStart(start) && Tidy(start, x, p, outs) && Tidy(start, j, p + |x|, outs)
             && Tidy(start, y, p + |x| + |j|, outs)
    requires q == p + |x| + |j| + |y| && r == q + |g| && Tidy(start, g, q, outs) && Tidy(start, z, r, outs)
    ensures Tidy(start, x + j + y + g + z, p, outs) && start(x + j + y + g + z, q - p)
            && start(x + j + y + g + z, r - p)
  {
    TidyThree(start, x, j, y, p, outs);
    TidyThree(start, x + j + y, g, z, p, outs);
  }

  // ---- Expressions ----

  lemma {:induction false} ExprTidy(start: (bytes, nat) -> bool, k: View, slot: Layout, e: Expr, p: nat, c: nat)
    requires IsStart(start) && IsView(k, slot) && p + k.len(e) < 65536
    ensures Tidy(start, k.code(e, p, c), p, {})
    decreases e, 1, 0
  {
    match e
    case And(_, _) => LogicTidy(start, k, slot, e, p, c);
    case Or(_, _) => LogicTidy(start, k, slot, e, p, c);
    case IfExpr(_, _, _) => IfTidy(start, k, slot, e, p, c);
    case ForExpr(_, _, _, _, _) => ForTidy(start, k, slot, e, p, c);
    case List(es) =>
      ListShape(k, slot, e, p, c);
      ElemsTidy(start, k, slot, es, 0, false, 0, p, c);
    case Spread(x) =>
      SpreadShape(k, slot, e, p, c);
      ExprTidy(start, k, slot, x, p, c);
    case _ =>
      LeafShape(k, slot, e, p, c);
      LeafTidy(start, slot, e, p, c);
  }

  lemma LeafTidy(start: (bytes, nat) -> bool, slot: Layout, e: Expr, p: nat, c: nat)
    requires IsStart(start) && Leaf(e)
    ensures Tidy(start, LeafCode(e, c, slot), p, {})
  {
    match e
    case Lit(_) => NoJump(start, PUSH_CONST, c, p);
    case True => NoJump(start, PUSH_TRUE, 0, p);
    case False => NoJump(start, PUSH_FALSE, 0, p);
    case Nil => NoJump(start, PUSH_NIL, 0, p);
    case Var(x) => NoJump(start, GET_LOCAL, slot(User(x)), p);
  }

  lemma {:induction false} LogicTidy(start: (bytes, nat) -> bool, k: View, slot: Layout, e: Expr, p: nat, c: nat)
    requires IsStart(start) && IsView(k, slot) && p + k.len(e) < 65536 && (e.And? || e.Or?)
    ensures Tidy(start, k.code(e, p, c), p, {})
    decreases e, 0, 0
  {
    LogicShape(k, slot, e, p, c);
    var p1, c1, end := p + k.len(e.l), c + |k.consts(e.l)|, p + k.len(e);
    ExprTidy(start, k, slot, e.l, p, c);
    OneJump(start, LogicOp(e), end, p1);
    ExprTidy(start, k, slot, e.r, p1 + 3, c1);
    LogicJoin(start, k.code(e.l, p, c), LogicOp(e), end, k.code(e.r, p1 + 3, c1), p);
  }

  lemma LogicJoin(start: (bytes, nat) -> bool, x: bytes, op: Opcode, end: nat, y: bytes, p: nat)
    requires IsStart(start) && Tidy(start, x, p, {}) && Tidy(start, I2(op, end), p + |x|, {end})
             && Tidy(start, y, p + |x| + 3, {}) && end == p + |x| + 3 + |y|
    ensures Tidy(start, x + I2(op, end) + y, p, {})
  {
    MoreOuts(start, x, p, {}, {end});
    MoreOuts(start, y, p + |x| + 3, {}, {end});
    TidyThree(start, x, I2(op, end), y, p, {end});
    Discharge(start, x + I2(op, end) + y, p, {end}, {});
  }

  lemma {:induction false} IfTidy(start: (bytes, nat) -> bool, k: View, slot: Layout, e: Expr, p: nat, c: nat)
    requires IsStart(start) && IsView(k, slot) && p + k.len(e) < 65536 && e.IfExpr?
    ensures Tidy(start, k.code(e, p, c), p, {})
    decreases e, 0, 0
  {
    var p1, c1 := p + k.len(e.test) + 3, c + |k.consts(e.test)|;
    var p2, c2 := p1 + k.len(e.thn) + 3, c1 + |k.consts(e.thn)|;
    IfShape(k, slot, e, p, c, p1, p2, c1);
    ExprTidy(start, k, slot, e.test, p, c);
    ExprTidy(start, k, slot, e.thn, p1, c1);
    if e.els.Some? { ExprTidy(start, k, slot, e.els.value, p2, c2); } else { NoJump(start, PUSH_NIL, 0, p2); }
    IfJoin(start, k.code(e.test, p, c), k.code(e.thn, p1, c1), if e.els.Some? then k.code(e.els.value, p2, c2)
      else I0(PUSH_NIL), p, p2, p + k.len(e), {});
  }

  lemma IfJoin(start: (bytes, nat) -> bool, x: bytes, y: bytes, z: bytes, p: nat, p2: nat, end: nat, outs: set<nat>)
    requires IsStart(start) && p2 == p + |x| + 3 + |y| + 3 && end == p2 + |z| < 65536
    requires Tidy(start, x, p, outs) && Tidy(start, y, p + |x| + 3, outs) && Tidy(start, z, p2, outs)
    ensures Tidy(start, x + I2(JUMP_IF_FALSE, p2) + y + I2(JUMP, end) + z, p, outs)
  {
    var all := outs + {p2, end};
    var j, g := I2(JUMP_IF_FALSE, p2), I2(JUMP, end);
    OneJump(start, JUMP_IF_FALSE, p2, p + |x|);
    OneJump(start, JUMP, end, p2 - 3);
    MoreOuts(start, j, p + |x|, {p2}, all);
    MoreOuts(start, g, p2 - 3, {end}, all);
    MoreOuts(start, x, p, outs, all);
    MoreOuts(start, y, p + |x| + 3, outs, all);
    MoreOuts(start, z, p2, outs, all);
    FiveJoin(start, x, j, y, g, z, p, outs, p2, end);
  }

  lemma FiveJoin(start: (bytes, nat) -> bool, x: bytes, j: bytes, y: bytes, g: bytes, z: bytes, p: nat, outs: set<nat>,
      p2: nat, end: nat)
    requires IsStart(start) && |j| == |g| == 3 && p2 == p + |x| + 3 + |y| + 3 && end == p2 + |z|
    requires var all := outs + {p2, end};
             && Tidy(start, x, p, all) && Tidy(start, j, p + |x|, all) && Tidy(start, y, p + |x| + 3, all)
             && Tidy(start, g, p2 - 3, all) && Tidy(start, z, p2, all)
    ensures Tidy(start, x + j + y + g + z, p, outs)
  {
    TidyFive(start, x, j, y, g, z, p, outs + {p2, end}, p2 - 3, p2);
    Discharge(start, x + j + y + g + z, p, outs + {p2, end}, outs);
  }

  lemma HeadTidy(start: (bytes, nat) -> bool, id: nat, key: Option<nat>, val: Option<nat>, post: nat, slot: Layout,
      p: nat)
    requires IsStart(start) && post < 65536
    ensures Tidy(start, HeadCode(id, key, val, post, slot), p, {post})
  {
    var a, b := I1(GET_LOCAL, slot(Iter(id))), I1(ITER_NEXT, slot(StreamElem(id)));
    NoJump(start, GET_LOCAL, slot(Iter(id)), p);
    NoJump(start, ITER_NEXT, slot(StreamElem(id)), p + 2);
    OneJump(start, JUMP_IF_FALSE, post, p + 4);
    KeyTidy(start, id, key, slot, p + 7);
    ValTidy(start, id, val, slot, p + 7 + |KeyCode(id, key, slot)|);
    RowTidy(start, a, b, I2(JUMP_IF_FALSE, post), KeyCode(id, key, slot), ValCode(id, val, slot), p, post);
  }

  lemma RowTidy(start: (bytes, nat) -> bool, a: bytes, b: bytes, j: bytes, k: bytes, v: bytes, p: nat, post: nat)
    requires IsStart(start) && Tidy(start, a, p, {}) && Tidy(start, b, p + |a|, {})
             && Tidy(start, j, p + |a| + |b|, {post})
    requires Tidy(start, k, p + |a| + |b| + |j|, {}) && Tidy(start, v, p + |a| + |b| + |j| + |k|, {})
    ensures Tidy(start, a + b + j + k + v, p, {post})
  {
    MoreOuts(start, a, p, {}, {post});
    MoreOuts(start, b, p + |a|, {}, {post});
    MoreOuts(start, k, p + |a| + |b| + |j|, {}, {post});
    MoreOuts(start, v, p + |a| + |b| + |j| + |k|, {}, {post});
    TidyFive(start, a, b, j, k, v, p, {post}, p + |a| + |b| + |j|, p + |a| + |b| + |j| + |k|);
  }

  lemma KeyTidy(start: (bytes, nat) -> bool, id: nat, key: Option<nat>, slot: Layout, p: nat)
    requires IsStart(start)
    ensures Tidy(start, KeyCode(id, key, slot), p, {})
  {
    NothingIsTidy(start, p);
    if key.Some? {
      NoJump(start, GET_LOCAL, slot(Iter(id)), p);
      NoJump(start, ITER_KEY, 0, p + 2);
      NoJump(start, SET_LOCAL, slot(User(key.value)), p + 3);
      TidyThree(start, I1(GET_LOCAL, slot(Iter(id))), I0(ITER_KEY), I1(SET_LOCAL, slot(User(key.value))), p, {});
    }
  }

  lemma ValTidy(start: (bytes, nat) -> bool, id: nat, val: Option<nat>, slot: Layout, p: nat)
    requires IsStart(start)
    ensures Tidy(start, ValCode(id, val, slot), p, {})
  {
    NothingIsTidy(start, p);
    if val.Some? {
      NoJump(start, GET_LOCAL, slot(Iter(id)), p);
      NoJump(start, ITER_VALUE, slot(StreamElem(id)), p + 2);
      NoJump(start, SET_LOCAL, slot(User(val.value)), p + 4);
      TidyThree(start, I1(GET_LOCAL, slot(Iter(id))), I1(ITER_VALUE, slot(StreamElem(id))),
        I1(SET_LOCAL, slot(User(val.value))), p, {});
    }
  }

  lemma InitTidy(start: (bytes, nat) -> bool, id: nat, slot: Layout, p: nat)
    requires IsStart(start)
    ensures Tidy(start, InitCode(id, slot), p, {})
  {
    NoJump(start, ITER_INIT, 0, p);
    NoJump(start, SET_LOCAL, slot(Iter(id)), p + 2);
    TidyAppend(start, I1(ITER_INIT, 0), I1(SET_LOCAL, slot(Iter(id))), p, {}, {});
  }

  lemma ZeroTidy(start: (bytes, nat) -> bool, id: nat, zero: nat, slot: Layout, p: nat)
    requires IsStart(start)
    ensures Tidy(start, ZeroCode(id, zero, slot), p, {})
  {
    NoJump(start, PUSH_CONST, zero, p);
    NoJump(start, SET_LOCAL, slot(Length(id)), p + 3);
    TidyAppend(start, I2(PUSH_CONST, zero), I1(SET_LOCAL, slot(Length(id))), p, {}, {});
  }

  lemma CountTidy(start: (bytes, nat) -> bool, id: nat, one: nat, slot: Layout, p: nat)
    requires IsStart(start)
    ensures Tidy(start, CountCode(id, one, slot), p, {})
  {
    var a, b, d := I1(GET_LOCAL, slot(Length(id))), I2(PUSH_CONST, one), I1(INT_BIN, ADD);
    NoJump(start, GET_LOCAL, slot(Length(id)), p);
    NoJump(start, PUSH_CONST, one, p + 2);
    NoJump(start, INT_BIN, ADD, p + 5);
    NoJump(start, SET_LOCAL, slot(Length(id)), p + 7);
    TidyThree(start, a, b, d, p, {});
    TidyAppend(start, a + b + d, I1(SET_LOCAL, slot(Length(id))), p, {}, {});
  }

  /** A loop: what comes before the condition, the loop itself, and what comes after it. */
  lemma LoopJoin(start: (bytes, nat) -> bool, a: bytes, h: bytes, y: bytes, d: bytes, p: nat, pre: nat, pb: nat,
      outs: set<nat>)
    requires IsStart(start) && pre == p + |a| && pb == pre + |h| + |y| && pb + 3 < 65536
    requires Tidy(start, a, p, outs) && Tidy(start, h, pre, {pb + 3}) && Tidy(start, y, pre + |h|, {pb + 3, pb})
             && Tidy(start, d, pb + 3, outs)
    ensures Tidy(start, a + (h + y + I2(JUMP, pre)) + d, p, outs)
  {
    var all, j := {pre, pb, pb + 3}, I2(JUMP, pre);
    OneJump(start, JUMP, pre, pb);
    MoreOuts(start, h, pre, {pb + 3}, all);
    MoreOuts(start, y, pre + |h|, {pb + 3, pb}, all);
    MoreOuts(start, j, pb, {pre}, all);
    TidyThree(start, h, y, j, pre, all);
    assert start(h + y + j, 0) by { assert Start(h + y + j, 0); }
    Discharge(start, h + y + j, pre, all, {});
    MoreOuts(start, h + y + j, pre, {}, outs);
    TidyThree(start, a, h + y + j, d, p, outs);
  }

  lemma {:induction false} ForTidy(start: (bytes, nat) -> bool, k: View, slot: Layout, e: Expr, p: nat, c: nat)
    requires IsStart(start) && IsView(k, slot) && p + k.len(e) < 65536 && e.ForExpr?
    ensures Tidy(start, k.code(e, p, c), p, {})
    decreases e, 0, 0
  {
    var pre, c1 := p + k.len(e.iter) + 9, c + |k.consts(e.iter)|;
    var p2 := pre + HeadLen(e.key, e.val);
    var post := p2 + 9 + k.len(e.body) + 3;
    ForShape(k, slot, e, p, c, pre, p2, post, c1);
    ExprTidy(start, k, slot, e.iter, p, c);
    ExprTidy(start, k, slot, e.body, p2 + 9, c1 + 2);
    ForFrame(start, slot, e, k.code(e.iter, p, c), k.code(e.body, p2 + 9, c1 + 2), p, pre, p2, post, c1);
  }

  lemma ForFrame(start: (bytes, nat) -> bool, slot: Layout, e: Expr, x: bytes, y: bytes, p: nat, pre: nat, p2: nat,
      post: nat, c1: nat)
    requires IsStart(start) && e.ForExpr? && pre == p + |x| + 9 && p2 == pre + HeadLen(e.key, e.val)
             && post == p2 + 9 + |y| + 3 && post + 3 < 65536
    requires Tidy(start, x, p, {}) && Tidy(start, y, p2 + 9, {})
    ensures Tidy(start, x + InitCode(e.id, slot) + ZeroCode(e.id, c1, slot) + HeadCode(e.id, e.key, e.val, post, slot)
                          + CountCode(e.id, c1 + 1, slot) + y + I2(JUMP, pre) + I1(GET_LOCAL, slot(Length(e.id))) +
                            I0(CREATE_LIST_DYN_LEN), p, {})
  {
    var a, b, h, n := InitCode(e.id, slot), ZeroCode(e.id, c1, slot), HeadCode(e.id, e.key, e.val, post, slot),
      CountCode(e.id, c1 + 1, slot);
    var g, l := I1(GET_LOCAL, slot(Length(e.id))), I0(CREATE_LIST_DYN_LEN);
    InitTidy(start, e.id, slot, pre - 9);
    ZeroTidy(start, e.id, c1, slot, pre - 5);
    TidyThree(start, x, a, b, p, {});
    HeadTidy(start, e.id, e.key, e.val, post, slot, pre);
    CountTidy(start, e.id, c1 + 1, slot, p2);
    TidyAppend(start, n, y, p2, {}, {});
    MoreOuts(start, n + y, p2, {}, {post, post - 3});
    NoJump(start, GET_LOCAL, slot(Length(e.id)), post);
    NoJump(start, CREATE_LIST_DYN_LEN, 0, post + 2);
    TidyAppend(start, g, l, post, {}, {});
    LoopJoin(start, x + a + b, h, n + y, g + l, p, pre, post - 3, {});
    ForGroups(x, a, b, h, n, y, I2(JUMP, pre), g, l);
  }

  lemma ForGroups(x: bytes, a: bytes, b: bytes, h: bytes, n: bytes, y: bytes, j: bytes, g: bytes, l: bytes)
    ensures x + a + b + (h + (n + y) + j) + (g + l) == x + a + b + h + n + y + j + g + l
  {
  }

  // ---- List literals ----

  lemma {:induction false} ElemsTidy(start: (bytes, nat) -> bool, k: View, slot: Layout, es: seq<Expr>, i: nat,
      spread: bool, pend: nat, p: nat, c: nat)
    requires IsStart(start) && IsView(k, slot) && i <= |es| && p + k.elemsLen(es, i, spread, pend) < 65536
    ensures Tidy(start, k.elemsCode(es, i, spread, pend, p, c), p, {})
    decreases es, 2, |es| - i, 1
  {
    if i == |es| {
      EndTidy(start, k, slot, es, spread, pend, p, c);
    } else if es[i].Spread? {
      SpreadElemTidy(start, k, slot, es, i, spread, pend, p, c);
    } else {
      PlainElem(k, slot, es, i, spread, pend, p, c);
      var pend', p1, c1 := if spread then pend + 1 else pend, p + k.len(es[i]), c + |k.consts(es[i])|;
      ExprTidy(start, k, slot, es[i], p, c);
      ElemsTidy(start, k, slot, es, i + 1, spread, pend', p1, c1);
      TidyAppend(start, k.code(es[i], p, c), k.elemsCode(es, i + 1, spread, pend', p1, c1), p, {}, {});
    }
  }

  lemma {:induction false} SpreadElemTidy(start: (bytes, nat) -> bool, k: View, slot: Layout, es: seq<Expr>, i: nat,
      spread: bool, pend: nat, p: nat, c: nat)
    requires IsStart(start) && IsView(k, slot) && i < |es| && p + k.elemsLen(es, i, spread, pend) < 65536
    requires es[i].Spread?
    ensures Tidy(start, k.elemsCode(es, i, spread, pend, p, c), p, {})
    decreases es, 2, |es| - i, 0
  {
    SpreadElem(k, slot, es, i, spread, pend, p, c);
    var p1 := p + SpreadHeadLen(spread, pend);
    var p2, c1 := p1 + k.len(es[i]) + 1, c + |k.consts(es[i])|;
    ExprTidy(start, k, slot, es[i], p1, c);
    ElemsTidy(start, k, slot, es, i + 1, true, 0, p2, c1);
    SpreadJoin(start, i, spread, pend, k.code(es[i], p1, c), k.elemsCode(es, i + 1, true, 0, p2, c1), p);
  }

  lemma SpreadHeadTidy(start: (bytes, nat) -> bool, i: nat, spread: bool, pend: nat, p: nat)
    requires IsStart(start)
    ensures Tidy(start, SpreadHeadCode(i, spread, pend), p, {})
            && |SpreadHeadCode(i, spread, pend)| == SpreadHeadLen(spread, pend)
  {
    NothingIsTidy(start, p);
    NoJump(start, CREATE_LIST, i, p);
    NoJump(start, APPEND, pend, p);
  }

  lemma SpreadJoin(start: (bytes, nat) -> bool, i: nat, spread: bool, pend: nat, x: bytes, y: bytes, p: nat)
    requires IsStart(start) && Tidy(start, x, p + SpreadHeadLen(spread, pend), {})
             && Tidy(start, y, p + SpreadHeadLen(spread, pend) + |x| + 1, {})
    ensures Tidy(start, SpreadHeadCode(i, spread, pend) + x + I0(SPREAD_LIST) + y, p, {})
  {
    SpreadHeadTidy(start, i, spread, pend, p);
    var h := SpreadHeadCode(i, spread, pend);
    NoJump(start, SPREAD_LIST, 0, p + |h| + |x|);
    TidyThree(start, h, x, I0(SPREAD_LIST), p, {});
    TidyAppend(start, h + x + I0(SPREAD_LIST), y, p, {}, {});
  }

  lemma EndTidy(start: (bytes, nat) -> bool, k: View, slot: Layout, es: seq<Expr>, spread: bool, pend: nat, p: nat,
      c: nat)
    requires IsStart(start) && IsView(k, slot)
    ensures Tidy(start, k.elemsCode(es, |es|, spread, pend, p, c), p, {})
  {
    var _ := ElemsCode(es, |es|, spread, pend, p, c, slot);
    SpreadHeadTidy(start, |es|, spread, pend, p);
  }

  // ---- Statements ----

  lemma {:induction false} StmtTidy(start: (bytes, nat) -> bool, k: View, v: SView, slot: Layout, s: Stmt, p: nat,
      c: nat, b: nat, n: nat)
    requires IsStart(start) && Views(k, v, slot) && p + v.len1(s) < 65536 && b < 65536 && n < 65536
    ensures Tidy(start, v.one(s, p, c, b, n), p, {b, n})
    decreases s, 1
  {
    match s
    case Break => LeaveShape(v, slot, s, p, c, b, n); OneJump(start, JUMP, b, p);
      MoreOuts(start, I2(JUMP, b), p, {b}, {b, n});
    case Continue => LeaveShape(v, slot, s, p, c, b, n); OneJump(start, JUMP, n, p);
      MoreOuts(start, I2(JUMP, n), p, {n}, {b, n});
    case If(_, _, _, _) => IfStmtTidy(start, k, v, slot, s, p, c, b, n);
    case For(_, _, _, _, _) => ForStmtTidy(start, k, v, slot, s, p, c, b, n);
    case _ =>
      SimpleShape(k, v, slot, s, p, c, b, n);
      ExprTidy(start, k, slot, s.e, p, c);
      TailTidy(start, slot, s, p + k.len(s.e));
      TidyAppend(start, k.code(s.e, p, c), Tail(s, slot), p, {}, {});
      MoreOuts(start, k.code(s.e, p, c) + Tail(s, slot), p, {}, {b, n});
  }

  lemma TailTidy(start: (bytes, nat) -> bool, slot: Layout, s: Stmt, p: nat)
    requires IsStart(start) && (s.Do? || s.Assign?)
    ensures Tidy(start, Tail(s, slot), p, {})
  {
    NoJump(start, POP, 0, p);
    if s.Assign? { NoJump(start, SET_LOCAL, slot(User(s.x)), p); }
  }

  lemma {:induction false} StmtsTidy(start: (bytes, nat) -> bool, k: View, v: SView, slot: Layout, ss: seq<Stmt>,
      p: nat, c: nat, b: nat, n: nat)
    requires IsStart(start) && Views(k, v, slot) && p + v.len(ss) < 65536 && b < 65536 && n < 65536
    ensures Tidy(start, v.all(ss, p, c, b, n), p, {b, n})
    decreases ss, 1
  {
    if ss == [] {
      AllEmpty(v, slot);
      NothingIsTidy(start, p);
      MoreOuts(start, [], p, {}, {b, n});
    } else {
      AllShape(v, slot, ss, p, c, b, n);
      var p1, c1 := p + v.len1(ss[0]), c + |v.consts1(ss[0])|;
      StmtTidy(start, k, v, slot, ss[0], p, c, b, n);
      StmtsTidy(start, k, v, slot, ss[1..], p1, c1, b, n);
      TidyAppend(start, v.one(ss[0], p, c, b, n), v.all(ss[1..], p1, c1, b, n), p, {b, n}, {b, n});
    }
  }

  lemma {:induction false} IfStmtTidy(start: (bytes, nat) -> bool, k: View, v: SView, slot: Layout, s: Stmt, p: nat,
      c: nat, b: nat, n: nat)
    requires IsStart(start) && Views(k, v, slot) && p + v.len1(s) < 65536 && b < 65536 && n < 65536 && s.If?
    ensures Tidy(start, v.one(s, p, c, b, n), p, {b, n})
    decreases s, 0
  {
    var p1, c1 := p + k.len(s.test) + 3, c + |k.consts(s.test)|;
    var p2 := p1 + v.len(s.thn) + if s.alternate then 3 else 0;
    IfStmtShape(k, v, slot, s, p, c, b, n, p1, p2, c1);
    ExprTidy(start, k, slot, s.test, p, c);
    MoreOuts(start, k.code(s.test, p, c), p, {}, {b, n});
    StmtsTidy(start, k, v, slot, s.thn, p1, c1, b, n);
    var x, y := k.code(s.test, p, c), v.all(s.thn, p1, c1, b, n);
    if s.alternate {
      var z := v.all(s.els, p2, c1 + |v.consts(s.thn)|, b, n);
      StmtsTidy(start, k, v, slot, s.els, p2, c1 + |v.consts(s.thn)|, b, n);
      IfJoin(start, x, y, z, p, p2, p + v.len1(s), {b, n});
      Join(x, I2(JUMP_IF_FALSE, p2), y, I2(JUMP, p + v.len1(s)), z);
    } else {
      ThenJoin(start, x, y, p, p2, {b, n});
    }
  }

  lemma ThenJoin(start: (bytes, nat) -> bool, x: bytes, y: bytes, p: nat, p2: nat, outs: set<nat>)
    requires IsStart(start) && p2 == p + |x| + 3 + |y| < 65536 && Tidy(start, x, p, outs)
             && Tidy(start, y, p + |x| + 3, outs)
    ensures Tidy(start, x + I2(JUMP_IF_FALSE, p2) + y + [], p, outs)
  {
    var all, j := outs + {p2}, I2(JUMP_IF_FALSE, p2);
    OneJump(start, JUMP_IF_FALSE, p2, p + |x|);
    MoreOuts(start, j, p + |x|, {p2}, all);
    MoreOuts(start, x, p, outs, all);
    MoreOuts(start, y, p + |x| + 3, outs, all);
    TidyThree(start, x, j, y, p, all);
    Discharge(start, x + j + y, p, all, outs);
    assert x + j + y + [] == x + j + y;
  }

  lemma {:induction false} ForStmtTidy(start: (bytes, nat) -> bool, k: View, v: SView, slot: Layout, s: Stmt, p: nat,
      c: nat, b: nat, n: nat)
    requires IsStart(start) && Views(k, v, slot) && p + v.len1(s) < 65536 && s.For?
    ensures Tidy(start, v.one(s, p, c, b, n), p, {b, n})
    decreases s, 0
  {
    var pre, c1 := p + k.len(s.iter) + 4, c + |k.consts(s.iter)|;
    var p2 := pre + HeadLen(s.key, s.val);
    var pb := p2 + v.len(s.body);
    ForStmtShape(k, v, slot, s, p, c, b, n, pre, p2, pb, c1);
    ExprTidy(start, k, slot, s.iter, p, c);
    StmtsTidy(start, k, v, slot, s.body, p2, c1, pb + 3, pb);
    LoopFrame(start, slot, s, k.code(s.iter, p, c), v.all(s.body, p2, c1, pb + 3, pb), p, pre, p2, pb, {b, n});
  }

  lemma LoopFrame(start: (bytes, nat) -> bool, slot: Layout, s: Stmt, x: bytes, y: bytes, p: nat, pre: nat, p2: nat,
      pb: nat, outs: set<nat>)
    requires IsStart(start) && s.For? && pre == p + |x| + 4 && p2 == pre + HeadLen(s.key, s.val) && pb == p2 + |y|
             && pb + 3 < 65536
    requires Tidy(start, x, p, {}) && Tidy(start, y, p2, {pb + 3, pb})
    ensures Tidy(start, x + InitCode(s.id, slot) + HeadCode(s.id, s.key, s.val, pb + 3, slot) + y + I2(JUMP, pre), p,
            outs)
  {
    var a, h, j := InitCode(s.id, slot), HeadCode(s.id, s.key, s.val, pb + 3, slot), I2(JUMP, pre);
    InitTidy(start, s.id, slot, pre - 4);
    TidyAppend(start, x, a, p, {}, {});
    MoreOuts(start, x + a, p, {}, outs);
    HeadTidy(start, s.id, s.key, s.val, pb + 3, slot, pre);
    NothingIsTidy(start, pb + 3);
    MoreOuts(start, [], pb + 3, {}, outs);
    LoopJoin(start, x + a, h, y, [], p, pre, pb, outs);
    assert x + a + (h + y + j) + [] == x + a + h + y + j;
  }

  // ---- Main chunks ----

  /** In a main chunk under 65536 bytes, every jump goes to the start of an instruction of the chunk. */
  lemma MainJumpsLand(ss: seq<Stmt>, slot: Layout, q: nat)
    requires |MainCode(ss, slot)| < 65536 && q < |MainCode(ss, slot)| && Start(MainCode(ss, slot), q)
             && IsJump(MainCode(ss, slot)[q])
    ensures q + 3 <= |MainCode(ss, slot)|
    ensures var a := Target(MainCode(ss, slot), q);
            a < |MainCode(ss, slot)| && Start(MainCode(ss, slot), a)
  {
    var start := (w: bytes, q: nat) => Start(w, q);
    assert IsStart(start);
    ViewOfIsView(slot);
    SViewOfIsSView(slot);
    var x := MainBody(ss, slot);
    assert MainCode(ss, slot) == x + I0(SUSPEND);
    BodyTidy(start, ss, slot);
    LastJumps(start, x, q);
  }

  function MainBody(ss: seq<Stmt>, slot: Layout): bytes {
    if ss == [] then I0(PUSH_NIL)
    else if |ss| == 1 && ss[0].Do? then ExprCode(ss[0].e, 0, 0, slot)
    else StmtsCode(ss, 0, 0, 0, 0, slot)
  }

  lemma BodyTidy(start: (bytes, nat) -> bool, ss: seq<Stmt>, slot: Layout)
    requires IsStart(start) && |MainBody(ss, slot)| < 65536
    ensures Tidy(start, MainBody(ss, slot), 0, {0})
  {
    var k, v := ViewOf(slot), SViewOf(slot);
    ViewOfIsView(slot);
    SViewOfIsSView(slot);
    var x := MainBody(ss, slot);
    if ss == [] {
      NoJump(start, PUSH_NIL, 0, 0);
      MoreOuts(start, x, 0, {}, {0});
    } else if |ss| == 1 && ss[0].Do? {
      ExprTidy(start, k, slot, ss[0].e, 0, 0);
      MoreOuts(start, x, 0, {}, {0});
    } else {
      StmtsTidy(start, k, v, slot, ss, 0, 0, 0, 0);
      assert {0, 0} == {0};
    }
  }

  lemma LastJumps(start: (bytes, nat) -> bool, x: bytes, q: nat)
    requires IsStart(start) && Tidy(start, x, 0, {0}) && q < |x| + 1
    requires Start(x + I0(SUSPEND), q) && IsJump((x + I0(SUSPEND))[q])
    ensures var w := x + I0(SUSPEND); q + 3 <= |w| && Target(w, q) < |w| && Start(w, Target(w, q))
  {
    var w := x + I0(SUSPEND);
    assert start(x, |x|) && Start(x, |x|);
    assert q < |x|;
    StartAppend(x, I0(SUSPEND), q);
    JumpFits(x, q);
    assert start(x, q) && JumpAt(start, x, q);
    var a := Target(x, q);
    assert Target(w, q) == a;
    assert a != 0 ==> Within(start, x, 0, a);
    StartAppend(x, I0(SUSPEND), a);
    assert a != 0 ==> Start(x, a);
  }
}
