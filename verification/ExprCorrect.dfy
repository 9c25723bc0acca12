/**
 * Running the code of an expression: the machine pushes the value that short-circuit evaluation gives if that
 * succeeds and fits on the stack, and stops otherwise.
 */
module ExprCorrect {
  import opened Common
  import opened Bytecode
  import opened Ast
  import opened CodeGen
  import opened Machine
  import opened ShortCircuit
  import opened View
  import opened Meaning
  import opened Opcodes
  import opened Simulation
  import opened LoopHead

  // ---- The statement proved ----

  /** The code of e is at p, and its constants from index c on. */
  ghost predicate Placed(m: Setup, e: Expr, p: nat, c: nat) {
    && m.sem.ok(e) && m.sem.used(e) <= m.syms
    && Holds(m, p, m.view.code(e, p, c)) && HasConsts(m, c, m.view.consts(e))
  }

  ghost predicate Ready(m: Setup, e: Expr, c: nat, env: Env, s: Vm) {
    Linked(m) && s.Vm? && Placed(m, e, s.ip, c) && Sim(m, env, s.locals)
  }

  /**
   * The outcome of e: one value pushed and control at the end of its code, or a stopped machine. Nothing is said
   * when a variable without a value is read.
   */
  ghost predicate Goes(m: Setup, e: Expr, env: Env, s: Vm, t: Vm) {
    var r := m.sem.eval(e, env);
    s.Vm? && (r.Unbound? ||
              if HasRoom(m, s, r)
              then Moved(m, s, t, s.ip + m.view.len(e), s.stack + [r.v], r.env, m.sem.used(e))
              else Faults(m, s, t))
  }

  lemma {:induction false} ExprRuns(m: Setup, e: Expr, c: nat, env: Env, s: Vm) returns (t: Vm)
    requires Ready(m, e, c, env, s)
    ensures Goes(m, e, env, s, t)
    decreases e, 4, 0
  {
    match e
    case And(_, _) => t := LogicRuns(m, e, c, env, s);
    case Or(_, _) => t := LogicRuns(m, e, c, env, s);
    case IfExpr(_, _, _) => t := IfRuns(m, e, c, env, s);
    case ForExpr(_, _, _, _, _) => t := ForRuns(m, e, c, env, s);
    case List(_) => t := ListRuns(m, e, c, env, s);
    case Spread(x) =>
      SpreadShape(m.view, m.slot, e, s.ip, c);
      SpreadMeans(m.sem, e, env);
      t := ExprRuns(m, x, c, env, s);
    case _ => t := LeafRuns(m, e, c, env, s);
  }

  lemma LeafRuns(m: Setup, e: Expr, c: nat, env: Env, s: Vm) returns (t: Vm)
    requires Ready(m, e, c, env, s) && Leaf(e)
    ensures Goes(m, e, env, s, t)
  {
    LeafShape(m.view, m.slot, e, s.ip, c);
    LeafEval(m.sem, e, env);
    if e.Var? && e.x !in env { return s; }
    var v := LeafValue(e, env).v;
    t := TryPush(m.prog, s, |LeafCode(e, c, m.slot)|, v);
    match e {
      case Lit(_) =>
        assert m.prog.consts[c] == m.prog.consts[c..c + 1][0] == v;
        DoPushConst(m, s, c);
      case True => DoPushTrue(m, s);
      case False => DoPushFalse(m, s);
      case Nil => DoPushNil(m, s);
      case Var(x) => DoGetLocal(m, s, User(x));
    }
    if t.Vm? { PlainMove(m, s, t, env); }
  }

  // ---- And, or ----

  lemma LogicPlaced(m: Setup, e: Expr, p: nat, c: nat)
    requires Linked(m) && Placed(m, e, p, c) && (e.And? || e.Or?)
    ensures var p1 := p + m.view.len(e.l);
            && Placed(m, e.l, p, c) && Holds(m, p1, I2(LogicOp(e), p + m.view.len(e)))
            && Placed(m, e.r, p1 + 3, c + |m.view.consts(e.l)|)
    ensures m.view.len(e) == m.view.len(e.l) + 3 + m.view.len(e.r)
    ensures m.sem.used(e.l) + m.sem.used(e.r) <= m.sem.used(e)
  {
    LogicShape(m.view, m.slot, e, p, c);
    LogicRest(m.view, m.slot, e);
    LogicUses(m.sem, e);
    var p1, c1 := p + m.view.len(e.l), c + |m.view.consts(e.l)|;
    HoldsSplit(m, p, m.view.code(e.l, p, c) + I2(LogicOp(e), p + m.view.len(e)), m.view.code(e.r, p1 + 3, c1));
    HoldsSplit(m, p, m.view.code(e.l, p, c), I2(LogicOp(e), p + m.view.len(e)));
    ConstsSplit(m, c, m.view.consts(e.l), m.view.consts(e.r));
  }

  /** A left operand that decides stays as the result; otherwise it is dropped and the right one runs. */
  lemma {:induction false} LogicRuns(m: Setup, e: Expr, c: nat, env: Env, s: Vm) returns (t: Vm)
    requires Ready(m, e, c, env, s) && (e.And? || e.Or?)
    ensures Goes(m, e, env, s, t)
    decreases e, 2, 0
  {
    var k := m.view;
    LogicPlaced(m, e, s.ip, c);
    LogicEval(m.sem, e, env);
    var a := m.sem.eval(e.l, env);
    t := ExprRuns(m, e.l, c, env, s);
    if HasRoom(m, s, a) { t := LogicEnds(m, e, c + |k.consts(e.l)|, s, t, a, s.ip + k.len(e)); }
  }

  /** The left operand's value a is on the stack. */
  lemma {:induction false} LogicEnds(m: Setup, e: Expr, c: nat, s: Vm, u: Vm, a: Run<Value>, end: nat) returns (t: Vm)
    requires Linked(m) && (e.And? || e.Or?) && HasRoom(m, s, a) && u.Vm? && end < 65536
    requires Moved(m, s, u, u.ip, s.stack + [a.v], a.env, m.sem.used(e.l))
    requires m.sem.used(e.l) + m.sem.used(e.r) <= m.sem.used(e)
    requires Holds(m, u.ip, I2(LogicOp(e), end)) && Placed(m, e.r, u.ip + 3, c) && end == u.ip + 3 + m.view.len(e.r)
    ensures var r := if !a.v.VBool? then Stuck else if Decides(e, a.v.b) then a
                     else After(a.peak, m.sem.eval(e.r, a.env));
            r.Unbound? ||
            if HasRoom(m, s, r) then Moved(m, s, t, end, s.stack + [r.v], r.env, m.sem.used(e)) else Faults(m, s, t)
    decreases e, 1, 1
  {
    t := LogicJumps(m, e, s, u, s.stack, a.v, end, a.env, m.sem.used(e.l));
    if !a.v.VBool? { return; }
    if Decides(e, a.v.b) {
      MovedWider(m, s, t, t.ip, t.stack, a.env, m.sem.used(e.l), m.sem.used(e));
    } else {
      t := RightRuns(m, e, c, s, t, a.env, a.peak);
    }
  }

  lemma {:induction false} RightRuns(m: Setup, e: Expr, c: nat, s: Vm, u: Vm, env: Env, peak: nat) returns (t: Vm)
    requires (e.And? || e.Or?) && s.Vm? && Ready(m, e.r, c, env, u) && |s.stack| + peak <= m.prog.room
    requires Moved(m, s, u, u.ip, s.stack, env, m.sem.used(e.l)) && m.sem.used(e.l) + m.sem.used(e.r) <= m.sem.used(e)
    ensures var r := After(peak, m.sem.eval(e.r, env));
            r.Unbound? ||
            if HasRoom(m, s, r) then Moved(m, s, t, u.ip + m.view.len(e.r), s.stack + [r.v], r.env, m.sem.used(e))
            else Faults(m, s, t)
    decreases e, 1, 0
  {
    var k := m.view;
    var r := m.sem.eval(e.r, env);
    t := ExprRuns(m, e.r, c, env, u);
    if HasRoom(m, u, r) {
      MovedThen(m, s, u, t, t.ip, t.stack, env, r.env, m.sem.used(e.l), m.sem.used(e.r), m.sem.used(e));
    } else if !r.Unbound? {
      Then(m.step, s, u, Fault);
    }
  }

  lemma LogicJumps(
      m: Setup, e: Expr, s: Vm, t: Vm, stack: seq<Value>, x: Value, end: nat, env: Env, used: set<Sym>) returns (u: Vm)
    requires Good(m) && (e.And? || e.Or?) && t.Vm? && Moved(m, s, t, t.ip, stack + [x], env, used)
    requires Holds(m, t.ip, I2(LogicOp(e), end)) && end < 65536
    ensures if !x.VBool? then Faults(m, s, u)
            else if Decides(e, x.b) then Moved(m, s, u, end, stack + [x], env, used)
            else Moved(m, s, u, t.ip + 3, stack, env, used)
  {
    DoLogic(m, e, t, end, stack, x);
    u := Logic(e, t, end, stack, x);
    Then(m.step, s, t, u);
    if x.VBool? {
      PlainMove(m, t, u, env);
      MovedThen(m, s, t, u, u.ip, u.stack, env, env, used, {}, used);
    }
  }

  // ---- If ----

  lemma IfPlaced(m: Setup, e: Expr, p: nat, c: nat, p1: nat, p2: nat, c1: nat, c2: nat)
    requires Linked(m) && Placed(m, e, p, c) && e.IfExpr?
    requires p1 == p + m.view.len(e.test) + 3 && p2 == p1 + m.view.len(e.thn) + 3
    requires c1 == c + |m.view.consts(e.test)| && c2 == c1 + |m.view.consts(e.thn)|
    ensures Placed(m, e.test, p, c) && Holds(m, p1 - 3, I2(JUMP_IF_FALSE, p2))
    ensures Placed(m, e.thn, p1, c1) && Holds(m, p2 - 3, I2(JUMP, p + m.view.len(e)))
    ensures if e.els.Some? then Placed(m, e.els.value, p2, c2) else Holds(m, p2, I0(PUSH_NIL))
    ensures p + m.view.len(e) == p2 + if e.els.Some? then m.view.len(e.els.value) else 1
    ensures m.sem.used(e.test) + m.sem.used(e.thn) <= m.sem.used(e)
    ensures e.els.Some? ==> m.sem.used(e.els.value) <= m.sem.used(e)
  {
    IfShape(m.view, m.slot, e, p, c, p1, p2, c1);
    IfRest(m.view, m.slot, e);
    IfUses(m.sem, e);
    HoldsArms(m, p, m.view.code(e.test, p, c), I2(JUMP_IF_FALSE, p2), m.view.code(e.thn, p1, c1),
      I2(JUMP, p + m.view.len(e)), if e.els.Some? then m.view.code(e.els.value, p2, c2) else I0(PUSH_NIL), p1, p2);
    ConstsThree(m, c, m.view.consts(e.test), m.view.consts(e.thn),
      if e.els.Some? then m.view.consts(e.els.value) else [], c1, c2);
  }

  lemma HoldsArms(m: Setup, p: nat, x: bytes, j: bytes, y: bytes, g: bytes, z: bytes, p1: nat, p2: nat)
    requires Holds(m, p, x + j + y + g + z) && |j| == |g| == 3 && p1 == p + |x| + 3 && p2 == p1 + |y| + 3
    ensures Holds(m, p, x) && Holds(m, p1 - 3, j) && Holds(m, p1, y) && Holds(m, p2 - 3, g) && Holds(m, p2, z)
  {
    HoldsFive(m, p, x, j, y, g, z);
  }

  /** The test's value is consumed and the jump taken or not. */
  lemma Branch(m: Setup, s: Vm, t: Vm, stack: seq<Value>, x: Value, target: nat, env: Env, used: set<Sym>)
    returns (u: Vm)
    requires Good(m) && t.Vm? && Moved(m, s, t, t.ip, stack + [x], env, used)
    requires Holds(m, t.ip, I2(JUMP_IF_FALSE, target)) && target < 65536
    ensures if x.VBool? then Moved(m, s, u, if x.b then t.ip + 3 else target, stack, env, used) else Faults(m, s, u)
  {
    DoJumpIfFalse(m, t, target, stack, x);
    u := if x.VBool? then t.(ip := if x.b then t.ip + 3 else target, stack := stack) else Fault;
    Then(m.step, s, t, u);
    if x.VBool? {
      PlainMove(m, t, u, env);
      MovedThen(m, s, t, u, u.ip, stack, env, env, used, {}, used);
    }
  }

  lemma Jumps(m: Setup, s: Vm, t: Vm, target: nat, env: Env, used: set<Sym>) returns (u: Vm)
    requires Good(m) && t.Vm? && Moved(m, s, t, t.ip, t.stack, env, used)
    requires Holds(m, t.ip, I2(JUMP, target)) && target < 65536
    ensures Moved(m, s, u, target, t.stack, env, used)
  {
    DoJump(m, t, target);
    u := t.(ip := target);
    PlainMove(m, t, u, env);
    MovedThen(m, s, t, u, u.ip, t.stack, env, env, used, {}, used);
  }

  /** Both arms end at the same place with one value pushed. */
  lemma {:induction false} IfRuns(m: Setup, e: Expr, c: nat, env: Env, s: Vm) returns (t: Vm)
    requires Ready(m, e, c, env, s) && e.IfExpr?
    ensures Goes(m, e, env, s, t)
    decreases e, 2, 0
  {
    var k := m.view;
    var p1, c1 := s.ip + k.len(e.test) + 3, c + |k.consts(e.test)|;
    var p2, c2 := p1 + k.len(e.thn) + 3, c1 + |k.consts(e.thn)|;
    IfPlaced(m, e, s.ip, c, p1, p2, c1, c2);
    IfEval(m.sem, e, env);
    var r := m.sem.eval(e.test, env);
    t := ExprRuns(m, e.test, c, env, s);
    if HasRoom(m, s, r) { t := ArmsRun(m, e, s, t, r, p1, p2, c1, c2); }
  }

  /** The test's value is on the stack. */
  lemma {:induction false} ArmsRun(
      m: Setup, e: Expr, s: Vm, u: Vm, r: Run<Value>, p1: nat, p2: nat, c1: nat, c2: nat) returns (t: Vm)
    requires Linked(m) && e.IfExpr? && HasRoom(m, s, r) && r.peak >= 1 && p1 >= 3 && p2 >= 3 && u.Vm?
    requires Moved(m, s, u, p1 - 3, s.stack + [r.v], r.env, m.sem.used(e.test))
    requires Holds(m, p1 - 3, I2(JUMP_IF_FALSE, p2))
    requires p2 == p1 + m.view.len(e.thn) + 3 && s.ip + m.view.len(e) <= |m.prog.code| < 65536
    requires Placed(m, e.thn, p1, c1) && Holds(m, p2 - 3, I2(JUMP, s.ip + m.view.len(e)))
    requires if e.els.Some? then Placed(m, e.els.value, p2, c2) else Holds(m, p2, I0(PUSH_NIL))
    requires s.ip + m.view.len(e) == p2 + if e.els.Some? then m.view.len(e.els.value) else 1
    requires m.sem.used(e.test) + m.sem.used(e.thn) <= m.sem.used(e)
    requires e.els.Some? ==> m.sem.used(e.els.value) <= m.sem.used(e)
    ensures ArmGoes(m, e, s, t,
              if !r.v.VBool? then Stuck else if r.v.b then After(r.peak, m.sem.eval(e.thn, r.env))
              else if e.els.Some? then After(r.peak, m.sem.eval(e.els.value, r.env)) else Ran(VNil, r.env, r.peak))
    decreases e, 1, 1
  {
    t := Branch(m, s, u, s.stack, r.v, p2, r.env, m.sem.used(e.test));
    if !r.v.VBool? { return; }
    if r.v.b {
      t := ThenRuns(m, e, c1, s, t, r.env, r.peak);
    } else {
      t := ElseRuns(m, e, c2, s, t, r.env, r.peak);
    }
  }

  /** What an arm gives after a test that needed `peak` slots. */
  ghost predicate ArmGoes(m: Setup, e: Expr, s: Vm, t: Vm, r: Run<Value>) {
    s.Vm? && (r.Unbound? ||
              if HasRoom(m, s, r) then Moved(m, s, t, s.ip + m.view.len(e), s.stack + [r.v], r.env, m.sem.used(e))
              else Faults(m, s, t))
  }

  lemma {:induction false} ThenRuns(m: Setup, e: Expr, c: nat, s: Vm, u: Vm, env: Env, peak: nat) returns (t: Vm)
    requires e.IfExpr? && s.Vm? && Ready(m, e.thn, c, env, u) && |s.stack| + peak <= m.prog.room
    requires Moved(m, s, u, u.ip, s.stack, env, m.sem.used(e.test))
    requires m.sem.used(e.test) + m.sem.used(e.thn) <= m.sem.used(e)
    requires Holds(m, u.ip + m.view.len(e.thn), I2(JUMP, s.ip + m.view.len(e))) && s.ip + m.view.len(e) < 65536
    ensures ArmGoes(m, e, s, t, After(peak, m.sem.eval(e.thn, env)))
    decreases e, 1, 0
  {
    var k := m.view;
    var r := m.sem.eval(e.thn, env);
    t := ExprRuns(m, e.thn, c, env, u);
    if HasRoom(m, u, r) {
      t := Jumps(m, u, t, s.ip + k.len(e), r.env, m.sem.used(e.thn));
      MovedThen(m, s, u, t, t.ip, t.stack, env, r.env, m.sem.used(e.test), m.sem.used(e.thn), m.sem.used(e));
    } else if !r.Unbound? {
      Then(m.step, s, u, Fault);
    }
  }

  lemma {:induction false} ElseRuns(m: Setup, e: Expr, c: nat, s: Vm, u: Vm, env: Env, peak: nat) returns (t: Vm)
    requires Linked(m) && e.IfExpr? && s.Vm? && u.Vm? && |s.stack| + peak <= m.prog.room && peak >= 1
    requires Moved(m, s, u, u.ip, s.stack, env, m.sem.used(e.test)) && m.sem.used(e.test) <= m.sem.used(e)
    requires if e.els.Some?
             then Placed(m, e.els.value, u.ip, c) && u.ip + m.view.len(e.els.value) == s.ip + m.view.len(e)
                  && m.sem.used(e.els.value) <= m.sem.used(e)
             else Holds(m, u.ip, I0(PUSH_NIL)) && u.ip + 1 == s.ip + m.view.len(e)
    ensures ArmGoes(m, e, s, t,
              if e.els.Some? then After(peak, m.sem.eval(e.els.value, env)) else Ran(VNil, env, peak))
    decreases e, 1, 0
  {
    var k := m.view;
    if e.els.None? {
      DoPushNil(m, u);
      t := Push(u, 1, VNil);
      PlainMove(m, u, t, env);
      MovedThen(m, s, u, t, t.ip, t.stack, env, env, m.sem.used(e.test), {}, m.sem.used(e));
    } else {
      var r := m.sem.eval(e.els.value, env);
      t := ExprRuns(m, e.els.value, c, env, u);
      if HasRoom(m, u, r) {
        MovedThen(m, s, u, t, t.ip, t.stack, env, r.env, m.sem.used(e.test), m.sem.used(e.els.value), m.sem.used(e));
      } else if !r.Unbound? {
        Then(m.step, s, u, Fault);
      }
    }
  }

  // ---- List literals ----

  ghost predicate ElemsPlaced(m: Setup, es: seq<Expr>, i: nat, spread: bool, pend: nat, p: nat, c: nat) {
    && i <= |es| < 65536 && m.sem.elemsUsed(es) <= m.syms && (forall j :: 0 <= j < |es| ==> m.sem.ok(es[j]))
    && Holds(m, p, m.view.elemsCode(es, i, spread, pend, p, c)) && HasConsts(m, c, m.view.elemsConsts(es, i))
  }

  /** What is on the stack while a literal is built: the values so far, or one list of them. */
  function Building(base: seq<Value>, spread: bool, vs: seq<Value>): seq<Value> {
    if spread then base + [VList(vs)] else base + vs
  }

  /** Element i is next; what the elements before it gave is on the stack, and nothing waits for an append. */
  ghost predicate ElemsAt(
    m: Setup, es: seq<Expr>, i: nat, spread: bool, c: nat, env: Env, s: Vm, base: seq<Value>, vs: seq<Value>)
  {
    && Linked(m) && s.Vm? && ElemsPlaced(m, es, i, spread, 0, s.ip, c) && Sim(m, env, s.locals)
    && s.stack == Building(base, spread, vs) && (!spread ==> |vs| == i)
    && (i > 0 ==> |base| < m.prog.room) && (spread ==> i > 0)
  }

  /** The rest of the literal, above the values of `base`. */
  ghost predicate ElemsGo(
    m: Setup, es: seq<Expr>, i: nat, spread: bool, env: Env, s: Vm, t: Vm, base: seq<Value>, vs: seq<Value>)
  {
    var r := m.sem.elemsEval(es, i, spread, 0, env);
    s.Vm? && (r.Unbound? ||
              if r.Ran? && |base| + Max(1, r.peak) <= m.prog.room
              then Moved(m, s, t, s.ip + m.view.elemsLen(es, i, spread, 0), base + [VList(vs + r.v)], r.env,
                         m.sem.elemsUsed(es))
              else Faults(m, s, t))
  }

  lemma {:induction false} ElemsLenAtLeast(es: seq<Expr>, i: nat, spread: bool, pend: nat)
    requires i <= |es|
    ensures ElemsLen(es, i, spread, pend) >= |es| - i
    decreases |es| - i
  {
    if i < |es| {
      ElemsLenAtLeast(es, i + 1, true, 0);
      ElemsLenAtLeast(es, i + 1, spread, if spread then pend + 1 else pend);
      LenPositive(es[i]);
    }
  }

  lemma {:induction false} LenPositive(e: Expr)
    ensures ExprLen(e) >= 1
    decreases e
  {
    match e
    case Spread(x) => LenPositive(x);
    case List(es) => if es != [] { LenPositive(es[0]); }
    case _ =>
  }

  lemma ListPlaced(m: Setup, e: Expr, p: nat, c: nat)
    requires Linked(m) && Placed(m, e, p, c) && e.List?
    ensures ElemsPlaced(m, e.elems, 0, false, 0, p, c)
  {
    ListShape(m.view, m.slot, e, p, c);
    ListRest(m.view, m.slot, e);
    ListUses(m.sem, e);
    assert m.view.elemsLen(e.elems, 0, false, 0) == ElemsLen(e.elems, 0, false, 0);
    ElemsLenAtLeast(e.elems, 0, false, 0);
  }

  lemma {:induction false} ListRuns(m: Setup, e: Expr, c: nat, env: Env, s: Vm) returns (t: Vm)
    requires Ready(m, e, c, env, s) && e.List?
    ensures Goes(m, e, env, s, t)
    decreases e, 2, 0
  {
    ListPlaced(m, e, s.ip, c);
    ListShape(m.view, m.slot, e, s.ip, c);
    ListRest(m.view, m.slot, e);
    ListUses(m.sem, e);
    ListEval(m.sem, e, env);
    assert s.stack + [] == s.stack;
    t := ElemsRun(m, e.elems, 0, false, c, env, s, s.stack, []);
    var r := m.sem.elemsEval(e.elems, 0, false, 0, env);
    if r.Ran? { assert [] + r.v == r.v; }
  }

  lemma {:induction false} ElemsRun(
      m: Setup, es: seq<Expr>, i: nat, spread: bool, c: nat, env: Env, s: Vm, base: seq<Value>, vs: seq<Value>)
    returns (t: Vm)
    requires ElemsAt(m, es, i, spread, c, env, s, base, vs)
    ensures ElemsGo(m, es, i, spread, env, s, t, base, vs)
    decreases es, |es| - i, 3
  {
    if i == |es| {
      t := ElemsFinish(m, es, spread, c, env, s, base, vs);
    } else if es[i].Spread? {
      t := SpreadRuns(m, es, i, spread, c, env, s, base, vs);
    } else if spread {
      t := LateRuns(m, es, i, c, env, s, base, vs);
    } else {
      t := PlainRuns(m, es, i, c, env, s, base, vs);
    }
  }

  lemma ElemsFinish(
      m: Setup, es: seq<Expr>, spread: bool, c: nat, env: Env, s: Vm, base: seq<Value>, vs: seq<Value>) returns (t: Vm)
    requires ElemsAt(m, es, |es|, spread, c, env, s, base, vs)
    ensures ElemsGo(m, es, |es|, spread, env, s, t, base, vs)
  {
    ElemsEnd(m.view, m.slot, es, spread, s.ip, c);
    ElemsEndEval(m.sem, es, spread, env);
    assert vs + [] == vs;
    if spread {
      t := s;
      Stays(m.step, s);
    } else {
      DoCreateList(m, s, base, vs);
      t := Listed(m.prog, s, base, vs);
    }
    if t.Vm? { PlainMove(m, s, t, env); }
  }

  lemma PlainPlaced(m: Setup, es: seq<Expr>, i: nat, spread: bool, pend: nat, p: nat, c: nat)
    requires Linked(m) && ElemsPlaced(m, es, i, spread, pend, p, c) && i < |es| && !es[i].Spread?
    ensures Placed(m, es[i], p, c)
    ensures ElemsPlaced(m, es, i + 1, spread, if spread then pend + 1 else pend,
              p + m.view.len(es[i]), c + |m.view.consts(es[i])|)
  {
    PlainElem(m.view, m.slot, es, i, spread, pend, p, c);
    ElemRest(m.view, m.slot, es, i);
    ElemUses(m.sem, es, i);
    var p1, c1 := p + m.view.len(es[i]), c + |m.view.consts(es[i])|;
    var pend' := if spread then pend + 1 else pend;
    HoldsSplit(m, p, m.view.code(es[i], p, c), m.view.elemsCode(es, i + 1, spread, pend', p1, c1));
    ConstsSplit(m, c, m.view.consts(es[i]), m.view.elemsConsts(es, i + 1));
  }

  /** An element before any spread: its value stays on the stack. */
  lemma {:induction false} PlainRuns(
      m: Setup, es: seq<Expr>, i: nat, c: nat, env: Env, s: Vm, base: seq<Value>, vs: seq<Value>) returns (t: Vm)
    requires ElemsAt(m, es, i, false, c, env, s, base, vs) && i < |es| && !es[i].Spread?
    ensures ElemsGo(m, es, i, false, env, s, t, base, vs)
    decreases es, |es| - i, 2
  {
    var k := m.view;
    PlainPlaced(m, es, i, false, 0, s.ip, c);
    ElemEval(m.sem, es, i, false, 0, env);
    var r := m.sem.eval(es[i], env);
    t := ExprRuns(m, es[i], c, env, s);
    if !HasRoom(m, s, r) { return; }
    PlainElem(k, m.slot, es, i, false, 0, s.ip, c);
    ElemRest(k, m.slot, es, i);
    ElemUses(m.sem, es, i);
    assert s.stack + [r.v] == base + (vs + [r.v]);
    var u := ElemsRun(m, es, i + 1, false, c + |k.consts(es[i])|, r.env, t, base, vs + [r.v]);
    t := ElemsJoin(m, es, i, s, t, u, base, vs, [r.v], r, i, false, s.ip + k.len(es[i]));
  }

  /** One element and then the rest. */
  lemma ElemsJoin(
      m: Setup, es: seq<Expr>, i: nat, s: Vm, t: Vm, u: Vm, base: seq<Value>, vs: seq<Value>, more: seq<Value>,
      r: Run<Value>, h: nat, spread: bool, ip: nat) returns (w: Vm)
    requires r.Ran? && s.Vm? && t.Vm? && Moved(m, s, t, ip, t.stack, r.env, m.sem.elemsUsed(es))
    requires |base| + h + r.peak <= m.prog.room && ElemsGo(m, es, i + 1, spread, r.env, t, u, base, vs + more)
    ensures var rest := m.sem.elemsEval(es, i + 1, spread, 0, r.env);
            w == u && (rest.Unbound? ||
                       if rest.Ran? && |base| + Max(1, Max(h + r.peak, rest.peak)) <= m.prog.room
                       then Moved(m, s, w, ip + m.view.elemsLen(es, i + 1, spread, 0),
                                  base + [VList(vs + (more + rest.v))], rest.env, m.sem.elemsUsed(es))
                       else Faults(m, s, w))
  {
    w := u;
    var rest := m.sem.elemsEval(es, i + 1, spread, 0, r.env);
    var used := m.sem.elemsUsed(es);
    if rest.Ran? && |base| + Max(1, rest.peak) <= m.prog.room {
      assert vs + more + rest.v == vs + (more + rest.v);
      MovedThen(m, s, t, u, u.ip, u.stack, r.env, rest.env, used, used, used);
    } else if !rest.Unbound? {
      Then(m.step, s, t, Fault);
    }
  }

  lemma SpreadPlaced(
      m: Setup, es: seq<Expr>, i: nat, spread: bool, pend: nat, p: nat, c: nat, p1: nat, p2: nat)
    requires Linked(m) && ElemsPlaced(m, es, i, spread, pend, p, c) && i < |es| && es[i].Spread?
    requires p1 == p + SpreadHeadLen(spread, pend) && p2 == p1 + m.view.len(es[i])
    ensures Holds(m, p, SpreadHeadCode(i, spread, pend)) && Placed(m, es[i], p1, c) && Holds(m, p2, I0(SPREAD_LIST))
    ensures ElemsPlaced(m, es, i + 1, true, 0, p2 + 1, c + |m.view.consts(es[i])|)
  {
    SpreadElem(m.view, m.slot, es, i, spread, pend, p, c);
    ElemRest(m.view, m.slot, es, i);
    ElemUses(m.sem, es, i);
    var c1 := c + |m.view.consts(es[i])|;
    HoldsSpread(m, p, SpreadHeadCode(i, spread, pend), m.view.code(es[i], p1, c), I0(SPREAD_LIST),
      m.view.elemsCode(es, i + 1, true, 0, p2 + 1, c1), p1, p2);
    ConstsSplit(m, c, m.view.consts(es[i]), m.view.elemsConsts(es, i + 1));
  }

  lemma HoldsSpread(m: Setup, p: nat, a: bytes, b: bytes, d: bytes, e: bytes, p1: nat, p2: nat)
    requires Holds(m, p, a + b + d + e) && |d| == 1 && p1 == p + |a| && p2 == p1 + |b|
    ensures Holds(m, p, a) && Holds(m, p1, b) && Holds(m, p2, d) && Holds(m, p2 + 1, e)
  {
    HoldsSplit(m, p, a + b + d, e);
    HoldsSplit(m, p, a + b, d);
    HoldsSplit(m, p, a, b);
  }

  /** The values before the first spread become a list. */
  lemma SpreadHeadRuns(m: Setup, i: nat, spread: bool, env: Env, s: Vm, base: seq<Value>, vs: seq<Value>)
    returns (t: Vm)
    requires Good(m) && s.Vm? && Holds(m, s.ip, SpreadHeadCode(i, spread, 0)) && s.stack == Building(base, spread, vs)
    requires (!spread ==> |vs| == i) && i < 65536 && Sim(m, env, s.locals) && (i > 0 ==> |base| < m.prog.room)
    requires spread ==> i > 0
    ensures if |base| < m.prog.room then Moved(m, s, t, s.ip + SpreadHeadLen(spread, 0), base + [VList(vs)], env, {})
            else Faults(m, s, t)
  {
    if spread {
      t := s;
      Stays(m.step, s);
    } else {
      DoCreateList(m, s, base, vs);
      t := Listed(m.prog, s, base, vs);
    }
    if t.Vm? { PlainMove(m, s, t, env); }
  }

  lemma Spreads(m: Setup, s: Vm, t: Vm, base: seq<Value>, vs: seq<Value>, x: Value, env: Env, used: set<Sym>)
    returns (u: Vm)
    requires Good(m) && t.Vm? && Moved(m, s, t, t.ip, base + [VList(vs)] + [x], env, used)
    requires Holds(m, t.ip, I0(SPREAD_LIST))
    ensures if x.VList? then Moved(m, s, u, t.ip + 1, base + [VList(vs + x.elems)], env, used) else Faults(m, s, u)
  {
    DoSpread(m, t, base, vs, x);
    u := if x.VList? then t.(ip := t.ip + 1, stack := base + [VList(vs + x.elems)]) else Fault;
    Then(m.step, s, t, u);
    if x.VList? {
      PlainMove(m, t, u, env);
      MovedThen(m, s, t, u, u.ip, u.stack, env, env, used, {}, used);
    }
  }

  /** A spread element: the list is made if need be, the element evaluated, and its list added. */
  lemma {:induction false} SpreadOne(
      m: Setup, es: seq<Expr>, i: nat, spread: bool, c: nat, env: Env, s: Vm, base: seq<Value>, vs: seq<Value>,
      r: Run<Value>) returns (t: Vm)
    requires ElemsAt(m, es, i, spread, c, env, s, base, vs) && i < |es| && es[i].Spread?
    requires r == m.sem.eval(es[i], env) && !r.Unbound?
    ensures if r.Ran? && r.v.VList? && |base| + 1 + r.peak <= m.prog.room
            then && Moved(m, s, t, s.ip + SpreadHeadLen(spread, 0) + m.view.len(es[i]) + 1,
                          base + [VList(vs + r.v.elems)], r.env, m.sem.elemsUsed(es))
                 && ElemsPlaced(m, es, i + 1, true, 0, t.ip, c + |m.view.consts(es[i])|)
            else Faults(m, s, t)
    decreases es, |es| - i, 1
  {
    var k := m.view;
    var p1 := s.ip + SpreadHeadLen(spread, 0);
    SpreadPlaced(m, es, i, spread, 0, s.ip, c, p1, p1 + k.len(es[i]));
    ElemRest(k, m.slot, es, i);
    ElemUses(m.sem, es, i);
    var s1 := SpreadHeadRuns(m, i, spread, env, s, base, vs);
    if |base| >= m.prog.room { return s1; }
    t := ExprRuns(m, es[i], c, env, s1);
    if HasRoom(m, s1, r) {
      MovedThen(m, s, s1, t, t.ip, t.stack, env, r.env, {}, m.sem.used(es[i]), m.sem.elemsUsed(es));
      t := Spreads(m, s, t, base, vs, r.v, r.env, m.sem.elemsUsed(es));
    } else {
      Then(m.step, s, s1, Fault);
    }
  }

  lemma {:induction false} SpreadRuns(
      m: Setup, es: seq<Expr>, i: nat, spread: bool, c: nat, env: Env, s: Vm, base: seq<Value>, vs: seq<Value>)
    returns (t: Vm)
    requires ElemsAt(m, es, i, spread, c, env, s, base, vs) && i < |es| && es[i].Spread?
    ensures ElemsGo(m, es, i, spread, env, s, t, base, vs)
    decreases es, |es| - i, 2
  {
    var k := m.view;
    ElemEval(m.sem, es, i, spread, 0, env);
    var r := m.sem.eval(es[i], env);
    if r.Unbound? { return s; }
    t := SpreadOne(m, es, i, spread, c, env, s, base, vs, r);
    if !(r.Ran? && r.v.VList? && |base| + 1 + r.peak <= m.prog.room) { return; }
    var u := ElemsRun(m, es, i + 1, true, c + |k.consts(es[i])|, r.env, t, base, vs + r.v.elems);
    SpreadElem(k, m.slot, es, i, spread, 0, s.ip, c);
    t := ElemsJoin(m, es, i, s, t, u, base, vs, r.v.elems, r, 1, true, t.ip);
  }

  /** Values that wait for an append: whatever follows, the machine stops. */
  lemma {:induction false} OwedRuns(m: Setup, es: seq<Expr>, i: nat, pend: nat, c: nat, env: Env, s: Vm)
    requires Linked(m) && s.Vm? && ElemsPlaced(m, es, i, true, pend, s.ip, c) && pend > 0 && Sim(m, env, s.locals)
    ensures m.sem.elemsEval(es, i, true, pend, env).Unbound? || Reaches(m.step, s, Fault)
    decreases es, |es| - i, 1
  {
    if i == |es| {
      ElemsOwed(m.view, m.slot, es, pend, s.ip, c);
      DoAppend(m, s, pend);
    } else if es[i].Spread? {
      SpreadPlaced(m, es, i, true, pend, s.ip, c, s.ip + 3, s.ip + 3 + m.view.len(es[i]));
      DoAppend(m, s, pend);
    } else {
      PlainPlaced(m, es, i, true, pend, s.ip, c);
      ElemEval(m.sem, es, i, true, pend, env);
      var r := m.sem.eval(es[i], env);
      var t := ExprRuns(m, es[i], c, env, s);
      if HasRoom(m, s, r) {
        OwedRuns(m, es, i + 1, pend + 1, c + |m.view.consts(es[i])|, r.env, t);
        OwedStuck(m.sem, es, i + 1, pend + 1, r.env);
        if !m.sem.elemsEval(es, i + 1, true, pend + 1, r.env).Unbound? { Then(m.step, s, t, Fault); }
      }
    }
  }

  /** A plain element after a spread. */
  lemma {:induction false} LateRuns(
      m: Setup, es: seq<Expr>, i: nat, c: nat, env: Env, s: Vm, base: seq<Value>, vs: seq<Value>) returns (t: Vm)
    requires ElemsAt(m, es, i, true, c, env, s, base, vs) && i < |es| && !es[i].Spread?
    ensures ElemsGo(m, es, i, true, env, s, t, base, vs)
    decreases es, |es| - i, 2
  {
    PlainPlaced(m, es, i, true, 0, s.ip, c);
    ElemEval(m.sem, es, i, true, 0, env);
    var r := m.sem.eval(es[i], env);
    t := ExprRuns(m, es[i], c, env, s);
    if r.Ran? { OwedStuck(m.sem, es, i + 1, 1, r.env); }
    if HasRoom(m, s, r) {
      OwedRuns(m, es, i + 1, 1, c + |m.view.consts(es[i])|, r.env, t);
      if !m.sem.elemsEval(es, i + 1, true, 1, r.env).Unbound? {
        Then(m.step, s, t, Fault);
        t := Fault;
      }
    }
  }

  // ---- The for expression ----

  /** Where the parts of a for expression are. */
  datatype ForAt = ForAt(p: nat, pre: nat, p2: nat, post: nat, c: nat, c1: nat)

  function ForLayout(k: View, e: Expr, p: nat, c: nat): ForAt
    requires e.ForExpr?
  {
    var pre := p + k.len(e.iter) + 9;
    var p2 := pre + HeadLen(e.key, e.val);
    ForAt(p, pre, p2, p2 + 9 + k.len(e.body) + 3, c, c + |k.consts(e.iter)|)
  }

  ghost predicate ForCodeParts(m: Setup, e: Expr, l: ForAt)
    requires e.ForExpr?
  {
    && Holds(m, l.p, m.view.code(e.iter, l.p, l.c)) && l.pre >= 9 && Holds(m, l.pre - 9, InitCode(e.id, m.slot))
    && Holds(m, l.pre - 5, ZeroCode(e.id, l.c1, m.slot))
      && Holds(m, l.pre, HeadCode(e.id, e.key, e.val, l.post, m.slot))
    && Holds(m, l.p2, CountCode(e.id, l.c1 + 1, m.slot)) && Holds(m, l.p2 + 9, m.view.code(e.body, l.p2 + 9, l.c1 + 2))
    && l.post >= 3 && Holds(m, l.post - 3, I2(JUMP, l.pre)) && Holds(m, l.post, I1(GET_LOCAL, m.slot(Length(e.id))))
    && Holds(m, l.post + 2, I0(CREATE_LIST_DYN_LEN))
  }

  ghost predicate ForParts(m: Setup, e: Expr, l: ForAt)
    requires e.ForExpr?
  {
    && l.post + 3 <= |m.prog.code| && {Iter(e.id), StreamElem(e.id), Length(e.id)} + Vars(e.key) + Vars(e.val) <= m.syms
    && Iter(e.id) !in m.sem.used(e.body) && Length(e.id) !in m.sem.used(e.body) && ForCodeParts(m, e, l)
    && Placed(m, e.iter, l.p, l.c) && Placed(m, e.body, l.p2 + 9, l.c1 + 2)
    && HasConsts(m, l.c1, [VInt(0)]) && HasConsts(m, l.c1 + 1, [VInt(1)])
  }

  lemma ForHolds(m: Setup, e: Expr, l: ForAt)
    requires e.ForExpr? && l == ForLayout(m.view, e, l.p, l.c)
    requires |m.view.code(e.iter, l.p, l.c)| == m.view.len(e.iter)
             && |m.view.code(e.body, l.p2 + 9, l.c1 + 2)| == m.view.len(e.body)
    requires Holds(m, l.p,
               m.view.code(e.iter, l.p, l.c) + InitCode(e.id, m.slot) + ZeroCode(e.id, l.c1, m.slot)
                 + HeadCode(e.id, e.key, e.val, l.post, m.slot) + CountCode(e.id, l.c1 + 1, m.slot)
                 + m.view.code(e.body, l.p2 + 9, l.c1 + 2) + I2(JUMP, l.pre)
                 + I1(GET_LOCAL, m.slot(Length(e.id))) + I0(CREATE_LIST_DYN_LEN))
    ensures l.post + 3 <= |m.prog.code| && ForCodeParts(m, e, l)
  {
    var k := m.view;
    HoldsNine(m, l.p, k.code(e.iter, l.p, l.c), InitCode(e.id, m.slot), ZeroCode(e.id, l.c1, m.slot),
      HeadCode(e.id, e.key, e.val, l.post, m.slot), CountCode(e.id, l.c1 + 1, m.slot),
      k.code(e.body, l.p2 + 9, l.c1 + 2), I2(JUMP, l.pre), I1(GET_LOCAL, m.slot(Length(e.id))), I0(CREATE_LIST_DYN_LEN),
      l.pre - 5, l.pre, l.p2, l.p2 + 9, l.post);
  }

  lemma ForPlaced(m: Setup, e: Expr, p: nat, c: nat, l: ForAt)
    requires Linked(m) && Placed(m, e, p, c) && e.ForExpr? && l == ForLayout(m.view, e, p, c)
    ensures ForParts(m, e, l)
  {
    ForSymsPlaced(m, e);
    ForCodePlaced(m, e, p, c, l);
    ForConstsPlaced(m, e, c, l.c1);
  }

  lemma ForSymsPlaced(m: Setup, e: Expr)
    requires IsSem(m.sem) && e.ForExpr? && m.sem.ok(e) && m.sem.used(e) <= m.syms
    ensures {Iter(e.id), StreamElem(e.id), Length(e.id)} + Vars(e.key) + Vars(e.val) <= m.syms
    ensures Iter(e.id) !in m.sem.used(e.body) && Length(e.id) !in m.sem.used(e.body)
    ensures m.sem.ok(e.iter) && m.sem.ok(e.body) && m.sem.used(e.iter) <= m.syms && m.sem.used(e.body) <= m.syms
  {
    ForUses(m.sem, e);
  }

  lemma ForCodePlaced(m: Setup, e: Expr, p: nat, c: nat, l: ForAt)
    requires Linked(m) && Placed(m, e, p, c) && e.ForExpr? && l == ForLayout(m.view, e, p, c)
    ensures l.post + 3 <= |m.prog.code| && ForCodeParts(m, e, l)
  {
    ForShape(m.view, m.slot, e, p, c, l.pre, l.p2, l.post, l.c1);
    ForHolds(m, e, l);
  }

  lemma ForConstsPlaced(m: Setup, e: Expr, c: nat, c1: nat)
    requires Linked(m) && e.ForExpr? && c1 == c + |m.view.consts(e.iter)| && HasConsts(m, c, m.view.consts(e))
    ensures HasConsts(m, c, m.view.consts(e.iter)) && HasConsts(m, c1, [VInt(0)])
    ensures HasConsts(m, c1 + 1, [VInt(1)]) && HasConsts(m, c1 + 2, m.view.consts(e.body))
  {
    ForRest(m.view, m.slot, e);
    ConstsFour(m, c, m.view.consts(e.iter), VInt(0), VInt(1), m.view.consts(e.body));
  }

  lemma HoldsNine(
      m: Setup, p: nat, a: bytes, b: bytes, d: bytes, h: bytes, n: bytes, x: bytes, j: bytes, g: bytes, y: bytes,
      pd: nat, ph: nat, pn: nat, px: nat, pg: nat)
    requires Holds(m, p, a + b + d + h + n + x + j + g + y) && pd == p + |a| + |b| && ph == pd + |d| && pn == ph + |h|
             && px == pn + |n|
    requires pg == px + |x| + |j|
    ensures Holds(m, p, a) && Holds(m, p + |a|, b) && Holds(m, pd, d) && Holds(m, ph, h) && Holds(m, pn, n)
    ensures Holds(m, px, x) && Holds(m, px + |x|, j) && Holds(m, pg, g) && Holds(m, pg + |g|, y)
            && pg + |g| + |y| <= |m.prog.code|
  {
    HoldsFive(m, p, a + b + d + h + n, x, j, g, y);
    HoldsFive(m, p, a, b, d, h, n);
  }

  /** At the loop condition: iterator r before element i, `n` values pending on top of the stack. */
  ghost predicate Looping(
    m: Setup, e: Expr, l: ForAt, s: Vm, r: nat, xs: seq<Value>, i: nat, n: nat, env: Env)
  {
    && Linked(m) && e.ForExpr? && ForParts(m, e, l)
    && At(m, e.id, s, r, xs, i) && Counts(m, e.id, s, n) && s.ip == l.pre && Sim(m, env, s.locals)
  }

  /** What a loop may change: its own locals, those of its body, and the iterators from r on. */
  ghost predicate Turned(m: Setup, e: Expr, s: Vm, t: Vm, r: nat) {
    && e.ForExpr? && s.Vm? && t.Vm? && Reaches(m.step, s, t) && Grows(s.iters, t.iters, r)
    && Keeps(m, s.locals, t.locals, {Iter(e.id), Length(e.id)} + m.sem.used(e.body))
  }

  lemma TurnedThen(m: Setup, e: Expr, s: Vm, t: Vm, u: Vm, r: nat)
    requires Turned(m, e, s, t, r) && Turned(m, e, t, u, r)
    ensures Turned(m, e, s, u, r)
  {
    Then(m.step, s, t, u);
  }

  /** The body of a turn, after the count. */
  lemma {:induction false} TurnRuns(
      m: Setup, e: Expr, l: ForAt, s: Vm, r: nat, xs: seq<Value>, i: nat, n: nat, env: Env, b: Run<Value>)
    returns (t: Vm)
    requires Looping(m, e, l, s, r, xs, i, n, env) && i < |xs| && |s.stack| + 2 <= m.prog.room
    requires l.post == l.p2 + 9 + m.view.len(e.body) + 3 && l.p2 == l.pre + HeadLen(e.key, e.val)
    requires b == m.sem.eval(e.body, Bind(Bind(env, e.key, VInt(i)), e.val, xs[i]))
    ensures b.Unbound? ||
            if HasRoom(m, s, b)
            then Turned(m, e, s, t, r) && Looping(m, e, l, t, r, xs, i + 1, n + 1, b.env) && t.stack == s.stack + [b.v]
            else Faults(m, s, t)
    decreases e, 0, 0
  {
    var bound := Bind(Bind(env, e.key, VInt(i)), e.val, xs[i]);
    var s1 := HeadRuns(m, e.id, e.key, e.val, l.post, s, r, xs, i, env);
    assert Counts(m, e.id, s1, n) && At(m, e.id, s1, r, xs, i + 1);
    var s2 := CountRuns(m, e.id, l.c1 + 1, s1, n, bound);
    t := ExprRuns(m, e.body, l.c1 + 2, bound, s2);
    Then(m.step, s, s1, s2);
    if HasRoom(m, s2, b) {
      t := TurnEnds(m, e, l, s, s1, s2, t, r, xs, i, n, bound, b.env);
    } else if !b.Unbound? {
      Then(m.step, s, s2, Fault);
    }
  }

  lemma TurnEnds(
      m: Setup, e: Expr, l: ForAt, s: Vm, s1: Vm, s2: Vm, s3: Vm, r: nat, xs: seq<Value>, i: nat, n: nat,
      bound: Env, env: Env) returns (t: Vm)
    requires Linked(m) && e.ForExpr? && ForParts(m, e, l) && s.Vm? && s1.Vm? && s2.Vm? && s3.Vm? && r < |s.iters|
    requires Reaches(m.step, s, s1) && s1.iters == s.iters[r := IterState(xs, i)] && Keeps(m, s.locals, s1.locals, {})
    requires i < |xs| && Moved(m, s1, s2, s2.ip, s2.stack, bound, {Length(e.id)}) && s2.iters == s1.iters
    requires Counts(m, e.id, s2, n + 1) && Lookup(s2.locals, m.slot(Iter(e.id))) == Some(VIter(r))
    requires Moved(m, s2, s3, l.post - 3, s3.stack, env, m.sem.used(e.body))
    ensures Turned(m, e, s, t, r) && Looping(m, e, l, t, r, xs, i + 1, n + 1, env) && t.stack == s3.stack
  {
    DoJump(m, s3, l.pre);
    t := s3.(ip := l.pre);
    Then(m.step, s, s1, s2);
    Then(m.step, s, s2, s3);
    Then(m.step, s, s3, t);
    assert s3.iters[r] == s3.iters[..|s2.iters|][r];
    assert t.iters[..r] == s3.iters[..|s2.iters|][..r];
  }

  /** The loop is over: the values are pending and the length local counts them. */
  ghost predicate EachDone(m: Setup, e: Expr, l: ForAt, s: Vm, t: Vm, r: nat, n: nat, vs: seq<Value>, env: Env) {
    && Turned(m, e, s, t, r) && t.ip == l.post && t.stack == s.stack + vs
    && Counts(m, e.id, t, n + |vs|) && Sim(m, env, t.locals)
  }

  /** All turns: the values of the bodies pile up and the length local counts them. */
  lemma {:induction false} EachRuns(
      m: Setup, e: Expr, l: ForAt, s: Vm, r: nat, xs: seq<Value>, i: nat, n: nat, env: Env, res: Run<seq<Value>>)
    returns (t: Vm)
    requires Looping(m, e, l, s, r, xs, i, n, env)
    requires l.post == l.p2 + 9 + m.view.len(e.body) + 3 && l.p2 == l.pre + HeadLen(e.key, e.val)
    requires res == m.sem.each(e.key, e.val, e.body, xs, i, env)
    ensures res.Unbound? || if HasRoom(m, s, res) then EachDone(m, e, l, s, t, r, n, res.v, res.env)
            else Faults(m, s, t)
    decreases e, 1, |xs| - i
  {
    EachEval(m.sem, e.key, e.val, e.body, xs, i, env);
    if |s.stack| >= m.prog.room {
      ConditionFaults(m, e.id, e.key, e.val, l.post, s, r, xs, i);
      return Fault;
    }
    if i == |xs| {
      t := LoopLeaves(m, e, l, s, r, xs, n, env);
    } else if |s.stack| + 2 > m.prog.room {
      t := NoRoomToCount(m, e, l, s, r, xs, i, n, env);
    } else {
      var b := m.sem.eval(e.body, Bind(Bind(env, e.key, VInt(i)), e.val, xs[i]));
      t := TurnRuns(m, e, l, s, r, xs, i, n, env, b);
      if HasRoom(m, s, b) {
        var rest := m.sem.each(e.key, e.val, e.body, xs, i + 1, b.env);
        var u := EachRuns(m, e, l, t, r, xs, i + 1, n + 1, b.env, rest);
        t := EachJoin(m, e, l, s, t, u, r, n, b, rest);
      }
    }
  }

  lemma EachJoin(
      m: Setup, e: Expr, l: ForAt, s: Vm, t: Vm, u: Vm, r: nat, n: nat, b: Run<Value>, rest: Run<seq<Value>>)
    returns (w: Vm)
    requires b.Ran? && Turned(m, e, s, t, r) && t.stack == s.stack + [b.v]
    requires rest.Unbound? ||
             if HasRoom(m, t, rest) then EachDone(m, e, l, t, u, r, n + 1, rest.v, rest.env) else Faults(m, t, u)
    ensures w == u && (rest.Unbound? ||
                       if rest.Ran? && |s.stack| + 1 + rest.peak <= m.prog.room
                       then EachDone(m, e, l, s, w, r, n, [b.v] + rest.v, rest.env) else Faults(m, s, w))
  {
    w := u;
    if HasRoom(m, t, rest) {
      TurnedThen(m, e, s, t, u, r);
      assert s.stack + [b.v] + rest.v == s.stack + ([b.v] + rest.v);
    } else if !rest.Unbound? {
      Then(m.step, s, t, Fault);
    }
  }

  lemma NoRoomToCount(
      m: Setup, e: Expr, l: ForAt, s: Vm, r: nat, xs: seq<Value>, i: nat, n: nat, env: Env) returns (t: Vm)
    requires Looping(m, e, l, s, r, xs, i, n, env) && i < |xs| && |s.stack| + 1 == m.prog.room
    requires l.p2 == l.pre + HeadLen(e.key, e.val)
    ensures Faults(m, s, t)
  {
    var s1 := HeadRuns(m, e.id, e.key, e.val, l.post, s, r, xs, i, env);
    CountFaults(m, e.id, l.c1 + 1, s1, n);
    Then(m.step, s, s1, Fault);
    t := Fault;
  }

  lemma LoopLeaves(m: Setup, e: Expr, l: ForAt, s: Vm, r: nat, xs: seq<Value>, n: nat, env: Env) returns (t: Vm)
    requires Looping(m, e, l, s, r, xs, |xs|, n, env) && |s.stack| < m.prog.room
    ensures EachDone(m, e, l, s, t, r, n, [], env)
  {
    ConditionRuns(m, e.id, e.key, e.val, l.post, s, r, xs, |xs|);
    t := s.(ip := l.post);
    assert s.stack + [] == s.stack;
  }

  lemma {:induction false} ForRuns(m: Setup, e: Expr, c: nat, env: Env, s: Vm) returns (t: Vm)
    requires Ready(m, e, c, env, s) && e.ForExpr?
    ensures Goes(m, e, env, s, t)
    decreases e, 3, 0
  {
    var k := m.view;
    var l := ForLayout(k, e, s.ip, c);
    ForPlaced(m, e, s.ip, c, l);
    ForEval(m.sem, e, env);
    var xs := m.sem.eval(e.iter, env);
    var s1 := ExprRuns(m, e.iter, c, env, s);
    if !HasRoom(m, s, xs) { return s1; }
    ForShape(k, m.slot, e, s.ip, c, l.pre, l.p2, l.post, l.c1);
    ForRest(k, m.slot, e);
    ForUses(m.sem, e);
    t := ForStarts(m, e, l, s, s1, s.stack, xs.v, xs.env);
    if xs.v.VList? { t := LoopRuns(m, e, l, s, t, |s1.iters|, xs.v.elems, xs.env, xs.peak); }
  }

  /** From the first test to the list. */
  lemma {:induction false} LoopRuns(
      m: Setup, e: Expr, l: ForAt, s: Vm, s3: Vm, r: nat, xs: seq<Value>, env: Env, peak: nat) returns (t: Vm)
    requires s.Vm? && Looping(m, e, l, s3, r, xs, 0, 0, env) && |s.iters| <= r && |s.stack| + peak <= m.prog.room
    requires l.post == l.p2 + 9 + m.view.len(e.body) + 3 && l.p2 == l.pre + HeadLen(e.key, e.val)
    requires Moved(m, s, s3, s3.ip, s.stack, env, m.sem.used(e))
    requires {Iter(e.id), Length(e.id)} + m.sem.used(e.body) <= m.sem.used(e)
    ensures var res := m.sem.each(e.key, e.val, e.body, xs, 0, env);
            res.Unbound? ||
            if res.Ran? && |s.stack| + Max(peak, res.peak) <= m.prog.room
            then Moved(m, s, t, l.post + 3, s.stack + [VList(res.v)], Unbind(Unbind(res.env, e.key), e.val),
                       m.sem.used(e))
            else Faults(m, s, t)
    decreases e, 2, 0
  {
    var res := m.sem.each(e.key, e.val, e.body, xs, 0, env);
    t := EachRuns(m, e, l, s3, r, xs, 0, 0, env, res);
    if HasRoom(m, s3, res) {
      t := ForFinishes(m, e, l, s, s3, t, r, res.v, env, res.env, m.sem.used(e));
    } else if !res.Unbound? {
      Then(m.step, s, s3, Fault);
    }
  }

  /** The iterator is made, the count is zero. */
  lemma ForStarts(m: Setup, e: Expr, l: ForAt, s: Vm, s1: Vm, stack: seq<Value>, x: Value, env: Env) returns (t: Vm)
    requires Linked(m) && e.ForExpr? && ForParts(m, e, l) && s1.Vm? && |stack| < m.prog.room
    requires Moved(m, s, s1, l.pre - 9, stack + [x], env, m.sem.used(e.iter))
    requires m.sem.used(e.iter) + {Iter(e.id), Length(e.id)} <= m.sem.used(e)
    ensures if x.VList?
            then Moved(m, s, t, l.pre, stack, env, m.sem.used(e)) && Looping(m, e, l, t, |s1.iters|, x.elems, 0, 0, env)
            else Faults(m, s, t)
  {
    var s2 := InitRuns(m, e.id, s1, stack, x, env);
    if !x.VList? {
      Then(m.step, s, s1, Fault);
      return s2;
    }
    t := CountStarts(m, e, l, s1, s2, |s1.iters|, x.elems, stack, env);
    var own := {Iter(e.id), Length(e.id)};
    MovedThen(m, s, s1, t, t.ip, t.stack, env, env, m.sem.used(e.iter), own, m.sem.used(e));
  }

  lemma CountStarts(
      m: Setup, e: Expr, l: ForAt, s1: Vm, s2: Vm, r: nat, xs: seq<Value>, stack: seq<Value>, env: Env) returns (t: Vm)
    requires Linked(m) && e.ForExpr? && ForParts(m, e, l) && s1.Vm? && s2.Vm? && |stack| < m.prog.room
    requires Moved(m, s1, s2, l.pre - 5, stack, env, {Iter(e.id)}) && At(m, e.id, s2, r, xs, 0)
    ensures Moved(m, s1, t, l.pre, stack, env, {Iter(e.id), Length(e.id)}) && Looping(m, e, l, t, r, xs, 0, 0, env)
  {
    t := ZeroRuns(m, e.id, l.c1, s2, env);
    MovedThen(m, s1, s2, t, t.ip, t.stack, env, env, {Iter(e.id)}, {Length(e.id)}, {Iter(e.id), Length(e.id)});
    assert At(m, e.id, t, r, xs, 0);
  }

  /** The length is read back and the pending values become one list. */
  lemma ForFinishes(
      m: Setup, e: Expr, l: ForAt, s: Vm, s3: Vm, s4: Vm, r: nat, vs: seq<Value>, env: Env, env': Env, used: set<Sym>)
    returns (t: Vm)
    requires Good(m) && e.ForExpr? && ForParts(m, e, l) && s.Vm? && s3.Vm?
    requires Moved(m, s, s3, s3.ip, s.stack, env, used)
    requires EachDone(m, e, l, s3, s4, r, 0, vs, env') && |s.iters| <= r && |s.stack| + |vs| < m.prog.room
    requires {Iter(e.id), Length(e.id)} + m.sem.used(e.body) <= used
    ensures Moved(m, s, t, l.post + 3, s.stack + [VList(vs)], Unbind(Unbind(env', e.key), e.val), used)
  {
    Then(m.step, s, s3, s4);
    DoGetLocal(m, s4, Length(e.id));
    var s5 := Push(s4, 2, VInt(|vs|));
    Then(m.step, s, s4, s5);
    DoDynList(m, s5, s.stack, vs);
    t := s5.(ip := s5.ip + 1, stack := s.stack + [VList(vs)]);
    Then(m.step, s, s5, t);
    assert t.iters[..|s.iters|] == s4.iters[..r][..|s.iters|] == s3.iters[..|s.iters|];
  }
}
