/** What each instruction of the fragment does to a running machine. */
module Opcodes {
  import opened Common
  import opened Bytecode
  import opened Ast
  import opened CodeGen
  import opened Machine
  import opened View
  import opened StmtView
  import opened Meaning

  /**
   * A program with its symbol layout: `step` is the machine's step function, `view` and `sview` the code generator,
   * `sem` and `ssem` the evaluator.
   */
  datatype Setup = Setup(
    prog: Prog, slot: Layout, syms: set<Sym>, step: Vm -> Vm, view: View, sview: SView, sem: Sem, ssem: SSem)

  ghost predicate IsStep(prog: Prog, step: Vm -> Vm) {
    forall s {:trigger Step(prog, s)} :: step(s) == Step(prog, s)
  }

  /** Operands fit their widths, and distinct symbols have distinct slots. */
  ghost predicate Good(m: Setup) {
    && IsStep(m.prog, m.step) && |m.prog.code| < 65536 && |m.prog.consts| <= 65536
    && (m.prog.room > 0 ==> forall y :: y in m.syms ==> m.slot(y) < 256)
    && (forall y, z :: y in m.syms && z in m.syms && m.slot(y) == m.slot(z) ==> y == z)
  }

  /** The code at p. */
  predicate Holds(m: Setup, p: nat, w: bytes) {
    p + |w| <= |m.prog.code| && m.prog.code[p..p + |w|] == w
  }

  lemma HoldsSplit(m: Setup, p: nat, a: bytes, b: bytes)
    requires Holds(m, p, a + b)
    ensures Holds(m, p, a) && Holds(m, p + |a|, b)
  {
    var code := m.prog.code;
    assert code[p..p + |a|] == code[p..p + |a + b|][..|a|] == a;
    assert code[p + |a|..p + |a| + |b|] == code[p..p + |a + b|][|a|..] == b;
  }

  lemma Fetch(m: Setup, p: nat, w: bytes)
    requires Holds(m, p, w)
    ensures forall i :: 0 <= i < |w| ==> m.prog.code[p + i] == w[i]
  {
    forall i | 0 <= i < |w| ensures m.prog.code[p + i] == w[i] {
      assert m.prog.code[p..p + |w|][i] == m.prog.code[p + i];
    }
  }

  lemma Lands(m: Setup, s: Vm, t: Vm)
    requires Good(m) && Step(m.prog, s) == t
    ensures Reaches(m.step, s, t)
  {
    Steps(m.step, s);
    assert m.step(s) == Step(m.prog, s);
  }

  lemma WordOf(a: nat)
    requires a < 65536
    ensures Word((a / 256) % 256, a % 256) == a
  {
  }

  /** An instruction with a one-byte operand is executed with that operand. */
  lemma StepNarrow(m: Setup, s: Vm, op: Opcode, a: nat)
    requires s.Vm? && Holds(m, s.ip, I1(op, a))
    requires op in {GET_LOCAL, SET_LOCAL, ITER_INIT, ITER_NEXT, ITER_VALUE, INT_BIN}
    ensures Step(m.prog, s) == Step1(m.prog, s, op, a % 256)
  {
    Fetch(m, s.ip, I1(op, a));
  }

  lemma StepWide(m: Setup, s: Vm, op: Opcode, a: nat)
    requires s.Vm? && Holds(m, s.ip, I2(op, a)) && a < 65536
    requires op in {PUSH_CONST, JUMP_IF_FALSE, AND_JUMP, OR_JUMP, JUMP, CREATE_LIST}
    ensures Step(m.prog, s) == Step2(m.prog, s, op, a)
  {
    Fetch(m, s.ip, I2(op, a));
    WordOf(a);
  }

  lemma DoPushTrue(m: Setup, s: Vm)
    requires Good(m) && s.Vm? && Holds(m, s.ip, I0(PUSH_TRUE))
    ensures Reaches(m.step, s, TryPush(m.prog, s, 1, VBool(true)))
  {
    Fetch(m, s.ip, I0(PUSH_TRUE));
    Lands(m, s, TryPush(m.prog, s, 1, VBool(true)));
  }

  lemma DoPushFalse(m: Setup, s: Vm)
    requires Good(m) && s.Vm? && Holds(m, s.ip, I0(PUSH_FALSE))
    ensures Reaches(m.step, s, TryPush(m.prog, s, 1, VBool(false)))
  {
    Fetch(m, s.ip, I0(PUSH_FALSE));
    Lands(m, s, TryPush(m.prog, s, 1, VBool(false)));
  }

  lemma DoPushNil(m: Setup, s: Vm)
    requires Good(m) && s.Vm? && Holds(m, s.ip, I0(PUSH_NIL))
    ensures Reaches(m.step, s, TryPush(m.prog, s, 1, VNil))
  {
    Fetch(m, s.ip, I0(PUSH_NIL));
    Lands(m, s, TryPush(m.prog, s, 1, VNil));
  }

  lemma DoPushConst(m: Setup, s: Vm, k: nat)
    requires Good(m) && s.Vm? && Holds(m, s.ip, I2(PUSH_CONST, k)) && k < |m.prog.consts|
    ensures Reaches(m.step, s, TryPush(m.prog, s, 3, m.prog.consts[k]))
  {
    StepWide(m, s, PUSH_CONST, k);
    Lands(m, s, TryPush(m.prog, s, 3, m.prog.consts[k]));
  }

  lemma DoPop(m: Setup, s: Vm, rest: seq<Value>, v: Value)
    requires Good(m) && s.Vm? && Holds(m, s.ip, I0(POP)) && s.stack == rest + [v]
    ensures Reaches(m.step, s, s.(ip := s.ip + 1, stack := rest))
  {
    Fetch(m, s.ip, I0(POP));
    assert Drop(s.stack, 1) == rest;
    Lands(m, s, s.(ip := s.ip + 1, stack := rest));
  }

  lemma DoJump(m: Setup, s: Vm, a: nat)
    requires Good(m) && s.Vm? && Holds(m, s.ip, I2(JUMP, a)) && a < 65536
    ensures Reaches(m.step, s, s.(ip := a))
  {
    StepWide(m, s, JUMP, a);
    Lands(m, s, s.(ip := a));
  }

  lemma DoJumpIfFalse(m: Setup, s: Vm, a: nat, rest: seq<Value>, x: Value)
    requires Good(m) && s.Vm? && Holds(m, s.ip, I2(JUMP_IF_FALSE, a)) && a < 65536 && s.stack == rest + [x]
    ensures Reaches(m.step, s, if x.VBool? then s.(ip := if x.b then s.ip + 3 else a, stack := rest) else Fault)
  {
    StepWide(m, s, JUMP_IF_FALSE, a);
    assert Drop(s.stack, 1) == rest;
    Lands(m, s, if x.VBool? then s.(ip := if x.b then s.ip + 3 else a, stack := rest) else Fault);
  }

  /** And/or: the left operand stays and the right one is skipped, or it is dropped. */
  function Logic(e: Expr, s: Vm, a: nat, rest: seq<Value>, x: Value): Vm
    requires s.Vm?
  {
    if !x.VBool? then Fault else if Decides(e, x.b) then s.(ip := a) else s.(ip := s.ip + 3, stack := rest)
  }

  lemma DoLogic(m: Setup, e: Expr, s: Vm, a: nat, rest: seq<Value>, x: Value)
    requires Good(m) && (e.And? || e.Or?) && s.Vm? && Holds(m, s.ip, I2(LogicOp(e), a)) && a < 65536
    requires s.stack == rest + [x]
    ensures Reaches(m.step, s, Logic(e, s, a, rest, x))
  {
    StepWide(m, s, LogicOp(e), a);
    assert Drop(s.stack, 1) == rest;
    Lands(m, s, Logic(e, s, a, rest, x));
  }

  lemma DoGetLocal(m: Setup, s: Vm, y: Sym)
    requires Good(m) && s.Vm? && y in m.syms && Holds(m, s.ip, I1(GET_LOCAL, m.slot(y))) && m.slot(y) in s.locals
    ensures Reaches(m.step, s, TryPush(m.prog, s, 2, s.locals[m.slot(y)]))
  {
    StepNarrow(m, s, GET_LOCAL, m.slot(y));
    Lands(m, s, TryPush(m.prog, s, 2, s.locals[m.slot(y)]));
  }

  lemma DoSetLocal(m: Setup, s: Vm, y: Sym, rest: seq<Value>, v: Value)
    requires Good(m) && s.Vm? && y in m.syms && Holds(m, s.ip, I1(SET_LOCAL, m.slot(y))) && s.stack == rest + [v]
    requires m.prog.room > 0
    ensures Reaches(m.step, s, s.(ip := s.ip + 2, stack := rest, locals := s.locals[m.slot(y) := v]))
  {
    StepNarrow(m, s, SET_LOCAL, m.slot(y));
    assert Drop(s.stack, 1) == rest;
    Lands(m, s, s.(ip := s.ip + 2, stack := rest, locals := s.locals[m.slot(y) := v]));
  }

  /** The values become a list; an empty list needs a slot of its own. */
  function Listed(p: Prog, s: Vm, rest: seq<Value>, vs: seq<Value>): Vm
    requires s.Vm?
  {
    if vs == [] && |rest| >= p.room then Fault else s.(ip := s.ip + 3, stack := rest + [VList(vs)])
  }

  lemma StepCreateList(p: Prog, s: Vm, rest: seq<Value>, vs: seq<Value>)
    requires s.Vm? && s.stack == rest + vs
    ensures Step2(p, s, CREATE_LIST, |vs|) == Listed(p, s, rest, vs)
  {
    assert Drop(s.stack, |vs|) == rest && Top(s.stack, |vs|) == vs;
  }

  lemma DoCreateList(m: Setup, s: Vm, rest: seq<Value>, vs: seq<Value>)
    requires Good(m) && s.Vm? && |vs| < 65536 && Holds(m, s.ip, I2(CREATE_LIST, |vs|)) && s.stack == rest + vs
    ensures Reaches(m.step, s, Listed(m.prog, s, rest, vs))
  {
    StepWide(m, s, CREATE_LIST, |vs|);
    StepCreateList(m.prog, s, rest, vs);
    Lands(m, s, Listed(m.prog, s, rest, vs));
  }

  lemma DoDynList(m: Setup, s: Vm, rest: seq<Value>, vs: seq<Value>)
    requires Good(m) && s.Vm? && Holds(m, s.ip, I0(CREATE_LIST_DYN_LEN)) && s.stack == rest + vs + [VInt(|vs|)]
    ensures Reaches(m.step, s, s.(ip := s.ip + 1, stack := rest + [VList(vs)]))
  {
    Fetch(m, s.ip, I0(CREATE_LIST_DYN_LEN));
    assert Drop(s.stack, |vs| + 1) == rest && s.stack[|s.stack| - 1 - |vs|..|s.stack| - 1] == vs;
    Lands(m, s, s.(ip := s.ip + 1, stack := rest + [VList(vs)]));
  }

  lemma DoSpread(m: Setup, s: Vm, rest: seq<Value>, a: seq<Value>, x: Value)
    requires Good(m) && s.Vm? && Holds(m, s.ip, I0(SPREAD_LIST)) && s.stack == rest + [VList(a)] + [x]
    ensures Reaches(m.step, s, if x.VList? then s.(ip := s.ip + 1, stack := rest + [VList(a + x.elems)]) else Fault)
  {
    Fetch(m, s.ip, I0(SPREAD_LIST));
    assert Drop(s.stack, 2) == rest;
    Lands(m, s, if x.VList? then s.(ip := s.ip + 1, stack := rest + [VList(a + x.elems)]) else Fault);
  }

  /** The machine has no case for the append instruction. */
  lemma DoAppend(m: Setup, s: Vm, k: nat)
    requires Good(m) && s.Vm? && Holds(m, s.ip, I2(APPEND, k))
    ensures Reaches(m.step, s, Fault)
  {
    Fetch(m, s.ip, I2(APPEND, k));
    Lands(m, s, Fault);
  }

  /** The machine with an iterator over xs in place of the list. */
  function Iterating(s: Vm, rest: seq<Value>, xs: seq<Value>): Vm
    requires s.Vm?
  {
    s.(ip := s.ip + 2, stack := rest + [VIter(|s.iters|)], iters := s.iters + [IterState(xs, -1)])
  }

  lemma DoIterInit(m: Setup, s: Vm, rest: seq<Value>, x: Value)
    requires Good(m) && s.Vm? && Holds(m, s.ip, I1(ITER_INIT, 0)) && s.stack == rest + [x]
    ensures Reaches(m.step, s, if x.VList? then Iterating(s, rest, x.elems) else Fault)
  {
    StepNarrow(m, s, ITER_INIT, 0);
    assert Drop(s.stack, 1) == rest;
    Lands(m, s, if x.VList? then Iterating(s, rest, x.elems) else Fault);
  }

  lemma DoIterNext(m: Setup, s: Vm, a: nat, rest: seq<Value>, r: nat)
    requires Good(m) && s.Vm? && Holds(m, s.ip, I1(ITER_NEXT, a)) && s.stack == rest + [VIter(r)] && r < |s.iters|
    ensures var it := s.iters[r];
            Reaches(m.step, s,
              if it.i < |it.xs| - 1
              then s.(ip := s.ip + 2, stack := rest + [VBool(true)], iters := s.iters[r := IterState(it.xs, it.i + 1)])
              else s.(ip := s.ip + 2, stack := rest + [VBool(false)]))
  {
    StepNarrow(m, s, ITER_NEXT, a);
    assert Drop(s.stack, 1) == rest;
    var it := s.iters[r];
    Lands(m, s,
      if it.i < |it.xs| - 1
      then s.(ip := s.ip + 2, stack := rest + [VBool(true)], iters := s.iters[r := IterState(it.xs, it.i + 1)])
      else s.(ip := s.ip + 2, stack := rest + [VBool(false)]));
  }

  lemma DoIterKey(m: Setup, s: Vm, rest: seq<Value>, r: nat)
    requires Good(m) && s.Vm? && Holds(m, s.ip, I0(ITER_KEY)) && s.stack == rest + [VIter(r)] && r < |s.iters|
    ensures Reaches(m.step, s, s.(ip := s.ip + 1, stack := rest + [VInt(s.iters[r].i)]))
  {
    Fetch(m, s.ip, I0(ITER_KEY));
    assert Drop(s.stack, 1) == rest;
    Lands(m, s, s.(ip := s.ip + 1, stack := rest + [VInt(s.iters[r].i)]));
  }

  lemma DoIterValue(m: Setup, s: Vm, a: nat, rest: seq<Value>, r: nat)
    requires Good(m) && s.Vm? && Holds(m, s.ip, I1(ITER_VALUE, a)) && s.stack == rest + [VIter(r)]
    requires r < |s.iters| && 0 <= s.iters[r].i < |s.iters[r].xs|
    ensures Reaches(m.step, s, s.(ip := s.ip + 2, stack := rest + [s.iters[r].xs[s.iters[r].i]]))
  {
    StepNarrow(m, s, ITER_VALUE, a);
    assert Drop(s.stack, 1) == rest;
    Lands(m, s, s.(ip := s.ip + 2, stack := rest + [s.iters[r].xs[s.iters[r].i]]));
  }

  lemma DoAdd(m: Setup, s: Vm, rest: seq<Value>, a: int, b: int)
    requires Good(m) && s.Vm? && Holds(m, s.ip, I1(INT_BIN, ADD)) && s.stack == rest + [VInt(a)] + [VInt(b)]
    ensures Reaches(m.step, s, s.(ip := s.ip + 2, stack := rest + [VInt(a + b)]))
  {
    StepNarrow(m, s, INT_BIN, ADD);
    assert Drop(s.stack, 2) == rest;
    Lands(m, s, s.(ip := s.ip + 2, stack := rest + [VInt(a + b)]));
  }
}
