/** The virtual machine on the opcodes of the fragment. */
module Machine {
  import opened Common
  import opened Bytecode
  import opened Ast
  import opened CodeGen

  /** `room` is the number of stack slots that the locals leave for values. */
  datatype Prog = Prog(code: bytes, consts: seq<Value>, room: nat)

  /** The size of the stack, which locals and values share. */
  const STACK_SIZE: nat := 200

  function Room(locals: nat): nat {
    if locals < STACK_SIZE then STACK_SIZE - locals else 0
  }

  /** An iterator object: what it walks, and the index it is at. */
  datatype IterState = IterState(xs: seq<Value>, i: int)

  /** Fault is a stopped machine: a failed type assertion, an unknown opcode, a full stack, a stack underflow. */
  datatype Vm = Vm(ip: nat, stack: seq<Value>, locals: map<nat, Value>, iters: seq<IterState>) | Fault

  function Top(s: seq<Value>, n: nat): seq<Value>
    requires n <= |s|
  {
    s[|s| - n..]
  }

  function Drop(s: seq<Value>, n: nat): seq<Value>
    requires n <= |s|
  {
    s[..|s| - n]
  }

  function Push(s: Vm, size: nat, v: Value): Vm
    requires s.Vm?
  {
    s.(ip := s.ip + size, stack := s.stack + [v])
  }

  /** Push, unless the stack is full. */
  function TryPush(p: Prog, s: Vm, size: nat, v: Value): Vm
    requires s.Vm?
  {
    if |s.stack| < p.room then Push(s, size, v) else Fault
  }

  /** Replace the n topmost values by v. */
  function Replace(s: Vm, size: nat, n: nat, v: Value): Vm
    requires s.Vm? && n <= |s.stack|
  {
    s.(ip := s.ip + size, stack := Drop(s.stack, n) + [v])
  }

  function Step(p: Prog, s: Vm): Vm {
    if s.Fault? || s.ip >= |p.code| then Fault
    else
      var op := p.code[s.ip];
      var n := |s.stack|;
      if op == SUSPEND then s
      else if op == PUSH_TRUE then TryPush(p, s, 1, VBool(true))
      else if op == PUSH_FALSE then TryPush(p, s, 1, VBool(false))
      else if op == PUSH_NIL then TryPush(p, s, 1, VNil)
      else if op == POP then (if n < 1 then Fault else s.(ip := s.ip + 1, stack := Drop(s.stack, 1)))
      else if op == CREATE_LIST_DYN_LEN then StepDynList(s)
      else if op == SPREAD_LIST then
        (if n < 2 || !s.stack[n - 2].VList? || !s.stack[n - 1].VList? then Fault
         else Replace(s, 1, 2, VList(s.stack[n - 2].elems + s.stack[n - 1].elems)))
      else if op == ITER_KEY then StepIterKey(s)
      else if op in {GET_LOCAL, SET_LOCAL, ITER_INIT, ITER_NEXT, ITER_VALUE, INT_BIN} then
        (if s.ip + 1 >= |p.code| then Fault else Step1(p, s, op, p.code[s.ip + 1]))
      else if op in {PUSH_CONST, JUMP_IF_FALSE, AND_JUMP, OR_JUMP, JUMP, CREATE_LIST} then
        (if s.ip + 2 >= |p.code| then Fault else Step2(p, s, op, Word(p.code[s.ip + 1], p.code[s.ip + 2])))
      else Fault
  }

  function Word(hi: byte, lo: byte): nat {
    var h: int := hi;
    h * 256 + lo
  }

  function StepDynList(s: Vm): Vm
    requires s.Vm?
  {
    var n := |s.stack|;
    if n < 1 || !s.stack[n - 1].VInt? || s.stack[n - 1].n < 0 || s.stack[n - 1].n > n - 1 then Fault
    else
      var k := s.stack[n - 1].n;
      Replace(s, 1, k + 1, VList(s.stack[n - 1 - k..n - 1]))
  }

  function IterOf(s: Vm): Option<IterState>
    requires s.Vm?
  {
    var n := |s.stack|;
    if n < 1 || !s.stack[n - 1].VIter? || s.stack[n - 1].ref >= |s.iters| then None
    else Some(s.iters[s.stack[n - 1].ref])
  }

  function StepIterKey(s: Vm): Vm
    requires s.Vm?
  {
    var it := IterOf(s);
    if it.None? then Fault else Replace(s, 1, 1, VInt(it.value.i))
  }

  /** Instructions with a one-byte operand. */
  function Step1(p: Prog, s: Vm, op: Opcode, a: nat): Vm
    requires s.Vm?
  {
    var n := |s.stack|;
    if op == GET_LOCAL then TryPush(p, s, 2, if a in s.locals then s.locals[a] else VEmpty)
    else if n < 1 then Fault
    else if op == SET_LOCAL then
      s.(ip := s.ip + 2, stack := Drop(s.stack, 1), locals := s.locals[a := s.stack[n - 1]])
    else if op == ITER_INIT then
      (if a != 0 || !s.stack[n - 1].VList? then Fault
       else Replace(s, 2, 1, VIter(|s.iters|)).(iters := s.iters + [IterState(s.stack[n - 1].elems, -1)]))
    else if op == ITER_NEXT then StepIterNext(s)
    else if op == ITER_VALUE then
      (var it := IterOf(s);
       if it.None? || !(0 <= it.value.i < |it.value.xs|) then Fault else Replace(s, 2, 1, it.value.xs[it.value.i]))
    else if op == INT_BIN && a == ADD then
      (if n < 2 || !s.stack[n - 2].VInt? || !s.stack[n - 1].VInt? then Fault
       else Replace(s, 2, 2, VInt(s.stack[n - 2].n + s.stack[n - 1].n)))
    else Fault
  }

  /** The iterator object moves if it can; the answer replaces the reference. */
  function StepIterNext(s: Vm): Vm
    requires s.Vm?
  {
    var it := IterOf(s);
    if it.None? then Fault
    else if it.value.i < |it.value.xs| - 1 then
      var r := s.stack[|s.stack| - 1].ref;
      Replace(s, 2, 1, VBool(true)).(iters := s.iters[r := IterState(it.value.xs, it.value.i + 1)])
    else Replace(s, 2, 1, VBool(false))
  }

  /** Instructions with a two-byte operand. */
  function Step2(p: Prog, s: Vm, op: Opcode, a: nat): Vm
    requires s.Vm?
  {
    var n := |s.stack|;
    if op == PUSH_CONST then (if a < |p.consts| then TryPush(p, s, 3, p.consts[a]) else Fault)
    else if op == JUMP then s.(ip := a)
    else if op == CREATE_LIST then
      (if a > n || (a == 0 && n >= p.room) then Fault else Replace(s, 3, a, VList(Top(s.stack, a))))
    else if n < 1 || !s.stack[n - 1].VBool? then Fault
    else if op == JUMP_IF_FALSE then
      s.(ip := if s.stack[n - 1].b then s.ip + 3 else a, stack := Drop(s.stack, 1))
    else if op == AND_JUMP then
      (if s.stack[n - 1].b then s.(ip := s.ip + 3, stack := Drop(s.stack, 1)) else s.(ip := a))
    else if op == OR_JUMP then
      (if s.stack[n - 1].b then s.(ip := a) else s.(ip := s.ip + 3, stack := Drop(s.stack, 1)))
    else Fault
  }

  // ---- Running ----

  function RunFor(step: Vm -> Vm, s: Vm, n: nat): Vm
    decreases n
  {
    if n == 0 then s else RunFor(step, step(s), n - 1)
  }

  ghost predicate Reaches(step: Vm -> Vm, s: Vm, t: Vm) {
    exists n: nat :: RunFor(step, s, n) == t
  }

  lemma {:induction false} RunAdds(step: Vm -> Vm, s: Vm, n: nat, k: nat)
    ensures RunFor(step, s, n + k) == RunFor(step, RunFor(step, s, n), k)
    decreases n
  {
    if n > 0 { RunAdds(step, step(s), n - 1, k); }
  }

  lemma Then(step: Vm -> Vm, s: Vm, t: Vm, u: Vm)
    requires Reaches(step, s, t) && Reaches(step, t, u)
    ensures Reaches(step, s, u)
  {
    var n: nat :| RunFor(step, s, n) == t;
    var k: nat :| RunFor(step, t, k) == u;
    RunAdds(step, s, n, k);
  }

  lemma Stays(step: Vm -> Vm, s: Vm)
    ensures Reaches(step, s, s)
  {
    assert RunFor(step, s, 0) == s;
  }

  lemma Steps(step: Vm -> Vm, s: Vm)
    ensures Reaches(step, s, step(s))
  {
    assert RunFor(step, step(s), 0) == step(s);
    assert RunFor(step, s, 1) == step(s);
  }

  /** A machine that can halt in two ways halts in one: it is deterministic. */
  lemma {:induction false} OneEnd(step: Vm -> Vm, s: Vm, t: Vm, u: Vm)
    requires Reaches(step, s, t) && Reaches(step, s, u) && step(t) == t && step(u) == u
    ensures t == u
  {
    var n: nat :| RunFor(step, s, n) == t;
    var k: nat :| RunFor(step, s, k) == u;
    RunAdds(step, s, n, k);
    RunAdds(step, s, k, n);
    RunStays(step, t, k);
    RunStays(step, u, n);
  }

  /** A stopped machine stays stopped. */
  lemma {:induction false} RunStays(step: Vm -> Vm, s: Vm, n: nat)
    requires step(s) == s
    ensures RunFor(step, s, n) == s
  {
    if n > 0 { RunStays(step, s, n - 1); }
  }
}
