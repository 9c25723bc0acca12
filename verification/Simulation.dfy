/** How states of the machine relate to evaluation, and how moves of the machine compose. */
module Simulation {
  import opened Common
  import opened Bytecode
  import opened Ast
  import opened CodeGen
  import opened Machine
  import opened ShortCircuit
  import opened View
  import opened Meaning
  import opened Opcodes

  ghost predicate HasConsts(m: Setup, c: nat, vs: seq<Value>) {
    c + |vs| <= |m.prog.consts| && m.prog.consts[c..c + |vs|] == vs
  }

  lemma ConstsSplit(m: Setup, c: nat, a: seq<Value>, b: seq<Value>)
    requires HasConsts(m, c, a + b)
    ensures HasConsts(m, c, a) && HasConsts(m, c + |a|, b)
  {
    var k := m.prog.consts;
    assert k[c..c + |a|] == k[c..c + |a + b|][..|a|] == a;
    assert k[c + |a|..c + |a| + |b|] == k[c..c + |a + b|][|a|..] == b;
  }

  lemma ConstsThree(m: Setup, c: nat, a: seq<Value>, b: seq<Value>, d: seq<Value>, c1: nat, c2: nat)
    requires HasConsts(m, c, a + b + d) && c1 == c + |a| && c2 == c1 + |b|
    ensures HasConsts(m, c, a) && HasConsts(m, c1, b) && HasConsts(m, c2, d)
  {
    ConstsSplit(m, c, a + b, d);
    ConstsSplit(m, c, a, b);
  }

  lemma ConstsFour(m: Setup, c: nat, a: seq<Value>, x: Value, y: Value, b: seq<Value>)
    requires HasConsts(m, c, a + [x] + [y] + b)
    ensures HasConsts(m, c, a) && HasConsts(m, c + |a|, [x])
    ensures HasConsts(m, c + |a| + 1, [y]) && HasConsts(m, c + |a| + 2, b)
  {
    ConstsSplit(m, c, a + [x] + [y], b);
    ConstsSplit(m, c, a + [x], [y]);
    ConstsSplit(m, c, a, [x]);
  }

  lemma HoldsFive(m: Setup, p: nat, a: bytes, b: bytes, c: bytes, d: bytes, e: bytes)
    requires Holds(m, p, a + b + c + d + e)
    ensures Holds(m, p, a) && Holds(m, p + |a|, b) && Holds(m, p + |a| + |b|, c)
    ensures Holds(m, p + |a| + |b| + |c|, d) && Holds(m, p + |a| + |b| + |c| + |d|, e)
  {
    HoldsSplit(m, p, a + b + c + d, e);
    HoldsSplit(m, p, a + b + c, d);
    HoldsSplit(m, p, a + b, c);
    HoldsSplit(m, p, a, b);
  }

  /** A good setup whose function values are the generator's and the evaluator's. */
  ghost predicate Linked(m: Setup) {
    Good(m) && IsView(m.view, m.slot) && IsSem(m.sem)
  }

  /** Every variable that has a value has it in its slot. */
  ghost predicate Sim(m: Setup, env: Env, locals: map<nat, Value>) {
    forall x :: x in env ==>
      User(x) in m.syms && m.slot(User(x)) in locals && locals[m.slot(User(x))] == env[x]
  }

  /** Hidden locals other than those of the code that ran are as before. */
  ghost predicate Keeps(m: Setup, a: map<nat, Value>, b: map<nat, Value>, used: set<Sym>) {
    forall y :: y in m.syms && Hidden(y) && y !in used ==> Lookup(a, m.slot(y)) == Lookup(b, m.slot(y))
  }

  /** The first n iterator objects are as before. */
  predicate Grows(a: seq<IterState>, b: seq<IterState>, n: nat) {
    n <= |a| <= |b| && a[..n] == b[..n]
  }

  ghost predicate Moved(m: Setup, s: Vm, t: Vm, ip: nat, stack: seq<Value>, env: Env, used: set<Sym>) {
    && s.Vm? && t.Vm? && Reaches(m.step, s, t) && t.ip == ip && t.stack == stack
    && Sim(m, env, t.locals) && Keeps(m, s.locals, t.locals, used) && Grows(s.iters, t.iters, |s.iters|)
  }

  ghost predicate Faults(m: Setup, s: Vm, t: Vm) {
    t == Fault && Reaches(m.step, s, Fault)
  }

  /** The run succeeds and its peak fits above the values on the stack. */
  predicate HasRoom<T>(m: Setup, s: Vm, r: Run<T>) {
    s.Vm? && r.Ran? && |s.stack| + r.peak <= m.prog.room
  }

  lemma MovedThen(
      m: Setup, s: Vm, t: Vm, u: Vm, ip: nat, stack: seq<Value>, env: Env, env': Env,
      a: set<Sym>, b: set<Sym>, used: set<Sym>)
    requires s.Vm? && t.Vm? && Moved(m, s, t, t.ip, t.stack, env, a) && Moved(m, t, u, ip, stack, env', b)
    requires a <= used && b <= used
    ensures Moved(m, s, u, ip, stack, env', used)
  {
    Then(m.step, s, t, u);
    assert u.iters[..|s.iters|] == u.iters[..|t.iters|][..|s.iters|];
  }

  /** A step that leaves locals and iterators alone. */
  lemma PlainMove(m: Setup, s: Vm, t: Vm, env: Env)
    requires s.Vm? && t.Vm? && Reaches(m.step, s, t) && t.locals == s.locals && t.iters == s.iters
    requires Sim(m, env, s.locals)
    ensures Moved(m, s, t, t.ip, t.stack, env, {})
  {
  }

  lemma MovedWider(m: Setup, s: Vm, t: Vm, ip: nat, stack: seq<Value>, env: Env, a: set<Sym>, used: set<Sym>)
    requires Moved(m, s, t, ip, stack, env, a) && a <= used
    ensures Moved(m, s, t, ip, stack, env, used)
  {
  }

  lemma SimAssign(m: Setup, env: Env, locals: map<nat, Value>, y: Sym, v: Value)
    requires Good(m) && Sim(m, env, locals) && y in m.syms
    ensures y.User? ==> Sim(m, env[y.x := v], locals[m.slot(y) := v]) && Keeps(m, locals, locals[m.slot(y) := v], {})
    ensures !y.User? ==> Sim(m, env, locals[m.slot(y) := v]) && Keeps(m, locals, locals[m.slot(y) := v], {y})
  {
  }
}
