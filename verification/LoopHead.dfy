/** The parts of a loop that both kinds of for share: making the iterator, the condition, the loop variables. */
module LoopHead {
  import opened Common
  import opened Bytecode
  import opened Ast
  import opened CodeGen
  import opened Machine
  import opened Opcodes
  import opened Simulation

  /** The iterator of loop `id` is object r, just before element i of xs. */
  ghost predicate At(m: Setup, id: nat, s: Vm, r: nat, xs: seq<Value>, i: nat) {
    && s.Vm? && Iter(id) in m.syms && Lookup(s.locals, m.slot(Iter(id))) == Some(VIter(r))
    && r < |s.iters| && i <= |xs| && s.iters[r] == IterState(xs, i - 1)
  }

  lemma HeadPieces(m: Setup, p: nat, id: nat, key: Option<nat>, val: Option<nat>, post: nat)
    requires Holds(m, p, HeadCode(id, key, val, post, m.slot))
    ensures Holds(m, p, I1(GET_LOCAL, m.slot(Iter(id)))) && Holds(m, p + 2, I1(ITER_NEXT, m.slot(StreamElem(id))))
    ensures Holds(m, p + 4, I2(JUMP_IF_FALSE, post)) && Holds(m, p + 7, KeyCode(id, key, m.slot))
    ensures Holds(m, p + 7 + |KeyCode(id, key, m.slot)|, ValCode(id, val, m.slot))
  {
    HoldsFive(m, p, I1(GET_LOCAL, m.slot(Iter(id))), I1(ITER_NEXT, m.slot(StreamElem(id))), I2(JUMP_IF_FALSE, post),
      KeyCode(id, key, m.slot), ValCode(id, val, m.slot));
  }

  /** Without a free slot the condition stops the machine. */
  lemma ConditionFaults(
      m: Setup, id: nat, key: Option<nat>, val: Option<nat>, post: nat, s: Vm, r: nat, xs: seq<Value>, i: nat)
    requires Good(m) && At(m, id, s, r, xs, i) && Holds(m, s.ip, HeadCode(id, key, val, post, m.slot))
    requires |s.stack| >= m.prog.room
    ensures Reaches(m.step, s, Fault)
  {
    HeadPieces(m, s.ip, id, key, val, post);
    DoGetLocal(m, s, Iter(id));
  }

  /** The condition: past the last element it leaves for `post`, otherwise it moves the iterator. */
  lemma ConditionRuns(
      m: Setup, id: nat, key: Option<nat>, val: Option<nat>, post: nat, s: Vm, r: nat, xs: seq<Value>, i: nat)
    requires Good(m) && At(m, id, s, r, xs, i) && post < 65536 && |s.stack| < m.prog.room
    requires Holds(m, s.ip, HeadCode(id, key, val, post, m.slot))
    ensures Reaches(m.step, s,
              if i == |xs| then s.(ip := post) else s.(ip := s.ip + 7, iters := s.iters[r := IterState(xs, i)]))
  {
    HeadPieces(m, s.ip, id, key, val, post);
    DoGetLocal(m, s, Iter(id));
    var s1 := Push(s, 2, VIter(r));
    DoIterNext(m, s1, m.slot(StreamElem(id)), s.stack, r);
    var more := i < |xs|;
    var iters := if more then s.iters[r := IterState(xs, i)] else s.iters;
    var s2 := s.(ip := s.ip + 4, stack := s.stack + [VBool(more)], iters := iters);
    Then(m.step, s, s1, s2);
    DoJumpIfFalse(m, s2, post, s.stack, VBool(more));
    Then(m.step, s, s2, s2.(ip := if more then s.ip + 7 else post, stack := s.stack));
  }

  lemma KeyRuns(m: Setup, id: nat, key: Option<nat>, s: Vm, r: nat, xs: seq<Value>, i: nat, env: Env) returns (t: Vm)
    requires Good(m) && At(m, id, s, r, xs, i + 1) && Vars(key) <= m.syms && |s.stack| < m.prog.room
    requires Holds(m, s.ip, KeyCode(id, key, m.slot)) && Sim(m, env, s.locals)
    ensures Moved(m, s, t, s.ip + |KeyCode(id, key, m.slot)|, s.stack, Bind(env, key, VInt(i)), {})
    ensures t.iters == s.iters
  {
    if key.None? {
      t := s;
      Stays(m.step, s);
    } else {
      var y := User(key.value);
      var a, b, d := I1(GET_LOCAL, m.slot(Iter(id))), I0(ITER_KEY), I1(SET_LOCAL, m.slot(y));
      HoldsSplit(m, s.ip, a + b, d);
      HoldsSplit(m, s.ip, a, b);
      DoGetLocal(m, s, Iter(id));
      var s1 := Push(s, 2, VIter(r));
      DoIterKey(m, s1, s.stack, r);
      var s2 := s.(ip := s.ip + 3, stack := s.stack + [VInt(i)]);
      Then(m.step, s, s1, s2);
      DoSetLocal(m, s2, y, s.stack, VInt(i));
      t := s.(ip := s.ip + 5, locals := s.locals[m.slot(y) := VInt(i)]);
      Then(m.step, s, s2, t);
      SimAssign(m, env, s.locals, y, VInt(i));
    }
  }

  lemma ValRuns(m: Setup, id: nat, val: Option<nat>, s: Vm, r: nat, xs: seq<Value>, i: nat, env: Env) returns (t: Vm)
    requires Good(m) && At(m, id, s, r, xs, i + 1) && Vars(val) <= m.syms && |s.stack| < m.prog.room
    requires Holds(m, s.ip, ValCode(id, val, m.slot)) && Sim(m, env, s.locals)
    ensures Moved(m, s, t, s.ip + |ValCode(id, val, m.slot)|, s.stack, Bind(env, val, xs[i]), {})
    ensures t.iters == s.iters
  {
    if val.None? {
      t := s;
      Stays(m.step, s);
    } else {
      var y := User(val.value);
      var a, b, d := I1(GET_LOCAL, m.slot(Iter(id))), I1(ITER_VALUE, m.slot(StreamElem(id))), I1(SET_LOCAL, m.slot(y));
      HoldsSplit(m, s.ip, a + b, d);
      HoldsSplit(m, s.ip, a, b);
      DoGetLocal(m, s, Iter(id));
      var s1 := Push(s, 2, VIter(r));
      DoIterValue(m, s1, m.slot(StreamElem(id)), s.stack, r);
      var s2 := s.(ip := s.ip + 4, stack := s.stack + [xs[i]]);
      Then(m.step, s, s1, s2);
      DoSetLocal(m, s2, y, s.stack, xs[i]);
      t := s.(ip := s.ip + 6, locals := s.locals[m.slot(y) := xs[i]]);
      Then(m.step, s, s2, t);
      SimAssign(m, env, s.locals, y, xs[i]);
    }
  }

  /** A turn of a loop begins: the iterator moves to element i and the loop variables get it. */
  lemma HeadRuns(
      m: Setup, id: nat, key: Option<nat>, val: Option<nat>, post: nat, s: Vm, r: nat, xs: seq<Value>, i: nat, env: Env)
    returns (t: Vm)
    requires Good(m) && At(m, id, s, r, xs, i) && i < |xs| && post < 65536 && Vars(key) + Vars(val) <= m.syms
    requires Holds(m, s.ip, HeadCode(id, key, val, post, m.slot)) && Sim(m, env, s.locals) && |s.stack| < m.prog.room
    ensures t.Vm? && Reaches(m.step, s, t) && t.ip == s.ip + HeadLen(key, val) && t.stack == s.stack
    ensures t.iters == s.iters[r := IterState(xs, i)] && Keeps(m, s.locals, t.locals, {})
    ensures Sim(m, Bind(Bind(env, key, VInt(i)), val, xs[i]), t.locals)
  {
    HeadPieces(m, s.ip, id, key, val, post);
    ConditionRuns(m, id, key, val, post, s, r, xs, i);
    var s1 := s.(ip := s.ip + 7, iters := s.iters[r := IterState(xs, i)]);
    var t1 := KeyRuns(m, id, key, s1, r, xs, i, env);
    Then(m.step, s, s1, t1);
    t := ValRuns(m, id, val, t1, r, xs, i, Bind(env, key, VInt(i)));
    Then(m.step, s, t1, t);
  }

  /** The iterator is made and stored, if there is something to iterate over. */
  lemma InitRuns(m: Setup, id: nat, s: Vm, rest: seq<Value>, x: Value, env: Env) returns (t: Vm)
    requires Good(m) && s.Vm? && Iter(id) in m.syms && Holds(m, s.ip, InitCode(id, m.slot)) && m.prog.room > 0
    requires s.stack == rest + [x] && Sim(m, env, s.locals)
    ensures if x.VList?
            then Moved(m, s, t, s.ip + 4, rest, env, {Iter(id)}) && At(m, id, t, |s.iters|, x.elems, 0)
            else Faults(m, s, t)
  {
    HoldsSplit(m, s.ip, I1(ITER_INIT, 0), I1(SET_LOCAL, m.slot(Iter(id))));
    DoIterInit(m, s, rest, x);
    if !x.VList? { return Fault; }
    var r := |s.iters|;
    var s1 := Iterating(s, rest, x.elems);
    DoSetLocal(m, s1, Iter(id), rest, VIter(r));
    t := s1.(ip := s1.ip + 2, stack := rest, locals := s1.locals[m.slot(Iter(id)) := VIter(r)]);
    Then(m.step, s, s1, t);
    SimAssign(m, env, s.locals, Iter(id), VIter(r));
  }

  // ---- Counting the values of a for expression ----

  /** The length local holds the number of pending body values. */
  ghost predicate Counts(m: Setup, id: nat, s: Vm, n: nat) {
    s.Vm? && Length(id) in m.syms && Lookup(s.locals, m.slot(Length(id))) == Some(VInt(n))
  }

  lemma CountPieces(m: Setup, p: nat, id: nat, one: nat)
    requires Holds(m, p, CountCode(id, one, m.slot))
    ensures Holds(m, p, I1(GET_LOCAL, m.slot(Length(id)))) && Holds(m, p + 2, I2(PUSH_CONST, one))
    ensures Holds(m, p + 5, I1(INT_BIN, ADD)) && Holds(m, p + 7, I1(SET_LOCAL, m.slot(Length(id))))
  {
    var a, b, d := I1(GET_LOCAL, m.slot(Length(id))), I2(PUSH_CONST, one), I1(INT_BIN, ADD);
    HoldsSplit(m, p, a + b + d, I1(SET_LOCAL, m.slot(Length(id))));
    HoldsSplit(m, p, a + b, d);
    HoldsSplit(m, p, a, b);
  }

  lemma CountFaults(m: Setup, id: nat, one: nat, s: Vm, n: nat)
    requires Good(m) && Counts(m, id, s, n) && Holds(m, s.ip, CountCode(id, one, m.slot))
    requires HasConsts(m, one, [VInt(1)]) && |s.stack| + 2 > m.prog.room
    ensures Reaches(m.step, s, Fault)
  {
    CountPieces(m, s.ip, id, one);
    DoGetLocal(m, s, Length(id));
    if |s.stack| < m.prog.room {
      var s1 := Push(s, 2, VInt(n));
      DoPushConst(m, s1, one);
      Then(m.step, s, s1, Fault);
    }
  }

  lemma CountRuns(m: Setup, id: nat, one: nat, s: Vm, n: nat, env: Env) returns (t: Vm)
    requires Good(m) && Counts(m, id, s, n) && Holds(m, s.ip, CountCode(id, one, m.slot))
    requires HasConsts(m, one, [VInt(1)]) && Sim(m, env, s.locals) && |s.stack| + 2 <= m.prog.room
    ensures Moved(m, s, t, s.ip + 9, s.stack, env, {Length(id)}) && Counts(m, id, t, n + 1) && t.iters == s.iters
    ensures forall y :: y in m.syms && y != Length(id) ==> Lookup(t.locals, m.slot(y)) == Lookup(s.locals, m.slot(y))
  {
    CountPieces(m, s.ip, id, one);
    DoGetLocal(m, s, Length(id));
    var s1 := Push(s, 2, VInt(n));
    DoPushConst(m, s1, one);
    assert m.prog.consts[one] == m.prog.consts[one..one + 1][0] == VInt(1);
    var s2 := Push(s1, 3, VInt(1));
    Then(m.step, s, s1, s2);
    DoAdd(m, s2, s.stack, n, 1);
    var s3 := s.(ip := s.ip + 7, stack := s.stack + [VInt(n + 1)]);
    Then(m.step, s, s2, s3);
    DoSetLocal(m, s3, Length(id), s.stack, VInt(n + 1));
    t := s.(ip := s.ip + 9, locals := s.locals[m.slot(Length(id)) := VInt(n + 1)]);
    Then(m.step, s, s3, t);
    SimAssign(m, env, s.locals, Length(id), VInt(n + 1));
  }

  lemma ZeroRuns(m: Setup, id: nat, zero: nat, s: Vm, env: Env) returns (t: Vm)
    requires Good(m) && s.Vm? && Length(id) in m.syms && Holds(m, s.ip, ZeroCode(id, zero, m.slot))
    requires HasConsts(m, zero, [VInt(0)]) && Sim(m, env, s.locals) && |s.stack| < m.prog.room
    ensures Moved(m, s, t, s.ip + 5, s.stack, env, {Length(id)}) && Counts(m, id, t, 0) && t.iters == s.iters
  {
    HoldsSplit(m, s.ip, I2(PUSH_CONST, zero), I1(SET_LOCAL, m.slot(Length(id))));
    DoPushConst(m, s, zero);
    assert m.prog.consts[zero] == m.prog.consts[zero..zero + 1][0] == VInt(0);
    var s1 := Push(s, 3, VInt(0));
    DoSetLocal(m, s1, Length(id), s.stack, VInt(0));
    t := s.(ip := s.ip + 5, locals := s.locals[m.slot(Length(id)) := VInt(0)]);
    Then(m.step, s, s1, t);
    SimAssign(m, env, s.locals, Length(id), VInt(0));
  }
}
