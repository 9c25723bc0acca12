/** Running the code of statements: the stack is as before and the store as short-circuit execution leaves it. */
module StmtCorrect {
  import opened Common
  import opened Bytecode
  import opened Ast
  import opened CodeGen
  import opened Machine
  import opened ShortCircuit
  import opened View
  import opened StmtView
  import opened Meaning
  import opened Opcodes
  import opened Simulation
  import opened LoopHead
  import opened ExprCorrect

  ghost predicate Bound(m: Setup) {
    Linked(m) && IsSView(m.sview, m.slot) && IsSSem(m.ssem)
  }

  /** Where control is after a statement that ends at `end`, in a loop with the given targets. */
  function Target(x: Exit, end: nat, brk: nat, cont: nat): nat {
    if x == Left then brk else if x == Resumed then cont else end
  }

  ghost predicate OnePlaced(m: Setup, s: Stmt, p: nat, c: nat, brk: nat, cont: nat) {
    && m.ssem.ok1(s) && m.ssem.used1(s) <= m.syms && brk < 65536 && cont < 65536
    && Holds(m, p, m.sview.one(s, p, c, brk, cont)) && HasConsts(m, c, m.sview.consts1(s))
  }

  ghost predicate AllPlaced(m: Setup, ss: seq<Stmt>, p: nat, c: nat, brk: nat, cont: nat) {
    && m.ssem.ok(ss) && m.ssem.used(ss) <= m.syms && brk < 65536 && cont < 65536
    && Holds(m, p, m.sview.all(ss, p, c, brk, cont)) && HasConsts(m, c, m.sview.consts(ss))
  }

  ghost predicate OneReady(m: Setup, s: Stmt, c: nat, brk: nat, cont: nat, env: Env, a: Vm) {
    && Bound(m) && a.Vm? && OnePlaced(m, s, a.ip, c, brk, cont) && Sim(m, env, a.locals)
    && |a.stack| <= m.prog.room
  }

  ghost predicate AllReady(m: Setup, ss: seq<Stmt>, c: nat, brk: nat, cont: nat, env: Env, a: Vm) {
    && Bound(m) && a.Vm? && AllPlaced(m, ss, a.ip, c, brk, cont) && Sim(m, env, a.locals)
    && |a.stack| <= m.prog.room
  }

  /**
   * The outcome o of statements whose code ends at `end`: the stack as it was and control where the exit says, or a
   * stopped machine. Nothing is said when a variable without a value is read.
   */
  ghost predicate Comes(m: Setup, a: Vm, t: Vm, o: Run<Exit>, end: nat, brk: nat, cont: nat, used: set<Sym>) {
    a.Vm? && (o.Unbound? ||
              if HasRoom(m, a, o) then Moved(m, a, t, Target(o.v, end, brk, cont), a.stack, o.env, used)
              else Faults(m, a, t))
  }

  ghost predicate OneGoes(m: Setup, s: Stmt, brk: nat, cont: nat, env: Env, a: Vm, t: Vm) {
    a.Vm? && Comes(m, a, t, m.ssem.exec(s, env), a.ip + m.sview.len1(s), brk, cont, m.ssem.used1(s))
  }

  ghost predicate AllGo(m: Setup, ss: seq<Stmt>, brk: nat, cont: nat, env: Env, a: Vm, t: Vm) {
    a.Vm? && Comes(m, a, t, m.ssem.execAll(ss, env), a.ip + m.sview.len(ss), brk, cont, m.ssem.used(ss))
  }

  /** A statement leaves the stack alone and ends at its end, at the break target or at the continue target. */
  lemma {:induction false} StmtRuns(
      m: Setup, s: Stmt, c: nat, brk: nat, cont: nat, env: Env, a: Vm) returns (t: Vm)
    requires OneReady(m, s, c, brk, cont, env, a)
    ensures OneGoes(m, s, brk, cont, env, a, t)
    decreases s, 4, 0
  {
    match s
    case If(_, _, _, _) => t := IfStmtRuns(m, s, c, brk, cont, env, a);
    case For(_, _, _, _, _) => t := ForStmtRuns(m, s, c, brk, cont, env, a);
    case Break => t := LeaveRuns(m, s, c, brk, cont, env, a);
    case Continue => t := LeaveRuns(m, s, c, brk, cont, env, a);
    case _ => t := SimpleRuns(m, s, c, brk, cont, env, a);
  }

  lemma LeaveRuns(m: Setup, s: Stmt, c: nat, brk: nat, cont: nat, env: Env, a: Vm) returns (t: Vm)
    requires OneReady(m, s, c, brk, cont, env, a) && (s.Break? || s.Continue?)
    ensures OneGoes(m, s, brk, cont, env, a, t)
  {
    LeaveShape(m.sview, m.slot, s, a.ip, c, brk, cont);
    LeaveExec(m.ssem, s, env);
    DoJump(m, a, if s.Break? then brk else cont);
    t := a.(ip := if s.Break? then brk else cont);
    PlainMove(m, a, t, env);
  }

  lemma SimplePlaced(m: Setup, s: Stmt, p: nat, c: nat, brk: nat, cont: nat)
    requires Bound(m) && OnePlaced(m, s, p, c, brk, cont) && (s.Do? || s.Assign?)
    ensures Placed(m, s.e, p, c) && Holds(m, p + m.view.len(s.e), Tail(s, m.slot))
            && (s.Assign? ==> User(s.x) in m.syms)
    ensures m.sview.len1(s) == m.view.len(s.e) + |Tail(s, m.slot)| && m.sem.used(s.e) <= m.ssem.used1(s)
  {
    SimpleShape(m.view, m.sview, m.slot, s, p, c, brk, cont);
    SimpleUses(m.sem, m.ssem, s);
    HoldsSplit(m, p, m.view.code(s.e, p, c), Tail(s, m.slot));
  }

  lemma SimpleRuns(m: Setup, s: Stmt, c: nat, brk: nat, cont: nat, env: Env, a: Vm) returns (t: Vm)
    requires OneReady(m, s, c, brk, cont, env, a) && (s.Do? || s.Assign?)
    ensures OneGoes(m, s, brk, cont, env, a, t)
  {
    SimplePlaced(m, s, a.ip, c, brk, cont);
    SimpleExec(m.sem, m.ssem, s, env);
    var r := m.sem.eval(s.e, env);
    t := ExprRuns(m, s.e, c, env, a);
    if HasRoom(m, a, r) {
      var u := TailRuns(m, s, t, a.stack, r.v, r.env);
      MovedThen(m, a, t, u, u.ip, u.stack, r.env, m.ssem.exec(s, env).env, m.sem.used(s.e), {}, m.ssem.used1(s));
      t := u;
    }
  }

  /** The value is dropped or stored. */
  lemma TailRuns(m: Setup, s: Stmt, a: Vm, rest: seq<Value>, x: Value, env: Env) returns (t: Vm)
    requires Good(m) && (s.Do? || s.Assign?) && a.Vm? && Holds(m, a.ip, Tail(s, m.slot)) && m.prog.room > 0
    requires a.stack == rest + [x] && Sim(m, env, a.locals) && (s.Assign? ==> User(s.x) in m.syms)
    ensures Moved(m, a, t, a.ip + |Tail(s, m.slot)|, rest, if s.Assign? then env[s.x := x] else env, {})
  {
    if s.Do? {
      DoPop(m, a, rest, x);
      t := a.(ip := a.ip + 1, stack := rest);
      PlainMove(m, a, t, env);
    } else {
      DoSetLocal(m, a, User(s.x), rest, x);
      t := a.(ip := a.ip + 2, stack := rest, locals := a.locals[m.slot(User(s.x)) := x]);
      SimAssign(m, env, a.locals, User(s.x), x);
    }
  }

  // ---- Sequences ----

  lemma ConsPlaced(m: Setup, ss: seq<Stmt>, p: nat, c: nat, brk: nat, cont: nat)
    requires Bound(m) && AllPlaced(m, ss, p, c, brk, cont) && ss != []
    ensures OnePlaced(m, ss[0], p, c, brk, cont)
    ensures AllPlaced(m, ss[1..], p + m.sview.len1(ss[0]), c + |m.sview.consts1(ss[0])|, brk, cont)
    ensures m.sview.len(ss) == m.sview.len1(ss[0]) + m.sview.len(ss[1..])
  {
    AllShape(m.sview, m.slot, ss, p, c, brk, cont);
    AllRest(m.sview, m.slot, ss);
    AllUses(m.ssem, ss);
    HoldsSplit(m, p, m.sview.one(ss[0], p, c, brk, cont),
      m.sview.all(ss[1..], p + m.sview.len1(ss[0]), c + |m.sview.consts1(ss[0])|, brk, cont));
    ConstsSplit(m, c, m.sview.consts1(ss[0]), m.sview.consts(ss[1..]));
  }

  lemma {:induction false} StmtsRun(
      m: Setup, ss: seq<Stmt>, c: nat, brk: nat, cont: nat, env: Env, a: Vm) returns (t: Vm)
    requires AllReady(m, ss, c, brk, cont, env, a)
    ensures AllGo(m, ss, brk, cont, env, a, t)
    decreases ss, 2, 0
  {
    if ss == [] {
      AllEmpty(m.sview, m.slot);
      EmptyExec(m.ssem, env);
      t := a;
      Stays(m.step, a);
      PlainMove(m, a, t, env);
    } else {
      ConsPlaced(m, ss, a.ip, c, brk, cont);
      AllExec(m.ssem, ss, env);
      AllRest(m.sview, m.slot, ss);
      AllUses(m.ssem, ss);
      var o := m.ssem.exec(ss[0], env);
      t := StmtRuns(m, ss[0], c, brk, cont, env, a);
      if HasRoom(m, a, o) {
        MovedWider(m, a, t, t.ip, t.stack, o.env, m.ssem.used1(ss[0]), m.ssem.used(ss));
        if o.v == Ended {
          var u := StmtsRun(m, ss[1..], c + |m.sview.consts1(ss[0])|, brk, cont, o.env, t);
          Comeback(m, a, t, u, o.peak, o.env, m.ssem.execAll(ss[1..], o.env), a.ip + m.sview.len(ss), brk, cont,
            m.ssem.used(ss[1..]), m.ssem.used(ss));
          t := u;
        }
      }
    }
  }

  /** First what left the stack as it was, then more. */
  lemma Comeback(
      m: Setup, a: Vm, t: Vm, u: Vm, peak: nat, env: Env, o: Run<Exit>, end: nat, brk: nat, cont: nat,
      part: set<Sym>, used: set<Sym>)
    requires a.Vm? && t.Vm? && Moved(m, a, t, t.ip, a.stack, env, used) && |a.stack| + peak <= m.prog.room
    requires Comes(m, t, u, o, end, brk, cont, part) && part <= used
    ensures Comes(m, a, u, After(peak, o), end, brk, cont, used)
  {
    if HasRoom(m, t, o) {
      MovedThen(m, a, t, u, u.ip, u.stack, env, o.env, used, part, used);
    } else if !o.Unbound? {
      Then(m.step, a, t, Fault);
    }
  }

  // ---- If ----

  lemma IfHolds(m: Setup, p: nat, x: bytes, j: bytes, y: bytes, alternate: bool, g: bytes, z: bytes, p1: nat, p2: nat)
    requires Holds(m, p, x + j + y + if alternate then g + z else []) && |j| == |g| == 3
    requires p1 == p + |x| + 3 && p2 == p1 + |y| + if alternate then 3 else 0
    ensures Holds(m, p, x) && Holds(m, p1 - 3, j) && Holds(m, p1, y)
            && (alternate ==> p2 >= 3 && Holds(m, p2 - 3, g) && Holds(m, p2, z))
  {
    assert alternate ==> x + j + y + (g + z) == x + j + y + g + z;
    assert !alternate ==> x + j + y + [] == x + j + y + [] + [];
    HoldsFive(m, p, x, j, y, if alternate then g else [], if alternate then z else []);
  }

  lemma IfStmtPlaced(m: Setup, s: Stmt, p: nat, c: nat, brk: nat, cont: nat, p1: nat, p2: nat, c1: nat)
    requires Bound(m) && OnePlaced(m, s, p, c, brk, cont) && s.If?
    requires p1 == p + m.view.len(s.test) + 3 && p2 == p1 + m.sview.len(s.thn) + (if s.alternate then 3 else 0)
             && c1 == c + |m.view.consts(s.test)|
    ensures Placed(m, s.test, p, c) && Holds(m, p1 - 3, I2(JUMP_IF_FALSE, p2)) && AllPlaced(m, s.thn, p1, c1, brk, cont)
    ensures s.alternate ==> p2 >= 3 && Holds(m, p2 - 3, I2(JUMP, p + m.sview.len1(s)))
    ensures s.alternate ==> AllPlaced(m, s.els, p2, c1 + |m.sview.consts(s.thn)|, brk, cont)
    ensures p + m.sview.len1(s) == p2 + (if s.alternate then m.sview.len(s.els) else 0)
            && p + m.sview.len1(s) <= |m.prog.code|
    ensures m.sem.used(s.test) + m.ssem.used(s.thn) + m.ssem.used(s.els) <= m.ssem.used1(s)
  {
    var k := m.view;
    IfStmtShape(k, m.sview, m.slot, s, p, c, brk, cont, p1, p2, c1);
    IfStmtRest(k, m.sview, m.slot, s);
    IfStmtUses(m.sem, m.ssem, s);
    IfHolds(m, p, k.code(s.test, p, c), I2(JUMP_IF_FALSE, p2), m.sview.all(s.thn, p1, c1, brk, cont), s.alternate,
      I2(JUMP, p + m.sview.len1(s)), m.sview.all(s.els, p2, c1 + |m.sview.consts(s.thn)|, brk, cont), p1, p2);
    ConstsSplit(m, c, k.consts(s.test) + m.sview.consts(s.thn), if s.alternate then m.sview.consts(s.els) else []);
    ConstsSplit(m, c, k.consts(s.test), m.sview.consts(s.thn));
  }

  lemma {:induction false} IfStmtRuns(
      m: Setup, s: Stmt, c: nat, brk: nat, cont: nat, env: Env, a: Vm) returns (t: Vm)
    requires OneReady(m, s, c, brk, cont, env, a) && s.If?
    ensures OneGoes(m, s, brk, cont, env, a, t)
    decreases s, 2, 0
  {
    var k := m.view;
    var p1, c1 := a.ip + k.len(s.test) + 3, c + |k.consts(s.test)|;
    var p2 := p1 + m.sview.len(s.thn) + if s.alternate then 3 else 0;
    IfStmtPlaced(m, s, a.ip, c, brk, cont, p1, p2, c1);
    IfStmtExec(m.sem, m.ssem, s, env);
    var r := m.sem.eval(s.test, env);
    t := ExprRuns(m, s.test, c, env, a);
    if !HasRoom(m, a, r) { return; }
    t := Branch(m, a, t, a.stack, r.v, p2, r.env, m.sem.used(s.test));
    if r.v.VBool? { t := ArmComes(m, s, c1, brk, cont, r, a, t, p1, p2); }
  }

  /** What follows the test. */
  lemma {:induction false} ArmComes(
      m: Setup, s: Stmt, c1: nat, brk: nat, cont: nat, r: Run<Value>, a: Vm, u: Vm, p1: nat, p2: nat) returns (t: Vm)
    requires Bound(m) && s.If? && r.Ran? && r.v.VBool? && a.Vm? && u.Vm? && u.ip == (if r.v.b then p1 else p2)
    requires Moved(m, a, u, u.ip, a.stack, r.env, m.sem.used(s.test)) && |a.stack| + r.peak <= m.prog.room
    requires AllPlaced(m, s.thn, p1, c1, brk, cont) && p2 == p1 + m.sview.len(s.thn) + (if s.alternate then 3 else 0)
    requires s.alternate ==> Holds(m, p2 - 3, I2(JUMP, a.ip + m.sview.len1(s)))
    requires s.alternate ==> AllPlaced(m, s.els, p2, c1 + |m.sview.consts(s.thn)|, brk, cont)
    requires a.ip + m.sview.len1(s) == p2 + (if s.alternate then m.sview.len(s.els) else 0)
    requires a.ip + m.sview.len1(s) < 65536
    requires m.sem.used(s.test) + m.ssem.used(s.thn) + m.ssem.used(s.els) <= m.ssem.used1(s)
    ensures var o := if r.v.b then m.ssem.execAll(s.thn, r.env)
                     else if s.alternate then m.ssem.execAll(s.els, r.env) else Ran(Ended, r.env, 0);
            Comes(m, a, t, After(r.peak, o), a.ip + m.sview.len1(s), brk, cont, m.ssem.used1(s))
    decreases s, 1, 0
  {
    MovedWider(m, a, u, u.ip, u.stack, r.env, m.sem.used(s.test), m.ssem.used1(s));
    var arms, end := m.ssem.used(s.thn) + m.ssem.used(s.els), a.ip + m.sview.len1(s);
    var o;
    o, t := ArmRuns(m, s, c1, brk, cont, r, u, p1, p2, end);
    Comeback(m, a, u, t, r.peak, r.env, o, end, brk, cont, arms, m.ssem.used1(s));
  }

  /** The chosen arm, then the join. */
  lemma {:induction false} ArmRuns(
      m: Setup, s: Stmt, c1: nat, brk: nat, cont: nat, r: Run<Value>, u: Vm, p1: nat, p2: nat, end: nat)
    returns (o: Run<Exit>, t: Vm)
    requires Bound(m) && s.If? && r.Ran? && r.v.VBool? && u.Vm? && u.ip == (if r.v.b then p1 else p2)
    requires Sim(m, r.env, u.locals) && |u.stack| <= m.prog.room && end < 65536
    requires AllPlaced(m, s.thn, p1, c1, brk, cont) && p2 == p1 + m.sview.len(s.thn) + (if s.alternate then 3 else 0)
    requires s.alternate ==>
             Holds(m, p2 - 3, I2(JUMP, end)) && AllPlaced(m, s.els, p2, c1 + |m.sview.consts(s.thn)|, brk, cont)
    requires end == p2 + if s.alternate then m.sview.len(s.els) else 0
    ensures o == if r.v.b then m.ssem.execAll(s.thn, r.env)
                 else if s.alternate then m.ssem.execAll(s.els, r.env) else Ran(Ended, r.env, 0)
    ensures Comes(m, u, t, o, end, brk, cont, m.ssem.used(s.thn) + m.ssem.used(s.els))
    decreases s, 0, 0
  {
    var all := m.ssem.used(s.thn) + m.ssem.used(s.els);
    if r.v.b {
      o := m.ssem.execAll(s.thn, r.env);
      t := StmtsRun(m, s.thn, c1, brk, cont, r.env, u);
      if HasRoom(m, u, o) {
        MovedWider(m, u, t, t.ip, t.stack, o.env, m.ssem.used(s.thn), all);
        if s.alternate && o.v == Ended {
          t := Jumps(m, u, t, end, o.env, all);
        }
      }
    } else if s.alternate {
      o := m.ssem.execAll(s.els, r.env);
      t := StmtsRun(m, s.els, c1 + |m.sview.consts(s.thn)|, brk, cont, r.env, u);
      if HasRoom(m, u, o) { MovedWider(m, u, t, t.ip, t.stack, o.env, m.ssem.used(s.els), all); }
    } else {
      o, t := Ran(Ended, r.env, 0), u;
      Stays(m.step, u);
      PlainMove(m, u, t, r.env);
      MovedWider(m, u, t, t.ip, t.stack, r.env, {}, all);
    }
  }

  // ---- For ----

  /** Where the parts of a for statement are; breaks go to pb + 3, continues to pb. */
  datatype LoopAt = LoopAt(pre: nat, p2: nat, pb: nat, c1: nat)

  ghost predicate LoopParts(m: Setup, s: Stmt, l: LoopAt)
    requires s.For?
  {
    && l.pb + 3 <= |m.prog.code| && {Iter(s.id), StreamElem(s.id)} + Vars(s.key) + Vars(s.val) <= m.syms
      && Iter(s.id) !in m.ssem.used(s.body)
    && l.p2 == l.pre + HeadLen(s.key, s.val) && l.pb == l.p2 + m.sview.len(s.body)
    && Holds(m, l.pre, HeadCode(s.id, s.key, s.val, l.pb + 3, m.slot))
      && AllPlaced(m, s.body, l.p2, l.c1, l.pb + 3, l.pb)
    && Holds(m, l.pb, I2(JUMP, l.pre))
  }

  lemma LoopHolds(m: Setup, p: nat, x: bytes, n: bytes, h: bytes, y: bytes, j: bytes, pre: nat, p2: nat, pb: nat)
    requires Holds(m, p, x + n + h + y + j) && pre == p + |x| + |n| && p2 == pre + |h| && pb == p2 + |y|
    ensures Holds(m, p, x) && Holds(m, p + |x|, n) && Holds(m, pre, h) && Holds(m, p2, y) && Holds(m, pb, j)
  {
    HoldsFive(m, p, x, n, h, y, j);
  }

  /** The layout of a for statement at p. */
  predicate IsLoopAt(m: Setup, s: Stmt, p: nat, c: nat, l: LoopAt)
    requires s.For?
  {
    && l.pre == p + m.view.len(s.iter) + 4 && l.p2 == l.pre + HeadLen(s.key, s.val)
    && l.pb == l.p2 + m.sview.len(s.body) && l.c1 == c + |m.view.consts(s.iter)|
  }

  lemma LoopCode(m: Setup, s: Stmt, p: nat, c: nat, brk: nat, cont: nat, l: LoopAt)
    requires IsView(m.view, m.slot) && IsSView(m.sview, m.slot) && s.For? && IsLoopAt(m, s, p, c, l)
    requires Holds(m, p, m.sview.one(s, p, c, brk, cont)) && HasConsts(m, c, m.sview.consts1(s))
    ensures Holds(m, p, m.view.code(s.iter, p, c)) && Holds(m, l.pre - 4, InitCode(s.id, m.slot))
    ensures Holds(m, l.pre, HeadCode(s.id, s.key, s.val, l.pb + 3, m.slot)) && Holds(m, l.pb, I2(JUMP, l.pre))
    ensures Holds(m, l.p2, m.sview.all(s.body, l.p2, l.c1, l.pb + 3, l.pb))
    ensures HasConsts(m, c, m.view.consts(s.iter)) && HasConsts(m, l.c1, m.sview.consts(s.body))
    ensures m.sview.len1(s) == l.pb + 3 - p
  {
    ForStmtShape(m.view, m.sview, m.slot, s, p, c, brk, cont, l.pre, l.p2, l.pb, l.c1);
    ForStmtRest(m.view, m.sview, m.slot, s);
    LoopHolds(m, p, m.view.code(s.iter, p, c), InitCode(s.id, m.slot),
      HeadCode(s.id, s.key, s.val, l.pb + 3, m.slot), m.sview.all(s.body, l.p2, l.c1, l.pb + 3, l.pb), I2(JUMP, l.pre),
      l.pre, l.p2, l.pb);
    ConstsSplit(m, c, m.view.consts(s.iter), m.sview.consts(s.body));
  }

  lemma LoopPlaced(m: Setup, s: Stmt, p: nat, c: nat, brk: nat, cont: nat, l: LoopAt)
    requires Bound(m) && OnePlaced(m, s, p, c, brk, cont) && s.For? && IsLoopAt(m, s, p, c, l)
    ensures Placed(m, s.iter, p, c) && Holds(m, l.pre - 4, InitCode(s.id, m.slot)) && LoopParts(m, s, l)
    ensures m.sview.len1(s) == l.pb + 3 - p
    ensures m.sem.used(s.iter) + {Iter(s.id)} + m.ssem.used(s.body) <= m.ssem.used1(s)
  {
    LoopCode(m, s, p, c, brk, cont, l);
    ForStmtUses(m.sem, m.ssem, s);
  }

  /** At the loop condition, the iterator r being before element i. */
  ghost predicate Turning(m: Setup, s: Stmt, l: LoopAt, a: Vm, r: nat, xs: seq<Value>, i: nat, env: Env) {
    Bound(m) && s.For? && LoopParts(m, s, l) && At(m, s.id, a, r, xs, i) && a.ip == l.pre && Sim(m, env, a.locals)
  }

  /** What turns of the loop may change. */
  ghost predicate Turned(m: Setup, s: Stmt, a: Vm, t: Vm, r: nat) {
    && s.For? && a.Vm? && t.Vm? && Reaches(m.step, a, t) && Grows(a.iters, t.iters, r) && t.stack == a.stack
    && Keeps(m, a.locals, t.locals, {Iter(s.id)} + m.ssem.used(s.body))
  }

  lemma TurnedThen(m: Setup, s: Stmt, a: Vm, t: Vm, u: Vm, r: nat)
    requires Turned(m, s, a, t, r) && Turned(m, s, t, u, r)
    ensures Turned(m, s, a, u, r)
  {
    Then(m.step, a, t, u);
  }

  lemma BodyDone(m: Setup, s: Stmt, a: Vm, a1: Vm, a2: Vm, r: nat, xs: seq<Value>, i: nat, ip: nat, env: Env)
    requires s.For? && a.Vm? && a1.Vm? && r < |a.iters| && Reaches(m.step, a, a1)
             && a1.iters == a.iters[r := IterState(xs, i)]
    requires a1.stack == a.stack && Keeps(m, a.locals, a1.locals, {}) && Iter(s.id) in m.syms
             && Iter(s.id) !in m.ssem.used(s.body) && i < |xs|
    requires Lookup(a.locals, m.slot(Iter(s.id))) == Some(VIter(r))
             && Moved(m, a1, a2, ip, a1.stack, env, m.ssem.used(s.body))
    ensures Turned(m, s, a, a2, r) && At(m, s.id, a2, r, xs, i + 1)
  {
    Then(m.step, a, a1, a2);
    assert a2.iters[r] == a2.iters[..|a1.iters|][r];
    assert a2.iters[..r] == a2.iters[..|a1.iters|][..r];
  }

  /** A turn that ended: past the loop after a break, otherwise back at the condition. */
  ghost predicate TurnOver(
    m: Setup, s: Stmt, l: LoopAt, a: Vm, t: Vm, r: nat, xs: seq<Value>, i: nat, o: Run<Exit>)
  {
    && o.Ran? && Turned(m, s, a, t, r) && Sim(m, o.env, t.locals)
    && if o.v == Left then t.ip == l.pb + 3 else Turning(m, s, l, t, r, xs, i + 1, o.env)
  }

  lemma {:induction false} TurnRuns(
      m: Setup, s: Stmt, l: LoopAt, a: Vm, r: nat, xs: seq<Value>, i: nat, env: Env, o: Run<Exit>)
    returns (t: Vm)
    requires Turning(m, s, l, a, r, xs, i, env) && i < |xs| && |a.stack| < m.prog.room
    requires o == m.ssem.execAll(s.body, Bind(Bind(env, s.key, VInt(i)), s.val, xs[i]))
    ensures o.Unbound? || if HasRoom(m, a, o) then TurnOver(m, s, l, a, t, r, xs, i, o) else Faults(m, a, t)
    decreases s, 0, 0
  {
    var bound := Bind(Bind(env, s.key, VInt(i)), s.val, xs[i]);
    var a1 := HeadRuns(m, s.id, s.key, s.val, l.pb + 3, a, r, xs, i, env);
    t := StmtsRun(m, s.body, l.c1, l.pb + 3, l.pb, bound, a1);
    if HasRoom(m, a1, o) {
      BodyDone(m, s, a, a1, t, r, xs, i, t.ip, o.env);
      if o.v != Left {
        DoJump(m, t, l.pre);
        Then(m.step, a, t, t.(ip := l.pre));
        t := t.(ip := l.pre);
      }
    } else if !o.Unbound? {
      Then(m.step, a, a1, Fault);
    }
  }

  /** The loop is over. */
  ghost predicate LoopOver(m: Setup, s: Stmt, l: LoopAt, a: Vm, t: Vm, r: nat, env: Env) {
    Turned(m, s, a, t, r) && t.ip == l.pb + 3 && Sim(m, env, t.locals)
  }

  lemma {:induction false} TurnsRun(
      m: Setup, s: Stmt, l: LoopAt, a: Vm, r: nat, xs: seq<Value>, i: nat, env: Env, o: Run<Exit>)
    returns (t: Vm)
    requires Turning(m, s, l, a, r, xs, i, env) && o == m.ssem.each(s.key, s.val, s.body, xs, i, env)
    ensures o.Unbound? || if HasRoom(m, a, o) then LoopOver(m, s, l, a, t, r, o.env) else Faults(m, a, t)
    decreases s, 1, |xs| - i, 1
  {
    EachExec(m.ssem, s.key, s.val, s.body, xs, i, env);
    if |a.stack| >= m.prog.room || i == |xs| {
      t := LoopLeaves(m, s, l, a, r, xs, i, env);
    } else {
      var o1 := m.ssem.execAll(s.body, Bind(Bind(env, s.key, VInt(i)), s.val, xs[i]));
      t := TurnAndRest(m, s, l, a, r, xs, i, env, o1);
    }
  }

  /** A turn that runs o1, and the turns after it. */
  lemma {:induction false} TurnAndRest(
      m: Setup, s: Stmt, l: LoopAt, a: Vm, r: nat, xs: seq<Value>, i: nat, env: Env, o1: Run<Exit>)
    returns (t: Vm)
    requires Turning(m, s, l, a, r, xs, i, env) && i < |xs| && |a.stack| < m.prog.room
    requires o1 == m.ssem.execAll(s.body, Bind(Bind(env, s.key, VInt(i)), s.val, xs[i]))
    ensures var o := if !o1.Ran? then o1 else if o1.v == Left then Ran(Ended, o1.env, Max(1, o1.peak))
                     else After(Max(1, o1.peak), m.ssem.each(s.key, s.val, s.body, xs, i + 1, o1.env));
            o.Unbound? || if HasRoom(m, a, o) then LoopOver(m, s, l, a, t, r, o.env) else Faults(m, a, t)
    decreases s, 1, |xs| - i, 0
  {
    t := TurnRuns(m, s, l, a, r, xs, i, env, o1);
    if HasRoom(m, a, o1) && o1.v != Left {
      var rest := m.ssem.each(s.key, s.val, s.body, xs, i + 1, o1.env);
      var u := TurnsRun(m, s, l, t, r, xs, i + 1, o1.env, rest);
      TurnsJoin(m, s, l, a, t, u, r, rest);
      t := u;
    }
  }

  /** At the condition without a free slot, or after the last element. */
  lemma LoopLeaves(m: Setup, s: Stmt, l: LoopAt, a: Vm, r: nat, xs: seq<Value>, i: nat, env: Env)
    returns (t: Vm)
    requires Turning(m, s, l, a, r, xs, i, env) && (|a.stack| >= m.prog.room || i == |xs|)
    ensures if |a.stack| >= m.prog.room then Faults(m, a, t) else LoopOver(m, s, l, a, t, r, env)
  {
    if |a.stack| >= m.prog.room {
      ConditionFaults(m, s.id, s.key, s.val, l.pb + 3, a, r, xs, i);
      return Fault;
    }
    ConditionRuns(m, s.id, s.key, s.val, l.pb + 3, a, r, xs, i);
    t := a.(ip := l.pb + 3);
  }

  lemma TurnsJoin(m: Setup, s: Stmt, l: LoopAt, a: Vm, t: Vm, u: Vm, r: nat, rest: Run<Exit>)
    requires Turned(m, s, a, t, r)
    requires rest.Unbound? || if HasRoom(m, t, rest) then LoopOver(m, s, l, t, u, r, rest.env) else Faults(m, t, u)
    ensures rest.Unbound? || if HasRoom(m, a, rest) then LoopOver(m, s, l, a, u, r, rest.env) else Faults(m, a, u)
  {
    if HasRoom(m, t, rest) {
      TurnedThen(m, s, a, t, u, r);
    } else if !rest.Unbound? {
      Then(m.step, a, t, Fault);
    }
  }

  lemma {:induction false} ForStmtRuns(
      m: Setup, s: Stmt, c: nat, brk: nat, cont: nat, env: Env, a: Vm) returns (t: Vm)
    requires OneReady(m, s, c, brk, cont, env, a) && s.For?
    ensures OneGoes(m, s, brk, cont, env, a, t)
    decreases s, 3, 0
  {
    var k := m.view;
    var pre := a.ip + k.len(s.iter) + 4;
    var p2 := pre + HeadLen(s.key, s.val);
    var l := LoopAt(pre, p2, p2 + m.sview.len(s.body), c + |k.consts(s.iter)|);
    LoopPlaced(m, s, a.ip, c, brk, cont, l);
    ForStmtExec(m.sem, m.ssem, s, env);
    var xs := m.sem.eval(s.iter, env);
    var a1 := ExprRuns(m, s.iter, c, env, a);
    if !HasRoom(m, a, xs) { return a1; }
    t := InitRuns(m, s.id, a1, a.stack, xs.v, xs.env);
    Then(m.step, a, a1, t);
    if xs.v.VList? {
      MovedThen(m, a, a1, t, t.ip, t.stack, xs.env, xs.env, m.sem.used(s.iter), {Iter(s.id)}, m.ssem.used1(s));
      t := LoopRuns(m, s, l, a, t, |a1.iters|, xs.v.elems, xs.env, xs.peak);
    }
  }

  lemma {:induction false} LoopRuns(
      m: Setup, s: Stmt, l: LoopAt, a: Vm, a2: Vm, r: nat, xs: seq<Value>, env: Env, peak: nat)
    returns (t: Vm)
    requires a.Vm? && Turning(m, s, l, a2, r, xs, 0, env) && |a.iters| <= r && |a.stack| + peak <= m.prog.room
    requires Moved(m, a, a2, a2.ip, a.stack, env, m.ssem.used1(s))
             && {Iter(s.id)} + m.ssem.used(s.body) <= m.ssem.used1(s)
    ensures var o := m.ssem.each(s.key, s.val, s.body, xs, 0, env);
            o.Unbound? ||
            if o.Ran? && |a.stack| + Max(peak, o.peak) <= m.prog.room
            then Moved(m, a, t, l.pb + 3, a.stack, Unbind(Unbind(o.env, s.key), s.val), m.ssem.used1(s))
            else Faults(m, a, t)
    decreases s, 2, 0
  {
    var o := m.ssem.each(s.key, s.val, s.body, xs, 0, env);
    t := TurnsRun(m, s, l, a2, r, xs, 0, env, o);
    if HasRoom(m, a2, o) {
      LoopDone(m, s, a, a2, t, r, env, o.env, m.ssem.used1(s));
    } else if !o.Unbound? {
      Then(m.step, a, a2, Fault);
    }
  }

  lemma LoopDone(m: Setup, s: Stmt, a: Vm, a2: Vm, t: Vm, r: nat, env: Env, env': Env, used: set<Sym>)
    requires s.For? && a.Vm? && a2.Vm? && Moved(m, a, a2, a2.ip, a.stack, env, used) && Turned(m, s, a2, t, r)
             && |a.iters| <= r
    requires Sim(m, env', t.locals) && {Iter(s.id)} + m.ssem.used(s.body) <= used
    ensures Moved(m, a, t, t.ip, a.stack, Unbind(Unbind(env', s.key), s.val), used)
  {
    Then(m.step, a, a2, t);
    assert t.iters[..|a.iters|] == t.iters[..r][..|a.iters|] == a2.iters[..|a.iters|];
  }
}
