/** Whole main chunks: what the machine does with the compiled chunk, and how that compares with tree walking. */
module Programs {
  import opened Common
  import opened Bytecode
  import opened Ast
  import opened CodeGen
  import opened Machine
  import opened ShortCircuit
  import opened LazyEval
  import opened Scope
  import opened Agreement
  import opened View
  import opened StmtView
  import opened Meaning
  import opened Opcodes
  import opened Simulation
  import opened ExprCorrect
  import opened StmtCorrect
  import opened Literals

  // ---- Chunks ----

  /** Without a break or continue outside a loop, execution never asks for a loop to be left. */
  lemma {:induction false} ClosedEnds(s: Stmt, env: Env)
    requires Closed(s)
    ensures Execute(s, env).Ran? ==> Execute(s, env).v == Ended
    ensures Exec(s, env).Normal? || Exec(s, env).Failed?
    decreases s
  {
    match s
    case If(test, thn, alternate, els) =>
      var t, r := Eval(test, env), Evaluate(test, env);
      if t.Ok? {
        AllClosedEnds(thn, t.env);
        if alternate { AllClosedEnds(els, t.env); }
      }
      if r.Ran? {
        AllClosedEnds(thn, r.env);
        if alternate { AllClosedEnds(els, r.env); }
      }
    case _ =>
  }

  lemma {:induction false} AllClosedEnds(ss: seq<Stmt>, env: Env)
    requires AllClosed(ss)
    ensures ExecuteAll(ss, env).Ran? ==> ExecuteAll(ss, env).v == Ended
    ensures ExecAll(ss, env).Normal? || ExecAll(ss, env).Failed?
    decreases ss
  {
    if ss != [] {
      ClosedEnds(ss[0], env);
      var o, r := Exec(ss[0], env), Execute(ss[0], env);
      if o.Normal? { AllClosedEnds(ss[1..], o.env); }
      if r.Ran? { AllClosedEnds(ss[1..], r.env); }
    }
  }

  predicate SingleValue(ss: seq<Stmt>) { |ss| == 1 && ss[0].Do? }

  /**
   * What a chunk computes: the values left on the stack, the variables, and the slots needed. An empty chunk gives
   * nil, a chunk of one expression its value, any other chunk no value.
   */
  function ShortResult(ss: seq<Stmt>, env: Env): Run<seq<Value>> {
    if ss == [] then Ran([VNil], env, 1)
    else if SingleValue(ss) then
      (var r := Evaluate(ss[0].e, env); if !r.Ran? then Abort(r) else Ran([r.v], r.env, r.peak))
    else
      (var r := ExecuteAll(ss, env); if !r.Ran? then Abort(r) else Ran([], r.env, r.peak))
  }

  /** What the compiler can encode: addresses and constants in two bytes, distinct slots for distinct symbols. */
  ghost predicate Encodable(ss: seq<Stmt>, slot: Layout, locals: nat) {
    && StmtsOk(ss) && |MainCode(ss, slot)| < 65536 && |MainConsts(ss)| < 65536
    && (forall y :: y in StmtsSyms(ss) ==> slot(y) < locals)
    && (forall y, z :: y in StmtsSyms(ss) && z in StmtsSyms(ss) && slot(y) == slot(z) ==> y == z)
  }

  /** The compiled chunk on a machine whose stack also holds its locals. */
  function Program(ss: seq<Stmt>, slot: Layout, locals: nat): Prog {
    Prog(MainCode(ss, slot), MainConsts(ss), Room(locals))
  }

  function StepOf(prog: Prog): Vm -> Vm {
    s => Step(prog, s)
  }

  ghost function SetupOf(ss: seq<Stmt>, slot: Layout, locals: nat): Setup {
    var prog := Program(ss, slot, locals);
    Setup(prog, slot, StmtsSyms(ss), StepOf(prog), ViewOf(slot), SViewOf(slot), SemOf(), SSemOf())
  }

  lemma SetupIsGood(ss: seq<Stmt>, slot: Layout, locals: nat)
    requires Encodable(ss, slot, locals)
    ensures Linked(SetupOf(ss, slot, locals)) && StmtCorrect.Bound(SetupOf(ss, slot, locals))
  {
    ViewOfIsView(slot);
    SViewOfIsSView(slot);
    SemOfIsSem();
    SSemOfIsSSem();
  }

  /** At the final suspend instruction, where the next step changes nothing. */
  predicate AtEnd(ss: seq<Stmt>, slot: Layout, t: Vm) {
    t.Vm? && t.ip == |MainCode(ss, slot)| - 1
  }

  lemma EndHalts(ss: seq<Stmt>, slot: Layout, locals: nat, t: Vm)
    requires AtEnd(ss, slot, t)
    ensures Step(Program(ss, slot, locals), t) == t
  {
    assert MainCode(ss, slot)[t.ip] == SUSPEND;
  }

  /** The outcome r of a chunk on the machine: its values and variables if they fit, a stopped machine if not. */
  ghost predicate Final(ss: seq<Stmt>, slot: Layout, locals: nat, r: Run<seq<Value>>, a: Vm, t: Vm) {
    var m := SetupOf(ss, slot, locals);
    && Reaches(m.step, a, t)
    && if r.Ran? && r.peak <= Room(locals)
       then AtEnd(ss, slot, t) && t.stack == r.v && Sim(m, r.env, t.locals)
       else t == Fault
  }

  function Begin(locs: map<nat, Value>): Vm { Vm(0, [], locs, []) }

  // ---- The machine runs short-circuit evaluation, exactly ----

  /** The static check guarantees that no variable is read without a value. */
  lemma CheckedReadsAreBound(ss: seq<Stmt>, env: Env)
    requires AllRead(ss, env.Keys)
    ensures !ShortResult(ss, env).Unbound?
  {
    AllSee(ss, env, env.Keys);
    if SingleValue(ss) { EvaluateSees(ss[0].e, env, env.Keys); }
  }

  /**
   * For every chunk that reads no variable without a value: the machine comes to the end with the values and variables
   * of short-circuit evaluation if that succeeds within the stack, and stops otherwise.
   */
  lemma ProgramRuns(ss: seq<Stmt>, slot: Layout, locals: nat, env: Env, locs: map<nat, Value>) returns (t: Vm)
    requires Encodable(ss, slot, locals) && AllClosed(ss) && !ShortResult(ss, env).Unbound?
    requires Sim(SetupOf(ss, slot, locals), env, locs)
    ensures Final(ss, slot, locals, ShortResult(ss, env), Begin(locs), t)
    ensures StepOf(Program(ss, slot, locals))(t) == t
  {
    if ss == [] {
      t := EmptyRuns(slot, locals, env, locs);
    } else if SingleValue(ss) {
      t := ValueRuns(ss, slot, locals, env, locs);
    } else {
      t := BodyRuns(ss, slot, locals, env, locs);
    }
    if t.Vm? { EndHalts(ss, slot, locals, t); }
  }

  /** So a run stops exactly when evaluation fails or does not fit, and any halt has exactly its values. */
  lemma ProgramExact(ss: seq<Stmt>, slot: Layout, locals: nat, env: Env, locs: map<nat, Value>, u: Vm)
    requires Encodable(ss, slot, locals) && AllClosed(ss) && !ShortResult(ss, env).Unbound?
    requires Sim(SetupOf(ss, slot, locals), env, locs)
    ensures var step, r := StepOf(Program(ss, slot, locals)), ShortResult(ss, env);
            && (Reaches(step, Begin(locs), Fault) <==> !(r.Ran? && r.peak <= Room(locals)))
            && (Reaches(step, Begin(locs), u) && step(u) == u ==> Final(ss, slot, locals, r, Begin(locs), u))
  {
    var step := StepOf(Program(ss, slot, locals));
    var t := ProgramRuns(ss, slot, locals, env, locs);
    assert step(Fault) == Fault;
    if Reaches(step, Begin(locs), Fault) { OneEnd(step, Begin(locs), t, Fault); }
    if Reaches(step, Begin(locs), u) && step(u) == u { OneEnd(step, Begin(locs), t, u); }
  }

  lemma EmptyRuns(slot: Layout, locals: nat, env: Env, locs: map<nat, Value>) returns (t: Vm)
    requires Encodable([], slot, locals) && Sim(SetupOf([], slot, locals), env, locs)
    ensures Final([], slot, locals, ShortResult([], env), Begin(locs), t)
  {
    var m := SetupOf([], slot, locals);
    SetupIsGood([], slot, locals);
    InMain(m, I0(PUSH_NIL));
    DoPushNil(m, Begin(locs));
    t := TryPush(m.prog, Begin(locs), 1, VNil);
  }

  /** The chunk's own code is at its start. */
  lemma InMain(m: Setup, w: bytes)
    requires m.prog.code == w + I0(SUSPEND)
    ensures Holds(m, 0, w)
  {
    assert m.prog.code[0..|w|] == w;
  }

  lemma AllConsts(m: Setup)
    ensures HasConsts(m, 0, m.prog.consts)
  {
    assert m.prog.consts[0..|m.prog.consts|] == m.prog.consts;
  }

  lemma ValueParts(ss: seq<Stmt>, slot: Layout)
    requires SingleValue(ss)
    ensures MainCode(ss, slot) == ExprCode(ss[0].e, 0, 0, slot) + I0(SUSPEND) && MainConsts(ss) == ExprConsts(ss[0].e)
    ensures StmtsSyms(ss) == ExprSyms(ss[0].e) && (StmtsOk(ss) ==> ExprOk(ss[0].e))
  {
    assert ss[1..] == [];
    assert StmtsConsts(ss) == StmtConsts(ss[0]) + [] == StmtConsts(ss[0]);
    assert StmtsSyms(ss) == StmtSyms(ss[0]) + {};
    assert StmtsOk(ss) ==> StmtOk(ss[0]);
  }

  lemma ValuePlaced(ss: seq<Stmt>, slot: Layout, locals: nat)
    requires Encodable(ss, slot, locals) && SingleValue(ss)
    ensures Linked(SetupOf(ss, slot, locals)) && Placed(SetupOf(ss, slot, locals), ss[0].e, 0, 0)
  {
    var m := SetupOf(ss, slot, locals);
    SetupIsGood(ss, slot, locals);
    ValueParts(ss, slot);
    InMain(m, ExprCode(ss[0].e, 0, 0, slot));
    AllConsts(m);
  }

  lemma ValueRuns(ss: seq<Stmt>, slot: Layout, locals: nat, env: Env, locs: map<nat, Value>) returns (t: Vm)
    requires Encodable(ss, slot, locals) && SingleValue(ss) && Sim(SetupOf(ss, slot, locals), env, locs)
    requires !Evaluate(ss[0].e, env).Unbound?
    ensures Final(ss, slot, locals, ShortResult(ss, env), Begin(locs), t)
  {
    var m := SetupOf(ss, slot, locals);
    ValuePlaced(ss, slot, locals);
    ValueParts(ss, slot);
    t := ExprRuns(m, ss[0].e, 0, env, Begin(locs));
    var r := Evaluate(ss[0].e, env);
    assert m.sem.eval(ss[0].e, env) == r;
    if r.Ran? { assert [] + [r.v] == [r.v]; }
  }

  lemma BodyRuns(ss: seq<Stmt>, slot: Layout, locals: nat, env: Env, locs: map<nat, Value>) returns (t: Vm)
    requires Encodable(ss, slot, locals) && AllClosed(ss) && ss != [] && !SingleValue(ss)
    requires Sim(SetupOf(ss, slot, locals), env, locs) && !ExecuteAll(ss, env).Unbound?
    ensures Final(ss, slot, locals, ShortResult(ss, env), Begin(locs), t)
  {
    var m := SetupOf(ss, slot, locals);
    BodyPlaced(ss, slot, locals);
    AllClosedEnds(ss, env);
    t := StmtsRun(m, ss, 0, 0, 0, env, Begin(locs));
    ViewReads(ss, slot, env);
    BodyFinal(ss, slot, locals, env, locs, t, StmtsSyms(ss));
  }

  lemma ViewReads(ss: seq<Stmt>, slot: Layout, env: Env)
    ensures SSemOf().execAll(ss, env) == ExecuteAll(ss, env) && SSemOf().used(ss) == StmtsSyms(ss)
    ensures SViewOf(slot).len(ss) == StmtsLen(ss)
  {
  }

  lemma BodyFinal(
      ss: seq<Stmt>, slot: Layout, locals: nat, env: Env, locs: map<nat, Value>, t: Vm, used: set<Sym>)
    requires ss != [] && !SingleValue(ss) && !ExecuteAll(ss, env).Unbound?
    requires MainCode(ss, slot) == StmtsCode(ss, 0, 0, 0, 0, slot) + I0(SUSPEND)
    requires ExecuteAll(ss, env).Ran? ==> ExecuteAll(ss, env).v == Ended
    requires Comes(SetupOf(ss, slot, locals), Begin(locs), t, ExecuteAll(ss, env), StmtsLen(ss), 0, 0, used)
    ensures Final(ss, slot, locals, ShortResult(ss, env), Begin(locs), t)
  {
  }

  lemma BodyPlaced(ss: seq<Stmt>, slot: Layout, locals: nat)
    requires Encodable(ss, slot, locals) && ss != [] && !SingleValue(ss)
    ensures StmtCorrect.Bound(SetupOf(ss, slot, locals))
    ensures AllPlaced(SetupOf(ss, slot, locals), ss, 0, 0, 0, 0)
    ensures MainCode(ss, slot) == StmtsCode(ss, 0, 0, 0, 0, slot) + I0(SUSPEND)
  {
    var m := SetupOf(ss, slot, locals);
    SetupIsGood(ss, slot, locals);
    InMain(m, StmtsCode(ss, 0, 0, 0, 0, slot));
    AllConsts(m);
  }

  // ---- Tree walking ----

  datatype Walk = Walked(stack: seq<Value>, env: Env) | WalkFails

  function WalkResult(ss: seq<Stmt>, env: Env): Walk {
    if ss == [] then Walked([VNil], env)
    else if SingleValue(ss) then
      (var r := Eval(ss[0].e, env); if r.Fail? then WalkFails else Walked([r.v], r.env))
    else
      (var o := ExecAll(ss, env); if o.Failed? then WalkFails else Walked([], o.env))
  }

  function LazyResult(ss: seq<Stmt>, env: Env): Lazy<seq<Value>> {
    if ss == [] then Gives([VNil], env, false, false)
    else if SingleValue(ss) then
      (var g := LazyOf(ss[0].e, env); if g.Errs? then Errs else Gives([g.v], g.env, g.overlooks, g.appends))
    else
      (var g := PerformAll(ss, env); if g.Errs? then Errs else Gives([], g.env, g.overlooks, g.appends))
  }

  /** Both succeed with the same values, the walker knowing no other variables, or both fail. */
  ghost predicate Same(w: Walk, r: Run<seq<Value>>) {
    if w.Walked? then r.Ran? && r.v == w.stack && Sub(w.env, r.env) else r.Stuck?
  }

  /** The walker succeeds if and only if short-circuit evaluation does and overlooks nothing; the values agree. */
  lemma WalkerIs(ss: seq<Stmt>, env: Env)
    requires AllClosed(ss) && AllRead(ss, env.Keys)
    ensures var w, g := WalkResult(ss, env), LazyResult(ss, env);
            && (w.Walked? <==> g.Gives? && !g.overlooks)
            && (w.Walked? ==> w.stack == g.v && Sub(w.env, g.env))
  {
    AllClosedEnds(ss, env);
    if SingleValue(ss) { EvalAgrees(ss[0].e, env, env, env.Keys); } else { AllAgree(ss, env, env, env.Keys); }
  }

  /** Compiled code succeeds if and only if it does and appends nothing after a spread; values and variables are its. */
  lemma CompiledIs(ss: seq<Stmt>, env: Env)
    ensures Compiles(ShortResult(ss, env), LazyResult(ss, env))
  {
    if SingleValue(ss) { EvaluateIs(ss[0].e, env); } else { AllAre(ss, env); }
  }

  /**
   * So the two agree if and only if short-circuit evaluation fails, or neither overlooks nor appends, or does both: for
   * compiled code that succeeds, if and only if nothing is overlooked; for a walker that succeeds, if and only if
   * nothing is appended.
   */
  lemma WalkAgreesIff(ss: seq<Stmt>, env: Env)
    requires AllClosed(ss) && AllRead(ss, env.Keys)
    ensures var w, r, g := WalkResult(ss, env), ShortResult(ss, env), LazyResult(ss, env);
            && !r.Unbound? && (Same(w, r) <==> (g.Gives? ==> (g.overlooks <==> g.appends)))
            && (r.Ran? ==> g.Gives? && (Same(w, r) <==> !g.overlooks))
            && (w.Walked? ==> g.Gives? && (Same(w, r) <==> !g.appends))
            && (w.WalkFails? && !(g.Gives? && g.overlooks) ==> r.Stuck?)
  {
    CheckedReadsAreBound(ss, env);
    WalkerIs(ss, env);
    CompiledIs(ss, env);
  }

  /** The machine ends as the walker does: with its values and its variables, or stopped where it fails. */
  ghost predicate EndsAs(ss: seq<Stmt>, slot: Layout, locals: nat, w: Walk, t: Vm) {
    if w.Walked? then AtEnd(ss, slot, t) && t.stack == w.stack && Sim(SetupOf(ss, slot, locals), w.env, t.locals)
    else t == Fault
  }

  /**
   * Walker and machine, the stack included: the machine ends as the walker does if and only if short-circuit evaluation
   * fails, or overlooks something exactly when it appends something or does not fit.
   */
  lemma MachineAgreesIff(ss: seq<Stmt>, slot: Layout, locals: nat, env: Env, locs: map<nat, Value>) returns (t: Vm)
    requires Encodable(ss, slot, locals) && AllClosed(ss) && AllRead(ss, env.Keys)
    requires Sim(SetupOf(ss, slot, locals), env, locs)
    ensures Final(ss, slot, locals, ShortResult(ss, env), Begin(locs), t)
    ensures var r, g := ShortResult(ss, env), LazyResult(ss, env);
            EndsAs(ss, slot, locals, WalkResult(ss, env), t) <==>
            (g.Gives? ==> (g.overlooks <==> g.appends || (r.Ran? && r.peak > Room(locals))))
  {
    CheckedReadsAreBound(ss, env);
    WalkerIs(ss, env);
    CompiledIs(ss, env);
    t := ProgramRuns(ss, slot, locals, env, locs);
  }

  // ---- Where they differ ----

  lemma OneValue(e: Expr, b: set<nat>)
    ensures AllRead([Do(e)], b) == Reads(e, b) && AllClosed([Do(e)])
  {
    assert [Do(e)][1..] == [] && Closed(Do(e)) && AllClosed([]);
  }

  /** A skipped right operand that fails: `false and if nil true` fails in the walker and is false on the machine. */
  lemma SkippedOperandFails()
    ensures var ss := [Do(And(False, IfExpr(Nil, True, None)))];
            && AllRead(ss, {}) && AllClosed(ss) && WalkResult(ss, map[]) == WalkFails
            && ShortResult(ss, map[]) == Ran([VBool(false)], map[], 1)
  {
    var skipped := IfExpr(Nil, True, None);
    var e := And(False, skipped);
    OneValue(e, {});
    assert Eval(Nil, map[]) == Ok(VNil, map[]) && Eval(False, map[]) == Ok(VBool(false), map[]);
    assert Eval(skipped, map[]) == Fail;
    assert Eval(e, map[]) == Logical(e, Eval(False, map[]), Eval(skipped, map[]));
    assert Evaluate(False, map[]) == Ran(VBool(false), map[], 1);
    assert Evaluate(e, map[]) == Evaluate(False, map[]);
    assert Reads(skipped, {} - Forgets(False));
  }

  /** A right operand that is not a boolean: `true and nil` fails in the walker and is nil on the machine. */
  lemma RightOperandUnchecked()
    ensures var ss := [Do(And(True, Nil))];
            && AllRead(ss, {}) && AllClosed(ss) && WalkResult(ss, map[]) == WalkFails
            && ShortResult(ss, map[]) == Ran([VNil], map[], 1)
  {
    var e := And(True, Nil);
    OneValue(e, {});
    assert Eval(True, map[]) == Ok(VBool(true), map[]) && Eval(Nil, map[]) == Ok(VNil, map[]);
    assert Eval(e, map[]) == Logical(e, Eval(True, map[]), Eval(Nil, map[]));
    assert Evaluate(True, map[]) == Ran(VBool(true), map[], 1) && Evaluate(Nil, map[]) == Ran(VNil, map[], 1);
    assert Evaluate(e, map[]) == After(1, Evaluate(Nil, map[]));
  }

  /** A plain element after a spread: the machine stops for want of an append, whatever the elements are. */
  lemma LateElementFaults(es: seq<Expr>, slot: Layout, locals: nat, env: Env, locs: map<nat, Value>)
    requires !SpreadsLast(es) && !ShortResult([Do(List(es))], env).Unbound?
    requires Encodable([Do(List(es))], slot, locals) && Sim(SetupOf([Do(List(es))], slot, locals), env, locs)
    ensures Reaches(StepOf(Program([Do(List(es))], slot, locals)), Begin(locs), Fault)
  {
    OneValue(List(es), env.Keys);
    BuiltIff(es, env);
    var r := EvaluateElems(es, 0, false, 0, env);
    assert Evaluate(List(es), env) == Abort(r);
    ProgramExact([Do(List(es))], slot, locals, env, locs, Fault);
  }

  /** `[...[], nil]`: the walker builds the list, the machine stops. */
  lemma AppendIsMissing(es: seq<Expr>, slot: Layout, locals: nat, locs: map<nat, Value>)
    requires es == [Spread(List([])), Nil]
    ensures AllRead([Do(List(es))], {}) && AllClosed([Do(List(es))])
    ensures WalkResult([Do(List(es))], map[]) == Walked([VList([VNil])], map[])
    ensures Reaches(StepOf(Program([Do(List(es))], slot, locals)), Begin(locs), Fault)
  {
    AppendWalked(es);
    OneValue(List(es), {});
    AppendEncodable(es, slot, locals);
    assert es[0].Spread? && !es[1].Spread?;
    var env: Env := map[];
    assert env.Keys == {};
    CheckedReadsAreBound([Do(List(es))], env);
    LateElementFaults(es, slot, locals, env, locs);
  }

  lemma AppendWalked(es: seq<Expr>)
    requires es == [Spread(List([])), Nil]
    ensures Reads(List(es), {}) && WalkResult([Do(List(es))], map[]) == Walked([VList([VNil])], map[])
  {
    var env: Env := map[];
    assert EvalElems([], 0, env) == Oks([], env) && Eval(List([]), env) == Ok(VList([]), env);
    assert Eval(es[0], env) == Ok(VList([]), env) && Eval(es[1], env) == Ok(VNil, env);
    assert EvalElems(es, 2, env) == Oks([], env);
    assert EvalElems(es, 1, env) == Oks([VNil] + [], env);
    assert EvalElems(es, 0, env) == Oks([] + ([VNil] + []), env) == Oks([VNil], env);
    assert Reads(es[0], {}) && ElemsRead(es, 1, {} - Forgets(es[0]));
  }

  lemma AppendEncodable(es: seq<Expr>, slot: Layout, locals: nat)
    requires es == [Spread(List([])), Nil]
    ensures Encodable([Do(List(es))], slot, locals)
  {
    ValueParts([Do(List(es))], slot);
    AppendParts(es);
  }

  lemma AppendParts(es: seq<Expr>)
    requires es == [Spread(List([])), Nil]
    ensures ExprLen(List(es)) == 11 && ExprConsts(List(es)) == []
    ensures ExprSyms(List(es)) == {} && StmtsOk([Do(List(es))])
  {
    AppendLen(es, List([]));
    AppendConsts(es, List([]));
    AppendSyms(es, List([]));
  }

  lemma AppendLen(es: seq<Expr>, none: Expr)
    requires none == List([]) && es == [Spread(none), Nil]
    ensures ExprLen(List(es)) == 11
  {
    assert ElemsLen([], 0, false, 0) == 3 && ExprLen(es[0]) == ExprLen(none) == 3 && ExprLen(es[1]) == 1;
    assert ElemsLen(es, 2, true, 1) == 3;
    assert ElemsLen(es, 1, true, 0) == ExprLen(es[1]) + ElemsLen(es, 2, true, 1);
    assert ElemsLen(es, 0, false, 0) == 3 + ExprLen(es[0]) + 1 + ElemsLen(es, 1, true, 0);
  }

  lemma AppendConsts(es: seq<Expr>, none: Expr)
    requires none == List([]) && es == [Spread(none), Nil]
    ensures ExprConsts(List(es)) == []
  {
    assert ExprConsts(es[0]) == ExprConsts(none) == ElemsConsts([], 0) == [] && ExprConsts(es[1]) == [];
    assert ElemsConsts(es, 2) == [] && ElemsConsts(es, 1) == [] && ElemsConsts(es, 0) == [];
  }

  lemma AppendSyms(es: seq<Expr>, none: Expr)
    requires none == List([]) && es == [Spread(none), Nil]
    ensures ExprSyms(List(es)) == {} && StmtsOk([Do(List(es))])
  {
    assert ElemsSyms([]) == {} && ExprSyms(none) == {} && ExprSyms(es[0]) == {} && ExprSyms(es[1]) == {};
    assert es[1..] == [es[1]] && [es[1]][1..] == [];
    assert ElemsSyms([es[1]]) == ExprSyms(es[1]) + ElemsSyms([]) == {};
    assert ExprOk(none) && ExprOk(es[0]) && ExprOk(es[1]) && ExprOk(List(es)) && StmtOk(Do(List(es)));
  }

  /** `if false { x = nil }` and then `y = x`. */
  const HALF_ASSIGNED: seq<Stmt> := [If(False, [Assign(0, Nil)], false, []), Assign(1, Var(0))]

  /** Its code, `a` and `b` being the slots of the two variables. */
  function HalfAssignedCode(a: nat, b: nat): bytes {
    [PUSH_FALSE, JUMP_IF_FALSE, 0, 7, PUSH_NIL, SET_LOCAL, a % 256, GET_LOCAL, a % 256, SET_LOCAL, b % 256, SUSPEND]
  }

  lemma HalfAssigned(slot: Layout)
    ensures MainCode(HALF_ASSIGNED, slot) == HalfAssignedCode(slot(User(0)), slot(User(1)))
  {
    var k, v := ViewOf(slot), SViewOf(slot);
    ViewOfIsView(slot);
    SViewOfIsSView(slot);
    HalfAssignedBody(k, v, slot, HALF_ASSIGNED);
    assert StmtsCode(HALF_ASSIGNED, 0, 0, 0, 0, slot) == v.all(HALF_ASSIGNED, 0, 0, 0, 0);
  }

  lemma HalfAssignedBody(k: View, v: SView, slot: Layout, ss: seq<Stmt>)
    requires Views(k, v, slot) && |ss| == 2
    requires ss[0] == If(False, [Assign(0, Nil)], false, []) && ss[1] == Assign(1, Var(0))
    ensures v.all(ss, 0, 0, 0, 0) + I0(SUSPEND) == HalfAssignedCode(slot(User(0)), slot(User(1)))
  {
    HalfAssignedFirst(k, v, slot, ss[0]);
    OneAssignment(k, v, slot, ss[1], 7, 0);
    AllShape(v, slot, ss, 0, 0, 0, 0);
    assert ss[1..] == [ss[1]];
  }

  lemma OneAssignment(k: View, v: SView, slot: Layout, s: Stmt, p: nat, c: nat)
    requires Views(k, v, slot) && s.Assign? && (s.e.Nil? || s.e.Var?)
    ensures v.all([s], p, c, 0, 0) == LeafCode(s.e, c, slot) + I1(SET_LOCAL, slot(User(s.x)))
  {
    assert [s][1..] == [];
    AllShape(v, slot, [s], p, c, 0, 0);
    AllEmpty(v, slot);
    SimpleShape(k, v, slot, s, p, c, 0, 0);
    LeafShape(k, slot, s.e, p, c);
  }

  lemma NoConstants(k: View, v: SView, slot: Layout, s: Stmt)
    requires Views(k, v, slot) && s.Assign? && (s.e.Nil? || s.e.Var?)
    ensures v.consts([s]) == []
  {
    assert [s][1..] == [];
    AllRest(v, slot, [s]);
    AllEmpty(v, slot);
    SimpleShape(k, v, slot, s, 0, 0, 0, 0);
    LeafShape(k, slot, s.e, 0, 0);
  }

  lemma HalfAssignedFirst(k: View, v: SView, slot: Layout, s: Stmt)
    requires Views(k, v, slot) && s == If(False, [Assign(0, Nil)], false, [])
    ensures v.len1(s) == 7 && v.consts1(s) == []
    ensures v.one(s, 0, 0, 0, 0) == [PUSH_FALSE, JUMP_IF_FALSE, 0, 7, PUSH_NIL, SET_LOCAL, slot(User(0)) % 256]
  {
    LeafShape(k, slot, False, 0, 0);
    OneAssignment(k, v, slot, s.thn[0], 4, 0);
    NoConstants(k, v, slot, s.thn[0]);
    IfStmtShape(k, v, slot, s, 0, 0, 0, 0, 4, 7, 0);
    IfStmtRest(k, v, slot, s);
  }

  lemma HalfAssignedFails()
    ensures WalkResult(HALF_ASSIGNED, map[]) == WalkFails && !AllRead(HALF_ASSIGNED, {})
  {
    var first, second := HALF_ASSIGNED[0], HALF_ASSIGNED[1];
    assert HALF_ASSIGNED[1..] == [second] && [second][1..] == [];
    assert Exec(first, map[]) == Normal(map[]) && Exec(second, map[]) == Failed;
    assert ExecAll([second], map[]) == Failed;
    assert AllBound(first.thn, {}) * {} == {};
    assert !StmtReads(second, {});
  }

  /**
   * The check on variables is needed: reading one that was assigned only in a branch not taken fails in the walker,
   * while the machine goes on with what an unused slot holds.
   */
  lemma UnboundVariableIsEmpty(slot: Layout, locals: nat) returns (t: Vm)
    requires slot(User(0)) < locals < STACK_SIZE && slot(User(1)) < locals
    ensures WalkResult(HALF_ASSIGNED, map[]) == WalkFails && !AllRead(HALF_ASSIGNED, {})
    ensures AtEnd(HALF_ASSIGNED, slot, t) && t.stack == [] && t.locals == map[slot(User(1)) := VEmpty]
    ensures Reaches(StepOf(Program(HALF_ASSIGNED, slot, locals)), Begin(map[]), t)
  {
    HalfAssigned(slot);
    HalfAssignedFails();
    var prog := Program(HALF_ASSIGNED, slot, locals);
    var step, a, b := StepOf(prog), slot(User(0)), slot(User(1));
    t := HalfAssignedRuns(prog, step, a, b);
  }

  lemma HalfAssignedTests(prog: Prog, a: nat, b: nat, s0: Vm, s1: Vm, s2: Vm)
    requires prog.code == HalfAssignedCode(a, b) && prog.room > 0 && s0 == Begin(map[])
    requires s1 == Vm(1, [VBool(false)], map[], []) && s2 == Vm(7, [], map[], [])
    ensures Step(prog, s0) == s1 && Step(prog, s1) == s2
  {
    assert Step(prog, s0) == TryPush(prog, s0, 1, VBool(false));
    assert Step(prog, s1) == Step2(prog, s1, JUMP_IF_FALSE, 7);
  }

  lemma HalfAssignedCopies(prog: Prog, a: nat, b: nat, s2: Vm, s3: Vm, t: Vm)
    requires prog.code == HalfAssignedCode(a, b) && prog.room > 0 && a < 256 && b < 256
    requires s2 == Vm(7, [], map[], []) && s3 == Vm(9, [VEmpty], map[], []) && t == Vm(11, [], map[b := VEmpty], [])
    ensures Step(prog, s2) == s3 && Step(prog, s3) == t
  {
    assert Step(prog, s2) == Step1(prog, s2, GET_LOCAL, a);
    assert Step(prog, s3) == Step1(prog, s3, SET_LOCAL, b);
  }

  lemma HalfAssignedRuns(prog: Prog, step: Vm -> Vm, a: nat, b: nat) returns (t: Vm)
    requires prog.code == HalfAssignedCode(a, b) && prog.room > 0 && a < 256 && b < 256
    requires forall s {:trigger Step(prog, s)} :: step(s) == Step(prog, s)
    ensures t == Vm(11, [], map[b := VEmpty], []) && Reaches(step, Begin(map[]), t)
  {
    var s0, s1, s2 := Begin(map[]), Vm(1, [VBool(false)], map[], []), Vm(7, [], map[], []);
    var s3 := Vm(9, [VEmpty], map[], []);
    t := Vm(11, [], map[b := VEmpty], []);
    HalfAssignedTests(prog, a, b, s0, s1, s2);
    HalfAssignedCopies(prog, a, b, s2, s3, t);
    Steps(step, s0);
    Steps(step, s1);
    Steps(step, s2);
    Steps(step, s3);
    Then(step, s0, s1, s2);
    Then(step, s0, s2, s3);
    Then(step, s0, s3, t);
  }

  // ---- What does not fit ----

  /** A for expression needs a slot for each element it iterates over, and one more. */
  lemma {:induction false} EachOfNil(xs: seq<Value>, i: nat, env: Env)
    requires i <= |xs|
    ensures var r := EvaluateEach(None, None, Nil, xs, i, env);
            r.Ran? && |r.v| == |xs| - i && r.env == env && EvalEach(None, None, Nil, xs, i, env) == Oks(r.v, env)
    decreases |xs| - i
  {
    if i < |xs| {
      assert Evaluate(Nil, env) == Ran(VNil, env, 1) && Eval(Nil, env) == Ok(VNil, env);
      EachOfNil(xs, i + 1, env);
    }
  }

  lemma LongFor(e: Expr, xs: seq<Value>, env: Env)
    requires e == ForExpr(0, Var(0), None, None, Nil) && env == map[0 := VList(xs)]
    ensures Eval(e, env).Ok? && Evaluate(e, env).Ran? && Evaluate(e, env).peak > |xs|
    ensures AllRead([Do(e)], env.Keys) && AllClosed([Do(e)])
  {
    EachOfNil(xs, 0, env);
    assert Eval(Var(0), env) == Ok(VList(xs), env) && Evaluate(Var(0), env) == Ran(VList(xs), env, 1);
    var r := EvaluateEach(None, None, Nil, xs, 0, env);
    assert Evaluate(e, env) == Ran(VList(r.v), env, Max(1, r.peak));
    assert Reads(Var(0), env.Keys) && Reads(e, env.Keys);
    OneValue(e, env.Keys);
  }

  /**
   * The for expression `for elem in x: nil` over 200 elements or more: the walker builds the list, and the machine
   * runs out of stack, whatever the number of locals.
   */
  lemma LongForFaults(e: Expr, xs: seq<Value>, env: Env, slot: Layout, locals: nat, locs: map<nat, Value>)
    requires e == ForExpr(0, Var(0), None, None, Nil) && env == map[0 := VList(xs)] && |xs| >= STACK_SIZE
    requires Encodable([Do(e)], slot, locals) && Sim(SetupOf([Do(e)], slot, locals), env, locs)
    ensures WalkResult([Do(e)], env).Walked?
    ensures Reaches(StepOf(Program([Do(e)], slot, locals)), Begin(locs), Fault)
  {
    LongFor(e, xs, env);
    CheckedReadsAreBound([Do(e)], env);
    ProgramExact([Do(e)], slot, locals, env, locs, Fault);
  }

  /** So does a list literal of more than 200 plain elements. */
  lemma LongLiteralFaults(es: seq<Expr>, slot: Layout, locals: nat, env: Env, locs: map<nat, Value>)
    requires |es| > STACK_SIZE && (forall j :: 0 <= j < |es| ==> !es[j].Spread?)
    requires Encodable([Do(List(es))], slot, locals) && AllRead([Do(List(es))], env.Keys)
    requires Sim(SetupOf([Do(List(es))], slot, locals), env, locs)
    ensures Reaches(StepOf(Program([Do(List(es))], slot, locals)), Begin(locs), Fault)
  {
    OneValue(List(es), env.Keys);
    var r := EvaluateElems(es, 0, false, 0, env);
    if r.Ran? { LiteralPeak(es, 0, env); }
    assert Evaluate(List(es), env) == if !r.Ran? then Abort(r) else Ran(VList(r.v), r.env, Max(1, r.peak));
    CheckedReadsAreBound([Do(List(es))], env);
    ProgramExact([Do(List(es))], slot, locals, env, locs, Fault);
  }
}
