/** List literals: when a literal is built, and what happens when a plain element follows a spread. */
module Literals {
  import opened Common
  import opened Bytecode
  import opened Ast
  import opened CodeGen
  import opened Machine
  import opened ShortCircuit
  import opened View
  import opened Meaning
  import opened Opcodes
  import opened Simulation
  import opened ExprCorrect

  /** The elements from i on succeed one after the other, and the spread ones are lists. */
  predicate EachRuns(es: seq<Expr>, i: nat, env: Env)
    decreases |es| - i
  {
    i >= |es| ||
    var r := Evaluate(es[i], env);
    r.Ran? && (es[i].Spread? ==> r.v.VList?) && EachRuns(es, i + 1, r.env)
  }

  /** From i on nothing but spreads follows a spread, one having come before if `spread`. */
  predicate Tidy(es: seq<Expr>, i: nat, spread: bool) {
    && (forall a, b :: i <= a < b < |es| && es[a].Spread? ==> es[b].Spread?)
    && (spread ==> forall b :: i <= b < |es| ==> es[b].Spread?)
  }

  lemma {:induction false} BuiltFrom(es: seq<Expr>, i: nat, spread: bool, env: Env)
    requires i <= |es|
    ensures EvaluateElems(es, i, spread, 0, env).Ran? <==> EachRuns(es, i, env) && Tidy(es, i, spread)
    decreases |es| - i
  {
    if i < |es| {
      var r := Evaluate(es[i], env);
      if es[i].Spread? {
        if r.Ran? { BuiltFrom(es, i + 1, true, r.env); }
        TidyAfter(es, i, spread);
      } else if spread {
        if r.Ran? { OwedNeverRuns(es, i + 1, 1, r.env); }
      } else {
        if r.Ran? { BuiltFrom(es, i + 1, false, r.env); }
        TidyAfter(es, i, spread);
      }
    }
  }

  lemma TidyAfter(es: seq<Expr>, i: nat, spread: bool)
    requires i < |es| && (spread ==> es[i].Spread?)
    ensures Tidy(es, i, spread) <==> Tidy(es, i + 1, es[i].Spread?)
  {
    if Tidy(es, i + 1, es[i].Spread?) {
      forall a, b | i <= a < b < |es| && es[a].Spread? ensures es[b].Spread? { if a > i { assert i + 1 <= a; } }
    }
  }

  /** A literal is built if and only if its elements succeed and its spreads come last. */
  lemma BuiltIff(es: seq<Expr>, env: Env)
    ensures EvaluateElems(es, 0, false, 0, env).Ran? <==> EachRuns(es, 0, env) && SpreadsLast(es)
  {
    BuiltFrom(es, 0, false, env);
  }

  /**
   * On the machine: unless a variable without a value is read, the list is pushed exactly when the elements succeed,
   * the spreads come last and the values fit on the stack; otherwise the machine stops and never recovers.
   */
  lemma ListLiteral(m: Setup, e: Expr, c: nat, env: Env, s: Vm) returns (t: Vm)
    requires Ready(m, e, c, env, s) && e.List? && !Evaluate(e, env).Unbound?
    ensures var r := Evaluate(e, env);
            if EachRuns(e.elems, 0, env) && SpreadsLast(e.elems) && HasRoom(m, s, r)
            then Moved(m, s, t, s.ip + m.view.len(e), s.stack + [r.v], r.env, m.sem.used(e))
            else Faults(m, s, t) && forall n: nat :: RunFor(m.step, Fault, n) == Fault
  {
    BuiltIff(e.elems, env);
    assert m.sem.eval(e, env) == Evaluate(e, env);
    t := ExprRuns(m, e, c, env, s);
    assert m.step(Fault) == Step(m.prog, Fault);
    forall n: nat ensures RunFor(m.step, Fault, n) == Fault { RunStays(m.step, Fault, n); }
  }

  /** Without spreads a literal needs a slot for each of its elements. */
  lemma {:induction false} LiteralPeak(es: seq<Expr>, i: nat, env: Env)
    requires i <= |es| && (forall j :: 0 <= j < |es| ==> !es[j].Spread?) && EvaluateElems(es, i, false, 0, env).Ran?
    ensures i < |es| ==> EvaluateElems(es, i, false, 0, env).peak >= |es|
    decreases |es| - i
  {
    if i < |es| { LiteralPeak(es, i + 1, Evaluate(es[i], env).env); }
  }
}
