/** The code generator for statements as function values, unfolded one construct at a time. */
module StmtView {
  import opened Common
  import opened Bytecode
  import opened Ast
  import opened CodeGen
  import opened View

  datatype SView = SView(
    one: (Stmt, nat, nat, nat, nat) -> bytes,
    all: (seq<Stmt>, nat, nat, nat, nat) -> bytes,
    consts1: Stmt -> seq<Value>,
    consts: seq<Stmt> -> seq<Value>,
    len1: Stmt -> nat,
    len: seq<Stmt> -> nat)

  ghost predicate IsSView(v: SView, slot: Layout) {
    && (forall s, p, c, b, n {:trigger StmtCode(s, p, c, b, n, slot)} ::
          v.one(s, p, c, b, n) == StmtCode(s, p, c, b, n, slot))
    && (forall s, p, c, b, n {:trigger v.one(s, p, c, b, n)} :: |v.one(s, p, c, b, n)| == v.len1(s))
    && (forall s {:trigger StmtConsts(s)} :: v.consts1(s) == StmtConsts(s))
    && (forall s {:trigger StmtLen(s)} :: v.len1(s) == StmtLen(s))
    && (forall s, p, c, b, n {:trigger StmtsCode(s, p, c, b, n, slot)} ::
          v.all(s, p, c, b, n) == StmtsCode(s, p, c, b, n, slot))
    && (forall s, p, c, b, n {:trigger v.all(s, p, c, b, n)} :: |v.all(s, p, c, b, n)| == v.len(s))
    && (forall s {:trigger StmtsConsts(s)} :: v.consts(s) == StmtsConsts(s))
    && (forall s {:trigger StmtsLen(s)} :: v.len(s) == StmtsLen(s))
  }

  function SViewOf(slot: Layout): SView {
    SView(
      (s, p, c, b, n) => StmtCode(s, p, c, b, n, slot), (s, p, c, b, n) => StmtsCode(s, p, c, b, n, slot),
      s => StmtConsts(s), s => StmtsConsts(s), s => StmtLen(s), s => StmtsLen(s))
  }

  lemma SViewOfIsSView(slot: Layout)
    ensures IsSView(SViewOf(slot), slot)
  {
  }

  ghost predicate Views(k: View, v: SView, slot: Layout) {
    IsView(k, slot) && IsSView(v, slot)
  }

  // ---- Expression statements and assignments ----

  /** What follows the expression. */
  function Tail(s: Stmt, slot: Layout): bytes
    requires s.Do? || s.Assign?
  {
    if s.Do? then I0(POP) else I1(SET_LOCAL, slot(User(s.x)))
  }

  lemma SimpleShape(k: View, v: SView, slot: Layout, s: Stmt, p: nat, c: nat, b: nat, n: nat)
    requires Views(k, v, slot) && (s.Do? || s.Assign?)
    ensures v.one(s, p, c, b, n) == k.code(s.e, p, c) + Tail(s, slot) && v.len1(s) == k.len(s.e) + |Tail(s, slot)|
    ensures v.consts1(s) == k.consts(s.e)
  {
    var _, _, _ := StmtCode(s, p, c, b, n, slot), StmtLen(s), StmtConsts(s);
    var _, _, _ := ExprCode(s.e, p, c, slot), ExprLen(s.e), ExprConsts(s.e);
  }

  // ---- Break, continue ----

  lemma LeaveShape(v: SView, slot: Layout, s: Stmt, p: nat, c: nat, b: nat, n: nat)
    requires IsSView(v, slot) && (s.Break? || s.Continue?)
    ensures v.one(s, p, c, b, n) == I2(JUMP, if s.Break? then b else n) && v.len1(s) == 3
  {
    var _, _ := StmtCode(s, p, c, b, n, slot), StmtLen(s);
  }

  // ---- If ----

  lemma IfStmtLen(k: View, v: SView, slot: Layout, s: Stmt)
    requires Views(k, v, slot) && s.If?
    ensures v.len1(s) == k.len(s.test) + 3 + v.len(s.thn) + (if s.alternate then 3 + v.len(s.els) else 0)
            && v.len1(s) == StmtLen(s)
  {
    var _, _, _, _ := StmtLen(s), ExprLen(s.test), StmtsLen(s.thn), StmtsLen(s.els);
  }

  lemma IfStmtShape(k: View, v: SView, slot: Layout, s: Stmt, p: nat, c: nat, b: nat, n: nat, p1: nat, p2: nat, c1: nat)
    requires Views(k, v, slot) && s.If? && p1 == p + k.len(s.test) + 3
             && p2 == p1 + v.len(s.thn) + (if s.alternate then 3 else 0)
    requires c1 == c + |k.consts(s.test)|
    ensures v.len1(s) == p2 - p + if s.alternate then v.len(s.els) else 0
    ensures v.one(s, p, c, b, n) ==
            k.code(s.test, p, c) + I2(JUMP_IF_FALSE, p2) + v.all(s.thn, p1, c1, b, n)
              + if s.alternate then I2(JUMP, p + v.len1(s)) + v.all(s.els, p2, c1 + |v.consts(s.thn)|, b, n) else []
  {
    IfStmtLen(k, v, slot, s);
    var _, _, _, _ := StmtCode(s, p, c, b, n, slot), ExprLen(s.test), StmtsLen(s.thn), ExprConsts(s.test);
    var _, _, _ := ExprCode(s.test, p, c, slot), StmtsCode(s.thn, p1, c1, b, n, slot), StmtsConsts(s.thn);
    if s.alternate { var _ := StmtsCode(s.els, p2, c1 + |v.consts(s.thn)|, b, n, slot); }
  }

  lemma IfStmtRest(k: View, v: SView, slot: Layout, s: Stmt)
    requires Views(k, v, slot) && s.If?
    ensures v.consts1(s) == k.consts(s.test) + v.consts(s.thn) + if s.alternate then v.consts(s.els) else []
  {
    var _, _, _, _ := StmtConsts(s), ExprConsts(s.test), StmtsConsts(s.thn), StmtsConsts(s.els);
  }

  // ---- For ----

  lemma ForStmtLen(k: View, v: SView, slot: Layout, s: Stmt)
    requires Views(k, v, slot) && s.For?
    ensures v.len1(s) == k.len(s.iter) + 4 + HeadLen(s.key, s.val) + v.len(s.body) + 3
  {
    var _, _, _ := StmtLen(s), ExprLen(s.iter), StmtsLen(s.body);
  }

  lemma ForStmtShape(k: View, v: SView, slot: Layout, s: Stmt, p: nat, c: nat, b: nat, n: nat, pre: nat, p2: nat,
      pb: nat, c1: nat)
    requires Views(k, v, slot) && s.For?
    requires pre == p + k.len(s.iter) + 4 && p2 == pre + HeadLen(s.key, s.val) && pb == p2 + v.len(s.body)
             && c1 == c + |k.consts(s.iter)|
    ensures v.len1(s) == pb + 3 - p
    ensures v.one(s, p, c, b, n) ==
            k.code(s.iter, p, c) + InitCode(s.id, slot) + HeadCode(s.id, s.key, s.val, pb + 3, slot)
              + v.all(s.body, p2, c1, pb + 3, pb) + I2(JUMP, pre)
  {
    ForStmtLen(k, v, slot, s);
    var _, _, _, _ := StmtCode(s, p, c, b, n, slot), ExprLen(s.iter), StmtsLen(s.body), ExprConsts(s.iter);
    var _, _ := ExprCode(s.iter, p, c, slot), StmtsCode(s.body, p2, c1, pb + 3, pb, slot);
  }

  lemma ForStmtRest(k: View, v: SView, slot: Layout, s: Stmt)
    requires Views(k, v, slot) && s.For?
    ensures v.consts1(s) == k.consts(s.iter) + v.consts(s.body)
  {
    var _, _, _ := StmtConsts(s), ExprConsts(s.iter), StmtsConsts(s.body);
  }

  // ---- Sequences ----

  lemma AllShape(v: SView, slot: Layout, ss: seq<Stmt>, p: nat, c: nat, b: nat, n: nat)
    requires IsSView(v, slot) && ss != []
    ensures v.len(ss) == v.len1(ss[0]) + v.len(ss[1..])
    ensures v.all(ss, p, c, b, n) ==
            v.one(ss[0], p, c, b, n) + v.all(ss[1..], p + v.len1(ss[0]), c + |v.consts1(ss[0])|, b, n)
  {
    var _, _, _, _, _ := StmtsCode(ss, p, c, b, n, slot), StmtsLen(ss), StmtLen(ss[0]), StmtsLen(ss[1..]),
      StmtConsts(ss[0]);
    var _, _ := StmtCode(ss[0], p, c, b, n, slot), StmtsCode(ss[1..], p + v.len1(ss[0]), c + |v.consts1(ss[0])|, b, n,
      slot);
  }

  lemma AllRest(v: SView, slot: Layout, ss: seq<Stmt>)
    requires IsSView(v, slot) && ss != []
    ensures v.consts(ss) == v.consts1(ss[0]) + v.consts(ss[1..])
  {
    var _, _, _ := StmtsConsts(ss), StmtConsts(ss[0]), StmtsConsts(ss[1..]);
  }

  lemma AllEmpty(v: SView, slot: Layout)
    requires IsSView(v, slot)
    ensures v.len([]) == 0 && v.consts([]) == []
  {
    var _, _ := StmtsLen([]), StmtsConsts([]);
  }
}
