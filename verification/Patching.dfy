/** Overwriting the placeholder operands of the jumps that leave a loop. */
module Patching {
  import opened Common
  import opened Bytecode
  import opened Ast
  import opened CodeGen
  import opened View
  import opened StmtView

  /** The two-byte operand of the instruction at q becomes a. */
  function Patch(w: bytes, q: nat, a: nat): (r: bytes)
    ensures |r| == |w|
  {
    if q + 3 <= |w| then w[q + 1 := (a / 256) % 256][q + 2 := a % 256] else w
  }

  function PatchAll(w: bytes, qs: seq<nat>, a: nat): (r: bytes)
    ensures |r| == |w|
    decreases |qs|
  {
    if qs == [] then w else PatchAll(Patch(w, qs[0], a), qs[1..], a)
  }

  lemma {:induction false} PatchAppend(w: bytes, qs: seq<nat>, rs: seq<nat>, a: nat)
    ensures PatchAll(w, qs + rs, a) == PatchAll(PatchAll(w, qs, a), rs, a)
    decreases |qs|
  {
    if qs == [] {
      assert qs + rs == rs;
    } else {
      assert (qs + rs)[1..] == qs[1..] + rs;
      PatchAppend(Patch(w, qs[0], a), qs[1..], rs, a);
    }
  }

  /** The bytes u are at p in w. */
  predicate In(w: bytes, p: nat, u: bytes) {
    p + |u| <= |w| && w[p..p + |u|] == u
  }

  /** Only bytes from lo up to hi differ. */
  predicate Within(w: bytes, w': bytes, lo: nat, hi: nat) {
    lo <= hi <= |w| == |w'| && w[..lo] == w'[..lo] && w[hi..] == w'[hi..]
  }

  lemma InParts(w: bytes, p: nat, u: bytes, t: bytes)
    ensures In(w, p, u + t) <==> In(w, p, u) && In(w, p + |u|, t)
  {
    if p + |u| + |t| <= |w| {
      var x := w[p..p + |u + t|];
      assert x[..|u|] == w[p..p + |u|] && x[|u|..] == w[p + |u|..p + |u| + |t|];
      assert x == x[..|u|] + x[|u|..];
      assert (u + t)[..|u|] == u && (u + t)[|u|..] == t;
    }
  }

  lemma StaysIn(w: bytes, w': bytes, lo: nat, hi: nat, p: nat, u: bytes)
    requires Within(w, w', lo, hi) && In(w, p, u) && (p + |u| <= lo || hi <= p)
    ensures In(w', p, u)
  {
    if p + |u| <= lo {
      assert w'[p..p + |u|] == w'[..lo][p..p + |u|] == w[..lo][p..p + |u|];
    } else {
      assert w'[p..p + |u|] == w'[hi..][p - hi..p - hi + |u|] == w[hi..][p - hi..p - hi + |u|];
    }
  }

  lemma WithinWider(w: bytes, w': bytes, lo: nat, hi: nat, lo': nat, hi': nat)
    requires Within(w, w', lo, hi) && lo' <= lo && hi <= hi' <= |w|
    ensures Within(w, w', lo', hi')
  {
    assert w[..lo'] == w[..lo][..lo'] && w'[..lo'] == w'[..lo][..lo'];
    assert w[hi'..] == w[hi..][hi' - hi..] && w'[hi'..] == w'[hi..][hi' - hi..];
  }

  /** Exactly the operand changes. */
  lemma PatchJump(w: bytes, p: nat, op: Opcode, x: nat, a: nat)
    requires In(w, p, I2(op, x))
    ensures In(Patch(w, p, a), p, I2(op, a)) && Within(w, Patch(w, p, a), p, p + 3)
  {
    assert w[p] == w[p..p + 3][0] == op;
  }

  // ---- The jumps of a statement that leave the enclosing loop ----

  /** Where the breaks (or the continues) of the enclosing loop are, in order. */
  function Leaves(breaks: bool, s: Stmt, p: nat): seq<nat>
    decreases s
  {
    match s
    case Break => if breaks then [p] else []
    case Continue => if breaks then [] else [p]
    case If(test, thn, alternate, els) =>
      var p1 := p + ExprLen(test) + 3;
      AllLeaves(breaks, thn, p1) + if alternate then AllLeaves(breaks, els, p1 + StmtsLen(thn) + 3) else []
    case _ => []
  }

  function AllLeaves(breaks: bool, ss: seq<Stmt>, p: nat): seq<nat>
    decreases ss
  {
    if ss == [] then [] else Leaves(breaks, ss[0], p) + AllLeaves(breaks, ss[1..], p + StmtLen(ss[0]))
  }

  // ---- Patching them is the same as having known the target ----

  /** Two stretches rewritten one after the other. */
  lemma TwoPhases(w: bytes, w1: bytes, w2: bytes, p: nat, x: bytes, y: bytes, y': bytes, g: bytes, z: bytes, z': bytes,
      q: nat, r: nat)
    requires |y| == |y'| && |z| == |z'| && q == p + |x| && r == q + |y| + |g| && In(w, p, x + y + g + z)
    requires Within(w, w1, q, q + |y|) && In(w1, q, y') && Within(w1, w2, r, r + |z|) && In(w2, r, z')
    ensures In(w2, p, x + y' + g + z') && Within(w, w2, p, r + |z|)
  {
    InParts(w, p, x + y + g, z);
    InParts(w, p, x + y, g);
    InParts(w, p, x, y);
    StaysIn(w, w1, q, q + |y|, p, x);
    StaysIn(w, w1, q, q + |y|, q + |y|, g);
    StaysIn(w1, w2, r, r + |z|, p, x);
    StaysIn(w1, w2, r, r + |z|, q, y');
    StaysIn(w1, w2, r, r + |z|, q + |y|, g);
    InParts(w2, p, x, y');
    InParts(w2, p, x + y', g);
    InParts(w2, p, x + y' + g, z');
    WithinWider(w, w1, q, q + |y|, p, r + |z|);
    WithinWider(w1, w2, r, r + |z|, p, r + |z|);
  }

  lemma PartsOf(w: bytes, p: nat, x: bytes, y: bytes, g: bytes, z: bytes, q: nat, r: nat)
    requires In(w, p, x + y + g + z) && q == p + |x| && r == q + |y| + |g|
    ensures In(w, q, y) && In(w, r, z)
  {
    InParts(w, p, x + y + g, z);
    InParts(w, p, x + y, g);
    InParts(w, p, x, y);
  }

  /** One kind of target is known now, the other is what it was. */
  function Brk(breaks: bool, a: nat, b: nat): nat { if breaks then a else b }

  /** At p in w, the code of s with targets b and n has become the code with the new target. */
  ghost predicate Retargeted(v: SView, breaks: bool, s: Stmt, p: nat, c: nat, b: nat, n: nat, a: nat, w: bytes,
      w': bytes) {
    In(w', p, v.one(s, p, c, Brk(breaks, a, b), Brk(breaks, n, a))) && Within(w, w', p, p + v.len1(s))
  }

  ghost predicate AllRetargeted(v: SView, breaks: bool, ss: seq<Stmt>, p: nat, c: nat, b: nat, n: nat, a: nat,
      w: bytes, w': bytes) {
    In(w', p, v.all(ss, p, c, Brk(breaks, a, b), Brk(breaks, n, a))) && Within(w, w', p, p + v.len(ss))
  }

  lemma {:induction false} Retarget(k: View, v: SView, slot: Layout, breaks: bool, s: Stmt, p: nat, c: nat, b: nat,
      n: nat, a: nat, w: bytes)
    requires Views(k, v, slot) && In(w, p, v.one(s, p, c, b, n))
    ensures Retargeted(v, breaks, s, p, c, b, n, a, w, PatchAll(w, Leaves(breaks, s, p), a))
    decreases s, 2, 0
  {
    match s
    case Break => RetargetLeave(v, slot, breaks, s, p, c, b, n, a, w);
    case Continue => RetargetLeave(v, slot, breaks, s, p, c, b, n, a, w);
    case If(_, _, _, _) => RetargetIf(k, v, slot, breaks, s, p, c, b, n, a, w);
    case _ => SameCode(k, v, slot, s, p, c, b, n, Brk(breaks, a, b), Brk(breaks, n, a));
  }

  /** Other statements do not depend on the targets of the enclosing loop. */
  lemma SameCode(k: View, v: SView, slot: Layout, s: Stmt, p: nat, c: nat, b: nat, n: nat, b': nat, n': nat)
    requires Views(k, v, slot) && (s.Do? || s.Assign? || s.For?)
    ensures v.one(s, p, c, b, n) == v.one(s, p, c, b', n')
  {
    if s.For? {
      var pre := p + k.len(s.iter) + 4;
      var p2 := pre + HeadLen(s.key, s.val);
      ForStmtShape(k, v, slot, s, p, c, b, n, pre, p2, p2 + v.len(s.body), c + |k.consts(s.iter)|);
      ForStmtShape(k, v, slot, s, p, c, b', n', pre, p2, p2 + v.len(s.body), c + |k.consts(s.iter)|);
    } else {
      SimpleShape(k, v, slot, s, p, c, b, n);
      SimpleShape(k, v, slot, s, p, c, b', n');
    }
  }

  lemma RetargetLeave(v: SView, slot: Layout, breaks: bool, s: Stmt, p: nat, c: nat, b: nat, n: nat, a: nat, w: bytes)
    requires IsSView(v, slot) && (s.Break? || s.Continue?) && In(w, p, v.one(s, p, c, b, n))
    ensures Retargeted(v, breaks, s, p, c, b, n, a, w, PatchAll(w, Leaves(breaks, s, p), a))
  {
    LeaveShape(v, slot, s, p, c, b, n);
    LeaveShape(v, slot, s, p, c, Brk(breaks, a, b), Brk(breaks, n, a));
    PatchJump(w, p, JUMP, if s.Break? then b else n, a);
  }

  lemma {:induction false} RetargetIf(k: View, v: SView, slot: Layout, breaks: bool, s: Stmt, p: nat, c: nat, b: nat,
      n: nat, a: nat, w: bytes)
    requires Views(k, v, slot) && s.If? && In(w, p, v.one(s, p, c, b, n))
    ensures Retargeted(v, breaks, s, p, c, b, n, a, w, PatchAll(w, Leaves(breaks, s, p), a))
    decreases s, 1, 0
  {
    var p1, c1 := p + k.len(s.test) + 3, c + |k.consts(s.test)|;
    var p2 := p1 + v.len(s.thn) + if s.alternate then 3 else 0;
    IfStmtParts(k, v, slot, s, p, c, b, n, p1, p2, c1);
    IfStmtParts(k, v, slot, s, p, c, Brk(breaks, a, b), Brk(breaks, n, a), p1, p2, c1);
    var x := k.code(s.test, p, c) + I2(JUMP_IF_FALSE, p2);
    PartsOf(w, p, x, v.all(s.thn, p1, c1, b, n), ElseJump(v, s, p), ElseCode(v, s, p2, c1, b, n), p1, p2);
    RetargetAll(k, v, slot, breaks, s.thn, p1, c1, b, n, a, w);
    var w1 := PatchAll(w, AllLeaves(breaks, s.thn, p1), a);
    RetargetArms(k, v, slot, breaks, s, p, c1, b, n, a, w, w1, x, p1, p2);
    LeavesOfIf(k, v, slot, breaks, s, p, p1, p2);
    PatchAppend(w, AllLeaves(breaks, s.thn, p1), ElseLeaves(breaks, s, p2), a);
  }

  /** The two arms as stretches of the code; without an alternative the second is empty. */
  function ElseJump(v: SView, s: Stmt, p: nat): bytes { if s.If? && s.alternate then I2(JUMP, p + v.len1(s)) else [] }

  function ElseCode(v: SView, s: Stmt, p2: nat, c1: nat, b: nat, n: nat): bytes
    requires s.If?
  {
    if s.alternate then v.all(s.els, p2, c1 + |v.consts(s.thn)|, b, n) else []
  }

  lemma IfStmtParts(k: View, v: SView, slot: Layout, s: Stmt, p: nat, c: nat, b: nat, n: nat, p1: nat, p2: nat, c1: nat)
    requires Views(k, v, slot) && s.If? && p1 == p + k.len(s.test) + 3
             && p2 == p1 + v.len(s.thn) + (if s.alternate then 3 else 0)
    requires c1 == c + |k.consts(s.test)|
    ensures p + v.len1(s) == p2 + |ElseCode(v, s, p2, c1, b, n)|
    ensures v.one(s, p, c, b, n) ==
            k.code(s.test, p, c) + I2(JUMP_IF_FALSE, p2) + v.all(s.thn, p1, c1, b, n) + ElseJump(v, s, p) +
              ElseCode(v, s, p2, c1, b, n)
  {
    IfStmtShape(k, v, slot, s, p, c, b, n, p1, p2, c1);
  }

  function ElseLeaves(breaks: bool, s: Stmt, p2: nat): seq<nat>
    requires s.If?
  {
    if s.alternate then AllLeaves(breaks, s.els, p2) else []
  }

  lemma {:induction false} RetargetElse(k: View, v: SView, slot: Layout, breaks: bool, s: Stmt, p2: nat, c1: nat,
      b: nat, n: nat, a: nat, w: bytes)
    requires Views(k, v, slot) && s.If? && In(w, p2, ElseCode(v, s, p2, c1, b, n))
    ensures var w' := PatchAll(w, ElseLeaves(breaks, s, p2), a);
            && In(w', p2, ElseCode(v, s, p2, c1, Brk(breaks, a, b), Brk(breaks, n, a)))
            && Within(w, w', p2, p2 + |ElseCode(v, s, p2, c1, b, n)|)
    decreases s, 0, 0
  {
    if s.alternate { RetargetAll(k, v, slot, breaks, s.els, p2, c1 + |v.consts(s.thn)|, b, n, a, w); }
  }

  /** Both arms of a conditional, w1 being the code between the two. */
  lemma {:induction false} RetargetArms(k: View, v: SView, slot: Layout, breaks: bool, s: Stmt, p: nat, c1: nat,
      b: nat, n: nat, a: nat, w: bytes, w1: bytes, x: bytes, p1: nat, p2: nat)
    requires Views(k, v, slot) && s.If? && p1 == p + |x| && p2 == p1 + v.len(s.thn) + (if s.alternate then 3 else 0)
    requires In(w, p, x + v.all(s.thn, p1, c1, b, n) + ElseJump(v, s, p) + ElseCode(v, s, p2, c1, b, n))
    requires AllRetargeted(v, breaks, s.thn, p1, c1, b, n, a, w, w1)
    ensures var b', n' := Brk(breaks, a, b), Brk(breaks, n, a);
            var w' := PatchAll(w1, ElseLeaves(breaks, s, p2), a);
            && In(w', p, x + v.all(s.thn, p1, c1, b', n') + ElseJump(v, s, p) + ElseCode(v, s, p2, c1, b', n'))
            && Within(w, w', p, p2 + |ElseCode(v, s, p2, c1, b, n)|)
    decreases s, 0, 1
  {
    var b', n' := Brk(breaks, a, b), Brk(breaks, n, a);
    var y, y', g := v.all(s.thn, p1, c1, b, n), v.all(s.thn, p1, c1, b', n'), ElseJump(v, s, p);
    var z, z' := ElseCode(v, s, p2, c1, b, n), ElseCode(v, s, p2, c1, b', n');
    PartsOf(w, p, x, y, g, z, p1, p2);
    StaysIn(w, w1, p1, p1 + |y|, p2, z);
    RetargetElse(k, v, slot, breaks, s, p2, c1, b, n, a, w1);
    TwoPhases(w, w1, PatchAll(w1, ElseLeaves(breaks, s, p2), a), p, x, y, y', g, z, z', p1, p2);
  }

  lemma LeavesOfIf(k: View, v: SView, slot: Layout, breaks: bool, s: Stmt, p: nat, p1: nat, p2: nat)
    requires Views(k, v, slot) && s.If? && p1 == p + k.len(s.test) + 3 && p2 == p1 + v.len(s.thn) + if s.alternate
             then 3 else 0
    ensures Leaves(breaks, s, p) == AllLeaves(breaks, s.thn, p1) + ElseLeaves(breaks, s, p2)
  {
    assert k.len(s.test) == ExprLen(s.test) && v.len(s.thn) == StmtsLen(s.thn);
  }

  lemma {:induction false} RetargetAll(k: View, v: SView, slot: Layout, breaks: bool, ss: seq<Stmt>, p: nat, c: nat,
      b: nat, n: nat, a: nat, w: bytes)
    requires Views(k, v, slot) && In(w, p, v.all(ss, p, c, b, n))
    ensures AllRetargeted(v, breaks, ss, p, c, b, n, a, w, PatchAll(w, AllLeaves(breaks, ss, p), a))
    decreases ss, 2, 0
  {
    if ss == [] {
      AllEmpty(v, slot);
    } else {
      var b', n' := Brk(breaks, a, b), Brk(breaks, n, a);
      AllShape(v, slot, ss, p, c, b, n);
      AllShape(v, slot, ss, p, c, b', n');
      RetargetCons(k, v, slot, breaks, ss, p, c, b, n, a, w, p + v.len1(ss[0]), c + |v.consts1(ss[0])|);
      LeavesOfCons(v, slot, breaks, ss, p);
    }
  }

  lemma LeavesOfCons(v: SView, slot: Layout, breaks: bool, ss: seq<Stmt>, p: nat)
    requires IsSView(v, slot) && ss != []
    ensures AllLeaves(breaks, ss, p) == Leaves(breaks, ss[0], p) + AllLeaves(breaks, ss[1..], p + v.len1(ss[0]))
  {
    assert v.len1(ss[0]) == StmtLen(ss[0]);
  }

  lemma {:induction false} RetargetCons(k: View, v: SView, slot: Layout, breaks: bool, ss: seq<Stmt>, p: nat, c: nat,
      b: nat, n: nat, a: nat, w: bytes, p1: nat, c1: nat)
    requires Views(k, v, slot) && ss != [] && p1 == p + v.len1(ss[0])
             && In(w, p, v.one(ss[0], p, c, b, n) + v.all(ss[1..], p1, c1, b, n))
    ensures var w' := PatchAll(w, Leaves(breaks, ss[0], p) + AllLeaves(breaks, ss[1..], p1), a);
            && In(w', p, v.one(ss[0], p, c, Brk(breaks, a, b), Brk(breaks, n, a)) +
              v.all(ss[1..], p1, c1, Brk(breaks, a, b), Brk(breaks, n, a)))
            && Within(w, w', p, p1 + v.len(ss[1..]))
    decreases ss, 1, 0
  {
    var b', n' := Brk(breaks, a, b), Brk(breaks, n, a);
    var y, y' := v.one(ss[0], p, c, b, n), v.one(ss[0], p, c, b', n');
    var z, z' := v.all(ss[1..], p1, c1, b, n), v.all(ss[1..], p1, c1, b', n');
    var qs, rs := Leaves(breaks, ss[0], p), AllLeaves(breaks, ss[1..], p1);
    InParts(w, p, y, z);
    Retarget(k, v, slot, breaks, ss[0], p, c, b, n, a, w);
    var w1 := PatchAll(w, qs, a);
    PatchAppend(w, qs, rs, a);
    StaysIn(w, w1, p, p1, p1, z);
    RetargetAll(k, v, slot, breaks, ss[1..], p1, c1, b, n, a, w1);
    InRow(w, w1, PatchAll(w1, rs, a), p, y, y', z, z', p1);
  }

  lemma InRow(w: bytes, w1: bytes, w2: bytes, p: nat, y: bytes, y': bytes, z: bytes, z': bytes, r: nat)
    requires |y| == |y'| && |z| == |z'| && r == p + |y| && In(w, p, y + z)
    requires Within(w, w1, p, r) && In(w1, p, y') && Within(w1, w2, r, r + |z|) && In(w2, r, z')
    ensures In(w2, p, y' + z') && Within(w, w2, p, r + |z|)
  {
    StaysIn(w1, w2, r, r + |z|, p, y');
    InParts(w2, p, y', z');
    WithinWider(w, w1, p, r, p, r + |z|);
    WithinWider(w1, w2, r, r + |z|, p, r + |z|);
  }

  // ---- What is at those positions ----

  /** Between lo and hi, jumps at the given positions, in order and apart. */
  ghost predicate JumpsAt(w: bytes, qs: seq<nat>, lo: nat, hi: nat) {
    && hi <= |w| && (forall i :: 0 <= i < |qs| ==> lo <= qs[i] && qs[i] + 3 <= hi && w[qs[i]] == JUMP)
    && (forall i, j :: 0 <= i < j < |qs| ==> qs[i] + 3 <= qs[j])
  }

  lemma JumpsJoin(w: bytes, qs: seq<nat>, rs: seq<nat>, lo: nat, mid: nat, mid': nat, hi: nat)
    requires JumpsAt(w, qs, lo, mid) && JumpsAt(w, rs, mid', hi) && lo <= mid <= mid' <= hi
    ensures JumpsAt(w, qs + rs, lo, hi)
  {
  }

  lemma JumpsWider(w: bytes, qs: seq<nat>, lo: nat, hi: nat, lo': nat, hi': nat)
    requires JumpsAt(w, qs, lo, hi) && lo' <= lo && hi <= hi' <= |w|
    ensures JumpsAt(w, qs, lo', hi')
  {
  }

  lemma {:induction false} LeavesAreJumps(k: View, v: SView, slot: Layout, breaks: bool, s: Stmt, p: nat, c: nat,
      b: nat, n: nat, w: bytes)
    requires Views(k, v, slot) && In(w, p, v.one(s, p, c, b, n))
    ensures JumpsAt(w, Leaves(breaks, s, p), p, p + v.len1(s))
    decreases s, 1
  {
    match s
    case If(_, _, _, _) => ArmLeavesAreJumps(k, v, slot, breaks, s, p, c, b, n, w);
    case Break => LeaveIsJump(v, slot, s, p, c, b, n, w);
    case Continue => LeaveIsJump(v, slot, s, p, c, b, n, w);
    case _ =>
  }

  lemma {:induction false} ArmLeavesAreJumps(k: View, v: SView, slot: Layout, breaks: bool, s: Stmt, p: nat, c: nat,
      b: nat, n: nat, w: bytes)
    requires Views(k, v, slot) && s.If? && In(w, p, v.one(s, p, c, b, n))
    ensures JumpsAt(w, Leaves(breaks, s, p), p, p + v.len1(s))
    decreases s, 0
  {
    var p1, c1 := p + k.len(s.test) + 3, c + |k.consts(s.test)|;
    var p2 := p1 + v.len(s.thn) + if s.alternate then 3 else 0;
    IfStmtParts(k, v, slot, s, p, c, b, n, p1, p2, c1);
    PartsOf(w, p, k.code(s.test, p, c) + I2(JUMP_IF_FALSE, p2), v.all(s.thn, p1, c1, b, n), ElseJump(v, s, p),
      ElseCode(v, s, p2, c1, b, n), p1, p2);
    AllLeavesAreJumps(k, v, slot, breaks, s.thn, p1, c1, b, n, w);
    if s.alternate { AllLeavesAreJumps(k, v, slot, breaks, s.els, p2, c1 + |v.consts(s.thn)|, b, n, w); }
    LeavesOfIf(k, v, slot, breaks, s, p, p1, p2);
    JumpsJoin(w, AllLeaves(breaks, s.thn, p1), ElseLeaves(breaks, s, p2), p1, p1 + v.len(s.thn), p2, p + v.len1(s));
    JumpsWider(w, Leaves(breaks, s, p), p1, p + v.len1(s), p, p + v.len1(s));
  }

  lemma LeaveIsJump(v: SView, slot: Layout, s: Stmt, p: nat, c: nat, b: nat, n: nat, w: bytes)
    requires IsSView(v, slot) && (s.Break? || s.Continue?) && In(w, p, v.one(s, p, c, b, n))
    ensures v.len1(s) == 3 && w[p] == JUMP
  {
    LeaveShape(v, slot, s, p, c, b, n);
    assert w[p] == w[p..p + 3][0];
  }

  lemma {:induction false} AllLeavesAreJumps(k: View, v: SView, slot: Layout, breaks: bool, ss: seq<Stmt>, p: nat,
      c: nat, b: nat, n: nat, w: bytes)
    requires Views(k, v, slot) && In(w, p, v.all(ss, p, c, b, n))
    ensures JumpsAt(w, AllLeaves(breaks, ss, p), p, p + v.len(ss))
    decreases ss, 1
  {
    if ss != [] {
      var p1, c1 := p + v.len1(ss[0]), c + |v.consts1(ss[0])|;
      AllShape(v, slot, ss, p, c, b, n);
      InParts(w, p, v.one(ss[0], p, c, b, n), v.all(ss[1..], p1, c1, b, n));
      LeavesAreJumps(k, v, slot, breaks, ss[0], p, c, b, n, w);
      AllLeavesAreJumps(k, v, slot, breaks, ss[1..], p1, c1, b, n, w);
      LeavesOfCons(v, slot, breaks, ss, p);
      JumpsJoin(w, Leaves(breaks, ss[0], p), AllLeaves(breaks, ss[1..], p1), p, p1, p1, p + v.len(ss));
    }
  }

  /** A loop body compiled with placeholders, its breaks then its continues patched, is the body with its targets. */
  lemma PatchedBody(k: View, v: SView, slot: Layout, ss: seq<Stmt>, c: nat, brk: nat, cont: nat, pre: bytes,
      post: bytes, p: nat, w: bytes)
    requires Views(k, v, slot) && p == |pre| && w == pre + v.all(ss, p, c, 0, 0) + post
    ensures PatchAll(PatchAll(w, AllLeaves(true, ss, p), brk), AllLeaves(false, ss, p), cont) == pre +
            v.all(ss, p, c, brk, cont) + post
  {
    InMiddle(pre, v.all(ss, p, c, 0, 0), post);
    RetargetAll(k, v, slot, true, ss, p, c, 0, 0, brk, w);
    var w1 := PatchAll(w, AllLeaves(true, ss, p), brk);
    RetargetAll(k, v, slot, false, ss, p, c, brk, 0, cont, w1);
    WithinIs(w, w1, PatchAll(w1, AllLeaves(false, ss, p), cont), pre, v.all(ss, p, c, 0, 0),
      v.all(ss, p, c, brk, cont), post);
  }

  /** Jumps at the breaks, and once these are patched, at the continues. */
  ghost predicate LoopJumps(w: bytes, breaks: seq<nat>, continues: seq<nat>, brk: nat, lo: nat, hi: nat) {
    JumpsAt(w, breaks, lo, hi) && JumpsAt(PatchAll(w, breaks, brk), continues, lo, hi)
  }

  /** And what is patched are jumps, before and after the breaks are. */
  lemma PatchedJumps(k: View, v: SView, slot: Layout, ss: seq<Stmt>, c: nat, brk: nat, w: bytes, p: nat)
    requires Views(k, v, slot) && In(w, p, v.all(ss, p, c, 0, 0))
    ensures LoopJumps(w, AllLeaves(true, ss, p), AllLeaves(false, ss, p), brk, p, p + v.len(ss))
  {
    AllLeavesAreJumps(k, v, slot, true, ss, p, c, 0, 0, w);
    RetargetAll(k, v, slot, true, ss, p, c, 0, 0, brk, w);
    AllLeavesAreJumps(k, v, slot, false, ss, p, c, brk, 0, PatchAll(w, AllLeaves(true, ss, p), brk));
  }

  lemma InMiddle(pre: bytes, y: bytes, post: bytes)
    ensures In(pre + y + post, |pre|, y)
  {
  }

  lemma WithinIs(w: bytes, w1: bytes, w2: bytes, pre: bytes, y: bytes, y': bytes, post: bytes)
    requires w == pre + y + post && |y| == |y'| && Within(w, w1, |pre|, |pre| + |y|)
             && Within(w1, w2, |pre|, |pre| + |y|) && In(w2, |pre|, y')
    ensures w2 == pre + y' + post
  {
    assert w2 == w2[..|pre|] + w2[|pre|..|pre| + |y|] + w2[|pre| + |y|..];
    assert w[..|pre|] == pre && w[|pre| + |y|..] == post;
  }
}
