/** Variable-width instructions: writing them, reading them back, and walking a code buffer. */
module Bytecode {
  import opened Common

  type Opcode = byte

  const PUSH_CONST: Opcode := 0
  const POP: Opcode := 1
  const PUSH_TRUE: Opcode := 5
  const PUSH_FALSE: Opcode := 6
  const JUMP_IF_FALSE: Opcode := 21
  const AND_JUMP: Opcode := 22
  const OR_JUMP: Opcode := 23
  const JUMP: Opcode := 24
  const PUSH_NIL: Opcode := 26
  const CREATE_LIST: Opcode := 27
  const CREATE_LIST_DYN_LEN: Opcode := 28
  const SPREAD_LIST: Opcode := 41
  const APPEND: Opcode := 43
  const GET_LOCAL: Opcode := 90
  const SET_LOCAL: Opcode := 91
  const ITER_INIT: Opcode := 107
  const ITER_NEXT: Opcode := 108
  const ITER_KEY: Opcode := 110
  const ITER_VALUE: Opcode := 111
  const INT_BIN: Opcode := 114
  const SUSPEND: Opcode := 149

  /** The operand of INT_BIN that means addition. */
  const ADD: nat := 0

  /** Operand widths in bytes; opcodes from 150 on do not exist. */
  function Widths(op: Opcode): (r: seq<nat>)
    ensures |r| <= 4 && forall i :: 0 <= i < |r| ==> r[i] == 1 || r[i] == 2
  {
    if op in {0, 14, 21, 22, 23, 24, 25, 27, 29, 30, 32, 33, 34, 35, 36, 40, 43, 48, 49, 50, 58, 61, 62, 74, 87, 88, 89,
              94, 95, 96, 97, 98, 100, 128, 133, 135, 137, 142, 145, 146} then [2]
    else if op in {31, 67, 68, 71, 75, 99, 103, 104, 105, 106, 124, 125, 126, 129, 130, 131, 132, 134} then [2, 2]
    else if op in {38, 44, 45, 46, 47} then [2, 1]
    else if op in {79, 81, 83, 84, 90, 91, 107, 108, 109, 111, 112, 114, 115, 116, 117, 127, 143} then [1]
    else if op == 51 then [1, 1]
    else if op == 52 then [1, 2, 2]
    else if op == 57 then [1, 1, 2]
    else if op in {59, 60} then [1, 2]
    else if op == 73 then [2, 1, 2, 1]
    else if op == 80 then [1, 1, 1]
    else if op == 86 then [1, 2, 2, 2]
    else []
  }

  /** Total width. */
  function Sum(ws: seq<nat>): nat {
    if ws == [] then 0 else ws[0] + Sum(ws[1..])
  }

  // ---- Writing and reading operands ----

  /** An operand cut down to its width, most significant byte first. */
  function Operand(w: nat, o: int): bytes {
    if w == 1 then [o % 256] else if w == 2 then [(o / 256) % 256, o % 256] else []
  }

  function Operands(ws: seq<nat>, os: seq<int>): bytes
    requires |os| == |ws|
  {
    if ws == [] then [] else Operand(ws[0], os[0]) + Operands(ws[1..], os[1..])
  }

  function Make(op: Opcode, os: seq<int>): bytes
    requires |os| == |Widths(op)|
  {
    [op] + Operands(Widths(op), os)
  }

  lemma {:induction false} OperandsLength(ws: seq<nat>, os: seq<int>)
    requires |os| == |ws| && forall i :: 0 <= i < |ws| ==> ws[i] == 1 || ws[i] == 2
    ensures |Operands(ws, os)| == Sum(ws)
  {
    if ws != [] { OperandsLength(ws[1..], os[1..]); }
  }

  lemma {:induction false} OperandsSnoc(ws: seq<nat>, os: seq<int>, w: nat, o: int)
    requires |os| == |ws|
    ensures Operands(ws + [w], os + [o]) == Operands(ws, os) + Operand(w, o)
    ensures Sum(ws + [w]) == Sum(ws) + w
  {
    if ws == [] {
      assert (ws + [w])[1..] == [] && (os + [o])[1..] == [];
    } else {
      OperandsSnoc(ws[1..], os[1..], w, o);
      assert (ws + [w])[1..] == ws[1..] + [w] && (os + [o])[1..] == os[1..] + [o];
    }
  }

  /** MakeInstruction fills the buffer operand by operand. */
  method MakeInstruction(op: Opcode, os: seq<int>) returns (inst: array<byte>)
    requires |os| == |Widths(op)|
    ensures fresh(inst) && inst[..] == Make(op, os)
  {
    inst := Fill(op, Widths(op), os);
  }

  method Fill(op: Opcode, ws: seq<nat>, os: seq<int>) returns (inst: array<byte>)
    requires |os| == |ws| && forall i :: 0 <= i < |ws| ==> ws[i] == 1 || ws[i] == 2
    ensures fresh(inst) && inst[..] == [op] + Operands(ws, os)
  {
    var total := TotalWidth(ws);
    inst := new byte[1 + total];
    inst[0] := op;
    var offset := 1;
    for i := 0 to |ws|
      invariant offset == 1 + Sum(ws[..i]) <= 1 + total == inst.Length
      invariant inst[..offset] == [op] + Operands(ws[..i], os[..i])
    {
      FillStep(ws, os, i);
      WriteOperand(inst, offset, ws[i], os[i]);
      offset := offset + ws[i];
    }
    assert ws[..|ws|] == ws && os[..|ws|] == os && inst[..offset] == inst[..];
  }

  method WriteOperand(inst: array<byte>, offset: nat, w: nat, o: int)
    requires (w == 1 || w == 2) && offset + w <= inst.Length
    modifies inst
    ensures inst[..offset + w] == old(inst[..offset]) + Operand(w, o)
  {
    if w == 1 {
      inst[offset] := o % 256;
    } else {
      inst[offset] := (o / 256) % 256;
      inst[offset + 1] := o % 256;
    }
  }

  method TotalWidth(ws: seq<nat>) returns (total: nat)
    ensures total == Sum(ws)
  {
    total := 0;
    for i := 0 to |ws|
      invariant total == Sum(ws[..i])
    {
      assert ws[..i + 1] == ws[..i] + [ws[i]];
      OperandsSnoc(ws[..i], ws[..i], ws[i], 0);
      total := total + ws[i];
    }
    assert ws[..|ws|] == ws;
  }

  lemma FillStep(ws: seq<nat>, os: seq<int>, i: nat)
    requires |os| == |ws| && i < |ws|
    ensures Operands(ws[..i + 1], os[..i + 1]) == Operands(ws[..i], os[..i]) + Operand(ws[i], os[i])
    ensures Sum(ws[..i + 1]) == Sum(ws[..i]) + ws[i] <= Sum(ws)
  {
    assert ws[..i + 1] == ws[..i] + [ws[i]] && os[..i + 1] == os[..i] + [os[i]];
    OperandsSnoc(ws[..i], os[..i], ws[i], os[i]);
    SumPrefix(ws, i + 1);
  }

  lemma {:induction false} SumPrefix(ws: seq<nat>, i: nat)
    requires i <= |ws|
    ensures Sum(ws[..i]) <= Sum(ws)
  {
    if i > 0 {
      SumPrefix(ws[1..], i - 1);
      assert ws[..i][1..] == ws[1..][..i - 1];
    }
  }

  /** The operand that a width takes from the front of b. */
  function Take(w: nat, b: bytes): int
    requires w <= |b|
  {
    var hi: int := if w == 2 then b[0] else 0;
    if w == 1 then b[0] else if w == 2 then hi * 256 + b[1] else 0
  }

  function Decode(ws: seq<nat>, b: bytes): seq<int>
    requires Sum(ws) <= |b|
  {
    if ws == [] then [] else [Take(ws[0], b)] + Decode(ws[1..], b[ws[0]..])
  }

  /** ReadOperands: the operands, and how many bytes they took. */
  method ReadOperands(ws: seq<nat>, b: bytes) returns (os: seq<int>, offset: nat)
    requires Sum(ws) <= |b|
    ensures os == Decode(ws, b) && offset == Sum(ws)
  {
    os, offset := [], 0;
    var i := 0;
    ghost var goal := Decode(ws, b);
    assert ws[0..] == ws && b[0..] == b;
    while i < |ws|
      invariant 0 <= i <= |ws| && offset + Sum(ws[i..]) == Sum(ws)
      invariant os + Decode(ws[i..], b[offset..]) == goal
    {
      DecodeStep(ws, b, i, offset, os);
      os := os + [Take(ws[i], b[offset..])];
      offset := offset + ws[i];
      i := i + 1;
    }
  }

  lemma DecodeStep(ws: seq<nat>, b: bytes, i: nat, offset: nat, os: seq<int>)
    requires i < |ws| && offset + Sum(ws[i..]) <= |b|
    ensures Sum(ws[i..]) == ws[i] + Sum(ws[i + 1..])
    ensures os + Decode(ws[i..], b[offset..]) == os + [Take(ws[i], b[offset..])] +
            Decode(ws[i + 1..], b[offset + ws[i]..])
  {
    assert ws[i..][1..] == ws[i + 1..] && b[offset..][ws[i]..] == b[offset + ws[i]..];
  }

  /** An operand fits its width. */
  predicate Fits(w: nat, o: int) {
    0 <= o < if w == 1 then 256 else 65536
  }

  /** Reading back a first operand and then the rest. */
  lemma DecodeHead(ws: seq<nat>, os: seq<int>, rest: bytes, tail: bytes)
    requires |os| == |ws| && ws != [] && (ws[0] == 1 || ws[0] == 2) && tail == Operands(ws[1..], os[1..]) + rest
    requires Sum(ws[1..]) <= |tail|
    ensures Sum(ws) <= |Operands(ws, os) + rest|
    ensures Decode(ws, Operands(ws, os) + rest) == [Take(ws[0], Operand(ws[0], os[0]) + tail)] + Decode(ws[1..], tail)
  {
    var head := Operand(ws[0], os[0]);
    Regrouped(head, Operands(ws[1..], os[1..]), rest);
    FirstOperand(ws[0], os[0], tail);
    DecodeCons(ws, head + tail, tail);
  }

  lemma Regrouped(a: bytes, b: bytes, c: bytes)
    ensures a + b + c == a + (b + c)
  {
  }

  lemma DecodeCons(ws: seq<nat>, b: bytes, tail: bytes)
    requires ws != [] && ws[0] <= |b| && b[ws[0]..] == tail && Sum(ws[1..]) <= |tail|
    ensures Sum(ws) <= |b| && Decode(ws, b) == [Take(ws[0], b)] + Decode(ws[1..], tail)
  {
  }

  /** The first operand is read back exactly when it fits, and the rest follows it. */
  lemma FirstOperand(w: nat, o: int, rest: bytes)
    requires w == 1 || w == 2
    ensures var b := Operand(w, o) + rest;
            |b| >= w && (Take(w, b) == o <==> Fits(w, o)) && b[w..] == rest
  {
  }

  lemma SameCons(a: int, s: seq<int>, b: int, t: seq<int>)
    ensures [a] + s == [b] + t <==> a == b && s == t
  {
    assert ([a] + s)[0] == a && ([a] + s)[1..] == s && ([b] + t)[0] == b && ([b] + t)[1..] == t;
  }

  ghost predicate AllFit(ws: seq<nat>, os: seq<int>)
    requires |os| == |ws|
  {
    forall i :: 0 <= i < |ws| ==> Fits(ws[i], os[i])
  }

  lemma AllFitCons(ws: seq<nat>, os: seq<int>)
    requires |os| == |ws| && ws != []
    ensures AllFit(ws, os) <==> Fits(ws[0], os[0]) && AllFit(ws[1..], os[1..])
  {
    assert forall i :: 0 <= i < |ws| - 1 ==> Fits(ws[1..][i], os[1..][i]) == Fits(ws[i + 1], os[i + 1]);
  }

  /** What is read back is what was written, exactly when every operand fits its width. */
  lemma {:induction false} DecodeOperands(ws: seq<nat>, os: seq<int>, rest: bytes)
    requires |os| == |ws| && forall i :: 0 <= i < |ws| ==> ws[i] == 1 || ws[i] == 2
    ensures Sum(ws) <= |Operands(ws, os) + rest|
    ensures Decode(ws, Operands(ws, os) + rest) == os <==> AllFit(ws, os)
  {
    if ws != [] {
      var tail := Operands(ws[1..], os[1..]) + rest;
      DecodeOperands(ws[1..], os[1..], rest);
      DecodeHead(ws, os, rest, tail);
      FirstOperand(ws[0], os[0], tail);
      var first := Take(ws[0], Operand(ws[0], os[0]) + tail);
      SameCons(first, Decode(ws[1..], tail), os[0], os[1..]);
      assert [os[0]] + os[1..] == os;
      AllFitCons(ws, os);
    }
  }

  /** MakeInstruction and ReadOperands invert each other, exactly for operands within width. */
  lemma InstructionRoundTrip(op: Opcode, os: seq<int>, rest: bytes)
    requires |os| == |Widths(op)|
    ensures var b := Make(op, os) + rest;
            && b[0] == op && Sum(Widths(op)) <= |b[1..]|
            && (Decode(Widths(op), b[1..]) == os <==> AllFit(Widths(op), os))
  {
    DecodeOperands(Widths(op), os, rest);
    assert (Make(op, os) + rest)[1..] == Operands(Widths(op), os) + rest;
  }

  // ---- Instruction boundaries ----

  function Size(op: Opcode): nat { 1 + Sum(Widths(op)) }

  /** p is reached from the start of b by skipping whole instructions, `size` giving their lengths. */
  predicate Skips(size: Opcode -> nat, b: bytes, p: nat) {
    p == 0 ||
    (b != [] && 0 < size(b[0]) <= |b| && size(b[0]) <= p && Skips(size, b[size(b[0])..], p - size(b[0])))
  }

  predicate Start(b: bytes, p: nat) {
    Skips(Size, b, p)
  }

  /** b is a sequence of whole instructions. */
  predicate WholeCode(b: bytes) {
    Start(b, |b|)
  }

  lemma {:induction false} SkipsWithin(size: Opcode -> nat, b: bytes, p: nat)
    requires Skips(size, b, p)
    ensures p <= |b|
  {
    if p != 0 { SkipsWithin(size, b[size(b[0])..], p - size(b[0])); }
  }

  /** After whole instructions, the boundaries of what follows are those of its own, shifted. */
  lemma {:induction false} SkipsAppend(size: Opcode -> nat, a: bytes, b: bytes, p: nat)
    requires Skips(size, a, |a|)
    ensures p <= |a| ==> (Skips(size, a + b, p) <==> Skips(size, a, p))
    ensures p >= |a| ==> (Skips(size, a + b, p) <==> Skips(size, b, p - |a|))
    decreases |a|
  {
    if a == [] {
      assert a + b == b;
    } else {
      var n := size(a[0]);
      SkipsWithin(size, a[n..], |a| - n);
      assert (a + b)[n..] == a[n..] + b;
      if p >= n { SkipsAppend(size, a[n..], b, p - n); }
    }
  }

  lemma StartAppend(a: bytes, b: bytes, p: nat)
    requires WholeCode(a)
    ensures p <= |a| ==> (Start(a + b, p) <==> Start(a, p))
    ensures p >= |a| ==> (Start(a + b, p) <==> Start(b, p - |a|))
  {
    SkipsAppend(Size, a, b, p);
  }

  lemma WholeAppend(a: bytes, b: bytes)
    requires WholeCode(a) && WholeCode(b)
    ensures WholeCode(a + b)
  {
    SkipsBoth(Size, a, b);
  }

  lemma SkipsBoth(size: Opcode -> nat, a: bytes, b: bytes)
    requires Skips(size, a, |a|) && Skips(size, b, |b|)
    ensures Skips(size, a + b, |a + b|)
  {
    SkipsAppend(size, a, b, |a + b|);
  }

  lemma MakeIsWhole(op: Opcode, os: seq<int>)
    requires |os| == |Widths(op)|
    ensures |Make(op, os)| == Size(op) && WholeCode(Make(op, os))
    ensures forall p: nat :: Start(Make(op, os), p) <==> p == 0 || p == Size(op)
  {
    OperandsLength(Widths(op), os);
    SkipsOne(Size, Make(op, os));
  }

  lemma SkipsOne(size: Opcode -> nat, b: bytes)
    requires b != [] && size(b[0]) == |b|
    ensures forall p: nat :: Skips(size, b, p) <==> p == 0 || p == |b|
  {
    assert b[size(b[0])..] == [];
  }

  /** Rewriting the operands of an instruction moves no instruction boundary. */
  lemma PatchKeepsBoundaries(a: bytes, op: Opcode, os: seq<int>, os': seq<int>, c: bytes, p: nat)
    requires WholeCode(a) && |os| == |os'| == |Widths(op)|
    ensures Start(a + Make(op, os) + c, p) <==> Start(a + Make(op, os') + c, p)
  {
    MakeIsWhole(op, os);
    MakeIsWhole(op, os');
    SameBoundaries(Size, a, Make(op, os), Make(op, os'), c, p);
  }

  lemma SameBoundaries(size: Opcode -> nat, a: bytes, m: bytes, m': bytes, c: bytes, p: nat)
    requires Skips(size, a, |a|) && |m| == |m'| && Skips(size, m, |m|) && Skips(size, m', |m'|)
    requires forall q: nat :: Skips(size, m, q) <==> Skips(size, m', q)
    ensures Skips(size, a + m + c, p) <==> Skips(size, a + m' + c, p)
  {
    SkipsAppend(size, a, m, |a + m|);
    SkipsAppend(size, a, m', |a + m'|);
    SkipsAppend(size, a + m, c, p);
    SkipsAppend(size, a + m', c, p);
    SkipsAppend(size, a, m, p);
    SkipsAppend(size, a, m', p);
  }

  /** The instructions of whole code, one by one. */
  function Pieces(size: Opcode -> nat, b: bytes): seq<bytes>
    requires Skips(size, b, |b|)
    decreases |b|
  {
    if b == [] then []
    else
      var n := size(b[0]);
      [b[..n]] + Pieces(size, b[n..])
  }

  function Split(b: bytes): seq<bytes>
    requires WholeCode(b)
  {
    Pieces(Size, b)
  }

  function Mapped(parts: seq<bytes>, f: bytes -> bytes): bytes {
    if parts == [] then [] else f(parts[0]) + Mapped(parts[1..], f)
  }

  /** Every instruction goes through the callback by itself. */
  lemma {:induction false} MappedIs(a: seq<bytes>, x: bytes, b: seq<bytes>, f: bytes -> bytes)
    ensures Mapped(a + [x] + b, f) == Mapped(a, f) + f(x) + Mapped(b, f)
    decreases |a|
  {
    var all := a + [x] + b;
    if a == [] {
      assert all[1..] == b;
    } else {
      assert all[1..] == a[1..] + [x] + b;
      MappedIs(a[1..], x, b, f);
      var u, v, w, z := f(a[0]), Mapped(a[1..], f), f(x), Mapped(b, f);
      assert u + (v + w + z) == u + v + w + z;
    }
  }

  /** MapInstructions: every instruction through the callback, in order. */
  method MapInstructions(b: bytes, f: bytes -> bytes) returns (r: bytes)
    requires WholeCode(b)
    ensures r == Mapped(Split(b), f)
  {
    r := MapWith(b, f, Size);
  }

  ghost predicate IsSize(size: Opcode -> nat) {
    forall op {:trigger Size(op)} :: size(op) == Size(op)
  }

  /** From i on, b is whole instructions. */
  ghost predicate WholeFrom(size: Opcode -> nat, b: bytes, i: nat) {
    i <= |b| && Skips(size, b[i..], |b| - i)
  }

  /** The rest of the result, from the instruction at i on. */
  ghost function MappedFrom(size: Opcode -> nat, b: bytes, i: nat, f: bytes -> bytes): bytes {
    if WholeFrom(size, b, i) then Mapped(Pieces(size, b[i..]), f) else []
  }

  ghost predicate IsTail(tail: nat -> bytes, whole: nat -> bool, size: Opcode -> nat, b: bytes, f: bytes -> bytes) {
    && (forall i {:trigger MappedFrom(size, b, i, f)} :: tail(i) == MappedFrom(size, b, i, f))
    && (forall i {:trigger WholeFrom(size, b, i)} :: whole(i) == WholeFrom(size, b, i))
  }

  method MapWith(b: bytes, f: bytes -> bytes, ghost size: Opcode -> nat) returns (r: bytes)
    requires Skips(size, b, |b|) && IsSize(size)
    ensures r == Mapped(Pieces(size, b), f)
  {
    ghost var tail, whole := (i: nat) => MappedFrom(size, b, i, f), (i: nat) => WholeFrom(size, b, i);
    MapBegins(size, b, f);
    r := MapLoop(b, f, size, tail, whole);
  }

  method MapLoop(b: bytes, f: bytes -> bytes, ghost size: Opcode -> nat, ghost tail: nat -> bytes,
      ghost whole: nat -> bool) returns (r: bytes)
    requires IsTail(tail, whole, size, b, f) && whole(0) && IsSize(size)
    ensures r == tail(0)
  {
    r := [];
    var i := 0;
    while i < |b|
      invariant 0 <= i <= |b| && whole(i) && r + tail(i) == tail(0)
    {
      MapStep(size, b, i, f, r, tail, whole);
      var inst := ReadInstruction(b, i, size);
      r := r + f(inst);
      i := i + |inst|;
    }
    MapEnds(size, b, f, tail, whole);
  }

  lemma MapBegins(size: Opcode -> nat, b: bytes, f: bytes -> bytes)
    requires Skips(size, b, |b|)
    ensures WholeFrom(size, b, 0) && MappedFrom(size, b, 0, f) == Mapped(Pieces(size, b), f)
  {
    assert b[0..] == b;
  }

  lemma MapEnds(size: Opcode -> nat, b: bytes, f: bytes -> bytes, tail: nat -> bytes, whole: nat -> bool)
    requires IsTail(tail, whole, size, b, f)
    ensures tail(|b|) == []
  {
    assert b[|b|..] == [];
    assert MappedFrom(size, b, |b|, f) == [];
  }

  lemma MapStep(size: Opcode -> nat, b: bytes, i: nat, f: bytes -> bytes, r: bytes, tail: nat -> bytes,
      whole: nat -> bool)
    requires i < |b| && whole(i) && IsTail(tail, whole, size, b, f)
    ensures var n := size(b[i]);
            && 0 < n && i + n <= |b| && whole(i + n) && r + tail(i) == r + f(b[i..i + n]) + tail(i + n)
  {
    var n := size(b[i]);
    assert WholeFrom(size, b, i) && b[i..][0] == b[i];
    assert b[i..][..n] == b[i..i + n] && b[i..][n..] == b[i + n..];
    assert WholeFrom(size, b, i + n);
    MappedFirst(size, b[i..], f, n);
    assert MappedFrom(size, b, i, f) == f(b[i..i + n]) + MappedFrom(size, b, i + n, f);
  }

  lemma MappedFirst(size: Opcode -> nat, b: bytes, f: bytes -> bytes, n: nat)
    requires b != [] && Skips(size, b, |b|) && n == size(b[0])
    ensures 0 < n <= |b| && Skips(size, b[n..], |b| - n)
    ensures Mapped(Pieces(size, b), f) == f(b[..n]) + Mapped(Pieces(size, b[n..]), f)
  {
    assert Pieces(size, b)[1..] == Pieces(size, b[n..]);
  }

  /** The bytes of the instruction at i. */
  method ReadInstruction(b: bytes, i: nat, ghost size: Opcode -> nat) returns (inst: bytes)
    requires i < |b| && i + size(b[i]) <= |b| && IsSize(size)
    ensures inst == b[i..i + size(b[i])]
  {
    assert size(b[i]) == Size(b[i]);
    var os, read := ReadOperands(Widths(b[i]), b[i + 1..]);
    inst := b[i..i + 1 + read];
  }

  /** With the identity as callback, the code comes back byte for byte. */
  lemma MapIdentity(b: bytes, f: bytes -> bytes)
    requires WholeCode(b) && forall x :: f(x) == x
    ensures Mapped(Split(b), f) == b
  {
    MapPieces(Size, b, f);
  }

  lemma {:induction false} MapPieces(size: Opcode -> nat, b: bytes, f: bytes -> bytes)
    requires Skips(size, b, |b|) && forall x :: f(x) == x
    ensures Mapped(Pieces(size, b), f) == b
    decreases |b|
  {
    if b != [] {
      var n := size(b[0]);
      MapPieces(size, b[n..], f);
      assert Pieces(size, b)[1..] == Pieces(size, b[n..]) && b == b[..n] + b[n..];
    }
  }
}
