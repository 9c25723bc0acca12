/** The append-only command log: its writer, its reader, and recovery after a torn write. */
module Resp {
  import opened Common
  import opened Items

  /** The three commands that the store logs. */
  datatype Cmd = Set(key: bytes, val: bytes, deadline: Option<Time>) | Del(key: bytes) | Flush

  const CRLF: bytes := [13, 10]
  const SET: bytes := [115, 101, 116]
  const DEL: bytes := [100, 101, 108]
  const FLUSHDB: bytes := [102, 108, 117, 115, 104, 100, 98]
  const AE: bytes := [97, 101]
  const EX: bytes := [101, 120]

  const TWO_63: int := 0x8000_0000_0000_0000
  const TWO_64: int := 0x1_0000_0000_0000_0000

  // ---- Writer ----

  function Digits(n: nat): bytes {
    if n < 10 then [48 + n] else Digits(n / 10) + [48 + n % 10]
  }

  function Header(tag: byte, n: nat): bytes {
    [tag] + Digits(n) + CRLF
  }

  function Bulk(s: bytes): bytes {
    Header(36, |s|) + s + CRLF
  }

  /** The images of the elements, one after the other. */
  function FlatMap<T>(f: T -> bytes, xs: seq<T>): bytes {
    if xs == [] then [] else f(xs[0]) + FlatMap(f, xs[1..])
  }

  function Bulks(parts: seq<bytes>): bytes {
    FlatMap(Bulk, parts)
  }

  /** Whole seconds since the epoch, as `time.Time.Unix` gives them. */
  function Unix(t: Time): int { t / SECOND }

  function Words(c: Cmd): seq<bytes> {
    match c
    case Set(k, v, None) => [SET, k, v]
    case Set(k, v, Some(t)) => [SET, k, v, AE, Digits(Unix(t) % TWO_64)]
    case Del(k) => [DEL, k]
    case Flush => [FLUSHDB]
  }

  function Encode(c: Cmd): bytes {
    Header(42, |Words(c)|) + Bulks(Words(c))
  }

  function EncodeAll(cmds: seq<Cmd>): bytes {
    FlatMap(Encode, cmds)
  }

  // ---- Reader ----

  datatype Read<+T> = Eof | Bad | Got(value: T, next: nat)

  /** Position just past the first line feed at or after p. */
  function LineEnd(s: bytes, p: nat): (r: Option<nat>)
    ensures r.Some? ==> p < r.value <= |s|
    decreases |s| - p
  {
    if p >= |s| then None
    else if s[p] == 10 then Some(p + 1)
    else LineEnd(s, p + 1)
  }

  predicate IsDigit(b: byte) { 48 <= b <= 57 }

  function Number(ds: bytes): Option<nat> {
    if ds == [] then Some(0)
    else
      var last := ds[|ds| - 1];
      var rest := Number(ds[..|ds| - 1]);
      if rest.None? || !IsDigit(last) then None else Some(rest.value * 10 + (last - 48))
  }

  /** The count on a header line, through the reader's short and long form. */
  function Count(line: bytes): Option<nat> {
    if |line| == 4 && line[2] == 13 then
      if IsDigit(line[1]) then Some(line[1] - 48) else None
    else if |line| < 5 || line[|line| - 2] != 13 then None
    else Number(line[1..|line| - 2])
  }

  function ReadHeader(s: bytes, p: nat, tag: byte): (r: Read<nat>)
    ensures r.Got? ==> p < r.next <= |s|
  {
    match LineEnd(s, p)
    case None => Eof
    case Some(q) =>
      if s[p] != tag then Bad
      else match Count(s[p..q])
        case None => Bad
        case Some(n) => Got(n, q)
  }

  function ReadBulk(s: bytes, p: nat): (r: Read<bytes>)
    ensures r.Got? ==> p < r.next <= |s|
  {
    match ReadHeader(s, p, 36)
    case Eof => Eof
    case Bad => Bad
    case Got(n, q) =>
      if q + n + 2 > |s| then Eof
      else if s[q + n] != 13 || s[q + n + 1] != 10 then Bad
      else Got(s[q..q + n], q + n + 2)
  }

  /** n parts in a row, each delivered by `read`. */
  function ReadParts<T>(read: nat -> Read<T>, p: nat, n: nat, acc: seq<T>): Read<seq<T>>
    decreases n
  {
    if n == 0 then Got(acc, p)
    else match read(p)
      case Eof => Eof
      case Bad => Bad
      case Got(part, q) => ReadParts(read, q, n - 1, acc + [part])
  }

  function BulkReader(s: bytes): nat -> Read<bytes> {
    (p: nat) => ReadBulk(s, p)
  }

  lemma {:induction false} ReadPartsAdvance(s: bytes, p: nat, n: nat, acc: seq<bytes>)
    requires p <= |s|
    ensures var r := ReadParts(BulkReader(s), p, n, acc); r.Got? ==> p <= r.next <= |s|
    decreases n
  {
    if n > 0 {
      var r := ReadBulk(s, p);
      if r.Got? { ReadPartsAdvance(s, r.next, n - 1, acc + [r.value]); }
    }
  }

  /** `strconv.ParseInt` in base 10 with 64 bits. */
  function ParseInt(s: bytes): Option<int> {
    var neg := s != [] && s[0] == 45;
    var ds := if s != [] && (s[0] == 43 || s[0] == 45) then s[1..] else s;
    if ds == [] || Number(ds).None? then None
    else
      var n: int := Number(ds).value;
      var signed := if neg then -n else n;
      if -TWO_63 <= signed < TWO_63 then Some(signed) else None
  }

  function Wrap64(n: int): int {
    (n + TWO_63) % TWO_64 - TWO_63
  }

  /** What a complete command makes the loader do. */
  datatype Verdict = Skip | Run(cmd: Cmd) | Reject | BadInteger | Panic

  /** The first bytes of a command word, compared as the loader does: a missing byte panics. */
  datatype Test = Yes | No | OutOfRange

  function StartsWith(word: bytes, lower: bytes): Test {
    if lower == [] then Yes
    else if word == [] then OutOfRange
    else if LowerByte(word[0]) != lower[0] then No
    else StartsWith(word[1..], lower[1..])
  }

  function InterpretSet(parts: seq<bytes>, modTime: Time): Verdict {
    if |parts| == 3 then Run(Set(parts[1], parts[2], None))
    else if |parts| != 5 then Reject
    else if Lower(parts[3]) != EX && Lower(parts[3]) != AE then Reject
    else match ParseInt(parts[4])
      case None => BadInteger
      case Some(ex) =>
        Run(Set(parts[1], parts[2],
                Some(if Lower(parts[3]) == EX then modTime + Wrap64(ex * SECOND) else ex * SECOND)))
  }

  function Interpret(parts: seq<bytes>, modTime: Time): Verdict {
    if parts == [] then Skip
    else match StartsWith(parts[0], SET)
      case OutOfRange => Panic
      case Yes => InterpretSet(parts, modTime)
      case No =>
        match StartsWith(parts[0], DEL)
        case OutOfRange => Panic
        case Yes => if |parts| == 2 then Run(Del(parts[1])) else Reject
        case No => if Lower(parts[0]) == FLUSHDB then Run(Flush) else Reject
  }

  datatype Status = Ok | UnexpectedEof | InvalidFile | IntegerError | Crashed

  /** The commands applied, the offset reported, and how the load ended. */
  datatype Outcome = Outcome(cmds: seq<Cmd>, n: nat, status: Status)

  /** What the loader finds at one offset. */
  datatype Step = Stop(status: Status) | Ignore(next: nat) | Apply(cmd: Cmd, next: nat)

  /** The parts of the command at p. */
  function ReadCommand(s: bytes, p: nat): (r: Read<seq<bytes>>)
    ensures r.Got? ==> p < r.next <= |s|
  {
    match ReadHeader(s, p, 42)
    case Eof => Eof
    case Bad => Bad
    case Got(n, q) =>
      ReadPartsAdvance(s, q, n, []);
      ReadParts(BulkReader(s), q, n, [])
  }

  function Next(s: bytes, modTime: Time, p: nat): (r: Step)
    ensures r.Stop? || p < r.next <= |s|
  {
    if p >= |s| then Stop(Ok)
    else if s[p] == 0 then Ignore(p + 1)
    else match ReadCommand(s, p)
      case Eof => Stop(UnexpectedEof)
      case Bad => Stop(InvalidFile)
      case Got(parts, next) =>
        match Interpret(parts, modTime)
        case Skip => Ignore(next)
        case Run(c) => Apply(c, next)
        case Reject => Stop(InvalidFile)
        case BadInteger => Stop(IntegerError)
        case Panic => Stop(Crashed)
  }

  ghost predicate Advances(read: nat -> Step, len: nat) {
    forall p: nat :: read(p).Stop? || p < read(p).next <= len
  }

  function CommandReader(s: bytes, modTime: Time): (r: nat -> Step)
    ensures Advances(r, |s|)
  {
    (p: nat) => Next(s, modTime, p)
  }

  /** Apply commands from p until `read` says stop. */
  function Load(read: nat -> Step, len: nat, p: nat, total: nat, acc: seq<Cmd>): Outcome
    requires Advances(read, len)
    decreases len - p
  {
    match read(p)
    case Stop(status) => Outcome(acc, total, status)
    case Ignore(next) => Load(read, len, next, total, acc)
    case Apply(c, next) => Load(read, len, next, total + (next - p), acc + [c])
  }

  lemma {:induction false} LoadOffset(read: nat -> Step, len: nat, p: nat, total: nat, acc: seq<Cmd>)
    requires Advances(read, len) && total <= p <= len
    ensures Load(read, len, p, total, acc).n <= len
    decreases len - p
  {
    match read(p)
    case Stop(status) =>
    case Ignore(next) => LoadOffset(read, len, next, total, acc);
    case Apply(c, next) => LoadOffset(read, len, next, total + (next - p), acc + [c]);
  }

  function LoadFile(s: bytes, modTime: Time): (o: Outcome)
    ensures o.n <= |s|
  {
    LoadOffset(CommandReader(s, modTime), |s|, 0, 0, []);
    Load(CommandReader(s, modTime), |s|, 0, 0, [])
  }

  // ---- Reading back what was written ----

  /** s holds w at p. */
  predicate At(s: bytes, p: nat, w: bytes) {
    p + |w| <= |s| && s[p..p + |w|] == w
  }

  /** s ends inside w, which starts at p. */
  predicate Cut(s: bytes, p: nat, w: bytes) {
    p <= |s| < p + |w| && s[p..] == w[..|s| - p]
  }

  lemma AtSplit(s: bytes, p: nat, a: bytes, b: bytes)
    ensures At(s, p, a + b) <==> At(s, p, a) && At(s, p + |a|, b)
  {
    if At(s, p, a + b) {
      assert s[p..p + |a|] == (a + b)[..|a|] == a;
      assert s[p + |a|..p + |a| + |b|] == (a + b)[|a|..] == b;
    }
    if At(s, p, a) && At(s, p + |a|, b) {
      assert s[p..p + |a + b|] == s[p..p + |a|] + s[p + |a|..p + |a| + |b|];
    }
  }

  lemma CutSplit(s: bytes, p: nat, a: bytes, b: bytes)
    requires Cut(s, p, a + b)
    ensures Cut(s, p, a) || (At(s, p, a) && Cut(s, p + |a|, b))
  {
    if |s| < p + |a| {
      assert (a + b)[..|s| - p] == a[..|s| - p];
    } else {
      assert s[p..p + |a|] == s[p..][..|a|] == (a + b)[..|s| - p][..|a|] == a;
      assert s[p + |a|..] == s[p..][|a|..] == (a + b)[..|s| - p][|a|..] == b[..|s| - (p + |a|)];
    }
  }

  lemma {:induction false} DigitsShape(n: nat)
    ensures 1 <= |Digits(n)| && (forall i :: 0 <= i < |Digits(n)| ==> IsDigit(Digits(n)[i]))
    ensures Number(Digits(n)) == Some(n)
  {
    if n < 10 {
      assert Digits(n)[..0] == [];
    } else {
      DigitsShape(n / 10);
      assert Digits(n)[..|Digits(n)| - 1] == Digits(n / 10);
    }
  }

  lemma {:induction false} LineEndAt(s: bytes, p: nat, q: nat)
    requires p <= q < |s| && s[q] == 10 && (forall i :: p <= i < q ==> s[i] != 10)
    ensures LineEnd(s, p) == Some(q + 1)
    decreases q - p
  {
    if p < q { LineEndAt(s, p + 1, q); }
  }

  lemma {:induction false} LineEndNone(s: bytes, p: nat)
    requires forall i :: p <= i < |s| ==> s[i] != 10
    ensures LineEnd(s, p) == None
    decreases |s| - p
  {
    if p < |s| { LineEndNone(s, p + 1); }
  }

  lemma HeaderWhole(s: bytes, p: nat, tag: byte, n: nat)
    requires At(s, p, Header(tag, n)) && tag != 10
    ensures ReadHeader(s, p, tag) == Got(n, p + |Header(tag, n)|)
  {
    DigitsShape(n);
    var h := Header(tag, n);
    var q := p + |h| - 1;
    assert forall i :: p <= i < p + |h| ==> s[i] == s[p..p + |h|][i - p] == h[i - p];
    LineEndAt(s, p, q);
    assert s[p..q + 1] == h;
    assert h[1..|h| - 2] == Digits(n);
    if |h| == 4 {
      assert Digits(n) == [h[1]];
      assert Digits(n)[..0] == [];
    }
  }

  lemma HeaderCut(s: bytes, p: nat, tag: byte, n: nat)
    requires Cut(s, p, Header(tag, n)) && tag != 10
    ensures ReadHeader(s, p, tag) == Eof
  {
    DigitsShape(n);
    var h := Header(tag, n);
    assert forall i :: p <= i < |s| ==> s[i] == s[p..][i - p] == h[i - p];
    LineEndNone(s, p);
  }

  lemma BulkWhole(s: bytes, p: nat, w: bytes)
    requires At(s, p, Bulk(w))
    ensures ReadBulk(s, p) == Got(w, p + |Bulk(w)|)
  {
    var h := Header(36, |w|);
    AtSplit(s, p, h + w, CRLF);
    AtSplit(s, p, h, w);
    HeaderWhole(s, p, 36, |w|);
    var q := p + |h|;
    assert s[q + |w|] == s[q + |w|..q + |w| + 2][0] && s[q + |w| + 1] == s[q + |w|..q + |w| + 2][1];
  }

  lemma BulkCut(s: bytes, p: nat, w: bytes)
    requires Cut(s, p, Bulk(w))
    ensures ReadBulk(s, p) == Eof
  {
    var h := Header(36, |w|);
    assert Bulk(w) == h + (w + CRLF);
    CutSplit(s, p, h, w + CRLF);
    if Cut(s, p, h) {
      HeaderCut(s, p, 36, |w|);
    } else {
      HeaderWhole(s, p, 36, |w|);
    }
  }

  lemma {:induction false} PartsWhole<T>(s: bytes, read: nat -> Read<T>, f: T -> bytes, p: nat, parts: seq<T>,
      acc: seq<T>)
    requires forall q: nat, w {:trigger At(s, q, f(w))} :: At(s, q, f(w)) ==> read(q) == Got(w, q + |f(w)|)
    requires At(s, p, FlatMap(f, parts))
    ensures ReadParts(read, p, |parts|, acc) == Got(acc + parts, p + |FlatMap(f, parts)|)
    decreases |parts|
  {
    if parts == [] {
      assert acc + parts == acc;
    } else {
      AtSplit(s, p, f(parts[0]), FlatMap(f, parts[1..]));
      PartsWhole(s, read, f, p + |f(parts[0])|, parts[1..], acc + [parts[0]]);
      assert acc + [parts[0]] + parts[1..] == acc + parts;
    }
  }

  lemma {:induction false} PartsCut<T>(s: bytes, read: nat -> Read<T>, f: T -> bytes, p: nat, parts: seq<T>,
      acc: seq<T>)
    requires forall q: nat, w {:trigger At(s, q, f(w))} :: At(s, q, f(w)) ==> read(q) == Got(w, q + |f(w)|)
    requires forall q: nat, w {:trigger Cut(s, q, f(w))} :: Cut(s, q, f(w)) ==> read(q) == Eof
    requires Cut(s, p, FlatMap(f, parts))
    ensures ReadParts(read, p, |parts|, acc) == Eof
    decreases |parts|
  {
    var b := f(parts[0]);
    CutSplit(s, p, b, FlatMap(f, parts[1..]));
    if !Cut(s, p, b) {
      PartsCut(s, read, f, p + |b|, parts[1..], acc + [parts[0]]);
    }
  }

  lemma BulksWhole(s: bytes, p: nat, parts: seq<bytes>)
    requires At(s, p, Bulks(parts))
    ensures ReadParts(BulkReader(s), p, |parts|, []) == Got(parts, p + |Bulks(parts)|)
  {
    forall q: nat, w | At(s, q, Bulk(w)) ensures BulkReader(s)(q) == Got(w, q + |Bulk(w)|) { BulkWhole(s, q, w); }
    PartsWhole(s, BulkReader(s), Bulk, p, parts, []);
    assert [] + parts == parts;
  }

  lemma BulksCut(s: bytes, p: nat, parts: seq<bytes>)
    requires Cut(s, p, Bulks(parts))
    ensures ReadParts(BulkReader(s), p, |parts|, []) == Eof
  {
    forall q: nat, w | At(s, q, Bulk(w)) ensures BulkReader(s)(q) == Got(w, q + |Bulk(w)|) { BulkWhole(s, q, w); }
    forall q: nat, w | Cut(s, q, Bulk(w)) ensures BulkReader(s)(q) == Eof { BulkCut(s, q, w); }
    PartsCut(s, BulkReader(s), Bulk, p, parts, []);
  }

  /** A deadline whose second count survives the unsigned write and the signed read. */
  predicate Encodable(c: Cmd) {
    c.Set? && c.deadline.Some? ==> 0 <= Unix(c.deadline.value) < TWO_63
  }

  /** What the log keeps of a deadline: its whole seconds. */
  function Stored(c: Cmd): Cmd {
    if c.Set? && c.deadline.Some?
    then c.(deadline := Some(Unix(c.deadline.value) * SECOND))
    else c
  }

  function StoredAll(cmds: seq<Cmd>): seq<Cmd> {
    seq(|cmds|, i requires 0 <= i < |cmds| => Stored(cmds[i]))
  }

  lemma DigitsParse(n: nat)
    ensures ParseInt(Digits(n)) == if n < TWO_63 then Some(n) else None
  {
    DigitsShape(n);
    assert IsDigit(Digits(n)[0]);
  }

  /** Deadlines are `time.Time` values, whose second count is a signed 64-bit integer. */
  predicate Representable(c: Cmd) {
    c.Set? && c.deadline.Some? ==> -TWO_63 <= Unix(c.deadline.value) < TWO_63
  }

  lemma DeadlineRoundTrip(k: bytes, v: bytes, t: Time, modTime: Time)
    requires -TWO_63 <= Unix(t) < TWO_63
    ensures InterpretSet([SET, k, v, AE, Digits(Unix(t) % TWO_64)], modTime)
         == if 0 <= Unix(t) then Run(Set(k, v, Some(Unix(t) * SECOND))) else BadInteger
  {
    AbsoluteWord();
    DigitsParse(Unix(t) % TWO_64);
  }

  lemma AbsoluteWord()
    ensures Lower(AE) == AE && AE != EX
  {
    assert Lower(AE)[0] == 97 && EX[0] == 101;
  }

  /**
   * The writer's words read back as the same command exactly when the deadline is encodable: a
   * deadline before the epoch is written as a huge unsigned number that the reader refuses.
   */
  lemma WordsRoundTrip(c: Cmd, modTime: Time)
    requires Representable(c)
    ensures Encodable(c) ==> Interpret(Words(c), modTime) == Run(Stored(c))
    ensures !Encodable(c) ==> Interpret(Words(c), modTime) == BadInteger
  {
    match c
    case Set(k, v, d) =>
      SetWord();
      if d.Some? { DeadlineRoundTrip(k, v, d.value, modTime); }
    case Del(k) => DelWord();
    case Flush => FlushWord();
  }

  lemma SetWord()
    ensures StartsWith(SET, SET) == Yes
  {
    assert SET[1..] == [101, 116] && SET[1..][1..] == [116] && SET[1..][1..][1..] == [];
  }

  lemma DelWord()
    ensures StartsWith(DEL, SET) == No && StartsWith(DEL, DEL) == Yes
  {
    assert DEL[1..] == [101, 108] && DEL[1..][1..] == [108] && DEL[1..][1..][1..] == [];
  }

  lemma FlushWord()
    ensures StartsWith(FLUSHDB, SET) == No && StartsWith(FLUSHDB, DEL) == No && Lower(FLUSHDB) == FLUSHDB
  {
  }

  lemma JoinCut(s: bytes, p: nat, h: bytes, b: bytes, n: nat)
    requires Cut(s, p, h + b)
    requires Cut(s, p, h) ==> ReadHeader(s, p, 42) == Eof
    requires At(s, p, h) ==> ReadHeader(s, p, 42) == Got(n, p + |h|)
    requires Cut(s, p + |h|, b) ==> ReadParts(BulkReader(s), p + |h|, n, []) == Eof
    ensures ReadCommand(s, p) == Eof
  {
    CutSplit(s, p, h, b);
  }

  lemma AtFirst(s: bytes, p: nat, w: bytes)
    requires w != [] && p < |s| && (At(s, p, w) || Cut(s, p, w))
    ensures s[p] == w[0]
  {
    if At(s, p, w) { assert s[p] == s[p..p + |w|][0]; } else { assert s[p] == s[p..][0]; }
  }

  lemma WordsHead(s: bytes, p: nat, w: seq<bytes>)
    requires At(s, p, Header(42, |w|) + Bulks(w))
    ensures ReadHeader(s, p, 42) == Got(|w|, p + |Header(42, |w|)|)
  {
    AtSplit(s, p, Header(42, |w|), Bulks(w));
    HeaderWhole(s, p, 42, |w|);
  }

  lemma WordsBody(s: bytes, p: nat, w: seq<bytes>)
    requires At(s, p, Header(42, |w|) + Bulks(w))
    ensures ReadParts(BulkReader(s), p + |Header(42, |w|)|, |w|, []) == Got(w, p + |Header(42, |w|) + Bulks(w)|)
  {
    AtSplit(s, p, Header(42, |w|), Bulks(w));
    BulksWhole(s, p + |Header(42, |w|)|, w);
  }

  lemma WordsWhole(s: bytes, p: nat, w: seq<bytes>)
    requires At(s, p, Header(42, |w|) + Bulks(w))
    ensures ReadCommand(s, p) == Got(w, p + |Header(42, |w|) + Bulks(w)|)
  {
    WordsHead(s, p, w);
    WordsBody(s, p, w);
  }

  lemma WordsCut(s: bytes, p: nat, w: seq<bytes>)
    requires Cut(s, p, Header(42, |w|) + Bulks(w))
    ensures ReadCommand(s, p) == Eof
  {
    var h := Header(42, |w|);
    if Cut(s, p, h) { HeaderCut(s, p, 42, |w|); }
    if At(s, p, h) { HeaderWhole(s, p, 42, |w|); }
    if Cut(s, p + |h|, Bulks(w)) { BulksCut(s, p + |h|, w); }
    JoinCut(s, p, h, Bulks(w), |w|);
  }

  lemma CommandWhole(s: bytes, p: nat, c: Cmd, modTime: Time)
    requires At(s, p, Encode(c)) && Encodable(c)
    ensures Next(s, modTime, p) == Apply(Stored(c), p + |Encode(c)|)
  {
    AtFirst(s, p, Encode(c));
    WordsRoundTrip(c, modTime);
    WordsWhole(s, p, Words(c));
  }

  lemma CommandCut(s: bytes, p: nat, c: Cmd, modTime: Time)
    requires Cut(s, p, Encode(c)) && p < |s|
    ensures Next(s, modTime, p) == Stop(UnexpectedEof)
  {
    AtFirst(s, p, Encode(c));
    WordsCut(s, p, Words(c));
  }

  /** How many leading elements fit wholly into the first `cut` bytes of their encoding. */
  function Fit<T>(f: T -> bytes, xs: seq<T>, cut: nat): (k: nat)
    ensures k <= |xs|
  {
    if xs == [] || |f(xs[0])| > cut then 0
    else 1 + Fit(f, xs[1..], cut - |f(xs[0])|)
  }

  /** The first `cut` bytes are the elements that fit, then a proper part of the next one. */
  lemma FitSplits<T>(f: T -> bytes, xs: seq<T>, cut: nat)
    requires cut <= |FlatMap(f, xs)|
    ensures var k := Fit(f, xs, cut);
            var s := FlatMap(f, xs)[..cut];
            var len := |FlatMap(f, xs[..k])|;
            && At(s, 0, FlatMap(f, xs[..k]))
            && (k == |xs| ==> len == cut)
            && (k < |xs| ==> cut < len + |f(xs[k])| && Cut(s, len, f(xs[k])))
  {
    var k := Fit(f, xs, cut);
    FitLength(f, xs, cut);
    var whole := FlatMap(f, xs[..k]);
    var s := FlatMap(f, xs)[..cut];
    assert xs == xs[..k] + xs[k..];
    FlatMapAppend(f, xs[..k], xs[k..]);
    assert s[0..|whole|] == s[..|whole|] == whole;
    if k < |xs| {
      var e := f(xs[k]);
      assert FlatMap(f, xs) == whole + (e + FlatMap(f, xs[k..][1..]));
      assert s[|whole|..] == e[..cut - |whole|];
    }
  }

  lemma {:induction false} FitLength<T>(f: T -> bytes, xs: seq<T>, cut: nat)
    ensures var k := Fit(f, xs, cut);
            var len := |FlatMap(f, xs[..k])|;
            len <= cut && (k < |xs| ==> cut < len + |f(xs[k])|)
    decreases |xs|
  {
    var k := Fit(f, xs, cut);
    if k > 0 {
      FitLength(f, xs[1..], cut - |f(xs[0])|);
      assert xs[..k][1..] == xs[1..][..k - 1];
    }
  }

  lemma {:induction false} FitAll<T>(f: T -> bytes, xs: seq<T>)
    ensures Fit(f, xs, |FlatMap(f, xs)|) == |xs|
  {
    if xs != [] { FitAll(f, xs[1..]); }
  }

  /** Whole commands followed by a stop are applied one after the other. */
  lemma {:induction false} LoadUntil(s: bytes, read: nat -> Step, f: Cmd -> bytes, p: nat, cmds: seq<Cmd>,
                                     total: nat, acc: seq<Cmd>, status: Status)
    requires Advances(read, |s|)
    requires forall q: nat, c {:trigger At(s, q, f(c))} :: c in cmds && At(s, q, f(c)) ==>
             read(q) == Apply(Stored(c), q + |f(c)|)
    requires At(s, p, FlatMap(f, cmds)) && read(p + |FlatMap(f, cmds)|) == Stop(status)
    ensures Load(read, |s|, p, total, acc) == Outcome(acc + StoredAll(cmds), total + |FlatMap(f, cmds)|, status)
    decreases |cmds|
  {
    if cmds == [] {
      assert acc + StoredAll(cmds) == acc;
    } else {
      var e := f(cmds[0]);
      var rest := cmds[1..];
      assert cmds[0] in cmds && forall c :: c in rest ==> c in cmds;
      AtSplit(s, p, e, FlatMap(f, rest));
      LoadUntil(s, read, f, p + |e|, rest, total + |e|, acc + [Stored(cmds[0])], status);
      assert acc + [Stored(cmds[0])] + StoredAll(rest) == acc + StoredAll(cmds);
    }
  }

  /** The log holds `good` and then something the reader stops at. */
  lemma LoadStops(s: bytes, good: seq<Cmd>, modTime: Time, status: Status)
    requires At(s, 0, EncodeAll(good)) && (forall c :: c in good ==> Encodable(c))
    requires Next(s, modTime, |EncodeAll(good)|) == Stop(status)
    ensures LoadFile(s, modTime) == Outcome(StoredAll(good), |EncodeAll(good)|, status)
  {
    var read := CommandReader(s, modTime);
    forall q: nat, c | c in good && At(s, q, Encode(c)) ensures read(q) == Apply(Stored(c), q + |Encode(c)|) {
      CommandWhole(s, q, c, modTime);
    }
    LoadUntil(s, read, Encode, 0, good, 0, [], status);
    assert [] + StoredAll(good) == StoredAll(good);
  }

  /**
   * Torn-write recovery. From any prefix of the bytes the writer produces, the loader applies
   * exactly the commands wholly contained, reports their total length, says "unexpected EOF"
   * exactly when the cut is off a command boundary, and never calls the file invalid.
   */
  lemma TornWriteRecovery(cmds: seq<Cmd>, cut: nat, modTime: Time)
    requires cut <= |EncodeAll(cmds)|
    requires forall c :: c in cmds ==> Encodable(c)
    ensures var k := Fit(Encode, cmds, cut);
            var o := LoadFile(EncodeAll(cmds)[..cut], modTime);
            && o.cmds == StoredAll(cmds[..k])
            && o.n == |EncodeAll(cmds[..k])| <= cut
            && (k < |cmds| ==> cut < o.n + |Encode(cmds[k])|)
            && o.status == (if o.n == cut then Ok else UnexpectedEof)
  {
    var s := EncodeAll(cmds)[..cut];
    var k := Fit(Encode, cmds, cut);
    var len := |EncodeAll(cmds[..k])|;
    FitSplits(Encode, cmds, cut);
    if len < cut { CommandCut(s, len, cmds[k], modTime); }
    LoadStops(s, cmds[..k], modTime, if len == cut then Ok else UnexpectedEof);
  }

  /** Codec round trip over a whole log. */
  lemma LogRoundTrip(cmds: seq<Cmd>, modTime: Time)
    requires forall c :: c in cmds ==> Encodable(c)
    ensures LoadFile(EncodeAll(cmds), modTime) == Outcome(StoredAll(cmds), |EncodeAll(cmds)|, Ok)
  {
    var s := EncodeAll(cmds);
    TornWriteRecovery(cmds, |s|, modTime);
    FitAll(Encode, cmds);
    assert s[..|s|] == s && cmds[..|cmds|] == cmds;
  }

  lemma CommandRefused(s: bytes, p: nat, c: Cmd, modTime: Time)
    requires At(s, p, Encode(c)) && Representable(c) && !Encodable(c)
    ensures Next(s, modTime, p) == Stop(IntegerError)
  {
    AtFirst(s, p, Encode(c));
    WordsRoundTrip(c, modTime);
    WordsWhole(s, p, Words(c));
  }

  /** A log opens again exactly when no logged deadline is before the epoch. */
  lemma LogOpensIffEncodable(cmds: seq<Cmd>, modTime: Time)
    requires forall c :: c in cmds ==> Representable(c)
    ensures LoadFile(EncodeAll(cmds), modTime).status == Ok <==> forall c :: c in cmds ==> Encodable(c)
  {
    if c :| c in cmds && !Encodable(c) {
      FirstRefusedStops(cmds, modTime);
    } else {
      LogRoundTrip(cmds, modTime);
    }
  }

  lemma FirstRefusedStops(cmds: seq<Cmd>, modTime: Time)
    requires (forall c :: c in cmds ==> Representable(c)) && exists c :: c in cmds && !Encodable(c)
    ensures LoadFile(EncodeAll(cmds), modTime).status == IntegerError
  {
    var j := FirstRefused(cmds);
    var good, bad, rest := cmds[..j], cmds[j], cmds[j + 1..];
    assert cmds == good + [bad] + rest;
    LogRefused(good, bad, rest, modTime);
  }

  ghost function FirstRefused(cmds: seq<Cmd>): (j: nat)
    requires exists c :: c in cmds && !Encodable(c)
    ensures j < |cmds| && !Encodable(cmds[j]) && forall c :: c in cmds[..j] ==> Encodable(c)
  {
    if !Encodable(cmds[0]) then 0
    else
      var c :| c in cmds && !Encodable(c);
      assert c in cmds[1..];
      var j := 1 + FirstRefused(cmds[1..]);
      assert cmds[..j] == [cmds[0]] + cmds[1..][..j - 1];
      j
  }

  lemma LogRefused(good: seq<Cmd>, bad: Cmd, rest: seq<Cmd>, modTime: Time)
    requires (forall c :: c in good ==> Encodable(c)) && Representable(bad) && !Encodable(bad)
    ensures LoadFile(EncodeAll(good + [bad] + rest), modTime)
         == Outcome(StoredAll(good), |EncodeAll(good)|, IntegerError)
  {
    var s := EncodeAll(good + [bad] + rest);
    FlatMapAt(Encode, good, bad, rest);
    CommandRefused(s, |EncodeAll(good)|, bad, modTime);
    LoadStops(s, good, modTime, IntegerError);
  }

  lemma FlatMapAt<T>(f: T -> bytes, a: seq<T>, x: T, b: seq<T>)
    ensures var s := FlatMap(f, a + [x] + b);
            At(s, 0, FlatMap(f, a)) && At(s, |FlatMap(f, a)|, f(x))
  {
    assert a + [x] + b == a + ([x] + b);
    FlatMapAppend(f, a, [x] + b);
    assert ([x] + b)[1..] == b;
    var s := FlatMap(f, a + [x] + b);
    assert s == FlatMap(f, a) + (f(x) + FlatMap(f, b));
    AtSplit(s, 0, FlatMap(f, a), f(x) + FlatMap(f, b));
    AtSplit(s, |FlatMap(f, a)|, f(x), FlatMap(f, b));
    assert s[0..|s|] == s;
  }

  lemma {:induction false} FlatMapAppend<T>(f: T -> bytes, a: seq<T>, b: seq<T>)
    ensures FlatMap(f, a + b) == FlatMap(f, a) + FlatMap(f, b)
  {
    if a == [] {
      assert a + b == b;
    } else {
      FlatMapAppend(f, a[1..], b);
      assert (a + b)[1..] == a[1..] + b && (a + b)[0] == a[0];
      var x, y, z := f(a[0]), FlatMap(f, a[1..]), FlatMap(f, b);
      assert FlatMap(f, a + b) == x + (y + z) && FlatMap(f, a) == x + y;
      assert x + (y + z) == x + y + z;
    }
  }

  lemma EncodeAllAppend(a: seq<Cmd>, b: seq<Cmd>)
    ensures EncodeAll(a + b) == EncodeAll(a) + EncodeAll(b)
  {
    FlatMapAppend(Encode, a, b);
  }
}
