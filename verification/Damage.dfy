/** What the loader makes of bytes that no writer produced: torn, malformed and foreign commands, byte by byte. */
module Damage {
  import opened Common
  import opened Items
  import opened Resp

  // ---- Lines ----

  /** No line feed from p on. */
  ghost predicate NoFeed(s: bytes, p: nat) {
    forall i :: p <= i < |s| ==> s[i] != 10
  }

  ghost predicate AllDigits(ds: bytes) {
    forall i :: 0 <= i < |ds| ==> IsDigit(ds[i])
  }

  /** A count line from p to q: the tag, digits that mean n, a carriage return and a line feed. */
  ghost predicate LineAt(s: bytes, p: nat, q: nat, tag: byte, n: nat) {
    && p + 4 <= q <= |s| && s[p] == tag && s[q - 2] == 13 && s[q - 1] == 10
    && AllDigits(s[p + 1..q - 2]) && Number(s[p + 1..q - 2]) == Some(n)
  }

  /** The line from p to q is no count line: a wrong tag, too short, no carriage return, or something but digits. */
  ghost predicate BadLineTo(s: bytes, p: nat, q: nat, tag: byte) {
    && p < q <= |s| && s[q - 1] == 10 && (forall i :: p <= i < q - 1 ==> s[i] != 10)
    && (s[p] != tag || q < p + 4 || s[q - 2] != 13 || !AllDigits(s[p + 1..q - 2]))
  }

  ghost predicate BadLine(s: bytes, p: nat, tag: byte) {
    exists q :: BadLineTo(s, p, q, tag)
  }

  lemma {:induction false} NumberIff(ds: bytes)
    ensures Number(ds).Some? <==> AllDigits(ds)
    decreases |ds|
  {
    if ds != [] {
      NumberIff(ds[..|ds| - 1]);
      assert ds == ds[..|ds| - 1] + [ds[|ds| - 1]];
    }
  }

  /** The short form of the reader is no exception: a count line is a count line. */
  lemma CountIs(line: bytes)
    ensures Count(line) == if |line| >= 4 && line[|line| - 2] == 13 then Number(line[1..|line| - 2]) else None
  {
    if |line| == 4 {
      assert line[1..2] == [line[1]] && [line[1]][..0] == [];
    }
  }

  lemma {:induction false} LineEndIs(s: bytes, p: nat)
    ensures var r := LineEnd(s, p);
            && (r.None? <==> NoFeed(s, p))
            && (r.Some? ==> s[r.value - 1] == 10 && forall i :: p <= i < r.value - 1 ==> s[i] != 10)
    decreases |s| - p
  {
    if p < |s| && s[p] != 10 { LineEndIs(s, p + 1); }
  }

  /** A header is read if and only if it is there; without a line feed the file ends first; any other line is bad. */
  lemma HeaderIs(s: bytes, p: nat, tag: byte)
    requires tag != 10
    ensures ReadHeader(s, p, tag).Eof? <==> NoFeed(s, p)
    ensures ReadHeader(s, p, tag).Bad? <==> BadLine(s, p, tag)
    ensures forall n: nat, q: nat :: ReadHeader(s, p, tag) == Got(n, q) <==> LineAt(s, p, q, tag, n)
  {
    LineEndIs(s, p);
    var e := LineEnd(s, p);
    if e.Some? {
      var q := e.value;
      HeaderLine(s, p, q, tag);
      forall k: nat, n: nat | LineAt(s, p, k, tag, n) ensures k == q { LineFeedOnce(s, p, k, tag, n, q); }
      forall k | BadLineTo(s, p, k, tag) ensures k == q { FeedOnce(s, p, k, q); }
    }
  }

  /** A line that ends at q is a count line or a bad one. */
  lemma HeaderLine(s: bytes, p: nat, q: nat, tag: byte)
    requires LineEnd(s, p) == Some(q) && s[q - 1] == 10 && forall i :: p <= i < q - 1 ==> s[i] != 10
    ensures ReadHeader(s, p, tag).Bad? <==> BadLineTo(s, p, q, tag)
    ensures ReadHeader(s, p, tag).Got? ==>
            ReadHeader(s, p, tag).next == q && LineAt(s, p, q, tag, ReadHeader(s, p, tag).value)
    ensures forall n: nat :: LineAt(s, p, q, tag, n) ==> ReadHeader(s, p, tag) == Got(n, q)
  {
    var line := s[p..q];
    CountIs(line);
    if |line| >= 4 {
      assert line[1..|line| - 2] == s[p + 1..q - 2];
      NumberIff(s[p + 1..q - 2]);
    }
  }

  lemma FeedOnce(s: bytes, p: nat, k: nat, q: nat)
    requires p < k <= |s| && s[k - 1] == 10 && forall i :: p <= i < k - 1 ==> s[i] != 10
    requires p < q <= |s| && s[q - 1] == 10 && forall i :: p <= i < q - 1 ==> s[i] != 10
    ensures k == q
  {
  }

  lemma LineFeedOnce(s: bytes, p: nat, k: nat, tag: byte, n: nat, q: nat)
    requires LineAt(s, p, k, tag, n) && tag != 10
    requires p < q <= |s| && s[q - 1] == 10 && forall i :: p <= i < q - 1 ==> s[i] != 10
    ensures k == q
  {
    forall i | p < i < k - 2 ensures s[i] != 10 { assert IsDigit(s[p + 1..k - 2][i - p - 1]); }
  }

  // ---- Bulk strings ----

  /** A carriage return and a line feed at i. */
  predicate ClosedAt(s: bytes, i: nat) {
    i + 2 <= |s| && s[i] == 13 && s[i + 1] == 10
  }

  /** A bulk string from p to q: a length line up to k, as many bytes, and the closing pair. */
  ghost predicate BulkFrom(s: bytes, p: nat, k: nat, q: nat, v: bytes) {
    LineAt(s, p, k, 36, |v|) && q == k + |v| + 2 && At(s, k, v) && ClosedAt(s, k + |v|)
  }

  ghost predicate BulkAt(s: bytes, p: nat, q: nat, v: bytes) {
    exists k :: BulkFrom(s, p, k, q, v)
  }

  ghost predicate TooLong(s: bytes, p: nat, k: nat, n: nat) {
    LineAt(s, p, k, 36, n) && k + n + 2 > |s|
  }

  ghost predicate Unclosed(s: bytes, p: nat, k: nat, n: nat) {
    LineAt(s, p, k, 36, n) && k + n + 2 <= |s| && !ClosedAt(s, k + n)
  }

  /** The file ends before the bulk string at p does. */
  ghost predicate TornBulk(s: bytes, p: nat) {
    NoFeed(s, p) || exists k, n :: TooLong(s, p, k, n)
  }

  /** No bulk string starts at p: its length line is bad, or it is not closed. */
  ghost predicate BadBulk(s: bytes, p: nat) {
    BadLine(s, p, 36) || exists k, n :: Unclosed(s, p, k, n)
  }

  lemma BulkIs(s: bytes, p: nat)
    ensures ReadBulk(s, p).Eof? <==> TornBulk(s, p)
    ensures ReadBulk(s, p).Bad? <==> BadBulk(s, p)
    ensures forall v, q: nat :: ReadBulk(s, p) == Got(v, q) <==> BulkAt(s, p, q, v)
  {
    HeaderIs(s, p, 36);
    var h := ReadHeader(s, p, 36);
    if h.Got? {
      BulkAfter(s, p, h.next, h.value);
    } else {
      forall k, n ensures !LineAt(s, p, k, 36, n) {}
      forall v, q ensures !BulkAt(s, p, q, v) {}
    }
  }

  lemma BulkAfter(s: bytes, p: nat, k: nat, n: nat)
    requires ReadHeader(s, p, 36) == Got(n, k) && !NoFeed(s, p) && !BadLine(s, p, 36)
    requires forall j, m :: LineAt(s, p, j, 36, m) <==> j == k && m == n
    ensures ReadBulk(s, p).Eof? <==> TornBulk(s, p)
    ensures ReadBulk(s, p).Bad? <==> BadBulk(s, p)
    ensures forall v, q: nat :: ReadBulk(s, p) == Got(v, q) <==> BulkAt(s, p, q, v)
  {
    assert LineAt(s, p, k, 36, n);
    if k + n + 2 > |s| {
      assert TooLong(s, p, k, n);
    } else if !ClosedAt(s, k + n) {
      assert Unclosed(s, p, k, n);
    } else {
      assert BulkFrom(s, p, k, k + n + 2, s[k..k + n]);
      forall v, q | BulkAt(s, p, q, v) ensures v == s[k..k + n] && q == k + n + 2 {
        var j: nat :| BulkFrom(s, p, j, q, v);
        assert j == k;
      }
    }
  }

  lemma BulkReads(s: bytes, p: nat, q: nat, v: bytes)
    requires BulkAt(s, p, q, v)
    ensures ReadBulk(s, p) == Got(v, q)
  {
    BulkIs(s, p);
  }

  lemma BulkFound(s: bytes, p: nat)
    ensures match ReadBulk(s, p)
            case Got(v, q) => BulkAt(s, p, q, v)
            case Eof => TornBulk(s, p)
            case Bad => BadBulk(s, p)
  {
    BulkIs(s, p);
  }

  // ---- Commands ----

  /** What `at` says of each part, one after the other from p to q. */
  ghost predicate Chain(at: (nat, nat, bytes) -> bool, p: nat, q: nat, parts: seq<bytes>)
    decreases |parts|
  {
    if parts == [] then p == q
    else exists k: nat :: at(p, k, parts[0]) && Chain(at, k, q, parts[1..])
  }

  ghost function BulkTest(s: bytes): (nat, nat, bytes) -> bool {
    (p: nat, q: nat, v: bytes) => BulkAt(s, p, q, v)
  }

  /** Bulk strings one after the other, from p to q. */
  ghost predicate PartsAt(s: bytes, p: nat, q: nat, parts: seq<bytes>) {
    Chain(BulkTest(s), p, q, parts)
  }

  lemma {:induction false} ChainRead(
      at: (nat, nat, bytes) -> bool, read: nat -> Read<bytes>, p: nat, q: nat, parts: seq<bytes>, n: nat,
      acc: seq<bytes>)
    requires forall i: nat, j: nat, v {:trigger at(i, j, v)} :: at(i, j, v) ==> read(i) == Got(v, j)
    requires Chain(at, p, q, parts) && |parts| <= n
    ensures ReadParts(read, p, n, acc) == ReadParts(read, q, n - |parts|, acc + parts)
    decreases |parts|
  {
    if parts == [] {
      assert acc + parts == acc;
    } else {
      var k: nat :| at(p, k, parts[0]) && Chain(at, k, q, parts[1..]);
      ChainRead(at, read, k, q, parts[1..], n - 1, acc + [parts[0]]);
      assert acc + [parts[0]] + parts[1..] == acc + parts;
    }
  }

  lemma PartsRead(s: bytes, p: nat, q: nat, parts: seq<bytes>, n: nat)
    requires PartsAt(s, p, q, parts) && |parts| <= n
    ensures ReadParts(BulkReader(s), p, n, []) == ReadParts(BulkReader(s), q, n - |parts|, parts)
  {
    forall i: nat, j: nat, v | BulkTest(s)(i, j, v) ensures BulkReader(s)(i) == Got(v, j) { BulkReads(s, i, j, v); }
    ChainRead(BulkTest(s), BulkReader(s), p, q, parts, n, []);
    assert [] + parts == parts;
  }

  /** The parts that are read before the end or the first that cannot be read. */
  lemma {:induction false} ChainFound(
      at: (nat, nat, bytes) -> bool, read: nat -> Read<bytes>, p: nat, n: nat, acc: seq<bytes>)
    returns (parts: seq<bytes>, q: nat)
    requires forall i: nat {:trigger read(i)} :: read(i).Got? ==> at(i, read(i).next, read(i).value)
    ensures Chain(at, p, q, parts)
    ensures match ReadParts(read, p, n, acc)
            case Got(all, next) => |parts| == n && all == acc + parts && next == q
            case Eof => |parts| < n && read(q).Eof?
            case Bad => |parts| < n && read(q).Bad?
    decreases n
  {
    parts, q := [], p;
    if n == 0 {
      assert acc + parts == acc;
      return;
    }
    var r := read(p);
    if r.Got? {
      var rest;
      rest, q := ChainFound(at, read, r.next, n - 1, acc + [r.value]);
      parts := [r.value] + rest;
      assert parts[1..] == rest && acc + [r.value] + rest == acc + parts;
    }
  }

  lemma PartsFound(s: bytes, p: nat, n: nat) returns (parts: seq<bytes>, q: nat)
    ensures PartsAt(s, p, q, parts)
    ensures match ReadParts(BulkReader(s), p, n, [])
            case Got(all, next) => |parts| == n && all == parts && next == q
            case Eof => |parts| < n && TornBulk(s, q)
            case Bad => |parts| < n && BadBulk(s, q)
  {
    forall i: nat | BulkReader(s)(i).Got? ensures BulkTest(s)(i, BulkReader(s)(i).next, BulkReader(s)(i).value) {
      BulkFound(s, i);
    }
    parts, q := ChainFound(BulkTest(s), BulkReader(s), p, n, []);
    assert [] + parts == parts;
    BulkFound(s, q);
  }

  ghost predicate CommandAt(s: bytes, p: nat, q: nat, parts: seq<bytes>) {
    exists k :: LineAt(s, p, k, 42, |parts|) && PartsAt(s, k, q, parts)
  }

  ghost predicate UnfinishedBy(s: bytes, p: nat, k: nat, q: nat, n: nat, parts: seq<bytes>) {
    LineAt(s, p, k, 42, n) && PartsAt(s, k, q, parts) && |parts| < n
  }

  /** Whole parts from p to q, fewer than the command announces. */
  ghost predicate Unfinished(s: bytes, p: nat, q: nat) {
    exists k, n, parts :: UnfinishedBy(s, p, k, q, n, parts)
  }

  lemma IsUnfinished(s: bytes, p: nat, k: nat, q: nat, n: nat, parts: seq<bytes>)
    requires UnfinishedBy(s, p, k, q, n, parts)
    ensures Unfinished(s, p, q)
  {
  }

  /** The file ends inside the command at p. */
  ghost predicate TornCommand(s: bytes, p: nat) {
    NoFeed(s, p) || exists q :: Unfinished(s, p, q) && TornBulk(s, q)
  }

  /** No command starts at p: its count line is bad, or a part of it is. */
  ghost predicate BadCommand(s: bytes, p: nat) {
    BadLine(s, p, 42) || exists q :: Unfinished(s, p, q) && BadBulk(s, q)
  }

  lemma UnfinishedReads(s: bytes, p: nat, q: nat)
    requires Unfinished(s, p, q)
    ensures TornBulk(s, q) ==> ReadCommand(s, p).Eof?
    ensures BadBulk(s, q) ==> ReadCommand(s, p).Bad?
  {
    var k: nat, n: nat, parts: seq<bytes> :| UnfinishedBy(s, p, k, q, n, parts);
    HeaderIs(s, p, 42);
    assert ReadHeader(s, p, 42) == Got(n, k);
    PartsRead(s, k, q, parts, n);
    BulkIs(s, q);
  }

  lemma CommandReads(s: bytes, p: nat, q: nat, parts: seq<bytes>)
    requires CommandAt(s, p, q, parts)
    ensures ReadCommand(s, p) == Got(parts, q)
  {
    var k: nat :| LineAt(s, p, k, 42, |parts|) && PartsAt(s, k, q, parts);
    HeaderIs(s, p, 42);
    assert ReadHeader(s, p, 42) == Got(|parts|, k);
    PartsRead(s, k, q, parts, |parts|);
  }

  /** What the reader finds at p is what is there: a whole command, a torn one, or none. */
  lemma CommandIs(s: bytes, p: nat)
    ensures ReadCommand(s, p).Eof? <==> TornCommand(s, p)
    ensures ReadCommand(s, p).Bad? <==> BadCommand(s, p)
    ensures forall parts, q: nat :: ReadCommand(s, p) == Got(parts, q) <==> CommandAt(s, p, q, parts)
  {
    HeaderIs(s, p, 42);
    forall q | Unfinished(s, p, q)
      ensures TornBulk(s, q) ==> ReadCommand(s, p).Eof?
      ensures BadBulk(s, q) ==> ReadCommand(s, p).Bad?
    {
      UnfinishedReads(s, p, q);
    }
    forall parts, q | CommandAt(s, p, q, parts) ensures ReadCommand(s, p) == Got(parts, q) {
      CommandReads(s, p, q, parts);
    }
    CommandFound(s, p);
  }

  lemma CommandFound(s: bytes, p: nat)
    ensures match ReadCommand(s, p)
            case Eof => TornCommand(s, p)
            case Bad => BadCommand(s, p)
            case Got(parts, q) => CommandAt(s, p, q, parts)
  {
    HeaderIs(s, p, 42);
    var h := ReadHeader(s, p, 42);
    if h.Got? {
      assert LineAt(s, p, h.next, 42, h.value);
      var parts, q := PartsFound(s, h.next, h.value);
      if |parts| < h.value { IsUnfinished(s, p, h.next, q, h.value, parts); }
    }
  }

  // ---- What a whole command means ----

  predicate StartsAs(word: bytes, lower: bytes) {
    |word| >= |lower| && Lower(word[..|lower|]) == lower
  }

  /** Shorter than the words it is compared with, and so far the same: the loader indexes past its end. */
  predicate TooShort(word: bytes, lower: bytes) {
    |word| < |lower| && Lower(word) == lower[..|word|]
  }

  lemma {:induction false} StartsWithIs(word: bytes, lower: bytes)
    ensures StartsWith(word, lower).Yes? <==> StartsAs(word, lower)
    ensures StartsWith(word, lower).OutOfRange? <==> TooShort(word, lower)
    decreases |lower|
  {
    if lower == [] {
      assert Lower(word[..0]) == [];
    } else if word == [] {
      assert Lower(word) == [];
    } else {
      StartsWithIs(word[1..], lower[1..]);
      LowerFirst(word, lower);
    }
  }

  lemma LowerFirst(word: bytes, lower: bytes)
    requires word != [] && lower != []
    ensures StartsAs(word, lower) <==> LowerByte(word[0]) == lower[0] && StartsAs(word[1..], lower[1..])
    ensures TooShort(word, lower) <==> LowerByte(word[0]) == lower[0] && TooShort(word[1..], lower[1..])
  {
    var w, l := word[1..], lower[1..];
    if |word| >= |lower| {
      assert Lower(word[..|lower|]) == [LowerByte(word[0])] + Lower(w[..|l|]);
      HeadAndTail([LowerByte(word[0])] + Lower(w[..|l|]), lower);
    } else {
      assert Lower(word) == [LowerByte(word[0])] + Lower(w);
      assert lower[..|word|][0] == lower[0] && lower[..|word|][1..] == l[..|w|];
      HeadAndTail([LowerByte(word[0])] + Lower(w), lower[..|word|]);
    }
  }

  lemma HeadAndTail(a: bytes, b: bytes)
    requires a != [] && b != []
    ensures a == b <==> a[0] == b[0] && a[1..] == b[1..]
  {
    if a[0] == b[0] && a[1..] == b[1..] { assert a == [a[0]] + a[1..] && b == [b[0]] + b[1..]; }
  }

  predicate Crashes(parts: seq<bytes>) {
    parts != [] && (TooShort(parts[0], SET) || (!StartsAs(parts[0], SET) && TooShort(parts[0], DEL)))
  }

  /** An unknown word, a wrong number of parts, or an unknown kind of deadline. */
  predicate Foreign(parts: seq<bytes>) {
    && parts != [] && !Crashes(parts)
    && if StartsAs(parts[0], SET) then |parts| != 3 && (|parts| != 5 || Lower(parts[3]) !in [EX, AE])
       else if StartsAs(parts[0], DEL) then |parts| != 2
       else Lower(parts[0]) != FLUSHDB
  }

  /** n seconds after the epoch or, if relative, after the time of the file. */
  function Deadline(relative: bool, n: int, modTime: Time): Time {
    if relative then modTime + Wrap64(n * SECOND) else n * SECOND
  }

  lemma InterpretIs(parts: seq<bytes>, modTime: Time)
    ensures Interpret(parts, modTime).Skip? <==> parts == []
    ensures Interpret(parts, modTime).Panic? <==> Crashes(parts)
    ensures Interpret(parts, modTime).Reject? <==> Foreign(parts)
    ensures parts != [] && StartsAs(parts[0], SET) && |parts| == 3 ==>
            Interpret(parts, modTime) == Run(Set(parts[1], parts[2], None))
    ensures parts != [] && StartsAs(parts[0], SET) && |parts| == 5 && Lower(parts[3]) in [EX, AE] ==>
            Interpret(parts, modTime) == match ParseInt(parts[4])
              case None => BadInteger
              case Some(n) => Run(Set(parts[1], parts[2], Some(Deadline(Lower(parts[3]) == EX, n, modTime))))
    ensures parts != [] && StartsAs(parts[0], DEL) && |parts| == 2 ==> Interpret(parts, modTime) == Run(Del(parts[1]))
    ensures parts != [] && Lower(parts[0]) == FLUSHDB ==> Interpret(parts, modTime) == Run(Flush)
  {
    if parts != [] {
      StartsWithIs(parts[0], SET);
      StartsWithIs(parts[0], DEL);
      if Lower(parts[0]) == FLUSHDB { assert LowerByte(parts[0][0]) == Lower(parts[0])[0] == 102; }
    }
  }

  /** Signs: ParseInt reads every 64-bit number that it should, and no other. */
  lemma SignedParse(n: nat)
    ensures ParseInt([45] + Digits(n)) == if n <= TWO_63 then Some(-(n as int)) else None
    ensures ParseInt([43] + Digits(n)) == if n < TWO_63 then Some(n) else None
  {
    DigitsShape(n);
    assert ([45] + Digits(n))[1..] == Digits(n) && ([43] + Digits(n))[1..] == Digits(n);
  }

  // ---- Whole files ----

  /** At e a whole command stands that the loader has no use for. */
  ghost predicate ForeignAt(s: bytes, e: nat) {
    exists parts, q :: CommandAt(s, e, q, parts) && Foreign(parts)
  }

  ghost predicate Refused(s: bytes, e: nat) {
    e < |s| && s[e] != 0 && (BadCommand(s, e) || ForeignAt(s, e))
  }

  ghost predicate EndsInside(s: bytes, e: nat) {
    e < |s| && s[e] != 0 && TornCommand(s, e)
  }

  lemma NextIs(s: bytes, e: nat, modTime: Time)
    ensures Next(s, modTime, e) == Stop(Ok) <==> e >= |s|
    ensures Next(s, modTime, e) == Stop(InvalidFile) <==> Refused(s, e)
    ensures Next(s, modTime, e) == Stop(UnexpectedEof) <==> EndsInside(s, e)
  {
    CommandIs(s, e);
    var r := ReadCommand(s, e);
    if r.Got? {
      assert CommandAt(s, e, r.next, r.value);
      InterpretIs(r.value, modTime);
      forall parts, q | CommandAt(s, e, q, parts) ensures parts == r.value {}
    } else {
      forall parts, q ensures !CommandAt(s, e, q, parts) {}
    }
  }

  /** Null bytes and commands without parts are skipped; a whole command that means something is applied. */
  lemma NextGoesOn(s: bytes, e: nat, modTime: Time)
    requires e < |s|
    ensures s[e] == 0 ==> Next(s, modTime, e) == Ignore(e + 1)
    ensures s[e] != 0 ==> forall q, parts :: CommandAt(s, e, q, parts) ==>
              match Interpret(parts, modTime)
              case Skip => Next(s, modTime, e) == Ignore(q)
              case Run(c) => Next(s, modTime, e) == Apply(c, q)
              case Reject => Next(s, modTime, e) == Stop(InvalidFile)
              case BadInteger => Next(s, modTime, e) == Stop(IntegerError)
              case Panic => Next(s, modTime, e) == Stop(Crashed)
  {
    forall q, parts | CommandAt(s, e, q, parts) ensures ReadCommand(s, e) == Got(parts, q) {
      CommandReads(s, e, q, parts);
    }
  }

  /** The place where a load stops. */
  lemma {:induction false} StopsSomewhere(read: nat -> Step, len: nat, p: nat, total: nat, acc: seq<Cmd>)
    returns (e: nat)
    requires Advances(read, len) && p <= len
    ensures p <= e <= len && read(e) == Stop(Load(read, len, p, total, acc).status)
    decreases len - p
  {
    match read(p)
    case Stop(_) => e := p;
    case Ignore(next) => e := StopsSomewhere(read, len, next, total, acc);
    case Apply(c, next) => e := StopsSomewhere(read, len, next, total + (next - p), acc + [c]);
  }

  /**
   * What the status of a load means, for any file: everything was read, the file ends inside the command the load
   * stopped at, or what it stopped at is no command the loader accepts.
   */
  lemma StatusMeans(s: bytes, modTime: Time) returns (e: nat)
    ensures var o := LoadFile(s, modTime);
            && e <= |s| && (o.status == Ok <==> e == |s|)
            && (o.status == UnexpectedEof <==> EndsInside(s, e)) && (o.status == InvalidFile <==> Refused(s, e))
  {
    e := StopsSomewhere(CommandReader(s, modTime), |s|, 0, 0, []);
    NextIs(s, e, modTime);
  }

  /** After good commands: damage is refused, and the file taken for cut off, exactly where that is what follows. */
  lemma TailDecides(s: bytes, cmds: seq<Cmd>, modTime: Time)
    requires At(s, 0, EncodeAll(cmds)) && forall c :: c in cmds ==> Encodable(c)
    ensures var p, o := |EncodeAll(cmds)|, LoadFile(s, modTime);
            && (Refused(s, p) ==> o == Outcome(StoredAll(cmds), p, InvalidFile))
            && (EndsInside(s, p) ==> o == Outcome(StoredAll(cmds), p, UnexpectedEof))
  {
    var p := |EncodeAll(cmds)|;
    NextIs(s, p, modTime);
    if Refused(s, p) { LoadStops(s, cmds, modTime, InvalidFile); }
    if EndsInside(s, p) { LoadStops(s, cmds, modTime, UnexpectedEof); }
  }

  /** w stands after the good bytes. */
  lemma Follows(good: bytes, w: bytes, rest: bytes)
    ensures var s := good + (w + rest); At(s, 0, good) && At(s, |good|, w)
  {
    var s := good + (w + rest);
    assert s[0..|good|] == good && s[|good|..|good| + |w|] == w;
  }

  /** The first line feed. */
  lemma {:induction false} FirstFeed(s: bytes, p: nat) returns (q: nat)
    requires !NoFeed(s, p)
    ensures p < q <= |s| && s[q - 1] == 10 && forall i :: p <= i < q - 1 ==> s[i] != 10
  {
    LineEndIs(s, p);
    q := LineEnd(s, p).value;
  }

  lemma NoStarAt(s: bytes, p: nat)
    requires p < |s| && s[p] !in [0, 42]
    ensures if NoFeed(s, p) then EndsInside(s, p) else Refused(s, p)
  {
    if !NoFeed(s, p) {
      var q := FirstFeed(s, p);
      assert BadLineTo(s, p, q, 42);
    }
  }

  /** Foreign bytes with a line feed in them are refused; without one they are taken for a cut-off command. */
  lemma ForeignBytes(cmds: seq<Cmd>, tail: bytes, modTime: Time)
    requires (forall c :: c in cmds ==> Encodable(c)) && tail != [] && tail[0] !in [0, 42]
    ensures LoadFile(EncodeAll(cmds) + tail, modTime) ==
            Outcome(StoredAll(cmds), |EncodeAll(cmds)|, if 10 in tail then InvalidFile else UnexpectedEof)
  {
    var s, p := EncodeAll(cmds) + tail, |EncodeAll(cmds)|;
    Follows(EncodeAll(cmds), tail, []);
    assert tail + [] == tail;
    AtFirst(s, p, tail);
    FeedInTail(s, p, tail);
    NoStarAt(s, p);
    TailDecides(s, cmds, modTime);
  }

  lemma FeedInTail(s: bytes, p: nat, tail: bytes)
    requires |s| == p + |tail| && At(s, p, tail)
    ensures NoFeed(s, p) <==> 10 !in tail
  {
    assert forall i :: p <= i < |s| ==> s[i] == s[p..p + |tail|][i - p];
    if 10 in tail {
      var i :| 0 <= i < |tail| && tail[i] == 10;
      assert s[p..p + |tail|][i] == s[p + i];
    }
  }

  /** A count line that is not digits and a carriage return is refused. */
  lemma BadCountLine(cmds: seq<Cmd>, line: bytes, rest: bytes, modTime: Time)
    requires (forall c :: c in cmds ==> Encodable(c)) && line != [] && line[0] == 42 && 10 !in line
    requires |line| < 3 || line[|line| - 1] != 13 || !AllDigits(line[1..|line| - 1])
    ensures LoadFile(EncodeAll(cmds) + (line + [10] + rest), modTime) ==
            Outcome(StoredAll(cmds), |EncodeAll(cmds)|, InvalidFile)
  {
    var s, p := EncodeAll(cmds) + (line + [10] + rest), |EncodeAll(cmds)|;
    Follows(EncodeAll(cmds), line + [10], rest);
    AtFirst(s, p, line + [10]);
    BadCount(s, p, line);
    LoadStops(s, cmds, modTime, InvalidFile);
  }

  lemma BadCount(s: bytes, p: nat, line: bytes)
    requires line != [] && 10 !in line && At(s, p, line + [10])
    requires |line| < 3 || line[|line| - 1] != 13 || !AllDigits(line[1..|line| - 1])
    ensures ReadHeader(s, p, 42).Bad?
  {
    var l, q := line + [10], p + |line|;
    assert forall i :: p <= i <= q ==> s[i] == s[p..q + 1][i - p] == l[i - p];
    LineEndAt(s, p, q);
    CountIs(l);
    if |line| >= 3 {
      assert l[1..|l| - 2] == line[1..|line| - 1];
      NumberIff(line[1..|line| - 1]);
    }
  }

  /** A well-formed command with an unknown word or a wrong number of parts is refused. */
  lemma ForeignCommand(cmds: seq<Cmd>, words: seq<bytes>, rest: bytes, modTime: Time)
    requires (forall c :: c in cmds ==> Encodable(c)) && Foreign(words)
    ensures LoadFile(EncodeAll(cmds) + (Header(42, |words|) + Bulks(words) + rest), modTime) ==
            Outcome(StoredAll(cmds), |EncodeAll(cmds)|, InvalidFile)
  {
    var w := Header(42, |words|) + Bulks(words);
    var s, p := EncodeAll(cmds) + (w + rest), |EncodeAll(cmds)|;
    Follows(EncodeAll(cmds), w, rest);
    ForeignNext(s, p, words, modTime, w);
    LoadStops(s, cmds, modTime, InvalidFile);
  }

  lemma ForeignNext(s: bytes, p: nat, words: seq<bytes>, modTime: Time, w: bytes)
    requires w == Header(42, |words|) + Bulks(words) && At(s, p, w) && Foreign(words)
    ensures Next(s, modTime, p) == Stop(InvalidFile)
  {
    AtFirst(s, p, w);
    WordsWhole(s, p, words);
    InterpretIs(words, modTime);
  }

  /** A command one of whose parts, after the first ones, is not closed where its length says is refused. */
  lemma UnclosedPart(cmds: seq<Cmd>, n: nat, words: seq<bytes>, v: bytes, end: bytes, rest: bytes, modTime: Time)
    requires (forall c :: c in cmds ==> Encodable(c)) && |words| < n && |end| == 2 && end != CRLF
    ensures LoadFile(EncodeAll(cmds) + (Header(42, n) + Bulks(words) + Header(36, |v|) + v + end + rest), modTime) ==
            Outcome(StoredAll(cmds), |EncodeAll(cmds)|, InvalidFile)
  {
    var w := Header(42, n) + Bulks(words) + Header(36, |v|) + v + end;
    var s := EncodeAll(cmds) + (w + rest);
    Follows(EncodeAll(cmds), w, rest);
    UnclosedTail(s, |EncodeAll(cmds)|, n, words, v, end, modTime);
    LoadStops(s, cmds, modTime, InvalidFile);
  }

  lemma UnclosedTail(s: bytes, p: nat, n: nat, words: seq<bytes>, v: bytes, end: bytes, modTime: Time)
    requires |words| < n && |end| == 2 && end != CRLF
    requires At(s, p, Header(42, n) + Bulks(words) + Header(36, |v|) + v + end)
    ensures Next(s, modTime, p) == Stop(InvalidFile)
  {
    var h, w, l := Header(42, n), Bulks(words), Header(36, |v|);
    FiveAt(s, p, h, w, l, v, end);
    UnclosedRead(s, p + |h| + |w|, v, l, end);
    UnclosedNext(s, p, n, words, h, p + |h| + |w|, modTime);
  }

  lemma FiveAt(s: bytes, p: nat, h: bytes, w: bytes, l: bytes, v: bytes, end: bytes)
    requires At(s, p, h + w + l + v + end)
    ensures At(s, p, h) && At(s, p + |h|, w) && At(s, p + |h| + |w|, l)
    ensures At(s, p + |h| + |w| + |l| + |v|, end)
  {
    AtSplit(s, p, h + w + l + v, end);
    AtSplit(s, p, h + w + l, v);
    AtSplit(s, p, h + w, l);
    AtSplit(s, p, h, w);
  }

  lemma UnclosedRead(s: bytes, q: nat, v: bytes, l: bytes, end: bytes)
    requires l == Header(36, |v|) && At(s, q, l) && |end| == 2 && end != CRLF && At(s, q + |l| + |v|, end)
    ensures ReadBulk(s, q).Bad?
  {
    HeaderWhole(s, q, 36, |v|);
    var k := q + |l| + |v|;
    assert s[k..k + 2] == [s[k], s[k + 1]];
  }

  lemma UnclosedNext(s: bytes, p: nat, n: nat, words: seq<bytes>, h: bytes, q: nat, modTime: Time)
    requires |words| < n && h == Header(42, n) && At(s, p, h) && At(s, p + |h|, Bulks(words))
    requires q == p + |h| + |Bulks(words)| && ReadBulk(s, q).Bad?
    ensures Next(s, modTime, p) == Stop(InvalidFile)
  {
    AtFirst(s, p, h);
    HeaderWhole(s, p, 42, n);
    var read := BulkReader(s);
    assert read(q).Bad?;
    UnclosedParts(s, read, p + |h|, q, n, words);
    assert ReadCommand(s, p) == ReadParts(read, p + |h|, n, []);
  }

  lemma UnclosedParts(s: bytes, read: nat -> Read<bytes>, i: nat, q: nat, n: nat, words: seq<bytes>)
    requires |words| < n && At(s, i, Bulks(words)) && q == i + |Bulks(words)| && read == BulkReader(s) && read(q).Bad?
    ensures ReadParts(read, i, n, []).Bad?
  {
    WordsRead(s, i, n, words);
    BadPart(read, q, n - |words|, words);
  }

  lemma WordsRead(s: bytes, i: nat, n: nat, words: seq<bytes>)
    requires |words| <= n && At(s, i, Bulks(words))
    ensures ReadParts(BulkReader(s), i, n, []) ==
            ReadParts(BulkReader(s), i + |Bulks(words)|, n - |words|, words)
  {
    PartsOf(s, i, words);
    PartsRead(s, i, i + |Bulks(words)|, words, n);
  }

  lemma BadPart(read: nat -> Read<bytes>, q: nat, n: nat, acc: seq<bytes>)
    requires n > 0 && read(q).Bad?
    ensures ReadParts(read, q, n, acc).Bad?
  {
  }

  lemma PartsOf(s: bytes, p: nat, words: seq<bytes>)
    requires At(s, p, Bulks(words))
    ensures PartsAt(s, p, p + |Bulks(words)|, words)
  {
    BulksWhole(s, p, words);
    var parts, q := PartsFound(s, p, |words|);
  }

  // ---- Padding ----

  /** A null byte, a command and a tail. */
  function Padded(c: Cmd, torn: bytes): bytes { [0] + Encode(c) + torn }

  /**
   * Null bytes between commands are skipped but not counted in the offset at which a file is cut off. After a null
   * byte a torn last command therefore costs a good one: the cut goes through it, and the next load finds nothing.
   */
  lemma PaddingMisplacesTheCut(c: Cmd, torn: bytes, modTime: Time)
    requires Encodable(c) && torn != [] && torn[0] != 0 && 10 !in torn
    ensures var s, n := Padded(c, torn), |Encode(c)|;
            && LoadFile(s, modTime) == Outcome([Stored(c)], n, UnexpectedEof)
            && LoadFile(s[..n], modTime) == Outcome([], 0, UnexpectedEof)
  {
    var s, n := Padded(c, torn), |Encode(c)|;
    PaddedLoads(c, torn, s, n, modTime);
    assert s[..n] == [0] + Encode(c)[..n - 1];
    PaddedCut(c, s[..n], n, modTime);
  }

  lemma PaddedLoads(c: Cmd, torn: bytes, s: bytes, n: nat, modTime: Time)
    requires Encodable(c) && torn != [] && torn[0] != 0 && 10 !in torn && s == Padded(c, torn) && n == |Encode(c)|
    ensures LoadFile(s, modTime) == Outcome([Stored(c)], n, UnexpectedEof)
  {
    var read := CommandReader(s, modTime);
    PaddedParts(Encode(c), torn);
    CommandWhole(s, 1, c, modTime);
    PaddedTail(s, n + 1, torn, modTime);
    LoadTwice(read, |s|, c, n);
  }

  lemma PaddedParts(e: bytes, torn: bytes)
    ensures var s, n := [0] + e + torn, |e|; s[0] == 0 && At(s, 1, e) && |s| == n + 1 + |torn| && s[n + 1..] == torn
  {
    var s := [0] + e + torn;
    assert s[1..1 + |e|] == e;
  }

  lemma PaddedTail(s: bytes, p: nat, torn: bytes, modTime: Time)
    requires p + |torn| == |s| && s[p..] == torn && torn != [] && torn[0] != 0 && 10 !in torn
    ensures Next(s, modTime, p) == Stop(UnexpectedEof)
  {
    assert forall i :: p <= i < |s| ==> s[i] == s[p..][i - p];
    LineEndNone(s, p);
  }

  lemma LoadTwice(read: nat -> Step, len: nat, c: Cmd, n: nat)
    requires Advances(read, len) && read(0) == Ignore(1) && read(1) == Apply(Stored(c), 1 + n)
    requires read(1 + n) == Stop(UnexpectedEof)
    ensures Load(read, len, 0, 0, []) == Outcome([Stored(c)], n, UnexpectedEof)
  {
    assert [] + [Stored(c)] == [Stored(c)];
    assert Load(read, len, 1 + n, n, [Stored(c)]) == Outcome([Stored(c)], n, UnexpectedEof);
    assert Load(read, len, 1, 0, []) == Load(read, len, 1 + n, n, [Stored(c)]);
  }

  lemma PaddedCut(c: Cmd, cut: bytes, n: nat, modTime: Time)
    requires n == |Encode(c)| && cut == [0] + Encode(c)[..n - 1]
    ensures LoadFile(cut, modTime) == Outcome([], 0, UnexpectedEof)
  {
    var read := CommandReader(cut, modTime);
    assert cut[1..] == Encode(c)[..n - 1] && n >= 2;
    CommandCut(cut, 1, c, modTime);
    assert read(0) == Ignore(1) && read(1) == Stop(UnexpectedEof);
    assert Load(read, n, 1, 0, []) == Outcome([], 0, UnexpectedEof);
  }
}
