/** The database object: trees updated in place, the log file, loading and compaction. */
module Database {
  import opened Common
  import opened Items
  import opened Resp
  import opened Replay
  import opened Store
  import opened Transactions
  import System

  // ---- What a load does to the trees ----

  function LoadCmd(db: Db, c: Cmd, now: Time): Db {
    match c
    case Set(k, v, d) => if Expired(c, now) then db else Insert(db, Record(k, v, d))
    case Del(k) => Remove(db, k)
    case Flush => Db(map[], {}, map[])
  }

  function LoadCmds(db: Db, cmds: seq<Cmd>, now: Time): Db {
    if cmds == [] then db else LoadCmd(LoadCmds(db, cmds[..|cmds| - 1], now), cmds[|cmds| - 1], now)
  }

  /** Loading keeps the trees in agreement and gives the replayed key map. */
  lemma {:induction false} LoadIsReplay(db: Db, cmds: seq<Cmd>, now: Time)
    requires Consistent(db)
    ensures Consistent(LoadCmds(db, cmds, now)) && LoadCmds(db, cmds, now).keys == ReplayedAt(db.keys, cmds, now)
    ensures db.idxs == map[] ==> LoadCmds(db, cmds, now) == Build(ReplayedAt(db.keys, cmds, now), map[])
  {
    if cmds != [] {
      var n := |cmds| - 1;
      LoadIsReplay(db, cmds[..n], now);
      LoadCmdStep(LoadCmds(db, cmds[..n], now), cmds[n], now);
    }
  }

  lemma LoadCmdStep(db: Db, c: Cmd, now: Time)
    requires Consistent(db)
    ensures var db' := LoadCmd(db, c, now);
            && Consistent(db') && db'.keys == (if Expired(c, now) then db.keys else Do(db.keys, c))
            && (db.idxs == map[] ==> db'.idxs == map[])
  {
    match c
    case Set(k, v, d) => ChangesOneKey(db, k, Some(Record(k, v, d)));
    case Del(k) => ChangesOneKey(db, k, None);
    case Flush => EmptyBuild(map[]);
  }

  // ---- Number on a header line ----

  method ParseCount(line: bytes) returns (n: Option<nat>)
    ensures n == Count(line)
  {
    if |line| == 4 && line[2] == 13 {
      if !IsDigit(line[1]) { return None; }
      return Some(line[1] - 48);
    }
    if |line| < 5 || line[|line| - 2] != 13 { return None; }
    var ds := line[1..|line| - 2];
    var i: nat, v: nat := 0, 0;
    while i < |ds|
      invariant 0 <= i <= |ds| && Number(ds[..i]) == Some(v)
    {
      assert ds[..i + 1][..i] == ds[..i];
      if !IsDigit(ds[i]) {
        NumberStops(ds, i);
        return None;
      }
      v := v * 10 + (ds[i] - 48);
      i := i + 1;
    }
    assert ds[..i] == ds;
    return Some(v);
  }

  lemma {:induction false} NumberStops(ds: bytes, i: nat)
    requires i < |ds| && !IsDigit(ds[i])
    ensures Number(ds).None?
    decreases |ds|
  {
    if i < |ds| - 1 { NumberStops(ds[..|ds| - 1], i); }
  }

  method ReadCount(s: bytes, p: nat, tag: byte) returns (r: Read<nat>)
    requires p <= |s|
    ensures r == ReadHeader(s, p, tag)
  {
    var end := LineEnd(s, p);
    if end.None? { return Eof; }
    if s[p] != tag { return Bad; }
    var n := ParseCount(s[p..end.value]);
    if n.None? { return Bad; }
    return Got(n.value, end.value);
  }

  method ReadPart(s: bytes, p: nat) returns (r: Read<bytes>)
    requires p <= |s|
    ensures r == ReadBulk(s, p)
  {
    var len := ReadCount(s, p, 36);
    if !len.Got? { return if len.Eof? then Eof else Bad; }
    var d: nat := len.next + len.value;
    if d + 2 > |s| { return Eof; }
    if s[d] != 13 || s[d + 1] != 10 { return Bad; }
    return Got(s[len.next..d], d + 2);
  }

  /** The parts of the command at p, header by header. */
  method ReadCommandParts(s: bytes, p: nat) returns (r: Read<seq<bytes>>)
    requires p < |s|
    ensures r == ReadCommand(s, p)
  {
    var head := ReadCount(s, p, 42);
    if !head.Got? { return if head.Eof? then Eof else Bad; }
    var q: nat := head.next;
    var parts: seq<bytes> := [];
    var i: nat := 0;
    while i < head.value
      invariant 0 <= i <= head.value && q <= |s|
      invariant ReadCommand(s, p) == ReadParts(BulkReader(s), q, head.value - i, parts)
    {
      var part := ReadPart(s, q);
      if !part.Got? { return if part.Eof? then Eof else Bad; }
      parts := parts + [part.value];
      q := part.next;
      i := i + 1;
    }
    return Got(parts, q);
  }

  /** One turn of the command loop: padding, a command, or the end. */
  method NextStep(s: bytes, modTime: Time, p: nat, ghost read: nat -> Step) returns (r: Step)
    requires p <= |s| && forall q: nat {:trigger Next(s, modTime, q)} :: read(q) == Next(s, modTime, q)
    ensures r == read(p)
  {
    assert read(p) == Next(s, modTime, p);
    if p >= |s| { return Stop(Ok); }
    if s[p] == 0 { return Ignore(p + 1); }
    var parts := ReadCommandParts(s, p);
    if parts.Eof? { return Stop(UnexpectedEof); }
    if parts.Bad? { return Stop(InvalidFile); }
    match Interpret(parts.value, modTime)
    case Skip => return Ignore(parts.next);
    case Run(c) => return Apply(c, parts.next);
    case Reject => return Stop(InvalidFile);
    case BadInteger => return Stop(IntegerError);
    case Panic => return Stop(Crashed);
  }

  method LeastKey(s: set<bytes>) returns (k: bytes)
    requires s != {}
    ensures k in s && forall j :: j in s && j != k ==> LexLess(k, j)
  {
    k :| k in s;
    var rest := s - {k};
    while rest != {}
      invariant k in s && rest <= s
      invariant forall j :: j in s - rest && j != k ==> LexLess(k, j)
      decreases |rest|
    {
      var j :| j in rest;
      LexTotal(j, k);
      if LexLess(j, k) {
        forall i | i in s - rest && i != k ensures LexLess(j, i) { LexTransitive(j, k, i); }
        k := j;
      }
      rest := rest - {j};
    }
  }

  class Database {
    var keys: Keys
    var exps: set<Item>
    var idxs: map<bytes, Index>
    var file: bytes
    var pos: nat
    var persist: bool

    function View(): Db reads this {
      Db(keys, exps, idxs)
    }

    constructor (persist: bool)
      ensures View() == Build(map[], map[]) && file == [] && pos == 0 && this.persist == persist
    {
      keys, exps, idxs := map[], {}, map[];
      file, pos := [], 0;
      this.persist := persist;
    }

    /** The names of the indexes that an item with this key goes into. */
    method MatchingIndexes(key: bytes) returns (hits: set<bytes>)
      ensures hits == set n | n in idxs && idxs[n].matches(key)
    {
      hits := {};
      var rest := idxs.Keys;
      while rest != {}
        invariant rest <= idxs.Keys && hits == set n | n in idxs.Keys - rest && idxs[n].matches(key)
        decreases |rest|
      {
        var n :| n in rest;
        if idxs[n].matches(key) { hits := hits + {n}; }
        rest := rest - {n};
      }
    }

    method UpdateIndexes(hits: set<bytes>, f: Index -> Index)
      requires hits <= idxs.Keys
      modifies `idxs
      ensures idxs == Updated(old(idxs), hits, f)
    {
      var todo := hits;
      while todo != {}
        invariant todo <= hits && idxs == Updated(old(idxs), hits - todo, f)
        decreases |todo|
      {
        var n :| n in todo;
        idxs := idxs[n := f(idxs[n])];
        todo := todo - {n};
      }
    }

    method InsertIntoDatabase(item: Item) returns (prev: Option<Item>)
      modifies `keys, `exps, `idxs
      ensures View() == Insert(old(View()), item) && prev == Lookup(old(keys), item.key)
    {
      var hits := MatchingIndexes(item.key);
      prev := Lookup(keys, item.key);
      keys := keys[item.key := item];
      if prev.Some? {
        if prev.value.deadline.Some? { exps := TreeDelete(exps, prev.value, ByDeadline); }
        UpdateIndexes(hits, (i: Index) => DropItem(i, prev.value));
      }
      if item.deadline.Some? { exps := TreeSet(exps, item, ByDeadline); }
      UpdateIndexes(hits, (i: Index) => AddItem(i, item));
      InsertsByHits(old(idxs), hits, prev, item);
    }

    method DeleteFromDatabase(key: bytes) returns (prev: Option<Item>)
      requires key in keys ==> keys[key].key == key
      modifies `keys, `exps, `idxs
      ensures View() == Remove(old(View()), key) && prev == Lookup(old(keys), key)
    {
      prev := Lookup(keys, key);
      if prev.Some? {
        keys := keys - {key};
        if prev.value.deadline.Some? { exps := TreeDelete(exps, prev.value, ByDeadline); }
        var hits := MatchingIndexes(prev.value.key);
        UpdateIndexes(hits, (i: Index) => DropItem(i, prev.value));
        assert idxs == Remove(old(View()), key).idxs;
      }
    }

    /** rebuild: walk the keys and insert the matching items into an empty tree. */
    method RebuildIndex(idx: Index) returns (r: Index)
      requires Keyed(keys) && Sound(ByValue(idx.less))
      ensures r == Rebuild(idx, keys)
    {
      r := idx.(items := {});
      var rest := keys.Keys;
      while rest != {}
        invariant rest <= keys.Keys && r == Rebuild(idx, keys - rest)
        decreases |rest|
      {
        var k :| k in rest;
        ghost var done := keys - rest;
        rest := rest - {k};
        assert keys - rest == done[k := keys[k]];
        assert Keyed(done) && k !in done;
        IndexInsertStep(done, idx, keys[k]);
        if idx.matches(k) { r := AddItem(r, keys[k]); }
      }
      assert keys - {} == keys;
    }

    method ReadLoad(s: bytes, modTime: Time, now: Time) returns (o: Outcome)
      requires Consistent(View())
      modifies `keys, `exps, `idxs
      ensures o == LoadFile(s, modTime) && View() == LoadCmds(old(View()), o.cmds, now)
    {
      o := RunCommands(s, modTime, now, CommandReader(s, modTime));
    }

    /** The command loop of the loader, applied to the live trees. */
    method RunCommands(s: bytes, modTime: Time, now: Time, ghost read: nat -> Step) returns (o: Outcome)
      requires Consistent(View()) && Advances(read, |s|)
      requires forall q: nat {:trigger Next(s, modTime, q)} :: read(q) == Next(s, modTime, q)
      modifies `keys, `exps, `idxs
      ensures o == Resp.Load(read, |s|, 0, 0, []) && View() == LoadCmds(old(View()), o.cmds, now)
    {
      var p: nat, total: nat := 0, 0;
      var cmds: seq<Cmd> := [];
      while true
        invariant p <= |s| && Resp.Load(read, |s|, 0, 0, []) == Resp.Load(read, |s|, p, total, cmds)
        invariant View() == LoadCmds(old(View()), cmds, now)
        decreases |s| - p
      {
        var step := NextStep(s, modTime, p, read);
        match step {
          case Stop(status) => return Outcome(cmds, total, status);
          case Ignore(next) => p := next;
          case Apply(c, next) =>
            LoadIsReplay(old(View()), cmds, now);
            RunCommand(c, now);
            assert (cmds + [c])[..|cmds|] == cmds;
            cmds := cmds + [c];
            total := total + (next - p);
            p := next;
        }
      }
    }

    method RunCommand(c: Cmd, now: Time)
      requires Keyed(keys)
      modifies `keys, `exps, `idxs
      ensures View() == LoadCmd(old(View()), c, now)
    {
      match c
      case Set(k, v, d) =>
        if d.None? || d.value > now { var _ := InsertIntoDatabase(Record(k, v, d)); }
      case Del(k) => var _ := DeleteFromDatabase(k);
      case Flush => keys, exps, idxs := map[], {}, map[];
    }

    /** load: read the file, cut it off after the last whole command, go to its end. */
    method Open(now: Time) returns (status: Status)
      requires View() == Build(map[], map[])
      modifies this
      ensures status == LoadFile(old(file), now).status && persist == old(persist)
      ensures status in {Ok, UnexpectedEof} ==>
        var s := System.Reopened(old(file), now);
        View() == s.db && pos == LoadFile(old(file), now).n
          && (status == UnexpectedEof ==> file == s.file && pos == |file|)
      ensures status != UnexpectedEof ==> file == old(file)
    {
      BuildIsConsistent(map[], map[]);
      var o := ReadLoad(file, now, now);
      LoadIsReplay(Build(map[], map[]), o.cmds, now);
      status := o.status;
      if status == UnexpectedEof { file := file[..o.n]; }
      if status in {Ok, UnexpectedEof} { pos := o.n; }
    }

    /** One chunk of a compaction: the items from `pivot` on, until a limit is passed. */
    method CopyChunk(pivot: bytes, maxItems: nat, maxBytes: nat)
      returns (buf: bytes, next: Option<bytes>, ghost order: seq<bytes>)
      requires Keyed(keys)
      ensures Lists(order, System.ChunkKeys(keys, pivot, next))
      ensures forall i, j :: 0 <= i < j < |order| ==> LexLess(order[i], order[j])
      ensures next.Some? ==> next.value in keys && LexLess(pivot, next.value) && order != []
      ensures buf == EncodeAll(CmdsOf(order, System.Copies(keys, System.ChunkKeys(keys, pivot, next))))
    {
      ghost var from := System.ChunkKeys(keys, pivot, None);
      var rest := set k | k in keys && !LexLess(k, pivot);
      var n := 0;
      buf, next, order := [], None, [];
      ghost var w := System.Copies(keys, from);
      while rest != {}
        invariant n == |order| && (n == 0 ==> buf == [])
        invariant forall k :: k in from <==> k in rest || k in order
        invariant forall k :: k in rest ==> k !in order
        invariant forall k, j :: k in order && j in rest ==> LexLess(k, j)
        invariant forall i, j :: 0 <= i < j < |order| ==> LexLess(order[i], order[j])
        invariant buf == EncodeAll(CmdsOf(order, w))
        decreases |rest|
      {
        var k := LeastKey(rest);
        if n > maxItems || |buf| > maxBytes {
          next := Some(k);
          ChunkEnds(keys, pivot, order, rest, k);
          return;
        }
        var item := keys[k];
        buf := buf + Encode(Set(item.key, item.val, item.deadline));
        CopySnoc(order, k, w);
        order := order + [k];
        n := n + 1;
        rest := rest - {k};
      }
      SortedIsListing(order);
    }
  }

  /** The items' order in a chunk makes it a listing. */
  lemma SortedIsListing(order: seq<bytes>)
    requires forall i, j :: 0 <= i < j < |order| ==> LexLess(order[i], order[j])
    ensures forall i, j :: 0 <= i < j < |order| ==> order[i] != order[j]
  {
    forall i, j | 0 <= i < j < |order| ensures order[i] != order[j] { LexIrreflexive(order[i]); }
  }

  lemma ChunkEnds(m: Keys, pivot: bytes, order: seq<bytes>, rest: set<bytes>, k: bytes)
    requires k in rest && (forall j :: j in rest && j != k ==> LexLess(k, j)) && order != []
    requires forall j :: (j in m && !LexLess(j, pivot)) <==> j in rest || j in order
    requires forall i, j :: i in order && j in rest ==> LexLess(i, j)
    requires forall i, j :: 0 <= i < j < |order| ==> LexLess(order[i], order[j])
    ensures k in m && LexLess(pivot, k) && Lists(order, System.ChunkKeys(m, pivot, Some(k)))
    ensures forall j :: j in order ==> j in m
    ensures CmdsOf(order, System.Copies(m, System.ChunkKeys(m, pivot, Some(k))))
         == CmdsOf(order, System.Copies(m, System.ChunkKeys(m, pivot, None)))
  {
    SortedIsListing(order);
    var first := order[0];
    assert first in order && LexLess(first, k);
    LexTotal(pivot, first);
    if pivot != first { LexTransitive(pivot, first, k); }
    forall j | j in rest ensures !LexLess(j, k) {
      if j == k { LexIrreflexive(k); } else { LexAsymmetric(k, j); }
    }
    var a := System.Copies(m, System.ChunkKeys(m, pivot, Some(k)));
    var b := System.Copies(m, System.ChunkKeys(m, pivot, None));
    assert forall i :: 0 <= i < |order| ==> order[i] in order && a[order[i]] == b[order[i]];
    assert CmdsOf(order, a) == CmdsOf(order, b);
  }

  lemma CopySnoc(order: seq<bytes>, k: bytes, w: Writes)
    requires (forall j :: j in order ==> j in w) && k in w
    ensures EncodeAll(CmdsOf(order + [k], w)) == EncodeAll(CmdsOf(order, w)) + Encode(CmdOf(k, w[k]))
  {
    var c := CmdOf(k, w[k]);
    assert CmdsOf(order + [k], w) == CmdsOf(order, w) + [c];
    EncodeAllAppend(CmdsOf(order, w), [c]);
    assert EncodeAll([c]) == Encode(c) + EncodeAll([c][1..]);
  }

  function Updated(idxs: map<bytes, Index>, hits: set<bytes>, f: Index -> Index): map<bytes, Index> {
    map n | n in idxs :: if n in hits then f(idxs[n]) else idxs[n]
  }

  lemma InsertsByHits(idxs: map<bytes, Index>, hits: set<bytes>, prev: Option<Item>, item: Item)
    requires hits == set n | n in idxs && idxs[n].matches(item.key)
    ensures var mid := if prev.Some? then Updated(idxs, hits, (i: Index) => DropItem(i, prev.value)) else idxs;
            Updated(mid, hits, (i: Index) => AddItem(i, item)) == map n | n in idxs :: IndexInsert(idxs[n], prev, item)
  {
  }

  function DropItem(idx: Index, item: Item): Index {
    if idx.less.None? then idx else idx.(items := TreeDelete(idx.items, item, ByValue(idx.less)))
  }

  function AddItem(idx: Index, item: Item): Index {
    if idx.less.None? then idx else idx.(items := TreeSet(idx.items, item, ByValue(idx.less)))
  }
}
