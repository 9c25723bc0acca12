/** The transaction object that callers hold: checks, in-place updates, commit and rollback. */
module TxObject {
  import opened Common
  import opened Items
  import opened Resp
  import opened Replay
  import opened Store
  import T = Transactions
  import D = Database
  import System

  datatype Err =
    | NoErr | TxClosed | TxNotWritable | TxIterating | NotFound | IndexExists | InvalidOperation | WriteFailed

  /** `deadline` has been passed (strictly) at `now`. */
  predicate Past(i: Item, now: Time) {
    i.deadline.Some? && now > i.deadline.value
  }

  /** What rollbackInner needs of the records it undoes; every transaction keeps it. */
  ghost predicate Recoverable(t: T.Tx) {
    && Consistent(T.Base(t)) && KeyedWrites(t.wc.undo)
    && forall n :: n in t.wc.undoIdx && t.wc.undoIdx[n].Some? ==> Sound(ByValue(t.wc.undoIdx[n].value.less))
  }

  lemma UndoableIsRecoverable(db0: Db, t: T.Tx)
    requires Consistent(db0) && T.Undoable(db0, t)
    ensures Recoverable(t)
  {
    forall k | k in t.wc.undo && t.wc.undo[k].Some? ensures KeyedItem(k, t.wc.undo[k].value) {
      assert Lookup(db0.keys, k) == t.wc.undo[k];
    }
    forall n | n in t.wc.undoIdx && t.wc.undoIdx[n].Some? ensures Sound(ByValue(t.wc.undoIdx[n].value.less)) {
      assert T.DefAt(db0.idxs, n) == t.wc.undoIdx[n];
    }
  }

  class TxHandle {
    const db: D.Database
    const writable: bool
    var closed: bool
    var backup: Option<Db>
    var undo: Writes
    var redo: Writes
    var undoIdx: map<bytes, Option<Index>>
    var itercount: nat
    /** The database at Begin and the operations since. */
    ghost const origin: Db
    ghost var ops: seq<T.Op>

    /** The state is what the operations have made of the database at Begin. */
    ghost predicate Valid()
      reads this, db
    {
      && Consistent(origin) && State() == T.Run(T.Begin(origin, db.persist), ops)
      && forall op :: op in ops ==> T.SoundOp(op)
    }

    function Wc(): T.Wc
      reads this, db
    {
      T.Wc(db.persist, backup, undo, redo, undoIdx)
    }

    /** The database and the write context as one value. */
    function State(): T.Tx
      reads this, db
    {
      T.Tx(db.View(), Wc())
    }

    /** Why a write operation is refused, if it is. */
    function Refusal(): Err reads this {
      if closed then TxClosed
      else if !writable then TxNotWritable
      else if itercount > 0 then TxIterating
      else NoErr
    }

    constructor Begin(db: D.Database, writable: bool)
      ensures this.db == db && this.writable == writable && itercount == 0 && !closed
      ensures State() == T.Begin(db.View(), db.persist) && origin == db.View()
      ensures Consistent(db.View()) ==> Valid()
    {
      this.db, this.writable, closed, itercount := db, writable, false, 0;
      backup, undo, redo, undoIdx := None, map[], map[], map[];
      origin, ops := db.View(), [];
    }

    method Set(key: bytes, value: bytes, ttl: Option<Time>, now: Time) returns (previous: Option<bytes>, err: Err)
      requires Valid()
      modifies this`undo, this`redo, this`ops, db`keys, db`exps, db`idxs
      ensures Valid() && err == old(Refusal())
      ensures err != NoErr ==> State() == old(State())
      ensures err == NoErr ==>
        var item := Record(key, value, if ttl.None? then None else Some(now + ttl.value));
        State() == T.Set(old(State()), item) && db.View() == Build(old(db.keys)[key := item], old(db.idxs))
      ensures previous ==
        if err == NoErr && backup.None? && key in old(db.keys) && !Past(old(db.keys)[key], now)
        then Some(old(db.keys)[key].val) else None
    {
      previous, err := None, Refusal();
      if err != NoErr { return; }
      var item := Record(key, value, if ttl.None? then None else Some(now + ttl.value));
      var prev := db.InsertIntoDatabase(item);
      if backup.None? {
        if prev.None? {
          if key !in undo { undo := undo[key := None]; }
        } else {
          if key !in undo { undo := undo[key := prev]; }
          if !Past(prev.value, now) { previous := Some(prev.value.val); }
        }
      }
      if db.persist { redo := redo[key := Some(item)]; }
      OneMore(origin, db.persist, ops, T.OpSet(key, value, item.deadline));
      ops := ops + [T.OpSet(key, value, item.deadline)];
    }

    method Get(key: bytes, ignoreExpired: bool, now: Time) returns (val: Option<bytes>, err: Err)
      ensures closed ==> err == TxClosed && val == None
      ensures !closed ==>
        (val.Some? <==> key in db.keys && (ignoreExpired || !Past(db.keys[key], now))) &&
        err == (if val.Some? then NoErr else NotFound) && (val.Some? ==> val.value == db.keys[key].val)
    {
      if closed { return None, TxClosed; }
      var item := Lookup(db.keys, key);
      if item.None? || (Past(item.value, now) && !ignoreExpired) { return None, NotFound; }
      return Some(item.value.val), NoErr;
    }

    method Delete(key: bytes, now: Time) returns (val: Option<bytes>, err: Err)
      requires Valid()
      modifies this`undo, this`redo, this`ops, db`keys, db`exps, db`idxs
      ensures Valid()
      ensures old(Refusal()) != NoErr ==> err == old(Refusal()) && State() == old(State())
      ensures old(Refusal()) == NoErr ==>
        && State() == T.Delete(old(State()), key) && db.View() == Build(old(db.keys) - {key}, old(db.idxs))
        && err == (if key in old(db.keys) && !Past(old(db.keys)[key], now) then NoErr else NotFound)
        && val == (if err == NoErr then Some(old(db.keys)[key].val) else None)
    {
      val, err := None, Refusal();
      if err != NoErr { return; }
      RunFacts(origin, db.persist, ops);
      OneMore(origin, db.persist, ops, T.OpDelete(key));
      ops := ops + [T.OpDelete(key)];
      var item := db.DeleteFromDatabase(key);
      if item.None? { return None, NotFound; }
      if backup.None? && key !in undo { undo := undo[key := item]; }
      if db.persist { redo := redo[key := None]; }
      if Past(item.value, now) { return None, NotFound; }
      return Some(item.value.val), NoErr;
    }

    method DeleteAll() returns (err: Err)
      requires Valid()
      modifies this`backup, this`redo, this`ops, db`keys, db`exps, db`idxs
      ensures Valid() && err == old(Refusal())
      ensures err != NoErr ==> State() == old(State())
      ensures err == NoErr ==>
        State() == T.DeleteAll(old(State())) && db.View() == Build(map[], T.Base(old(State())).idxs)
    {
      err := Refusal();
      if err != NoErr { return; }
      ghost var was := State();
      Empty();
      DeletesAll(origin, db.persist, ops, was, State());
      ops := ops + [T.OpDeleteAll];
    }

    /** The database is kept aside the first time; the live one starts again with empty indexes. */
    method Empty()
      modifies this`backup, this`redo, db`keys, db`exps, db`idxs
      ensures State() == T.DeleteAll(old(State()))
    {
      if backup.None? { backup := Some(db.View()); }
      db.keys, db.exps := map[], {};
      db.idxs := ClearCopies(backup.value.idxs);
      redo := map[];
    }

    /** Empty copies of the indexes. */
    static method ClearCopies(from: map<bytes, Index>) returns (r: map<bytes, Index>)
      ensures r == map n | n in from :: T.Clear(from[n])
    {
      r := map[];
      var rest := from.Keys;
      while rest != {}
        invariant rest <= from.Keys && r == map n | n in from.Keys - rest :: T.Clear(from[n])
        decreases |rest|
      {
        var n :| n in rest;
        r := r[n := T.Clear(from[n])];
        rest := rest - {n};
      }
    }

    method CreateIndex(name: bytes, matches: bytes -> bool, less: Option<Less>) returns (err: Err)
      requires Valid() && Sound(ByValue(less))
      modifies this`undoIdx, this`ops, db`idxs
      ensures Valid()
      ensures old(Refusal()) != NoErr ==> err == old(Refusal()) && State() == old(State())
      ensures old(Refusal()) == NoErr ==>
        && State() == T.CreateIndex(old(State()), name, Index(matches, less, {}))
        && err == (if name == [] || name in old(db.idxs) then IndexExists else NoErr)
        && (err == NoErr ==> db.View() == Build(old(db.keys), old(db.idxs)[name := Index(matches, less, {})]))
    {
      err := Refusal();
      if err != NoErr { return; }
      RunFacts(origin, db.persist, ops);
      OneMore(origin, db.persist, ops, T.OpCreateIndex(name, matches, less));
      ops := ops + [T.OpCreateIndex(name, matches, less)];
      if name == [] || name in db.idxs { return IndexExists; }
      var idx := db.RebuildIndex(Index(matches, less, {}));
      db.idxs := db.idxs[name := idx];
      if backup.None? && name !in undoIdx { undoIdx := undoIdx[name := None]; }
    }

    method DropIndex(name: bytes) returns (err: Err)
      requires Valid()
      modifies this`undoIdx, this`ops, db`idxs
      ensures Valid()
      ensures old(Refusal()) != NoErr ==> err == old(Refusal()) && State() == old(State())
      ensures old(Refusal()) == NoErr ==>
        && State() == T.DropIndex(old(State()), name)
        && err == (if name == [] then InvalidOperation else if name !in old(db.idxs) then NotFound else NoErr)
        && (err == NoErr ==> db.View() == Build(old(db.keys), old(db.idxs) - {name}))
    {
      err := Refusal();
      if err != NoErr { return; }
      OneMore(origin, db.persist, ops, T.OpDropIndex(name));
      ops := ops + [T.OpDropIndex(name)];
      if name == [] { return InvalidOperation; }
      if name !in db.idxs { return NotFound; }
      var idx := db.idxs[name];
      db.idxs := db.idxs - {name};
      if backup.None? && name !in undoIdx { undoIdx := undoIdx[name := Some(T.Clear(idx))]; }
    }

    /** Undo everything, meeting the records in any order. */
    method RollbackInner()
      requires Recoverable(State())
      modifies db`keys, db`exps, db`idxs
      ensures db.View() == T.RolledBack(old(State()))
    {
      if backup.Some? {
        db.keys, db.exps, db.idxs := backup.value.keys, backup.value.exps, backup.value.idxs;
      }
      ghost var base := T.Base(old(State()));
      UndoKeys(base);
      UndoIndexes(base.idxs);
    }

    method UndoKeys(ghost base: Db)
      requires db.View() == base && Consistent(base) && KeyedWrites(undo)
      modifies db`keys, db`exps, db`idxs
      ensures db.View() == Build(Overlay(base.keys, undo), base.idxs) && Keyed(db.keys)
    {
      UnwrittenEnds(base, undo);
      UndoEachKey(base, Unwriting(base, undo));
    }

    method UndoEachKey(ghost base: Db, ghost unwritten: set<bytes> -> Db)
      requires IsUnwritten(unwritten, base, undo) && db.View() == unwritten(undo.Keys) && Keyed(db.keys)
      requires Consistent(base) && KeyedWrites(undo)
      modifies db`keys, db`exps, db`idxs
      ensures db.View() == unwritten({}) && Keyed(db.keys)
    {
      var rest := undo.Keys;
      while rest != {}
        invariant rest <= undo.Keys && db.View() == unwritten(rest) && Keyed(db.keys)
        decreases |rest|
      {
        var k :| k in rest;
        UndoKeyStep(unwritten, base, undo, rest, k);
        var _ := db.DeleteFromDatabase(k);
        if undo[k].Some? { var _ := db.InsertIntoDatabase(undo[k].value); }
        rest := rest - {k};
      }
    }

    method UndoIndexes(ghost idxs0: map<bytes, Index>)
      requires db.View() == Build(db.keys, idxs0) && Keyed(db.keys)
      requires forall n :: n in undoIdx && undoIdx[n].Some? ==> Sound(ByValue(undoIdx[n].value.less))
      modifies db`idxs
      ensures db.View() == Build(db.keys, T.OverlayDefs(idxs0, undoIdx))
    {
      UndoneEnds(db.keys, idxs0, undoIdx);
      UndoEach(UndoneBy(db.keys, idxs0, undoIdx), idxs0);
    }

    method UndoEach(ghost undone: set<bytes> -> map<bytes, Index>, ghost idxs0: map<bytes, Index>)
      requires Keyed(db.keys) && IsUndone(undone, db.keys, idxs0, undoIdx) && db.idxs == undone(undoIdx.Keys)
      requires forall n :: n in undoIdx && undoIdx[n].Some? ==> Sound(ByValue(undoIdx[n].value.less))
      modifies db`idxs
      ensures db.idxs == undone({})
    {
      var rest := undoIdx.Keys;
      while rest != {}
        invariant rest <= undoIdx.Keys && db.idxs == undone(rest)
        decreases |rest|
      {
        var n :| n in rest;
        UndoIndexStep(undone, db.keys, idxs0, undoIdx, rest, n);
        UndoIndex(n);
        rest := rest - {n};
      }
    }

    /** One index goes back to its recorded definition, rebuilt, or away. */
    method UndoIndex(n: bytes)
      requires n in undoIdx && Keyed(db.keys)
      requires undoIdx[n].Some? ==> Sound(ByValue(undoIdx[n].value.less))
      modifies db`idxs
      ensures db.idxs == IndexUndone(db.keys, old(db.idxs), n, undoIdx[n])
    {
      db.idxs := db.idxs - {n};
      if undoIdx[n].Some? {
        var idx := db.RebuildIndex(undoIdx[n].value);
        db.idxs := db.idxs[n := idx];
      }
    }

    /** Whatever the transaction did, the database is again what it was at Begin. */
    method Rollback() returns (err: Err)
      requires !closed && writable ==> Valid()
      modifies this`closed, db`keys, db`exps, db`idxs
      ensures err == (if old(closed) then TxClosed else NoErr) && closed
      ensures db.View() == if !old(closed) && writable then origin else old(db.View())
    {
      if closed { return TxClosed; }
      if writable {
        RunFacts(origin, db.persist, ops);
        T.RollbackIsExact(origin, db.persist, ops);
        RollbackInner();
      }
      closed := true;
      return NoErr;
    }

    /** The records to log, in the order in which they are met. */
    method LogRecords() returns (buf: bytes, ghost order: seq<bytes>)
      ensures Lists(order, redo.Keys) && buf == EncodeAll(CmdsOf(order, redo))
    {
      buf, order := [], [];
      var rest := redo.Keys;
      while rest != {}
        invariant rest <= redo.Keys && Lists(order, redo.Keys - rest)
        invariant buf == EncodeAll(CmdsOf(order, redo))
        decreases |rest|
      {
        var k :| k in rest;
        buf := buf + Encode(CmdOf(k, redo[k]));
        D.CopySnoc(order, k, redo);
        ListsSnoc(order, redo.Keys - rest, k);
        order := order + [k];
        rest := rest - {k};
        assert redo.Keys - rest == redo.Keys - (rest + {k}) + {k};
      }
    }

    /** A write that goes through, or fails after some bytes that are then cut off again. */
    method WriteLog(buf: bytes, fails: bool, written: nat)
      requires db.pos == |db.file|
      modifies db`file, db`pos
      ensures db.pos == |db.file| && db.file == old(db.file) + if fails then [] else buf
    {
      var n := if !fails || written > |buf| then |buf| else written;
      db.file := db.file[..db.pos] + buf[..n];
      db.pos := db.pos + n;
      if fails {
        // seek back over the partial write and truncate there
        db.pos := db.pos - n;
        db.file := db.file[..db.pos];
      }
    }

    /**
     * Commit. `written` and `fails` are what the file system does with the write: all of the buffer,
     * or an error after some bytes, which are then cut off again and the transaction undone.
     */
    method Commit(fails: bool, written: nat) returns (err: Err, ghost order: seq<bytes>)
      requires !closed && writable ==> Valid() && db.pos == |db.file|
      modifies this`closed, db`keys, db`exps, db`idxs, db`file, db`pos
      ensures old(closed) || !writable ==>
        err == (if old(closed) then TxClosed else TxNotWritable) && closed == old(closed) && unchanged(db)
      ensures !old(closed) && writable ==>
        && closed && Lists(order, redo.Keys) && db.pos == |db.file|
        && err == (if fails && db.persist && System.Dirty(old(Wc())) then WriteFailed else NoErr)
        && (err == NoErr ==>
              && db.View() == old(db.View())
              && db.file == old(db.file) +
                 if db.persist && System.Dirty(old(Wc())) then System.CommitBytes(old(Wc()), order) else [])
        && (err == WriteFailed ==> db.View() == origin && db.file == old(db.file))
    {
      err, order := NoErr, [];
      if closed { return TxClosed, []; }
      if !writable { return TxNotWritable, []; }
      var records;
      records, order := LogRecords();
      if db.persist && (redo != map[] || backup.Some?) {
        var head := if backup.Some? then FLUSH_RECORD else [];
        CommitHead(Wc(), order);
        WriteLog(head + records, fails, written);
        if fails {
          RunFacts(origin, db.persist, ops);
          T.RollbackIsExact(origin, db.persist, ops);
          RollbackInner();
          err := WriteFailed;
        }
      }
      closed := true;
    }
  }

  lemma OneMore(origin: Db, persist: bool, ops: seq<T.Op>, op: T.Op)
    requires Consistent(origin) && T.SoundOp(op) && forall o :: o in ops ==> T.SoundOp(o)
    ensures var t, t' := T.Run(T.Begin(origin, persist), ops), T.Run(T.Begin(origin, persist), ops + [op]);
            && t' == T.Perform(t, op)
            && t'.db == Build(T.KeysAfter(t.db.keys, op), T.DefsAfter(T.Base(t).idxs, t.db.idxs, op))
  {
    System.RunSnoc(T.Begin(origin, persist), ops, op);
    T.RunKeeps(origin, persist, ops);
    T.PerformIs(T.Run(T.Begin(origin, persist), ops), op);
  }

  lemma DeletesAll(origin: Db, persist: bool, ops: seq<T.Op>, t: T.Tx, t': T.Tx)
    requires Consistent(origin) && forall o :: o in ops ==> T.SoundOp(o)
    requires t == T.Run(T.Begin(origin, persist), ops) && t' == T.DeleteAll(t)
    ensures t' == T.Run(T.Begin(origin, persist), ops + [T.OpDeleteAll]) && t'.db == Build(map[], T.Base(t).idxs)
  {
    OneMore(origin, persist, ops, T.OpDeleteAll);
  }

  /** Every run of operations can be rolled back, and keeps the keys in order. */
  lemma RunFacts(origin: Db, persist: bool, ops: seq<T.Op>)
    requires Consistent(origin) && forall op :: op in ops ==> T.SoundOp(op)
    ensures var t := T.Run(T.Begin(origin, persist), ops); Recoverable(t) && Keyed(t.db.keys)
  {
    T.RunKeeps(origin, persist, ops);
    UndoableIsRecoverable(origin, T.Run(T.Begin(origin, persist), ops));
  }

  /** The literal bytes written for a DeleteAll. */
  const FLUSH_RECORD: bytes := [42, 49, 13, 10, 36, 55, 13, 10] + FLUSHDB + CRLF

  lemma OneLessLeft<K, V>(m: map<K, V>, rest: set<K>, k: K)
    requires k in rest && k in m
    ensures m - (rest - {k}) == (m - rest)[k := m[k]]
  {
  }

  /** The database with the recorded items back in place, except those of the keys in `rest`. */
  ghost function Unwritten(base: Db, undo: Writes, rest: set<bytes>): Db {
    Build(Overlay(base.keys, undo - rest), base.idxs)
  }

  ghost function Unwriting(base: Db, undo: Writes): (unwritten: set<bytes> -> Db)
    ensures IsUnwritten(unwritten, base, undo)
    ensures unwritten(undo.Keys) == Unwritten(base, undo, undo.Keys) && unwritten({}) == Unwritten(base, undo, {})
  {
    rest => Unwritten(base, undo, rest)
  }

  ghost predicate IsUnwritten(unwritten: set<bytes> -> Db, base: Db, undo: Writes) {
    forall rest {:trigger Unwritten(base, undo, rest)} :: unwritten(rest) == Unwritten(base, undo, rest)
  }

  lemma UnwrittenEnds(base: Db, undo: Writes)
    requires Consistent(base)
    ensures Unwritten(base, undo, undo.Keys) == base
    ensures Unwritten(base, undo, {}) == Build(Overlay(base.keys, undo), base.idxs)
  {
    assert undo - undo.Keys == map[] && Overlay(base.keys, map[]) == base.keys;
    assert undo - {} == undo;
  }

  lemma UndoKeyStep(unwritten: set<bytes> -> Db, base: Db, undo: Writes, rest: set<bytes>, k: bytes)
    requires Consistent(base) && KeyedWrites(undo) && k in rest && rest <= undo.Keys
    requires IsUnwritten(unwritten, base, undo) && Keyed(unwritten(rest).keys)
    ensures var gone, next := Remove(unwritten(rest), k), unwritten(rest - {k});
            (if undo[k].Some? then Insert(gone, undo[k].value) else gone) == next && Keyed(next.keys)
  {
    var _, _ := Unwritten(base, undo, rest), Unwritten(base, undo, rest - {k});
    var now := Overlay(base.keys, undo - rest);
    OneLessLeft(undo, rest, k);
    OverlayOneMore(base.keys, undo - rest, k, undo[k]);
    RemoveAgrees(now, base.idxs, k);
    if undo[k].Some? { InsertAgrees(now - {k}, base.idxs, undo[k].value); }
  }

  lemma OverlayOneMore(m: Keys, u: Writes, k: bytes, w: Option<Item>)
    ensures Overlay(m, u[k := w]) == if w.Some? then (Overlay(m, u) - {k})[k := w.value] else Overlay(m, u) - {k}
  {
  }

  lemma OverlayDefsOne(idxs0: map<bytes, Index>, u: map<bytes, Option<Index>>, n: bytes, w: Option<Index>)
    ensures var d := T.OverlayDefs(idxs0, u) - {n};
            T.OverlayDefs(idxs0, u[n := w]) == if w.Some? then d[n := w.value] else d
  {
  }

  lemma BuildDefsOne(m: Keys, d: map<bytes, Index>, n: bytes, idx: Index)
    ensures Build(m, d - {n}).idxs == Build(m, d).idxs - {n}
    ensures Build(m, d[n := idx]).idxs == Build(m, d).idxs[n := Rebuild(idx, m)]
  {
  }

  /** The indexes with the recorded definitions back in place, except those in `rest`. */
  ghost function Undone(
    m: Keys, idxs0: map<bytes, Index>, undoIdx: map<bytes, Option<Index>>, rest: set<bytes>): map<bytes, Index>
  {
    Build(m, T.OverlayDefs(idxs0, undoIdx - rest)).idxs
  }

  function IndexUndone(m: Keys, idxs: map<bytes, Index>, n: bytes, w: Option<Index>): map<bytes, Index> {
    if w.Some? then (idxs - {n})[n := Rebuild(w.value, m)] else idxs - {n}
  }

  lemma UndoneEnds(m: Keys, idxs0: map<bytes, Index>, undoIdx: map<bytes, Option<Index>>)
    ensures Undone(m, idxs0, undoIdx, undoIdx.Keys) == Build(m, idxs0).idxs
    ensures Undone(m, idxs0, undoIdx, {}) == Build(m, T.OverlayDefs(idxs0, undoIdx)).idxs
  {
    assert undoIdx - undoIdx.Keys == map[] && T.OverlayDefs(idxs0, map[]) == idxs0;
    assert undoIdx - {} == undoIdx;
  }

  ghost function UndoneBy(m: Keys, idxs0: map<bytes, Index>, undoIdx: map<bytes, Option<Index>>):
    (undone: set<bytes> -> map<bytes, Index>)
    ensures IsUndone(undone, m, idxs0, undoIdx)
    ensures undone(undoIdx.Keys) == Undone(m, idxs0, undoIdx, undoIdx.Keys)
            && undone({}) == Undone(m, idxs0, undoIdx, {})
  {
    rest => Undone(m, idxs0, undoIdx, rest)
  }

  ghost predicate IsUndone(
    undone: set<bytes> -> map<bytes, Index>, m: Keys, idxs0: map<bytes, Index>, undoIdx: map<bytes, Option<Index>>)
  {
    forall rest {:trigger Undone(m, idxs0, undoIdx, rest)} :: undone(rest) == Undone(m, idxs0, undoIdx, rest)
  }

  lemma UndoIndexStep(
      undone: set<bytes> -> map<bytes, Index>, m: Keys, idxs0: map<bytes, Index>, undoIdx: map<bytes, Option<Index>>,
      rest: set<bytes>, n: bytes)
    requires n in rest && rest <= undoIdx.Keys && IsUndone(undone, m, idxs0, undoIdx)
    ensures IndexUndone(m, undone(rest), n, undoIdx[n]) == undone(rest - {n})
  {
    var _, _ := Undone(m, idxs0, undoIdx, rest), Undone(m, idxs0, undoIdx, rest - {n});
    var before := T.OverlayDefs(idxs0, undoIdx - rest);
    OneLessLeft(undoIdx, rest, n);
    OverlayDefsOne(idxs0, undoIdx - rest, n, undoIdx[n]);
    var any := if undoIdx[n].Some? then undoIdx[n].value else Index((k: bytes) => true, None, {});
    BuildDefsOne(m, before, n, any);
    BuildDefsOne(m, before - {n}, n, any);
  }

  lemma ListsSnoc(order: seq<bytes>, keys: set<bytes>, k: bytes)
    requires Lists(order, keys) && k !in keys
    ensures Lists(order + [k], keys + {k})
  {
  }

  lemma CommitHead(wc: T.Wc, order: seq<bytes>)
    requires forall k :: k in order ==> k in wc.redo
    ensures System.CommitBytes(wc, order)
         == (if wc.backup.Some? then FLUSH_RECORD else []) + EncodeAll(CmdsOf(order, wc.redo))
  {
    var cmds := CmdsOf(order, wc.redo);
    if wc.backup.Some? {
      EncodeAllAppend([Flush], cmds);
      assert EncodeAll([Flush]) == Encode(Flush) + EncodeAll([Flush][1..]);
      FlushBytes();
    } else {
      assert [] + cmds == cmds;
    }
  }

  /** They are the encoding of the flush command. */
  lemma FlushBytes()
    ensures Encode(Flush) == FLUSH_RECORD
  {
    assert Words(Flush)[1..] == [];
    assert Bulks(Words(Flush)) == Bulk(FLUSHDB) + Bulks(Words(Flush)[1..]);
    assert Digits(1) == [49] && Digits(7) == [55];
  }
}
