/** Write transactions: their effect, their undo and redo records, rollback and commit. */
module Transactions {
  import opened Common
  import opened Items
  import opened Resp
  import opened Replay
  import opened Store

  /**
   * The write context. `backup` is the database at the first DeleteAll; `undo` and `undoIdx` are
   * the rollback records made before it; `redo` is what a commit writes to the log.
   */
  datatype Wc = Wc(persist: bool, backup: Option<Db>, undo: Writes, redo: Writes, undoIdx: map<bytes, Option<Index>>)

  datatype Tx = Tx(db: Db, wc: Wc)

  datatype Op =
    | OpSet(key: bytes, val: bytes, deadline: Option<Time>)
    | OpDelete(key: bytes)
    | OpDeleteAll
    | OpCreateIndex(name: bytes, matches: bytes -> bool, less: Option<Less>)
    | OpDropIndex(name: bytes)

  function Begin(db: Db, persist: bool): Tx {
    Tx(db, Wc(persist, None, map[], map[], map[]))
  }

  /** An undo record is made once per key, and none after a DeleteAll. */
  function NoteUndo(wc: Wc, k: bytes, prev: Option<Item>): Wc {
    if wc.backup.None? && k !in wc.undo then wc.(undo := wc.undo[k := prev]) else wc
  }

  function NoteRedo(wc: Wc, k: bytes, w: Option<Item>): Wc {
    if wc.persist then wc.(redo := wc.redo[k := w]) else wc
  }

  function NoteIndex(wc: Wc, n: bytes, prev: Option<Index>): Wc {
    if wc.backup.None? && n !in wc.undoIdx then wc.(undoIdx := wc.undoIdx[n := prev]) else wc
  }

  function Clear(idx: Index): Index {
    idx.(items := {})
  }

  function Set(t: Tx, item: Item): Tx {
    Tx(Insert(t.db, item), NoteRedo(NoteUndo(t.wc, item.key, Lookup(t.db.keys, item.key)), item.key, Some(item)))
  }

  function Delete(t: Tx, k: bytes): Tx {
    if k !in t.db.keys then t
    else Tx(Remove(t.db, k), NoteRedo(NoteUndo(t.wc, k, Some(t.db.keys[k])), k, None))
  }

  function DeleteAll(t: Tx): Tx {
    var backup := if t.wc.backup.None? then t.db else t.wc.backup.value;
    Tx(Db(map[], {}, map n | n in backup.idxs :: Clear(backup.idxs[n])),
       t.wc.(backup := Some(backup), redo := map[]))
  }

  function CreateIndex(t: Tx, n: bytes, idx: Index): Tx {
    if n == [] || n in t.db.idxs then t
    else Tx(t.db.(idxs := t.db.idxs[n := Rebuild(idx, t.db.keys)]), NoteIndex(t.wc, n, None))
  }

  function DropIndex(t: Tx, n: bytes): Tx {
    if n == [] || n !in t.db.idxs then t
    else Tx(t.db.(idxs := t.db.idxs - {n}), NoteIndex(t.wc, n, Some(Clear(t.db.idxs[n]))))
  }

  function Perform(t: Tx, op: Op): Tx {
    match op
    case OpSet(k, v, d) => Set(t, Record(k, v, d))
    case OpDelete(k) => Delete(t, k)
    case OpDeleteAll => DeleteAll(t)
    case OpCreateIndex(n, matches, less) => CreateIndex(t, n, Index(matches, less, {}))
    case OpDropIndex(n) => DropIndex(t, n)
  }

  function Run(t: Tx, ops: seq<Op>): Tx {
    if ops == [] then t else Perform(Run(t, ops[..|ops| - 1]), ops[|ops| - 1])
  }

  /** An index comparison must be a strict weak order for the tree under it to mean anything. */
  ghost predicate SoundOp(op: Op) {
    op.OpCreateIndex? ==> Sound(ByValue(op.less))
  }

  // ---- What each operation does ----

  function KeysAfter(m: Keys, op: Op): Keys {
    match op
    case OpSet(k, v, d) => m[k := Record(k, v, d)]
    case OpDelete(k) => m - {k}
    case OpDeleteAll => map[]
    case _ => m
  }

  /** The definitions after an operation, `base` being those that a DeleteAll goes back to. */
  function DefsAfter(base: map<bytes, Index>, idxs: map<bytes, Index>, op: Op): map<bytes, Index> {
    match op
    case OpDeleteAll => base
    case OpCreateIndex(n, matches, less) => if n == [] || n in idxs then idxs else idxs[n := Index(matches, less, {})]
    case OpDropIndex(n) => if n == [] then idxs else idxs - {n}
    case _ => idxs
  }

  /**
   * The database after an operation is the one built from scratch from the changed key map and the changed
   * definitions: a Set replaces, a Delete removes, an index is there with its items as soon as it is created.
   */
  lemma PerformIs(t: Tx, op: Op)
    requires Consistent(t.db) && SoundOp(op)
    ensures Perform(t, op).db == Build(KeysAfter(t.db.keys, op), DefsAfter(Base(t).idxs, t.db.idxs, op))
  {
    match op
    case OpSet(k, v, d) => InsertAgrees(t.db.keys, t.db.idxs, Record(k, v, d));
    case OpDelete(k) => RemoveAgrees(t.db.keys, t.db.idxs, k);
    case OpDeleteAll => DeleteAllBuilds(Base(t).idxs);
    case OpCreateIndex(n, matches, less) =>
      var idx := Index(matches, less, {});
      assert Build(t.db.keys, t.db.idxs[n := idx]).idxs == t.db.idxs[n := Rebuild(idx, t.db.keys)];
    case OpDropIndex(n) =>
      assert Build(t.db.keys, t.db.idxs - {n}).idxs == t.db.idxs - {n};
      if n !in t.db.idxs { assert t.db.idxs - {n} == t.db.idxs; }
  }

  lemma DeleteAllBuilds(defs: map<bytes, Index>)
    ensures Build(map[], defs) == Db(map[], {}, map n | n in defs :: Clear(defs[n]))
  {
    forall n | n in defs ensures Rebuild(defs[n], map[]) == Clear(defs[n]) {
      assert Matching(map[], defs[n]) == {};
    }
    assert Expiring(map[]) == {};
  }

  function KeysAfterAll(m: Keys, ops: seq<Op>): Keys {
    if ops == [] then m else KeysAfter(KeysAfterAll(m, ops[..|ops| - 1]), ops[|ops| - 1])
  }

  /** Over a whole transaction, the key map is what its operations make of the one at Begin. */
  lemma {:induction false} RunIs(db0: Db, persist: bool, ops: seq<Op>)
    requires Consistent(db0) && forall op :: op in ops ==> SoundOp(op)
    ensures Run(Begin(db0, persist), ops).db.keys == KeysAfterAll(db0.keys, ops)
    decreases |ops|
  {
    if ops != [] {
      var n := |ops| - 1;
      RunIs(db0, persist, ops[..n]);
      RunKeeps(db0, persist, ops[..n]);
      PerformIs(Run(Begin(db0, persist), ops[..n]), ops[n]);
    }
  }

  /** The last Set, Delete or DeleteAll that concerns a key decides what a Get in the transaction finds. */
  lemma {:induction false} LastWriteDecides(m: Keys, ops: seq<Op>, op: Op, later: seq<Op>, k: bytes)
    requires forall o :: o in later ==> !o.OpDeleteAll? && (o.OpSet? || o.OpDelete? ==> o.key != k)
    ensures op == OpDeleteAll || op == OpDelete(k) ==> k !in KeysAfterAll(m, ops + [op] + later)
    ensures op.OpSet? && op.key == k ==>
            Lookup(KeysAfterAll(m, ops + [op] + later), k) == Some(Record(k, op.val, op.deadline))
    decreases |later|
  {
    var all := ops + [op] + later;
    if later == [] {
      assert all[..|all| - 1] == ops && all[|all| - 1] == op;
    } else {
      var n := |later| - 1;
      LastWriteDecides(m, ops, op, later[..n], k);
      assert all[..|all| - 1] == ops + [op] + later[..n] && all[|all| - 1] == later[n];
      assert later[n] in later;
    }
  }

  // ---- Rollback ----

  function Base(t: Tx): Db {
    if t.wc.backup.Some? then t.wc.backup.value else t.db
  }

  function OverlayDefs(idxs: map<bytes, Index>, u: map<bytes, Option<Index>>): map<bytes, Index> {
    map n | n in idxs.Keys + u.Keys && (n in u ==> u[n].Some?) :: if n in u then u[n].value else idxs[n]
  }

  /** Reinstate the backup, then the undo records, then the index records. */
  function RolledBack(t: Tx): Db {
    Build(Overlay(Base(t).keys, t.wc.undo), OverlayDefs(Base(t).idxs, t.wc.undoIdx))
  }

  function DefAt(idxs: map<bytes, Index>, n: bytes): Option<Index> {
    if n in idxs then Some(Clear(idxs[n])) else None
  }

  /** Each key at Begin is in its undo record, or still as it was. */
  ghost predicate UndoesKeys(start: Keys, now: Keys, undo: Writes) {
    forall k :: Lookup(start, k) == if k in undo then undo[k] else Lookup(now, k)
  }

  ghost predicate UndoesDefs(start: map<bytes, Index>, now: map<bytes, Index>, undo: map<bytes, Option<Index>>) {
    forall n :: DefAt(start, n) == if n in undo then undo[n] else DefAt(now, n)
  }

  /** What the write context knows about the database at Begin. */
  ghost predicate Undoable(db0: Db, t: Tx) {
    && Consistent(t.db) && Consistent(Base(t))
    && UndoesKeys(db0.keys, Base(t).keys, t.wc.undo)
    && UndoesDefs(db0.idxs, Base(t).idxs, t.wc.undoIdx)
  }

  /** The log records of the transaction, applied to the keys they start from, give the live keys. */
  ghost predicate Redoable(db0: Db, t: Tx) {
    && KeyedWrites(t.wc.redo)
    && (t.wc.persist ==> t.db.keys == Overlay(Start(db0, t), t.wc.redo))
  }

  function Start(db0: Db, t: Tx): Keys {
    if t.wc.backup.Some? then map[] else db0.keys
  }

  lemma BeginInv(db0: Db, persist: bool)
    requires Consistent(db0)
    ensures Undoable(db0, Begin(db0, persist)) && Redoable(db0, Begin(db0, persist))
  {
    assert Overlay(db0.keys, map[]) == db0.keys;
  }

  /** A change of one key, with its undo record, keeps the start recoverable. */
  lemma KeyChangeUndoes(start: Keys, now: Keys, now': Keys, undo: Writes, k: bytes)
    requires UndoesKeys(start, now, undo) && forall j :: j != k ==> Lookup(now', j) == Lookup(now, j)
    ensures UndoesKeys(start, now', if k in undo then undo else undo[k := Lookup(now, k)])
  {
  }

  lemma DefChangeUndoes(start: map<bytes, Index>, now: map<bytes, Index>, now': map<bytes, Index>,
                        undo: map<bytes, Option<Index>>, n: bytes)
    requires UndoesDefs(start, now, undo) && forall j :: j != n ==> DefAt(now', j) == DefAt(now, j)
    ensures UndoesDefs(start, now', if n in undo then undo else undo[n := DefAt(now, n)])
  {
  }

  lemma BuildDefs(m: Keys, idxs: map<bytes, Index>)
    ensures forall n :: DefAt(Build(m, idxs).idxs, n) == DefAt(idxs, n)
  {
  }

  /** Insert and Remove in one statement: the database changes at key k, and stays consistent. */
  lemma ChangesOneKey(db: Db, k: bytes, w: Option<Item>)
    requires Consistent(db) && (w.Some? ==> KeyedItem(k, w.value))
    ensures var db' := if w.Some? then Insert(db, w.value) else Remove(db, k);
            && Consistent(db') && db'.keys == Overlay(db.keys, map[k := w])
            && forall n :: DefAt(db'.idxs, n) == DefAt(db.idxs, n)
  {
    var m := Overlay(db.keys, map[k := w]);
    if w.Some? {
      InsertAgrees(db.keys, db.idxs, w.value);
      assert m == db.keys[k := w.value];
    } else {
      RemoveAgrees(db.keys, db.idxs, k);
      assert m == db.keys - {k};
    }
    BuildIsConsistent(m, db.idxs);
    BuildDefs(m, db.idxs);
  }

  lemma OverlayOne(m: Keys, redo: Writes, k: bytes, w: Option<Item>)
    ensures Overlay(Overlay(m, redo), map[k := w]) == Overlay(m, redo[k := w])
  {
  }

  lemma KeyOpUndoes(db0: Db, t: Tx, db': Db, k: bytes, w: Option<Item>)
    requires Undoable(db0, t) && Consistent(db') && db'.keys == Overlay(t.db.keys, map[k := w])
    requires forall n :: DefAt(db'.idxs, n) == DefAt(t.db.idxs, n)
    ensures Undoable(db0, Tx(db', NoteRedo(NoteUndo(t.wc, k, Lookup(t.db.keys, k)), k, w)))
  {
    var wc := NoteUndo(t.wc, k, Lookup(t.db.keys, k));
    if t.wc.backup.None? {
      KeyChangeUndoes(db0.keys, t.db.keys, db'.keys, t.wc.undo, k);
      assert Base(t) == t.db && Base(Tx(db', NoteRedo(wc, k, w))) == db';
    } else {
      assert Base(Tx(db', NoteRedo(wc, k, w))) == Base(t);
    }
  }

  lemma KeyOpRedoes(db0: Db, t: Tx, db': Db, k: bytes, w: Option<Item>)
    requires Redoable(db0, t) && db'.keys == Overlay(t.db.keys, map[k := w]) && (w.Some? ==> KeyedItem(k, w.value))
    ensures Redoable(db0, Tx(db', NoteRedo(NoteUndo(t.wc, k, Lookup(t.db.keys, k)), k, w)))
  {
    if t.wc.persist { OverlayOne(Start(db0, t), t.wc.redo, k, w); }
  }

  lemma KeyOpKeeps(db0: Db, t: Tx, k: bytes, w: Option<Item>)
    requires Undoable(db0, t) && Redoable(db0, t) && (w.Some? ==> KeyedItem(k, w.value))
    ensures var db' := if w.Some? then Insert(t.db, w.value) else Remove(t.db, k);
            var t' := Tx(db', NoteRedo(NoteUndo(t.wc, k, Lookup(t.db.keys, k)), k, w));
            Undoable(db0, t') && Redoable(db0, t')
  {
    var db' := if w.Some? then Insert(t.db, w.value) else Remove(t.db, k);
    ChangesOneKey(t.db, k, w);
    KeyOpUndoes(db0, t, db', k, w);
    KeyOpRedoes(db0, t, db', k, w);
  }

  lemma DeleteAllKeeps(db0: Db, t: Tx)
    requires Undoable(db0, t) && Redoable(db0, t)
    ensures Undoable(db0, DeleteAll(t)) && Redoable(db0, DeleteAll(t))
  {
    var b := Base(t);
    var emptied := map n | n in b.idxs :: Clear(b.idxs[n]);
    EmptyBuild(emptied);
    assert DeleteAll(t).db == Db(map[], {}, emptied);
  }

  lemma EmptyBuild(defs: map<bytes, Index>)
    requires SoundDefs(defs) && forall n :: n in defs ==> defs[n].items == {}
    ensures Consistent(Db(map[], {}, defs))
  {
    forall n | n in defs ensures Rebuild(defs[n], map[]) == defs[n] {
      assert Matching(map[], defs[n]) == {};
    }
    assert Expiring(map[]) == {};
    assert Build(map[], defs).idxs == defs;
  }

  lemma IndexChangeConsistent(db: Db, n: bytes, idx: Index)
    requires Consistent(db) && Sound(ByValue(idx.less))
    ensures Consistent(db.(idxs := db.idxs[n := Rebuild(idx, db.keys)]))
    ensures Consistent(db.(idxs := db.idxs - {n}))
  {
    var more, fewer := db.idxs[n := Rebuild(idx, db.keys)], db.idxs - {n};
    assert Build(db.keys, more).idxs == more;
    assert Build(db.keys, fewer).idxs == fewer;
  }

  lemma IndexOpKeeps(db0: Db, t: Tx, n: bytes, idx: Index)
    requires Undoable(db0, t) && Redoable(db0, t) && Sound(ByValue(idx.less))
    ensures Undoable(db0, CreateIndex(t, n, idx)) && Redoable(db0, CreateIndex(t, n, idx))
    ensures Undoable(db0, DropIndex(t, n)) && Redoable(db0, DropIndex(t, n))
  {
    IndexChangeConsistent(t.db, n, idx);
    if t.wc.backup.None? {
      DefChangeUndoes(db0.idxs, t.db.idxs, t.db.idxs[n := Rebuild(idx, t.db.keys)], t.wc.undoIdx, n);
      DefChangeUndoes(db0.idxs, t.db.idxs, t.db.idxs - {n}, t.wc.undoIdx, n);
    }
  }

  lemma PerformKeeps(db0: Db, t: Tx, op: Op)
    requires Undoable(db0, t) && Redoable(db0, t) && SoundOp(op)
    ensures Undoable(db0, Perform(t, op)) && Redoable(db0, Perform(t, op))
  {
    match op
    case OpSet(k, v, d) =>
      KeyOpKeeps(db0, t, k, Some(Record(k, v, d)));
    case OpDelete(k) =>
      KeyOpKeeps(db0, t, k, None);
    case OpDeleteAll => DeleteAllKeeps(db0, t);
    case OpCreateIndex(n, matches, less) => IndexOpKeeps(db0, t, n, Index(matches, less, {}));
    case OpDropIndex(n) => IndexOpKeeps(db0, t, n, Index((k: bytes) => true, None, {}));
  }

  lemma {:induction false} RunKeeps(db0: Db, persist: bool, ops: seq<Op>)
    requires Consistent(db0) && forall op :: op in ops ==> SoundOp(op)
    ensures Undoable(db0, Run(Begin(db0, persist), ops)) && Redoable(db0, Run(Begin(db0, persist), ops))
  {
    if ops == [] {
      BeginInv(db0, persist);
    } else {
      var n := |ops| - 1;
      RunKeeps(db0, persist, ops[..n]);
      PerformKeeps(db0, Run(Begin(db0, persist), ops[..n]), ops[n]);
    }
  }

  lemma UndoRestores(db0: Db, t: Tx)
    requires Consistent(db0) && Undoable(db0, t)
    ensures RolledBack(t) == db0
  {
    var keys := Overlay(Base(t).keys, t.wc.undo);
    var defs := OverlayDefs(Base(t).idxs, t.wc.undoIdx);
    forall k ensures Lookup(keys, k) == Lookup(db0.keys, k) {}
    MapsAgree(keys, db0.keys);
    forall n ensures DefAt(defs, n) == DefAt(db0.idxs, n) {}
    SameDefsSameBuild(keys, defs, db0.idxs);
  }

  lemma SameDefsSameBuild(m: Keys, a: map<bytes, Index>, b: map<bytes, Index>)
    requires forall n :: DefAt(a, n) == DefAt(b, n)
    ensures Build(m, a) == Build(m, b)
  {
    var x, y := Build(m, a).idxs, Build(m, b).idxs;
    forall n ensures Lookup(x, n) == Lookup(y, n) {
      assert DefAt(a, n) == DefAt(b, n);
      if n in a { assert Clear(a[n]) == Clear(b[n]); }
    }
    MapsAgree(x, y);
  }

  /**
   * Rollback is exact: whatever a transaction did, in any order and repetition, rolling it back
   * gives the keys, the expiry tree and every index (definition and contents) of its start.
   */
  lemma RollbackIsExact(db0: Db, persist: bool, ops: seq<Op>)
    requires Consistent(db0) && forall op :: op in ops ==> SoundOp(op)
    ensures RolledBack(Run(Begin(db0, persist), ops)) == db0
  {
    RunKeeps(db0, persist, ops);
    UndoRestores(db0, Run(Begin(db0, persist), ops));
  }

  // ---- Commit ----

  /** The commands a commit logs when it meets the redo records in this order. */
  function CommitCmds(wc: Wc, order: seq<bytes>): seq<Cmd>
    requires forall k :: k in order ==> k in wc.redo
  {
    (if wc.backup.Some? then [Flush] else []) + CmdsOf(order, wc.redo)
  }

  /** Replaying a commit's commands over the keys at Begin gives the keys at commit. */
  lemma CommitIsFaithful(db0: Db, ops: seq<Op>, order: seq<bytes>)
    requires Consistent(db0) && forall op :: op in ops ==> SoundOp(op)
    requires Lists(order, Run(Begin(db0, true), ops).wc.redo.Keys)
    ensures var t := Run(Begin(db0, true), ops);
            Replayed(db0.keys, CommitCmds(t.wc, order)) == t.db.keys
  {
    RunKeeps(db0, true, ops);
    PersistStays(Begin(db0, true), ops);
    var t := Run(Begin(db0, true), ops);
    var head := if t.wc.backup.Some? then [Flush] else [];
    ReplayedAppend(db0.keys, head, CmdsOf(order, t.wc.redo));
    assert head != [] ==> head[..0] == [];
    assert Replayed(db0.keys, head) == if t.wc.backup.Some? then map[] else db0.keys;
    WritesInAnyOrder(Replayed(db0.keys, head), t.wc.redo, order);
  }

  lemma PerformPersist(t: Tx, op: Op)
    ensures Perform(t, op).wc.persist == t.wc.persist
  {
  }

  lemma {:induction false} PersistStays(t: Tx, ops: seq<Op>)
    ensures Run(t, ops).wc.persist == t.wc.persist
  {
    if ops != [] {
      var n := |ops| - 1;
      PersistStays(t, ops[..n]);
      PerformPersist(Run(t, ops[..n]), ops[n]);
    }
  }

  /** Nothing to log means nothing changed. */
  lemma EmptyCommit(db0: Db, ops: seq<Op>)
    requires Consistent(db0) && forall op :: op in ops ==> SoundOp(op)
    requires var wc := Run(Begin(db0, true), ops).wc; wc.redo == map[] && wc.backup.None?
    ensures Run(Begin(db0, true), ops).db.keys == db0.keys
  {
    RunKeeps(db0, true, ops);
    PersistStays(Begin(db0, true), ops);
    assert Overlay(db0.keys, map[]) == db0.keys;
  }

  // ---- Index definitions across DeleteAll ----

  /** The two index maps define the same indexes. */
  ghost predicate SameDefs(a: map<bytes, Index>, b: map<bytes, Index>) {
    forall n :: DefAt(a, n) == DefAt(b, n)
  }

  /** DeleteAll goes back to the definitions of the transaction's first DeleteAll, if there was one. */
  lemma DefsAfterDeleteAll(t: Tx)
    ensures SameDefs(DeleteAll(t).db.idxs, Base(t).idxs)
  {
  }

  /** What later operations make of the definition d of index n, `d0` being that at the first DeleteAll. */
  function Redefined(d0: Option<Index>, d: Option<Index>, ops: seq<Op>, n: bytes): Option<Index> {
    if ops == [] then d
    else
      var d1 := Redefined(d0, d, ops[..|ops| - 1], n);
      match ops[|ops| - 1]
      case OpCreateIndex(k, matches, less) => if k == n && d1.None? then Some(Index(matches, less, {})) else d1
      case OpDropIndex(k) => if k == n then None else d1
      case OpDeleteAll => d0
      case _ => d1
  }

  ghost predicate DeletesAll(ops: seq<Op>) { OpDeleteAll in ops }

  lemma {:induction false} NoBackupYet(t: Tx, ops: seq<Op>)
    requires t.wc.backup.None? && !DeletesAll(ops)
    ensures Run(t, ops).wc.backup.None?
    decreases |ops|
  {
    if ops != [] {
      var m := |ops| - 1;
      assert ops[m] in ops && forall op :: op in ops[..m] ==> op in ops;
      NoBackupYet(t, ops[..m]);
      KeepsBackup(Run(t, ops[..m]), ops[m]);
    }
  }

  lemma KeepsBackup(t: Tx, op: Op)
    requires !op.OpDeleteAll?
    ensures Perform(t, op).wc.backup == t.wc.backup
  {
  }

  /** After the first DeleteAll, every definition is what the operations since have made of it. */
  lemma {:induction false} DefsSince(t: Tx, first: map<bytes, Index>, ops: seq<Op>, n: bytes)
    requires t.wc.backup.Some? && t.wc.backup.value.idxs == first && n != []
    ensures Run(t, ops).wc.backup == t.wc.backup
    ensures DefAt(Run(t, ops).db.idxs, n) == Redefined(DefAt(first, n), DefAt(t.db.idxs, n), ops, n)
    decreases |ops|
  {
    if ops != [] {
      var m := |ops| - 1;
      DefsSince(t, first, ops[..m], n);
      OneOpDefs(Run(t, ops[..m]), first, ops[m], n);
    }
  }

  lemma OneOpDefs(t: Tx, first: map<bytes, Index>, op: Op, n: bytes)
    requires t.wc.backup.Some? && t.wc.backup.value.idxs == first && n != []
    ensures Perform(t, op).wc.backup == t.wc.backup
    ensures DefAt(Perform(t, op).db.idxs, n) == Redefined(DefAt(first, n), DefAt(t.db.idxs, n), [op], n)
  {
    assert [op][..0] == [];
  }

  /** The definition of n when a transaction whose operations `pre` delete nothing deletes everything after them. */
  function FirstDef(db0: Db, persist: bool, pre: seq<Op>, n: bytes): Option<Index> {
    DefAt(Run(Begin(db0, persist), pre).db.idxs, n)
  }

  lemma AtFirstDeleteAll(db0: Db, persist: bool, pre: seq<Op>, n: bytes)
    requires !DeletesAll(pre)
    ensures var t := Run(Begin(db0, persist), pre + [OpDeleteAll]);
            && t.wc.backup.Some? && DefAt(t.wc.backup.value.idxs, n) == FirstDef(db0, persist, pre, n)
            && DefAt(t.db.idxs, n) == FirstDef(db0, persist, pre, n)
  {
    NoBackupYet(Begin(db0, persist), pre);
    assert (pre + [OpDeleteAll])[..|pre|] == pre;
  }

  lemma {:induction false} RunSplits(t: Tx, a: seq<Op>, b: seq<Op>)
    ensures Run(t, a + b) == Run(Run(t, a), b)
    decreases |b|
  {
    if b == [] {
      assert a + b == a;
    } else {
      var m := |b| - 1;
      RunSplits(t, a, b[..m]);
      assert (a + b)[..|a + b| - 1] == a + b[..m] && (a + b)[|a + b| - 1] == b[m];
    }
  }

  /**
   * In any transaction, `pre` being its operations before its first DeleteAll and `post` those after it: the next
   * DeleteAll keeps the definition of index n if and only if the operations in `post` leave it as it was at the first.
   */
  lemma DeleteAllKeepsIndexIff(db0: Db, persist: bool, pre: seq<Op>, post: seq<Op>, n: bytes)
    requires !DeletesAll(pre) && n != []
    ensures var t, d0 := Run(Begin(db0, persist), pre + [OpDeleteAll] + post), FirstDef(db0, persist, pre, n);
            && DefAt(t.db.idxs, n) == Redefined(d0, d0, post, n) && DefAt(DeleteAll(t).db.idxs, n) == d0
            && (DefAt(DeleteAll(t).db.idxs, n) == DefAt(t.db.idxs, n) <==> Redefined(d0, d0, post, n) == d0)
  {
    AtFirstDeleteAll(db0, persist, pre, n);
    var t1 := Run(Begin(db0, persist), pre + [OpDeleteAll]);
    RunSplits(Begin(db0, persist), pre + [OpDeleteAll], post);
    DefsSince(t1, t1.wc.backup.value.idxs, post, n);
    DefsAfterDeleteAll(Run(t1, post));
  }

  // Which operations those are: of those since the last DeleteAll, the last drop of the index and the first creation
  // after it.

  /** The operations after the last DeleteAll; all of them if there is none. */
  function SinceDeleteAll(ops: seq<Op>): seq<Op> {
    if ops == [] || ops[|ops| - 1].OpDeleteAll? then []
    else SinceDeleteAll(ops[..|ops| - 1]) + [ops[|ops| - 1]]
  }

  /** The operations after the last drop of n; all of them if there is none. */
  function SinceDrop(ops: seq<Op>, n: bytes): seq<Op> {
    if ops == [] || (ops[|ops| - 1].OpDropIndex? && ops[|ops| - 1].name == n) then []
    else SinceDrop(ops[..|ops| - 1], n) + [ops[|ops| - 1]]
  }

  /** The definition by the first creation of n, if any. */
  function FirstCreated(ops: seq<Op>, n: bytes): Option<Index> {
    if ops == [] then None
    else
      var d := FirstCreated(ops[..|ops| - 1], n);
      match ops[|ops| - 1]
      case OpCreateIndex(k, matches, less) => if k == n && d.None? then Some(Index(matches, less, {})) else d
      case _ => d
  }

  /**
   * A DeleteAll brings back d0, the definition at the first one. After the last one, without a drop of n, an index that
   * exists stays as it is and a missing one is as first created; with a drop, it is as first created since, or gone.
   */
  lemma {:induction false} RedefinedIs(d0: Option<Index>, d: Option<Index>, ops: seq<Op>, n: bytes)
    ensures var since, d1 := SinceDeleteAll(ops), if DeletesAll(ops) then d0 else d;
            Redefined(d0, d, ops, n) ==
            if OpDropIndex(n) !in since && d1.Some? then d1 else FirstCreated(SinceDrop(since, n), n)
    decreases |ops|
  {
    if ops != [] {
      var m := |ops| - 1;
      assert ops == ops[..m] + [ops[m]];
      RedefinedIs(d0, d, ops[..m], n);
      if !ops[m].OpDeleteAll? { LastOpRedefines(d0, d, ops, SinceDeleteAll(ops[..m]), n); }
    }
  }

  lemma LastOpRedefines(d0: Option<Index>, d: Option<Index>, ops: seq<Op>, before: seq<Op>, n: bytes)
    requires ops != [] && !ops[|ops| - 1].OpDeleteAll?
    requires var m, d1 := |ops| - 1, if DeletesAll(ops) then d0 else d;
             Redefined(d0, d, ops[..m], n) ==
             if OpDropIndex(n) !in before && d1.Some? then d1 else FirstCreated(SinceDrop(before, n), n)
    ensures var since, d1 := before + [ops[|ops| - 1]], if DeletesAll(ops) then d0 else d;
            Redefined(d0, d, ops, n) ==
            if OpDropIndex(n) !in since && d1.Some? then d1 else FirstCreated(SinceDrop(since, n), n)
  {
    var op := ops[|ops| - 1];
    SinceDropNext(before, op, n);
    if op != OpDropIndex(n) { FirstCreatedNext(SinceDrop(before, n), op, n); }
    assert OpDropIndex(n) in before + [op] <==> OpDropIndex(n) in before || op == OpDropIndex(n);
  }

  lemma SinceDropNext(before: seq<Op>, op: Op, n: bytes)
    ensures SinceDrop(before + [op], n) == if op == OpDropIndex(n) then [] else SinceDrop(before, n) + [op]
  {
    assert (before + [op])[..|before|] == before;
  }

  lemma FirstCreatedNext(since: seq<Op>, op: Op, n: bytes)
    ensures var d := FirstCreated(since, n);
            FirstCreated(since + [op], n) ==
            if op.OpCreateIndex? && op.name == n && d.None? then Some(Index(op.matches, op.less, {})) else d
  {
    assert (since + [op])[..|since|] == since;
  }

  /** A dropped index comes back through a second DeleteAll. */
  lemma DroppedIndexReturns(m: Keys, n: bytes, idx: Index)
    requires n != []
    ensures var ops := [OpDeleteAll, OpDropIndex(n), OpDeleteAll];
            var start := Begin(Build(m, map[n := idx]), true);
            && DefAt(Run(start, ops[..2]).db.idxs, n) == None && DefAt(Run(start, ops).db.idxs, n) == Some(Clear(idx))
  {
    var ops := [OpDeleteAll, OpDropIndex(n), OpDeleteAll];
    assert ops[..2] == [OpDeleteAll, OpDropIndex(n)] && ops[..2][..1] == [OpDeleteAll] && ops[..2][..1][..0] == [];
    var start := Begin(Build(m, map[n := idx]), true);
    var t1 := DeleteAll(start);
    assert Run(start, ops[..2][..1]) == t1;
    assert Run(start, ops[..2]) == DropIndex(t1, n);
    assert Run(start, ops) == DeleteAll(DropIndex(t1, n));
  }

  /** An index dropped and created anew with another definition silently gets the old one back. */
  lemma RecreatedIndexReverts(m: Keys, n: bytes, idx: Index, other: Index)
    requires n != []
    ensures var ops := [OpDropIndex(n), OpCreateIndex(n, other.matches, other.less)];
            var t := Run(Begin(Build(m, map[n := idx]), true), [] + [OpDeleteAll] + ops);
            && DefAt(t.db.idxs, n) == Some(Clear(other)) && DefAt(DeleteAll(t).db.idxs, n) == Some(Clear(idx))
  {
    var ops := [OpDropIndex(n), OpCreateIndex(n, other.matches, other.less)];
    var db0 := Build(m, map[n := idx]);
    assert DefAt(db0.idxs, n) == Some(Clear(idx));
    DeleteAllKeepsIndexIff(db0, true, [], ops, n);
    assert ops[..1] == [OpDropIndex(n)] && ops[..1][..0] == [];
    var d0 := Some(Clear(idx));
    assert Redefined(d0, d0, ops[..1], n) == None;
    assert Redefined(d0, d0, ops, n) == Some(Clear(other));
  }

  // ---- The background sweep ----

  function Deletes(ks: seq<bytes>): seq<Op> {
    seq(|ks|, i requires 0 <= i < |ks| => OpDelete(ks[i]))
  }

  lemma {:induction false} DeletesRemove(t: Tx, ks: seq<bytes>)
    requires Consistent(t.db)
    ensures Run(t, Deletes(ks)).db == Build(map k | k in t.db.keys && k !in ks :: t.db.keys[k], t.db.idxs)
    decreases |ks|
  {
    var m := map k | k in t.db.keys && k !in ks :: t.db.keys[k];
    if ks == [] {
      assert m == t.db.keys;
    } else {
      var n := |ks| - 1;
      var front, last := ks[..n], ks[n];
      assert Deletes(ks)[..n] == Deletes(front) && Deletes(ks)[n] == OpDelete(last);
      DeletesRemove(t, front);
      var m1 := map k | k in t.db.keys && k !in front :: t.db.keys[k];
      RemoveAgrees(m1, t.db.idxs, last);
      assert ks == front + [last];
      assert m1 - {last} == m;
      DeleteIsRemove(Run(t, Deletes(front)), last);
    }
  }

  lemma DeleteIsRemove(t: Tx, k: bytes)
    ensures Delete(t, k).db == Remove(t.db, k)
  {
  }

  /** Is the deadline of this key before now? */
  predicate Past(m: Keys, k: bytes, now: Time) {
    k in m && m[k].deadline.Some? && m[k].deadline.value < now
  }

  /** Deleting what the sweep collects, in whatever order, leaves exactly the items whose deadline is not before now. */
  lemma SweepDeletesThePast(db: Db, now: Time, persist: bool, ks: seq<bytes>)
    requires Consistent(db)
    requires forall k :: k in ks <==> exists i :: i in db.exps && ItemLess(i, SweepBound(now), ByDeadline) && i.key == k
    ensures Run(Begin(db, persist), Deletes(ks)).db ==
            Build(map k | k in db.keys && !Past(db.keys, k, now) :: db.keys[k], db.idxs)
  {
    SweepFindsThePast(db, now);
    forall k ensures k in ks <==> Past(db.keys, k, now) {
      if Past(db.keys, k, now) {
        var i := db.keys[k];
        assert i in (set j | j in db.keys && db.keys[j].deadline.Some?
          && db.keys[j].deadline.value < now :: db.keys[j]);
      }
    }
    assert (map k | k in db.keys && k !in ks :: db.keys[k]) == map k | k in db.keys
      && !Past(db.keys, k, now) :: db.keys[k];
    DeletesRemove(Begin(db, persist), ks);
  }
}
