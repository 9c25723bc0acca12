/** The in-memory database: a key map, the expiry tree and the secondary indexes. */
module Store {
  import opened Common
  import opened Items
  import opened Replay

  /** An ordered index over the items whose key it matches; without a comparison it has no tree. */
  datatype Index = Index(matches: bytes -> bool, less: Option<Less>, items: set<Item>)

  datatype Db = Db(keys: Keys, exps: set<Item>, idxs: map<bytes, Index>)

  // A B-tree is a set in which no two items are Same: Set replaces, Delete removes, the Same item.

  function TreeDelete(t: set<Item>, i: Item, ctx: Ctx): set<Item> {
    set x | x in t && !Same(x, i, ctx)
  }

  function TreeSet(t: set<Item>, i: Item, ctx: Ctx): set<Item> {
    TreeDelete(t, i, ctx) + {i}
  }

  function IndexInsert(idx: Index, prev: Option<Item>, item: Item): Index {
    if idx.less.None? || !idx.matches(item.key) then idx
    else
      var ctx := ByValue(idx.less);
      var t := if prev.Some? then TreeDelete(idx.items, prev.value, ctx) else idx.items;
      idx.(items := TreeSet(t, item, ctx))
  }

  function IndexDelete(idx: Index, prev: Item): Index {
    if idx.less.None? || !idx.matches(prev.key) then idx
    else idx.(items := TreeDelete(idx.items, prev, ByValue(idx.less)))
  }

  function ExpsDrop(exps: set<Item>, prev: Option<Item>): set<Item> {
    if prev.Some? && prev.value.deadline.Some? then TreeDelete(exps, prev.value, ByDeadline) else exps
  }

  function ExpsAdd(exps: set<Item>, item: Item): set<Item> {
    if item.deadline.Some? then TreeSet(exps, item, ByDeadline) else exps
  }

  function Insert(db: Db, item: Item): Db {
    var prev := Lookup(db.keys, item.key);
    Db(db.keys[item.key := item],
       ExpsAdd(ExpsDrop(db.exps, prev), item),
       map n | n in db.idxs :: IndexInsert(db.idxs[n], prev, item))
  }

  function Remove(db: Db, key: bytes): Db {
    if key !in db.keys then db
    else
      var prev := db.keys[key];
      Db(db.keys - {key}, ExpsDrop(db.exps, Some(prev)), map n | n in db.idxs :: IndexDelete(db.idxs[n], prev))
  }

  // ---- What the trees must hold ----

  function Expiring(m: Keys): set<Item> {
    set k | k in m && m[k].deadline.Some? :: m[k]
  }

  function Matching(m: Keys, idx: Index): set<Item> {
    if idx.less.None? then {} else set k | k in m && idx.matches(k) :: m[k]
  }

  function Rebuild(idx: Index, m: Keys): Index {
    idx.(items := Matching(m, idx))
  }

  /** The database with these keys and index definitions, every tree built from scratch. */
  function Build(m: Keys, defs: map<bytes, Index>): Db {
    Db(m, Expiring(m), map n | n in defs :: Rebuild(defs[n], m))
  }

  ghost predicate SoundDefs(defs: map<bytes, Index>) {
    forall n :: n in defs ==> Sound(ByValue(defs[n].less))
  }

  /** Every index holds exactly the stored items it matches, the expiry tree the expiring ones. */
  ghost predicate Consistent(db: Db) {
    db == Build(db.keys, db.idxs) && Keyed(db.keys) && SoundDefs(db.idxs)
  }

  /** A tree holds the items of m that `test` accepts, and nothing else. */
  ghost predicate HoldsThose(t: set<Item>, m: Keys, test: bytes -> bool) {
    forall i :: i in t <==> exists k :: k in m && m[k] == i && test(k)
  }

  /** What Build gives, tree by tree: the keys, the items that expire, and for each definition the items it matches. */
  lemma BuildIs(m: Keys, defs: map<bytes, Index>)
    ensures var db := Build(m, defs);
            && db.keys == m && HoldsThose(db.exps, m, k => k in m && m[k].deadline.Some?)
            && db.idxs.Keys == defs.Keys
            && forall n :: n in defs ==>
                 && db.idxs[n].matches == defs[n].matches && db.idxs[n].less == defs[n].less
                 && HoldsThose(db.idxs[n].items, m, k => defs[n].less.Some? && defs[n].matches(k))
  {
  }

  lemma TreeSteps(t: set<Item>, prev: Item, ctx: Ctx)
    requires Sound(ctx) && !prev.keyless && forall x :: x in t ==> !x.keyless && (x.key == prev.key ==> x == prev)
    ensures TreeDelete(t, prev, ctx) == set x | x in t && x.key != prev.key
  {
    forall x | x in t ensures Same(x, prev, ctx) <==> x.key == prev.key {
      SameMeansSameKey(x, prev, ctx);
    }
  }

  lemma ExpsInsert(m: Keys, item: Item)
    requires Keyed(m) && !item.keyless
    ensures ExpsAdd(ExpsDrop(Expiring(m), Lookup(m, item.key)), item) == Expiring(m[item.key := item])
  {
    var k := item.key;
    var m' := m[k := item];
    var others := set x | x in Expiring(m) && x.key != k;
    assert forall x :: x in Expiring(m) ==> x.key in m && m[x.key] == x;
    if k in m && m[k].deadline.Some? { TreeSteps(Expiring(m), m[k], ByDeadline); }
    var t := ExpsDrop(Expiring(m), Lookup(m, k));
    assert t == others;
    TreeSteps(t, item, ByDeadline);
    forall x | x in Expiring(m') ensures x in others || x == item {
      var j :| j in m' && m'[j].deadline.Some? && m'[j] == x;
      if j != k { assert x == m[j] && x in Expiring(m); }
    }
    forall x | x in others ensures x in Expiring(m') {
      assert m'[x.key] == x;
    }
    if item.deadline.Some? { assert m'[k] == item; }
  }

  lemma IndexInsertStep(m: Keys, idx: Index, item: Item)
    requires Keyed(m) && !item.keyless && Sound(ByValue(idx.less))
    ensures IndexInsert(Rebuild(idx, m), Lookup(m, item.key), item) == Rebuild(idx, m[item.key := item])
  {
    var k := item.key;
    var m' := m[k := item];
    var ctx := ByValue(idx.less);
    if idx.less.Some? {
      var t := Matching(m, idx);
      assert forall x :: x in t ==> x.key in m && m[x.key] == x;
      if idx.matches(k) {
        if k in m { TreeSteps(t, m[k], ctx); }
        var others := set x | x in t && x.key != k;
        assert (if k in m then TreeDelete(t, m[k], ctx) else t) == others;
        TreeSteps(others, item, ctx);
        forall x | x in Matching(m', idx) ensures x in others || x == item {
          var j :| j in m' && idx.matches(j) && m'[j] == x;
          if j != k { assert x == m[j] && x in t; }
        }
        forall x | x in others ensures x in Matching(m', idx) { assert m'[x.key] == x; }
        assert m'[k] == item;
        assert TreeSet(others, item, ctx) == Matching(m', idx);
      } else {
        assert forall j :: j in m' && idx.matches(j) ==> j in m && m'[j] == m[j];
        assert forall j :: j in m && idx.matches(j) ==> j in m' && m'[j] == m[j];
        assert Matching(m', idx) == t;
      }
    }
  }

  /** insertIntoDatabase keeps every tree in agreement with the key map. */
  lemma InsertAgrees(m: Keys, defs: map<bytes, Index>, item: Item)
    requires Keyed(m) && SoundDefs(defs) && !item.keyless
    ensures Insert(Build(m, defs), item) == Build(m[item.key := item], defs)
  {
    ExpsInsert(m, item);
    forall n | n in defs {
      IndexInsertStep(m, defs[n], item);
    }
  }

  /** deleteFromDatabase does too, whether or not the key is present. */
  lemma RemoveAgrees(m: Keys, defs: map<bytes, Index>, k: bytes)
    requires Keyed(m) && SoundDefs(defs)
    ensures Remove(Build(m, defs), k) == Build(m - {k}, defs)
  {
    if k !in m {
      assert m - {k} == m;
    } else {
      ExpsRemove(m, k);
      forall n | n in defs { IndexRemoveStep(m, defs[n], k); }
    }
  }

  lemma ExpsRemove(m: Keys, k: bytes)
    requires Keyed(m) && k in m
    ensures ExpsDrop(Expiring(m), Some(m[k])) == Expiring(m - {k})
  {
    var m' := m - {k};
    if m[k].deadline.Some? { TreeSteps(Expiring(m), m[k], ByDeadline); }
    forall x | x in Expiring(m) && x.key != k ensures x in Expiring(m') { assert m'[x.key] == x; }
    forall x | x in Expiring(m') ensures x in Expiring(m) && x.key != k { assert m[x.key] == x; }
    forall x | x in Expiring(m) && m[k].deadline.None? ensures x.key != k { assert m[x.key] == x; }
  }

  lemma IndexRemoveStep(m: Keys, idx: Index, k: bytes)
    requires Keyed(m) && k in m && Sound(ByValue(idx.less))
    ensures IndexDelete(Rebuild(idx, m), m[k]) == Rebuild(idx, m - {k})
  {
    var m' := m - {k};
    if idx.less.Some? {
      var t := Matching(m, idx);
      if idx.matches(k) { TreeSteps(t, m[k], ByValue(idx.less)); }
      forall x | x in t && x.key != k ensures x in Matching(m', idx) { assert m'[x.key] == x; }
      forall x | x in Matching(m', idx) ensures x in t && x.key != k { assert m[x.key] == x; }
      forall x | x in t && !idx.matches(k) ensures x.key != k { assert m[x.key] == x; }
      assert IndexDelete(Rebuild(idx, m), m[k]).items == Matching(m', idx);
    }
  }

  lemma BuildIsConsistent(m: Keys, defs: map<bytes, Index>)
    requires Keyed(m) && SoundDefs(defs)
    ensures Consistent(Build(m, defs))
  {
  }

  // ---- The background sweep ----

  /** The item the sweep compares the expiry tree against. */
  function SweepBound(now: Time): Item {
    Record([], [], Some(now))
  }

  /** The sweep collects exactly the items whose deadline is before now. */
  lemma SweepFindsThePast(db: Db, now: Time)
    requires Consistent(db)
    ensures (set i | i in db.exps && ItemLess(i, SweepBound(now), ByDeadline))
         == (set k | k in db.keys && db.keys[k].deadline.Some? && db.keys[k].deadline.value < now :: db.keys[k])
  {
    forall i: Item | !i.keyless && i.deadline.Some?
      ensures ItemLess(i, SweepBound(now), ByDeadline) <==> i.deadline.value < now
    {
      assert !LexLess(i.key, []);
    }
  }
}
