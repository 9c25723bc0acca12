/** Range scans over a tree, against filter-then-sort on the stored values. */
module Scan {
  import opened Common
  import opened Items
  import opened Replay
  import opened Store

  // ---- Sorted listings ----

  ghost predicate Ascends(s: seq<Item>, lt: (Item, Item) -> bool) {
    forall i, j :: 0 <= i < j < |s| ==> lt(s[i], s[j])
  }

  /** s lists the set, each item once, in order. */
  ghost predicate Listing(s: seq<Item>, t: set<Item>, lt: (Item, Item) -> bool) {
    (forall i :: i in t <==> i in s) && Ascends(s, lt)
  }

  /** The order tells any two different members apart. */
  ghost predicate Separates(t: set<Item>, lt: (Item, Item) -> bool) {
    StrictWeak(lt) && forall a, b :: a in t && b in t && a != b ==> lt(a, b) || lt(b, a)
  }

  lemma {:induction false} LeastExists(t: set<Item>, lt: (Item, Item) -> bool) returns (m: Item)
    requires Separates(t, lt) && t != {}
    ensures m in t && forall j :: j in t && j != m ==> lt(m, j)
    decreases |t|
  {
    var x :| x in t;
    var rest := t - {x};
    if rest == {} {
      m := x;
      assert t == rest + {x};
    } else {
      var l := LeastExists(rest, lt);
      m := if lt(x, l) then x else l;
      forall j | j in t && j != m ensures lt(m, j) {
        if j != x && j != l { assert lt(l, j); }
      }
    }
  }

  ghost function Least(t: set<Item>, lt: (Item, Item) -> bool): (m: Item)
    requires Separates(t, lt) && t != {}
    ensures m in t && forall j :: j in t && j != m ==> lt(m, j)
  {
    assert exists m :: m in t && forall j :: j in t && j != m ==> lt(m, j) by {
      var m := LeastExists(t, lt);
    }
    var m :| m in t && forall j :: j in t && j != m ==> lt(m, j);
    m
  }

  ghost function Sorted(t: set<Item>, lt: (Item, Item) -> bool): (s: seq<Item>)
    requires Separates(t, lt)
    ensures Listing(s, t, lt)
    decreases |t|
  {
    if t == {} then []
    else
      var m := Least(t, lt);
      var rest := Sorted(t - {m}, lt);
      assert forall j :: j in rest ==> j in t - {m};
      [m] + rest
  }

  lemma {:induction false} ListingLength(s: seq<Item>, t: set<Item>, lt: (Item, Item) -> bool)
    requires StrictWeak(lt) && Listing(s, t, lt)
    ensures |s| == |t|
    decreases |s|
  {
    if s == [] {
      assert t == {};
    } else {
      ListingTail(s, t, lt);
      assert s[0] in s;
      ListingLength(s[1..], t - {s[0]}, lt);
    }
  }

  lemma ListingTail(s: seq<Item>, t: set<Item>, lt: (Item, Item) -> bool)
    requires StrictWeak(lt) && Listing(s, t, lt) && s != []
    ensures Listing(s[1..], t - {s[0]}, lt)
  {
    forall x ensures x in t - {s[0]} <==> x in s[1..] {
      if x in s[1..] { var k :| 0 <= k < |s[1..]| && s[1..][k] == x; assert s[k + 1] == x; }
    }
  }

  /** Only one sequence lists a set in order. */
  lemma {:induction false} ListingIsUnique(a: seq<Item>, b: seq<Item>, t: set<Item>, lt: (Item, Item) -> bool)
    requires StrictWeak(lt) && Listing(a, t, lt) && Listing(b, t, lt)
    ensures a == b
    decreases |a|
  {
    ListingLength(a, t, lt);
    ListingLength(b, t, lt);
    if a != [] {
      assert a[0] in a && a[0] in b;
      assert b[0] in b && b[0] in a;
      var i :| 0 <= i < |b| && b[i] == a[0];
      var j :| 0 <= j < |a| && a[j] == b[0];
      assert a[0] == b[0];
      ListingTail(a, t, lt);
      ListingTail(b, t, lt);
      ListingIsUnique(a[1..], b[1..], t - {a[0]}, lt);
      assert a == [a[0]] + a[1..] && b == [b[0]] + b[1..];
    }
  }

  /** The items an iterator sees: all of them, up to the first that makes it answer false. */
  function Taken(s: seq<Item>, iter: Item -> bool): seq<Item> {
    if s == [] then [] else if iter(s[0]) then [s[0]] + Taken(s[1..], iter) else [s[0]]
  }

  /** What is seen is a prefix; every item but its last was answered true, and it ends early only at a false. */
  lemma {:induction false} TakenIs(s: seq<Item>, iter: Item -> bool)
    ensures var n := |Taken(s, iter)|;
            && n <= |s| && Taken(s, iter) == s[..n] && (forall i :: 0 <= i < n - 1 ==> iter(s[i]))
            && (n < |s| ==> n > 0 && !iter(s[n - 1]))
  {
    if s != [] && iter(s[0]) {
      TakenIs(s[1..], iter);
      var n := |Taken(s[1..], iter)|;
      assert s[..n + 1] == [s[0]] + s[1..][..n];
    }
  }

  // ---- Walking a tree ----

  method TakeLeast(t: set<Item>, lt: (Item, Item) -> bool) returns (m: Item)
    requires Separates(t, lt) && t != {}
    ensures m in t && forall j :: j in t && j != m ==> lt(m, j)
  {
    m :| m in t;
    var rest := t - {m};
    while rest != {}
      invariant m in t && rest <= t && forall j :: j in t - rest && j != m ==> lt(m, j)
      decreases |rest|
    {
      var j :| j in rest;
      LesserOf(t, lt, rest, m, j);
      if lt(j, m) { m := j; }
      rest := rest - {j};
    }
  }

  lemma LesserOf(t: set<Item>, lt: (Item, Item) -> bool, rest: set<Item>, m: Item, j: Item)
    requires Separates(t, lt) && m in t && j in rest && rest <= t && forall x :: x in t - rest && x != m ==> lt(m, x)
    ensures var l := if lt(j, m) then j else m; forall x :: x in t - (rest - {j}) && x != l ==> lt(l, x)
  {
    var l := if lt(j, m) then j else m;
    forall x | x in t - (rest - {j}) && x != l ensures lt(l, x) {
      if x != j && x != m { assert x in t - rest; }
    }
  }

  function Filter(t: set<Item>, p: Item -> bool): set<Item> {
    set i | i in t && p(i)
  }

  /** Visit the items in order, stopping at the first that `guard` rejects or `iter` answers false on. */
  method Walk(t: set<Item>, lt: (Item, Item) -> bool, guard: Item -> bool, iter: Item -> bool) returns (seen: seq<Item>)
    requires Separates(t, lt)
    requires forall a, b :: a in t && b in t && lt(a, b) && guard(b) ==> guard(a)
    ensures Separates(Filter(t, guard), lt)
    ensures seen == Taken(Sorted(Filter(t, guard), lt), iter)
  {
    ghost var window := Filter(t, guard);
    ghost var goal := Taken(Sorted(window, lt), iter);
    ghost var tail := Sorted(window, lt);
    seen := [];
    var rest := t;
    assert window * rest == window && [] + Taken(tail, iter) == goal;
    while rest != {}
      invariant rest <= t && tail == Sorted(window * rest, lt) && seen + Taken(tail, iter) == goal
      decreases |rest|
    {
      var m := TakeLeast(rest, lt);
      if !guard(m) {
        assert window * rest == {};
        assert seen + Taken(tail, iter) == seen;
        return;
      }
      tail := StepOfSorted(window * rest, lt, m, iter, seen);
      seen := seen + [m];
      if !iter(m) { return; }
      assert window * rest - {m} == window * (rest - {m});
      rest := rest - {m};
    }
    assert window * rest == {};
    assert seen + Taken(tail, iter) == seen;
  }

  /** The least item heads the listing, and the iterator sees it first. */
  lemma StepOfSorted(t: set<Item>, lt: (Item, Item) -> bool, m: Item, iter: Item -> bool, seen: seq<Item>)
    returns (tail: seq<Item>)
    requires Separates(t, lt) && m in t && forall j :: j in t && j != m ==> lt(m, j)
    ensures tail == Sorted(t - {m}, lt) && Sorted(t, lt) == [m] + tail
    ensures seen + Taken(Sorted(t, lt), iter) == if iter(m) then seen + [m] + Taken(tail, iter) else seen + [m]
  {
    assert Least(t, lt) == m;
    tail := Sorted(t - {m}, lt);
    TakenFirst(m, tail, iter, seen);
  }

  lemma TakenFirst(m: Item, tail: seq<Item>, iter: Item -> bool, seen: seq<Item>)
    ensures seen + Taken([m] + tail, iter) == if iter(m) then seen + [m] + Taken(tail, iter) else seen + [m]
  {
    assert ([m] + tail)[1..] == tail;
  }

  // ---- The scan modes ----

  /** What a scan orders and bounds by: the key, or the value under an index comparison. */
  datatype By = Key | Value(less: Less)

  function CtxOf(sort: By): Ctx {
    match sort case Key => ByKey case Value(less) => ByValue(Some(less))
  }

  predicate Before(sort: By, a: bytes, b: bytes) {
    match sort case Key => LexLess(a, b) case Value(less) => less(a, b)
  }

  function Of(sort: By, i: Item): bytes {
    match sort case Key => i.key case Value(_) => i.val
  }

  /** A bound for comparisons in the tree: a bare key, or a bare value, keyless when descending. */
  function BoundItem(sort: By, b: bytes, desc: bool): Item {
    match sort
    case Key => Item(b, [], None, false)
    case Value(_) => Item([], b, None, desc)
  }

  /**
   * The documented window: [start, ..), [.., start), [start, stop) or, descending, (start, ..], [.., start],
   * (stop, start].
   */
  predicate InWindow(sort: By, desc: bool, gt: bool, lt: bool, start: bytes, stop: bytes, v: bytes) {
    if desc then
      (lt ==> !Before(sort, start, v)) && (gt ==> Before(sort, if lt then stop else start, v))
    else
      (gt ==> !Before(sort, v, start)) && (lt ==> Before(sort, v, if gt then stop else start))
  }

  /**
   * One bound splits the items: those from it on and those before it, in either direction. Two bounds give what is in
   * both halves, and adjacent windows join without overlap.
   */
  lemma WindowsSplit(sort: By, a: bytes, b: bytes, v: bytes)
    requires Sound(CtxOf(sort))
    ensures InWindow(sort, false, true, false, a, b, v) != InWindow(sort, false, false, true, a, b, v)
    ensures InWindow(sort, true, true, false, a, b, v) != InWindow(sort, true, false, true, a, b, v)
    ensures InWindow(sort, false, true, true, a, b, v) <==>
            InWindow(sort, false, true, false, a, b, v) && InWindow(sort, false, false, true, b, a, v)
    ensures InWindow(sort, true, true, true, a, b, v) <==>
            InWindow(sort, true, false, true, a, b, v) && InWindow(sort, true, true, false, b, a, v)
    ensures InWindow(sort, false, false, false, a, b, v) && InWindow(sort, true, false, false, a, b, v)
    ensures InWindow(sort, false, true, false, a, b, a) && InWindow(sort, true, false, true, a, b, a)
  {
    LexIrreflexive(a);
    assert sort.Value? ==> StrictWeak(sort.less);
  }

  function Order(sort: By, desc: bool): (Item, Item) -> bool {
    if desc then (a: Item, b: Item) => ItemLess(b, a, CtxOf(sort))
      else (a: Item, b: Item) => ItemLess(a, b, CtxOf(sort))
  }

  ghost predicate Tree(t: set<Item>, sort: By) {
    && Sound(CtxOf(sort))
    && (forall i :: i in t ==> !i.keyless)
    && forall a, b :: a in t && b in t && a.key == b.key ==> a == b
  }

  lemma TreeSeparates(t: set<Item>, sort: By, desc: bool)
    requires Tree(t, sort)
    ensures Separates(t, Order(sort, desc))
  {
    var ctx := CtxOf(sort);
    ItemOrderIsTotal(ctx);
    var up := (a: Item, b: Item) => ItemLess(a, b, ctx);
    assert StrictWeak(up);
    if desc {
      var down := Order(sort, true);
      forall x, y, z | down(x, y) && down(y, z) ensures down(x, z) { assert up(z, y) && up(y, x); }
      forall x, y, z | down(x, z) ensures down(x, y) || down(y, z) { assert up(z, x); }
      forall x ensures !down(x, x) { assert !up(x, x); }
    } else {
      assert forall a, b :: Order(sort, false)(a, b) == up(a, b);
    }
    forall a, b | a in t && b in t && a != b ensures Order(sort, desc)(a, b) || Order(sort, desc)(b, a) {
      SameMeansSameKey(a, b, ctx);
    }
  }

  /** A bound item compares with a stored item as the documented bound does with its value. */
  lemma BoundsMean(sort: By, i: Item, b: bytes)
    requires Sound(CtxOf(sort)) && !i.keyless
    ensures ItemLess(i, BoundItem(sort, b, false), CtxOf(sort)) <==> Before(sort, Of(sort, i), b)
    ensures ItemLess(BoundItem(sort, b, true), i, CtxOf(sort)) <==> Before(sort, b, Of(sort, i))
  {
    assert sort.Value? ==> !sort.less(b, b);
    assert !LexLess(i.key, []);
  }

  /** The items of the window. */
  function Window(t: set<Item>, sort: By, desc: bool, gt: bool, lt: bool, start: bytes, stop: bytes): set<Item> {
    set i | i in t && InWindow(sort, desc, gt, lt, start, stop, Of(sort, i))
  }

  /** scan: the items the tree yields between its bounds are the documented window, sorted. */
  method ScanTree(t: set<Item>, sort: By, desc: bool, gt: bool, lt: bool, start: bytes, stop: bytes, iter: Item -> bool)
    returns (seen: seq<Item>)
    requires Tree(t, sort)
    ensures Separates(Window(t, sort, desc, gt, lt, start, stop), Order(sort, desc))
    ensures seen == Taken(Sorted(Window(t, sort, desc, gt, lt, start, stop), Order(sort, desc)), iter)
  {
    var a, b := BoundItem(sort, start, desc), BoundItem(sort, stop, desc);
    var ctx := CtxOf(sort);
    forall i | i in t { BoundsMean(sort, i, start); }
    forall i | i in t { BoundsMean(sort, i, stop); }
    TreeSeparates(t, sort, desc);
    ItemOrderIsTotal(ctx);
    // where the tree starts, and where the wrapped iterator stops
    var from, guard;
    if desc {
      from := set i | i in t && (lt ==> !ItemLess(a, i, ctx));
      guard := (i: Item) => gt ==> ItemLess(if lt then b else a, i, ctx);
    } else {
      from := set i | i in t && (gt ==> !ItemLess(i, a, ctx));
      guard := (i: Item) => lt ==> ItemLess(i, if gt then b else a, ctx);
    }
    GuardCloses(from, sort, desc, gt, lt, a, b, guard);
    seen := Walk(from, Order(sort, desc), guard, iter);
    assert Filter(from, guard) == Window(t, sort, desc, gt, lt, start, stop);
  }

  lemma GuardCloses(t: set<Item>, sort: By, desc: bool, gt: bool, lt: bool, a: Item, b: Item, guard: Item -> bool)
    requires Sound(CtxOf(sort))
    requires forall i :: guard(i) == (if desc then gt ==> ItemLess(if lt then b else a, i, CtxOf(sort))
                                               else lt ==> ItemLess(i, if gt then b else a, CtxOf(sort)))
    ensures forall x, y :: x in t && y in t && Order(sort, desc)(x, y) && guard(y) ==> guard(x)
  {
    var ctx := CtxOf(sort);
    ItemOrderIsTotal(ctx);
    var up := (x: Item, y: Item) => ItemLess(x, y, ctx);
    forall x, y | x in t && y in t && Order(sort, desc)(x, y) && guard(y) ensures guard(x) {
      if desc {
        if gt { assert up(y, x) && up(if lt then b else a, y); assert up(if lt then b else a, x); }
      } else {
        if lt { assert up(x, y) && up(y, if gt then b else a); assert up(x, if gt then b else a); }
      }
    }
  }

  /** Equal to the pivot: neither before nor after it. */
  predicate Equals(sort: By, pivot: bytes, v: bytes) {
    !Before(sort, pivot, v) && !Before(sort, v, pivot)
  }

  function EqualItems(t: set<Item>, sort: By, pivot: bytes): set<Item> {
    set i | i in t && Equals(sort, pivot, Of(sort, i))
  }

  /** AscendEqual and DescendEqual: a one-sided scan cut off at the first item past the pivot. */
  method ScanEqual(t: set<Item>, sort: By, desc: bool, pivot: bytes, iter: Item -> bool) returns (seen: seq<Item>)
    requires Tree(t, sort)
    ensures Separates(EqualItems(t, sort, pivot), Order(sort, desc))
    ensures seen == Taken(Sorted(EqualItems(t, sort, pivot), Order(sort, desc)), iter)
  {
    var a := BoundItem(sort, pivot, desc);
    var ctx := CtxOf(sort);
    forall i | i in t { BoundsMean(sort, i, pivot); }
    TreeSeparates(t, sort, desc);
    var from := if desc then set i | i in t && !ItemLess(a, i, ctx) else set i | i in t && !ItemLess(i, a, ctx);
    var guard := (i: Item) =>
      match sort case Key => i.key == pivot case Value(less) => if desc then !less(i.val, pivot)
        else !less(pivot, i.val);
    forall i | i in from ensures guard(i) <==> Equals(sort, pivot, Of(sort, i)) {
      LexTotal(i.key, pivot);
      LexIrreflexive(pivot);
    }
    forall x, y | x in from && y in from && Order(sort, desc)(x, y) && guard(y) ensures guard(x) {
      EqualCloses(sort, desc, x, y, pivot);
    }
    seen := Walk(from, Order(sort, desc), guard, iter);
    assert Filter(from, guard) == EqualItems(t, sort, pivot);
  }

  /** Once the scan is past the pivot it stays past it. */
  lemma EqualCloses(sort: By, desc: bool, x: Item, y: Item, pivot: bytes)
    requires Sound(CtxOf(sort)) && !x.keyless && !y.keyless && Order(sort, desc)(x, y)
             && Equals(sort, pivot, Of(sort, y))
    requires if desc then !Before(sort, pivot, Of(sort, x)) else !Before(sort, Of(sort, x), pivot)
    ensures Equals(sort, pivot, Of(sort, x))
  {
    if sort.Key? {
      LexTotal(y.key, pivot);
      LexAsymmetric(if desc then y.key else x.key, if desc then x.key else y.key);
    }
  }

  /** The key tree and every index of a consistent database can be scanned. */
  lemma ConsistentTrees(db: Db)
    requires Consistent(db)
    ensures Tree(set k | k in db.keys :: db.keys[k], Key)
    ensures forall n :: n in db.idxs && db.idxs[n].less.Some? ==> Tree(db.idxs[n].items, Value(db.idxs[n].less.value))
  {
    forall n | n in db.idxs && db.idxs[n].less.Some? ensures Tree(db.idxs[n].items, Value(db.idxs[n].less.value)) {
      var idx := db.idxs[n];
      assert idx == Build(db.keys, db.idxs).idxs[n] && Sound(ByValue(idx.less));
      assert idx.items == Matching(db.keys, idx);
      assert forall i :: i in idx.items ==> i.key in db.keys && db.keys[i.key] == i;
    }
  }
}
