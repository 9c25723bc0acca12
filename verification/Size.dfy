/** The size estimates that decide when the log is compacted, against the bytes actually written. */
module Size {
  import opened Common
  import opened Items
  import opened Resp
  import opened Replay
  import D = Database

  /** estIntSize: the length of the decimal form, sign included. */
  method EstIntSize(x: int) returns (n: nat)
    ensures n == if x < 0 then 1 + |Digits(-x)| else |Digits(x)|
  {
    n := 1;
    var y := x;
    if y < 0 {
      n := n + 1;
      y := -y;
    }
    ghost var sign := n - 1;
    while y >= 10
      invariant 0 <= y && n - 1 + |Digits(y)| == sign + |Digits(if x < 0 then -x else x)|
      decreases y
    {
      n := n + 1;
      y := y / 10;
    }
  }

  method EstBulkStringSize(len: nat) returns (n: nat)
    ensures forall s: bytes :: |s| == len ==> n == |Bulk(s)|
  {
    var d := EstIntSize(len);
    n := 1 + d + 2 + len + 2;
  }

  /** The word that stands in the estimate for the deadline. */
  const NINETY_NINE: bytes := [57, 57]

  function SetOf(i: Item): Cmd { Set(i.key, i.val, i.deadline) }

  /** estAOFSetSize: exact for an item without deadline, off by the deadline's digits otherwise. */
  method EstAOFSetSize(i: Item) returns (n: nat)
    ensures i.deadline.None? ==> n == |Encode(SetOf(i))|
    ensures i.deadline.Some? ==>
      n + |Bulk(Digits(Unix(i.deadline.value) % TWO_64))| == |Encode(SetOf(i))| + |Bulk(NINETY_NINE)|
  {
    var a := EstIntSize(if i.deadline.Some? then 5 else 3);
    var s := EstBulkStringSize(3);
    var k := EstBulkStringSize(|i.key|);
    var v := EstBulkStringSize(|i.val|);
    n := 1 + a + 2 + s + k + v;
    assert s == |Bulk(SET)| && k == |Bulk(i.key)| && v == |Bulk(i.val)|;
    var w := Words(SetOf(i));
    BulksLength(w);
    if i.deadline.Some? {
      var e := EstBulkStringSize(2);
      assert e == |Bulk(AE)| == |Bulk(NINETY_NINE)|;
      n := n + e + e;
    }
  }

  lemma BulksLength(w: seq<bytes>)
    requires |w| == 3 || |w| == 5
    ensures |Bulks(w)| == |Bulk(w[0])| + |Bulk(w[1])| + |Bulk(w[2])| + if |w| == 5 then |Bulk(w[3])| + |Bulk(w[4])|
            else 0
  {
    FlatMapLength(Bulk, w);
    FlatMapLength(Bulk, w[1..]);
    FlatMapLength(Bulk, w[2..]);
    if |w| == 5 {
      FlatMapLength(Bulk, w[3..]);
      FlatMapLength(Bulk, w[4..]);
    }
  }

  lemma FlatMapLength<T>(f: T -> bytes, xs: seq<T>)
    requires xs != []
    ensures |FlatMap(f, xs)| == |f(xs[0])| + |FlatMap(f, xs[1..])|
    ensures forall i :: 1 <= i < |xs| ==> xs[1..][i - 1] == xs[i]
  {
  }

  // ---- The whole database ----

  /** The sum of sizes over a set, in no particular order. */
  ghost function Total(s: set<bytes>, size: bytes -> nat): nat {
    if s == {} then 0 else var k :| k in s; size(k) + Total(s - {k}, size)
  }

  lemma {:induction false} TotalTakes(s: set<bytes>, size: bytes -> nat, k: bytes)
    requires k in s
    ensures Total(s, size) == size(k) + Total(s - {k}, size)
    decreases |s|
  {
    var j :| j in s && Total(s, size) == size(j) + Total(s - {j}, size);
    if j != k {
      TotalTakes(s - {j}, size, k);
      TotalTakes(s - {k}, size, j);
      assert s - {j} - {k} == s - {k} - {j};
    }
  }

  lemma {:induction false} LengthOfListing(order: seq<bytes>, keys: set<bytes>, f: bytes -> bytes, size: bytes -> nat)
    requires Lists(order, keys) && forall k :: size(k) == |f(k)|
    ensures |FlatMap(f, order)| == Total(keys, size)
    decreases |order|
  {
    if order == [] {
      assert keys == {};
    } else {
      var k := order[0];
      var rest := order[1..];
      assert forall j :: j in rest <==> j in keys - {k};
      LengthOfListing(rest, keys - {k}, f, size);
      TotalTakes(keys, size, k);
    }
  }

  function RecordOf(m: Keys): bytes -> bytes {
    (k: bytes) => if k in m then Encode(SetOf(m[k])) else []
  }

  function SizeOf(m: Keys): bytes -> nat {
    (k: bytes) => |RecordOf(m)(k)|
  }

  ghost predicate Ascending(order: seq<bytes>) {
    forall i, j :: 0 <= i < j < |order| ==> LexLess(order[i], order[j])
  }

  ghost predicate AllBelow(order: seq<bytes>, rest: set<bytes>) {
    forall i, k :: 0 <= i < |order| && k in rest ==> LexLess(order[i], k)
  }

  lemma NextInOrder(keys: set<bytes>, order: seq<bytes>, rest: set<bytes>, k: bytes)
    requires rest <= keys && k in rest && Lists(order, keys - rest) && Ascending(order) && AllBelow(order, rest)
    requires forall j :: j in rest && j != k ==> LexLess(k, j)
    ensures Lists(order + [k], keys - (rest - {k})) && Ascending(order + [k]) && AllBelow(order + [k], rest - {k})
  {
  }

  lemma SavedNext(m: Keys, order: seq<bytes>, k: bytes)
    requires k in m
    ensures FlatMap(RecordOf(m), order + [k]) == FlatMap(RecordOf(m), order) + Encode(SetOf(m[k]))
  {
    FlatMapAppend(RecordOf(m), order, [k]);
    FlatMapLengthOne(RecordOf(m), k);
  }

  /** Save: every item as a Set command, in key order. */
  method Save(m: Keys) returns (out: bytes, ghost order: seq<bytes>)
    ensures Lists(order, m.Keys) && Ascending(order) && out == FlatMap(RecordOf(m), order)
  {
    out, order := [], [];
    var rest := m.Keys;
    while rest != {}
      invariant rest <= m.Keys && Lists(order, m.Keys - rest) && out == FlatMap(RecordOf(m), order)
      invariant Ascending(order) && AllBelow(order, rest)
      decreases |rest|
    {
      var k := D.LeastKey(rest);
      NextInOrder(m.Keys, order, rest, k);
      SavedNext(m, order, k);
      out := out + Encode(SetOf(m[k]));
      order := order + [k];
      rest := rest - {k};
    }
    assert m.Keys - {} == m.Keys;
  }

  lemma FlatMapLengthOne(f: bytes -> bytes, k: bytes)
    ensures FlatMap(f, [k]) == f(k)
  {
    assert [k][1..] == [];
  }

  /** The estimate made after a load. */
  method EstimateLoaded(m: Keys) returns (n: nat)
    requires forall k :: k in m ==> m[k].deadline.None?
    ensures n == Total(m.Keys, SizeOf(m))
  {
    n := 0;
    var rest := m.Keys;
    ghost var size := SizeOf(m);
    while rest != {}
      invariant rest <= m.Keys && n + Total(rest, size) == Total(m.Keys, size)
      decreases |rest|
    {
      var k :| k in rest;
      var e := EstAOFSetSize(m[k]);
      TotalTakes(rest, size, k);
      assert k in m && RecordOf(m)(k) == Encode(SetOf(m[k]));
      n := n + e;
      rest := rest - {k};
    }
  }

  /** For a database without deadlines the estimate is the exact length of what Save writes, in any order. */
  lemma EstimateIsSavedLength(m: Keys, order: seq<bytes>)
    requires Lists(order, m.Keys)
    ensures Total(m.Keys, SizeOf(m)) == |FlatMap(RecordOf(m), order)|
  {
    LengthOfListing(order, m.Keys, RecordOf(m), SizeOf(m));
  }
}
