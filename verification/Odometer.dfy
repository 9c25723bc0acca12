/** Pattern iterators that walk through every combination of the values of their components. */
module Odometer {

  // ---- The combinations, as nested loops would list them ----

  /** x in front of every tuple. */
  function Cons<V>(x: V, ts: seq<seq<V>>): seq<seq<V>> {
    if ts == [] then [] else [[x] + ts[0]] + Cons(x, ts[1..])
  }

  function Nested<V>(xs: seq<V>, ts: seq<seq<V>>): seq<seq<V>> {
    if xs == [] then [] else Cons(xs[0], ts) + Nested(xs[1..], ts)
  }

  /** The Cartesian product in lexicographic order. */
  function Product<V>(cs: seq<seq<V>>): seq<seq<V>> {
    if cs == [] then [[]] else Nested(cs[0], Product(cs[1..]))
  }

  // ---- Positions as digits ----

  function Size<V>(cs: seq<seq<V>>): nat {
    if cs == [] then 1 else |cs[0]| * Size(cs[1..])
  }

  /** The place of a combination, the last component turning fastest. */
  function Rank<V>(cs: seq<seq<V>>, ds: seq<int>): int
    requires |ds| == |cs|
  {
    if cs == [] then 0 else ds[0] * Size(cs[1..]) + Rank(cs[1..], ds[1..])
  }

  predicate InRange<V>(cs: seq<seq<V>>, ds: seq<int>) {
    |ds| == |cs| && forall l :: 0 <= l < |cs| ==> 0 <= ds[l] < |cs[l]|
  }

  function Pick<V>(cs: seq<seq<V>>, ds: seq<int>): seq<V>
    requires InRange(cs, ds)
  {
    seq(|cs|, l requires 0 <= l < |cs| => cs[l][ds[l]])
  }

  lemma {:induction false} ConsAt<V>(x: V, ts: seq<seq<V>>, k: nat)
    ensures |Cons(x, ts)| == |ts|
    ensures k < |ts| ==> Cons(x, ts)[k] == [x] + ts[k]
    decreases |ts|
  {
    if ts != [] { ConsAt(x, ts[1..], if k == 0 then 0 else k - 1); }
  }

  lemma {:induction false} NestedLength<V>(xs: seq<V>, ts: seq<seq<V>>)
    ensures |Nested(xs, ts)| == |xs| * |ts|
  {
    if xs != [] {
      ConsAt(xs[0], ts, 0);
      NestedLength(xs[1..], ts);
      assert |xs| * |ts| == |ts| + (|xs| - 1) * |ts|;
    }
  }

  lemma {:induction false} NestedAt<V>(xs: seq<V>, ts: seq<seq<V>>, i: nat, k: nat)
    requires i < |xs| && k < |ts|
    ensures 0 <= i * |ts| + k < |Nested(xs, ts)| && Nested(xs, ts)[i * |ts| + k] == [xs[i]] + ts[k]
    decreases |xs|
  {
    NestedLength(xs[1..], ts);
    ConsAt(xs[0], ts, k);
    if i > 0 {
      NestedAt(xs[1..], ts, i - 1, k);
      assert i * |ts| + k == |ts| + ((i - 1) * |ts| + k);
    }
  }

  lemma {:induction false} ProductLength<V>(cs: seq<seq<V>>)
    ensures |Product(cs)| == Size(cs)
  {
    if cs != [] {
      ProductLength(cs[1..]);
      NestedLength(cs[0], Product(cs[1..]));
    }
  }

  /** The combination picked by the digits is the one at their rank. */
  lemma {:induction false} ProductAt<V>(cs: seq<seq<V>>, ds: seq<int>)
    requires InRange(cs, ds)
    ensures 0 <= Rank(cs, ds) < |Product(cs)| && Product(cs)[Rank(cs, ds)] == Pick(cs, ds)
  {
    if cs != [] {
      ProductAt(cs[1..], ds[1..]);
      ProductLength(cs[1..]);
      NestedAt(cs[0], Product(cs[1..]), ds[0], Rank(cs[1..], ds[1..]));
      assert Pick(cs, ds) == [cs[0][ds[0]]] + Pick(cs[1..], ds[1..]);
    }
  }

  /** Distinct combinations have distinct ranks, so none is listed twice. */
  lemma {:induction false} RankInjective<V>(cs: seq<seq<V>>, ds: seq<int>, es: seq<int>)
    requires InRange(cs, ds) && InRange(cs, es) && Rank(cs, ds) == Rank(cs, es)
    ensures ds == es
  {
    if cs != [] {
      ProductAt(cs[1..], ds[1..]);
      ProductAt(cs[1..], es[1..]);
      ProductLength(cs[1..]);
      SameDigit(ds[0], es[0], Rank(cs[1..], ds[1..]), Rank(cs[1..], es[1..]), Size(cs[1..]));
      RankInjective(cs[1..], ds[1..], es[1..]);
      assert ds == [ds[0]] + ds[1..] && es == [es[0]] + es[1..];
    }
  }

  /** The first differing digit is smaller. */
  ghost predicate Precedes(ds: seq<int>, es: seq<int>) {
    |ds| == |es| && exists i :: 0 <= i < |ds| && ds[..i] == es[..i] && ds[i] < es[i]
  }

  /** The product is in lexicographic order: earlier components count more. */
  lemma {:induction false} RankOrders<V>(cs: seq<seq<V>>, ds: seq<int>, es: seq<int>)
    requires InRange(cs, ds) && InRange(cs, es) && Precedes(ds, es)
    ensures Rank(cs, ds) < Rank(cs, es)
  {
    var i :| 0 <= i < |ds| && ds[..i] == es[..i] && ds[i] < es[i];
    ProductAt(cs[1..], ds[1..]);
    ProductAt(cs[1..], es[1..]);
    ProductLength(cs[1..]);
    if i == 0 {
      Apart(es[0], ds[0], Size(cs[1..]));
    } else {
      assert ds[0] == ds[..i][0] == es[..i][0] == es[0];
      assert ds[1..][..i - 1] == ds[..i][1..] && es[1..][..i - 1] == es[..i][1..];
      RankOrders(cs[1..], ds[1..], es[1..]);
    }
  }

  lemma SameDigit(a: int, b: int, x: int, y: int, n: int)
    requires 0 <= x < n && 0 <= y < n && a * n + x == b * n + y
    ensures a == b && x == y
  {
    if a > b { Apart(a, b, n); } else if a < b { Apart(b, a, n); }
  }

  lemma Apart(a: int, b: int, n: int)
    requires a > b && n > 0
    ensures a * n >= b * n + n
  {
    var d := a - b - 1;
    assert d * n >= 0;
    assert a * n == (b + 1 + d) * n == b * n + n + d * n;
  }

  // ---- The next combination ----

  /** Component l is at its last value. */
  predicate Last<V>(cs: seq<seq<V>>, ds: seq<int>, l: nat)
    requires l < |cs| == |ds|
  {
    ds[l] + 1 == |cs[l]|
  }

  lemma {:induction false} AllLast<V>(cs: seq<seq<V>>, ds: seq<int>)
    requires |ds| == |cs| && forall l :: 0 <= l < |cs| ==> Last(cs, ds, l)
    ensures Rank(cs, ds) + 1 == Size(cs)
  {
    if cs != [] {
      assert forall l :: 0 <= l < |cs| - 1 ==> Last(cs[1..], ds[1..], l) == Last(cs, ds, l + 1);
      AllLast(cs[1..], ds[1..]);
      assert Last(cs, ds, 0);
      assert ds[0] * Size(cs[1..]) + Size(cs[1..]) == (ds[0] + 1) * Size(cs[1..]);
    }
  }

  lemma {:induction false} AllZero<V>(cs: seq<seq<V>>, ds: seq<int>)
    requires |ds| == |cs| && forall l :: 0 <= l < |cs| ==> ds[l] == 0
    ensures Rank(cs, ds) == 0
  {
    if cs != [] { AllZero(cs[1..], ds[1..]); }
  }

  /** Component j moves on, those after it start again. */
  ghost predicate Turned(ds: seq<int>, j: nat, es: seq<int>) {
    j < |ds| == |es| && es[j] == ds[j] + 1 && (forall l :: 0 <= l < j ==> es[l] == ds[l])
      && (forall l :: j < l < |ds| ==> es[l] == 0)
  }

  lemma {:induction false} TurnedRank<V>(cs: seq<seq<V>>, ds: seq<int>, j: nat, es: seq<int>)
    requires |ds| == |cs| && Turned(ds, j, es) && forall l :: j < l < |cs| ==> Last(cs, ds, l)
    ensures Rank(cs, es) == Rank(cs, ds) + 1
    decreases |cs|
  {
    var cs', ds', es' := cs[1..], ds[1..], es[1..];
    assert forall l :: 0 <= l < |cs'| ==> Last(cs', ds', l) == Last(cs, ds, l + 1);
    if j == 0 {
      AllLast(cs', ds');
      AllZero(cs', es');
      assert (ds[0] + 1) * Size(cs') == ds[0] * Size(cs') + Size(cs');
    } else {
      TurnedRank(cs', ds', j - 1, es');
    }
  }

  /** Before the first combination the last component stands before its first value, the others on theirs. */
  ghost predicate Primed<V>(cs: seq<seq<V>>, ds: seq<int>) {
    && cs != [] && |ds| == |cs| && (forall l :: 0 <= l < |cs| ==> cs[l] != [])
    && (forall l :: 0 <= l < |cs| - 1 ==> ds[l] == 0) && ds[|cs| - 1] == -1
  }

  lemma {:induction false} PrimedRank<V>(cs: seq<seq<V>>, ds: seq<int>)
    requires Primed(cs, ds)
    ensures Rank(cs, ds) == -1
    decreases |cs|
  {
    if |cs| == 1 {
      assert cs[1..] == [] && ds[1..] == [];
    } else {
      PrimedRank(cs[1..], ds[1..]);
    }
  }

  /** Where an odometer can be: combination number `key`, or before the first one. */
  ghost predicate At<V>(cs: seq<seq<V>>, ds: seq<int>, key: int) {
    (InRange(cs, ds) && Rank(cs, ds) == key) || (Primed(cs, ds) && key == -1)
  }

  /** Some component can move exactly when combinations are left. */
  lemma MoreIff<V>(cs: seq<seq<V>>, ds: seq<int>, key: int)
    requires cs != [] && At(cs, ds, key)
    ensures (exists l :: 0 <= l < |cs| && !Last(cs, ds, l)) <==> key + 1 < |Product(cs)|
  {
    ProductLength(cs);
    if Primed(cs, ds) { PrimedRank(cs, ds); }
    if forall l :: 0 <= l < |cs| ==> Last(cs, ds, l) {
      AllLast(cs, ds);
    } else {
      var j := LastMovable(cs, ds, |cs|);
      var es := Moved(ds, j);
      TurnedInRange(cs, ds, key, j, es);
    }
  }

  function Moved(ds: seq<int>, j: nat): (es: seq<int>)
    requires j < |ds|
    ensures Turned(ds, j, es)
  {
    seq(|ds|, l requires 0 <= l < |ds| => if l < j then ds[l] else if l == j then ds[j] + 1 else 0)
  }

  lemma {:induction false} LastMovable<V>(cs: seq<seq<V>>, ds: seq<int>, n: nat) returns (j: nat)
    requires n <= |cs| == |ds| && forall l :: n <= l < |cs| ==> Last(cs, ds, l)
    requires exists l :: 0 <= l < n && !Last(cs, ds, l)
    ensures j < |cs| && !Last(cs, ds, j) && forall l :: j < l < |cs| ==> Last(cs, ds, l)
    decreases n
  {
    if Last(cs, ds, n - 1) { j := LastMovable(cs, ds, n - 1); } else { j := n - 1; }
  }

  /** Turning the last component that can move gives the next combination. */
  lemma TurnedInRange<V>(cs: seq<seq<V>>, ds: seq<int>, key: int, j: nat, es: seq<int>)
    requires At(cs, ds, key) && |ds| == |cs| && j < |cs| && !Last(cs, ds, j)
             && (forall l :: j < l < |cs| ==> Last(cs, ds, l)) && Turned(ds, j, es)
    ensures InRange(cs, es) && Rank(cs, es) == key + 1 && 0 <= key + 1 < |Product(cs)|
            && Product(cs)[key + 1] == Pick(cs, es)
  {
    if Primed(cs, ds) { PrimedRank(cs, ds); }
    TurnedRank(cs, ds, j, es);
    assert InRange(cs, es);
    ProductAt(cs, es);
  }

  /** With an empty component there are no combinations. */
  lemma {:induction false} EmptyProduct<V>(cs: seq<seq<V>>, l: nat)
    requires l < |cs| && cs[l] == []
    ensures Product(cs) == []
  {
    ProductLength(cs);
    if l > 0 {
      EmptyProduct(cs[1..], l - 1);
      ProductLength(cs[1..]);
    }
  }

  lemma {:induction false} NonEmptyProduct<V>(cs: seq<seq<V>>)
    requires forall l :: 0 <= l < |cs| ==> cs[l] != []
    ensures Product(cs) != []
  {
    if cs != [] {
      NonEmptyProduct(cs[1..]);
      NestedLength(cs[0], Product(cs[1..]));
      assert |cs[0]| * |Product(cs[1..])| >= 1 by {
        assert (|cs[0]| - 1) * |Product(cs[1..])| >= 0;
      }
    }
  }

  // ---- List, object and record patterns ----

  /** What the iterator lists: no components, no combinations. */
  function Listed<V>(cs: seq<seq<V>>): seq<seq<V>> {
    if cs == [] then [] else Product(cs)
  }

  /** One sub-iterator per component; `pos[l]` is where iterator l is, -1 before its first Next. */
  class ListIterator<V> {
    const comps: seq<seq<V>>
    var pos: seq<int>
    var key: int
    var firstInit: bool

    ghost predicate Valid()
      reads this
    {
      && |pos| == |comps| && -1 <= key
      && (if firstInit then key == -1 && forall l :: 0 <= l < |pos| ==> pos[l] == -1
          else comps != [] && InRange(comps, pos) && Rank(comps, pos) == key)
    }

    constructor (comps: seq<seq<V>>)
      ensures Valid() && this.comps == comps && key == -1
    {
      this.comps := comps;
      pos := seq(|comps|, _ => -1);
      key := -1;
      firstInit := true;
    }

    /** Next of sub-iterator l. */
    method SubNext(l: nat) returns (b: bool)
      requires l < |pos| == |comps|
      modifies this`pos
      ensures b <==> old(pos[l]) + 1 < |comps[l]|
      ensures pos == if b then old(pos)[l := old(pos[l]) + 1] else old(pos)
    {
      b := pos[l] + 1 < |comps[l]|;
      if b { pos := pos[l := pos[l] + 1]; }
    }

    /** There is a next combination exactly when not all have been listed. */
    method HasNext() returns (b: bool)
      requires Valid()
      ensures b <==> key + 1 < |Listed(comps)|
    {
      if firstInit {
        var i := |comps|;
        while i > 0
          invariant 0 <= i <= |comps| && forall l :: i <= l < |comps| ==> comps[l] != []
        {
          i := i - 1;
          if pos[i] + 1 >= |comps[i]| {
            EmptyProduct(comps, i);
            return false;
          }
        }
        NonEmptyProduct(comps);
        return |comps| > 0;
      }
      MoreIff(comps, pos, key);
      var i := |comps|;
      while i > 0
        invariant 0 <= i <= |comps| && forall l :: i <= l < |comps| ==> Last(comps, pos, l)
      {
        i := i - 1;
        if pos[i] + 1 < |comps[i]| {
          assert !Last(comps, pos, i);
          return true;
        }
      }
      return false;
    }

    /** Next gives the combinations of the product in order, numbered from 0, and nothing after the last one. */
    method Next() returns (b: bool)
      requires Valid()
      modifies this
      ensures Valid() && (b <==> old(key) + 1 < |Listed(comps)|)
      ensures b ==> key == old(key) + 1 && !firstInit && Pick(comps, pos) == Listed(comps)[key]
      ensures !b ==> key == old(key) && pos == old(pos) && firstInit == old(firstInit)
    {
      b := HasNext();
      if !b { return; }
      if firstInit { Prime(); }
      b := Advance();
    }

    /** All sub-iterators but the last move to their first value. */
    method Prime()
      requires Valid() && firstInit && 0 < |Listed(comps)|
      modifies this`pos, this`firstInit
      ensures Primed(comps, pos) && !firstInit
    {
      forall l | 0 <= l < |comps| ensures comps[l] != [] { if comps[l] == [] { EmptyProduct(comps, l); } }
      for i := 0 to |comps| - 1
        invariant |pos| == |comps| && (forall l :: 0 <= l < i ==> pos[l] == 0) && forall l :: i <= l < |pos| ==>
                  pos[l] == -1
      {
        var _ := SubNext(i);
      }
      firstInit := false;
    }

    /** The last sub-iterator that can move does; those after it are made anew and moved to their first value. */
    method Advance() returns (b: bool)
      requires comps != [] && At(comps, pos, key) && !firstInit
      modifies this`pos, this`key
      ensures b <==> old(key) + 1 < |Product(comps)|
      ensures b ==> Valid() && key == old(key) + 1
      ensures b ==> 0 <= key < |Product(comps)| && Pick(comps, pos) == Product(comps)[key]
      ensures !b ==> pos == old(pos) && key == old(key)
    {
      ghost var ds := pos;
      MoreIff(comps, pos, key);
      var i := |comps|;
      while i > 0
        invariant 0 <= i <= |comps| && pos == ds && key == old(key) && forall l :: i <= l < |comps| ==>
                  Last(comps, pos, l)
      {
        i := i - 1;
        b := SubNext(i);
        if b {
          key := key + 1;
          Reset(i + 1);
          TurnedInRange(comps, ds, old(key), i, pos);
          return;
        }
      }
      return false;
    }

    method Reset(from: nat)
      requires from <= |pos| == |comps| && forall l :: from <= l < |comps| ==> comps[l] != []
      modifies this`pos
      ensures |pos| == |comps| && (forall l :: 0 <= l < from ==> pos[l] == old(pos)[l])
              && forall l :: from <= l < |pos| ==> pos[l] == 0
    {
      for j := from to |comps|
        invariant |pos| == |comps| && (forall l :: 0 <= l < from ==> pos[l] == old(pos)[l])
                  && forall l :: from <= l < j ==> pos[l] == 0
      {
        pos := pos[j := -1];
        var _ := SubNext(j);
      }
    }
  }

  // ---- String sequences ----

  function Join<T>(parts: seq<seq<T>>): seq<T> {
    if parts == [] then [] else parts[0] + Join(parts[1..])
  }

  /** Concatenations of one string per element; no elements give the empty string, once. */
  class SequenceIterator<T> {
    const comps: seq<seq<seq<T>>>
    var empty: bool
    var pos: seq<int>
    var i: int

    ghost predicate Valid()
      reads this
    {
      && -1 <= i && |pos| == |comps|
      && (if empty then Product(comps) == [] && i == -1
          else if comps == [] then i <= 0
          else At(comps, pos, i))
    }

    /** Every sub-iterator but the last moves to its first value; if one cannot, the iterator is the empty one. */
    constructor (comps: seq<seq<seq<T>>>)
      ensures Valid() && this.comps == comps && i == -1
    {
      this.comps := comps;
      i := -1;
      empty := false;
      pos := seq(|comps|, _ => -1);
      new;
      for j := 0 to |comps|
        invariant this.comps == comps && i == -1 && !empty && |pos| == |comps|
        invariant forall l :: 0 <= l < |comps| ==> pos[l] == if l < j && l < |comps| - 1 then 0 else -1
        invariant forall l :: 0 <= l < j && l < |comps| - 1 ==> comps[l] != []
      {
        if j < |comps| - 1 {
          if comps[j] == [] {
            EmptyProduct(comps, j);
            empty := true;
            return;
          }
          pos := pos[j := 0];
        }
      }
      if comps != [] && comps[|comps| - 1] == [] {
        EmptyProduct(comps, |comps| - 1);
        empty := true;
      }
    }

    method HasNext() returns (b: bool)
      requires Valid()
      ensures b <==> i + 1 < |Product(comps)|
    {
      if empty { return false; }
      if comps == [] { return i < 0; }
      MoreIff(comps, pos, i);
      var j := |comps|;
      while j > 0
        invariant 0 <= j <= |comps| && forall l :: j <= l < |comps| ==> Last(comps, pos, l)
      {
        j := j - 1;
        if pos[j] + 1 < |comps[j]| {
          assert !Last(comps, pos, j);
          return true;
        }
      }
      return false;
    }

    /** Next gives the combinations of the product in order, numbered from 0, and nothing after the last one. */
    method Next() returns (b: bool)
      requires Valid()
      modifies this`pos, this`i
      ensures Valid() && (b <==> old(i) + 1 < |Product(comps)|)
      ensures b ==> i == old(i) + 1 && InRange(comps, pos) && Pick(comps, pos) == Product(comps)[i]
      ensures !b ==> i == old(i) && pos == old(pos)
    {
      b := HasNext();
      if !b { return; }
      if comps == [] {
        i := i + 1;
        return true;
      }
      b := Turn();
    }

    method Turn() returns (b: bool)
      requires comps != [] && At(comps, pos, i)
      modifies this`pos, this`i
      ensures b <==> old(i) + 1 < |Product(comps)|
      ensures b ==> i == old(i) + 1 && InRange(comps, pos) && Rank(comps, pos) == i
      ensures b ==> 0 <= i < |Product(comps)| && Pick(comps, pos) == Product(comps)[i]
      ensures !b ==> pos == old(pos) && i == old(i)
    {
      ghost var ds := pos;
      MoreIff(comps, pos, i);
      var j := |comps|;
      while j > 0
        invariant 0 <= j <= |comps| && pos == ds && i == old(i) && forall l :: j <= l < |comps| ==> Last(comps, pos, l)
      {
        j := j - 1;
        if pos[j] + 1 < |comps[j]| {
          pos := pos[j := pos[j] + 1];
          Restart(j + 1);
          i := i + 1;
          TurnedInRange(comps, ds, old(i), j, pos);
          return true;
        }
      }
      return false;
    }

    method Restart(from: nat)
      requires from <= |pos| == |comps| && forall l :: from <= l < |comps| ==> comps[l] != []
      modifies this`pos
      ensures |pos| == |comps| && (forall l :: 0 <= l < from ==> pos[l] == old(pos)[l])
              && forall l :: from <= l < |pos| ==> pos[l] == 0
    {
      for k := from to |comps|
        invariant |pos| == |comps| && (forall l :: 0 <= l < from ==> pos[l] == old(pos)[l])
                  && forall l :: from <= l < k ==> pos[l] == 0
      {
        pos := pos[k := 0];
      }
    }

    /** The current string: the concatenation of the combination at `i`. */
    method Value() returns (r: seq<T>)
      requires Valid() && InRange(comps, pos) && 0 <= i < |Product(comps)| && Pick(comps, pos) == Product(comps)[i]
      ensures r == Join(Product(comps)[i])
    {
      r := [];
      ghost var parts := Product(comps)[i];
      assert |parts| == |comps| && forall l :: 0 <= l < |comps| ==> parts[l] == comps[l][pos[l]];
      assert parts[0..] == parts && [] + Join(parts) == Join(parts);
      for l := 0 to |comps|
        invariant r + Join(parts[l..]) == Join(parts)
      {
        assert parts[l..][0] == parts[l] && parts[l..][1..] == parts[l + 1..];
        r := r + comps[l][pos[l]];
      }
      assert parts[|comps|..] == [] && r + [] == r;
    }
  }
}
