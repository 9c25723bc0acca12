/** Iterators that look ahead for the next pair their patterns accept. */
module Filter {
  import opened Common

  /** A pair of the base iterator; None is a nil key. */
  datatype Pair<K, V> = Pair(key: Option<K>, value: V)

  /** The accepted pairs, in order. */
  function Matching<K, V>(base: seq<Pair<K, V>>, test: Pair<K, V> -> bool): seq<Pair<K, V>> {
    if base == [] then []
    else if test(base[0]) then [base[0]] + Matching(base[1..], test)
    else Matching(base[1..], test)
  }

  /** Each pair is accepted or left out by itself, and the order stays. */
  lemma {:induction false} MatchingIs<K, V>(a: seq<Pair<K, V>>, p: Pair<K, V>, b: seq<Pair<K, V>>,
      test: Pair<K, V> -> bool)
    ensures Matching(a + [p] + b, test) == Matching(a, test) + (if test(p) then [p] else []) + Matching(b, test)
    decreases |a|
  {
    var whole := a + [p] + b;
    if a == [] {
      assert whole[1..] == b;
    } else {
      assert whole[1..] == a[1..] + [p] + b;
      MatchingIs(a[1..], p, b, test);
    }
  }

  // ---- Runs of calls ----

  datatype Call = AskHasNext | AskNext

  /**
   * What Next gives over a run of calls: `pending` are the accepted pairs not given yet, `held` tells that the first of
   * them is stored under a non-nil key. A stored nil key is taken for an empty store.
   */
  function Given<K, V>(pending: seq<Pair<K, V>>, held: bool, calls: seq<Call>): seq<Pair<K, V>>
    decreases |calls|
  {
    if calls == [] then []
    else if pending == [] then Given(pending, held, calls[1..])
    else if calls[0].AskNext? then [pending[0]] + Given(pending[1..], false, calls[1..])
    else if held then Given(pending, held, calls[1..])
    else if pending[0].key.None? then Given(pending[1..], false, calls[1..])
    else Given(pending, true, calls[1..])
  }

  function Nexts(calls: seq<Call>): nat {
    if calls == [] then 0 else (if calls[0].AskNext? then 1 else 0) + Nexts(calls[1..])
  }

  function Min(a: nat, b: nat): nat { if a < b then a else b }

  ghost predicate NonNil<K, V>(pending: seq<Pair<K, V>>) {
    forall i :: 0 <= i < |pending| ==> pending[i].key.Some?
  }

  /** With non-nil keys, any interleaving of HasNext and Next gives the accepted pairs in order, one per Next. */
  lemma {:induction false} GivenInOrder<K, V>(pending: seq<Pair<K, V>>, held: bool, calls: seq<Call>)
    requires NonNil(pending)
    ensures Given(pending, held, calls) == pending[..Min(Nexts(calls), |pending|)]
    decreases |calls|
  {
    if calls != [] && pending != [] {
      if calls[0].AskNext? {
        GivenInOrder(pending[1..], false, calls[1..]);
        var n := Min(Nexts(calls[1..]), |pending| - 1);
        assert pending[..n + 1] == [pending[0]] + pending[1..][..n];
      } else {
        GivenInOrder(pending, true, calls[1..]);
      }
    } else if calls != [] {
      GivenInOrder(pending, held, calls[1..]);
    }
  }

  /** n calls of Next, a HasNext, then Next until the end. */
  function Probe(n: nat, more: nat): seq<Call> {
    if n > 0 then [AskNext] + Probe(n - 1, more) else [AskHasNext] + Nexting(more)
  }

  function Nexting(n: nat): seq<Call> {
    if n == 0 then [] else [AskNext] + Nexting(n - 1)
  }

  lemma {:induction false} NextingCount(n: nat)
    ensures Nexts(Nexting(n)) == n
  {
    if n > 0 {
      NextingCount(n - 1);
      assert Nexting(n)[1..] == Nexting(n - 1);
    }
  }

  lemma {:induction false} GivenLength<K, V>(pending: seq<Pair<K, V>>, n: nat)
    ensures |Given(pending, false, Nexting(n))| <= |pending|
    decreases n
  {
    if n > 0 {
      assert Nexting(n)[1..] == Nexting(n - 1);
      GivenLength(if pending == [] then [] else pending[1..], n - 1);
    }
  }

  /** A HasNext in front of an accepted pair with a nil key loses the pair. */
  lemma {:induction false} NilKeyLost<K, V>(pending: seq<Pair<K, V>>, i: nat)
    requires i < |pending| && pending[i].key.None?
    ensures var calls := Probe(i, |pending| - i);
            Nexts(calls) == |pending| && |Given(pending, false, calls)| < |pending|
    decreases i
  {
    var calls := Probe(i, |pending| - i);
    if i > 0 {
      NilKeyLost(pending[1..], i - 1);
      assert calls[1..] == Probe(i - 1, |pending| - i);
    } else {
      assert calls[1..] == Nexting(|pending|);
      NextingCount(|pending|);
      GivenLength(pending[1..], |pending|);
    }
  }

  /** One accepted pair per Next, in order, in every interleaving exactly when no accepted key is nil. */
  lemma InOrderIff<K, V>(pending: seq<Pair<K, V>>)
    ensures (forall calls :: Given(pending, false, calls) == pending[..Min(Nexts(calls), |pending|)]) <==>
            NonNil(pending)
  {
    if NonNil(pending) {
      forall calls ensures Given(pending, false, calls) == pending[..Min(Nexts(calls), |pending|)] {
        GivenInOrder(pending, false, calls);
      }
    } else {
      var i :| 0 <= i < |pending| && pending[i].key.None?;
      NilKeyLost(pending, i);
      var calls := Probe(i, |pending| - i);
      assert |Given(pending, false, calls)| < Min(Nexts(calls), |pending|);
    }
  }

  // ---- The iterator ----

  /** The key, value and key-value filters differ only in what their test looks at. */
  class FilteredIterator<K, V> {
    const base: seq<Pair<K, V>>
    const test: Pair<K, V> -> bool
    var at: nat
    var nextKey: Option<K>
    var nextValue: Option<V>
    var currentKey: Option<K>
    var currentValue: Option<V>

    ghost predicate Valid()
      reads this
    {
      at <= |base| && (nextKey.Some? ==> nextValue.Some?)
    }

    /** The accepted pairs that Next has still to give. */
    ghost function Pending(): seq<Pair<K, V>>
      requires Valid()
      reads this
    {
      (if nextKey.Some? then [Pair(nextKey, nextValue.value)] else []) + Matching(base[at..], test)
    }

    constructor (base: seq<Pair<K, V>>, test: Pair<K, V> -> bool)
      ensures Valid() && Pending() == Matching(base, test) && nextKey.None?
    {
      this.base, this.test := base, test;
      at, nextKey, nextValue, currentKey, currentValue := 0, None, None, None, None;
      new;
      assert base[0..] == base;
    }

    /** Looks for the next accepted pair and stores it; the current pair does not change. */
    method HasNext() returns (b: bool)
      requires Valid()
      modifies this`at, this`nextKey, this`nextValue
      ensures Valid() && (b <==> old(Pending()) != [])
      ensures b ==> nextValue.Some? && Pair(nextKey, nextValue.value) == old(Pending())[0]
      ensures Pending() == if b && nextKey.None? then old(Pending())[1..] else old(Pending())
      ensures old(nextKey).Some? ==> nextKey == old(nextKey)
    {
      if nextKey.Some? { return true; }
      while at < |base|
        invariant at <= |base| && nextKey.None? && Matching(base[at..], test) == old(Pending())
      {
        var p := base[at];
        assert base[at..][0] == p && base[at..][1..] == base[at + 1..];
        at := at + 1;
        if test(p) {
          nextKey := p.key;
          nextValue := Some(p.value);
          return true;
        }
        nextKey := None;
        nextValue := None;
      }
      return false;
    }

    /** Moves to the next accepted pair, whatever its key. */
    method Next() returns (b: bool)
      requires Valid()
      modifies this
      ensures Valid() && (b <==> old(Pending()) != [])
      ensures b ==> currentValue.Some? && Pair(currentKey, currentValue.value) == old(Pending())[0]
      ensures b ==> Pending() == old(Pending())[1..] && nextKey.None?
      ensures !b ==> currentKey == old(currentKey) && currentValue == old(currentValue) && Pending() == []
    {
      b := HasNext();
      if !b { return; }
      currentKey := nextKey;
      currentValue := nextValue;
      nextKey := None;
      nextValue := None;
    }
  }

  /** A client making the calls sees what Given says. */
  method Drive<K, V>(it: FilteredIterator<K, V>, calls: seq<Call>) returns (out: seq<Pair<K, V>>)
    requires it.Valid()
    modifies it
    ensures it.Valid() && out == Given(old(it.Pending()), old(it.nextKey.Some?), calls)
  {
    out := [];
    ghost var goal := Given(it.Pending(), it.nextKey.Some?, calls);
    var i := 0;
    assert calls[0..] == calls;
    while i < |calls|
      invariant 0 <= i <= |calls| && it.Valid()
      invariant out + Given(it.Pending(), it.nextKey.Some?, calls[i..]) == goal
    {
      ghost var pending, held, rest := it.Pending(), it.nextKey.Some?, calls[i..];
      assert rest[0] == calls[i] && rest[1..] == calls[i + 1..];
      if calls[i].AskNext? {
        var b := it.Next();
        if b { out := out + [Pair(it.currentKey, it.currentValue.value)]; }
      } else {
        var _ := it.HasNext();
      }
      if pending == [] { NothingLeft(pending, held, it.nextKey.Some?, calls[i + 1..]); }
      i := i + 1;
    }
    assert calls[i..] == [];
  }

  lemma {:induction false} NothingLeft<K, V>(pending: seq<Pair<K, V>>, a: bool, b: bool, calls: seq<Call>)
    requires pending == []
    ensures Given(pending, a, calls) == Given(pending, b, calls) == []
    decreases |calls|
  {
    if calls != [] { NothingLeft(pending, a, b, calls[1..]); }
  }
}
