/** The history of a value: a snapshot and the changes since, older changes being folded into the snapshot. */
module History {

  datatype Change<M> = Change(mutation: M, time: int)

  function Fold<V, M>(apply: (M, V) -> V, v: V, cs: seq<Change<M>>): V {
    if cs == [] then v else Fold(apply, apply(cs[0].mutation, v), cs[1..])
  }

  lemma {:induction false} FoldAppend<V, M>(apply: (M, V) -> V, v: V, a: seq<Change<M>>, b: seq<Change<M>>)
    ensures Fold(apply, v, a + b) == Fold(apply, Fold(apply, v, a), b)
    decreases |a|
  {
    if a == [] {
      assert a + b == b;
    } else {
      assert (a + b)[1..] == a[1..] + b;
      FoldAppend(apply, apply(a[0].mutation, v), a[1..], b);
    }
  }

  lemma FoldSnoc<V, M>(apply: (M, V) -> V, v: V, cs: seq<Change<M>>, i: nat)
    requires i < |cs|
    ensures Fold(apply, v, cs[..i + 1]) == apply(cs[i].mutation, Fold(apply, v, cs[..i]))
  {
    assert cs[..i + 1] == cs[..i] + [cs[i]] && [cs[i]][1..] == [];
    FoldAppend(apply, v, cs[..i], [cs[i]]);
  }

  ghost predicate Ordered<M>(cs: seq<Change<M>>) {
    forall i, j :: 0 <= i <= j < |cs| ==> cs[i].time <= cs[j].time
  }

  /** How many changes happened at or before d. */
  function UpTo<M>(cs: seq<Change<M>>, d: int): (n: nat)
    ensures n <= |cs|
  {
    if cs == [] then 0 else (if cs[0].time <= d then 1 else 0) + UpTo(cs[1..], d)
  }

  /** In ordered changes those are the first ones. */
  lemma {:induction false} UpToSplits<M>(cs: seq<Change<M>>, d: int, n: nat)
    requires Ordered(cs) && n <= |cs| && (forall i :: 0 <= i < n ==> cs[i].time <= d) && forall i :: n <= i < |cs| ==>
             cs[i].time > d
    ensures UpTo(cs, d) == n
    decreases |cs|
  {
    if cs != [] { UpToSplits(cs[1..], d, if n == 0 then 0 else n - 1); }
  }

  function Max(a: nat, b: nat): nat { if a < b then b else a }

  class ValueHistory<V, M> {
    const apply: (M, V) -> V
    const maxItemCount: int
    var startValue: V
    var changes: seq<Change<M>>
    var start: int
    /** The value the history began with, every change it stands for, and how many of them are in the snapshot. */
    ghost const initial: V
    ghost var log: seq<Change<M>>
    ghost var folded: nat

    ghost predicate Valid()
      reads this
    {
      && folded <= |log| && Ordered(log) && changes == log[folded..]
      && startValue == Fold(apply, initial, log[..folded])
      && (maxItemCount >= 1 ==> |changes| < maxItemCount)
    }

    constructor (apply: (M, V) -> V, v: V, maxItemCount: int)
      ensures Valid() && this.apply == apply && this.maxItemCount == maxItemCount && initial == v && log == []
              && folded == 0
    {
      this.apply, this.maxItemCount, startValue, changes, start := apply, maxItemCount, v, [], 0;
      initial, log, folded := v, [], 0;
    }

    /** Records a change; a maximum length of 1 makes the first call fail on a missing element. */
    method AddChange(c: Change<M>) returns (panicked: bool)
      requires Valid() && (log != [] ==> log[|log| - 1].time <= c.time)
      modifies this
      ensures panicked <==> old(changes) == [] && maxItemCount == 1
      ensures !panicked ==> Valid() && log == old(log) + [c] && folded >= old(folded)
      ensures panicked ==> startValue == apply(c.mutation, old(startValue)) && changes == [c]
      ensures !panicked ==> |changes| == if old(|changes|) + 1 == maxItemCount then maxItemCount - 1
              else old(|changes|) + 1
    {
      changes := changes + [c];
      log := log + [c];
      assert log[folded..] == changes && log[..folded] == old(log)[..folded];
      if |changes| == maxItemCount {
        FoldSnoc(apply, initial, log, |log| - 1);
        assert log[..|log|] == log && (maxItemCount == 1 ==> log[..|log| - 1] == log[..folded]);
        panicked := ForgetChangesBeforeIndex(1);
      } else {
        panicked := false;
      }
    }

    /** The changes before the index go into the snapshot; without a change at the index the call fails. */
    method ForgetChangesBeforeIndex(index: nat) returns (panicked: bool)
      requires index <= |changes| && folded <= |log| && Ordered(log) && changes == log[folded..]
      requires startValue == Fold(apply, initial, log[..folded])
      modifies this`startValue, this`changes, this`start, this`folded
      ensures panicked <==> 0 < index == |old(changes)|
      ensures !panicked ==> folded == old(folded) + index <= |log| && changes == log[folded..] == old(changes)[index..]
      ensures !panicked ==> startValue == Fold(apply, initial, log[..folded])
      ensures !panicked && index > 0 ==> start == changes[0].time
      ensures panicked ==> changes == old(changes) && startValue == Fold(apply, initial, log)
    {
      if index == 0 { return false; }
      var newLength := |changes| - index;
      for i := 0 to index
        invariant changes == old(changes) && folded == old(folded) && folded + |changes| == |log|
        invariant startValue == Fold(apply, initial, log[..folded + i])
      {
        FoldSnoc(apply, initial, log, folded + i);
        startValue := apply(changes[i].mutation, startValue);
      }
      if index >= |changes| {
        assert log[..folded + index] == log;
        return true;
      }
      start := changes[index].time;
      changes := changes[index..];
      folded := folded + index;
      return false;
    }

    /** The value after every change. */
    method LastValue() returns (v: V)
      requires Valid()
      ensures v == Fold(apply, initial, log)
    {
      v := startValue;
      for i := 0 to |changes|
        invariant v == Fold(apply, initial, log[..folded + i])
      {
        FoldSnoc(apply, initial, log, folded + i);
        v := apply(changes[i].mutation, v);
      }
      assert log[..folded + |changes|] == log;
    }

    /** The value at d: exact from the last folded change on, otherwise the oldest value still known. */
    method ValueAt(d: int) returns (v: V)
      requires Valid()
      ensures v == Fold(apply, initial, log[..Max(folded, UpTo(log, d))])
      ensures folded == 0 || log[folded - 1].time <= d ==> v == Fold(apply, initial, log[..UpTo(log, d)])
    {
      v := startValue;
      var index, ok := IndexAtOrBeforeMoment(d);
      if !ok {
        NoneAfter(d);
        return;
      }
      UpToSplits(log, d, folded + index + 1);
      for i := 0 to index + 1
        invariant v == Fold(apply, initial, log[..folded + i])
      {
        FoldSnoc(apply, initial, log, folded + i);
        v := apply(changes[i].mutation, v);
      }
    }

    /** When no kept change is at or before d, the moments counted are all folded. */
    lemma NoneAfter(d: int)
      requires Valid() && forall i :: 0 <= i < |changes| ==> changes[i].time > d
      ensures UpTo(log, d) <= folded && (folded == 0 || log[folded - 1].time <= d ==> UpTo(log, d) == folded)
    {
      var n := Count(log, d, folded);
      assert forall i :: folded <= i < |log| ==> log[i] == changes[i - folded];
      UpToSplits(log, d, n);
    }

    method IndexAtOrBeforeMoment(d: int) returns (index: nat, ok: bool)
      requires Valid()
      ensures ok ==> index < |changes| && forall i :: 0 <= i < folded + index + 1 ==> log[i].time <= d
      ensures ok ==> forall i :: folded + index + 1 <= i < |log| ==> log[i].time > d
      ensures !ok ==> forall i :: 0 <= i < |changes| ==> changes[i].time > d
    {
      var i := |changes|;
      while i > 0
        invariant 0 <= i <= |changes| && forall j :: i <= j < |changes| ==> changes[j].time > d
      {
        i := i - 1;
        if changes[i].time <= d {
          assert forall j :: folded <= j < |log| ==> log[j] == changes[j - folded];
          return i, true;
        }
      }
      return 0, false;
    }

    method IndexAtOrAfterMoment(d: int) returns (index: nat, ok: bool)
      requires Valid()
      ensures ok ==> index < |changes| && changes[index].time >= d && forall i :: 0 <= i < index ==> changes[i].time < d
      ensures !ok ==> forall i :: 0 <= i < |changes| ==> changes[i].time < d
    {
      for i := 0 to |changes|
        invariant forall j :: 0 <= j < i ==> changes[j].time < d
      {
        if changes[i].time >= d { return i, true; }
      }
      return 0, false;
    }

    /** Forgets the changes before d, unless every change is before d: then nothing is forgotten. */
    method ForgetChangesBeforeDate(d: int)
      requires Valid()
      modifies this`startValue, this`changes, this`start, this`folded
      ensures Valid() && old(folded) <= folded
      ensures (forall i :: 0 <= i < |old(changes)| ==> old(changes)[i].time < d) ==> folded == old(folded)
      ensures (exists i :: 0 <= i < |old(changes)| && old(changes)[i].time >= d) ==>
              folded < |log| && log[folded].time >= d && forall i :: old(folded) <= i < folded ==> log[i].time < d
    {
      var index, ok := IndexAtOrAfterMoment(d);
      if !ok { return; }
      assert forall i :: folded <= i < |log| ==> log[i] == changes[i - folded];
      var _ := ForgetChangesBeforeIndex(index);
    }

    /** The last change that is not in the snapshot never happened. */
    method ForgetLast()
      requires Valid()
      modifies this`changes, this`log
      ensures Valid() && log == if old(changes) == [] then old(log) else old(log)[..|old(log)| - 1]
    {
      if changes == [] { return; }
      changes := changes[..|changes| - 1];
      log := log[..|log| - 1];
      assert log[..folded] == old(log)[..folded];
    }
  }

  /** The number of changes before n that are at or before d. */
  function Count<M>(cs: seq<Change<M>>, d: int, n: nat): (r: nat)
    requires n <= |cs| && Ordered(cs)
    ensures r <= n && (forall i :: 0 <= i < r ==> cs[i].time <= d) && (forall i :: r <= i < n ==> cs[i].time > d)
    ensures n > 0 && cs[n - 1].time <= d ==> r == n
  {
    if n == 0 then 0 else if cs[n - 1].time <= d then n else Count(cs, d, n - 1)
  }
}
