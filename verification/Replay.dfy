/** What replaying a command log does to the key map, and when an expired value gives way to an older one. */
module Replay {
  import opened Common
  import opened Items
  import opened Resp

  type Keys = map<bytes, Item>

  function Do(m: Keys, c: Cmd): Keys {
    match c
    case Set(k, v, d) => m[k := Record(k, v, d)]
    case Del(k) => m - {k}
    case Flush => map[]
  }

  /** The key map after the commands, deadlines left aside. */
  function Replayed(m: Keys, cmds: seq<Cmd>): Keys {
    if cmds == [] then m else Do(Replayed(m, cmds[..|cmds| - 1]), cmds[|cmds| - 1])
  }

  /** The loader does not run a Set whose deadline is not after the load time. */
  predicate Expired(c: Cmd, now: Time) {
    c.Set? && c.deadline.Some? && c.deadline.value <= now
  }

  /** The key map that a load at time `now` builds. */
  function ReplayedAt(m: Keys, cmds: seq<Cmd>, now: Time): Keys {
    if cmds == [] then m
    else
      var before := ReplayedAt(m, cmds[..|cmds| - 1], now);
      var c := cmds[|cmds| - 1];
      if Expired(c, now) then before else Do(before, c)
  }

  predicate Touches(c: Cmd, k: bytes) {
    c.Flush? || c.key == k
  }

  /** The last command with an effect on k among those kept by `keep`. */
  function LastTouch(cmds: seq<Cmd>, k: bytes, keep: Cmd -> bool): Option<Cmd> {
    if cmds == [] then None
    else
      var c := cmds[|cmds| - 1];
      if keep(c) && Touches(c, k) then Some(c) else LastTouch(cmds[..|cmds| - 1], k, keep)
  }

  function Leaves(c: Cmd): Option<Item> {
    if c.Set? then Some(Record(c.key, c.val, c.deadline)) else None
  }

  const All: Cmd -> bool := (c: Cmd) => true

  function Live(now: Time): Cmd -> bool {
    (c: Cmd) => !Expired(c, now)
  }

  /** The last touch decides a key. */
  lemma {:induction false} ReplayedByLast(m: Keys, cmds: seq<Cmd>, k: bytes)
    ensures var t := LastTouch(cmds, k, All);
            Lookup(Replayed(m, cmds), k) == if t.Some? then Leaves(t.value) else Lookup(m, k)
  {
    if cmds != [] { ReplayedByLast(m, cmds[..|cmds| - 1], k); }
  }

  lemma {:induction false} ReplayedAtByLast(m: Keys, cmds: seq<Cmd>, k: bytes, now: Time)
    ensures var t := LastTouch(cmds, k, Live(now));
            Lookup(ReplayedAt(m, cmds, now), k) == if t.Some? then Leaves(t.value) else Lookup(m, k)
  {
    if cmds != [] { ReplayedAtByLast(m, cmds[..|cmds| - 1], k, now); }
  }

  /** Either the last touch is an expired Set, or skipping expired Sets does not change it. */
  lemma {:induction false} LastTouchSurvives(cmds: seq<Cmd>, k: bytes, now: Time)
    ensures var t := LastTouch(cmds, k, All);
            (t.Some? && Expired(t.value, now)) || LastTouch(cmds, k, Live(now)) == t
    ensures var l := LastTouch(cmds, k, Live(now)); l.Some? ==> !Expired(l.value, now)
  {
    if cmds != [] { LastTouchSurvives(cmds[..|cmds| - 1], k, now); }
  }

  /** The items whose deadline is still ahead. */
  function Shown(m: Keys, now: Time): Keys {
    map k | k in m && (m[k].deadline.Some? ==> m[k].deadline.value > now) :: m[k]
  }

  /** The log's last word on k has expired, and an older Set of k has not. */
  predicate Reappears(cmds: seq<Cmd>, k: bytes, now: Time) {
    var t := LastTouch(cmds, k, All);
    var l := LastTouch(cmds, k, Live(now));
    t.Some? && Expired(t.value, now) && l.Some? && l.value.Set?
  }

  /** A load shows what was visible, except exactly where an older value reappears. */
  lemma LoadShowsUnlessReappears(cmds: seq<Cmd>, k: bytes, now: Time)
    ensures Lookup(ReplayedAt(map[], cmds, now), k) == Lookup(Shown(Replayed(map[], cmds), now), k)
            <==> !Reappears(cmds, k, now)
  {
    ReplayedByLast(map[], cmds, k);
    ReplayedAtByLast(map[], cmds, k, now);
    LastTouchSurvives(cmds, k, now);
  }

  /** An older value does reappear: a permanent value overwritten by one that expired. */
  lemma ReappearanceHappens(k: bytes, first: bytes, second: bytes, now: Time)
    ensures var cmds := [Set(k, first, None), Set(k, second, Some(now))];
            Reappears(cmds, k, now) && Lookup(ReplayedAt(map[], cmds, now), k) == Some(Record(k, first, None))
  {
    var cmds := [Set(k, first, None), Set(k, second, Some(now))];
    assert cmds[..1] == [cmds[0]] && cmds[..1][..0] == [];
    assert LastTouch(cmds[..1], k, Live(now)) == Some(cmds[0]);
    ReplayedAtByLast(map[], cmds, k, now);
  }

  /** A load rebuilds the whole key map exactly when nothing in it has reached its deadline. */
  lemma LoadIsExactIffNothingExpired(cmds: seq<Cmd>, now: Time)
    ensures ReplayedAt(map[], cmds, now) == Replayed(map[], cmds)
            <==> Shown(Replayed(map[], cmds), now) == Replayed(map[], cmds)
  {
    var full, at := Replayed(map[], cmds), ReplayedAt(map[], cmds, now);
    if Shown(full, now) == full {
      forall k ensures Lookup(at, k) == Lookup(full, k) {
        assert Lookup(Shown(full, now), k) == Lookup(full, k);
        ReplayedByLast(map[], cmds, k);
        ReplayedAtByLast(map[], cmds, k, now);
        LastTouchSurvives(cmds, k, now);
      }
      MapsAgree(at, full);
    } else if at == full {
      assert exists k :: k in full && k !in Shown(full, now);
      var k :| k in full && k !in Shown(full, now);
      assert Lookup(at, k) == Lookup(full, k);
      ReplayedByLast(map[], cmds, k);
      ReplayedAtByLast(map[], cmds, k, now);
      LastTouchSurvives(cmds, k, now);
      assert false;
    }
  }

  lemma {:induction false} ReplayedAppend(m: Keys, a: seq<Cmd>, b: seq<Cmd>)
    ensures Replayed(m, a + b) == Replayed(Replayed(m, a), b)
  {
    if b == [] {
      assert a + b == a;
    } else {
      var n := |b| - 1;
      ReplayedAppend(m, a, b[..n]);
      assert (a + b)[..|a + b| - 1] == a + b[..n];
    }
  }

  // ---- What the file keeps of an item ----

  function OnDisk(i: Item): Item {
    if i.deadline.Some? then i.(deadline := Some(Unix(i.deadline.value) * SECOND)) else i
  }

  function Disk(m: Keys): Keys {
    map k | k in m :: OnDisk(m[k])
  }

  lemma {:induction false} ReplayedStored(m: Keys, cmds: seq<Cmd>)
    ensures Replayed(Disk(m), StoredAll(cmds)) == Disk(Replayed(m, cmds))
  {
    if cmds == [] {
      assert StoredAll(cmds) == [];
    } else {
      var n := |cmds| - 1;
      ReplayedStored(m, cmds[..n]);
      assert StoredAll(cmds)[..n] == StoredAll(cmds[..n]);
    }
  }

  // ---- A transaction's writes as commands ----

  /** Some(item) is a write of the item, None a deletion. */
  type Writes = map<bytes, Option<Item>>

  function CmdOf(k: bytes, w: Option<Item>): Cmd {
    match w
    case Some(i) => Set(i.key, i.val, i.deadline)
    case None => Del(k)
  }

  /** m with the writes applied. */
  function Overlay(m: Keys, w: Writes): Keys {
    map k | k in m.Keys + w.Keys && (k in w ==> w[k].Some?) :: if k in w then w[k].value else m[k]
  }

  predicate KeyedItem(k: bytes, i: Item) {
    i.key == k && !i.keyless
  }

  ghost predicate Keyed(m: Keys) {
    forall k :: k in m ==> KeyedItem(k, m[k])
  }

  ghost predicate KeyedWrites(w: Writes) {
    forall k :: k in w && w[k].Some? ==> KeyedItem(k, w[k].value)
  }

  /** `order` names every key of the set once. */
  ghost predicate Lists(order: seq<bytes>, keys: set<bytes>) {
    && (forall k :: k in keys <==> k in order)
    && (forall i, j :: 0 <= i < j < |order| ==> order[i] != order[j])
  }

  function CmdsOf(order: seq<bytes>, w: Writes): seq<Cmd>
    requires forall k :: k in order ==> k in w
  {
    seq(|order|, i requires 0 <= i < |order| => CmdOf(order[i], w[order[i]]))
  }

  lemma {:induction false} LastTouchOfWrites(order: seq<bytes>, w: Writes, k: bytes)
    requires (forall k :: k in order ==> k in w) && KeyedWrites(w)
    ensures LastTouch(CmdsOf(order, w), k, All) == if k in order then Some(CmdOf(k, w[k])) else None
    decreases |order|
  {
    if order != [] {
      var n := |order| - 1;
      assert order == order[..n] + [order[n]];
      LastTouchOfWrites(order[..n], w, k);
      assert CmdsOf(order, w)[..n] == CmdsOf(order[..n], w);
    }
  }

  /** Whatever order the writes are logged in, replaying them has the effect of the transaction. */
  lemma WritesInAnyOrder(m: Keys, w: Writes, order: seq<bytes>)
    requires KeyedWrites(w) && Lists(order, w.Keys)
    ensures Replayed(m, CmdsOf(order, w)) == Overlay(m, w)
  {
    forall k ensures Lookup(Replayed(m, CmdsOf(order, w)), k) == Lookup(Overlay(m, w), k) {
      ReplayedByLast(m, CmdsOf(order, w), k);
      LastTouchOfWrites(order, w, k);
    }
    MapsAgree(Replayed(m, CmdsOf(order, w)), Overlay(m, w));
  }
}
