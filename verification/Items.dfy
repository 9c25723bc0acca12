/** Database items and the comparisons that order them in the trees. */
module Items {
  import opened Common

  /** Nanoseconds since the Unix epoch. */
  type Time = int

  const SECOND: int := 1_000_000_000

  /** The far-future time that stands for "never expires" in tree order. */
  const MAX_TIME: Time := (0x8000_0000_0000_0000 - 62135596801) * SECOND + 999_999_999

  type Less = (bytes, bytes) -> bool

  /** `deadline` is None when the item has no expiry; `keyless` marks scan bounds. */
  datatype Item = Item(key: bytes, val: bytes, deadline: Option<Time>, keyless: bool)

  /** What a tree orders by before falling back on the key. */
  datatype Ctx = ByKey | ByDeadline | ByValue(less: Option<Less>)

  function Record(key: bytes, val: bytes, deadline: Option<Time>): Item {
    Item(key, val, deadline, false)
  }

  function ExpiresAt(i: Item): Time {
    if i.deadline.None? then MAX_TIME else i.deadline.value
  }

  predicate KeyLess(a: Item, b: Item) {
    if a.keyless then false
    else if b.keyless then true
    else LexLess(a.key, b.key)
  }

  predicate ItemLess(a: Item, b: Item, ctx: Ctx) {
    match ctx
    case ByKey => KeyLess(a, b)
    case ByDeadline =>
      if ExpiresAt(b) > ExpiresAt(a) then true
      else if ExpiresAt(a) > ExpiresAt(b) then false
      else KeyLess(a, b)
    case ByValue(None) => KeyLess(a, b)
    case ByValue(Some(less)) =>
      if less(a.val, b.val) then true
      else if less(b.val, a.val) then false
      else KeyLess(a, b)
  }

  /** Neither side is less: a tree treats the two items as one. */
  predicate Same(a: Item, b: Item, ctx: Ctx) {
    !ItemLess(a, b, ctx) && !ItemLess(b, a, ctx)
  }

  ghost predicate StrictWeak<T(!new)>(less: (T, T) -> bool) {
    && (forall x :: !less(x, x))
    && (forall x, y, z :: less(x, y) && less(y, z) ==> less(x, z))
    && (forall x, y, z :: less(x, z) ==> less(x, y) || less(y, z))
  }

  /** The condition under which a tree's comparison makes sense. */
  ghost predicate Sound(ctx: Ctx) {
    ctx.ByValue? && ctx.less.Some? ==> StrictWeak(ctx.less.value)
  }

  lemma KeyLessOrder(a: Item, b: Item, c: Item)
    ensures !KeyLess(a, a)
    ensures KeyLess(a, b) && KeyLess(b, c) ==> KeyLess(a, c)
    ensures KeyLess(a, c) ==> KeyLess(a, b) || KeyLess(b, c)
    ensures !a.keyless && !b.keyless ==> KeyLess(a, b) || KeyLess(b, a) || a.key == b.key
  {
    LexIrreflexive(a.key);
    if KeyLess(a, b) && KeyLess(b, c) && !c.keyless { LexTransitive(a.key, b.key, c.key); }
    LexTotal(a.key, b.key);
    if KeyLess(a, c) && !b.keyless && !c.keyless && LexLess(b.key, a.key) {
      LexTransitive(b.key, a.key, c.key);
    }
  }

  /** Every tree is ordered by a strict weak order that is total on distinct keys. */
  lemma ItemOrderIsTotal(ctx: Ctx)
    requires Sound(ctx)
    ensures StrictWeak((a: Item, b: Item) => ItemLess(a, b, ctx))
    ensures forall a: Item, b: Item :: !a.keyless && !b.keyless && Same(a, b, ctx) ==> a.key == b.key
  {
    var lt := (a: Item, b: Item) => ItemLess(a, b, ctx);
    forall a: Item ensures !lt(a, a) { KeyLessOrder(a, a, a); }
    forall a: Item, b: Item, c: Item ensures lt(a, b) && lt(b, c) ==> lt(a, c) {
      KeyLessOrder(a, b, c);
    }
    forall a: Item, b: Item, c: Item ensures lt(a, c) ==> lt(a, b) || lt(b, c) {
      KeyLessOrder(a, b, c);
    }
    forall a: Item, b: Item | !a.keyless && !b.keyless && Same(a, b, ctx) ensures a.key == b.key {
      KeyLessOrder(a, b, a);
    }
  }

  /** Two stored items occupy one tree position exactly when they share key and sort value. */
  lemma SameMeansSameKey(a: Item, b: Item, ctx: Ctx)
    requires Sound(ctx) && !a.keyless && !b.keyless
    ensures Same(a, b, ctx) ==> a.key == b.key
    ensures a == b ==> Same(a, b, ctx)
    ensures ctx.ByKey? ==> (Same(a, b, ctx) <==> a.key == b.key)
    ensures ctx.ByDeadline? ==> (Same(a, b, ctx) <==> a.key == b.key && ExpiresAt(a) == ExpiresAt(b))
  {
    KeyLessOrder(a, b, a);
    LexIrreflexive(a.key);
  }

  // ---- Comparison functions for indexes ----

  /** The comparison built from a list of comparisons: the first that decides wins. */
  function Compound(lessers: seq<Less>): Less
    requires lessers != []
  {
    (a: bytes, b: bytes) => CompoundLess(lessers, a, b)
  }

  predicate CompoundLess(lessers: seq<Less>, a: bytes, b: bytes)
    requires lessers != []
  {
    if |lessers| == 1 then lessers[0](a, b)
    else if lessers[0](a, b) then true
    else if lessers[0](b, a) then false
    else CompoundLess(lessers[1..], a, b)
  }

  /** Comparison i puts a before b, and no earlier one tells them apart. */
  ghost predicate FirstToDecide(lessers: seq<Less>, a: bytes, b: bytes, i: nat) {
    i < |lessers| && lessers[i](a, b) && forall j :: 0 <= j < i ==> !lessers[j](a, b) && !lessers[j](b, a)
  }

  lemma {:induction false} CompoundLessIs(lessers: seq<Less>, a: bytes, b: bytes)
    requires lessers != []
    ensures CompoundLess(lessers, a, b) <==> exists i :: FirstToDecide(lessers, a, b, i)
    decreases |lessers|
  {
    var f, rest := lessers[0], lessers[1..];
    if f(a, b) {
      assert FirstToDecide(lessers, a, b, 0);
    } else if |lessers| > 1 && !f(b, a) {
      CompoundLessIs(rest, a, b);
      if i: nat :| FirstToDecide(lessers, a, b, i) {
        assert forall j :: 0 <= j < i - 1 ==> rest[j] == lessers[j + 1];
        assert FirstToDecide(rest, a, b, i - 1);
      }
      if i: nat :| FirstToDecide(rest, a, b, i) {
        assert forall j :: 1 <= j < i + 1 ==> lessers[j] == rest[j - 1];
        assert FirstToDecide(lessers, a, b, i + 1);
      }
    }
  }

  /** The loop that a multi-comparison index runs: the first comparison that tells a and b apart puts a before b. */
  method CompareCompound(lessers: seq<Less>, a: bytes, b: bytes) returns (r: bool)
    requires lessers != []
    ensures r == CompoundLess(lessers, a, b)
    ensures r <==> exists i :: FirstToDecide(lessers, a, b, i)
  {
    CompoundLessIs(lessers, a, b);
    var i := 0;
    assert lessers[0..] == lessers;
    while i < |lessers| - 1
      invariant 0 <= i < |lessers|
      invariant CompoundLess(lessers, a, b) == CompoundLess(lessers[i..], a, b)
    {
      assert lessers[i..][1..] == lessers[i + 1..];
      if lessers[i](a, b) { return true; }
      if lessers[i](b, a) { return false; }
      i := i + 1;
    }
    r := lessers[|lessers| - 1](a, b);
  }

  /** Any list of strict weak orders compounds to a strict weak order. */
  lemma {:induction false} CompoundIsStrictWeak(lessers: seq<Less>)
    requires lessers != [] && forall i :: 0 <= i < |lessers| ==> StrictWeak(lessers[i])
    ensures StrictWeak(Compound(lessers))
  {
    var f := lessers[0];
    assert StrictWeak(f);
    if |lessers| == 1 {
      assert forall a, b :: Compound(lessers)(a, b) == f(a, b);
    } else {
      var rest := lessers[1..];
      CompoundIsStrictWeak(rest);
      var g := Compound(rest);
      assert forall a, b :: Compound(lessers)(a, b) == (f(a, b) || (!f(b, a) && g(a, b)));
    }
  }

  /** Descending order of a strict weak order is one too. */
  lemma DescIsStrictWeak(less: Less)
    requires StrictWeak(less)
    ensures StrictWeak((a: bytes, b: bytes) => less(b, a))
  {
    var d := (a: bytes, b: bytes) => less(b, a);
    forall x, y, z | d(x, y) && d(y, z) ensures d(x, z) {
      assert less(z, y) && less(y, x);
    }
    forall x, y, z | d(x, z) ensures d(x, y) || d(y, z) {
      assert less(z, x);
    }
  }

  function LowerByte(b: byte): byte {
    if 65 <= b <= 90 then b + 32 else b
  }

  function Lower(s: bytes): bytes {
    seq(|s|, i requires 0 <= i < |s| => LowerByte(s[i]))
  }

  lemma {:induction false} LexSkip(a: bytes, b: bytes, n: nat)
    requires n <= |a| && n <= |b| && a[..n] == b[..n]
    ensures LexLess(a, b) == LexLess(a[n..], b[n..])
  {
    if n == 0 {
      assert a[0..] == a && b[0..] == b;
    } else {
      assert a[0] == a[..n][0] == b[..n][0] == b[0];
      assert a[1..][..n - 1] == a[..n][1..] == b[..n][1..] == b[1..][..n - 1];
      LexSkip(a[1..], b[1..], n - 1);
      assert a[1..][n - 1..] == a[n..] && b[1..][n - 1..] == b[n..];
    }
  }

  /** IndexString: byte order after lowering ASCII letters. */
  method IndexString(a: bytes, b: bytes) returns (r: bool)
    ensures r == LexLess(Lower(a), Lower(b))
  {
    var i := 0;
    while i < |a| && i < |b|
      invariant 0 <= i <= |a| && i <= |b|
      invariant Lower(a)[..i] == Lower(b)[..i]
    {
      LexSkip(Lower(a), Lower(b), i);
      if 65 <= a[i] <= 90 {
        if 65 <= b[i] <= 90 {
          if a[i] < b[i] { return true; } else if a[i] > b[i] { return false; }
        } else {
          if a[i] + 32 < b[i] { return true; } else if a[i] + 32 > b[i] { return false; }
        }
      } else if 65 <= b[i] <= 90 {
        if a[i] < b[i] + 32 { return true; } else if a[i] > b[i] + 32 { return false; }
      } else {
        if a[i] < b[i] { return true; } else if a[i] > b[i] { return false; }
      }
      assert Lower(a)[..i + 1] == Lower(a)[..i] + [Lower(a)[i]];
      assert Lower(b)[..i + 1] == Lower(b)[..i] + [Lower(b)[i]];
      i := i + 1;
    }
    LexSkip(Lower(a), Lower(b), i);
    r := |a| < |b|;
  }
}
