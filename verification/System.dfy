/**
 * The store as a state machine: readers, one writer, commits that may fail part way, crashes and
 * reopening, and the online log compaction, interleaved at the granularity of the database lock.
 */
module System {
  import opened Common
  import opened Items
  import opened Resp
  import opened Replay
  import opened Store
  import opened Transactions

  /** A compaction in progress: `tmp` is its file, `copied` the commands in it, `at` the log length at `endpos`. */
  datatype Shrinker = Shrinker(endpos: nat, at: nat, pivot: bytes, done: bool, tmp: bytes, copied: seq<Cmd>)

  datatype Writer = Writer(ops: seq<Op>, wc: Wc)

  /**
   * `db` and `file` are the memory and the log file. The rest of the state records history: the
   * commands in the file, how many of them the last load read and when, the database that load
   * gave, the transactions committed since, and how many were committed when each reader began.
   */
  datatype Sys = Sys(
    db: Db, file: bytes, writer: Option<Writer>, readers: map<nat, nat>, shrink: Option<Shrinker>,
    log: seq<Cmd>, mark: nat, loadedAt: Time, origin: Db, committed: seq<seq<Op>>)

  datatype Event =
    | BeginRead(r: nat)
    | EndRead(r: nat)
    | BeginWrite
    | Write(op: Op)
    | Rollback
    | Commit(order: seq<bytes>)
    | CommitFails(order: seq<bytes>, written: nat)
    | Crash(order: seq<bytes>, written: nat, now: Time)
    | ShrinkBegin
    | ShrinkChunk(order: seq<bytes>, next: Option<bytes>)
    | ShrinkSwap
    | ShrinkAbort

  /** The database after the committed transactions, one after the other. */
  function After(origin: Db, txs: seq<seq<Op>>): Db {
    if txs == [] then origin
    else Transactions.Run(Begin(After(origin, txs[..|txs| - 1]), true), txs[|txs| - 1]).db
  }

  function Stable(s: Sys): Db {
    After(s.origin, s.committed)
  }

  /** Something to log: a commit with neither a DeleteAll nor a redo record writes nothing. */
  predicate Dirty(wc: Wc) {
    wc.redo != map[] || wc.backup.Some?
  }

  /** The bytes of a commit that meets its redo records in this order. */
  function CommitBytes(wc: Wc, order: seq<bytes>): bytes
    requires forall k :: k in order ==> k in wc.redo
  {
    EncodeAll(CommitCmds(wc, order))
  }

  predicate Locked(s: Sys) { s.writer.None? && s.readers == map[] }

  /** Keys that a chunk starting at `pivot` and stopping before `next` copies. */
  function ChunkKeys(m: Keys, pivot: bytes, next: Option<bytes>): set<bytes> {
    set k | k in m && !LexLess(k, pivot) && (next.Some? ==> LexLess(k, next.value))
  }

  /** The writes that copy these keys. */
  function Copies(m: Keys, keys: set<bytes>): Writes {
    map k | k in keys && k in m :: Some(m[k])
  }

  /** The records of the transaction under way when the process stops. */
  function OpenWc(s: Sys): Wc {
    if s.writer.Some? then s.writer.value.wc else Begin(s.db, true).wc
  }

  /** Opening a file at `now`: load it, and cut it off after the last whole command. */
  function Reopened(file: bytes, now: Time): Sys {
    var o := LoadFile(file, now);
    var db := Build(ReplayedAt(map[], o.cmds, now), map[]);
    Sys(db, file[..o.n], None, map[], None, o.cmds, |o.cmds|, now, db, [])
  }

  ghost predicate Step(s: Sys, e: Event, s': Sys) {
    match e
    case BeginRead(r) =>
      s.writer.None? && r !in s.readers && s' == s.(readers := s.readers[r := |s.committed|])
    case EndRead(r) =>
      r in s.readers && s' == s.(readers := s.readers - {r})
    case BeginWrite =>
      Locked(s) && s' == s.(writer := Some(Writer([], Begin(s.db, true).wc)))
    case Write(op) =>
      && s.writer.Some? && SoundOp(op)
      && var t := Perform(Tx(s.db, s.writer.value.wc), op);
         s' == s.(db := t.db, writer := Some(Writer(s.writer.value.ops + [op], t.wc)))
    case Rollback =>
      && s.writer.Some?
      && s' == s.(db := RolledBack(Tx(s.db, s.writer.value.wc)), writer := None)
    case Commit(order) =>
      && s.writer.Some? && Lists(order, s.writer.value.wc.redo.Keys)
      && var w := s.writer.value;
         s' == s.(file := if Dirty(w.wc) then s.file + CommitBytes(w.wc, order) else s.file,
                  log := s.log + CommitCmds(w.wc, order), committed := s.committed + [w.ops], writer := None)
    case CommitFails(order, written) =>
      && s.writer.Some? && Lists(order, s.writer.value.wc.redo.Keys)
      && written <= |CommitBytes(s.writer.value.wc, order)|
      && var torn := s.file + CommitBytes(s.writer.value.wc, order)[..written];
         s' == s.(file := torn[..|torn| - written], db := RolledBack(Tx(s.db, s.writer.value.wc)), writer := None)
    case Crash(order, written, now) =>
      var wc := OpenWc(s);
      && Lists(order, wc.redo.Keys) && s.loadedAt <= now
      && written <= |CommitBytes(wc, order)|
      && (forall c :: c in s.log + CommitCmds(wc, order) ==> Encodable(c))
      && s' == Reopened(s.file + CommitBytes(wc, order)[..written], now)
    case ShrinkBegin =>
      Locked(s) && s.shrink.None? && s' == s.(shrink := Some(Shrinker(|s.file|, |s.log|, [], false, [], [])))
    case ShrinkChunk(order, next) =>
      && s.writer.None? && s.shrink.Some? && !s.shrink.value.done
      && var sh := s.shrink.value; var keys := ChunkKeys(s.db.keys, sh.pivot, next);
      && Lists(order, keys) && (next.Some? ==> next.value in s.db.keys && LexLess(sh.pivot, next.value))
      && var cmds := CmdsOf(order, Copies(s.db.keys, keys));
         s' == s.(shrink := Some(sh.(pivot := if next.Some? then next.value else sh.pivot, done := next.None?,
                                     tmp := sh.tmp + EncodeAll(cmds), copied := sh.copied + cmds)))
    case ShrinkSwap =>
      && Locked(s) && s.shrink.Some? && s.shrink.value.done && s.shrink.value.endpos <= |s.file|
        && s.shrink.value.at <= |s.log|
      && var sh := s.shrink.value;
         s' == s.(file := sh.tmp + s.file[sh.endpos..], shrink := None, log := sh.copied + s.log[sh.at..], mark := 0)
    case ShrinkAbort =>
      s.shrink.Some? && s' == s.(shrink := None)
  }

  // ---- The invariant ----

  /** What the commands in the file made the memory hold, the loader's skips included. */
  function Logged(s: Sys): Keys
    requires s.mark <= |s.log|
  {
    Replayed(ReplayedAt(map[], s.log[..s.mark], s.loadedAt), s.log[s.mark..])
  }

  ghost predicate LogInv(s: Sys) {
    && s.file == EncodeAll(s.log) && s.mark <= |s.log|
    && (forall i :: 0 <= i < s.mark ==> Stored(s.log[i]) == s.log[i])
    && Logged(s) == Stable(s).keys
  }

  ghost predicate WriterInv(s: Sys) {
    && Consistent(Stable(s))
    && (s.writer.None? ==> s.db == Stable(s))
    && (s.writer.Some? ==>
          && s.readers == map[] && (forall op :: op in s.writer.value.ops ==> SoundOp(op))
          && Tx(s.db, s.writer.value.wc) == Transactions.Run(Begin(Stable(s), true), s.writer.value.ops))
    && (forall r :: r in s.readers ==> s.readers[r] == |s.committed|)
  }

  predicate Scanned(sh: Shrinker, k: bytes) {
    sh.done || LexLess(k, sh.pivot)
  }

  /** A key not logged since the compaction began is in the copy as soon as it has been scanned. */
  ghost predicate CopyInv(sh: Shrinker, tail: seq<Cmd>, m: Keys) {
    forall k :: LastTouch(tail, k, All).None? ==>
      Lookup(Replayed(map[], sh.copied), k) == if Scanned(sh, k) then Lookup(m, k) else None
  }

  ghost predicate ShrinkInv(s: Sys) {
    s.shrink.Some? ==>
      var sh := s.shrink.value;
      && s.mark <= sh.at <= |s.log| && sh.endpos == |EncodeAll(s.log[..sh.at])|
      && sh.tmp == EncodeAll(sh.copied)
      && CopyInv(sh, s.log[sh.at..], Stable(s).keys)
  }

  ghost predicate Inv(s: Sys) {
    LogInv(s) && WriterInv(s) && ShrinkInv(s)
  }

  ghost predicate Initial(s: Sys) {
    s == Reopened([], s.loadedAt)
  }

  lemma InitialInv(s: Sys)
    requires Initial(s)
    ensures Inv(s)
  {
    LogRoundTrip([], s.loadedAt);
    assert StoredAll([]) == [];
    BuildIsConsistent(map[], map[]);
  }

  // ---- Writing ----

  lemma RunSnoc(t: Tx, ops: seq<Op>, op: Op)
    ensures Transactions.Run(t, ops + [op]) == Perform(Transactions.Run(t, ops), op)
  {
    assert (ops + [op])[..|ops|] == ops;
  }

  lemma WriteKeeps(s: Sys, op: Op, s': Sys)
    requires Inv(s) && Step(s, Write(op), s')
    ensures Inv(s')
  {
    RunSnoc(Begin(Stable(s), true), s.writer.value.ops, op);
  }

  lemma RolledBackIsStable(s: Sys)
    requires Inv(s) && s.writer.Some?
    ensures RolledBack(Tx(s.db, s.writer.value.wc)) == Stable(s)
  {
    RollbackIsExact(Stable(s), true, s.writer.value.ops);
  }

  lemma AfterSnoc(origin: Db, txs: seq<seq<Op>>, ops: seq<Op>)
    ensures After(origin, txs + [ops]) == Transactions.Run(Begin(After(origin, txs), true), ops).db
  {
    assert (txs + [ops])[..|txs|] == txs;
  }

  /** The memory after a commit is the old memory with the commit's commands replayed. */
  lemma CommitEffect(s: Sys, order: seq<bytes>)
    requires Inv(s) && s.writer.Some? && Lists(order, s.writer.value.wc.redo.Keys)
    ensures var w := s.writer.value;
            && Stable(s.(committed := s.committed + [w.ops])) == s.db && Consistent(s.db)
            && Replayed(Stable(s).keys, CommitCmds(w.wc, order)) == s.db.keys
            && (!Dirty(w.wc) ==> CommitCmds(w.wc, order) == [])
  {
    var w := s.writer.value;
    AfterSnoc(s.origin, s.committed, w.ops);
    RunKeeps(Stable(s), true, w.ops);
    CommitIsFaithful(Stable(s), w.ops, order);
    if !Dirty(w.wc) { assert order == []; }
  }

  lemma LogGrows(s: Sys, cmds: seq<Cmd>)
    requires s.mark <= |s.log|
    ensures Logged(s.(log := s.log + cmds)) == Replayed(Logged(s), cmds)
  {
    assert (s.log + cmds)[..s.mark] == s.log[..s.mark];
    assert (s.log + cmds)[s.mark..] == s.log[s.mark..] + cmds;
    ReplayedAppend(ReplayedAt(map[], s.log[..s.mark], s.loadedAt), s.log[s.mark..], cmds);
  }

  lemma {:induction false} LastTouchAppend(a: seq<Cmd>, b: seq<Cmd>, k: bytes, keep: Cmd -> bool)
    ensures LastTouch(a + b, k, keep) == if LastTouch(b, k, keep).Some? then LastTouch(b, k, keep)
            else LastTouch(a, k, keep)
  {
    if b == [] {
      assert a + b == a;
    } else {
      var n := |b| - 1;
      LastTouchAppend(a, b[..n], k, keep);
      assert (a + b)[..|a + b| - 1] == a + b[..n];
    }
  }

  /** Commands logged during a compaction only take keys out of its care. */
  lemma CopyInvGrows(sh: Shrinker, tail: seq<Cmd>, cmds: seq<Cmd>, m: Keys)
    requires CopyInv(sh, tail, m)
    ensures CopyInv(sh, tail + cmds, Replayed(m, cmds))
  {
    forall k | LastTouch(tail + cmds, k, All).None?
      ensures LastTouch(tail, k, All).None? && Lookup(Replayed(m, cmds), k) == Lookup(m, k)
    {
      LastTouchAppend(tail, cmds, k, All);
      ReplayedByLast(m, cmds, k);
    }
  }

  lemma CommitLogs(s: Sys, order: seq<bytes>, s': Sys)
    requires Inv(s) && Step(s, Commit(order), s')
    ensures LogInv(s')
  {
    var w := s.writer.value;
    var cmds := CommitCmds(w.wc, order);
    CommitEffect(s, order);
    EncodeAllAppend(s.log, cmds);
    assert !Dirty(w.wc) ==> s.log + cmds == s.log;
    LogGrows(s, cmds);
  }

  lemma ShrinkGrows(s: Sys, cmds: seq<Cmd>, m: Keys)
    requires ShrinkInv(s) && s.shrink.Some? && m == Replayed(Stable(s).keys, cmds)
    ensures var sh, log := s.shrink.value, s.log + cmds;
            && sh.at <= |log| && sh.endpos == |EncodeAll(log[..sh.at])| && CopyInv(sh, log[sh.at..], m)
  {
    var sh := s.shrink.value;
    CopyInvGrows(sh, s.log[sh.at..], cmds, Stable(s).keys);
    assert (s.log + cmds)[sh.at..] == s.log[sh.at..] + cmds;
    assert (s.log + cmds)[..sh.at] == s.log[..sh.at];
  }

  lemma CommitKeeps(s: Sys, order: seq<bytes>, s': Sys)
    requires Inv(s) && Step(s, Commit(order), s')
    ensures Inv(s')
  {
    CommitLogs(s, order, s');
    CommitEffect(s, order);
    assert Stable(s') == s.db;
    if s.shrink.Some? { ShrinkGrows(s, CommitCmds(s.writer.value.wc, order), s.db.keys); }
  }

  lemma CommitFailsKeeps(s: Sys, order: seq<bytes>, written: nat, s': Sys)
    requires Inv(s) && Step(s, CommitFails(order, written), s')
    ensures Inv(s')
  {
    RolledBackIsStable(s);
    assert s'.file == s.file;
  }

  // ---- Compaction ----

  lemma LexBefore(k: bytes, pivot: bytes, next: bytes)
    requires LexLess(pivot, next)
    ensures LexLess(k, next) <==> LexLess(k, pivot) || (!LexLess(k, pivot) && LexLess(k, next))
  {
    if LexLess(k, pivot) { LexTransitive(k, pivot, next); }
  }

  lemma ChunkCopies(sh: Shrinker, tail: seq<Cmd>, m: Keys, order: seq<bytes>, next: Option<bytes>)
    requires CopyInv(sh, tail, m) && !sh.done && Keyed(m)
    requires Lists(order, ChunkKeys(m, sh.pivot, next)) && (next.Some? ==> LexLess(sh.pivot, next.value))
    ensures var cmds := CmdsOf(order, Copies(m, ChunkKeys(m, sh.pivot, next)));
            CopyInv(sh.(pivot := if next.Some? then next.value
              else sh.pivot, done := next.None?, copied := sh.copied + cmds), tail, m)
  {
    var keys := ChunkKeys(m, sh.pivot, next);
    var w := Copies(m, keys);
    var cmds := CmdsOf(order, w);
    ReplayedAppend(map[], sh.copied, cmds);
    assert w.Keys == keys;
    WritesInAnyOrder(Replayed(map[], sh.copied), w, order);
    forall k | next.Some? { LexBefore(k, sh.pivot, next.value); }
  }

  lemma ChunkKeeps(s: Sys, order: seq<bytes>, next: Option<bytes>, s': Sys)
    requires Inv(s) && Step(s, ShrinkChunk(order, next), s')
    ensures Inv(s')
  {
    var sh := s.shrink.value;
    var cmds := CmdsOf(order, Copies(s.db.keys, ChunkKeys(s.db.keys, sh.pivot, next)));
    EncodeAllAppend(sh.copied, cmds);
    ChunkCopies(sh, s.log[sh.at..], s.db.keys, order, next);
  }

  /** The copied items followed by the log tail replay to the live key map. */
  lemma SwapReplays(copied: seq<Cmd>, before: Keys, tail: seq<Cmd>, sh: Shrinker)
    requires sh.copied == copied && sh.done && CopyInv(sh, tail, Replayed(before, tail))
    ensures Replayed(map[], copied + tail) == Replayed(before, tail)
  {
    ReplayedAppend(map[], copied, tail);
    var c := Replayed(map[], copied);
    forall k ensures Lookup(Replayed(c, tail), k) == Lookup(Replayed(before, tail), k) {
      ReplayedByLast(c, tail, k);
      ReplayedByLast(before, tail, k);
    }
    MapsAgree(Replayed(c, tail), Replayed(before, tail));
  }

  lemma LoggedSplit(s: Sys, at: nat)
    requires s.mark <= at <= |s.log|
    ensures Logged(s) == Replayed(Logged(s.(log := s.log[..at])), s.log[at..])
  {
    assert s.log[..at] + s.log[at..] == s.log;
    LogGrows(s.(log := s.log[..at]), s.log[at..]);
  }

  lemma SwapFile(s: Sys)
    requires LogInv(s) && ShrinkInv(s) && s.shrink.Some?
    ensures var sh := s.shrink.value;
            sh.endpos <= |s.file| && sh.tmp + s.file[sh.endpos..] == EncodeAll(sh.copied + s.log[sh.at..])
  {
    var sh := s.shrink.value;
    var tail := s.log[sh.at..];
    assert s.log == s.log[..sh.at] + tail;
    EncodeAllAppend(s.log[..sh.at], tail);
    EncodeAllAppend(sh.copied, tail);
  }

  lemma SwapLogged(s: Sys)
    requires LogInv(s) && ShrinkInv(s) && s.shrink.Some? && s.shrink.value.done
    ensures Replayed(map[], s.shrink.value.copied + s.log[s.shrink.value.at..]) == Stable(s).keys
  {
    var sh := s.shrink.value;
    LoggedSplit(s, sh.at);
    SwapReplays(sh.copied, Logged(s.(log := s.log[..sh.at])), s.log[sh.at..], sh);
  }

  lemma SwapKeeps(s: Sys, s': Sys)
    requires Inv(s) && Step(s, ShrinkSwap, s')
    ensures Inv(s')
  {
    SwapFile(s);
    SwapLogged(s);
    assert Stable(s') == Stable(s);
    assert s'.log[..0] == [] && s'.log[0..] == s'.log;
  }

  // ---- Crash and reopening ----

  lemma StoredTwice(c: Cmd)
    ensures Stored(Stored(c)) == Stored(c) && Encode(Stored(c)) == Encode(c) && (Encodable(c) ==> Encodable(Stored(c)))
  {
    assert forall t: int :: (t / SECOND * SECOND) / SECOND == t / SECOND;
    assert Words(Stored(c)) == Words(c);
  }

  lemma {:induction false} FlatMapStored(f: Cmd -> bytes, cmds: seq<Cmd>)
    requires forall c :: f(Stored(c)) == f(c)
    ensures FlatMap(f, StoredAll(cmds)) == FlatMap(f, cmds)
  {
    if cmds != [] {
      FlatMapStored(f, cmds[1..]);
      assert StoredAll(cmds)[1..] == StoredAll(cmds[1..]);
    }
  }

  lemma EncodeStored(cmds: seq<Cmd>)
    ensures EncodeAll(StoredAll(cmds)) == EncodeAll(cmds)
  {
    forall c ensures Encode(Stored(c)) == Encode(c) { StoredTwice(c); }
    FlatMapStored(Encode, cmds);
  }

  lemma {:induction false} ReplayedAtKeyed(cmds: seq<Cmd>, now: Time)
    ensures Keyed(ReplayedAt(map[], cmds, now))
  {
    if cmds != [] { ReplayedAtKeyed(cmds[..|cmds| - 1], now); }
  }

  /** Opening the log of whole commands, with part of another commit behind it. */
  lemma LoadsPrefix(log: seq<Cmd>, cmds: seq<Cmd>, written: nat, now: Time, file: bytes) returns (k: nat)
    requires written <= |EncodeAll(cmds)| && forall c :: c in log + cmds ==> Encodable(c)
    requires file == EncodeAll(log) + EncodeAll(cmds)[..written]
    ensures k <= |cmds| && LoadFile(file, now).cmds == StoredAll(log + cmds[..k])
    ensures file[..LoadFile(file, now).n] == EncodeAll(log + cmds[..k])
  {
    k := PrefixFits(Encode, log, cmds, written);
    var all, cut := log + cmds, |EncodeAll(log)| + written;
    assert file == EncodeAll(all)[..cut];
    TornWriteRecovery(all, cut, now);
    var o := LoadFile(file, now);
    assert o.n == |EncodeAll(all[..|log| + k])|;
  }

  lemma PrefixFits<T>(f: T -> bytes, a: seq<T>, b: seq<T>, written: nat) returns (k: nat)
    requires written <= |FlatMap(f, b)|
    ensures var file := FlatMap(f, a) + FlatMap(f, b)[..written];
            var cut := |FlatMap(f, a)| + written;
            && cut <= |FlatMap(f, a + b)| && file == FlatMap(f, a + b)[..cut]
            && k <= |b| && |a| + k == Fit(f, a + b, cut) && (a + b)[..|a| + k] == a + b[..k]
            && |FlatMap(f, a + b[..k])| <= cut && file[..|FlatMap(f, a + b[..k])|] == FlatMap(f, a + b[..k])
  {
    var all := a + b;
    FlatMapAppend(f, a, b);
    var cut := |FlatMap(f, a)| + written;
    FitAtLeast(f, a, b, cut);
    k := Fit(f, all, cut) - |a|;
    FitSplits(f, all, cut);
    assert all[..|a| + k] == a + b[..k];
  }

  lemma ReopenedInv(cmds: seq<Cmd>, file: bytes, now: Time)
    requires LoadFile(file, now).cmds == StoredAll(cmds) && file[..LoadFile(file, now).n] == EncodeAll(cmds)
    ensures Inv(Reopened(file, now))
  {
    var s := Reopened(file, now);
    EncodeStored(cmds);
    ReplayedAtKeyed(s.log, now);
    BuildIsConsistent(s.db.keys, map[]);
    assert s.log[..|s.log|] == s.log && s.log[|s.log|..] == [];
    forall i | 0 <= i < |s.log| ensures Stored(s.log[i]) == s.log[i] { StoredTwice(cmds[i]); }
  }

  /** A crash keeps the whole log and some leading commands of the commit under way. */
  lemma CrashKeepsPrefix(s: Sys, order: seq<bytes>, written: nat, now: Time, s': Sys) returns (k: nat)
    requires Inv(s) && Step(s, Crash(order, written, now), s')
    ensures var cmds := CommitCmds(OpenWc(s), order);
            k <= |cmds| && s'.log == StoredAll(s.log + cmds[..k]) && Inv(s')
  {
    var cmds := CommitCmds(OpenWc(s), order);
    var file := s.file + CommitBytes(OpenWc(s), order)[..written];
    k := LoadsPrefix(s.log, cmds, written, now, file);
    ReopenedInv(s.log + cmds[..k], file, now);
  }

  lemma {:induction false} FitAtLeast<T>(f: T -> bytes, a: seq<T>, b: seq<T>, cut: nat)
    requires |FlatMap(f, a)| <= cut
    ensures Fit(f, a + b, cut) >= |a|
    decreases |a|
  {
    if a != [] {
      FitAtLeast(f, a[1..], b, cut - |f(a[0])|);
      assert (a + b)[1..] == a[1..] + b;
    }
  }

  // ---- Every run ----

  lemma StepKeeps(s: Sys, e: Event, s': Sys)
    requires Inv(s) && Step(s, e, s')
    ensures Inv(s')
  {
    match e
    case BeginRead(r) =>
    case EndRead(r) =>
    case BeginWrite =>
    case Write(op) => WriteKeeps(s, op, s');
    case Rollback => RolledBackIsStable(s);
    case Commit(order) => CommitKeeps(s, order, s');
    case CommitFails(order, written) => CommitFailsKeeps(s, order, written, s');
    case Crash(order, written, now) =>
      var _ := CrashKeepsPrefix(s, order, written, now, s');
    case ShrinkBegin =>
      assert s.log[..|s.log|] == s.log && s.log[|s.log|..] == [];
      assert forall k :: !LexLess(k, []);
    case ShrinkChunk(order, next) => ChunkKeeps(s, order, next, s');
    case ShrinkSwap => SwapKeeps(s, s');
    case ShrinkAbort =>
  }

  /** A run from an empty database. */
  ghost predicate Behavior(states: seq<Sys>, events: seq<Event>) {
    && |states| == |events| + 1 && Initial(states[0])
    && forall i :: 0 <= i < |events| ==> Step(states[i], events[i], states[i + 1])
  }

  lemma {:induction false} InvOnEveryRun(states: seq<Sys>, events: seq<Event>, i: nat)
    requires Behavior(states, events) && i < |states|
    ensures Inv(states[i])
  {
    if i == 0 {
      InitialInv(states[0]);
    } else {
      InvOnEveryRun(states, events, i - 1);
      StepKeeps(states[i - 1], events[i - 1], states[i]);
    }
  }

  // ---- The log refines memory ----

  /** An item whose deadline has come. */
  predicate Due(i: Option<Item>, now: Time) {
    i.Some? && i.value.deadline.Some? && i.value.deadline.value <= now
  }

  /** A load at `now` finds what the log made of memory, exactly when none of it has expired. */
  lemma LoadAgain(s: Sys, now: Time)
    requires LogInv(s) && s.loadedAt <= now
    ensures ReplayedAt(map[], StoredAll(s.log), now) == Disk(Stable(s).keys)
            <==> Shown(Disk(Stable(s).keys), now) == Disk(Stable(s).keys)
  {
    var at := ReplayedAt(map[], StoredAll(s.log), now);
    var mem := Disk(Stable(s).keys);
    forall k ensures Due(Lookup(mem, k), now) || Lookup(at, k) == Lookup(mem, k)
             ensures !Due(Lookup(at, k), now)
    {
      LoadAgainAt(s, now, k);
    }
    if Shown(mem, now) == mem {
      forall k ensures Lookup(at, k) == Lookup(mem, k) {
        assert Lookup(Shown(mem, now), k) == Lookup(mem, k);
      }
      MapsAgree(at, mem);
    } else {
      assert exists k :: k in mem && k !in Shown(mem, now);
      var k :| k in mem && k !in Shown(mem, now);
      assert Due(Lookup(mem, k), now) && Lookup(at, k) != Lookup(mem, k);
    }
  }

  lemma LoadAgainAt(s: Sys, now: Time, k: bytes)
    requires LogInv(s) && s.loadedAt <= now
    ensures var i := Lookup(Disk(Stable(s).keys), k);
            Due(i, now) || Lookup(ReplayedAt(map[], StoredAll(s.log), now), k) == i
    ensures !Due(Lookup(ReplayedAt(map[], StoredAll(s.log), now), k), now)
  {
    var log := StoredAll(s.log);
    var early, late := log[..s.mark], log[s.mark..];
    var first := ReplayedAt(map[], s.log[..s.mark], s.loadedAt);
    assert log == early + late && early == s.log[..s.mark] && late == StoredAll(s.log[s.mark..]);
    LastTouchAppend(early, late, k, Live(now));
    ReplayedAtByLast(map[], log, k, now);
    LastTouchSurvives(log, k, now);
    LastTouchSurvives(late, k, now);
    FirstOnDisk(s.log[..s.mark], s.loadedAt);
    ReplayedStored(first, s.log[s.mark..]);
    ReplayedByLast(first, late, k);
    ReplayedAtByLast(map[], early, k, s.loadedAt);
    LaterSkipsMore(early, k, s.loadedAt, now);
  }

  lemma FirstOnDisk(log: seq<Cmd>, at: Time)
    requires forall i :: 0 <= i < |log| ==> Stored(log[i]) == log[i]
    ensures Disk(ReplayedAt(map[], log, at)) == ReplayedAt(map[], log, at)
  {
    if log != [] {
      FirstOnDisk(log[..|log| - 1], at);
      StoredTwice(log[|log| - 1]);
    }
  }

  /** What an earlier load kept last is what a later load keeps last, unless it expired in between. */
  lemma {:induction false} LaterSkipsMore(log: seq<Cmd>, k: bytes, t0: Time, t1: Time)
    requires t0 <= t1
    ensures var a := LastTouch(log, k, Live(t0));
            (a.Some? && Expired(a.value, t1)) || LastTouch(log, k, Live(t1)) == a
  {
    if log != [] { LaterSkipsMore(log[..|log| - 1], k, t0, t1); }
  }

  /**
   * On every run, at every state, loading the file succeeds, reads all of it, and rebuilds (to the
   * whole second) the key map of the committed transactions, exactly when none of it has expired.
   * With no write transaction open that key map is the memory's.
   */
  lemma LogRefinesMemory(states: seq<Sys>, events: seq<Event>, i: nat, now: Time)
    requires Behavior(states, events) && i < |states| && states[i].loadedAt <= now
    requires forall c :: c in states[i].log ==> Encodable(c)
    ensures var s := states[i];
            var o := LoadFile(s.file, now);
            && o.status == Ok && o.n == |s.file|
            && (ReplayedAt(map[], o.cmds, now) == Disk(Stable(s).keys)
                <==> Shown(Disk(Stable(s).keys), now) == Disk(Stable(s).keys))
            && (s.writer.None? ==> Stable(s).keys == s.db.keys)
  {
    InvOnEveryRun(states, events, i);
    LogRoundTrip(states[i].log, now);
    LoadAgain(states[i], now);
  }

  /** Memory's item for k has come due, and the last command on k that a load would still apply sets a value. */
  predicate Resurfaces(s: Sys, k: bytes, now: Time) {
    var l := LastTouch(StoredAll(s.log), k, Live(now));
    Due(Lookup(Disk(Stable(s).keys), k), now) && l.Some? && l.value.Set?
  }

  /**
   * On every run, at every state, key by key: a load at `now` shows what is visible in the committed state if and only
   * if no older value resurfaces.
   */
  lemma ReloadShowsUnlessResurfaces(states: seq<Sys>, events: seq<Event>, i: nat, now: Time, k: bytes)
    requires Behavior(states, events) && i < |states| && states[i].loadedAt <= now
    requires forall c :: c in states[i].log ==> Encodable(c)
    ensures var s := states[i];
            Lookup(ReplayedAt(map[], LoadFile(s.file, now).cmds, now), k) == Lookup(Shown(Disk(Stable(s).keys), now), k)
            <==> !Resurfaces(s, k, now)
  {
    InvOnEveryRun(states, events, i);
    LogRoundTrip(states[i].log, now);
    ResurfacesAt(states[i], now, k);
  }

  lemma ResurfacesAt(s: Sys, now: Time, k: bytes)
    requires LogInv(s) && s.loadedAt <= now
    ensures Lookup(ReplayedAt(map[], StoredAll(s.log), now), k) == Lookup(Shown(Disk(Stable(s).keys), now), k)
            <==> !Resurfaces(s, k, now)
  {
    LoadAgainAt(s, now, k);
    ReplayedAtByLast(map[], StoredAll(s.log), k, now);
  }

  /** On every run the trees agree with the key map, inside write transactions too. */
  lemma TreesAgreeOnEveryRun(states: seq<Sys>, events: seq<Event>, i: nat)
    requires Behavior(states, events) && i < |states|
    ensures Consistent(states[i].db)
  {
    InvOnEveryRun(states, events, i);
    var s := states[i];
    if s.writer.Some? { RunKeeps(Stable(s), true, s.writer.value.ops); }
  }

  /**
   * Online compaction is exact: at the swap, the copied items followed by the log bytes from endpos
   * on hold exactly the live key map, and the swap leaves memory alone.
   */
  lemma CompactionIsExact(states: seq<Sys>, events: seq<Event>, i: nat)
    requires Behavior(states, events) && i < |events| && events[i].ShrinkSwap?
    ensures var s, s' := states[i], states[i + 1];
            && s'.db == s.db
            && s'.file == EncodeAll(s.shrink.value.copied) + s.file[s.shrink.value.endpos..] == EncodeAll(s'.log)
            && Replayed(map[], s'.log) == s.db.keys
  {
    InvOnEveryRun(states, events, i);
    InvOnEveryRun(states, events, i + 1);
    var s' := states[i + 1];
    assert Step(states[i], events[i], s');
    assert s'.log[..0] == [] && s'.log[0..] == s'.log;
  }

  /**
   * Serial view: while a reader is open no writer is, and memory is the fixed state made by the
   * transactions committed before it began, in the order they took the lock.
   */
  lemma ReadersSeeOneCommittedState(states: seq<Sys>, events: seq<Event>, i: nat, r: nat)
    requires Behavior(states, events) && i < |states| && r in states[i].readers
    ensures var s := states[i];
            && s.writer.None? && s.readers[r] <= |s.committed|
            && s.db == After(s.origin, s.committed[..s.readers[r]])
  {
    InvOnEveryRun(states, events, i);
    var s := states[i];
    assert s.committed[..|s.committed|] == s.committed;
  }

  /** Between the steps of a reader, memory does not change at all. */
  lemma NothingChangesUnderAReader(states: seq<Sys>, events: seq<Event>, i: nat, r: nat)
    requires Behavior(states, events) && i < |events| && r in states[i].readers && r in states[i + 1].readers
    ensures states[i + 1].db == states[i].db && states[i + 1].readers[r] == states[i].readers[r]
  {
    InvOnEveryRun(states, events, i);
    assert Step(states[i], events[i], states[i + 1]);
  }

  // ---- What single steps do ----

  /** A write changes the key map at once, for the transaction that makes it. */
  lemma WriteIs(states: seq<Sys>, events: seq<Event>, i: nat)
    requires Behavior(states, events) && i < |events| && events[i].Write?
    ensures states[i + 1].db.keys == KeysAfter(states[i].db.keys, events[i].op)
            && Stable(states[i + 1]) == Stable(states[i])
  {
    var s := states[i];
    TreesAgreeOnEveryRun(states, events, i);
    assert Step(s, events[i], states[i + 1]);
    PerformIs(Tx(s.db, s.writer.value.wc), events[i].op);
  }

  /**
   * A commit keeps what its writer saw: in memory, among the committed transactions, and, unless something in it has
   * expired, for whoever loads the file. The file only grows.
   */
  lemma CommitIsDurable(states: seq<Sys>, events: seq<Event>, i: nat, now: Time)
    requires Behavior(states, events) && i < |events| && events[i].Commit? && states[i + 1].loadedAt <= now
    requires forall c :: c in states[i + 1].log ==> Encodable(c)
    ensures var s, s' := states[i], states[i + 1];
            && s.writer.Some? && s'.writer.None? && s'.db == Stable(s') == s.db && s.file <= s'.file
            && s'.committed == s.committed + [s.writer.value.ops]
            && (Shown(Disk(s.db.keys), now) == Disk(s.db.keys) ==>
                  ReplayedAt(map[], LoadFile(s'.file, now).cmds, now) == Disk(s.db.keys))
  {
    assert Step(states[i], events[i], states[i + 1]);
    InvOnEveryRun(states, events, i);
    InvOnEveryRun(states, events, i + 1);
    CommitEffect(states[i], events[i].order);
    LogRefinesMemory(states, events, i + 1, now);
  }

  /** Committed transactions stay committed until the process stops. */
  lemma {:induction false} CommittedStays(states: seq<Sys>, events: seq<Event>, i: nat, j: nat)
    requires Behavior(states, events) && i <= j < |states| && forall k :: i <= k < j ==> !events[k].Crash?
    ensures states[i].committed <= states[j].committed && states[j].origin == states[i].origin
    decreases j - i
  {
    if i < j {
      CommittedStays(states, events, i, j - 1);
      assert Step(states[j - 1], events[j - 1], states[j]);
    }
  }

  /** A rollback, and a commit whose write fails, leave memory and file as before the transaction. */
  lemma RollbackDiscards(states: seq<Sys>, events: seq<Event>, i: nat)
    requires Behavior(states, events) && i < |events| && (events[i].Rollback? || events[i].CommitFails?)
    ensures var s, s' := states[i], states[i + 1];
            && s'.writer.None? && s'.db == Stable(s) && s'.file == s.file && s'.committed == s.committed
  {
    assert Step(states[i], events[i], states[i + 1]);
    InvOnEveryRun(states, events, i);
    RolledBackIsStable(states[i]);
  }

  // ---- Whole transactions ----

  /** From its beginning to its end a reader is open and sees the same memory, whatever else happens. */
  lemma {:induction false} ReaderSnapshot(states: seq<Sys>, events: seq<Event>, i: nat, j: nat, r: nat)
    requires Behavior(states, events) && i < j < |states| && events[i] == BeginRead(r)
    requires forall k :: i < k < j ==> events[k] != EndRead(r) && !events[k].Crash?
    ensures r in states[j].readers && states[j].db == states[i].db && states[j].writer.None?
    decreases j - i
  {
    assert Step(states[j - 1], events[j - 1], states[j]);
    if j - 1 > i {
      ReaderSnapshot(states, events, i, j - 1, r);
      NothingChangesUnderAReader(states, events, j - 1, r);
    }
    ReadersSeeOneCommittedState(states, events, j, r);
  }

  /** The operations written by the events from i on, before j. */
  function Written(events: seq<Event>, i: nat, j: nat): seq<Op>
    requires i <= j <= |events|
  {
    if i == j then []
    else Written(events, i, j - 1) + if events[j - 1].Write? then [events[j - 1].op] else []
  }

  predicate Ends(e: Event) { e.Rollback? || e.Commit? || e.CommitFails? || e.Crash? }

  /** A write transaction that began on `base` and has performed these operations is the only one open. */
  ghost predicate Alone(s: Sys, ops: seq<Op>, base: Db) {
    s.writer.Some? && s.writer.value.ops == ops && s.readers == map[] && Stable(s) == base
  }

  /** Until it ends, a write transaction is alone, and memory is what its operations have made of that at its start. */
  lemma {:induction false} WriterAlone(states: seq<Sys>, events: seq<Event>, i: nat, j: nat)
    requires Behavior(states, events) && i < j < |states| && events[i] == BeginWrite
    requires forall k :: i < k < j ==> !Ends(events[k])
    ensures Alone(states[j], Written(events, i + 1, j), states[i].db)
    decreases j - i
  {
    var n := j - 1;
    if n > i {
      WriterAlone(states, events, i, n);
      WriterGoesOnAt(states, events, n, Written(events, i + 1, n), states[i].db);
      assert Written(events, i + 1, j) == Written(events, i + 1, n) + if events[n].Write? then [events[n].op] else [];
    } else {
      WriterBeginsAt(states, events, i);
      assert Written(events, i + 1, j) == [];
    }
  }

  lemma InvAndStep(states: seq<Sys>, events: seq<Event>, n: nat)
    requires Behavior(states, events) && n < |events|
    ensures Inv(states[n]) && Step(states[n], events[n], states[n + 1])
  {
    InvOnEveryRun(states, events, n);
  }

  lemma WriterBeginsAt(states: seq<Sys>, events: seq<Event>, n: nat)
    requires Behavior(states, events) && n < |events| && events[n] == BeginWrite
    ensures Alone(states[n + 1], [], states[n].db)
  {
    InvAndStep(states, events, n);
    WriterBegins(states[n], states[n + 1]);
  }

  lemma WriterGoesOnAt(states: seq<Sys>, events: seq<Event>, n: nat, ops: seq<Op>, base: Db)
    requires Behavior(states, events) && n < |events| && Alone(states[n], ops, base) && !Ends(events[n])
    ensures Alone(states[n + 1], ops + (if events[n].Write? then [events[n].op] else []), base)
  {
    InvAndStep(states, events, n);
    WriterGoesOn(states[n], events[n], states[n + 1], ops, base);
  }

  lemma WriterBegins(s: Sys, s': Sys)
    requires Inv(s) && Step(s, BeginWrite, s')
    ensures Alone(s', [], s.db)
  {
  }

  lemma WriterGoesOn(s: Sys, e: Event, s': Sys, ops: seq<Op>, base: Db)
    requires Inv(s) && Alone(s, ops, base) && !Ends(e) && Step(s, e, s')
    ensures Alone(s', ops + (if e.Write? then [e.op] else []), base)
  {
  }

  /**
   * A write transaction as its callers see it: after a commit memory holds what its operations make of the key map at
   * its start, in order and all of them; after a rollback or a failed commit it is as at the start.
   */
  lemma TransactionIs(states: seq<Sys>, events: seq<Event>, i: nat, j: nat)
    requires Behavior(states, events) && i < j < |events| && events[i] == BeginWrite && Ends(events[j])
    requires !events[j].Crash? && forall k :: i < k < j ==> !Ends(events[k])
    ensures if events[j].Commit?
            then states[j + 1].db.keys == KeysAfterAll(states[i].db.keys, Written(events, i + 1, j))
            else states[j + 1].db == states[i].db
  {
    WriterAlone(states, events, i, j);
    InvOnEveryRun(states, events, j);
    assert Step(states[j], events[j], states[j + 1]);
    if events[j].Commit? {
      RunIs(Stable(states[j]), true, states[j].writer.value.ops);
    } else {
      RollbackDiscards(states, events, j);
    }
  }

  lemma {:induction false} SomeListing(keys: set<bytes>) returns (order: seq<bytes>)
    ensures Lists(order, keys) && |order| == |keys|
    decreases |keys|
  {
    if keys == {} {
      order := [];
    } else {
      var k :| k in keys;
      var rest := SomeListing(keys - {k});
      order := rest + [k];
    }
  }

  /** Undisturbed, a compaction completes, and the log then has one command for each key and no more. */
  lemma CompactionCompletes(s: Sys) returns (order: seq<bytes>, s1: Sys, s2: Sys, s3: Sys)
    requires Inv(s) && Locked(s) && s.shrink.None?
    ensures Step(s, ShrinkBegin, s1) && Step(s1, ShrinkChunk(order, None), s2) && Step(s2, ShrinkSwap, s3)
    ensures |s3.log| == |s.db.keys| && Replayed(map[], s3.log) == s3.db.keys == s.db.keys
    ensures s3.file == EncodeAll(s3.log)
  {
    order := SomeListing(s.db.keys.Keys);
    var cmds;
    s1 := s.(shrink := Some(Shrinker(|s.file|, |s.log|, [], false, [], [])));
    StepKeeps(s, ShrinkBegin, s1);
    s2, cmds := CopiesAll(s1, order);
    StepKeeps(s1, ShrinkChunk(order, None), s2);
    s3 := SwapsAll(s2, cmds);
  }

  lemma CopiesAll(s: Sys, order: seq<bytes>) returns (s': Sys, cmds: seq<Cmd>)
    requires s.writer.None? && s.shrink == Some(Shrinker(|s.file|, |s.log|, [], false, [], []))
    requires Lists(order, s.db.keys.Keys) && |order| == |s.db.keys|
    ensures Step(s, ShrinkChunk(order, None), s') && |cmds| == |s.db.keys|
    ensures s' == s.(shrink := Some(Shrinker(|s.file|, |s.log|, [], true, EncodeAll(cmds), cmds)))
  {
    var keys := ChunkKeys(s.db.keys, [], None);
    assert keys == s.db.keys.Keys;
    cmds := CmdsOf(order, Copies(s.db.keys, keys));
    assert [] + EncodeAll(cmds) == EncodeAll(cmds) && [] + cmds == cmds;
    s' := s.(shrink := Some(Shrinker(|s.file|, |s.log|, [], true, EncodeAll(cmds), cmds)));
  }

  lemma SwapsAll(s: Sys, cmds: seq<Cmd>) returns (s': Sys)
    requires Inv(s) && Locked(s) && s.shrink == Some(Shrinker(|s.file|, |s.log|, [], true, EncodeAll(cmds), cmds))
    ensures Step(s, ShrinkSwap, s') && s'.log == cmds && s'.file == EncodeAll(cmds)
    ensures Replayed(map[], cmds) == s'.db.keys == s.db.keys
  {
    s' := s.(file := EncodeAll(cmds) + s.file[|s.file|..], shrink := None, log := cmds + s.log[|s.log|..], mark := 0);
    assert EncodeAll(cmds) + s.file[|s.file|..] == EncodeAll(cmds) && cmds + s.log[|s.log|..] == cmds;
    StepKeeps(s, ShrinkSwap, s');
    assert cmds[..0] == [] && cmds[0..] == cmds;
  }
}
