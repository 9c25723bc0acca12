/** The teardown of a context: graceful and ungraceful cancels and the done goroutine, in any interleaving. */
module Teardown {
  import opened Common

  datatype Status = NeverStarted | TearingDown | TearedDown | WithErrors | WithCancellation

  predicate Terminal(x: Status) {
    x == TearedDown || x == WithErrors || x == WithCancellation
  }

  /** What a thread does next. G: a graceful cancel; U: an ungraceful cancel; D: the done goroutine. */
  datatype Thread =
    | GCheckDone | GSwapStatus | GListTasks | GNextTask(i: nat, err: bool) | GInTask(i: nat, err: bool)
    | GClearTasks(final: Status) | GSetStatus(final: Status) | GSwapDone | GCancel | GFinished
    | USwapDone | UReadStatus | USetStatus | UCancel | UFinished
    | DWait | DSetDone | DReadStatus | DSetStatus | DFinished

  /** The context's fields and, below them, what has happened so far. */
  datatype State = State(
    done: bool, status: Status, cancelled: bool, tasks: seq<nat>, threads: seq<Thread>,
    listed: seq<nat>, started: seq<nat>, failures: nat, cancels: nat, owner: Option<nat>, winner: Option<nat>)

  /** A task returns with or without error when its thread moves. */
  datatype Event = CallGraceful | CallUngraceful | Register(task: nat) | ParentCancels | Move(t: nat, ok: bool)

  function Init(spawn: bool): State {
    State(false, NeverStarted, false, [], if spawn then [DWait] else [], [], [], 0, 0, None, None)
  }

  function Step(s: State, e: Event): State {
    match e
    case CallGraceful => s.(threads := s.threads + [GCheckDone])
    case CallUngraceful => s.(threads := s.threads + [USwapDone])
    case Register(task) => s.(tasks := s.tasks + [task])
    case ParentCancels => s.(cancelled := true)
    case Move(t, ok) => if t < |s.threads| then Moves(s, t, ok) else s
  }

  /** Where a thread at x goes. */
  function Next(s: State, x: Thread, ok: bool): Thread {
    match x
    case GCheckDone => if s.done then GFinished else GSwapStatus
    case GSwapStatus => if s.status == NeverStarted then GListTasks else GFinished
    case GListTasks => GNextTask(0, false)
    case GNextTask(i, err) =>
      if i >= |s.listed| then GClearTasks(if err then WithErrors else TearedDown)
      else if s.cancelled then GClearTasks(WithCancellation)
      else GInTask(i, err)
    case GInTask(i, err) => GNextTask(i + 1, err || !ok)
    case GClearTasks(final) => GSetStatus(final)
    case GSetStatus(_) => GSwapDone
    case GSwapDone => if s.done then GFinished else GCancel
    case GCancel => GFinished
    case USwapDone => if s.done then UFinished else UReadStatus
    case UReadStatus => if s.status == TearingDown then USetStatus else UCancel
    case USetStatus => UCancel
    case UCancel => UFinished
    case DWait => if s.cancelled then DSetDone else DWait
    case DSetDone => DReadStatus
    case DReadStatus => if s.status == TearingDown then DSetStatus else DFinished
    case DSetStatus => DFinished
    case _ => x
  }

  /** What thread t writes on the way; the two swaps are atomic. */
  function Writes(s: State, x: Thread, t: nat, ok: bool): State {
    match x
    case GSwapStatus => if s.status == NeverStarted then s.(status := TearingDown, owner := Some(t)) else s
    case GListTasks => s.(listed := s.tasks)
    case GNextTask(i, err) => if i < |s.listed| && !s.cancelled then s.(started := s.started + [s.listed[i]]) else s
    case GInTask(i, err) => s.(failures := if ok then s.failures else s.failures + 1)
    case GClearTasks(_) => s.(tasks := [])
    case GSetStatus(final) => s.(status := final)
    case GSwapDone => if s.done then s else s.(done := true, winner := Some(t))
    case GCancel => s.(cancelled := true, cancels := s.cancels + 1)
    case USwapDone => if s.done then s else s.(done := true, winner := Some(t))
    case USetStatus => s.(status := WithCancellation)
    case UCancel => s.(cancelled := true, cancels := s.cancels + 1)
    case DSetDone => s.(done := true)
    case DSetStatus => s.(status := WithCancellation)
    case _ => s
  }

  function Moves(s: State, t: nat, ok: bool): State
    requires t < |s.threads|
  {
    To(Writes(s, s.threads[t], t, ok), t, Next(s, s.threads[t], ok))
  }

  function To(s: State, t: nat, next: Thread): State
  {
    if t < |s.threads| then s.(threads := s.threads[t := next]) else s
  }

  function Run(s: State, es: seq<Event>): State
    decreases |es|
  {
    if es == [] then s else Run(Step(s, es[0]), es[1..])
  }

  // ---- The invariant ----

  /** Between taking the status and giving the final one. */
  predicate Tearing(x: Thread) {
    x.GListTasks? || x.GNextTask? || x.GInTask? || x.GClearTasks? || x.GSetStatus?
  }

  /** Between taking the done flag and calling cancel. */
  predicate Cancelling(x: Thread) {
    x.GCancel? || x.UReadStatus? || x.USetStatus? || x.UCancel?
  }

  /** May store the cancellation status: seen only when the teardown had begun. */
  predicate Marking(x: Thread) { x.USetStatus? || x.DSetStatus? }

  predicate Prefix(s: State) { |s.started| <= |s.listed| && s.started == s.listed[..|s.started|] }

  predicate AllRan(s: State) { s.started == s.listed && s.failures == 0 }

  /** A final status without cancellation tells whether a task failed, all having run. */
  predicate Tells(s: State, final: Status) {
    (final == TearedDown ==> AllRan(s)) && (final == WithErrors ==> s.started == s.listed && s.failures > 0)
  }

  /** How far the thread that tears down has come. */
  predicate Progress(s: State, x: Thread) {
    match x
    case GListTasks => s.started == [] && s.listed == [] && s.failures == 0
    case GNextTask(i, err) => i == |s.started| && err == (s.failures > 0)
    case GInTask(i, err) => i + 1 == |s.started| && err == (s.failures > 0)
    case GClearTasks(final) => Terminal(final) && Tells(s, final)
    case GSetStatus(final) => Terminal(final) && Tells(s, final)
    case _ => Terminal(s.status)
  }

  ghost predicate OneTears(s: State) {
    && (forall t :: 0 <= t < |s.threads| && Tearing(s.threads[t]) ==> s.owner == Some(t))
    && (s.owner.None? <==> s.status == NeverStarted)
    && (s.owner.None? ==> s.started == [] && s.listed == [] && s.failures == 0)
    && (s.owner.Some? ==> s.owner.value < |s.threads| && Progress(s, s.threads[s.owner.value]))
    && (forall t :: 0 <= t < |s.threads| && Marking(s.threads[t]) ==> s.owner.Some?)
    && Prefix(s) && Tells(s, s.status)
    && (s.status == TearedDown || s.status == WithErrors ==> !Tearing(s.threads[s.owner.value]))
  }

  ghost predicate OneCancels(s: State) {
    && (forall t :: 0 <= t < |s.threads| && Cancelling(s.threads[t]) ==> s.winner == Some(t))
    && (s.winner.Some? ==> s.done && s.winner.value < |s.threads|)
    && s.cancels == if s.winner.Some? && !Cancelling(s.threads[s.winner.value]) then 1 else 0
  }

  /** The record of the teardown is the same. */
  predicate SameRecord(s: State, s': State) {
    s'.status == s.status && s'.listed == s.listed && s'.started == s.started && s'.failures == s.failures
      && s'.owner == s.owner
  }

  /** A thread outside the teardown moves. */
  lemma OutsideMove(s: State, s': State, t: nat, next: Thread)
    requires OneTears(s) && t < |s.threads| && SameRecord(s, s') && s'.threads == s.threads[t := next]
    requires !Tearing(s.threads[t]) && !Tearing(next) && (Marking(next) ==> s.owner.Some?)
    ensures OneTears(s')
  {
  }

  /** The teardown ends as cancelled: the store is terminal whatever the status was. */
  lemma MarkMove(s: State, t: nat, next: Thread)
    requires OneTears(s) && t < |s.threads| && Marking(s.threads[t]) && !Tearing(next) && !Marking(next)
    ensures OneTears(To(s, t, next).(status := WithCancellation))
  {
  }

  lemma TakesStatus(s: State, t: nat)
    requires OneTears(s) && t < |s.threads| && s.threads[t].GSwapStatus? && s.status == NeverStarted
    ensures OneTears(To(s, t, GListTasks).(status := TearingDown, owner := Some(t)))
  {
  }

  /** The thread that tears down moves on within the teardown. */
  lemma InsideMove(s: State, s': State, t: nat, next: Thread)
    requires OneTears(s) && t < |s.threads| && Tearing(s.threads[t]) && s'.threads == s.threads[t := next]
    requires s'.status == s.status && s'.owner == s.owner && Tearing(next) && Progress(s', next) && Prefix(s')
    ensures OneTears(s')
  {
  }

  lemma GivesStatus(s: State, t: nat)
    requires OneTears(s) && t < |s.threads| && s.threads[t].GSetStatus?
    ensures OneTears(To(s, t, GSwapDone).(status := s.threads[t].final))
  {
  }

  lemma TearsMove(s: State, t: nat, ok: bool)
    requires OneTears(s) && t < |s.threads|
    ensures OneTears(Moves(s, t, ok))
  {
    match s.threads[t]
    case GSwapStatus => SwapMove(s, t, ok);
    case GListTasks => StageMove(s, t, ok);
    case GNextTask(_, _) => TaskMove(s, t);
    case GInTask(_, _) => StageMove(s, t, ok);
    case GClearTasks(_) => StageMove(s, t, ok);
    case GSetStatus(_) => SetMove(s, t, ok);
    case USetStatus => SetMove(s, t, ok);
    case DSetStatus => SetMove(s, t, ok);
    case _ => OtherMove(s, t, ok);
  }

  lemma SwapMove(s: State, t: nat, ok: bool)
    requires OneTears(s) && t < |s.threads| && s.threads[t].GSwapStatus?
    ensures OneTears(Moves(s, t, ok))
  {
    if s.status == NeverStarted {
      TakesStatus(s, t);
    } else {
      OutsideMove(s, Moves(s, t, ok), t, GFinished);
    }
  }

  lemma SetMove(s: State, t: nat, ok: bool)
    requires OneTears(s) && t < |s.threads| && (s.threads[t].GSetStatus? || Marking(s.threads[t]))
    ensures OneTears(Moves(s, t, ok))
  {
    if s.threads[t].GSetStatus? {
      GivesStatus(s, t);
    } else {
      MarkMove(s, t, if s.threads[t].USetStatus? then UCancel else DFinished);
    }
  }

  lemma StageMove(s: State, t: nat, ok: bool)
    requires OneTears(s) && t < |s.threads| && (s.threads[t].GListTasks? || s.threads[t].GInTask?
             || s.threads[t].GClearTasks?)
    ensures OneTears(Moves(s, t, ok))
  {
    var s' := Moves(s, t, ok);
    assert s.owner == Some(t) && Progress(s, s.threads[t]);
    InsideMove(s, s', t, s'.threads[t]);
  }

  predicate Other(x: Thread) {
    !Tearing(x) && !Marking(x) && !x.GSwapStatus?
  }

  lemma OtherMove(s: State, t: nat, ok: bool)
    requires OneTears(s) && t < |s.threads| && Other(s.threads[t])
    ensures OneTears(Moves(s, t, ok))
  {
    OtherRecord(s, t, ok);
    var s' := Moves(s, t, ok);
    OutsideMove(s, s', t, s'.threads[t]);
  }

  lemma OtherRecord(s: State, t: nat, ok: bool)
    requires t < |s.threads| && Other(s.threads[t])
    ensures var s' := Moves(s, t, ok);
            && SameRecord(s, s') && |s'.threads| == |s.threads|
              && s'.threads == s.threads[t := Next(s, s.threads[t], ok)]
            && !Tearing(Next(s, s.threads[t], ok)) && (Marking(Next(s, s.threads[t], ok)) ==> s.status == TearingDown)
  {
  }

  lemma TaskMove(s: State, t: nat)
    requires OneTears(s) && t < |s.threads| && s.threads[t].GNextTask?
    ensures OneTears(Moves(s, t, true)) && Moves(s, t, true) == Moves(s, t, false)
  {
    var s' := Moves(s, t, true);
    assert s.owner == Some(t) && Progress(s, s.threads[t]);
    assert Prefix(s');
    InsideMove(s, s', t, s'.threads[t]);
  }

  lemma TearsKept(s: State, e: Event)
    requires OneTears(s)
    ensures OneTears(Step(s, e))
  {
    if e.Move? && e.t < |s.threads| { TearsMove(s, e.t, e.ok); }
  }

  /** A thread moves that is not about to cancel and does not become so. */
  lemma BystanderMove(s: State, s': State, t: nat, next: Thread)
    requires OneCancels(s) && t < |s.threads| && s'.threads == s.threads[t := next] && !Cancelling(s.threads[t])
             && !Cancelling(next)
    requires (s.done ==> s'.done) && s'.winner == s.winner && s'.cancels == s.cancels
    ensures OneCancels(s')
  {
  }

  lemma TakesDone(s: State, t: nat, next: Thread)
    requires OneCancels(s) && t < |s.threads| && !s.done && !Cancelling(s.threads[t]) && Cancelling(next)
    ensures OneCancels(To(s, t, next).(done := true, winner := Some(t)))
  {
  }

  lemma WinnerMove(s: State, s': State, t: nat, next: Thread)
    requires OneCancels(s) && t < |s.threads| && s'.threads == s.threads[t := next] && Cancelling(s.threads[t])
    requires s'.done == s.done && s'.winner == s.winner && s'.cancels == s.cancels + if Cancelling(next) then 0 else 1
    ensures OneCancels(s')
  {
  }

  lemma CancelsMove(s: State, t: nat, ok: bool)
    requires OneCancels(s) && t < |s.threads|
    ensures OneCancels(Moves(s, t, ok))
  {
    var s' := Moves(s, t, ok);
    var x := s.threads[t];
    if Cancelling(x) {
      WinnerRecord(s, t, ok);
      WinnerMove(s, s', t, s'.threads[t]);
    } else if (x.GSwapDone? || x.USwapDone?) && !s.done {
      TakesDone(s, t, if x.GSwapDone? then GCancel else UReadStatus);
    } else {
      BystanderRecord(s, t, ok);
      BystanderMove(s, s', t, s'.threads[t]);
    }
  }

  lemma WinnerRecord(s: State, t: nat, ok: bool)
    requires t < |s.threads| && Cancelling(s.threads[t])
    ensures var s' := Moves(s, t, ok);
            && |s'.threads| == |s.threads| && s'.threads == s.threads[t := s'.threads[t]] && s'.done == s.done
              && s'.winner == s.winner
            && s'.cancels == s.cancels + if Cancelling(s'.threads[t]) then 0 else 1
  {
  }

  lemma BystanderRecord(s: State, t: nat, ok: bool)
    requires t < |s.threads| && !Cancelling(s.threads[t])
             && ((s.threads[t].GSwapDone? || s.threads[t].USwapDone?) ==> s.done)
    ensures var s' := Moves(s, t, ok);
            && |s'.threads| == |s.threads| && s'.threads == s.threads[t := s'.threads[t]] && (s.done ==> s'.done)
              && s'.winner == s.winner
            && s'.cancels == s.cancels && !Cancelling(s'.threads[t])
  {
  }

  lemma CancelsKept(s: State, e: Event)
    requires OneCancels(s)
    ensures OneCancels(Step(s, e))
  {
    if e.Move? && e.t < |s.threads| { CancelsMove(s, e.t, e.ok); }
  }

  lemma {:induction false} InvariantOnEveryRun(s: State, es: seq<Event>)
    requires OneTears(s) && OneCancels(s)
    ensures OneTears(Run(s, es)) && OneCancels(Run(s, es))
    decreases |es|
  {
    if es != [] {
      TearsKept(s, es[0]);
      CancelsKept(s, es[0]);
      InvariantOnEveryRun(Step(s, es[0]), es[1..]);
    }
  }

  lemma InitHolds(spawn: bool)
    ensures OneTears(Init(spawn)) && OneCancels(Init(spawn))
  {
  }

  // ---- What every run keeps ----

  /** The two cancel methods call cancel at most once in total. */
  lemma CancelAtMostOnce(spawn: bool, es: seq<Event>)
    ensures Run(Init(spawn), es).cancels <= 1
  {
    InitHolds(spawn);
    InvariantOnEveryRun(Init(spawn), es);
  }

  /** Tasks start in registration order, each at most once: those started are the first of those listed. */
  lemma TasksInOrder(spawn: bool, es: seq<Event>)
    ensures Prefix(Run(Init(spawn), es))
  {
    InitHolds(spawn);
    InvariantOnEveryRun(Init(spawn), es);
  }

  /** A final status without cancellation means that every task present at the start ran, and whether one failed. */
  lemma GracefulMeansAllRan(spawn: bool, es: seq<Event>)
    ensures var s := Run(Init(spawn), es);
            && (s.status == TearedDown ==> AllRan(s))
            && (s.status == WithErrors ==> s.started == s.listed && s.failures > 0)
  {
    InitHolds(spawn);
    InvariantOnEveryRun(Init(spawn), es);
  }

  /** A final status is never left for a status that is not final. */
  lemma {:induction false} TerminalForever(s: State, es: seq<Event>)
    requires OneTears(s) && Terminal(s.status)
    ensures Terminal(Run(s, es).status)
    decreases |es|
  {
    if es != [] {
      TearsKept(s, es[0]);
      TerminalStep(s, es[0]);
      TerminalForever(Step(s, es[0]), es[1..]);
    }
  }

  lemma TerminalStep(s: State, e: Event)
    requires OneTears(s) && Terminal(s.status)
    ensures Terminal(Step(s, e).status)
  {
  }

  /** Started tasks are never taken back, and the list of tasks is taken once. */
  lemma {:induction false} StartedGrows(s: State, es: seq<Event>)
    requires OneTears(s)
    ensures s.started <= Run(s, es).started
    ensures s.listed != [] ==> Run(s, es).listed == s.listed
    decreases |es|
  {
    if es != [] {
      TearsKept(s, es[0]);
      StartedStep(s, es[0]);
      StartedGrows(Step(s, es[0]), es[1..]);
    }
  }

  lemma StartedStep(s: State, e: Event)
    requires OneTears(s)
    ensures s.started <= Step(s, e).started
    ensures s.listed != [] ==> Step(s, e).listed == s.listed
  {
    if e.Move? && e.t < |s.threads| && s.threads[e.t].GListTasks? { assert s.owner == Some(e.t); }
  }

  // ---- What finished threads have done ----

  predicate Finished(x: Thread) { x.GFinished? || x.UFinished? || x.DFinished? }

  predicate OfDone(x: Thread) { x.DWait? || x.DSetDone? || x.DReadStatus? || x.DSetStatus? || x.DFinished? }

  /** The done goroutine has stored the flag. */
  predicate PastDone(x: Thread) { x.DReadStatus? || x.DSetStatus? || x.DFinished? }

  /** The thread that tears down, or tore down, and what follows. */
  predicate Owning(s: State, x: Thread) {
    (Tearing(x) || x.GSwapDone? || x.GCancel? || x.GFinished?) && (x.GCancel? || x.GFinished? ==> s.done)
  }

  /** What a thread that got to x owes: a graceful cancel that ended found the context done or torn down. */
  predicate Owes(s: State, x: Thread) {
    && (x.GFinished? ==> s.done || s.owner.Some?) && (x.UFinished? ==> s.done) && (PastDone(x) ==> s.done)
    && (x.DSetDone? || PastDone(x) ==> s.cancelled)
  }

  ghost predicate Settled(s: State) {
    && (forall t :: 0 <= t < |s.threads| ==> Owes(s, s.threads[t]))
    && (s.owner.Some? ==> s.owner.value < |s.threads| && Owning(s, s.threads[s.owner.value]))
    && (s.done ==> s.winner.Some? || exists t :: 0 <= t < |s.threads| && PastDone(s.threads[t]))
  }

  lemma SettledMove(s: State, t: nat, ok: bool)
    requires Settled(s) && OneTears(s) && OneCancels(s) && t < |s.threads|
    ensures Settled(Moves(s, t, ok))
  {
    var s' := Moves(s, t, ok);
    MoveGrows(s, t, ok);
    OwesMove(s, t, ok);
    OwningMove(s, t, ok);
    assert s'.threads[t] == Next(s, s.threads[t], ok);
    forall i | 0 <= i < |s'.threads| ensures Owes(s', s'.threads[i]) {
      assert Owes(s, s.threads[i]);
    }
    if s.done && s.winner.None? {
      var i :| 0 <= i < |s.threads| && PastDone(s.threads[i]);
      assert PastDone(s'.threads[i]);
    }
  }

  /** What the moving thread owes; who sets the flag is on record. */
  lemma OwesMove(s: State, t: nat, ok: bool)
    requires t < |s.threads| && Owes(s, s.threads[t]) && (s.owner.None? ==> s.status == NeverStarted)
    requires Cancelling(s.threads[t]) ==> s.done
    ensures var s' := Moves(s, t, ok); var x := Next(s, s.threads[t], ok);
            && Owes(s', x) && (PastDone(s.threads[t]) ==> PastDone(x))
            && (!s.done && s'.done ==> s'.winner.Some? || PastDone(x))
  {
  }

  lemma OwningMove(s: State, t: nat, ok: bool)
    requires t < |s.threads| && (s.owner.None? <==> s.status == NeverStarted)
    requires s.owner.Some? ==> s.owner.value < |s.threads| && Owning(s, s.threads[s.owner.value])
    ensures var s' := Moves(s, t, ok);
            s'.owner.Some? ==> s'.owner.value < |s'.threads| && Owning(s', s'.threads[s'.owner.value])
  {
  }

  /** Flags are never taken back, and only thread t moves. */
  lemma MoveGrows(s: State, t: nat, ok: bool)
    requires t < |s.threads|
    ensures var s' := Moves(s, t, ok);
            && s'.threads == s.threads[t := Next(s, s.threads[t], ok)]
            && (s.done ==> s'.done) && (s.cancelled ==> s'.cancelled) && (s.winner.Some? ==> s'.winner.Some?)
            && (s.owner.Some? ==> s'.owner.Some?)
  {
  }

  lemma {:induction false} SettledOnEveryRun(s: State, es: seq<Event>)
    requires Settled(s) && OneTears(s) && OneCancels(s)
    ensures Settled(Run(s, es))
    decreases |es|
  {
    if es != [] {
      TearsKept(s, es[0]);
      CancelsKept(s, es[0]);
      SettledKept(s, es[0]);
      SettledOnEveryRun(Step(s, es[0]), es[1..]);
    }
  }

  lemma SettledKept(s: State, e: Event)
    requires Settled(s) && OneTears(s) && OneCancels(s)
    ensures Settled(Step(s, e))
  {
    if e.Move? && e.t < |s.threads| {
      SettledMove(s, e.t, e.ok);
    } else {
      var s' := Step(s, e);
      forall i | 0 <= i < |s'.threads| ensures Owes(s', s'.threads[i]) {
        if i < |s.threads| { assert s'.threads[i] == s.threads[i] && Owes(s, s.threads[i]); }
      }
      if s.done && s.winner.None? {
        var i :| 0 <= i < |s.threads| && PastDone(s.threads[i]);
        assert s'.threads[i] == s.threads[i];
      }
    }
  }

  lemma EveryRun(spawn: bool, es: seq<Event>)
    ensures var s := Run(Init(spawn), es); OneTears(s) && OneCancels(s) && Settled(s)
  {
    InitHolds(spawn);
    InvariantOnEveryRun(Init(spawn), es);
    SettledOnEveryRun(Init(spawn), es);
  }

  /** On every run: what it means that a thread has finished. */
  lemma FinishedMeans(spawn: bool, es: seq<Event>, t: nat)
    requires t < |Run(Init(spawn), es).threads|
    ensures var s := Run(Init(spawn), es); var x := s.threads[t];
            && (x.GFinished? ==> s.done || s.status != NeverStarted)
            && (x.UFinished? ==> s.done) && (x.DFinished? ==> s.done && s.cancelled)
  {
    EveryRun(spawn, es);
    var s := Run(Init(spawn), es);
    assert Owes(s, s.threads[t]);
  }

  /**
   * On every run: once a cancel method was called and every thread has finished, the context is done, cancel was called
   * exactly once unless the done goroutine set the flag, and a teardown that began has a final status.
   */
  lemma AllFinishedMeans(spawn: bool, es: seq<Event>, c: nat)
    requires var s := Run(Init(spawn), es);
             && c < |s.threads| && !OfDone(s.threads[c])
             && forall t :: 0 <= t < |s.threads| ==> Finished(s.threads[t]) || s.threads[t].DWait?
    ensures var s := Run(Init(spawn), es);
            && s.done && (s.cancels == 1 || exists t :: 0 <= t < |s.threads| && s.threads[t].DFinished?)
            && (s.status != NeverStarted ==> Terminal(s.status))
  {
    EveryRun(spawn, es);
    var s := Run(Init(spawn), es);
    assert Owes(s, s.threads[c]) && Finished(s.threads[c]);
    assert s.owner.Some? ==> !Tearing(s.threads[s.owner.value]) && s.done;
    if s.winner.Some? {
      assert !Cancelling(s.threads[s.winner.value]);
    } else {
      var t :| 0 <= t < |s.threads| && PastDone(s.threads[t]);
      assert Finished(s.threads[t]);
    }
  }

  /** Once the context is cancelled no further task starts. */
  lemma {:induction false} NothingStartsAfterCancel(s: State, es: seq<Event>)
    requires s.cancelled
    ensures Run(s, es).started == s.started && Run(s, es).cancelled
    decreases |es|
  {
    if es != [] { NothingStartsAfterCancel(Step(s, es[0]), es[1..]); }
  }

  // ---- Undisturbed calls ----

  lemma {:induction false} RunAppend(s: State, a: seq<Event>, b: seq<Event>)
    ensures Run(s, a + b) == Run(Run(s, a), b)
    decreases |a|
  {
    if a == [] {
      assert a + b == b;
    } else {
      assert (a + b)[1..] == a[1..] + b;
      RunAppend(Step(s, a[0]), a[1..], b);
    }
  }

  /** n moves of thread t. */
  function Moving(t: nat, n: nat): seq<Event> {
    if n == 0 then [] else [Move(t, true)] + Moving(t, n - 1)
  }

  /** s with thread t at x. */
  function At(s: State, t: nat, x: Thread): State
    requires t < |s.threads|
  {
    s.(threads := s.threads[t := x])
  }

  lemma AtMoves(s: State, t: nat, x: Thread, ok: bool)
    requires t < |s.threads|
    ensures Writes(s, x, t, ok).threads == s.threads
    ensures Step(At(s, t, x), Move(t, ok)) == At(Writes(s, x, t, ok), t, Next(s, x, ok))
  {
    WritesAt(s, t, x, ok);
    NextAt(s, t, x, ok);
    assert s.threads[t := x][t := Next(s, x, ok)] == s.threads[t := Next(s, x, ok)];
  }

  /** What a thread writes and where it goes does not depend on where the threads are. */
  lemma WritesAt(s: State, t: nat, x: Thread, ok: bool)
    requires t < |s.threads|
    ensures Writes(s, x, t, ok).threads == s.threads
    ensures Writes(At(s, t, x), x, t, ok) == At(Writes(s, x, t, ok), t, x)
  {
  }

  lemma NextAt(s: State, t: nat, x: Thread, ok: bool)
    requires t < |s.threads|
    ensures Next(At(s, t, x), x, ok) == Next(s, x, ok)
  {
  }

  /** Runs of moves as a function value, unfolded one move at a time. */
  ghost predicate IsMoving(run: (State, nat) -> State, t: nat) {
    forall s, n: nat {:trigger Run(s, Moving(t, n))} :: run(s, n) == Run(s, Moving(t, n))
  }

  function Mover(t: nat): (State, nat) -> State {
    (s: State, n: nat) => Run(s, Moving(t, n))
  }

  lemma OneMove(run: (State, nat) -> State, s: State, t: nat, x: Thread, n: nat)
    requires IsMoving(run, t) && t < |s.threads| && n > 0
    ensures Writes(s, x, t, true).threads == s.threads
    ensures run(At(s, t, x), n) == run(At(Writes(s, x, t, true), t, Next(s, x, true)), n - 1)
  {
    AtMoves(s, t, x, true);
    assert Moving(t, n)[1..] == Moving(t, n - 1);
    var _, _ := Run(At(s, t, x), Moving(t, n)), Run(Step(At(s, t, x), Move(t, true)), Moving(t, n - 1));
  }

  lemma NoMove(run: (State, nat) -> State, s: State, t: nat)
    requires IsMoving(run, t)
    ensures run(s, 0) == s
  {
    var _ := Run(s, Moving(t, 0));
  }

  function Registering(ts: seq<nat>): seq<Event> {
    if ts == [] then [] else [Register(ts[0])] + Registering(ts[1..])
  }

  lemma {:induction false} Registered(s: State, ts: seq<nat>)
    ensures Run(s, Registering(ts)) == s.(tasks := s.tasks + ts)
    decreases |ts|
  {
    if ts == [] {
      assert s.tasks + ts == s.tasks;
    } else {
      var es := Registering(ts);
      assert es[1..] == Registering(ts[1..]);
      assert Run(s, es) == Run(s.(tasks := s.tasks + [ts[0]]), Registering(ts[1..]));
      Registered(s.(tasks := s.tasks + [ts[0]]), ts[1..]);
      assert s.tasks + [ts[0]] + ts[1..] == s.tasks + ts;
    }
  }

  /** Each task is started and returns, with or without error. */
  function TaskMoves(t: nat, oks: seq<bool>): seq<Event> {
    if oks == [] then [] else [Move(t, true), Move(t, oks[0])] + TaskMoves(t, oks[1..])
  }

  function Failures(oks: seq<bool>): nat {
    if oks == [] then 0 else (if oks[0] then 0 else 1) + Failures(oks[1..])
  }

  function Worker(t: nat): (State, seq<bool>) -> State {
    (s: State, oks: seq<bool>) => Run(s, TaskMoves(t, oks))
  }

  ghost predicate IsWorking(run: (State, seq<bool>) -> State, t: nat) {
    forall s, oks {:trigger Run(s, TaskMoves(t, oks))} :: run(s, oks) == Run(s, TaskMoves(t, oks))
  }

  lemma OneTask(run: (State, seq<bool>) -> State, s: State, t: nat, i: nat, err: bool, oks: seq<bool>)
    requires IsWorking(run, t) && t < |s.threads| && !s.cancelled && oks != [] && i < |s.listed|
    ensures var failures := if oks[0] then s.failures else s.failures + 1;
            run(At(s, t, GNextTask(i, err)), oks) ==
            run(At(s.(started := s.started + [s.listed[i]], failures := failures), t, GNextTask(i + 1, err || !oks[0])),
                oks[1..])
  {
    var s1 := s.(started := s.started + [s.listed[i]]);
    var start := At(s, t, GNextTask(i, err));
    AtMoves(s, t, GNextTask(i, err), true);
    AtMoves(s1, t, GInTask(i, err), oks[0]);
    TaskMovesTwo(start, t, oks);
    var _, _ := Run(start, TaskMoves(t, oks)),
      Run(Step(Step(start, Move(t, true)), Move(t, oks[0])), TaskMoves(t, oks[1..]));
  }

  lemma TaskMovesTwo(s: State, t: nat, oks: seq<bool>)
    requires oks != []
    ensures Run(s, TaskMoves(t, oks)) ==
            Run(Step(Step(s, Move(t, true)), Move(t, oks[0])), TaskMoves(t, oks[1..]))
  {
    var es := TaskMoves(t, oks);
    assert es[1..] == [Move(t, oks[0])] + TaskMoves(t, oks[1..]) && es[1..][1..] == TaskMoves(t, oks[1..]);
  }

  lemma {:induction false} TasksRun(
      run: (State, seq<bool>) -> State, s: State, t: nat, i: nat, err: bool, oks: seq<bool>)
    requires IsWorking(run, t) && t < |s.threads| && !s.cancelled && i + |oks| == |s.listed|
    ensures run(At(s, t, GNextTask(i, err)), oks) ==
            At(s.(started := s.started + s.listed[i..], failures := s.failures + Failures(oks)), t,
               GNextTask(|s.listed|, err || Failures(oks) > 0))
    decreases |oks|
  {
    if oks == [] {
      assert s.started + s.listed[i..] == s.started;
      var _ := Run(At(s, t, GNextTask(i, err)), TaskMoves(t, []));
    } else {
      var s2 := s.(started := s.started + [s.listed[i]], failures := if oks[0] then s.failures else s.failures + 1);
      OneTask(run, s, t, i, err, oks);
      TasksRun(run, s2, t, i + 1, err || !oks[0], oks[1..]);
      assert s.started + [s.listed[i]] + s.listed[i + 1..] == s.started + s.listed[i..];
    }
  }

  /** A graceful cancel as thread t, the tasks returning `oks`. */
  function GracefulCall(t: nat, oks: seq<bool>): seq<Event> {
    [CallGraceful] + (Moving(t, 3) + (TaskMoves(t, oks) + Moving(t, 5)))
  }

  lemma Begins(run: (State, nat) -> State, s: State, t: nat)
    requires IsMoving(run, t) && t < |s.threads| && !s.done && s.status == NeverStarted
    ensures run(At(s, t, GCheckDone), 3) ==
            At(s.(status := TearingDown, owner := Some(t), listed := s.tasks), t, GNextTask(0, false))
  {
    var s2 := s.(status := TearingDown, owner := Some(t));
    OneMove(run, s, t, GCheckDone, 3);
    OneMove(run, s, t, GSwapStatus, 2);
    OneMove(run, s2, t, GListTasks, 1);
    NoMove(run, At(s2.(listed := s.tasks), t, GNextTask(0, false)), t);
  }

  lemma Ends(run: (State, nat) -> State, s: State, t: nat, err: bool, final: Status)
    requires IsMoving(run, t) && t < |s.threads| && !s.done && final == if err then WithErrors else TearedDown
    ensures run(At(s, t, GNextTask(|s.listed|, err)), 5) ==
            At(s.(tasks := [], status := final, done := true, winner := Some(t), cancelled := true,
                  cancels := s.cancels + 1), t, GFinished)
  {
    var s2 := s.(tasks := []);
    var s3 := s2.(status := final);
    var s4 := s3.(done := true, winner := Some(t));
    OneMove(run, s, t, GNextTask(|s.listed|, err), 5);
    OneMove(run, s, t, GClearTasks(final), 4);
    OneMove(run, s2, t, GSetStatus(final), 3);
    OneMove(run, s3, t, GSwapDone, 2);
    OneMove(run, s4, t, GCancel, 1);
    NoMove(run, At(s4.(cancelled := true, cancels := s.cancels + 1), t, GFinished), t);
  }

  /** From listing the tasks to the end. */
  lemma GracefulFrom(s: State, t: nat, oks: seq<bool>)
    requires t < |s.threads| && !s.done && s.status == NeverStarted && !s.cancelled && |oks| == |s.tasks|
    requires s.started == [] && s.failures == 0
    ensures Run(At(s, t, GCheckDone), Moving(t, 3) + (TaskMoves(t, oks) + Moving(t, 5))) ==
            At(s.(status := if Failures(oks) > 0 then WithErrors else TearedDown, owner := Some(t), listed := s.tasks,
                  started := s.tasks, failures := Failures(oks), tasks := [], done := true, winner := Some(t),
                  cancelled := true, cancels := s.cancels + 1), t, GFinished)
  {
    var tail := TaskMoves(t, oks) + Moving(t, 5);
    RunAppend(At(s, t, GCheckDone), Moving(t, 3), tail);
    Begins(Mover(t), s, t);
    var s1 := s.(status := TearingDown, owner := Some(t), listed := s.tasks);
    RunAppend(At(s1, t, GNextTask(0, false)), TaskMoves(t, oks), Moving(t, 5));
    TasksRun(Worker(t), s1, t, 0, false, oks);
    assert [] + s.tasks[0..] == s.tasks;
    var s2 := s1.(started := s.tasks, failures := Failures(oks));
    Ends(Mover(t), s2, t, Failures(oks) > 0, if Failures(oks) > 0 then WithErrors else TearedDown);
  }

  /**
   * From any state in which nothing was cancelled, an undisturbed graceful cancel runs every registered task once, in
   * order, gives the status that says whether one failed, and calls cancel.
   */
  lemma GracefulRuns(spawn: bool, es: seq<Event>, oks: seq<bool>)
    requires var s := Run(Init(spawn), es);
             !s.done && s.status == NeverStarted && !s.cancelled && |oks| == |s.tasks|
    ensures var s := Run(Init(spawn), es); var s' := Run(s, GracefulCall(|s.threads|, oks));
            && s'.listed == s'.started == s.tasks && s'.tasks == [] && s'.failures == Failures(oks)
            && s'.status == (if Failures(oks) > 0 then WithErrors else TearedDown)
            && s'.done && s'.cancelled && s'.cancels == 1 && s'.threads == s.threads + [GFinished]
  {
    EveryRun(spawn, es);
    var s := Run(Init(spawn), es);
    var t := |s.threads|;
    var called := Step(s, CallGraceful);
    assert GracefulCall(t, oks)[1..] == Moving(t, 3) + (TaskMoves(t, oks) + Moving(t, 5));
    assert At(called, t, GCheckDone) == called;
    GracefulFrom(called, t, oks);
    assert called.threads[t := GFinished] == s.threads + [GFinished];
  }

  /** From any state that is not done, an undisturbed ungraceful cancel calls cancel and marks a teardown under way. */
  lemma UngracefulRuns(s: State)
    requires !s.done
    ensures var t := |s.threads|; var s' := Run(s, [CallUngraceful] + Moving(t, 4));
            && s'.done && s'.cancelled && s'.cancels == s.cancels + 1 && s'.threads == s.threads + [UFinished]
            && s'.status == (if s.status == TearingDown then WithCancellation else s.status)
            && s'.started == s.started && s'.tasks == s.tasks
  {
    var t := |s.threads|;
    assert ([CallUngraceful] + Moving(t, 4))[1..] == Moving(t, 4);
    var called := Step(s, CallUngraceful);
    assert At(called, t, USwapDone) == called;
    UngracefulFrom(Mover(t), called, t);
    assert called.threads[t := UFinished] == s.threads + [UFinished];
  }

  lemma UngracefulFrom(run: (State, nat) -> State, s: State, t: nat)
    requires IsMoving(run, t) && t < |s.threads| && !s.done
    ensures run(At(s, t, USwapDone), 4) ==
            At(s.(done := true, winner := Some(t), cancelled := true, cancels := s.cancels + 1,
                  status := if s.status == TearingDown then WithCancellation else s.status), t, UFinished)
  {
    var s1 := s.(done := true, winner := Some(t));
    OneMove(run, s, t, USwapDone, 4);
    OneMove(run, s1, t, UReadStatus, 3);
    if s.status == TearingDown {
      OneMove(run, s1, t, USetStatus, 2);
      CancelsIn(run, s1.(status := WithCancellation), t, 1);
    } else {
      CancelsIn(run, s1, t, 2);
    }
  }

  lemma CancelsIn(run: (State, nat) -> State, s: State, t: nat, n: nat)
    requires IsMoving(run, t) && t < |s.threads| && 1 <= n <= 2
    ensures run(At(s, t, UCancel), n) == At(s.(cancelled := true, cancels := s.cancels + 1), t, UFinished)
  {
    var s1 := s.(cancelled := true, cancels := s.cancels + 1);
    OneMove(run, s, t, UCancel, n);
    if n == 2 { OneMove(run, s1, t, UFinished, 1); }
    NoMove(run, At(s1, t, UFinished), t);
  }

  /** The done goroutine, once the context is cancelled, sets the flag and marks a teardown under way. */
  lemma DoneRuns(s: State, t: nat)
    requires t < |s.threads| && s.cancelled
    ensures Run(At(s, t, DWait), Moving(t, 4)) ==
            At(s.(done := true, status := if s.status == TearingDown then WithCancellation else s.status), t, DFinished)
  {
    DoneFrom(Mover(t), s, t);
  }

  lemma DoneFrom(run: (State, nat) -> State, s: State, t: nat)
    requires IsMoving(run, t) && t < |s.threads| && s.cancelled
    ensures run(At(s, t, DWait), 4) ==
            At(s.(done := true, status := if s.status == TearingDown then WithCancellation else s.status), t, DFinished)
  {
    OneMove(run, s, t, DWait, 4);
    OneMove(run, s, t, DSetDone, 3);
    DoneMarks(run, s.(done := true), t);
  }

  lemma DoneMarks(run: (State, nat) -> State, s: State, t: nat)
    requires IsMoving(run, t) && t < |s.threads|
    ensures run(At(s, t, DReadStatus), 2) ==
            At(s.(status := if s.status == TearingDown then WithCancellation else s.status), t, DFinished)
  {
    OneMove(run, s, t, DReadStatus, 2);
    if s.status == TearingDown {
      OneMove(run, s, t, DSetStatus, 1);
      NoMove(run, At(s.(status := WithCancellation), t, DFinished), t);
    } else {
      OneMove(run, s, t, DFinished, 1);
      NoMove(run, At(s, t, DFinished), t);
    }
  }
}
