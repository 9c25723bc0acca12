/** The stepping commands of the debugger and where they make the program stop. */
module Debugger {
  import opened Common

  datatype Reason = NoStop | Pause | NextStep | StepIn | StepOut | Breakpoint | Exception

  /** An instruction about to run: the number of stack frames, and whether it has a breakpoint or raised an error. */
  datatype Instr = Instr(depth: nat, breakpoint: bool, error: bool)

  /** Stack depth at the last instruction (0 before the first), depth of the last step command, requested stop. */
  datatype State = State(depth: nat, steppingDepth: int, requested: Reason, exceptionBreakpoints: bool)

  // ---- One instruction ----

  /** A step request is not met by this instruction and stays. */
  predicate Postponed(s: State, depth: nat) {
    match s.requested
    case StepOut => !(s.depth != 0 && s.depth > depth) || depth > s.steppingDepth
    case NextStep => (s.depth != 0 && s.depth < depth) || depth > s.steppingDepth
    case _ => false
  }

  function Stop(s: State, i: Instr): Reason {
    if i.error then (if s.exceptionBreakpoints then Exception else NoStop)
    else if i.breakpoint then Breakpoint
    else if Postponed(s, i.depth) then NoStop
    else s.requested
  }

  function After(s: State, i: Instr): State {
    if i.error || i.breakpoint || Postponed(s, i.depth) then s.(depth := i.depth)
    else s.(depth := i.depth, requested := NoStop)
  }

  /** The index of the first instruction the program stops at. */
  function FirstStop(s: State, run: seq<Instr>): Option<nat>
    decreases |run|
  {
    if run == [] then None
    else if Stop(s, run[0]) != NoStop then Some(0)
    else
      match FirstStop(After(s, run[0]), run[1..])
      case None => None
      case Some(k) => Some(k + 1)
  }

  /** The reason of that stop. */
  function FirstReason(s: State, run: seq<Instr>): Reason
    decreases |run|
  {
    if run == [] then NoStop
    else if Stop(s, run[0]) != NoStop then Stop(s, run[0])
    else FirstReason(After(s, run[0]), run[1..])
  }

  /** The first index of an instruction that the test accepts. */
  function FirstOf(run: seq<Instr>, test: Instr -> bool): Option<nat>
    decreases |run|
  {
    if run == [] then None
    else if test(run[0]) then Some(0)
    else
      match FirstOf(run[1..], test)
      case None => None
      case Some(k) => Some(k + 1)
  }

  /** FirstOf is what its name says. */
  lemma {:induction false} FirstOfIs(run: seq<Instr>, test: Instr -> bool)
    ensures match FirstOf(run, test)
            case None => forall i :: 0 <= i < |run| ==> !test(run[i])
            case Some(k) => k < |run| && test(run[k]) && forall i :: 0 <= i < k ==> !test(run[i])
    decreases |run|
  {
    if run != [] && !test(run[0]) {
      FirstOfIs(run[1..], test);
      assert forall i :: 1 <= i < |run| ==> run[i] == run[1..][i - 1];
    }
  }

  function AtMost(n: int): Instr -> bool { (i: Instr) => i.depth <= n }

  /** The first index whose depth is at most n. */
  function FirstAtMost(run: seq<Instr>, n: int): Option<nat> {
    FirstOf(run, AtMost(n))
  }

  // ---- Breakpoints and errors ----

  /** Stops the program whatever is requested. */
  predicate Interrupts(exceptions: bool, i: Instr) {
    if i.error then exceptions else i.breakpoint
  }

  function Interrupting(exceptions: bool): Instr -> bool { (i: Instr) => Interrupts(exceptions, i) }

  /** The reason of a stop at i: the error, the breakpoint, or else the request. */
  function ReasonAt(s: State, i: Instr): Reason {
    if Interrupts(s.exceptionBreakpoints, i) then (if i.error then Exception else Breakpoint) else s.requested
  }

  /** With nothing requested, the program stops at exactly the first breakpoint or, if they are to stop it, error. */
  lemma {:induction false} StopsAtInterrupts(s: State, run: seq<Instr>)
    requires s.requested == NoStop
    ensures FirstStop(s, run) == FirstOf(run, Interrupting(s.exceptionBreakpoints))
    decreases |run|
  {
    if run != [] && !Interrupts(s.exceptionBreakpoints, run[0]) { StopsAtInterrupts(After(s, run[0]), run[1..]); }
  }

  /** A request only makes the program stop earlier, and is the reason where neither a breakpoint nor an error is. */
  lemma {:induction false} RequestOnlyAdvances(s: State, run: seq<Instr>)
    ensures var stop, forced := FirstStop(s, run), FirstOf(run, Interrupting(s.exceptionBreakpoints));
            && (forced.Some? ==> stop.Some? && stop.value <= forced.value)
            && (stop.Some? ==> stop.value < |run| && FirstReason(s, run) == ReasonAt(s, run[stop.value]) != NoStop)
            && (stop.None? ==> FirstReason(s, run) == NoStop)
    decreases |run|
  {
    if run != [] && Stop(s, run[0]) == NoStop {
      RequestOnlyAdvances(After(s, run[0]), run[1..]);
      RequestStays(s, run);
    }
  }

  /** An instruction that the program does not stop at leaves a request as it is. */
  lemma RequestStays(s: State, run: seq<Instr>)
    requires run != [] && Stop(s, run[0]) == NoStop
    ensures After(s, run[0]).requested == s.requested
  {
  }

  // ---- Commands given while the program is stopped ----

  function NextCommand(s: State): State { s.(steppingDepth := s.depth, requested := NextStep) }

  function StepInCommand(s: State): State { s.(steppingDepth := s.depth + 1, requested := StepIn) }

  function StepOutCommand(s: State): State { s.(steppingDepth := s.depth - 1, requested := StepOut) }

  /** A request that an earlier command left is not cleared. */
  function ContinueCommand(s: State): State { s.(steppingDepth := s.depth) }

  /** No breakpoint or error in between, and every instruction has a frame. */
  ghost predicate Quiet(run: seq<Instr>) {
    forall i :: 0 <= i < |run| ==> run[i].depth > 0 && !run[i].breakpoint && !run[i].error
  }

  /** Deeper instructions are passed over, the request staying. */
  lemma {:induction false} NextWaits(s: State, run: seq<Instr>)
    requires Quiet(run) && s.requested == NextStep && 0 < s.steppingDepth <= s.depth
    ensures FirstStop(s, run) == FirstAtMost(run, s.steppingDepth)
    decreases |run|
  {
    if run != [] && run[0].depth > s.steppingDepth { NextWaits(After(s, run[0]), run[1..]); }
  }

  /** From a stop at depth d, next stops at exactly the first later instruction of depth at most d. */
  lemma NextStops(s: State, run: seq<Instr>)
    requires Quiet(run) && s.depth > 0
    ensures FirstStop(NextCommand(s), run) == FirstAtMost(run, s.depth)
  {
    NextWaits(NextCommand(s), run);
  }

  lemma {:induction false} StepOutWaits(s: State, run: seq<Instr>)
    requires Quiet(run) && s.requested == StepOut && 0 <= s.steppingDepth < s.depth
    ensures FirstStop(s, run) == FirstAtMost(run, s.steppingDepth)
    decreases |run|
  {
    if run != [] && run[0].depth > s.steppingDepth { StepOutWaits(After(s, run[0]), run[1..]); }
  }

  /** Step-out stops at exactly the first later instruction of depth below d. */
  lemma StepOutStops(s: State, run: seq<Instr>)
    requires Quiet(run) && s.depth > 0
    ensures FirstStop(StepOutCommand(s), run) == FirstAtMost(run, s.depth - 1)
  {
    StepOutWaits(StepOutCommand(s), run);
  }

  /** Step-in stops at the next instruction. */
  lemma StepInStops(s: State, run: seq<Instr>)
    requires Quiet(run) && run != []
    ensures FirstStop(StepInCommand(s), run) == Some(0)
  {
    assert !run[0].breakpoint && !run[0].error;
  }

  // With breakpoints in the run, next and step-out stop at them or where they would without, whichever comes first.

  ghost predicate NoErrors(run: seq<Instr>) {
    forall i :: 0 <= i < |run| ==> run[i].depth > 0 && !run[i].error
  }

  function BreakOrAtMost(n: int): Instr -> bool { (i: Instr) => i.breakpoint || i.depth <= n }

  lemma {:induction false} NextWaitsToo(s: State, run: seq<Instr>)
    requires NoErrors(run) && s.requested == NextStep && 0 < s.steppingDepth <= s.depth
    ensures FirstStop(s, run) == FirstOf(run, BreakOrAtMost(s.steppingDepth))
    decreases |run|
  {
    if run != [] && run[0].depth > s.steppingDepth && !run[0].breakpoint {
      NextWaitsToo(After(s, run[0]), run[1..]);
    }
  }

  lemma {:induction false} StepOutWaitsToo(s: State, run: seq<Instr>)
    requires NoErrors(run) && s.requested == StepOut && 0 <= s.steppingDepth < s.depth
    ensures FirstStop(s, run) == FirstOf(run, BreakOrAtMost(s.steppingDepth))
    decreases |run|
  {
    if run != [] && run[0].depth > s.steppingDepth && !run[0].breakpoint {
      StepOutWaitsToo(After(s, run[0]), run[1..]);
    }
  }

  lemma StepsMeetBreakpoints(s: State, run: seq<Instr>)
    requires NoErrors(run) && s.depth > 0
    ensures FirstStop(NextCommand(s), run) == FirstOf(run, BreakOrAtMost(s.depth))
    ensures FirstStop(StepOutCommand(s), run) == FirstOf(run, BreakOrAtMost(s.depth - 1))
  {
    NextWaitsToo(NextCommand(s), run);
    StepOutWaitsToo(StepOutCommand(s), run);
  }

  function Seen(exceptions: bool): Instr -> bool { (i: Instr) => !i.error || exceptions }

  /** A pause or a step-in stops at the next instruction, passing over errors only if they are not to stop it. */
  lemma {:induction false} PauseStops(s: State, run: seq<Instr>)
    requires s.requested == Pause || s.requested == StepIn
    ensures FirstStop(s, run) == FirstOf(run, Seen(s.exceptionBreakpoints))
    decreases |run|
  {
    if run != [] && run[0].error && !s.exceptionBreakpoints { PauseStops(After(s, run[0]), run[1..]); }
  }

  lemma {:induction false} NoRequestNoStop(s: State, run: seq<Instr>)
    requires Quiet(run) && s.requested == NoStop
    ensures FirstStop(s, run) == None
    decreases |run|
  {
    if run != [] { NoRequestNoStop(After(s, run[0]), run[1..]); }
  }

  /** Continue never stops exactly when no earlier request is left over. */
  lemma ContinueNeverStopsIff(s: State)
    requires s.depth > 0
    ensures (forall run :: Quiet(run) ==> FirstStop(ContinueCommand(s), run) == None) <==> s.requested == NoStop
  {
    var c := ContinueCommand(s);
    if s.requested == NoStop {
      forall run | Quiet(run) ensures FirstStop(c, run) == None { NoRequestNoStop(c, run); }
    } else {
      var up, here := Instr(s.depth + 1, false, false), Instr(s.depth, false, false);
      var run := if s.requested == StepOut then [up, here] else [here];
      assert Quiet(run);
      if s.requested == StepOut {
        assert Stop(c, up) == NoStop && Stop(After(c, up), here) == StepOut;
        assert run[1..] == [here];
        assert FirstStop(After(c, up), [here]) == Some(0);
      }
      assert FirstStop(c, run) != None;
    }
  }

  /** A next command cut short by a breakpoint makes a later continue behave as a next. */
  lemma LeftOverNext(s: State, i: Instr, run: seq<Instr>)
    requires s.requested == NextStep && i.breakpoint && !i.error && i.depth > 0 && Quiet(run)
    ensures Stop(s, i) == Breakpoint
    ensures FirstStop(ContinueCommand(After(s, i)), run) == FirstAtMost(run, i.depth)
  {
    NextWaits(ContinueCommand(After(s, i)), run);
  }

  // ---- The debugger ----

  class Debugger {
    var stackFrameDepth: nat
    var steppingDepth: int
    var stopBeforeNextStatement: Reason
    var exceptionBreakpoints: bool
    var stoppedProgram: bool

    ghost function View(): State
      reads this
    {
      State(stackFrameDepth, steppingDepth, stopBeforeNextStatement, exceptionBreakpoints)
    }

    constructor ()
      ensures View() == State(0, 1, NoStop, false) && !stoppedProgram
    {
      stackFrameDepth, steppingDepth, stopBeforeNextStatement, exceptionBreakpoints, stoppedProgram := 0, 1, NoStop,
        false, false;
    }

    /** Commands other than pause are ignored while the program runs, pause while it is stopped. */
    method PauseProgram()
      modifies this`stopBeforeNextStatement
      ensures View() == if old(stoppedProgram) then old(View()) else old(View()).(requested := Pause)
    {
      if stoppedProgram { return; }
      stopBeforeNextStatement := Pause;
    }

    method Continue()
      modifies this
      ensures View() == (if old(stoppedProgram) then ContinueCommand(old(View())) else old(View())) && !stoppedProgram
    {
      if stoppedProgram {
        steppingDepth := stackFrameDepth;
        stoppedProgram := false;
      }
    }

    method StepOver()
      modifies this
      ensures View() == (if old(stoppedProgram) then NextCommand(old(View())) else old(View())) && !stoppedProgram
    {
      if !stoppedProgram { return; }
      steppingDepth := stackFrameDepth;
      stopBeforeNextStatement := NextStep;
      stoppedProgram := false;
    }

    method StepInto()
      modifies this
      ensures View() == (if old(stoppedProgram) then StepInCommand(old(View())) else old(View())) && !stoppedProgram
    {
      if !stoppedProgram { return; }
      stopBeforeNextStatement := StepIn;
      steppingDepth := stackFrameDepth + 1;
      stoppedProgram := false;
    }

    method StepOutOf()
      modifies this
      ensures View() == (if old(stoppedProgram) then StepOutCommand(old(View())) else old(View())) && !stoppedProgram
    {
      if !stoppedProgram { return; }
      stopBeforeNextStatement := StepOut;
      steppingDepth := stackFrameDepth - 1;
      stoppedProgram := false;
    }

    /** Called before each instruction. */
    method BeforeInstruction(i: Instr) returns (reason: Reason)
      modifies this
      ensures reason == Stop(old(View()), i) && View() == After(old(View()), i)
      ensures stoppedProgram == (reason != NoStop || old(stoppedProgram))
    {
      var prevDepth := stackFrameDepth;
      stackFrameDepth := i.depth;
      var depthIncrease := prevDepth != 0 && prevDepth < i.depth;
      var depthDecrease := prevDepth != 0 && prevDepth > i.depth;
      reason := NoStop;
      if !i.error {
        if i.breakpoint {
          reason := Breakpoint;
        } else {
          reason := stopBeforeNextStatement;
          stopBeforeNextStatement := NoStop;
          if reason == StepOut {
            if !depthDecrease || i.depth > steppingDepth {
              reason := NoStop;
              stopBeforeNextStatement := StepOut;
            }
          } else if reason == NextStep {
            if depthIncrease || i.depth > steppingDepth {
              reason := NoStop;
              stopBeforeNextStatement := NextStep;
            }
          }
        }
      } else if exceptionBreakpoints {
        reason := Exception;
      }
      if reason != NoStop { stoppedProgram := true; }
    }

    /** Runs instructions until the program stops. */
    method RunUntilStop(run: seq<Instr>) returns (at: Option<nat>, reason: Reason)
      requires !stoppedProgram
      modifies this
      ensures at == FirstStop(old(View()), run) && reason == FirstReason(old(View()), run)
      ensures stoppedProgram == at.Some?
    {
      var k := 0;
      assert run[0..] == run;
      while k < |run|
        invariant 0 <= k <= |run| && !stoppedProgram
        invariant FirstReason(old(View()), run) == FirstReason(View(), run[k..])
        invariant FirstStop(old(View()), run) == (match FirstStop(View(),
                  run[k..]) case None => None case Some(n) => Some(n + k))
      {
        assert run[k..][0] == run[k] && run[k..][1..] == run[k + 1..];
        reason := BeforeInstruction(run[k]);
        if reason != NoStop { return Some(k), reason; }
        k := k + 1;
      }
      return None, NoStop;
    }
  }
}
