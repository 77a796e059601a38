/**
 Step over and step out: the daemon does not look at Lua's call stack, it counts.  The model's
 virtual machine keeps the stack itself; a frame has an identity, which a tail call hands on to
 its successor.  Events are those of section 4.9 of the Lua 5.2 Reference Manual, in the
 build without LuaJIT.
 */
module Stepping {

  datatype Event =
    | Call(source: string)
    | TailCall(source: string)
    | Return(source: string)
    | Line(source: string, line: int)

  // ---------------------------------------------------------------- the machine

  // "stack" holds the identities of the live frames, innermost last; "next" is the first unused one
  datatype VM = VM(stack: seq<nat>, next: nat)

  predicate WellFormed(vm: VM) {
    && (forall i :: 0 <= i < |vm.stack| ==> vm.stack[i] < vm.next)
    && (forall i, j :: 0 <= i < j < |vm.stack| ==> vm.stack[i] != vm.stack[j])
  }

  function Top(vm: VM): nat
    requires vm.stack != []
  {
    vm.stack[|vm.stack| - 1]
  }

  predicate Possible(vm: VM, e: Event) {
    e.Call? || vm.stack != []
  }

  function Happen(vm: VM, e: Event): VM
    requires Possible(vm, e)
  {
    match e
    case Call(_) => VM(vm.stack + [vm.next], vm.next + 1)
    case Return(_) => vm.(stack := vm.stack[..|vm.stack| - 1])
    case _ => vm
  }

  predicate Trace(vm: VM, es: seq<Event>)
    decreases |es|
  {
    es == [] || (Possible(vm, es[0]) && Trace(Happen(vm, es[0]), es[1..]))
  }

  function After(vm: VM, es: seq<Event>): VM
    requires Trace(vm, es)
    decreases |es|
  {
    if es == [] then vm else After(Happen(vm, es[0]), es[1..])
  }

  // this event ends the frame "id" (or the tail-called successor that took its place)
  predicate Ends(vm: VM, e: Event, id: nat) {
    e.Return? && vm.stack != [] && Top(vm) == id
  }

  // the frame "id" is still there after all of es
  predicate Survives(vm: VM, es: seq<Event>, id: nat)
    requires Trace(vm, es)
    decreases |es|
  {
    es == [] || (!Ends(vm, es[0], id) && Survives(Happen(vm, es[0]), es[1..], id))
  }

  // ---------------------------------------------------------------- the hooks

  // lg_StepOverAndOutHookFunction and lg_StepOutHookFunction ignore, or ask for one more
  // instruction, or enter the debugger
  datatype Verdict = Mute | OneMore | Enter

  datatype Target = Target(first: int, last: int, source: string)

  // step over: the new depth and the verdict
  function StepOverHook(depth: int, t: Target, e: Event): (int, Verdict) {
    match e
    case Line(source, line) =>
      if line < t.first || line > t.last then (depth, Mute)
      else if source == "" || source[0] != '@' then (depth, Mute)
      else if source != t.source then (depth, Mute)
      else (depth, Enter)
    case TailCall(_) => (depth, Mute)
    case Call(_) => (depth + 1, if depth + 1 >= 0 then Mute else OneMore)
    case Return(_) => (depth - 1, if depth - 1 >= 0 then Mute else OneMore)
  }

  // step out: armed for calls and returns only, and a tail call counts as a return
  function StepOutHook(depth: int, e: Event): (int, Verdict) {
    if e.Line? then (depth, Mute)
    else
      var d := depth + if e.Call? then 1 else -1;
      if d >= 0 then (d, Mute)
      else if e.source == "" || e.source[0] != '@' then (d, Mute)
      else (d, Enter)
  }

  // the counters alone, over a trace
  function OverDepth(depth: int, es: seq<Event>): int
    decreases |es|
  {
    if es == [] then depth
    else OverDepth(StepOverHook(depth, Target(0, -1, ""), es[0]).0, es[1..])
  }

  function OutDepth(depth: int, es: seq<Event>): int
    decreases |es|
  {
    if es == [] then depth else OutDepth(StepOutHook(depth, es[0]).0, es[1..])
  }

  // no counter value along es is negative
  predicate OverStays(depth: int, es: seq<Event>)
    decreases |es|
  {
    es == [] || var d := StepOverHook(depth, Target(0, -1, ""), es[0]).0; d >= 0 && OverStays(d, es[1..])
  }

  predicate OutStays(depth: int, es: seq<Event>)
    decreases |es|
  {
    es == [] || var d := StepOutHook(depth, es[0]).0; d >= 0 && OutStays(d, es[1..])
  }

  function TailCalls(es: seq<Event>): nat {
    if es == [] then 0 else (if es[0].TailCall? then 1 else 0) + TailCalls(es[1..])
  }

  // ---------------------------------------------------------------- step over

  lemma HappenKeeps(vm: VM, e: Event)
    requires WellFormed(vm) && Possible(vm, e)
    ensures WellFormed(Happen(vm, e))
  {}

  // The counter is the stack's height relative to the frame "id" at position h - 1, and stays
  // non-negative exactly as long as that frame lives.
  lemma {:induction false} OverCounts(vm: VM, es: seq<Event>, h: nat, id: nat)
    requires WellFormed(vm) && Trace(vm, es)
    requires 0 < h <= |vm.stack| && vm.stack[h - 1] == id
    ensures OverStays(|vm.stack| - h, es) <==> Survives(vm, es, id)
    ensures Survives(vm, es, id) ==>
              && OverDepth(|vm.stack| - h, es) == |After(vm, es).stack| - h
              && h <= |After(vm, es).stack| && After(vm, es).stack[h - 1] == id
    decreases |es|
  {
    if es != [] {
      var next := Happen(vm, es[0]);
      HappenKeeps(vm, es[0]);
      assert Ends(vm, es[0], id) <==> es[0].Return? && |vm.stack| == h;
      if !Ends(vm, es[0], id) {
        OverCounts(next, es[1..], h, id);
      }
    }
  }

  // A step over resumed in the frame on top: as long as no line of the target stops it, the
  // counter goes negative, and the hook asks for one more instruction, at precisely the event
  // that ends that frame or the tail-called successor that took its place.
  lemma StepOverFiresAtReturn(vm: VM, es: seq<Event>, e: Event, t: Target)
    requires WellFormed(vm) && vm.stack != [] && Trace(vm, es + [e])
    requires OverStays(0, es)
    ensures Trace(vm, es) && Survives(vm, es, Top(vm))
    ensures StepOverHook(OverDepth(0, es), t, e).1.OneMore? <==> Ends(After(vm, es), e, Top(vm))
  {
    TracePrefix(vm, es, e);
    OverCounts(vm, es, |vm.stack|, Top(vm));
    var now := After(vm, es);
    WellFormedAfter(vm, es);
    assert Ends(now, e, Top(vm)) <==> e.Return? && |now.stack| == |vm.stack|;
  }

  lemma {:induction false} TracePrefix(vm: VM, es: seq<Event>, e: Event)
    requires Trace(vm, es + [e])
    ensures Trace(vm, es) && Possible(After(vm, es), e)
    decreases |es|
  {
    if es == [] {
      assert es + [e] == [e];
    } else {
      assert (es + [e])[0] == es[0] && (es + [e])[1..] == es[1..] + [e];
      TracePrefix(Happen(vm, es[0]), es[1..], e);
    }
  }

  lemma {:induction false} WellFormedAfter(vm: VM, es: seq<Event>)
    requires WellFormed(vm) && Trace(vm, es)
    ensures WellFormed(After(vm, es))
    decreases |es|
  {
    if es != [] {
      HappenKeeps(vm, es[0]);
      WellFormedAfter(Happen(vm, es[0]), es[1..]);
    }
  }

  // Which frame a step over steps: take any frame that was live at the resume, at height h.  When
  // the hook asks for one more instruction that frame is being ended if and only if it was on top.
  lemma StepOverRightIff(vm: VM, es: seq<Event>, e: Event, t: Target, h: nat)
    requires WellFormed(vm) && 0 < h <= |vm.stack| && Trace(vm, es + [e])
    requires OverStays(0, es) && StepOverHook(OverDepth(0, es), t, e).1.OneMore?
    ensures Trace(vm, es) && Survives(vm, es, vm.stack[h - 1])
    ensures Ends(After(vm, es), e, vm.stack[h - 1]) <==> h == |vm.stack|
  {
    StepOverFiresAtReturn(vm, es, e, t);
    OverStaysHigher(0, |vm.stack| - h, es);
    OverCounts(vm, es, h, vm.stack[h - 1]);
  }

  lemma {:induction false} OverStaysHigher(a: int, b: int, es: seq<Event>)
    requires a <= b && OverStays(a, es)
    ensures OverStays(b, es)
    decreases |es|
  {
    if es != [] {
      var t := Target(0, -1, "");
      OverStaysHigher(StepOverHook(a, t, es[0]).0, StepOverHook(b, t, es[0]).0, es[1..]);
    }
  }

  // Resumed from inside the breakpoint() function, the frame on top is that C function's: whatever
  // happens, the step over stops with the Lua frame that called it still on the stack.
  lemma InlineBreakpointStopsEarly(vm: VM, es: seq<Event>, e: Event, t: Target)
    requires WellFormed(vm) && |vm.stack| >= 2 && Trace(vm, es + [e])
    requires OverStays(0, es) && StepOverHook(OverDepth(0, es), t, e).1.OneMore?
    ensures var caller := vm.stack[|vm.stack| - 2];
            Trace(vm, es) && Survives(vm, es, caller) && !Ends(After(vm, es), e, caller)
  {
    StepOverRightIff(vm, es, e, t, |vm.stack| - 1);
  }

  // ---------------------------------------------------------------- step out

  // The step-out counter is off by the number of tail calls.
  lemma {:induction false} OutCounts(depth: int, es: seq<Event>)
    ensures OutDepth(depth, es) == OverDepth(depth, es) - TailCalls(es)
    decreases |es|
  {
    if es != [] {
      OutCounts(StepOutHook(depth, es[0]).0, es[1..]);
      OverShift(StepOutHook(depth, es[0]).0, StepOverHook(depth, Target(0, -1, ""), es[0]).0, es[1..]);
    }
  }

  lemma {:induction false} OverShift(a: int, b: int, es: seq<Event>)
    ensures OverDepth(a, es) - a == OverDepth(b, es) - b
    decreases |es|
  {
    if es != [] {
      var t := Target(0, -1, "");
      OverShift(StepOverHook(a, t, es[0]).0, StepOverHook(b, t, es[0]).0, es[1..]);
    }
  }

  lemma {:induction false} OutStaysAtEnd(depth: int, es: seq<Event>)
    requires OutStays(depth, es) && depth >= 0
    ensures OutDepth(depth, es) >= 0
    decreases |es|
  {
    if es != [] { OutStaysAtEnd(StepOutHook(depth, es[0]).0, es[1..]); }
  }

  lemma {:induction false} NoTailCallsAgree(depth: int, es: seq<Event>)
    requires TailCalls(es) == 0
    ensures OutStays(depth, es) <==> OverStays(depth, es)
    decreases |es|
  {
    if es != [] { NoTailCallsAgree(StepOutHook(depth, es[0]).0, es[1..]); }
  }

  // Take a trace es whose next event e ends the frame that was on top at the step out.  The
  // step-out counter first goes negative at e exactly when es has no tail call; any tail call
  // before makes it stop too early.
  lemma StepOutRightIff(vm: VM, es: seq<Event>, e: Event)
    requires WellFormed(vm) && vm.stack != [] && Trace(vm, es + [e])
    requires Trace(vm, es) && Survives(vm, es, Top(vm)) && Ends(After(vm, es), e, Top(vm))
    ensures (OutStays(0, es) && StepOutHook(OutDepth(0, es), e).0 < 0) <==> TailCalls(es) == 0
    ensures OutStays(0, es) && e.source != "" && e.source[0] == '@' ==> StepOutHook(OutDepth(0, es), e).1.Enter?
  {
    OverCounts(vm, es, |vm.stack|, Top(vm));
    WellFormedAfter(vm, es);
    OutCounts(0, es);
    var now := After(vm, es);
    assert |now.stack| == |vm.stack|;
    assert OverDepth(0, es) == 0;
    if OutStays(0, es) { OutStaysAtEnd(0, es); }
    if TailCalls(es) == 0 { NoTailCallsAgree(0, es); }
  }

  // The shortest such trace: a tail call into a Lua file makes the step out stop at once, with the
  // frame it was to leave still there.
  lemma TailCallStopsEarly(vm: VM, source: string)
    requires WellFormed(vm) && vm.stack != [] && source != "" && source[0] == '@'
    ensures Trace(vm, [TailCall(source)]) && Survives(vm, [TailCall(source)], Top(vm))
    ensures StepOutHook(OutDepth(0, []), TailCall(source)).1.Enter?
    ensures !(OutStays(0, [TailCall(source)]) && StepOutHook(OutDepth(0, [TailCall(source)]), Return(source)).0 < 0)
  {
    var es, e := [TailCall(source)], Return(source);
    assert es[1..] == [] && (es + [e])[1..] == [e] && [e][1..] == [];
    assert TailCalls(es) == 1 + TailCalls(es[1..]);
    StepOutRightIff(vm, es, e);
  }

  // ---------------------------------------------------------------- LuaGlue's hook state

  datatype HookType = NoHook | Instruction | LineHook | StepOutHookType | Breakpoints | StepOverHookType

  // the static step variables of LuaGlue.cpp and the hook installed in the Lua state
  class StepGlue {
    var hook: HookType
    var stepDepth: int
    var target: Target

    constructor ()
      ensures hook == NoHook
    {
      hook, stepDepth, target := NoHook, 0, Target(0, 0, "");
    }

    // SetLuaHook, as far as stepping goes
    method SetLuaHook(kind: HookType)
      modifies this
      ensures hook == kind && target == old(target)
      ensures stepDepth == if kind.StepOverHookType? || kind.StepOutHookType? then 0 else old(stepDepth)
    {
      hook := kind;
      if kind.StepOverHookType? || kind.StepOutHookType? {
        stepDepth := 0;
      }
    }

    // ResumeDaemon, STEP_OVER: nothing to step over on the function's last line
    method ResumeStepOver(source: string, line: int, validLines: seq<int>)
      requires validLines != [] && validLines[0] <= line <= validLines[|validLines| - 1]
      modifies this
      ensures line == validLines[|validLines| - 1] ==> hook == LineHook && target == Target(-1, -1, "")
      ensures line != validLines[|validLines| - 1] ==>
                hook == StepOverHookType && stepDepth == 0 && target == Target(line, validLines[|validLines| - 1], source)
    {
      var last := validLines[|validLines| - 1];
      if line == last {
        target := Target(-1, -1, "");
        SetLuaHook(LineHook);
      } else {
        target := Target(line, last, source);
        SetLuaHook(StepOverHookType);
      }
    }

    // lg_StepOverAndOutHookFunction
    method OnStepOverEvent(e: Event) returns (enter: bool)
      requires hook == StepOverHookType
      modifies this
      ensures target == old(target)
      ensures stepDepth == StepOverHook(old(stepDepth), target, e).0
      ensures enter <==> StepOverHook(old(stepDepth), target, e).1.Enter?
      ensures enter <==> e.Line? && target.first <= e.line <= target.last && e.source == target.source
                         && e.source != "" && e.source[0] == '@'
      ensures hook == if StepOverHook(old(stepDepth), target, e).1.OneMore? then Instruction else StepOverHookType
    {
      if e.Line? {
        if e.line < target.first || e.line > target.last { return false; }
      } else {
        if e.TailCall? { return false; }
        stepDepth := stepDepth + if e.Call? then 1 else -1;
        if stepDepth >= 0 { return false; }
        SetLuaHook(Instruction);
        return false;
      }
      if e.source == "" || e.source[0] != '@' { return false; }
      if target.source != e.source { return false; }
      return true;
    }

    // lg_StepOutHookFunction
    method OnStepOutEvent(e: Event) returns (enter: bool)
      requires hook == StepOutHookType && !e.Line?
      modifies this
      ensures target == old(target) && stepDepth == StepOutHook(old(stepDepth), e).0
      ensures enter <==> StepOutHook(old(stepDepth), e).1.Enter?
      ensures enter <==> stepDepth < 0 && e.source != "" && e.source[0] == '@'
      ensures hook == if enter then Instruction else StepOutHookType
    {
      stepDepth := stepDepth + if e.Call? then 1 else -1;
      if stepDepth >= 0 { return false; }
      if e.source == "" || e.source[0] != '@' { return false; }
      SetLuaHook(Instruction);
      return true;
    }
  }

  // A whole step over: the events of a Lua run are fed to the hook until it asks for more, enters
  // the debugger, or the trace is used up.  "fired" is the index of the deciding event.
  method StepOverRun(glue: StepGlue, vm: VM, es: seq<Event>) returns (fired: nat, enter: bool)
    requires WellFormed(vm) && vm.stack != [] && Trace(vm, es)
    requires glue.hook == StepOverHookType && glue.stepDepth == 0
    modifies glue
    ensures fired <= |es|
    ensures Trace(vm, es[..fired]) && Survives(vm, es[..fired], Top(vm))
    ensures fired < |es| && !enter ==> Ends(After(vm, es[..fired]), es[fired], Top(vm)) && glue.hook == Instruction
    ensures forall i | 0 <= i < fired :: StepOverHook(OverDepth(0, es[..i]), old(glue.target), es[i]).1.Mute?
    ensures forall i | 0 <= i < fired && es[i].Line? && es[i].source == old(glue.target.source) ::
              es[i].line < old(glue.target.first) || es[i].line > old(glue.target.last)
              || es[i].source == "" || es[i].source[0] != '@'
    ensures fired < |es| ==> !StepOverHook(OverDepth(0, es[..fired]), old(glue.target), es[fired]).1.Mute?
    ensures enter <==> fired < |es| && es[fired].Line? && es[fired].source == old(glue.target.source)
                       && old(glue.target.first) <= es[fired].line <= old(glue.target.last)
                       && es[fired].source != "" && es[fired].source[0] == '@'
  {
    fired, enter := 0, false;
    assert es[..0] == [];
    while fired < |es|
      invariant 0 <= fired <= |es|
      invariant glue.hook == StepOverHookType && glue.target == old(glue.target)
      invariant !enter && glue.stepDepth >= 0
      invariant OverStays(0, es[..fired]) && glue.stepDepth == OverDepth(0, es[..fired])
      invariant forall i | 0 <= i < fired :: StepOverHook(OverDepth(0, es[..i]), glue.target, es[i]).1.Mute?
      invariant forall i | 0 <= i < fired && es[i].Line? && es[i].source == glue.target.source ::
                  es[i].line < glue.target.first || es[i].line > glue.target.last
                  || es[i].source == "" || es[i].source[0] != '@'
    {
      TraceTake(vm, es, fired + 1);
      assert es[..fired + 1] == es[..fired] + [es[fired]];
      StepOverFiresAtReturn(vm, es[..fired], es[fired], glue.target);
      OverSnoc(0, es[..fired], es[fired]);
      enter := glue.OnStepOverEvent(es[fired]);
      if enter || glue.hook == Instruction { return; }
      fired := fired + 1;
    }
    assert es[..fired] == es;
    OverCounts(vm, es, |vm.stack|, Top(vm));
  }

  // A whole step out: calls and returns are fed to the hook until it enters the debugger, or the
  // trace is used up.  If no tail call came first and no return into C was passed over, the deciding
  // event ends the frame stepped out of if and only if it is a return.
  method StepOutRun(glue: StepGlue, vm: VM, es: seq<Event>) returns (fired: nat)
    requires WellFormed(vm) && vm.stack != [] && Trace(vm, es)
    requires glue.hook == StepOutHookType && glue.stepDepth == 0
    modifies glue
    ensures fired <= |es|
    ensures forall i | 0 <= i < fired :: StepOutHook(OutDepth(0, es[..i]), es[i]).1.Mute?
    ensures fired < |es| ==> StepOutHook(OutDepth(0, es[..fired]), es[fired]).1.Enter? && glue.hook == Instruction
    ensures fired < |es| ==> !es[fired].Line? && OutDepth(0, es[..fired + 1]) < 0
                             && es[fired].source != "" && es[fired].source[0] == '@'
    ensures forall i | 0 <= i < fired ::
              es[i].Line? || OutDepth(0, es[..i + 1]) >= 0 || es[i].source == "" || es[i].source[0] != '@'
    ensures fired < |es| && TailCalls(es[..fired]) == 0 && OutStays(0, es[..fired]) ==>
              Trace(vm, es[..fired]) && (Ends(After(vm, es[..fired]), es[fired], Top(vm)) <==> es[fired].Return?)
  {
    fired := 0;
    assert es[..0] == [];
    while fired < |es|
      invariant 0 <= fired <= |es|
      invariant glue.hook == StepOutHookType && glue.stepDepth == OutDepth(0, es[..fired])
      invariant forall i | 0 <= i < fired :: StepOutHook(OutDepth(0, es[..i]), es[i]).1.Mute?
      invariant forall i | 0 <= i < fired ::
                  es[i].Line? || OutDepth(0, es[..i + 1]) >= 0 || es[i].source == "" || es[i].source[0] != '@'
    {
      OutSnoc(0, es[..fired], es[fired]);
      assert es[..fired + 1] == es[..fired] + [es[fired]];
      if !es[fired].Line? {   // not hooked
        var enter := glue.OnStepOutEvent(es[fired]);
        if enter {
          TraceTake(vm, es, fired + 1);
          StepOutFiresAtReturn(vm, es[..fired], es[fired]);
          return;
        }
      }
      fired := fired + 1;
    }
  }

  lemma {:induction false} OutSnoc(depth: int, es: seq<Event>, e: Event)
    ensures OutDepth(depth, es + [e]) == StepOutHook(OutDepth(depth, es), e).0
    decreases |es|
  {
    if es == [] {
      assert [] + [e] == [e];
    } else {
      assert (es + [e])[0] == es[0] && (es + [e])[1..] == es[1..] + [e];
      OutSnoc(StepOutHook(depth, es[0]).0, es[1..], e);
    }
  }

  lemma StepOutFiresAtReturn(vm: VM, es: seq<Event>, e: Event)
    requires WellFormed(vm) && vm.stack != [] && Trace(vm, es + [e])
    requires StepOutHook(OutDepth(0, es), e).1.Enter?
    ensures Trace(vm, es)
    ensures TailCalls(es) == 0 && OutStays(0, es) ==> (Ends(After(vm, es), e, Top(vm)) <==> e.Return?)
  {
    TracePrefix(vm, es, e);
    if TailCalls(es) == 0 && OutStays(0, es) {
      NoTailCallsAgree(0, es);
      OutCounts(0, es);
      OverCounts(vm, es, |vm.stack|, Top(vm));
      StepOverFiresAtReturn(vm, es, e, Target(0, -1, ""));
      OutStaysAtEnd(0, es);
    }
  }

  lemma {:induction false} TraceTake(vm: VM, es: seq<Event>, n: nat)
    requires Trace(vm, es) && n <= |es|
    ensures Trace(vm, es[..n])
    decreases |es|
  {
    if n > 0 {
      assert es[..n][1..] == es[1..][..n - 1];
      TraceTake(Happen(vm, es[0]), es[1..], n - 1);
    }
  }

  lemma {:induction false} OverSnoc(depth: int, es: seq<Event>, e: Event)
    ensures OverDepth(depth, es + [e]) == StepOverHook(OverDepth(depth, es), Target(0, -1, ""), e).0
    ensures OverStays(depth, es) && OverDepth(depth, es + [e]) >= 0 ==> OverStays(depth, es + [e])
    decreases |es|
  {
    if es == [] {
      assert [] + [e] == [e];
    } else {
      assert (es + [e])[0] == es[0] && (es + [e])[1..] == es[1..] + [e];
      OverSnoc(StepOverHook(depth, Target(0, -1, ""), es[0]).0, es[1..], e);
    }
  }
}
