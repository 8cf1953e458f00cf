/** How much stack a run can need: every call in progress has no more of it than its
    chunk's highest point, and so the depth of calls times that bounds the whole. */
module StackDepth {
  import opened Ast
  import opened Values
  import opened Bytecode
  import opened Machine
  import opened Shapes
  import opened Orderly
  import opened Verified
  import opened Correctness
  import opened Fragment
  import opened Reach
  import opened Semantics
  import opened CheckedCode

  /** With room for three values more at every instruction, which no instruction exceeds. */
  ghost predicate HighestIs(m: Points, n: nat) { forall q :: q in m ==> Height(m[q].shape) + 3 <= n }

  /** The chunk passes the check with stack shapes of that height. */
  ghost predicate Needs(p: Prog, n: nat) {
    exists m: Points :: Checks(p, 0, |p.code|, m, map[]) && m[0] == Point([], 0) && HighestIs(m, n)
  }

  /** A run whose calls nest no deeper than d, and enter functions of that need only. */
  ghost predicate Modest(w: World, fuel: nat, p: Prog, ip: nat, s: State, n: nat, d: nat)
    decreases fuel, 0
  {
    fuel > 0 && ip < |p.code| && Decode(p.code, ip).Some? ==>
      var i := Decode(p.code, ip).value; var next := ip + Size(i);
      match Step(w, p, i, next, s)
      case Next(ip1, s1) => Modest(w, fuel - 1, p, ip1, s1, n, d)
      case Invoke(fv, args, s1) =>
        fv.FnV? && |fv.decl.params| == |args| ==> ModestCall(w, fuel - 1, p, next, fv, args, s1, n, d)
      case _ => true
  }

  ghost predicate ModestCall(w: World, fuel: nat, p: Prog, ip: nat, fv: Val, args: seq<Val>, s: State, n: nat, d: nat)
    requires fv.FnV? && |fv.decl.params| == |args|
    decreases fuel, 1
  {
    var q, s1 := FnProg(fv.decl), EnterCall(fv, args, s);
    && |s.frames| < d && Needs(q, n) && Modest(w, fuel, q, 0, s1, n, d)
    && var r := Run(w, fuel, q, 0, s1);
       (r.Halted? && LeaveCall(fv, s, r.st).Some? ==>
          var back := LeaveCall(fv, s, r.st).value;
          Modest(w, fuel, p, ip, back.1.(stack := back.1.stack + [back.0]), n, d))
  }

  /** Two free cells are enough for any instruction. */
  lemma RoomForStep(w: World, p: Prog, i: Instr, ip: nat, s: State)
    requires Fits(i) && |s.stack| + 2 <= STACK_MAX
    ensures Step(w, p, i, ip, s) != Abort(StackOverflow)
  {
    hide VmBinary, VmUnary, VmIndex, Unzip, DefineVar, AssignVar, Lookup, FindPair, Truthy;
  }

  /** What a call takes away from the caller's stack is at least its callee. */
  lemma InvokeTakes(w: World, p: Prog, i: Instr, ip: nat, s: State)
    requires Fits(i) && Step(w, p, i, ip, s).Invoke?
    ensures |Step(w, p, i, ip, s).st.stack| < |s.stack| && Step(w, p, i, ip, s).st.frames == s.frames
  {
    hide VmBinary, VmUnary, VmIndex, Unzip, DefineVar, AssignVar, Lookup, FindPair, Truthy;
  }

  /** Cells for one more call. */
  lemma OneLess(n: nat, d: nat, k: nat, low: nat, top: nat)
    requires k < d && top + 3 <= low + n && low + (d - k + 1) * n <= STACK_MAX
    ensures top + (d - (k + 1) + 1) * n <= STACK_MAX
  {
    assert (d - k + 1) * n == (d - k) * n + n;
  }

  lemma RoomHere(n: nat, d: nat, k: nat, low: nat)
    requires k <= d && low + (d - k + 1) * n <= STACK_MAX
    ensures low + n <= STACK_MAX
  {
    assert (d - k + 1) * n == (d - k) * n + n;
  }

  lemma NeededPoints(p: Prog, n: nat) returns (m: Points)
    requires Needs(p, n)
    ensures Checks(p, 0, |p.code|, m, map[]) && 0 in m && m[0] == Point([], 0) && HighestIs(m, n)
  {
    hide InstrChecks, Follows, HighestIs;
    m :| Checks(p, 0, |p.code|, m, map[]) && m[0] == Point([], 0) && HighestIs(m, n);
  }

  lemma {:induction false} RunFits(w: World, fuel: nat, p: Prog, m: Points, ip: nat, s: State, low: seq<Val>,
      floor: nat, n: nat, d: nat)
    requires Checks(p, 0, |p.code|, m, map[]) && ip in m && Stands(s, m[ip], low, floor) && SafeState(s)
    requires SafeWorld(w) && SafeConsts(p) && FunctionsCheck()
    requires HighestIs(m, n) && Modest(w, fuel, p, ip, s, n, d)
    requires |s.frames| <= d && |low| + (d - |s.frames| + 1) * n <= STACK_MAX
    ensures Run(w, fuel, p, ip, s) != Faulted(StackOverflow)
    decreases fuel, 0
  {
    hide Flow, Step, StepsOn, Stands, SafeState, SafeWorld, SafeConsts, Decode, LandAll, Checks, FunctionsCheck,
      RunsClean, FnProg, EnterCall, LeaveCall, RunCall, ModestCall, Size, Below, SafeVs, SafeV, Height;
    if fuel > 0 && ip < |p.code| {
      OnBoundary(p, m, ip, w, s, low, floor);
      StandsHeight(s, m[ip], low, floor);
      RoomHere(n, d, |s.frames|, |low|);
      var i := Decode(p.code, ip).value;
      var next := ip + Size(i);
      var e := Flow(p, i, next, m[ip]);
      RoomForStep(w, p, i, next, s);
      StepKeepsFrames(w, p, i, next, s);
      match Step(w, p, i, next, s)
      case Next(ip1, s1) =>
        NextOnBoundary(e, m, ip1, s1, low, floor);
        RunFits(w, fuel - 1, p, m, ip1, s1, low, floor, n, d);
      case Halt(s1) =>
      case Abort(_) =>
      case Invoke(fv, args, s1) =>
        InvokeParts(w, p, i, next, s, m[ip], fv, args, s1, low, floor);
        CallLands(e, m);
        InvokeTakes(w, p, i, next, s);
        CallFits(w, fuel - 1, p, m, next, fv, args, s1, e.pt, low, floor, n, d);
    }
  }

  lemma {:induction false} CallFits(w: World, fuel: nat, p: Prog, m: Points, next: nat, fv: Val, args: seq<Val>,
      s1: State, pt: Point, low: seq<Val>, floor: nat, n: nat, d: nat)
    requires Checks(p, 0, |p.code|, m, map[]) && next in m && Below(pt, m[next])
    requires fv.FnV? && SafeV(fv) && SafeVs(args) && |fv.decl.params| == |args| && SafeState(s1)
    requires pt.shape != [] && pt.shape[|pt.shape| - 1] == Any
    requires Stands(s1, pt.(shape := pt.shape[..|pt.shape| - 1]), low, floor)
    requires SafeWorld(w) && SafeConsts(p) && FunctionsCheck()
    requires HighestIs(m, n) && ModestCall(w, fuel, p, next, fv, args, s1, n, d)
    requires |s1.frames| <= d && |low| + (d - |s1.frames| + 1) * n <= STACK_MAX && |s1.stack| + 3 <= |low| + n
    ensures RunCall(w, fuel, p, next, fv, args, s1) != Faulted(StackOverflow)
    decreases fuel, 2
  {
    hide Run, Stands, SafeState, SafeV, SafeVs, SafeWorld, SafeConsts, FunctionsCheck, RunsClean, FnProg, EnterCall,
      LeaveCall, Checks, Below, OrderlyFn, Modest, Height;
    var q, s2 := FnProg(fv.decl), EnterCall(fv, args, s1);
    CalleeFits(w, fuel, fv, args, s1, |low|, n, d);
    CalleeRun(w, fuel, fv, args, s1);
    FramesKept(w, fuel, q, 0, s2);
    var r := Run(w, fuel, q, 0, s2);
    if r.Halted? {
      CallComesBack(fv, args, s1, r.st, pt, m[next], low, floor, CallFloor(fv, s1));
      BackInCaller(fv, args, s1, r.st);
      RoomHere(n, d, |s1.frames|, |low|);
      var back := LeaveCall(fv, s1, r.st).value;
      RunFits(w, fuel, p, m, next, back.1.(stack := back.1.stack + [back.0]), low, floor, n, d);
    }
  }

  lemma {:induction false} CalleeFits(w: World, fuel: nat, fv: Val, args: seq<Val>, s1: State, low: nat, n: nat, d: nat)
    requires fv.FnV? && SafeV(fv) && SafeVs(args) && |fv.decl.params| == |args| && SafeState(s1) && SafeWorld(w)
    requires FunctionsCheck()
    requires |s1.frames| < d && Needs(FnProg(fv.decl), n)
    requires Modest(w, fuel, FnProg(fv.decl), 0, EnterCall(fv, args, s1), n, d)
    requires low + (d - |s1.frames| + 1) * n <= STACK_MAX && |s1.stack| + 3 <= low + n
    ensures Run(w, fuel, FnProg(fv.decl), 0, EnterCall(fv, args, s1)) != Faulted(StackOverflow)
    decreases fuel, 1
  {
    hide Run, Stands, SafeState, SafeV, SafeVs, SafeWorld, SafeConsts, FunctionsCheck, FnProg, Checks, OrderlyFn,
      Modest, HighestIs, BindParams;
    var q, s2 := FnProg(fv.decl), EnterCall(fv, args, s1);
    SafeEnter(fv, args, s1);
    var checked := CheckedFunction(fv.decl);
    var m := NeededPoints(q, n);
    EmptyStands(s2, s1.stack, CallFloor(fv, s1));
    OneLess(n, d, |s1.frames|, low, |s1.stack|);
    assert |s2.frames| == |s1.frames| + 1;
    RunFits(w, fuel, q, m, 0, s2, s1.stack, CallFloor(fv, s1), n, d);
  }

  /** An orderly program whose calls nest at most d deep, in chunks that need at most n
      cells each, never overflows the stack if d + 1 times n cells fit. */
  lemma DepthBoundsStack(w: World, fuel: nat, ss: seq<Stmt>, n: nat, d: nat)
    requires SafeWorld(w) && OrderlyProgram(ss) && Needs(Compiled(ss), n) && (d + 1) * n <= 1024
    requires Modest(w, fuel, Compiled(ss), 0, START, n, d)
    ensures Run(w, fuel, Compiled(ss), 0, START) != Faulted(StackOverflow)
  {
    hide Run, OrderlyProgram, Compiled, Checks, FunctionsCheck, SafeWorld, SafeConsts, SafeV, Modest, HighestIs, Stands;
    var p := Compiled(ss);
    ProgramSafe(ss);
    AllFunctionsCheck();
    var m := NeededPoints(p, n);
    EmptyStands(START, [], 0);
    RunFits(w, fuel, p, m, 0, START, [], 0, n, d);
  }

  /** Such a run of a program that the compiler theorems speak about shows what the source
      means, and nothing else. */
  lemma DepthBoundsMeaning(w: World, fuel: nat, ss: seq<Stmt>, n: nat, d: nat)
    requires SafeWorld(w) && OrderlyProgram(ss) && Needs(Compiled(ss), n) && (d + 1) * n <= 1024
    requires Modest(w, fuel, Compiled(ss), 0, START, n, d) && GoodWorld(w) && CoreProgram(ss)
    ensures var r := Run(w, fuel, Compiled(ss), 0, START); r.OutOfFuel? || Matches(ExecProgram(w, fuel, ss), r)
  {
    hide *;
    DepthBoundsStack(w, fuel, ss, n, d);
    MachineCorrect(w, fuel, ss);
    OverflowIs();
  }

  lemma OverflowIs()
    ensures OVERFLOW == Faulted(StackOverflow)
  {
  }
}
