/** Reasoning about machine runs: from one configuration to another, to an end,
    or out of fuel.  With ok the stack limit is known not to be met; without it
    every statement leaves room for the machine's "stack overflow". */
module Reach {
  import opened Ast
  import opened Values
  import opened Bytecode
  import opened Machine
  import opened Places

  const OVERFLOW: RunRes := Faulted(StackOverflow)

  ghost predicate Yields(w: World, p: Prog, ip: nat, s: State, r: RunRes) {
    !r.OutOfFuel? && exists n: nat :: Run(w, n, p, ip, s) == r
  }

  /** The run ends with r. */
  ghost predicate Ends(ok: bool, w: World, p: Prog, ip: nat, s: State, r: RunRes) {
    Yields(w, p, ip, s, r) || (!ok && Yields(w, p, ip, s, OVERFLOW))
  }

  /** The run is not over after f units of fuel. */
  ghost predicate TimesOut(ok: bool, w: World, f: nat, p: Prog, ip: nat, s: State) {
    Run(w, f, p, ip, s).OutOfFuel? || (!ok && Run(w, f, p, ip, s) == OVERFLOW)
  }

  /** Execution from (ip, s) reaches (ip1, s1): it ends as from there, and it
      lasts at least `steps` units of fuel longer. */
  ghost predicate LeadsIn(ok: bool, w: World, p: Prog, ip: nat, s: State, ip1: nat, s1: State, steps: nat) {
    && (forall n: nat :: !Run(w, n, p, ip1, s1).OutOfFuel? ==> Ends(ok, w, p, ip, s, Run(w, n, p, ip1, s1)))
    && (forall n: nat :: Run(w, n, p, ip1, s1).OutOfFuel? ==> TimesOut(ok, w, n + steps, p, ip, s))
  }

  ghost predicate Leads(ok: bool, w: World, p: Prog, ip: nat, s: State, ip1: nat, s1: State) {
    LeadsIn(ok, w, p, ip, s, ip1, s1, 0)
  }

  /** The same in at least one step. */
  ghost predicate LeadsOn(ok: bool, w: World, p: Prog, ip: nat, s: State, ip1: nat, s1: State) {
    LeadsIn(ok, w, p, ip, s, ip1, s1, 1)
  }

  lemma YieldsRun(w: World, p: Prog, ip: nat, s: State, r: RunRes, n: nat)
    requires Yields(w, p, ip, s, r)
    ensures Run(w, n, p, ip, s).OutOfFuel? || Run(w, n, p, ip, s) == r
  {
    var m: nat :| Run(w, m, p, ip, s) == r;
    if !Run(w, n, p, ip, s).OutOfFuel? {
      if n <= m { MoreFuel(w, n, m, p, ip, s); } else { MoreFuel(w, m, n, p, ip, s); }
    }
  }

  lemma LeadsRefl(ok: bool, w: World, p: Prog, ip: nat, s: State)
    ensures Leads(ok, w, p, ip, s, ip, s)
  {
    hide Run;
  }

  /** A run that overflows reaches everything, when overflow is allowed. */
  lemma LeadsOverflow(w: World, p: Prog, ip: nat, s: State, ip1: nat, s1: State, steps: nat)
    requires Yields(w, p, ip, s, OVERFLOW)
    ensures LeadsIn(false, w, p, ip, s, ip1, s1, steps)
  {
    hide Run;
    forall n: nat ensures TimesOut(false, w, n, p, ip, s) {
      YieldsRun(w, p, ip, s, OVERFLOW, n);
    }
  }

  lemma LeadsEnds(ok: bool, w: World, p: Prog, ip: nat, s: State, ip1: nat, s1: State, r: RunRes)
    requires Leads(ok, w, p, ip, s, ip1, s1) && Ends(ok, w, p, ip1, s1, r)
    ensures Ends(ok, w, p, ip, s, r)
  {
    hide Run;
    var r1 := if Yields(w, p, ip1, s1, r) then r else OVERFLOW;
    var n: nat :| Run(w, n, p, ip1, s1) == r1;
    assert Ends(ok, w, p, ip, s, r1);
  }

  lemma LeadsTimesOut(ok: bool, w: World, f: nat, p: Prog, ip: nat, s: State, ip1: nat, s1: State, steps: nat)
    requires LeadsIn(ok, w, p, ip, s, ip1, s1, steps) && TimesOut(ok, w, f, p, ip1, s1)
    ensures TimesOut(ok, w, f + steps, p, ip, s)
  {
    hide Run;
    if !Run(w, f, p, ip1, s1).OutOfFuel? {
      assert Ends(ok, w, p, ip, s, OVERFLOW);
      YieldsRun(w, p, ip, s, OVERFLOW, f + steps);
    }
  }

  lemma LeadsTransIn(ok: bool, w: World, p: Prog, ip: nat, s: State, ip1: nat, s1: State, ip2: nat, s2: State, a: nat,
      b: nat)
    requires LeadsIn(ok, w, p, ip, s, ip1, s1, a) && LeadsIn(ok, w, p, ip1, s1, ip2, s2, b)
    ensures LeadsIn(ok, w, p, ip, s, ip2, s2, b + a)
  {
    hide Run;
    forall n: nat | !Run(w, n, p, ip2, s2).OutOfFuel?
      ensures Ends(ok, w, p, ip, s, Run(w, n, p, ip2, s2))
    {
      LeadsWeaken(ok, w, p, ip, s, ip1, s1, a);
      LeadsEnds(ok, w, p, ip, s, ip1, s1, Run(w, n, p, ip2, s2));
    }
    forall n: nat | Run(w, n, p, ip2, s2).OutOfFuel?
      ensures TimesOut(ok, w, n + (b + a), p, ip, s)
    {
      assert TimesOut(ok, w, n + b, p, ip1, s1);
      LeadsTimesOut(ok, w, n + b, p, ip, s, ip1, s1, a);
      assert n + b + a == n + (b + a);
    }
  }

  /** Running out of fuel is no easier with less of it. */
  lemma TimesOutLess(ok: bool, w: World, n: nat, m: nat, p: Prog, ip: nat, s: State)
    requires n <= m && TimesOut(ok, w, m, p, ip, s)
    ensures TimesOut(ok, w, n, p, ip, s)
  {
    hide Run;
    if !Run(w, n, p, ip, s).OutOfFuel? { MoreFuel(w, n, m, p, ip, s); }
  }

  lemma LeadsWeaken(ok: bool, w: World, p: Prog, ip: nat, s: State, ip1: nat, s1: State, steps: nat)
    requires LeadsIn(ok, w, p, ip, s, ip1, s1, steps)
    ensures Leads(ok, w, p, ip, s, ip1, s1)
  {
    hide Run;
    forall n: nat | Run(w, n, p, ip1, s1).OutOfFuel? ensures TimesOut(ok, w, n + 0, p, ip, s) {
      assert TimesOut(ok, w, n + steps, p, ip, s);
      TimesOutLess(ok, w, n, n + steps, p, ip, s);
    }
  }

  lemma LeadsTrans(ok: bool, w: World, p: Prog, ip: nat, s: State, ip1: nat, s1: State, ip2: nat, s2: State)
    requires Leads(ok, w, p, ip, s, ip1, s1) && Leads(ok, w, p, ip1, s1, ip2, s2)
    ensures Leads(ok, w, p, ip, s, ip2, s2)
  {
    hide LeadsIn;
    LeadsTransIn(ok, w, p, ip, s, ip1, s1, ip2, s2, 0, 0);
  }

  lemma LeadsThenOn(ok: bool, w: World, p: Prog, ip: nat, s: State, ip1: nat, s1: State, ip2: nat, s2: State)
    requires Leads(ok, w, p, ip, s, ip1, s1) && LeadsOn(ok, w, p, ip1, s1, ip2, s2)
    ensures LeadsOn(ok, w, p, ip, s, ip2, s2)
  {
    hide LeadsIn;
    LeadsTransIn(ok, w, p, ip, s, ip1, s1, ip2, s2, 0, 1);
  }

  // ----- one instruction -----

  lemma OneStep(ok: bool, w: World, p: Prog, ip: nat, i: Instr, s: State, ip1: nat, s1: State)
    requires Fits(i) && At(p.code, ip, Enc(i))
    requires Step(w, p, i, ip + Size(i), s) == Next(ip1, s1)
    ensures LeadsOn(ok, w, p, ip, s, ip1, s1)
  {
    DecodeEnc(p.code, ip, i);
    hide Step, Decode, Enc, Size, At;
    forall n: nat ensures Run(w, n + 1, p, ip, s) == Run(w, n, p, ip1, s1) {
    }
  }

  lemma OneEnd(ok: bool, w: World, p: Prog, ip: nat, i: Instr, s: State, r: RunRes)
    requires Fits(i) && At(p.code, ip, Enc(i))
    requires match Step(w, p, i, ip + Size(i), s)
             case Halt(s1) => r == Halted(s1)
             case Abort(f) => r == Faulted(f)
             case _ => false
    ensures Ends(ok, w, p, ip, s, r) && Yields(w, p, ip, s, r)
  {
    DecodeEnc(p.code, ip, i);
    hide Step, Decode, Enc, Size, At;
    assert Run(w, 1, p, ip, s) == r;
  }

  /** An instruction that pushes v onto s0, with or without room for it. */
  lemma OnePush(ok: bool, w: World, p: Prog, ip: nat, i: Instr, s: State, s0: State, v: Val)
    requires Fits(i) && At(p.code, ip, Enc(i))
    requires Step(w, p, i, ip + Size(i), s) == Push(s0, ip + Size(i), v)
    requires ok ==> |s0.stack| < STACK_MAX
    ensures Leads(ok, w, p, ip, s, ip + Size(i), s0.(stack := s0.stack + [v]))
  {
    hide Step, Enc, Size, At, LeadsIn;
    if |s0.stack| < STACK_MAX {
      OneStep(ok, w, p, ip, i, s, ip + Size(i), s0.(stack := s0.stack + [v]));
      LeadsWeaken(ok, w, p, ip, s, ip + Size(i), s0.(stack := s0.stack + [v]), 1);
    } else {
      OneEnd(ok, w, p, ip, i, s, OVERFLOW);
      LeadsOverflow(w, p, ip, s, ip + Size(i), s0.(stack := s0.stack + [v]), 0);
    }
  }

  // ----- calls -----

  lemma OneCall(w: World, n: nat, p: Prog, ip: nat, i: Instr, s: State, fv: Val, args: seq<Val>, s0: State)
    requires Fits(i) && At(p.code, ip, Enc(i))
    requires Step(w, p, i, ip + Size(i), s) == Invoke(fv, args, s0)
    requires fv.FnV? && |fv.decl.params| == |args|
    ensures Run(w, n + 1, p, ip, s) == RunCall(w, n, p, ip + Size(i), fv, args, s0)
  {
    DecodeEnc(p.code, ip, i);
    hide Step, Decode, Enc, Size, At, RunCall;
  }

  /** The instruction at ip invokes fv from s0, and the callee halts in t. */
  lemma CallLeads(w: World, p: Prog, ip: nat, i: Instr, s: State, fv: Val, args: seq<Val>, s0: State, t: State)
    requires Fits(i) && At(p.code, ip, Enc(i))
    requires Step(w, p, i, ip + Size(i), s) == Invoke(fv, args, s0)
    requires fv.FnV? && |fv.decl.params| == |args|
    requires Ends(false, w, FnProg(fv.decl), 0, EnterCall(fv, args, s0), Halted(t))
    requires LeaveCall(fv, s0, t).Some?
    ensures var back := LeaveCall(fv, s0, t).value;
      Leads(false, w, p, ip, s, ip + Size(i), back.1.(stack := back.1.stack + [back.0]))
  {
    hide Step, Enc, Size, At, LeaveCall, FnProg, EnterCall, RunCall, Run, LeadsIn;
    var next := ip + Size(i);
    var q := FnProg(fv.decl);
    var s1 := EnterCall(fv, args, s0);
    var back := LeaveCall(fv, s0, t).value;
    var s2 := back.1.(stack := back.1.stack + [back.0]);
    forall n: nat ensures Run(w, n + 1, p, ip, s) == RunCall(w, n, p, next, fv, args, s0) {
      OneCall(w, n, p, ip, i, s, fv, args, s0);
    }
    if Yields(w, q, 0, s1, OVERFLOW) {
      var m: nat :| Run(w, m, q, 0, s1) == OVERFLOW;
      RunCallOf(w, m, p, next, fv, args, s0, OVERFLOW);
      assert Run(w, m + 1, p, ip, s) == OVERFLOW;
      LeadsOverflow(w, p, ip, s, next, s2, 0);
    } else if |back.1.stack| >= STACK_MAX {
      var m: nat :| Run(w, m, q, 0, s1) == Halted(t);
      RunCallOf(w, m, p, next, fv, args, s0, Halted(t));
      assert Run(w, m + 1, p, ip, s) == OVERFLOW;
      LeadsOverflow(w, p, ip, s, next, s2, 0);
    } else {
      CallReturns(w, p, ip, s, next, fv, args, s0, t);
    }
  }

  /** RunCall in terms of the callee's result. */
  lemma RunCallOf(w: World, n: nat, p: Prog, next: nat, fv: Val, args: seq<Val>, s0: State, r: RunRes)
    requires fv.FnV? && |fv.decl.params| == |args|
    requires Run(w, n, FnProg(fv.decl), 0, EnterCall(fv, args, s0)) == r
    ensures RunCall(w, n, p, next, fv, args, s0) ==
      if !r.Halted? then r else
      var back := LeaveCall(fv, s0, r.st);
      if back.None? then Faulted(Stuck)
      else if |back.value.1.stack| >= STACK_MAX then OVERFLOW
      else Run(w, n, p, next, back.value.1.(stack := back.value.1.stack + [back.value.0]))
  {
    hide Run, FnProg, EnterCall, LeaveCall;
  }

  lemma CallReturns(w: World, p: Prog, ip: nat, s: State, next: nat, fv: Val, args: seq<Val>, s0: State, t: State)
    requires fv.FnV? && |fv.decl.params| == |args|
    requires forall n: nat :: Run(w, n + 1, p, ip, s) == RunCall(w, n, p, next, fv, args, s0)
    requires Yields(w, FnProg(fv.decl), 0, EnterCall(fv, args, s0), Halted(t))
    requires LeaveCall(fv, s0, t).Some? && |LeaveCall(fv, s0, t).value.1.stack| < STACK_MAX
    ensures var back := LeaveCall(fv, s0, t).value;
      Leads(false, w, p, ip, s, next, back.1.(stack := back.1.stack + [back.0]))
  {
    hide LeaveCall, FnProg, EnterCall, RunCall, Run;
    var q := FnProg(fv.decl);
    var s1 := EnterCall(fv, args, s0);
    var back := LeaveCall(fv, s0, t).value;
    var s2 := back.1.(stack := back.1.stack + [back.0]);
    var m: nat :| Run(w, m, q, 0, s1) == Halted(t);
    forall n: nat | !Run(w, n, p, next, s2).OutOfFuel?
      ensures Ends(false, w, p, ip, s, Run(w, n, p, next, s2))
    {
      var big := n + m;
      MoreFuel(w, m, big, q, 0, s1);
      MoreFuel(w, n, big, p, next, s2);
      RunCallOf(w, big, p, next, fv, args, s0, Halted(t));
      assert Run(w, big + 1, p, ip, s) == Run(w, n, p, next, s2);
    }
    forall n: nat | Run(w, n, p, next, s2).OutOfFuel?
      ensures TimesOut(false, w, n + 0, p, ip, s)
    {
      YieldsRun(w, q, 0, s1, Halted(t), n);
      RunCallOf(w, n, p, next, fv, args, s0, Run(w, n, q, 0, s1));
      assert Run(w, n + 1, p, ip, s).OutOfFuel?;
      TimesOutLess(false, w, n, n + 1, p, ip, s);
    }
  }

  /** A fault in the callee is a fault of the caller. */
  lemma CallFaults(w: World, p: Prog, ip: nat, i: Instr, s: State, fv: Val, args: seq<Val>, s0: State, fault: Fault)
    requires Fits(i) && At(p.code, ip, Enc(i))
    requires Step(w, p, i, ip + Size(i), s) == Invoke(fv, args, s0)
    requires fv.FnV? && |fv.decl.params| == |args|
    requires Ends(false, w, FnProg(fv.decl), 0, EnterCall(fv, args, s0), Faulted(fault))
    ensures Ends(false, w, p, ip, s, Faulted(fault))
  {
    hide Step, Enc, Size, At, LeaveCall, FnProg, EnterCall, RunCall, Run;
    var q := FnProg(fv.decl);
    var s1 := EnterCall(fv, args, s0);
    var r := if Yields(w, q, 0, s1, Faulted(fault)) then Faulted(fault) else OVERFLOW;
    var m: nat :| Run(w, m, q, 0, s1) == r;
    OneCall(w, m, p, ip, i, s, fv, args, s0);
    RunCallOf(w, m, p, ip + Size(i), fv, args, s0, r);
    assert Run(w, m + 1, p, ip, s) == r;
  }

  /** A callee that is not over after f units keeps the caller busy for f + 1. */
  lemma CallTimesOut(w: World, f: nat, p: Prog, ip: nat, i: Instr, s: State, fv: Val, args: seq<Val>, s0: State)
    requires Fits(i) && At(p.code, ip, Enc(i))
    requires Step(w, p, i, ip + Size(i), s) == Invoke(fv, args, s0)
    requires fv.FnV? && |fv.decl.params| == |args|
    requires TimesOut(false, w, f, FnProg(fv.decl), 0, EnterCall(fv, args, s0))
    ensures TimesOut(false, w, f + 1, p, ip, s)
  {
    DecodeEnc(p.code, ip, i);
    hide Step, Decode, Enc, Size, At, LeaveCall, FnProg, EnterCall, RunCall;
    RunCallOf(w, f, p, ip + Size(i), fv, args, s0, Run(w, f, FnProg(fv.decl), 0, EnterCall(fv, args, s0)));
  }
}
