/** What the simulation means for whole programs, calls, blocks and expressions,
    and where the compiler falls short of it. */
module Correctness {
  import opened Ast
  import opened Values
  import opened Semantics
  import opened Bytecode
  import opened CodeGen
  import opened Machine
  import opened Places
  import opened Reach
  import opened Fragment
  import opened Simulation

  const START: State := State([], [], [])

  function Compiled(ss: seq<Stmt>): Prog {
    Prog(ProgramCode(ss), ProgramConsts(ss))
  }

  /** A finished run is what a finished outcome says: the value on top, the
      final bindings, no frame left; or the same error. */
  ghost predicate Matches(o: Out, r: RunRes) {
    match o
    case Returned(v, env) => r.Halted? && r.st.stack != [] && Top(r.st, 0) == v && r.st.env == env && r.st.frames == []
    case Error(e) => r == Faulted(Raised(e))
    case _ => false
  }

  lemma ProgramSim(ok: bool, w: World, f: nat, ss: seq<Stmt>)
    requires GoodWorld(w) && CoreProgram(ss) && (ok ==> NeedSs(ss) <= STACK_MAX)
    ensures var o := ExecProgram(w, f, ss); var p := Compiled(ss);
      if o.Timeout? then TimesOut(ok, w, f, p, 0, START)
      else exists r :: Matches(o, r) && Ends(ok, w, p, 0, START, r)
  {
    hide Run, Ends, TimesOut, LeadsIn, GoodWorld, Enc, CodeSs, ConstsSs, CoreSs, NeedSs, ExecList;
    var p := Compiled(ss);
    var c := CodeSs(ss, 0, TOP, 0, true);
    assert At(p.code, 0, c + Enc(ReturnNil)) by { assert p.code[0..|p.code|] == p.code; }
    assert At(p.consts, 0, ConstsSs(ss)) by { assert p.consts[0..|p.consts|] == p.consts; }
    AtSplit(p.code, 0, c, Enc(ReturnNil));
    hide At;
    SimSs(ok, w, f, ss, 0, TOP, 0, 0, 0, true, p, 0, START);
    var o := ExecList(w, f, 0, ss, []);
    if o.Normal? {
      ThenReturnNil(ok, w, p, 0, START, |c|, o.env);
      assert Matches(Returned(NilV, o.env), Halted(After(START, [NilV], o.env)));
    } else if o.Returned? {
      var junk :| ReturnsWith(ok, w, p, 0, START, [], junk, o.v, o.env);
      assert Matches(o, Halted(State([] + junk + [o.v], o.env, [])));
    } else if o.Error? {
      assert Matches(o, Faulted(Raised(o.err)));
    }
  }

  /** Compiled code does what the source means: a program that finishes makes the
      machine finish with the same value and bindings, or the same error; one
      that runs on keeps the machine running.  The machine may only run out of
      its 1024 stack slots instead. */
  lemma CompilerCorrect(w: World, f: nat, ss: seq<Stmt>)
    requires GoodWorld(w) && CoreProgram(ss)
    ensures var o := ExecProgram(w, f, ss);
      if o.Timeout? then Run(w, f, Compiled(ss), 0, START).OutOfFuel? || Run(w, f, Compiled(ss), 0, START) == OVERFLOW
      else exists n: nat :: (var r := Run(w, n, Compiled(ss), 0, START); Matches(o, r) || r == OVERFLOW)
  {
    hide Run, Compiled, CoreProgram, GoodWorld, ExecProgram, Matches;
    ProgramSim(false, w, f, ss);
  }

  /** Nothing else happens: whatever a finished machine run shows is what the
      source means, with as much fuel as the run had steps. */
  lemma MachineCorrect(w: World, n: nat, ss: seq<Stmt>)
    requires GoodWorld(w) && CoreProgram(ss)
    ensures var r := Run(w, n, Compiled(ss), 0, START);
      r.OutOfFuel? || r == OVERFLOW || Matches(ExecProgram(w, n, ss), r)
  {
    hide Run, Compiled, CoreProgram, GoodWorld, ExecProgram, Matches;
    var p := Compiled(ss);
    ProgramSim(false, w, n, ss);
    var o := ExecProgram(w, n, ss);
    if !o.Timeout? {
      var r :| Matches(o, r) && Ends(false, w, p, 0, START, r);
      YieldsRun(w, p, 0, START, if Yields(w, p, 0, START, r) then r else OVERFLOW, n);
    }
  }

  /** No reachable state pops an empty stack, leaves the chunk, reads a constant
      of the wrong kind or sees anything but an iterator under ITER_NEXT. */
  lemma NeverStuck(w: World, n: nat, ss: seq<Stmt>)
    requires GoodWorld(w) && CoreProgram(ss)
    ensures Run(w, n, Compiled(ss), 0, START) != Faulted(Stuck)
  {
    hide Run, Compiled, CoreProgram, GoodWorld, ExecProgram;
    MachineCorrect(w, n, ss);
  }

  /** A program whose statically computed need fits the stack never overflows it. */
  lemma NeverOverflows(w: World, n: nat, ss: seq<Stmt>)
    requires GoodWorld(w) && CoreProgram(ss) && NeedSs(ss) <= 1024
    ensures var r := Run(w, n, Compiled(ss), 0, START);
      r.OutOfFuel? || Matches(ExecProgram(w, n, ss), r)
  {
    hide Run, Compiled, CoreProgram, GoodWorld, ExecProgram, NeedSs;
    var p := Compiled(ss);
    ProgramSim(true, w, n, ss);
    var o := ExecProgram(w, n, ss);
    if !o.Timeout? {
      var r :| Matches(o, r) && Ends(true, w, p, 0, START, r);
      YieldsRun(w, p, 0, START, r, n);
    }
  }

  // ----- expressions -----

  /** An expression whose need is within the stack calls no function, and so
      neither runs out of fuel nor breaks out of anything. */
  lemma {:induction false} CallFree(w: World, f: nat, d: nat, e: Expr, env: Env)
    requires NeedE(e) <= STACK_MAX
    ensures var o := Eval(w, f, d, e, env); o.Value? || o.Error? || o.Returned?
    decreases e
  {
    hide TreeBinary, TreeUnary, TreeField, TreeIndex, Apply;
    match e
    case Unary(_, a) => CallFree(w, f, d, a, env);
    case Field(o, _) => CallFree(w, f, d, o, env);
    case ResultLit(_, a) => CallFree(w, f, d, a, env);
    case Try(a) => CallFree(w, f, d, a, env);
    case Binary(_, a, b) =>
      CallFree(w, f, d, a, env);
      var r := Eval(w, f, d, a, env);
      if r.Value? { CallFree(w, f, d, b, r.env); }
    case Index(a, b) =>
      CallFree(w, f, d, a, env);
      var r := Eval(w, f, d, a, env);
      if r.Value? { CallFree(w, f, d, b, r.env); }
    case Call(_, args) => CallFreeList(w, f, d, args, env);
    case ArrayLit(es) => CallFreeList(w, f, d, es, env);
    case MapLit(ps) => CallFreePairs(w, f, d, ps, env);
    case StructLit(_, ps) => CallFreePairs(w, f, d, ps, env);
    case _ =>
  }

  lemma {:induction false} CallFreeList(w: World, f: nat, d: nat, es: seq<Expr>, env: Env)
    requires NeedEs(es) <= STACK_MAX
    ensures var o := EvalList(w, f, d, es, env); o.Values? || o.Error? || o.Returned?
    decreases es
  {
    hide Eval;
    if es != [] {
      CallFree(w, f, d, es[0], env);
      var h := Eval(w, f, d, es[0], env);
      if h.Value? { CallFreeList(w, f, d, es[1..], h.env); }
    }
  }

  lemma {:induction false} CallFreePairs(w: World, f: nat, d: nat, ps: seq<Entry>, env: Env)
    requires NeedPs(ps) <= STACK_MAX
    ensures var o := EvalPairs(w, f, d, ps, env); o.Pairs? || o.Error? || o.Returned?
    decreases ps
  {
    hide Eval;
    if ps != [] {
      CallFree(w, f, d, ps[0].value, env);
      var h := Eval(w, f, d, ps[0].value, env);
      if h.Value? { CallFreePairs(w, f, d, ps[1..], h.env); }
    }
  }

  /** The machine on compile_expr's output: on any stack with room the expression's
      value is pushed and nothing else changes, or its error is raised, or its err
      returned. */
  lemma MachineEvaluates(w: World, f: nat, e: Expr, k: nat, p: Prog, ip: nat, s: State)
    requires GoodWorld(w) && Ready(p) && CoreE(e) && GoodEnv(s.env)
    requires At(p.code, ip, CodeE(e, k)) && At(p.consts, k, ConstsE(e))
    requires |s.stack| + NeedE(e) <= STACK_MAX
    ensures match Eval(w, f, |s.frames|, e, s.env)
            case Value(v, env) => Leads(true, w, p, ip, s, ip + |CodeE(e, k)|, State(s.stack + [v], env, s.frames))
            case Error(err) => Yields(w, p, ip, s, Faulted(Raised(err)))
            case Returned(v, env) => exists junk ::
              Yields(w, p, ip, s, Halted(State(s.stack + junk + [v], env, s.frames)))
            case _ => false
  {
    hide Run, LeadsIn, GoodWorld, GoodEnv, CoreE, NeedE, Eval, CodeE, ConstsE, At;
    CallFree(w, f, |s.frames|, e, s.env);
    SimE(true, w, f, e, k, p, ip, s);
    var o := Eval(w, f, |s.frames|, e, s.env);
    if o.Returned? {
      var junk :| ReturnsWith(true, w, p, ip, s, s.stack, junk, o.v, o.env);
      assert Yields(w, p, ip, s, Halted(State(s.stack + junk + [o.v], o.env, s.frames)));
    }
  }

  // ----- calls and blocks -----

  /** However the body ends, a call that returns leaves the stack below it, the
      frame count and the number of bindings alone; a closure call leaves every
      binding of the caller alone. */
  lemma CallsAreBalanced(w: World, f: nat, p: Prog, ip: nat, s: State, fv: Val, vs: seq<Val>, env: Env)
    requires f > 0 && fv.FnV? && |fv.decl.params| == |vs| && |s.frames| < MAX_CALL_DEPTH
    requires At(p.code, ip, Enc(CallOp(|vs|))) && |vs| < 256
    requires GoodWorld(w) && GoodV(fv) && GoodVs(vs) && GoodEnv(env)
    ensures var o := Apply(w, f, |s.frames|, fv, vs, env); var s1 := State(s.stack + [fv] + vs, env, s.frames);
      if o.Value? then
        && Leads(false, w, p, ip, s1, ip + 2, State(s.stack + [o.v], o.env, s.frames))
        && |o.env| == |env| && (fv.captured != [] ==> o.env == env)
      else if o.Error? then Ends(false, w, p, ip, s1, Faulted(Raised(o.err)))
      else o.Timeout? && TimesOut(false, w, f, p, ip, s1)
  {
    hide Run, LeadsIn, Ends, TimesOut, GoodWorld, GoodV, Enc, At, ExecBlock, FnProg;
    SimInvoke(w, f, p, ip, s, fv, vs, env);
    SizedApply(w, f, |s.frames|, fv, vs, env);
    assert s.stack + ([fv] + vs) == s.stack + [fv] + vs;
  }

  /** Every block restores the number of bindings it was entered with, and its
      break and continue jumps restore that of the loop. */
  lemma BlocksAreBalanced(ok: bool, w: World, f: nat, b: Block, k: nat, l: Loop, outer: nat, lb: nat, top: bool,
      p: Prog, ip: nat, s: State)
    requires Ctx(w, top, p, s) && CoreB(b, l.kind, outer)
    requires At(p.code, ip, CodeB(b, k, l, top)) && At(p.consts, k, ConstsB(b))
    requires Inside(p, ip, |CodeB(b, k, l, top)|, l, lb, outer, s)
    requires ok ==> |s.stack| + NeedSs(b.stmts) <= STACK_MAX
    ensures match ExecBlock(w, f, |s.frames|, b, s.env)
            case Normal(env) =>
              |env| == |s.env| && Leads(ok, w, p, ip, s, ip + |CodeB(b, k, l, top)|, State(s.stack, env, s.frames))
            case Broke(env) =>
              l.kind != Outside && lb <= |env|
                && Leads(ok, w, p, ip, s, ip + l.fwd.value, State(s.stack, env[..lb], s.frames))
            case Continued(env) =>
              l.kind != Outside && lb <= |env|
                && LeadsOn(ok, w, p, ip, s, ip - l.back, State(s.stack, env[..lb], s.frames))
            case _ => true
  {
    hide Run, LeadsIn, Ends, TimesOut, GoodWorld, GoodEnv, At, ExecBlock, CodeB, ConstsB, CoreB, NeedSs;
    SimB(ok, w, f, b, k, l, outer, lb, top, p, ip, s);
    SizedExecBlock(w, f, |s.frames|, b, s.env);
    var o := ExecBlock(w, f, |s.frames|, b, s.env);
    assert forall env: Env :: After(s, [], env) == State(s.stack, env, s.frames) by {
      assert s.stack + [] == s.stack;
    }
  }

  // ----- && and || -----

  /** The lowering of && and || never pushes its result.  A left operand that
      decides leaves nothing; one that does not takes a value from below the
      expression with it, or is stuck when there is none. */
  lemma LogicalIsUnbalanced(w: World, f: nat, op: BinOp, a: Expr, b: Expr, k: nat, p: Prog, ip: nat, s: State, v: Val,
      env: Env, u: Val, env2: Env)
    requires (op == And || op == Or) && GoodWorld(w) && Ready(p) && CoreE(a) && CoreE(b) && GoodEnv(s.env)
    requires At(p.code, ip, CodeE(Binary(op, a, b), k)) && At(p.consts, k, ConstsE(a) + ConstsE(b))
    requires |s.stack| + NeedE(a) <= STACK_MAX && |s.stack| + NeedE(b) <= STACK_MAX
    requires Eval(w, f, |s.frames|, a, s.env) == Value(v, env) && Eval(w, f, |s.frames|, b, env) == Value(u, env2)
    ensures var end := ip + |CodeE(Binary(op, a, b), k)|;
      if Truthy(w, v) == (op == Or) then Leads(true, w, p, ip, s, end, State(s.stack, env, s.frames))
      else if s.stack == [] then Yields(w, p, ip, s, Faulted(Stuck))
      else Leads(true, w, p, ip, s, end, State(s.stack[..|s.stack| - 1] + [u], env2, s.frames))
  {
    hide Run, LeadsIn, GoodWorld, GoodEnv, CoreE, NeedE, Eval, CodeE, ConstsE, At, Enc, Truthy, Step, Ends, Stopped;
    var ca := CodeE(a, k);
    var k1 := k + |ConstsE(a)|;
    var cb := CodeE(b, k1);
    LogicalParts(op, a, b, k);
    AtSplit(p.code, ip, ca, Enc(JumpIf(op == Or, 1 + |cb|)) + (Enc(Pop) + cb));
    AtSplit(p.code, ip + |ca|, Enc(JumpIf(op == Or, 1 + |cb|)), Enc(Pop) + cb);
    AtSplit(p.code, ip + |ca| + 3, Enc(Pop), cb);
    AtSplit(p.consts, k, ConstsE(a), ConstsE(b));
    AtBound(p.code, ip + |ca| + 4, cb);
    SimE(true, w, f, a, k, p, ip, s);
    GoodEval(w, f, |s.frames|, a, s.env);
    var s1 := State(s.stack, env, s.frames);
    LogicalJump(w, p, ip, s, ip + |ca|, v, env, op == Or, 1 + |cb|);
    if Truthy(w, v) != (op == Or) {
      LogicalPop(w, p, ip, s, ip + |ca| + 3, s1);
      if s.stack != [] {
        var s2 := Drop(s1, 1);
        SimE(true, w, f, b, k1, p, ip + |ca| + 4, s2);
        LeadsTrans(true, w, p, ip, s, ip + |ca| + 4, s2, ip + |ca| + 4 + |cb|, After(s2, [u], env2));
      }
    }
  }

  lemma LogicalParts(op: BinOp, a: Expr, b: Expr, k: nat)
    requires op == And || op == Or
    ensures CodeE(Binary(op, a, b), k) == CodeLogical(op, CodeE(a, k), CodeE(b, k + |ConstsE(a)|))
  {
    hide Enc, CodeLogical, CodeEs, CodePs, ConstsEs, ConstsPs, BuiltinId;
  }

  /** The extra POP, with or without something to pop. */
  lemma LogicalPop(w: World, p: Prog, ip: nat, s: State, ip1: nat, s1: State)
    requires Leads(true, w, p, ip, s, ip1, s1) && At(p.code, ip1, Enc(Pop))
    ensures if s1.stack == [] then Yields(w, p, ip, s, Faulted(Stuck))
      else Leads(true, w, p, ip, s, ip1 + 1, Drop(s1, 1))
  {
    hide LeadsIn, Enc, At, Run;
    if s1.stack == [] {
      OneEnd(true, w, p, ip1, Pop, s1, Faulted(Stuck));
      LeadsEnds(true, w, p, ip, s, ip1, s1, Faulted(Stuck));
    } else {
      ThenStep(true, w, p, ip, s, ip1, s1, Pop, ip1 + 1, Drop(s1, 1));
    }
  }

  lemma LogicalJump(w: World, p: Prog, ip: nat, s: State, ip1: nat, v: Val, env: Env, when: bool, off: int)
    requires Leads(true, w, p, ip, s, ip1, After(s, [v], env))
    requires 0 <= off < 65536 && At(p.code, ip1, Enc(JumpIf(when, off)))
    ensures Leads(true, w, p, ip, s, if Truthy(w, v) == when then ip1 + 3 + off else ip1 + 3,
      State(s.stack, env, s.frames))
  {
    hide LeadsIn, Enc, At, Run, Truthy;
    OnTop(s, [v], env);
    ThenStep(true, w, p, ip, s, ip1, After(s, [v], env), JumpIf(when, off),
             if Truthy(w, v) == when then ip1 + 3 + off else ip1 + 3, After(s, [], env));
    assert After(s, [], env) == State(s.stack, env, s.frames);
  }
}
