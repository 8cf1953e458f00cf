/** Compiled code behaves as the reference semantics says, construct by
    construct: forward simulation over the emitted bytes. */
module Simulation {
  import opened Ast
  import opened Values
  import opened Semantics
  import opened Bytecode
  import opened CodeGen
  import opened Machine
  import opened Places
  import opened Reach
  import opened Fragment

  // ----- the two operator tables -----

  /** The operand-first table of the tree walker and the opcode-first table of
      the machine agree. */
  lemma BinaryAgree(w: World, op: BinOp, a: Val, b: Val)
    requires op != And && op != Or
    ensures VmBinary(w, op, a, b) == TreeBinary(w, op, a, b)
  {
  }

  lemma UnaryAgree(w: World, op: UnOp, a: Val)
    ensures VmUnary(w, op, a) == TreeUnary(w, op, a)
  {
  }

  lemma IndexAgree(a: Val, i: Val)
    ensures VmIndex(a, i) == TreeIndex(a, i)
  {
  }

  // ----- what it means to be simulated -----

  ghost predicate Ready(p: Prog) {
    |p.code| < 65536 && |p.consts| < 65536
  }

  /** s with vs pushed and other bindings. */
  function After(s: State, vs: seq<Val>, env: Env): State {
    State(s.stack + vs, env, s.frames)
  }

  function Flatten(ps: seq<Pair>): seq<Val> {
    if ps == [] then [] else [StrV(ps[0].key), ps[0].value] + Flatten(ps[1..])
  }

  ghost predicate ReturnsWith(ok: bool, w: World, p: Prog, ip: nat, s: State, base: seq<Val>, junk: seq<Val>, v: Val,
      env: Env) {
    Ends(ok, w, p, ip, s, Halted(State(base + junk + [v], env, s.frames)))
  }

  /** The machine stops the way the outcome says; a return leaves the stack of
      the enclosing statement, maybe some junk, and the value. */
  ghost predicate Stopped(ok: bool, w: World, f: nat, p: Prog, ip: nat, s: State, base: seq<Val>, o: Out) {
    match o
    case Timeout => TimesOut(ok, w, f, p, ip, s)
    case Error(e) => Ends(ok, w, p, ip, s, Faulted(Raised(e)))
    case Returned(v, env) => exists junk :: ReturnsWith(ok, w, p, ip, s, base, junk, v, env)
    case _ => false
  }

  /** The machine at (ip, s) does what the outcome of an expression says: it
      reaches ip1 with the values pushed, or stops. */
  ghost predicate Sim(ok: bool, w: World, f: nat, p: Prog, ip: nat, s: State, ip1: nat, o: Out) {
    match o
    case Value(v, env) => Leads(ok, w, p, ip, s, ip1, After(s, [v], env))
    case Values(vs, env) => Leads(ok, w, p, ip, s, ip1, After(s, vs, env))
    case Pairs(ps, env) => Leads(ok, w, p, ip, s, ip1, After(s, Flatten(ps), env))
    case _ => Stopped(ok, w, f, p, ip, s, s.stack, o)
  }

  ghost predicate PreE(ok: bool, w: World, e: Expr, k: nat, p: Prog, ip: nat, s: State) {
    && GoodWorld(w) && Ready(p) && CoreE(e) && GoodEnv(s.env)
    && At(p.code, ip, CodeE(e, k)) && At(p.consts, k, ConstsE(e))
    && (ok ==> |s.stack| + NeedE(e) <= STACK_MAX)
  }

  // ----- plumbing -----

  /** A stop seen from a later configuration is a stop of the earlier one. */
  lemma CarryFrom(ok: bool, w: World, f: nat, p: Prog, ip: nat, s: State, ip1: nat, s1: State, base: seq<Val>, o: Out)
    requires Leads(ok, w, p, ip, s, ip1, s1) && s1.frames == s.frames
    requires Stopped(ok, w, f, p, ip1, s1, base, o)
    ensures Stopped(ok, w, f, p, ip, s, base, o)
  {
    hide LeadsIn, Ends, TimesOut, Run;
    match o
    case Timeout => LeadsTimesOut(ok, w, f, p, ip, s, ip1, s1, 0);
    case Error(e) => LeadsEnds(ok, w, p, ip, s, ip1, s1, Faulted(Raised(e)));
    case Returned(v, env2) =>
      var junk :| ReturnsWith(ok, w, p, ip1, s1, base, junk, v, env2);
      LeadsEnds(ok, w, p, ip, s, ip1, s1, Halted(State(base + junk + [v], env2, s1.frames)));
      assert ReturnsWith(ok, w, p, ip, s, base, junk, v, env2);
    case _ =>
  }

  /** More of the stack may count as junk. */
  lemma Rebase(ok: bool, w: World, f: nat, p: Prog, ip: nat, s: State, base: seq<Val>, more: seq<Val>, o: Out)
    requires Stopped(ok, w, f, p, ip, s, base + more, o)
    ensures Stopped(ok, w, f, p, ip, s, base, o)
  {
    hide Ends, TimesOut, Run;
    if o.Returned? {
      var junk :| ReturnsWith(ok, w, p, ip, s, base + more, junk, o.v, o.env);
      assert (base + more) + junk + [o.v] == base + (more + junk) + [o.v];
      assert ReturnsWith(ok, w, p, ip, s, base, more + junk, o.v, o.env);
    }
  }

  lemma Carry(ok: bool, w: World, f: nat, p: Prog, ip: nat, s: State, ip1: nat, vs: seq<Val>, env: Env, o: Out)
    requires Leads(ok, w, p, ip, s, ip1, After(s, vs, env))
    requires Stopped(ok, w, f, p, ip1, After(s, vs, env), s.stack + vs, o)
    ensures Stopped(ok, w, f, p, ip, s, s.stack, o)
  {
    hide LeadsIn, Stopped, Run;
    Rebase(ok, w, f, p, ip1, After(s, vs, env), s.stack, vs, o);
    CarryFrom(ok, w, f, p, ip, s, ip1, After(s, vs, env), s.stack, o);
  }

  lemma Extend(ok: bool, w: World, p: Prog, ip: nat, s: State, ip1: nat, vs: seq<Val>, env1: Env,
               ip2: nat, vs2: seq<Val>, env2: Env)
    requires Leads(ok, w, p, ip, s, ip1, After(s, vs, env1))
    requires Leads(ok, w, p, ip1, After(s, vs, env1), ip2, After(After(s, vs, env1), vs2, env2))
    ensures Leads(ok, w, p, ip, s, ip2, After(s, vs + vs2, env2))
  {
    hide LeadsIn, Run;
    LeadsTrans(ok, w, p, ip, s, ip1, After(s, vs, env1), ip2, After(After(s, vs, env1), vs2, env2));
    assert (s.stack + vs) + vs2 == s.stack + (vs + vs2);
  }

  /** Having reached (ip1, s1), the instruction there pushes the result of an
      operation where s began, or faults with its error. */
  lemma ThenPush(ok: bool, w: World, f: nat, p: Prog, ip: nat, s: State, ip1: nat, s1: State, i: Instr, env1: Env,
      r: Res<Val>)
    requires Leads(ok, w, p, ip, s, ip1, s1)
    requires Fits(i) && At(p.code, ip1, Enc(i))
    requires Step(w, p, i, ip1 + Size(i), s1) == PushRes(After(s, [], env1), ip1 + Size(i), r)
    requires ok ==> |s.stack| < STACK_MAX
    ensures Sim(ok, w, f, p, ip, s, ip1 + Size(i), OfRes(r, env1))
  {
    hide Step, Enc, Size, At, LeadsIn, Ends, Run;
    match r
    case Ok(v) =>
      OnePush(ok, w, p, ip1, i, s1, After(s, [], env1), v);
      assert After(s, [], env1).stack + [v] == s.stack + [v];
      LeadsTrans(ok, w, p, ip, s, ip1, s1, ip1 + Size(i), After(s, [v], env1));
    case Fail(e) =>
      OneEnd(ok, w, p, ip1, i, s1, Faulted(Raised(e)));
      LeadsEnds(ok, w, p, ip, s, ip1, s1, Faulted(Raised(e)));
  }

  /** A single push from the start. */
  lemma JustPush(ok: bool, w: World, f: nat, p: Prog, ip: nat, s: State, i: Instr, r: Res<Val>)
    requires Fits(i) && At(p.code, ip, Enc(i))
    requires Step(w, p, i, ip + Size(i), s) == PushRes(s, ip + Size(i), r)
    requires ok ==> |s.stack| < STACK_MAX
    ensures Sim(ok, w, f, p, ip, s, ip + Size(i), OfRes(r, s.env))
  {
    hide Step, Enc, Size, At, LeadsIn, Ends, Run;
    LeadsRefl(ok, w, p, ip, s);
    assert After(s, [], s.env) == s;
    ThenPush(ok, w, f, p, ip, s, ip, s, i, s.env, r);
  }

  /** The values on top of s, dropped and seen. */
  lemma OnTop(s: State, vs: seq<Val>, env: Env)
    ensures Drop(After(s, vs, env), |vs|) == After(s, [], env)
    ensures TopN(After(s, vs, env), |vs|) == vs
    ensures |vs| <= |After(s, vs, env).stack|
    ensures forall j {:trigger Top(After(s, vs, env), j)} :: 0 <= j < |vs| ==>
      Top(After(s, vs, env), j) == vs[|vs| - 1 - j]
  {
  }

  // ----- one instruction after its operands -----

  lemma ThenUnary(ok: bool, w: World, f: nat, p: Prog, ip: nat, s: State, ip1: nat, v: Val, env: Env, op: UnOp)
    requires Leads(ok, w, p, ip, s, ip1, After(s, [v], env))
    requires At(p.code, ip1, Enc(UnaryOp(op))) && (ok ==> |s.stack| < STACK_MAX)
    ensures Sim(ok, w, f, p, ip, s, ip1 + 1, OfRes(TreeUnary(w, op, v), env))
  {
    hide LeadsIn, Ends, Enc, At, Run, TreeUnary, VmUnary;
    OnTop(s, [v], env);
    UnaryAgree(w, op, v);
    ThenPush(ok, w, f, p, ip, s, ip1, After(s, [v], env), UnaryOp(op), env, TreeUnary(w, op, v));
  }

  lemma ThenBinary(ok: bool, w: World, f: nat, p: Prog, ip: nat, s: State, ip1: nat, a: Val, b: Val, env: Env,
      op: BinOp)
    requires op != And && op != Or
    requires Leads(ok, w, p, ip, s, ip1, After(s, [a, b], env))
    requires At(p.code, ip1, Enc(BinaryOp(op))) && (ok ==> |s.stack| < STACK_MAX)
    ensures Sim(ok, w, f, p, ip, s, ip1 + 1, OfRes(TreeBinary(w, op, a, b), env))
  {
    hide LeadsIn, Ends, Enc, At, Run, TreeBinary, VmBinary;
    OnTop(s, [a, b], env);
    BinaryAgree(w, op, a, b);
    ThenPush(ok, w, f, p, ip, s, ip1, After(s, [a, b], env), BinaryOp(op), env, TreeBinary(w, op, a, b));
  }

  lemma ThenIndex(ok: bool, w: World, f: nat, p: Prog, ip: nat, s: State, ip1: nat, a: Val, b: Val, env: Env)
    requires Leads(ok, w, p, ip, s, ip1, After(s, [a, b], env))
    requires At(p.code, ip1, Enc(IndexOp)) && (ok ==> |s.stack| < STACK_MAX)
    ensures Sim(ok, w, f, p, ip, s, ip1 + 1, OfRes(TreeIndex(a, b), env))
  {
    hide LeadsIn, Ends, Enc, At, Run, TreeIndex, VmIndex;
    OnTop(s, [a, b], env);
    IndexAgree(a, b);
    ThenPush(ok, w, f, p, ip, s, ip1, After(s, [a, b], env), IndexOp, env, TreeIndex(a, b));
  }

  lemma ThenField(ok: bool, w: World, f: nat, p: Prog, ip: nat, s: State, ip1: nat, v: Val, env: Env, idx: nat,
      name: string)
    requires Leads(ok, w, p, ip, s, ip1, After(s, [v], env))
    requires Ready(p) && idx < |p.consts| && p.consts[idx] == StrV(name)
    requires At(p.code, ip1, Enc(GetField(idx))) && (ok ==> |s.stack| < STACK_MAX)
    ensures Sim(ok, w, f, p, ip, s, ip1 + 3, OfRes(TreeField(v, name), env))
  {
    hide LeadsIn, Ends, Enc, At, Run;
    OnTop(s, [v], env);
    ThenPush(ok, w, f, p, ip, s, ip1, After(s, [v], env), GetField(idx), env, TreeField(v, name));
  }

  lemma ThenResult(ok: bool, w: World, f: nat, p: Prog, ip: nat, s: State, ip1: nat, v: Val, env: Env, isOk: bool)
    requires Leads(ok, w, p, ip, s, ip1, After(s, [v], env))
    requires At(p.code, ip1, Enc(MakeResult(isOk))) && (ok ==> |s.stack| < STACK_MAX)
    ensures Sim(ok, w, f, p, ip, s, ip1 + 1, Value(ResV(isOk, v), env))
  {
    hide LeadsIn, Ends, Enc, At, Run;
    OnTop(s, [v], env);
    ThenPush(ok, w, f, p, ip, s, ip1, After(s, [v], env), MakeResult(isOk), env, Ok(ResV(isOk, v)));
  }

  /** `?` unwraps an ok, and returns an err from the function right away. */
  lemma ThenTry(ok: bool, w: World, f: nat, p: Prog, ip: nat, s: State, ip1: nat, v: Val, env: Env)
    requires Leads(ok, w, p, ip, s, ip1, After(s, [v], env))
    requires At(p.code, ip1, Enc(TryOp)) && (ok ==> |s.stack| < STACK_MAX)
    ensures Sim(ok, w, f, p, ip, s, ip1 + 1,
                if !v.ResV? then Error(NotResult) else if v.ok then Value(v.val, env) else Returned(v, env))
  {
    hide LeadsIn, Ends, Enc, At, Run;
    var s1 := After(s, [v], env);
    OnTop(s, [v], env);
    if v.ResV? && !v.ok {
      OneEnd(ok, w, p, ip1, TryOp, s1, Halted(s1));
      LeadsEnds(ok, w, p, ip, s, ip1, s1, Halted(s1));
      ReturnsNow(ok, w, p, ip, s, v, env);
    } else {
      ThenPush(ok, w, f, p, ip, s, ip1, s1, TryOp, env, if v.ResV? then Ok(v.val) else Res.Fail(NotResult));
    }
  }

  lemma ReturnsNow(ok: bool, w: World, p: Prog, ip: nat, s: State, v: Val, env: Env)
    requires Ends(ok, w, p, ip, s, Halted(After(s, [v], env)))
    ensures exists junk :: ReturnsWith(ok, w, p, ip, s, s.stack, junk, v, env)
  {
    hide Ends;
    assert s.stack + [] + [v] == s.stack + [v];
    assert ReturnsWith(ok, w, p, ip, s, s.stack, [], v, env);
  }

  lemma ThenArray(ok: bool, w: World, f: nat, p: Prog, ip: nat, s: State, ip1: nat, vs: seq<Val>, env: Env)
    requires Leads(ok, w, p, ip, s, ip1, After(s, vs, env))
    requires |vs| < 65536 && At(p.code, ip1, Enc(MakeArray(|vs|))) && (ok ==> |s.stack| < STACK_MAX)
    ensures Sim(ok, w, f, p, ip, s, ip1 + 3, Value(ArrV(vs), env))
  {
    hide LeadsIn, Ends, Enc, At, Run;
    OnTop(s, vs, env);
    ThenPush(ok, w, f, p, ip, s, ip1, After(s, vs, env), MakeArray(|vs|), env, Ok(ArrV(vs)));
  }

  lemma ThenBuiltin(ok: bool, w: World, f: nat, p: Prog, ip: nat, s: State, ip1: nat, vs: seq<Val>, env: Env, id: nat)
    requires Leads(ok, w, p, ip, s, ip1, After(s, vs, env))
    requires |vs| <= MAX_ARGS && id < 40 && At(p.code, ip1, Enc(CallBuiltin(id, |vs|)))
      && (ok ==> |s.stack| < STACK_MAX)
    ensures Sim(ok, w, f, p, ip, s, ip1 + 4, OfRes(w.builtin(id, vs), env))
  {
    hide LeadsIn, Ends, Enc, At, Run;
    OnTop(s, vs, env);
    ThenPush(ok, w, f, p, ip, s, ip1, After(s, vs, env), CallBuiltin(id, |vs|), env, w.builtin(id, vs));
  }

  function Stripped(ps: seq<Pair>): seq<Pair> {
    if ps == [] then [] else [Pair(StrContent(ps[0].key), ps[0].value)] + Stripped(ps[1..])
  }

  /** Popping the pairs off the stack again gives the pairs. */
  lemma {:induction false} UnzipFlatten(ps: seq<Pair>)
    ensures |Flatten(ps)| == 2 * |ps|
    ensures Unzip(Flatten(ps), false) == Some(ps) && Unzip(Flatten(ps), true) == Some(Stripped(ps))
  {
    if ps != [] {
      UnzipFlatten(ps[1..]);
      assert Flatten(ps)[2..] == Flatten(ps[1..]);
      assert [ps[0]] + ps[1..] == ps;
    }
  }

  lemma ThenMap(ok: bool, w: World, f: nat, p: Prog, ip: nat, s: State, ip1: nat, ps: seq<Pair>, env: Env)
    requires Leads(ok, w, p, ip, s, ip1, After(s, Flatten(ps), env)) && Stripped(ps) == ps
    requires |ps| < 65536 && At(p.code, ip1, Enc(MakeMap(|ps|))) && (ok ==> |s.stack| < STACK_MAX)
    ensures Sim(ok, w, f, p, ip, s, ip1 + 3, Value(MapV(ps), env))
  {
    hide LeadsIn, Ends, Enc, At, Run, Unzip, Flatten, Stripped, StepVar, StepJump, StepCall, StepIter, StepField;
    UnzipFlatten(ps);
    OnTop(s, Flatten(ps), env);
    ThenPush(ok, w, f, p, ip, s, ip1, After(s, Flatten(ps), env), MakeMap(|ps|), env, Ok(MapV(ps)));
  }

  lemma StructStep(w: World, p: Prog, s: State, ps: seq<Pair>, env: Env, idx: nat, name: string, ip: nat)
    requires idx < |p.consts| && p.consts[idx] == StrV(name) && idx < 65536 && |ps| <= MAX_STRUCT_FIELDS
    ensures Step(w, p, MakeStruct(idx, |ps|), ip, After(s, Flatten(ps), env))
         == Push(After(s, [], env), ip, StructV(name, ps))
  {
    hide Run, Unzip, Flatten, TopN, Drop, Push, After;
    var s1 := After(s, Flatten(ps), env);
    UnzipFlatten(ps);
    OnTop(s, Flatten(ps), env);
    assert StepBuild(p, MakeStruct(idx, |ps|), ip, s1) == Push(After(s, [], env), ip, StructV(name, ps));
  }

  lemma ThenStruct(ok: bool, w: World, f: nat, p: Prog, ip: nat, s: State, ip1: nat, ps: seq<Pair>, env: Env, idx: nat,
      name: string)
    requires Leads(ok, w, p, ip, s, ip1, After(s, Flatten(ps), env))
    requires Ready(p) && idx < |p.consts| && p.consts[idx] == StrV(name)
    requires |ps| <= MAX_STRUCT_FIELDS && At(p.code, ip1, Enc(MakeStruct(idx, |ps|))) && (ok ==> |s.stack| < STACK_MAX)
    ensures Sim(ok, w, f, p, ip, s, ip1 + 4, Value(StructV(name, ps), env))
  {
    hide LeadsIn, Ends, Enc, At, Run, Unzip, Flatten, Step;
    StructStep(w, p, s, ps, env, idx, name, ip1 + 4);
    ThenPush(ok, w, f, p, ip, s, ip1, After(s, Flatten(ps), env), MakeStruct(idx, |ps|), env, Ok(StructV(name, ps)));
  }

  // ----- expressions -----

  ghost predicate PreEs(ok: bool, w: World, es: seq<Expr>, k: nat, p: Prog, ip: nat, s: State) {
    && GoodWorld(w) && Ready(p) && CoreEs(es) && GoodEnv(s.env)
    && At(p.code, ip, CodeEs(es, k)) && At(p.consts, k, ConstsEs(es))
    && (ok ==> |s.stack| + NeedEs(es) <= STACK_MAX)
  }

  ghost predicate PrePs(ok: bool, w: World, ps: seq<Entry>, k: nat, p: Prog, ip: nat, s: State) {
    && GoodWorld(w) && Ready(p) && CorePs(ps) && GoodEnv(s.env)
    && At(p.code, ip, CodePs(ps, k)) && At(p.consts, k, ConstsPs(ps))
    && (ok ==> |s.stack| + NeedPs(ps) <= STACK_MAX)
  }

  lemma {:induction false} NeedPos(e: Expr)
    ensures NeedE(e) >= 1
    decreases e
  {
    match e
    case Unary(_, a) => NeedPos(a);
    case Binary(_, l, r) => NeedPos(l);
    case Field(o, _) => NeedPos(o);
    case Index(a, i) => NeedPos(a);
    case ResultLit(_, a) => NeedPos(a);
    case Try(a) => NeedPos(a);
    case _ =>
  }

  lemma SimLeaf(ok: bool, w: World, f: nat, e: Expr, k: nat, p: Prog, ip: nat, s: State)
    requires PreE(ok, w, e, k, p, ip, s)
    requires e.IntLit? || e.FloatLit? || e.StrLit? || e.BoolLit? || e.Ident? || e.Lambda?
    ensures Sim(ok, w, f, p, ip, s, ip + |CodeE(e, k)|, Eval(w, f, |s.frames|, e, s.env))
  {
    hide Run, LeadsIn, Stopped, Ends, TimesOut, GoodWorld, GoodEnv, Enc, At, TreeBinary, TreeUnary, TreeField,
      TreeIndex, EvalList, EvalPairs, Apply, CodeEs, CodePs, CodeLogical, ConstsEs, ConstsPs, CoreEs, CorePs, CoreFn,
      NeedEs, NeedPs, BuiltinId, StepJump, StepCall, StepBuild, StepTry, StepIter, StepField;
    if !e.BoolLit? { AtIndex(p.consts, k, ConstsE(e), 0); }
    match e
    case IntLit(n) => JustPush(ok, w, f, p, ip, s, Const(k), Ok(IntV(n)));
    case FloatLit(x) => JustPush(ok, w, f, p, ip, s, Const(k), Ok(FloatV(x)));
    case StrLit(x) => JustPush(ok, w, f, p, ip, s, Const(k), Ok(StrV(x)));
    case BoolLit(b) => JustPush(ok, w, f, p, ip, s, PushBool(b), Ok(BoolV(b)));
    case Ident(x) =>
      var v := Lookup(s.env, x);
      JustPush(ok, w, f, p, ip, s, GetVar(k), if v.None? then Res.Fail(UndefinedVar) else Ok(v.value));
    case Lambda(fn) => JustPush(ok, w, f, p, ip, s, Closure(k), Ok(FnV(fn, s.env)));
  }

  // ----- one operand, then one instruction -----

  function OneOut(w: World, e: Expr, v: Val, env: Env): Out
    requires IsOne(e)
  {
    match e
    case Unary(op, _) => OfRes(TreeUnary(w, op, v), env)
    case Field(_, x) => OfRes(TreeField(v, x), env)
    case ResultLit(ok, _) => Value(ResV(ok, v), env)
    case Try(_) =>
      if !v.ResV? then Error(NotResult) else if v.ok then Value(v.val, env) else Returned(v, env)
  }

  lemma OneParts(w: World, f: nat, d: nat, e: Expr, k: nat, env: Env)
    requires IsOne(e)
    ensures var a := Operand(e);
      && CodeE(e, k) == CodeE(a, k) + Enc(OneInstr(e, k + |ConstsE(a)|))
      && ConstsE(e) == ConstsE(a) + (if e.Field? then [StrV(e.field)] else [])
      && (CoreE(e) ==> CoreE(a)) && NeedE(e) == NeedE(a)
      && Eval(w, f, d, e, env) == (var r := Eval(w, f, d, a, env); if !r.Value? then r else OneOut(w, e, r.v, r.env))
  {
    hide Enc, TreeUnary, TreeField;
  }

  lemma ThenOne(ok: bool, w: World, f: nat, p: Prog, ip: nat, s: State, ip1: nat, e: Expr, k: nat, v: Val, env: Env)
    requires IsOne(e) && Leads(ok, w, p, ip, s, ip1, After(s, [v], env))
    requires e.Field? ==> Ready(p) && k < |p.consts| && p.consts[k] == StrV(e.field)
    requires At(p.code, ip1, Enc(OneInstr(e, k))) && (ok ==> |s.stack| < STACK_MAX)
    ensures Sim(ok, w, f, p, ip, s, ip1 + Size(OneInstr(e, k)), OneOut(w, e, v, env))
  {
    hide LeadsIn, Sim, Enc, At, TreeUnary, TreeField;
    match e
    case Unary(op, _) => ThenUnary(ok, w, f, p, ip, s, ip1, v, env, op);
    case Field(_, x) => ThenField(ok, w, f, p, ip, s, ip1, v, env, k, x);
    case ResultLit(r, _) => ThenResult(ok, w, f, p, ip, s, ip1, v, env, r);
    case Try(_) => ThenTry(ok, w, f, p, ip, s, ip1, v, env);
  }

  lemma {:induction false} SimOne(ok: bool, w: World, f: nat, e: Expr, k: nat, p: Prog, ip: nat, s: State)
    requires IsOne(e) && PreE(ok, w, e, k, p, ip, s)
    ensures Sim(ok, w, f, p, ip, s, ip + |CodeE(e, k)|, Eval(w, f, |s.frames|, e, s.env))
    decreases f, 1, e, 0
  {
    hide LeadsIn, Stopped, GoodWorld, GoodEnv, Enc, At, Run, TreeBinary, TreeUnary, TreeField, TreeIndex, Eval,
      EvalList, EvalPairs, CodeE, CodeEs, CodePs, ConstsE, ConstsEs, ConstsPs, CoreE, CoreEs, CorePs, NeedE, NeedEs,
      NeedPs, BuiltinId;
    var a := Operand(e);
    var c := CodeE(a, k);
    var k1 := k + |ConstsE(a)|;
    OneParts(w, f, |s.frames|, e, k, s.env);
    NeedPos(e);
    AtSplit(p.code, ip, c, Enc(OneInstr(e, k1)));
    AtSplit(p.consts, k, ConstsE(a), if e.Field? then [StrV(e.field)] else []);
    if e.Field? { AtIndex(p.consts, k1, [StrV(e.field)], 0); }
    SimE(ok, w, f, a, k, p, ip, s);
    var r := Eval(w, f, |s.frames|, a, s.env);
    if r.Value? { ThenOne(ok, w, f, p, ip, s, ip + |c|, e, k1, r.v, r.env); }
  }

  // ----- two operands, then one instruction -----

  /** Both operands of a binary operation or an indexing. */
  lemma {:induction false} SimOperands(ok: bool, w: World, f: nat, e: Expr, a: Expr, b: Expr, k: nat, rest: seq<Byte>,
      p: Prog, ip: nat, s: State)
    requires (e.Binary? && e.left == a && e.right == b) || e == Index(a, b)
    requires GoodWorld(w) && Ready(p) && CoreE(a) && CoreE(b) && GoodEnv(s.env)
    requires At(p.code, ip, CodeE(a, k) + (CodeE(b, k + |ConstsE(a)|) + rest))
    requires At(p.consts, k, ConstsE(a) + ConstsE(b))
    requires ok ==> |s.stack| + NeedE(a) <= STACK_MAX && |s.stack| + 1 + NeedE(b) <= STACK_MAX
    ensures var ra := Eval(w, f, |s.frames|, a, s.env);
      if !ra.Value? then Stopped(ok, w, f, p, ip, s, s.stack, ra) else
      var rb := Eval(w, f, |s.frames|, b, ra.env);
      if !rb.Value? then Stopped(ok, w, f, p, ip, s, s.stack, rb) else
      var ip1 := ip + |CodeE(a, k)| + |CodeE(b, k + |ConstsE(a)|)|;
      Leads(ok, w, p, ip, s, ip1, After(s, [ra.v, rb.v], rb.env)) && At(p.code, ip1, rest)
    decreases f, 1, e, 0
  {
    hide Run, LeadsIn, Ends, TimesOut, GoodWorld, GoodEnv, At, Eval, CodeE, ConstsE, CoreE, NeedE;
    var k1 := k + |ConstsE(a)|;
    var ca := CodeE(a, k);
    var cb := CodeE(b, k1);
    AtSplit(p.code, ip, ca, cb + rest);
    AtSplit(p.code, ip + |ca|, cb, rest);
    AtSplit(p.consts, k, ConstsE(a), ConstsE(b));
    SimE(ok, w, f, a, k, p, ip, s);
    var ra := Eval(w, f, |s.frames|, a, s.env);
    if ra.Value? {
      GoodEval(w, f, |s.frames|, a, s.env);
      SimE(ok, w, f, b, k1, p, ip + |ca|, After(s, [ra.v], ra.env));
      var rb := Eval(w, f, |s.frames|, b, ra.env);
      if rb.Value? {
        Extend(ok, w, p, ip, s, ip + |ca|, [ra.v], ra.env, ip + |ca| + |cb|, [rb.v], rb.env);
        assert [ra.v] + [rb.v] == [ra.v, rb.v];
      } else {
        Carry(ok, w, f, p, ip, s, ip + |ca|, [ra.v], ra.env, rb);
      }
    }
  }

  lemma TwoParts(w: World, f: nat, d: nat, e: Expr, a: Expr, b: Expr, k: nat, env: Env)
    requires (e.Binary? && e.left == a && e.right == b && e.op != And && e.op != Or) || e == Index(a, b)
    ensures CodeE(e, k) == CodeE(a, k)
      + (CodeE(b, k + |ConstsE(a)|) + Enc(if e.Binary? then BinaryOp(e.op) else IndexOp))
    ensures ConstsE(e) == ConstsE(a) + ConstsE(b)
    ensures CoreE(e) ==> CoreE(a) && CoreE(b)
    ensures NeedE(a) <= NeedE(e) && 1 + NeedE(b) <= NeedE(e)
    ensures Eval(w, f, d, e, env) == (
      var ra := Eval(w, f, d, a, env);
      if !ra.Value? then ra else
      var rb := Eval(w, f, d, b, ra.env);
      if !rb.Value? then rb
      else OfRes(if e.Binary? then TreeBinary(w, e.op, ra.v, rb.v) else TreeIndex(ra.v, rb.v), rb.env))
  {
    hide Enc, TreeBinary, TreeIndex, CodeLogical, CodeEs, CodePs, ConstsEs, ConstsPs, CoreEs, CorePs, CoreFn, NeedEs,
      NeedPs, EvalList, EvalPairs, Apply, BuiltinId;
  }

  lemma {:induction false} SimTwo(ok: bool, w: World, f: nat, e: Expr, a: Expr, b: Expr, k: nat, p: Prog, ip: nat,
      s: State)
    requires (e.Binary? && e.left == a && e.right == b && e.op != And && e.op != Or) || e == Index(a, b)
    requires PreE(ok, w, e, k, p, ip, s)
    ensures Sim(ok, w, f, p, ip, s, ip + |CodeE(e, k)|, Eval(w, f, |s.frames|, e, s.env))
    decreases f, 1, e, 1
  {
    hide LeadsIn, Stopped, GoodWorld, GoodEnv, Enc, At, Run, TreeBinary, TreeUnary, TreeField, TreeIndex, Eval,
      EvalList, EvalPairs, CodeE, CodeEs, CodePs, ConstsE, ConstsEs, ConstsPs, CoreE, CoreEs, CorePs, NeedE, NeedEs,
      NeedPs, BuiltinId;
    NeedPos(e);
    TwoParts(w, f, |s.frames|, e, a, b, k, s.env);
    SimOperands(ok, w, f, e, a, b, k, Enc(if e.Binary? then BinaryOp(e.op) else IndexOp), p, ip, s);
    var ra := Eval(w, f, |s.frames|, a, s.env);
    if ra.Value? {
      var rb := Eval(w, f, |s.frames|, b, ra.env);
      var ip1 := ip + |CodeE(a, k)| + |CodeE(b, k + |ConstsE(a)|)|;
      if rb.Value? {
        if e.Binary? { ThenBinary(ok, w, f, p, ip, s, ip1, ra.v, rb.v, rb.env, e.op); }
        else { ThenIndex(ok, w, f, p, ip, s, ip1, ra.v, rb.v, rb.env); }
      }
    }
  }

  // ----- many operands, then one instruction -----

  lemma {:induction false} SimEs(ok: bool, w: World, f: nat, es: seq<Expr>, k: nat, p: Prog, ip: nat, s: State)
    requires PreEs(ok, w, es, k, p, ip, s)
    ensures Sim(ok, w, f, p, ip, s, ip + |CodeEs(es, k)|, EvalList(w, f, |s.frames|, es, s.env))
    decreases f, 1, es
  {
    hide Run, LeadsIn, Ends, TimesOut, GoodWorld, GoodEnv, At, Eval, CodeE, ConstsE, CoreE, NeedE;
    if es == [] {
      LeadsRefl(ok, w, p, ip, s);
      assert After(s, [], s.env) == s;
    } else {
      var c := CodeE(es[0], k);
      var k1 := k + |ConstsE(es[0])|;
      AtSplit(p.code, ip, c, CodeEs(es[1..], k1));
      AtSplit(p.consts, k, ConstsE(es[0]), ConstsEs(es[1..]));
      SimE(ok, w, f, es[0], k, p, ip, s);
      var h := Eval(w, f, |s.frames|, es[0], s.env);
      if h.Value? {
        GoodEval(w, f, |s.frames|, es[0], s.env);
        var s1 := After(s, [h.v], h.env);
        SimEs(ok, w, f, es[1..], k1, p, ip + |c|, s1);
        var t := EvalList(w, f, |s.frames|, es[1..], h.env);
        if t.Values? {
          Extend(ok, w, p, ip, s, ip + |c|, [h.v], h.env, ip + |c| + |CodeEs(es[1..], k1)|, t.vs, t.env);
        } else {
          Carry(ok, w, f, p, ip, s, ip + |c|, [h.v], h.env, t);
        }
      }
    }
  }

  /** A key constant and the code of its value. */
  lemma {:induction false} SimEntry(ok: bool, w: World, f: nat, q: Entry, k: nat, p: Prog, ip: nat, s: State)
    requires GoodWorld(w) && Ready(p) && CoreE(q.value) && GoodEnv(s.env)
    requires At(p.code, ip, Enc(Const(k)) + CodeE(q.value, k + 1))
    requires At(p.consts, k, [StrV(q.key)] + ConstsE(q.value))
    requires ok ==> |s.stack| + 1 + NeedE(q.value) <= STACK_MAX
    ensures var h := Eval(w, f, |s.frames|, q.value, s.env);
      if h.Value? then Leads(ok, w, p, ip, s, ip + 3 + |CodeE(q.value, k + 1)|, After(s, [StrV(q.key), h.v], h.env))
      else Stopped(ok, w, f, p, ip, s, s.stack, h)
    decreases f, 1, q
  {
    hide Run, LeadsIn, Ends, TimesOut, GoodWorld, GoodEnv, At, Eval, CodeE, ConstsE, CoreE, NeedE, Enc, Step;
    var c := CodeE(q.value, k + 1);
    AtSplit(p.code, ip, Enc(Const(k)), c);
    AtSplit(p.consts, k, [StrV(q.key)], ConstsE(q.value));
    AtIndex(p.consts, k, [StrV(q.key)], 0);
    PushConst(ok, w, f, p, ip, s, k);
    var s1 := After(s, [StrV(q.key)], s.env);
    SimE(ok, w, f, q.value, k + 1, p, ip + 3, s1);
    var h := Eval(w, f, |s.frames|, q.value, s.env);
    if h.Value? {
      Extend(ok, w, p, ip, s, ip + 3, [StrV(q.key)], s.env, ip + 3 + |c|, [h.v], h.env);
      assert [StrV(q.key)] + [h.v] == [StrV(q.key), h.v];
    } else {
      Carry(ok, w, f, p, ip, s, ip + 3, [StrV(q.key)], s.env, h);
    }
  }

  lemma PushConst(ok: bool, w: World, f: nat, p: Prog, ip: nat, s: State, k: nat)
    requires Ready(p) && k < |p.consts| && At(p.code, ip, Enc(Const(k))) && (ok ==> |s.stack| < STACK_MAX)
    ensures Leads(ok, w, p, ip, s, ip + 3, After(s, [p.consts[k]], s.env))
  {
    hide LeadsIn, Enc, At;
    JustPush(ok, w, f, p, ip, s, Const(k), Ok(p.consts[k]));
  }

  lemma {:induction false} SimPs(ok: bool, w: World, f: nat, ps: seq<Entry>, k: nat, p: Prog, ip: nat, s: State)
    requires PrePs(ok, w, ps, k, p, ip, s)
    ensures Sim(ok, w, f, p, ip, s, ip + |CodePs(ps, k)|, EvalPairs(w, f, |s.frames|, ps, s.env))
    decreases f, 1, ps
  {
    hide Run, LeadsIn, Ends, TimesOut, Stopped, GoodWorld, GoodEnv, At, Eval, CodeE, ConstsE, CoreE, NeedE, Enc;
    if ps == [] {
      LeadsRefl(ok, w, p, ip, s);
      assert After(s, [], s.env) == s;
    } else {
      var q := ps[0];
      var c := Enc(Const(k)) + CodeE(q.value, k + 1);
      var k1 := k + 1 + |ConstsE(q.value)|;
      assert CodePs(ps, k) == c + CodePs(ps[1..], k1);
      assert ConstsPs(ps) == ([StrV(q.key)] + ConstsE(q.value)) + ConstsPs(ps[1..]);
      AtSplit(p.code, ip, c, CodePs(ps[1..], k1));
      AtSplit(p.consts, k, [StrV(q.key)] + ConstsE(q.value), ConstsPs(ps[1..]));
      SimEntry(ok, w, f, q, k, p, ip, s);
      var h := Eval(w, f, |s.frames|, q.value, s.env);
      if h.Value? {
        GoodEval(w, f, |s.frames|, q.value, s.env);
        var two := [StrV(q.key), h.v];
        SimPs(ok, w, f, ps[1..], k1, p, ip + |c|, After(s, two, h.env));
        var t := EvalPairs(w, f, |s.frames|, ps[1..], h.env);
        if t.Pairs? {
          Extend(ok, w, p, ip, s, ip + |c|, two, h.env, ip + |CodePs(ps, k)|, Flatten(t.ps), t.env);
          assert Flatten([Pair(q.key, h.v)] + t.ps) == two + Flatten(t.ps);
        } else {
          Carry(ok, w, f, p, ip, s, ip + |c|, two, h.env, t);
        }
      }
    }
  }

  lemma {:induction false} StrippedKeys(w: World, f: nat, d: nat, ps: seq<Entry>, env: Env)
    requires forall i :: 0 <= i < |ps| ==> StrContent(ps[i].key) == ps[i].key
    ensures var o := EvalPairs(w, f, d, ps, env); o.Pairs? ==> Stripped(o.ps) == o.ps
    decreases ps
  {
    hide Eval;
    if ps != [] {
      var h := Eval(w, f, d, ps[0].value, env);
      if h.Value? {
        assert forall i :: 0 <= i < |ps[1..]| ==> ps[1..][i] == ps[i + 1];
        StrippedKeys(w, f, d, ps[1..], h.env);
      }
    }
  }

  lemma ManyParts(w: World, f: nat, d: nat, e: Expr, k: nat, env: Env)
    requires e.ArrayLit? || IsBuiltinCall(e)
    ensures var es := if e.ArrayLit? then e.elems else e.args;
      && CodeE(e, k) == CodeEs(es, k)
        + Enc(if e.ArrayLit? then MakeArray(|es|) else CallBuiltin(BuiltinId(e.callee.name).value, |es|))
      && ConstsE(e) == ConstsEs(es)
      && (CoreE(e) ==> CoreEs(es) && (e.Call? ==> |es| <= MAX_ARGS)) && NeedEs(es) <= NeedE(e)
      && Eval(w, f, d, e, env) == (
           var r := EvalList(w, f, d, es, env);
           if !r.Values? then r
           else if e.ArrayLit? then Value(ArrV(r.vs), r.env)
           else OfRes(w.builtin(BuiltinId(e.callee.name).value, r.vs), r.env))
  {
    hide Enc, BuiltinId, EvalList, Apply, CodeEs, ConstsEs, CoreEs, NeedEs;
  }

  /** Array literals and calls of builtins. */
  lemma {:induction false} SimMany(ok: bool, w: World, f: nat, e: Expr, k: nat, p: Prog, ip: nat, s: State)
    requires (e.ArrayLit? || IsBuiltinCall(e)) && PreE(ok, w, e, k, p, ip, s)
    ensures Sim(ok, w, f, p, ip, s, ip + |CodeE(e, k)|, Eval(w, f, |s.frames|, e, s.env))
    decreases f, 1, e, 0
  {
    hide LeadsIn, Stopped, GoodWorld, GoodEnv, Enc, At, Run, TreeBinary, TreeUnary, TreeField, TreeIndex, Eval,
      EvalList, EvalPairs, CodeE, CodeEs, CodePs, ConstsE, ConstsEs, ConstsPs, CoreE, CoreEs, CorePs, NeedE, NeedEs,
      NeedPs, BuiltinId;
    var es := if e.ArrayLit? then e.elems else e.args;
    var i := if e.ArrayLit? then MakeArray(|es|) else CallBuiltin(BuiltinId(e.callee.name).value, |es|);
    var c := CodeEs(es, k);
    ManyParts(w, f, |s.frames|, e, k, s.env);
    NeedPos(e);
    CodeEsLen(es, k);
    AtSplit(p.code, ip, c, Enc(i));
    SimEs(ok, w, f, es, k, p, ip, s);
    var r := EvalList(w, f, |s.frames|, es, s.env);
    if r.Values? {
      if e.ArrayLit? { ThenArray(ok, w, f, p, ip, s, ip + |c|, r.vs, r.env); }
      else { ThenBuiltin(ok, w, f, p, ip, s, ip + |c|, r.vs, r.env, BuiltinId(e.callee.name).value); }
    }
  }

  lemma PairParts(w: World, f: nat, d: nat, e: Expr, k: nat, env: Env)
    requires e.MapLit? || e.StructLit?
    ensures var ps := e.pairs;
      && CodeE(e, k) == CodePs(ps, k) + Enc(if e.MapLit? then MakeMap(|ps|) else MakeStruct(k + |ConstsPs(ps)|, |ps|))
      && ConstsE(e) == ConstsPs(ps) + (if e.MapLit? then [] else [StrV(e.tname)])
      && (CoreE(e) ==> CorePs(ps) && (e.StructLit? ==> |ps| <= MAX_STRUCT_FIELDS)
                       && (e.MapLit? ==> forall i :: 0 <= i < |ps| ==> StrContent(ps[i].key) == ps[i].key))
      && NeedPs(ps) <= NeedE(e)
      && Eval(w, f, d, e, env) == (
           var r := EvalPairs(w, f, d, ps, env);
           if !r.Pairs? then r
           else Value(if e.MapLit? then MapV(r.ps) else StructV(e.tname, r.ps), r.env))
  {
    hide Enc, EvalPairs, CodePs, ConstsPs, CorePs, NeedPs;
  }

  /** Map and struct literals. */
  lemma {:induction false} SimPairs(ok: bool, w: World, f: nat, e: Expr, k: nat, p: Prog, ip: nat, s: State)
    requires (e.MapLit? || e.StructLit?) && PreE(ok, w, e, k, p, ip, s)
    ensures Sim(ok, w, f, p, ip, s, ip + |CodeE(e, k)|, Eval(w, f, |s.frames|, e, s.env))
    decreases f, 1, e, 0
  {
    hide LeadsIn, Stopped, GoodWorld, GoodEnv, Enc, At, Run, TreeBinary, TreeUnary, TreeField, TreeIndex, Eval,
      EvalList, EvalPairs, CodeE, CodeEs, CodePs, ConstsE, ConstsEs, ConstsPs, CoreE, CoreEs, CorePs, NeedE, NeedEs,
      NeedPs, BuiltinId, Flatten, Stripped, StrContent, Apply, CodeLogical, EvalPairs, StepVar;
    var ps := e.pairs;
    var k1 := k + |ConstsPs(ps)|;
    var i := if e.MapLit? then MakeMap(|ps|) else MakeStruct(k1, |ps|);
    var c := CodePs(ps, k);
    PairParts(w, f, |s.frames|, e, k, s.env);
    NeedPos(e);
    CodePsLen(ps, k);
    AtSplit(p.code, ip, c, Enc(i));
    AtSplit(p.consts, k, ConstsPs(ps), if e.MapLit? then [] else [StrV(e.tname)]);
    if e.StructLit? { AtIndex(p.consts, k1, [StrV(e.tname)], 0); }
    SimPs(ok, w, f, ps, k, p, ip, s);
    var r := EvalPairs(w, f, |s.frames|, ps, s.env);
    if r.Pairs? {
      if e.MapLit? {
        StrippedKeys(w, f, |s.frames|, ps, s.env);
        ThenMap(ok, w, f, p, ip, s, ip + |c|, r.ps, r.env);
      } else {
        ThenStruct(ok, w, f, p, ip, s, ip + |c|, r.ps, r.env, k1, e.tname);
      }
    }
  }

  lemma {:induction false} SimE(ok: bool, w: World, f: nat, e: Expr, k: nat, p: Prog, ip: nat, s: State)
    requires PreE(ok, w, e, k, p, ip, s)
    ensures Sim(ok, w, f, p, ip, s, ip + |CodeE(e, k)|, Eval(w, f, |s.frames|, e, s.env))
    decreases f, 1, e, 2
  {
    hide Sim, Eval, CodeE, ConstsE, At, NeedE, GoodEnv, GoodWorld;
    match e
    case Unary(_, _) => SimOne(ok, w, f, e, k, p, ip, s);
    case Field(_, _) => SimOne(ok, w, f, e, k, p, ip, s);
    case ResultLit(_, _) => SimOne(ok, w, f, e, k, p, ip, s);
    case Try(_) => SimOne(ok, w, f, e, k, p, ip, s);
    case Binary(_, a, b) => SimTwo(ok, w, f, e, a, b, k, p, ip, s);
    case Index(a, b) => SimTwo(ok, w, f, e, a, b, k, p, ip, s);
    case ArrayLit(_) => SimMany(ok, w, f, e, k, p, ip, s);
    case MapLit(_) => SimPairs(ok, w, f, e, k, p, ip, s);
    case StructLit(_, _) => SimPairs(ok, w, f, e, k, p, ip, s);
    case Call(_, _) =>
      if IsBuiltinCall(e) { SimMany(ok, w, f, e, k, p, ip, s); }
      else { SimCall(ok, w, f, e, k, p, ip, s); }
    case _ => SimLeaf(ok, w, f, e, k, p, ip, s);
  }
  // ----- calls -----

  lemma CallParts(w: World, f: nat, d: nat, e: Expr, k: nat, env: Env)
    requires e.Call? && !IsBuiltinCall(e)
    ensures CodeE(e, k) == CodeE(e.callee, k) + (CodeEs(e.args, k + |ConstsE(e.callee)|) + Enc(CallOp(|e.args|)))
    ensures ConstsE(e) == ConstsE(e.callee) + ConstsEs(e.args)
    ensures CoreE(e) ==> CoreE(e.callee) && CoreEs(e.args) && |e.args| < 256
    ensures NeedE(e) > STACK_MAX
    ensures Eval(w, f, d, e, env) == (
      var fv := Eval(w, f, d, e.callee, env);
      if !fv.Value? then fv else
      var r := EvalList(w, f, d, e.args, fv.env);
      if !r.Values? then r else Apply(w, f, d, fv.v, r.vs, r.env))
  {
    hide Enc, BuiltinId, EvalList, Apply, CodeEs, ConstsEs, CoreEs;
  }

  lemma {:induction false} SimCall(ok: bool, w: World, f: nat, e: Expr, k: nat, p: Prog, ip: nat, s: State)
    requires e.Call? && !IsBuiltinCall(e) && PreE(ok, w, e, k, p, ip, s)
    ensures Sim(ok, w, f, p, ip, s, ip + |CodeE(e, k)|, Eval(w, f, |s.frames|, e, s.env))
    decreases f, 1, e, 0
  {
    hide LeadsIn, Stopped, GoodWorld, GoodEnv, Enc, At, Run, TreeBinary, TreeUnary, TreeField, TreeIndex, Eval,
      EvalList, EvalPairs, CodeE, CodeEs, CodePs, ConstsE, ConstsEs, ConstsPs, CoreE, CoreEs, CorePs, NeedE, NeedEs,
      NeedPs, BuiltinId;
    hide Apply;
    CallParts(w, f, |s.frames|, e, k, s.env);
    var k1 := k + |ConstsE(e.callee)|;
    var c := CodeE(e.callee, k);
    var cs := CodeEs(e.args, k1);
    AtSplit(p.code, ip, c, cs + Enc(CallOp(|e.args|)));
    AtSplit(p.code, ip + |c|, cs, Enc(CallOp(|e.args|)));
    AtSplit(p.consts, k, ConstsE(e.callee), ConstsEs(e.args));
    SimE(false, w, f, e.callee, k, p, ip, s);
    var fv := Eval(w, f, |s.frames|, e.callee, s.env);
    if fv.Value? {
      GoodEval(w, f, |s.frames|, e.callee, s.env);
      var s1 := After(s, [fv.v], fv.env);
      SimEs(false, w, f, e.args, k1, p, ip + |c|, s1);
      var r := EvalList(w, f, |s.frames|, e.args, fv.env);
      if r.Values? {
        GoodEvalList(w, f, |s.frames|, e.args, fv.env);
        Extend(false, w, p, ip, s, ip + |c|, [fv.v], fv.env, ip + |c| + |cs|, r.vs, r.env);
        SimApply(w, f, p, ip, s, ip + |c| + |cs|, fv.v, r.vs, r.env);
      } else {
        Carry(false, w, f, p, ip, s, ip + |c|, [fv.v], fv.env, r);
      }
    }
  }

  /** With callee and arguments on the stack, CALL does what applying does. */
  lemma {:induction false} SimApply(w: World, f: nat, p: Prog, ip: nat, s: State, ip1: nat, fv: Val, vs: seq<Val>,
      env: Env)
    requires Leads(false, w, p, ip, s, ip1, After(s, [fv] + vs, env))
    requires At(p.code, ip1, Enc(CallOp(|vs|))) && |vs| < 256
    requires GoodWorld(w) && GoodV(fv) && GoodVs(vs) && GoodEnv(env)
    ensures Sim(false, w, f, p, ip, s, ip1 + 2, Apply(w, f, |s.frames|, fv, vs, env))
    decreases f, 0
  {
    hide Run, LeadsIn, Ends, TimesOut, GoodWorld, GoodEnv, GoodV, Enc, At, Step, ExecBlock, FnProg, LeaveCall, Stopped;
    var s1 := After(s, [fv] + vs, env);
    FewParams(fv);
    StepCallOp(w, p, s, fv, vs, env, ip1 + 2);
    var o := Apply(w, f, |s.frames|, fv, vs, env);
    if !fv.FnV? || |fv.decl.params| != |vs| || |s.frames| >= MAX_CALL_DEPTH {
      OneEnd(false, w, p, ip1, CallOp(|vs|), s1, Faulted(Raised(o.err)));
      LeadsEnds(false, w, p, ip, s, ip1, s1, Faulted(Raised(o.err)));
      StoppedByError(false, w, f, p, ip, s, s.stack, o.err);
    } else if f > 0 {
      SimInvoke(w, f, p, ip1, s, fv, vs, env);
      if o.Value? {
        LeadsTrans(false, w, p, ip, s, ip1, s1, ip1 + 2, After(s, [o.v], o.env));
      } else {
        Rebase(false, w, f, p, ip1, s1, s.stack, [fv] + vs, o);
        CarryFrom(false, w, f, p, ip, s, ip1, s1, s.stack, o);
      }
    } else {
      StoppedAtOnce(false, w, f, p, ip, s, s.stack, o);
    }
  }

  lemma StoppedByError(ok: bool, w: World, f: nat, p: Prog, ip: nat, s: State, base: seq<Val>, e: Err)
    requires Ends(ok, w, p, ip, s, Faulted(Raised(e)))
    ensures Stopped(ok, w, f, p, ip, s, base, Error(e))
  {
    hide Ends;
  }

  lemma StoppedAtOnce(ok: bool, w: World, f: nat, p: Prog, ip: nat, s: State, base: seq<Val>, o: Out)
    requires o.Timeout? && f == 0
    ensures Stopped(ok, w, f, p, ip, s, base, o)
  {
  }

  lemma FewParams(fv: Val)
    requires GoodV(fv)
    ensures fv.FnV? ==> |fv.decl.params| <= MAX_ARGS
  {
    hide Run, FnCode, FnConsts, CoreB;
  }

  lemma StepCallOp(w: World, p: Prog, s: State, fv: Val, vs: seq<Val>, env: Env, ip: nat)
    requires |vs| < 256 && (fv.FnV? ==> |fv.decl.params| <= MAX_ARGS)
    ensures Step(w, p, CallOp(|vs|), ip, After(s, [fv] + vs, env)) ==
      if !fv.FnV? then Abort(Raised(NotCallable))
      else if |fv.decl.params| != |vs| then Abort(Raised(BadArity))
      else if |s.frames| >= MAX_CALL_DEPTH then Abort(Raised(CallDepth))
      else Invoke(fv, vs, After(s, [], env))
  {
    hide Run;
    OnTop(s, [fv] + vs, env);
    var s1 := After(s, [fv] + vs, env);
    assert s1 == After(After(s, [fv], env), vs, env) by {
      assert s.stack + ([fv] + vs) == (s.stack + [fv]) + vs;
    }
    OnTop(After(s, [fv], env), vs, env);
  }

  /** The callee's body, run from its start, does what its block does. */
  lemma {:induction false} SimBody(w: World, f: nat, fn: FnDecl, t: State)
    requires GoodWorld(w) && CoreFn(fn) && GoodEnv(t.env) && |t.frames| > 0
    ensures var q := FnProg(fn); var o := ExecBlock(w, f, |t.frames|, fn.body, t.env);
      if o.Normal? then Ends(false, w, q, 0, t, Halted(After(t, [NilV], o.env)))
      else Stopped(false, w, f, q, 0, t, t.stack, o)
    decreases f, 1
  {
    hide Run, LeadsIn, Ends, TimesOut, GoodWorld, GoodEnv, Enc, ExecBlock, CodeB, ConstsB, CoreB, Stopped;
    var q := FnProg(fn);
    var c := CodeB(fn.body, 0, TOP, false);
    assert At(q.code, 0, c + Enc(ReturnNil)) by { assert q.code[0..|q.code|] == q.code; }
    assert At(q.consts, 0, ConstsB(fn.body)) by { assert q.consts[0..|q.consts|] == q.consts; }
    AtSplit(q.code, 0, c, Enc(ReturnNil));
    hide At;
    SimB(false, w, f, fn.body, 0, TOP, 0, 0, false, q, 0, t);
    var o := ExecBlock(w, f, |t.frames|, fn.body, t.env);
    if o.Normal? { ThenReturnNil(false, w, q, 0, t, |c|, o.env); }
  }

  lemma ThenReturnNil(ok: bool, w: World, p: Prog, ip: nat, s: State, ip1: nat, env: Env)
    requires Leads(ok, w, p, ip, s, ip1, After(s, [], env))
    requires At(p.code, ip1, Enc(ReturnNil)) && (ok ==> |s.stack| < STACK_MAX)
    ensures Ends(ok, w, p, ip, s, Halted(After(s, [NilV], env)))
  {
    hide LeadsIn, Enc, At, Run;
    var s1 := After(s, [], env);
    assert s1.stack == s.stack;
    var r := if |s.stack| >= STACK_MAX then OVERFLOW else Halted(After(s, [NilV], env));
    OneEnd(ok, w, p, ip1, ReturnNil, s1, r);
    LeadsEnds(ok, w, p, ip, s, ip1, s1, r);
  }

  /** The CALL instruction, the callee's run, and the return to the caller. */
  lemma {:induction false} SimInvoke(w: World, f: nat, p: Prog, ip: nat, s: State, fv: Val, vs: seq<Val>, env: Env)
    requires f > 0 && fv.FnV? && |fv.decl.params| == |vs| && |s.frames| < MAX_CALL_DEPTH
    requires At(p.code, ip, Enc(CallOp(|vs|))) && |vs| < 256
    requires GoodWorld(w) && GoodV(fv) && GoodVs(vs) && GoodEnv(env)
    ensures var o := Apply(w, f, |s.frames|, fv, vs, env); var s1 := After(s, [fv] + vs, env);
      if o.Value? then Leads(false, w, p, ip, s1, ip + 2, After(s, [o.v], o.env))
      else Stopped(false, w, f, p, ip, s1, s.stack + ([fv] + vs), o)
    decreases f, 0, 0
  {
    hide Run, LeadsIn, Ends, GoodWorld, GoodEnv, Enc, At, Step, ExecBlock, FnProg, CoreFn, CallBase, BindParams;
    var s1 := After(s, [fv] + vs, env);
    var s0 := After(s, [], env);
    assert s0.stack == s.stack;
    var t := State(s.stack, BindParams(CallBase(fv, env), fv.decl.params, vs), s.frames + [CallFrame(fv, s0)]);
    FewParams(fv);
    StepCallOp(w, p, s, fv, vs, env, ip + 2);
    EnterIs(fv, vs, s0);
    GoodBase(fv, env);
    GoodCall(CallBase(fv, env), fv.decl.params, vs);
    SimBody(w, f - 1, fv.decl, t);
    SizedExecBlock(w, f - 1, |s.frames| + 1, fv.decl.body, t.env);
    var r := ExecBlock(w, f - 1, |s.frames| + 1, fv.decl.body, t.env);
    match r
    case Normal(env1) =>
      LeaveIs(fv, vs, s0, [NilV], env1);
      CallLeads(w, p, ip, CallOp(|vs|), s1, fv, vs, s0, After(t, [NilV], env1));
    case Returned(v, env1) =>
      var junk :| ReturnsWith(false, w, FnProg(fv.decl), 0, t, t.stack, junk, v, env1);
      assert t.stack + junk + [v] == t.stack + (junk + [v]);
      LeaveIs(fv, vs, s0, junk + [v], env1);
      CallLeads(w, p, ip, CallOp(|vs|), s1, fv, vs, s0, After(t, junk + [v], env1));
    case Error(e) =>
      CallFaults(w, p, ip, CallOp(|vs|), s1, fv, vs, s0, Raised(e));
    case Timeout =>
      CallTimesOut(w, f - 1, p, ip, CallOp(|vs|), s1, fv, vs, s0);
    case _ =>
  }

  lemma EnterIs(fv: Val, vs: seq<Val>, s0: State)
    requires fv.FnV? && |fv.decl.params| == |vs|
    ensures EnterCall(fv, vs, s0)
      == State(s0.stack, BindParams(CallBase(fv, s0.env), fv.decl.params, vs), s0.frames + [CallFrame(fv, s0)])
  {
    hide BindParams;
  }

  lemma GoodBase(fv: Val, env: Env)
    requires fv.FnV? && GoodV(fv) && GoodEnv(env)
    ensures GoodEnv(CallBase(fv, env))
  {
  }

  /** Leaving a call whose stack grew by vs2, a non-empty list. */
  lemma LeaveIs(fv: Val, vs: seq<Val>, s0: State, vs2: seq<Val>, env1: Env)
    requires fv.FnV? && |fv.decl.params| == |vs| && vs2 != []
    requires |env1| >= |CallBase(fv, s0.env)|
    ensures LeaveCall(fv, s0, State(s0.stack + vs2, env1, s0.frames + [CallFrame(fv, s0)]))
         == Some((vs2[|vs2| - 1], State(s0.stack, AfterCall(fv, s0.env, env1), s0.frames)))
  {
    hide BindParams;
    BackInCaller(fv, vs, s0, State(s0.stack + vs2, env1, s0.frames + [CallFrame(fv, s0)]));
    assert (s0.stack + vs2)[..|s0.stack|] == s0.stack;
  }

  // ----- statements: one instruction -----

  lemma LineLeads(ok: bool, w: World, p: Prog, ip: nat, s: State, n: nat)
    requires At(p.code, ip, Enc(Line(n)))
    ensures Leads(ok, w, p, ip, s, ip + 3, After(s, [], s.env))
  {
    hide LeadsIn, Enc, At, Run;
    EncLine(n);
    assert After(s, [], s.env) == s;
    OneStep(ok, w, p, ip, Line(n % 65536), s, ip + 3, s);
    LeadsWeaken(ok, w, p, ip, s, ip + 3, s, 1);
  }

  /** Reaching (ip1, s1), one more instruction reaches (ip2, s2). */
  lemma ThenStep(ok: bool, w: World, p: Prog, ip: nat, s: State, ip1: nat, s1: State, i: Instr, ip2: nat, s2: State)
    requires Leads(ok, w, p, ip, s, ip1, s1)
    requires Fits(i) && At(p.code, ip1, Enc(i))
    requires Step(w, p, i, ip1 + Size(i), s1) == Next(ip2, s2)
    ensures LeadsOn(ok, w, p, ip, s, ip2, s2) && Leads(ok, w, p, ip, s, ip2, s2)
  {
    hide LeadsIn, Enc, At, Run, Step;
    OneStep(ok, w, p, ip1, i, s1, ip2, s2);
    LeadsThenOn(ok, w, p, ip, s, ip1, s1, ip2, s2);
    LeadsWeaken(ok, w, p, ip, s, ip2, s2, 1);
  }

  lemma ThenPop(ok: bool, w: World, p: Prog, ip: nat, s: State, ip1: nat, v: Val, env: Env)
    requires Leads(ok, w, p, ip, s, ip1, After(s, [v], env)) && At(p.code, ip1, Enc(Pop))
    ensures Leads(ok, w, p, ip, s, ip1 + 1, After(s, [], env))
  {
    hide LeadsIn, Enc, At, Run;
    OnTop(s, [v], env);
    ThenStep(ok, w, p, ip, s, ip1, After(s, [v], env), Pop, ip1 + 1, After(s, [], env));
  }

  lemma ThenPopScope(ok: bool, w: World, p: Prog, ip: nat, s: State, ip1: nat, env: Env, n: nat)
    requires Leads(ok, w, p, ip, s, ip1, After(s, [], env))
    requires n < 256 && n <= |env| && At(p.code, ip1, Enc(PopScope(n)))
    ensures Leads(ok, w, p, ip, s, ip1 + 2, After(s, [], env[..|env| - n]))
  {
    hide LeadsIn, Enc, At, Run;
    ThenStep(ok, w, p, ip, s, ip1, After(s, [], env), PopScope(n), ip1 + 2, After(s, [], env[..|env| - n]));
  }

  lemma ThenPopCode(ok: bool, w: World, p: Prog, ip: nat, s: State, ip1: nat, env: Env, n: nat)
    requires Leads(ok, w, p, ip, s, ip1, After(s, [], env))
    requires n < 256 && n <= |env| && At(p.code, ip1, PopCode(n))
    ensures Leads(ok, w, p, ip, s, ip1 + |PopCode(n)|, After(s, [], env[..|env| - n]))
  {
    hide LeadsIn, Enc, At, Run;
    if n > 0 { ThenPopScope(ok, w, p, ip, s, ip1, env, n); }
    else { assert env[..|env|] == env; }
  }

  lemma ThenJump(ok: bool, w: World, p: Prog, ip: nat, s: State, ip1: nat, env: Env, off: int)
    requires Leads(ok, w, p, ip, s, ip1, After(s, [], env))
    requires 0 <= off < 65536 && At(p.code, ip1, Enc(Jump(off)))
    ensures Leads(ok, w, p, ip, s, ip1 + 3 + off, After(s, [], env))
  {
    hide LeadsIn, Enc, At, Run;
    ThenStep(ok, w, p, ip, s, ip1, After(s, [], env), Jump(off), ip1 + 3 + off, After(s, [], env));
  }

  lemma ThenJumpBack(ok: bool, w: World, p: Prog, ip: nat, s: State, ip1: nat, env: Env, off: int)
    requires Leads(ok, w, p, ip, s, ip1, After(s, [], env))
    requires 0 <= off < 65536 && off <= ip1 + 3 && At(p.code, ip1, Enc(JumpBack(off)))
    ensures LeadsOn(ok, w, p, ip, s, ip1 + 3 - off, After(s, [], env))
  {
    hide LeadsIn, Enc, At, Run;
    ThenStep(ok, w, p, ip, s, ip1, After(s, [], env), JumpBack(off), ip1 + 3 - off, After(s, [], env));
  }

  lemma ThenJumpIfFalse(ok: bool, w: World, p: Prog, ip: nat, s: State, ip1: nat, v: Val, env: Env, off: int)
    requires Leads(ok, w, p, ip, s, ip1, After(s, [v], env))
    requires 0 <= off < 65536 && At(p.code, ip1, Enc(JumpIf(false, off)))
    ensures Leads(ok, w, p, ip, s, if Truthy(w, v) then ip1 + 3 else ip1 + 3 + off, After(s, [], env))
  {
    hide LeadsIn, Enc, At, Run, Truthy;
    OnTop(s, [v], env);
    ThenStep(ok, w, p, ip, s, ip1, After(s, [v], env), JumpIf(false, off),
             if Truthy(w, v) then ip1 + 3 else ip1 + 3 + off, After(s, [], env));
  }

  /** Defining or assigning the value on top. */
  lemma ThenStore(ok: bool, w: World, f: nat, p: Prog, ip: nat, s: State, ip1: nat, v: Val, env: Env, i: Instr,
      name: string)
    requires Leads(ok, w, p, ip, s, ip1, After(s, [v], env))
    requires (i.Define? || i.SetVar?) && Ready(p) && 0 <= i.idx < |p.consts| && p.consts[i.idx] == StrV(name)
    requires At(p.code, ip1, Enc(i))
    ensures var r := if i.Define? then DefineVar(env, name, v, i.immut) else AssignVar(env, name, v);
      if r.Ok? then Leads(ok, w, p, ip, s, ip1 + 3, After(s, [], r.value))
      else Stopped(ok, w, f, p, ip, s, s.stack, Error(r.err))
  {
    hide LeadsIn, Ends, Enc, At, Run, DefineVar, AssignVar;
    var s1 := After(s, [v], env);
    OnTop(s, [v], env);
    var r := if i.Define? then DefineVar(env, name, v, i.immut) else AssignVar(env, name, v);
    if r.Ok? {
      ThenStep(ok, w, p, ip, s, ip1, s1, i, ip1 + 3, After(s, [], r.value));
    } else {
      OneEnd(ok, w, p, ip1, i, s1, Faulted(Raised(r.err)));
      LeadsEnds(ok, w, p, ip, s, ip1, s1, Faulted(Raised(r.err)));
    }
  }

  lemma ThenReturn(ok: bool, w: World, f: nat, p: Prog, ip: nat, s: State, ip1: nat, v: Val, env: Env)
    requires Leads(ok, w, p, ip, s, ip1, After(s, [v], env)) && At(p.code, ip1, Enc(ReturnOp))
    ensures Stopped(ok, w, f, p, ip, s, s.stack, Returned(v, env))
  {
    hide LeadsIn, Ends, Enc, At, Run;
    var s1 := After(s, [v], env);
    OneEnd(ok, w, p, ip1, ReturnOp, s1, Halted(s1));
    LeadsEnds(ok, w, p, ip, s, ip1, s1, Halted(s1));
    ReturnsNow(ok, w, p, ip, s, v, env);
  }

  // ----- statements -----

  /** The machine at (ip, s) does what the outcome of a statement says: it
      reaches ip1, the break target or (in at least one step) the continue
      target, with the bindings cut to the lb bindings of the loop; or stops. */
  ghost predicate SimStmt(ok: bool, w: World, f: nat, p: Prog, ip: nat, s: State, ip1: nat, l: Loop, lb: nat, o: Out) {
    match o
    case Normal(env) => Leads(ok, w, p, ip, s, ip1, After(s, [], env))
    case Broke(env) =>
      l.kind != Outside && l.fwd.Some? && ip + l.fwd.value >= 0
      && Leads(ok, w, p, ip, s, ip + l.fwd.value, After(s, [], Truncate(env, lb)))
    case Continued(env) =>
      l.kind != Outside && ip - l.back >= 0
      && LeadsOn(ok, w, p, ip, s, ip - l.back, After(s, [], Truncate(env, lb)))
    case _ => Stopped(ok, w, f, p, ip, s, s.stack, o)
  }

  /** A fragment of n bytes at ip inside its loop, whose targets lie in the
      chunk; inLoop bindings exist beyond the lb at the loop. */
  ghost predicate Inside(p: Prog, ip: nat, n: nat, l: Loop, lb: nat, inLoop: nat, s: State) {
    l.kind != Outside ==>
      && l.fwd.Some? && n <= l.fwd.value && ip + l.fwd.value <= |p.code|
      && 0 <= l.back <= ip
      && |s.env| == lb + inLoop + if l.kind == OfFor then 1 else 0
  }

  ghost predicate Ctx(w: World, top: bool, p: Prog, s: State) {
    GoodWorld(w) && Ready(p) && GoodEnv(s.env) && (top <==> |s.frames| == 0)
  }

  /** Having reached ip1 with other bindings, the rest of the fragment. */
  lemma StmtAfter(ok: bool, w: World, f: nat, p: Prog, ip: nat, s: State, n: nat, env: Env, ip2: nat, l: Loop, lb: nat,
      o: Out)
    requires Leads(ok, w, p, ip, s, ip + n, After(s, [], env))
    requires SimStmt(ok, w, f, p, ip + n, After(s, [], env), ip2, Shift(l, n), lb, o)
    ensures SimStmt(ok, w, f, p, ip, s, ip2, l, lb, o)
  {
    hide LeadsIn, Ends, TimesOut, Run, Stopped, Truncate;
    var s1 := After(s, [], env);
    assert s1.stack == s.stack;
    match o
    case Normal(env1) =>
      assert After(s1, [], env1) == After(s, [], env1);
      LeadsTrans(ok, w, p, ip, s, ip + n, s1, ip2, After(s, [], env1));
    case Broke(env1) =>
      var e2 := Truncate(env1, lb);
      assert After(s1, [], e2) == After(s, [], e2);
      LeadsTrans(ok, w, p, ip, s, ip + n, s1, ip + l.fwd.value, After(s, [], e2));
    case Continued(env1) =>
      var e2 := Truncate(env1, lb);
      assert After(s1, [], e2) == After(s, [], e2);
      LeadsThenOn(ok, w, p, ip, s, ip + n, s1, ip - l.back, After(s, [], e2));
    case _ =>
      assert s.stack + [] == s.stack;
      Carry(ok, w, f, p, ip, s, ip + n, [], env, o);
  }

  /** An expression first: either it stops the statement or its value is there. */
  lemma {:induction false} SimFirst(ok: bool, w: World, f: nat, e: Expr, k: nat, p: Prog, ip: nat, n: nat, s: State)
    requires Leads(ok, w, p, ip, s, ip + n, After(s, [], s.env))
    requires PreE(ok, w, e, k, p, ip + n, s)
    ensures var r := Eval(w, f, |s.frames|, e, s.env);
      && (!r.Value? ==> Stopped(ok, w, f, p, ip, s, s.stack, r))
      && (r.Value? ==> Leads(ok, w, p, ip, s, ip + n + |CodeE(e, k)|, After(s, [r.v], r.env)))
      && (r.Value? ==> GoodV(r.v) && GoodEnv(r.env) && |r.env| == |s.env|)
    decreases f, 1, e, 3
  {
    hide LeadsIn, Ends, TimesOut, Run, GoodWorld, GoodEnv, GoodV, Eval, CodeE, ConstsE, CoreE, NeedE, At;
    assert After(s, [], s.env) == s;
    SimE(ok, w, f, e, k, p, ip + n, s);
    GoodEval(w, f, |s.frames|, e, s.env);
    SizedEval(w, f, |s.frames|, e, s.env);
    var r := Eval(w, f, |s.frames|, e, s.env);
    if r.Value? {
      LeadsTrans(ok, w, p, ip, s, ip + n, s, ip + n + |CodeE(e, k)|, After(s, [r.v], r.env));
    } else {
      CarryFrom(ok, w, f, p, ip, s, ip + n, s, s.stack, r);
    }
  }

  lemma {:induction false} SimExprStmt(ok: bool, w: World, f: nat, st: Stmt, k: nat, l: Loop, lb: nat, top: bool,
      p: Prog, ip: nat, s: State)
    requires st.ExprStmt? && PreSimple(ok, w, st, k, top, p, ip, s)
    ensures SimStmt(ok, w, f, p, ip, s, ip + |CodeSimple(st, k, top)|, l, lb, Exec(w, f, |s.frames|, st, s.env))
    decreases f, 1, st, 0
  {
    hide Run, LeadsIn, Ends, TimesOut, Stopped, GoodWorld, GoodEnv, GoodV, Enc, At, Eval, ExecIf, ExecWhile, ExecFor,
      CodeE, ConstsE, CoreFn, NeedE, DefineVar, AssignVar, Truncate;
    var c := CodeE(st.e, k);
    AtSplit(p.code, ip, Enc(Line(st.line)), c + Enc(Pop));
    AtSplit(p.code, ip + 3, c, Enc(Pop));
    LineLeads(ok, w, p, ip, s, st.line);
    SimFirst(ok, w, f, st.e, k, p, ip, 3, s);
    var r := Eval(w, f, |s.frames|, st.e, s.env);
    if r.Value? { ThenPop(ok, w, p, ip, s, ip + 3 + |c|, r.v, r.env); }
  }

  lemma {:induction false} SimDecl(ok: bool, w: World, f: nat, st: Stmt, k: nat, l: Loop, lb: nat, top: bool, p: Prog,
      ip: nat, s: State)
    requires st.Decl? && PreSimple(ok, w, st, k, top, p, ip, s)
    ensures SimStmt(ok, w, f, p, ip, s, ip + |CodeSimple(st, k, top)|, l, lb, Exec(w, f, |s.frames|, st, s.env))
    decreases f, 1, st, 0
  {
    hide Run, LeadsIn, Ends, TimesOut, Stopped, GoodWorld, GoodEnv, GoodV, Enc, At, Eval, ExecIf, ExecWhile, ExecFor,
      CodeE, ConstsE, CoreFn, NeedE, DefineVar, AssignVar, Truncate;
    var c := CodeOpt(st.init, k);
    var k1 := k + |ConstsOpt(st.init)|;
    var i := Define(st.immut, k1);
    AtSplit(p.code, ip, Enc(Line(st.line)), c + Enc(i));
    AtSplit(p.code, ip + 3, c, Enc(i));
    AtSplit(p.consts, k, ConstsOpt(st.init), [StrV(st.x)]);
    AtIndex(p.consts, k1, [StrV(st.x)], 0);
    LineLeads(ok, w, p, ip, s, st.line);
    match st.init
    case Some(e) =>
      assert CoreOpt(st.init);
      SimFirst(ok, w, f, e, k, p, ip, 3, s);
      var r := Eval(w, f, |s.frames|, e, s.env);
      if r.Value? { ThenStore(ok, w, f, p, ip, s, ip + 3 + |c|, r.v, r.env, i, st.x); }
    case None =>
      PushNilLeads(ok, w, p, ip, s);
      ThenStore(ok, w, f, p, ip, s, ip + 3 + |c|, NilV, s.env, i, st.x);
  }

  lemma PushNilLeads(ok: bool, w: World, p: Prog, ip: nat, s: State)
    requires Leads(ok, w, p, ip, s, ip + 3, After(s, [], s.env))
    requires At(p.code, ip + 3, Enc(PushNil)) && (ok ==> |s.stack| < STACK_MAX)
    ensures Leads(ok, w, p, ip, s, ip + 4, After(s, [NilV], s.env))
  {
    hide LeadsIn, Enc, At, Run;
    assert After(s, [], s.env) == s;
    ThenPush(ok, w, 0, p, ip, s, ip + 3, s, PushNil, s.env, Ok(NilV));
  }

  lemma {:induction false} SimAssign(ok: bool, w: World, f: nat, st: Stmt, k: nat, l: Loop, lb: nat, top: bool, p: Prog,
      ip: nat, s: State)
    requires st.Assign? && PreSimple(ok, w, st, k, top, p, ip, s)
    ensures SimStmt(ok, w, f, p, ip, s, ip + |CodeSimple(st, k, top)|, l, lb, Exec(w, f, |s.frames|, st, s.env))
    decreases f, 1, st, 0
  {
    hide Run, LeadsIn, Ends, TimesOut, Stopped, GoodWorld, GoodEnv, GoodV, Enc, At, Eval, ExecIf, ExecWhile, ExecFor,
      CodeE, ConstsE, CoreFn, NeedE, DefineVar, AssignVar, Truncate;
    var c := CodeE(st.e, k);
    var k1 := k + |ConstsE(st.e)|;
    AtSplit(p.code, ip, Enc(Line(st.line)), c + Enc(SetVar(k1)));
    AtSplit(p.code, ip + 3, c, Enc(SetVar(k1)));
    AtSplit(p.consts, k, ConstsE(st.e), [StrV(st.x)]);
    AtIndex(p.consts, k1, [StrV(st.x)], 0);
    LineLeads(ok, w, p, ip, s, st.line);
    SimFirst(ok, w, f, st.e, k, p, ip, 3, s);
    var r := Eval(w, f, |s.frames|, st.e, s.env);
    if r.Value? { ThenStore(ok, w, f, p, ip, s, ip + 3 + |c|, r.v, r.env, SetVar(k1), st.x); }
  }

  lemma StoppedByReturn(ok: bool, w: World, f: nat, p: Prog, ip: nat, s: State, v: Val, env: Env)
    requires exists junk :: ReturnsWith(ok, w, p, ip, s, s.stack, junk, v, env)
    ensures Stopped(ok, w, f, p, ip, s, s.stack, Returned(v, env))
  {
    hide ReturnsWith;
  }

  lemma {:induction false} SimReturn(ok: bool, w: World, f: nat, st: Stmt, k: nat, l: Loop, lb: nat, top: bool, p: Prog,
      ip: nat, s: State)
    requires st.Return? && PreSimple(ok, w, st, k, top, p, ip, s)
    ensures SimStmt(ok, w, f, p, ip, s, ip + |CodeSimple(st, k, top)|, l, lb, Exec(w, f, |s.frames|, st, s.env))
    decreases f, 1, st, 0
  {
    hide Run, LeadsIn, Ends, TimesOut, Stopped, GoodWorld, GoodEnv, GoodV, Enc, At, Eval, ExecIf, ExecWhile, ExecFor,
      CodeE, ConstsE, CoreFn, NeedE, DefineVar, AssignVar, Truncate;
    match st.value
    case None =>
      AtSplit(p.code, ip, Enc(Line(st.line)), Enc(ReturnNil));
      LineLeads(ok, w, p, ip, s, st.line);
      ThenReturnNil(ok, w, p, ip, s, ip + 3, s.env);
      ReturnsNow(ok, w, p, ip, s, NilV, s.env);
      StoppedByReturn(ok, w, f, p, ip, s, NilV, s.env);
    case Some(e) =>
      var c := CodeE(e, k);
      AtSplit(p.code, ip, Enc(Line(st.line)), c + Enc(ReturnOp));
      AtSplit(p.code, ip + 3, c, Enc(ReturnOp));
      LineLeads(ok, w, p, ip, s, st.line);
      assert CoreOpt(st.value);
      SimFirst(ok, w, f, e, k, p, ip, 3, s);
      var r := Eval(w, f, |s.frames|, e, s.env);
      if r.Value? { ThenReturn(ok, w, f, p, ip, s, ip + 3 + |c|, r.v, r.env); }
  }

  /** A function of the main program is a constant; a nested one a closure. */
  lemma SimFnStmt(ok: bool, w: World, f: nat, st: Stmt, k: nat, l: Loop, lb: nat, top: bool, p: Prog, ip: nat, s: State)
    requires st.FnStmt? && PreSimple(ok, w, st, k, top, p, ip, s)
    ensures SimStmt(ok, w, f, p, ip, s, ip + |CodeSimple(st, k, top)|, l, lb, Exec(w, f, |s.frames|, st, s.env))
  {
    hide Run, LeadsIn, Ends, TimesOut, Stopped, GoodWorld, GoodEnv, GoodV, Enc, At, DefineVar, Truncate, CodeSimple,
      ConstsS, NeedS, Exec, CoreS;
    var i := if top then Const(k) else Closure(k);
    var fv := FnV(st.decl, if top then [] else s.env);
    FnParts(w, f, |s.frames|, st, k, top, s.env);
    AtSplit(p.code, ip, Enc(Line(st.line)), Enc(i) + Enc(Define(true, k + 1)));
    AtSplit(p.code, ip + 3, Enc(i), Enc(Define(true, k + 1)));
    AtIndex(p.consts, k, ConstsS(st), 0);
    AtIndex(p.consts, k, ConstsS(st), 1);
    LineLeads(ok, w, p, ip, s, st.line);
    PushFn(ok, w, p, ip, s, k, top, st.decl);
    ThenStore(ok, w, f, p, ip, s, ip + 6, fv, s.env, Define(true, k + 1), st.decl.fname);
  }

  lemma FnParts(w: World, f: nat, d: nat, st: Stmt, k: nat, top: bool, env: Env)
    requires st.FnStmt? && (top <==> d == 0)
    ensures CodeSimple(st, k, top)
         == Enc(Line(st.line)) + (Enc(if top then Const(k) else Closure(k)) + Enc(Define(true, k + 1)))
    ensures |CodeSimple(st, k, top)| == 9 && ConstsS(st) == [FnV(st.decl, []), StrV(st.decl.fname)] && NeedS(st) == 1
    ensures Exec(w, f, d, st, env) == OfDefine(env, st.decl.fname, FnV(st.decl, if top then [] else env), true)
  {
    hide DefineVar;
  }

  lemma PushFn(ok: bool, w: World, p: Prog, ip: nat, s: State, k: nat, top: bool, decl: FnDecl)
    requires Leads(ok, w, p, ip, s, ip + 3, After(s, [], s.env))
    requires Ready(p) && k < |p.consts| && p.consts[k] == FnV(decl, [])
    requires At(p.code, ip + 3, Enc(if top then Const(k) else Closure(k))) && (ok ==> |s.stack| < STACK_MAX)
    ensures Leads(ok, w, p, ip, s, ip + 6, After(s, [FnV(decl, if top then [] else s.env)], s.env))
  {
    hide LeadsIn, Enc, At, Run;
    assert After(s, [], s.env) == s;
    ThenPush(ok, w, 0, p, ip, s, ip + 3, s, if top then Const(k) else Closure(k), s.env,
             Ok(FnV(decl, if top then [] else s.env)));
  }

  ghost predicate PreSimple(ok: bool, w: World, st: Stmt, k: nat, top: bool, p: Prog, ip: nat, s: State) {
    && IsSimple(st) && Ctx(w, top, p, s) && CoreS(st, Outside, 0, 0)
    && At(p.code, ip, CodeSimple(st, k, top)) && At(p.consts, k, ConstsS(st))
    && (ok ==> |s.stack| + NeedS(st) <= STACK_MAX)
  }

  lemma {:induction false} SimSimple(ok: bool, w: World, f: nat, st: Stmt, k: nat, l: Loop, lb: nat, top: bool, p: Prog,
      ip: nat, s: State)
    requires PreSimple(ok, w, st, k, top, p, ip, s)
    ensures SimStmt(ok, w, f, p, ip, s, ip + |CodeSimple(st, k, top)|, l, lb, Exec(w, f, |s.frames|, st, s.env))
    decreases f, 1, st, 1
  {
    hide SimStmt, CodeSimple, Exec, CoreS, NeedS, Ctx, At, Run;
    match st
    case ExprStmt(_, _) => SimExprStmt(ok, w, f, st, k, l, lb, top, p, ip, s);
    case Decl(_, _, _, _) => SimDecl(ok, w, f, st, k, l, lb, top, p, ip, s);
    case Assign(_, _, _) => SimAssign(ok, w, f, st, k, l, lb, top, p, ip, s);
    case Return(_, _) => SimReturn(ok, w, f, st, k, l, lb, top, p, ip, s);
    case FnStmt(_, _) => SimFnStmt(ok, w, f, st, k, l, lb, top, p, ip, s);
    case StructDecl(_) => SimStructDecl(ok, w, f, st, k, l, lb, top, p, ip, s);
  }

  lemma SimStructDecl(ok: bool, w: World, f: nat, st: Stmt, k: nat, l: Loop, lb: nat, top: bool, p: Prog, ip: nat,
      s: State)
    requires st.StructDecl? && PreSimple(ok, w, st, k, top, p, ip, s)
    ensures SimStmt(ok, w, f, p, ip, s, ip + |CodeSimple(st, k, top)|, l, lb, Exec(w, f, |s.frames|, st, s.env))
  {
    hide Run, LeadsIn, Ends, TimesOut, Stopped, GoodWorld, GoodEnv, GoodV, Enc, At, Eval, ExecIf, ExecWhile, ExecFor,
      CodeE, ConstsE, CoreFn, NeedE, DefineVar, AssignVar, Truncate;
    AtSplit(p.code, ip, Enc(Line(st.line)), []);
    LineLeads(ok, w, p, ip, s, st.line);
  }

  // ----- break and continue -----

  lemma ThenExit(ok: bool, w: World, p: Prog, ip: nat, s: State, ip1: nat, env: Env, kind: Kind, bvc: nat)
    requires Leads(ok, w, p, ip, s, ip1, After(s, [], env)) && kind != Outside
    requires At(p.code, ip1, ExitCode(kind, bvc)) && bvc < 256
    requires |env| >= bvc + if kind == OfFor then 1 else 0
    ensures Leads(ok, w, p, ip, s, ip1 + |ExitCode(kind, bvc)|,
                  After(s, [], env[..|env| - bvc - if kind == OfFor then 1 else 0]))
  {
    hide LeadsIn, At, Run, Enc;
    var tail := if kind == OfFor then Enc(PopScope(1)) else [];
    AtSplit(p.code, ip1, PopCode(bvc), tail);
    ThenPopCode(ok, w, p, ip, s, ip1, env, bvc);
    if kind == OfFor {
      var env1 := env[..|env| - bvc];
      ThenPopScope(ok, w, p, ip, s, ip1 + |PopCode(bvc)|, env1, 1);
      assert env1[..|env1| - 1] == env[..|env| - bvc - 1];
    }
  }

  lemma ExecExit(w: World, f: nat, d: nat, st: Stmt, env: Env)
    requires st.Break? || st.Continue?
    ensures Exec(w, f, d, st, env) == if st.Break? then Broke(env) else Continued(env)
  {
    hide Eval, ExecIf, ExecWhile, ExecFor;
  }

  /** break and continue drop the innermost block's bindings and jump to their
      target, where the bindings of the enclosing blocks of the loop body stay
      behind: the count is that of the loop exactly when there are none. */
  lemma ExitLeaves(ok: bool, w: World, st: Stmt, l: Loop, bvc: nat, outer: nat, lb: nat, p: Prog, ip: nat, s: State)
    requires (st.Break? || st.Continue?) && l.kind != Outside && bvc < 256 && Ready(p)
    requires At(p.code, ip, CodeExit(st, l, bvc))
    requires Inside(p, ip, |CodeExit(st, l, bvc)|, l, lb, outer + bvc, s)
    ensures var s1 := After(s, [], s.env[..lb + outer]);
      && (|s1.env| == lb <==> outer == 0)
      && (st.Break? ==> Leads(ok, w, p, ip, s, ip + l.fwd.value, s1))
      && (st.Continue? ==> LeadsOn(ok, w, p, ip, s, ip - l.back, s1))
  {
    hide LeadsIn, At, Run, Enc, ExitCode;
    var exit := ExitCode(l.kind, bvc);
    var n := 3 + |exit| + 3;
    var i := if st.Break? then Jump(BreakOffset(l, n)) else JumpBack(l.back + n);
    assert CodeExit(st, l, bvc) == Enc(Line(st.line)) + (exit + Enc(i));
    AtSplit(p.code, ip, Enc(Line(st.line)), exit + Enc(i));
    AtSplit(p.code, ip + 3, exit, Enc(i));
    LineLeads(ok, w, p, ip, s, st.line);
    ThenExit(ok, w, p, ip, s, ip + 3, s.env, l.kind, bvc);
    AtBound(p.code, ip, CodeExit(st, l, bvc));
    var env1 := s.env[..lb + outer];
    assert s.env[..|s.env| - bvc - if l.kind == OfFor then 1 else 0] == env1;
    if st.Break? { ThenJump(ok, w, p, ip, s, ip + 3 + |exit|, env1, l.fwd.value - n); }
    else { ThenJumpBack(ok, w, p, ip, s, ip + 3 + |exit|, env1, l.back + n); }
  }

  /** Outside any outer block's bindings they do what the semantics says. */
  lemma SimExit(ok: bool, w: World, f: nat, st: Stmt, l: Loop, bvc: nat, lb: nat, p: Prog, ip: nat, s: State)
    requires (st.Break? || st.Continue?) && l.kind != Outside && bvc < 256 && Ready(p)
    requires At(p.code, ip, CodeExit(st, l, bvc))
    requires Inside(p, ip, |CodeExit(st, l, bvc)|, l, lb, bvc, s)
    ensures SimStmt(ok, w, f, p, ip, s, ip + |CodeExit(st, l, bvc)|, l, lb, Exec(w, f, |s.frames|, st, s.env))
  {
    hide LeadsIn, At, Run, CodeExit, Exec;
    ExecExit(w, f, |s.frames|, st, s.env);
    ExitLeaves(ok, w, st, l, bvc, 0, lb, p, ip, s);
  }

  // ----- the statement dispatcher, lists and blocks -----

  lemma {:induction false} SimS(ok: bool, w: World, f: nat, st: Stmt, k: nat, l: Loop, bvc: nat, outer: nat, lb: nat,
      top: bool, p: Prog, ip: nat, s: State)
    requires Ctx(w, top, p, s) && CoreS(st, l.kind, bvc, outer) && (l.kind != Outside ==> bvc < 256)
    requires At(p.code, ip, CodeS(st, k, l, bvc, top)) && At(p.consts, k, ConstsS(st))
    requires Inside(p, ip, |CodeS(st, k, l, bvc, top)|, l, lb, outer + bvc, s)
    requires ok ==> |s.stack| + NeedS(st) <= STACK_MAX
    ensures SimStmt(ok, w, f, p, ip, s, ip + |CodeS(st, k, l, bvc, top)|, l, lb, Exec(w, f, |s.frames|, st, s.env))
    decreases f, 1, st
  {
    hide Run, LeadsIn, Ends, TimesOut, Stopped, SimStmt, SimLoop, GoodWorld, GoodEnv, Enc, At, ExecIf, ExecWhile,
      ExecFor, CodeE, CodeIf, CodeWhile, CodeFor, CodeExit, CodeSimple, ConstsE, ConstsB, ConstsIf, CoreE, CoreFn,
      CoreB, CoreIf, NeedE, NeedIf;
    if st.If? {
      SimIf(ok, w, f, st.chain, k, l, outer + bvc, lb, top, p, ip, s);
    } else if st.While? {
      AtSplit(p.code, ip, Enc(Line(st.line)), CodeWhile(st.cond, st.body, k, top));
      LineLeads(ok, w, p, ip, s, st.line);
      assert After(s, [], s.env).stack == s.stack;
      SimWhile(ok, w, f, st, k, top, p, ip + 3, After(s, [], s.env));
      var o := ExecWhile(w, f, |s.frames|, st, s.env);
      LoopAfter(ok, w, f, p, ip, s, ip + |CodeS(st, k, l, bvc, top)|, l, lb, o);
    } else if st.For? {
      SimForStmt(ok, w, f, st, k, l, bvc, lb, top, p, ip, s);
    } else if st.Break? || st.Continue? {
      SimExit(ok, w, f, st, l, bvc, lb, p, ip, s);
    } else {
      CoreSimple(st, l.kind, bvc, outer);
      SimSimple(ok, w, f, st, k, l, lb, top, p, ip, s);
    }
  }

  lemma CoreSimple(st: Stmt, kind: Kind, bvc: nat, outer: nat)
    requires IsSimple(st) && CoreS(st, kind, bvc, outer)
    ensures CoreS(st, Outside, 0, 0)
  {
  }

  /** A loop never breaks or continues itself. */
  lemma LoopAfter(ok: bool, w: World, f: nat, p: Prog, ip: nat, s: State, ip2: nat, l: Loop, lb: nat, o: Out)
    requires Leads(ok, w, p, ip, s, ip + 3, After(s, [], s.env))
    requires SimLoop(ok, w, f, p, ip + 3, After(s, [], s.env), s.stack, ip2, o)
    ensures SimStmt(ok, w, f, p, ip, s, ip2, l, lb, o)
  {
    hide LeadsIn, Run, Stopped;
    var s1 := After(s, [], s.env);
    if o.Normal? {
      assert State(s.stack, o.env, s.frames) == After(s, [], o.env);
      LeadsTrans(ok, w, p, ip, s, ip + 3, s1, ip2, After(s, [], o.env));
    } else {
      CarryFrom(ok, w, f, p, ip, s, ip + 3, s1, s.stack, o);
      StoppedKinds(ok, w, f, p, ip, s, s.stack, o);
    }
  }

  lemma StoppedKinds(ok: bool, w: World, f: nat, p: Prog, ip: nat, s: State, base: seq<Val>, o: Out)
    requires Stopped(ok, w, f, p, ip, s, base, o)
    ensures Stops(o)
  {
    hide Ends, TimesOut, Run;
  }

  ghost predicate SimLoop(ok: bool, w: World, f: nat, p: Prog, ip: nat, s: State, base: seq<Val>, ip1: nat, o: Out) {
    if o.Normal? then Leads(ok, w, p, ip, s, ip1, State(base, o.env, s.frames))
    else Stopped(ok, w, f, p, ip, s, base, o)
  }

  lemma {:induction false} SimSs(ok: bool, w: World, f: nat, ss: seq<Stmt>, k: nat, l: Loop, bvc: nat, outer: nat,
      lb: nat, top: bool, p: Prog, ip: nat, s: State)
    requires Ctx(w, top, p, s) && CoreSs(ss, l.kind, bvc, outer) && (l.kind != Outside ==> bvc + DeclaredIn(ss) < 256)
    requires At(p.code, ip, CodeSs(ss, k, l, bvc, top)) && At(p.consts, k, ConstsSs(ss))
    requires Inside(p, ip, |CodeSs(ss, k, l, bvc, top)|, l, lb, outer + bvc, s)
    requires ok ==> |s.stack| + NeedSs(ss) <= STACK_MAX
    ensures SimStmt(ok, w, f, p, ip, s, ip + |CodeSs(ss, k, l, bvc, top)|, l, lb, ExecList(w, f, |s.frames|, ss, s.env))
    decreases f, 1, ss
  {
    hide Run, LeadsIn, Ends, TimesOut, Stopped, GoodWorld, GoodEnv, At, Exec, CodeS, ConstsS, CoreS, NeedS, Truncate;
    if ss == [] {
      LeadsRefl(ok, w, p, ip, s);
      assert After(s, [], s.env) == s;
    } else {
      var c := CodeS(ss[0], k, l, bvc, top);
      var k1 := k + |ConstsS(ss[0])|;
      var l1 := Shift(l, |c|);
      var b1 := bvc + Declared(ss[0]);
      var cs := CodeSs(ss[1..], k1, l1, b1, top);
      AtSplit(p.code, ip, c, cs);
      AtSplit(p.consts, k, ConstsS(ss[0]), ConstsSs(ss[1..]));
      SimS(ok, w, f, ss[0], k, l, bvc, outer, lb, top, p, ip, s);
      var h := Exec(w, f, |s.frames|, ss[0], s.env);
      if h.Normal? {
        GoodExec(w, f, |s.frames|, ss[0], l.kind, bvc, outer, s.env);
        SizedExec(w, f, |s.frames|, ss[0], s.env);
        SimSs(ok, w, f, ss[1..], k1, l1, b1, outer, lb, top, p, ip + |c|, After(s, [], h.env));
        StmtAfter(ok, w, f, p, ip, s, |c|, h.env, ip + |c| + |cs|, l, lb, ExecList(w, f, |s.frames|, ss[1..], h.env));
      }
    }
  }

  /** Leaving a block drops exactly the bindings it declared. */
  lemma LeaveBlock(ok: bool, w: World, f: nat, p: Prog, ip: nat, s: State, ip1: nat, ip2: nat, l: Loop, lb: nat, o: Out,
      n: nat)
    requires SimStmt(ok, w, f, p, ip, s, ip1, l, lb, o) && Sized(o, |s.env|, n) && IsStmtOut(o)
    requires o.Normal? ==> Leads(ok, w, p, ip, s, ip2, After(s, [], o.env[..|o.env| - n]))
    requires l.kind != Outside ==> lb <= |s.env|
    ensures SimStmt(ok, w, f, p, ip, s, ip2, l, lb, Leave(o, |s.env|))
  {
    hide LeadsIn, Ends, TimesOut, Run;
    if (o.Broke? || o.Continued?) && l.kind != Outside {
      assert o.env[..|s.env|][..lb] == o.env[..lb];
    }
  }

  lemma {:induction false} SimB(ok: bool, w: World, f: nat, b: Block, k: nat, l: Loop, outer: nat, lb: nat, top: bool,
      p: Prog, ip: nat, s: State)
    requires Ctx(w, top, p, s) && CoreB(b, l.kind, outer)
    requires At(p.code, ip, CodeB(b, k, l, top)) && At(p.consts, k, ConstsB(b))
    requires Inside(p, ip, |CodeB(b, k, l, top)|, l, lb, outer, s)
    requires ok ==> |s.stack| + NeedSs(b.stmts) <= STACK_MAX
    ensures SimStmt(ok, w, f, p, ip, s, ip + |CodeB(b, k, l, top)|, l, lb, ExecBlock(w, f, |s.frames|, b, s.env))
    decreases f, 1, b
  {
    hide Run, LeadsIn, Ends, TimesOut, Stopped, GoodWorld, GoodEnv, At, ExecList, CodeSs, ConstsSs, CoreSs, NeedSs,
      DeclaredIn, PopCode, Enc;
    var n := DeclaredIn(b.stmts);
    var cs := CodeSs(b.stmts, k, Shift(l, 3), 0, top);
    AtSplit(p.code, ip, Enc(Line(b.bline)), cs + PopCode(n));
    AtSplit(p.code, ip + 3, cs, PopCode(n));
    LineLeads(ok, w, p, ip, s, b.bline);
    var s1 := After(s, [], s.env);
    SimSs(ok, w, f, b.stmts, k, Shift(l, 3), 0, outer, lb, top, p, ip + 3, s1);
    var o := ExecList(w, f, |s.frames|, b.stmts, s.env);
    SizedExecList(w, f, |s.frames|, b.stmts, s.env);
    StmtAfter(ok, w, f, p, ip, s, 3, s.env, ip + 3 + |cs|, l, lb, o);
    if o.Normal? { ThenPopCode(ok, w, p, ip, s, ip + 3 + |cs|, o.env, n); }
    LeaveBlock(ok, w, f, p, ip, s, ip + 3 + |cs|, ip + |CodeB(b, k, l, top)|, l, lb, o, n);
  }

  // ----- if -----

  ghost predicate PreElse(ok: bool, s: State, els: Else, kind: Kind, outer: nat) {
    match els
    case NoElse => true
    case ElseBlock(b) => CoreB(b, kind, outer) && (ok ==> |s.stack| + NeedSs(b.stmts) <= STACK_MAX)
    case ElseIf(c) => CoreIf(c, kind, outer) && (ok ==> |s.stack| + NeedIf(c) <= STACK_MAX)
  }

  function ExecElse(w: World, f: nat, d: nat, els: Else, env: Env): Out {
    match els
    case NoElse => Normal(env)
    case ElseBlock(b) => ExecBlock(w, f, d, b, env)
    case ElseIf(c) => ExecIf(w, f, d, c, env)
  }

  lemma IfParts(ok: bool, w: World, f: nat, c: IfChain, k: nat, l: Loop, outer: nat, top: bool, s: State)
    requires CoreIf(c, l.kind, outer)
    requires ok ==> |s.stack| + NeedIf(c) <= STACK_MAX
    ensures var cond := CodeE(c.cond, k); var n := 3 + |cond| + 3; var k1 := k + |ConstsE(c.cond)|;
      var thn := CodeB(c.thn, k1, Shift(l, n), top);
      var els := CodeElse(c.els, k1 + |ConstsB(c.thn)|, Shift(l, n + |thn|), top);
      CodeIf(c, k, l, top) == Enc(Line(c.line)) + (cond
        + (Enc(JumpIf(false, |thn| + if c.els.NoElse? then 0 else 3)) + (thn + els)))
    ensures ConstsIf(c) == ConstsE(c.cond) + (ConstsB(c.thn) + ConstsElse(c.els))
    ensures CoreE(c.cond) && CoreB(c.thn, l.kind, outer) && PreElse(ok, s, c.els, l.kind, outer)
    ensures ok ==> |s.stack| + NeedE(c.cond) <= STACK_MAX && |s.stack| + NeedSs(c.thn.stmts) <= STACK_MAX
    ensures ExecIf(w, f, |s.frames|, c, s.env) == (
      var r := Eval(w, f, |s.frames|, c.cond, s.env);
      if !r.Value? then r
      else if Truthy(w, r.v) then ExecBlock(w, f, |s.frames|, c.thn, r.env)
      else ExecElse(w, f, |s.frames|, c.els, r.env))
  {
    hide Enc, CodeE, CodeB, CodeElse, ConstsE, ConstsB, ConstsElse, CoreE, CoreB, NeedE, NeedSs, Eval, ExecBlock,
      Truthy;
  }

  lemma IfAt<T>(code: seq<T>, p: nat, a: seq<T>, b: seq<T>, c: seq<T>, d: seq<T>, e: seq<T>)
    requires At(code, p, a + (b + (c + (d + e))))
    ensures At(code, p, a) && At(code, p + |a|, b) && At(code, p + |a| + |b|, c)
    ensures At(code, p + |a| + |b| + |c|, d) && At(code, p + |a| + |b| + |c| + |d|, e)
    ensures p + |a| + |b| + |c| + |d| + |e| <= |code|
  {
    hide At;
    AtSplit(code, p, a, b + (c + (d + e)));
    AtSplit(code, p + |a|, b, c + (d + e));
    AtSplit(code, p + |a| + |b|, c, d + e);
    AtSplit(code, p + |a| + |b| + |c|, d, e);
    AtBound(code, p + |a| + |b| + |c| + |d|, e);
  }

  lemma {:induction false} SimIf(ok: bool, w: World, f: nat, c: IfChain, k: nat, l: Loop, outer: nat, lb: nat,
      top: bool, p: Prog, ip: nat, s: State)
    requires Ctx(w, top, p, s) && CoreIf(c, l.kind, outer)
    requires At(p.code, ip, CodeIf(c, k, l, top)) && At(p.consts, k, ConstsIf(c))
    requires Inside(p, ip, |CodeIf(c, k, l, top)|, l, lb, outer, s)
    requires ok ==> |s.stack| + NeedIf(c) <= STACK_MAX
    ensures SimStmt(ok, w, f, p, ip, s, ip + |CodeIf(c, k, l, top)|, l, lb, ExecIf(w, f, |s.frames|, c, s.env))
    decreases f, 1, c
  {
    hide Run, LeadsIn, Ends, TimesOut, Stopped, GoodWorld, GoodEnv, GoodV, Enc, At, Eval, ExecBlock, ExecIf, ExecElse,
      CodeE, CodeB, CodeElse, CodeIf, ConstsE, ConstsB, ConstsElse, ConstsIf, CoreE, CoreB, CoreIf, NeedE, NeedSs,
      NeedIf, Truncate, Truthy, PreElse, Inside, SimStmt;
    IfParts(ok, w, f, c, k, l, outer, top, s);
    var cond := CodeE(c.cond, k);
    var n := 3 + |cond| + 3;
    var k1 := k + |ConstsE(c.cond)|;
    var k2 := k1 + |ConstsB(c.thn)|;
    var thn := CodeB(c.thn, k1, Shift(l, n), top);
    var els := CodeElse(c.els, k2, Shift(l, n + |thn|), top);
    var off := |thn| + if c.els.NoElse? then 0 else 3;
    IfAt(p.code, ip, Enc(Line(c.line)), cond, Enc(JumpIf(false, off)), thn, els);
    AtSplit(p.consts, k, ConstsE(c.cond), ConstsB(c.thn) + ConstsElse(c.els));
    AtSplit(p.consts, k1, ConstsB(c.thn), ConstsElse(c.els));
    ElseLen(c.els, k2, Shift(l, n + |thn|), top);
    LineLeads(ok, w, p, ip, s, c.line);
    SimFirst(ok, w, f, c.cond, k, p, ip, 3, s);
    var r := Eval(w, f, |s.frames|, c.cond, s.env);
    if r.Value? {
      ThenJumpIfFalse(ok, w, p, ip, s, ip + 3 + |cond|, r.v, r.env, off);
      var s1 := After(s, [], r.env);
      if Truthy(w, r.v) {
        SimThen(ok, w, f, c, k1, l, n, outer, lb, top, p, ip, s, s1, els, k2);
      } else {
        SimElse(ok, w, f, c.els, k2, l, n + |thn|, outer, lb, top, p, ip, s, s1);
      }
    } else {
      StoppedIsStmt(ok, w, f, p, ip, s, ip + |CodeIf(c, k, l, top)|, l, lb, r);
    }
  }

  lemma StoppedIsStmt(ok: bool, w: World, f: nat, p: Prog, ip: nat, s: State, ip2: nat, l: Loop, lb: nat, o: Out)
    requires Stopped(ok, w, f, p, ip, s, s.stack, o)
    ensures SimStmt(ok, w, f, p, ip, s, ip2, l, lb, o)
  {
    hide LeadsIn, Ends, TimesOut, Run;
  }

  lemma ElseLen(els: Else, k: nat, l: Loop, top: bool)
    ensures |CodeElse(els, k, l, top)| >= if els.NoElse? then 0 else 3
  {
    hide CodeB, CodeIf, Enc;
  }

  /** The then block, and the jump over the else part if there is one. */
  lemma {:induction false} SimThen(ok: bool, w: World, f: nat, c: IfChain, k: nat, l: Loop, n: nat, outer: nat,
      lb: nat, top: bool, p: Prog, ip: nat, s: State, s1: State, els: seq<Byte>, k2: nat)
    requires Leads(ok, w, p, ip, s, ip + n, s1) && s1 == After(s, [], s1.env) && |s1.env| == |s.env|
    requires Ctx(w, top, p, s1) && CoreB(c.thn, l.kind, outer)
    requires At(p.code, ip + n, CodeB(c.thn, k, Shift(l, n), top)) && At(p.consts, k, ConstsB(c.thn))
    requires els == CodeElse(c.els, k2, Shift(l, n + |CodeB(c.thn, k, Shift(l, n), top)|), top)
    requires At(p.code, ip + n + |CodeB(c.thn, k, Shift(l, n), top)|, els)
    requires Inside(p, ip, n + |CodeB(c.thn, k, Shift(l, n), top)| + |els|, l, lb, outer, s)
    requires ok ==> |s.stack| + NeedSs(c.thn.stmts) <= STACK_MAX
    ensures SimStmt(ok, w, f, p, ip, s, ip + n + |CodeB(c.thn, k, Shift(l, n), top)| + |els|, l, lb,
                    ExecBlock(w, f, |s.frames|, c.thn, s1.env))
    decreases f, 1, c, 1
  {
    hide Run, LeadsIn, Ends, TimesOut, Stopped, GoodWorld, GoodEnv, Enc, At, ExecBlock, CodeB, CodeIf, ConstsB, CoreB,
      NeedSs, Truncate;
    var thn := CodeB(c.thn, k, Shift(l, n), top);
    SimB(ok, w, f, c.thn, k, Shift(l, n), outer, lb, top, p, ip + n, s1);
    var o := ExecBlock(w, f, |s.frames|, c.thn, s1.env);
    StmtAfter(ok, w, f, p, ip, s, n, s1.env, ip + n + |thn|, l, lb, o);
    if !c.els.NoElse? {
      AtBound(p.code, ip + n + |thn|, els);
      AtSplit(p.code, ip + n + |thn|, Enc(Jump(|els| - 3)), els[3..]);
      if o.Normal? { ThenJump(ok, w, p, ip, s, ip + n + |thn|, o.env, |els| - 3); }
    }
  }

  lemma {:induction false} SimElse(ok: bool, w: World, f: nat, els: Else, k: nat, l: Loop, n: nat, outer: nat, lb: nat,
      top: bool, p: Prog, ip: nat, s: State, s1: State)
    requires Leads(ok, w, p, ip, s, ip + n + (if els.NoElse? then 0 else 3), s1) && s1 == After(s, [], s1.env)
      && |s1.env| == |s.env|
    requires Ctx(w, top, p, s1)
    requires PreElse(ok, s, els, l.kind, outer)
    requires At(p.code, ip + n, CodeElse(els, k, Shift(l, n), top)) && At(p.consts, k, ConstsElse(els))
    requires Inside(p, ip, n + |CodeElse(els, k, Shift(l, n), top)|, l, lb, outer, s)
    ensures SimStmt(ok, w, f, p, ip, s, ip + n + |CodeElse(els, k, Shift(l, n), top)|, l, lb,
                    ExecElse(w, f, |s.frames|, els, s1.env))
    decreases f, 1, els
  {
    hide Run, LeadsIn, Ends, TimesOut, Stopped, GoodWorld, GoodEnv, Enc, At, ExecBlock, ExecIf, CodeB, CodeIf, ConstsB,
      ConstsIf, CoreB, CoreIf, NeedSs, NeedIf, Truncate;
    var l3 := Shift(Shift(l, n), 3);
    assert l3 == Shift(l, n + 3);
    match els
    case NoElse =>
    case ElseBlock(b) =>
      var code := CodeB(b, k, l3, top);
      AtSplit(p.code, ip + n, Enc(Jump(|code|)), code);
      SimB(ok, w, f, b, k, l3, outer, lb, top, p, ip + n + 3, s1);
      StmtAfter(ok, w, f, p, ip, s, n + 3, s1.env, ip + n + 3 + |code|, l, lb, ExecBlock(w, f, |s.frames|, b, s1.env));
    case ElseIf(c) =>
      var code := CodeIf(c, k, l3, top);
      AtSplit(p.code, ip + n, Enc(Jump(|code|)), code);
      SimIf(ok, w, f, c, k, l3, outer, lb, top, p, ip + n + 3, s1);
      StmtAfter(ok, w, f, p, ip, s, n + 3, s1.env, ip + n + 3 + |code|, l, lb, ExecIf(w, f, |s.frames|, c, s1.env));
  }

  // ----- loops -----

  /** Back at a loop head in at least one step, with one unit of fuel less. */
  lemma CarryOn(ok: bool, w: World, f: nat, p: Prog, ip: nat, s: State, s1: State, base: seq<Val>, ip2: nat, o: Out)
    requires f > 0 && LeadsOn(ok, w, p, ip, s, ip, s1) && s1.frames == s.frames
    requires SimLoop(ok, w, f - 1, p, ip, s1, base, ip2, o)
    ensures SimLoop(ok, w, f, p, ip, s, base, ip2, o)
  {
    hide LeadsIn, Run, Ends, TimesOut;
    LeadsWeaken(ok, w, p, ip, s, ip, s1, 1);
    if o.Normal? {
      LeadsTrans(ok, w, p, ip, s, ip, s1, ip2, State(base, o.env, s.frames));
    } else if o.Timeout? {
      LeadsTimesOut(ok, w, f - 1, p, ip, s, ip, s1, 1);
    } else {
      FuelFree(ok, w, f - 1, f, p, ip, s1, base, o);
      CarryFrom(ok, w, f, p, ip, s, ip, s1, base, o);
    }
  }

  lemma FuelFree(ok: bool, w: World, f: nat, f': nat, p: Prog, ip: nat, s: State, base: seq<Val>, o: Out)
    requires Stopped(ok, w, f, p, ip, s, base, o) && !o.Timeout?
    ensures Stopped(ok, w, f', p, ip, s, base, o)
  {
    hide Run, Ends, TimesOut;
  }

  lemma {:induction false} SimWhile(ok: bool, w: World, f: nat, st: Stmt, k: nat, top: bool, p: Prog, ip: nat, s: State)
    requires st.While? && Ctx(w, top, p, s) && CoreE(st.cond) && CoreB(st.body, OfWhile, 0)
    requires At(p.code, ip, CodeWhile(st.cond, st.body, k, top)) && At(p.consts, k, ConstsE(st.cond) + ConstsB(st.body))
    requires ok ==> |s.stack| + NeedE(st.cond) <= STACK_MAX && |s.stack| + NeedSs(st.body.stmts) <= STACK_MAX
    ensures SimLoop(ok, w, f, p, ip, s, s.stack, ip + |CodeWhile(st.cond, st.body, k, top)|,
      ExecWhile(w, f, |s.frames|, st, s.env))
    decreases f, 1, st, 0
  {
    hide Run, LeadsIn, LeadsOn, Ends, TimesOut, Stopped, GoodWorld, GoodEnv, GoodV, Enc, At, Eval, ExecBlock, CodeE,
      CodeB, CodeWhile, CodeFor, WhileLoop, ForLoop, LenB, ConstsE, ConstsB, CoreE, CoreB, NeedE, NeedSs, Truncate,
      Truthy, Sized;
    var cond := CodeE(st.cond, k);
    var k1 := k + |ConstsE(st.cond)|;
    var len := LenB(st.body, k1, OfWhile, top);
    var l := WhileLoop(st.cond, st.body, k, top);
    var body := CodeB(st.body, k1, l, top);
    var end := ip + |cond| + 3 + len + 3;
    WhileParts(st, k, top);
    AtSplit(p.code, ip, cond, Enc(JumpIf(false, len + 3)) + (body + Enc(JumpBack(|cond| + 3 + len + 3))));
    AtSplit(p.code, ip + |cond|, Enc(JumpIf(false, len + 3)), body + Enc(JumpBack(|cond| + 3 + len + 3)));
    AtSplit(p.code, ip + |cond| + 3, body, Enc(JumpBack(|cond| + 3 + len + 3)));
    AtBound(p.code, ip + |cond| + 3 + len, Enc(JumpBack(|cond| + 3 + len + 3)));
    AtSplit(p.consts, k, ConstsE(st.cond), ConstsB(st.body));
    if f > 0 {
      LeadsRefl(ok, w, p, ip, s);
      assert After(s, [], s.env) == s;
      SimFirst(ok, w, f, st.cond, k, p, ip, 0, s);
      var c := Eval(w, f, |s.frames|, st.cond, s.env);
      if c.Value? {
        ThenJumpIfFalse(ok, w, p, ip, s, ip + |cond|, c.v, c.env, len + 3);
        if Truthy(w, c.v) {
          var s1 := After(s, [], c.env);
          SimB(ok, w, f, st.body, k1, l, 0, |c.env|, top, p, ip + |cond| + 3, s1);
          var r := ExecBlock(w, f, |s.frames|, st.body, c.env);
          SizedExecBlock(w, f, |s.frames|, st.body, c.env);
          WhileTurn(ok, w, f, p, ip, s, |cond| + 3, len, l, c.env, r);
          if r.Normal? || r.Continued? {
            GoodExecBlock(w, f, |s.frames|, st.body, OfWhile, 0, c.env);
            var s2 := After(s, [], r.env);
            assert s2.stack == s.stack;
            SimWhile(ok, w, f - 1, st, k, top, p, ip, s2);
            CarryOn(ok, w, f, p, ip, s, s2, s.stack, end, ExecWhile(w, f - 1, |s.frames|, st, r.env));
          }
        }
      }
    } else {
      StoppedAtOnce(ok, w, f, p, ip, s, s.stack, Timeout);
    }
  }

  lemma WhileParts(st: Stmt, k: nat, top: bool)
    requires st.While?
    ensures var cond := CodeE(st.cond, k); var k1 := k + |ConstsE(st.cond)|;
      var len := LenB(st.body, k1, OfWhile, top);
      var body := CodeB(st.body, k1, WhileLoop(st.cond, st.body, k, top), top);
      && |body| == len && |CodeWhile(st.cond, st.body, k, top)| == |cond| + 3 + len + 3
      && CodeWhile(st.cond, st.body, k, top)
         == cond + (Enc(JumpIf(false, len + 3)) + (body + Enc(JumpBack(|cond| + 3 + len + 3))))
      && WhileLoop(st.cond, st.body, k, top) == Loop(OfWhile, |cond| + 3, Some(len + 3))
  {
    hide Enc, CodeE, CodeB, ConstsE;
    LenBlock(st.body, k + |ConstsE(st.cond)|, WhileLoop(st.cond, st.body, k, top), Loop(OfWhile, 0, None), top);
  }

  /** What the body of a while came to, seen from the loop start. */
  lemma WhileTurn(ok: bool, w: World, f: nat, p: Prog, ip: nat, s: State, n: nat, len: nat, l: Loop, env: Env, r: Out)
    requires Leads(ok, w, p, ip, s, ip + n, After(s, [], env))
    requires l == Loop(OfWhile, n, Some(len + 3))
    requires SimStmt(ok, w, f, p, ip + n, After(s, [], env), ip + n + len, l, |env|, r)
    requires IsStmtOut(r) && Sized(r, |env|, 0) && (r.Broke? || r.Continued? ==> |r.env| == |env|)
    requires At(p.code, ip + n + len, Enc(JumpBack(n + len + 3))) && n + len + 3 < 65536
    ensures
      if r.Normal? || r.Continued? then LeadsOn(ok, w, p, ip, s, ip, After(s, [], r.env))
      else if r.Broke? then Leads(ok, w, p, ip, s, ip + n + len + 3, After(s, [], r.env))
      else Stopped(ok, w, f, p, ip, s, s.stack, r)
  {
    hide LeadsIn, Run, Ends, TimesOut, Stopped, Enc, At;
    assert r.Broke? || r.Continued? ==> Truncate(r.env, |env|) == r.env;
    assert l == Shift(Loop(OfWhile, 0, Some(len + 3 + n)), n);
    StmtAfter(ok, w, f, p, ip, s, n, env, ip + n + len, Loop(OfWhile, 0, Some(len + 3 + n)), |env|, r);
    if r.Normal? {
      ThenJumpBack(ok, w, p, ip, s, ip + n + len, r.env, n + len + 3);
    }
  }

  // ----- for -----

  /** s with an iterator on top: the array, its length, the next index. */
  function AtIter(s: State, elems: seq<Val>, i: nat, env: Env): (r: State)
    ensures r.frames == s.frames && r.env == env
  {
    After(s, [ArrV(elems), IntV(|elems|), IntV(i)], env)
  }

  lemma StepIterNext(w: World, p: Prog, s: State, elems: seq<Val>, i: nat, env: Env, off: int, ip: nat)
    requires 0 <= off < 65536 && i <= |elems|
    ensures Step(w, p, IterNext(off), ip, AtIter(s, elems, i, env)) ==
      if i == |elems| then Next(ip + off, AtIter(s, elems, i, env))
      else Push(AtIter(s, elems, i + 1, env), ip, elems[i])
  {
    hide Run;
    var s0 := AtIter(s, elems, i, env);
    OnTop(s, [ArrV(elems), IntV(|elems|), IntV(i)], env);
    assert Top(s0, 0) == IntV(i) && Top(s0, 1) == IntV(|elems|) && Top(s0, 2) == ArrV(elems);
    assert s0.stack[|s0.stack| - 1 := IntV(i + 1)] == AtIter(s, elems, i + 1, env).stack;
  }

  /** The final ITER_CLEANUP drops the iterator. */
  lemma ThenCleanup(ok: bool, w: World, p: Prog, ip: nat, s0: State, ip1: nat, s: State, elems: seq<Val>, i: nat,
      env: Env)
    requires Leads(ok, w, p, ip, s0, ip1, AtIter(s, elems, i, env)) && At(p.code, ip1, Enc(IterCleanup))
    ensures Leads(ok, w, p, ip, s0, ip1 + 1, State(s.stack, env, s.frames))
  {
    hide LeadsIn, Enc, At, Run;
    OnTop(s, [ArrV(elems), IntV(|elems|), IntV(i)], env);
    ThenStep(ok, w, p, ip, s0, ip1, AtIter(s, elems, i, env), IterCleanup, ip1 + 1, After(s, [], env));
    assert After(s, [], env) == State(s.stack, env, s.frames);
  }

  /** An exhausted iterator leaves the loop. */
  lemma IterDone(ok: bool, w: World, p: Prog, ip: nat, s: State, elems: seq<Val>, env: Env, off: int)
    requires 0 <= off < 65536 && At(p.code, ip, Enc(IterNext(off))) && At(p.code, ip + 3 + off, Enc(IterCleanup))
    ensures Leads(ok, w, p, ip, AtIter(s, elems, |elems|, env), ip + 3 + off + 1, State(s.stack, env, s.frames))
  {
    hide LeadsIn, Enc, At, Run, Step, AtIter;
    var s0 := AtIter(s, elems, |elems|, env);
    StepIterNext(w, p, s, elems, |elems|, env, off, ip + 3);
    LeadsRefl(ok, w, p, ip, s0);
    ThenStep(ok, w, p, ip, s0, ip, s0, IterNext(off), ip + 3 + off, s0);
    ThenCleanup(ok, w, p, ip, s0, ip + 3 + off, s, elems, |elems|, env);
  }

  /** DEFINE of the value on top of s1. */
  lemma DefineTop(ok: bool, w: World, f: nat, p: Prog, ip: nat, s1: State, v: Val, env: Env, k: nat, name: string,
      base: seq<Val>)
    requires Ready(p) && k < |p.consts| && p.consts[k] == StrV(name) && At(p.code, ip, Enc(Define(false, k)))
    ensures var r := DefineVar(env, name, v, false);
      if r.Ok? then Leads(ok, w, p, ip, After(s1, [v], env), ip + 3, After(s1, [], r.value))
      else Stopped(ok, w, f, p, ip, After(s1, [v], env), base, Error(r.err))
  {
    hide LeadsIn, Ends, Enc, At, Run, DefineVar;
    var s2 := After(s1, [v], env);
    OnTop(s1, [v], env);
    var r := DefineVar(env, name, v, false);
    if r.Ok? {
      OneStep(ok, w, p, ip, Define(false, k), s2, ip + 3, After(s1, [], r.value));
      LeadsWeaken(ok, w, p, ip, s2, ip + 3, After(s1, [], r.value), 1);
    } else {
      OneEnd(ok, w, p, ip, Define(false, k), s2, Faulted(Raised(r.err)));
      StoppedByError(ok, w, f, p, ip, s2, base, r.err);
    }
  }

  /** The next element becomes the loop variable. */
  lemma IterEnter(ok: bool, w: World, f: nat, p: Prog, ip: nat, s: State, elems: seq<Val>, i: nat, env: Env, off: int,
      k: nat, name: string)
    requires i < |elems| && 0 <= off < 65536 && At(p.code, ip, Enc(IterNext(off)))
    requires Ready(p) && k < |p.consts| && p.consts[k] == StrV(name) && At(p.code, ip + 3, Enc(Define(false, k)))
    requires ok ==> |s.stack| + 4 <= STACK_MAX
    ensures var r := DefineVar(env, name, elems[i], false); var s0 := AtIter(s, elems, i, env);
      if r.Ok? then Leads(ok, w, p, ip, s0, ip + 6, AtIter(s, elems, i + 1, r.value))
      else Stopped(ok, w, f, p, ip, s0, s.stack, Error(r.err))
  {
    hide LeadsIn, Ends, Stopped, Enc, At, Run, DefineVar, Step;
    var s0 := AtIter(s, elems, i, env);
    var s1 := AtIter(s, elems, i + 1, env);
    var v := elems[i];
    StepIterNext(w, p, s, elems, i, env, off, ip + 3);
    OnePush(ok, w, p, ip, IterNext(off), s0, s1, v);
    assert s1.(stack := s1.stack + [v]) == After(s1, [v], env);
    DefineTop(ok, w, f, p, ip + 3, s1, v, env, k, name, s.stack);
    var r := DefineVar(env, name, v, false);
    if r.Ok? {
      assert After(s1, [], r.value) == AtIter(s, elems, i + 1, r.value);
      LeadsTrans(ok, w, p, ip, s0, ip + 3, After(s1, [v], env), ip + 6, After(s1, [], r.value));
    } else {
      CarryFrom(ok, w, f, p, ip, s0, ip + 3, After(s1, [v], env), s.stack, Error(r.err));
    }
  }

  lemma ForParts(body: Block, k: nat, top: bool)
    ensures var len := LenB(body, k + 1, OfFor, top); var code := CodeB(body, k + 1, ForLoop(body, k, top), top);
      && |code| == len && |CodeFor(body, k, top)| == 6 + len + 6
      && CodeFor(body, k, top)
         == Enc(IterNext(3 + len + 5)) + (Enc(Define(false, k))
            + (code + (Enc(PopScope(1)) + (Enc(JumpBack(6 + len + 5)) + Enc(IterCleanup)))))
      && ForLoop(body, k, top) == Loop(OfFor, 6, Some(len + 5))
  {
    hide Enc, CodeB;
    LenBlock(body, k + 1, ForLoop(body, k, top), Loop(OfFor, 0, None), top);
  }

  /** Six pieces one after the other. */
  lemma SixAt<T>(code: seq<T>, p: nat, a: seq<T>, b: seq<T>, c: seq<T>, d: seq<T>, e: seq<T>, f: seq<T>)
    requires At(code, p, a + (b + (c + (d + (e + f)))))
    ensures At(code, p, a) && At(code, p + |a|, b) && At(code, p + |a| + |b|, c) && At(code, p + |a| + |b| + |c|, d)
    ensures At(code, p + |a| + |b| + |c| + |d|, e) && At(code, p + |a| + |b| + |c| + |d| + |e|, f)
    ensures p + |a| + |b| + |c| + |d| + |e| + |f| <= |code|
  {
    hide At;
    AtSplit(code, p, a, b + (c + (d + (e + f))));
    AtSplit(code, p + |a|, b, c + (d + (e + f)));
    AtSplit(code, p + |a| + |b|, c, d + (e + f));
    AtSplit(code, p + |a| + |b| + |c|, d, e + f);
    AtSplit(code, p + |a| + |b| + |c| + |d|, e, f);
    AtBound(code, p + |a| + |b| + |c| + |d| + |e|, f);
  }

  lemma ForAt(body: Block, k: nat, top: bool, p: Prog, ip: nat)
    requires At(p.code, ip, CodeFor(body, k, top))
    ensures var len := LenB(body, k + 1, OfFor, top); var code := CodeB(body, k + 1, ForLoop(body, k, top), top);
      && At(p.code, ip, Enc(IterNext(3 + len + 5))) && At(p.code, ip + 3, Enc(Define(false, k)))
      && At(p.code, ip + 6, code) && At(p.code, ip + 6 + len, Enc(PopScope(1)))
      && At(p.code, ip + 6 + len + 2, Enc(JumpBack(6 + len + 5)))
      && At(p.code, ip + 6 + len + 5, Enc(IterCleanup)) && ip + 6 + len + 6 <= |p.code|
  {
    hide Enc, CodeB, CodeFor, LenB, ForLoop, At;
    ForParts(body, k, top);
    var len := LenB(body, k + 1, OfFor, top);
    SixAt(p.code, ip, Enc(IterNext(3 + len + 5)), Enc(Define(false, k)), CodeB(body, k + 1, ForLoop(body, k, top), top),
          Enc(PopScope(1)), Enc(JumpBack(6 + len + 5)), Enc(IterCleanup));
  }

  /** What the body of a for came to, seen from its start at ip + 6. */
  lemma ForTurn(ok: bool, w: World, f: nat, p: Prog, ip: nat, len: nat, s: State, s2: State, lb: nat, r: Out)
    requires SimStmt(ok, w, f, p, ip + 6, s2, ip + 6 + len, Loop(OfFor, 6, Some(len + 5)), lb, r) && |s2.env| == lb + 1
    requires IsStmtOut(r) && Sized(r, lb + 1, 0) && (r.Broke? || r.Continued? ==> |r.env| == lb + 1)
    requires At(p.code, ip + 6 + len, Enc(PopScope(1))) && At(p.code, ip + 6 + len + 2, Enc(JumpBack(6 + len + 5)))
    requires 6 + len + 5 < 65536
    ensures var o := Leave(r, lb);
      if o.Normal? || o.Continued? then Leads(ok, w, p, ip + 6, s2, ip, After(s2, [], o.env))
      else if o.Broke? then Leads(ok, w, p, ip + 6, s2, ip + 6 + len + 5, After(s2, [], o.env))
      else Stopped(ok, w, f, p, ip + 6, s2, s2.stack, o)
  {
    hide LeadsIn, Run, Ends, TimesOut, Stopped, Enc, At;
    if r.Normal? {
      ThenPopScope(ok, w, p, ip + 6, s2, ip + 6 + len, r.env, 1);
      ThenJumpBack(ok, w, p, ip + 6, s2, ip + 6 + len + 2, r.env[..lb], 6 + len + 5);
      LeadsWeaken(ok, w, p, ip + 6, s2, ip, After(s2, [], r.env[..lb]), 1);
    } else if r.Continued? {
      LeadsWeaken(ok, w, p, ip + 6, s2, ip, After(s2, [], r.env[..lb]), 1);
    }
  }

  /** A later point of the loop does what the loop is to do. */
  lemma LoopFrom(ok: bool, w: World, f: nat, p: Prog, ip: nat, s: State, ip1: nat, s1: State, base: seq<Val>, ip2: nat,
      o: Out)
    requires Leads(ok, w, p, ip, s, ip1, s1) && s1.frames == s.frames
    requires SimLoop(ok, w, f, p, ip1, s1, base, ip2, o)
    ensures SimLoop(ok, w, f, p, ip, s, base, ip2, o)
  {
    hide LeadsIn, Run, Stopped;
    if o.Normal? { LeadsTrans(ok, w, p, ip, s, ip1, s1, ip2, State(base, o.env, s.frames)); }
    else { CarryFrom(ok, w, f, p, ip, s, ip1, s1, base, o); }
  }

  ghost predicate PreFor(ok: bool, w: World, st: Stmt, elems: seq<Val>, k: nat, top: bool, p: Prog, ip: nat, s: State,
      env: Env) {
    && st.For? && GoodWorld(w) && Ready(p) && GoodEnv(env) && GoodVs(elems) && (top <==> |s.frames| == 0)
    && CoreB(st.body, OfFor, 0) && At(p.code, ip, CodeFor(st.body, k, top))
    && At(p.consts, k, [StrV(st.x)] + ConstsB(st.body))
    && (ok ==> |s.stack| + 4 <= STACK_MAX && |s.stack| + 3 + NeedSs(st.body.stmts) <= STACK_MAX)
  }

  lemma {:induction false} SimFor(ok: bool, w: World, f: nat, st: Stmt, elems: seq<Val>, i: nat, k: nat, top: bool,
      p: Prog, ip: nat, s: State, env: Env)
    requires PreFor(ok, w, st, elems, k, top, p, ip, s, env) && i <= |elems|
    ensures SimLoop(ok, w, f, p, ip, AtIter(s, elems, i, env), s.stack, ip + |CodeFor(st.body, k, top)|,
                    ExecFor(w, f, |s.frames|, st, elems, i, env))
    decreases f, 1, st, 0, |elems| - i
  {
    hide Run, LeadsIn, Ends, TimesOut, Stopped, GoodWorld, GoodEnv, GoodV, Enc, At, CodeB, CodeFor, ForLoop, LenB,
      ConstsB, CoreB, NeedSs, ExecBlock, AtIter, DefineVar, Leave, Sized, SimLoop;
    var len := LenB(st.body, k + 1, OfFor, top);
    var end := ip + 6 + len + 6;
    var s0 := AtIter(s, elems, i, env);
    ForParts(st.body, k, top);
    ForAt(st.body, k, top, p, ip);
    AtSplit(p.consts, k, [StrV(st.x)], ConstsB(st.body));
    AtIndex(p.consts, k, [StrV(st.x)], 0);
    if i == |elems| {
      IterDone(ok, w, p, ip, s, elems, env, 3 + len + 5);
      LoopEnds(ok, w, f, p, ip, s0, s.stack, end, env);
    } else {
      IterEnter(ok, w, f, p, ip, s, elems, i, env, 3 + len + 5, k, st.x);
      var b := DefineVar(env, st.x, elems[i], false);
      if b.Ok? {
        SimTurn(ok, w, f, st, elems, i, k, top, p, ip, s, env, b.value);
        var r := Leave(ExecBlock(w, f, |s.frames|, st.body, b.value), |env|);
        LoopFrom(ok, w, f, p, ip, s0, ip + 6, AtIter(s, elems, i + 1, b.value), s.stack, end,
                 ExecFor(w, f, |s.frames|, st, elems, i, env));
      } else {
        LoopStops(ok, w, f, p, ip, s0, s.stack, end, Error(b.err));
      }
    }
  }

  lemma LoopEnds(ok: bool, w: World, f: nat, p: Prog, ip: nat, s: State, base: seq<Val>, ip2: nat, env: Env)
    requires Leads(ok, w, p, ip, s, ip2, State(base, env, s.frames))
    ensures SimLoop(ok, w, f, p, ip, s, base, ip2, Normal(env))
  {
    hide LeadsIn;
  }

  lemma LoopStops(ok: bool, w: World, f: nat, p: Prog, ip: nat, s: State, base: seq<Val>, ip2: nat, o: Out)
    requires Stopped(ok, w, f, p, ip, s, base, o)
    ensures SimLoop(ok, w, f, p, ip, s, base, ip2, o)
  {
    hide Ends, TimesOut, Run;
  }

  /** The body with the loop variable bound, and the iterations after it. */
  lemma {:induction false} SimTurn(ok: bool, w: World, f: nat, st: Stmt, elems: seq<Val>, i: nat, k: nat, top: bool,
      p: Prog, ip: nat, s: State, env: Env, env1: Env)
    requires PreFor(ok, w, st, elems, k, top, p, ip, s, env) && i < |elems|
    requires DefineVar(env, st.x, elems[i], false) == Ok(env1)
    ensures SimLoop(ok, w, f, p, ip + 6, AtIter(s, elems, i + 1, env1), s.stack, ip + |CodeFor(st.body, k, top)|,
                    ExecFor(w, f, |s.frames|, st, elems, i, env))
    decreases f, 1, st, 0, |elems| - i, 0
  {
    hide Run, LeadsIn, Ends, TimesOut, Stopped, GoodWorld, GoodV, Enc, At, CodeB, CodeFor, ForLoop, LenB, ConstsB,
      CoreB, NeedSs, ExecBlock, Leave, Sized, SimLoop, SimStmt;
    var len := LenB(st.body, k + 1, OfFor, top);
    var end := ip + 6 + len + 6;
    var s2 := AtIter(s, elems, i + 1, env1);
    ForParts(st.body, k, top);
    ForAt(st.body, k, top, p, ip);
    AtSplit(p.consts, k, [StrV(st.x)], ConstsB(st.body));
    GoodDefine(env, st.x, elems[i], false);
    SimB(ok, w, f, st.body, k + 1, ForLoop(st.body, k, top), 0, |env|, top, p, ip + 6, s2);
    var r := ExecBlock(w, f, |s.frames|, st.body, env1);
    SizedExecBlock(w, f, |s.frames|, st.body, env1);
    ForTurn(ok, w, f, p, ip, len, s, s2, |env|, r);
    var o := Leave(r, |env|);
    if o.Normal? || o.Continued? {
      GoodAfterTurn(w, f, |s.frames|, st, env, env1);
      assert After(s2, [], o.env) == AtIter(s, elems, i + 1, o.env);
      SimFor(ok, w, f, st, elems, i + 1, k, top, p, ip, s, o.env);
      LoopFrom(ok, w, f, p, ip + 6, s2, ip, AtIter(s, elems, i + 1, o.env), s.stack, end,
               ExecFor(w, f, |s.frames|, st, elems, i + 1, o.env));
    } else if o.Broke? {
      assert After(s2, [], o.env) == AtIter(s, elems, i + 1, o.env);
      ThenCleanup(ok, w, p, ip + 6, s2, ip + 6 + len + 5, s, elems, i + 1, o.env);
      LoopEnds(ok, w, f, p, ip + 6, s2, s.stack, end, o.env);
    } else {
      Rebase(ok, w, f, p, ip + 6, s2, s.stack, [ArrV(elems), IntV(|elems|), IntV(i + 1)], o);
      LoopStops(ok, w, f, p, ip + 6, s2, s.stack, end, o);
    }
  }

  lemma GoodAfterTurn(w: World, f: nat, d: nat, st: Stmt, env: Env, env1: Env)
    requires GoodWorld(w) && st.For? && CoreB(st.body, OfFor, 0) && GoodEnv(env1)
    ensures var o := Leave(ExecBlock(w, f, d, st.body, env1), |env|);
      o.Normal? || o.Continued? ==> GoodEnv(o.env)
  {
    hide ExecBlock, GoodWorld, GoodV, CoreB;
    GoodExecBlock(w, f, d, st.body, OfFor, 0, env1);
  }

  lemma ThenIterSetup(ok: bool, w: World, f: nat, p: Prog, ip: nat, s: State, ip1: nat, v: Val, env: Env)
    requires Leads(ok, w, p, ip, s, ip1, After(s, [v], env)) && At(p.code, ip1, Enc(IterSetup))
    requires ok ==> |s.stack| + 3 <= STACK_MAX
    ensures if v.ArrV? then Leads(ok, w, p, ip, s, ip1 + 1, AtIter(s, v.elems, 0, env))
      else Stopped(ok, w, f, p, ip, s, s.stack, Error(NotIterable))
  {
    hide LeadsIn, Ends, Enc, At, Run;
    var s1 := After(s, [v], env);
    OnTop(s, [v], env);
    if !v.ArrV? {
      OneEnd(ok, w, p, ip1, IterSetup, s1, Faulted(Raised(NotIterable)));
      LeadsEnds(ok, w, p, ip, s, ip1, s1, Faulted(Raised(NotIterable)));
    } else {
      assert s1.stack + [IntV(|v.elems|), IntV(0)] == AtIter(s, v.elems, 0, env).stack;
      if |s1.stack| + 2 > STACK_MAX {
        OneEnd(ok, w, p, ip1, IterSetup, s1, OVERFLOW);
        LeadsOverflow(w, p, ip1, s1, ip1 + 1, AtIter(s, v.elems, 0, env), 0);
        LeadsTrans(ok, w, p, ip, s, ip1, s1, ip1 + 1, AtIter(s, v.elems, 0, env));
      } else {
        ThenStep(ok, w, p, ip, s, ip1, s1, IterSetup, ip1 + 1, AtIter(s, v.elems, 0, env));
      }
    }
  }

  lemma ForStmtParts(w: World, f: nat, d: nat, st: Stmt, k: nat, l: Loop, bvc: nat, top: bool, env: Env)
    requires st.For?
    ensures var k1 := k + |ConstsE(st.iter)|;
      && CodeS(st, k, l, bvc, top)
         == Enc(Line(st.line)) + (CodeE(st.iter, k) + (Enc(IterSetup) + CodeFor(st.body, k1, top)))
      && ConstsS(st) == ConstsE(st.iter) + ([StrV(st.x)] + ConstsB(st.body))
      && NeedE(st.iter) <= NeedS(st) && 4 <= NeedS(st) && 3 + NeedSs(st.body.stmts) <= NeedS(st)
      && Exec(w, f, d, st, env) == (
           var r := Eval(w, f, d, st.iter, env);
           if !r.Value? then r
           else if !r.v.ArrV? then Error(NotIterable)
           else ExecFor(w, f, d, st, r.v.elems, 0, r.env))
  {
    hide Enc, CodeE, CodeFor, ConstsE, ConstsB, NeedE, NeedSs, Eval, ExecFor;
  }

  lemma {:induction false} SimForStmt(ok: bool, w: World, f: nat, st: Stmt, k: nat, l: Loop, bvc: nat, lb: nat,
      top: bool, p: Prog, ip: nat, s: State)
    requires st.For? && Ctx(w, top, p, s) && CoreE(st.iter) && CoreB(st.body, OfFor, 0)
    requires At(p.code, ip, CodeS(st, k, l, bvc, top)) && At(p.consts, k, ConstsS(st))
    requires ok ==> |s.stack| + NeedS(st) <= STACK_MAX
    ensures SimStmt(ok, w, f, p, ip, s, ip + |CodeS(st, k, l, bvc, top)|, l, lb, Exec(w, f, |s.frames|, st, s.env))
    decreases f, 1, st, 1
  {
    hide Run, LeadsIn, Ends, TimesOut, Stopped, GoodWorld, Enc, At, CodeE, CodeS, CodeFor, ConstsE, ConstsB, ConstsS,
      CoreE, CoreB, NeedE, NeedS, NeedSs, Eval, Exec, ExecFor, AtIter, SimStmt, SimLoop;
    var c := CodeE(st.iter, k);
    var k1 := k + |ConstsE(st.iter)|;
    var loop := CodeFor(st.body, k1, top);
    ForStmtParts(w, f, |s.frames|, st, k, l, bvc, top, s.env);
    AtSplit(p.code, ip, Enc(Line(st.line)), c + (Enc(IterSetup) + loop));
    AtSplit(p.code, ip + 3, c, Enc(IterSetup) + loop);
    AtSplit(p.code, ip + 3 + |c|, Enc(IterSetup), loop);
    AtSplit(p.consts, k, ConstsE(st.iter), [StrV(st.x)] + ConstsB(st.body));
    LineLeads(ok, w, p, ip, s, st.line);
    SimFirst(ok, w, f, st.iter, k, p, ip, 3, s);
    var r := Eval(w, f, |s.frames|, st.iter, s.env);
    var end := ip + |CodeS(st, k, l, bvc, top)|;
    var o := Exec(w, f, |s.frames|, st, s.env);
    if r.Value? {
      ThenIterSetup(ok, w, f, p, ip, s, ip + 3 + |c|, r.v, r.env);
      if r.v.ArrV? {
        assert GoodVs(r.v.elems);
        SimFor(ok, w, f, st, r.v.elems, 0, k1, top, p, ip + 3 + |c| + 1, s, r.env);
        LoopFrom(ok, w, f, p, ip, s, ip + 3 + |c| + 1, AtIter(s, r.v.elems, 0, r.env), s.stack, end, o);
      } else {
        LoopStops(ok, w, f, p, ip, s, s.stack, end, o);
      }
    } else {
      LoopStops(ok, w, f, p, ip, s, s.stack, end, o);
    }
    LoopIsStmt(ok, w, f, p, ip, s, end, l, lb, o);
  }

  lemma LoopIsStmt(ok: bool, w: World, f: nat, p: Prog, ip: nat, s: State, ip2: nat, l: Loop, lb: nat, o: Out)
    requires SimLoop(ok, w, f, p, ip, s, s.stack, ip2, o)
    ensures SimStmt(ok, w, f, p, ip, s, ip2, l, lb, o)
  {
    hide LeadsIn, Run, Stopped;
    if o.Normal? { assert State(s.stack, o.env, s.frames) == After(s, [], o.env); }
    else { StoppedKinds(ok, w, f, p, ip, s, s.stack, o); }
  }
}
