/** The virtual machine as the repository writes it (src/vm.c): a dispatch loop
    over a fixed value stack, a flat environment and an array of frame records.  Like the C
    code it checks almost nothing; every access is shown to be in bounds for
    runs that never get stuck, and the loop to compute what Machine.Run says. */
module Vms {
  import opened Ast
  import opened Values
  import opened Bytecode
  import opened Machine

  /** Where the dispatch loop goes after an instruction. */
  datatype Flow = Goto(ip: nat) | Stop | Enter(fv: Val, args: seq<Val>)

  // ----- loops of src/runtime.c and src/vm.c over names -----

  /** env_get: the innermost binding of a name. */
  method EnvGet(env: Env, name: string) returns (v: Option<Val>)
    ensures v == Lookup(env, name)
  {
    var i: nat := |env|;
    while i > 0
      invariant i <= |env|
      invariant FindVar(env, name, i) == FindVar(env, name, |env|)
    {
      i := i - 1;
      if env[i].name == name { return Some(env[i].value); }
    }
    v := None;
  }

  /** env_assign */
  method EnvAssign(env: Env, name: string, v: Val) returns (r: Res<Env>)
    ensures r == AssignVar(env, name, v)
  {
    var i: nat := |env|;
    while i > 0
      invariant i <= |env|
      invariant FindVar(env, name, i) == FindVar(env, name, |env|)
    {
      i := i - 1;
      if env[i].name == name {
        if env[i].immut { return Fail(ImmutableVar); }
        return Ok(env[i := env[i].(value := v)]);
      }
    }
    r := Fail(UndefinedVar);
  }

  /** The first pair with a key, as fields and map entries are searched. */
  method SearchPairs(ps: seq<Pair>, key: string) returns (r: Option<Val>)
    ensures r == FindPair(ps, key)
  {
    assert ps[0..] == ps;
    for i := 0 to |ps|
      invariant FindPair(ps[i..], key) == FindPair(ps, key)
    {
      assert ps[i..][0] == ps[i] && ps[i..][1..] == ps[i + 1..];
      if ps[i].key == key { return Some(ps[i].value); }
    }
    r := None;
  }

  // ----- popping in reverse -----

  /** The last pair of an even list of keys and values. */
  lemma {:induction false} UnzipSnoc(vs: seq<Val>, k: Val, v: Val, strip: bool)
    requires |vs| % 2 == 0
    ensures |vs + [k, v]| % 2 == 0
    ensures Unzip(vs + [k, v], strip) ==
      if Unzip(vs, strip).None? || !k.StrV? then None
      else Some(Unzip(vs, strip).value + [Pair(if strip then StrContent(k.s) else k.s, v)])
  {
    var all := vs + [k, v];
    if vs == [] {
      assert all == [k, v] && all[2..] == [];
      var last := [Pair(if strip && k.StrV? then StrContent(k.s) else if k.StrV? then k.s else "", v)];
      assert last + [] == last && [] + last == last;
    } else {
      assert all[0] == vs[0] && all[1] == vs[1] && all[2..] == vs[2..] + [k, v];
      UnzipSnoc(vs[2..], k, v, strip);
      var rest := Unzip(vs[2..], strip);
      if vs[0].StrV? && rest.Some? && k.StrV? {
        var first := [Pair(if strip then StrContent(vs[0].s) else vs[0].s, vs[1])];
        var last := [Pair(if strip then StrContent(k.s) else k.s, v)];
        assert first + (rest.value + last) == (first + rest.value) + last;
      }
    }
  }

  function PairOf(key: Val, v: Val, strip: bool): Pair
    requires key.StrV?
  {
    Pair(if strip then StrContent(key.s) else key.s, v)
  }

  /** ps are the pairs of vs behind its first m. */
  ghost predicate Gathered(vs: seq<Val>, m: nat, strip: bool, ps: seq<Pair>) {
    && |vs| % 2 == 0 && 2 * m <= |vs| && Unzip(vs[..2 * m], strip).Some?
    && Unzip(vs, strip) == Some(Unzip(vs[..2 * m], strip).value + ps)
  }

  lemma GatherNone(vs: seq<Val>, strip: bool)
    requires |vs| % 2 == 0 && Unzip(vs, strip).Some?
    ensures Gathered(vs, |vs| / 2, strip, [])
  {
    hide Unzip;
    assert vs[..2 * (|vs| / 2)] == vs;
    assert Unzip(vs, strip).value + [] == Unzip(vs, strip).value;
  }

  lemma GatherMore(vs: seq<Val>, m: nat, strip: bool, ps: seq<Pair>)
    requires 0 < m && Gathered(vs, m, strip, ps)
    ensures vs[2 * m - 2].StrV? && Gathered(vs, m - 1, strip, [PairOf(vs[2 * m - 2], vs[2 * m - 1], strip)] + ps)
  {
    hide Unzip;
    var key, v := vs[2 * m - 2], vs[2 * m - 1];
    var below := vs[..2 * (m - 1)];
    assert vs[..2 * m] == below + [key, v];
    UnzipSnoc(below, key, v, strip);
    var rest := Unzip(below, strip).value;
    assert (rest + [PairOf(key, v, strip)]) + ps == rest + ([PairOf(key, v, strip)] + ps);
  }

  lemma GatherAll(vs: seq<Val>, strip: bool, ps: seq<Pair>)
    requires Gathered(vs, 0, strip, ps)
    ensures Unzip(vs, strip) == Some(ps)
  {
    assert [] + ps == ps;
  }

  class Vm {
    const world: World
    const stack: array<Val>
    var stackTop: nat
    var env: Env
    const frames: array<Frame>
    var frameCount: nat
    var error: Option<Fault>
    ghost var Held: seq<Val>        // the used part of the stack
    ghost var Calls: seq<Frame>     // the used part of the frame records

    ghost predicate Valid()
      reads this, stack, frames
    {
      && stack.Length == STACK_MAX && stackTop <= STACK_MAX && Held == stack[..stackTop]
      && frames.Length == MAX_CALL_DEPTH && frameCount <= MAX_CALL_DEPTH && Calls == frames[..frameCount]
    }

    ghost function View(): State
      reads this
    {
      State(Held, env, Calls)
    }

    constructor (w: World)
      ensures Valid() && fresh(stack) && fresh(frames) && world == w && error.None? && View() == State([], [], [])
    {
      world := w;
      stack := new Val[STACK_MAX](_ => NilV);
      stackTop := 0;
      env := [];
      frames := new Frame[MAX_CALL_DEPTH](_ => Frame(NilV, 0, 0, None));
      frameCount := 0;
      error := None;
      Held := [];
      Calls := [];
    }

    /** vm_push: a full stack is an error, noticed before the next instruction. */
    method Push(v: Val)
      requires Valid()
      modifies this`stackTop, this`error, this`Held, stack
      ensures Valid()
      ensures |old(Held)| < 1024 ==> Held == old(Held) + [v] && error == old(error)
      ensures |old(Held)| >= 1024 ==> Held == old(Held) && error == Some(StackOverflow)
    {
      if stackTop >= STACK_MAX {
        error := Some(StackOverflow);
        return;
      }
      stack[stackTop] := v;
      stackTop := stackTop + 1;
      Held := Held + [v];
    }

    /** vm_pop */
    method Pop() returns (v: Val)
      requires Valid()
      modifies this`stackTop, this`error, this`Held
      ensures Valid()
      ensures |old(Held)| > 0 ==>
        v == old(Held)[|old(Held)| - 1] && Held == old(Held)[..|old(Held)| - 1] && error == old(error)
      ensures |old(Held)| == 0 ==> Held == [] && error == Some(Stuck)
    {
      if stackTop <= 0 {
        error := Some(Stuck);
        return NilV;
      }
      stackTop := stackTop - 1;
      v := stack[stackTop];
      Held := Held[..|Held| - 1];
    }

    /** vm_peek */
    method Peek(distance: nat) returns (v: Val)
      requires Valid() && distance < |Held|
      ensures v == Held[|Held| - 1 - distance]
    {
      v := stack[stackTop - 1 - distance];
    }

    method PushResult(r: Res<Val>)
      requires Valid() && error.None?
      modifies this`stackTop, this`error, this`Held, stack
      ensures Valid()
      ensures match PushRes(old(View()), 0, r)
              case Next(_, s) => error.None? && View() == s
              case Abort(f) => error == Some(f)
              case _ => false
    {
      if r.Fail? { error := Some(Raised(r.err)); } else { Push(r.value); }
    }

    /** What one instruction is to do: the loop's next position and the new
        state, or the error. */
    ghost predicate Did(r: StepRes, f: Flow)
      reads this
    {
      match r
      case Next(ip, s) => error.None? && f == Goto(ip) && View() == s
      case Halt(s) => error.None? && f == Stop && View() == s
      case Invoke(fv, args, s) => error.None? && f == Enter(fv, args) && View() == s
      case Abort(fault) => error == Some(fault)
    }

    // ----- instructions -----

    method DoVar(p: Prog, i: Instr, ip: nat) returns (f: Flow)
      requires Valid() && error.None? && (i.Define? || i.GetVar? || i.SetVar?)
      requires StepVar(p, i, ip, View()) != Abort(Stuck)
      modifies this`stackTop, this`error, this`Held, this`env, stack
      ensures Valid() && Did(StepVar(p, i, ip, old(View())), f)
    {
      hide DefineVar, AssignVar, Lookup;
      f := Goto(ip);
      var name := p.consts[i.idx].s;
      if i.GetVar? {
        var v := EnvGet(env, name);
        if v.None? { error := Some(Raised(UndefinedVar)); } else { Push(v.value); }
      } else {
        var v := Pop();
        var r;
        if i.Define? { r := DefineVar(env, name, v, i.immut); } else { r := EnvAssign(env, name, v); }
        if r.Fail? { error := Some(Raised(r.err)); } else { env := r.value; }
      }
    }

    method DoJump(i: Instr, ip: nat) returns (f: Flow)
      requires Valid() && error.None? && Fits(i) && (i.Jump? || i.JumpBack? || i.JumpIf?)
      requires StepJump(world, i, ip, View()) != Abort(Stuck)
      modifies this`stackTop, this`error, this`Held
      ensures Valid() && Did(StepJump(world, i, ip, old(View())), f)
    {
      hide Truthy;
      match i
      case Jump(offset) => f := Goto(ip + offset);
      case JumpBack(offset) => f := Goto(ip - offset);
      case JumpIf(when, offset) =>
        var cond := Pop();
        f := Goto(if Truthy(world, cond) == when then ip + offset else ip);
    }

    method DoBinary(op: BinOp, ip: nat) returns (f: Flow)
      requires Valid() && error.None? && |Held| >= 2 && op != And && op != Or
      modifies this`stackTop, this`error, this`Held, stack
      ensures Valid()
      ensures Did(PushRes(Drop(old(View()), 2), ip, VmBinary(world, op, Top(old(View()), 1), Top(old(View()), 0))), f)
    {
      hide VmBinary, VmUnary, VmIndex;
      f := Goto(ip);
      var b := Pop();
      var a := Pop();
      PushResult(VmBinary(world, op, a, b));
    }

    method DoUnary(op: UnOp, ip: nat) returns (f: Flow)
      requires Valid() && error.None? && |Held| >= 1
      modifies this`stackTop, this`error, this`Held, stack
      ensures Valid() && Did(PushRes(Drop(old(View()), 1), ip, VmUnary(world, op, Top(old(View()), 0))), f)
    {
      hide VmBinary, VmUnary, VmIndex;
      f := Goto(ip);
      var a := Pop();
      PushResult(VmUnary(world, op, a));
    }

    method DoIndex(ip: nat) returns (f: Flow)
      requires Valid() && error.None? && |Held| >= 2
      modifies this`stackTop, this`error, this`Held, stack
      ensures Valid() && Did(PushRes(Drop(old(View()), 2), ip, VmIndex(Top(old(View()), 1), Top(old(View()), 0))), f)
    {
      hide VmBinary, VmUnary, VmIndex;
      f := Goto(ip);
      var idx := Pop();
      var obj := Pop();
      PushResult(VmIndex(obj, idx));
    }

    /** Pops n values, the last one first. */
    method PopMany(n: nat) returns (vs: seq<Val>)
      requires Valid() && error.None? && n <= |Held|
      modifies this`stackTop, this`error, this`Held
      ensures Valid() && error.None?
      ensures vs == old(Held)[|old(Held)| - n..] && Held == old(Held)[..|old(Held)| - n]
    {
      vs := [];
      var k: nat := n;
      while k > 0
        invariant k <= n && Valid() && error.None?
        invariant Held == old(Held)[..|old(Held)| - n + k]
        invariant vs == old(Held)[|old(Held)| - n + k..]
      {
        var v := Pop();
        vs := [v] + vs;
        k := k - 1;
      }
    }

    method DoCall(i: Instr, ip: nat) returns (f: Flow)
      requires Valid() && error.None? && Fits(i) && (i.CallOp? || i.CallBuiltin?)
      requires StepCall(world, i, ip, View()) != Abort(Stuck)
      modifies this`stackTop, this`error, this`Held, stack
      ensures Valid() && Did(StepCall(world, i, ip, old(View())), f)
    {
      f := Goto(ip);
      if i.CallBuiltin? {
        var args := PopMany(i.argc);
        PushResult(world.builtin(i.id, args));
      } else {
        var callee := Peek(i.argc);
        if !callee.FnV? {
          error := Some(Raised(NotCallable));
        } else if |callee.decl.params| != i.argc {
          error := Some(Raised(BadArity));
        } else if frameCount >= MAX_CALL_DEPTH {
          error := Some(Raised(CallDepth));
        } else {
          var args := PopMany(i.argc);
          var fv := Pop();
          f := Enter(fv, args);
        }
      }
    }

    /** Pops n keys and values, the last pair first. */
    method PopPairs(n: nat, strip: bool) returns (ps: seq<Pair>)
      requires Valid() && error.None? && 2 * n <= |Held|
      requires Unzip(TopN(View(), 2 * n), strip).Some?
      modifies this`stackTop, this`error, this`Held
      ensures Valid() && error.None?
      ensures Some(ps) == Unzip(TopN(old(View()), 2 * n), strip) && Held == old(Held)[..|old(Held)| - 2 * n]
    {
      hide Gathered, Unzip;
      ghost var top := TopN(View(), 2 * n);
      ghost var low := |Held| - 2 * n;
      ps := [];
      var m: nat := n;
      GatherNone(top, strip);
      while m > 0
        invariant m <= n && Valid() && error.None?
        invariant Held == old(Held)[..low + 2 * m]
        invariant Gathered(top, m, strip, ps)
      {
        GatherMore(top, m, strip, ps);
        var v := Pop();
        var key := Pop();
        ps := [PairOf(key, v, strip)] + ps;
        m := m - 1;
      }
      GatherAll(top, strip, ps);
    }

    // MAKE_ARRAY, MAKE_STRUCT and MAKE_MAP
    method DoBuild(p: Prog, i: Instr, ip: nat) returns (f: Flow)
      requires Valid() && error.None? && Fits(i) && (i.MakeArray? || i.MakeStruct? || i.MakeMap?)
      requires StepBuild(p, i, ip, View()) != Abort(Stuck)
      modifies this`stackTop, this`error, this`Held, stack
      ensures Valid() && Did(StepBuild(p, i, ip, old(View())), f)
    {
      hide Unzip;
      f := Goto(ip);
      if i.MakeArray? {
        var elems := PopMany(i.count);
        Push(ArrV(elems));
      } else {
        var ps := PopPairs(i.count, i.MakeMap?);
        Push(if i.MakeMap? then MapV(ps) else StructV(p.consts[i.idx].s, ps));
      }
    }

    method DoField(p: Prog, i: Instr, ip: nat) returns (f: Flow)
      requires Valid() && error.None? && i.GetField?
      requires StepField(p, i, ip, View()) != Abort(Stuck)
      modifies this`stackTop, this`error, this`Held, stack
      ensures Valid() && Did(StepField(p, i, ip, old(View())), f)
    {
      hide FindPair;
      f := Goto(ip);
      var obj := Pop();
      if !obj.StructV? {
        error := Some(Raised(NotStruct));
      } else {
        var r := SearchPairs(obj.fields, p.consts[i.idx].s);
        if r.None? { error := Some(Raised(NoField)); } else { Push(r.value); }
      }
    }

    method DoTry(ip: nat) returns (f: Flow)
      requires Valid() && error.None? && StepTry(ip, View()) != Abort(Stuck)
      modifies this`stackTop, this`error, this`Held, stack
      ensures Valid() && Did(StepTry(ip, old(View())), f)
    {
      f := Goto(ip);
      var v := Pop();
      if !v.ResV? {
        error := Some(Raised(NotResult));
      } else if v.ok {
        Push(v.val);
      } else {
        Push(v);
        f := Stop;
      }
    }

    /** Counts the index below the top up, in place. */
    method Bump()
      requires Valid() && |Held| >= 2 && Held[|Held| - 2].IntV?
      modifies this`Held, stack
      ensures Valid() && Held == old(Held)[|old(Held)| - 2 := IntV(old(Held)[|old(Held)| - 2].i + 1)]
    {
      stack[stackTop - 2] := IntV(stack[stackTop - 2].i + 1);
      Held := Held[|Held| - 2 := IntV(Held[|Held| - 2].i + 1)];
    }

    method DoIterSetup(ip: nat) returns (f: Flow)
      requires Valid() && error.None?
      requires StepIter(IterSetup, ip, View()) != Abort(Stuck)
      modifies this`stackTop, this`error, this`Held, stack
      ensures Valid() && Did(StepIter(IterSetup, ip, old(View())), f)
    {
      f := Goto(ip);
      var arr := Pop();
      if !arr.ArrV? {
        error := Some(Raised(NotIterable));
      } else {
        Push(arr);
        Push(IntV(|arr.elems|));
        Push(IntV(0));
      }
    }

    method DoIterNext(offset: int, ip: nat) returns (f: Flow)
      requires Valid() && error.None? && 0 <= offset < 65536
      requires StepIter(IterNext(offset), ip, View()) != Abort(Stuck)
      modifies this`stackTop, this`error, this`Held, stack
      ensures Valid() && Did(StepIter(IterNext(offset), ip, old(View())), f)
    {
      f := Goto(ip);
      var idx := Peek(0);
      var len := Peek(1);
      if idx.i >= len.i {
        f := Goto(ip + offset);
      } else {
        var arr := Peek(2);
        Push(arr.elems[idx.i]);
        if error.None? { Bump(); }
      }
    }

    method DoIterCleanup(ip: nat) returns (f: Flow)
      requires Valid() && error.None?
      requires StepIter(IterCleanup, ip, View()) != Abort(Stuck)
      modifies this`stackTop, this`error, this`Held, stack
      ensures Valid() && Did(StepIter(IterCleanup, ip, old(View())), f)
    {
      f := Goto(ip);
      var _ := Pop();
      var _ := Pop();
      var _ := Pop();
    }

    /** Values, constants, scopes and bookkeeping. */
    method DoSimple(p: Prog, i: Instr, ip: nat) returns (f: Flow)
      requires Valid() && error.None? && Fits(i)
      requires i.Const? || i.PushNil? || i.PushBool? || i.Pop? || i.PopScope? || i.Closure? || i.ReturnOp?
        || i.ReturnNil?
        || i.MakeResult? || i.Line?
      requires Step(world, p, i, ip, View()) != Abort(Stuck)
      modifies this`stackTop, this`error, this`Held, this`env, stack
      ensures Valid() && Did(Step(world, p, i, ip, old(View())), f)
    {
      f := Goto(ip);
      match i
      case Const(k) => Push(p.consts[k]);
      case PushNil => Push(NilV);
      case PushBool(b) => Push(BoolV(b));
      case Pop => var _ := Pop();
      case PopScope(n) => env := env[..|env| - n];
      case Closure(k) => Push(FnV(p.consts[k].decl, env));
      case ReturnOp => f := Stop;
      case ReturnNil =>
        Push(NilV);
        f := Stop;
      case MakeResult(ok) =>
        var inner := Pop();
        Push(ResV(ok, inner));
      case Line(_) =>
    }

    /** One turn of the dispatch. */
    method Dispatch(p: Prog, i: Instr, ip: nat) returns (f: Flow)
      requires Valid() && error.None? && Fits(i)
      requires Step(world, p, i, ip, View()) != Abort(Stuck)
      modifies this`stackTop, this`error, this`Held, this`env, stack
      ensures Valid() && Did(Step(world, p, i, ip, old(View())), f)
    {
      hide StepVar, StepJump, StepCall, StepBuild, StepField, StepTry, StepIter, VmBinary, VmUnary, VmIndex;
      if i.BinaryOp? { f := DoBinary(i.op, ip); }
      else if i.UnaryOp? { f := DoUnary(i.uop, ip); }
      else if i.IndexOp? { f := DoIndex(ip); }
      else if i.Define? || i.GetVar? || i.SetVar? { f := DoVar(p, i, ip); }
      else if i.Jump? || i.JumpBack? || i.JumpIf? { f := DoJump(i, ip); }
      else if i.CallOp? || i.CallBuiltin? { f := DoCall(i, ip); }
      else if i.MakeArray? || i.MakeStruct? || i.MakeMap? { f := DoBuild(p, i, ip); }
      else if i.GetField? { f := DoField(p, i, ip); }
      else if i.TryOp? { f := DoTry(ip); }
      else if i.IterSetup? { f := DoIterSetup(ip); }
      else if i.IterNext? { f := DoIterNext(i.off, ip); }
      else if i.IterCleanup? { f := DoIterCleanup(ip); }
      else { f := DoSimple(p, i, ip); }
    }

    // ----- calls and the loop -----

    /** Parameters become bindings; the result of env_define is not looked at. */
    method DefineParams(params: seq<string>, args: seq<Val>)
      requires |params| == |args|
      modifies this`env
      ensures env == BindParams(old(env), params, args)
    {
      assert params[0..] == params && args[0..] == args;
      for i := 0 to |params|
        invariant BindParams(env, params[i..], args[i..]) == BindParams(old(env), params, args)
      {
        assert params[i..][1..] == params[i + 1..] && args[i..][1..] == args[i + 1..];
        var d := DefineVar(env, params[i], args[i], true);
        if d.Ok? { env := d.value; }
      }
    }

    /** call_fn_direct_vm: however the callee's run ends, the frame records are as they
        were; when it halts, stack height and bindings are put back as well, the height
        as the callee's frame record has it. */
    method CallFn(fv: Val, args: seq<Val>, fuel: nat) returns (finished: bool, result: Val)
      requires Valid() && error.None? && fv.FnV? && |fv.decl.params| == |args| && |Calls| < MAX_CALL_DEPTH
      requires var r := Run(world, fuel, FnProg(fv.decl), 0, EnterCall(fv, args, View()));
        r != Faulted(Stuck) && (r.Halted? ==> LeaveCall(fv, View(), r.st).Some?)
      modifies this, stack, frames
      ensures Valid() && Calls == old(Calls)
      ensures var r := Run(world, fuel, FnProg(fv.decl), 0, EnterCall(fv, args, old(View())));
        match r
        case OutOfFuel => !finished
        case Faulted(fault) => finished && error == Some(fault)
        case Halted(t) => finished && error.None? && LeaveCall(fv, old(View()), t) == Some((result, View()))
      decreases fuel, 1
    {
      hide Run, FnProg, BindParams;
      var savedEnv: Option<Env> := None;
      var savedCount := |env|;
      if fv.captured != [] {
        savedEnv := Some(env);
        env := fv.captured;
      }
      DefineParams(fv.decl.params, args);
      PushFrame(Frame(fv, stackTop, savedCount, savedEnv));
      var baseFrame := frameCount;
      finished := Execute(FnProg(fv.decl), fuel);
      ghost var t := View();
      result := NilV;
      var base := frames[baseFrame - 1].base;
      assert frames[baseFrame - 1] == Calls[|old(Calls)|];
      if finished && error.None? && stackTop > base { result := Pop(); }
      if frameCount >= baseFrame { DropFrames(baseFrame - 1); }
      if !finished || error.Some? { return; }
      assert Held[..base] == t.stack[..base];
      stackTop := base;
      Held := Held[..base];
      env := if savedEnv.Some? then savedEnv.value else env[..savedCount];
    }

    method PushFrame(f: Frame)
      requires Valid() && |Calls| < MAX_CALL_DEPTH
      modifies this`frameCount, this`Calls, frames
      ensures Valid() && Calls == old(Calls) + [f]
    {
      frames[frameCount] := f;
      frameCount := frameCount + 1;
      Calls := Calls + [f];
    }

    method DropFrames(n: nat)
      requires Valid() && n <= |Calls|
      modifies this`frameCount, this`Calls
      ensures Valid() && Calls == old(Calls)[..n]
    {
      frameCount := n;
      Calls := Calls[..n];
    }

    /** vm_execute: runs a chunk from its start, for as long as the fuel lasts.  However it
        ends, the frame records are as they were. */
    method Execute(p: Prog, fuel: nat) returns (finished: bool)
      requires Valid() && error.None? && Run(world, fuel, p, 0, View()) != Faulted(Stuck)
      modifies this, stack, frames
      ensures Valid() && Calls == old(Calls)
      ensures match Run(world, fuel, p, 0, old(View()))
              case OutOfFuel => !finished
              case Faulted(fault) => finished && error == Some(fault)
              case Halted(t) => finished && error.None? && View() == t
      decreases fuel, 0
    {
      hide Step, Decode, Size, FnProg, EnterCall, LeaveCall;
      var ip: nat, left: nat := 0, fuel;
      while ip < |p.code|
        invariant Valid() && error.None? && Calls == old(Calls)
        invariant Run(world, left, p, ip, View()) == Run(world, fuel, p, 0, old(View()))
        invariant left <= fuel
        decreases left
      {
        if left == 0 { return false; }
        var i := Decode(p.code, ip).value;
        var next := ip + Size(i);
        ghost var before := View();
        var f := Dispatch(p, i, next);
        if error.None? && f.Enter? { InvokeDepth(world, p, i, next, before); }
        left := left - 1;
        if error.Some? { return true; }
        match f
        case Goto(to) => ip := to;
        case Stop => return true;
        case Enter(fv, args) =>
          var done, result := CallFn(fv, args, left);
          if !done { return false; }
          if error.Some? { return true; }
          Push(result);
          if error.Some? { return true; }
          ip := next;
      }
      finished := left > 0;
    }
  }
}
