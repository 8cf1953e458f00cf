/** The virtual machine as a function: one step per instruction, and runs of a
    chunk from a state (src/vm.c).  Whatever C leaves undefined (reading past a
    buffer, popping an empty stack, a constant of the wrong kind) is Stuck. */
module Machine {
  import opened Ast
  import opened Values
  import opened Bytecode
  import CodeGen

  /** The compiled chunk: its bytes and its constant pool. */
  datatype Prog = Prog(code: seq<Byte>, consts: seq<Val>)

  /** A call in progress: its function, where its part of the stack begins, how many
      bindings its caller had, and the caller's bindings if a closure runs. */
  datatype Frame = Frame(fn: Val, base: nat, count: nat, saved: Option<Env>)

  datatype State = State(stack: seq<Val>, env: Env, frames: seq<Frame>)

  datatype Fault = Raised(err: Err) | StackOverflow | Stuck

  datatype StepRes =
    | Next(ip: nat, st: State)
    | Halt(st: State)
    | Invoke(fv: Val, args: seq<Val>, st: State)
    | Abort(fault: Fault)

  datatype RunRes =
    | OutOfFuel
    | Halted(st: State)
    | Faulted(fault: Fault)

  // ----- operators, dispatching on the opcode first -----

  function VmFloats(w: World, a: Val, b: Val): (r: Option<(Float, Float)>) {
    if a.FloatV? && b.FloatV? then Some((a.f, b.f))
    else if a.IntV? && b.FloatV? then Some((w.ofInt(a.i), b.f))
    else if a.FloatV? && b.IntV? then Some((a.f, w.ofInt(b.i)))
    else None
  }

  function VmArith(w: World, op: BinOp, a: Val, b: Val): Res<Val>
    requires op == Add || op == Sub || op == Mul
  {
    var fs := VmFloats(w, a, b);
    if a.IntV? && b.IntV? then
      Ok(IntV(if op == Add then a.i + b.i else if op == Sub then a.i - b.i else a.i * b.i))
    else if fs.Some? then
      var x := fs.value.0;
      var y := fs.value.1;
      Ok(FloatV(if op == Add then w.fAdd(x, y) else if op == Sub then w.fSub(x, y) else w.fMul(x, y)))
    else if op == Add && a.StrV? && b.StrV? then Ok(StrV(StrContent(a.s) + StrContent(b.s)))
    else Fail(InvalidBinary)
  }

  function VmDivide(w: World, op: BinOp, a: Val, b: Val): Res<Val>
    requires op == Div || op == Mod
  {
    var fs := VmFloats(w, a, b);
    if a.IntV? && b.IntV? then
      if b.i == 0 then Fail(DivByZero)
      else Ok(IntV(if op == Div then TruncDiv(a.i, b.i) else TruncMod(a.i, b.i)))
    else if op == Div && fs.Some? then Ok(FloatV(w.fDiv(fs.value.0, fs.value.1)))
    else Fail(InvalidBinary)
  }

  function CompareInt(op: BinOp, l: int, r: int): bool {
    match op
    case Eq => l == r
    case Neq => l != r
    case Lt => l < r
    case Gt => l > r
    case Le => l <= r
    case _ => l >= r
  }

  function VmCompare(w: World, op: BinOp, a: Val, b: Val): Res<Val>
    requires op == Eq || op == Neq || op == Lt || op == Gt || op == Le || op == Ge
  {
    var fs := VmFloats(w, a, b);
    if a.IntV? && b.IntV? then Ok(BoolV(CompareInt(op, a.i, b.i)))
    else if fs.Some? then
      var x := fs.value.0;
      var y := fs.value.1;
      Ok(BoolV(match op
               case Eq => w.fEq(x, y)
               case Neq => !w.fEq(x, y)
               case Lt => w.fLt(x, y)
               case Gt => w.fGt(x, y)
               case Le => w.fLe(x, y)
               case _ => w.fGe(x, y)))
    else if a.BoolV? && b.BoolV? then
      if op == Eq then Ok(BoolV(a.b == b.b))
      else if op == Neq then Ok(BoolV(a.b != b.b))
      else Fail(InvalidBinary)
    else if a.StrV? && b.StrV? then
      var l := StrContent(a.s);
      var r := StrContent(b.s);
      if op == Eq then Ok(BoolV(l == r))
      else if op == Neq then Ok(BoolV(l != r))
      else Ok(BoolV(CompareInt(op, StrCmp(l, r), 0)))
    else Fail(InvalidBinary)
  }

  function VmBinary(w: World, op: BinOp, a: Val, b: Val): Res<Val>
    requires op != And && op != Or
  {
    if op == Add || op == Sub || op == Mul then VmArith(w, op, a, b)
    else if op == Div || op == Mod then VmDivide(w, op, a, b)
    else VmCompare(w, op, a, b)
  }

  function VmUnary(w: World, op: UnOp, a: Val): Res<Val> {
    match op
    case Neg =>
      if a.IntV? then Ok(IntV(-a.i))
      else if a.FloatV? then Ok(FloatV(w.fNeg(a.f)))
      else Fail(InvalidUnary)
    case Not => if a.BoolV? then Ok(BoolV(!a.b)) else Fail(InvalidUnary)
  }

  function VmIndex(obj: Val, idx: Val): Res<Val> {
    match obj
    case MapV(ps) =>
      if !idx.StrV? then Fail(MapKeyNotString)
      else
        var r := FindPair(ps, StrContent(idx.s));
        Ok(if r.Some? then r.value else NilV)
    case ArrV(es) =>
      if !idx.IntV? then Fail(IndexNotInt)
      else if Int32(idx.i) < 0 || Int32(idx.i) >= |es| then Fail(OutOfBounds)
      else Ok(es[Int32(idx.i)])
    case _ => Fail(NotIndexable)
  }

  // ----- single steps -----

  function Push(s: State, ip: nat, v: Val): StepRes {
    if |s.stack| >= STACK_MAX then Abort(StackOverflow)
    else Next(ip, s.(stack := s.stack + [v]))
  }

  /** The state without its n topmost values. */
  function Drop(s: State, n: nat): State
    requires n <= |s.stack|
  {
    s.(stack := s.stack[..|s.stack| - n])
  }

  function Top(s: State, n: nat): Val
    requires n < |s.stack|
  {
    s.stack[|s.stack| - 1 - n]
  }

  function TopN(s: State, n: nat): seq<Val>
    requires n <= |s.stack|
  {
    s.stack[|s.stack| - n..]
  }

  function PushRes(s: State, ip: nat, r: Res<Val>): StepRes {
    match r
    case Ok(v) => Push(s, ip, v)
    case Fail(e) => Abort(Raised(e))
  }

  predicate IsName(p: Prog, idx: int) {
    0 <= idx < |p.consts| && p.consts[idx].StrV?
  }

  /** Values pushed as key0, value0, key1, value1, ... as a list of pairs. */
  function Unzip(vs: seq<Val>, strip: bool): Option<seq<Pair>>
    requires |vs| % 2 == 0
  {
    if vs == [] then Some([])
    else if !vs[0].StrV? then None
    else
      var rest := Unzip(vs[2..], strip);
      if rest.None? then None
      else Some([Pair(if strip then StrContent(vs[0].s) else vs[0].s, vs[1])] + rest.value)
  }

  function StepVar(p: Prog, i: Instr, ip: nat, s: State): StepRes
    requires i.Define? || i.GetVar? || i.SetVar?
  {
    if !IsName(p, i.idx) then Abort(Stuck) else
    var name := p.consts[i.idx].s;
    if i.GetVar? then
      var v := Lookup(s.env, name);
      if v.None? then Abort(Raised(UndefinedVar)) else Push(s, ip, v.value)
    else if |s.stack| < 1 then Abort(Stuck)
    else
      var r := if i.Define? then DefineVar(s.env, name, Top(s, 0), i.immut)
               else AssignVar(s.env, name, Top(s, 0));
      if r.Fail? then Abort(Raised(r.err)) else Next(ip, Drop(s, 1).(env := r.value))
  }

  function StepJump(w: World, i: Instr, ip: nat, s: State): StepRes
    requires i.Jump? || i.JumpBack? || i.JumpIf?
    requires Fits(i)
  {
    if i.Jump? then Next(ip + i.off, s)
    else if i.JumpBack? then if ip < i.off then Abort(Stuck) else Next(ip - i.off, s)
    else if |s.stack| < 1 then Abort(Stuck)
    else Next(if Truthy(w, Top(s, 0)) == i.when then ip + i.off else ip, Drop(s, 1))
  }

  function StepCall(w: World, i: Instr, ip: nat, s: State): StepRes
    requires i.CallOp? || i.CallBuiltin?
    requires Fits(i)
  {
    if i.CallBuiltin? then
      if |s.stack| < i.argc || i.argc > MAX_ARGS then Abort(Stuck)
      else PushRes(Drop(s, i.argc), ip, w.builtin(i.id, TopN(s, i.argc)))
    else if |s.stack| < i.argc + 1 then Abort(Stuck)
    else
      var callee := Top(s, i.argc);
      if !callee.FnV? then Abort(Raised(NotCallable))
      else if |callee.decl.params| != i.argc then Abort(Raised(BadArity))
      else if i.argc > MAX_ARGS then Abort(Stuck)
      else if |s.frames| >= MAX_CALL_DEPTH then Abort(Raised(CallDepth))
      else Invoke(callee, TopN(s, i.argc), Drop(s, i.argc + 1))
  }

  function StepBuild(p: Prog, i: Instr, ip: nat, s: State): StepRes
    requires i.MakeArray? || i.MakeStruct? || i.MakeMap?
    requires Fits(i)
  {
    if i.MakeArray? then
      if |s.stack| < i.count then Abort(Stuck)
      else Push(Drop(s, i.count), ip, ArrV(TopN(s, i.count)))
    else if |s.stack| < 2 * i.count then Abort(Stuck)
    else
      var pairs := Unzip(TopN(s, 2 * i.count), i.MakeMap?);
      if pairs.None? || (i.MakeStruct? && i.count > MAX_STRUCT_FIELDS) then Abort(Stuck)
      else if i.MakeMap? then Push(Drop(s, 2 * i.count), ip, MapV(pairs.value))
      else if !IsName(p, i.idx) then Abort(Stuck)
      else Push(Drop(s, 2 * i.count), ip, StructV(p.consts[i.idx].s, pairs.value))
  }

  function StepField(p: Prog, i: Instr, ip: nat, s: State): StepRes
    requires i.GetField?
  {
    if |s.stack| < 1 || !IsName(p, i.idx) then Abort(Stuck)
    else if !Top(s, 0).StructV? then Abort(Raised(NotStruct))
    else
      var r := FindPair(Top(s, 0).fields, p.consts[i.idx].s);
      if r.None? then Abort(Raised(NoField)) else Push(Drop(s, 1), ip, r.value)
  }

  function StepTry(ip: nat, s: State): StepRes {
    if |s.stack| < 1 then Abort(Stuck)
    else if !Top(s, 0).ResV? then Abort(Raised(NotResult))
    else if Top(s, 0).ok then Push(Drop(s, 1), ip, Top(s, 0).val)
    else Halt(s)
  }

  function StepIter(i: Instr, ip: nat, s: State): StepRes
    requires i.IterSetup? || i.IterNext? || i.IterCleanup?
    requires Fits(i)
  {
    if i.IterSetup? then
      if |s.stack| < 1 then Abort(Stuck)
      else if !Top(s, 0).ArrV? then Abort(Raised(NotIterable))
      else if |s.stack| + 2 > STACK_MAX then Abort(StackOverflow)
      else Next(ip, s.(stack := s.stack + [IntV(|Top(s, 0).elems|), IntV(0)]))
    else if |s.stack| < 3 then Abort(Stuck)
    else if i.IterCleanup? then Next(ip, Drop(s, 3))
    else
      var idx := Top(s, 0);
      var len := Top(s, 1);
      var arr := Top(s, 2);
      if !idx.IntV? || !len.IntV? then Abort(Stuck)
      else if idx.i >= len.i then Next(ip + i.off, s)
      else if !arr.ArrV? || !(0 <= idx.i < |arr.elems|) then Abort(Stuck)
      else Push(s.(stack := s.stack[|s.stack| - 1 := IntV(idx.i + 1)]), ip, arr.elems[idx.i])
  }

  /** One instruction; ip is the position after it. */
  function Step(w: World, p: Prog, i: Instr, ip: nat, s: State): StepRes
    requires Fits(i)
  {
    match i
    case Const(k) => if k < |p.consts| then Push(s, ip, p.consts[k]) else Abort(Stuck)
    case PushNil => Push(s, ip, NilV)
    case PushBool(b) => Push(s, ip, BoolV(b))
    case BinaryOp(op) =>
      if |s.stack| < 2 then Abort(Stuck)
      else PushRes(Drop(s, 2), ip, VmBinary(w, op, Top(s, 1), Top(s, 0)))
    case UnaryOp(op) =>
      if |s.stack| < 1 then Abort(Stuck)
      else PushRes(Drop(s, 1), ip, VmUnary(w, op, Top(s, 0)))
    case Define(_, _) => StepVar(p, i, ip, s)
    case GetVar(_) => StepVar(p, i, ip, s)
    case SetVar(_) => StepVar(p, i, ip, s)
    case Pop => if |s.stack| < 1 then Abort(Stuck) else Next(ip, Drop(s, 1))
    case PopScope(n) =>
      if |s.env| < n then Abort(Stuck) else Next(ip, s.(env := s.env[..|s.env| - n]))
    case Jump(_) => StepJump(w, i, ip, s)
    case JumpBack(_) => StepJump(w, i, ip, s)
    case JumpIf(_, _) => StepJump(w, i, ip, s)
    case Closure(k) =>
      if k < |p.consts| && p.consts[k].FnV? then Push(s, ip, FnV(p.consts[k].decl, s.env))
      else Abort(Stuck)
    case CallOp(_) => StepCall(w, i, ip, s)
    case CallBuiltin(_, _) => StepCall(w, i, ip, s)
    case ReturnOp => Halt(s)
    case ReturnNil =>
      if |s.stack| >= STACK_MAX then Abort(StackOverflow) else Halt(s.(stack := s.stack + [NilV]))
    case MakeArray(_) => StepBuild(p, i, ip, s)
    case MakeStruct(_, _) => StepBuild(p, i, ip, s)
    case MakeMap(_) => StepBuild(p, i, ip, s)
    case IndexOp =>
      if |s.stack| < 2 then Abort(Stuck)
      else PushRes(Drop(s, 2), ip, VmIndex(Top(s, 1), Top(s, 0)))
    case GetField(_) => StepField(p, i, ip, s)
    case MakeResult(ok) =>
      if |s.stack| < 1 then Abort(Stuck) else Push(Drop(s, 1), ip, ResV(ok, Top(s, 0)))
    case TryOp => StepTry(ip, s)
    case IterSetup => StepIter(i, ip, s)
    case IterNext(_) => StepIter(i, ip, s)
    case IterCleanup => StepIter(i, ip, s)
    case Line(_) => Next(ip, s)
  }

  // ----- calls and runs -----

  function FnProg(fn: FnDecl): Prog {
    Prog(CodeGen.FnCode(fn), CodeGen.FnConsts(fn))
  }

  function CallFrame(fv: Val, s: State): Frame
    requires fv.FnV?
  {
    Frame(fv, |s.stack|, |s.env|, if fv.captured == [] then None else Some(s.env))
  }

  function EnterCall(fv: Val, args: seq<Val>, s: State): State
    requires fv.FnV? && |fv.decl.params| == |args|
  {
    State(s.stack,
          BindParams(if fv.captured == [] then s.env else fv.captured, fv.decl.params, args),
          s.frames + [CallFrame(fv, s)])
  }

  /** Back in the caller s from the callee's end t: the stack is cut at the base that
      stands in the callee's frame record, the records above the caller's are dropped,
      the bindings are reset, and the callee's top value is the result. */
  function LeaveCall(fv: Val, s: State, t: State): Option<(Val, State)>
    requires fv.FnV?
  {
    if |t.frames| <= |s.frames| then None else
    var base := t.frames[|s.frames|].base;
    if |t.stack| < base || (fv.captured == [] && |t.env| < |s.env|) then None
    else
      var v := if |t.stack| > base then Top(t, 0) else NilV;
      Some((v, State(t.stack[..base],
                     if fv.captured == [] then t.env[..|s.env|] else s.env,
                     t.frames[..|s.frames|])))
  }

  function Run(w: World, fuel: nat, p: Prog, ip: nat, s: State): RunRes
    decreases fuel, 0
  {
    if fuel == 0 then OutOfFuel
    else if ip >= |p.code| then Halted(s)
    else
      var i := Decode(p.code, ip);
      if i.None? then Faulted(Stuck) else
      var next := ip + Size(i.value);
      match Step(w, p, i.value, next, s)
      case Next(ip1, s1) => Run(w, fuel - 1, p, ip1, s1)
      case Halt(s1) => Halted(s1)
      case Abort(f) => Faulted(f)
      case Invoke(fv, args, s1) =>
        if !fv.FnV? || |fv.decl.params| != |args| then Faulted(Stuck)
        else RunCall(w, fuel - 1, p, next, fv, args, s1)
  }

  /** The call of fv, and then the rest of the caller's chunk from ip. */
  function RunCall(w: World, fuel: nat, p: Prog, ip: nat, fv: Val, args: seq<Val>, s: State): RunRes
    requires fv.FnV? && |fv.decl.params| == |args|
    decreases fuel, 1
  {
    var r := Run(w, fuel, FnProg(fv.decl), 0, EnterCall(fv, args, s));
    if !r.Halted? then r else
    var back := LeaveCall(fv, s, r.st);
    if back.None? then Faulted(Stuck)
    else if |back.value.1.stack| >= STACK_MAX then Faulted(StackOverflow)
    else Run(w, fuel, p, ip, back.value.1.(stack := back.value.1.stack + [back.value.0]))
  }

  // ----- more fuel never changes a finished run -----

  lemma {:induction false} MoreFuel(w: World, n: nat, m: nat, p: Prog, ip: nat, s: State)
    requires n <= m && !Run(w, n, p, ip, s).OutOfFuel?
    ensures Run(w, m, p, ip, s) == Run(w, n, p, ip, s)
    decreases n, 0
  {
    hide Step, Decode, Size, RunCall;
    if n > 0 && ip < |p.code| && Decode(p.code, ip).Some? {
      var i := Decode(p.code, ip).value;
      match Step(w, p, i, ip + Size(i), s)
      case Next(ip1, s1) => MoreFuel(w, n - 1, m - 1, p, ip1, s1);
      case Halt(_) =>
      case Abort(_) =>
      case Invoke(fv, args, s1) =>
        if fv.FnV? && |fv.decl.params| == |args| {
          MoreFuelCall(w, n - 1, m - 1, p, ip + Size(i), fv, args, s1);
        }
    }
  }

  lemma {:induction false} MoreFuelCall(w: World, n: nat, m: nat, p: Prog, ip: nat, fv: Val, args: seq<Val>, s: State)
    requires fv.FnV? && |fv.decl.params| == |args|
    requires n <= m && !RunCall(w, n, p, ip, fv, args, s).OutOfFuel?
    ensures RunCall(w, m, p, ip, fv, args, s) == RunCall(w, n, p, ip, fv, args, s)
    decreases n, 1
  {
    hide Run, EnterCall, LeaveCall, FnProg;
    MoreFuel(w, n, m, FnProg(fv.decl), 0, EnterCall(fv, args, s));
    var r := Run(w, n, FnProg(fv.decl), 0, EnterCall(fv, args, s));
    if r.Halted? {
      var back := LeaveCall(fv, s, r.st);
      if back.Some? && |back.value.1.stack| < STACK_MAX {
        MoreFuel(w, n, m, p, ip, back.value.1.(stack := back.value.1.stack + [back.value.0]));
      }
    }
  }

  // ----- frames below are never changed -----

  /** There is a record left for every call that is made. */
  lemma InvokeDepth(w: World, p: Prog, i: Instr, ip: nat, s: State)
    requires Fits(i) && Step(w, p, i, ip, s).Invoke?
    ensures i.CallOp? && |Step(w, p, i, ip, s).st.frames| < 512
  {
    hide VmBinary, VmUnary, VmIndex, Unzip, DefineVar, AssignVar, Lookup, FindPair, Truthy;
  }

  lemma StepKeepsFrames(w: World, p: Prog, i: Instr, ip: nat, s: State)
    requires Fits(i)
    ensures match Step(w, p, i, ip, s)
            case Next(_, s1) => s1.frames == s.frames
            case Halt(s1) => s1.frames == s.frames
            case Invoke(_, _, s1) => s1.frames == s.frames
            case Abort(_) => true
  {
    hide VmBinary, VmUnary, VmIndex, Unzip, Truthy, FindPair, DefineVar, AssignVar, Lookup;
  }

  /** A run that halts leaves every frame record it began with as it was, and no
      other, whatever it called. */
  lemma {:induction false} FramesKept(w: World, fuel: nat, p: Prog, ip: nat, s: State)
    ensures Run(w, fuel, p, ip, s).Halted? ==> Run(w, fuel, p, ip, s).st.frames == s.frames
    decreases fuel, 0
  {
    hide Step, Decode, Size, FnProg, EnterCall, LeaveCall, RunCall;
    if fuel > 0 && ip < |p.code| && Decode(p.code, ip).Some? {
      var i := Decode(p.code, ip).value;
      StepKeepsFrames(w, p, i, ip + Size(i), s);
      match Step(w, p, i, ip + Size(i), s)
      case Next(ip1, s1) => FramesKept(w, fuel - 1, p, ip1, s1);
      case Invoke(fv, args, s1) =>
        if fv.FnV? && |fv.decl.params| == |args| { CallKeepsFrames(w, fuel - 1, p, ip + Size(i), fv, args, s1); }
      case _ =>
    }
  }

  lemma {:induction false} CallKeepsFrames(w: World, fuel: nat, p: Prog, ip: nat, fv: Val, args: seq<Val>, s: State)
    requires fv.FnV? && |fv.decl.params| == |args|
    ensures var r := RunCall(w, fuel, p, ip, fv, args, s); r.Halted? ==> r.st.frames == s.frames
    decreases fuel, 1
  {
    hide Run, FnProg, EnterCall, LeaveCall;
    FramesKept(w, fuel, FnProg(fv.decl), 0, EnterCall(fv, args, s));
    var r := Run(w, fuel, FnProg(fv.decl), 0, EnterCall(fv, args, s));
    if r.Halted? && LeaveCall(fv, s, r.st).Some? {
      BackInCaller(fv, args, s, r.st);
      var back := LeaveCall(fv, s, r.st).value;
      FramesKept(w, fuel, p, ip, back.1.(stack := back.1.stack + [back.0]));
    }
  }

  /** The base read back from the frame record is the caller's stack height. */
  lemma BackInCaller(fv: Val, args: seq<Val>, s: State, t: State)
    requires fv.FnV? && |fv.decl.params| == |args| && t.frames == EnterCall(fv, args, s).frames
    ensures LeaveCall(fv, s, t).Some? <==> |t.stack| >= |s.stack| && (fv.captured == [] ==> |t.env| >= |s.env|)
    ensures LeaveCall(fv, s, t).Some? ==>
      var back := LeaveCall(fv, s, t).value;
      && back.0 == (if |t.stack| > |s.stack| then Top(t, 0) else NilV)
      && back.1 == State(t.stack[..|s.stack|], if fv.captured == [] then t.env[..|s.env|] else s.env, s.frames)
  {
    assert t.frames[..|s.frames|] == s.frames;
  }
}
