/** Running checked code: no instruction gets stuck, and the frame's part of the
    stack and its bindings are as the check says at every boundary. */
module Verified {
  import opened Ast
  import opened Values
  import opened Bytecode
  import opened Machine
  import opened Shapes
  import opened Orderly

  /** At a point: what lies above the caller's part of the stack is of its shape, and
      there are its bindings beyond floor. */
  ghost predicate Stands(s: State, t: Point, low: seq<Val>, floor: nat) {
    low <= s.stack && Fills(t.shape, s.stack[|low|..]) && |s.env| >= floor + t.locals
  }

  ghost predicate SafeState(s: State) { SafeVs(s.stack) && SafeEnv(s.env) }

  /** A step that checked code may take. */
  ghost predicate StepsOn(e: Edges, r: StepRes, low: seq<Val>, floor: nat) {
    match r
    case Next(ip, s) =>
      SafeState(s) && (|| (e.One? && ip == e.ip && Stands(s, e.pt, low, floor))
                       || (e.Two? && ip == e.ip && Stands(s, e.pt, low, floor))
                       || (e.Two? && ip == e.ip2 && Stands(s, e.pt2, low, floor)))
    case Halt(s) => SafeState(s) && low <= s.stack && |s.env| >= floor
    case Abort(f) => f != Stuck
    case Invoke(fv, args, s) =>
      && fv.FnV? && SafeV(fv) && SafeVs(args) && |fv.decl.params| == |args| && SafeState(s)
      && e.One? && e.pt.shape != [] && e.pt.shape[|e.pt.shape| - 1] == Any
      && Stands(s, e.pt.(shape := e.pt.shape[..|e.pt.shape| - 1]), low, floor)
  }

  lemma StandsDrop(s: State, t: Point, n: nat, low: seq<Val>, floor: nat)
    requires Stands(s, t, low, floor) && HasValues(t.shape, n)
    ensures |low| + n <= |s.stack| && Stands(Drop(s, n), Swap(t, n, []), low, floor)
  {
    hide Fills;
    FillsTop(t.shape, s.stack[|low|..], n);
    assert s.stack[..|s.stack| - n][|low|..] == s.stack[|low|..][..|s.stack| - |low| - n];
    assert t.shape[..|t.shape| - n] + [] == t.shape[..|t.shape| - n];
  }

  lemma StandsPush(s: State, t: Point, v: Val, low: seq<Val>, floor: nat)
    requires Stands(s, t, low, floor)
    ensures Stands(s.(stack := s.stack + [v]), Swap(t, 0, [Any]), low, floor)
    ensures v.StrV? ==> Stands(s.(stack := s.stack + [v]), Swap(t, 0, [Text]), low, floor)
  {
    hide Fills;
    FillsPush(t.shape, s.stack[|low|..], v);
    PushAbove(s.stack, low, v);
    NoneSwapped(t.shape, Any);
    NoneSwapped(t.shape, Text);
  }

  lemma NoneSwapped(s: Shape, x: Slot)
    ensures s[..|s| - 0] + [x] == s + [x]
  {
  }

  lemma PushAbove(vs: seq<Val>, low: seq<Val>, v: Val)
    requires low <= vs
    ensures low <= vs + [v] && (vs + [v])[|low|..] == vs[|low|..] + [v]
  {
  }

  lemma SafeDrop(s: State, n: nat)
    requires SafeState(s) && n <= |s.stack|
    ensures SafeState(Drop(s, n)) && SafeVs(TopN(s, n))
    ensures forall j :: 0 <= j < n ==> SafeV(Top(s, j))
  {
    hide SafeV;
  }

  lemma SafePush(s: State, v: Val)
    requires SafeState(s) && SafeV(v)
    ensures SafeState(s.(stack := s.stack + [v]))
  {
    hide SafeV;
  }

  /** n values give way to a result, or an error is raised. */
  lemma TakesSteps(s: State, t: Point, n: nat, next: nat, r: Res<Val>, low: seq<Val>, floor: nat)
    requires Stands(s, t, low, floor) && SafeState(s) && HasValues(t.shape, n) && (r.Ok? ==> SafeV(r.value))
    ensures |low| + n <= |s.stack| && StepsOn(Takes(t, n, next), PushRes(Drop(s, n), next, r), low, floor)
  {
    hide Fills, SafeV;
    StandsDrop(s, t, n, low, floor);
    SafeDrop(s, n);
    if r.Ok? {
      StandsPush(Drop(s, n), Swap(t, n, []), r.value, low, floor);
      SafePush(Drop(s, n), r.value);
      assert t.shape[..|t.shape| - n] + [] == t.shape[..|t.shape| - n];
      assert Swap(Swap(t, n, []), 0, [Any]) == Swap(t, n, [Any]);
    }
  }

  // ----- results hold no other functions than their operands -----

  lemma SafeBinary(w: World, op: BinOp, a: Val, b: Val)
    requires op != And && op != Or
    ensures VmBinary(w, op, a, b).Ok? ==> SafeV(VmBinary(w, op, a, b).value)
  {
    ScalarBinary(w, op, a, b);
  }

  predicate IsScalar(v: Val) { v.IntV? || v.FloatV? || v.StrV? || v.BoolV? }

  lemma ScalarBinary(w: World, op: BinOp, a: Val, b: Val)
    requires op != And && op != Or
    ensures VmBinary(w, op, a, b).Ok? ==> IsScalar(VmBinary(w, op, a, b).value)
  {
    hide VmArith, VmDivide, VmCompare;
    if op == Add || op == Sub || op == Mul {
      ScalarArith(w, op, a, b);
    } else if op == Div || op == Mod {
      ScalarDivide(w, op, a, b);
    } else {
      ScalarCompare(w, op, a, b);
    }
  }

  lemma ScalarArith(w: World, op: BinOp, a: Val, b: Val)
    requires op == Add || op == Sub || op == Mul
    ensures VmArith(w, op, a, b).Ok? ==> IsScalar(VmArith(w, op, a, b).value)
  {
    hide StrContent;
  }

  lemma ScalarDivide(w: World, op: BinOp, a: Val, b: Val)
    requires op == Div || op == Mod
    ensures VmDivide(w, op, a, b).Ok? ==> IsScalar(VmDivide(w, op, a, b).value)
  {
    hide TruncDiv, TruncMod;
  }

  lemma ScalarCompare(w: World, op: BinOp, a: Val, b: Val)
    requires op == BinOp.Eq || op == BinOp.Neq || op == BinOp.Lt || op == BinOp.Gt || op == BinOp.Le || op == BinOp.Ge
    ensures VmCompare(w, op, a, b).Ok? ==> IsScalar(VmCompare(w, op, a, b).value)
  {
    hide StrCmp, StrContent, CompareInt;
  }

  lemma SafeUnary(w: World, op: UnOp, a: Val)
    ensures VmUnary(w, op, a).Ok? ==> SafeV(VmUnary(w, op, a).value)
  {
  }

  lemma SafeIndex(a: Val, i: Val)
    requires SafeV(a)
    ensures VmIndex(a, i).Ok? ==> SafeV(VmIndex(a, i).value)
  {
  }

  lemma SafeField(a: Val, name: string)
    requires a.StructV? && SafeV(a) && FindPair(a.fields, name).Some?
    ensures SafeV(FindPair(a.fields, name).value)
  {
  }

  lemma SafeArray(vs: seq<Val>)
    requires SafeVs(vs)
    ensures SafeV(ArrV(vs))
  {
  }

  lemma {:induction false} SafeUnzip(vs: seq<Val>, strip: bool, name: string)
    requires SafeVs(vs) && |vs| % 2 == 0 && Unzip(vs, strip).Some?
    ensures SafeV(MapV(Unzip(vs, strip).value)) && SafeV(StructV(name, Unzip(vs, strip).value))
    decreases |vs|
  {
    if vs != [] { SafeUnzip(vs[2..], strip, name); }
  }

  lemma SafeBound(env: Env, name: string)
    requires SafeEnv(env) && Lookup(env, name).Some?
    ensures SafeV(Lookup(env, name).value)
  {
    hide SafeV;
  }

  lemma SafeStore(env: Env, name: string, v: Val, immut: bool)
    requires SafeEnv(env) && SafeV(v)
    ensures DefineVar(env, name, v, immut).Ok? ==> SafeEnv(DefineVar(env, name, v, immut).value)
    ensures AssignVar(env, name, v).Ok? ==> SafeEnv(AssignVar(env, name, v).value)
  {
    hide SafeV;
  }

  lemma SafeIter(arr: Val, i: int)
    requires SafeV(arr) && arr.ArrV? && 0 <= i < |arr.elems|
    ensures SafeV(arr.elems[i])
  {
  }

  // ----- one step -----

  ghost predicate SafeConsts(p: Prog) { SafeVs(p.consts) }

  lemma PushSteps(s: State, t: Point, next: nat, v: Val, low: seq<Val>, floor: nat)
    requires Stands(s, t, low, floor) && SafeState(s) && SafeV(v)
    ensures StepsOn(One(next, Swap(t, 0, [Any])), Push(s, next, v), low, floor)
    ensures v.StrV? ==> StepsOn(One(next, Swap(t, 0, [Text])), Push(s, next, v), low, floor)
  {
    hide Fills, SafeV;
    StandsPush(s, t, v, low, floor);
    SafePush(s, v);
  }

  /** Instructions on the topmost values. */
  lemma OperatorSteps(w: World, p: Prog, i: Instr, next: nat, s: State, t: Point, low: seq<Val>, floor: nat)
    requires i.BinaryOp? || i.UnaryOp? || i.IndexOp? || i.MakeResult?
    requires Fits(i) && Stands(s, t, low, floor) && SafeState(s) && !Flow(p, i, next, t).Ill?
    ensures StepsOn(Flow(p, i, next, t), Step(w, p, i, next, s), low, floor)
  {
    hide Fills, SafeV, VmBinary, VmUnary, VmIndex, HasEntries, StepsOn;
    var n := if i.BinaryOp? || i.IndexOp? then 2 else 1;
    StandsDrop(s, t, n, low, floor);
    SafeDrop(s, n);
    match i
    case BinaryOp(op) =>
      SafeBinary(w, op, Top(s, 1), Top(s, 0));
      TakesSteps(s, t, 2, next, VmBinary(w, op, Top(s, 1), Top(s, 0)), low, floor);
    case UnaryOp(op) =>
      SafeUnary(w, op, Top(s, 0));
      TakesSteps(s, t, 1, next, VmUnary(w, op, Top(s, 0)), low, floor);
    case IndexOp =>
      SafeIndex(Top(s, 1), Top(s, 0));
      TakesSteps(s, t, 2, next, VmIndex(Top(s, 1), Top(s, 0)), low, floor);
    case MakeResult(ok) =>
      SafeResult(ok, Top(s, 0));
      TakesSteps(s, t, 1, next, Res.Ok(ResV(ok, Top(s, 0))), low, floor);
  }

  lemma TrySteps(w: World, p: Prog, i: Instr, next: nat, s: State, t: Point, low: seq<Val>, floor: nat)
    requires i.TryOp? && Fits(i) && Stands(s, t, low, floor) && SafeState(s) && !Flow(p, i, next, t).Ill?
    ensures StepsOn(Flow(p, i, next, t), Step(w, p, i, next, s), low, floor)
  {
    hide Fills, SafeV, HasEntries;
    StandsDrop(s, t, 1, low, floor);
    SafeDrop(s, 1);
    if Top(s, 0).ResV? && Top(s, 0).ok {
      SafeInner(Top(s, 0));
      TakesSteps(s, t, 1, next, Res.Ok(Top(s, 0).val), low, floor);
    }
  }

  lemma FieldSteps(w: World, p: Prog, i: Instr, next: nat, s: State, t: Point, low: seq<Val>, floor: nat)
    requires i.GetField? && Fits(i) && Stands(s, t, low, floor) && SafeState(s) && !Flow(p, i, next, t).Ill?
    ensures StepsOn(Flow(p, i, next, t), Step(w, p, i, next, s), low, floor)
  {
    hide Fills, SafeV, HasEntries;
    StandsDrop(s, t, 1, low, floor);
    SafeDrop(s, 1);
    var r := if Top(s, 0).StructV? then FindPair(Top(s, 0).fields, p.consts[i.idx].s) else None;
    if r.Some? {
      SafeField(Top(s, 0), p.consts[i.idx].s);
      TakesSteps(s, t, 1, next, Res.Ok(r.value), low, floor);
    }
  }

  lemma SafeResult(ok: bool, v: Val)
    requires SafeV(v)
    ensures SafeV(ResV(ok, v))
  {
  }

  lemma SafeInner(v: Val)
    requires v.ResV? && SafeV(v)
    ensures SafeV(v.val)
  {
  }

  lemma VarSteps(w: World, p: Prog, i: Instr, next: nat, s: State, t: Point, low: seq<Val>, floor: nat)
    requires i.Define? || i.GetVar? || i.SetVar? || i.Pop? || i.PopScope?
    requires Fits(i) && Stands(s, t, low, floor) && SafeState(s) && !Flow(p, i, next, t).Ill?
    ensures StepsOn(Flow(p, i, next, t), Step(w, p, i, next, s), low, floor)
  {
    hide Fills, SafeV, DefineVar, AssignVar, Lookup;
    if i.PopScope? {
      assert SafeEnv(s.env[..|s.env| - i.count]);
    } else if i.GetVar? {
      var name := p.consts[i.idx].s;
      if Lookup(s.env, name).Some? {
        SafeBound(s.env, name);
        PushSteps(s, t, next, Lookup(s.env, name).value, low, floor);
      }
    } else {
      StandsDrop(s, t, 1, low, floor);
      SafeDrop(s, 1);
      if !i.Pop? { SafeStore(s.env, p.consts[i.idx].s, Top(s, 0), i.Define? && i.immut); }
    }
  }

  lemma JumpSteps(w: World, p: Prog, i: Instr, next: nat, s: State, t: Point, low: seq<Val>, floor: nat)
    requires i.Jump? || i.JumpBack? || i.JumpIf? || i.Line? || i.ReturnOp? || i.ReturnNil?
    requires Fits(i) && Stands(s, t, low, floor) && SafeState(s) && !Flow(p, i, next, t).Ill?
    ensures StepsOn(Flow(p, i, next, t), Step(w, p, i, next, s), low, floor)
  {
    hide Fills, SafeV, Truthy;
    if i.JumpIf? {
      StandsDrop(s, t, 1, low, floor);
      SafeDrop(s, 1);
    } else if i.ReturnNil? {
      SafeNil();
      SafePush(s, NilV);
    }
  }

  lemma SafeNil()
    ensures SafeV(NilV) && forall b: bool :: SafeV(BoolV(b))
  {
  }

  lemma ConstSteps(w: World, p: Prog, i: Instr, next: nat, s: State, t: Point, low: seq<Val>, floor: nat)
    requires i.Const? || i.PushNil? || i.PushBool? || i.Closure?
    requires Fits(i) && Stands(s, t, low, floor) && SafeState(s) && SafeConsts(p) && !Flow(p, i, next, t).Ill?
    ensures StepsOn(Flow(p, i, next, t), Step(w, p, i, next, s), low, floor)
  {
    hide Fills, SafeV;
    SafeNil();
    match i
    case Const(k) => PushSteps(s, t, next, p.consts[k], low, floor);
    case PushNil => PushSteps(s, t, next, NilV, low, floor);
    case PushBool(b) => PushSteps(s, t, next, BoolV(b), low, floor);
    case Closure(k) =>
      SafeClosure(p.consts[k], s.env);
      PushSteps(s, t, next, FnV(p.consts[k].decl, s.env), low, floor);
  }

  lemma SafeClosure(v: Val, env: Env)
    requires v.FnV? && SafeV(v) && SafeEnv(env)
    ensures SafeV(FnV(v.decl, env))
  {
  }

  lemma CallSteps(w: World, p: Prog, i: Instr, next: nat, s: State, t: Point, low: seq<Val>, floor: nat)
    requires i.CallOp? || i.CallBuiltin?
    requires Fits(i) && Stands(s, t, low, floor) && SafeState(s) && SafeWorld(w) && !Flow(p, i, next, t).Ill?
    ensures StepsOn(Flow(p, i, next, t), Step(w, p, i, next, s), low, floor)
  {
    hide Fills, SafeV;
    var n := if i.CallOp? then i.argc + 1 else i.argc;
    StandsDrop(s, t, n, low, floor);
    SafeDrop(s, n);
    if i.CallBuiltin? {
      TakesSteps(s, t, n, next, w.builtin(i.id, TopN(s, n)), low, floor);
    } else {
      SafeDrop(s, i.argc);
      var callee := Top(s, i.argc);
      if callee.FnV? { FewParams(callee); }
      assert t.shape[..|t.shape| - n] + [] == t.shape[..|t.shape| - n];
      assert Swap(t, n, [Any]).shape[..|Swap(t, n, [Any]).shape| - 1] == Swap(t, n, []).shape;
    }
  }

  lemma FewParams(v: Val)
    requires v.FnV? && SafeV(v)
    ensures |v.decl.params| <= MAX_ARGS
  {
  }

  lemma BuildSteps(w: World, p: Prog, i: Instr, next: nat, s: State, t: Point, low: seq<Val>, floor: nat)
    requires i.MakeArray? || i.MakeMap? || i.MakeStruct?
    requires Fits(i) && Stands(s, t, low, floor) && SafeState(s) && !Flow(p, i, next, t).Ill?
    ensures StepsOn(Flow(p, i, next, t), Step(w, p, i, next, s), low, floor)
  {
    hide Fills, SafeV, Unzip;
    var n := if i.MakeArray? then i.count else 2 * i.count;
    StandsDrop(s, t, n, low, floor);
    SafeDrop(s, n);
    var top := TopN(s, n);
    if i.MakeArray? {
      SafeArray(top);
      TakesSteps(s, t, n, next, Res.Ok(ArrV(top)), low, floor);
    } else {
      var mid := s.stack[|low|..|s.stack| - n];
      assert s.stack[|low|..] == mid + top;
      EntriesUnzip(t.shape, mid, top, i.count, i.MakeMap?);
      var pairs := Unzip(top, i.MakeMap?).value;
      var name := if i.MakeStruct? then p.consts[i.idx].s else "";
      SafeUnzip(top, i.MakeMap?, name);
      TakesSteps(s, t, n, next, Res.Ok(if i.MakeMap? then MapV(pairs) else StructV(name, pairs)), low, floor);
    }
  }

  /** The three cells of an iterator on top. */
  lemma StandsIter(s: State, t: Point, low: seq<Val>, floor: nat)
    requires Stands(s, t, low, floor) && HasIter(t.shape)
    ensures |low| + 3 <= |s.stack| && IsIter(Top(s, 2), Top(s, 1), Top(s, 0))
    ensures Stands(Drop(s, 3), Swap(t, 1, []), low, floor)
  {
    var n := |s.stack| - |low|;
    var vs := s.stack[|low|..];
    assert vs[n - 1] == Top(s, 0) && vs[n - 2] == Top(s, 1) && vs[n - 3] == Top(s, 2);
    assert s.stack[..|s.stack| - 3][|low|..] == vs[..n - 3];
    assert t.shape[..|t.shape| - 1] + [] == t.shape[..|t.shape| - 1];
  }

  /** The length and the index on top of an array. */
  lemma EntersIter(s: State, t: Point, low: seq<Val>, floor: nat)
    requires Stands(s, t, low, floor) && HasValues(t.shape, 1) && s.stack != [] && Top(s, 0).ArrV?
    ensures Stands(s.(stack := s.stack + [IntV(|Top(s, 0).elems|), IntV(0)]), Swap(t, 1, [Iter]), low, floor)
  {
    hide Fills;
    StandsDrop(s, t, 1, low, floor);
    var arr, rest := Top(s, 0), s.stack[|low|..|s.stack| - 1];
    DropAbove(s.stack, low, IntV(|arr.elems|), IntV(0));
    FillsIter(Swap(t, 1, []).shape, rest, arr, IntV(|arr.elems|), IntV(0));
    assert t.shape[..|t.shape| - 1] + [] == t.shape[..|t.shape| - 1];
  }

  /** Two values pushed on top of the caller's part of a stack and at least one more. */
  lemma DropAbove(vs: seq<Val>, low: seq<Val>, a: Val, b: Val)
    requires |low| < |vs| && low <= vs
    ensures var n := |vs| - 1; var rest := vs[|low|..n]; var more := vs + [a, b];
      vs[..n][|low|..] == rest && more[|low|..] == rest + [vs[n], a, b] && low <= more
  {
  }

  lemma SetLast(vs: seq<Val>, low: nat, v: Val)
    requires low + 3 <= |vs|
    ensures var n := |vs|; vs[n - 1 := v][low..] == vs[low..n - 3] + [vs[n - 3], vs[n - 2], v]
  {
  }

  lemma PrefixKept(vs: seq<Val>, low: seq<Val>, v: Val)
    requires low <= vs && |low| < |vs|
    ensures low <= vs[|vs| - 1 := v]
  {
  }

  /** The iterator cells under another index. */
  lemma FillsTurn(shape: Shape, rest: seq<Val>, arr: Val, len: Val, idx: Val)
    requires HasIter(shape) && Fills(shape[..|shape| - 1], rest) && IsIter(arr, len, idx)
    ensures Fills(shape, rest + [arr, len, idx])
  {
    hide Fills;
    FillsIter(shape[..|shape| - 1], rest, arr, len, idx);
    assert shape[..|shape| - 1] + [Iter] == shape;
  }

  /** The index moved on in place. */
  lemma TurnsIter(s: State, t: Point, low: seq<Val>, floor: nat, i: int)
    requires Stands(s, t, low, floor) && HasIter(t.shape) && i >= 0
    ensures |low| + 3 <= |s.stack| && Stands(s.(stack := s.stack[|s.stack| - 1 := IntV(i)]), t, low, floor)
  {
    hide Fills;
    StandsIter(s, t, low, floor);
    var n := |s.stack|;
    RestFills(s, t, low, floor);
    FillsTurn(t.shape, s.stack[|low|..n - 3], s.stack[n - 3], s.stack[n - 2], IntV(i));
    SetLast(s.stack, |low|, IntV(i));
    PrefixKept(s.stack, low, IntV(i));
  }

  lemma RestFills(s: State, t: Point, low: seq<Val>, floor: nat)
    requires HasIter(t.shape) && |low| + 3 <= |s.stack| && Stands(Drop(s, 3), Swap(t, 1, []), low, floor)
    ensures Fills(t.shape[..|t.shape| - 1], s.stack[|low|..|s.stack| - 3])
  {
    hide Fills;
    assert s.stack[..|s.stack| - 3][|low|..] == s.stack[|low|..|s.stack| - 3];
    assert t.shape[..|t.shape| - 1] + [] == t.shape[..|t.shape| - 1];
  }

  lemma IterSteps(w: World, p: Prog, i: Instr, next: nat, s: State, t: Point, low: seq<Val>, floor: nat)
    requires i.IterSetup? || i.IterCleanup?
    requires Fits(i) && Stands(s, t, low, floor) && SafeState(s) && !Flow(p, i, next, t).Ill?
    ensures StepsOn(Flow(p, i, next, t), Step(w, p, i, next, s), low, floor)
  {
    hide Fills, SafeV, Stands, HasValues;
    if i.IterCleanup? {
      StandsIter(s, t, low, floor);
      SafeDrop(s, 3);
    } else {
      StandsDrop(s, t, 1, low, floor);
      if Top(s, 0).ArrV? {
        EntersIter(s, t, low, floor);
        SafeInts(s.stack, |Top(s, 0).elems|);
      }
    }
  }

  lemma SafeInts(vs: seq<Val>, n: int)
    requires SafeVs(vs)
    ensures SafeVs(vs + [IntV(n), IntV(0)])
  {
  }

  lemma NextSteps(w: World, p: Prog, i: Instr, next: nat, s: State, t: Point, low: seq<Val>, floor: nat)
    requires i.IterNext? && Fits(i) && Stands(s, t, low, floor) && SafeState(s) && !Flow(p, i, next, t).Ill?
    ensures StepsOn(Flow(p, i, next, t), Step(w, p, i, next, s), low, floor)
  {
    hide Fills, SafeV, Stands, SafeVs, SafeEnv;
    StandsIter(s, t, low, floor);
    SafeDrop(s, 3);
    var arr, idx := Top(s, 2), Top(s, 0);
    if idx.i < Top(s, 1).i {
      SafeIter(arr, idx.i);
      TurnsIter(s, t, low, floor, idx.i + 1);
      SafeCount(s.stack, idx.i + 1);
      PushSteps(s.(stack := s.stack[|s.stack| - 1 := IntV(idx.i + 1)]), t, next, arr.elems[idx.i], low, floor);
    }
  }

  lemma SafeCount(vs: seq<Val>, n: int)
    requires SafeVs(vs) && vs != []
    ensures SafeVs(vs[|vs| - 1 := IntV(n)])
  {
  }

  /** No instruction of checked code gets stuck, and where it leads the next point
      holds. */
  lemma StepChecked(w: World, p: Prog, i: Instr, next: nat, s: State, t: Point, low: seq<Val>, floor: nat)
    requires Fits(i) && Stands(s, t, low, floor) && SafeState(s) && SafeWorld(w) && SafeConsts(p)
    requires !Flow(p, i, next, t).Ill?
    ensures StepsOn(Flow(p, i, next, t), Step(w, p, i, next, s), low, floor)
  {
    hide Flow, Step, StepsOn, Stands, SafeState, SafeConsts, SafeWorld;
    match i {
      case Const(_) => ConstSteps(w, p, i, next, s, t, low, floor);
      case PushNil => ConstSteps(w, p, i, next, s, t, low, floor);
      case PushBool(_) => ConstSteps(w, p, i, next, s, t, low, floor);
      case Closure(_) => ConstSteps(w, p, i, next, s, t, low, floor);
      case Define(_, _) => VarSteps(w, p, i, next, s, t, low, floor);
      case GetVar(_) => VarSteps(w, p, i, next, s, t, low, floor);
      case SetVar(_) => VarSteps(w, p, i, next, s, t, low, floor);
      case Pop => VarSteps(w, p, i, next, s, t, low, floor);
      case PopScope(_) => VarSteps(w, p, i, next, s, t, low, floor);
      case Jump(_) => JumpSteps(w, p, i, next, s, t, low, floor);
      case JumpBack(_) => JumpSteps(w, p, i, next, s, t, low, floor);
      case JumpIf(_, _) => JumpSteps(w, p, i, next, s, t, low, floor);
      case Line(_) => JumpSteps(w, p, i, next, s, t, low, floor);
      case ReturnOp => JumpSteps(w, p, i, next, s, t, low, floor);
      case ReturnNil => JumpSteps(w, p, i, next, s, t, low, floor);
      case CallOp(_) => CallSteps(w, p, i, next, s, t, low, floor);
      case CallBuiltin(_, _) => CallSteps(w, p, i, next, s, t, low, floor);
      case MakeArray(_) => BuildSteps(w, p, i, next, s, t, low, floor);
      case MakeMap(_) => BuildSteps(w, p, i, next, s, t, low, floor);
      case MakeStruct(_, _) => BuildSteps(w, p, i, next, s, t, low, floor);
      case IterSetup => IterSteps(w, p, i, next, s, t, low, floor);
      case IterCleanup => IterSteps(w, p, i, next, s, t, low, floor);
      case IterNext(_) => NextSteps(w, p, i, next, s, t, low, floor);
      case TryOp => TrySteps(w, p, i, next, s, t, low, floor);
      case GetField(_) => FieldSteps(w, p, i, next, s, t, low, floor);
      case _ => OperatorSteps(w, p, i, next, s, t, low, floor);
    }
  }

  // ----- runs -----

  /** What a run of checked code comes to. */
  ghost predicate RunsClean(r: RunRes, low: seq<Val>, floor: nat) {
    && r != Faulted(Stuck)
    && (r.Halted? ==> SafeState(r.st) && low <= r.st.stack && |r.st.env| >= floor)
  }

  /** The chunks of all orderly functions pass the check. */
  ghost predicate FunctionsCheck() {
    forall fn: FnDecl {:trigger FnProg(fn)} :: OrderlyFn(fn) ==> ChunkChecks(FnProg(fn)) && SafeConsts(FnProg(fn))
  }

  lemma SafeEnter(fv: Val, args: seq<Val>, s: State)
    requires fv.FnV? && |fv.decl.params| == |args| && SafeV(fv) && SafeVs(args) && SafeState(s)
    ensures SafeState(EnterCall(fv, args, s)) && EnterCall(fv, args, s).stack == s.stack
    ensures fv.captured == [] ==> |EnterCall(fv, args, s).env| >= |s.env|
    ensures OrderlyFn(fv.decl)
  {
    hide BindParams;
    var env := if fv.captured == [] then s.env else fv.captured;
    assert SafeEnv(env);
    SafeParams(env, fv.decl.params, args);
  }

  lemma {:induction false} SafeParams(env: Env, params: seq<string>, args: seq<Val>)
    requires |params| == |args| && SafeEnv(env) && SafeVs(args)
    ensures SafeEnv(BindParams(env, params, args))
    decreases |params|
  {
    hide SafeV;
    if params != [] {
      var d := DefineVar(env, params[0], args[0], true);
      SafeStore(env, params[0], args[0], true);
      SafeParams(if d.Ok? then d.value else env, params[1..], args[1..]);
    }
  }

  /** Leaving a call puts the caller back, one value further. */
  lemma SafeLeave(fv: Val, args: seq<Val>, s: State, r: State, t: Point, low: seq<Val>, floor: nat)
    requires fv.FnV? && |fv.decl.params| == |args| && SafeState(s) && SafeState(r) && Stands(s, t, low, floor)
    requires s.stack <= r.stack && (fv.captured == [] ==> |r.env| >= |s.env|)
    requires r.frames == EnterCall(fv, args, s).frames
    ensures LeaveCall(fv, s, r).Some?
    ensures SafeV(LeaveCall(fv, s, r).value.0) && SafeState(LeaveCall(fv, s, r).value.1)
    ensures Stands(LeaveCall(fv, s, r).value.1, t, low, floor)
  {
    hide SafeV, Fills, EnterCall, LeaveCall;
    BackInCaller(fv, args, s, r);
    SafeNilAlone();
    assert r.stack[..|s.stack|] == s.stack;
    if |r.stack| > |s.stack| { assert Top(r, 0) in r.stack; }
    if fv.captured == [] { assert SafeEnv(r.env[..|s.env|]); }
  }

  lemma SafeNilAlone()
    ensures SafeV(NilV)
  {
  }

  lemma BoundaryParts(p: Prog, m: Points, ip: nat)
    requires Checks(p, 0, |p.code|, m, map[]) && ip in m && ip < |p.code|
    ensures Decode(p.code, ip).Some?
    ensures var i := Decode(p.code, ip).value; LandAll(Flow(p, i, ip + Size(i), m[ip]), m, map[])
  {
    hide Flow, LandAll, Decode, Follows;
    assert InstrChecks(p, ip, m, map[]);
  }

  /** The edge taken leads to a boundary whose point holds. */
  lemma OnBoundary(p: Prog, m: Points, ip: nat, w: World, s: State, low: seq<Val>, floor: nat)
    requires Checks(p, 0, |p.code|, m, map[]) && ip in m && ip < |p.code|
    requires Stands(s, m[ip], low, floor) && SafeState(s) && SafeWorld(w) && SafeConsts(p)
    ensures Decode(p.code, ip).Some?
    ensures var i := Decode(p.code, ip).value; var next := ip + Size(i); var e := Flow(p, i, next, m[ip]);
      StepsOn(e, Step(w, p, i, next, s), low, floor) && LandAll(e, m, map[])
  {
    hide Flow, Step, StepsOn, Stands, SafeState, SafeWorld, SafeConsts, Decode, LandAll, Checks, Size;
    BoundaryParts(p, m, ip);
    var i := Decode(p.code, ip).value;
    NotIll(Flow(p, i, ip + Size(i), m[ip]), m);
    StepChecked(w, p, i, ip + Size(i), s, m[ip], low, floor);
  }

  lemma NotIll(e: Edges, m: Points)
    requires LandAll(e, m, map[])
    ensures !e.Ill?
  {
  }

  lemma StandsBelow(s: State, u: Point, t: Point, low: seq<Val>, floor: nat)
    requires Stands(s, u, low, floor) && Below(u, t)
    ensures Stands(s, t, low, floor)
  {
    hide Fills;
    FillsBelow(u.shape, t.shape, s.stack[|low|..]);
  }

  lemma NextOnBoundary(e: Edges, m: Points, ip: nat, s: State, low: seq<Val>, floor: nat)
    requires StepsOn(e, Next(ip, s), low, floor) && LandAll(e, m, map[])
    ensures ip in m && Stands(s, m[ip], low, floor) && SafeState(s)
  {
    hide Fills, SafeState, Below, Stands;
    if e.One? || (ip == e.ip && Stands(s, e.pt, low, floor)) {
      StandsBelow(s, e.pt, m[ip], low, floor);
    } else {
      StandsBelow(s, e.pt2, m[ip], low, floor);
    }
  }

  /** A run of checked code from a boundary whose point holds never gets stuck;
      when it halts, the caller's part of the stack is as it was and the bindings
      down to floor are there. */
  lemma {:induction false} CheckedRun(w: World, fuel: nat, p: Prog, m: Points, ip: nat, s: State, low: seq<Val>,
      floor: nat)
    requires Checks(p, 0, |p.code|, m, map[]) && ip in m && Stands(s, m[ip], low, floor) && SafeState(s)
    requires SafeWorld(w) && SafeConsts(p) && FunctionsCheck()
    ensures RunsClean(Run(w, fuel, p, ip, s), low, floor)
    decreases fuel, 0
  {
    hide Flow, Step, StepsOn, Stands, SafeState, SafeWorld, SafeConsts, Decode, LandAll, Checks, FunctionsCheck,
      RunsClean, FnProg, EnterCall, LeaveCall, RunCall, Size, Below, SafeVs, SafeV;
    if fuel == 0 {
      CleanFuel(low, floor);
    } else if ip >= |p.code| {
      CleanHalt(s, m[ip], low, floor);
    } else {
      OnBoundary(p, m, ip, w, s, low, floor);
      var i := Decode(p.code, ip).value;
      var next := ip + Size(i);
      var e := Flow(p, i, next, m[ip]);
      match Step(w, p, i, next, s)
      case Next(ip1, s1) =>
        NextOnBoundary(e, m, ip1, s1, low, floor);
        CheckedRun(w, fuel - 1, p, m, ip1, s1, low, floor);
      case Halt(s1) => CleanEnd(e, Halt(s1), low, floor);
      case Abort(f) => CleanEnd(e, Abort(f), low, floor);
      case Invoke(fv, args, s1) =>
        InvokeParts(w, p, i, next, s, m[ip], fv, args, s1, low, floor);
        CallLands(e, m);
        CheckedCall(w, fuel - 1, p, m, next, fv, args, s1, e.pt, low, floor);
    }
  }

  lemma CleanFuel(low: seq<Val>, floor: nat)
    ensures RunsClean(OutOfFuel, low, floor) && RunsClean(Faulted(StackOverflow), low, floor)
  {
  }

  lemma CleanHalt(s: State, t: Point, low: seq<Val>, floor: nat)
    requires Stands(s, t, low, floor) && SafeState(s)
    ensures RunsClean(Halted(s), low, floor)
  {
    hide SafeState, Fills;
  }

  lemma CleanEnd(e: Edges, r: StepRes, low: seq<Val>, floor: nat)
    requires StepsOn(e, r, low, floor)
    ensures r.Halt? ==> RunsClean(Halted(r.st), low, floor)
    ensures r.Abort? ==> RunsClean(Faulted(r.fault), low, floor)
  {
    hide SafeState, Fills;
  }

  /** What a call leaves behind stands where a value is still to be pushed, and the
      run goes on behind the instruction. */
  lemma InvokeParts(w: World, p: Prog, i: Instr, next: nat, s: State, t: Point, fv: Val, args: seq<Val>, s1: State,
      low: seq<Val>, floor: nat)
    requires Fits(i) && StepsOn(Flow(p, i, next, t), Step(w, p, i, next, s), low, floor)
    requires Step(w, p, i, next, s) == Invoke(fv, args, s1)
    ensures var e := Flow(p, i, next, t);
      && e.One? && e.ip == next && fv.FnV? && SafeV(fv) && SafeVs(args) && |fv.decl.params| == |args| && SafeState(s1)
      && e.pt.shape != [] && e.pt.shape[|e.pt.shape| - 1] == Any
      && Stands(s1, e.pt.(shape := e.pt.shape[..|e.pt.shape| - 1]), low, floor)
  {
    hide Fills, SafeV, Step, HasEntries;
    InvokeDepth(w, p, i, next, s);
  }

  lemma EmptyStands(s: State, low: seq<Val>, floor: nat)
    requires s.stack == low && |s.env| >= floor
    ensures Stands(s, Point([], 0), low, floor)
  {
  }

  lemma CallLands(e: Edges, m: Points)
    requires e.One? && LandAll(e, m, map[])
    ensures e.ip in m && Below(e.pt, m[e.ip])
  {
    hide Below;
  }

  lemma CheckedFunction(fn: FnDecl) returns (m: Points)
    requires FunctionsCheck() && OrderlyFn(fn)
    ensures SafeConsts(FnProg(fn)) && Checks(FnProg(fn), 0, |FnProg(fn).code|, m, map[]) && 0 in m
    ensures m[0] == Point([], 0)
  {
    hide FnProg, OrderlyFn, SafeConsts, InstrChecks;
    assert ChunkChecks(FnProg(fn));
    m :| Checks(FnProg(fn), 0, |FnProg(fn).code|, m, map[]) && m[0] == Point([], 0);
  }

  /** Where a callee has ended well, its caller goes on behind the call. */
  lemma CallComesBack(fv: Val, args: seq<Val>, s1: State, r: State, pt: Point, u: Point, low: seq<Val>, floor: nat,
      floor1: nat)
    requires fv.FnV? && |fv.decl.params| == |args| && SafeState(s1) && pt.shape != [] && pt.shape[|pt.shape| - 1] == Any
    requires Stands(s1, pt.(shape := pt.shape[..|pt.shape| - 1]), low, floor) && Below(pt, u)
    requires RunsClean(Halted(r), s1.stack, floor1) && r.frames == EnterCall(fv, args, s1).frames
      && (fv.captured == [] ==> floor1 >= |s1.env|)
    ensures LeaveCall(fv, s1, r).Some?
    ensures var back := LeaveCall(fv, s1, r).value; var s2 := back.1.(stack := back.1.stack + [back.0]);
      SafeState(s2) && Stands(s2, u, low, floor)
  {
    hide Stands, SafeState, SafeV, EnterCall, LeaveCall, Below;
    var t := pt.(shape := pt.shape[..|pt.shape| - 1]);
    SafeLeave(fv, args, s1, r, t, low, floor);
    var back := LeaveCall(fv, s1, r).value;
    StandsPush(back.1, t, back.0, low, floor);
    SafePush(back.1, back.0);
    assert Swap(t, 0, [Any]) == pt;
    StandsBelow(back.1.(stack := back.1.stack + [back.0]), pt, u, low, floor);
  }

  function CallFloor(fv: Val, s: State): nat
    requires fv.FnV?
  {
    if fv.captured == [] then |s.env| else 0
  }

  /** The callee's own run. */
  lemma {:induction false} CalleeRun(w: World, fuel: nat, fv: Val, args: seq<Val>, s1: State)
    requires fv.FnV? && SafeV(fv) && SafeVs(args) && |fv.decl.params| == |args| && SafeState(s1)
    requires SafeWorld(w) && FunctionsCheck()
    ensures RunsClean(Run(w, fuel, FnProg(fv.decl), 0, EnterCall(fv, args, s1)), s1.stack, CallFloor(fv, s1))
    decreases fuel, 1
  {
    hide Run, Stands, SafeState, SafeV, SafeVs, SafeWorld, SafeConsts, FunctionsCheck, RunsClean, FnProg, EnterCall,
      Checks, OrderlyFn;
    SafeEnter(fv, args, s1);
    var m1 := CheckedFunction(fv.decl);
    EmptyStands(EnterCall(fv, args, s1), s1.stack, CallFloor(fv, s1));
    CheckedRun(w, fuel, FnProg(fv.decl), m1, 0, EnterCall(fv, args, s1), s1.stack, CallFloor(fv, s1));
  }

  /** A call from a checked chunk, and the rest of the caller's run. */
  lemma {:induction false} CheckedCall(w: World, fuel: nat, p: Prog, m: Points, next: nat, fv: Val, args: seq<Val>,
      s1: State, pt: Point, low: seq<Val>, floor: nat)
    requires Checks(p, 0, |p.code|, m, map[]) && next in m && Below(pt, m[next])
    requires fv.FnV? && SafeV(fv) && SafeVs(args) && |fv.decl.params| == |args| && SafeState(s1)
    requires pt.shape != [] && pt.shape[|pt.shape| - 1] == Any
    requires Stands(s1, pt.(shape := pt.shape[..|pt.shape| - 1]), low, floor)
    requires SafeWorld(w) && SafeConsts(p) && FunctionsCheck()
    ensures RunsClean(RunCall(w, fuel, p, next, fv, args, s1), low, floor)
    decreases fuel, 2
  {
    hide Run, Stands, SafeState, SafeV, SafeVs, SafeWorld, SafeConsts, FunctionsCheck, RunsClean, FnProg, EnterCall,
      LeaveCall, Checks, Below, OrderlyFn;
    var q, s2 := FnProg(fv.decl), EnterCall(fv, args, s1);
    CalleeRun(w, fuel, fv, args, s1);
    FramesKept(w, fuel, q, 0, s2);
    var r := Run(w, fuel, q, 0, s2);
    CleanFuel(low, floor);
    if r.Halted? {
      CallComesBack(fv, args, s1, r.st, pt, m[next], low, floor, CallFloor(fv, s1));
      var back := LeaveCall(fv, s1, r.st).value;
      if |back.1.stack| < STACK_MAX {
        CheckedRun(w, fuel, p, m, next, back.1.(stack := back.1.stack + [back.0]), low, floor);
      }
    } else {
      CleanOther(r, s1.stack, CallFloor(fv, s1), low, floor);
    }
  }

  lemma CleanOther(r: RunRes, low: seq<Val>, floor: nat, low1: seq<Val>, floor1: nat)
    requires RunsClean(r, low, floor) && !r.Halted?
    ensures RunsClean(r, low1, floor1)
  {
  }
}
