/** The reference semantics.  Operators, indexing and field access follow the
    tree-walking evaluator (src/interpreter.c); statements are a block-scoped
    big-step semantics indexed by fuel, which only loop iterations and calls
    consume. */
module Semantics {
  import opened Ast
  import opened Values

  // ----- operators, dispatching on the operand kinds first -----

  function TreeInt(op: BinOp, l: int, r: int): Res<Val> {
    match op
    case Add => Ok(IntV(l + r))
    case Sub => Ok(IntV(l - r))
    case Mul => Ok(IntV(l * r))
    case Div => if r == 0 then Fail(DivByZero) else Ok(IntV(TruncDiv(l, r)))
    case Mod => if r == 0 then Fail(DivByZero) else Ok(IntV(TruncMod(l, r)))
    case Eq => Ok(BoolV(l == r))
    case Neq => Ok(BoolV(l != r))
    case Lt => Ok(BoolV(l < r))
    case Gt => Ok(BoolV(l > r))
    case Le => Ok(BoolV(l <= r))
    case Ge => Ok(BoolV(l >= r))
    case _ => Fail(InvalidBinary)
  }

  function TreeFloat(w: World, op: BinOp, l: Float, r: Float): Res<Val> {
    match op
    case Add => Ok(FloatV(w.fAdd(l, r)))
    case Sub => Ok(FloatV(w.fSub(l, r)))
    case Mul => Ok(FloatV(w.fMul(l, r)))
    case Div => Ok(FloatV(w.fDiv(l, r)))
    case Eq => Ok(BoolV(w.fEq(l, r)))
    case Neq => Ok(BoolV(!w.fEq(l, r)))
    case Lt => Ok(BoolV(w.fLt(l, r)))
    case Gt => Ok(BoolV(w.fGt(l, r)))
    case Le => Ok(BoolV(w.fLe(l, r)))
    case Ge => Ok(BoolV(w.fGe(l, r)))
    case _ => Fail(InvalidBinary)
  }

  function TreeString(op: BinOp, l: string, r: string): Res<Val> {
    match op
    case Eq => Ok(BoolV(l == r))
    case Neq => Ok(BoolV(l != r))
    case Lt => Ok(BoolV(StrCmp(l, r) < 0))
    case Gt => Ok(BoolV(StrCmp(l, r) > 0))
    case Le => Ok(BoolV(StrCmp(l, r) <= 0))
    case Ge => Ok(BoolV(StrCmp(l, r) >= 0))
    case Add => Ok(StrV(l + r))
    case _ => Fail(InvalidBinary)
  }

  function TreeBool(op: BinOp, l: bool, r: bool): Res<Val> {
    match op
    case And => Ok(BoolV(l && r))
    case Or => Ok(BoolV(l || r))
    case Eq => Ok(BoolV(l == r))
    case Neq => Ok(BoolV(l != r))
    case _ => Fail(InvalidBinary)
  }

  function TreeBinary(w: World, op: BinOp, a: Val, b: Val): Res<Val> {
    match (a, b)
    case (IntV(l), IntV(r)) => TreeInt(op, l, r)
    case (FloatV(l), FloatV(r)) => TreeFloat(w, op, l, r)
    case (IntV(l), FloatV(r)) => TreeFloat(w, op, w.ofInt(l), r)
    case (FloatV(l), IntV(r)) => TreeFloat(w, op, l, w.ofInt(r))
    case (BoolV(l), BoolV(r)) => TreeBool(op, l, r)
    case (StrV(l), StrV(r)) => TreeString(op, StrContent(l), StrContent(r))
    case _ => Fail(InvalidBinary)
  }

  function TreeUnary(w: World, op: UnOp, a: Val): Res<Val> {
    if op == Neg && a.IntV? then Ok(IntV(-a.i))
    else if op == Neg && a.FloatV? then Ok(FloatV(w.fNeg(a.f)))
    else if op == Not && a.BoolV? then Ok(BoolV(!a.b))
    else Fail(InvalidUnary)
  }

  function TreeField(v: Val, field: string): Res<Val> {
    if !v.StructV? then Fail(NotStruct)
    else match FindPair(v.fields, field)
      case Some(x) => Ok(x)
      case None => Fail(NoField)
  }

  function TreeIndex(obj: Val, idx: Val): Res<Val> {
    if obj.MapV? then
      if !idx.StrV? then Fail(MapKeyNotString)
      else match FindPair(obj.pairs, StrContent(idx.s))
        case Some(x) => Ok(x)
        case None => Ok(NilV)
    else if !obj.ArrV? then Fail(NotIndexable)
    else if !idx.IntV? then Fail(IndexNotInt)
    else
      var i := Int32(idx.i);
      if i < 0 || i >= |obj.elems| then Fail(OutOfBounds) else Ok(obj.elems[i])
  }

  // ----- outcomes -----

  /** Timeout: the fuel ran out.  Escaped: a break or continue left its function,
      which the compiler refuses. */
  datatype Out =
    | Timeout
    | Escaped
    | Error(err: Err)
    | Value(v: Val, env: Env)
    | Values(vs: seq<Val>, env: Env)
    | Pairs(ps: seq<Pair>, env: Env)
    | Returned(v: Val, env: Env)
    | Normal(env: Env)
    | Broke(env: Env)
    | Continued(env: Env)

  function OfRes(r: Res<Val>, env: Env): Out {
    match r
    case Ok(v) => Value(v, env)
    case Fail(e) => Error(e)
  }

  function OfDefine(env: Env, x: string, v: Val, immut: bool): Out {
    match DefineVar(env, x, v, immut)
    case Ok(env') => Normal(env')
    case Fail(e) => Error(e)
  }

  /** Leaving a scope that was entered with n bindings. */
  function Leave(o: Out, n: nat): Out {
    match o
    case Normal(env) => Normal(Truncate(env, n))
    case Broke(env) => Broke(Truncate(env, n))
    case Continued(env) => Continued(Truncate(env, n))
    case _ => o
  }

  /** Outcomes that stop an expression early. */
  predicate Stops(o: Out) {
    o.Timeout? || o.Escaped? || o.Error? || o.Returned?
  }

  predicate IsStmtOut(o: Out) {
    Stops(o) || o.Normal? || o.Broke? || o.Continued?
  }

  // ----- expressions -----

  function Eval(w: World, f: nat, d: nat, e: Expr, env: Env): (r: Out)
    ensures r.Value? || Stops(r)
    decreases f, 1, e
  {
    match e
    case IntLit(n) => Value(IntV(n), env)
    case FloatLit(x) => Value(FloatV(x), env)
    case StrLit(s) => Value(StrV(s), env)
    case BoolLit(b) => Value(BoolV(b), env)
    case Ident(x) =>
      var v := Lookup(env, x);
      if v.None? then Error(UndefinedVar) else Value(v.value, env)
    case Unary(op, arg) =>
      var r := Eval(w, f, d, arg, env);
      if !r.Value? then r else OfRes(TreeUnary(w, op, r.v), r.env)
    case Binary(op, left, right) =>
      var a := Eval(w, f, d, left, env);
      if !a.Value? then a else
      var b := Eval(w, f, d, right, a.env);
      if !b.Value? then b else OfRes(TreeBinary(w, op, a.v, b.v), b.env)
    case Field(obj, field) =>
      var r := Eval(w, f, d, obj, env);
      if !r.Value? then r else OfRes(TreeField(r.v, field), r.env)
    case Call(callee, args) =>
      if callee.Ident? && BuiltinId(callee.name).Some? then
        var r := EvalList(w, f, d, args, env);
        if !r.Values? then r
        else OfRes(w.builtin(BuiltinId(callee.name).value, r.vs), r.env)
      else
        var fv := Eval(w, f, d, callee, env);
        if !fv.Value? then fv else
        var r := EvalList(w, f, d, args, fv.env);
        if !r.Values? then r else Apply(w, f, d, fv.v, r.vs, r.env)
    case ArrayLit(es) =>
      var r := EvalList(w, f, d, es, env);
      if !r.Values? then r else Value(ArrV(r.vs), r.env)
    case MapLit(ps) =>
      var r := EvalPairs(w, f, d, ps, env);
      if !r.Pairs? then r else Value(MapV(r.ps), r.env)
    case StructLit(t, ps) =>
      var r := EvalPairs(w, f, d, ps, env);
      if !r.Pairs? then r else Value(StructV(t, r.ps), r.env)
    case Index(arr, idx) =>
      var a := Eval(w, f, d, arr, env);
      if !a.Value? then a else
      var i := Eval(w, f, d, idx, a.env);
      if !i.Value? then i else OfRes(TreeIndex(a.v, i.v), i.env)
    case Lambda(fn) => Value(FnV(fn, env), env)
    case ResultLit(ok, inner) =>
      var r := Eval(w, f, d, inner, env);
      if !r.Value? then r else Value(ResV(ok, r.v), r.env)
    case Try(inner) =>
      var r := Eval(w, f, d, inner, env);
      if !r.Value? then r
      else if !r.v.ResV? then Error(NotResult)
      else if r.v.ok then Value(r.v.val, r.env)
      else Returned(r.v, r.env)
  }

  function EvalList(w: World, f: nat, d: nat, es: seq<Expr>, env: Env): (r: Out)
    ensures r.Values? || Stops(r)
    ensures r.Values? ==> |r.vs| == |es|
    decreases f, 1, es
  {
    if es == [] then Values([], env) else
    var h := Eval(w, f, d, es[0], env);
    if !h.Value? then h else
    var t := EvalList(w, f, d, es[1..], h.env);
    if !t.Values? then t else Values([h.v] + t.vs, t.env)
  }

  function EvalPairs(w: World, f: nat, d: nat, ps: seq<Entry>, env: Env): (r: Out)
    ensures r.Pairs? || Stops(r)
    ensures r.Pairs? ==> |r.ps| == |ps|
    decreases f, 1, ps
  {
    if ps == [] then Pairs([], env) else
    var h := Eval(w, f, d, ps[0].value, env);
    if !h.Value? then h else
    var t := EvalPairs(w, f, d, ps[1..], h.env);
    if !t.Pairs? then t else Pairs([Pair(ps[0].key, h.v)] + t.ps, t.env)
  }

  /** The bindings a call of fv starts from. */
  function CallBase(fv: Val, env: Env): Env
    requires fv.FnV?
  {
    if fv.captured == [] then env else fv.captured
  }

  /** The caller's bindings after a call that ended with bindings env1. */
  function AfterCall(fv: Val, env: Env, env1: Env): Env
    requires fv.FnV?
  {
    if fv.captured == [] then Truncate(env1, |env|) else env
  }

  /** Calling a function value.  A function that captured nothing sees, and may
      assign, the caller's bindings; a closure runs in its own copy. */
  function Apply(w: World, f: nat, d: nat, fv: Val, args: seq<Val>, env: Env): (r: Out)
    ensures r.Value? || (Stops(r) && !r.Returned?)
    decreases f, 0
  {
    if !fv.FnV? then Error(NotCallable)
    else if |fv.decl.params| != |args| then Error(BadArity)
    else if d >= MAX_CALL_DEPTH then Error(CallDepth)
    else if f == 0 then Timeout
    else
      var r := ExecBlock(w, f - 1, d + 1, fv.decl.body, BindParams(CallBase(fv, env), fv.decl.params, args));
      if r.Normal? then Value(NilV, AfterCall(fv, env, r.env))
      else if r.Returned? then Value(r.v, AfterCall(fv, env, r.env))
      else if r.Error? then Error(r.err)
      else if r.Timeout? then Timeout
      else Escaped
  }

  // ----- statements -----

  function Exec(w: World, f: nat, d: nat, s: Stmt, env: Env): (r: Out)
    ensures IsStmtOut(r)
    decreases f, 1, s
  {
    match s
    case ExprStmt(_, e) =>
      var r := Eval(w, f, d, e, env);
      if !r.Value? then r else Normal(r.env)
    case Decl(_, immut, x, None) => OfDefine(env, x, NilV, immut)
    case Decl(_, immut, x, Some(e)) =>
      var r := Eval(w, f, d, e, env);
      if !r.Value? then r else OfDefine(r.env, x, r.v, immut)
    case Assign(_, x, e) =>
      var r := Eval(w, f, d, e, env);
      if !r.Value? then r else
      var a := AssignVar(r.env, x, r.v);
      if a.Fail? then Error(a.err) else Normal(a.value)
    case Return(_, None) => Returned(NilV, env)
    case Return(_, Some(e)) =>
      var r := Eval(w, f, d, e, env);
      if !r.Value? then r else Returned(r.v, r.env)
    case If(chain) => ExecIf(w, f, d, chain, env)
    case While(_, _, _) => ExecWhile(w, f, d, s, env)
    case For(_, _, iter, _) =>
      var r := Eval(w, f, d, iter, env);
      if !r.Value? then r
      else if !r.v.ArrV? then Error(NotIterable)
      else ExecFor(w, f, d, s, r.v.elems, 0, r.env)
    case Break(_) => Broke(env)
    case Continue(_) => Continued(env)
    case FnStmt(_, decl) =>
      // a function of the main program captures nothing; a nested one is a closure
      OfDefine(env, decl.fname, FnV(decl, if d == 0 then [] else env), true)
    case StructDecl(_) => Normal(env)
  }

  function ExecList(w: World, f: nat, d: nat, ss: seq<Stmt>, env: Env): (r: Out)
    ensures IsStmtOut(r)
    decreases f, 1, ss
  {
    if ss == [] then Normal(env) else
    var h := Exec(w, f, d, ss[0], env);
    if !h.Normal? then h else ExecList(w, f, d, ss[1..], h.env)
  }

  function ExecBlock(w: World, f: nat, d: nat, b: Block, env: Env): (r: Out)
    ensures IsStmtOut(r)
    decreases f, 1, b
  {
    Leave(ExecList(w, f, d, b.stmts, env), |env|)
  }

  function ExecIf(w: World, f: nat, d: nat, c: IfChain, env: Env): (r: Out)
    ensures IsStmtOut(r)
    decreases f, 1, c
  {
    var r := Eval(w, f, d, c.cond, env);
    if !r.Value? then r
    else if Truthy(w, r.v) then ExecBlock(w, f, d, c.thn, r.env)
    else match c.els
      case NoElse => Normal(r.env)
      case ElseBlock(b) => ExecBlock(w, f, d, b, r.env)
      case ElseIf(c1) => ExecIf(w, f, d, c1, r.env)
  }

  function ExecWhile(w: World, f: nat, d: nat, s: Stmt, env: Env): (r: Out)
    requires s.While?
    ensures IsStmtOut(r) && !r.Broke? && !r.Continued?
    decreases f, 1, s, 0
  {
    if f == 0 then Timeout else
    var c := Eval(w, f, d, s.cond, env);
    if !c.Value? then c
    else if !Truthy(w, c.v) then Normal(c.env) else
    var r := ExecBlock(w, f, d, s.body, c.env);
    if r.Normal? || r.Continued? then ExecWhile(w, f - 1, d, s, r.env)
    else if r.Broke? then Normal(r.env)
    else r
  }

  /** The loop over elems[i..]; each element is a fresh mutable binding. */
  function ExecFor(w: World, f: nat, d: nat, s: Stmt, elems: seq<Val>, i: nat, env: Env): (r: Out)
    requires s.For? && i <= |elems|
    ensures IsStmtOut(r) && !r.Broke? && !r.Continued?
    decreases f, 1, s, |elems| - i
  {
    if i == |elems| then Normal(env) else
    var b := DefineVar(env, s.x, elems[i], false);
    if b.Fail? then Error(b.err) else
    var r := Leave(ExecBlock(w, f, d, s.body, b.value), |env|);
    if r.Normal? || r.Continued? then ExecFor(w, f, d, s, elems, i + 1, r.env)
    else if r.Broke? then Normal(r.env)
    else r
  }

  /** A whole program: its statements at top level, then an implicit `return nil`. */
  function ExecProgram(w: World, f: nat, ss: seq<Stmt>): (r: Out) {
    var r := ExecList(w, f, 0, ss, []);
    if r.Normal? then Returned(NilV, r.env) else r
  }
}
