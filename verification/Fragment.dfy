/** The programs the compiler theorems speak about, what evaluation preserves on
    them, and how much stack they need. */
module Fragment {
  import opened Ast
  import opened Values
  import opened Semantics
  import opened CodeGen

  // ----- the fragment -----

  /** map and filter call back into the machine, print writes output. */
  predicate PureBuiltin(id: nat) { id != 0 && id != 7 && id != 8 }

  /** No && or ||, no key that str_content would shorten, operands that fit
      their byte, arguments and fields that fit the 64 slots the machine copies
      them to, and function bodies in the fragment. */
  predicate CoreE(e: Expr)
    decreases e
  {
    match e
    case Unary(_, a) => CoreE(a)
    case Binary(op, l, r) => op != And && op != Or && CoreE(l) && CoreE(r)
    case Field(o, _) => CoreE(o)
    case Call(callee, args) =>
      |args| < 256 && CoreEs(args)
      && if IsBuiltinCall(e) then PureBuiltin(BuiltinId(callee.name).value) && |args| <= MAX_ARGS else CoreE(callee)
    case ArrayLit(es) => CoreEs(es)
    case MapLit(ps) => CorePs(ps) && forall i :: 0 <= i < |ps| ==> StrContent(ps[i].key) == ps[i].key
    case StructLit(_, ps) => |ps| <= MAX_STRUCT_FIELDS && CorePs(ps)
    case Index(a, i) => CoreE(a) && CoreE(i)
    case Lambda(fn) => CoreFn(fn)
    case ResultLit(_, a) => CoreE(a)
    case Try(a) => CoreE(a)
    case _ => true
  }

  predicate CoreEs(es: seq<Expr>)
    decreases es
  {
    es != [] ==> CoreE(es[0]) && CoreEs(es[1..])
  }

  predicate CorePs(ps: seq<Entry>)
    decreases ps
  {
    ps != [] ==> CoreE(ps[0].value) && CorePs(ps[1..])
  }

  predicate CoreOpt(e: Option<Expr>) {
    e.Some? ==> CoreE(e.value)
  }

  /** At most 64 parameters, and a body in the fragment whose chunk stays within
      16-bit offsets. */
  predicate CoreFn(fn: FnDecl)
    decreases fn
  {
    && CoreB(fn.body, Outside, 0) && |fn.params| <= MAX_ARGS
    && |FnCode(fn)| < 65536 && |FnConsts(fn)| < 65536
  }

  /** kind: the innermost loop; bvc: bindings of the innermost block so far;
      outer: bindings of the enclosing blocks of the loop body.  break and
      continue belong to a loop and sit where outer is 0: they only drop the
      innermost block's bindings. */
  predicate CoreS(s: Stmt, kind: Kind, bvc: nat, outer: nat)
    decreases s
  {
    match s
    case ExprStmt(_, e) => CoreE(e)
    case Decl(_, _, _, init) => CoreOpt(init)
    case Assign(_, _, e) => CoreE(e)
    case Return(_, e) => CoreOpt(e)
    case If(chain) => CoreIf(chain, kind, outer + bvc)
    case While(_, cond, body) => CoreE(cond) && CoreB(body, OfWhile, 0)
    case For(_, _, iter, body) => CoreE(iter) && CoreB(body, OfFor, 0)
    case Break(_) => kind != Outside && outer == 0
    case Continue(_) => kind != Outside && outer == 0
    case FnStmt(_, decl) => CoreFn(decl)
    case StructDecl(_) => true
  }

  predicate CoreSs(ss: seq<Stmt>, kind: Kind, bvc: nat, outer: nat)
    decreases ss
  {
    ss != [] ==> CoreS(ss[0], kind, bvc, outer) && CoreSs(ss[1..], kind, bvc + Declared(ss[0]), outer)
  }

  predicate CoreB(b: Block, kind: Kind, outer: nat)
    decreases b
  {
    CoreSs(b.stmts, kind, 0, outer) && DeclaredIn(b.stmts) < 256
  }

  predicate CoreIf(c: IfChain, kind: Kind, outer: nat)
    decreases c
  {
    CoreE(c.cond) && CoreB(c.thn, kind, outer)
    && match c.els
       case NoElse => true
       case ElseBlock(b) => CoreB(b, kind, outer)
       case ElseIf(c1) => CoreIf(c1, kind, outer)
  }

  /** A whole program of the fragment whose chunk stays within 16-bit offsets. */
  predicate CoreProgram(ss: seq<Stmt>) {
    && CoreSs(ss, Outside, 0, 0)
    && |ProgramCode(ss)| < 65536 && |ProgramConsts(ss)| < 65536
  }

  // ----- values all of whose functions are in the fragment -----

  ghost predicate GoodV(v: Val)
    decreases v
  {
    match v
    case FnV(decl, captured) => CoreFn(decl) && forall b :: b in captured ==> GoodV(b.value)
    case ArrV(es) => forall x :: x in es ==> GoodV(x)
    case StructV(_, ps) => forall q :: q in ps ==> GoodV(q.value)
    case ResV(_, x) => GoodV(x)
    case MapV(ps) => forall q :: q in ps ==> GoodV(q.value)
    case _ => true
  }

  ghost predicate GoodVs(vs: seq<Val>) { forall x :: x in vs ==> GoodV(x) }

  ghost predicate GoodPs(ps: seq<Pair>) { forall q :: q in ps ==> GoodV(q.value) }

  ghost predicate GoodEnv(env: Env) { forall b :: b in env ==> GoodV(b.value) }

  /** The builtins invent no functions. */
  ghost predicate GoodWorld(w: World) {
    forall id: nat, vs: seq<Val> {:trigger w.builtin(id, vs)} ::
      GoodVs(vs) && w.builtin(id, vs).Ok? ==> GoodV(w.builtin(id, vs).value)
  }

  ghost predicate GoodOut(o: Out) {
    match o
    case Value(v, env) => GoodV(v) && GoodEnv(env)
    case Values(vs, env) => GoodVs(vs) && GoodEnv(env)
    case Pairs(ps, env) => GoodPs(ps) && GoodEnv(env)
    case Returned(v, env) => GoodV(v) && GoodEnv(env)
    case Normal(env) => GoodEnv(env)
    case Broke(env) => GoodEnv(env)
    case Continued(env) => GoodEnv(env)
    case _ => true
  }

  lemma GoodBinary(w: World, op: BinOp, a: Val, b: Val)
    ensures TreeBinary(w, op, a, b).Ok? ==> GoodV(TreeBinary(w, op, a, b).value)
  {
  }

  lemma GoodField(v: Val, field: string)
    requires GoodV(v)
    ensures TreeField(v, field).Ok? ==> GoodV(TreeField(v, field).value)
  {
  }

  lemma GoodIndex(a: Val, i: Val)
    requires GoodV(a)
    ensures TreeIndex(a, i).Ok? ==> GoodV(TreeIndex(a, i).value)
  {
  }

  lemma {:induction false} GoodEval(w: World, f: nat, d: nat, e: Expr, env: Env)
    requires GoodWorld(w) && CoreE(e) && GoodEnv(env)
    ensures GoodOut(Eval(w, f, d, e, env))
    decreases f, 1, e
  {
    hide TreeBinary, TreeField, TreeIndex, Apply, CoreFn, EvalList, EvalPairs, CorePs, CoreEs;
    match e
    case Unary(op, a) => GoodEval(w, f, d, a, env);
    case Binary(_, l, r) => GoodEvalTwo(w, f, d, e, l, r, env);
    case Index(l, r) => GoodEvalTwo(w, f, d, e, l, r, env);
    case Field(o, x) =>
      GoodEval(w, f, d, o, env);
      var r := Eval(w, f, d, o, env);
      if r.Value? { GoodField(r.v, x); }
    case Call(callee, args) =>
      if IsBuiltinCall(e) { GoodEvalMany(w, f, d, e, env); }
      else { GoodEvalCall(w, f, d, e, env); }
    case ArrayLit(es) => GoodEvalMany(w, f, d, e, env);
    case MapLit(ps) => GoodEvalMany(w, f, d, e, env);
    case StructLit(_, ps) => GoodEvalMany(w, f, d, e, env);
    case ResultLit(_, a) => GoodEval(w, f, d, a, env);
    case Try(a) => GoodEval(w, f, d, a, env);
    case _ =>
  }

  lemma EvalMany(w: World, f: nat, d: nat, e: Expr, env: Env)
    requires e.ArrayLit? || IsBuiltinCall(e)
    ensures var es := if e.ArrayLit? then e.elems else e.args; var r := EvalList(w, f, d, es, env);
      && (CoreE(e) ==> CoreEs(es))
      && Eval(w, f, d, e, env) ==
           if !r.Values? then r
           else if e.ArrayLit? then Value(ArrV(r.vs), r.env)
           else OfRes(w.builtin(BuiltinId(e.callee.name).value, r.vs), r.env)
  {
    hide EvalList, CoreEs, BuiltinId, Apply;
  }

  lemma EvalPairsOf(w: World, f: nat, d: nat, e: Expr, env: Env)
    requires e.MapLit? || e.StructLit?
    ensures var r := EvalPairs(w, f, d, e.pairs, env);
      && (CoreE(e) ==> CorePs(e.pairs))
      && Eval(w, f, d, e, env) ==
           if !r.Pairs? then r else Value(if e.MapLit? then MapV(r.ps) else StructV(e.tname, r.ps), r.env)
  {
    hide EvalPairs, CorePs;
  }

  lemma {:induction false} GoodEvalMany(w: World, f: nat, d: nat, e: Expr, env: Env)
    requires GoodWorld(w) && CoreE(e) && GoodEnv(env)
    requires e.ArrayLit? || e.MapLit? || e.StructLit? || IsBuiltinCall(e)
    ensures GoodOut(Eval(w, f, d, e, env))
    decreases f, 1, e, 0
  {
    hide Eval, CoreE, EvalList, EvalPairs, CoreEs, CorePs, BuiltinId;
    if e.MapLit? || e.StructLit? {
      EvalPairsOf(w, f, d, e, env);
      GoodEvalPairs(w, f, d, e.pairs, env);
    } else {
      EvalMany(w, f, d, e, env);
      GoodEvalList(w, f, d, if e.ArrayLit? then e.elems else e.args, env);
    }
  }

  lemma {:induction false} GoodEvalTwo(w: World, f: nat, d: nat, e: Expr, l: Expr, r: Expr, env: Env)
    requires GoodWorld(w) && CoreE(e) && GoodEnv(env)
    requires (e.Binary? && e.left == l && e.right == r) || e == Index(l, r)
    ensures GoodOut(Eval(w, f, d, e, env))
    decreases f, 1, e, 0
  {
    hide TreeBinary, TreeIndex;
    GoodEval(w, f, d, l, env);
    var a := Eval(w, f, d, l, env);
    if a.Value? {
      GoodEval(w, f, d, r, a.env);
      var b := Eval(w, f, d, r, a.env);
      if b.Value? {
        if e.Binary? { GoodBinary(w, e.op, a.v, b.v); } else { GoodIndex(a.v, b.v); }
      }
    }
  }

  lemma {:induction false} GoodEvalCall(w: World, f: nat, d: nat, e: Expr, env: Env)
    requires GoodWorld(w) && e.Call? && !IsBuiltinCall(e) && CoreE(e) && GoodEnv(env)
    ensures GoodOut(Eval(w, f, d, e, env))
    decreases f, 1, e, 0
  {
    hide Apply, EvalList;
    GoodEval(w, f, d, e.callee, env);
    var fv := Eval(w, f, d, e.callee, env);
    if fv.Value? {
      GoodEvalList(w, f, d, e.args, fv.env);
      var r := EvalList(w, f, d, e.args, fv.env);
      if r.Values? { GoodApply(w, f, d, fv.v, r.vs, r.env); }
    }
  }

  lemma {:induction false} GoodEvalList(w: World, f: nat, d: nat, es: seq<Expr>, env: Env)
    requires GoodWorld(w) && CoreEs(es) && GoodEnv(env)
    ensures GoodOut(EvalList(w, f, d, es, env))
    decreases f, 1, es
  {
    hide Eval;
    if es != [] {
      GoodEval(w, f, d, es[0], env);
      var h := Eval(w, f, d, es[0], env);
      if h.Value? { GoodEvalList(w, f, d, es[1..], h.env); }
    }
  }

  lemma {:induction false} GoodEvalPairs(w: World, f: nat, d: nat, ps: seq<Entry>, env: Env)
    requires GoodWorld(w) && CorePs(ps) && GoodEnv(env)
    ensures GoodOut(EvalPairs(w, f, d, ps, env))
    decreases f, 1, ps
  {
    hide Eval;
    if ps != [] {
      GoodEval(w, f, d, ps[0].value, env);
      var h := Eval(w, f, d, ps[0].value, env);
      if h.Value? { GoodEvalPairs(w, f, d, ps[1..], h.env); }
    }
  }

  lemma {:induction false} GoodCall(env: Env, params: seq<string>, args: seq<Val>)
    requires |params| == |args| && GoodVs(args) && GoodEnv(env)
    ensures GoodEnv(BindParams(env, params, args))
    decreases |params|
  {
    if params != [] {
      assert args[0] in args;
      var d := DefineVar(env, params[0], args[0], true);
      GoodCall(if d.Ok? then d.value else env, params[1..], args[1..]);
    }
  }

  lemma {:induction false} GoodApply(w: World, f: nat, d: nat, fv: Val, args: seq<Val>, env: Env)
    requires GoodWorld(w) && GoodV(fv) && GoodVs(args) && GoodEnv(env)
    ensures GoodOut(Apply(w, f, d, fv, args, env))
    decreases f, 0
  {
    hide ExecBlock;
    if fv.FnV? && |fv.decl.params| == |args| && f > 0 {
      GoodCall(CallBase(fv, env), fv.decl.params, args);
      GoodExecBlock(w, f - 1, d + 1, fv.decl.body, Outside, 0, BindParams(CallBase(fv, env), fv.decl.params, args));
    }
  }

  lemma GoodDefine(env: Env, x: string, v: Val, immut: bool)
    requires GoodEnv(env) && GoodV(v)
    ensures GoodOut(OfDefine(env, x, v, immut))
  {
  }

  lemma {:induction false} GoodExec(w: World, f: nat, d: nat, s: Stmt, kind: Kind, bvc: nat, outer: nat, env: Env)
    requires GoodWorld(w) && CoreS(s, kind, bvc, outer) && GoodEnv(env)
    ensures GoodOut(Exec(w, f, d, s, env))
    decreases f, 1, s
  {
    hide Eval, ExecIf, ExecWhile, ExecFor, CoreFn, CoreB, CoreIf;
    match s
    case ExprStmt(_, e) => GoodEval(w, f, d, e, env);
    case Decl(_, _, _, None) =>
    case Decl(_, _, _, Some(e)) => GoodEval(w, f, d, e, env);
    case Assign(_, _, e) => GoodEval(w, f, d, e, env);
    case Return(_, None) =>
    case Return(_, Some(e)) => GoodEval(w, f, d, e, env);
    case If(chain) => GoodExecIf(w, f, d, chain, kind, outer + bvc, env);
    case While(_, _, _) => GoodExecWhile(w, f, d, s, env);
    case For(_, _, iter, _) =>
      GoodEval(w, f, d, iter, env);
      var r := Eval(w, f, d, iter, env);
      if r.Value? && r.v.ArrV? { GoodExecFor(w, f, d, s, r.v.elems, 0, r.env); }
    case _ =>
  }

  lemma {:induction false} GoodExecList(w: World, f: nat, d: nat, ss: seq<Stmt>, kind: Kind, bvc: nat, outer: nat,
      env: Env)
    requires GoodWorld(w) && CoreSs(ss, kind, bvc, outer) && GoodEnv(env)
    ensures GoodOut(ExecList(w, f, d, ss, env))
    decreases f, 1, ss
  {
    hide Exec, CoreS;
    if ss != [] {
      GoodExec(w, f, d, ss[0], kind, bvc, outer, env);
      var h := Exec(w, f, d, ss[0], env);
      if h.Normal? { GoodExecList(w, f, d, ss[1..], kind, bvc + Declared(ss[0]), outer, h.env); }
    }
  }

  lemma {:induction false} GoodExecBlock(w: World, f: nat, d: nat, b: Block, kind: Kind, outer: nat, env: Env)
    requires GoodWorld(w) && CoreB(b, kind, outer) && GoodEnv(env)
    ensures GoodOut(ExecBlock(w, f, d, b, env))
    decreases f, 1, b
  {
    GoodExecList(w, f, d, b.stmts, kind, 0, outer, env);
  }

  lemma {:induction false} GoodExecIf(w: World, f: nat, d: nat, c: IfChain, kind: Kind, outer: nat, env: Env)
    requires GoodWorld(w) && CoreIf(c, kind, outer) && GoodEnv(env)
    ensures GoodOut(ExecIf(w, f, d, c, env))
    decreases f, 1, c
  {
    hide Eval, ExecBlock;
    GoodEval(w, f, d, c.cond, env);
    var r := Eval(w, f, d, c.cond, env);
    if r.Value? {
      if Truthy(w, r.v) { GoodExecBlock(w, f, d, c.thn, kind, outer, r.env); }
      else {
        match c.els
        case NoElse =>
        case ElseBlock(b) => GoodExecBlock(w, f, d, b, kind, outer, r.env);
        case ElseIf(c1) => GoodExecIf(w, f, d, c1, kind, outer, r.env);
      }
    }
  }

  lemma {:induction false} GoodExecWhile(w: World, f: nat, d: nat, s: Stmt, env: Env)
    requires GoodWorld(w) && s.While? && CoreE(s.cond) && CoreB(s.body, OfWhile, 0) && GoodEnv(env)
    ensures GoodOut(ExecWhile(w, f, d, s, env))
    decreases f, 1, s, 0
  {
    hide Eval, ExecBlock, CoreE, CoreB;
    if f > 0 {
      GoodEval(w, f, d, s.cond, env);
      var c := Eval(w, f, d, s.cond, env);
      if c.Value? && Truthy(w, c.v) {
        GoodExecBlock(w, f, d, s.body, OfWhile, 0, c.env);
        var r := ExecBlock(w, f, d, s.body, c.env);
        if r.Normal? || r.Continued? { GoodExecWhile(w, f - 1, d, s, r.env); }
      }
    }
  }

  lemma {:induction false} GoodExecFor(w: World, f: nat, d: nat, s: Stmt, elems: seq<Val>, i: nat, env: Env)
    requires GoodWorld(w) && s.For? && i <= |elems| && CoreB(s.body, OfFor, 0) && GoodEnv(env) && GoodVs(elems)
    ensures GoodOut(ExecFor(w, f, d, s, elems, i, env))
    decreases f, 1, s, |elems| - i
  {
    hide ExecBlock, CoreB;
    if i < |elems| {
      GoodDefine(env, s.x, elems[i], false);
      var b := DefineVar(env, s.x, elems[i], false);
      if b.Ok? {
        GoodExecBlock(w, f, d, s.body, OfFor, 0, b.value);
        var r := Leave(ExecBlock(w, f, d, s.body, b.value), |env|);
        if r.Normal? || r.Continued? { GoodExecFor(w, f, d, s, elems, i + 1, r.env); }
      }
    }
  }

  // ----- how many bindings evaluation leaves -----

  /** Finished outcomes have n + m bindings, interrupted ones at least n. */
  predicate Sized(o: Out, n: nat, m: nat) {
    match o
    case Value(_, env) => |env| == n + m
    case Values(_, env) => |env| == n + m
    case Pairs(_, env) => |env| == n + m
    case Normal(env) => |env| == n + m
    case Returned(_, env) => |env| >= n
    case Broke(env) => |env| >= n
    case Continued(env) => |env| >= n
    case _ => true
  }

  lemma {:induction false} SizedEval(w: World, f: nat, d: nat, e: Expr, env: Env)
    ensures Sized(Eval(w, f, d, e, env), |env|, 0)
    decreases f, 1, e
  {
    hide TreeBinary, Apply;
    match e
    case Unary(_, a) => SizedEval(w, f, d, a, env);
    case Binary(_, l, r) =>
      SizedEval(w, f, d, l, env);
      var a := Eval(w, f, d, l, env);
      if a.Value? { SizedEval(w, f, d, r, a.env); }
    case Field(o, _) => SizedEval(w, f, d, o, env);
    case Call(callee, args) =>
      if IsBuiltinCall(e) {
        SizedEvalList(w, f, d, args, env);
      } else {
        SizedEval(w, f, d, callee, env);
        var fv := Eval(w, f, d, callee, env);
        if fv.Value? {
          SizedEvalList(w, f, d, args, fv.env);
          var r := EvalList(w, f, d, args, fv.env);
          if r.Values? { SizedApply(w, f, d, fv.v, r.vs, r.env); }
        }
      }
    case ArrayLit(es) => SizedEvalList(w, f, d, es, env);
    case MapLit(ps) => SizedEvalPairs(w, f, d, ps, env);
    case StructLit(_, ps) => SizedEvalPairs(w, f, d, ps, env);
    case Index(a, i) =>
      SizedEval(w, f, d, a, env);
      var r := Eval(w, f, d, a, env);
      if r.Value? { SizedEval(w, f, d, i, r.env); }
    case ResultLit(_, a) => SizedEval(w, f, d, a, env);
    case Try(a) => SizedEval(w, f, d, a, env);
    case _ =>
  }

  lemma {:induction false} SizedEvalList(w: World, f: nat, d: nat, es: seq<Expr>, env: Env)
    ensures Sized(EvalList(w, f, d, es, env), |env|, 0)
    decreases f, 1, es
  {
    hide Eval;
    if es != [] {
      SizedEval(w, f, d, es[0], env);
      var h := Eval(w, f, d, es[0], env);
      if h.Value? { SizedEvalList(w, f, d, es[1..], h.env); }
    }
  }

  lemma {:induction false} SizedEvalPairs(w: World, f: nat, d: nat, ps: seq<Entry>, env: Env)
    ensures Sized(EvalPairs(w, f, d, ps, env), |env|, 0)
    decreases f, 1, ps
  {
    hide Eval;
    if ps != [] {
      SizedEval(w, f, d, ps[0].value, env);
      var h := Eval(w, f, d, ps[0].value, env);
      if h.Value? { SizedEvalPairs(w, f, d, ps[1..], h.env); }
    }
  }

  /** A call leaves the caller with as many bindings as before. */
  lemma {:induction false} SizedApply(w: World, f: nat, d: nat, fv: Val, args: seq<Val>, env: Env)
    ensures Sized(Apply(w, f, d, fv, args, env), |env|, 0)
    decreases f, 0
  {
    hide ExecBlock;
    if fv.FnV? && |fv.decl.params| == |args| && f > 0 {
      SizedExecBlock(w, f - 1, d + 1, fv.decl.body, BindParams(CallBase(fv, env), fv.decl.params, args));
    }
  }

  lemma {:induction false} SizedExec(w: World, f: nat, d: nat, s: Stmt, env: Env)
    ensures Sized(Exec(w, f, d, s, env), |env|, Declared(s))
    decreases f, 1, s
  {
    hide Eval, ExecIf, ExecWhile, ExecFor;
    match s
    case ExprStmt(_, e) => SizedEval(w, f, d, e, env);
    case Decl(_, _, _, None) =>
    case Decl(_, _, _, Some(e)) => SizedEval(w, f, d, e, env);
    case Assign(_, _, e) => SizedEval(w, f, d, e, env);
    case Return(_, None) =>
    case Return(_, Some(e)) => SizedEval(w, f, d, e, env);
    case If(chain) => SizedExecIf(w, f, d, chain, env);
    case While(_, _, _) => SizedExecWhile(w, f, d, s, env);
    case For(_, _, iter, _) =>
      SizedEval(w, f, d, iter, env);
      var r := Eval(w, f, d, iter, env);
      if r.Value? && r.v.ArrV? { SizedExecFor(w, f, d, s, r.v.elems, 0, r.env); }
    case _ =>
  }

  lemma {:induction false} SizedExecList(w: World, f: nat, d: nat, ss: seq<Stmt>, env: Env)
    ensures Sized(ExecList(w, f, d, ss, env), |env|, DeclaredIn(ss))
    decreases f, 1, ss
  {
    hide Exec;
    if ss != [] {
      SizedExec(w, f, d, ss[0], env);
      var h := Exec(w, f, d, ss[0], env);
      if h.Normal? { SizedExecList(w, f, d, ss[1..], h.env); }
    }
  }

  /** However a block ends, short of a return, it leaves the bindings it found. */
  lemma {:induction false} SizedExecBlock(w: World, f: nat, d: nat, b: Block, env: Env)
    ensures var o := ExecBlock(w, f, d, b, env);
      Sized(o, |env|, 0) && (o.Broke? || o.Continued? ==> |o.env| == |env|)
    decreases f, 1, b
  {
    hide ExecList;
    SizedExecList(w, f, d, b.stmts, env);
  }

  lemma {:induction false} SizedExecIf(w: World, f: nat, d: nat, c: IfChain, env: Env)
    ensures Sized(ExecIf(w, f, d, c, env), |env|, 0)
    decreases f, 1, c
  {
    hide Eval, ExecBlock;
    SizedEval(w, f, d, c.cond, env);
    var r := Eval(w, f, d, c.cond, env);
    if r.Value? {
      SizedExecBlock(w, f, d, c.thn, r.env);
      match c.els
      case NoElse =>
      case ElseBlock(b) => SizedExecBlock(w, f, d, b, r.env);
      case ElseIf(c1) => SizedExecIf(w, f, d, c1, r.env);
    }
  }

  lemma {:induction false} SizedExecWhile(w: World, f: nat, d: nat, s: Stmt, env: Env)
    requires s.While?
    ensures Sized(ExecWhile(w, f, d, s, env), |env|, 0)
    decreases f, 1, s, 0
  {
    hide Eval, ExecBlock;
    if f > 0 {
      SizedEval(w, f, d, s.cond, env);
      var c := Eval(w, f, d, s.cond, env);
      if c.Value? {
        SizedExecBlock(w, f, d, s.body, c.env);
        var r := ExecBlock(w, f, d, s.body, c.env);
        if r.Normal? || r.Continued? { SizedExecWhile(w, f - 1, d, s, r.env); }
      }
    }
  }

  lemma {:induction false} SizedExecFor(w: World, f: nat, d: nat, s: Stmt, elems: seq<Val>, i: nat, env: Env)
    requires s.For? && i <= |elems|
    ensures Sized(ExecFor(w, f, d, s, elems, i, env), |env|, 0)
    decreases f, 1, s, |elems| - i
  {
    hide ExecBlock;
    if i < |elems| {
      var b := DefineVar(env, s.x, elems[i], false);
      if b.Ok? {
        SizedExecBlock(w, f, d, s.body, b.value);
        var r := Leave(ExecBlock(w, f, d, s.body, b.value), |env|);
        if r.Normal? || r.Continued? { SizedExecFor(w, f, d, s, elems, i + 1, r.env); }
      }
    }
  }

  // ----- how much stack an evaluation needs -----

  function Max(a: nat, b: nat): nat { if a >= b then a else b }

  /** Slots an expression uses above its start, its own value included; a call
      of a user function counts as more than the stack holds. */
  function NeedE(e: Expr): nat
    decreases e
  {
    match e
    case Unary(_, a) => NeedE(a)
    case Binary(_, l, r) => Max(NeedE(l), 1 + NeedE(r))
    case Field(o, _) => NeedE(o)
    case Call(_, args) => if IsBuiltinCall(e) then Max(NeedEs(args), 1) else STACK_MAX + 1
    case ArrayLit(es) => Max(NeedEs(es), 1)
    case MapLit(ps) => Max(NeedPs(ps), 1)
    case StructLit(_, ps) => Max(NeedPs(ps), 1)
    case Index(a, i) => Max(NeedE(a), 1 + NeedE(i))
    case ResultLit(_, a) => NeedE(a)
    case Try(a) => NeedE(a)
    case _ => 1
  }

  function NeedEs(es: seq<Expr>): nat
    decreases es
  {
    if es == [] then 0 else Max(NeedE(es[0]), 1 + NeedEs(es[1..]))
  }

  function NeedPs(ps: seq<Entry>): nat
    decreases ps
  {
    if ps == [] then 0 else Max(1 + NeedE(ps[0].value), 2 + NeedPs(ps[1..]))
  }

  function NeedOpt(e: Option<Expr>): nat {
    if e.Some? then NeedE(e.value) else 1
  }

  function NeedS(s: Stmt): nat
    decreases s
  {
    match s
    case ExprStmt(_, e) => NeedE(e)
    case Decl(_, _, _, init) => NeedOpt(init)
    case Assign(_, _, e) => NeedE(e)
    case Return(_, e) => NeedOpt(e)
    case If(chain) => NeedIf(chain)
    case While(_, cond, body) => Max(NeedE(cond), NeedSs(body.stmts))
    case For(_, _, iter, body) => Max(NeedE(iter), Max(4, 3 + NeedSs(body.stmts)))
    case FnStmt(_, _) => 1
    case _ => 0
  }

  function NeedSs(ss: seq<Stmt>): nat
    decreases ss
  {
    if ss == [] then 0 else Max(NeedS(ss[0]), NeedSs(ss[1..]))
  }

  function NeedIf(c: IfChain): nat
    decreases c
  {
    Max(NeedE(c.cond), Max(NeedSs(c.thn.stmts),
      match c.els
      case NoElse => 0
      case ElseBlock(b) => NeedSs(b.stmts)
      case ElseIf(c1) => NeedIf(c1)))
  }
}
