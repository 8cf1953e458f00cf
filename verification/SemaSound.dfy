/** What the scope checker accepts never meets an undefined name or an assignment
    to an immutable one: the flat environment of the evaluator is always the
    concatenation of the checker's scopes. */
module SemaSound {
  import opened Ast
  import opened Values
  import opened Semantics
  import CodeGen
  import S = Semas

  const NBUILTINS: nat := S.NBUILTINS

  // ----- the programs: no function statements, no builtin used as a plain value -----

  /** n: how many bindings there are.  A lambda captures at least one of them, and leaves
      room for its parameters. */
  predicate SafeE(e: Expr, n: nat)
    decreases e
  {
    match e
    case Ident(x) => BuiltinId(x).None?
    case Unary(_, a) => SafeE(a, n)
    case Binary(_, l, r) => SafeE(l, n) && SafeE(r, n)
    case Field(o, _) => SafeE(o, n)
    case Call(callee, args) => SafeEs(args, n) && (CodeGen.IsBuiltinCall(e) || SafeE(callee, n))
    case ArrayLit(es) => SafeEs(es, n)
    case MapLit(ps) => SafePs(ps, n)
    case StructLit(_, ps) => SafePs(ps, n)
    case Index(a, i) => SafeE(a, n) && SafeE(i, n)
    case Lambda(fn) => n > 0 && SafeFn(fn, n)
    case ResultLit(_, a) => SafeE(a, n)
    case Try(a) => SafeE(a, n)
    case _ => true
  }

  predicate SafeFn(fn: FnDecl, n: nat)
    decreases fn
  {
    n + |fn.params| <= MAX_VARS && SafeB(fn.body, n + |fn.params|)
  }

  predicate SafeEs(es: seq<Expr>, n: nat)
    decreases es
  {
    es != [] ==> SafeE(es[0], n) && SafeEs(es[1..], n)
  }

  predicate SafePs(ps: seq<Entry>, n: nat)
    decreases ps
  {
    ps != [] ==> SafeE(ps[0].value, n) && SafePs(ps[1..], n)
  }

  predicate SafeOpt(e: Option<Expr>, n: nat) { e.Some? ==> SafeE(e.value, n) }

  predicate SafeS(s: Stmt, n: nat)
    decreases s
  {
    match s
    case ExprStmt(_, e) => SafeE(e, n)
    case Decl(_, _, _, init) => SafeOpt(init, n)
    case Assign(_, _, e) => SafeE(e, n)
    case Return(_, e) => SafeOpt(e, n)
    case If(chain) => SafeIf(chain, n)
    case While(_, cond, body) => SafeE(cond, n) && SafeB(body, n)
    case For(_, _, iter, body) => SafeE(iter, n) && SafeB(body, n + 1)
    case FnStmt(_, _) => false
    case _ => true
  }

  predicate SafeSs(ss: seq<Stmt>, n: nat)
    decreases ss
  {
    ss != [] ==> SafeS(ss[0], n) && SafeSs(ss[1..], n + Declared(ss[0]))
  }

  /** No scope defines more than the 256 variables it records. */
  predicate SafeB(b: Block, n: nat)
    decreases b
  {
    SafeSs(b.stmts, n) && DeclaredIn(b.stmts) <= S.MAX_SCOPE_VARS
  }

  predicate SafeIf(c: IfChain, n: nat)
    decreases c
  {
    SafeE(c.cond, n) && SafeB(c.thn, n)
    && match c.els
       case NoElse => true
       case ElseBlock(b) => SafeB(b, n)
       case ElseIf(c1) => SafeIf(c1, n)
  }

  /** The outermost scope shares its 256 variables with the builtins. */
  predicate SafeProgram(ss: seq<Stmt>) {
    SafeSs(ss, 0) && NBUILTINS + DeclaredIn(ss) <= S.MAX_SCOPE_VARS
  }

  // ----- values all of whose functions the checker has accepted where they were made -----

  ghost predicate OkV(v: Val)
    decreases v
  {
    match v
    case FnV(decl, captured) =>
      captured != [] && SafeFn(decl, |captured|) && Accepted(decl, captured)
      && forall b :: b in captured ==> OkV(b.value)
    case ArrV(es) => forall x :: x in es ==> OkV(x)
    case StructV(_, ps) => forall q :: q in ps ==> OkV(q.value)
    case ResV(_, x) => OkV(x)
    case MapV(ps) => forall q :: q in ps ==> OkV(q.value)
    case _ => true
  }

  /** The body was checked in scopes that the captured bindings agree with. */
  ghost predicate Accepted(decl: FnDecl, captured: Env) {
    exists sc :: Agree(captured, sc) && S.ErrB(decl.body, S.DefineParams(sc + [[]], decl.params)).None?
  }

  ghost predicate OkVs(vs: seq<Val>) { forall x :: x in vs ==> OkV(x) }

  ghost predicate OkPairs(ps: seq<Pair>) { forall q :: q in ps ==> OkV(q.value) }

  ghost predicate OkEnv(env: Env) { forall b :: b in env ==> OkV(b.value) }

  /** Builtins invent no functions and report their own errors. */
  ghost predicate HonestWorld(w: World) {
    forall id: nat, vs: seq<Val> {:trigger w.builtin(id, vs)} :: OkVs(vs) ==>
      match w.builtin(id, vs)
      case Ok(v) => OkV(v)
      case Fail(e) => e.BuiltinErr?
  }

  predicate Fine(o: Out) {
    o.Error? ==> o.err != UndefinedVar && o.err != ImmutableVar
  }

  // ----- the environment is the concatenation of the scopes -----

  function Flat(sc: S.Scopes): seq<S.SemaVar> {
    if sc == [] then [] else Flat(sc[..|sc| - 1]) + sc[|sc| - 1]
  }

  /** Behind the builtins, the scopes list the environment's names in order; what
      the checker lets be assigned is mutable. */
  ghost predicate Agree(env: Env, sc: S.Scopes) {
    && sc != [] && |Flat(sc)| == NBUILTINS + |env| && Flat(sc)[..NBUILTINS] == S.Builtins()
    && forall i :: 0 <= i < |env| ==> Pairs(env[i], Flat(sc)[NBUILTINS + i])
  }

  predicate Pairs(b: Binding, v: S.SemaVar) {
    b.name == v.name && (v.mut ==> !b.immut)
  }

  lemma {:induction false} FindAppend(a: seq<S.SemaVar>, b: seq<S.SemaVar>, x: string, n: nat)
    requires n <= |b|
    ensures S.FindIn(a + b, x, |a| + n) == if S.FindIn(b, x, n).Some? then S.FindIn(b, x, n) else S.FindIn(a, x, |a|)
    decreases n
  {
    if n == 0 {
      FindPrefix(a, b, x, |a|);
    } else {
      FindAppend(a, b, x, n - 1);
    }
  }

  lemma {:induction false} FindPrefix(a: seq<S.SemaVar>, b: seq<S.SemaVar>, x: string, n: nat)
    requires n <= |a|
    ensures S.FindIn(a + b, x, n) == S.FindIn(a, x, n)
    decreases n
  {
    if n > 0 { FindPrefix(a, b, x, n - 1); }
  }

  /** Searching the chain of scopes is searching the concatenation. */
  lemma {:induction false} LookupFlat(sc: S.Scopes, x: string)
    ensures S.Lookup(sc, x) == S.FindIn(Flat(sc), x, |Flat(sc)|)
    decreases |sc|
  {
    if sc != [] {
      var n := |sc| - 1;
      LookupFlat(sc[..n], x);
      FindAppend(Flat(sc[..n]), sc[n], x, |sc[n]|);
    }
  }

  /** Every builtin the checker knows is one the compiler resolves. */
  lemma BuiltinNames(j: nat)
    requires j < NBUILTINS
    ensures BuiltinId(S.Builtins()[j].name).Some? && !S.Builtins()[j].mut
  {
    hide FindName;
    var k := if j < 30 then j else j + 1;
    var names := BUILTIN_NAMES;
    assert S.Builtins()[j] == S.SemaVar(names[k], false, j != 0, S.ARITIES[j]);
    assert names[0..][k] == names[k];
    NamesNotEmpty(k);
  }

  lemma NamesNotEmpty(k: nat)
    requires k < |BUILTIN_NAMES| && k != 30
    ensures BUILTIN_NAMES[k] != ""
  {
  }

  /** A search that succeeds finds a binding, unless only a builtin has the name. */
  lemma {:induction false} FindAgrees(env: Env, sc: S.Scopes, x: string, n: nat)
    requires Agree(env, sc) && n <= |env|
    requires var v := S.FindIn(Flat(sc), x, NBUILTINS + n); v.Some? && (BuiltinId(x).None? || v.value.mut)
    ensures var i := FindVar(env, x, n);
      i.Some? && (S.FindIn(Flat(sc), x, NBUILTINS + n).value.mut ==> !env[i.value].immut)
    decreases n
  {
    hide S.Builtins, BuiltinId;
    var flat := Flat(sc);
    FindBuiltin(flat, x, NBUILTINS);
    if n > 0 {
      assert Pairs(env[n - 1], flat[NBUILTINS + (n - 1)]);
      if env[n - 1].name != x { FindAgrees(env, sc, x, n - 1); }
    }
  }

  lemma {:induction false} FindBuiltin(flat: seq<S.SemaVar>, x: string, n: nat)
    requires n <= NBUILTINS <= |flat| && flat[..NBUILTINS] == S.Builtins()
    ensures var v := S.FindIn(flat, x, n); v.Some? ==> BuiltinId(x).Some? && !v.value.mut
    decreases n
  {
    if n > 0 {
      assert flat[n - 1] == flat[..NBUILTINS][n - 1];
      BuiltinNames(n - 1);
      if flat[n - 1].name != x { FindBuiltin(flat, x, n - 1); }
    }
  }

  /** A name the checker accepts is bound. */
  lemma NameIsBound(env: Env, sc: S.Scopes, x: string)
    requires Agree(env, sc) && OkEnv(env) && S.Lookup(sc, x).Some? && BuiltinId(x).None?
    ensures Values.Lookup(env, x).Some? && OkV(Values.Lookup(env, x).value)
  {
    LookupFlat(sc, x);
    FindAgrees(env, sc, x, |env|);
    assert env[FindVar(env, x, |env|).value] in env;
  }

  /** An assignment the checker accepts succeeds and keeps names and flags. */
  lemma AssignSucceeds(env: Env, sc: S.Scopes, x: string, v: Val)
    requires Agree(env, sc) && OkEnv(env) && OkV(v) && S.AssignErr(x, sc).None?
    ensures var r := AssignVar(env, x, v); r.Ok? && Agree(r.value, sc) && OkEnv(r.value)
  {
    hide OkV, S.Lookup, BuiltinId;
    LookupFlat(sc, x);
    FindAgrees(env, sc, x, |env|);
  }

  // ----- expressions -----

  lemma OkBinary(w: World, op: BinOp, a: Val, b: Val)
    ensures var r := TreeBinary(w, op, a, b);
      if r.Ok? then OkV(r.value) else r.err != UndefinedVar && r.err != ImmutableVar
  {
  }

  lemma OkUnary(w: World, op: UnOp, a: Val)
    ensures var r := TreeUnary(w, op, a);
      if r.Ok? then OkV(r.value) else r.err != UndefinedVar && r.err != ImmutableVar
  {
  }

  lemma OkField(v: Val, field: string)
    requires OkV(v)
    ensures var r := TreeField(v, field);
      if r.Ok? then OkV(r.value) else r.err != UndefinedVar && r.err != ImmutableVar
  {
  }

  lemma OkIndex(a: Val, i: Val)
    requires OkV(a)
    ensures var r := TreeIndex(a, i);
      if r.Ok? then OkV(r.value) else r.err != UndefinedVar && r.err != ImmutableVar
  {
  }

  /** A sound outcome of an expression: no undefined name, no function made, and
      the bindings untouched. */
  ghost predicate SoundOut(o: Out, env: Env) {
    Fine(o) && match o
      case Value(v, env1) => OkV(v) && env1 == env
      case Values(vs, env1) => OkVs(vs) && env1 == env
      case Pairs(ps, env1) => OkPairs(ps) && env1 == env
      case Returned(v, env1) => OkV(v) && env1 == env
      case _ => true
  }

  ghost predicate Pre(w: World, env: Env, sc: S.Scopes) {
    sc != [] && HonestWorld(w) && Agree(env, sc) && OkEnv(env)
  }

  lemma {:induction false} SoundE(w: World, f: nat, d: nat, e: Expr, env: Env, sc: S.Scopes)
    requires Pre(w, env, sc) && SafeE(e, |env|) && S.ErrE(e, sc).None?
    ensures SoundOut(Eval(w, f, d, e, env), env)
    decreases f, 1, e, 1
  {
    hide TreeBinary, TreeUnary, TreeField, TreeIndex, Apply, EvalList, EvalPairs, S.ErrEs, S.ErrPs, SafeEs, SafePs,
      Values.Lookup, S.Lookup, BuiltinId, Agree, OkEnv, HonestWorld, S.ErrB;
    match e
    case Ident(x) => NameIsBound(env, sc, x);
    case Unary(op, a) =>
      SoundE(w, f, d, a, env, sc);
      var r := Eval(w, f, d, a, env);
      if r.Value? { OkUnary(w, op, r.v); }
    case Binary(_, l, r) => SoundTwo(w, f, d, e, l, r, env, sc);
    case Index(l, r) => SoundTwo(w, f, d, e, l, r, env, sc);
    case Field(o, x) =>
      SoundE(w, f, d, o, env, sc);
      var r := Eval(w, f, d, o, env);
      if r.Value? { OkField(r.v, x); }
    case Call(_, _) => SoundCall(w, f, d, e, env, sc);
    case ArrayLit(es) => SoundEs(w, f, d, es, env, sc);
    case MapLit(ps) => SoundPs(w, f, d, ps, env, sc);
    case StructLit(_, ps) => SoundPs(w, f, d, ps, env, sc);
    case ResultLit(_, a) => SoundE(w, f, d, a, env, sc);
    case Try(a) => SoundE(w, f, d, a, env, sc);
    case Lambda(fn) => MadeHere(fn, env, sc);
    case _ =>
  }

  lemma MadeHere(fn: FnDecl, env: Env, sc: S.Scopes)
    requires env != [] && SafeFn(fn, |env|) && Agree(env, sc) && OkEnv(env)
    requires S.ErrB(fn.body, S.DefineParams(sc + [[]], fn.params)).None?
    ensures OkV(FnV(fn, env))
  {
    hide SafeFn, Agree, S.ErrB, S.DefineParams;
    assert Accepted(fn, env);
  }

  lemma {:induction false} SoundTwo(w: World, f: nat, d: nat, e: Expr, l: Expr, r: Expr, env: Env, sc: S.Scopes)
    requires Pre(w, env, sc) && SafeE(e, |env|) && S.ErrE(e, sc).None?
    requires (e.Binary? && e.left == l && e.right == r) || e == Index(l, r)
    ensures SoundOut(Eval(w, f, d, e, env), env)
    decreases f, 1, e, 0
  {
    hide TreeBinary, TreeIndex, Agree, OkEnv, HonestWorld;
    SoundE(w, f, d, l, env, sc);
    var a := Eval(w, f, d, l, env);
    if a.Value? {
      SoundE(w, f, d, r, a.env, sc);
      var b := Eval(w, f, d, r, a.env);
      if b.Value? {
        if e.Binary? { OkBinary(w, e.op, a.v, b.v); } else { OkIndex(a.v, b.v); }
      }
    }
  }

  lemma {:induction false} SoundCall(w: World, f: nat, d: nat, e: Expr, env: Env, sc: S.Scopes)
    requires e.Call? && Pre(w, env, sc) && SafeE(e, |env|) && S.ErrE(e, sc).None?
    ensures SoundOut(Eval(w, f, d, e, env), env)
    decreases f, 1, e, 0
  {
    hide EvalList, Apply, S.ErrEs, S.ArityErr, SafeEs, BuiltinId, Agree, OkEnv, OkV, HonestWorld;
    if CodeGen.IsBuiltinCall(e) {
      SoundEs(w, f, d, e.args, env, sc);
      var r := EvalList(w, f, d, e.args, env);
      if r.Values? { HonestBuiltin(w, BuiltinId(e.callee.name).value, r.vs); }
    } else {
      SoundE(w, f, d, e.callee, env, sc);
      var fv := Eval(w, f, d, e.callee, env);
      if fv.Value? {
        SoundEs(w, f, d, e.args, fv.env, sc);
        var r := EvalList(w, f, d, e.args, fv.env);
        if r.Values? { SoundApply(w, f, d, fv.v, r.vs, r.env); }
      }
    }
  }

  lemma HonestBuiltin(w: World, id: nat, vs: seq<Val>)
    requires HonestWorld(w) && OkVs(vs)
    ensures var r := w.builtin(id, vs); if r.Ok? then OkV(r.value) else r.err.BuiltinErr?
  {
    hide OkV, OkVs;
  }

  /** A closure runs in its own copy of what it has captured, and its caller's bindings
      stay as they are. */
  lemma {:induction false} SoundApply(w: World, f: nat, d: nat, fv: Val, args: seq<Val>, env: Env)
    requires HonestWorld(w) && OkV(fv) && OkVs(args)
    ensures var o := Apply(w, f, d, fv, args, env); SoundOut(o, env) && !o.Values? && !o.Pairs? && !o.Returned?
    decreases f, 0
  {
    hide ExecBlock, BindParams, SafeB, S.ErrB, S.DefineParams, Agree, HonestWorld;
    if fv.FnV? && |fv.decl.params| == |args| && d < MAX_CALL_DEPTH && f > 0 {
      var decl := fv.decl;
      var sc :| Agree(fv.captured, sc) && S.ErrB(decl.body, S.DefineParams(sc + [[]], decl.params)).None?;
      var env1 := BindParams(fv.captured, decl.params, args);
      EnterClosure(fv.captured, decl.params, args, sc);
      SoundB(w, f - 1, d + 1, decl.body, env1, S.DefineParams(sc + [[]], decl.params));
    }
  }

  /** Parameters that there is room for are recorded and bound in step. */
  lemma EnterClosure(captured: Env, params: seq<string>, args: seq<Val>, sc: S.Scopes)
    requires Agree(captured, sc) && OkEnv(captured) && OkVs(args) && |params| == |args|
    requires |captured| + |params| <= MAX_VARS
    ensures var env := BindParams(captured, params, args); var sc1 := S.DefineParams(sc + [[]], params);
      |env| == |captured| + |params| && Agree(env, sc1) && OkEnv(env) && sc1 != []
  {
    hide Agree, OkV, S.DefineParams, BindParams;
    AgreeIs(captured, sc);
    AgreePush(captured, sc);
    ParamsAgree(captured, params, args, sc + [[]]);
  }

  lemma {:induction false} ParamsAgree(env: Env, params: seq<string>, args: seq<Val>, sc: S.Scopes)
    requires sc != [] && Agree(env, sc) && OkEnv(env) && OkVs(args) && |params| == |args|
    requires |env| + |params| <= MAX_VARS
    requires |sc[|sc| - 1]| + |params| <= S.MAX_SCOPE_VARS
    ensures var env1 := BindParams(env, params, args); var sc1 := S.DefineParams(sc, params);
      |env1| == |env| + |params| && Agree(env1, sc1) && OkEnv(env1)
    decreases |params|
  {
    hide Agree, OkV;
    if params != [] {
      var b, v := Binding(params[0], args[0], true), S.SemaVar(params[0], false, false, 0);
      AgreeDefine(env, sc, b, v);
      ParamsAgree(env + [b], params[1..], args[1..], S.Define(sc, v));
    }
  }

  lemma {:induction false} SoundEs(w: World, f: nat, d: nat, es: seq<Expr>, env: Env, sc: S.Scopes)
    requires Pre(w, env, sc) && SafeEs(es, |env|) && S.ErrEs(es, sc).None?
    ensures SoundOut(EvalList(w, f, d, es, env), env)
    decreases f, 1, es, 0
  {
    hide Eval, SafeE, S.ErrE, Agree, OkEnv, HonestWorld;
    if es != [] {
      SoundE(w, f, d, es[0], env, sc);
      var h := Eval(w, f, d, es[0], env);
      if h.Value? { SoundEs(w, f, d, es[1..], h.env, sc); }
    }
  }

  lemma {:induction false} SoundPs(w: World, f: nat, d: nat, ps: seq<Entry>, env: Env, sc: S.Scopes)
    requires Pre(w, env, sc) && SafePs(ps, |env|) && S.ErrPs(ps, sc).None?
    ensures SoundOut(EvalPairs(w, f, d, ps, env), env)
    decreases f, 1, ps, 0
  {
    hide Eval, SafeE, S.ErrE, Agree, OkEnv, HonestWorld;
    if ps != [] {
      SoundE(w, f, d, ps[0].value, env, sc);
      var h := Eval(w, f, d, ps[0].value, env);
      if h.Value? { SoundPs(w, f, d, ps[1..], h.env, sc); }
    }
  }

  // ----- statements -----

  /** The first |env| bindings are still those of the scopes. */
  ghost predicate Still(env1: Env, n: nat, sc: S.Scopes) {
    n <= |env1| && Agree(env1[..n], sc) && OkEnv(env1)
  }

  ghost predicate SoundStmt(o: Out, n: nat, sc: S.Scopes, sc1: S.Scopes) {
    Fine(o) && match o
      case Normal(env1) => Agree(env1, sc1) && Still(env1, n, sc)
      case Broke(env1) => Still(env1, n, sc)
      case Continued(env1) => Still(env1, n, sc)
      case Returned(v, _) => OkV(v)
      case _ => true
  }

  lemma FlatDefine(sc: S.Scopes, v: S.SemaVar)
    requires sc != [] && |sc[|sc| - 1]| < S.MAX_SCOPE_VARS
    ensures Flat(S.Define(sc, v)) == Flat(sc) + [v]
  {
    var n := |sc| - 1;
    var sc1 := S.Define(sc, v);
    assert sc1[..n] == sc[..n];
    assert Flat(sc[..n]) + (sc[n] + [v]) == (Flat(sc[..n]) + sc[n]) + [v];
  }

  lemma FlatPush(sc: S.Scopes)
    ensures Flat(sc + [[]]) == Flat(sc)
  {
    assert (sc + [[]])[..|sc|] == sc;
    assert Flat(sc) + [] == Flat(sc);
  }

  /** A definition in a scope with room matches a new binding. */
  lemma AgreeDefine(env: Env, sc: S.Scopes, b: Binding, v: S.SemaVar)
    requires Agree(env, sc) && |sc[|sc| - 1]| < S.MAX_SCOPE_VARS && Pairs(b, v)
    ensures Agree(env + [b], S.Define(sc, v)) && Agree((env + [b])[..|env|], sc)
  {
    FlatDefine(sc, v);
    assert (env + [b])[..|env|] == env;
    assert (Flat(sc) + [v])[..NBUILTINS] == Flat(sc)[..NBUILTINS];
  }

  lemma AgreePush(env: Env, sc: S.Scopes)
    requires sc != []
    ensures Agree(env, sc + [[]]) <==> Agree(env, sc)
  {
    FlatPush(sc);
  }

  /** What agrees with longer scopes agrees with their start. */
  lemma AgreeCut(env1: Env, sc1: S.Scopes, n: nat, sc: S.Scopes)
    requires Agree(env1, sc1) && sc != [] && Flat(sc) <= Flat(sc1) && |Flat(sc)| == NBUILTINS + n
    ensures n <= |env1| && Agree(env1[..n], sc)
  {
    assert Flat(sc)[..NBUILTINS] == Flat(sc1)[..NBUILTINS];
    forall i | 0 <= i < n ensures Pairs(env1[..n][i], Flat(sc)[NBUILTINS + i]) {
      assert Pairs(env1[i], Flat(sc1)[NBUILTINS + i]);
    }
  }

  lemma StillCut(env1: Env, n1: nat, sc1: S.Scopes, n: nat, sc: S.Scopes)
    requires Still(env1, n1, sc1) && sc != [] && Flat(sc) <= Flat(sc1) && |Flat(sc)| == NBUILTINS + n
    ensures Still(env1, n, sc)
  {
    hide Flat, OkEnv;
    AgreeCut(env1[..n1], sc1, n, sc);
    assert env1[..n1][..n] == env1[..n];
  }

  lemma StillNow(env: Env, sc: S.Scopes)
    requires Agree(env, sc) && OkEnv(env)
    ensures Still(env, |env|, sc)
  {
    assert env[..|env|] == env;
  }

  lemma SoundDecl(env: Env, sc: S.Scopes, x: string, v: Val, immut: bool)
    requires Agree(env, sc) && OkEnv(env) && OkV(v) && |sc[|sc| - 1]| < S.MAX_SCOPE_VARS
    ensures SoundStmt(OfDefine(env, x, v, immut), |env|, sc, S.Define(sc, S.SemaVar(x, !immut, false, 0)))
  {
    hide Agree, S.Define;
    if |env| < MAX_VARS { AgreeDefine(env, sc, Binding(x, v, immut), S.SemaVar(x, !immut, false, 0)); }
  }

  ghost predicate PreS(w: World, env: Env, sc: S.Scopes, more: nat) {
    Pre(w, env, sc) && |sc[|sc| - 1]| + more <= S.MAX_SCOPE_VARS
  }

  lemma {:induction false} SoundS(w: World, f: nat, d: nat, s: Stmt, env: Env, sc: S.Scopes)
    requires PreS(w, env, sc, Declared(s)) && SafeS(s, |env|) && S.ErrS(s, sc).None?
    ensures SoundStmt(Exec(w, f, d, s, env), |env|, sc, S.After(s, sc))
    decreases f, 1, s
  {
    hide Eval, ExecIf, ExecWhile, ExecFor, SafeE, SafeIf, SafeB, S.ErrE, S.ErrB, S.ErrIf, S.AssignErr, S.Define, Agree,
      OkEnv, HonestWorld, AssignVar, OfDefine, Still;
    StillNow(env, sc);
    match s
    case ExprStmt(_, e) => SoundE(w, f, d, e, env, sc);
    case Decl(_, immut, x, None) => SoundDecl(env, sc, x, NilV, immut);
    case Decl(_, immut, x, Some(e)) =>
      assert SafeOpt(s.init, |env|) && S.ErrOpt(s.init, sc).None?;
      SoundE(w, f, d, e, env, sc);
      var r := Eval(w, f, d, e, env);
      if r.Value? { SoundDecl(r.env, sc, x, r.v, immut); }
    case Assign(_, x, e) =>
      SoundE(w, f, d, e, env, sc);
      var r := Eval(w, f, d, e, env);
      if r.Value? {
        AssignSucceeds(r.env, sc, x, r.v);
        StillNow(AssignVar(r.env, x, r.v).value, sc);
      }
    case Return(_, None) =>
    case Return(_, Some(e)) =>
      assert SafeOpt(s.value, |env|) && S.ErrOpt(s.value, sc).None?;
      SoundE(w, f, d, e, env, sc);
    case If(chain) => SoundIf(w, f, d, chain, env, sc);
    case While(_, _, _) => SoundWhile(w, f, d, s, env, sc);
    case For(_, _, iter, _) => SoundForStmt(w, f, d, s, env, sc);
    case _ =>
  }

  lemma {:induction false} SoundSs(w: World, f: nat, d: nat, ss: seq<Stmt>, env: Env, sc: S.Scopes)
    requires PreS(w, env, sc, DeclaredIn(ss)) && SafeSs(ss, |env|) && S.ErrSs(ss, sc).None?
    ensures var o := ExecList(w, f, d, ss, env);
      Fine(o) && (o.Normal? || o.Broke? || o.Continued? ==> Still(o.env, |env|, sc)) && (o.Returned? ==> OkV(o.v))
    decreases f, 1, ss
  {
    hide Exec, SafeS, S.ErrS, Agree, OkEnv, HonestWorld, Still, S.After, S.Define, Declared;
    StillNow(env, sc);
    if ss != [] {
      SoundS(w, f, d, ss[0], env, sc);
      var h := Exec(w, f, d, ss[0], env);
      if h.Normal? {
        var sc1 := S.After(ss[0], sc);
        AfterFits(ss[0], sc, env, h.env);
        StillKeeps(h.env, |env|, sc);
        SoundSs(w, f, d, ss[1..], h.env, sc1);
        var o := ExecList(w, f, d, ss[1..], h.env);
        if o.Normal? || o.Broke? || o.Continued? { StillCut(o.env, |h.env|, sc1, |env|, sc); }
      }
    }
  }

  lemma StillKeeps(env1: Env, n: nat, sc: S.Scopes)
    requires Still(env1, n, sc)
    ensures OkEnv(env1)
  {
    hide Agree, OkEnv;
  }

  /** The scopes after a statement extend those before, with room for the rest. */
  lemma AfterFits(s: Stmt, sc: S.Scopes, env: Env, env1: Env)
    requires Agree(env, sc) && Agree(env1, S.After(s, sc)) && SafeS(s, |env|)
    requires |sc[|sc| - 1]| + Declared(s) <= S.MAX_SCOPE_VARS
    ensures var sc1 := S.After(s, sc);
      && Flat(sc) <= Flat(sc1) && |Flat(sc)| == NBUILTINS + |env|
      && |sc1[|sc1| - 1]| == |sc[|sc| - 1]| + Declared(s) && |env1| == |env| + Declared(s)
  {
    hide SafeE, SafeB, SafeIf, SafeFn, Flat;
    if s.Decl? { FlatDefine(sc, S.SemaVar(s.x, !s.immut, false, 0)); }
  }

  lemma {:induction false} SoundB(w: World, f: nat, d: nat, b: Block, env: Env, sc: S.Scopes)
    requires Pre(w, env, sc) && SafeB(b, |env|) && S.ErrB(b, sc).None?
    ensures var o := ExecBlock(w, f, d, b, env);
      && Fine(o) && (o.Normal? || o.Broke? || o.Continued? ==> Agree(o.env, sc) && OkEnv(o.env))
      && (o.Returned? ==> OkV(o.v))
    decreases f, 1, b
  {
    hide ExecList, SafeSs, S.ErrSs, Agree, HonestWorld, DeclaredIn;
    AgreeIs(env, sc);
    AgreePush(env, sc);
    SoundSs(w, f, d, b.stmts, env, sc + [[]]);
    var o := ExecList(w, f, d, b.stmts, env);
    if o.Normal? || o.Broke? || o.Continued? {
      AgreePush(o.env[..|env|], sc);
    }
  }

  lemma AgreeIs(env: Env, sc: S.Scopes)
    requires Agree(env, sc)
    ensures sc != []
  {
  }

  lemma {:induction false} SoundIf(w: World, f: nat, d: nat, c: IfChain, env: Env, sc: S.Scopes)
    requires Pre(w, env, sc) && SafeIf(c, |env|) && S.ErrIf(c, sc).None?
    ensures SoundStmt(ExecIf(w, f, d, c, env), |env|, sc, sc)
    decreases f, 1, c
  {
    hide Eval, ExecBlock, SafeE, SafeB, S.ErrE, S.ErrB, Agree, OkEnv, HonestWorld, Still;
    StillNow(env, sc);
    SoundE(w, f, d, c.cond, env, sc);
    var r := Eval(w, f, d, c.cond, env);
    if r.Value? {
      if Truthy(w, r.v) {
        SoundB(w, f, d, c.thn, env, sc);
        SameSize(w, f, d, c.thn, env, sc);
      } else {
        match c.els
        case NoElse =>
        case ElseBlock(b) =>
          SoundB(w, f, d, b, env, sc);
          SameSize(w, f, d, b, env, sc);
        case ElseIf(c1) => SoundIf(w, f, d, c1, env, sc);
      }
    }
  }

  /** Bindings that agree with the same scopes are equally many. */
  lemma SameSize(w: World, f: nat, d: nat, b: Block, env: Env, sc: S.Scopes)
    requires Agree(env, sc)
    ensures var o := ExecBlock(w, f, d, b, env);
      (o.Normal? || o.Broke? || o.Continued?) && Agree(o.env, sc) && OkEnv(o.env) ==> Still(o.env, |env|, sc)
  {
    hide ExecBlock, Flat, OkEnv;
    var o := ExecBlock(w, f, d, b, env);
    if (o.Normal? || o.Broke? || o.Continued?) && Agree(o.env, sc) && OkEnv(o.env) { StillNow(o.env, sc); }
  }

  lemma {:induction false} SoundWhile(w: World, f: nat, d: nat, s: Stmt, env: Env, sc: S.Scopes)
    requires s.While? && Pre(w, env, sc) && SafeE(s.cond, |env|) && SafeB(s.body, |env|) && S.ErrE(s.cond, sc).None?
    requires S.ErrB(s.body, sc).None?
    ensures SoundStmt(ExecWhile(w, f, d, s, env), |env|, sc, sc)
    decreases f, 1, s, 0
  {
    hide Eval, ExecBlock, SafeE, SafeB, S.ErrE, S.ErrB, Agree, OkEnv, HonestWorld, Still;
    StillNow(env, sc);
    if f > 0 {
      SoundE(w, f, d, s.cond, env, sc);
      var c := Eval(w, f, d, s.cond, env);
      if c.Value? && Truthy(w, c.v) {
        SoundB(w, f, d, s.body, env, sc);
        SameSize(w, f, d, s.body, env, sc);
        var r := ExecBlock(w, f, d, s.body, env);
        if r.Normal? || r.Continued? {
          EqualSize(env, r.env, sc);
          SoundWhile(w, f - 1, d, s, r.env, sc);
        }
      }
    }
  }

  lemma EqualSize(env: Env, env1: Env, sc: S.Scopes)
    requires Agree(env, sc) && Agree(env1, sc)
    ensures |env| == |env1|
  {
    hide Flat;
  }

  lemma {:induction false} SoundForStmt(w: World, f: nat, d: nat, s: Stmt, env: Env, sc: S.Scopes)
    requires s.For? && Pre(w, env, sc) && SafeS(s, |env|) && sc != [] && S.ErrS(s, sc).None?
    ensures SoundStmt(Exec(w, f, d, s, env), |env|, sc, sc)
    decreases f, 1, s, 1
  {
    hide Eval, ExecFor, SafeE, SafeB, S.ErrE, S.ErrB, Agree, OkEnv, HonestWorld, Still;
    SoundE(w, f, d, s.iter, env, sc);
    var r := Eval(w, f, d, s.iter, env);
    if r.Value? && r.v.ArrV? {
      assert OkVs(r.v.elems);
      SoundFor(w, f, d, s, r.v.elems, 0, env, sc);
    }
  }

  lemma {:induction false} SoundFor(w: World, f: nat, d: nat, s: Stmt, elems: seq<Val>, i: nat, env: Env, sc: S.Scopes)
    requires s.For? && i <= |elems| && Pre(w, env, sc) && sc != [] && SafeB(s.body, |env| + 1) && OkVs(elems)
    requires S.ErrB(s.body, S.Define(sc + [[]], S.SemaVar(s.x, false, false, 0))).None?
    ensures SoundStmt(ExecFor(w, f, d, s, elems, i, env), |env|, sc, sc)
    decreases f, 1, s, 0, |elems| - i
  {
    hide ExecBlock, SafeB, S.ErrB, Agree, HonestWorld, Still, S.Define;
    StillNow(env, sc);
    if i < |elems| && |env| < MAX_VARS {
      var v := S.SemaVar(s.x, false, false, 0);
      var b := Binding(s.x, elems[i], false);
      var sc1 := S.Define(sc + [[]], v);
      var env1 := env + [b];
      AgreePush(env, sc);
      AgreeDefine(env, sc + [[]], b, v);
      SoundB(w, f, d, s.body, env1, sc1);
      var r := ExecBlock(w, f, d, s.body, env1);
      if r.Normal? || r.Broke? || r.Continued? {
        LoopCut(env, sc, v, r.env, sc1);
        StillNow(r.env[..|env|], sc);
        if r.Normal? || r.Continued? {
          EqualSize(env, r.env[..|env|], sc);
          SoundFor(w, f, d, s, elems, i + 1, r.env[..|env|], sc);
        }
      }
    }
  }

  lemma LoopCut(env: Env, sc: S.Scopes, v: S.SemaVar, env1: Env, sc1: S.Scopes)
    requires Agree(env, sc) && sc != [] && sc1 == S.Define(sc + [[]], v) && Agree(env1, sc1) && OkEnv(env1)
    ensures |env| <= |env1| && Agree(env1[..|env|], sc) && OkEnv(env1[..|env|])
  {
    FlatPush(sc);
    FlatDefine(sc + [[]], v);
    AgreeCut(env1, sc1, |env|, sc);
  }

  // ----- the theorem -----

  /** An accepted program of this kind never reports an undefined variable or an
      assignment to an immutable one. */
  lemma CheckerSound(w: World, f: nat, ss: seq<Stmt>)
    requires HonestWorld(w) && SafeProgram(ss) && S.ProgramErr(ss).None?
    ensures Fine(ExecProgram(w, f, ss))
  {
    hide HonestWorld, SafeSs, S.ErrSs, ExecList, S.Builtins, S.Hoist;
    var sc := [S.Builtins()];
    NoHoist(ss, sc, 0);
    assert sc[..0] == [] && Flat(sc[..0]) == [];
    assert [] + S.Builtins() == S.Builtins();
    assert Flat(sc) == S.Builtins();
    SoundSs(w, f, 0, ss, [], sc);
  }

  lemma {:induction false} NoHoist(ss: seq<Stmt>, sc: S.Scopes, n: nat)
    requires SafeSs(ss, n) && sc != []
    ensures S.Hoist(ss, sc) == sc
    decreases |ss|
  {
    if ss != [] { NoHoist(ss[1..], sc, n + Declared(ss[0])); }
  }
}
