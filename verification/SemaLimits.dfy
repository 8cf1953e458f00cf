/** Where the scope checker and the run of a program part: a builtin used as a value, a
    scope that is full, and lambdas that captured nothing. */
module SemaLimits {
  import opened Ast
  import opened Values
  import opened Semantics
  import opened SemaSound
  import S = Semas

  // ----- where the premises matter -----

  /** A builtin used as a plain value is accepted and undefined at run time, and
      this is the only way an accepted name can be undefined. */
  lemma BuiltinAsValue(w: World, f: nat, d: nat, env: Env, sc: S.Scopes, x: string)
    requires Agree(env, sc)
    ensures (exists j: nat :: j < NBUILTINS && S.Builtins()[j].name == x) ==> S.ErrE(Ident(x), sc).None?
    ensures S.ErrE(Ident(x), sc).None? && BuiltinId(x).None? ==> Eval(w, f, d, Ident(x), env).Value?
    ensures Values.Lookup(env, x).None? ==> Eval(w, f, d, Ident(x), env) == Error(UndefinedVar)
  {
    hide S.Builtins, BuiltinId, OkEnv;
    LookupFlat(sc, x);
    var flat := Flat(sc);
    if j: nat :| j < NBUILTINS && S.Builtins()[j].name == x {
      assert flat[j] == flat[..NBUILTINS][j];
      FindHits(flat, x, j, |flat|);
    }
    if S.ErrE(Ident(x), sc).None? && BuiltinId(x).None? { FindAgrees(env, sc, x, |env|); }
  }

  lemma {:induction false} FindHits(vars: seq<S.SemaVar>, x: string, j: nat, n: nat)
    requires j < n <= |vars| && vars[j].name == x
    ensures S.FindIn(vars, x, n).Some?
    decreases n
  {
    if vars[n - 1].name != x { FindHits(vars, x, j, n - 1); }
  }

  /** In a full scope a new `let` is not recorded: an assignment to it is accepted
      on the strength of the variable it hides, and fails at run time. */
  lemma FullScopeMisleads(w: World, f: nat, d: nat, env: Env, sc: S.Scopes, x: string, n: nat)
    requires sc != [] && Agree(env, sc) && |sc[|sc| - 1]| == S.MAX_SCOPE_VARS && |env| < MAX_VARS
    requires S.Lookup(sc, x).Some? && S.Lookup(sc, x).value.mut
    ensures var ss := [Decl(n, true, x, Some(IntLit(0))), Assign(n, x, IntLit(1))];
      S.ErrSs(ss, sc).None? && ExecList(w, f, d, ss, env) == Error(ImmutableVar)
  {
    hide Agree, S.Lookup;
    var s1, s2 := Decl(n, true, x, Some(IntLit(0))), Assign(n, x, IntLit(1));
    var ss := [s1, s2];
    assert ss[1..] == [s2] && [s2][1..] == [];
    assert S.AssignErr(x, sc).None?;
    LetIsDropped(sc, s1);
    assert S.ErrS(s2, sc).None?;
    assert S.ErrSs([], S.After(s2, sc)).None?;
    assert S.ErrSs([s2], sc).None?;
    var env1 := env + [Binding(x, IntV(0), true)];
    assert Exec(w, f, d, s1, env) == Normal(env1);
    assert FindVar(env1, x, |env1|) == Some(|env|);
    assert Exec(w, f, d, s2, env1) == Error(ImmutableVar);
    assert ExecList(w, f, d, [s2], env1) == Error(ImmutableVar);
  }

  lemma LetIsDropped(sc: S.Scopes, s: Stmt)
    requires sc != [] && |sc[|sc| - 1]| == S.MAX_SCOPE_VARS
    requires s.Decl? && s.init == Some(IntLit(0))
    ensures S.ErrS(s, sc).None? && S.After(s, sc) == sc
  {
    assert S.ErrE(IntLit(0), sc).None?;
  }

  /** A declaration keeps checker and environment in step if and only if the innermost
      scope still records variables. */
  lemma DeclKeepsAgreeIff(env: Env, sc: S.Scopes, x: string, v: Val, immut: bool)
    requires Agree(env, sc) && |env| < MAX_VARS
    ensures Agree(DefineVar(env, x, v, immut).value, S.Define(sc, S.SemaVar(x, !immut, false, 0)))
      <==> |sc[|sc| - 1]| < S.MAX_SCOPE_VARS
  {
    if |sc[|sc| - 1]| < S.MAX_SCOPE_VARS {
      AgreeDefine(env, sc, Binding(x, v, immut), S.SemaVar(x, !immut, false, 0));
    }
  }

  // ----- a whole program that the checker misjudges -----

  const FILLER: Stmt := Decl(0, true, "y", Some(IntLit(0)))

  function Fill(n: nat): (r: seq<Stmt>)
    ensures |r| == n
  {
    seq(n, _ => FILLER)
  }

  /** n more declarations, recorded and run. */
  lemma {:induction false} FillKeeps(w: World, f: nat, n: nat, env: Env, sc: S.Scopes, x: string, rest: seq<Stmt>)
      returns (env1: Env, sc1: S.Scopes)
    requires sc != [] && Agree(env, sc) && |env| + n <= MAX_VARS && |sc[|sc| - 1]| + n <= S.MAX_SCOPE_VARS
    requires x != "y" && S.Lookup(sc, x).Some? && S.Lookup(sc, x).value.mut
    ensures sc1 != [] && Agree(env1, sc1) && |env1| == |env| + n && |sc1[|sc1| - 1]| == |sc[|sc| - 1]| + n
    ensures S.Lookup(sc1, x).Some? && S.Lookup(sc1, x).value.mut
    ensures S.ErrSs(Fill(n) + rest, sc) == S.ErrSs(rest, sc1)
    ensures ExecList(w, f, 0, Fill(n) + rest, env) == ExecList(w, f, 0, rest, env1)
    decreases n
  {
    hide FILLER, Agree, S.ErrS, S.ErrSs, S.After, S.Lookup, Exec, ExecList;
    if n == 0 {
      env1, sc1 := env, sc;
      assert Fill(0) + rest == rest;
    } else {
      var b, v := Binding("y", IntV(0), true), S.SemaVar("y", false, false, 0);
      var sc2 := S.Define(sc, v);
      FillStep(w, f, env, sc, x);
      AgreeDefine(env, sc, b, v);
      env1, sc1 := FillKeeps(w, f, n - 1, env + [b], sc2, x, rest);
      FillHead(w, f, n, rest, sc, env, sc2, env + [b]);
    }
  }

  lemma FillHead(w: World, f: nat, n: nat, rest: seq<Stmt>, sc: S.Scopes, env: Env, sc1: S.Scopes, env1: Env)
    requires n > 0 && sc != [] && S.ErrS(FILLER, sc).None? && S.After(FILLER, sc) == sc1
    requires Exec(w, f, 0, FILLER, env) == Normal(env1)
    ensures S.ErrSs(Fill(n) + rest, sc) == S.ErrSs(Fill(n - 1) + rest, sc1)
    ensures ExecList(w, f, 0, Fill(n) + rest, env) == ExecList(w, f, 0, Fill(n - 1) + rest, env1)
  {
    hide FILLER, S.ErrS, S.After, Exec;
    var ss := Fill(n) + rest;
    assert ss[0] == FILLER && ss[1..] == Fill(n - 1) + rest;
  }

  lemma FillStep(w: World, f: nat, env: Env, sc: S.Scopes, x: string)
    requires sc != [] && |env| < MAX_VARS && |sc[|sc| - 1]| < S.MAX_SCOPE_VARS && x != "y"
    ensures S.ErrS(FILLER, sc).None? && S.After(FILLER, sc) == S.Define(sc, S.SemaVar("y", false, false, 0))
    ensures Exec(w, f, 0, FILLER, env) == Normal(env + [Binding("y", IntV(0), true)])
    ensures S.Lookup(S.Define(sc, S.SemaVar("y", false, false, 0)), x) == S.Lookup(sc, x)
  {
    assert S.ErrE(IntLit(0), sc).None?;
    var last, v := sc[|sc| - 1], S.SemaVar("y", false, false, 0);
    var sc1 := S.Define(sc, v);
    assert sc1 == sc[..|sc| - 1] + [last + [v]];
    assert sc1[..|sc1| - 1] == sc[..|sc| - 1] && sc1[|sc1| - 1] == last + [v];
    FindPrefix(last, [v], x, |last|);
  }

  /** `var x = 0`, 216 other declarations, which with the builtins fill the outermost
      scope, `let x = 0` and `x = 1`. */
  function Misjudged(x: string): seq<Stmt> {
    [Decl(0, false, x, Some(IntLit(0)))] + (Fill(216) + [Decl(0, true, x, Some(IntLit(0))), Assign(0, x, IntLit(1))])
  }

  /** The checker accepts it, and it fails at run time. */
  lemma WholeProgramMisjudged(w: World, f: nat, x: string)
    requires x != "y"
    ensures S.ProgramErr(Misjudged(x)).None? && ExecProgram(w, f, Misjudged(x)) == Error(ImmutableVar)
  {
    hide S.Builtins, Misjudged, Agree, FILLER;
    var sc := [S.Builtins()];
    StartAgrees(sc);
    MisjudgedParts(x, sc);
    var first := Decl(0, false, x, Some(IntLit(0)));
    var last := [Decl(0, true, x, Some(IntLit(0))), Assign(0, x, IntLit(1))];
    var b, v := Binding(x, IntV(0), false), S.SemaVar(x, true, false, 0);
    FirstDecl(w, f, x, sc, first);
    AgreeDefine([], sc, b, v);
    var env1, sc1 := FillKeeps(w, f, 216, [] + [b], S.Define(sc, v), x, last);
    FullScopeMisleads(w, f, 0, env1, sc1, x, 0);
    var ss := Misjudged(x);
    assert ExecList(w, f, 0, ss, []) == ExecList(w, f, 0, Fill(216) + last, [b]);
    assert S.ErrSs(ss, sc) == S.ErrSs(Fill(216) + last, S.Define(sc, v));
  }

  lemma StartAgrees(sc: S.Scopes)
    requires sc == [S.Builtins()]
    ensures Agree([], sc)
  {
    hide S.Builtins;
    assert sc[..0] == [] && Flat(sc[..0]) == [];
    assert [] + S.Builtins() == S.Builtins();
  }

  lemma FirstDecl(w: World, f: nat, x: string, sc: S.Scopes, s: Stmt)
    requires sc == [S.Builtins()] && s == Decl(0, false, x, Some(IntLit(0)))
    ensures var v := S.SemaVar(x, true, false, 0); var sc1 := S.Define(sc, v);
      && S.ErrS(s, sc).None? && S.After(s, sc) == sc1 && |sc1[|sc1| - 1]| == NBUILTINS + 1
      && S.Lookup(sc1, x) == Some(v)
    ensures Exec(w, f, 0, s, []) == Normal([Binding(x, IntV(0), false)])
  {
    hide S.Builtins;
    assert S.ErrE(IntLit(0), sc).None?;
    assert [] + [Binding(x, IntV(0), false)] == [Binding(x, IntV(0), false)];
  }

  lemma MisjudgedParts(x: string, sc: S.Scopes)
    requires sc == [S.Builtins()]
    ensures var ss := Misjudged(x);
      && ss != [] && ss[0] == Decl(0, false, x, Some(IntLit(0)))
      && ss[1..] == Fill(216) + [Decl(0, true, x, Some(IntLit(0))), Assign(0, x, IntLit(1))]
      && S.Hoist(ss, sc) == sc
  {
    hide S.Builtins;
    var ss := Misjudged(x);
    var tail := Fill(216) + [Decl(0, true, x, Some(IntLit(0))), Assign(0, x, IntLit(1))];
    assert ss == [ss[0]] + tail;
    assert forall i :: 0 <= i < |tail| ==> tail[i].Decl? || tail[i].Assign?;
    HoistNone(ss, sc);
  }

  lemma {:induction false} HoistNone(ss: seq<Stmt>, sc: S.Scopes)
    requires sc != [] && forall s :: s in ss ==> !s.FnStmt?
    ensures S.Hoist(ss, sc) == sc
    decreases |ss|
  {
    if ss != [] { HoistNone(ss[1..], sc); }
  }

  // ----- a lambda that captured nothing -----

  /** It goes on in its caller's bindings.  `take` returns its parameter; `again` calls
      take, and then itself with the same two functions. */
  function Take(x: string): FnDecl { FnDecl("", [x], Block(0, [Return(0, Some(Ident(x)))])) }

  function Again(g: string, h: string): FnDecl {
    FnDecl("", [g, h],
      Block(0, [ExprStmt(0, Call(Ident(h), [IntLit(1)])), ExprStmt(0, Call(Ident(g), [Ident(g), Ident(h)]))]))
  }

  /** With 256 bindings there is no room for the parameter. */
  lemma TakeNeedsRoom(w: World, f: nat, d: nat, x: string, env: Env)
    requires f > 0 && d < MAX_CALL_DEPTH && |env| <= MAX_VARS && Values.Lookup(env, x).None?
    ensures Apply(w, f, d, FnV(Take(x), []), [IntV(1)], env) ==
      if |env| < MAX_VARS then Value(IntV(1), env) else Error(UndefinedVar)
  {
    var args := [IntV(1)];
    var env1 := BindParams(env, [x], args);
    if |env| < MAX_VARS {
      var b := Binding(x, IntV(1), true);
      BindNext(env, [x], args, b);
      NoParams(env + [b], [x][1..], args[1..]);
      assert env1 == env + [b];
      assert FindVar(env1, x, |env1|) == Some(|env|);
      assert env1[..|env|] == env;
    } else {
      NoRoom(env, [x], args);
    }
    TakeBody(w, f - 1, d + 1, x, env1);
    hide ExecBlock, BindParams;
    assert CallBase(FnV(Take(x), []), env) == env;
  }

  lemma TakeBody(w: World, f: nat, d: nat, x: string, env: Env)
    ensures var v := Values.Lookup(env, x);
      ExecBlock(w, f, d, Take(x).body, env) == if v.Some? then Returned(v.value, env) else Error(UndefinedVar)
  {
    hide Values.Lookup;
    var body := Take(x).body;
    var s := body.stmts[0];
    assert body.stmts[1..] == [];
    assert Eval(w, f, d, Ident(x), env) ==
      (var v := Values.Lookup(env, x); if v.None? then Error(UndefinedVar) else Value(v.value, env));
    assert Exec(w, f, d, s, env) ==
      (var v := Values.Lookup(env, x); if v.Some? then Returned(v.value, env) else Error(UndefinedVar));
  }

  ghost predicate HasBoth(env: Env, g: string, h: string, x: string) {
    && Values.Lookup(env, g) == Some(FnV(Again(g, h), [])) && Values.Lookup(env, h) == Some(FnV(Take(x), []))
    && Values.Lookup(env, x).None?
  }

  lemma BindBoth(env: Env, g: string, h: string, x: string)
    requires HasBoth(env, g, h, x) && g != h && g != x && h != x && |env| < MAX_VARS
    ensures var env1 := BindParams(env, [g, h], [FnV(Again(g, h), []), FnV(Take(x), [])]);
      HasBoth(env1, g, h, x) && |env| < |env1| <= MAX_VARS
  {
    hide FindVar;
    var vg, vh := FnV(Again(g, h), []), FnV(Take(x), []);
    var params, args := [g, h], [vg, vh];
    assert params[1..] == [h] && args[1..] == [vh] && params[1..][1..] == [] && args[1..][1..] == [];
    var env1 := env + [Binding(g, vg, true)];
    BindNext(env, params, args, Binding(g, vg, true));
    DefineIs(env, g, vg, true);
    if |env1| < MAX_VARS {
      BindNext(env1, [h], [vh], Binding(h, vh, true));
      DefineIs(env1, h, vh, true);
      NoParams(env1 + [Binding(h, vh, true)], [h][1..], [vh][1..]);
    } else {
      NoRoom(env1, [h], [vh]);
    }
  }

  lemma CallNamed(w: World, f: nat, d: nat, name: string, args: seq<Expr>, env: Env, fv: Val, vs: seq<Val>)
    requires BuiltinId(name).None? && Values.Lookup(env, name) == Some(fv)
    requires EvalList(w, f, d, args, env) == Values(vs, env)
    ensures Eval(w, f, d, Call(Ident(name), args), env) == Apply(w, f, d, fv, vs, env)
  {
    hide BuiltinId, EvalList, Apply, Values.Lookup;
    assert Eval(w, f, d, Ident(name), env) == Value(fv, env);
  }

  lemma OneArg(w: World, f: nat, d: nat, env: Env)
    ensures EvalList(w, f, d, [IntLit(1)], env) == Values([IntV(1)], env)
  {
    assert [IntLit(1)][1..] == [];
  }

  lemma TwoArgs(w: World, f: nat, d: nat, a: Expr, b: Expr, env: Env, u: Val, v: Val)
    requires Eval(w, f, d, a, env) == Value(u, env) && Eval(w, f, d, b, env) == Value(v, env)
    ensures EvalList(w, f, d, [a, b], env) == Values([u, v], env)
  {
    hide Eval;
    assert [a, b][1..] == [b] && [b][1..] == [];
    assert EvalList(w, f, d, [], env) == Values([], env);
    assert EvalList(w, f, d, [b], env) == Values([v] + [], env);
    assert [v] + [] == [v] && [u] + [v] == [u, v];
  }

  /** Every call leaves fewer bindings free, until one is missing. */
  lemma {:induction false} RoomRunsOut(w: World, f: nat, d: nat, g: string, h: string, x: string, env: Env)
    requires BuiltinId(g).None? && BuiltinId(h).None? && g != h && g != x && h != x && HasBoth(env, g, h, x)
    requires |env| <= MAX_VARS && f + |env| > MAX_VARS && d + (MAX_VARS - |env|) < MAX_CALL_DEPTH
    ensures ExecBlock(w, f, d, Again(g, h).body, env) == Error(UndefinedVar)
    decreases MAX_VARS - |env|
  {
    hide BuiltinId, Apply, Eval, BindParams, FindVar;
    var body := Again(g, h).body;
    var s1, s2 := body.stmts[0], body.stmts[1];
    assert body.stmts == [s1, s2] && body.stmts[1..] == [s2];
    var vg, vh := FnV(Again(g, h), []), FnV(Take(x), []);
    OneArg(w, f, d, env);
    CallNamed(w, f, d, h, [IntLit(1)], env, vh, [IntV(1)]);
    TakeNeedsRoom(w, f, d, x, env);
    if |env| < MAX_VARS {
      NameEval(w, f, d, g, env, vg);
      NameEval(w, f, d, h, env, vh);
      TwoArgs(w, f, d, Ident(g), Ident(h), env, vg, vh);
      CallNamed(w, f, d, g, [Ident(g), Ident(h)], env, vg, [vg, vh]);
      BindBoth(env, g, h, x);
      RoomRunsOut(w, f - 1, d + 1, g, h, x, BindParams(env, [g, h], [vg, vh]));
      ApplyAgain(w, f, d, g, h, x, env);
      SecondFails(w, f, d, s1, s2, env);
    } else {
      FirstFails(w, f, d, s1, s2, env);
    }
  }

  lemma NameEval(w: World, f: nat, d: nat, name: string, env: Env, v: Val)
    requires Values.Lookup(env, name) == Some(v)
    ensures Eval(w, f, d, Ident(name), env) == Value(v, env)
  {
  }

  lemma ApplyAgain(w: World, f: nat, d: nat, g: string, h: string, x: string, env: Env)
    requires f > 0 && d < MAX_CALL_DEPTH
    requires var vs := [FnV(Again(g, h), []), FnV(Take(x), [])];
      ExecBlock(w, f - 1, d + 1, Again(g, h).body, BindParams(env, [g, h], vs)) == Error(UndefinedVar)
    ensures Apply(w, f, d, FnV(Again(g, h), []), [FnV(Again(g, h), []), FnV(Take(x), [])], env) == Error(UndefinedVar)
  {
    hide ExecBlock, BindParams;
  }

  lemma FirstFails(w: World, f: nat, d: nat, s1: Stmt, s2: Stmt, env: Env)
    requires s1.ExprStmt? && Eval(w, f, d, s1.e, env) == Error(UndefinedVar)
    ensures ExecBlock(w, f, d, Block(0, [s1, s2]), env) == Error(UndefinedVar)
  {
    hide Eval;
    assert Exec(w, f, d, s1, env) == Error(UndefinedVar);
    assert ExecList(w, f, d, [s1, s2], env) == Error(UndefinedVar);
  }

  lemma SecondFails(w: World, f: nat, d: nat, s1: Stmt, s2: Stmt, env: Env)
    requires s1.ExprStmt? && s2.ExprStmt? && Eval(w, f, d, s1.e, env).Value? && Eval(w, f, d, s1.e, env).env == env
    requires Eval(w, f, d, s2.e, env) == Error(UndefinedVar)
    ensures ExecBlock(w, f, d, Block(0, [s1, s2]), env) == Error(UndefinedVar)
  {
    hide Eval;
    assert [s1, s2][1..] == [s2];
    assert Exec(w, f, d, s1, env) == Normal(env) && Exec(w, f, d, s2, env) == Error(UndefinedVar);
    assert ExecList(w, f, d, [s2], env) == Error(UndefinedVar);
    assert ExecList(w, f, d, [s1, s2], env) == Error(UndefinedVar);
  }

  /** `let p = [again, take]` and `p[0](p[0], p[1])`. */
  function RunsOut(p: string, g: string, h: string, x: string): seq<Stmt> {
    [Decl(0, true, p, Some(ArrayLit([Lambda(Again(g, h)), Lambda(Take(x))]))),
     ExprStmt(0, Call(Part(p, 0), [Part(p, 0), Part(p, 1)]))]
  }

  function Part(p: string, i: nat): Expr { Index(Ident(p), IntLit(i)) }

  function BothVals(g: string, h: string, x: string): seq<Val> { [FnV(Again(g, h), []), FnV(Take(x), [])] }

  lemma PartEval(w: World, f: nat, d: nat, p: string, vs: seq<Val>, i: nat, env: Env)
    requires Values.Lookup(env, p) == Some(ArrV(vs)) && i < |vs| <= 2
    ensures Eval(w, f, d, Part(p, i), env) == Value(vs[i], env)
  {
    hide Values.Lookup;
    assert Eval(w, f, d, Ident(p), env) == Value(ArrV(vs), env);
    assert Eval(w, f, d, IntLit(i), env) == Value(IntV(i), env);
    assert TreeIndex(ArrV(vs), IntV(i)) == Ok(vs[i]);
  }

  lemma StartBoth(p: string, g: string, h: string, x: string, env: Env, vs: seq<Val>)
    requires vs == BothVals(g, h, x) && env == [Binding(p, ArrV(vs), true)]
    requires p != g && p != h && p != x && g != h && g != x && h != x
    ensures var env1 := BindParams(env, [g, h], vs); HasBoth(env1, g, h, x) && |env1| == 3
  {
    hide FindVar;
    var params := [g, h];
    assert params[1..] == [h] && vs[1..] == [vs[1]] && params[1..][1..] == [] && vs[1..][1..] == [];
    DefineIs([], p, ArrV(vs), true);
    assert [] + [Binding(p, ArrV(vs), true)] == env;
    BindNext(env, params, vs, Binding(g, vs[0], true));
    DefineIs(env, g, vs[0], true);
    var env1 := env + [Binding(g, vs[0], true)];
    BindNext(env1, [h], [vs[1]], Binding(h, vs[1], true));
    DefineIs(env1, h, vs[1], true);
    NoParams(env1 + [Binding(h, vs[1], true)], [h][1..], [vs[1]][1..]);
    NotBound(x);
  }

  lemma NotBound(x: string)
    ensures Values.Lookup([], x).None?
  {
  }

  lemma BothMade(w: World, f: nat, d: nat, g: string, h: string, x: string)
    ensures Eval(w, f, d, ArrayLit([Lambda(Again(g, h)), Lambda(Take(x))]), []) == Value(ArrV(BothVals(g, h, x)), [])
  {
    TwoArgs(w, f, d, Lambda(Again(g, h)), Lambda(Take(x)), [], FnV(Again(g, h), []), FnV(Take(x), []));
  }

  /** The run ends in an undefined variable. */
  lemma RunsOutFails(w: World, f: nat, p: string, g: string, h: string, x: string)
    requires BuiltinId(g).None? && BuiltinId(h).None? && BuiltinId(p).None? && f >= MAX_VARS
    requires p != g && p != h && p != x && g != h && g != x && h != x
    ensures ExecProgram(w, f, RunsOut(p, g, h, x)) == Error(UndefinedVar)
  {
    hide BuiltinId, Apply, BindParams, FindVar, ExecBlock, Again, Take, TreeIndex;
    var ss := RunsOut(p, g, h, x);
    var vs := BothVals(g, h, x);
    var env := [Binding(p, ArrV(vs), true)];
    assert ss[1..] == [ss[1]] && [ss[1]][1..] == [];
    BothMade(w, f, 0, g, h, x);
    assert [] + env == env;
    assert Exec(w, f, 0, ss[0], []) == Normal(env);
    OnlyBinding(p, ArrV(vs), env);
    StartBoth(p, g, h, x, env, vs);
    RoomRunsOut(w, f - 1, 1, g, h, x, BindParams(env, [g, h], vs));
    ApplyAgain(w, f, 0, g, h, x, env);
    hide Eval;
    CallParts(w, f, 0, p, env, vs);
    assert ExecList(w, f, 0, [ss[1]], env) == Error(UndefinedVar);
  }

  lemma CallParts(w: World, f: nat, d: nat, p: string, env: Env, vs: seq<Val>)
    requires |vs| == 2 && Values.Lookup(env, p) == Some(ArrV(vs))
    ensures Eval(w, f, d, Call(Part(p, 0), [Part(p, 0), Part(p, 1)]), env) == Apply(w, f, d, vs[0], vs, env)
  {
    hide Values.Lookup, Apply, Eval, EvalList;
    PartEval(w, f, d, p, vs, 0, env);
    PartEval(w, f, d, p, vs, 1, env);
    TwoArgs(w, f, d, Part(p, 0), Part(p, 1), env, vs[0], vs[1]);
    assert vs == [vs[0], vs[1]];
    CallPart(w, f, d, Part(p, 0), [Part(p, 0), Part(p, 1)], env, vs[0], vs);
  }

  lemma OnlyBinding(p: string, v: Val, env: Env)
    requires env == [Binding(p, v, true)]
    ensures Values.Lookup(env, p) == Some(v)
  {
  }

  lemma CallPart(w: World, f: nat, d: nat, callee: Expr, args: seq<Expr>, env: Env, fv: Val, vs: seq<Val>)
    requires !callee.Ident? && Eval(w, f, d, callee, env) == Value(fv, env)
    requires EvalList(w, f, d, args, env) == Values(vs, env)
    ensures Eval(w, f, d, Call(callee, args), env) == Apply(w, f, d, fv, vs, env)
  {
    hide Apply, EvalList;
  }

  /** The scopes in which a body with these parameters is checked. */
  function BodyScopes(sc: S.Scopes, vars: seq<S.SemaVar>): S.Scopes { (sc + [vars]) + [[]] }

  lemma FindParam(sc: S.Scopes, vars: seq<S.SemaVar>, name: string)
    requires (exists v :: v in vars && v.name == name) && forall v :: v in vars ==> !v.isFn
    ensures var r := S.Lookup(BodyScopes(sc, vars), name); r.Some? && !r.value.isFn
  {
    var all := BodyScopes(sc, vars);
    assert all[..|all| - 1] == sc + [vars] && all[|all| - 1] == [];
    var inner := sc + [vars];
    assert inner[|inner| - 1] == vars;
    FindFound(vars, name, |vars|);
    assert S.LookupLocal([], name).None?;
  }

  lemma {:induction false} FindFound(vars: seq<S.SemaVar>, name: string, n: nat)
    requires n <= |vars| && forall v :: v in vars ==> !v.isFn
    ensures var r := S.FindIn(vars, name, n);
      (r.Some? <==> exists i :: 0 <= i < n && vars[i].name == name) && (r.Some? ==> !r.value.isFn)
    decreases n
  {
    if n > 0 { FindFound(vars, name, n - 1); }
  }

  lemma CallAccepted(sc: S.Scopes, name: string, args: seq<Expr>)
    requires S.Lookup(sc, name).Some? && !S.Lookup(sc, name).value.isFn && S.ErrEs(args, sc).None?
    ensures S.ErrE(Call(Ident(name), args), sc).None?
  {
    hide S.Lookup, S.ErrEs;
    assert S.ErrE(Ident(name), sc).None?;
  }

  lemma ArgsAccepted(sc: S.Scopes, a: Expr, b: Expr)
    requires S.ErrE(a, sc).None? && S.ErrE(b, sc).None?
    ensures S.ErrEs([a, b], sc).None? && S.ErrEs([a], sc).None?
  {
    hide S.ErrE;
    assert [a, b][1..] == [b] && [b][1..] == [] && [a][1..] == [];
    assert S.ErrEs([], sc).None? && S.ErrEs([b], sc).None?;
  }

  lemma StmtsAccepted(sc: S.Scopes, s1: Stmt, s2: Stmt)
    requires sc != [] && s1.ExprStmt? && s2.ExprStmt? && S.ErrE(s1.e, sc).None? && S.ErrE(s2.e, sc).None?
    ensures S.ErrSs([s1, s2], sc).None?
  {
    hide S.ErrE;
    assert [s1, s2][1..] == [s2] && [s2][1..] == [];
    assert S.ErrSs([], sc).None? && S.ErrSs([s2], sc).None?;
  }

  lemma AgainAccepted(g: string, h: string, sc: S.Scopes)
    requires sc != []
    ensures S.ErrE(Lambda(Again(g, h)), sc).None?
  {
    hide S.Lookup, S.Define;
    var vars := [S.SemaVar(g, false, false, 0), S.SemaVar(h, false, false, 0)];
    var all := BodyScopes(sc, vars);
    ParamScopes(sc, g, h);
    assert vars[0] in vars && vars[1] in vars;
    FindParam(sc, vars, g);
    FindParam(sc, vars, h);
    assert S.ErrE(Ident(g), all).None? && S.ErrE(Ident(h), all).None? && S.ErrE(IntLit(1), all).None?;
    ArgsAccepted(all, IntLit(1), IntLit(1));
    ArgsAccepted(all, Ident(g), Ident(h));
    CallAccepted(all, h, [IntLit(1)]);
    CallAccepted(all, g, [Ident(g), Ident(h)]);
    var body := Again(g, h).body.stmts;
    StmtsAccepted(all, body[0], body[1]);
    assert body == [body[0], body[1]];
    hide S.ErrSs;
    assert S.ErrB(Again(g, h).body, S.DefineParams(sc + [[]], [g, h])) == S.ErrSs(body, all);
  }

  lemma ParamScopes(sc: S.Scopes, g: string, h: string)
    requires sc != []
    ensures S.DefineParams(sc + [[]], [g, h]) == sc + [[S.SemaVar(g, false, false, 0), S.SemaVar(h, false, false, 0)]]
    ensures S.DefineParams(sc + [[]], [g]) == sc + [[S.SemaVar(g, false, false, 0)]]
  {
    var vg, vh := S.SemaVar(g, false, false, 0), S.SemaVar(h, false, false, 0);
    assert [g, h][1..] == [h] && [h][1..] == [] && [g][1..] == [];
    var sc1 := S.Define(sc + [[]], vg);
    assert (sc + [[]])[..|sc|] == sc && [] + [vg] == [vg];
    assert sc1 == sc + [[vg]];
    assert sc1[..|sc1| - 1] == sc && [vg] + [vh] == [vg, vh];
    assert S.Define(sc1, vh) == sc + [[vg, vh]];
    assert S.DefineParams(sc1, []) == sc1 && S.DefineParams(sc1, [h]) == S.DefineParams(S.Define(sc1, vh), []);
  }

  lemma TakeAccepted(x: string, sc: S.Scopes)
    requires sc != []
    ensures S.ErrE(Lambda(Take(x)), sc).None?
  {
    hide S.Lookup, S.Define;
    var vars := [S.SemaVar(x, false, false, 0)];
    var all := BodyScopes(sc, vars);
    ParamScopes(sc, x, x);
    assert vars[0] in vars;
    FindParam(sc, vars, x);
    assert S.ErrE(Ident(x), all).None?;
    var body := Take(x).body.stmts;
    assert S.ErrS(body[0], all) == S.ErrOpt(Some(Ident(x)), all);
    assert body[1..] == [] && S.ErrSs([], S.After(body[0], all)).None?;
    assert S.ErrB(Take(x).body, S.DefineParams(sc + [[]], [x])) == S.ErrSs(body, all);
  }

  /** And the checker accepts the program. */
  lemma RunsOutAccepted(p: string, g: string, h: string, x: string)
    ensures S.ProgramErr(RunsOut(p, g, h, x)).None?
  {
    hide S.Builtins, Again, Take;
    var sc := [S.Builtins()];
    var ss := RunsOut(p, g, h, x);
    HoistNone(ss, sc);
    AgainAccepted(g, h, sc);
    TakeAccepted(x, sc);
    ArgsAccepted(sc, Lambda(Again(g, h)), Lambda(Take(x)));
    var sc1 := S.Define(sc, S.SemaVar(p, false, false, 0));
    NewName(p, sc, sc1);
    PartAccepted(p, 0, sc1);
    PartAccepted(p, 1, sc1);
    ArgsAccepted(sc1, Part(p, 0), Part(p, 1));
    hide S.Lookup, S.ErrEs, Part, S.Define;
    CallPartAccepted(Part(p, 0), [Part(p, 0), Part(p, 1)], sc1);
    assert ss == [ss[0], ss[1]];
    TwoAccepted(ss[0], ss[1], sc, sc1);
  }

  lemma NewName(p: string, sc: S.Scopes, sc1: S.Scopes)
    requires sc == [S.Builtins()] && sc1 == S.Define(sc, S.SemaVar(p, false, false, 0))
    ensures S.Lookup(sc1, p).Some? && sc1 != []
  {
    hide S.Builtins;
    assert sc1 == [S.Builtins() + [S.SemaVar(p, false, false, 0)]];
  }

  lemma TwoAccepted(s1: Stmt, s2: Stmt, sc: S.Scopes, sc1: S.Scopes)
    requires sc != [] && s1.Decl? && s1.init.Some? && s2.ExprStmt? && S.ErrE(s1.init.value, sc).None?
    requires sc1 == S.Define(sc, S.SemaVar(s1.x, !s1.immut, false, 0)) && sc1 != [] && S.ErrE(s2.e, sc1).None?
    ensures S.ErrSs([s1, s2], sc).None?
  {
    hide S.ErrE, S.Define;
    assert [s1, s2] == [s1] + [s2] && [s2][1..] == [];
    assert S.ErrSs([], S.After(s2, sc1)).None?;
    assert S.ErrSs([s2], sc1).None?;
    assert S.After(s1, sc) == sc1;
    assert S.ErrOpt(s1.init, sc).None?;
    assert S.ErrS(s1, sc).None?;
    FirstThen(s1, [s2], sc, sc1);
  }

  lemma FirstThen(s: Stmt, rest: seq<Stmt>, sc: S.Scopes, sc1: S.Scopes)
    requires sc != [] && sc1 != [] && S.ErrS(s, sc).None? && S.After(s, sc) == sc1 && S.ErrSs(rest, sc1).None?
    ensures S.ErrSs([s] + rest, sc).None?
  {
    hide S.ErrS, S.After;
    assert ([s] + rest)[0] == s && ([s] + rest)[1..] == rest;
  }

  lemma PartAccepted(p: string, i: nat, sc: S.Scopes)
    requires S.Lookup(sc, p).Some?
    ensures S.ErrE(Part(p, i), sc).None?
  {
    assert S.ErrE(Ident(p), sc).None? && S.ErrE(IntLit(i), sc).None?;
  }

  lemma CallPartAccepted(callee: Expr, args: seq<Expr>, sc: S.Scopes)
    requires !callee.Ident? && S.ErrE(callee, sc).None? && S.ErrEs(args, sc).None?
    ensures S.ErrE(Call(callee, args), sc).None?
  {
    hide S.ErrEs;
  }
}
