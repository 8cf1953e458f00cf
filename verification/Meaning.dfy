/** What programs mean, told by what they return: which branch is taken, what loops, scopes,
    calls and closures do, and the same through the compiled code. */
module Meanings {
  import opened Ast
  import opened Values
  import opened Semantics
  import opened Bytecode
  import opened CodeGen
  import opened Machine
  import opened Reach
  import opened Fragment
  import opened Simulation
  import opened Correctness
  import opened Operators

  // ----- what counts as false -----

  /** false, nil, 0, a float that equals 0, a string without a byte, an empty array or
      map, and an err; everything else is true. */
  predicate Falsy(w: World, v: Val) {
    || v == BoolV(false) || v == NilV || v == IntV(0) || v == StrV("") || v == ArrV([]) || v == MapV([])
    || (v.FloatV? && w.fEq(v.f, w.ofInt(0))) || (v.ResV? && !v.ok)
  }

  /** An if runs its block unless the condition is false. */
  lemma IfTakes(w: World, f: nat, d: nat, c: IfChain, env: Env, v: Val, env1: Env)
    requires Eval(w, f, d, c.cond, env) == Value(v, env1)
    ensures ExecIf(w, f, d, c, env) == (
      if !Falsy(w, v) then ExecBlock(w, f, d, c.thn, env1)
      else if c.els.ElseBlock? then ExecBlock(w, f, d, c.els.block, env1)
      else if c.els.ElseIf? then ExecIf(w, f, d, c.els.chain, env1)
      else Normal(env1))
  {
    hide Eval, ExecBlock;
  }

  /** A while runs its body unless the condition is false, and then itself again; break
      ends it, continue does not. */
  lemma WhileTakes(w: World, f: nat, d: nat, s: Stmt, env: Env, v: Val, env1: Env)
    requires s.While? && f > 0 && Eval(w, f, d, s.cond, env) == Value(v, env1)
    ensures var r := ExecBlock(w, f, d, s.body, env1);
      ExecWhile(w, f, d, s, env) == (
        if Falsy(w, v) then Normal(env1)
        else if r.Broke? then Normal(r.env)
        else if r.Normal? || r.Continued? then ExecWhile(w, f - 1, d, s, r.env)
        else r)
  {
    hide Eval, ExecBlock;
  }

  /** JUMP_IF_FALSE jumps exactly when the top value is false, and JUMP_IF_TRUE when it is
      not; both take it off. */
  lemma JumpTakes(w: World, p: Prog, when: bool, off: nat, ip: nat, s: State)
    requires off < 65536 && s.stack != []
    ensures var n := |s.stack| - 1;
      Step(w, p, JumpIf(when, off), ip, s)
      == Next(if Falsy(w, s.stack[n]) != when then ip + off else ip, State(s.stack[..n], s.env, s.frames))
  {
  }

  // ----- through the compiler and the machine -----

  /** Some run of the compiled program ends with v on top, and no run ends otherwise. */
  ghost predicate Shows(w: World, ss: seq<Stmt>, v: Val) {
    && (exists n: nat :: ShowsIn(w, n, ss, v))
    && (forall n: nat :: Run(w, n, Compiled(ss), 0, START).OutOfFuel? || ShowsIn(w, n, ss, v))
  }

  ghost predicate ShowsIn(w: World, n: nat, ss: seq<Stmt>, v: Val) {
    var r := Run(w, n, Compiled(ss), 0, START);
    r.Halted? && r.st.stack != [] && r.st.stack[|r.st.stack| - 1] == v
  }

  ghost predicate Raises(w: World, ss: seq<Stmt>, e: Err) {
    && (exists n: nat :: Run(w, n, Compiled(ss), 0, START) == Faulted(Raised(e)))
    && (forall n: nat :: var r := Run(w, n, Compiled(ss), 0, START); r.OutOfFuel? || r == Faulted(Raised(e)))
  }

  lemma Shown(w: World, f: nat, ss: seq<Stmt>)
    requires GoodWorld(w) && CoreProgram(ss) && NeedSs(ss) <= 1024
    ensures var o := ExecProgram(w, f, ss);
      (o.Returned? ==> Shows(w, ss, o.v)) && (o.Error? ==> Raises(w, ss, o.err))
  {
    hide Run, ExecProgram, CoreProgram, GoodWorld, NeedSs, Compiled;
    var o := ExecProgram(w, f, ss);
    ProgramSim(true, w, f, ss);
    if o.Returned? || o.Error? {
      var p := Compiled(ss);
      var r :| Matches(o, r) && Ends(true, w, p, 0, START, r);
      forall n: nat ensures Run(w, n, p, 0, START).OutOfFuel? || Run(w, n, p, 0, START) == r {
        YieldsRun(w, p, 0, START, r, n);
      }
      var m: nat :| Run(w, m, p, 0, START) == r;
      if o.Returned? { assert ShowsIn(w, m, ss, o.v); }
    }
  }

  // ----- steps of evaluation -----

  lemma ListStep(w: World, f: nat, d: nat, s: Stmt, rest: seq<Stmt>, env: Env)
    ensures var r := Exec(w, f, d, s, env);
      ExecList(w, f, d, [s] + rest, env) == if r.Normal? then ExecList(w, f, d, rest, r.env) else r
    ensures ExecList(w, f, d, [], env) == Normal(env)
  {
    hide Exec;
    assert ([s] + rest)[1..] == rest;
  }

  lemma OneStmt(w: World, f: nat, d: nat, s: Stmt, env: Env)
    ensures ExecList(w, f, d, [s], env) == Exec(w, f, d, s, env)
  {
    hide Exec;
    assert [s] + [] == [s];
    ListStep(w, f, d, s, [], env);
  }

  lemma BinaryStep(w: World, f: nat, d: nat, op: BinOp, l: Expr, r: Expr, env: Env, a: Val, b: Val)
    requires Eval(w, f, d, l, env) == Value(a, env) && Eval(w, f, d, r, env) == Value(b, env)
    ensures Eval(w, f, d, Binary(op, l, r), env) == OfRes(TreeBinary(w, op, a, b), env)
  {
    hide TreeBinary;
  }

  function Give(e: Expr): Stmt { Return(0, Some(e)) }

  lemma GiveIs(w: World, f: nat, d: nat, e: Expr, env: Env, v: Val)
    requires Eval(w, f, d, e, env) == Value(v, env)
    ensures Exec(w, f, d, Give(e), env) == Returned(v, env)
    ensures ExecBlock(w, f, d, Block(0, [Give(e)]), env) == Returned(v, env)
  {
    hide Eval;
    OneStmt(w, f, d, Give(e), env);
  }

  lemma ProgramIs(w: World, f: nat, ss: seq<Stmt>)
    ensures var r := ExecList(w, f, 0, ss, []);
      ExecProgram(w, f, ss) == if r.Normal? then Returned(NilV, r.env) else r
  {
  }

  // ----- a branch -----

  /** `if a op b { return x }` and then `return y` */
  function Choose(op: BinOp, a: int, b: int, x: int, y: int): seq<Stmt> {
    [If(IfChain(0, Binary(op, IntLit(a), IntLit(b)), Block(0, [Give(IntLit(x))]), NoElse)), Give(IntLit(y))]
  }

  lemma ChooseMeans(w: World, f: nat, op: BinOp, a: int, b: int, x: int, y: int)
    requires IsComparison(op)
    ensures ExecProgram(w, f, Choose(op, a, b, x, y))
      == Returned(IntV(if Compares(op, a < b, a == b) then x else y), [])
  {
    hide Eval, Exec, ExecIf, TreeBinary, Falsy, ExecBlock;
    var chain := IfChain(0, Binary(op, IntLit(a), IntLit(b)), Block(0, [Give(IntLit(x))]), NoElse);
    var s := If(chain);
    var c := Compares(op, a < b, a == b);
    IntIs(w, f, a);
    IntIs(w, f, b);
    IntIs(w, f, x);
    IntIs(w, f, y);
    IntOperators(w, a, b);
    BinaryStep(w, f, 0, op, IntLit(a), IntLit(b), [], IntV(a), IntV(b));
    assert Falsy(w, BoolV(c)) <==> !c by { hide *; BoolFalsy(w, c); }
    IfTakes(w, f, 0, chain, [], BoolV(c), []);
    GiveIs(w, f, 0, IntLit(x), [], IntV(x));
    GiveIs(w, f, 0, IntLit(y), [], IntV(y));
    IfStmtIs(w, f, chain);
    assert Choose(op, a, b, x, y) == [s] + [Give(IntLit(y))];
    ListStep(w, f, 0, s, [Give(IntLit(y))], []);
    OneStmt(w, f, 0, Give(IntLit(y)), []);
  }

  lemma BoolFalsy(w: World, c: bool)
    ensures Falsy(w, BoolV(c)) <==> !c
  {
  }

  lemma IntIs(w: World, f: nat, n: int)
    ensures Eval(w, f, 0, IntLit(n), []) == Value(IntV(n), [])
  {
  }

  lemma IfStmtIs(w: World, f: nat, chain: IfChain)
    ensures Exec(w, f, 0, If(chain), []) == ExecIf(w, f, 0, chain, [])
  {
  }

  // ----- how long its code is, and what stack it needs -----

  lemma NextSize(s: Stmt, rest: seq<Stmt>, k: nat, l: Loop, bvc: nat, outer: nat, top: bool)
    ensures CoreSs([s] + rest, l.kind, bvc, outer)
      <==> CoreS(s, l.kind, bvc, outer) && CoreSs(rest, l.kind, bvc + Declared(s), outer)
    ensures var c := |CodeS(s, k, l, bvc, top)|;
      |CodeSs([s] + rest, k, l, bvc, top)|
      == c + |CodeSs(rest, k + |ConstsS(s)|, Shift(l, c), bvc + Declared(s), top)|
    ensures |ConstsSs([s] + rest)| == |ConstsS(s)| + |ConstsSs(rest)|
    ensures NeedSs([s] + rest) == Max(NeedS(s), NeedSs(rest))
    ensures DeclaredIn([s] + rest) == Declared(s) + DeclaredIn(rest)
  {
    hide CoreS, CodeS, ConstsS, NeedS, Declared;
    var ss := [s] + rest;
    assert ss[0] == s && ss[1..] == rest;
  }

  lemma NoSize(k: nat, l: Loop, bvc: nat, outer: nat, top: bool)
    ensures CoreSs([], l.kind, bvc, outer) && CodeSs([], k, l, bvc, top) == [] && ConstsSs([]) == []
    ensures NeedSs([]) == 0 && DeclaredIn([]) == 0
  {
  }

  lemma GiveSize(n: int, k: nat, l: Loop, bvc: nat, outer: nat, top: bool)
    ensures var s := Give(IntLit(n));
      CoreS(s, l.kind, bvc, outer) && NeedS(s) == 1 && |CodeS(s, k, l, bvc, top)| == 7 && |ConstsS(s)| == 1
    ensures Declared(Give(IntLit(n))) == 0
  {
  }

  lemma GivesSize(n: int, k: nat, l: Loop, bvc: nat, outer: nat, top: bool)
    ensures var ss := [Give(IntLit(n))];
      && CoreSs(ss, l.kind, bvc, outer) && |CodeSs(ss, k, l, bvc, top)| == 7 && |ConstsSs(ss)| == 1
      && NeedSs(ss) == 1 && DeclaredIn(ss) == 0
  {
    hide CoreS, CodeS, ConstsS, NeedS, Declared, CoreSs, CodeSs, ConstsSs, NeedSs, DeclaredIn, Give;
    var s := Give(IntLit(n));
    assert [s] + [] == [s];
    GiveSize(n, k, l, bvc, outer, top);
    NoSize(k + 1, Shift(l, 7), bvc, outer, top);
    NextSize(s, [], k, l, bvc, outer, top);
  }

  lemma BlockSize(n: int, k: nat, l: Loop, outer: nat, top: bool)
    ensures var b := Block(0, [Give(IntLit(n))]);
      CoreB(b, l.kind, outer) && |CodeB(b, k, l, top)| == 10 && |ConstsB(b)| == 1
  {
    hide CoreSs, CodeSs, ConstsSs, NeedSs, DeclaredIn, Give;
    GivesSize(n, k, Shift(l, 3), 0, outer, top);
  }

  lemma IfSize(c: IfChain, k: nat, l: Loop, bvc: nat, outer: nat, top: bool)
    requires c.els.NoElse? && CoreE(c.cond) && CoreB(c.thn, l.kind, outer + bvc)
    ensures var n := |CodeE(c.cond, k)|;
      |CodeS(If(c), k, l, bvc, top)|
      == 6 + n + |CodeB(c.thn, k + |ConstsE(c.cond)|, Shift(l, 3 + n + 3), top)|
    ensures CoreS(If(c), l.kind, bvc, outer) && Declared(If(c)) == 0
    ensures |ConstsS(If(c))| == |ConstsE(c.cond)| + |ConstsB(c.thn)|
    ensures NeedS(If(c)) == Max(NeedE(c.cond), NeedSs(c.thn.stmts))
  {
    hide CoreE, CodeE, ConstsE, NeedE, CoreB, CodeB, ConstsB, NeedSs;
    var n := |CodeE(c.cond, k)|;
    var k1 := k + |ConstsE(c.cond)|;
    var thn := CodeB(c.thn, k1, Shift(l, 3 + n + 3), top);
    assert CodeElse(c.els, k1 + |ConstsB(c.thn)|, Shift(l, 3 + n + 3 + |thn|), top) == [] && ConstsElse(c.els) == [];
    assert CodeS(If(c), k, l, bvc, top) == CodeIf(c, k, l, top) && ConstsS(If(c)) == ConstsIf(c);
    hide CodeS, ConstsS, CodeElse, ConstsElse;
  }

  lemma CondSize(op: BinOp, a: int, b: int, k: nat)
    requires IsComparison(op)
    ensures var e := Binary(op, IntLit(a), IntLit(b));
      CoreE(e) && NeedE(e) == 2 && |ConstsE(e)| == 2 && |CodeE(e, k)| == 7
  {
  }

  lemma ChooseFits(op: BinOp, a: int, b: int, x: int, y: int)
    requires IsComparison(op)
    ensures CoreProgram(Choose(op, a, b, x, y)) && NeedSs(Choose(op, a, b, x, y)) <= 1024
  {
    hide CoreE, CodeE, ConstsE, NeedE, CoreS, CodeS, ConstsS, NeedS, Declared, CoreSs, CodeSs, ConstsSs, NeedSs, CoreB,
      CodeB, ConstsB, Give;
    var chain := IfChain(0, Binary(op, IntLit(a), IntLit(b)), Block(0, [Give(IntLit(x))]), NoElse);
    var rest := [Give(IntLit(y))];
    assert Choose(op, a, b, x, y) == [If(chain)] + rest;
    CondSize(op, a, b, 0);
    BlockSize(x, 2, Shift(TOP, 13), 0, true);
    GivesSize(x, 0, TOP, 0, 0, true);
    IfSize(chain, 0, TOP, 0, 0, true);
    GivesSize(y, 3, Shift(TOP, |CodeS(If(chain), 0, TOP, 0, true)|), 0, 0, true);
    NextSize(If(chain), rest, 0, TOP, 0, 0, true);
  }

  /** Through the compiler and the machine the program shows x exactly when the comparison
      holds, and y otherwise. */
  lemma ChooseShows(w: World, op: BinOp, a: int, b: int, x: int, y: int)
    requires GoodWorld(w) && IsComparison(op)
    ensures Shows(w, Choose(op, a, b, x, y), IntV(if Compares(op, a < b, a == b) then x else y))
    ensures op == Lt ==> Shows(w, Choose(op, a, b, x, y), IntV(if a < b then x else y))
  {
    hide GoodWorld, Shows, CoreProgram, NeedSs, ExecProgram, Choose;
    ChooseMeans(w, 0, op, a, b, x, y);
    ChooseFits(op, a, b, x, y);
    Shown(w, 0, Choose(op, a, b, x, y));
  }

  // ----- names in place -----

  /** The innermost binding is found, and looked past for other names. */
  lemma LastFound(env: Env, b: Binding, y: string)
    ensures Lookup(env + [b], y) == if y == b.name then Some(b.value) else Lookup(env, y)
  {
    var all := env + [b];
    assert all[|env|] == b;
    if y != b.name {
      assert FindVar(all, y, |all|) == FindVar(all, y, |env|);
      FindSame(env, all, y, |env|);
    }
  }

  lemma LastAssigned(env: Env, b: Binding, y: string, v: Val)
    ensures AssignVar(env + [b], y, v)
      == if y == b.name then (if b.immut then Fail(ImmutableVar) else Ok(env + [Binding(y, v, false)]))
         else match AssignVar(env, y, v)
              case Ok(e) => Ok(e + [b])
              case Fail(err) => Fail(err)
  {
    var all := env + [b];
    assert all[|env|] == b;
    if y == b.name {
      assert all[|env| := b.(value := v)] == env + [b.(value := v)];
    } else {
      assert FindVar(all, y, |all|) == FindVar(all, y, |env|);
      FindSame(env, all, y, |env|);
      var i := FindVar(env, y, |env|);
      if i.Some? {
        var k := i.value;
        assert all[k := all[k].(value := v)] == env[k := env[k].(value := v)] + [b];
      }
    }
  }

  function Mutable(x: string, v: Val): Binding { Binding(x, v, false) }

  lemma NamedIs(w: World, f: nat, d: nat, x: string, env: Env, v: Val)
    requires Lookup(env, x) == Some(v)
    ensures Eval(w, f, d, Ident(x), env) == Value(v, env)
  {
    hide Lookup;
  }

  lemma NumberIs(w: World, f: nat, d: nat, n: int, env: Env)
    ensures Eval(w, f, d, IntLit(n), env) == Value(IntV(n), env)
  {
  }

  lemma DeclIs(w: World, f: nat, d: nat, immut: bool, x: string, e: Expr, env: Env, v: Val)
    requires Eval(w, f, d, e, env) == Value(v, env) && |env| < 256
    ensures Exec(w, f, d, Decl(0, immut, x, Some(e)), env) == Normal(env + [Binding(x, v, immut)])
  {
    hide Eval;
  }

  lemma AssignIs(w: World, f: nat, d: nat, x: string, e: Expr, env: Env, v: Val)
    requires Eval(w, f, d, e, env) == Value(v, env)
    ensures var r := AssignVar(env, x, v);
      Exec(w, f, d, Assign(0, x, e), env) == if r.Ok? then Normal(r.value) else Error(r.err)
  {
    hide Eval, AssignVar;
  }

  // ----- a loop that counts -----

  /** `while i < n { i = i + 1 }` */
  function CountLoop(i: string, n: int): Stmt {
    While(0, Binary(Lt, Ident(i), IntLit(n)), Block(0, [Assign(0, i, Binary(Add, Ident(i), IntLit(1)))]))
  }

  /** `var i = 0`, the loop, and `return i` */
  function Count(i: string, n: int): seq<Stmt> {
    [Decl(0, false, i, Some(IntLit(0))), CountLoop(i, n), Give(Ident(i))]
  }

  lemma TurnCounts(w: World, f: nat, i: string, n: int, m: int)
    ensures var env := [Mutable(i, IntV(m))]; var s := CountLoop(i, n);
      && Eval(w, f, 0, s.cond, env) == Value(BoolV(m < n), env)
      && ExecBlock(w, f, 0, s.body, env) == Normal([Mutable(i, IntV(m + 1))])
  {
    hide Lookup, AssignVar, Eval, Exec, ExecList, TreeBinary;
    var b := Mutable(i, IntV(m));
    var env := [b];
    assert [] + [b] == env;
    LastFound([], b, i);
    NamedIs(w, f, 0, i, env, IntV(m));
    NumberIs(w, f, 0, n, env);
    NumberIs(w, f, 0, 1, env);
    IntOperators(w, m, n);
    IntOperators(w, m, 1);
    BinaryStep(w, f, 0, Lt, Ident(i), IntLit(n), env, IntV(m), IntV(n));
    BinaryStep(w, f, 0, Add, Ident(i), IntLit(1), env, IntV(m), IntV(1));
    var e := Binary(Add, Ident(i), IntLit(1));
    LastAssigned([], b, i, IntV(m + 1));
    AssignIs(w, f, 0, i, e, env, IntV(m + 1));
    OneStmt(w, f, 0, Assign(0, i, e), env);
    assert [] + [Mutable(i, IntV(m + 1))] == [Mutable(i, IntV(m + 1))];
  }

  lemma {:induction false} LoopCounts(w: World, f: nat, i: string, n: int, m: int)
    requires m <= n && f > n - m
    ensures ExecWhile(w, f, 0, CountLoop(i, n), [Mutable(i, IntV(m))]) == Normal([Mutable(i, IntV(n))])
    decreases n - m
  {
    hide Eval, ExecBlock, Falsy, ExecWhile;
    var env := [Mutable(i, IntV(m))];
    TurnCounts(w, f, i, n, m);
    BoolFalsy(w, m < n);
    WhileTakes(w, f, 0, CountLoop(i, n), env, BoolV(m < n), env);
    if m < n { LoopCounts(w, f - 1, i, n, m + 1); }
  }

  /** The program counts up to n, and not past it. */
  lemma CountMeans(w: World, f: nat, i: string, n: int)
    requires f > 0 && f > n
    ensures var r := IntV(if n > 0 then n else 0); ExecProgram(w, f, Count(i, n)) == Returned(r, [Mutable(i, r)])
  {
    hide Eval, Exec, ExecWhile, ExecList, Lookup, ExecBlock, Falsy;
    var m := if n > 0 then n else 0;
    var start, end := [Mutable(i, IntV(0))], [Mutable(i, IntV(m))];
    NumberIs(w, f, 0, 0, []);
    DeclIs(w, f, 0, false, i, IntLit(0), [], IntV(0));
    assert [] + start == start && [] + end == end;
    if n >= 0 {
      LoopCounts(w, f, i, n, 0);
    } else {
      TurnCounts(w, f, i, n, 0);
      BoolFalsy(w, false);
      WhileTakes(w, f, 0, CountLoop(i, n), start, BoolV(false), start);
    }
    WhileStmtIs(w, f, CountLoop(i, n), start);
    LastFound([], Mutable(i, IntV(m)), i);
    NamedIs(w, f, 0, i, end, IntV(m));
    GiveIs(w, f, 0, Ident(i), end, IntV(m));
    ThreeStmts(w, f, 0, Decl(0, false, i, Some(IntLit(0))), CountLoop(i, n), Give(Ident(i)), [], start, end);
    ProgramIs(w, f, Count(i, n));
  }

  lemma WhileStmtIs(w: World, f: nat, s: Stmt, env: Env)
    requires s.While?
    ensures Exec(w, f, 0, s, env) == ExecWhile(w, f, 0, s, env)
  {
  }

  lemma TwoStmts(w: World, f: nat, d: nat, a: Stmt, b: Stmt, env: Env, env1: Env)
    requires Exec(w, f, d, a, env) == Normal(env1)
    ensures ExecList(w, f, d, [a, b], env) == Exec(w, f, d, b, env1)
  {
    hide Exec;
    assert [a, b] == [a] + [b];
    ListStep(w, f, d, a, [b], env);
    OneStmt(w, f, d, b, env1);
  }

  lemma ThreeStmts(w: World, f: nat, d: nat, a: Stmt, b: Stmt, c: Stmt, env: Env, env1: Env, env2: Env)
    requires Exec(w, f, d, a, env) == Normal(env1) && Exec(w, f, d, b, env1) == Normal(env2)
    ensures ExecList(w, f, d, [a, b, c], env) == Exec(w, f, d, c, env2)
  {
    hide Exec;
    assert [a, b, c] == [a] + [b, c];
    ListStep(w, f, d, a, [b, c], env);
    TwoStmts(w, f, d, b, c, env1, env2);
  }

  // ----- a loop over an array that skips and stops -----

  function Lits(ns: seq<int>): (r: seq<Expr>)
    ensures |r| == |ns|
  {
    if ns == [] then [] else [IntLit(ns[0])] + Lits(ns[1..])
  }

  function Ints(ns: seq<int>): (r: seq<Val>)
    ensures |r| == |ns| && forall i :: 0 <= i < |ns| ==> r[i] == IntV(ns[i])
  {
    if ns == [] then [] else [IntV(ns[0])] + Ints(ns[1..])
  }

  lemma {:induction false} LitsAre(w: World, f: nat, d: nat, ns: seq<int>, env: Env)
    ensures EvalList(w, f, d, Lits(ns), env) == Values(Ints(ns), env)
    decreases |ns|
  {
    hide Eval;
    if ns != [] {
      NumberIs(w, f, d, ns[0], env);
      LitsAre(w, f, d, ns[1..], env);
      assert Lits(ns)[0] == IntLit(ns[0]) && Lits(ns)[1..] == Lits(ns[1..]);
    }
  }

  /** The sum up to the first k, without the numbers m. */
  function SumTill(ns: seq<int>, k: int, m: int): int {
    if ns == [] || ns[0] == k then 0
    else if ns[0] == m then SumTill(ns[1..], k, m)
    else ns[0] + SumTill(ns[1..], k, m)
  }

  function When(x: string, k: int, s: Stmt): Stmt {
    If(IfChain(0, Binary(BinOp.Eq, Ident(x), IntLit(k)), Block(0, [s]), NoElse))
  }

  function SumBody(x: string, s: string, k: int, m: int): Block {
    Block(0, [When(x, k, Break(0)), When(x, m, Continue(0)), Assign(0, s, Binary(Add, Ident(s), Ident(x)))])
  }

  /** `for x in [...] { if x == k { break } if x == m { continue } s = s + x }` */
  function SumLoop(x: string, s: string, ns: seq<int>, k: int, m: int): Stmt {
    For(0, x, ArrayLit(Lits(ns)), SumBody(x, s, k, m))
  }

  /** `var s = 0`, the loop, and `return s` */
  function Sum(x: string, s: string, ns: seq<int>, k: int, m: int): seq<Stmt> {
    [Decl(0, false, s, Some(IntLit(0))), SumLoop(x, s, ns, k, m), Give(Ident(s))]
  }

  /** Where the sum is t and the element n. */
  function SumEnv(x: string, s: string, t: int, n: int): Env { [Mutable(s, IntV(t)), Mutable(x, IntV(n))] }

  lemma SumNames(x: string, s: string, t: int, n: int)
    requires x != s
    ensures var env := SumEnv(x, s, t, n); Lookup(env, x) == Some(IntV(n)) && Lookup(env, s) == Some(IntV(t))
    ensures forall u :: AssignVar(SumEnv(x, s, t, n), s, IntV(u)) == Ok(SumEnv(x, s, u, n))
  {
    hide Lookup, AssignVar;
    var a, b := Mutable(s, IntV(t)), Mutable(x, IntV(n));
    assert SumEnv(x, s, t, n) == [a] + [b] && [a] == [] + [a];
    LastFound([a], b, x);
    LastFound([a], b, s);
    LastFound([], a, s);
    forall u ensures AssignVar(SumEnv(x, s, t, n), s, IntV(u)) == Ok(SumEnv(x, s, u, n)) {
      LastAssigned([a], b, s, IntV(u));
      LastAssigned([], a, s, IntV(u));
      assert [] + [Mutable(s, IntV(u))] + [b] == SumEnv(x, s, u, n);
    }
  }

  /** A block that breaks or goes on when the element is k. */
  lemma WhenIs(w: World, f: nat, x: string, k: int, s: Stmt, env: Env, n: int)
    requires (s == Break(0) || s == Continue(0)) && Lookup(env, x) == Some(IntV(n))
    ensures Exec(w, f, 0, When(x, k, s), env)
      == if n != k then Normal(env) else if s == Break(0) then Broke(env) else Continued(env)
  {
    hide Lookup, Eval, ExecIf, Falsy, TreeBinary;
    var cond := Binary(BinOp.Eq, Ident(x), IntLit(k));
    NamedIs(w, f, 0, x, env, IntV(n));
    NumberIs(w, f, 0, k, env);
    IntOperators(w, n, k);
    BinaryStep(w, f, 0, BinOp.Eq, Ident(x), IntLit(k), env, IntV(n), IntV(k));
    BoolFalsy(w, n == k);
    var chain := IfChain(0, cond, Block(0, [s]), NoElse);
    IfTakes(w, f, 0, chain, env, BoolV(n == k), env);
    OneStmt(w, f, 0, s, env);
    assert env[..|env|] == env;
  }

  lemma SumTurn(w: World, f: nat, x: string, s: string, t: int, n: int, k: int, m: int)
    requires x != s
    ensures var env := SumEnv(x, s, t, n);
      ExecBlock(w, f, 0, SumBody(x, s, k, m), env)
      == if n == k then Broke(env) else if n == m then Continued(env) else Normal(SumEnv(x, s, t + n, n))
  {
    hide Lookup, AssignVar, Exec, Eval, ExecList, TreeBinary, SumEnv, When;
    var env := SumEnv(x, s, t, n);
    SumNames(x, s, t, n);
    assert |env| == 2 && |SumEnv(x, s, t + n, n)| == 2 by { SumSize(x, s, t, n); SumSize(x, s, t + n, n); }
    var stop, skip := When(x, k, Break(0)), When(x, m, Continue(0));
    var e := Binary(Add, Ident(s), Ident(x));
    var add := Assign(0, s, e);
    WhenIs(w, f, x, k, Break(0), env, n);
    WhenIs(w, f, x, m, Continue(0), env, n);
    NamedIs(w, f, 0, x, env, IntV(n));
    NamedIs(w, f, 0, s, env, IntV(t));
    IntOperators(w, t, n);
    BinaryStep(w, f, 0, Add, Ident(s), Ident(x), env, IntV(t), IntV(n));
    AssignIs(w, f, 0, s, e, env, IntV(t + n));
    assert [stop, skip, add] == [stop] + [skip, add] && [skip, add] == [skip] + [add];
    ListStep(w, f, 0, stop, [skip, add], env);
    ListStep(w, f, 0, skip, [add], env);
    OneStmt(w, f, 0, add, env);
    assert env[..2] == env && SumEnv(x, s, t + n, n)[..2] == SumEnv(x, s, t + n, n);
  }

  lemma SumSize(x: string, s: string, t: int, n: int)
    ensures |SumEnv(x, s, t, n)| == 2
  {
  }

  lemma ForTakes(w: World, f: nat, s: Stmt, elems: seq<Val>, i: nat, env: Env)
    requires s.For? && i < |elems| && |env| < 256
    ensures var r := Leave(ExecBlock(w, f, 0, s.body, env + [Mutable(s.x, elems[i])]), |env|);
      ExecFor(w, f, 0, s, elems, i, env) == (
        if r.Broke? then Normal(r.env)
        else if r.Normal? || r.Continued? then ExecFor(w, f, 0, s, elems, i + 1, r.env)
        else r)
  {
    hide ExecBlock;
  }

  lemma {:induction false} LoopSums(w: World, f: nat, x: string, s: string, ns: seq<int>, i: nat, k: int, m: int,
      t: int)
    requires x != s && i <= |ns|
    ensures ExecFor(w, f, 0, SumLoop(x, s, ns, k, m), Ints(ns), i, [Mutable(s, IntV(t))])
      == Normal([Mutable(s, IntV(t + SumTill(ns[i..], k, m)))])
    decreases |ns| - i
  {
    hide ExecBlock, ExecFor, SumBody;
    if i < |ns| {
      var n := ns[i];
      var env := [Mutable(s, IntV(t))];
      assert env + [Mutable(x, IntV(n))] == SumEnv(x, s, t, n);
      assert SumEnv(x, s, t, n)[..1] == env && SumEnv(x, s, t + n, n)[..1] == [Mutable(s, IntV(t + n))];
      assert ns[i..][0] == n && ns[i..][1..] == ns[i + 1..];
      SumTurn(w, f, x, s, t, n, k, m);
      ForTakes(w, f, SumLoop(x, s, ns, k, m), Ints(ns), i, env);
      if n != k { LoopSums(w, f, x, s, ns, i + 1, k, m, if n == m then t else t + n); }
    } else {
      ForEnds(w, f, SumLoop(x, s, ns, k, m), Ints(ns), [Mutable(s, IntV(t))]);
    }
  }

  lemma ForEnds(w: World, f: nat, s: Stmt, elems: seq<Val>, env: Env)
    requires s.For?
    ensures ExecFor(w, f, 0, s, elems, |elems|, env) == Normal(env)
  {
  }

  /** The program adds the elements in order, skips those that are m, and stops at the
      first k. */
  lemma SumMeans(w: World, f: nat, x: string, s: string, ns: seq<int>, k: int, m: int)
    requires x != s
    ensures var r := IntV(SumTill(ns, k, m)); ExecProgram(w, f, Sum(x, s, ns, k, m)) == Returned(r, [Mutable(s, r)])
  {
    hide Eval, Exec, ExecFor, ExecList, EvalList, Lookup, ExecBlock, Lits, SumTill, SumBody;
    var r := IntV(SumTill(ns, k, m));
    var start, end := [Mutable(s, IntV(0))], [Mutable(s, r)];
    var loop := SumLoop(x, s, ns, k, m);
    NumberIs(w, f, 0, 0, []);
    DeclIs(w, f, 0, false, s, IntLit(0), [], IntV(0));
    assert [] + start == start && [] + end == end && ns[0..] == ns;
    LitsAre(w, f, 0, ns, start);
    ArrayIs(w, f, 0, Lits(ns), start, Ints(ns));
    ForStmtIs(w, f, loop, start, Ints(ns));
    LoopSums(w, f, x, s, ns, 0, k, m, 0);
    LastFound([], Mutable(s, r), s);
    NamedIs(w, f, 0, s, end, r);
    GiveIs(w, f, 0, Ident(s), end, r);
    ThreeStmts(w, f, 0, Decl(0, false, s, Some(IntLit(0))), loop, Give(Ident(s)), [], start, end);
    ProgramIs(w, f, Sum(x, s, ns, k, m));
  }

  lemma ArrayIs(w: World, f: nat, d: nat, es: seq<Expr>, env: Env, vs: seq<Val>)
    requires EvalList(w, f, d, es, env) == Values(vs, env)
    ensures Eval(w, f, d, ArrayLit(es), env) == Value(ArrV(vs), env)
  {
    hide EvalList;
  }

  lemma ForStmtIs(w: World, f: nat, s: Stmt, env: Env, vs: seq<Val>)
    requires s.For? && Eval(w, f, 0, s.iter, env) == Value(ArrV(vs), env)
    ensures Exec(w, f, 0, s, env) == ExecFor(w, f, 0, s, vs, 0, env)
  {
    hide Eval, ExecFor;
  }

  /** An element of an array literal is the one at its place, counted from 0. */
  lemma ElementMeans(w: World, f: nat, d: nat, ns: seq<int>, i: int, env: Env)
    requires -0x8000_0000 <= i < 0x8000_0000
    ensures Eval(w, f, d, Index(ArrayLit(Lits(ns)), IntLit(i)), env)
      == if 0 <= i < |ns| then Value(IntV(ns[i]), env) else Error(OutOfBounds)
  {
    hide EvalList, Lits, Ints, TreeIndex;
    LitsAre(w, f, d, ns, env);
    ArrayIs(w, f, d, Lits(ns), env, Ints(ns));
    NumberIs(w, f, d, i, env);
    ElementIs(Ints(ns), i);
    IntsAt(ns);
  }

  lemma IntsAt(ns: seq<int>)
    ensures |Ints(ns)| == |ns| && forall i :: 0 <= i < |ns| ==> Ints(ns)[i] == IntV(ns[i])
  {
  }

  // ----- calls -----

  lemma CallIs(w: World, f: nat, d: nat, name: string, args: seq<Expr>, env: Env, fv: Val, vs: seq<Val>)
    requires BuiltinId(name).None? && Lookup(env, name) == Some(fv)
    requires EvalList(w, f, d, args, env) == Values(vs, env)
    ensures Eval(w, f, d, Call(Ident(name), args), env) == Apply(w, f, d, fv, vs, env)
  {
    hide BuiltinId, Lookup, Apply, EvalList;
    NamedIs(w, f, d, name, env, fv);
  }

  /** What is called is a function, with as many arguments as it has parameters, in no more
      than 512 calls in one another. */
  lemma CallErrors(w: World, f: nat, d: nat, fv: Val, args: seq<Val>, env: Env)
    ensures !fv.FnV? ==> Apply(w, f, d, fv, args, env) == Error(NotCallable)
    ensures fv.FnV? && |fv.decl.params| != |args| ==> Apply(w, f, d, fv, args, env) == Error(BadArity)
    ensures fv.FnV? && |fv.decl.params| == |args| && d >= 512 ==> Apply(w, f, d, fv, args, env) == Error(CallDepth)
    ensures d < 512 ==> Apply(w, f, d, fv, args, env) != Error(CallDepth) || (fv.FnV? && |fv.decl.params| == |args|)
  {
    hide ExecBlock;
  }

  /** A body that gives back an expression. */
  function Fn(name: string, params: seq<string>, e: Expr): FnDecl { FnDecl(name, params, Block(0, [Give(e)])) }

  lemma ApplyGives(w: World, f: nat, d: nat, decl: FnDecl, e: Expr, captured: Env, args: seq<Val>, env: Env, v: Val)
    requires f > 0 && d < 512 && decl == Fn(decl.fname, decl.params, e) && |decl.params| == |args|
    requires var env1 := BindParams(if captured == [] then env else captured, decl.params, args);
      Eval(w, f - 1, d + 1, e, env1) == Value(v, env1)
    ensures Apply(w, f, d, FnV(decl, captured), args, env) == Value(v, env)
  {
    hide Eval, ExecBlock;
    var env1 := BindParams(if captured == [] then env else captured, decl.params, args);
    GiveIs(w, f - 1, d + 1, e, env1, v);
    Kept(env, decl.params, args);
  }

  lemma {:induction false} Kept(env: Env, params: seq<string>, args: seq<Val>)
    requires |params| == |args|
    ensures var env1 := BindParams(env, params, args); |env| <= |env1| && env1[..|env|] == env
    decreases |params|
  {
    if params != [] {
      var d := DefineVar(env, params[0], args[0], true);
      var env0 := if d.Ok? then d.value else env;
      Kept(env0, params[1..], args[1..]);
      var env1 := BindParams(env, params, args);
      assert env1[..|env|] == env1[..|env0|][..|env|];
    }
  }

  lemma TwoParams(env: Env, p: string, q: string, a: Val, b: Val)
    requires |env| < 255
    ensures BindParams(env, [p, q], [a, b]) == env + [Binding(p, a, true)] + [Binding(q, b, true)]
  {
    hide BindParams;
    var e1 := env + [Binding(p, a, true)];
    assert [p, q][1..] == [q] && [a, b][1..] == [b] && [q][1..] == [] && [b][1..] == [];
    BindNext(env, [p, q], [a, b], Binding(p, a, true));
    BindNext(e1, [q], [b], Binding(q, b, true));
    NoParams(e1 + [Binding(q, b, true)], [], []);
  }

  /** `fn g(p, q) { return p - q }` and `return g(a, b)` */
  function Minus(g: string, p: string, q: string, a: int, b: int): seq<Stmt> {
    [FnStmt(0, Fn(g, [p, q], Binary(Sub, Ident(p), Ident(q)))), Give(Call(Ident(g), Lits([a, b])))]
  }

  /** Arguments go to the parameters in their order. */
  lemma MinusMeans(w: World, f: nat, g: string, p: string, q: string, a: int, b: int)
    requires f > 0 && BuiltinId(g).None? && p != q
    ensures var o := ExecProgram(w, f, Minus(g, p, q, a, b)); o.Returned? && o.v == IntV(a - b)
  {
    hide Eval, Exec, ExecList, EvalList, Lookup, Apply, BuiltinId, TreeBinary, BindParams, Lits;
    var e := Binary(Sub, Ident(p), Ident(q));
    var decl := Fn(g, [p, q], e);
    var fv := FnV(decl, []);
    var env := [Binding(g, fv, true)];
    TopFnIs(w, f, decl);
    assert [] + env == env && Ints([a, b]) == [IntV(a), IntV(b)] by { IntsAt([a, b]); }
    LastFound([], env[0], g);
    LitsAre(w, f, 0, [a, b], env);
    CallIs(w, f, 0, g, Lits([a, b]), env, fv, [IntV(a), IntV(b)]);
    TwoParams(env, p, q, IntV(a), IntV(b));
    var x, y := Binding(p, IntV(a), true), Binding(q, IntV(b), true);
    LastFound(env + [x], y, p);
    LastFound(env + [x], y, q);
    LastFound(env, x, p);
    var env1 := env + [x] + [y];
    NamedIs(w, f - 1, 1, p, env1, IntV(a));
    NamedIs(w, f - 1, 1, q, env1, IntV(b));
    IntOperators(w, a, b);
    BinaryStep(w, f - 1, 1, Sub, Ident(p), Ident(q), env1, IntV(a), IntV(b));
    ApplyGives(w, f, 0, decl, e, [], [IntV(a), IntV(b)], env, IntV(a - b));
    var call := Call(Ident(g), Lits([a, b]));
    GiveIs(w, f, 0, call, env, IntV(a - b));
    TwoStmts(w, f, 0, FnStmt(0, decl), Give(call), [], env);
    ProgramIs(w, f, Minus(g, p, q, a, b));
  }

  lemma TopFnIs(w: World, f: nat, decl: FnDecl)
    ensures Exec(w, f, 0, FnStmt(0, decl), []) == Normal([Binding(decl.fname, FnV(decl, []), true)])
  {
    assert [] + [Binding(decl.fname, FnV(decl, []), true)] == [Binding(decl.fname, FnV(decl, []), true)];
  }

  // ----- what a function sees of the variables around it -----

  /** `var x = a`, then g, which gives back x, then `x = b` and `return g()` */
  function Capture(closure: bool, x: string, g: string, a: int, b: int): seq<Stmt> {
    [Decl(0, false, x, Some(IntLit(a)))]
    + ([if closure then Decl(0, true, g, Some(Lambda(Fn("", [], Ident(x))))) else FnStmt(0, Fn(g, [], Ident(x)))]
       + [Assign(0, x, IntLit(b)), Give(Call(Ident(g), []))])
  }

  /** A lambda holds the values of its place; a function of the main program looks its
      names up when it is called. */
  lemma CaptureMeans(w: World, f: nat, closure: bool, x: string, g: string, a: int, b: int)
    requires f > 0 && x != g && BuiltinId(g).None?
    ensures var o := ExecProgram(w, f, Capture(closure, x, g, a, b));
      o.Returned? && o.v == IntV(if closure then a else b)
  {
    hide Eval, Exec, ExecList, EvalList, Lookup, Apply, BuiltinId, AssignVar;
    var decl := Fn(if closure then "" else g, [], Ident(x));
    var e1, e2 := [Mutable(x, IntV(a))], [Mutable(x, IntV(b))];
    var fv := FnV(decl, if closure then e1 else []);
    var bind := Binding(g, fv, true);
    var make := if closure then Decl(0, true, g, Some(Lambda(decl))) else FnStmt(0, decl);
    NumberIs(w, f, 0, a, []);
    DeclIs(w, f, 0, false, x, IntLit(a), [], IntV(a));
    assert [] + e1 == e1 && [] + e2 == e2;
    MakeIs(w, f, closure, g, decl, e1, fv);
    NumberIs(w, f, 0, b, e1 + [bind]);
    LastAssigned(e1, bind, x, IntV(b));
    LastAssigned([], e1[0], x, IntV(b));
    AssignIs(w, f, 0, x, IntLit(b), e1 + [bind], IntV(b));
    var env := e2 + [bind];
    LastFound(e2, bind, g);
    LastFound(e2, bind, x);
    LastFound([], e2[0], x);
    LastFound([], e1[0], x);
    NoArgs(w, f, env);
    CallIs(w, f, 0, g, [], env, fv, []);
    var v := IntV(if closure then a else b);
    NamedIs(w, f - 1, 1, x, if closure then e1 else env, v);
    ApplyGives(w, f, 0, decl, Ident(x), fv.captured, [], env, v);
    GiveIs(w, f, 0, Call(Ident(g), []), env, v);
    var last := [Assign(0, x, IntLit(b)), Give(Call(Ident(g), []))];
    TwoStmts(w, f, 0, last[0], last[1], e1 + [bind], env);
    ListStep(w, f, 0, make, last, e1);
    ListStep(w, f, 0, Decl(0, false, x, Some(IntLit(a))), [make] + last, []);
    ProgramIs(w, f, Capture(closure, x, g, a, b));
  }

  lemma NoArgs(w: World, f: nat, env: Env)
    ensures EvalList(w, f, 0, [], env) == Values([], env)
  {
  }

  lemma MakeIs(w: World, f: nat, closure: bool, g: string, decl: FnDecl, env: Env, fv: Val)
    requires |env| < 256 && fv == FnV(decl, if closure then env else []) && (!closure ==> decl.fname == g)
    ensures var s := if closure then Decl(0, true, g, Some(Lambda(decl))) else FnStmt(0, decl);
      Exec(w, f, 0, s, env) == Normal(env + [Binding(g, fv, true)])
  {
  }

  // ----- scopes -----

  /** `let x = a` or `var x = a`, a block that declares x again or assigns to it, and
      `return x` */
  function Scopes(again: bool, x: string, a: int, b: int): seq<Stmt> {
    [Decl(0, again, x, Some(IntLit(a))),
     If(IfChain(0, BoolLit(true),
       Block(0, [if again then Decl(0, true, x, Some(IntLit(b))) else Assign(0, x, IntLit(b))]), NoElse)),
     Give(Ident(x))]
  }

  /** A declaration in a block ends with it, an assignment does not. */
  lemma ScopesMean(w: World, f: nat, again: bool, x: string, a: int, b: int)
    ensures var o := ExecProgram(w, f, Scopes(again, x, a, b)); o.Returned? && o.v == IntV(if again then a else b)
  {
    hide Eval, Exec, ExecList, Lookup, AssignVar, Falsy, ExecIf;
    var first := Binding(x, IntV(a), again);
    var env := [first];
    var end := if again then env else [Mutable(x, IntV(b))];
    var inner := if again then Decl(0, true, x, Some(IntLit(b))) else Assign(0, x, IntLit(b));
    var chain := IfChain(0, BoolLit(true), Block(0, [inner]), NoElse);
    NumberIs(w, f, 0, a, []);
    DeclIs(w, f, 0, again, x, IntLit(a), [], IntV(a));
    assert [] + [first] == env && [] + end == end;
    NumberIs(w, f, 0, b, env);
    if again { DeclIs(w, f, 0, true, x, IntLit(b), env, IntV(b)); }
    else {
      LastAssigned([], first, x, IntV(b));
      AssignIs(w, f, 0, x, IntLit(b), env, IntV(b));
    }
    OneStmt(w, f, 0, inner, env);
    TrueIs(w, f, env);
    BoolFalsy(w, true);
    IfTakes(w, f, 0, chain, env, BoolV(true), env);
    BranchIs(w, f, chain, env);
    assert (env + [Binding(x, IntV(b), true)])[..1] == env && end[..1] == end;
    LastFound([], end[0], x);
    NamedIs(w, f, 0, x, end, end[0].value);
    GiveIs(w, f, 0, Ident(x), end, end[0].value);
    ThreeStmts(w, f, 0, Decl(0, again, x, Some(IntLit(a))), If(chain), Give(Ident(x)), [], env, end);
    ProgramIs(w, f, Scopes(again, x, a, b));
  }

  lemma TrueIs(w: World, f: nat, env: Env)
    ensures Eval(w, f, 0, BoolLit(true), env) == Value(BoolV(true), env)
  {
  }

  lemma BranchIs(w: World, f: nat, chain: IfChain, env: Env)
    ensures Exec(w, f, 0, If(chain), env) == ExecIf(w, f, 0, chain, env)
  {
  }

  /** A name that is bound nowhere is an error, and so is an assignment to a `let`. */
  lemma NameErrors(w: World, f: nat, x: string, a: int, b: int)
    ensures ExecProgram(w, f, [Give(Ident(x))]) == Error(UndefinedVar)
    ensures ExecProgram(w, f, [Assign(0, x, IntLit(b))]) == Error(UndefinedVar)
    ensures ExecProgram(w, f, [Decl(0, true, x, Some(IntLit(a))), Assign(0, x, IntLit(b))]) == Error(ImmutableVar)
  {
    hide Exec, ExecList, Eval, AssignVar;
    var env := [Binding(x, IntV(a), true)];
    NumberIs(w, f, 0, a, []);
    NumberIs(w, f, 0, b, []);
    NumberIs(w, f, 0, b, env);
    DeclIs(w, f, 0, true, x, IntLit(a), [], IntV(a));
    assert [] + env == env;
    LastAssigned([], env[0], x, IntV(b));
    AssignIs(w, f, 0, x, IntLit(b), env, IntV(b));
    AssignIs(w, f, 0, x, IntLit(b), [], IntV(b));
    Unbound(w, f, x, b);
    TwoStmts(w, f, 0, Decl(0, true, x, Some(IntLit(a))), Assign(0, x, IntLit(b)), [], env);
    OneStmt(w, f, 0, Give(Ident(x)), []);
    OneStmt(w, f, 0, Assign(0, x, IntLit(b)), []);
  }

  lemma Unbound(w: World, f: nat, x: string, b: int)
    ensures Exec(w, f, 0, Give(Ident(x)), []) == Error(UndefinedVar) && AssignVar([], x, IntV(b)) == Fail(UndefinedVar)
  {
  }

  // ----- results -----

  /** `?` takes the value out of an ok, and ends the function with an err. */
  lemma TryTakes(w: World, f: nat, d: nat, isOk: bool, e: Expr, env: Env, v: Val)
    requires Eval(w, f, d, e, env) == Value(v, env)
    ensures Eval(w, f, d, Try(ResultLit(isOk, e)), env)
      == if isOk then Value(v, env) else Returned(ResV(false, v), env)
    ensures !v.ResV? ==> Eval(w, f, d, Try(e), env) == Error(NotResult)
  {
    hide Eval;
    ResultParts(w, f, d, isOk, e, env);
  }

  lemma ResultParts(w: World, f: nat, d: nat, isOk: bool, e: Expr, env: Env)
    ensures var r := Eval(w, f, d, e, env);
      Eval(w, f, d, ResultLit(isOk, e), env) == if r.Value? then Value(ResV(isOk, r.v), r.env) else r
    ensures var r := Eval(w, f, d, e, env);
      Eval(w, f, d, Try(e), env)
      == if !r.Value? then r
         else if !r.v.ResV? then Error(NotResult)
         else if r.v.ok then Value(r.v.val, r.env) else Returned(r.v, r.env)
    ensures var r := Eval(w, f, d, ResultLit(isOk, e), env);
      Eval(w, f, d, Try(ResultLit(isOk, e)), env)
      == if !r.Value? then r
         else if !r.v.ResV? then Error(NotResult)
         else if r.v.ok then Value(r.v.val, r.env) else Returned(r.v, r.env)
  {
  }

  /** Struct and map literals hold their parts in order, and a field or an entry is the value
      written for its name. */
  lemma LiteralParts(w: World, f: nat, d: nat, t: string, p: string, q: string, a: int, b: int, env: Env)
    requires p != q
    ensures var ps := [Entry(p, IntLit(a)), Entry(q, IntLit(b))];
      && Eval(w, f, d, StructLit(t, ps), env) == Value(StructV(t, [Pair(p, IntV(a)), Pair(q, IntV(b))]), env)
      && Eval(w, f, d, MapLit(ps), env) == Value(MapV([Pair(p, IntV(a)), Pair(q, IntV(b))]), env)
      && Eval(w, f, d, Field(StructLit(t, ps), q), env) == Value(IntV(b), env)
      && Eval(w, f, d, Index(MapLit(ps), StrLit("\"" + q + "\"")), env) == Value(IntV(b), env)
  {
    hide EvalPairs, TreeField, TreeIndex, FindPair;
    var ps := [Entry(p, IntLit(a)), Entry(q, IntLit(b))];
    var vs := [Pair(p, IntV(a)), Pair(q, IntV(b))];
    TwoPairs(w, f, d, p, q, a, b, env);
    FieldIs(t, vs, q);
    EntryIs(vs, q);
    assert vs[1].key == q && vs[0].key != q;
  }

  lemma TwoPairs(w: World, f: nat, d: nat, p: string, q: string, a: int, b: int, env: Env)
    ensures EvalPairs(w, f, d, [Entry(p, IntLit(a)), Entry(q, IntLit(b))], env)
      == Pairs([Pair(p, IntV(a)), Pair(q, IntV(b))], env)
  {
    var x, y := Entry(p, IntLit(a)), Entry(q, IntLit(b));
    NumberIs(w, f, d, a, env);
    NumberIs(w, f, d, b, env);
    assert [x, y][1..] == [y] && [y][1..] == [];
    hide Eval;
    assert EvalPairs(w, f, d, [], env) == Pairs([], env);
    assert EvalPairs(w, f, d, [y], env) == Pairs([Pair(q, IntV(b))], env);
  }

  // ----- order, and values that are not given -----

  /** The left operand comes first: its error is the one that is seen. */
  lemma LeftFirst(w: World, f: nat, d: nat, op: BinOp, l: Expr, r: Expr, env: Env, e: Err)
    ensures Eval(w, f, d, l, env) == Error(e) ==>
      Eval(w, f, d, Binary(op, l, r), env) == Error(e) && Eval(w, f, d, Index(l, r), env) == Error(e)
      && Eval(w, f, d, ArrayLit([l, r]), env) == Error(e)
    ensures Eval(w, f, d, l, env).Value? && Eval(w, f, d, r, Eval(w, f, d, l, env).env) == Error(e) ==>
      Eval(w, f, d, Binary(op, l, r), env) == Error(e) && Eval(w, f, d, Index(l, r), env) == Error(e)
      && Eval(w, f, d, ArrayLit([l, r]), env) == Error(e)
  {
    hide TreeBinary, TreeIndex;
    TwoElements(w, f, d, l, r, env);
  }

  lemma TwoElements(w: World, f: nat, d: nat, l: Expr, r: Expr, env: Env)
    ensures var a := Eval(w, f, d, l, env);
      EvalList(w, f, d, [l, r], env)
      == if !a.Value? then a
         else
           var b := Eval(w, f, d, r, a.env);
           if !b.Value? then b else Values([a.v] + [b.v], b.env)
  {
    hide Eval;
    assert [l, r][1..] == [r] && [r][1..] == [];
    assert forall e: Env :: EvalList(w, f, d, [], e) == Values([], e);
    forall e: Env ensures EvalList(w, f, d, [r], e) == (
      var b := Eval(w, f, d, r, e);
      if !b.Value? then b else Values([b.v], b.env))
    {
      var b := Eval(w, f, d, r, e);
      if b.Value? { assert [b.v] + [] == [b.v]; }
    }
  }

  /** A declaration, a return and a program without a value give nil. */
  lemma NothingGiven(w: World, f: nat, immut: bool, x: string)
    ensures ExecProgram(w, f, []) == Returned(NilV, [])
    ensures ExecProgram(w, f, [Return(0, None)]) == Returned(NilV, [])
    ensures var o := ExecProgram(w, f, [Decl(0, immut, x, None), Give(Ident(x))]); o.Returned? && o.v == NilV
  {
    hide Exec, ExecList, Lookup;
    var b := Binding(x, NilV, immut);
    ListStep(w, f, 0, Break(0), [], []);
    OneStmt(w, f, 0, Return(0, None), []);
    assert [] + [b] == [b];
    LastFound([], b, x);
    NamedIs(w, f, 0, x, [b], NilV);
    GiveIs(w, f, 0, Ident(x), [b], NilV);
    Undeclared(w, f, immut, x);
    TwoStmts(w, f, 0, Decl(0, immut, x, None), Give(Ident(x)), [], [b]);
  }

  lemma Undeclared(w: World, f: nat, immut: bool, x: string)
    ensures Exec(w, f, 0, Decl(0, immut, x, None), []) == Normal([Binding(x, NilV, immut)])
    ensures Exec(w, f, 0, Return(0, None), []) == Returned(NilV, [])
  {
  }

  // ----- what a function may change -----

  /** `var x = a`, g, which assigns b to x and gives back nil, a call of g, and `return x` */
  function Change(closure: bool, x: string, g: string, a: int, b: int): seq<Stmt> {
    [Decl(0, false, x, Some(IntLit(a)))] + ([MakeChange(closure, x, g, b)] + CallThenGive(g, x))
  }

  function ChangeFn(name: string, x: string, b: int): FnDecl { FnDecl(name, [], Block(0, [Assign(0, x, IntLit(b))])) }

  function MakeChange(closure: bool, x: string, g: string, b: int): Stmt {
    if closure then Decl(0, true, g, Some(Lambda(ChangeFn("", x, b)))) else FnStmt(0, ChangeFn(g, x, b))
  }

  function CallThenGive(g: string, x: string): seq<Stmt> { [ExprStmt(0, Call(Ident(g), [])), Give(Ident(x))] }

  /** A closure changes its own copy; a function of the main program changes the variable. */
  lemma ChangeMeans(w: World, f: nat, closure: bool, x: string, g: string, a: int, b: int)
    requires f > 0 && x != g && BuiltinId(g).None?
    ensures var o := ExecProgram(w, f, Change(closure, x, g, a, b));
      o.Returned? && o.v == IntV(if closure then a else b)
  {
    hide Eval, Exec, ExecList, EvalList, Lookup, Apply, BuiltinId, AssignVar;
    var decl := ChangeFn(if closure then "" else g, x, b);
    var e1 := [Mutable(x, IntV(a))];
    var e2 := if closure then e1 else [Mutable(x, IntV(b))];
    var fv := FnV(decl, if closure then e1 else []);
    var bind := Binding(g, fv, true);
    var make := MakeChange(closure, x, g, b);
    NumberIs(w, f, 0, a, []);
    DeclIs(w, f, 0, false, x, IntLit(a), [], IntV(a));
    assert [] + e1 == e1 && [] + e2 == e2;
    MakeIs(w, f, closure, g, decl, e1, fv);
    LastFound(e1, bind, g);
    NoArgs(w, f, e1 + [bind]);
    CallIs(w, f, 0, g, [], e1 + [bind], fv, []);
    ChangeApplied(w, f, closure, x, bind, a, b, decl);
    ExprStmtIs(w, f, Call(Ident(g), []), e1 + [bind], NilV, e2 + [bind]);
    LastFound(e2, bind, x);
    LastFound([], e2[0], x);
    var v := IntV(if closure then a else b);
    NamedIs(w, f, 0, x, e2 + [bind], v);
    GiveIs(w, f, 0, Ident(x), e2 + [bind], v);
    TwoStmts(w, f, 0, ExprStmt(0, Call(Ident(g), [])), Give(Ident(x)), e1 + [bind], e2 + [bind]);
    ListStep(w, f, 0, make, CallThenGive(g, x), e1);
    ListStep(w, f, 0, Decl(0, false, x, Some(IntLit(a))), [make] + CallThenGive(g, x), []);
    ProgramIs(w, f, Change(closure, x, g, a, b));
  }

  lemma ExprStmtIs(w: World, f: nat, e: Expr, env: Env, v: Val, env1: Env)
    requires Eval(w, f, 0, e, env) == Value(v, env1)
    ensures Exec(w, f, 0, ExprStmt(0, e), env) == Normal(env1)
  {
    hide Eval;
  }

  lemma ChangeApplied(w: World, f: nat, closure: bool, x: string, bind: Binding, a: int, b: int, decl: FnDecl)
    requires f > 0 && x != bind.name && decl == ChangeFn(decl.fname, x, b)
    ensures var e1 := [Mutable(x, IntV(a))]; var e2 := if closure then e1 else [Mutable(x, IntV(b))];
      Apply(w, f, 0, FnV(decl, if closure then e1 else []), [], e1 + [bind]) == Value(NilV, e2 + [bind])
  {
    hide Eval, Exec, ExecList, AssignVar;
    var e1, e2 := [Mutable(x, IntV(a))], [Mutable(x, IntV(b))];
    var env := if closure then e1 else e1 + [bind];
    var env1 := if closure then e2 else e2 + [bind];
    NumberIs(w, f - 1, 1, b, env);
    assert [] + e1 == e1 && [] + e2 == e2;
    LastAssigned([], e1[0], x, IntV(b));
    LastAssigned(e1, bind, x, IntV(b));
    AssignIs(w, f - 1, 1, x, IntLit(b), env, IntV(b));
    OneStmt(w, f - 1, 1, Assign(0, x, IntLit(b)), env);
    NoParams(env, [], []);
    assert env1[..|env1|] == env1;
  }

  /** A parameter is not assigned to, and a function's name neither. */
  lemma FixedNames(w: World, f: nat, g: string, p: string, a: int, b: int)
    requires f > 0 && BuiltinId(g).None?
    ensures ExecProgram(w, f, [FnStmt(0, FnDecl(g, [p], Block(0, [Assign(0, p, IntLit(b))]))),
                               ExprStmt(0, Call(Ident(g), Lits([a])))]) == Error(ImmutableVar)
    ensures ExecProgram(w, f, [FnStmt(0, Fn(g, [], IntLit(a))), Assign(0, g, IntLit(b))]) == Error(ImmutableVar)
  {
    hide Eval, Exec, ExecList, EvalList, Lookup, Apply, BuiltinId, AssignVar, Lits;
    var decl := FnDecl(g, [p], Block(0, [Assign(0, p, IntLit(b))]));
    var env := [Binding(g, FnV(decl, []), true)];
    TopFnIs(w, f, decl);
    assert [] + env == env && Ints([a]) == [IntV(a)] by { IntsAt([a]); }
    LastFound([], env[0], g);
    LitsAre(w, f, 0, [a], env);
    CallIs(w, f, 0, g, Lits([a]), env, FnV(decl, []), [IntV(a)]);
    ParamFixed(w, f, decl, p, a, b, env);
    CallFails(w, f, Call(Ident(g), Lits([a])), env);
    TwoStmts(w, f, 0, FnStmt(0, decl), ExprStmt(0, Call(Ident(g), Lits([a]))), [], env);
    var other := Fn(g, [], IntLit(a));
    var env2 := [Binding(g, FnV(other, []), true)];
    TopFnIs(w, f, other);
    NumberIs(w, f, 0, b, env2);
    assert [] + env2 == env2;
    LastAssigned([], env2[0], g, IntV(b));
    AssignIs(w, f, 0, g, IntLit(b), env2, IntV(b));
    TwoStmts(w, f, 0, FnStmt(0, other), Assign(0, g, IntLit(b)), [], env2);
  }

  lemma CallFails(w: World, f: nat, e: Expr, env: Env)
    requires Eval(w, f, 0, e, env) == Error(ImmutableVar)
    ensures Exec(w, f, 0, ExprStmt(0, e), env) == Error(ImmutableVar)
  {
    hide Eval;
  }

  lemma ParamFixed(w: World, f: nat, decl: FnDecl, p: string, a: int, b: int, env: Env)
    requires f > 0 && decl == FnDecl(decl.fname, [p], Block(0, [Assign(0, p, IntLit(b))])) && |env| < 256
    ensures Apply(w, f, 0, FnV(decl, []), [IntV(a)], env) == Error(ImmutableVar)
  {
    hide Eval, Exec, ExecList, AssignVar, BindParams;
    var x := Binding(p, IntV(a), true);
    var env1 := env + [x];
    assert [p][1..] == [] && [IntV(a)][1..] == [];
    BindNext(env, [p], [IntV(a)], x);
    NoParams(env1, [], []);
    NumberIs(w, f - 1, 1, b, env1);
    LastAssigned(env, x, p, IntV(b));
    AssignIs(w, f - 1, 1, p, IntLit(b), env1, IntV(b));
    OneStmt(w, f - 1, 1, Assign(0, p, IntLit(b)), env1);
  }

  /** A function in a function is a closure. */
  lemma NestedIs(w: World, f: nat, d: nat, decl: FnDecl, env: Env)
    requires |env| < 256
    ensures Exec(w, f, d, FnStmt(0, decl), env)
      == Normal(env + [Binding(decl.fname, FnV(decl, if d == 0 then [] else env), true)])
  {
  }

  /** The variable of a for is assigned like any other, in its turn only. */
  lemma LoopVariable(w: World, f: nat, x: string, ns: seq<int>, b: int, i: nat)
    requires i <= |ns|
    ensures ExecFor(w, f, 0, For(0, x, ArrayLit(Lits(ns)), Block(0, [Assign(0, x, IntLit(b))])), Ints(ns), i, [])
      == Normal([])
    decreases |ns| - i
  {
    hide Exec, ExecList, AssignVar, ExecFor;
    var s := For(0, x, ArrayLit(Lits(ns)), Block(0, [Assign(0, x, IntLit(b))]));
    if i < |ns| {
      var e1, e2 := [Mutable(x, IntV(ns[i]))], [Mutable(x, IntV(b))];
      assert [] + e1 == e1 && [] + e2 == e2 && e2[..1] == e2 && e2[..0] == [];
      NumberIs(w, f, 0, b, e1);
      LastAssigned([], e1[0], x, IntV(b));
      AssignIs(w, f, 0, x, IntLit(b), e1, IntV(b));
      OneStmt(w, f, 0, Assign(0, x, IntLit(b)), e1);
      ForTakes(w, f, s, Ints(ns), i, []);
      LoopVariable(w, f, x, ns, b, i + 1);
    } else {
      ForEnds(w, f, s, Ints(ns), []);
    }
  }

  /** A builtin gets its arguments in their order. */
  lemma BuiltinGets(w: World, f: nat, d: nat, name: string, id: nat, ns: seq<int>, env: Env)
    requires BuiltinId(name) == Some(id)
    ensures Eval(w, f, d, Call(Ident(name), Lits(ns)), env)
      == match w.builtin(id, Ints(ns))
         case Ok(v) => Value(v, env)
         case Fail(e) => Error(e)
  {
    hide BuiltinId, EvalList, Lits;
    LitsAre(w, f, d, ns, env);
  }

  /** A literal gives what it writes; a string keeps its quotes. */
  lemma LiteralsGive(w: World, f: nat, s: string, x: Float, b: bool, n: int)
    ensures ExecProgram(w, f, [Give(StrLit(s))]) == Returned(StrV(s), [])
    ensures ExecProgram(w, f, [Give(FloatLit(x))]) == Returned(FloatV(x), [])
    ensures ExecProgram(w, f, [Give(BoolLit(b))]) == Returned(BoolV(b), [])
    ensures ExecProgram(w, f, [Give(IntLit(n))]) == Returned(IntV(n), [])
  {
    hide ExecList, Exec;
    GivesLit(w, f, StrLit(s), StrV(s));
    GivesLit(w, f, FloatLit(x), FloatV(x));
    GivesLit(w, f, BoolLit(b), BoolV(b));
    GivesLit(w, f, IntLit(n), IntV(n));
  }

  lemma GivesLit(w: World, f: nat, e: Expr, v: Val)
    requires Eval(w, f, 0, e, []) == Value(v, [])
    ensures ExecProgram(w, f, [Give(e)]) == Returned(v, [])
  {
    hide Eval, ExecList, Exec;
    GiveIs(w, f, 0, e, [], v);
    OneStmt(w, f, 0, Give(e), []);
  }

  // ----- leaving a loop by a return -----

  /** `for x in ns { return x }` and `return n` */
  function FirstOf(x: string, ns: seq<int>, n: int): seq<Stmt> {
    [For(0, x, ArrayLit(Lits(ns)), Block(0, [Give(Ident(x))])), Give(IntLit(n))]
  }

  /** A return in a loop ends the program, not the turn: the first element is given, or n
      when there is none.  What is looped over is an array. */
  lemma ReturnLeaves(w: World, f: nat, x: string, ns: seq<int>, n: int)
    ensures var o := ExecProgram(w, f, FirstOf(x, ns, n)); o.Returned? && o.v == IntV(if ns == [] then n else ns[0])
    ensures ExecProgram(w, f, [For(0, x, IntLit(n), Block(0, []))]) == Error(NotIterable)
  {
    hide Exec, ExecFor, ExecList, Lits, ExecBlock, Eval;
    var s := For(0, x, ArrayLit(Lits(ns)), Block(0, [Give(Ident(x))]));
    LitsAre(w, f, 0, ns, []);
    ArrayIs(w, f, 0, Lits(ns), [], Ints(ns));
    ForStmtIs(w, f, s, [], Ints(ns));
    NumberIs(w, f, 0, n, []);
    GiveIs(w, f, 0, IntLit(n), [], IntV(n));
    IntsAt(ns);
    if ns == [] {
      ForEnds(w, f, s, Ints(ns), []);
    } else {
      var e := [Mutable(x, IntV(ns[0]))];
      assert [] + e == e;
      LastFound([], e[0], x);
      NamedIs(w, f, 0, x, e, IntV(ns[0]));
      GiveIs(w, f, 0, Ident(x), e, IntV(ns[0]));
      ForTakes(w, f, s, Ints(ns), 0, []);
    }
    assert FirstOf(x, ns, n) == [s] + [Give(IntLit(n))];
    ListStep(w, f, 0, s, [Give(IntLit(n))], []);
    OneStmt(w, f, 0, Give(IntLit(n)), []);
    NoArray(w, f, For(0, x, IntLit(n), Block(0, [])), IntV(n));
    OneStmt(w, f, 0, For(0, x, IntLit(n), Block(0, [])), []);
  }

  lemma NoArray(w: World, f: nat, s: Stmt, v: Val)
    requires s.For? && !v.ArrV? && Eval(w, f, 0, s.iter, []) == Value(v, [])
    ensures Exec(w, f, 0, s, []) == Error(NotIterable)
  {
    hide Eval, ExecFor;
  }

  /** `while true { return a }` and `return b` gives a. */
  lemma ReturnLeavesWhile(w: World, f: nat, a: int, b: int)
    requires f > 0
    ensures ExecProgram(w, f, [While(0, BoolLit(true), Block(0, [Give(IntLit(a))])), Give(IntLit(b))])
      == Returned(IntV(a), [])
  {
    hide Exec, ExecWhile, ExecList, ExecBlock, Eval, Falsy;
    var s := While(0, BoolLit(true), Block(0, [Give(IntLit(a))]));
    TrueIs(w, f, []);
    BoolFalsy(w, true);
    NumberIs(w, f, 0, a, []);
    GiveIs(w, f, 0, IntLit(a), [], IntV(a));
    WhileTakes(w, f, 0, s, [], BoolV(true), []);
    WhileStmtIs(w, f, s, []);
    assert [s, Give(IntLit(b))] == [s] + [Give(IntLit(b))];
    ListStep(w, f, 0, s, [Give(IntLit(b))], []);
  }

  // ----- boundaries, and room for arguments -----

  function LineOf(s: Stmt): nat {
    match s
    case ExprStmt(n, _) => n
    case Decl(n, _, _, _) => n
    case Assign(n, _, _) => n
    case Return(n, _) => n
    case If(chain) => chain.line
    case While(n, _, _) => n
    case For(n, _, _, _) => n
    case Break(n) => n
    case Continue(n) => n
    case FnStmt(n, _) => n
    case StructDecl(n) => n
  }

  /** The code of every statement, and of every block, begins with the LINE of its line, at
      which a due collection runs. */
  lemma BeginsWithLine(s: Stmt, b: Block, k: nat, l: Loop, bvc: nat, top: bool)
    ensures Enc(Line(LineOf(s))) <= CodeS(s, k, l, bvc, top)
    ensures Enc(Line(b.bline)) <= CodeB(b, k, l, top)
  {
    hide Enc, CodeE, CodeOpt, CodeSs, CodeElse, CodeWhile, CodeFor, PopCode, ExitCode, ConstsE, ConstsOpt;
  }

  /** A call of 64 arguments or fewer, which is what the machine has room for, goes
      through, and one of more does not. */
  lemma ArgumentsUpTo64(w: World, p: Prog, fv: Val, id: nat, n: nat, ip: nat, s: State)
    requires n < 256 && id < 65536 && |s.stack| > n && s.stack[|s.stack| - 1 - n] == fv
    requires fv.FnV? && |fv.decl.params| == n && |s.frames| < 512
    ensures Step(w, p, CallOp(n), ip, s) == Abort(Stuck) <==> n > 64
    ensures Step(w, p, CallBuiltin(id, n), ip, s) == Abort(Stuck) <==> n > 64
  {
    hide Unzip, VmBinary, VmUnary, VmIndex, StepVar, StepJump, StepTry, StepIter, StepField;
  }

  /** So is a struct of 64 fields or fewer made of its names and values on the stack. */
  lemma FieldsUpTo64(w: World, p: Prog, name: string, idx: nat, ps: seq<Pair>, ip: nat, s: State)
    requires idx < 65536 && idx < |p.consts| && p.consts[idx] == StrV(name) && |ps| < 256 && |s.stack| < 1024
    ensures var r := Step(w, p, MakeStruct(idx, |ps|), ip, s.(stack := s.stack + Flatten(ps)));
      if |ps| <= 64 then r == Next(ip, s.(stack := s.stack + [StructV(name, ps)])) else r == Abort(Stuck)
  {
    hide *;
    UnzipFlatten(ps);
    OnTop(s, Flatten(ps), s.env);
    BackAgain(s, Flatten(ps));
    MadeOf(w, p, name, idx, ps, Flatten(ps), ip, s.(stack := s.stack + Flatten(ps)), s);
  }

  lemma BackAgain(s: State, vs: seq<Val>)
    ensures After(s, vs, s.env) == s.(stack := s.stack + vs) && After(s, [], s.env) == s
  {
  }

  lemma MadeOf(w: World, p: Prog, name: string, idx: nat, ps: seq<Pair>, vs: seq<Val>, ip: nat, top: State, s: State)
    requires idx < 65536 && idx < |p.consts| && p.consts[idx] == StrV(name) && |ps| < 256 && |s.stack| < 1024
    requires |vs| == 2 * |ps| <= |top.stack| && TopN(top, |vs|) == vs && Drop(top, |vs|) == s
    requires Unzip(vs, false) == Some(ps)
    ensures var r := Step(w, p, MakeStruct(idx, |ps|), ip, top);
      if |ps| <= 64 then r == Next(ip, s.(stack := s.stack + [StructV(name, ps)])) else r == Abort(Stuck)
  {
    hide Unzip, TopN, Drop, VmBinary, VmUnary, VmIndex, StepVar, StepJump, StepTry, StepIter, StepField, StepCall;
  }
}
