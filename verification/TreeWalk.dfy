/** The tree-walking evaluator on expressions that call no user function
    (src/interpreter.c, src/builtins.c), and when it agrees with the machine.  It
    differs from what expressions mean in two places: outside of every call a `?` on an
    err does not leave the expression, and a builtin sees 32 arguments at most. */
module TreeWalk {
  import opened Ast
  import opened Values
  import opened Bytecode
  import opened Semantics
  import opened CodeGen
  import opened Machine
  import opened Places
  import opened Reach
  import opened Fragment
  import opened Simulation
  import opened Correctness

  const TREE_ARGS: nat := 32

  /** held: the value of `return_value` while `has_return` is set.  Jumped: the jump out
      of the call that is running. */
  datatype Walked<T> = Got(v: T, held: Option<Val>) | Failed(err: Err, held: Option<Val>) | Jumped(out: Val)

  /** What is true of every evaluation: outside of calls nothing jumps and what is held
      stays held; in a call nothing is held. */
  predicate Regular<T>(inCall: bool, held: Option<Val>, r: Walked<T>) {
    if inCall then r.Jumped? || r.held == held else !r.Jumped? && (held.Some? ==> r.held.Some?)
  }

  predicate NoCalls(e: Expr)
    decreases e
  {
    match e
    case Unary(_, a) => NoCalls(a)
    case Binary(_, a, b) => NoCalls(a) && NoCalls(b)
    case Field(o, _) => NoCalls(o)
    case Call(_, args) => IsBuiltinCall(e) && NoCallsIn(args)
    case ArrayLit(es) => NoCallsIn(es)
    case MapLit(ps) => NoCallsAt(ps)
    case StructLit(_, ps) => NoCallsAt(ps)
    case Index(a, i) => NoCalls(a) && NoCalls(i)
    case ResultLit(_, a) => NoCalls(a)
    case Try(a) => NoCalls(a)
    case _ => true
  }

  predicate NoCallsIn(es: seq<Expr>)
    decreases es
  {
    es != [] ==> NoCalls(es[0]) && NoCallsIn(es[1..])
  }

  predicate NoCallsAt(ps: seq<Entry>)
    decreases ps
  {
    ps != [] ==> NoCalls(ps[0].value) && NoCallsAt(ps[1..])
  }

  function OfOp(r: Res<Val>, held: Option<Val>): Walked<Val> {
    match r
    case Ok(v) => Got(v, held)
    case Fail(e) => Failed(e, held)
  }

  /** n values from slots that nothing has been written to. */
  function Stale(stale: nat -> Val, n: nat): (r: seq<Val>)
    ensures |r| == n
  {
    seq(n, i requires 0 <= i < n => stale(i))
  }

  lemma {:induction false} NoCallsTake(es: seq<Expr>, n: nat)
    requires NoCallsIn(es) && n <= |es|
    ensures NoCallsIn(es[..n])
    decreases n
  {
    if n > 0 {
      NoCallsTake(es[1..], n - 1);
      assert es[..n][1..] == es[1..][..n - 1];
    }
  }

  /** The arguments of a builtin that are evaluated. */
  function FirstArgs(args: seq<Expr>): (r: seq<Expr>)
    requires NoCallsIn(args)
    ensures NoCallsIn(r) && |r| <= |args|
  {
    NoCallsTake(args, if |args| < TREE_ARGS then |args| else TREE_ARGS);
    if |args| <= TREE_ARGS then args else args[..TREE_ARGS]
  }

  /** eval_expr.  inCall: whether return_jmp_set is set, as it is in every call and
      nowhere else. */
  function Walk(w: World, stale: nat -> Val, inCall: bool, e: Expr, env: Env, held: Option<Val>): (r: Walked<Val>)
    requires NoCalls(e)
    ensures Regular(inCall, held, r)
    decreases e
  {
    hide TreeBinary, TreeUnary, TreeField, TreeIndex, Lookup, BuiltinId;
    match e
    case IntLit(n) => Got(IntV(n), held)
    case FloatLit(x) => Got(FloatV(x), held)
    case StrLit(s) => Got(StrV(s), held)
    case BoolLit(b) => Got(BoolV(b), held)
    case Ident(x) => if Lookup(env, x).None? then Failed(UndefinedVar, held) else Got(Lookup(env, x).value, held)
    case Unary(op, a) =>
      var r := Walk(w, stale, inCall, a, env, held);
      if r.Got? then OfOp(TreeUnary(w, op, r.v), r.held) else r
    case Binary(op, a, b) =>
      var l := Walk(w, stale, inCall, a, env, held);
      if !l.Got? then l else
      var r := Walk(w, stale, inCall, b, env, l.held);
      if r.Got? then OfOp(TreeBinary(w, op, l.v, r.v), r.held) else r
    case Field(obj, field) =>
      var r := Walk(w, stale, inCall, obj, env, held);
      if r.Got? then OfOp(TreeField(r.v, field), r.held) else r
    case Call(callee, args) =>
      var first := FirstArgs(args);
      (match WalkList(w, stale, inCall, first, env, held)
       case Got(vs, h) => OfOp(w.builtin(BuiltinId(callee.name).value, vs + Stale(stale, |args| - |first|)), h)
       case Failed(err, h) => Failed(err, h)
       case Jumped(v) => Jumped(v))
    case ArrayLit(es) =>
      (match WalkList(w, stale, inCall, es, env, held)
       case Got(vs, h) => Got(ArrV(vs), h)
       case Failed(err, h) => Failed(err, h)
       case Jumped(v) => Jumped(v))
    case MapLit(ps) =>
      (match WalkPairs(w, stale, inCall, ps, env, held)
       case Got(vs, h) => Got(MapV(vs), h)
       case Failed(err, h) => Failed(err, h)
       case Jumped(v) => Jumped(v))
    case StructLit(t, ps) =>
      (match WalkPairs(w, stale, inCall, ps, env, held)
       case Got(vs, h) => Got(StructV(t, vs), h)
       case Failed(err, h) => Failed(err, h)
       case Jumped(v) => Jumped(v))
    case Index(a, i) =>
      var l := Walk(w, stale, inCall, a, env, held);
      if !l.Got? then l else
      var r := Walk(w, stale, inCall, i, env, l.held);
      if r.Got? then OfOp(TreeIndex(l.v, r.v), r.held) else r
    case Lambda(fn) => Got(FnV(fn, env), held)
    case ResultLit(ok, a) =>
      var r := Walk(w, stale, inCall, a, env, held);
      if r.Got? then Got(ResV(ok, r.v), r.held) else r
    case Try(a) =>
      var r := Walk(w, stale, inCall, a, env, held);
      if !r.Got? then r
      else if !r.v.ResV? then Failed(NotResult, r.held)
      else if r.v.ok then Got(r.v.val, r.held)
      else if inCall then Jumped(r.v)
      else Got(NilV, Some(r.v))
  }

  function WalkList(w: World, stale: nat -> Val, inCall: bool, es: seq<Expr>, env: Env,
      held: Option<Val>): (r: Walked<seq<Val>>)
    requires NoCallsIn(es)
    ensures Regular(inCall, held, r)
    decreases es
  {
    if es == [] then Got([], held) else
    match Walk(w, stale, inCall, es[0], env, held)
    case Failed(err, h) => Failed(err, h)
    case Jumped(v) => Jumped(v)
    case Got(v, h) =>
      match WalkList(w, stale, inCall, es[1..], env, h)
      case Failed(err, h2) => Failed(err, h2)
      case Jumped(u) => Jumped(u)
      case Got(vs, h2) => Got([v] + vs, h2)
  }

  function WalkPairs(w: World, stale: nat -> Val, inCall: bool, ps: seq<Entry>, env: Env,
      held: Option<Val>): (r: Walked<seq<Pair>>)
    requires NoCallsAt(ps)
    ensures Regular(inCall, held, r)
    decreases ps
  {
    if ps == [] then Got([], held) else
    match Walk(w, stale, inCall, ps[0].value, env, held)
    case Failed(err, h) => Failed(err, h)
    case Jumped(v) => Jumped(v)
    case Got(v, h) =>
      match WalkPairs(w, stale, inCall, ps[1..], env, h)
      case Failed(err, h2) => Failed(err, h2)
      case Jumped(u) => Jumped(u)
      case Got(vs, h2) => Got([Pair(ps[0].key, v)] + vs, h2)
  }

  // ----- agreement with what expressions mean -----

  /** Every call of a builtin has at most 32 arguments. */
  predicate FewArgs(e: Expr)
    decreases e
  {
    match e
    case Unary(_, a) => FewArgs(a)
    case Binary(_, a, b) => FewArgs(a) && FewArgs(b)
    case Field(o, _) => FewArgs(o)
    case Call(_, args) => |args| <= 32 && FewArgsIn(args)
    case ArrayLit(es) => FewArgsIn(es)
    case MapLit(ps) => FewArgsAt(ps)
    case StructLit(_, ps) => FewArgsAt(ps)
    case Index(a, i) => FewArgs(a) && FewArgs(i)
    case ResultLit(_, a) => FewArgs(a)
    case Try(a) => FewArgs(a)
    case _ => true
  }

  predicate FewArgsIn(es: seq<Expr>)
    decreases es
  {
    es != [] ==> FewArgs(es[0]) && FewArgsIn(es[1..])
  }

  predicate FewArgsAt(ps: seq<Entry>)
    decreases ps
  {
    ps != [] ==> FewArgs(ps[0].value) && FewArgsAt(ps[1..])
  }

  predicate IsErr(v: Val) { v.ResV? && !v.ok }

  /** The early return of a `?`: a jump in a call, and outside a note that is held. */
  predicate LeftEarly<T>(inCall: bool, v: Val, r: Walked<T>) {
    IsErr(v) && if inCall then r == Jumped(v) else !r.Jumped? && r.held.Some?
  }

  predicate Mirrors(inCall: bool, o: Out, r: Walked<Val>, env: Env, held: Option<Val>)
    requires Regular(inCall, held, r)
  {
    match o
    case Value(v, env1) => env1 == env && r == Got(v, held)
    case Error(e) => r == Failed(e, held)
    case Returned(v, env1) => env1 == env && LeftEarly(inCall, v, r)
    case _ => false
  }

  lemma {:induction false} WalkMirrors(w: World, stale: nat -> Val, inCall: bool, f: nat, d: nat, e: Expr, env: Env,
      held: Option<Val>)
    requires NoCalls(e) && FewArgs(e)
    ensures Mirrors(inCall, Eval(w, f, d, e, env), Walk(w, stale, inCall, e, env, held), env, held)
    decreases e, 1
  {
    hide NoCalls, FewArgs, Eval, Walk, Mirrors;
    if e.Unary? || e.Field? || e.ResultLit? || e.Try? {
      MirrorsOne(w, stale, inCall, f, d, e, env, held);
    } else if e.Binary? || e.Index? {
      MirrorsTwo(w, stale, inCall, f, d, e, env, held);
    } else {
      MirrorsMany(w, stale, inCall, f, d, e, env, held);
    }
  }

  lemma {:induction false} MirrorsOne(w: World, stale: nat -> Val, inCall: bool, f: nat, d: nat, e: Expr, env: Env,
      held: Option<Val>)
    requires (e.Unary? || e.Field? || e.ResultLit? || e.Try?) && NoCalls(e) && FewArgs(e)
    ensures Mirrors(inCall, Eval(w, f, d, e, env), Walk(w, stale, inCall, e, env, held), env, held)
    decreases e, 0
  {
    hide TreeBinary, TreeUnary, TreeField, TreeIndex, Lookup, BuiltinId, Apply, EvalList, EvalPairs, WalkList,
      WalkPairs;
    match e
    case Unary(_, a) => WalkMirrors(w, stale, inCall, f, d, a, env, held);
    case Field(o, _) => WalkMirrors(w, stale, inCall, f, d, o, env, held);
    case ResultLit(_, a) => WalkMirrors(w, stale, inCall, f, d, a, env, held);
    case Try(a) => WalkMirrors(w, stale, inCall, f, d, a, env, held);
  }

  lemma {:induction false} MirrorsTwo(w: World, stale: nat -> Val, inCall: bool, f: nat, d: nat, e: Expr, env: Env,
      held: Option<Val>)
    requires (e.Binary? || e.Index?) && NoCalls(e) && FewArgs(e)
    ensures Mirrors(inCall, Eval(w, f, d, e, env), Walk(w, stale, inCall, e, env, held), env, held)
    decreases e, 0
  {
    hide TreeBinary, TreeUnary, TreeField, TreeIndex, Lookup, BuiltinId, Apply, EvalList, EvalPairs, WalkList,
      WalkPairs;
    match e
    case Binary(_, a, b) =>
      WalkMirrors(w, stale, inCall, f, d, a, env, held);
      WalkMirrors(w, stale, inCall, f, d, b, env, held);
    case Index(a, b) =>
      WalkMirrors(w, stale, inCall, f, d, a, env, held);
      WalkMirrors(w, stale, inCall, f, d, b, env, held);
  }

  lemma {:induction false} MirrorsMany(w: World, stale: nat -> Val, inCall: bool, f: nat, d: nat, e: Expr, env: Env,
      held: Option<Val>)
    requires !(e.Unary? || e.Field? || e.ResultLit? || e.Try? || e.Binary? || e.Index?) && NoCalls(e) && FewArgs(e)
    ensures Mirrors(inCall, Eval(w, f, d, e, env), Walk(w, stale, inCall, e, env, held), env, held)
    decreases e, 0
  {
    hide TreeBinary, TreeUnary, TreeField, TreeIndex, BuiltinId, Apply, EvalList, EvalPairs, WalkList, WalkPairs;
    match e
    case Call(_, args) =>
      MirrorsList(w, stale, inCall, f, d, args, env, held);
      assert forall vs: seq<Val> :: vs + Stale(stale, 0) == vs;
    case ArrayLit(es) => MirrorsList(w, stale, inCall, f, d, es, env, held);
    case MapLit(ps) => MirrorsPairs(w, stale, inCall, f, d, ps, env, held);
    case StructLit(_, ps) => MirrorsPairs(w, stale, inCall, f, d, ps, env, held);
    case _ =>
  }

  lemma {:induction false} MirrorsList(w: World, stale: nat -> Val, inCall: bool, f: nat, d: nat, es: seq<Expr>,
      env: Env, held: Option<Val>)
    requires NoCallsIn(es) && FewArgsIn(es)
    ensures var r := WalkList(w, stale, inCall, es, env, held);
      match EvalList(w, f, d, es, env)
      case Values(vs, env1) => env1 == env && r == Got(vs, held)
      case Error(e) => r == Failed(e, held)
      case Returned(v, env1) => env1 == env && LeftEarly(inCall, v, r)
      case _ => false
    decreases es
  {
    hide Eval, Walk, NoCalls, FewArgs;
    if es != [] {
      WalkMirrors(w, stale, inCall, f, d, es[0], env, held);
      MirrorsList(w, stale, inCall, f, d, es[1..], env, held);
    }
  }

  lemma {:induction false} MirrorsPairs(w: World, stale: nat -> Val, inCall: bool, f: nat, d: nat, ps: seq<Entry>,
      env: Env, held: Option<Val>)
    requires NoCallsAt(ps) && FewArgsAt(ps)
    ensures var r := WalkPairs(w, stale, inCall, ps, env, held);
      match EvalPairs(w, f, d, ps, env)
      case Pairs(vs, env1) => env1 == env && r == Got(vs, held)
      case Error(e) => r == Failed(e, held)
      case Returned(v, env1) => env1 == env && LeftEarly(inCall, v, r)
      case _ => false
    decreases ps
  {
    hide Eval, Walk, NoCalls, FewArgs;
    if ps != [] {
      WalkMirrors(w, stale, inCall, f, d, ps[0].value, env, held);
      MirrorsPairs(w, stale, inCall, f, d, ps[1..], env, held);
    }
  }

  /** Outside of calls nothing is held when a statement begins. */
  predicate Agrees(o: Out, r: Walked<Val>, env: Env) {
    match o
    case Value(v, env1) => env1 == env && r == Got(v, None)
    case Error(e) => r == Failed(e, None)
    case Returned(v, env1) => env1 == env && r == Jumped(v)
    case _ => false
  }

  /** The tree walker gives what the expression means if and only if it runs in a call or
      comes by no `?` on an err. */
  lemma WalkAgreesIff(w: World, stale: nat -> Val, inCall: bool, f: nat, d: nat, e: Expr, env: Env)
    requires NoCalls(e) && FewArgs(e)
    ensures var o, r := Eval(w, f, d, e, env), Walk(w, stale, inCall, e, env, None);
      && (Agrees(o, r, env) <==> inCall || r.held.None?)
      && (inCall || r.held.None? <==> inCall || !o.Returned?)
  {
    hide NoCalls, FewArgs, Eval, Walk;
    WalkMirrors(w, stale, inCall, f, d, e, env, None);
  }

  // ----- where it does not -----

  const ERR_TRY: Expr := Try(ResultLit(false, IntLit(1)))

  const BY_ZERO: Expr := Binary(BinOp.Div, IntLit(1), IntLit(0))

  lemma WalkErrTry(w: World, stale: nat -> Val, inCall: bool, env: Env)
    ensures NoCalls(ERR_TRY)
    ensures Walk(w, stale, inCall, ERR_TRY, env, None) ==
      if inCall then Jumped(ResV(false, IntV(1))) else Got(NilV, Some(ResV(false, IntV(1))))
  {
  }

  lemma WalkByZero(w: World, stale: nat -> Val, inCall: bool, env: Env, held: Option<Val>)
    ensures NoCalls(BY_ZERO) && Walk(w, stale, inCall, BY_ZERO, env, held) == Failed(DivByZero, held)
  {
  }

  lemma EvalErrTry(w: World, f: nat, d: nat, env: Env)
    ensures Eval(w, f, d, ERR_TRY, env) == Returned(ResV(false, IntV(1)), env)
  {
    assert Eval(w, f, d, ResultLit(false, IntLit(1)), env) == Value(ResV(false, IntV(1)), env);
  }

  /** [err(1)?, 1 / 0]: at top level the tree walker goes on to the division. */
  lemma TopLevelTryGoesOn(w: World, stale: nat -> Val, f: nat, env: Env)
    ensures var e := ArrayLit([ERR_TRY, BY_ZERO]); var err := ResV(false, IntV(1));
      && NoCalls(e) && Eval(w, f, 0, e, env) == Returned(err, env)
      && Walk(w, stale, false, e, env, None) == Failed(DivByZero, Some(err))
      && Walk(w, stale, true, e, env, None) == Jumped(err)
  {
    var es := [ERR_TRY, BY_ZERO];
    assert es[1..] == [BY_ZERO] && es[1..][1..] == [];
    WalkErrTry(w, stale, false, env);
    WalkErrTry(w, stale, true, env);
    WalkByZero(w, stale, false, env, Some(ResV(false, IntV(1))));
    EvalErrTry(w, f, 0, env);
    hide TreeBinary, ERR_TRY, BY_ZERO;
    assert NoCallsIn(es[1..]);
    assert WalkList(w, stale, false, es[1..], env, Some(ResV(false, IntV(1))))
      == Failed(DivByZero, Some(ResV(false, IntV(1))));
  }

  lemma {:induction false} EvalPrefix(w: World, f: nat, d: nat, es: seq<Expr>, more: seq<Expr>, env: Env, vs: seq<Val>,
      env1: Env)
    requires EvalList(w, f, d, es, env) == Values(vs, env1)
    ensures var t := EvalList(w, f, d, more, env1);
      EvalList(w, f, d, es + more, env) == if t.Values? then Values(vs + t.vs, t.env) else t
    decreases es
  {
    hide Eval;
    if es == [] {
      assert es + more == more;
      var t := EvalList(w, f, d, more, env1);
      assert t.Values? ==> [] + t.vs == t.vs;
    } else {
      assert (es + more)[1..] == es[1..] + more;
      var h := Eval(w, f, d, es[0], env);
      var r := EvalList(w, f, d, es[1..], h.env);
      EvalPrefix(w, f, d, es[1..], more, h.env, r.vs, env1);
      var t := EvalList(w, f, d, more, env1);
      assert t.Values? ==> [h.v] + (r.vs + t.vs) == ([h.v] + r.vs) + t.vs;
    }
  }

  /** An undefined name as the 33rd argument of a builtin, whatever comes behind it: the
      tree walker never looks at it. */
  lemma LateArgument(w: World, stale: nat -> Val, inCall: bool, f: nat, d: nat, name: string, args: seq<Expr>,
      x: string, more: seq<Expr>, env: Env, vs: seq<Val>)
    requires BuiltinId(name).Some? && NoCallsIn(args) && FewArgsIn(args) && |args| == 32 && NoCallsIn(more)
    requires Lookup(env, x).None? && EvalList(w, f, d, args, env) == Values(vs, env)
    ensures var e := Call(Ident(name), args + ([Ident(x)] + more));
      && Eval(w, f, d, e, env) == Error(UndefinedVar)
      && NoCalls(e)
      && Walk(w, stale, inCall, e, env, None)
        == OfOp(w.builtin(BuiltinId(name).value, vs + Stale(stale, 1 + |more|)), None)
  {
    hide BuiltinId, FewArgsIn;
    var late := [Ident(x)] + more;
    var all := args + late;
    EvalPrefix(w, f, d, args, late, env, vs, env);
    assert EvalList(w, f, d, late, env) == Error(UndefinedVar) by { assert late[0] == Ident(x); }
    assert NoCallsIn(late) by { assert late[1..] == more; }
    NoCallsAppend(args, late);
    assert all[..TREE_ARGS] == args;
    MirrorsList(w, stale, inCall, f, d, args, env, None);
  }

  lemma {:induction false} NoCallsAppend(a: seq<Expr>, b: seq<Expr>)
    requires NoCallsIn(a) && NoCallsIn(b)
    ensures NoCallsIn(a + b)
    decreases |a|
  {
    hide NoCalls;
    if a == [] {
      assert a + b == b;
    } else {
      NoCallsAppend(a[1..], b);
      assert (a + b)[1..] == a[1..] + b;
    }
  }

  // ----- agreement with the machine -----

  lemma {:induction false} NeedNoCalls(e: Expr)
    requires NeedE(e) <= STACK_MAX
    ensures NoCalls(e)
    decreases e
  {
    match e
    case Unary(_, a) => NeedNoCalls(a);
    case Binary(_, a, b) => NeedNoCalls(a); NeedNoCalls(b);
    case Field(o, _) => NeedNoCalls(o);
    case Call(_, args) => NeedNoCallsIn(args);
    case ArrayLit(es) => NeedNoCallsIn(es);
    case MapLit(ps) => NeedNoCallsAt(ps);
    case StructLit(_, ps) => NeedNoCallsAt(ps);
    case Index(a, i) => NeedNoCalls(a); NeedNoCalls(i);
    case ResultLit(_, a) => NeedNoCalls(a);
    case Try(a) => NeedNoCalls(a);
    case _ =>
  }

  lemma {:induction false} NeedNoCallsIn(es: seq<Expr>)
    requires NeedEs(es) <= STACK_MAX
    ensures NoCallsIn(es)
    decreases es
  {
    hide NeedE, NoCalls;
    if es != [] {
      NeedNoCalls(es[0]);
      NeedNoCallsIn(es[1..]);
    }
  }

  lemma {:induction false} NeedNoCallsAt(ps: seq<Entry>)
    requires NeedPs(ps) <= STACK_MAX
    ensures NoCallsAt(ps)
    decreases ps
  {
    hide NeedE, NoCalls;
    if ps != [] {
      NeedNoCalls(ps[0].value);
      NeedNoCallsAt(ps[1..]);
    }
  }

  /** The chunk was left with v on top and the caller's part of the stack below. */
  ghost predicate HasReturned(w: World, p: Prog, ip: nat, s: State, v: Val) {
    exists junk: seq<Val> :: Yields(w, p, ip, s, Halted(State(s.stack + junk + [v], s.env, s.frames)))
  }

  /** From ip on, the machine does to a stack what the tree walker's outcome is. */
  ghost predicate DoesSame(w: World, p: Prog, ip: nat, s: State, end: nat, r: Walked<Val>) {
    match r
    case Got(v, _) => Leads(true, w, p, ip, s, end, State(s.stack + [v], s.env, s.frames))
    case Failed(err, _) => Yields(w, p, ip, s, Faulted(Raised(err)))
    case Jumped(v) => HasReturned(w, p, ip, s, v)
  }

  /** The machine on compile_expr's output and the tree walker.  In a call, and outside
      where no `?` meets an err: the same value is pushed and nothing else changes, or
      both stop with the same error, or both return the same err.  Otherwise the machine
      has returned an err while the tree walker goes on. */
  lemma EvaluatorsAgree(w: World, stale: nat -> Val, e: Expr, k: nat, p: Prog, ip: nat, s: State)
    requires GoodWorld(w) && Ready(p) && CoreE(e) && GoodEnv(s.env) && FewArgs(e)
    requires At(p.code, ip, CodeE(e, k)) && At(p.consts, k, ConstsE(e))
    requires |s.stack| + NeedE(e) <= STACK_MAX
    ensures NoCalls(e)
    ensures var inCall := s.frames != []; var r := Walk(w, stale, inCall, e, s.env, None);
      if inCall || r.held.None? then DoesSame(w, p, ip, s, ip + |CodeE(e, k)|, r)
      else exists u :: IsErr(u) && HasReturned(w, p, ip, s, u)
  {
    hide Run, LeadsIn, GoodWorld, GoodEnv, CoreE, NeedE, Eval, Walk, CodeE, ConstsE, At, Yields, NoCalls, FewArgs;
    NeedNoCalls(e);
    var inCall := s.frames != [];
    MachineEvaluates(w, 0, e, k, p, ip, s);
    WalkMirrors(w, stale, inCall, 0, |s.frames|, e, s.env, None);
    WalkAgreesIff(w, stale, inCall, 0, |s.frames|, e, s.env);
    var o := Eval(w, 0, |s.frames|, e, s.env);
    if o.Returned? {
      var junk :| Yields(w, p, ip, s, Halted(State(s.stack + junk + [o.v], o.env, s.frames)));
      assert HasReturned(w, p, ip, s, o.v);
    }
  }
}
