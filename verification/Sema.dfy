/** The scope checker (src/sema.c): what it reports, as functions of the tree and
    the chain of scopes, and the checker itself, which pushes, pops and fills
    scopes while it walks. */
module Semas {
  import opened Ast

  const MAX_SCOPE_VARS: nat := 256

  datatype SemaVar = SemaVar(name: string, mut: bool, isFn: bool, arity: nat)

  /** A chain of scopes, the innermost last. */
  type Scopes = seq<seq<SemaVar>>

  datatype SemaErr = UndefinedName(name: string) | AssignsImmutable(name: string) | WrongArity(want: nat, got: nat)

  const NBUILTINS: nat := 39

  /** How many arguments each builtin takes; print takes any number. */
  const ARITIES: seq<nat> := [
    0, 1, 1, 1, 1, 1, 2, 2, 2, 1, 2, 2, 1, 2, 1,
    2, 3, 1, 2, 2,
    2, 1, 2, 3, 2, 2, 1, 1, 2, 3,
    1, 1, 1, 2, 2, 3, 2, 0, 1]

  /** What the outermost scope starts with: the names the compiler resolves, in
      the order of their ids. */
  function Builtins(): (r: seq<SemaVar>)
    ensures |r| == NBUILTINS
  {
    seq(NBUILTINS, i requires 0 <= i < NBUILTINS =>
      SemaVar(BUILTIN_NAMES[if i < 30 then i else i + 1], false, i != 0, ARITIES[i]))
  }

  function Fn(name: string, arity: nat): SemaVar { SemaVar(name, false, true, arity) }

  // ----- scopes -----

  /** The last variable of a name among the first n of a scope. */
  function FindIn(vars: seq<SemaVar>, name: string, n: nat): (r: Option<SemaVar>)
    requires n <= |vars|
  {
    if n == 0 then None
    else if vars[n - 1].name == name then Some(vars[n - 1])
    else FindIn(vars, name, n - 1)
  }

  function LookupLocal(vars: seq<SemaVar>, name: string): Option<SemaVar> { FindIn(vars, name, |vars|) }

  function Lookup(sc: Scopes, name: string): Option<SemaVar> {
    if sc == [] then None else
    var r := LookupLocal(sc[|sc| - 1], name);
    if r.Some? then r else Lookup(sc[..|sc| - 1], name)
  }

  /** scope_define: the 257th variable of a scope is dropped without a word. */
  function Define(sc: Scopes, v: SemaVar): Scopes
    requires sc != []
  {
    var last := sc[|sc| - 1];
    if |last| >= MAX_SCOPE_VARS then sc else sc[..|sc| - 1] + [last + [v]]
  }

  function DefineParams(sc: Scopes, params: seq<string>): (r: Scopes)
    requires sc != []
    ensures |r| == |sc|
    decreases |params|
  {
    if params == [] then sc else DefineParams(Define(sc, SemaVar(params[0], false, false, 0)), params[1..])
  }

  // ----- the first error -----

  function First(a: Option<SemaErr>, b: Option<SemaErr>): Option<SemaErr> { if a.Some? then a else b }

  function ArityErr(callee: Expr, n: nat, sc: Scopes): Option<SemaErr> {
    if !callee.Ident? then None else
    var v := Lookup(sc, callee.name);
    if v.Some? && v.value.isFn && v.value.arity != n then Some(WrongArity(v.value.arity, n)) else None
  }

  function ErrE(e: Expr, sc: Scopes): Option<SemaErr>
    decreases e
  {
    match e
    case Ident(x) => if Lookup(sc, x).None? then Some(UndefinedName(x)) else None
    case Unary(_, a) => ErrE(a, sc)
    case Binary(_, l, r) => First(ErrE(l, sc), ErrE(r, sc))
    case Field(o, _) => ErrE(o, sc)
    case Call(callee, args) => First(ErrE(callee, sc), First(ErrEs(args, sc), ArityErr(callee, |args|, sc)))
    case ArrayLit(es) => ErrEs(es, sc)
    case MapLit(ps) => ErrPs(ps, sc)
    case StructLit(_, ps) => ErrPs(ps, sc)
    case Index(a, i) => First(ErrE(a, sc), ErrE(i, sc))
    case Lambda(fn) => ErrB(fn.body, DefineParams(sc + [[]], fn.params))
    case ResultLit(_, a) => ErrE(a, sc)
    case Try(a) => ErrE(a, sc)
    case _ => None
  }

  function ErrEs(es: seq<Expr>, sc: Scopes): Option<SemaErr>
    decreases es
  {
    if es == [] then None else First(ErrE(es[0], sc), ErrEs(es[1..], sc))
  }

  function ErrPs(ps: seq<Entry>, sc: Scopes): Option<SemaErr>
    decreases ps
  {
    if ps == [] then None else First(ErrE(ps[0].value, sc), ErrPs(ps[1..], sc))
  }

  function AssignErr(x: string, sc: Scopes): Option<SemaErr> {
    var v := Lookup(sc, x);
    if v.None? then Some(UndefinedName(x)) else if !v.value.mut then Some(AssignsImmutable(x)) else None
  }

  /** The scopes after a statement: declarations extend the innermost one; a
      function that is already registered there is not defined again. */
  function After(s: Stmt, sc: Scopes): (r: Scopes)
    requires sc != []
    ensures |r| == |sc|
  {
    if s.Decl? then Define(sc, SemaVar(s.x, !s.immut, false, 0))
    else if s.FnStmt? && LookupLocal(sc[|sc| - 1], s.decl.fname).None? then
      Define(sc, Fn(s.decl.fname, |s.decl.params|))
    else sc
  }

  function ErrOpt(e: Option<Expr>, sc: Scopes): Option<SemaErr> {
    if e.Some? then ErrE(e.value, sc) else None
  }

  function ErrS(s: Stmt, sc: Scopes): Option<SemaErr>
    requires sc != []
    decreases s
  {
    match s
    case ExprStmt(_, e) => ErrE(e, sc)
    case Decl(_, _, _, init) => ErrOpt(init, sc)
    case Assign(_, x, e) => First(ErrE(e, sc), AssignErr(x, sc))
    case Return(_, e) => ErrOpt(e, sc)
    case If(chain) => ErrIf(chain, sc)
    case While(_, cond, body) => First(ErrE(cond, sc), ErrB(body, sc))
    case For(_, x, iter, body) =>
      First(ErrE(iter, sc), ErrB(body, Define(sc + [[]], SemaVar(x, false, false, 0))))
    case Break(_) => None
    case Continue(_) => None
    case FnStmt(_, decl) => ErrB(decl.body, DefineParams(After(s, sc) + [[]], decl.params))
    case StructDecl(_) => None
  }

  function ErrSs(ss: seq<Stmt>, sc: Scopes): Option<SemaErr>
    requires sc != []
    decreases ss
  {
    if ss == [] then None else First(ErrS(ss[0], sc), ErrSs(ss[1..], After(ss[0], sc)))
  }

  function ErrB(b: Block, sc: Scopes): Option<SemaErr>
    decreases b
  {
    ErrSs(b.stmts, sc + [[]])
  }

  function ErrIf(c: IfChain, sc: Scopes): Option<SemaErr>
    decreases c
  {
    First(ErrE(c.cond, sc), First(ErrB(c.thn, sc),
      match c.els
      case NoElse => None
      case ElseBlock(b) => ErrB(b, sc)
      case ElseIf(c1) => ErrIf(c1, sc)))
  }

  /** Function names of the main program, registered before anything is checked. */
  function Hoist(ss: seq<Stmt>, sc: Scopes): (r: Scopes)
    requires sc != []
    ensures r != []
    decreases |ss|
  {
    if ss == [] then sc
    else Hoist(ss[1..], if ss[0].FnStmt? then Define(sc, Fn(ss[0].decl.fname, |ss[0].decl.params|)) else sc)
  }

  function ProgramErr(ss: seq<Stmt>): Option<SemaErr> {
    ErrSs(ss, Hoist(ss, [Builtins()]))
  }

  // ----- the checker -----

  class Sema {
    var scopes: Scopes
    var error: Option<SemaErr>

    constructor ()
      ensures scopes == [Builtins()] && error.None?
    {
      scopes := [Builtins()];
      error := None;
    }

    /** scope_push */
    method Push()
      modifies this`scopes
      ensures scopes == old(scopes) + [[]]
    {
      scopes := scopes + [[]];
    }

    /** scope_pop: the outermost scope stays. */
    method Pop()
      modifies this`scopes
      ensures scopes == if |old(scopes)| > 1 then old(scopes)[..|old(scopes)| - 1] else old(scopes)
    {
      if |scopes| > 1 { scopes := scopes[..|scopes| - 1]; }
    }

    /** scope_define in the current scope. */
    method Add(v: SemaVar)
      requires scopes != []
      modifies this`scopes
      ensures scopes == Define(old(scopes), v)
    {
      var last := scopes[|scopes| - 1];
      if |last| < MAX_SCOPE_VARS { scopes := scopes[..|scopes| - 1] + [last + [v]]; }
    }

    method AddParams(params: seq<string>)
      requires scopes != []
      modifies this`scopes
      ensures scopes == DefineParams(old(scopes), params)
    {
      assert params[0..] == params;
      for i := 0 to |params|
        invariant scopes != [] && DefineParams(scopes, params[i..]) == DefineParams(old(scopes), params)
      {
        assert params[i..][0] == params[i] && params[i..][1..] == params[i + 1..];
        Add(SemaVar(params[i], false, false, 0));
      }
    }

    /** scope_lookup_local */
    method FindLocal(vars: seq<SemaVar>, name: string) returns (r: Option<SemaVar>)
      ensures r == LookupLocal(vars, name)
    {
      var i: nat := |vars|;
      while i > 0
        invariant i <= |vars| && FindIn(vars, name, i) == LookupLocal(vars, name)
      {
        i := i - 1;
        if vars[i].name == name { return Some(vars[i]); }
      }
      r := None;
    }

    /** scope_lookup */
    method Find(name: string) returns (r: Option<SemaVar>)
      ensures r == Lookup(scopes, name)
    {
      hide LookupLocal;
      var k: nat := |scopes|;
      assert scopes[..k] == scopes;
      while k > 0
        invariant k <= |scopes| && Lookup(scopes[..k], name) == Lookup(scopes, name)
      {
        assert scopes[..k][..k - 1] == scopes[..k - 1];
        r := FindLocal(scopes[k - 1], name);
        if r.Some? { return; }
        k := k - 1;
      }
      r := None;
    }

    method CheckExpr(e: Expr)
      requires scopes != []
      modifies this
      ensures scopes == old(scopes) && error == First(old(error), ErrE(e, scopes))
      decreases e, 1
    {
      hide ErrEs, ErrPs, ErrB, ArityErr, DefineParams;
      if error.Some? { return; }
      match e
      case Ident(x) =>
        var v := Find(x);
        if v.None? { error := Some(UndefinedName(x)); }
      case Unary(_, a) => CheckExpr(a);
      case Binary(_, l, r) =>
        CheckExpr(l);
        CheckExpr(r);
      case Field(o, _) => CheckExpr(o);
      case Call(callee, args) =>
        CheckExpr(callee);
        CheckAll(args);
        if error.None? { CheckArity(callee, |args|); }
      case ArrayLit(es) => CheckAll(es);
      case MapLit(ps) => CheckEntries(ps);
      case StructLit(_, ps) => CheckEntries(ps);
      case Index(a, i) =>
        CheckExpr(a);
        CheckExpr(i);
      case Lambda(fn) => CheckFunction(fn);
      case ResultLit(_, a) => CheckExpr(a);
      case Try(a) => CheckExpr(a);
      case _ =>
    }

    method CheckArity(callee: Expr, n: nat)
      requires error.None?
      modifies this`error
      ensures error == ArityErr(callee, n, scopes)
    {
      if callee.Ident? {
        var v := Find(callee.name);
        if v.Some? && v.value.isFn && v.value.arity != n { error := Some(WrongArity(v.value.arity, n)); }
      }
    }

    method CheckAll(es: seq<Expr>)
      requires scopes != []
      modifies this
      ensures scopes == old(scopes) && error == First(old(error), ErrEs(es, scopes))
      decreases es, 0
    {
      hide ErrE;
      assert es[0..] == es;
      for i := 0 to |es|
        invariant scopes == old(scopes) && First(error, ErrEs(es[i..], scopes)) == First(old(error), ErrEs(es, scopes))
      {
        assert es[i..][0] == es[i] && es[i..][1..] == es[i + 1..];
        CheckExpr(es[i]);
      }
    }

    method CheckEntries(ps: seq<Entry>)
      requires scopes != []
      modifies this
      ensures scopes == old(scopes) && error == First(old(error), ErrPs(ps, scopes))
      decreases ps, 0
    {
      hide ErrE;
      assert ps[0..] == ps;
      for i := 0 to |ps|
        invariant scopes == old(scopes) && First(error, ErrPs(ps[i..], scopes)) == First(old(error), ErrPs(ps, scopes))
      {
        assert ps[i..][0] == ps[i] && ps[i..][1..] == ps[i + 1..];
        CheckExpr(ps[i].value);
      }
    }

    /** Parameters and body in a scope of their own. */
    method CheckFunction(fn: FnDecl)
      requires scopes != []
      modifies this
      ensures scopes == old(scopes)
      ensures error == First(old(error), ErrB(fn.body, DefineParams(scopes + [[]], fn.params)))
      decreases fn, 0
    {
      hide ErrB;
      Push();
      AddParams(fn.params);
      OnlyInnermost(old(scopes) + [[]], fn.params);
      CheckBlock(fn.body);
      Pop();
    }

    /** Statements define in the innermost scope only. */
    method CheckStmt(s: Stmt)
      requires scopes != []
      modifies this
      ensures |scopes| == |old(scopes)| && scopes[..|scopes| - 1] == old(scopes)[..|scopes| - 1]
      ensures error == First(old(error), ErrS(s, old(scopes)))
      ensures error.None? ==> scopes == After(s, old(scopes))
      decreases s, 1
    {
      hide ErrE, ErrB, ErrIf, LookupLocal, DefineParams, AssignErr;
      if error.Some? { return; }
      match s
      case ExprStmt(_, e) => CheckExpr(e);
      case Decl(_, immut, x, init) =>
        if init.Some? { CheckExpr(init.value); }
        if error.None? { Add(SemaVar(x, !immut, false, 0)); }
      case Assign(_, x, e) =>
        CheckExpr(e);
        if error.None? { CheckAssign(x); }
      case Return(_, value) => if value.Some? { CheckExpr(value.value); }
      case If(chain) => CheckIf(chain);
      case While(_, cond, body) =>
        CheckExpr(cond);
        CheckBlock(body);
      case For(_, x, iter, body) =>
        CheckExpr(iter);
        Push();
        Add(SemaVar(x, false, false, 0));
        CheckBlock(body);
        Pop();
      case Break(_) =>
      case Continue(_) =>
      case FnStmt(_, decl) =>
        var v := FindLocal(scopes[|scopes| - 1], decl.fname);
        if v.None? { Add(Fn(decl.fname, |decl.params|)); }
        CheckFunction(decl);
      case StructDecl(_) =>
    }

    method CheckAssign(x: string)
      requires error.None?
      modifies this`error
      ensures error == AssignErr(x, scopes)
    {
      var v := Find(x);
      if v.None? { error := Some(UndefinedName(x)); }
      else if !v.value.mut { error := Some(AssignsImmutable(x)); }
    }

    method CheckIf(c: IfChain)
      requires scopes != []
      modifies this
      ensures scopes == old(scopes) && error == First(old(error), ErrIf(c, scopes))
      decreases c, 0
    {
      hide ErrE, ErrB;
      CheckExpr(c.cond);
      CheckBlock(c.thn);
      match c.els
      case NoElse =>
      case ElseBlock(b) => CheckBlock(b);
      case ElseIf(c1) => CheckIf(c1);
    }

    method CheckStmts(ss: seq<Stmt>)
      requires scopes != []
      modifies this
      ensures |scopes| == |old(scopes)| && scopes[..|scopes| - 1] == old(scopes)[..|scopes| - 1]
      ensures error == First(old(error), ErrSs(ss, old(scopes)))
      decreases ss, 0
    {
      hide ErrS, After;
      assert ss[0..] == ss;
      for i := 0 to |ss|
        invariant |scopes| == |old(scopes)| && scopes[..|scopes| - 1] == old(scopes)[..|scopes| - 1]
        invariant First(error, ErrSs(ss[i..], scopes)) == First(old(error), ErrSs(ss, old(scopes)))
      {
        assert ss[i..][0] == ss[i] && ss[i..][1..] == ss[i + 1..];
        CheckStmt(ss[i]);
        if error.Some? { return; }
      }
    }

    method CheckBlock(b: Block)
      requires scopes != []
      modifies this
      ensures scopes == old(scopes) && error == First(old(error), ErrB(b, scopes))
      decreases b, 0
    {
      hide ErrSs;
      if error.Some? { return; }
      Push();
      CheckStmts(b.stmts);
      Pop();
    }

    /** agl_sema_check */
    method Check(program: seq<Stmt>) returns (ok: bool)
      requires scopes == [Builtins()] && error.None?
      modifies this
      ensures error == ProgramErr(program) && ok == error.None?
    {
      hide ErrSs;
      assert program[0..] == program;
      for i := 0 to |program|
        invariant scopes != [] && error.None? && Hoist(program[i..], scopes) == Hoist(program, [Builtins()])
      {
        assert program[i..][0] == program[i] && program[i..][1..] == program[i + 1..];
        if program[i].FnStmt? { Add(Fn(program[i].decl.fname, |program[i].decl.params|)); }
      }
      CheckStmts(program);
      ok := error.None?;
    }
  }

  /** Parameters go to the innermost scope. */
  lemma {:induction false} OnlyInnermost(sc: Scopes, params: seq<string>)
    requires sc != []
    ensures DefineParams(sc, params)[..|sc| - 1] == sc[..|sc| - 1]
    decreases |params|
  {
    if params != [] { OnlyInnermost(Define(sc, SemaVar(params[0], false, false, 0)), params[1..]); }
  }
}
