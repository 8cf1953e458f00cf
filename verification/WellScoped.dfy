/** Which programs the scope checker accepts: lexical scoping said with maps, where an inner
    meaning of a name hides the outer one, and the agreement of the checker with it. */
module WellScoped {
  import opened Ast
  import S = Semas

  // ----- lexical scoping -----

  /** What a name stands for: a function with so many parameters, a variable, or a name
      that is not assigned to. */
  datatype Sort = Func(arity: nat) | Variable | Fixed

  /** What is known, which names the current scope has declared, and how many times. */
  datatype Ctx = Ctx(known: map<string, Sort>, here: set<string>, count: nat)

  /** A scope takes note of its first 256 declarations. */
  function Bind(c: Ctx, x: string, s: Sort): Ctx {
    if c.count >= 256 then c else Ctx(c.known[x := s], c.here + {x}, c.count + 1)
  }

  function Enter(c: Ctx): Ctx { Ctx(c.known, {}, 0) }

  function BindAll(c: Ctx, params: seq<string>): Ctx
    decreases |params|
  {
    if params == [] then c else BindAll(Bind(c, params[0], Fixed), params[1..])
  }

  /** A function is known in its own body; its name keeps the meaning it has in this scope
      if there is one. */
  function BindFn(c: Ctx, decl: FnDecl): Ctx {
    if decl.fname in c.here then c else Bind(c, decl.fname, Func(|decl.params|))
  }

  function Behind(s: Stmt, c: Ctx): Ctx {
    if s.Decl? then Bind(c, s.x, if s.immut then Fixed else Variable)
    else if s.FnStmt? then BindFn(c, s.decl)
    else c
  }

  // ----- the uses of names, in the order of the text -----

  /** A name that is read, a name that is assigned to, and a call with its number of
      arguments, each with what is known there. */
  datatype Use = Read(x: string, c: Ctx) | Assigned(x: string, c: Ctx) | Called(f: Expr, n: nat, c: Ctx)

  function UsesE(e: Expr, c: Ctx): seq<Use>
    decreases e
  {
    match e
    case Ident(x) => [Read(x, c)]
    case Unary(_, a) => UsesE(a, c)
    case Binary(_, l, r) => UsesE(l, c) + UsesE(r, c)
    case Field(o, _) => UsesE(o, c)
    case Call(f, args) => UsesE(f, c) + (UsesEs(args, c) + [Called(f, |args|, c)])
    case ArrayLit(es) => UsesEs(es, c)
    case MapLit(ps) => UsesPs(ps, c)
    case StructLit(_, ps) => UsesPs(ps, c)
    case Index(a, i) => UsesE(a, c) + UsesE(i, c)
    case Lambda(fn) => UsesB(fn.body, BindAll(Enter(c), fn.params))
    case ResultLit(_, a) => UsesE(a, c)
    case Try(a) => UsesE(a, c)
    case _ => []
  }

  function UsesEs(es: seq<Expr>, c: Ctx): seq<Use>
    decreases es
  {
    if es == [] then [] else UsesE(es[0], c) + UsesEs(es[1..], c)
  }

  function UsesPs(ps: seq<Entry>, c: Ctx): seq<Use>
    decreases ps
  {
    if ps == [] then [] else UsesE(ps[0].value, c) + UsesPs(ps[1..], c)
  }

  function UsesOpt(e: Option<Expr>, c: Ctx): seq<Use> { if e.Some? then UsesE(e.value, c) else [] }

  function UsesS(s: Stmt, c: Ctx): seq<Use>
    decreases s
  {
    match s
    case ExprStmt(_, e) => UsesE(e, c)
    case Decl(_, _, _, init) => UsesOpt(init, c)
    case Assign(_, x, e) => UsesE(e, c) + [Assigned(x, c)]
    case Return(_, e) => UsesOpt(e, c)
    case If(chain) => UsesIf(chain, c)
    case While(_, cond, body) => UsesE(cond, c) + UsesB(body, c)
    case For(_, x, iter, body) => UsesE(iter, c) + UsesB(body, Bind(Enter(c), x, Fixed))
    case FnStmt(_, decl) => UsesB(decl.body, BindAll(Enter(BindFn(c, decl)), decl.params))
    case _ => []
  }

  function UsesSs(ss: seq<Stmt>, c: Ctx): seq<Use>
    decreases ss
  {
    if ss == [] then [] else UsesS(ss[0], c) + UsesSs(ss[1..], Behind(ss[0], c))
  }

  function UsesB(b: Block, c: Ctx): seq<Use>
    decreases b
  {
    UsesSs(b.stmts, Enter(c))
  }

  function UsesIf(chain: IfChain, c: Ctx): seq<Use>
    decreases chain
  {
    UsesE(chain.cond, c) + (UsesB(chain.thn, c) + UsesElse(chain.els, c))
  }

  function UsesElse(els: Else, c: Ctx): seq<Use>
    decreases els
  {
    match els
    case NoElse => []
    case ElseBlock(b) => UsesB(b, c)
    case ElseIf(next) => UsesIf(next, c)
  }

  // ----- good uses -----

  /** A name that is read is known; a name that is assigned to is a variable; a call of a
      known function has as many arguments as it has parameters. */
  predicate Good(u: Use) {
    match u
    case Read(x, c) => x in c.known
    case Assigned(x, c) => x in c.known && c.known[x] == Variable
    case Called(f, n, c) => f.Ident? && f.name in c.known && c.known[f.name].Func? ==> c.known[f.name].arity == n
  }

  /** What is reported of another. */
  function Report(u: Use): S.SemaErr
    requires !Good(u)
  {
    match u
    case Read(x, _) => S.UndefinedName(x)
    case Assigned(x, c) => if x in c.known then S.AssignsImmutable(x) else S.UndefinedName(x)
    case Called(f, n, c) => S.WrongArity(c.known[f.name].arity, n)
  }

  function FirstReport(us: seq<Use>): Option<S.SemaErr> {
    if us == [] then None else if !Good(us[0]) then Some(Report(us[0])) else FirstReport(us[1..])
  }

  /** The builtins and their numbers of arguments; print takes any number. */
  const BUILTINS: seq<(string, Sort)> := [
    ("print", Fixed), ("len", Func(1)), ("type", Func(1)), ("str", Func(1)), ("int", Func(1)), ("float", Func(1)),
    ("push", Func(2)), ("map", Func(2)), ("filter", Func(2)), ("abs", Func(1)), ("min", Func(2)), ("max", Func(2)),
    ("read_file", Func(1)), ("write_file", Func(2)), ("file_exists", Func(1)),
    ("map_get", Func(2)), ("map_set", Func(3)), ("map_keys", Func(1)), ("map_has", Func(2)), ("map_del", Func(2)),
    ("split", Func(2)), ("trim", Func(1)), ("contains", Func(2)), ("replace", Func(3)),
    ("starts_with", Func(2)), ("ends_with", Func(2)), ("to_upper", Func(1)), ("to_lower", Func(1)),
    ("join", Func(2)), ("substr", Func(3)), ("json_parse", Func(1)), ("json_stringify", Func(1)),
    ("env", Func(1)), ("env_default", Func(2)), ("http_get", Func(2)), ("http_post", Func(3)),
    ("exec", Func(2)), ("now", Func(0)), ("sleep", Func(1))]

  /** The first n builtins in a scope of their own. */
  function Builtins(n: nat): Ctx
    requires n <= |BUILTINS|
  {
    if n == 0 then Ctx(map[], {}, 0) else Bind(Builtins(n - 1), BUILTINS[n - 1].0, BUILTINS[n - 1].1)
  }

  const START: Ctx := Builtins(39)

  /** The functions of the main program are known from its start. */
  function WithFunctions(ss: seq<Stmt>, c: Ctx): Ctx
    decreases |ss|
  {
    if ss == [] then c
    else WithFunctions(ss[1..], if ss[0].FnStmt? then Bind(c, ss[0].decl.fname, Func(|ss[0].decl.params|)) else c)
  }

  function ProgramUses(ss: seq<Stmt>): seq<Use> { UsesSs(ss, WithFunctions(ss, START)) }

  // ----- scopes and maps -----

  function SortOf(v: S.SemaVar): Sort { if v.isFn then Func(v.arity) else if v.mut then Variable else Fixed }

  /** No function is assigned to. */
  predicate Plain(v: S.SemaVar) { !(v.isFn && v.mut) }

  predicate Same(c: Ctx, sc: S.Scopes, x: string) {
    var v := S.Lookup(sc, x);
    if v.Some? then Plain(v.value) && x in c.known && c.known[x] == SortOf(v.value) else x !in c.known
  }

  /** The scopes say what the map says. */
  ghost predicate Agree(c: Ctx, sc: S.Scopes) {
    && sc != [] && c.count == |sc[|sc| - 1]|
    && (forall x :: Same(c, sc, x))
    && (forall x :: x in c.here <==> S.LookupLocal(sc[|sc| - 1], x).Some?)
  }

  lemma AgreeAt(c: Ctx, sc: S.Scopes, x: string)
    requires Agree(c, sc)
    ensures Same(c, sc, x)
  {
  }

  lemma LocalAppend(vars: seq<S.SemaVar>, v: S.SemaVar, x: string)
    ensures S.LookupLocal(vars + [v], x) == if v.name == x then Some(v) else S.LookupLocal(vars, x)
  {
    Earlier(vars, v, x, |vars|);
  }

  lemma {:induction false} Earlier(vars: seq<S.SemaVar>, v: S.SemaVar, x: string, n: nat)
    requires n <= |vars|
    ensures S.FindIn(vars + [v], x, n) == S.FindIn(vars, x, n)
    decreases n
  {
    if n > 0 { Earlier(vars, v, x, n - 1); }
  }

  lemma Binds(c: Ctx, sc: S.Scopes, v: S.SemaVar)
    requires Agree(c, sc) && Plain(v)
    ensures Agree(Bind(c, v.name, SortOf(v)), S.Define(sc, v))
  {
    hide S.LookupLocal;
    var c1, sc1 := Bind(c, v.name, SortOf(v)), S.Define(sc, v);
    var last := sc[|sc| - 1];
    if |last| < 256 {
      assert sc1[..|sc1| - 1] == sc[..|sc| - 1] && sc1[|sc1| - 1] == last + [v];
      forall x ensures Same(c1, sc1, x) && (x in c1.here <==> S.LookupLocal(last + [v], x).Some?) {
        AgreeAt(c, sc, x);
        LocalAppend(last, v, x);
      }
    }
  }

  lemma Enters(c: Ctx, sc: S.Scopes)
    requires Agree(c, sc)
    ensures Agree(Enter(c), sc + [[]])
  {
    var sc1 := sc + [[]];
    assert sc1[..|sc1| - 1] == sc && sc1[|sc1| - 1] == [];
    forall x ensures Same(Enter(c), sc1, x) { AgreeAt(c, sc, x); }
  }

  lemma {:induction false} BindsAll(c: Ctx, sc: S.Scopes, params: seq<string>)
    requires Agree(c, sc)
    ensures Agree(BindAll(c, params), S.DefineParams(sc, params))
    decreases |params|
  {
    hide Agree;
    if params != [] {
      var v := S.SemaVar(params[0], false, false, 0);
      AgreeSome(c, sc);
      Binds(c, sc, v);
      BindsAll(Bind(c, params[0], Fixed), S.Define(sc, v), params[1..]);
    }
  }

  lemma AgreeSome(c: Ctx, sc: S.Scopes)
    requires Agree(c, sc)
    ensures sc != []
  {
  }

  lemma BindsFn(c: Ctx, sc: S.Scopes, s: Stmt)
    requires Agree(c, sc) && s.FnStmt?
    ensures sc != [] && Agree(BindFn(c, s.decl), S.After(s, sc))
  {
    hide S.LookupLocal, S.Define;
    if s.decl.fname !in c.here { Binds(c, sc, S.Fn(s.decl.fname, |s.decl.params|)); }
  }

  lemma BehindIs(c: Ctx, sc: S.Scopes, s: Stmt)
    requires Agree(c, sc)
    ensures sc != [] && Agree(Behind(s, c), S.After(s, sc))
  {
    hide Agree, S.Define, S.LookupLocal, Bind, BindFn;
    AgreeSome(c, sc);
    if s.Decl? { Binds(c, sc, S.SemaVar(s.x, !s.immut, false, 0)); }
    if s.FnStmt? { BindsFn(c, sc, s); }
  }

  // ----- the checker agrees -----

  lemma {:induction false} ReportAppend(a: seq<Use>, b: seq<Use>)
    ensures FirstReport(a + b) == S.First(FirstReport(a), FirstReport(b))
    decreases |a|
  {
    hide Good, Report;
    if a == [] {
      assert a + b == b;
    } else {
      ReportAppend(a[1..], b);
      assert (a + b)[1..] == a[1..] + b && (a + b)[0] == a[0];
    }
  }

  lemma OneReport(u: Use)
    ensures FirstReport([u]) == (if Good(u) then None else Some(Report(u))) && FirstReport([]) == None
  {
    hide Good, Report;
    assert [u][1..] == [];
  }

  lemma ReadIs(x: string, c: Ctx, sc: S.Scopes)
    requires Agree(c, sc)
    ensures FirstReport([Read(x, c)]) == if S.Lookup(sc, x).None? then Some(S.UndefinedName(x)) else None
  {
    hide Agree, S.Lookup;
    OneReport(Read(x, c));
    AgreeAt(c, sc, x);
  }

  lemma CallIs(f: Expr, n: nat, c: Ctx, sc: S.Scopes)
    requires Agree(c, sc)
    ensures FirstReport([Called(f, n, c)]) == S.ArityErr(f, n, sc)
  {
    hide Agree, S.Lookup;
    OneReport(Called(f, n, c));
    if f.Ident? { AgreeAt(c, sc, f.name); }
  }

  lemma AssignIs(x: string, c: Ctx, sc: S.Scopes)
    requires Agree(c, sc)
    ensures FirstReport([Assigned(x, c)]) == S.AssignErr(x, sc)
  {
    hide Agree, S.Lookup;
    OneReport(Assigned(x, c));
    AgreeAt(c, sc, x);
  }

  lemma NoReport()
    ensures FirstReport([]) == None
  {
  }

  lemma {:induction false} ExprIs(e: Expr, c: Ctx, sc: S.Scopes)
    requires Agree(c, sc)
    ensures S.ErrE(e, sc) == FirstReport(UsesE(e, c))
    decreases e, 1
  {
    hide Agree, FirstReport, S.Lookup, S.ErrEs, S.ErrPs, S.ErrB, S.ArityErr, UsesEs, UsesPs, UsesB, S.DefineParams,
      BindAll;
    NoReport();
    match e
    case Ident(x) => ReadIs(x, c, sc);
    case Unary(_, a) => ExprIs(a, c, sc);
    case Binary(_, l, r) => TwoAre(e, l, r, c, sc);
    case Field(o, _) => ExprIs(o, c, sc);
    case Call(f, args) =>
      ExprIs(f, c, sc);
      ExprsAre(args, c, sc);
      CallIs(f, |args|, c, sc);
      ReportAppend(UsesEs(args, c), [Called(f, |args|, c)]);
      ReportAppend(UsesE(f, c), UsesEs(args, c) + [Called(f, |args|, c)]);
    case ArrayLit(es) => ExprsAre(es, c, sc);
    case MapLit(ps) => EntriesAre(ps, c, sc);
    case StructLit(_, ps) => EntriesAre(ps, c, sc);
    case Index(a, i) => TwoAre(e, a, i, c, sc);
    case Lambda(fn) =>
      Enters(c, sc);
      BindsAll(Enter(c), sc + [[]], fn.params);
      BlockIs(fn.body, BindAll(Enter(c), fn.params), S.DefineParams(sc + [[]], fn.params));
    case ResultLit(_, a) => ExprIs(a, c, sc);
    case Try(a) => ExprIs(a, c, sc);
    case _ =>
  }

  lemma {:induction false} TwoAre(e: Expr, l: Expr, r: Expr, c: Ctx, sc: S.Scopes)
    requires Agree(c, sc) && ((e.Binary? && l == e.left && r == e.right) || e == Index(l, r))
    ensures S.First(S.ErrE(l, sc), S.ErrE(r, sc)) == FirstReport(UsesE(l, c) + UsesE(r, c))
    decreases e, 0
  {
    hide Agree, FirstReport, S.ErrE, UsesE;
    ExprIs(l, c, sc);
    ExprIs(r, c, sc);
    ReportAppend(UsesE(l, c), UsesE(r, c));
  }

  lemma {:induction false} ExprsAre(es: seq<Expr>, c: Ctx, sc: S.Scopes)
    requires Agree(c, sc)
    ensures S.ErrEs(es, sc) == FirstReport(UsesEs(es, c))
    decreases es, 0
  {
    hide Agree, FirstReport, S.ErrE, UsesE;
    NoReport();
    if es != [] {
      ExprIs(es[0], c, sc);
      ExprsAre(es[1..], c, sc);
      ReportAppend(UsesE(es[0], c), UsesEs(es[1..], c));
    }
  }

  lemma {:induction false} EntriesAre(ps: seq<Entry>, c: Ctx, sc: S.Scopes)
    requires Agree(c, sc)
    ensures S.ErrPs(ps, sc) == FirstReport(UsesPs(ps, c))
    decreases ps, 0
  {
    hide Agree, FirstReport, S.ErrE, UsesE;
    NoReport();
    if ps != [] {
      ExprIs(ps[0].value, c, sc);
      EntriesAre(ps[1..], c, sc);
      ReportAppend(UsesE(ps[0].value, c), UsesPs(ps[1..], c));
    }
  }

  lemma {:induction false} OptIs(e: Option<Expr>, c: Ctx, sc: S.Scopes)
    requires Agree(c, sc)
    ensures S.ErrOpt(e, sc) == FirstReport(UsesOpt(e, c))
    decreases e, 2
  {
    hide Agree, FirstReport, S.ErrE, UsesE;
    NoReport();
    if e.Some? { ExprIs(e.value, c, sc); }
  }

  lemma {:induction false} StmtIs(s: Stmt, c: Ctx, sc: S.Scopes)
    requires Agree(c, sc)
    ensures sc != [] && S.ErrS(s, sc) == FirstReport(UsesS(s, c))
    decreases s, 1
  {
    hide Agree, FirstReport, S.ErrE, UsesE, S.ErrB, UsesB, S.ErrIf, UsesIf, S.AssignErr, S.DefineParams, BindAll,
      S.Define, Bind, S.After, BindFn;
    AgreeSome(c, sc);
    NoReport();
    match s
    case ExprStmt(_, e) => ExprIs(e, c, sc);
    case Decl(_, _, _, init) => OptIs(init, c, sc);
    case Assign(_, x, e) =>
      ExprIs(e, c, sc);
      AssignIs(x, c, sc);
      ReportAppend(UsesE(e, c), [Assigned(x, c)]);
    case Return(_, e) => OptIs(e, c, sc);
    case If(chain) => IfIs(chain, c, sc);
    case While(_, cond, body) =>
      ExprIs(cond, c, sc);
      BlockIs(body, c, sc);
      ReportAppend(UsesE(cond, c), UsesB(body, c));
    case For(_, x, iter, body) =>
      var v := S.SemaVar(x, false, false, 0);
      var c1 := Bind(Enter(c), x, Fixed);
      ExprIs(iter, c, sc);
      Enters(c, sc);
      Binds(Enter(c), sc + [[]], v);
      BlockIs(body, c1, S.Define(sc + [[]], v));
      ReportAppend(UsesE(iter, c), UsesB(body, c1));
    case FnStmt(_, decl) =>
      var c1, sc1 := BindFn(c, decl), S.After(s, sc);
      BindsFn(c, sc, s);
      Enters(c1, sc1);
      BindsAll(Enter(c1), sc1 + [[]], decl.params);
      BlockIs(decl.body, BindAll(Enter(c1), decl.params), S.DefineParams(sc1 + [[]], decl.params));
    case _ =>
  }

  lemma {:induction false} StmtsAre(ss: seq<Stmt>, c: Ctx, sc: S.Scopes)
    requires Agree(c, sc)
    ensures sc != [] && S.ErrSs(ss, sc) == FirstReport(UsesSs(ss, c))
    decreases ss, 0
  {
    hide Agree, FirstReport, S.ErrS, UsesS, S.After, Behind;
    AgreeSome(c, sc);
    NoReport();
    if ss != [] {
      StmtIs(ss[0], c, sc);
      BehindIs(c, sc, ss[0]);
      StmtsAre(ss[1..], Behind(ss[0], c), S.After(ss[0], sc));
      ReportAppend(UsesS(ss[0], c), UsesSs(ss[1..], Behind(ss[0], c)));
    }
  }

  lemma {:induction false} BlockIs(b: Block, c: Ctx, sc: S.Scopes)
    requires Agree(c, sc)
    ensures S.ErrB(b, sc) == FirstReport(UsesB(b, c))
    decreases b, 0
  {
    hide Agree, FirstReport, S.ErrSs, UsesSs;
    Enters(c, sc);
    StmtsAre(b.stmts, Enter(c), sc + [[]]);
  }

  lemma {:induction false} IfIs(chain: IfChain, c: Ctx, sc: S.Scopes)
    requires Agree(c, sc)
    ensures S.ErrIf(chain, sc) == FirstReport(UsesIf(chain, c))
    decreases chain, 0
  {
    hide Agree, FirstReport, S.ErrE, UsesE, S.ErrB, UsesB;
    ExprIs(chain.cond, c, sc);
    BlockIs(chain.thn, c, sc);
    NoReport();
    match chain.els {
      case NoElse =>
      case ElseBlock(b) => BlockIs(b, c, sc);
      case ElseIf(next) => IfIs(next, c, sc);
    }
    ReportAppend(UsesB(chain.thn, c), UsesElse(chain.els, c));
    ReportAppend(UsesE(chain.cond, c), UsesB(chain.thn, c) + UsesElse(chain.els, c));
  }

  // ----- the start -----

  /** One builtin: its name, whether its calls are counted, and its arguments. */
  lemma BuiltinIs(i: nat)
    requires i < 39
    ensures var v := S.Builtins()[i]; Plain(v) && BUILTINS[i] == (v.name, SortOf(v))
  {
    if i < 10 {
      FirstTen(i);
    } else if i < 20 {
      SecondTen(i);
    } else if i < 30 {
      ThirdTen(i);
    } else {
      LastNine(i);
    }
  }

  lemma FirstTen(i: nat)
    requires i < 10
    ensures BUILTINS[i].0 == BUILTIN_NAMES[i] && BUILTINS[i].1 == if i == 0 then Fixed else Func(S.ARITIES[i])
  {
    assert i == 0 || i == 1 || i == 2 || i == 3 || i == 4 || i == 5 || i == 6 || i == 7 || i == 8 || i == 9;
  }

  lemma SecondTen(i: nat)
    requires 10 <= i < 20
    ensures BUILTINS[i].0 == BUILTIN_NAMES[i] && BUILTINS[i].1 == Func(S.ARITIES[i])
  {
    assert i == 10 || i == 11 || i == 12 || i == 13 || i == 14 || i == 15 || i == 16 || i == 17 || i == 18 || i == 19;
  }

  lemma ThirdTen(i: nat)
    requires 20 <= i < 30
    ensures BUILTINS[i].0 == BUILTIN_NAMES[i] && BUILTINS[i].1 == Func(S.ARITIES[i])
  {
    assert i == 20 || i == 21 || i == 22 || i == 23 || i == 24 || i == 25 || i == 26 || i == 27 || i == 28 || i == 29;
  }

  lemma LastNine(i: nat)
    requires 30 <= i < 39
    ensures BUILTINS[i].0 == BUILTIN_NAMES[i + 1] && BUILTINS[i].1 == Func(S.ARITIES[i])
  {
    assert i == 30 || i == 31 || i == 32 || i == 33 || i == 34 || i == 35 || i == 36 || i == 37 || i == 38;
  }

  lemma NextBuiltin(n: nat)
    requires 0 < n <= 39
    ensures var v := S.Builtins()[n - 1]; Plain(v) && Builtins(n) == Bind(Builtins(n - 1), v.name, SortOf(v))
  {
    hide S.Builtins, Bind;
    BuiltinIs(n - 1);
  }

  lemma NextDefined(vars: seq<S.SemaVar>, n: nat)
    requires 0 < n <= |vars| <= 256
    ensures S.Define([vars[..n - 1]], vars[n - 1]) == [vars[..n]]
  {
    assert vars[..n - 1] + [vars[n - 1]] == vars[..n];
  }

  lemma {:induction false} StartAgrees(n: nat)
    requires n <= 39
    ensures Agree(Builtins(n), [S.Builtins()[..n]])
    decreases n
  {
    var all := S.Builtins();
    if n == 0 {
      assert all[..0] == [];
      NothingKnown();
    } else {
      hide *;
      StartAgrees(n - 1);
      NextBuiltin(n);
      Binds(Builtins(n - 1), [all[..n - 1]], all[n - 1]);
      NextDefined(all, n);
    }
  }

  lemma NothingKnown()
    ensures Agree(Ctx(map[], {}, 0), [[]])
  {
    var sc: S.Scopes := [[]];
    forall x ensures S.Lookup(sc, x).None? { assert sc[..0] == []; }
  }

  lemma {:induction false} HoistAgrees(ss: seq<Stmt>, c: Ctx, sc: S.Scopes)
    requires Agree(c, sc)
    ensures sc != [] && Agree(WithFunctions(ss, c), S.Hoist(ss, sc))
    decreases |ss|
  {
    hide Agree, S.Define, Bind;
    AgreeSome(c, sc);
    if ss != [] {
      if ss[0].FnStmt? {
        var v := S.Fn(ss[0].decl.fname, |ss[0].decl.params|);
        Binds(c, sc, v);
        HoistAgrees(ss[1..], Bind(c, v.name, Func(v.arity)), S.Define(sc, v));
      } else {
        HoistAgrees(ss[1..], c, sc);
      }
    }
  }

  lemma {:induction false} NoneBad(us: seq<Use>)
    ensures FirstReport(us).None? <==> forall i :: 0 <= i < |us| ==> Good(us[i])
    decreases |us|
  {
    hide Good, Report;
    if us != [] {
      NoneBad(us[1..]);
      if FirstReport(us).None? {
        forall i | 0 <= i < |us| ensures Good(us[i]) { if i > 0 { assert us[i] == us[1..][i - 1]; } }
      } else if Good(us[0]) {
        var i :| 0 <= i < |us[1..]| && !Good(us[1..][i]);
        assert us[i + 1] == us[1..][i];
      }
    }
  }

  /** The checker accepts a program if and only if every use of a name in it is good, and
      otherwise reports the first that is not. */
  lemma AcceptsExactlyWellScoped(ss: seq<Stmt>)
    ensures S.ProgramErr(ss) == FirstReport(ProgramUses(ss))
    ensures S.ProgramErr(ss).None? <==> forall i :: 0 <= i < |ProgramUses(ss)| ==> Good(ProgramUses(ss)[i])
  {
    hide Agree, Good, FirstReport, S.ErrSs, UsesSs, S.Hoist, WithFunctions, S.Builtins, Builtins;
    var all := S.Builtins();
    assert all[..39] == all;
    StartAgrees(39);
    HoistAgrees(ss, START, [all]);
    StmtsAre(ss, WithFunctions(ss, START), S.Hoist(ss, [all]));
    NoneBad(ProgramUses(ss));
  }
}
