/** Which programs the compiler refuses, said by the loops, breaks and continues of a program
    in the order of its text, each with the number of loops around it in its function. */
module LoopSites {
  import opened Ast
  import opened CodeGen
  import opened Limits

  datatype Site = ALoop(around: nat) | ABreak(around: nat) | AContinue(around: nat)

  function SitesE(e: Expr): seq<Site>
    decreases e
  {
    match e
    case Unary(_, a) => SitesE(a)
    case Binary(_, l, r) => SitesE(l) + SitesE(r)
    case Field(o, _) => SitesE(o)
    case Call(f, args) => SitesE(f) + SitesEs(args)
    case ArrayLit(es) => SitesEs(es)
    case MapLit(ps) => SitesPs(ps)
    case StructLit(_, ps) => SitesPs(ps)
    case Index(a, i) => SitesE(a) + SitesE(i)
    case Lambda(fn) => SitesSs(fn.body.stmts, 0)
    case ResultLit(_, a) => SitesE(a)
    case Try(a) => SitesE(a)
    case _ => []
  }

  function SitesEs(es: seq<Expr>): seq<Site>
    decreases es
  {
    if es == [] then [] else SitesE(es[0]) + SitesEs(es[1..])
  }

  function SitesPs(ps: seq<Entry>): seq<Site>
    decreases ps
  {
    if ps == [] then [] else SitesE(ps[0].value) + SitesPs(ps[1..])
  }

  function SitesOpt(e: Option<Expr>): seq<Site> { if e.Some? then SitesE(e.value) else [] }

  function SitesS(s: Stmt, d: nat): seq<Site>
    decreases s
  {
    match s
    case ExprStmt(_, e) => SitesE(e)
    case Decl(_, _, _, init) => SitesOpt(init)
    case Assign(_, _, e) => SitesE(e)
    case Return(_, e) => SitesOpt(e)
    case If(c) => SitesIf(c, d)
    case While(_, cond, body) => [ALoop(d)] + (SitesE(cond) + SitesSs(body.stmts, d + 1))
    case For(_, _, iter, body) => [ALoop(d)] + (SitesE(iter) + SitesSs(body.stmts, d + 1))
    case Break(_) => [ABreak(d)]
    case Continue(_) => [AContinue(d)]
    case FnStmt(_, decl) => SitesSs(decl.body.stmts, 0)
    case StructDecl(_) => []
  }

  function SitesSs(ss: seq<Stmt>, d: nat): seq<Site>
    decreases ss
  {
    if ss == [] then [] else SitesS(ss[0], d) + SitesSs(ss[1..], d)
  }

  function SitesIf(c: IfChain, d: nat): seq<Site>
    decreases c
  {
    SitesE(c.cond) + (SitesSs(c.thn.stmts, d) + SitesElse(c.els, d))
  }

  function SitesElse(els: Else, d: nat): seq<Site>
    decreases els
  {
    match els
    case NoElse => []
    case ElseBlock(b) => SitesSs(b.stmts, d)
    case ElseIf(c) => SitesIf(c, d)
  }

  /** A break or continue outside of loops, or the 17th loop in one another. */
  function Fault(s: Site): Option<CompileErr> {
    match s
    case ALoop(d) => if d >= 16 then Some(TooManyLoops) else None
    case ABreak(d) => if d == 0 then Some(BreakOutside) else None
    case AContinue(d) => if d == 0 then Some(ContinueOutside) else None
  }

  function FirstFault(sites: seq<Site>): Option<CompileErr> {
    if sites == [] then None
    else if Fault(sites[0]).Some? then Fault(sites[0])
    else FirstFault(sites[1..])
  }

  lemma {:induction false} FaultAppend(a: seq<Site>, b: seq<Site>)
    ensures FirstFault(a + b) == First(FirstFault(a), FirstFault(b))
    decreases |a|
  {
    hide Fault;
    if a == [] {
      assert a + b == b;
    } else {
      FaultAppend(a[1..], b);
      assert (a + b)[1..] == a[1..] + b && (a + b)[0] == a[0];
    }
  }

  lemma OneFault(s: Site)
    ensures FirstFault([s]) == Fault(s) && FirstFault([]) == None
  {
    hide Fault;
    assert [s][1..] == [];
  }

  // ----- the compiler reports the first fault -----

  lemma {:induction false} ErrEIs(e: Expr)
    ensures ErrE(e) == FirstFault(SitesE(e))
    decreases e, 1
  {
    hide FirstFault, ErrEs, ErrPs, ErrB, SitesEs, SitesPs, SitesSs;
    OneFault(ALoop(0));
    match e
    case Unary(_, a) => ErrEIs(a);
    case Binary(_, l, r) =>
      ErrEIs(l);
      ErrEIs(r);
      FaultAppend(SitesE(l), SitesE(r));
    case Field(o, _) => ErrEIs(o);
    case Call(f, args) =>
      ErrEIs(f);
      ErrEsAre(args);
      FaultAppend(SitesE(f), SitesEs(args));
    case ArrayLit(es) => ErrEsAre(es);
    case MapLit(ps) => ErrPsAre(ps);
    case StructLit(_, ps) => ErrPsAre(ps);
    case Index(a, i) =>
      ErrEIs(a);
      ErrEIs(i);
      FaultAppend(SitesE(a), SitesE(i));
    case Lambda(fn) => ErrBIs(fn.body, 0);
    case ResultLit(_, a) => ErrEIs(a);
    case Try(a) => ErrEIs(a);
    case _ =>
  }

  lemma {:induction false} ErrEsAre(es: seq<Expr>)
    ensures ErrEs(es) == FirstFault(SitesEs(es))
    decreases es, 0
  {
    hide FirstFault, ErrE, SitesE;
    OneFault(ALoop(0));
    if es != [] {
      ErrEIs(es[0]);
      ErrEsAre(es[1..]);
      FaultAppend(SitesE(es[0]), SitesEs(es[1..]));
    }
  }

  lemma {:induction false} ErrPsAre(ps: seq<Entry>)
    ensures ErrPs(ps) == FirstFault(SitesPs(ps))
    decreases ps, 0
  {
    hide FirstFault, ErrE, SitesE;
    OneFault(ALoop(0));
    if ps != [] {
      ErrEIs(ps[0].value);
      ErrPsAre(ps[1..]);
      FaultAppend(SitesE(ps[0].value), SitesPs(ps[1..]));
    }
  }

  lemma {:induction false} ErrOptIs(e: Option<Expr>)
    ensures ErrOpt(e) == FirstFault(SitesOpt(e))
    decreases e, 2
  {
    hide FirstFault, ErrE, SitesE;
    OneFault(ALoop(0));
    if e.Some? { ErrEIs(e.value); }
  }

  /** A loop, its head and its body. */
  lemma LoopFault(d: nat, head: seq<Site>, body: seq<Site>)
    ensures FirstFault([ALoop(d)] + (head + body))
      == if d >= 16 then Some(TooManyLoops) else First(FirstFault(head), FirstFault(body))
  {
    hide FirstFault;
    OneFault(ALoop(d));
    FaultAppend([ALoop(d)], head + body);
    FaultAppend(head, body);
  }

  lemma {:induction false} ErrSIs(s: Stmt, d: nat)
    ensures ErrS(s, d) == FirstFault(SitesS(s, d))
    decreases s, 1
  {
    hide FirstFault, ErrE, ErrB, ErrIf, SitesE, SitesSs, SitesIf, ErrOpt, SitesOpt;
    OneFault(ABreak(d));
    OneFault(AContinue(d));
    match s
    case ExprStmt(_, e) => ErrEIs(e);
    case Decl(_, _, _, init) => ErrOptIs(init);
    case Assign(_, _, e) => ErrEIs(e);
    case Return(_, e) => ErrOptIs(e);
    case If(c) => ErrIfIs(c, d);
    case While(_, cond, body) =>
      ErrEIs(cond);
      ErrBIs(body, d + 1);
      LoopFault(d, SitesE(cond), SitesSs(body.stmts, d + 1));
    case For(_, _, iter, body) =>
      ErrEIs(iter);
      ErrBIs(body, d + 1);
      LoopFault(d, SitesE(iter), SitesSs(body.stmts, d + 1));
    case Break(_) =>
    case Continue(_) =>
    case FnStmt(_, decl) => ErrBIs(decl.body, 0);
    case StructDecl(_) =>
  }

  lemma {:induction false} ErrSsAre(ss: seq<Stmt>, d: nat)
    ensures ErrSs(ss, d) == FirstFault(SitesSs(ss, d))
    decreases ss, 0
  {
    hide FirstFault, ErrS, SitesS;
    OneFault(ABreak(d));
    if ss != [] {
      ErrSIs(ss[0], d);
      ErrSsAre(ss[1..], d);
      FaultAppend(SitesS(ss[0], d), SitesSs(ss[1..], d));
    }
  }

  lemma {:induction false} ErrBIs(b: Block, d: nat)
    ensures ErrB(b, d) == FirstFault(SitesSs(b.stmts, d))
    decreases b, 0
  {
    hide FirstFault, ErrSs, SitesSs;
    ErrSsAre(b.stmts, d);
  }

  lemma {:induction false} ErrIfIs(c: IfChain, d: nat)
    ensures ErrIf(c, d) == FirstFault(SitesIf(c, d))
    decreases c, 0
  {
    hide FirstFault, ErrE, ErrB, ErrElse, SitesE, SitesSs, SitesElse;
    ErrEIs(c.cond);
    ErrBIs(c.thn, d);
    ErrElseIs(c.els, d);
    FaultAppend(SitesSs(c.thn.stmts, d), SitesElse(c.els, d));
    FaultAppend(SitesE(c.cond), SitesSs(c.thn.stmts, d) + SitesElse(c.els, d));
  }

  lemma {:induction false} ErrElseIs(els: Else, d: nat)
    ensures ErrElse(els, d) == FirstFault(SitesElse(els, d))
    decreases els, 0
  {
    hide FirstFault, ErrB, ErrIf, SitesSs, SitesIf;
    OneFault(ABreak(d));
    match els
    case NoElse =>
    case ElseBlock(b) => ErrBIs(b, d);
    case ElseIf(c) => ErrIfIs(c, d);
  }

  lemma {:induction false} NoFault(sites: seq<Site>)
    ensures FirstFault(sites).None? <==> forall i :: 0 <= i < |sites| ==> Fault(sites[i]).None?
    decreases |sites|
  {
    hide Fault;
    if sites != [] {
      NoFault(sites[1..]);
      if FirstFault(sites).None? {
        forall i | 0 <= i < |sites| ensures Fault(sites[i]).None? { if i > 0 { assert sites[i] == sites[1..][i - 1]; } }
      } else if Fault(sites[0]).None? {
        var i :| 0 <= i < |sites[1..]| && Fault(sites[1..][i]).Some?;
        assert sites[i + 1] == sites[1..][i];
      }
    }
  }

  /** A program is compiled if and only if every break and continue stands in a loop of its
      function, and no loop within 16 others; otherwise the error is that of the first place
      where this fails. */
  lemma CompilesIff(ss: seq<Stmt>)
    ensures ErrSs(ss, 0) == FirstFault(SitesSs(ss, 0))
    ensures ErrSs(ss, 0).None? <==> forall i :: 0 <= i < |SitesSs(ss, 0)| ==>
      match SitesSs(ss, 0)[i]
      case ALoop(d) => d < 16
      case ABreak(d) => d > 0
      case AContinue(d) => d > 0
  {
    hide ErrSs, SitesSs, FirstFault;
    ErrSsAre(ss, 0);
    NoFault(SitesSs(ss, 0));
  }

  // ----- how many breaks a loop has room for -----

  function Breaks(n: nat): seq<Stmt> { if n == 0 then [] else [Break(0)] + Breaks(n - 1) }

  lemma {:induction false} BreaksAre(n: nat)
    ensures NumSs(Breaks(n)) == n && FewSs(Breaks(n))
    decreases n
  {
    if n > 0 {
      BreaksAre(n - 1);
      assert Breaks(n)[1..] == Breaks(n - 1);
    }
  }

  /** A loop whose body is n breaks is one whose breaks are all patched if and only if n is
      at most 32. */
  lemma BreaksUpTo32(x: string, n: nat)
    ensures FewS(While(0, BoolLit(true), Block(0, Breaks(n)))) <==> n <= 32
    ensures FewS(For(0, x, ArrayLit([]), Block(0, Breaks(n)))) <==> n <= 32
  {
    hide NumSs, FewSs, Breaks;
    BreaksAre(n);
  }
}
