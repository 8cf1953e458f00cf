/** What the compiler refuses, and what it would silently lose: the 33rd break
    of one loop, whose jump nobody patches. */
module Limits {
  import opened Ast
  import opened CodeGen
  import opened Patching

  const MAX_LOOP_DEPTH: nat := 16
  const MAX_BREAK_PATCHES: nat := 32

  datatype CompileErr = BreakOutside | ContinueOutside | TooManyLoops

  function First(a: Option<CompileErr>, b: Option<CompileErr>): Option<CompileErr> {
    if a.Some? then a else b
  }

  // ----- the error a compilation ends with; depth: enclosing loops -----

  function ErrE(e: Expr): Option<CompileErr>
    decreases e
  {
    match e
    case Unary(_, a) => ErrE(a)
    case Binary(_, l, r) => First(ErrE(l), ErrE(r))
    case Field(o, _) => ErrE(o)
    case Call(callee, args) => if IsBuiltinCall(e) then ErrEs(args) else First(ErrE(callee), ErrEs(args))
    case ArrayLit(es) => ErrEs(es)
    case MapLit(ps) => ErrPs(ps)
    case StructLit(_, ps) => ErrPs(ps)
    case Index(a, i) => First(ErrE(a), ErrE(i))
    case Lambda(fn) => ErrB(fn.body, 0)
    case ResultLit(_, a) => ErrE(a)
    case Try(a) => ErrE(a)
    case _ => None
  }

  function ErrEs(es: seq<Expr>): Option<CompileErr>
    decreases es
  {
    if es == [] then None else First(ErrE(es[0]), ErrEs(es[1..]))
  }

  function ErrPs(ps: seq<Entry>): Option<CompileErr>
    decreases ps
  {
    if ps == [] then None else First(ErrE(ps[0].value), ErrPs(ps[1..]))
  }

  function ErrOpt(e: Option<Expr>): Option<CompileErr> {
    if e.Some? then ErrE(e.value) else None
  }


  function ErrS(s: Stmt, depth: nat): Option<CompileErr>
    decreases s
  {
    match s
    case ExprStmt(_, e) => ErrE(e)
    case Decl(_, _, _, init) => ErrOpt(init)
    case Assign(_, _, e) => ErrE(e)
    case Return(_, e) => ErrOpt(e)
    case If(chain) => ErrIf(chain, depth)
    case While(_, cond, body) =>
      if depth >= MAX_LOOP_DEPTH then Some(TooManyLoops) else First(ErrE(cond), ErrB(body, depth + 1))
    case For(_, _, iter, body) =>
      if depth >= MAX_LOOP_DEPTH then Some(TooManyLoops) else First(ErrE(iter), ErrB(body, depth + 1))
    case Break(_) => if depth == 0 then Some(BreakOutside) else None
    case Continue(_) => if depth == 0 then Some(ContinueOutside) else None
    case FnStmt(_, decl) => ErrB(decl.body, 0)
    case StructDecl(_) => None
  }

  function ErrSs(ss: seq<Stmt>, depth: nat): Option<CompileErr>
    decreases ss
  {
    if ss == [] then None else First(ErrS(ss[0], depth), ErrSs(ss[1..], depth))
  }

  function ErrB(b: Block, depth: nat): Option<CompileErr>
    decreases b
  {
    ErrSs(b.stmts, depth)
  }

  function ErrIf(c: IfChain, depth: nat): Option<CompileErr>
    decreases c
  {
    First(ErrE(c.cond), First(ErrB(c.thn, depth), ErrElse(c.els, depth)))
  }

  function ErrElse(els: Else, depth: nat): Option<CompileErr>
    decreases els
  {
    match els
    case NoElse => None
    case ElseBlock(b) => ErrB(b, depth)
    case ElseIf(c) => ErrIf(c, depth)
  }

  // ----- how many breaks leave the loop around a fragment -----

  function NumS(s: Stmt): nat
    decreases s
  {
    match s
    case If(chain) => NumIf(chain)
    case Break(_) => 1
    case _ => 0
  }

  function NumSs(ss: seq<Stmt>): nat
    decreases ss
  {
    if ss == [] then 0 else NumS(ss[0]) + NumSs(ss[1..])
  }

  function NumIf(c: IfChain): nat
    decreases c
  {
    NumSs(c.thn.stmts) + NumElse(c.els)
  }

  function NumElse(els: Else): nat
    decreases els
  {
    match els
    case NoElse => 0
    case ElseBlock(b) => NumSs(b.stmts)
    case ElseIf(c) => NumIf(c)
  }

  // ----- no loop has more breaks than its context records -----

  predicate FewE(e: Expr)
    decreases e
  {
    match e
    case Unary(_, a) => FewE(a)
    case Binary(_, l, r) => FewE(l) && FewE(r)
    case Field(o, _) => FewE(o)
    case Call(callee, args) => FewE(callee) && FewEs(args)
    case ArrayLit(es) => FewEs(es)
    case MapLit(ps) => FewPs(ps)
    case StructLit(_, ps) => FewPs(ps)
    case Index(a, i) => FewE(a) && FewE(i)
    case Lambda(fn) => FewSs(fn.body.stmts)
    case ResultLit(_, a) => FewE(a)
    case Try(a) => FewE(a)
    case _ => true
  }

  predicate FewEs(es: seq<Expr>)
    decreases es
  {
    es != [] ==> FewE(es[0]) && FewEs(es[1..])
  }

  predicate FewPs(ps: seq<Entry>)
    decreases ps
  {
    ps != [] ==> FewE(ps[0].value) && FewPs(ps[1..])
  }

  predicate FewS(s: Stmt)
    decreases s
  {
    match s
    case ExprStmt(_, e) => FewE(e)
    case Decl(_, _, _, init) => init.Some? ==> FewE(init.value)
    case Assign(_, _, e) => FewE(e)
    case Return(_, e) => e.Some? ==> FewE(e.value)
    case If(chain) => FewIf(chain)
    case While(_, cond, body) => FewE(cond) && FewSs(body.stmts) && NumSs(body.stmts) <= MAX_BREAK_PATCHES
    case For(_, _, iter, body) => FewE(iter) && FewSs(body.stmts) && NumSs(body.stmts) <= MAX_BREAK_PATCHES
    case FnStmt(_, decl) => FewSs(decl.body.stmts)
    case _ => true
  }

  predicate FewSs(ss: seq<Stmt>)
    decreases ss
  {
    ss != [] ==> FewS(ss[0]) && FewSs(ss[1..])
  }

  predicate FewIf(c: IfChain)
    decreases c
  {
    FewE(c.cond) && FewSs(c.thn.stmts) && FewElse(c.els)
  }

  predicate FewElse(els: Else)
    decreases els
  {
    match els
    case NoElse => true
    case ElseBlock(b) => FewSs(b.stmts)
    case ElseIf(c) => FewIf(c)
  }

  // ----- as many positions as breaks -----

  lemma {:induction false} CountS(s: Stmt, k: nat, l: Loop, bvc: nat, top: bool, at: nat)
    ensures |BreaksS(s, k, l, bvc, top, at)| <= NumS(s)
    decreases s
  {
    hide ExitCode, BreaksIf;
    if s.If? { CountIf(s.chain, k, l, top, at); }
  }

  lemma {:induction false} CountSs(ss: seq<Stmt>, k: nat, l: Loop, bvc: nat, top: bool, at: nat)
    ensures |BreaksSs(ss, k, l, bvc, top, at)| <= NumSs(ss)
    decreases ss
  {
    hide CodeS, ConstsS, BreaksS;
    if ss != [] {
      var n := |CodeS(ss[0], k, l, bvc, top)|;
      CountS(ss[0], k, l, bvc, top, at);
      CountSs(ss[1..], k + |ConstsS(ss[0])|, Shift(l, n), bvc + Declared(ss[0]), top, at + n);
    }
  }

  lemma CountB(b: Block, k: nat, l: Loop, top: bool, at: nat)
    ensures |BreaksB(b, k, l, top, at)| <= NumSs(b.stmts)
  {
    hide BreaksSs, NumSs;
    CountSs(b.stmts, k, Shift(l, 3), 0, top, at + 3);
  }

  lemma {:induction false} CountIf(c: IfChain, k: nat, l: Loop, top: bool, at: nat)
    ensures |BreaksIf(c, k, l, top, at)| <= NumIf(c)
    decreases c
  {
    hide CodeE, CodeB, ConstsE, ConstsB, BreaksSs, BreaksElse, NumSs;
    var n := 3 + |CodeE(c.cond, k)| + 3;
    var k1 := k + |ConstsE(c.cond)|;
    var m := |CodeB(c.thn, k1, Shift(l, n), top)|;
    CountSs(c.thn.stmts, k1, Shift(Shift(l, n), 3), 0, top, at + n + 3);
    CountElse(c.els, k1 + |ConstsB(c.thn)|, Shift(l, n + m), top, at + n + m);
  }

  lemma {:induction false} CountElse(els: Else, k: nat, l: Loop, top: bool, at: nat)
    ensures |BreaksElse(els, k, l, top, at)| <= NumElse(els)
    decreases els
  {
    hide BreaksSs, BreaksIf, NumSs;
    match els
    case NoElse =>
    case ElseBlock(b) => CountSs(b.stmts, k, Shift(Shift(l, 3), 3), 0, top, at + 6);
    case ElseIf(c) => CountIf(c, k, Shift(l, 3), top, at + 3);
  }
}
