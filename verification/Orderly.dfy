/** The programs whose code passes the static check: all but those that use && or
    ||, that write past the machine's argument arrays, or that outgrow the fields
    of their instructions; break and continue may sit anywhere in a loop. */
module Orderly {
  import opened Ast
  import opened Values
  import opened CodeGen
  import opened Fragment

  predicate OrderlyE(e: Expr)
    decreases e
  {
    match e
    case Unary(_, a) => OrderlyE(a)
    case Binary(op, l, r) => op != And && op != Or && OrderlyE(l) && OrderlyE(r)
    case Field(o, _) => OrderlyE(o)
    case Call(callee, args) =>
      |args| < 256 && OrderlyEs(args)
      && if IsBuiltinCall(e) then PureBuiltin(BuiltinId(callee.name).value) && |args| <= MAX_ARGS else OrderlyE(callee)
    case ArrayLit(es) => OrderlyEs(es)
    case MapLit(ps) => OrderlyPs(ps)
    case StructLit(_, ps) => |ps| <= MAX_STRUCT_FIELDS && OrderlyPs(ps)
    case Index(a, i) => OrderlyE(a) && OrderlyE(i)
    case Lambda(fn) => OrderlyFn(fn)
    case ResultLit(_, a) => OrderlyE(a)
    case Try(a) => OrderlyE(a)
    case _ => true
  }

  predicate OrderlyEs(es: seq<Expr>)
    decreases es
  {
    es != [] ==> OrderlyE(es[0]) && OrderlyEs(es[1..])
  }

  predicate OrderlyPs(ps: seq<Entry>)
    decreases ps
  {
    ps != [] ==> OrderlyE(ps[0].value) && OrderlyPs(ps[1..])
  }

  predicate OrderlyOpt(e: Option<Expr>) { e.Some? ==> OrderlyE(e.value) }

  predicate OrderlyFn(fn: FnDecl)
    decreases fn
  {
    OrderlyB(fn.body, false) && |fn.params| <= MAX_ARGS && |FnCode(fn)| < 65536 && |FnConsts(fn)| < 65536
  }

  /** inLoop: whether there is a loop for break and continue. */
  predicate OrderlyS(s: Stmt, inLoop: bool)
    decreases s
  {
    match s
    case ExprStmt(_, e) => OrderlyE(e)
    case Decl(_, _, _, init) => OrderlyOpt(init)
    case Assign(_, _, e) => OrderlyE(e)
    case Return(_, e) => OrderlyOpt(e)
    case If(chain) => OrderlyIf(chain, inLoop)
    case While(_, cond, body) => OrderlyE(cond) && OrderlyB(body, true)
    case For(_, _, iter, body) => OrderlyE(iter) && OrderlyB(body, true)
    case Break(_) => inLoop
    case Continue(_) => inLoop
    case FnStmt(_, decl) => OrderlyFn(decl)
    case StructDecl(_) => true
  }

  predicate OrderlySs(ss: seq<Stmt>, inLoop: bool)
    decreases ss
  {
    ss != [] ==> OrderlyS(ss[0], inLoop) && OrderlySs(ss[1..], inLoop)
  }

  predicate OrderlyB(b: Block, inLoop: bool)
    decreases b
  {
    OrderlySs(b.stmts, inLoop) && DeclaredIn(b.stmts) < 256
  }

  predicate OrderlyIf(c: IfChain, inLoop: bool)
    decreases c
  {
    OrderlyE(c.cond) && OrderlyB(c.thn, inLoop)
    && match c.els
       case NoElse => true
       case ElseBlock(b) => OrderlyB(b, inLoop)
       case ElseIf(c1) => OrderlyIf(c1, inLoop)
  }

  predicate OrderlyProgram(ss: seq<Stmt>) {
    OrderlySs(ss, false) && |ProgramCode(ss)| < 65536 && |ProgramConsts(ss)| < 65536
  }

  // ----- values all of whose functions are orderly -----

  ghost predicate SafeV(v: Val)
    decreases v
  {
    match v
    case FnV(decl, captured) => OrderlyFn(decl) && forall b :: b in captured ==> SafeV(b.value)
    case ArrV(es) => forall x :: x in es ==> SafeV(x)
    case StructV(_, ps) => forall q :: q in ps ==> SafeV(q.value)
    case ResV(_, x) => SafeV(x)
    case MapV(ps) => forall q :: q in ps ==> SafeV(q.value)
    case _ => true
  }

  ghost predicate SafeVs(vs: seq<Val>) { forall x :: x in vs ==> SafeV(x) }

  ghost predicate SafeEnv(env: Env) { forall b :: b in env ==> SafeV(b.value) }

  /** The builtins invent no functions. */
  ghost predicate SafeWorld(w: World) {
    forall id: nat, vs: seq<Val> {:trigger w.builtin(id, vs)} ::
      SafeVs(vs) && w.builtin(id, vs).Ok? ==> SafeV(w.builtin(id, vs).value)
  }
}
