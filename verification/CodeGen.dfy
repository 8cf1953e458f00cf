/** What the compiler emits, as functions: relocatable code fragments and the
    constants they add.  k is the size of the constant pool before the fragment.
    The imperative compiler is proved to produce exactly this. */
module CodeGen {
  import opened Ast
  import opened Values
  import opened Bytecode

  datatype Kind = Outside | OfWhile | OfFor

  /** Where a fragment stands in its innermost loop: `back` bytes after the
      continue target and `fwd` bytes before the break target (None while the
      break jumps still hold their placeholder). */
  datatype Loop = Loop(kind: Kind, back: int, fwd: Option<int>)

  const TOP: Loop := Loop(Outside, 0, None)

  function Shift(l: Loop, n: int): Loop {
    Loop(l.kind, l.back + n, if l.fwd.Some? then Some(l.fwd.value - n) else None)
  }

  predicate IsBuiltinCall(e: Expr) {
    e.Call? && e.callee.Ident? && BuiltinId(e.callee.name).Some?
  }

  // ----- constants -----

  function ConstsE(e: Expr): seq<Val>
    decreases e
  {
    match e
    case IntLit(n) => [IntV(n)]
    case FloatLit(x) => [FloatV(x)]
    case StrLit(s) => [StrV(s)]
    case BoolLit(_) => []
    case Ident(x) => [StrV(x)]
    case Unary(_, a) => ConstsE(a)
    case Binary(_, l, r) => ConstsE(l) + ConstsE(r)
    case Field(o, x) => ConstsE(o) + [StrV(x)]
    case Call(callee, args) =>
      if IsBuiltinCall(e) then ConstsEs(args) else ConstsE(callee) + ConstsEs(args)
    case ArrayLit(es) => ConstsEs(es)
    case MapLit(ps) => ConstsPs(ps)
    case StructLit(t, ps) => ConstsPs(ps) + [StrV(t)]
    case Index(a, i) => ConstsE(a) + ConstsE(i)
    case Lambda(fn) => [FnV(fn, [])]
    case ResultLit(_, a) => ConstsE(a)
    case Try(a) => ConstsE(a)
  }

  function ConstsEs(es: seq<Expr>): seq<Val>
    decreases es
  {
    if es == [] then [] else ConstsE(es[0]) + ConstsEs(es[1..])
  }

  function ConstsPs(ps: seq<Entry>): seq<Val>
    decreases ps
  {
    if ps == [] then []
    else [StrV(ps[0].key)] + (ConstsE(ps[0].value) + ConstsPs(ps[1..]))
  }

  function ConstsOpt(e: Option<Expr>): seq<Val> {
    if e.Some? then ConstsE(e.value) else []
  }

  function ConstsS(s: Stmt): seq<Val>
    decreases s
  {
    match s
    case ExprStmt(_, e) => ConstsE(e)
    case Decl(_, _, x, init) => ConstsOpt(init) + [StrV(x)]
    case Assign(_, x, e) => ConstsE(e) + [StrV(x)]
    case Return(_, e) => ConstsOpt(e)
    case If(chain) => ConstsIf(chain)
    case While(_, cond, body) => ConstsE(cond) + ConstsB(body)
    case For(_, x, iter, body) => ConstsE(iter) + ([StrV(x)] + ConstsB(body))
    case Break(_) => []
    case Continue(_) => []
    case FnStmt(_, decl) => [FnV(decl, []), StrV(decl.fname)]
    case StructDecl(_) => []
  }

  function ConstsSs(ss: seq<Stmt>): seq<Val>
    decreases ss
  {
    if ss == [] then [] else ConstsS(ss[0]) + ConstsSs(ss[1..])
  }

  function ConstsB(b: Block): seq<Val>
    decreases b
  {
    ConstsSs(b.stmts)
  }

  function ConstsIf(c: IfChain): seq<Val>
    decreases c
  {
    ConstsE(c.cond) + (ConstsB(c.thn) + ConstsElse(c.els))
  }

  function ConstsElse(els: Else): seq<Val>
    decreases els
  {
    match els
    case NoElse => []
    case ElseBlock(b) => ConstsB(b)
    case ElseIf(c) => ConstsIf(c)
  }

  // ----- expressions -----

  function CodeE(e: Expr, k: nat): seq<Byte>
    decreases e
  {
    match e
    case IntLit(_) => Enc(Const(k))
    case FloatLit(_) => Enc(Const(k))
    case StrLit(_) => Enc(Const(k))
    case BoolLit(b) => Enc(PushBool(b))
    case Ident(_) => Enc(GetVar(k))
    case Unary(op, a) => CodeE(a, k) + Enc(UnaryOp(op))
    case Binary(op, l, r) =>
      if op == And || op == Or then CodeLogical(op, CodeE(l, k), CodeE(r, k + |ConstsE(l)|))
      else CodeE(l, k) + (CodeE(r, k + |ConstsE(l)|) + Enc(BinaryOp(op)))
    case Field(o, _) => CodeE(o, k) + Enc(GetField(k + |ConstsE(o)|))
    case Call(callee, args) =>
      if IsBuiltinCall(e) then
        CodeEs(args, k) + Enc(CallBuiltin(BuiltinId(callee.name).value, |args|))
      else
        CodeE(callee, k) + (CodeEs(args, k + |ConstsE(callee)|) + Enc(CallOp(|args|)))
    case ArrayLit(es) => CodeEs(es, k) + Enc(MakeArray(|es|))
    case MapLit(ps) => CodePs(ps, k) + Enc(MakeMap(|ps|))
    case StructLit(_, ps) => CodePs(ps, k) + Enc(MakeStruct(k + |ConstsPs(ps)|, |ps|))
    case Index(a, i) => CodeE(a, k) + (CodeE(i, k + |ConstsE(a)|) + Enc(IndexOp))
    case Lambda(_) => Enc(Closure(k))
    case ResultLit(ok, a) => CodeE(a, k) + Enc(MakeResult(ok))
    case Try(a) => CodeE(a, k) + Enc(TryOp)
  }

  /** The lowering of && and ||: a popping jump followed by one more pop. */
  function CodeLogical(op: BinOp, left: seq<Byte>, right: seq<Byte>): seq<Byte> {
    left + (Enc(JumpIf(op == Or, 1 + |right|)) + (Enc(Pop) + right))
  }

  function CodeEs(es: seq<Expr>, k: nat): seq<Byte>
    decreases es
  {
    if es == [] then []
    else CodeE(es[0], k) + CodeEs(es[1..], k + |ConstsE(es[0])|)
  }

  function CodePs(ps: seq<Entry>, k: nat): seq<Byte>
    decreases ps
  {
    if ps == [] then []
    else Enc(Const(k)) + (CodeE(ps[0].value, k + 1)
                          + CodePs(ps[1..], k + 1 + |ConstsE(ps[0].value)|))
  }

  // ----- expressions with one operand -----

  predicate IsOne(e: Expr) { e.Unary? || e.Field? || e.ResultLit? || e.Try? }

  function Operand(e: Expr): Expr
    requires IsOne(e)
  {
    match e
    case Unary(_, a) => a
    case Field(o, _) => o
    case ResultLit(_, a) => a
    case Try(a) => a
  }

  /** The instruction after the operand, k constants in. */
  function OneInstr(e: Expr, k: nat): (i: Instr)
    requires IsOne(e)
    ensures Plain(i)
  {
    match e
    case Unary(op, _) => UnaryOp(op)
    case Field(_, _) => GetField(k)
    case ResultLit(ok, _) => MakeResult(ok)
    case Try(_) => TryOp
  }

  // ----- calls -----

  lemma UserCallCode(e: Expr, k: nat)
    requires e.Call? && !IsBuiltinCall(e)
    ensures CodeE(e, k) == CodeE(e.callee, k) + (CodeEs(e.args, k + |ConstsE(e.callee)|) + Enc(CallOp(|e.args|)))
    ensures ConstsE(e) == ConstsE(e.callee) + ConstsEs(e.args)
  {
    hide Enc, CodeEs, ConstsEs, IsBuiltinCall;
  }

  lemma BuiltinCallCode(e: Expr, k: nat)
    requires e.Call? && IsBuiltinCall(e)
    ensures CodeE(e, k) == CodeEs(e.args, k) + Enc(CallBuiltin(BuiltinId(e.callee.name).value, |e.args|))
    ensures ConstsE(e) == [] + ConstsEs(e.args) == ConstsEs(e.args)
  {
    hide Enc, CodeEs, ConstsEs, BuiltinId;
  }

  // ----- statements -----

  function PopCode(n: nat): seq<Byte> {
    if n > 0 then Enc(PopScope(n)) else []
  }

  /** What break and continue emit before jumping: they drop the locals of the
      innermost block only, and the loop variable of a for. */
  function ExitCode(kind: Kind, bvc: nat): seq<Byte> {
    PopCode(bvc) + if kind == OfFor then Enc(PopScope(1)) else []
  }

  function BreakOffset(l: Loop, used: int): int {
    if l.fwd.Some? then l.fwd.value - used else 0xffff
  }

  /** bvc: how many bindings the innermost block has declared so far. */
  function CodeExit(s: Stmt, l: Loop, bvc: nat): seq<Byte>
    requires s.Break? || s.Continue?
  {
    var exit := ExitCode(l.kind, bvc);
    Enc(Line(s.line)) +
    if l.kind == Outside then []
    else if s.Break? then exit + Enc(Jump(BreakOffset(l, 3 + |exit| + 3)))
    else exit + Enc(JumpBack(l.back + 3 + |exit| + 3))
  }

  function CodeOpt(e: Option<Expr>, k: nat): seq<Byte> {
    if e.Some? then CodeE(e.value, k) else Enc(PushNil)
  }

  predicate IsSimple(s: Stmt) {
    s.ExprStmt? || s.Decl? || s.Assign? || s.Return? || s.FnStmt? || s.StructDecl?
  }

  /** Statements without control flow; top: whether the main program is being
      compiled, whose functions are constants rather than closures. */
  function CodeSimple(s: Stmt, k: nat, top: bool): seq<Byte>
    requires IsSimple(s)
  {
    Enc(Line(s.line)) +
    match s
    case ExprStmt(_, e) => CodeE(e, k) + Enc(Pop)
    case Decl(_, immut, _, init) => CodeOpt(init, k) + Enc(Define(immut, k + |ConstsOpt(init)|))
    case Assign(_, _, e) => CodeE(e, k) + Enc(SetVar(k + |ConstsE(e)|))
    case Return(_, None) => Enc(ReturnNil)
    case Return(_, Some(e)) => CodeE(e, k) + Enc(ReturnOp)
    case FnStmt(_, _) => (if top then Enc(Const(k)) else Enc(Closure(k))) + Enc(Define(true, k + 1))
    case StructDecl(_) => []
  }

  function CodeS(s: Stmt, k: nat, l: Loop, bvc: nat, top: bool): seq<Byte>
    decreases s
  {
    if s.If? then CodeIf(s.chain, k, l, top)
    else if s.While? then Enc(Line(s.line)) + CodeWhile(s.cond, s.body, k, top)
    else if s.For? then
      Enc(Line(s.line)) + (CodeE(s.iter, k)
        + (Enc(IterSetup) + CodeFor(s.body, k + |ConstsE(s.iter)|, top)))
    else if s.Break? || s.Continue? then CodeExit(s, l, bvc)
    else CodeSimple(s, k, top)
  }

  function CodeSs(ss: seq<Stmt>, k: nat, l: Loop, bvc: nat, top: bool): seq<Byte>
    decreases ss
  {
    if ss == [] then [] else
    var first := CodeS(ss[0], k, l, bvc, top);
    first + CodeSs(ss[1..], k + |ConstsS(ss[0])|, Shift(l, |first|), bvc + Declared(ss[0]), top)
  }

  function CodeB(b: Block, k: nat, l: Loop, top: bool): seq<Byte>
    decreases b, 0
  {
    Enc(Line(b.bline)) + (CodeSs(b.stmts, k, Shift(l, 3), 0, top) + PopCode(DeclaredIn(b.stmts)))
  }

  function CodeIf(c: IfChain, k: nat, l: Loop, top: bool): seq<Byte>
    decreases c
  {
    var cond := CodeE(c.cond, k);
    var thn := CodeB(c.thn, k + |ConstsE(c.cond)|, Shift(l, 3 + |cond| + 3), top);
    var els := CodeElse(c.els, k + |ConstsE(c.cond)| + |ConstsB(c.thn)|,
                        Shift(l, 3 + |cond| + 3 + |thn|), top);
    Enc(Line(c.line)) + (cond
      + (Enc(JumpIf(false, |thn| + if c.els.NoElse? then 0 else 3)) + (thn + els)))
  }

  /** The jump over the else part, and the else part. */
  function CodeElse(els: Else, k: nat, l: Loop, top: bool): seq<Byte>
    decreases els
  {
    match els
    case NoElse => []
    case ElseBlock(b) =>
      var code := CodeB(b, k, Shift(l, 3), top);
      Enc(Jump(|code|)) + code
    case ElseIf(c) =>
      var code := CodeIf(c, k, Shift(l, 3), top);
      Enc(Jump(|code|)) + code
  }

  /** The length of a block's code, which does not depend on the jump targets. */
  function LenB(b: Block, k: nat, kind: Kind, top: bool): nat
    decreases b, 1
  {
    |CodeB(b, k, Loop(kind, 0, None), top)|
  }

  /** The body of a while is entered |cond| + 3 bytes after the loop start. */
  function WhileLoop(cond: Expr, body: Block, k: nat, top: bool): Loop
    decreases body, 2
  {
    Loop(OfWhile, |CodeE(cond, k)| + 3, Some(LenB(body, k + |ConstsE(cond)|, OfWhile, top) + 3))
  }

  /** A while from its loop start, which is the continue target, to its end,
      which is the break target. */
  function CodeWhile(cond: Expr, body: Block, k: nat, top: bool): seq<Byte>
    decreases body, 3
  {
    var len := LenB(body, k + |ConstsE(cond)|, OfWhile, top);
    CodeE(cond, k) + (Enc(JumpIf(false, len + 3))
      + (CodeB(body, k + |ConstsE(cond)|, WhileLoop(cond, body, k, top), top)
         + Enc(JumpBack(|CodeE(cond, k)| + 3 + len + 3))))
  }

  function ForLoop(body: Block, k: nat, top: bool): Loop
    decreases body, 2
  {
    Loop(OfFor, 6, Some(LenB(body, k + 1, OfFor, top) + 5))
  }

  /** A for from its ITER_NEXT, which is the continue target; breaks and the
      exhausted iterator land on the final ITER_CLEANUP. */
  function CodeFor(body: Block, k: nat, top: bool): seq<Byte>
    decreases body, 3
  {
    var len := LenB(body, k + 1, OfFor, top);
    Enc(IterNext(3 + len + 5)) + (Enc(Define(false, k))
      + (CodeB(body, k + 1, ForLoop(body, k, top), top)
         + (Enc(PopScope(1)) + (Enc(JumpBack(6 + len + 5)) + Enc(IterCleanup)))))
  }

  // ----- chunks -----

  function FnCode(fn: FnDecl): seq<Byte> {
    CodeB(fn.body, 0, TOP, false) + Enc(ReturnNil)
  }

  function FnConsts(fn: FnDecl): seq<Val> {
    ConstsB(fn.body)
  }

  function ProgramCode(ss: seq<Stmt>): seq<Byte> {
    CodeSs(ss, 0, TOP, 0, true) + Enc(ReturnNil)
  }

  function ProgramConsts(ss: seq<Stmt>): seq<Val> {
    ConstsSs(ss)
  }

  // ----- lengths do not depend on jump targets -----

  lemma {:induction false} LenS(s: Stmt, k: nat, l: Loop, l': Loop, bvc: nat, top: bool)
    requires l.kind == l'.kind
    ensures |CodeS(s, k, l, bvc, top)| == |CodeS(s, k, l', bvc, top)|
    decreases s
  {
    if s.If? { LenIf(s.chain, k, l, l', top); }
  }

  lemma {:induction false} LenSs(ss: seq<Stmt>, k: nat, l: Loop, l': Loop, bvc: nat, top: bool)
    requires l.kind == l'.kind
    ensures |CodeSs(ss, k, l, bvc, top)| == |CodeSs(ss, k, l', bvc, top)|
    decreases ss
  {
    hide CodeS, ConstsS, Declared;
    if ss != [] {
      LenS(ss[0], k, l, l', bvc, top);
      LenSs(ss[1..], k + |ConstsS(ss[0])|, Shift(l, |CodeS(ss[0], k, l, bvc, top)|),
            Shift(l', |CodeS(ss[0], k, l', bvc, top)|), bvc + Declared(ss[0]), top);
    }
  }

  lemma {:induction false} LenBlock(b: Block, k: nat, l: Loop, l': Loop, top: bool)
    requires l.kind == l'.kind
    ensures |CodeB(b, k, l, top)| == |CodeB(b, k, l', top)|
    decreases b
  {
    LenSs(b.stmts, k, Shift(l, 3), Shift(l', 3), 0, top);
  }

  lemma {:induction false} LenIf(c: IfChain, k: nat, l: Loop, l': Loop, top: bool)
    requires l.kind == l'.kind
    ensures |CodeIf(c, k, l, top)| == |CodeIf(c, k, l', top)|
    decreases c
  {
    hide Enc, CodeE, CodeB, ConstsE, ConstsB, CodeElse;
    var n := |CodeE(c.cond, k)|;
    var k1 := k + |ConstsE(c.cond)|;
    var thn := CodeB(c.thn, k1, Shift(l, 3 + n + 3), top);
    LenBlock(c.thn, k1, Shift(l, 3 + n + 3), Shift(l', 3 + n + 3), top);
    LenElse(c.els, k1 + |ConstsB(c.thn)|, Shift(l, 3 + n + 3 + |thn|), Shift(l', 3 + n + 3 + |thn|), top);
  }

  lemma {:induction false} LenElse(els: Else, k: nat, l: Loop, l': Loop, top: bool)
    requires l.kind == l'.kind
    ensures |CodeElse(els, k, l, top)| == |CodeElse(els, k, l', top)|
    decreases els
  {
    match els
    case NoElse =>
    case ElseBlock(b) => LenBlock(b, k, Shift(l, 3), Shift(l', 3), top);
    case ElseIf(c) => LenIf(c, k, Shift(l, 3), Shift(l', 3), top);
  }

  // ----- a lower bound on lengths -----

  /** Every expression emits something. */
  lemma {:induction false} CodeNonEmpty(e: Expr, k: nat)
    ensures CodeE(e, k) != []
    decreases e
  {
    hide CodeEs, CodePs, ConstsE, ConstsEs, ConstsPs, OpCode, Operands, IsBuiltinCall;
    match e
    case Unary(_, a) => CodeNonEmpty(a, k);
    case Binary(_, l, _) => CodeNonEmpty(l, k);
    case Index(a, _) => CodeNonEmpty(a, k);
    case Field(o, _) => CodeNonEmpty(o, k);
    case ResultLit(_, a) => CodeNonEmpty(a, k);
    case Try(a) => CodeNonEmpty(a, k);
    case _ =>
  }

  lemma {:induction false} CodeEsLen(es: seq<Expr>, k: nat)
    ensures |es| <= |CodeEs(es, k)|
    decreases es
  {
    hide CodeE, ConstsE;
    if es != [] {
      CodeNonEmpty(es[0], k);
      CodeEsLen(es[1..], k + |ConstsE(es[0])|);
    }
  }

  lemma {:induction false} CodePsLen(ps: seq<Entry>, k: nat)
    ensures |ps| <= |CodePs(ps, k)|
    decreases ps
  {
    hide CodeE, ConstsE, Enc;
    if ps != [] { CodePsLen(ps[1..], k + 1 + |ConstsE(ps[0].value)|); }
  }
}
