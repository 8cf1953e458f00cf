/** The compiler's loop contexts, and how the pieces it emits one after the other
    add up to the code of a construct once its jumps are patched. */
module Layout {
  import opened Ast
  import opened Values
  import opened Bytecode
  import opened CodeGen
  import opened Chunks
  import opened Patching
  import opened Limits

  datatype LoopCtx = LoopCtx(continueTarget: nat, breakPatches: seq<nat>, isFor: bool)

  predicate LoopsIn(loops: seq<LoopCtx>, n: nat) {
    forall i :: 0 <= i < |loops| ==> loops[i].continueTarget <= n && InRange(loops[i].breakPatches, n)
  }

  function AddBreaks(loops: seq<LoopCtx>, ps: seq<nat>): seq<LoopCtx> {
    if loops == [] then [] else
    var lc := loops[|loops| - 1];
    loops[..|loops| - 1] + [lc.(breakPatches := lc.breakPatches + ps)]
  }

  /** The innermost loop context has room for n more breaks. */
  predicate Room(loops: seq<LoopCtx>, n: nat) {
    loops != [] ==> |loops[|loops| - 1].breakPatches| + n <= MAX_BREAK_PATCHES
  }

  /** The loop that code emitted at offset n belongs to; breaks are still open. */
  function LoopAt(loops: seq<LoopCtx>, n: nat): Loop {
    if loops == [] then Loop(Outside, n, None) else
    var lc := loops[|loops| - 1];
    Loop(if lc.isFor then OfFor else OfWhile, n - lc.continueTarget, None)
  }

  lemma AddBreaksAgain(loops: seq<LoopCtx>, ps: seq<nat>, qs: seq<nat>)
    ensures AddBreaks(AddBreaks(loops, ps), qs) == AddBreaks(loops, ps + qs)
    ensures |AddBreaks(loops, ps)| == |loops|
    ensures AddBreaks(loops, []) == loops
  {
    if loops != [] {
      var lc := loops[|loops| - 1];
      assert lc.breakPatches + ps + qs == lc.breakPatches + (ps + qs);
      assert lc.breakPatches + [] == lc.breakPatches;
    }
  }

  lemma SameLoop(loops: seq<LoopCtx>, ps: seq<nat>, n: nat)
    ensures LoopAt(AddBreaks(loops, ps), n) == LoopAt(loops, n)
  {
  }

  lemma LoopAtShift(loops: seq<LoopCtx>, n: nat, m: nat)
    ensures LoopAt(loops, n + m) == Shift(LoopAt(loops, n), m)
  {
  }

  lemma LoopsInMore(loops: seq<LoopCtx>, n: nat, m: nat)
    requires LoopsIn(loops, n) && n <= m
    ensures LoopsIn(loops, m)
  {
  }

  // ----- one level of the code of an expression -----

  lemma PatchAt(pre: seq<Byte>, op: Byte, x: int, post: seq<Byte>, y: int)
    ensures Patch(pre + ([op] + U16(x)) + post, |pre| + 1, y) == pre + ([op] + U16(y)) + post
  {
    var code := pre + ([op] + U16(x)) + post;
    assert code[..|pre| + 1] == pre + [op];
    assert code[|pre| + 3..] == post;
  }

  lemma Join<T>(pre: seq<T>, a: seq<T>, b: seq<T>, c: seq<T>)
    ensures pre + a + b + c == pre + (a + (b + c)) && pre + a + b == pre + (a + b)
  {
  }

  lemma OneParts(e: Expr, k: nat)
    requires IsOne(e)
    ensures var a := Operand(e);
      && CodeE(e, k) == CodeE(a, k) + Enc(OneInstr(e, k + |ConstsE(a)|))
      && ConstsE(e) == ConstsE(a) + (if e.Field? then [StrV(e.field)] else [])
      && ErrE(e) == ErrE(a) && (FewE(e) ==> FewE(a))
  {
    hide Enc;
  }

  predicate IsTwo(e: Expr) { (e.Binary? && e.op != And && e.op != Or) || e.Index? }

  lemma TwoParts(e: Expr, k: nat)
    requires IsTwo(e) || e.Binary?
    ensures var a := if e.Binary? then e.left else e.arr; var b := if e.Binary? then e.right else e.idx;
      var cb := CodeE(b, k + |ConstsE(a)|);
      && CodeE(e, k) == (if !IsTwo(e) then CodeLogical(e.op, CodeE(a, k), cb)
                         else CodeE(a, k) + (cb + Enc(if e.Binary? then BinaryOp(e.op) else IndexOp)))
      && ConstsE(e) == ConstsE(a) + ConstsE(b)
      && ErrE(e) == First(ErrE(a), ErrE(b)) && (FewE(e) ==> FewE(a) && FewE(b))
  {
    hide Enc, CodeLogical;
  }

  lemma JumpIfBytes(op: BinOp, off: int)
    requires op == And || op == Or
    ensures Enc(JumpIf(op == Or, off)) == [if op == Or then OP_JUMP_IF_TRUE else OP_JUMP_IF_FALSE] + U16(off)
  {
  }

  lemma CallBytes(id: nat, n: nat)
    ensures Enc(CallBuiltin(id, n)) == [OP_CALL_BUILTIN] + (U16(id) + [n % 256])
    ensures Enc(CallOp(n)) == [OP_CALL] + [n % 256]
  {
  }

  lemma StructBytes(idx: nat, n: nat)
    ensures Enc(MakeStruct(idx, n)) == [OP_STRUCT] + (U16(idx) + [n % 256])
  {
  }

  lemma StructJoin(b: seq<Byte>, c: seq<Byte>, idx: nat, n: nat)
    ensures b + c + [OP_STRUCT] + U16(idx) + [n % 256] == b + (c + Enc(MakeStruct(idx, n)))
  {
    hide Enc, U16;
    StructBytes(idx, n);
    Join(b + c, [OP_STRUCT], U16(idx), [n % 256]);
    Join(b, c, Enc(MakeStruct(idx, n)), []);
  }

  lemma CallParts(e: Expr, k: nat)
    requires e.Call?
    ensures CodeE(e, k) ==
      (if IsBuiltinCall(e) then CodeEs(e.args, k) + Enc(CallBuiltin(BuiltinId(e.callee.name).value, |e.args|))
       else CodeE(e.callee, k) + (CodeEs(e.args, k + |ConstsE(e.callee)|) + Enc(CallOp(|e.args|))))
    ensures ConstsE(e) == (if IsBuiltinCall(e) then [] else ConstsE(e.callee)) + ConstsEs(e.args)
    ensures ErrE(e) == First(if IsBuiltinCall(e) then None else ErrE(e.callee), ErrEs(e.args))
    ensures FewE(e) ==> FewE(e.callee) && FewEs(e.args)
  {
    hide Enc, BuiltinId, CodeE, CodeEs, ConstsE, ConstsEs, ErrE, ErrEs, FewE, FewEs;
    if IsBuiltinCall(e) { BuiltinCallCode(e, k); } else { UserCallCode(e, k); }
    CallErrs(e);
  }

  lemma CallErrs(e: Expr)
    requires e.Call?
    ensures ErrE(e) == First(if IsBuiltinCall(e) then None else ErrE(e.callee), ErrEs(e.args))
    ensures FewE(e) ==> FewE(e.callee) && FewEs(e.args)
  {
    hide BuiltinId, ErrEs, FewEs;
  }

  predicate IsPairs(e: Expr) { e.MapLit? || e.StructLit? }

  lemma PairParts(e: Expr, k: nat)
    requires IsPairs(e)
    ensures var ps := e.pairs;
      && CodeE(e, k) == CodePs(ps, k) + Enc(if e.MapLit? then MakeMap(|ps|) else MakeStruct(k + |ConstsPs(ps)|, |ps|))
      && ConstsE(e) == ConstsPs(ps) + (if e.MapLit? then [] else [StrV(e.tname)])
      && ErrE(e) == ErrPs(ps) && (FewE(e) ==> FewPs(ps))
  {
    hide Enc, CodePs, ConstsPs, ErrPs, FewPs;
  }

  /** The first element of a list still to be compiled. */
  lemma NextExpr(es: seq<Expr>, i: nat, k: nat)
    requires i < |es|
    ensures CodeEs(es[i..], k) == CodeE(es[i], k) + CodeEs(es[i + 1..], k + |ConstsE(es[i])|)
    ensures ConstsEs(es[i..]) == ConstsE(es[i]) + ConstsEs(es[i + 1..])
    ensures ErrEs(es[i..]) == First(ErrE(es[i]), ErrEs(es[i + 1..]))
    ensures FewEs(es[i..]) ==> FewE(es[i]) && FewEs(es[i + 1..])
  {
    hide CodeE, ConstsE, ErrE, FewE;
    assert es[i..][0] == es[i] && es[i..][1..] == es[i + 1..];
  }

  lemma NoExprs(es: seq<Expr>, k: nat)
    ensures CodeEs(es[|es|..], k) == [] && ConstsEs(es[|es|..]) == [] && ErrEs(es[|es|..]).None?
  {
  }

  lemma NoEntries(ps: seq<Entry>, k: nat)
    ensures CodePs(ps[|ps|..], k) == [] && ConstsPs(ps[|ps|..]) == [] && ErrPs(ps[|ps|..]).None?
  {
  }

  lemma NextEntry(ps: seq<Entry>, i: nat, k: nat)
    requires i < |ps|
    ensures CodePs(ps[i..], k) == Enc(Const(k))
      + (CodeE(ps[i].value, k + 1) + CodePs(ps[i + 1..], k + 1 + |ConstsE(ps[i].value)|))
    ensures ConstsPs(ps[i..]) == [StrV(ps[i].key)] + (ConstsE(ps[i].value) + ConstsPs(ps[i + 1..]))
    ensures ErrPs(ps[i..]) == First(ErrE(ps[i].value), ErrPs(ps[i + 1..]))
    ensures FewPs(ps[i..]) ==> FewE(ps[i].value) && FewPs(ps[i + 1..])
  {
    hide Enc, CodeE, ConstsE, ErrE, FewE;
    assert ps[i..][0] == ps[i] && ps[i..][1..] == ps[i + 1..];
  }

  // ----- statements still to be compiled -----

  /** The code, constants and open breaks there will be once ss is compiled. */
  function Rest(ss: seq<Stmt>, loops: seq<LoopCtx>, bvc: nat, top: bool,
                code: seq<Byte>, pool: seq<Val>, done: seq<nat>): (seq<Byte>, seq<Val>, seq<nat>)
  {
    var l := LoopAt(loops, |code|);
    (code + CodeSs(ss, |pool|, l, bvc, top), pool + ConstsSs(ss), done + BreaksSs(ss, |pool|, l, bvc, top, |code|))
  }

  lemma NextStmt(ss: seq<Stmt>, i: nat, loops: seq<LoopCtx>, bvc: nat, top: bool, code: seq<Byte>, pool: seq<Val>,
      done: seq<nat>)
    requires i < |ss|
    ensures var l := LoopAt(loops, |code|);
      Rest(ss[i..], loops, bvc, top, code, pool, done)
      == Rest(ss[i + 1..], loops, bvc + Declared(ss[i]), top, code + CodeS(ss[i], |pool|, l, bvc, top),
        pool + ConstsS(ss[i]), done + BreaksS(ss[i], |pool|, l, bvc, top, |code|))
    ensures ErrSs(ss[i..], |loops|) == First(ErrS(ss[i], |loops|), ErrSs(ss[i + 1..], |loops|))
    ensures FewSs(ss[i..]) ==> FewS(ss[i]) && FewSs(ss[i + 1..])
    ensures NumSs(ss[i..]) == NumS(ss[i]) + NumSs(ss[i + 1..])
    ensures DeclaredIn(ss[i..]) == Declared(ss[i]) + DeclaredIn(ss[i + 1..])
  {
    hide CodeS, ConstsS, ErrS, FewS, NumS, BreaksS, Declared, LoopAt;
    assert ss[i..][0] == ss[i] && ss[i..][1..] == ss[i + 1..];
    var l := LoopAt(loops, |code|);
    var c := CodeS(ss[i], |pool|, l, bvc, top);
    LoopAtShift(loops, |code|, |c|);
    var k1 := |pool| + |ConstsS(ss[i])|;
    var b1 := bvc + Declared(ss[i]);
    var cs := CodeSs(ss[i + 1..], k1, Shift(l, |c|), b1, top);
    var ps := BreaksS(ss[i], |pool|, l, bvc, top, |code|);
    var qs := BreaksSs(ss[i + 1..], k1, Shift(l, |c|), b1, top, |code| + |c|);
    assert code + (c + cs) == code + c + cs;
    assert pool + (ConstsS(ss[i]) + ConstsSs(ss[i + 1..])) == pool + ConstsS(ss[i]) + ConstsSs(ss[i + 1..]);
    assert done + (ps + qs) == done + ps + qs;
  }

  lemma StartStmts(loops: seq<LoopCtx>, ss: seq<Stmt>, bvc: nat, top: bool, code: seq<Byte>, pool: seq<Val>)
    ensures var l := LoopAt(loops, |code|);
      Rest(ss, loops, bvc, top, code, pool, [])
      == (code + CodeSs(ss, |pool|, l, bvc, top), pool + ConstsSs(ss), BreaksSs(ss, |pool|, l, bvc, top, |code|))
  {
    hide CodeSs, ConstsSs, BreaksSs, LoopAt;
    var l := LoopAt(loops, |code|);
    assert [] + BreaksSs(ss, |pool|, l, bvc, top, |code|) == BreaksSs(ss, |pool|, l, bvc, top, |code|);
  }

  lemma LastStmt(ss: seq<Stmt>, loops: seq<LoopCtx>, bvc: nat, top: bool, code: seq<Byte>, pool: seq<Val>,
      done: seq<nat>)
    ensures Rest(ss[|ss|..], loops, bvc, top, code, pool, done) == (code, pool, done)
    ensures ErrSs(ss[|ss|..], |loops|).None? && DeclaredIn(ss[|ss|..]) == 0
  {
    hide LoopAt, CodeS, ConstsS, ErrS, BreaksS;
    NoMore(code);
    NoMore(pool);
    NoMore(done);
  }

  lemma NoMore<T>(s: seq<T>)
    ensures s + [] == s
  {
  }

  lemma RoomLess(loops: seq<LoopCtx>, ps: seq<nat>, n: nat, m: nat)
    requires Room(loops, n + m) && |ps| <= n
    ensures Room(loops, n) && Room(AddBreaks(loops, ps), m)
  {
  }

  /** Recording one break in a context that has room for it. */
  lemma RecordBreak(before: seq<LoopCtx>, after: seq<LoopCtx>, p: nat, n: nat, m: nat)
    requires before != [] && Room(before, 1) && LoopsIn(before, n) && n <= m && p + 2 <= m
    requires var lc := before[|before| - 1];
      after == before[..|before| - 1] + [lc.(breakPatches := lc.breakPatches + [p])]
    ensures after == AddBreaks(before, [p]) && LoopsIn(after, m)
  {
  }

  lemma TargetIn(loops: seq<LoopCtx>, n: nat)
    requires loops != [] && LoopsIn(loops, n)
    ensures loops[|loops| - 1].continueTarget <= n
  {
  }

  lemma StillInRange(ps: seq<nat>, n: nat, m: nat)
    requires InRange(ps, n) && n <= m
    ensures InRange(ps, m)
  {
  }

  lemma OnePop()
    ensures PopCode(1) == Enc(PopScope(1))
  {
  }

  lemma PopBytes(n: nat)
    ensures PopCode(n) == if n > 0 then [OP_POP_SCOPE] + [n % 256] else []
  {
  }

  /** The bytes of && and || from the states of the chunk while they are emitted. */
  lemma LogicalBytes(e: Expr, k: nat, b0: seq<Byte>, b1: seq<Byte>, b2: seq<Byte>, b3: seq<Byte>, b4: seq<Byte>)
    requires e.Binary? && !IsTwo(e)
    requires b1 == b0 + CodeE(e.left, k)
    requires b2 == b1 + ([if e.op == Or then OP_JUMP_IF_TRUE else OP_JUMP_IF_FALSE] + U16(0xffff))
    requires b3 == b2 + Enc(Pop) && b4 == b3 + CodeE(e.right, k + |ConstsE(e.left)|)
    ensures |b1| + 3 <= |b4| && Patch(b4, |b1| + 1, |b4| - |b1| - 3) == b0 + CodeE(e, k)
  {
    hide Patch, CodeE, ConstsE, ErrE, FewE, U16;
    var op := if e.op == Or then OP_JUMP_IF_TRUE else OP_JUMP_IF_FALSE;
    var left, pop, right := CodeE(e.left, k), Enc(Pop), CodeE(e.right, k + |ConstsE(e.left)|);
    assert |pop| == 1;
    hide Enc;
    TwoParts(e, k);
    JumpIfBytes(e.op, 1 + |right|);
    LogicalJoin(b0, left, op, pop, right, b4);
  }

  lemma LogicalJoin(b0: seq<Byte>, left: seq<Byte>, op: Byte, pop: seq<Byte>, right: seq<Byte>, b4: seq<Byte>)
    requires |pop| == 1 && b4 == b0 + left + ([op] + U16(0xffff)) + pop + right
    ensures var off := 1 + |right|; var b1 := b0 + left;
      |b1| + 3 <= |b4| && |b4| - |b1| - 3 == off
      && Patch(b4, |b1| + 1, off) == b0 + (left + (([op] + U16(off)) + (pop + right)))
  {
    hide Patch;
    var off := 1 + |right|;
    assert |U16(0xffff)| == 2;
    hide U16;
    Join(b0 + left + ([op] + U16(0xffff)), pop, right, []);
    PatchAt(b0 + left, op, 0xffff, pop + right, off);
    Join(b0, left, [op] + U16(off), pop + right);
  }

  lemma FnStmtBytes(s: Stmt, k: nat, top: bool, b0: seq<Byte>, b1: seq<Byte>, b2: seq<Byte>, b3: seq<Byte>)
    requires s.FnStmt? && b1 == b0 + Enc(Line(s.line))
    requires b2 == b1 + Enc(if top then Const(k) else Closure(k)) && b3 == b2 + Enc(Define(true, k + 1))
    ensures b3 == b0 + CodeSimple(s, k, top)
  {
    hide Enc, CodeSimple;
    FnStmtParts(s, k, top);
    Join(b0, Enc(Line(s.line)), Enc(if top then Const(k) else Closure(k)), Enc(Define(true, k + 1)));
  }

  // ----- one level of the code of a statement -----

  /** break and continue: the bytes before the jump, and the recorded break. */
  lemma ExitParts(s: Stmt, l: Loop, bvc: nat, k: nat, top: bool, at: nat)
    requires (s.Break? || s.Continue?) && l.fwd.None?
    ensures var exit := ExitCode(l.kind, bvc);
      && (l.kind == Outside ==> CodeExit(s, l, bvc) == Enc(Line(s.line)))
      && (l.kind != Outside && s.Break? ==>
            && CodeExit(s, l, bvc) == Enc(Line(s.line)) + (exit + ([OP_JUMP] + U16(0xffff)))
            && BreaksS(s, k, l, bvc, top, at) == [at + 3 + |exit| + 1])
      && (l.kind != Outside && s.Continue? ==>
            && CodeExit(s, l, bvc) == Enc(Line(s.line)) + (exit + Enc(JumpBack(l.back + 3 + |exit| + 3)))
            && BreaksS(s, k, l, bvc, top, at) == [])
  {
    hide ExitCode;
    NoMore(Enc(Line(s.line)));
  }

  lemma IfParts(c: IfChain, k: nat, l: Loop, top: bool, at: nat, depth: nat)
    ensures var cond := CodeE(c.cond, k); var k1 := k + |ConstsE(c.cond)|; var n := 3 + |cond| + 3;
      var thn := CodeB(c.thn, k1, Shift(l, n), top);
      var els := CodeElse(c.els, k1 + |ConstsB(c.thn)|, Shift(l, n + |thn|), top);
      && CodeIf(c, k, l, top) == Enc(Line(c.line)) + (cond
           + (Enc(JumpIf(false, |thn| + if c.els.NoElse? then 0 else 3)) + (thn + els)))
      && BreaksIf(c, k, l, top, at) == BreaksB(c.thn, k1, Shift(l, n), top, at + n)
           + BreaksElse(c.els, k1 + |ConstsB(c.thn)|, Shift(l, n + |thn|), top, at + n + |thn|)
    ensures ConstsIf(c) == ConstsE(c.cond) + (ConstsB(c.thn) + ConstsElse(c.els))
    ensures ErrIf(c, depth) == First(ErrE(c.cond), First(ErrB(c.thn, depth), ErrElse(c.els, depth)))
    ensures FewIf(c) ==> FewE(c.cond) && FewSs(c.thn.stmts) && FewElse(c.els)
    ensures NumIf(c) == NumSs(c.thn.stmts) + NumElse(c.els)
  {
    hide Enc, CodeE, CodeB, CodeElse, ConstsE, ConstsB, ConstsElse, ErrE, ErrB, ErrElse, FewE, FewSs, FewElse, NumSs,
      NumElse, BreaksB, BreaksElse;
  }

  /** The bytes of an if from the states of the chunk: b2 before the jump, thn
      and els after it, the jump already patched. */
  lemma IfBytes(c: IfChain, k: nat, l: Loop, top: bool, b0: seq<Byte>, b1: seq<Byte>, b2: seq<Byte>, b3: seq<Byte>)
    requires b1 == b0 + Enc(Line(c.line)) && b2 == b1 + CodeE(c.cond, k)
    requires var k1 := k + |ConstsE(c.cond)|; var n := 3 + |CodeE(c.cond, k)| + 3;
      var thn := CodeB(c.thn, k1, Shift(l, n), top);
      b3 == b2 + Enc(JumpIf(false, |thn| + if c.els.NoElse? then 0 else 3)) + thn
            + CodeElse(c.els, k1 + |ConstsB(c.thn)|, Shift(l, n + |thn|), top)
    ensures b3 == b0 + CodeIf(c, k, l, top)
  {
    hide Enc, CodeE, CodeB, CodeElse, ConstsE, ConstsB, CodeIf;
    IfParts(c, k, l, top, 0, 0);
    var k1 := k + |ConstsE(c.cond)|;
    var n := 3 + |CodeE(c.cond, k)| + 3;
    var thn := CodeB(c.thn, k1, Shift(l, n), top);
    var els := CodeElse(c.els, k1 + |ConstsB(c.thn)|, Shift(l, n + |thn|), top);
    var jump := Enc(JumpIf(false, |thn| + if c.els.NoElse? then 0 else 3));
    Join(b2, jump, thn, els);
    Join(b0, Enc(Line(c.line)), CodeE(c.cond, k), jump + (thn + els));
  }

  /** The statement of an else part, without the jump over it. */
  function ElseBody(els: Else, k: nat, l: Loop, top: bool): seq<Byte>
    requires !els.NoElse?
  {
    match els
    case ElseBlock(b) => CodeB(b, k, l, top)
    case ElseIf(c) => CodeIf(c, k, l, top)
  }

  function ElseBreaks(els: Else, k: nat, l: Loop, top: bool, at: nat): seq<nat>
    requires !els.NoElse?
  {
    match els
    case ElseBlock(b) => BreaksB(b, k, l, top, at)
    case ElseIf(c) => BreaksIf(c, k, l, top, at)
  }

  lemma ElseParts(els: Else, k: nat, l: Loop, top: bool, at: nat)
    ensures if els.NoElse? then
        CodeElse(els, k, l, top) == [] && BreaksElse(els, k, l, top, at) == [] && ConstsElse(els) == []
      else
        var body := ElseBody(els, k, Shift(l, 3), top);
        && CodeElse(els, k, l, top) == Enc(Jump(|body|)) + body
        && BreaksElse(els, k, l, top, at) == ElseBreaks(els, k, Shift(l, 3), top, at + 3)
    ensures els.NoElse? ==> forall depth: nat {:trigger ErrElse(els, depth)} :: ErrElse(els, depth).None?
  {
    hide Enc, CodeB, CodeIf, ConstsB, ConstsIf, BreaksB, BreaksIf, Shift;
  }

  /** An else part: the bytes of the two jumps once both are patched. */
  lemma ElseBytes(b2: seq<Byte>, thn: seq<Byte>, code: seq<Byte>)
    ensures var b3 := b2 + ([OP_JUMP_IF_FALSE] + U16(0xffff)) + thn;
      var b4 := b3 + ([OP_JUMP] + U16(0xffff));
      var b5 := Patch(b4, |b2| + 1, |thn| + 3);
      |b4| - |b2| - 3 == |thn| + 3 && |b5 + code| - |b3| - 3 == |code|
      && Patch(b5 + code, |b3| + 1, |code|) == b2 + Enc(JumpIf(false, |thn| + 3)) + thn + (Enc(Jump(|code|)) + code)
  {
    hide Patch, U16;
    var hole := [OP_JUMP] + U16(0xffff);
    var b3 := b2 + ([OP_JUMP_IF_FALSE] + U16(0xffff)) + thn;
    Join(b2 + ([OP_JUMP_IF_FALSE] + U16(0xffff)), thn, hole, []);
    PatchAt(b2, OP_JUMP_IF_FALSE, 0xffff, thn + hole, |thn| + 3);
    var jif := [OP_JUMP_IF_FALSE] + U16(|thn| + 3);
    Join(b2 + jif, thn, hole, code);
    PatchAt(b2 + jif + thn, OP_JUMP, 0xffff, code, |code|);
    Join(b2 + jif + thn, [OP_JUMP] + U16(|code|), code, []);
  }

  lemma NoElseBytes(b2: seq<Byte>, thn: seq<Byte>)
    ensures var b3 := b2 + ([OP_JUMP_IF_FALSE] + U16(0xffff)) + thn;
      |b3| - |b2| - 3 == |thn|
      && Patch(b3, |b2| + 1, |thn|) == b2 + Enc(JumpIf(false, |thn|)) + thn + []
  {
    hide Patch, U16;
    PatchAt(b2, OP_JUMP_IF_FALSE, 0xffff, thn, |thn|);
    NoMore(b2 + ([OP_JUMP_IF_FALSE] + U16(|thn|)) + thn);
  }

  // ----- loops, once their jumps are patched -----

  lemma WhileParts(s: Stmt, depth: nat)
    requires s.While?
    ensures ConstsS(s) == ConstsE(s.cond) + ConstsB(s.body)
    ensures ErrS(s, depth)
      == if depth >= MAX_LOOP_DEPTH then Some(TooManyLoops) else First(ErrE(s.cond), ErrB(s.body, depth + 1))
    ensures FewS(s) ==> FewE(s.cond) && FewSs(s.body.stmts) && NumSs(s.body.stmts) <= MAX_BREAK_PATCHES
  {
    hide Enc, CodeE, CodeB, ConstsE, ConstsB, ErrE, ErrB, FewE, FewSs, NumSs;
  }

  lemma WhileCode(cond: Expr, body: Block, k: nat, top: bool, c: seq<Byte>, l: Loop, hole: seq<Byte>)
    requires c == CodeE(cond, k) && l == Loop(OfWhile, |c| + 3, None)
    requires hole == CodeB(body, k + |ConstsE(cond)|, l, top)
    ensures var len := |hole|;
      CodeWhile(cond, body, k, top) == c + (Enc(JumpIf(false, len + 3))
        + (CodeB(body, k + |ConstsE(cond)|, Aimed(l, len + 3), top) + Enc(JumpBack(|c| + 3 + len + 3))))
  {
    hide Enc, CodeE, CodeB, ConstsE;
    LenBlock(body, k + |ConstsE(cond)|, l, Loop(OfWhile, 0, None), top);
  }

  /** Patching the exit jump of a loop and then the breaks in its body. */
  lemma LoopBytes(b2: seq<Byte>, op: Byte, y: int, hole: seq<Byte>, body: seq<Byte>, back: seq<Byte>,
                  x: int, ps: seq<nat>, target: int)
    requires Filled(b2 + ([op] + U16(x)), hole, body, back, ps, target)
    ensures var code := b2 + ([op] + U16(y)) + hole + back;
      |b2| + 3 <= |code| && InRange(ps, |code|)
      && AimAll(Patch(code, |b2| + 1, x), ps, target) == b2 + (([op] + U16(x)) + (body + back))
  {
    hide Patch, U16, AimAll;
    Join(b2 + ([op] + U16(y)), hole, back, []);
    PatchAt(b2, op, y, hole + back, x);
    Join(b2 + ([op] + U16(x)), hole, back, []);
    Join(b2, [op] + U16(x), body, back);
  }

  lemma WhileJoin(b1: seq<Byte>, cond: seq<Byte>, hole: seq<Byte>, body: seq<Byte>, back: seq<Byte>, ps: seq<nat>,
      target: int)
    requires Filled(b1 + cond + ([OP_JUMP_IF_FALSE] + U16(|hole| + 3)), hole, body, back, ps, target)
    ensures var code := b1 + cond + ([OP_JUMP_IF_FALSE] + U16(0xffff)) + hole + back; var p := |b1 + cond| + 1;
      p + 2 <= |code| && InRange(ps, |code|)
      && AimAll(Patch(code, p, |hole| + 3), ps, target)
        == b1 + (cond + (Enc(JumpIf(false, |hole| + 3)) + (body + back)))
  {
    hide Patch, U16, AimAll, Filled, Enc, InRange;
    LoopBytes(b1 + cond, OP_JUMP_IF_FALSE, 0xffff, hole, body, back, |hole| + 3, ps, target);
    JumpIfBytes(And, |hole| + 3);
    Join(b1, cond, Enc(JumpIf(false, |hole| + 3)) + (body + back), []);
  }

  /** A while from the states of the chunk: b1 at the loop start, b2 after the
      condition, then the jump, the body, the jump back, and all the patches. */
  lemma WhileBytes(cond: Expr, body: Block, k: nat, top: bool, b1: seq<Byte>, b2: seq<Byte>, b4: seq<Byte>,
      b5: seq<Byte>, c: seq<Byte>, l: Loop, hole: seq<Byte>)
    requires c == CodeE(cond, k) && l == Loop(OfWhile, |c| + 3, None)
    requires hole == CodeB(body, k + |ConstsE(cond)|, l, top)
    requires b2 == b1 + c && b4 == b2 + ([OP_JUMP_IF_FALSE] + U16(0xffff)) + hole
    requires b5 == b4 + Enc(JumpBack(|b4| + 3 - |b1|))
    ensures var ps := BreaksB(body, k + |ConstsE(cond)|, l, top, |b2| + 3);
      |b2| + 3 <= |b5| && InRange(ps, |b5|)
      && AimAll(Patch(b5, |b2| + 1, |b5| - |b2| - 3), ps, |b5|) == b1 + CodeWhile(cond, body, k, top)
  {
    hide Patch, CodeE, CodeB, ConstsE, Enc, U16, BreaksB, AimAll, CodeWhile, Filled, InRange;
    var len := |hole|;
    var k1 := k + |ConstsE(cond)|;
    WhileCode(cond, body, k, top, c, l, hole);
    assert |b4| + 3 - |b1| == |c| + 3 + len + 3;
    var back := Enc(JumpBack(|c| + 3 + len + 3));
    var pre := b2 + ([OP_JUMP_IF_FALSE] + U16(len + 3));
    FillB(body, k1, l, len + 3, top, pre, back);
    WhileJoin(b1, c, hole, CodeB(body, k1, Aimed(l, len + 3), top), back, BreaksB(body, k1, l, top, |pre|), |b5|);
  }

  lemma ForStmtParts(s: Stmt, depth: nat)
    requires s.For?
    ensures ConstsS(s) == ConstsE(s.iter) + ([StrV(s.x)] + ConstsB(s.body))
    ensures ErrS(s, depth)
      == if depth >= MAX_LOOP_DEPTH then Some(TooManyLoops) else First(ErrE(s.iter), ErrB(s.body, depth + 1))
    ensures FewS(s) ==> FewE(s.iter) && FewSs(s.body.stmts) && NumSs(s.body.stmts) <= MAX_BREAK_PATCHES
  {
    hide Enc, CodeE, CodeB, ConstsE, ConstsB, ErrE, ErrB, FewE, FewSs, NumSs;
  }

  lemma ForCode(body: Block, k: nat, top: bool, l: Loop, hole: seq<Byte>)
    requires l == Loop(OfFor, 6, None) && hole == CodeB(body, k + 1, l, top)
    ensures var len := |hole|;
      CodeFor(body, k, top) == Enc(IterNext(3 + len + 5)) + (Enc(Define(false, k))
        + (CodeB(body, k + 1, Aimed(l, len + 5), top)
           + (Enc(PopScope(1)) + (Enc(JumpBack(6 + len + 5)) + Enc(IterCleanup)))))
  {
    hide Enc, CodeB;
    LenBlock(body, k + 1, l, Loop(OfFor, 0, None), top);
  }

  lemma ForJoin(b1: seq<Byte>, def: seq<Byte>, hole: seq<Byte>, body: seq<Byte>, pop: seq<Byte>, back: seq<Byte>,
      end: seq<Byte>, x: int, ps: seq<nat>, target: int)
    requires Filled(b1 + ([OP_ITER_NEXT] + U16(x)) + def, hole, body, pop + back, ps, target)
    ensures var code := b1 + ([OP_ITER_NEXT] + U16(0)) + def + hole + pop + back;
      |b1| + 3 <= |code| && InRange(ps, |code|)
      && AimAll(Patch(code, |b1| + 1, x), ps, target) + end
         == b1 + (([OP_ITER_NEXT] + U16(x)) + (def + (body + (pop + (back + end)))))
  {
    hide Patch, U16, AimAll, Filled, InRange;
    var next := [OP_ITER_NEXT] + U16(x);
    FillBehind(b1 + next, def, hole, body, pop + back, ps, target);
    LoopBytes(b1, OP_ITER_NEXT, 0, def + hole, def + body, pop + back, x, ps, target);
    var hole0 := b1 + ([OP_ITER_NEXT] + U16(0));
    Join(hole0, def, hole, []);
    Join(hole0 + (def + hole), pop, back, []);
    Join(b1, next, (def + body) + (pop + back), end);
    Join([], def, body, []);
    assert ((def + body) + (pop + back)) + end == def + (body + (pop + (back + end)));
  }

  /** A for from the states of the chunk: b1 at the loop start, b4 after the
      body, b5 after the jump back, then the patches and the cleanup. */
  lemma ForBytes(body: Block, k: nat, top: bool, b1: seq<Byte>, b3: seq<Byte>, b4: seq<Byte>, b5: seq<Byte>, l: Loop,
      hole: seq<Byte>)
    requires l == Loop(OfFor, 6, None) && hole == CodeB(body, k + 1, l, top)
    requires b3 == b1 + ([OP_ITER_NEXT] + U16(0)) + Enc(Define(false, k)) && b4 == b3 + hole
    requires b5 == b4 + Enc(PopScope(1)) + Enc(JumpBack(|b4| + 5 - |b1|))
    ensures var ps := BreaksB(body, k + 1, l, top, |b3|);
      |b1| + 3 <= |b5| && InRange(ps, |b5|)
      && AimAll(Patch(b5, |b1| + 1, |b5| - |b1| - 3), ps, |b5|) + Enc(IterCleanup) == b1 + CodeFor(body, k, top)
  {
    hide Patch, CodeB, Enc, U16, BreaksB, AimAll, CodeFor, Filled, InRange;
    var len := |hole|;
    ForCode(body, k, top, l, hole);
    assert |b4| + 5 - |b1| == 6 + len + 5;
    var pop, back := Enc(PopScope(1)), Enc(JumpBack(6 + len + 5));
    var x := 3 + len + 5;
    IterNextBytes(x);
    var pre := b1 + ([OP_ITER_NEXT] + U16(x)) + Enc(Define(false, k));
    FillB(body, k + 1, l, len + 5, top, pre, pop + back);
    ForJoin(b1, Enc(Define(false, k)), hole, CodeB(body, k + 1, Aimed(l, len + 5), top), pop, back, Enc(IterCleanup), x,
            BreaksB(body, k + 1, l, top, |pre|), |b5|);
  }

  lemma IterNextBytes(x: int)
    ensures Enc(IterNext(x)) == [OP_ITER_NEXT] + U16(x)
  {
  }

  lemma FnStmtParts(s: Stmt, k: nat, top: bool)
    requires s.FnStmt?
    ensures CodeSimple(s, k, top)
         == Enc(Line(s.line)) + (Enc(if top then Const(k) else Closure(k)) + Enc(Define(true, k + 1)))
    ensures ConstsS(s) == [FnV(s.decl, [])] + [StrV(s.decl.fname)]
    ensures ErrS(s, 0) == ErrB(s.decl.body, 0) && (FewS(s) ==> FewSs(s.decl.body.stmts))
  {
    hide Enc, ErrB, FewSs;
  }
}
