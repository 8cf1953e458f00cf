/** The compiler as the repository writes it (src/compiler.c): a recursive walk
    that appends to a chunk, counts the bindings of the current block, keeps a
    stack of loop contexts and patches jumps in place. */
module Compilers {
  import opened Ast
  import opened Values
  import opened Bytecode
  import opened CodeGen
  import opened Chunks
  import opened Patching
  import opened Limits
  import opened Layout

  class Compiler {
    const chunk: Chunk
    const isTopLevel: bool
    var blockVarCount: nat
    var loopStack: seq<LoopCtx>
    var error: Option<CompileErr>

    ghost predicate Ok()
      reads this, chunk, chunk.Repr
    {
      chunk.Valid() && this !in chunk.Repr
    }

    constructor (top: bool)
      ensures Ok() && fresh(chunk.Repr) && isTopLevel == top
      ensures chunk.Bytes == [] && chunk.Pool == [] && loopStack == [] && blockVarCount == 0 && error.None?
    {
      chunk := new Chunk();
      isTopLevel := top;
      blockVarCount := 0;
      loopStack := [];
      error := None;
    }

    // ----- emitting -----

    /** An instruction with a 16-bit operand. */
    method EmitWide(ghost i: Instr, op: Byte, x: int)
      requires Ok() && Plain(i) && Size(i) == 3 && op == OpCode(i) && Operands(i) == U16(x)
      modifies chunk.Repr
      ensures Ok() && fresh(chunk.Repr - old(chunk.Repr))
      ensures chunk.Bytes == old(chunk.Bytes) + Enc(i) && chunk.Pool == old(chunk.Pool)
    {
      chunk.Write(op);
      chunk.WriteU16(x);
    }

    /** An instruction of one byte. */
    method EmitOp(ghost i: Instr, op: Byte)
      requires Ok() && Plain(i) && Size(i) == 1 && op == OpCode(i)
      modifies chunk.Repr
      ensures Ok() && fresh(chunk.Repr - old(chunk.Repr))
      ensures chunk.Bytes == old(chunk.Bytes) + Enc(i) && chunk.Pool == old(chunk.Pool)
    {
      chunk.Write(op);
    }

    method EmitConst(v: Val)
      requires Ok()
      modifies chunk.Repr
      ensures Ok() && fresh(chunk.Repr - old(chunk.Repr))
      ensures chunk.Bytes == old(chunk.Bytes) + Enc(Const(|old(chunk.Pool)|)) && chunk.Pool == old(chunk.Pool) + [v]
    {
      var idx := chunk.AddConst(v);
      EmitWide(Const(idx), OP_CONST, idx);
    }

    method EmitLine(line: int)
      requires Ok()
      modifies chunk.Repr
      ensures Ok() && fresh(chunk.Repr - old(chunk.Repr))
      ensures chunk.Bytes == old(chunk.Bytes) + Enc(Line(line)) && chunk.Pool == old(chunk.Pool)
    {
      EmitWide(Line(line), OP_LINE, line);
    }

    // ----- functions -----

    /** A function body in a compiler and a chunk of its own. */
    static method CompileFunction(fn: FnDecl) returns (sub: Chunk, err: Option<CompileErr>)
      requires FewSs(fn.body.stmts)
      ensures sub.Valid() && fresh(sub.Repr)
      ensures err == ErrB(fn.body, 0)
      ensures err.None? ==> sub.Bytes == FnCode(fn) && sub.Pool == FnConsts(fn)
      decreases fn, 0
    {
      hide Enc, CodeB, ConstsB, ErrB, FewSs, NumSs, BreaksB;
      var c := new Compiler(false);
      c.CompileBlock(fn.body);
      c.EmitOp(ReturnNil, OP_RETURN_NIL);
      sub := c.chunk;
      err := c.error;
    }

    // ----- expressions -----

    /** compile_expr: appends the code and the constants of e, unless an error
        has been set. */
    method CompileExpr(e: Expr)
      requires Ok() && FewE(e)
      modifies this`error, chunk.Repr
      ensures Ok() && fresh(chunk.Repr - old(chunk.Repr)) && |chunk.Bytes| >= |old(chunk.Bytes)|
      ensures error == First(old(error), ErrE(e))
      ensures error.None? ==> chunk.Bytes == old(chunk.Bytes) + CodeE(e, |old(chunk.Pool)|)
      ensures error.None? ==> chunk.Pool == old(chunk.Pool) + ConstsE(e)
      decreases e, 2
    {
      hide CodeE, ConstsE, ErrE, FewE;
      if error.Some? { return; }
      if IsOne(e) { CompileOne(e); }
      else if IsTwo(e) { CompileTwo(e); }
      else if e.Binary? { CompileLogical(e); }
      else if e.Call? { CompileCall(e); }
      else if e.ArrayLit? { CompileArray(e); }
      else if e.MapLit? { CompileMap(e); }
      else if e.StructLit? { CompileStruct(e); }
      else if e.Lambda? { CompileLambda(e); }
      else { CompileLeaf(e); }
    }

    method CompileLeaf(e: Expr)
      requires Ok() && error.None? && (e.IntLit? || e.FloatLit? || e.StrLit? || e.BoolLit? || e.Ident?)
      modifies this`error, chunk.Repr
      ensures Ok() && fresh(chunk.Repr - old(chunk.Repr))
      ensures error.None? && ErrE(e).None?
      ensures chunk.Bytes == old(chunk.Bytes) + CodeE(e, |old(chunk.Pool)|)
      ensures chunk.Pool == old(chunk.Pool) + ConstsE(e)
    {
      match e
      case IntLit(n) => EmitConst(IntV(n));
      case FloatLit(f) => EmitConst(FloatV(f));
      case StrLit(raw) => EmitConst(StrV(raw));
      case BoolLit(b) => EmitOp(PushBool(b), if b then OP_TRUE else OP_FALSE);
      case Ident(name) =>
        var idx := chunk.AddConst(StrV(name));
        EmitWide(GetVar(idx), OP_GET_VAR, idx);
    }

    /** One operand, then one instruction. */
    method CompileOne(e: Expr)
      requires Ok() && error.None? && IsOne(e) && FewE(e)
      modifies this`error, chunk.Repr
      ensures Ok() && fresh(chunk.Repr - old(chunk.Repr)) && |chunk.Bytes| >= |old(chunk.Bytes)|
      ensures error == ErrE(e)
      ensures error.None? ==> chunk.Bytes == old(chunk.Bytes) + CodeE(e, |old(chunk.Pool)|)
      ensures error.None? ==> chunk.Pool == old(chunk.Pool) + ConstsE(e)
      decreases e, 1
    {
      hide Chunk.Valid, Enc, U16, CodeE, ConstsE, ErrE, FewE;
      OneParts(e, |chunk.Pool|);
      CompileExpr(Operand(e));
      ghost var i := OneInstr(e, |chunk.Pool|);
      Join(old(chunk.Bytes), CodeE(Operand(e), |old(chunk.Pool)|), Enc(i), []);
      Join(old(chunk.Pool), ConstsE(Operand(e)), if e.Field? then [StrV(e.field)] else [], []);
      match e
      case Unary(op, _) => EmitOp(UnaryOp(op), if op == Neg then OP_NEGATE else OP_NOT);
      case Field(_, x) =>
        var idx := chunk.AddConst(StrV(x));
        EmitWide(GetField(idx), OP_GET_FIELD, idx);
      case ResultLit(ok, _) => EmitOp(MakeResult(ok), if ok then OP_RESULT_OK else OP_RESULT_ERR);
      case Try(_) => EmitOp(TryOp, OP_TRY);
    }

    /** Two operands, then one instruction. */
    method CompileTwo(e: Expr)
      requires Ok() && error.None? && IsTwo(e) && FewE(e)
      modifies this`error, chunk.Repr
      ensures Ok() && fresh(chunk.Repr - old(chunk.Repr)) && |chunk.Bytes| >= |old(chunk.Bytes)|
      ensures error == ErrE(e)
      ensures error.None? ==> chunk.Bytes == old(chunk.Bytes) + CodeE(e, |old(chunk.Pool)|)
      ensures error.None? ==> chunk.Pool == old(chunk.Pool) + ConstsE(e)
      decreases e, 1
    {
      hide Chunk.Valid, Enc, U16, CodeE, ConstsE, ErrE, FewE;
      ghost var k := |chunk.Pool|;
      TwoParts(e, k);
      var a := if e.Binary? then e.left else e.arr;
      var b := if e.Binary? then e.right else e.idx;
      CompileExpr(a);
      CompileExpr(b);
      if e.Binary? { EmitOp(BinaryOp(e.op), BinCode(e.op)); } else { EmitOp(IndexOp, OP_INDEX); }
      Join(old(chunk.Bytes), CodeE(a, k), CodeE(b, k + |ConstsE(a)|),
        Enc(if e.Binary? then BinaryOp(e.op) else IndexOp));
      Join(old(chunk.Pool), ConstsE(a), ConstsE(b), []);
    }

    /** && and ||: a popping jump, one more pop, and the jump patched. */
    method CompileLogical(e: Expr)
      requires Ok() && error.None? && e.Binary? && !IsTwo(e) && FewE(e)
      modifies this`error, chunk.Repr
      ensures Ok() && fresh(chunk.Repr - old(chunk.Repr)) && |chunk.Bytes| >= |old(chunk.Bytes)|
      ensures error == ErrE(e)
      ensures error.None? ==> chunk.Bytes == old(chunk.Bytes) + CodeE(e, |old(chunk.Pool)|)
      ensures error.None? ==> chunk.Pool == old(chunk.Pool) + ConstsE(e)
      decreases e, 1
    {
      hide Chunk.Valid, Enc, U16, CodeE, ConstsE, ErrE, FewE, Patch;
      ghost var b0, k := chunk.Bytes, |chunk.Pool|;
      TwoParts(e, k);
      Join(chunk.Pool, ConstsE(e.left), ConstsE(e.right), []);
      CompileExpr(e.left);
      ghost var b1 := chunk.Bytes;
      var jump := chunk.EmitJump(if e.op == Or then OP_JUMP_IF_TRUE else OP_JUMP_IF_FALSE);
      ghost var b2 := chunk.Bytes;
      EmitOp(Pop, OP_POP);
      ghost var b3 := chunk.Bytes;
      CompileExpr(e.right);
      ghost var b4 := chunk.Bytes;
      if error.None? { LogicalBytes(e, k, b0, b1, b2, b3, b4); }
      chunk.PatchJump(jump);
    }

    /** Arguments or elements, one after the other. */
    method CompileAll(es: seq<Expr>)
      requires Ok() && FewEs(es)
      modifies this`error, chunk.Repr
      ensures Ok() && fresh(chunk.Repr - old(chunk.Repr)) && |chunk.Bytes| >= |old(chunk.Bytes)|
      ensures error == First(old(error), ErrEs(es))
      ensures error.None? ==> chunk.Bytes == old(chunk.Bytes) + CodeEs(es, |old(chunk.Pool)|)
      ensures error.None? ==> chunk.Pool == old(chunk.Pool) + ConstsEs(es)
      decreases es, 0
    {
      hide Chunk.Valid, Enc, U16, CodeE, ConstsE, ErrE, FewE, CodeEs, ConstsEs, ErrEs, FewEs;
      ghost var k := |chunk.Pool|;
      assert es[0..] == es;
      for i := 0 to |es|
        invariant Ok() && fresh(chunk.Repr - old(chunk.Repr)) && |chunk.Bytes| >= |old(chunk.Bytes)|
        invariant FewEs(es[i..]) && First(error, ErrEs(es[i..])) == First(old(error), ErrEs(es))
        invariant error.None? ==> chunk.Bytes + CodeEs(es[i..], |chunk.Pool|) == old(chunk.Bytes) + CodeEs(es, k)
        invariant error.None? ==> chunk.Pool + ConstsEs(es[i..]) == old(chunk.Pool) + ConstsEs(es)
      {
        NextExpr(es, i, |chunk.Pool|);
        CompileExpr(es[i]);
      }
      NoExprs(es, |chunk.Pool|);
    }

    /** Keys and values of a map or struct literal. */
    method CompileEntries(ps: seq<Entry>)
      requires Ok() && FewPs(ps)
      modifies this`error, chunk.Repr
      ensures Ok() && fresh(chunk.Repr - old(chunk.Repr)) && |chunk.Bytes| >= |old(chunk.Bytes)|
      ensures error == First(old(error), ErrPs(ps))
      ensures error.None? ==> chunk.Bytes == old(chunk.Bytes) + CodePs(ps, |old(chunk.Pool)|)
      ensures error.None? ==> chunk.Pool == old(chunk.Pool) + ConstsPs(ps)
      decreases ps, 0
    {
      hide Chunk.Valid, Enc, U16, CodeE, ConstsE, ErrE, FewE, CodePs, ConstsPs, ErrPs, FewPs;
      ghost var k := |chunk.Pool|;
      assert ps[0..] == ps;
      for i := 0 to |ps|
        invariant Ok() && fresh(chunk.Repr - old(chunk.Repr)) && |chunk.Bytes| >= |old(chunk.Bytes)|
        invariant FewPs(ps[i..]) && First(error, ErrPs(ps[i..])) == First(old(error), ErrPs(ps))
        invariant error.None? ==> chunk.Bytes + CodePs(ps[i..], |chunk.Pool|) == old(chunk.Bytes) + CodePs(ps, k)
        invariant error.None? ==> chunk.Pool + ConstsPs(ps[i..]) == old(chunk.Pool) + ConstsPs(ps)
      {
        NextEntry(ps, i, |chunk.Pool|);
        EmitConst(StrV(ps[i].key));
        CompileExpr(ps[i].value);
      }
      NoEntries(ps, |chunk.Pool|);
    }

    method CompileCall(e: Expr)
      requires Ok() && error.None? && e.Call? && FewE(e)
      modifies this`error, chunk.Repr
      ensures Ok() && fresh(chunk.Repr - old(chunk.Repr)) && |chunk.Bytes| >= |old(chunk.Bytes)|
      ensures error == ErrE(e)
      ensures error.None? ==> chunk.Bytes == old(chunk.Bytes) + CodeE(e, |old(chunk.Pool)|)
      ensures error.None? ==> chunk.Pool == old(chunk.Pool) + ConstsE(e)
      decreases e, 1
    {
      hide Chunk.Valid, Enc, U16, CodeE, ConstsE, ErrE, FewE, CodeEs, ConstsEs, ErrEs, FewEs, BuiltinId;
      ghost var k := |chunk.Pool|;
      CallParts(e, k);
      var n := |e.args|;
      if e.callee.Ident? && BuiltinId(e.callee.name).Some? {
        var id := BuiltinId(e.callee.name).value;
        CompileAll(e.args);
        chunk.Write(OP_CALL_BUILTIN);
        chunk.WriteU16(id);
        chunk.Write(n % 256);
        CallBytes(id, n);
        Join(old(chunk.Bytes) + CodeEs(e.args, k), [OP_CALL_BUILTIN], U16(id), [n % 256]);
        Join(old(chunk.Bytes), CodeEs(e.args, k), Enc(CallBuiltin(id, n)), []);
        assert [] + ConstsEs(e.args) == ConstsEs(e.args);
      } else {
        CompileExpr(e.callee);
        CompileAll(e.args);
        chunk.Write(OP_CALL);
        chunk.Write(n % 256);
        CallBytes(0, n);
        ghost var c := CodeE(e.callee, k);
        ghost var cs := CodeEs(e.args, k + |ConstsE(e.callee)|);
        Join(old(chunk.Bytes) + c + cs, [OP_CALL], [n % 256], []);
        Join(old(chunk.Bytes), c, cs, Enc(CallOp(n)));
        Join(old(chunk.Pool), ConstsE(e.callee), ConstsEs(e.args), []);
      }
    }

    method CompileArray(e: Expr)
      requires Ok() && error.None? && e.ArrayLit? && FewE(e)
      modifies this`error, chunk.Repr
      ensures Ok() && fresh(chunk.Repr - old(chunk.Repr)) && |chunk.Bytes| >= |old(chunk.Bytes)|
      ensures error == ErrE(e)
      ensures error.None? ==> chunk.Bytes == old(chunk.Bytes) + CodeE(e, |old(chunk.Pool)|)
      ensures error.None? ==> chunk.Pool == old(chunk.Pool) + ConstsE(e)
      decreases e, 1
    {
      hide CodeEs, ConstsEs, ErrEs, FewEs;
      CompileAll(e.elems);
      EmitWide(MakeArray(|e.elems|), OP_ARRAY, |e.elems|);
    }

    /** A map literal. */
    method CompileMap(e: Expr)
      requires Ok() && error.None? && e.MapLit? && FewE(e)
      modifies this`error, chunk.Repr
      ensures Ok() && fresh(chunk.Repr - old(chunk.Repr)) && |chunk.Bytes| >= |old(chunk.Bytes)|
      ensures error == ErrE(e)
      ensures error.None? ==> chunk.Bytes == old(chunk.Bytes) + CodeE(e, |old(chunk.Pool)|)
      ensures error.None? ==> chunk.Pool == old(chunk.Pool) + ConstsE(e)
      decreases e, 1
    {
      hide Chunk.Valid, Enc, U16, CodeE, ConstsE, ErrE, FewE, CodePs, ConstsPs, ErrPs, FewPs;
      PairParts(e, |chunk.Pool|);
      var n := |e.pairs|;
      ghost var c := CodePs(e.pairs, |chunk.Pool|);
      CompileEntries(e.pairs);
      EmitWide(MakeMap(n), OP_MAP, n);
      Join(old(chunk.Bytes), c, Enc(MakeMap(n)), []);
      assert ConstsPs(e.pairs) + [] == ConstsPs(e.pairs);
    }

    /** A struct literal. */
    method CompileStruct(e: Expr)
      requires Ok() && error.None? && e.StructLit? && FewE(e)
      modifies this`error, chunk.Repr
      ensures Ok() && fresh(chunk.Repr - old(chunk.Repr)) && |chunk.Bytes| >= |old(chunk.Bytes)|
      ensures error == ErrE(e)
      ensures error.None? ==> chunk.Bytes == old(chunk.Bytes) + CodeE(e, |old(chunk.Pool)|)
      ensures error.None? ==> chunk.Pool == old(chunk.Pool) + ConstsE(e)
      decreases e, 1
    {
      hide Chunk.Valid, Enc, U16, CodeE, ConstsE, ErrE, FewE, CodePs, ConstsPs, ErrPs, FewPs;
      PairParts(e, |chunk.Pool|);
      var n := |e.pairs|;
      ghost var c := CodePs(e.pairs, |chunk.Pool|);
      CompileEntries(e.pairs);
      var idx := chunk.AddConst(StrV(e.tname));
      chunk.Write(OP_STRUCT);
      chunk.WriteU16(idx);
      chunk.Write(n % 256);
      StructJoin(old(chunk.Bytes), c, idx, n);
      Join(old(chunk.Pool), ConstsPs(e.pairs), [StrV(e.tname)], []);
    }

    /** Compiles a function and adds it to the constants. */
    method AddFunction(fn: FnDecl) returns (idx: nat)
      requires Ok() && error.None? && FewSs(fn.body.stmts)
      modifies this`error, chunk.Repr
      ensures Ok() && fresh(chunk.Repr - old(chunk.Repr)) && chunk.Bytes == old(chunk.Bytes)
      ensures error == ErrB(fn.body, 0)
      ensures idx == |old(chunk.Pool)| && chunk.Pool == old(chunk.Pool) + [FnV(fn, [])]
      decreases fn, 1
    {
      hide Chunk.Valid, FewSs, ErrB;
      var sub, err := CompileFunction(fn);
      error := err;
      idx := chunk.AddConst(FnV(fn, []));
    }

    method CompileLambda(e: Expr)
      requires Ok() && error.None? && e.Lambda? && FewE(e)
      modifies this`error, chunk.Repr
      ensures Ok() && fresh(chunk.Repr - old(chunk.Repr)) && |chunk.Bytes| >= |old(chunk.Bytes)|
      ensures error == ErrE(e)
      ensures error.None? ==> chunk.Bytes == old(chunk.Bytes) + CodeE(e, |old(chunk.Pool)|)
      ensures error.None? ==> chunk.Pool == old(chunk.Pool) + ConstsE(e)
      decreases e, 1
    {
      hide FewSs, ErrB;
      var idx := AddFunction(e.fn);
      EmitWide(Closure(idx), OP_CLOSURE, idx);
    }

    // ----- statements -----

    /** The fragment and its constants are appended, and its open breaks are
        recorded in the innermost loop context. */
    ghost predicate Wrote(code: seq<Byte>, consts: seq<Val>, loops: seq<LoopCtx>,
                          frag: seq<Byte>, more: seq<Val>, breaks: seq<nat>)
      reads this, chunk
    {
      chunk.Bytes == code + frag && chunk.Pool == consts + more && loopStack == AddBreaks(loops, breaks)
    }

    /** compile_stmt: appends the code and the constants of s and counts what it
        declares, unless an error has been set. */
    method CompileStmt(s: Stmt)
      requires Ok() && FewS(s) && |loopStack| <= MAX_LOOP_DEPTH
      requires LoopsIn(loopStack, |chunk.Bytes|) && (error.None? ==> Room(loopStack, NumS(s)))
      modifies this, chunk.Repr
      ensures Ok() && fresh(chunk.Repr - old(chunk.Repr)) && |chunk.Bytes| >= |old(chunk.Bytes)|
      ensures |loopStack| == |old(loopStack)| && LoopsIn(loopStack, |chunk.Bytes|)
      ensures error == First(old(error), ErrS(s, |old(loopStack)|))
      ensures error.None? ==> Wrote(old(chunk.Bytes), old(chunk.Pool), old(loopStack),
        CodeS(s, |old(chunk.Pool)|, LoopAt(old(loopStack), |old(chunk.Bytes)|), old(blockVarCount), isTopLevel),
          ConstsS(s),
        BreaksS(s, |old(chunk.Pool)|, LoopAt(old(loopStack), |old(chunk.Bytes)|), old(blockVarCount), isTopLevel,
          |old(chunk.Bytes)|))
      ensures error.None? ==> blockVarCount == old(blockVarCount) + Declared(s)
      decreases s, 2
    {
      hide Chunk.Valid, Enc, CodeE, CodeIf, CodeWhile, CodeFor, CodeExit, CodeSimple, ConstsE, ConstsB, ConstsIf,
        ConstsOpt, ErrE, ErrB, ErrIf, FewE, FewSs, FewIf, BreaksIf, ExitCode, LoopAt, AddBreaks;
      if error.Some? { return; }
      AddBreaksAgain(loopStack, [], []);
      if s.If? {
        CompileIf(s.chain);
      } else if s.While? {
        CompileWhile(s);
      } else if s.For? {
        CompileFor(s);
      } else if s.Break? || s.Continue? {
        CompileExit(s);
      } else {
        CompileSimple(s);
        LoopsInMore(loopStack, |old(chunk.Bytes)|, |chunk.Bytes|);
      }
    }

    /** Defines the value on top under a name and counts the new binding. */
    method EmitDefine(immut: bool, name: string)
      requires Ok()
      modifies this`blockVarCount, chunk.Repr
      ensures Ok() && fresh(chunk.Repr - old(chunk.Repr)) && blockVarCount == old(blockVarCount) + 1
      ensures chunk.Bytes == old(chunk.Bytes) + Enc(Define(immut, |old(chunk.Pool)|))
      ensures chunk.Pool == old(chunk.Pool) + [StrV(name)]
    {
      hide Chunk.Valid, Enc, U16;
      var idx := chunk.AddConst(StrV(name));
      EmitWide(Define(immut, idx), if immut then OP_DEFINE_LET else OP_DEFINE_VAR, idx);
      blockVarCount := blockVarCount + 1;
    }

    /** Drops n bindings, if there are any. */
    method EmitPopScope(n: nat)
      requires Ok()
      modifies chunk.Repr
      ensures Ok() && fresh(chunk.Repr - old(chunk.Repr))
      ensures chunk.Bytes == old(chunk.Bytes) + PopCode(n) && chunk.Pool == old(chunk.Pool)
    {
      hide Chunk.Valid, Enc, PopCode;
      PopBytes(n);
      if n > 0 {
        chunk.Write(OP_POP_SCOPE);
        chunk.Write(n % 256);
        Join(old(chunk.Bytes), [OP_POP_SCOPE], [n % 256], []);
      } else {
        assert old(chunk.Bytes) + [] == old(chunk.Bytes);
      }
    }

    /** Statements without control flow. */
    method CompileSimple(s: Stmt)
      requires Ok() && error.None? && IsSimple(s) && FewS(s)
      modifies this`error, this`blockVarCount, chunk.Repr
      ensures Ok() && fresh(chunk.Repr - old(chunk.Repr)) && |chunk.Bytes| >= |old(chunk.Bytes)|
      ensures error == ErrS(s, 0)
      ensures error.None? ==> chunk.Bytes == old(chunk.Bytes) + CodeSimple(s, |old(chunk.Pool)|, isTopLevel)
      ensures error.None? ==>
        chunk.Pool == old(chunk.Pool) + ConstsS(s) && blockVarCount == old(blockVarCount) + Declared(s)
      decreases s, 1
    {
      hide CodeSimple, ConstsS, ErrS, FewS;
      if s.Decl? { CompileDecl(s); }
      else if s.FnStmt? { CompileFnStmt(s); }
      else if s.Return? { CompileReturn(s); }
      else { CompileEffect(s); }
    }

    /** Expression statements, assignments and struct declarations. */
    method CompileEffect(s: Stmt)
      requires Ok() && error.None? && (s.ExprStmt? || s.Assign? || s.StructDecl?) && FewS(s)
      modifies this`error, this`blockVarCount, chunk.Repr
      ensures Ok() && fresh(chunk.Repr - old(chunk.Repr)) && |chunk.Bytes| >= |old(chunk.Bytes)|
      ensures error == ErrS(s, 0)
      ensures error.None? ==> chunk.Bytes == old(chunk.Bytes) + CodeSimple(s, |old(chunk.Pool)|, isTopLevel)
      ensures error.None? ==>
        chunk.Pool == old(chunk.Pool) + ConstsS(s) && blockVarCount == old(blockVarCount) + Declared(s)
      decreases s, 0
    {
      hide Chunk.Valid, Enc, U16, CodeE, ConstsE, ErrE, FewE, ConstsB, ConstsIf, ErrB, ErrIf, FewSs, FewIf;
      ghost var k := |chunk.Pool|;
      ghost var line := Enc(Line(s.line));
      EmitLine(s.line);
      match s
      case ExprStmt(_, e) =>
        CompileExpr(e);
        EmitOp(Pop, OP_POP);
        Join(old(chunk.Bytes), line, CodeE(e, k), Enc(Pop));
      case Assign(_, x, e) =>
        CompileExpr(e);
        var idx := chunk.AddConst(StrV(x));
        EmitWide(SetVar(idx), OP_SET_VAR, idx);
        Join(old(chunk.Bytes), line, CodeE(e, k), Enc(SetVar(idx)));
        Join(old(chunk.Pool), ConstsE(e), [StrV(x)], []);
      case StructDecl(_) =>
        assert chunk.Bytes == old(chunk.Bytes) + (line + []);
        assert chunk.Pool == old(chunk.Pool) + [];
    }

    method CompileDecl(s: Stmt)
      requires Ok() && error.None? && s.Decl? && FewS(s)
      modifies this`error, this`blockVarCount, chunk.Repr
      ensures Ok() && fresh(chunk.Repr - old(chunk.Repr)) && |chunk.Bytes| >= |old(chunk.Bytes)|
      ensures error == ErrS(s, 0)
      ensures error.None? ==> chunk.Bytes == old(chunk.Bytes) + CodeSimple(s, |old(chunk.Pool)|, isTopLevel)
      ensures error.None? ==>
        chunk.Pool == old(chunk.Pool) + ConstsS(s) && blockVarCount == old(blockVarCount) + Declared(s)
      decreases s, 0
    {
      hide Chunk.Valid, Enc, U16, CodeE, ConstsE, ErrE, FewE, ConstsB, ConstsIf, ErrB, ErrIf, FewSs, FewIf;
      ghost var k := |chunk.Pool|;
      ghost var line := Enc(Line(s.line));
      EmitLine(s.line);
      match s.init {
        case Some(e) => CompileExpr(e);
        case None => EmitOp(PushNil, OP_NIL);
      }
      EmitDefine(s.immut, s.x);
      Join(old(chunk.Bytes), line, CodeOpt(s.init, k), Enc(Define(s.immut, k + |ConstsOpt(s.init)|)));
      Join(old(chunk.Pool), ConstsOpt(s.init), [StrV(s.x)], []);
      assert old(chunk.Pool) + [] == old(chunk.Pool);
    }

    method CompileReturn(s: Stmt)
      requires Ok() && error.None? && s.Return? && FewS(s)
      modifies this`error, this`blockVarCount, chunk.Repr
      ensures Ok() && fresh(chunk.Repr - old(chunk.Repr)) && |chunk.Bytes| >= |old(chunk.Bytes)|
      ensures error == ErrS(s, 0)
      ensures error.None? ==> chunk.Bytes == old(chunk.Bytes) + CodeSimple(s, |old(chunk.Pool)|, isTopLevel)
      ensures error.None? ==>
        chunk.Pool == old(chunk.Pool) + ConstsS(s) && blockVarCount == old(blockVarCount) + Declared(s)
      decreases s, 0
    {
      hide Chunk.Valid, Enc, U16, CodeE, ConstsE, ErrE, FewE, ConstsB, ConstsIf, ErrB, ErrIf, FewSs, FewIf;
      ghost var k := |chunk.Pool|;
      ghost var line := Enc(Line(s.line));
      EmitLine(s.line);
      match s.value
      case Some(e) =>
        CompileExpr(e);
        EmitOp(ReturnOp, OP_RETURN);
        Join(old(chunk.Bytes), line, CodeE(e, k), Enc(ReturnOp));
      case None =>
        EmitOp(ReturnNil, OP_RETURN_NIL);
        Join(old(chunk.Bytes), line, Enc(ReturnNil), []);
        assert chunk.Pool == old(chunk.Pool) + [];
    }

    /** A function of the main program is loaded as a constant, a nested one as
        a closure. */
    method CompileFnStmt(s: Stmt)
      requires Ok() && error.None? && s.FnStmt? && FewS(s)
      modifies this`error, this`blockVarCount, chunk.Repr
      ensures Ok() && fresh(chunk.Repr - old(chunk.Repr)) && |chunk.Bytes| >= |old(chunk.Bytes)|
      ensures error == ErrS(s, 0)
      ensures error.None? ==> chunk.Bytes == old(chunk.Bytes) + CodeSimple(s, |old(chunk.Pool)|, isTopLevel)
      ensures error.None? ==>
        chunk.Pool == old(chunk.Pool) + ConstsS(s) && blockVarCount == old(blockVarCount) + Declared(s)
      decreases s, 0
    {
      hide Chunk.Valid, Enc, U16, CodeSimple, ConstsS, ErrS, FewS, ErrB, FewSs;
      ghost var k, b0 := |chunk.Pool|, chunk.Bytes;
      FnStmtParts(s, k, isTopLevel);
      EmitLine(s.line);
      ghost var b1 := chunk.Bytes;
      var fnIdx := AddFunction(s.decl);
      if isTopLevel { EmitWide(Const(fnIdx), OP_CONST, fnIdx); }
      else { EmitWide(Closure(fnIdx), OP_CLOSURE, fnIdx); }
      ghost var b2 := chunk.Bytes;
      EmitDefine(true, s.decl.fname);
      FnStmtBytes(s, k, isTopLevel, b0, b1, b2, chunk.Bytes);
      Join(old(chunk.Pool), [FnV(s.decl, [])], [StrV(s.decl.fname)], []);
    }

    /** What break and continue drop: the locals of the current block and the
        variable of a for. */
    method EmitUnwind(isFor: bool)
      requires Ok()
      modifies chunk.Repr
      ensures Ok() && fresh(chunk.Repr - old(chunk.Repr))
      ensures chunk.Bytes == old(chunk.Bytes) + ExitCode(if isFor then OfFor else OfWhile, blockVarCount)
      ensures chunk.Pool == old(chunk.Pool)
    {
      hide Chunk.Valid, Enc, PopCode;
      EmitPopScope(blockVarCount);
      if isFor { EmitPopScope(1); }
      OnePop();
      Join(old(chunk.Bytes), PopCode(blockVarCount), if isFor then PopCode(1) else [], []);
    }

    method CompileExit(s: Stmt)
      requires Ok() && error.None? && (s.Break? || s.Continue?)
      requires LoopsIn(loopStack, |chunk.Bytes|) && Room(loopStack, NumS(s))
      modifies this`error, this`loopStack, chunk.Repr
      ensures Ok() && fresh(chunk.Repr - old(chunk.Repr)) && |chunk.Bytes| >= |old(chunk.Bytes)|
      ensures |loopStack| == |old(loopStack)| && LoopsIn(loopStack, |chunk.Bytes|)
      ensures error == ErrS(s, |old(loopStack)|)
      ensures error.None? ==> Wrote(old(chunk.Bytes), old(chunk.Pool), old(loopStack),
        CodeExit(s, LoopAt(old(loopStack), |old(chunk.Bytes)|), blockVarCount), [],
        BreaksS(s, |old(chunk.Pool)|, LoopAt(old(loopStack), |old(chunk.Bytes)|), blockVarCount, isTopLevel,
          |old(chunk.Bytes)|))
      decreases s, 1
    {
      hide Ok, CodeExit, BreaksS, LoopsIn, AddBreaks, LoopAt, Room, Wrote;
      if s.Break? { CompileBreak(s); } else { CompileContinue(s); }
    }

    method CompileBreak(s: Stmt)
      requires Ok() && error.None? && s.Break?
      requires LoopsIn(loopStack, |chunk.Bytes|) && Room(loopStack, NumS(s))
      modifies this`error, this`loopStack, chunk.Repr
      ensures Ok() && fresh(chunk.Repr - old(chunk.Repr)) && |chunk.Bytes| >= |old(chunk.Bytes)|
      ensures |loopStack| == |old(loopStack)| && LoopsIn(loopStack, |chunk.Bytes|)
      ensures error == ErrS(s, |old(loopStack)|)
      ensures error.None? ==> Wrote(old(chunk.Bytes), old(chunk.Pool), old(loopStack),
        CodeExit(s, LoopAt(old(loopStack), |old(chunk.Bytes)|), blockVarCount), [],
        BreaksS(s, |old(chunk.Pool)|, LoopAt(old(loopStack), |old(chunk.Bytes)|), blockVarCount, isTopLevel,
          |old(chunk.Bytes)|))
      decreases s, 0
    {
      hide Chunk.Valid, Enc, U16, CodeExit, BreaksS, ExitCode, LoopsIn, AddBreaks;
      ghost var at := |chunk.Bytes|;
      ExitParts(s, LoopAt(loopStack, at), blockVarCount, |chunk.Pool|, isTopLevel, at);
      EmitLine(s.line);
      if loopStack == [] {
        LoopsInMore(loopStack, at, |chunk.Bytes|);
        error := Some(BreakOutside);
        return;
      }
      var lc := loopStack[|loopStack| - 1];
      EmitUnwind(lc.isFor);
      ghost var exit := ExitCode(if lc.isFor then OfFor else OfWhile, blockVarCount);
      var patch := chunk.EmitJump(OP_JUMP);
      Join(old(chunk.Bytes), Enc(Line(s.line)), exit, [OP_JUMP] + U16(0xffff));
      NoMore(old(chunk.Pool));
      if |lc.breakPatches| < MAX_BREAK_PATCHES {
        lc := lc.(breakPatches := lc.breakPatches + [patch]);
        loopStack := loopStack[..|loopStack| - 1] + [lc];
      }
      RecordBreak(old(loopStack), loopStack, patch, at, |chunk.Bytes|);
    }

    method CompileContinue(s: Stmt)
      requires Ok() && error.None? && s.Continue?
      requires LoopsIn(loopStack, |chunk.Bytes|) && Room(loopStack, NumS(s))
      modifies this`error, this`loopStack, chunk.Repr
      ensures Ok() && fresh(chunk.Repr - old(chunk.Repr)) && |chunk.Bytes| >= |old(chunk.Bytes)|
      ensures |loopStack| == |old(loopStack)| && LoopsIn(loopStack, |chunk.Bytes|)
      ensures error == ErrS(s, |old(loopStack)|)
      ensures error.None? ==> Wrote(old(chunk.Bytes), old(chunk.Pool), old(loopStack),
        CodeExit(s, LoopAt(old(loopStack), |old(chunk.Bytes)|), blockVarCount), [],
        BreaksS(s, |old(chunk.Pool)|, LoopAt(old(loopStack), |old(chunk.Bytes)|), blockVarCount, isTopLevel,
          |old(chunk.Bytes)|))
      decreases s, 0
    {
      hide Chunk.Valid, Enc, U16, CodeExit, BreaksS, ExitCode, LoopsIn, AddBreaks;
      ghost var l, at := LoopAt(loopStack, |chunk.Bytes|), |chunk.Bytes|;
      ExitParts(s, l, blockVarCount, |chunk.Pool|, isTopLevel, at);
      EmitLine(s.line);
      if loopStack == [] {
        LoopsInMore(loopStack, at, |chunk.Bytes|);
        error := Some(ContinueOutside);
        return;
      }
      var lc := loopStack[|loopStack| - 1];
      EmitUnwind(lc.isFor);
      ghost var exit := ExitCode(if lc.isFor then OfFor else OfWhile, blockVarCount);
      TargetIn(loopStack, at);
      chunk.EmitLoop(lc.continueTarget);
      Join(old(chunk.Bytes), Enc(Line(s.line)), exit, Enc(JumpBack(l.back + 3 + |exit| + 3)));
      NoMore(old(chunk.Pool));
      AddBreaksAgain(loopStack, [], []);
      LoopsInMore(loopStack, at, |chunk.Bytes|);
    }

    /** A condition and the jump to be patched. */
    method CompileCond(cond: Expr) returns (falseJump: nat)
      requires Ok() && error.None? && FewE(cond)
      modifies this`error, chunk.Repr
      ensures Ok() && fresh(chunk.Repr - old(chunk.Repr)) && |chunk.Bytes| >= |old(chunk.Bytes)|
      ensures error == ErrE(cond) && falseJump + 2 <= |chunk.Bytes|
      ensures error.None? ==>
        var b2 := old(chunk.Bytes) + CodeE(cond, |old(chunk.Pool)|);
        falseJump == |b2| + 1 && chunk.Bytes == b2 + ([OP_JUMP_IF_FALSE] + U16(0xffff))
      ensures error.None? ==> chunk.Pool == old(chunk.Pool) + ConstsE(cond)
      decreases cond, 3
    {
      hide Chunk.Valid, Enc, U16, CodeE, ConstsE, ErrE, FewE;
      CompileExpr(cond);
      falseJump := chunk.EmitJump(OP_JUMP_IF_FALSE);
    }

    method CompileIf(c: IfChain)
      requires Ok() && FewIf(c) && |loopStack| <= MAX_LOOP_DEPTH
      requires LoopsIn(loopStack, |chunk.Bytes|) && (error.None? ==> Room(loopStack, NumIf(c)))
      modifies this, chunk.Repr
      ensures Ok() && fresh(chunk.Repr - old(chunk.Repr)) && |chunk.Bytes| >= |old(chunk.Bytes)|
      ensures |loopStack| == |old(loopStack)| && LoopsIn(loopStack, |chunk.Bytes|)
      ensures error == First(old(error), ErrIf(c, |old(loopStack)|))
      ensures error.None? ==> Wrote(old(chunk.Bytes), old(chunk.Pool), old(loopStack),
        CodeIf(c, |old(chunk.Pool)|, LoopAt(old(loopStack), |old(chunk.Bytes)|), isTopLevel), ConstsIf(c),
        BreaksIf(c, |old(chunk.Pool)|, LoopAt(old(loopStack), |old(chunk.Bytes)|), isTopLevel, |old(chunk.Bytes)|))
      ensures error.None? ==> blockVarCount == old(blockVarCount)
      decreases c, 2
    {
      hide Chunk.Valid, Enc, U16, CodeE, CodeB, CodeElse, CodeIf, ConstsE, ConstsB, ConstsElse, ConstsIf, ErrE, ErrB,
        ErrElse, ErrIf, FewE, FewSs, FewElse, FewIf, NumSs, NumElse, NumIf, BreaksB, BreaksElse, BreaksIf, LoopsIn,
        AddBreaks, LoopAt, Room, Patch, Shift;
      if error.Some? { return; }
      ghost var k, b0, loops := |chunk.Pool|, chunk.Bytes, loopStack;
      ghost var l := LoopAt(loops, |b0|);
      ghost var n := 3 + |CodeE(c.cond, k)| + 3;
      IfParts(c, k, l, isTopLevel, |b0|, |loops|);
      LoopAtShift(loops, |b0|, n);
      LoopAtShift(loops, |b0|, n + |CodeB(c.thn, k + |ConstsE(c.cond)|, Shift(l, n), isTopLevel)|);
      EmitLine(c.line);
      var falseJump := CompileCond(c.cond);
      LoopsInMore(loops, |b0|, |chunk.Bytes|);
      ghost var b1 := b0 + Enc(Line(c.line));
      ghost var b2 := b1 + CodeE(c.cond, k);
      CompileArms(c, falseJump, b2);
      if error.None? {
        IfBytes(c, k, l, isTopLevel, b0, b1, b2, chunk.Bytes);
        Join(old(chunk.Pool), ConstsE(c.cond), ConstsB(c.thn) + ConstsElse(c.els), []);
      }
    }

    /** Both arms, behind the jump whose operand is at falseJump. */
    method CompileArms(c: IfChain, falseJump: nat, ghost b2: seq<Byte>)
      requires Ok() && FewSs(c.thn.stmts) && FewElse(c.els) && |loopStack| <= MAX_LOOP_DEPTH
      requires falseJump + 2 <= |chunk.Bytes|
      requires LoopsIn(loopStack, |chunk.Bytes|)
      requires error.None? ==> Room(loopStack, NumSs(c.thn.stmts) + NumElse(c.els))
      requires error.None? ==> falseJump == |b2| + 1 && chunk.Bytes == b2 + ([OP_JUMP_IF_FALSE] + U16(0xffff))
      modifies this, chunk.Repr
      ensures Ok() && fresh(chunk.Repr - old(chunk.Repr)) && |chunk.Bytes| >= |old(chunk.Bytes)|
      ensures |loopStack| == |old(loopStack)| && LoopsIn(loopStack, |chunk.Bytes|)
      ensures error == First(old(error), First(ErrB(c.thn, |old(loopStack)|), ErrElse(c.els, |old(loopStack)|)))
      ensures error.None? ==> (
        var k, at, loops := |old(chunk.Pool)|, |old(chunk.Bytes)|, old(loopStack);
        var thn := CodeB(c.thn, k, LoopAt(loops, at), isTopLevel);
        var k2, l2 := k + |ConstsB(c.thn)|, LoopAt(loops, at + |thn|);
        Wrote(b2 + Enc(JumpIf(false, |thn| + if c.els.NoElse? then 0 else 3)) + thn, old(chunk.Pool), loops,
              CodeElse(c.els, k2, l2, isTopLevel), ConstsB(c.thn) + ConstsElse(c.els),
              BreaksB(c.thn, k, LoopAt(loops, at), isTopLevel, at) + BreaksElse(c.els, k2, l2, isTopLevel, at + |thn|)))
      ensures error.None? ==> blockVarCount == old(blockVarCount)
      decreases c, 1
    {
      hide Chunk.Valid, Enc, U16, CodeE, CodeB, CodeElse, CodeIf, ConstsE, ConstsB, ConstsElse, ConstsIf, ErrE, ErrB,
        ErrElse, ErrIf, FewE, FewSs, FewElse, FewIf, NumSs, NumElse, NumIf, BreaksB, BreaksElse, BreaksIf, LoopsIn,
        AddBreaks, LoopAt, Room, Patch, Shift;
      ghost var k, at, loops := |chunk.Pool|, |chunk.Bytes|, loopStack;
      ghost var l := LoopAt(loops, at);
      ghost var breaks := BreaksB(c.thn, k, l, isTopLevel, at);
      if error.None? {
        CountB(c.thn, k, l, isTopLevel, at);
        RoomLess(loops, breaks, NumSs(c.thn.stmts), NumElse(c.els));
      }
      CompileBlock(c.thn);
      ghost var thn := CodeB(c.thn, k, l, isTopLevel);
      ghost var k2 := k + |ConstsB(c.thn)|;
      SameLoop(loops, breaks, at + |thn|);
      AddBreaksAgain(loops, breaks, BreaksElse(c.els, k2, LoopAt(loops, at + |thn|), isTopLevel, at + |thn|));
      CompileElse(c.els, falseJump, b2, thn);
      Join(old(chunk.Pool), ConstsB(c.thn), ConstsElse(c.els), []);
    }

    /** The else part; the jump at falseJump, behind b2, is made to land on it. */
    method CompileElse(els: Else, falseJump: nat, ghost b2: seq<Byte>, ghost thn: seq<Byte>)
      requires Ok() && FewElse(els) && |loopStack| <= MAX_LOOP_DEPTH && falseJump + 2 <= |chunk.Bytes|
      requires LoopsIn(loopStack, |chunk.Bytes|) && (error.None? ==> Room(loopStack, NumElse(els)))
      requires error.None? ==>
        falseJump == |b2| + 1 && chunk.Bytes == b2 + ([OP_JUMP_IF_FALSE] + U16(0xffff)) + thn
      modifies this, chunk.Repr
      ensures Ok() && fresh(chunk.Repr - old(chunk.Repr)) && |chunk.Bytes| >= |old(chunk.Bytes)|
      ensures |loopStack| == |old(loopStack)| && LoopsIn(loopStack, |chunk.Bytes|)
      ensures error == First(old(error), ErrElse(els, |old(loopStack)|))
      ensures error.None? ==> Wrote(b2 + Enc(JumpIf(false, |thn| + if els.NoElse? then 0 else 3)) + thn,
        old(chunk.Pool), old(loopStack),
        CodeElse(els, |old(chunk.Pool)|, LoopAt(old(loopStack), |old(chunk.Bytes)|), isTopLevel), ConstsElse(els),
        BreaksElse(els, |old(chunk.Pool)|, LoopAt(old(loopStack), |old(chunk.Bytes)|), isTopLevel, |old(chunk.Bytes)|))
      ensures error.None? ==> blockVarCount == old(blockVarCount)
      decreases els, 1
    {
      hide Chunk.Valid, Enc, U16, CodeElse, ConstsElse, ErrElse, FewElse, NumElse, BreaksElse, ElseBody, ElseBreaks,
        LoopsIn, AddBreaks, LoopAt, Room, Patch, Shift;
      ghost var k, at, loops := |chunk.Pool|, |chunk.Bytes|, loopStack;
      ghost var l := LoopAt(loops, at);
      ElseParts(els, k, l, isTopLevel, at);
      LoopAtShift(loops, at, 3);
      if els.NoElse? {
        AddBreaksAgain(loops, [], []);
        NoElseBytes(b2, thn);
        NoMore(chunk.Pool);
        chunk.PatchJump(falseJump);
      } else {
        var endJump := chunk.EmitJump(OP_JUMP);
        chunk.PatchJump(falseJump);
        LoopsInMore(loops, at, |chunk.Bytes|);
        CompileElseBody(els);
        ElseBytes(b2, thn, ElseBody(els, k, Shift(l, 3), isTopLevel));
        chunk.PatchJump(endJump);
      }
    }

    method CompileElseBody(els: Else)
      requires Ok() && !els.NoElse? && FewElse(els) && |loopStack| <= MAX_LOOP_DEPTH
      requires LoopsIn(loopStack, |chunk.Bytes|) && (error.None? ==> Room(loopStack, NumElse(els)))
      modifies this, chunk.Repr
      ensures Ok() && fresh(chunk.Repr - old(chunk.Repr)) && |chunk.Bytes| >= |old(chunk.Bytes)|
      ensures |loopStack| == |old(loopStack)| && LoopsIn(loopStack, |chunk.Bytes|)
      ensures error == First(old(error), ErrElse(els, |old(loopStack)|))
      ensures error.None? ==> Wrote(old(chunk.Bytes), old(chunk.Pool), old(loopStack),
        ElseBody(els, |old(chunk.Pool)|, LoopAt(old(loopStack), |old(chunk.Bytes)|), isTopLevel), ConstsElse(els),
        ElseBreaks(els, |old(chunk.Pool)|, LoopAt(old(loopStack), |old(chunk.Bytes)|), isTopLevel, |old(chunk.Bytes)|))
      ensures error.None? ==> blockVarCount == old(blockVarCount)
      decreases els, 0
    {
      hide Ok, Enc, U16, CodeB, CodeIf, ConstsB, ConstsIf, ErrB, ErrIf, FewSs, FewIf, NumSs, NumIf, BreaksB, BreaksIf,
        LoopsIn, AddBreaks, LoopAt, Room, Wrote;
      match els
      case ElseBlock(b) => CompileBlock(b);
      case ElseIf(c) => CompileIf(c);
    }

    /** Patches the recorded breaks of a loop to land here. */
    method PatchBreaks(ps: seq<nat>)
      requires Ok() && InRange(ps, |chunk.Bytes|)
      modifies chunk.Repr
      ensures Ok() && chunk.Repr == old(chunk.Repr) && chunk.Pool == old(chunk.Pool)
      ensures chunk.Bytes == AimAll(old(chunk.Bytes), ps, |old(chunk.Bytes)|)
    {
      hide Chunk.Valid, Patch;
      ghost var n := |chunk.Bytes|;
      assert ps[0..] == ps;
      for i := 0 to |ps|
        invariant Ok() && chunk.Repr == old(chunk.Repr) && chunk.Pool == old(chunk.Pool)
        invariant |chunk.Bytes| == n && InRange(ps[i..], n)
        invariant AimAll(chunk.Bytes, ps[i..], n) == AimAll(old(chunk.Bytes), ps, n)
      {
        assert ps[i..][0] == ps[i] && ps[i..][1..] == ps[i + 1..];
        chunk.PatchJump(ps[i]);
      }
    }

    /** A loop body in a loop context of its own, which is returned. */
    method CompileBody(body: Block, loopStart: nat, isFor: bool) returns (lc: LoopCtx)
      requires Ok() && FewSs(body.stmts) && NumSs(body.stmts) <= MAX_BREAK_PATCHES && |loopStack| < MAX_LOOP_DEPTH
      requires LoopsIn(loopStack, |chunk.Bytes|) && loopStart <= |chunk.Bytes|
      modifies this, chunk.Repr
      ensures Ok() && fresh(chunk.Repr - old(chunk.Repr)) && |chunk.Bytes| >= |old(chunk.Bytes)|
      ensures |loopStack| == |old(loopStack)| && LoopsIn(loopStack, |chunk.Bytes|)
      ensures InRange(lc.breakPatches, |chunk.Bytes|)
      ensures error == First(old(error), ErrB(body, |old(loopStack)| + 1))
      ensures error.None? ==> (
        var k, at := |old(chunk.Pool)|, |old(chunk.Bytes)|;
        var l := Loop(if isFor then OfFor else OfWhile, at - loopStart, None);
        && chunk.Bytes == old(chunk.Bytes) + CodeB(body, k, l, isTopLevel)
        && chunk.Pool == old(chunk.Pool) + ConstsB(body)
        && lc.breakPatches == BreaksB(body, k, l, isTopLevel, at)
        && loopStack == old(loopStack) && blockVarCount == old(blockVarCount))
      decreases body, 2
    {
      hide Chunk.Valid, Enc, CodeB, ConstsB, ErrB, FewSs, NumSs, BreaksB;
      ghost var loops := loopStack;
      loopStack := loopStack + [LoopCtx(loopStart, [], isFor)];
      CompileBlock(body);
      lc := loopStack[|loopStack| - 1];
      loopStack := loopStack[..|loopStack| - 1];
    }

    method CompileWhile(s: Stmt)
      requires Ok() && error.None? && s.While? && FewS(s) && |loopStack| <= MAX_LOOP_DEPTH
      requires LoopsIn(loopStack, |chunk.Bytes|)
      modifies this, chunk.Repr
      ensures Ok() && fresh(chunk.Repr - old(chunk.Repr)) && |chunk.Bytes| >= |old(chunk.Bytes)|
      ensures |loopStack| == |old(loopStack)| && LoopsIn(loopStack, |chunk.Bytes|)
      ensures error == ErrS(s, |old(loopStack)|)
      ensures error.None? ==>
        && chunk.Bytes == old(chunk.Bytes)
          + (Enc(Line(s.line)) + CodeWhile(s.cond, s.body, |old(chunk.Pool)|, isTopLevel))
        && chunk.Pool == old(chunk.Pool) + ConstsS(s)
        && loopStack == old(loopStack) && blockVarCount == old(blockVarCount)
      decreases s, 1
    {
      hide Chunk.Valid, Enc, U16, CodeE, CodeB, CodeWhile, ConstsE, ConstsB, ConstsS, ErrE, ErrB, ErrS, FewE, FewSs,
        FewS, NumSs, LoopsIn;
      ghost var k, at := |chunk.Pool|, |chunk.Bytes|;
      WhileParts(s, |loopStack|);
      EmitLine(s.line);
      LoopsInMore(loopStack, at, |chunk.Bytes|);
      CompileWhileLoop(s);
      Join(old(chunk.Bytes), Enc(Line(s.line)), CodeWhile(s.cond, s.body, k, isTopLevel), []);
    }

    /** A while from its loop start. */
    method CompileWhileLoop(s: Stmt)
      requires Ok() && error.None? && s.While? && FewS(s) && |loopStack| <= MAX_LOOP_DEPTH
      requires LoopsIn(loopStack, |chunk.Bytes|)
      modifies this, chunk.Repr
      ensures Ok() && fresh(chunk.Repr - old(chunk.Repr)) && |chunk.Bytes| >= |old(chunk.Bytes)|
      ensures |loopStack| == |old(loopStack)| && LoopsIn(loopStack, |chunk.Bytes|)
      ensures error == ErrS(s, |old(loopStack)|)
      ensures error.None? ==>
        && chunk.Bytes == old(chunk.Bytes) + CodeWhile(s.cond, s.body, |old(chunk.Pool)|, isTopLevel)
        && chunk.Pool == old(chunk.Pool) + ConstsS(s)
        && loopStack == old(loopStack) && blockVarCount == old(blockVarCount)
      decreases s, 0
    {
      hide Chunk.Valid, Enc, U16, CodeE, CodeB, CodeWhile, ConstsE, ConstsB, ConstsS, ErrE, ErrB, ErrS, FewE, FewSs,
        FewS, NumSs, BreaksB, LoopsIn, InRange, Patch, AimAll;
      ghost var k, b1 := |chunk.Pool|, chunk.Bytes;
      WhileParts(s, |loopStack|);
      var loopStart := chunk.Count();
      var exitJump := CompileCond(s.cond);
      ghost var c := CodeE(s.cond, k);
      LoopsInMore(loopStack, |b1|, |chunk.Bytes|);
      if |loopStack| >= MAX_LOOP_DEPTH {
        error := Some(TooManyLoops);
        return;
      }
      var lc := CompileBody(s.body, loopStart, false);
      ghost var b4 := chunk.Bytes;
      chunk.EmitLoop(loopStart);
      ghost var b5 := chunk.Bytes;
      LoopsInMore(loopStack, |b4|, |b5|);
      StillInRange(lc.breakPatches, |b4|, |b5|);
      chunk.PatchJump(exitJump);
      PatchBreaks(lc.breakPatches);
      if error.None? {
        ghost var l := Loop(OfWhile, |c| + 3, None);
        WhileBytes(s.cond, s.body, k, isTopLevel, b1, b1 + c, b4, b5, c, l,
          CodeB(s.body, k + |ConstsE(s.cond)|, l, isTopLevel));
        Join(old(chunk.Pool), ConstsE(s.cond), ConstsB(s.body), []);
      }
    }

    method CompileFor(s: Stmt)
      requires Ok() && error.None? && s.For? && FewS(s) && |loopStack| <= MAX_LOOP_DEPTH
      requires LoopsIn(loopStack, |chunk.Bytes|)
      modifies this, chunk.Repr
      ensures Ok() && fresh(chunk.Repr - old(chunk.Repr)) && |chunk.Bytes| >= |old(chunk.Bytes)|
      ensures |loopStack| == |old(loopStack)| && LoopsIn(loopStack, |chunk.Bytes|)
      ensures error == ErrS(s, |old(loopStack)|)
      ensures error.None? ==>
        && chunk.Bytes == old(chunk.Bytes) + (Enc(Line(s.line)) + (CodeE(s.iter, |old(chunk.Pool)|)
             + (Enc(IterSetup) + CodeFor(s.body, |old(chunk.Pool)| + |ConstsE(s.iter)|, isTopLevel))))
        && chunk.Pool == old(chunk.Pool) + ConstsS(s)
        && loopStack == old(loopStack) && blockVarCount == old(blockVarCount)
      decreases s, 1
    {
      hide Chunk.Valid, Enc, U16, CodeE, CodeB, CodeFor, ConstsE, ConstsB, ConstsS, ErrE, ErrB, ErrS, FewE, FewSs,
        FewS, NumSs, LoopsIn;
      ghost var k, at := |chunk.Pool|, |chunk.Bytes|;
      ghost var k1, c := k + |ConstsE(s.iter)|, CodeE(s.iter, k);
      ForStmtParts(s, |loopStack|);
      EmitLine(s.line);
      CompileExpr(s.iter);
      EmitOp(IterSetup, OP_ITER_SETUP);
      LoopsInMore(loopStack, at, |chunk.Bytes|);
      CompileForLoop(s);
      if error.None? {
        Join(old(chunk.Bytes) + Enc(Line(s.line)) + c, Enc(IterSetup), CodeFor(s.body, k1, isTopLevel), []);
        Join(old(chunk.Bytes), Enc(Line(s.line)), c, Enc(IterSetup) + CodeFor(s.body, k1, isTopLevel));
        Join(old(chunk.Pool), ConstsE(s.iter), [StrV(s.x)] + ConstsB(s.body), []);
      }
    }

    /** ITER_NEXT with a placeholder, and the loop variable. */
    method OpenFor(x: string)
      requires Ok()
      modifies chunk.Repr
      ensures Ok() && fresh(chunk.Repr - old(chunk.Repr)) && chunk.Pool == old(chunk.Pool) + [StrV(x)]
      ensures chunk.Bytes == old(chunk.Bytes) + ([OP_ITER_NEXT] + U16(0)) + Enc(Define(false, |old(chunk.Pool)|))
    {
      hide Chunk.Valid, Enc, U16;
      chunk.Write(OP_ITER_NEXT);
      chunk.WriteU16(0);
      Join(old(chunk.Bytes), [OP_ITER_NEXT], U16(0), []);
      var varIdx := chunk.AddConst(StrV(x));
      EmitWide(Define(false, varIdx), OP_DEFINE_VAR, varIdx);
    }

    /** The end of a turn: the loop variable popped, and the jump back. */
    method EmitTurn(loopStart: nat)
      requires Ok() && loopStart <= |chunk.Bytes|
      modifies chunk.Repr
      ensures Ok() && fresh(chunk.Repr - old(chunk.Repr)) && chunk.Pool == old(chunk.Pool)
      ensures chunk.Bytes == old(chunk.Bytes) + Enc(PopScope(1)) + Enc(JumpBack(|old(chunk.Bytes)| + 5 - loopStart))
      ensures |chunk.Bytes| == |old(chunk.Bytes)| + 5
    {
      hide Chunk.Valid, Enc, U16;
      EmitPopScope(1);
      OnePop();
      chunk.EmitLoop(loopStart);
    }


    /** Drops the loop variable, jumps back, and patches the exit jump and the
        breaks to land on the ITER_CLEANUP that follows. */
    method CloseFor(loopStart: nat, ps: seq<nat>)
      requires Ok() && loopStart + 3 <= |chunk.Bytes| && InRange(ps, |chunk.Bytes|)
      modifies chunk.Repr
      ensures Ok() && fresh(chunk.Repr - old(chunk.Repr)) && chunk.Pool == old(chunk.Pool)
      ensures |chunk.Bytes| >= |old(chunk.Bytes)|
      ensures var b5 := old(chunk.Bytes) + Enc(PopScope(1)) + Enc(JumpBack(|old(chunk.Bytes)| + 5 - loopStart));
        InRange(ps, |b5|)
        && chunk.Bytes == AimAll(Patch(b5, loopStart + 1, |b5| - loopStart - 3), ps, |b5|) + Enc(IterCleanup)
    {
      hide Chunk.Valid, Enc, U16, InRange, Patch, AimAll;
      ghost var b4 := chunk.Bytes;
      EmitTurn(loopStart);
      StillInRange(ps, |b4|, |chunk.Bytes|);
      chunk.PatchJump(loopStart + 1);
      PatchBreaks(ps);
      EmitOp(IterCleanup, OP_ITER_CLEANUP);
    }

    /** A for from its ITER_NEXT. */
    method CompileForLoop(s: Stmt)
      requires Ok() && s.For? && FewSs(s.body.stmts) && NumSs(s.body.stmts) <= MAX_BREAK_PATCHES
      requires |loopStack| <= MAX_LOOP_DEPTH && LoopsIn(loopStack, |chunk.Bytes|)
      modifies this, chunk.Repr
      ensures Ok() && fresh(chunk.Repr - old(chunk.Repr)) && |chunk.Bytes| >= |old(chunk.Bytes)|
      ensures |loopStack| == |old(loopStack)| && LoopsIn(loopStack, |chunk.Bytes|)
      ensures error == if |old(loopStack)| >= MAX_LOOP_DEPTH then Some(TooManyLoops)
                       else First(old(error), ErrB(s.body, |old(loopStack)| + 1))
      ensures error.None? ==>
        && chunk.Bytes == old(chunk.Bytes) + CodeFor(s.body, |old(chunk.Pool)|, isTopLevel)
        && chunk.Pool == old(chunk.Pool) + ([StrV(s.x)] + ConstsB(s.body))
        && loopStack == old(loopStack) && blockVarCount == old(blockVarCount)
      decreases s, 0
    {
      hide Chunk.Valid, Enc, U16, CodeB, CodeFor, ConstsB, ErrB, FewSs, NumSs, BreaksB, LoopsIn, InRange, Patch, AimAll;
      ghost var k, b1 := |chunk.Pool|, chunk.Bytes;
      var loopStart := chunk.Count();
      OpenFor(s.x);
      ghost var b3 := chunk.Bytes;
      LoopsInMore(loopStack, |b1|, |b3|);
      if |loopStack| >= MAX_LOOP_DEPTH {
        error := Some(TooManyLoops);
        return;
      }
      var lc := CompileBody(s.body, loopStart, true);
      ghost var b4 := chunk.Bytes;
      CloseFor(loopStart, lc.breakPatches);
      ghost var b5 := b4 + Enc(PopScope(1)) + Enc(JumpBack(|b4| + 5 - loopStart));
      LoopsInMore(loopStack, |b4|, |chunk.Bytes|);
      if error.None? {
        ghost var l := Loop(OfFor, 6, None);
        ForBytes(s.body, k, isTopLevel, b1, b3, b4, b5, l, CodeB(s.body, k + 1, l, isTopLevel));
        Join(old(chunk.Pool), [StrV(s.x)], ConstsB(s.body), []);
      }
    }

    method CompileBlock(b: Block)
      requires Ok() && FewSs(b.stmts) && |loopStack| <= MAX_LOOP_DEPTH
      requires LoopsIn(loopStack, |chunk.Bytes|) && (error.None? ==> Room(loopStack, NumSs(b.stmts)))
      modifies this, chunk.Repr
      ensures Ok() && fresh(chunk.Repr - old(chunk.Repr)) && |chunk.Bytes| >= |old(chunk.Bytes)|
      ensures |loopStack| == |old(loopStack)| && LoopsIn(loopStack, |chunk.Bytes|)
      ensures error == First(old(error), ErrB(b, |old(loopStack)|))
      ensures error.None? ==> Wrote(old(chunk.Bytes), old(chunk.Pool), old(loopStack),
        CodeB(b, |old(chunk.Pool)|, LoopAt(old(loopStack), |old(chunk.Bytes)|), isTopLevel), ConstsB(b),
        BreaksB(b, |old(chunk.Pool)|, LoopAt(old(loopStack), |old(chunk.Bytes)|), isTopLevel, |old(chunk.Bytes)|))
      ensures error.None? ==> blockVarCount == old(blockVarCount)
      decreases b, 1
    {
      hide Chunk.Valid, Enc, CodeS, CodeSs, ConstsS, ConstsSs, ErrS, ErrSs, FewS, FewSs, NumS, NumSs, BreaksS,
        BreaksSs, LoopAt, AddBreaks, LoopsIn, Room, Declared, DeclaredIn, PopCode;
      if error.Some? { return; }
      var saved := blockVarCount;
      blockVarCount := 0;
      EmitLine(b.bline);
      LoopAtShift(loopStack, |old(chunk.Bytes)|, 3);
      LoopsInMore(loopStack, |old(chunk.Bytes)|, |chunk.Bytes|);
      CompileStmts(b.stmts);
      if error.Some? { return; }
      ghost var mid := |chunk.Bytes|;
      ghost var frag := CodeSs(b.stmts, |old(chunk.Pool)|, LoopAt(old(loopStack), |old(chunk.Bytes)| + 3), 0,
        isTopLevel);
      Join(old(chunk.Bytes), Enc(Line(b.bline)), frag, PopCode(DeclaredIn(b.stmts)));
      EmitPopScope(blockVarCount);
      LoopsInMore(loopStack, mid, |chunk.Bytes|);
      blockVarCount := saved;
    }

    /** The statements of a block or of the whole program, in order. */
    method CompileStmts(ss: seq<Stmt>)
      requires Ok() && error.None? && FewSs(ss) && |loopStack| <= MAX_LOOP_DEPTH
      requires LoopsIn(loopStack, |chunk.Bytes|) && Room(loopStack, NumSs(ss))
      modifies this, chunk.Repr
      ensures Ok() && fresh(chunk.Repr - old(chunk.Repr)) && |chunk.Bytes| >= |old(chunk.Bytes)|
      ensures |loopStack| == |old(loopStack)| && LoopsIn(loopStack, |chunk.Bytes|)
      ensures error == ErrSs(ss, |old(loopStack)|)
      ensures error.None? ==> Wrote(old(chunk.Bytes), old(chunk.Pool), old(loopStack),
        CodeSs(ss, |old(chunk.Pool)|, LoopAt(old(loopStack), |old(chunk.Bytes)|), old(blockVarCount), isTopLevel),
          ConstsSs(ss),
        BreaksSs(ss, |old(chunk.Pool)|, LoopAt(old(loopStack), |old(chunk.Bytes)|), old(blockVarCount), isTopLevel,
          |old(chunk.Bytes)|))
      ensures error.None? ==> blockVarCount == old(blockVarCount) + DeclaredIn(ss)
      decreases ss, 0
    {
      hide Chunk.Valid, Enc, CodeS, CodeSs, ConstsS, ConstsSs, ErrS, ErrSs, FewS, FewSs, NumS, NumSs, BreaksS,
        BreaksSs, LoopAt, AddBreaks, LoopsIn, Room, Declared, DeclaredIn, Rest;
      ghost var at0, loops := |chunk.Bytes|, loopStack;
      ghost var done: seq<nat> := [];
      AddBreaksAgain(loops, [], []);
      StartStmts(loops, ss, blockVarCount, isTopLevel, chunk.Bytes, chunk.Pool);
      assert ss[0..] == ss;
      for i := 0 to |ss|
        invariant Ok() && error.None? && fresh(chunk.Repr - old(chunk.Repr)) && |chunk.Bytes| >= at0
        invariant FewSs(ss[i..]) && ErrSs(ss[i..], |loops|) == ErrSs(ss, |loops|)
        invariant LoopsIn(loopStack, |chunk.Bytes|) && Room(loopStack, NumSs(ss[i..]))
        invariant loopStack == AddBreaks(loops, done) && |loopStack| == |loops|
        invariant blockVarCount + DeclaredIn(ss[i..]) == old(blockVarCount) + DeclaredIn(ss)
        invariant Rest(ss[i..], loops, blockVarCount, isTopLevel, chunk.Bytes, chunk.Pool, done)
               == old(Rest(ss, loopStack, blockVarCount, isTopLevel, chunk.Bytes, chunk.Pool, []))
      {
        ghost var breaks := BreaksS(ss[i], |chunk.Pool|, LoopAt(loops, |chunk.Bytes|), blockVarCount, isTopLevel,
          |chunk.Bytes|);
        AddBreaksAgain(loops, done, breaks);
        SameLoop(loops, done, |chunk.Bytes|);
        NextStmt(ss, i, loops, blockVarCount, isTopLevel, chunk.Bytes, chunk.Pool, done);
        CountS(ss[i], |chunk.Pool|, LoopAt(loops, |chunk.Bytes|), blockVarCount, isTopLevel, |chunk.Bytes|);
        RoomLess(loopStack, breaks, NumS(ss[i]), NumSs(ss[i + 1..]));
        CompileStmt(ss[i]);
        if error.Some? { return; }
        done := done + breaks;
      }
      LastStmt(ss, loops, blockVarCount, isTopLevel, chunk.Bytes, chunk.Pool, done);
    }

    /** agl_compile: the chunk of a whole program, or no chunk and an error. */
    static method Compile(program: seq<Stmt>) returns (out: Chunk?, err: Option<CompileErr>)
      requires FewSs(program)
      ensures err == ErrSs(program, 0) && (out == null <==> err.Some?)
      ensures out != null ==> out.Valid() && fresh(out.Repr)
      ensures out != null ==> out.Bytes == ProgramCode(program) && out.Pool == ProgramConsts(program)
    {
      hide Enc, CodeSs, ConstsSs, ErrSs, FewSs, NumSs, BreaksSs;
      var c := new Compiler(true);
      c.CompileStmts(program);
      if c.error.Some? { return null, c.error; }
      c.EmitOp(ReturnNil, OP_RETURN_NIL);
      return c.chunk, None;
    }
  }
}
