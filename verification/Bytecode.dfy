/** Instructions, their byte encoding (src/chunk.h) and the growable chunk with
    back-patching (src/chunk.c). */
module Bytecode {
  import opened Ast
  import opened Places
  import opened Values

  type Byte = x: int | 0 <= x < 256

  const OP_CONST: Byte := 0
  const OP_NIL: Byte := 1
  const OP_TRUE: Byte := 2
  const OP_FALSE: Byte := 3
  const OP_ADD: Byte := 4
  const OP_SUB: Byte := 5
  const OP_MUL: Byte := 6
  const OP_DIV: Byte := 7
  const OP_MOD: Byte := 8
  const OP_NEGATE: Byte := 9
  const OP_EQ: Byte := 10
  const OP_NEQ: Byte := 11
  const OP_LT: Byte := 12
  const OP_GT: Byte := 13
  const OP_LE: Byte := 14
  const OP_GE: Byte := 15
  const OP_NOT: Byte := 16
  const OP_DEFINE_LET: Byte := 17
  const OP_DEFINE_VAR: Byte := 18
  const OP_GET_VAR: Byte := 19
  const OP_SET_VAR: Byte := 20
  const OP_POP: Byte := 21
  const OP_POP_SCOPE: Byte := 22
  const OP_JUMP: Byte := 23
  const OP_JUMP_BACK: Byte := 24
  const OP_JUMP_IF_FALSE: Byte := 25
  const OP_JUMP_IF_TRUE: Byte := 26
  const OP_CLOSURE: Byte := 27
  const OP_CALL: Byte := 28
  const OP_RETURN: Byte := 29
  const OP_RETURN_NIL: Byte := 30
  const OP_CALL_BUILTIN: Byte := 31
  const OP_ARRAY: Byte := 32
  const OP_INDEX: Byte := 33
  const OP_STRUCT: Byte := 34
  const OP_GET_FIELD: Byte := 35
  const OP_MAP: Byte := 36
  const OP_RESULT_OK: Byte := 37
  const OP_RESULT_ERR: Byte := 38
  const OP_TRY: Byte := 40
  const OP_ITER_SETUP: Byte := 41
  const OP_ITER_NEXT: Byte := 42
  const OP_ITER_CLEANUP: Byte := 43
  const OP_LINE: Byte := 45

  /** Decoded instructions; MATCH and IMPORT are not part of this model. */
  datatype Instr =
    | Const(idx: int)
    | PushNil
    | PushBool(b: bool)
    | BinaryOp(op: BinOp)            // never And or Or
    | UnaryOp(uop: UnOp)
    | Define(immut: bool, idx: int)
    | GetVar(idx: int)
    | SetVar(idx: int)
    | Pop
    | PopScope(count: int)
    | Jump(off: int)
    | JumpBack(off: int)
    | JumpIf(when: bool, off: int)
    | Closure(idx: int)
    | CallOp(argc: int)
    | ReturnOp
    | ReturnNil
    | CallBuiltin(id: int, argc: int)
    | MakeArray(count: int)
    | IndexOp
    | MakeStruct(idx: int, count: int)
    | GetField(idx: int)
    | MakeMap(count: int)
    | MakeResult(ok: bool)
    | TryOp
    | IterSetup
    | IterNext(off: int)
    | IterCleanup
    | Line(line: int)

  function BinCode(op: BinOp): Byte
    requires op != And && op != Or
  {
    match op
    case Add => OP_ADD
    case Sub => OP_SUB
    case Mul => OP_MUL
    case Div => OP_DIV
    case Mod => OP_MOD
    case Eq => OP_EQ
    case Neq => OP_NEQ
    case Lt => OP_LT
    case Gt => OP_GT
    case Le => OP_LE
    case Ge => OP_GE
  }

  /** Little-endian, truncated to 16 bits like the cast to uint16_t. */
  function U16(x: int): (r: seq<Byte>)
    ensures |r| == 2
  {
    [x % 256, (x / 256) % 256]
  }

  predicate Plain(i: Instr) {
    i.BinaryOp? ==> i.op != And && i.op != Or
  }

  /** Operands that fit their field, so that encoding loses nothing. */
  predicate Fits(i: Instr) {
    && Plain(i)
    && (i.Const? || i.Define? || i.GetVar? || i.SetVar? || i.Closure? || i.MakeStruct? || i.GetField?
        ==> 0 <= i.idx < 65536)
    && (i.Jump? || i.JumpBack? || i.JumpIf? || i.IterNext? ==> 0 <= i.off < 65536)
    && (i.MakeArray? || i.MakeMap? ==> 0 <= i.count < 65536)
    && (i.PopScope? || i.MakeStruct? ==> 0 <= i.count < 256)
    && (i.CallOp? || i.CallBuiltin? ==> 0 <= i.argc < 256)
    && (i.CallBuiltin? ==> 0 <= i.id < 65536)
    && (i.Line? ==> 0 <= i.line < 65536)
  }

  function Size(i: Instr): nat {
    match i
    case PushNil | PushBool(_) | BinaryOp(_) | UnaryOp(_) | Pop | ReturnOp | ReturnNil | IndexOp
       | MakeResult(_) | TryOp | IterSetup | IterCleanup => 1
    case PopScope(_) | CallOp(_) => 2
    case CallBuiltin(_, _) | MakeStruct(_, _) => 4
    case _ => 3
  }

  function OpCode(i: Instr): Byte
    requires Plain(i)
  {
    match i
    case Const(_) => OP_CONST
    case PushNil => OP_NIL
    case PushBool(b) => if b then OP_TRUE else OP_FALSE
    case BinaryOp(op) => BinCode(op)
    case UnaryOp(op) => if op == Neg then OP_NEGATE else OP_NOT
    case Define(immut, _) => if immut then OP_DEFINE_LET else OP_DEFINE_VAR
    case GetVar(_) => OP_GET_VAR
    case SetVar(_) => OP_SET_VAR
    case Pop => OP_POP
    case PopScope(_) => OP_POP_SCOPE
    case Jump(_) => OP_JUMP
    case JumpBack(_) => OP_JUMP_BACK
    case JumpIf(b, _) => if b then OP_JUMP_IF_TRUE else OP_JUMP_IF_FALSE
    case Closure(_) => OP_CLOSURE
    case CallOp(_) => OP_CALL
    case ReturnOp => OP_RETURN
    case ReturnNil => OP_RETURN_NIL
    case CallBuiltin(_, _) => OP_CALL_BUILTIN
    case MakeArray(_) => OP_ARRAY
    case IndexOp => OP_INDEX
    case MakeStruct(_, _) => OP_STRUCT
    case GetField(_) => OP_GET_FIELD
    case MakeMap(_) => OP_MAP
    case MakeResult(ok) => if ok then OP_RESULT_OK else OP_RESULT_ERR
    case TryOp => OP_TRY
    case IterSetup => OP_ITER_SETUP
    case IterNext(_) => OP_ITER_NEXT
    case IterCleanup => OP_ITER_CLEANUP
    case Line(_) => OP_LINE
  }

  function Operands(i: Instr): (r: seq<Byte>)
    ensures |r| == Size(i) - 1
  {
    match i
    case Const(k) => U16(k)
    case Define(_, k) => U16(k)
    case GetVar(k) => U16(k)
    case SetVar(k) => U16(k)
    case PopScope(n) => [n % 256]
    case Jump(o) => U16(o)
    case JumpBack(o) => U16(o)
    case JumpIf(_, o) => U16(o)
    case Closure(k) => U16(k)
    case CallOp(n) => [n % 256]
    case CallBuiltin(id, n) => U16(id) + [n % 256]
    case MakeArray(n) => U16(n)
    case MakeStruct(k, n) => U16(k) + [n % 256]
    case GetField(k) => U16(k)
    case MakeMap(n) => U16(n)
    case IterNext(o) => U16(o)
    case Line(n) => U16(n)
    case _ => []
  }

  function Enc(i: Instr): (r: seq<Byte>)
    requires Plain(i)
    ensures |r| == Size(i)
  {
    [OpCode(i)] + Operands(i)
  }

  // ----- decoding -----

  /** read_u16 */
  function Word(lo: int, hi: int): int { lo + 256 * hi }

  function DecodePlain(op: Byte): Option<Instr> {
    if op == OP_NIL then Some(PushNil)
    else if op == OP_TRUE then Some(PushBool(true))
    else if op == OP_FALSE then Some(PushBool(false))
    else if op == OP_ADD then Some(BinaryOp(Add))
    else if op == OP_SUB then Some(BinaryOp(Sub))
    else if op == OP_MUL then Some(BinaryOp(Mul))
    else if op == OP_DIV then Some(BinaryOp(Div))
    else if op == OP_MOD then Some(BinaryOp(Mod))
    else if op == OP_EQ then Some(BinaryOp(Eq))
    else if op == OP_NEQ then Some(BinaryOp(Neq))
    else if op == OP_LT then Some(BinaryOp(Lt))
    else if op == OP_GT then Some(BinaryOp(Gt))
    else if op == OP_LE then Some(BinaryOp(Le))
    else if op == OP_GE then Some(BinaryOp(Ge))
    else if op == OP_NEGATE then Some(UnaryOp(Neg))
    else if op == OP_NOT then Some(UnaryOp(Not))
    else if op == OP_POP then Some(Pop)
    else if op == OP_RETURN then Some(ReturnOp)
    else if op == OP_RETURN_NIL then Some(ReturnNil)
    else if op == OP_INDEX then Some(IndexOp)
    else if op == OP_RESULT_OK then Some(MakeResult(true))
    else if op == OP_RESULT_ERR then Some(MakeResult(false))
    else if op == OP_TRY then Some(TryOp)
    else if op == OP_ITER_SETUP then Some(IterSetup)
    else if op == OP_ITER_CLEANUP then Some(IterCleanup)
    else None
  }

  function DecodeWide(op: Byte, a: int): Option<Instr> {
    if op == OP_CONST then Some(Const(a))
    else if op == OP_DEFINE_LET then Some(Define(true, a))
    else if op == OP_DEFINE_VAR then Some(Define(false, a))
    else if op == OP_GET_VAR then Some(GetVar(a))
    else if op == OP_SET_VAR then Some(SetVar(a))
    else if op == OP_JUMP then Some(Jump(a))
    else if op == OP_JUMP_BACK then Some(JumpBack(a))
    else if op == OP_JUMP_IF_FALSE then Some(JumpIf(false, a))
    else if op == OP_JUMP_IF_TRUE then Some(JumpIf(true, a))
    else if op == OP_CLOSURE then Some(Closure(a))
    else if op == OP_ARRAY then Some(MakeArray(a))
    else if op == OP_GET_FIELD then Some(GetField(a))
    else if op == OP_MAP then Some(MakeMap(a))
    else if op == OP_ITER_NEXT then Some(IterNext(a))
    else if op == OP_LINE then Some(Line(a))
    else None
  }

  /** The instruction at ip; None when the byte is no opcode of this model or
      its operands run past the end. */
  function Decode(code: seq<Byte>, ip: nat): (r: Option<Instr>)
    requires ip < |code|
    ensures r.Some? ==> Fits(r.value) && ip + Size(r.value) <= |code|
  {
    var op := code[ip];
    if DecodePlain(op).Some? then DecodePlain(op)
    else if op == OP_POP_SCOPE then
      if ip + 2 <= |code| then Some(PopScope(code[ip + 1])) else None
    else if op == OP_CALL then
      if ip + 2 <= |code| then Some(CallOp(code[ip + 1])) else None
    else if ip + 3 > |code| then None
    else
      var a := Word(code[ip + 1], code[ip + 2]);
      if op == OP_CALL_BUILTIN then
        if ip + 4 <= |code| then Some(CallBuiltin(a, code[ip + 3])) else None
      else if op == OP_STRUCT then
        if ip + 4 <= |code| then Some(MakeStruct(a, code[ip + 3])) else None
      else DecodeWide(op, a)
  }

  lemma WordU16(x: int)
    requires 0 <= x < 65536
    ensures Word(U16(x)[0], U16(x)[1]) == x
  {
  }

  /** A number split at 8 and at 16 bits. */
  lemma Digits(q: int, a: int, b: int)
    requires 0 <= a < 256 && 0 <= b < 256
    ensures var x := 65536 * q + 256 * a + b;
      x % 256 == b && x / 256 == 256 * q + a && (256 * q + a) % 256 == a
  {
  }

  lemma U16Mod(x: int)
    ensures U16(x) == U16(x % 65536)
  {
    var r := x % 65536;
    Digits(x / 65536, r / 256, r % 256);
    Digits(0, r / 256, r % 256);
  }

  lemma DecodePlainEnc(i: Instr)
    requires Plain(i)
    ensures DecodePlain(Enc(i)[0]) == if Size(i) == 1 then Some(i) else None
  {
  }

  lemma DecodeWideEnc(i: Instr, a: int)
    requires Fits(i) && Size(i) == 3 && a == Word(Enc(i)[1], Enc(i)[2])
    ensures DecodeWide(Enc(i)[0], a) == Some(i)
  {
    match i
    case Const(k) => WordU16(k);
    case Define(_, k) => WordU16(k);
    case GetVar(k) => WordU16(k);
    case SetVar(k) => WordU16(k);
    case Jump(o) => WordU16(o);
    case JumpBack(o) => WordU16(o);
    case JumpIf(_, o) => WordU16(o);
    case Closure(k) => WordU16(k);
    case MakeArray(n) => WordU16(n);
    case GetField(k) => WordU16(k);
    case MakeMap(n) => WordU16(n);
    case IterNext(o) => WordU16(o);
    case Line(n) => WordU16(n);
  }

  lemma DecodeFour(code: seq<Byte>, p: nat, i: Instr)
    requires Fits(i) && Size(i) == 4 && p + 4 <= |code|
    requires forall j :: 0 <= j < 4 ==> code[p + j] == Enc(i)[j]
    ensures Decode(code, p) == Some(i)
  {
    assert code[p] == Enc(i)[0] && code[p + 1] == Enc(i)[1] && code[p + 2] == Enc(i)[2] && code[p + 3] == Enc(i)[3];
    if i.MakeStruct? { WordU16(i.idx); } else { WordU16(i.id); }
  }

  lemma DecodeThree(code: seq<Byte>, p: nat, i: Instr)
    requires Fits(i) && Size(i) == 3 && p + 3 <= |code|
    requires forall j :: 0 <= j < 3 ==> code[p + j] == Enc(i)[j]
    ensures Decode(code, p) == Some(i)
  {
    assert code[p] == Enc(i)[0] && code[p + 1] == Enc(i)[1] && code[p + 2] == Enc(i)[2];
    DecodePlainEnc(i);
    DecodeWideEnc(i, Word(code[p + 1], code[p + 2]));
    var op := OpCode(i);
    assert op != OP_POP_SCOPE && op != OP_CALL && op != OP_CALL_BUILTIN && op != OP_STRUCT;
    hide DecodePlain, DecodeWide, Operands, OpCode, Word;
  }

  lemma DecodeTwo(code: seq<Byte>, p: nat, i: Instr)
    requires Fits(i) && Size(i) == 2 && p + 2 <= |code|
    requires forall j :: 0 <= j < 2 ==> code[p + j] == Enc(i)[j]
    ensures Decode(code, p) == Some(i)
  {
    assert code[p] == Enc(i)[0] && code[p + 1] == Enc(i)[1];
  }

  /** Decoding undoes encoding wherever the operands fit their fields. */
  lemma DecodeEnc(code: seq<Byte>, p: nat, i: Instr)
    requires Fits(i) && At(code, p, Enc(i))
    ensures p < |code| && Decode(code, p) == Some(i)
  {
    hide At;
    AtBytes(code, p, Enc(i));
    if Size(i) == 1 {
      DecodePlainEnc(i);
      assert code[p + 0] == Enc(i)[0];
      hide DecodePlain, Enc, Operands, OpCode;
    }
    else if Size(i) == 2 { hide Decode, Enc; DecodeTwo(code, p, i); }
    else if Size(i) == 3 { hide Decode, Enc; DecodeThree(code, p, i); }
    else { hide Decode, Enc; DecodeFour(code, p, i); }
  }

  /** Encoding a line number keeps it modulo 65536. */
  lemma EncLine(n: nat)
    ensures Enc(Line(n)) == Enc(Line(n % 65536))
  {
    U16Mod(n);
  }

  // ----- the bytes of every instruction -----

  /** A number of 16 bits is written with its low byte first. */
  lemma LowFirst(a: Byte, b: Byte)
    ensures U16(a + 256 * b) == [a, b]
  {
  }

  lemma Bare(i: Instr)
    requires Plain(i) && Size(i) == 1
    ensures Enc(i) == [OpCode(i)]
  {
    hide OpCode;
  }

  lemma BytesAlone(i: Instr)
    requires Plain(i) && Size(i) == 1 && !i.BinaryOp?
    ensures Enc(i) == [match i
                       case PushNil => 1
                       case PushBool(b) => if b then 2 else 3
                       case UnaryOp(op) => if op == Neg then 9 else 16
                       case Pop => 21
                       case ReturnOp => 29
                       case ReturnNil => 30
                       case IndexOp => 33
                       case MakeResult(ok) => if ok then 37 else 38
                       case TryOp => 40
                       case IterSetup => 41
                       case _ => 43]
  {
    hide Enc;
    Bare(i);
  }

  lemma BytesOfOperators(op: BinOp)
    requires op != And && op != Or
    ensures Enc(BinaryOp(op)) == [match op
                                  case Add => 4
                                  case Sub => 5
                                  case Mul => 6
                                  case Div => 7
                                  case Mod => 8
                                  case Eq => 10
                                  case Neq => 11
                                  case Lt => 12
                                  case Gt => 13
                                  case Le => 14
                                  case _ => 15]
  {
    hide Enc;
    Bare(BinaryOp(op));
  }

  /** The instructions with one 16-bit operand. */
  predicate TakesWord(i: Instr, w: int) {
    match i
    case Const(k) => k == w
    case Define(_, k) => k == w
    case GetVar(k) => k == w
    case SetVar(k) => k == w
    case Jump(o) => o == w
    case JumpBack(o) => o == w
    case JumpIf(_, o) => o == w
    case Closure(k) => k == w
    case MakeArray(n) => n == w
    case GetField(k) => k == w
    case MakeMap(n) => n == w
    case IterNext(o) => o == w
    case Line(n) => n == w
    case _ => false
  }

  lemma Wide(i: Instr, w: int)
    requires TakesWord(i, w)
    ensures Plain(i) && Enc(i) == [OpCode(i)] + U16(w)
  {
    hide OpCode, U16;
  }

  lemma BytesOfWords(i: Instr, a: Byte, b: Byte)
    requires TakesWord(i, a + 256 * b)
    ensures Enc(i) == [match i
                       case Const(_) => 0
                       case Define(immut, _) => if immut then 17 else 18
                       case GetVar(_) => 19
                       case SetVar(_) => 20
                       case Jump(_) => 23
                       case JumpBack(_) => 24
                       case JumpIf(when, _) => if when then 26 else 25
                       case Closure(_) => 27
                       case MakeArray(_) => 32
                       case GetField(_) => 35
                       case MakeMap(_) => 36
                       case IterNext(_) => 42
                       case _ => 45, a, b]
  {
    hide U16, Enc;
    Wide(i, a + 256 * b);
    LowFirst(a, b);
  }

  lemma BytesOfCounts(a: Byte, b: Byte, n: Byte)
    ensures Enc(PopScope(n)) == [22, n] && Enc(CallOp(n)) == [28, n]
    ensures var w := a + 256 * b; Enc(CallBuiltin(w, n)) == [31, a, b, n] && Enc(MakeStruct(w, n)) == [34, a, b, n]
  {
    hide U16;
    LowFirst(a, b);
  }
}
