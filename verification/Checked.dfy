/** The code of every orderly program passes the static check, and so no run of it
    gets stuck. */
module CheckedCode {
  import opened Ast
  import opened Values
  import opened Bytecode
  import opened CodeGen
  import opened Machine
  import opened Places
  import opened Shapes
  import opened Orderly
  import opened Verified
  import opened Correctness

  predicate Small(p: Prog) { |p.code| < 65536 && |p.consts| < 65536 }

  /** More slots on top. */
  function More(t: Point, add: Shape): Point { t.(shape := t.shape + add) }

  function Anys(n: nat): (r: Shape)
    ensures |r| == n && forall j :: 0 <= j < n ==> r[j] == Any
  {
    seq(n, _ => Any)
  }

  /** n keys, each with its value. */
  function Entries(n: nat): (r: Shape)
    ensures |r| == 2 * n && forall j :: 0 <= j < 2 * n ==> r[j] == if j % 2 == 0 then Text else Any
  {
    seq(2 * n, j => if j % 2 == 0 then Text else Any)
  }

  lemma TakesAnys(t: Point, n: nat, next: nat)
    ensures Takes(More(t, Anys(n)), n, next) == One(next, More(t, [Any]))
  {
    assert (t.shape + Anys(n))[..|t.shape|] == t.shape;
  }

  lemma TakesEntries(t: Point, n: nat, next: nat)
    ensures HasEntries(More(t, Entries(n)).shape, n)
    ensures Takes(More(t, Entries(n)), 2 * n, next) == One(next, More(t, [Any]))
  {
    assert (t.shape + Entries(n))[..|t.shape|] == t.shape;
  }

  lemma SwapNone(t: Point, add: Shape)
    ensures Swap(t, 0, add) == More(t, add)
  {
    assert t.shape[..|t.shape|] == t.shape;
  }

  lemma SwapOne(t: Point, add: Shape)
    ensures HasValues(More(t, [Any]).shape, 1) && Swap(More(t, [Any]), 1, add) == More(t, add)
  {
    assert (t.shape + [Any])[..|t.shape|] == t.shape;
  }

  lemma MoreMore(t: Point, a: Shape, b: Shape)
    ensures More(More(t, a), b) == More(t, a + b)
  {
    assert (t.shape + a) + b == t.shape + (a + b);
  }

  // ----- expressions -----

  /** A fragment of code in place, with its constants, in a chunk of 16-bit size. */
  ghost predicate Placed(p: Prog, ip: nat, k: nat, code: seq<Byte>, consts: seq<Val>) {
    Small(p) && At(p.code, ip, code) && At(p.consts, k, consts)
  }

  /** Code in place that has been checked, from t to t with more on top. */
  ghost predicate Grows(p: Prog, ip: nat, n: nat, t: Point, add: Shape, m: Points, x: Points) {
    Spans(p, ip, ip + n, t, More(t, add), m, x)
  }

  /** One more instruction, which takes what has been pushed and leaves a value. */
  lemma Closes(p: Prog, a: nat, n: nat, i: Instr, t: Point, add: Shape, m1: Points, x: Points) returns (m: Points)
    requires Grows(p, a, n, t, add, m1, x) && Fits(i) && At(p.code, a + n, Enc(i))
    requires Flow(p, i, a + n + Size(i), More(t, add)) == One(a + n + Size(i), More(t, [Any]))
    ensures Grows(p, a, n + Size(i), t, [Any], m, x)
  {
    hide Flow, Enc, Checks, Below, Spans;
    BelowSelf(More(t, [Any]));
    var m2 := Straight(p, a + n, i, More(t, add), More(t, [Any]), More(t, [Any]), x);
    m := SpanThen(p, a, a + n, a + n + Size(i), t, More(t, add), More(t, [Any]), m1, m2, x);
  }

  lemma GrowThen(p: Prog, a: nat, n: nat, k: nat, t: Point, add: Shape, more: Shape, m1: Points, m2: Points, x: Points)
      returns (m: Points)
    requires Grows(p, a, n, t, add, m1, x) && Grows(p, a + n, k, More(t, add), more, m2, x)
    ensures Grows(p, a, n + k, t, add + more, m, x)
  {
    hide Spans;
    MoreMore(t, add, more);
    m := SpanThen(p, a, a + n, a + n + k, t, More(t, add), More(t, add + more), m1, m2, x);
  }

  /** No code, nothing pushed. */
  lemma GrowNone(p: Prog, a: nat, t: Point, x: Points) returns (m: Points)
    ensures Grows(p, a, 0, t, [], m, x)
  {
    m := map[a := t];
    assert t.shape + [] == t.shape;
  }

  /** One instruction that pushes a value. */
  lemma Pushes(p: Prog, ip: nat, i: Instr, t: Point, add: Shape, x: Points) returns (m: Points)
    requires Fits(i) && At(p.code, ip, Enc(i)) && (add == [Any] || add == [Text])
    requires Flow(p, i, ip + Size(i), t) == One(ip + Size(i), Swap(t, 0, add))
    ensures Grows(p, ip, Size(i), t, [Any], m, x)
  {
    hide Flow, Enc, Checks;
    SwapNone(t, add);
    m := Straight(p, ip, i, t, More(t, [Any]), More(t, add), x);
  }

  /** What compile_expr pushes is one value. */
  lemma {:induction false} CheckE(e: Expr, k: nat, p: Prog, ip: nat, t: Point, x: Points) returns (m: Points)
    requires OrderlyE(e) && Placed(p, ip, k, CodeE(e, k), ConstsE(e))
    ensures Grows(p, ip, |CodeE(e, k)|, t, [Any], m, x)
    decreases e, 1
  {
    hide CodeE, ConstsE, OrderlyE, Grows, Placed;
    if e.IntLit? || e.FloatLit? || e.StrLit? || e.BoolLit? || e.Ident? || e.Lambda? {
      m := CheckLeaf(e, k, p, ip, t, x);
    } else if IsOne(e) {
      m := CheckOne(e, k, p, ip, t, x);
    } else if e.Binary? || e.Index? {
      m := CheckTwo(e, k, p, ip, t, x);
    } else if e.Call? {
      m := CheckCall(e, k, p, ip, t, x);
    } else if e.ArrayLit? {
      m := CheckArray(e, k, p, ip, t, x);
    } else {
      m := CheckPairs(e, k, p, ip, t, x);
    }
  }

  lemma CheckLeaf(e: Expr, k: nat, p: Prog, ip: nat, t: Point, x: Points) returns (m: Points)
    requires e.IntLit? || e.FloatLit? || e.StrLit? || e.BoolLit? || e.Ident? || e.Lambda?
    requires Placed(p, ip, k, CodeE(e, k), ConstsE(e))
    ensures Grows(p, ip, |CodeE(e, k)|, t, [Any], m, x)
  {
    hide Enc, Grows, At;
    if !e.BoolLit? {
      AtIndex(p.consts, k, ConstsE(e), 0);
      assert k < 65536;
    }
    match e
    case BoolLit(b) => m := Pushes(p, ip, PushBool(b), t, [Any], x);
    case Ident(_) => m := Pushes(p, ip, GetVar(k), t, [Any], x);
    case Lambda(_) => m := Pushes(p, ip, Closure(k), t, [Any], x);
    case _ => m := Pushes(p, ip, Const(k), t, [if e.StrLit? then Text else Any], x);
  }

  // ----- one operand -----

  /** What an expression with one operand unfolds to. */
  lemma OneCode(e: Expr, a: Expr, i: Instr, k: nat)
    requires IsOne(e) && a == Operand(e) && i == OneInstr(e, k + |ConstsE(a)|)
    ensures OrderlyE(e) == OrderlyE(a) && Fits(i) == (e.Field? ==> k + |ConstsE(a)| < 65536)
    ensures CodeE(e, k) == CodeE(a, k) + Enc(i) && ConstsE(e) == ConstsE(a) + if e.Field? then [StrV(e.field)] else []
  {
    hide Enc, CodeLogical, CodeEs, CodePs, ConstsEs, ConstsPs, OrderlyEs, OrderlyPs, OrderlyFn, IsBuiltinCall;
  }

  lemma OnePlaces(e: Expr, a: Expr, i: Instr, k: nat, p: Prog, ip: nat)
    requires IsOne(e) && a == Operand(e) && i == OneInstr(e, k + |ConstsE(a)|)
    requires OrderlyE(e) && Placed(p, ip, k, CodeE(e, k), ConstsE(e))
    ensures OrderlyE(a) && Placed(p, ip, k, CodeE(a, k), ConstsE(a)) && Fits(i)
    ensures At(p.code, ip + |CodeE(a, k)|, Enc(i)) && |CodeE(e, k)| == |CodeE(a, k)| + Size(i)
    ensures e.Field? ==> IsName(p, i.idx)
  {
    hide Enc, At, CodeE, ConstsE, OrderlyE;
    OneCode(e, a, i, k);
    var name := if e.Field? then [StrV(e.field)] else [];
    AtSplit(p.consts, k, ConstsE(a), name);
    if e.Field? { AtIndex(p.consts, k + |ConstsE(a)|, name, 0); }
    AtSplit(p.code, ip, CodeE(a, k), Enc(i));
  }

  lemma {:induction false} CheckOne(e: Expr, k: nat, p: Prog, ip: nat, t: Point, x: Points) returns (m: Points)
    requires IsOne(e) && OrderlyE(e) && Placed(p, ip, k, CodeE(e, k), ConstsE(e))
    ensures Grows(p, ip, |CodeE(e, k)|, t, [Any], m, x)
    decreases e, 0
  {
    hide CodeE, ConstsE, OrderlyE, Grows, Placed, Enc, At;
    var a := Operand(e);
    var i := OneInstr(e, k + |ConstsE(a)|);
    OnePlaces(e, a, i, k, p, ip);
    var m1 := CheckE(a, k, p, ip, t, x);
    OneAny();
    TakesAnys(t, 1, ip + |CodeE(a, k)| + Size(i));
    m := Closes(p, ip, |CodeE(a, k)|, i, t, [Any], m1, x);
  }

  lemma OneAny()
    ensures Anys(1) == [Any] && Anys(2) == [Any] + [Any] && Anys(0) == []
  {
  }

  // ----- two operands -----

  function Left(e: Expr): Expr
    requires e.Binary? || e.Index?
  {
    if e.Binary? then e.left else e.arr
  }

  function Right(e: Expr): Expr
    requires e.Binary? || e.Index?
  {
    if e.Binary? then e.right else e.idx
  }

  function TwoInstr(e: Expr): Instr
    requires e.Binary? || e.Index?
  {
    if e.Binary? then BinaryOp(e.op) else IndexOp
  }

  lemma BinaryCode(op: BinOp, l: Expr, r: Expr, k: nat)
    requires op != And && op != Or
    ensures CodeE(Binary(op, l, r), k) == CodeE(l, k) + (CodeE(r, k + |ConstsE(l)|) + Enc(BinaryOp(op)))
  {
    hide Enc, CodeLogical, CodeEs, CodePs, ConstsE, IsBuiltinCall;
  }

  lemma IndexCode(a: Expr, i: Expr, k: nat)
    ensures CodeE(Index(a, i), k) == CodeE(a, k) + (CodeE(i, k + |ConstsE(a)|) + Enc(IndexOp))
  {
    hide Enc, CodeLogical, CodeEs, CodePs, ConstsE, IsBuiltinCall;
  }

  lemma TwoCode(e: Expr, k: nat)
    requires (e.Binary? || e.Index?) && OrderlyE(e)
    ensures OrderlyE(Left(e)) && OrderlyE(Right(e)) && Fits(TwoInstr(e)) && Size(TwoInstr(e)) == 1
    ensures CodeE(e, k) == CodeE(Left(e), k) + (CodeE(Right(e), k + |ConstsE(Left(e))|) + Enc(TwoInstr(e)))
    ensures ConstsE(e) == ConstsE(Left(e)) + ConstsE(Right(e))
  {
    hide Enc, CodeE, ConstsEs, ConstsPs, OrderlyEs, OrderlyPs, OrderlyFn, IsBuiltinCall;
    match e
    case Binary(op, l, r) => BinaryCode(op, l, r, k);
    case Index(a, i) => IndexCode(a, i, k);
  }

  lemma TwoPlaces(e: Expr, k: nat, p: Prog, ip: nat)
    requires (e.Binary? || e.Index?) && OrderlyE(e) && Placed(p, ip, k, CodeE(e, k), ConstsE(e))
    ensures var l, r := Left(e), Right(e); var k1 := k + |ConstsE(l)|; var n := |CodeE(l, k)|; var i := TwoInstr(e);
      && OrderlyE(l) && OrderlyE(r) && Placed(p, ip, k, CodeE(l, k), ConstsE(l))
        && Placed(p, ip + n, k1, CodeE(r, k1), ConstsE(r))
      && Fits(i) && At(p.code, ip + n + |CodeE(r, k1)|, Enc(i)) && |CodeE(e, k)| == n + |CodeE(r, k1)| + 1
  {
    hide Enc, At, CodeE, ConstsE, OrderlyE, Left, Right;
    TwoCode(e, k);
    var l, r := Left(e), Right(e);
    var k1 := k + |ConstsE(l)|;
    AtSplit(p.code, ip, CodeE(l, k), CodeE(r, k1) + Enc(TwoInstr(e)));
    AtSplit(p.code, ip + |CodeE(l, k)|, CodeE(r, k1), Enc(TwoInstr(e)));
    AtSplit(p.consts, k, ConstsE(l), ConstsE(r));
  }

  lemma {:induction false} CheckTwo(e: Expr, k: nat, p: Prog, ip: nat, t: Point, x: Points) returns (m: Points)
    requires (e.Binary? || e.Index?) && OrderlyE(e) && Placed(p, ip, k, CodeE(e, k), ConstsE(e))
    ensures Grows(p, ip, |CodeE(e, k)|, t, [Any], m, x)
    decreases e, 0
  {
    hide CodeE, ConstsE, OrderlyE, Grows, Placed, Enc, At;
    TwoPlaces(e, k, p, ip);
    var k1 := k + |ConstsE(Left(e))|;
    var n := |CodeE(Left(e), k)|;
    var n2 := |CodeE(Right(e), k1)|;
    var m1 := CheckE(Left(e), k, p, ip, t, x);
    var m2 := CheckE(Right(e), k1, p, ip + n, More(t, [Any]), x);
    m := GrowThen(p, ip, n, n2, t, [Any], [Any], m1, m2, x);
    OneAny();
    TakesAnys(t, 2, ip + (n + n2) + 1);
    m := Closes(p, ip, n + n2, TwoInstr(e), t, [Any] + [Any], m, x);
  }

  // ----- many operands -----

  lemma {:induction false} CheckEs(es: seq<Expr>, k: nat, p: Prog, ip: nat, t: Point, x: Points) returns (m: Points)
    requires OrderlyEs(es) && Placed(p, ip, k, CodeEs(es, k), ConstsEs(es))
    ensures Grows(p, ip, |CodeEs(es, k)|, t, Anys(|es|), m, x)
    decreases es, 0
  {
    hide CodeE, ConstsE, OrderlyE, Grows;
    if es == [] {
      OneAny();
      m := GrowNone(p, ip, t, x);
    } else {
      var e, rest := es[0], es[1..];
      var k1 := k + |ConstsE(e)|;
      AtSplit(p.code, ip, CodeE(e, k), CodeEs(rest, k1));
      AtSplit(p.consts, k, ConstsE(e), ConstsEs(rest));
      var m1 := CheckE(e, k, p, ip, t, x);
      var m2 := CheckEs(rest, k1, p, ip + |CodeE(e, k)|, More(t, [Any]), x);
      assert [Any] + Anys(|rest|) == Anys(|es|);
      m := GrowThen(p, ip, |CodeE(e, k)|, |CodeEs(rest, k1)|, t, [Any], Anys(|rest|), m1, m2, x);
    }
  }

  lemma PsPlaces(ps: seq<Entry>, k: nat, p: Prog, ip: nat, e: Expr, rest: seq<Entry>)
    requires ps != [] && e == ps[0].value && rest == ps[1..] && OrderlyPs(ps)
    requires Placed(p, ip, k, CodePs(ps, k), ConstsPs(ps))
    ensures OrderlyE(e) && OrderlyPs(rest)
    ensures Placed(p, ip, k, Enc(Const(k)), [StrV(ps[0].key)]) && Placed(p, ip + 3, k + 1, CodeE(e, k + 1), ConstsE(e))
    ensures var n, k1 := |CodeE(e, k + 1)|, k + 1 + |ConstsE(e)|;
      Placed(p, ip + 3 + n, k1, CodePs(rest, k1), ConstsPs(rest)) && |CodePs(ps, k)| == 3 + n + |CodePs(rest, k1)|
  {
    hide CodeE, ConstsE, OrderlyE, Enc, At;
    var k1 := k + 1 + |ConstsE(e)|;
    var codes, consts := CodePs(rest, k1), ConstsPs(rest);
    assert CodePs(ps, k) == Enc(Const(k)) + (CodeE(e, k + 1) + codes)
      && ConstsPs(ps) == [StrV(ps[0].key)] + (ConstsE(e) + consts);
    hide CodePs, ConstsPs;
    AtSplit(p.code, ip, Enc(Const(k)), CodeE(e, k + 1) + codes);
    AtSplit(p.code, ip + 3, CodeE(e, k + 1), codes);
    AtSplit(p.consts, k, [StrV(ps[0].key)], ConstsE(e) + consts);
    AtSplit(p.consts, k + 1, ConstsE(e), consts);
  }

  lemma {:induction false} CheckPs(ps: seq<Entry>, k: nat, p: Prog, ip: nat, t: Point, x: Points) returns (m: Points)
    requires OrderlyPs(ps) && Placed(p, ip, k, CodePs(ps, k), ConstsPs(ps))
    ensures Grows(p, ip, |CodePs(ps, k)|, t, Entries(|ps|), m, x)
    decreases ps, 0
  {
    hide CodeE, ConstsE, OrderlyE, Grows, Enc, Placed, OrderlyPs, ConstsPs;
    if ps == [] {
      assert Entries(0) == [];
      m := GrowNone(p, ip, t, x);
    } else {
      var e, rest := ps[0].value, ps[1..];
      PsPlaces(ps, k, p, ip, e, rest);
      hide CodePs;
      var n, k1 := |CodeE(e, k + 1)|, k + 1 + |ConstsE(e)|;
      var m1 := CheckKey(k, p, ip, t, ps[0].key, x);
      var m2 := CheckE(e, k + 1, p, ip + 3, More(t, [Text]), x);
      m1 := GrowThen(p, ip, 3, n, t, [Text], [Any], m1, m2, x);
      m2 := CheckPs(rest, k1, p, ip + (3 + n), More(t, [Text] + [Any]), x);
      assert ([Text] + [Any]) + Entries(|rest|) == Entries(|ps|);
      m := GrowThen(p, ip, 3 + n, |CodePs(rest, k1)|, t, [Text] + [Any], Entries(|rest|), m1, m2, x);
    }
  }

  lemma CheckKey(k: nat, p: Prog, ip: nat, t: Point, key: string, x: Points) returns (m: Points)
    requires Placed(p, ip, k, Enc(Const(k)), [StrV(key)])
    ensures Grows(p, ip, 3, t, [Text], m, x)
  {
    hide Enc, Checks;
    AtIndex(p.consts, k, [StrV(key)], 0);
    SwapNone(t, [Text]);
    BelowSelf(More(t, [Text]));
    m := Straight(p, ip, Const(k), t, More(t, [Text]), More(t, [Text]), x);
  }

  lemma {:induction false} CheckArray(e: Expr, k: nat, p: Prog, ip: nat, t: Point, x: Points) returns (m: Points)
    requires e.ArrayLit? && OrderlyE(e) && Placed(p, ip, k, CodeE(e, k), ConstsE(e))
    ensures Grows(p, ip, |CodeE(e, k)|, t, [Any], m, x)
    decreases e, 0
  {
    hide Grows, Enc, CodeEs, ConstsEs, OrderlyEs, At;
    var n := |CodeEs(e.elems, k)|;
    AtSplit(p.code, ip, CodeEs(e.elems, k), Enc(MakeArray(|e.elems|)));
    m := CheckEs(e.elems, k, p, ip, t, x);
    CodeEsLen(e.elems, k);
    AtBound(p.code, ip, CodeEs(e.elems, k));
    TakesAnys(t, |e.elems|, ip + n + 3);
    m := Closes(p, ip, n, MakeArray(|e.elems|), t, Anys(|e.elems|), m, x);
  }

  function PairsInstr(e: Expr, k: nat): Instr
    requires e.MapLit? || e.StructLit?
  {
    if e.MapLit? then MakeMap(|e.pairs|) else MakeStruct(k + |ConstsPs(e.pairs)|, |e.pairs|)
  }

  lemma PairsCode(e: Expr, k: nat)
    requires e.MapLit? || e.StructLit?
    ensures Plain(PairsInstr(e, k)) && CodeE(e, k) == CodePs(e.pairs, k) + Enc(PairsInstr(e, k))
    ensures ConstsE(e) == ConstsPs(e.pairs) + if e.StructLit? then [StrV(e.tname)] else []
    ensures OrderlyE(e) ==> OrderlyPs(e.pairs) && (e.StructLit? ==> |e.pairs| <= MAX_STRUCT_FIELDS)
  {
    hide Enc, CodePs, ConstsPs, OrderlyPs;
    match e
    case MapLit(_) =>
    case StructLit(_, _) =>
  }

  lemma PairsPlaces(e: Expr, k: nat, p: Prog, ip: nat)
    requires (e.MapLit? || e.StructLit?) && OrderlyE(e) && Placed(p, ip, k, CodeE(e, k), ConstsE(e))
    ensures OrderlyPs(e.pairs) && Placed(p, ip, k, CodePs(e.pairs, k), ConstsPs(e.pairs)) && Fits(PairsInstr(e, k))
    ensures At(p.code, ip + |CodePs(e.pairs, k)|, Enc(PairsInstr(e, k)))
    ensures |CodeE(e, k)| == |CodePs(e.pairs, k)| + Size(PairsInstr(e, k))
    ensures e.StructLit? ==> |e.pairs| <= MAX_STRUCT_FIELDS && IsName(p, PairsInstr(e, k).idx)
  {
    hide Enc, At, CodePs, ConstsPs, CodeE, ConstsE, OrderlyE, OrderlyPs;
    PairsCode(e, k);
    var name := if e.StructLit? then [StrV(e.tname)] else [];
    AtSplit(p.consts, k, ConstsPs(e.pairs), name);
    if e.StructLit? { AtIndex(p.consts, k + |ConstsPs(e.pairs)|, name, 0); }
    AtSplit(p.code, ip, CodePs(e.pairs, k), Enc(PairsInstr(e, k)));
    CodePsLen(e.pairs, k);
    AtBound(p.code, ip, CodePs(e.pairs, k));
  }

  lemma {:induction false} CheckPairs(e: Expr, k: nat, p: Prog, ip: nat, t: Point, x: Points) returns (m: Points)
    requires (e.MapLit? || e.StructLit?) && OrderlyE(e) && Placed(p, ip, k, CodeE(e, k), ConstsE(e))
    ensures Grows(p, ip, |CodeE(e, k)|, t, [Any], m, x)
    decreases e, 0
  {
    hide Grows, Enc, CodePs, ConstsPs, CodeE, ConstsE, OrderlyE, OrderlyPs, At, Placed;
    PairsPlaces(e, k, p, ip);
    var n := |CodePs(e.pairs, k)|;
    m := CheckPs(e.pairs, k, p, ip, t, x);
    TakesEntries(t, |e.pairs|, ip + n + Size(PairsInstr(e, k)));
    m := Closes(p, ip, n, PairsInstr(e, k), t, Entries(|e.pairs|), m, x);
  }

  lemma {:induction false} CheckCall(e: Expr, k: nat, p: Prog, ip: nat, t: Point, x: Points) returns (m: Points)
    requires e.Call? && OrderlyE(e) && Placed(p, ip, k, CodeE(e, k), ConstsE(e))
    ensures Grows(p, ip, |CodeE(e, k)|, t, [Any], m, x)
    decreases e, 0, 1
  {
    hide Grows, Enc, CodeEs, ConstsEs, OrderlyEs, At, BuiltinId;
    var args := e.args;
    if IsBuiltinCall(e) {
      var i := CallBuiltin(BuiltinId(e.callee.name).value, |args|);
      var n := |CodeEs(args, k)|;
      AtSplit(p.code, ip, CodeEs(args, k), Enc(i));
      m := CheckEs(args, k, p, ip, t, x);
      TakesAnys(t, |args|, ip + n + Size(i));
      m := Closes(p, ip, n, i, t, Anys(|args|), m, x);
    } else {
      m := CheckUserCall(e, k, p, ip, t, x);
    }
  }

  lemma OrderlyCall(e: Expr)
    requires e.Call? && !IsBuiltinCall(e) && OrderlyE(e)
    ensures OrderlyE(e.callee) && OrderlyEs(e.args) && |e.args| < 256
  {
    hide OrderlyEs, IsBuiltinCall;
  }

  lemma {:induction false} CheckUserCall(e: Expr, k: nat, p: Prog, ip: nat, t: Point, x: Points) returns (m: Points)
    requires e.Call? && !IsBuiltinCall(e) && OrderlyE(e) && Placed(p, ip, k, CodeE(e, k), ConstsE(e))
    ensures Grows(p, ip, |CodeE(e, k)|, t, [Any], m, x)
    decreases e, 0, 0
  {
    hide Grows, Enc, CodeE, ConstsE, OrderlyE, CodeEs, ConstsEs, OrderlyEs, At, IsBuiltinCall;
    var f, args := e.callee, e.args;
    var k1 := k + |ConstsE(f)|;
    var n, n2 := |CodeE(f, k)|, |CodeEs(args, k1)|;
    UserCallCode(e, k);
    OrderlyCall(e);
    AtSplit(p.code, ip, CodeE(f, k), CodeEs(args, k1) + Enc(CallOp(|args|)));
    AtSplit(p.code, ip + n, CodeEs(args, k1), Enc(CallOp(|args|)));
    AtSplit(p.consts, k, ConstsE(f), ConstsEs(args));
    var m1 := CheckE(f, k, p, ip, t, x);
    var m2 := CheckEs(args, k1, p, ip + n, More(t, [Any]), x);
    m := GrowThen(p, ip, n, n2, t, [Any], Anys(|args|), m1, m2, x);
    assert [Any] + Anys(|args|) == Anys(|args| + 1);
    TakesAnys(t, |args| + 1, ip + (n + n2) + 2);
    m := Closes(p, ip, n + n2, CallOp(|args|), t, [Any] + Anys(|args|), m, x);
  }

  // ----- single instructions and statements without control flow -----

  lemma {:induction false} CheckOpt(e: Option<Expr>, k: nat, p: Prog, ip: nat, t: Point, x: Points) returns (m: Points)
    requires OrderlyOpt(e) && Placed(p, ip, k, CodeOpt(e, k), ConstsOpt(e))
    ensures Grows(p, ip, |CodeOpt(e, k)|, t, [Any], m, x)
  {
    hide Grows, Enc, At, CodeE, ConstsE, OrderlyE;
    if e.Some? {
      m := CheckE(e.value, k, p, ip, t, x);
    } else {
      m := Pushes(p, ip, PushNil, t, [Any], x);
    }
  }

  /** An instruction behind pushed values. */
  lemma GrowsThen(p: Prog, a: nat, n: nat, i: Instr, t: Point, add: Shape, u: Point, m1: Points, x: Points)
      returns (m: Points)
    requires Grows(p, a, n, t, add, m1, x) && Fits(i) && At(p.code, a + n, Enc(i))
    requires Flow(p, i, a + n + Size(i), More(t, add)) == One(a + n + Size(i), u)
    ensures Spans(p, a, a + n + Size(i), t, u, m, x)
  {
    hide Flow, Enc, Checks, Below, Spans;
    BelowSelf(u);
    var m2 := Straight(p, a + n, i, More(t, add), u, u, x);
    m := SpanThen(p, a, a + n, a + n + Size(i), t, More(t, add), u, m1, m2, x);
  }

  /** The same for one that leaves the chunk: whatever may hold behind it. */
  lemma GrowsEnd(p: Prog, a: nat, n: nat, i: Instr, t: Point, add: Shape, u: Point, m1: Points, x: Points)
      returns (m: Points)
    requires Grows(p, a, n, t, add, m1, x) && Fits(i) && At(p.code, a + n, Enc(i))
    requires Flow(p, i, a + n + Size(i), More(t, add)) == Ends
    ensures Spans(p, a, a + n + Size(i), t, u, m, x)
  {
    hide Flow, Enc, Checks, Below, Spans;
    var m2 := Leaves(p, a + n, i, More(t, add), u, x);
    m := SpanThen(p, a, a + n, a + n + Size(i), t, More(t, add), u, m1, m2, x);
  }

  lemma Leaves(p: Prog, ip: nat, i: Instr, t: Point, u: Point, x: Points) returns (m: Points)
    requires Fits(i) && At(p.code, ip, Enc(i)) && Flow(p, i, ip + Size(i), t) == Ends
    ensures Spans(p, ip, ip + Size(i), t, u, m, x)
  {
    hide Flow, Enc, Checks;
    m := Alone(p, ip, i, t, u, x);
  }

  /** A jump to an exit: whatever may hold behind it. */
  lemma Jumps(p: Prog, ip: nat, i: Instr, t: Point, u: Point, q: nat, x: Points) returns (m: Points)
    requires Fits(i) && At(p.code, ip, Enc(i)) && Flow(p, i, ip + Size(i), t) == One(q, t) && q in x && Below(t, x[q])
    ensures Spans(p, ip, ip + Size(i), t, u, m, x)
  {
    hide Flow, Enc, Checks, Below;
    m := Alone(p, ip, i, t, u, x);
  }

  /** A jump taken or not. */
  lemma Branches(p: Prog, ip: nat, i: Instr, t: Point, u: Point, q: nat, v: Point, x: Points) returns (m: Points)
    requires Fits(i) && At(p.code, ip, Enc(i)) && Flow(p, i, ip + Size(i), t) == Two(ip + Size(i), u, q, v)
    requires q in x && x[q] == v
    ensures Spans(p, ip, ip + Size(i), t, u, m, x)
  {
    hide Flow, Enc, Checks, Below;
    BelowSelf(u);
    BelowSelf(v);
    m := Alone(p, ip, i, t, u, x);
  }

  lemma CheckLine(p: Prog, ip: nat, n: nat, t: Point, x: Points) returns (m: Points)
    requires At(p.code, ip, Enc(Line(n)))
    ensures Spans(p, ip, ip + 3, t, t, m, x)
  {
    hide Enc, Checks, Below;
    EncLine(n);
    BelowSelf(t);
    m := Straight(p, ip, Line(n % 65536), t, t, t, x);
  }

  lemma SpanNone(p: Prog, a: nat, t: Point, x: Points) returns (m: Points)
    ensures Spans(p, a, a, t, t, m, x)
  {
    m := map[a := t];
  }

  lemma CheckPop(p: Prog, ip: nat, n: nat, t: Point, x: Points) returns (m: Points)
    requires n < 256 && n <= t.locals && At(p.code, ip, PopCode(n))
    ensures Spans(p, ip, ip + |PopCode(n)|, t, Point(t.shape, t.locals - n), m, x)
  {
    hide Enc, Checks, Below, Spans;
    if n == 0 {
      m := SpanNone(p, ip, t, x);
    } else {
      var u := Point(t.shape, t.locals - n);
      BelowSelf(u);
      m := Straight(p, ip, PopScope(n), t, u, u, x);
    }
  }

  function Behind(t: Point, s: Stmt): Point { Point(t.shape, t.locals + Declared(s)) }

  lemma CheckDrop(e: Expr, k: nat, i: Instr, p: Prog, ip: nat, t: Point, x: Points) returns (m: Points)
    requires (i.Pop? || i.ReturnOp?) && OrderlyE(e) && Placed(p, ip, k, CodeE(e, k) + Enc(i), ConstsE(e))
    ensures Spans(p, ip, ip + |CodeE(e, k)| + 1, t, t, m, x)
  {
    hide Spans, Grows, Enc, At, CodeE, ConstsE, OrderlyE;
    AtSplit(p.code, ip, CodeE(e, k), Enc(i));
    var m1 := CheckE(e, k, p, ip, t, x);
    SwapOne(t, []);
    assert t.shape + [] == t.shape;
    if i.Pop? {
      m := GrowsThen(p, ip, |CodeE(e, k)|, i, t, [Any], t, m1, x);
    } else {
      m := GrowsEnd(p, ip, |CodeE(e, k)|, i, t, [Any], t, m1, x);
    }
  }

  lemma CheckAssign(e: Expr, y: string, k: nat, p: Prog, ip: nat, t: Point, x: Points) returns (m: Points)
    requires OrderlyE(e) && Placed(p, ip, k, CodeE(e, k) + Enc(SetVar(k + |ConstsE(e)|)), ConstsE(e) + [StrV(y)])
    ensures Spans(p, ip, ip + |CodeE(e, k)| + 3, t, t, m, x)
  {
    hide Spans, Grows, Enc, At, CodeE, ConstsE, OrderlyE;
    var i := SetVar(k + |ConstsE(e)|);
    AtSplit(p.code, ip, CodeE(e, k), Enc(i));
    AtSplit(p.consts, k, ConstsE(e), [StrV(y)]);
    AtIndex(p.consts, k + |ConstsE(e)|, [StrV(y)], 0);
    var m1 := CheckE(e, k, p, ip, t, x);
    SwapOne(t, []);
    assert t.shape + [] == t.shape;
    m := GrowsThen(p, ip, |CodeE(e, k)|, i, t, [Any], t, m1, x);
  }

  lemma CheckDecl(init: Option<Expr>, immut: bool, y: string, k: nat, p: Prog, ip: nat, t: Point, x: Points)
      returns (m: Points)
    requires OrderlyOpt(init)
    requires Placed(p, ip, k, CodeOpt(init, k) + Enc(Define(immut, k + |ConstsOpt(init)|)), ConstsOpt(init) + [StrV(y)])
    ensures Spans(p, ip, ip + |CodeOpt(init, k)| + 3, t, Point(t.shape, t.locals + 1), m, x)
  {
    hide Spans, Grows, Enc, At, CodeOpt, ConstsOpt, OrderlyOpt;
    var i := Define(immut, k + |ConstsOpt(init)|);
    AtSplit(p.code, ip, CodeOpt(init, k), Enc(i));
    AtSplit(p.consts, k, ConstsOpt(init), [StrV(y)]);
    AtIndex(p.consts, k + |ConstsOpt(init)|, [StrV(y)], 0);
    var m1 := CheckOpt(init, k, p, ip, t, x);
    SwapOne(t, []);
    assert t.shape + [] == t.shape;
    m := GrowsThen(p, ip, |CodeOpt(init, k)|, i, t, [Any], Point(t.shape, t.locals + 1), m1, x);
  }

  lemma CheckFnStmt(decl: FnDecl, k: nat, i: Instr, p: Prog, ip: nat, t: Point, x: Points) returns (m: Points)
    requires i == Const(k) || i == Closure(k)
    requires Placed(p, ip, k, Enc(i) + Enc(Define(true, k + 1)), [FnV(decl, []), StrV(decl.fname)])
    ensures Spans(p, ip, ip + 6, t, Point(t.shape, t.locals + 1), m, x)
  {
    hide Spans, Grows, Enc, At;
    AtSplit(p.code, ip, Enc(i), Enc(Define(true, k + 1)));
    AtIndex(p.consts, k, [FnV(decl, []), StrV(decl.fname)], 0);
    AtIndex(p.consts, k, [FnV(decl, []), StrV(decl.fname)], 1);
    var m1 := Pushes(p, ip, i, t, [Any], x);
    SwapOne(t, []);
    assert t.shape + [] == t.shape;
    m := GrowsThen(p, ip, 3, Define(true, k + 1), t, [Any], Point(t.shape, t.locals + 1), m1, x);
  }

  lemma SameTail<T>(a: seq<T>, b: seq<T>, c: seq<T>)
    requires a + b == a + c
    ensures b == c
  {
    assert b == (a + b)[|a|..] && c == (a + c)[|a|..];
  }

  /** A statement without control flow, behind its line. */
  lemma {:induction false} CheckPlain(s: Stmt, code: seq<Byte>, k: nat, top: bool, p: Prog, ip: nat, t: Point,
      x: Points) returns (m: Points)
    requires IsSimple(s) && OrderlyS(s, false) && CodeSimple(s, k, top) == Enc(Line(s.line)) + code
    requires Placed(p, ip, k, code, ConstsS(s))
    ensures Spans(p, ip, ip + |code|, t, Behind(t, s), m, x)
  {
    hide Spans, Grows, Enc, At, CodeE, ConstsE, OrderlyE, OrderlyFn, CodeOpt;
    var line := Enc(Line(s.line));
    match s
    case ExprStmt(_, e) =>
      SameTail(line, code, CodeE(e, k) + Enc(Pop));
      m := CheckDrop(e, k, Pop, p, ip, t, x);
    case Decl(_, immut, y, init) =>
      SameTail(line, code, CodeOpt(init, k) + Enc(Define(immut, k + |ConstsOpt(init)|)));
      m := CheckDecl(init, immut, y, k, p, ip, t, x);
    case Assign(_, y, e) =>
      SameTail(line, code, CodeE(e, k) + Enc(SetVar(k + |ConstsE(e)|)));
      m := CheckAssign(e, y, k, p, ip, t, x);
    case Return(_, None) =>
      SameTail(line, code, Enc(ReturnNil));
      m := Leaves(p, ip, ReturnNil, t, t, x);
    case Return(_, Some(e)) =>
      SameTail(line, code, CodeE(e, k) + Enc(ReturnOp));
      m := CheckDrop(e, k, ReturnOp, p, ip, t, x);
    case FnStmt(_, decl) =>
      var i := if top then Const(k) else Closure(k);
      SameTail(line, code, Enc(i) + Enc(Define(true, k + 1)));
      m := CheckFnStmt(decl, k, i, p, ip, t, x);
    case StructDecl(_) =>
      SameTail(line, code, []);
      m := SpanNone(p, ip, t, x);
  }

  lemma CheckSimple(s: Stmt, k: nat, top: bool, p: Prog, ip: nat, t: Point, x: Points) returns (m: Points)
    requires IsSimple(s) && OrderlyS(s, false) && Placed(p, ip, k, CodeSimple(s, k, top), ConstsS(s))
    ensures Spans(p, ip, ip + |CodeSimple(s, k, top)|, t, Behind(t, s), m, x)
  {
    hide Spans, Enc, At, ConstsS, OrderlyS, Behind;
    var line := Enc(Line(s.line));
    var code := CodeSimple(s, k, top)[3..];
    assert CodeSimple(s, k, top) == line + code;
    hide CodeSimple;
    AtSplit(p.code, ip, line, code);
    var m1 := CheckLine(p, ip, s.line, t, x);
    var m2 := CheckPlain(s, code, k, top, p, ip + 3, t, x);
    m := SpanThen(p, ip, ip + 3, ip + 3 + |code|, t, t, Behind(t, s), m1, m2, x);
  }

  // ----- loops from the inside -----

  /** For a fragment of n bytes at ip: its break and continue lead to exits that ask
      for the loop's stack and for no more than the loop's bindings. */
  ghost predicate Exits(p: Prog, x: Points, l: Loop, ip: nat, n: nat, lp: Point) {
    l.kind != Outside ==>
      && l.fwd.Some? && n < l.fwd.value && ip + l.fwd.value < 65536 && 0 <= l.back <= ip
      && ip + l.fwd.value in x && x[ip + l.fwd.value] == lp && ip - l.back in x && x[ip - l.back] == lp
  }

  /** Within a loop: its stack, its bindings, its variable if it has one, and those of the
      innermost block. */
  predicate InLoop(l: Loop, bvc: nat, t: Point, lp: Point) {
    l.kind != Outside ==>
      t.shape == lp.shape && t.locals >= lp.locals + bvc + (if l.kind == OfFor then 1 else 0) && bvc < 256
  }

  /** A part of the fragment, a bytes from its start. */
  lemma ExitsWithin(p: Prog, x: Points, x1: Points, l: Loop, ip: nat, n: nat, lp: Point, a: nat, k: nat)
    requires Exits(p, x, l, ip, n, lp) && a + k <= n
    requires forall q :: q in x && (q <= ip || q > ip + n) ==> q in x1 && x1[q] == x[q]
    ensures Exits(p, x1, Shift(l, a), ip + a, k, lp)
  {
  }

  function ExitInstr(s: Stmt, l: Loop, bvc: nat): (i: Instr)
    requires s.Break? || s.Continue?
    ensures Plain(i) && Size(i) == 3
  {
    var used := 3 + |ExitCode(l.kind, bvc)| + 3;
    if s.Break? then Jump(BreakOffset(l, used)) else JumpBack(l.back + used)
  }

  function Bound(kind: Kind): nat { if kind == OfFor then 1 else 0 }

  lemma ExitParts(s: Stmt, l: Loop, bvc: nat)
    requires (s.Break? || s.Continue?) && l.kind != Outside
    ensures CodeExit(s, l, bvc) == Enc(Line(s.line))
      + (PopCode(bvc) + (PopCode(Bound(l.kind)) + Enc(ExitInstr(s, l, bvc))))
    ensures |ExitCode(l.kind, bvc)| == |PopCode(bvc)| + |PopCode(Bound(l.kind))|
  {
    hide Enc;
    var a, b, c := PopCode(bvc), PopCode(Bound(l.kind)), Enc(ExitInstr(s, l, bvc));
    assert (a + b) + c == a + (b + c);
  }

  /** Where the jump of a break or continue leads. */
  lemma ExitFlow(s: Stmt, l: Loop, bvc: nat, p: Prog, ip: nat, lp: Point, x: Points, t: Point) returns (q: nat)
    requires (s.Break? || s.Continue?) && l.kind != Outside && Exits(p, x, l, ip, 3 + |ExitCode(l.kind, bvc)| + 3, lp)
    ensures Fits(ExitInstr(s, l, bvc)) && q in x && x[q] == lp
    ensures Flow(p, ExitInstr(s, l, bvc), ip + 3 + |ExitCode(l.kind, bvc)| + 3, t) == One(q, t)
  {
    hide ExitCode;
    q := if s.Break? then ip + l.fwd.value else ip - l.back;
  }

  lemma InLoopBelow(l: Loop, bvc: nat, t: Point, lp: Point)
    requires l.kind != Outside && InLoop(l, bvc, t, lp)
    ensures bvc + Bound(l.kind) <= t.locals && Below(Point(t.shape, t.locals - bvc - Bound(l.kind)), lp)
  {
  }

  /** break and continue drop the innermost block's bindings and the loop variable; what
      outer blocks have declared stays, which the exits allow. */
  lemma CheckExit(s: Stmt, l: Loop, bvc: nat, p: Prog, ip: nat, t: Point, lp: Point, x: Points) returns (m: Points)
    requires (s.Break? || s.Continue?) && l.kind != Outside && At(p.code, ip, CodeExit(s, l, bvc))
    requires Exits(p, x, l, ip, |CodeExit(s, l, bvc)|, lp) && InLoop(l, bvc, t, lp)
    ensures Spans(p, ip, ip + |CodeExit(s, l, bvc)|, t, t, m, x)
  {
    hide Spans, Enc, At, PopCode, Flow, ExitInstr, CodeExit, Exits, Below, ExitCode;
    ExitParts(s, l, bvc);
    var c, i := Bound(l.kind), ExitInstr(s, l, bvc);
    var a1 := ip + 3;
    var a2 := a1 + |PopCode(bvc)|;
    var a3 := a2 + |PopCode(c)|;
    AtSplit(p.code, ip, Enc(Line(s.line)), PopCode(bvc) + (PopCode(c) + Enc(i)));
    AtSplit(p.code, a1, PopCode(bvc), PopCode(c) + Enc(i));
    AtSplit(p.code, a2, PopCode(c), Enc(i));
    InLoopBelow(l, bvc, t, lp);
    var t1 := Point(t.shape, t.locals - bvc);
    var t2 := Point(t.shape, t.locals - bvc - c);
    var q := ExitFlow(s, l, bvc, p, ip, lp, x, t2);
    m := CheckLine(p, ip, s.line, t, x);
    var m1 := CheckPop(p, a1, bvc, t, x);
    var m2 := CheckPop(p, a2, c, t1, x);
    var m3 := Jumps(p, a3, i, t2, t, q, x);
    m := SpanThen(p, ip, a1, a2, t, t, t1, m, m1, x);
    m := SpanThen(p, ip, a2, a3, t, t1, t2, m, m2, x);
    m := SpanThen(p, ip, a3, a3 + 3, t, t2, t, m, m3, x);
  }

  // ----- statements -----

  lemma {:induction false} CheckS(s: Stmt, k: nat, l: Loop, bvc: nat, top: bool, p: Prog, ip: nat, t: Point, lp: Point,
      x: Points)
    returns (m: Points)
    requires OrderlyS(s, l.kind != Outside) && Placed(p, ip, k, CodeS(s, k, l, bvc, top), ConstsS(s))
    requires Exits(p, x, l, ip, |CodeS(s, k, l, bvc, top)|, lp) && InLoop(l, bvc, t, lp)
    ensures Spans(p, ip, ip + |CodeS(s, k, l, bvc, top)|, t, Behind(t, s), m, x)
    decreases s, 0
  {
    hide Spans, Enc, At, Exits, CodeE, CodeSimple, CodeIf, CodeWhile, CodeFor, CodeExit, ConstsE, ConstsB, ConstsIf,
      ConstsOpt, OrderlyE, OrderlyB, OrderlyIf, OrderlyFn, OrderlyOpt;
    if s.If? {
      AloneBelow(l, bvc, t, lp);
      m := CheckIf(s.chain, k, l, top, p, ip, t, lp, x);
    } else if s.While? {
      AtSplit(p.code, ip, Enc(Line(s.line)), CodeWhile(s.cond, s.body, k, top));
      var m1 := CheckLine(p, ip, s.line, t, x);
      var m2 := CheckWhile(s.cond, s.body, k, top, p, ip + 3, t, x);
      m := SpanThen(p, ip, ip + 3, ip + 3 + |CodeWhile(s.cond, s.body, k, top)|, t, t, t, m1, m2, x);
    } else if s.For? {
      m := CheckForStmt(s, k, top, p, ip, t, x, k + |ConstsE(s.iter)|, CodeFor(s.body, k + |ConstsE(s.iter)|, top));
    } else if s.Break? || s.Continue? {
      m := CheckExit(s, l, bvc, p, ip, t, lp, x);
    } else {
      m := CheckSimple(s, k, top, p, ip, t, x);
    }
  }

  lemma AloneBelow(l: Loop, bvc: nat, t: Point, lp: Point)
    requires InLoop(l, bvc, t, lp)
    ensures InLoop(l, 0, t, lp)
  {
  }

  function BehindAll(t: Point, ss: seq<Stmt>): Point { Point(t.shape, t.locals + DeclaredIn(ss)) }

  lemma SsPlaces(ss: seq<Stmt>, k: nat, l: Loop, bvc: nat, top: bool, p: Prog, ip: nat, s: Stmt, rest: seq<Stmt>)
    requires ss != [] && s == ss[0] && rest == ss[1..] && OrderlySs(ss, l.kind != Outside)
    requires Placed(p, ip, k, CodeSs(ss, k, l, bvc, top), ConstsSs(ss))
    ensures OrderlyS(s, l.kind != Outside) && OrderlySs(rest, l.kind != Outside)
    ensures DeclaredIn(ss) == Declared(s) + DeclaredIn(rest)
    ensures Placed(p, ip, k, CodeS(s, k, l, bvc, top), ConstsS(s))
    ensures var n := |CodeS(s, k, l, bvc, top)|; var k1 := k + |ConstsS(s)|;
      var code := CodeSs(rest, k1, Shift(l, n), bvc + Declared(s), top);
      Placed(p, ip + n, k1, code, ConstsSs(rest)) && |CodeSs(ss, k, l, bvc, top)| == n + |code|
  {
    hide CodeS, ConstsS, OrderlyS, Declared, At;
    var first := CodeS(s, k, l, bvc, top);
    var k1 := k + |ConstsS(s)|;
    AtSplit(p.code, ip, first, CodeSs(rest, k1, Shift(l, |first|), bvc + Declared(s), top));
    AtSplit(p.consts, k, ConstsS(s), ConstsSs(rest));
  }

  lemma InLoopBehind(l: Loop, bvc: nat, s: Stmt, n: nat, t: Point, lp: Point)
    requires InLoop(l, bvc, t, lp) && (l.kind != Outside ==> bvc + Declared(s) < 256)
    ensures InLoop(Shift(l, n), bvc + Declared(s), Behind(t, s), lp)
  {
  }

  lemma {:induction false} CheckSs(ss: seq<Stmt>, k: nat, l: Loop, bvc: nat, top: bool, p: Prog, ip: nat, t: Point,
      lp: Point, x: Points)
    returns (m: Points)
    requires OrderlySs(ss, l.kind != Outside) && Placed(p, ip, k, CodeSs(ss, k, l, bvc, top), ConstsSs(ss))
    requires Exits(p, x, l, ip, |CodeSs(ss, k, l, bvc, top)|, lp) && InLoop(l, bvc, t, lp)
    requires l.kind != Outside ==> bvc + DeclaredIn(ss) < 256
    ensures Spans(p, ip, ip + |CodeSs(ss, k, l, bvc, top)|, t, BehindAll(t, ss), m, x)
    decreases ss, 0
  {
    hide Spans, At, Exits, CodeS, ConstsS, OrderlyS, Declared, InLoop;
    if ss == [] {
      m := SpanNone(p, ip, t, x);
    } else {
      var s, rest := ss[0], ss[1..];
      SsPlaces(ss, k, l, bvc, top, p, ip, s, rest);
      hide CodeSs, ConstsSs, OrderlySs, DeclaredIn, Placed;
      var n, k1 := |CodeS(s, k, l, bvc, top)|, k + |ConstsS(s)|;
      var l1, bvc1 := Shift(l, n), bvc + Declared(s);
      var n2 := |CodeSs(rest, k1, l1, bvc1, top)|;
      ExitsWithin(p, x, x, l, ip, n + n2, lp, 0, n);
      ExitsWithin(p, x, x, l, ip, n + n2, lp, n, n2);
      InLoopBehind(l, bvc, s, n, t, lp);
      ShiftNone(l);
      var m1 := CheckS(s, k, l, bvc, top, p, ip, t, lp, x);
      var m2 := CheckSs(rest, k1, l1, bvc1, top, p, ip + n, Behind(t, s), lp, x);
      m := SpanThen(p, ip, ip + n, ip + n + n2, t, Behind(t, s), BehindAll(Behind(t, s), rest), m1, m2, x);
    }
  }

  lemma ShiftNone(l: Loop)
    ensures Shift(l, 0) == l
  {
  }

  /** A block leaves the bindings that were there before it. */
  lemma {:induction false} CheckB(b: Block, k: nat, l: Loop, top: bool, p: Prog, ip: nat, t: Point, lp: Point,
      x: Points) returns (m: Points)
    requires OrderlyB(b, l.kind != Outside) && Placed(p, ip, k, CodeB(b, k, l, top), ConstsB(b))
    requires Exits(p, x, l, ip, |CodeB(b, k, l, top)|, lp) && InLoop(l, 0, t, lp)
    ensures Spans(p, ip, ip + |CodeB(b, k, l, top)|, t, t, m, x)
    decreases b, 0
  {
    hide Spans, Enc, At, Exits, CodeSs, ConstsSs, OrderlySs, DeclaredIn, PopCode;
    var l1, d := Shift(l, 3), DeclaredIn(b.stmts);
    var code := CodeSs(b.stmts, k, l1, 0, top);
    var n := |code|;
    AtSplit(p.code, ip, Enc(Line(b.bline)), code + PopCode(d));
    AtSplit(p.code, ip + 3, code, PopCode(d));
    ExitsWithin(p, x, x, l, ip, 3 + n + |PopCode(d)|, lp, 3, n);
    var t1 := BehindAll(t, b.stmts);
    var m1 := CheckLine(p, ip, b.bline, t, x);
    var m2 := CheckSs(b.stmts, k, l1, 0, top, p, ip + 3, t, lp, x);
    var m3 := CheckPop(p, ip + 3 + n, d, t1, x);
    m := SpanThen(p, ip, ip + 3, ip + 3 + n, t, t, t1, m1, m2, x);
    m := SpanThen(p, ip, ip + 3 + n, ip + 3 + n + |PopCode(d)|, t, t1, t, m, m3, x);
  }

  // ----- jumps within a statement -----

  lemma GrowsSpan(p: Prog, a: nat, b: nat, t: Point, add: Shape, m1: Points, x: Points) returns (m: Points)
    requires a <= b && Grows(p, a, b - a, t, add, m1, x)
    ensures Spans(p, a, b, t, More(t, add), m, x)
  {
    m := m1;
  }

  /** A jump on the value that has just been pushed. */
  lemma TestBranches(p: Prog, ip: nat, when: bool, off: nat, t: Point, x: Points) returns (m: Points)
    requires off < 65536 && At(p.code, ip, Enc(JumpIf(when, off))) && ip + 3 + off in x && x[ip + 3 + off] == t
    ensures Spans(p, ip, ip + 3, More(t, [Any]), t, m, x)
  {
    hide Spans, Enc, At;
    SwapOne(t, []);
    assert t.shape + [] == t.shape;
    m := Branches(p, ip, JumpIf(when, off), More(t, [Any]), t, ip + 3 + off, t, x);
  }

  lemma JumpsBack(p: Prog, ip: nat, off: nat, t: Point, u: Point, x: Points) returns (m: Points)
    requires off < 65536 && off <= ip + 3 && At(p.code, ip, Enc(JumpBack(off))) && ip + 3 - off in x
    requires x[ip + 3 - off] == t
    ensures Spans(p, ip, ip + 3, t, u, m, x)
  {
    hide Spans, Enc, At;
    BelowSelf(t);
    m := Jumps(p, ip, JumpBack(off), t, u, ip + 3 - off, x);
  }

  lemma JumpsOver(p: Prog, ip: nat, off: nat, t: Point, u: Point, x: Points) returns (m: Points)
    requires off < 65536 && At(p.code, ip, Enc(Jump(off))) && ip + 3 + off in x && x[ip + 3 + off] == t
    ensures Spans(p, ip, ip + 3, t, u, m, x)
  {
    hide Spans, Enc, At;
    BelowSelf(t);
    m := Jumps(p, ip, Jump(off), t, u, ip + 3 + off, x);
  }

  lemma SpanDischarge(p: Prog, a: nat, b: nat, t: Point, u: Point, m: Points, x: Points, x1: Points)
    requires Spans(p, a, b, t, u, m, x)
    requires forall q :: q in x ==>
      (q == a && x[q] == t) || (q == b && x[q] == u) || (q in m && m[q] == x[q]) || (q in x1 && x1[q] == x[q])
    ensures Spans(p, a, b, t, u, m, x1)
  {
    hide InstrChecks;
    Discharge(p, a, b, m, x, x1);
  }

  // ----- if -----

  /** The pieces of an if chain's first arm; els is what follows the arm. */
  lemma IfPlaces(c: IfChain, k: nat, l: Loop, top: bool, p: Prog, ip: nat, k1: nat, k2: nat, n: nat, thn: seq<Byte>,
      els: seq<Byte>, off: nat)
    requires k1 == k + |ConstsE(c.cond)| && k2 == k1 + |ConstsB(c.thn)| && n == |CodeE(c.cond, k)|
    requires thn == CodeB(c.thn, k1, Shift(l, 3 + n + 3), top)
    requires els == CodeElse(c.els, k2, Shift(l, 3 + n + 3 + |thn|), top)
    requires off == |thn| + if c.els.NoElse? then 0 else 3
    requires Placed(p, ip, k, CodeIf(c, k, l, top), ConstsIf(c))
    ensures |CodeIf(c, k, l, top)| == 3 + n + 3 + |thn| + |els| && ip + |CodeIf(c, k, l, top)| < 65536
    ensures At(p.code, ip, Enc(Line(c.line))) && Placed(p, ip + 3, k, CodeE(c.cond, k), ConstsE(c.cond))
    ensures At(p.code, ip + 3 + n, Enc(JumpIf(false, off))) && Placed(p, ip + 6 + n, k1, thn, ConstsB(c.thn))
    ensures Placed(p, ip + 6 + n + |thn|, k2, els, ConstsElse(c.els))
  {
    hide Enc, At, CodeE, CodeB, CodeElse, ConstsE, ConstsB, ConstsElse;
    var cond, test := CodeE(c.cond, k), Enc(JumpIf(false, off));
    assert CodeIf(c, k, l, top) == Enc(Line(c.line)) + (cond + (test + (thn + els)));
    assert ConstsIf(c) == ConstsE(c.cond) + (ConstsB(c.thn) + ConstsElse(c.els));
    hide CodeIf, ConstsIf;
    AtBound(p.code, ip, Enc(Line(c.line)) + (cond + (test + (thn + els))));
    AtSplit(p.code, ip, Enc(Line(c.line)), cond + (test + (thn + els)));
    AtSplit(p.code, ip + 3, cond, test + (thn + els));
    AtSplit(p.code, ip + 3 + n, test, thn + els);
    AtSplit(p.code, ip + 6 + n, thn, els);
    AtSplit(p.consts, k, ConstsE(c.cond), ConstsB(c.thn) + ConstsElse(c.els));
    AtSplit(p.consts, k1, ConstsB(c.thn), ConstsElse(c.els));
  }

  predicate OrderlyElse(els: Else, inLoop: bool) {
    match els
    case NoElse => true
    case ElseBlock(b) => OrderlyB(b, inLoop)
    case ElseIf(c) => OrderlyIf(c, inLoop)
  }

  lemma {:induction false} CheckIf(c: IfChain, k: nat, l: Loop, top: bool, p: Prog, ip: nat, t: Point, lp: Point,
      x: Points) returns (m: Points)
    requires OrderlyIf(c, l.kind != Outside) && Placed(p, ip, k, CodeIf(c, k, l, top), ConstsIf(c))
    requires Exits(p, x, l, ip, |CodeIf(c, k, l, top)|, lp) && InLoop(l, 0, t, lp)
    ensures Spans(p, ip, ip + |CodeIf(c, k, l, top)|, t, t, m, x)
    decreases c, 1
  {
    hide Spans, Grows, Enc, At, CodeE, CodeB, CodeElse, CodeIf, ConstsE, ConstsB, ConstsElse, ConstsIf, OrderlyE,
      OrderlyB, Placed, Exits, InLoop, Flow;
    var k1, n := k + |ConstsE(c.cond)|, |CodeE(c.cond, k)|;
    var k2 := k1 + |ConstsB(c.thn)|;
    var l1 := Shift(l, 3 + n + 3);
    var thn := CodeB(c.thn, k1, l1, top);
    var l2 := Shift(l, 3 + n + 3 + |thn|);
    var els := CodeElse(c.els, k2, l2, top);
    var off := |thn| + if c.els.NoElse? then 0 else 3;
    IfPlaces(c, k, l, top, p, ip, k1, k2, n, thn, els, off);
    var a1, a2, a3 := ip + 3 + n, ip + 6 + n, ip + 6 + n + |thn|;
    var end := a3 + |els|;
    var x1 := x[a2 + off := t][end := t];
    ElseSize(c.els, k2, l2, top);
    ExitsWithin(p, x, x1, l, ip, end - ip, lp, 3 + n + 3, |thn|);
    ExitsWithin(p, x, x1, l, ip, end - ip, lp, 3 + n + 3 + |thn|, |els|);
    InLoopShift(l, 3 + n + 3, t, lp);
    InLoopShift(l, 3 + n + 3 + |thn|, t, lp);
    m := CheckLine(p, ip, c.line, t, x1);
    var m1 := CheckE(c.cond, k, p, ip + 3, t, x1);
    m1 := GrowsSpan(p, ip + 3, a1, t, [Any], m1, x1);
    var m2 := TestBranches(p, a1, false, off, t, x1);
    var m3 := CheckB(c.thn, k1, l1, top, p, a2, t, lp, x1);
    var m4 := CheckElse(c.els, k2, l2, top, p, a3, t, lp, x1);
    m := IfSpans(p, ip, a1, a2, a3, end, t, More(t, [Any]), m, m1, m2, m3, m4, x1);
    SpanDischarge(p, ip, end, t, t, m, x1, x);
  }

  lemma IfSpans(p: Prog, ip: nat, a1: nat, a2: nat, a3: nat, end: nat, t: Point, u: Point, m0: Points, m1: Points,
      m2: Points, m3: Points, m4: Points, x: Points) returns (m: Points)
    requires Spans(p, ip, ip + 3, t, t, m0, x) && Spans(p, ip + 3, a1, t, u, m1, x) && Spans(p, a1, a2, u, t, m2, x)
    requires Spans(p, a2, a3, t, t, m3, x) && Spans(p, a3, end, t, t, m4, x)
    ensures Spans(p, ip, end, t, t, m, x) && forall q :: q in m4 ==> q in m && m[q] == m4[q]
  {
    hide Spans;
    m := SpanThen(p, ip, ip + 3, a1, t, t, u, m0, m1, x);
    m := SpanThen(p, ip, a1, a2, t, u, t, m, m2, x);
    m := SpanThen(p, ip, a2, a3, t, t, t, m, m3, x);
    m := SpanThen(p, ip, a3, end, t, t, t, m, m4, x);
  }

  lemma ElseSize(els: Else, k: nat, l: Loop, top: bool)
    ensures if els.NoElse? then CodeElse(els, k, l, top) == [] else |CodeElse(els, k, l, top)| >= 3
  {
    hide OpCode, Operands, CodeB, CodeIf;
  }

  lemma InLoopShift(l: Loop, n: nat, t: Point, lp: Point)
    requires InLoop(l, 0, t, lp)
    ensures InLoop(Shift(l, n), 0, t, lp)
  {
  }

  /** The jump over the else part, entered by the arm before it, and the part, entered by
      the failed test, three bytes further on. */
  lemma {:induction false} CheckElse(els: Else, k: nat, l: Loop, top: bool, p: Prog, ip: nat, t: Point, lp: Point,
      x: Points) returns (m: Points)
    requires OrderlyElse(els, l.kind != Outside) && Placed(p, ip, k, CodeElse(els, k, l, top), ConstsElse(els))
    requires Exits(p, x, l, ip, |CodeElse(els, k, l, top)|, lp) && InLoop(l, 0, t, lp)
    requires ip + |CodeElse(els, k, l, top)| in x && x[ip + |CodeElse(els, k, l, top)|] == t
    ensures Spans(p, ip, ip + |CodeElse(els, k, l, top)|, t, t, m, x)
    ensures !els.NoElse? ==> ip + 3 in m && m[ip + 3] == t
    decreases els, 0
  {
    hide Spans, Enc, At, CodeB, CodeIf, ConstsB, ConstsIf, OrderlyB, OrderlyIf, Exits, InLoop;
    if els.NoElse? {
      m := SpanNone(p, ip, t, x);
    } else {
      var l1 := Shift(l, 3);
      var code := if els.ElseBlock? then CodeB(els.block, k, l1, top) else CodeIf(els.chain, k, l1, top);
      AtBound(p.code, ip, Enc(Jump(|code|)) + code);
      AtSplit(p.code, ip, Enc(Jump(|code|)), code);
      ExitsWithin(p, x, x, l, ip, 3 + |code|, lp, 3, |code|);
      InLoopShift(l, 3, t, lp);
      var m1 := JumpsOver(p, ip, |code|, t, t, x);
      var m2;
      if els.ElseBlock? {
        m2 := CheckB(els.block, k, l1, top, p, ip + 3, t, lp, x);
      } else {
        m2 := CheckIf(els.chain, k, l1, top, p, ip + 3, t, lp, x);
      }
      SpanStart(p, ip + 3, ip + 3 + |code|, t, t, m2, x);
      m := SpanThen(p, ip, ip + 3, ip + 3 + |code|, t, t, t, m1, m2, x);
    }
  }

  lemma SpanStart(p: Prog, a: nat, b: nat, t: Point, u: Point, m: Points, x: Points)
    requires Spans(p, a, b, t, u, m, x)
    ensures a in m && m[a] == t
  {
    hide InstrChecks;
  }

  // ----- loops -----

  /** The pieces of a while and where they stand; n and len are the lengths of its
      condition and its body. */
  lemma WhilePlaces(cond: Expr, body: Block, k: nat, top: bool, p: Prog, ip: nat, k1: nat, n: nat, len: nat, l: Loop)
    requires k1 == k + |ConstsE(cond)| && n == |CodeE(cond, k)| && len == LenB(body, k1, OfWhile, top)
    requires l == Loop(OfWhile, n + 3, Some(len + 3))
    requires Placed(p, ip, k, CodeWhile(cond, body, k, top), ConstsE(cond) + ConstsB(body))
    ensures |CodeB(body, k1, l, top)| == len && |CodeWhile(cond, body, k, top)| == n + 3 + len + 3
    ensures ip + n + len + 6 < 65536
    ensures Placed(p, ip, k, CodeE(cond, k), ConstsE(cond)) && At(p.code, ip + n, Enc(JumpIf(false, len + 3)))
    ensures Placed(p, ip + n + 3, k1, CodeB(body, k1, l, top), ConstsB(body))
    ensures At(p.code, ip + n + 3 + len, Enc(JumpBack(n + 3 + len + 3)))
  {
    hide Enc, At, CodeE, CodeB, ConstsE, ConstsB;
    LenBlock(body, k1, l, Loop(OfWhile, 0, None), top);
    var code, test, back := CodeB(body, k1, l, top), Enc(JumpIf(false, len + 3)), Enc(JumpBack(n + 3 + len + 3));
    assert CodeWhile(cond, body, k, top) == CodeE(cond, k) + (test + (code + back));
    hide CodeWhile, LenB;
    AtBound(p.code, ip, CodeE(cond, k) + (test + (code + back)));
    AtSplit(p.code, ip, CodeE(cond, k), test + (code + back));
    AtSplit(p.code, ip + n, test, code + back);
    AtSplit(p.code, ip + n + 3, code, back);
    AtSplit(p.consts, k, ConstsE(cond), ConstsB(body));
  }

  lemma {:induction false} CheckWhile(cond: Expr, body: Block, k: nat, top: bool, p: Prog, ip: nat, t: Point, x: Points)
      returns (m: Points)
    requires OrderlyE(cond) && OrderlyB(body, true)
    requires Placed(p, ip, k, CodeWhile(cond, body, k, top), ConstsE(cond) + ConstsB(body))
    ensures Spans(p, ip, ip + |CodeWhile(cond, body, k, top)|, t, t, m, x)
    decreases body, 1
  {
    hide Spans, Grows, Enc, At, CodeE, CodeB, CodeWhile, ConstsE, ConstsB, OrderlyE, OrderlyB, Placed, LenB, Flow;
    var k1, n := k + |ConstsE(cond)|, |CodeE(cond, k)|;
    var len := LenB(body, k1, OfWhile, top);
    var l := Loop(OfWhile, n + 3, Some(len + 3));
    WhilePlaces(cond, body, k, top, p, ip, k1, n, len, l);
    var a1, a2, a3 := ip + n, ip + n + 3, ip + n + 3 + len;
    var end := a3 + 3;
    var x1: Points := map[ip := t, end := t];
    m := CheckE(cond, k, p, ip, t, x1);
    var m1 := TestBranches(p, a1, false, len + 3, t, x1);
    var m2 := CheckB(body, k1, l, top, p, a2, t, t, x1);
    var m3 := JumpsBack(p, a3, n + 3 + len + 3, t, t, x1);
    m := GrowsSpan(p, ip, a1, t, [Any], m, x1);
    m := SpanThen(p, ip, a1, a2, t, More(t, [Any]), t, m, m1, x1);
    m := SpanThen(p, ip, a2, a3, t, t, t, m, m2, x1);
    m := SpanThen(p, ip, a3, end, t, t, t, m, m3, x1);
    SpanDischarge(p, ip, end, t, t, m, x1, x);
  }

  lemma ForCode(body: Block, k: nat, top: bool, len: nat, l: Loop, code: seq<Byte>)
    requires len == LenB(body, k + 1, OfFor, top) && l == Loop(OfFor, 6, Some(len + 5))
    requires code == CodeB(body, k + 1, l, top)
    ensures |code| == len
    ensures CodeFor(body, k, top) == Enc(IterNext(3 + len + 5))
      + (Enc(Define(false, k)) + (code + (Enc(PopScope(1)) + (Enc(JumpBack(6 + len + 5)) + Enc(IterCleanup)))))
  {
    hide Enc, CodeB;
    LenBlock(body, k + 1, l, Loop(OfFor, 0, None), top);
  }

  lemma ForTail(p: Prog, ip: nat, pop: seq<Byte>, back: seq<Byte>, clean: seq<Byte>)
    requires At(p.code, ip, pop + (back + clean)) && |pop| == 2 && |back| == 3
    ensures At(p.code, ip, pop) && At(p.code, ip + 2, back) && At(p.code, ip + 5, clean)
  {
    hide At;
    AtSplit(p.code, ip, pop, back + clean);
    AtSplit(p.code, ip + 2, back, clean);
  }

  /** The pieces of a for from its ITER_NEXT on; len is the length of its body. */
  lemma ForPlaces(body: Block, name: string, k: nat, top: bool, p: Prog, ip: nat, len: nat, l: Loop)
    requires len == LenB(body, k + 1, OfFor, top) && l == Loop(OfFor, 6, Some(len + 5))
    requires Placed(p, ip, k, CodeFor(body, k, top), [StrV(name)] + ConstsB(body))
    ensures |CodeB(body, k + 1, l, top)| == len && |CodeFor(body, k, top)| == len + 12 && ip + len + 12 < 65536
    ensures IsName(p, k) && k < 65536
    ensures At(p.code, ip, Enc(IterNext(3 + len + 5))) && At(p.code, ip + 3, Enc(Define(false, k)))
    ensures Placed(p, ip + 6, k + 1, CodeB(body, k + 1, l, top), ConstsB(body))
    ensures At(p.code, ip + 6 + len, Enc(PopScope(1)))
    ensures At(p.code, ip + 8 + len, Enc(JumpBack(6 + len + 5))) && At(p.code, ip + 11 + len, Enc(IterCleanup))
  {
    hide Enc, At, CodeB, ConstsB, CodeFor, LenB;
    var code := CodeB(body, k + 1, l, top);
    ForCode(body, k, top, len, l, code);
    var tail := Enc(PopScope(1)) + (Enc(JumpBack(6 + len + 5)) + Enc(IterCleanup));
    var head := Enc(Define(false, k)) + (code + tail);
    AtBound(p.code, ip, CodeFor(body, k, top));
    AtSplit(p.code, ip, Enc(IterNext(3 + len + 5)), head);
    AtSplit(p.code, ip + 3, Enc(Define(false, k)), code + tail);
    AtSplit(p.code, ip + 6, code, tail);
    ForTail(p, ip + 6 + len, Enc(PopScope(1)), Enc(JumpBack(6 + len + 5)), Enc(IterCleanup));
    AtSplit(p.consts, k, [StrV(name)], ConstsB(body));
    AtIndex(p.consts, k, [StrV(name)], 0);
  }

  /** From the ITER_NEXT of a for, whose iterator lies on t's stack, to behind its
      ITER_CLEANUP. */
  lemma {:induction false} CheckFor(body: Block, name: string, k: nat, top: bool, p: Prog, ip: nat, t: Point, x: Points)
      returns (m: Points)
    requires OrderlyB(body, true) && Placed(p, ip, k, CodeFor(body, k, top), [StrV(name)] + ConstsB(body))
    ensures Spans(p, ip, ip + |CodeFor(body, k, top)|, More(t, [Iter]), t, m, x)
    decreases body, 1
  {
    hide Spans, Enc, At, CodeB, CodeFor, ConstsB, OrderlyB, Placed, LenB, Flow;
    var len := LenB(body, k + 1, OfFor, top);
    var l := Loop(OfFor, 6, Some(len + 5));
    ForPlaces(body, name, k, top, p, ip, len, l);
    var u := More(t, [Iter]);
    var v := Point(u.shape, u.locals + 1);
    var a1, a2, a3, a4, a5 := ip + 3, ip + 6, ip + 6 + len, ip + 8 + len, ip + 11 + len;
    var x1: Points := map[ip := u, a5 := u];
    m := TurnBegins(p, ip, 3 + len + 5, k, u, v, a5, x1);
    var m2 := CheckB(body, k + 1, l, top, p, a2, v, u, x1);
    var m3 := PopOne(p, a3, v, u, x1);
    var m4 := JumpsBack(p, a4, 6 + len + 5, u, u, x1);
    var m5 := CleansUp(p, a5, t, u, x1);
    m := SpanThen(p, ip, a2, a3, u, v, v, m, m2, x1);
    m := SpanThen(p, ip, a3, a4, u, v, u, m, m3, x1);
    m := SpanThen(p, ip, a4, a5, u, u, u, m, m4, x1);
    SpanStart(p, a5, a5 + 1, u, t, m5, x1);
    m := SpanThen(p, ip, a5, a5 + 1, u, u, t, m, m5, x1);
    SpanDischarge(p, ip, a5 + 1, u, t, m, x1, x);
  }

  /** ITER_NEXT and the definition of the loop variable. */
  lemma TurnBegins(p: Prog, ip: nat, off: nat, k: nat, u: Point, v: Point, q: nat, x: Points) returns (m: Points)
    requires off < 65536 && k < 65536 && IsName(p, k) && HasIter(u.shape) && v == Point(u.shape, u.locals + 1)
    requires At(p.code, ip, Enc(IterNext(off))) && At(p.code, ip + 3, Enc(Define(false, k)))
    requires q == ip + 3 + off && q in x && x[q] == u
    ensures Spans(p, ip, ip + 6, u, v, m, x)
  {
    hide Spans, Enc, At, Below;
    var top := More(u, [Any]);
    SwapNone(u, [Any]);
    m := Branches(p, ip, IterNext(off), u, top, q, u, x);
    SwapOne(u, []);
    assert u.shape + [] == u.shape;
    BelowSelf(v);
    var m1 := Straight(p, ip + 3, Define(false, k), top, v, v, x);
    m := SpanThen(p, ip, ip + 3, ip + 6, u, top, v, m, m1, x);
  }

  lemma PopOne(p: Prog, ip: nat, v: Point, u: Point, x: Points) returns (m: Points)
    requires v == Point(u.shape, u.locals + 1) && At(p.code, ip, Enc(PopScope(1)))
    ensures Spans(p, ip, ip + 2, v, u, m, x)
  {
    hide Spans, Enc, At, Below;
    BelowSelf(u);
    m := Straight(p, ip, PopScope(1), v, u, u, x);
  }

  lemma CleansUp(p: Prog, ip: nat, t: Point, u: Point, x: Points) returns (m: Points)
    requires u == More(t, [Iter]) && At(p.code, ip, Enc(IterCleanup))
    ensures Spans(p, ip, ip + 1, u, t, m, x)
  {
    hide Spans, Enc, At, Below;
    BelowSelf(t);
    assert u.shape[..|u.shape| - 1] + [] == t.shape;
    m := Straight(p, ip, IterCleanup, u, t, t, x);
  }

  lemma {:induction false} CheckForStmt(s: Stmt, k: nat, top: bool, p: Prog, ip: nat, t: Point, x: Points, k1: nat,
      code: seq<Byte>) returns (m: Points)
    requires s.For? && OrderlyE(s.iter) && OrderlyB(s.body, true) && k1 == k + |ConstsE(s.iter)|
    requires code == CodeFor(s.body, k1, top)
    requires Placed(p, ip, k, Enc(Line(s.line)) + (CodeE(s.iter, k) + (Enc(IterSetup) + code)),
      ConstsE(s.iter) + ([StrV(s.x)] + ConstsB(s.body)))
    ensures Spans(p, ip, ip + 3 + |CodeE(s.iter, k)| + 1 + |code|, t, t, m, x)
    decreases s.body, 2
  {
    hide Spans, Grows, Enc, At, CodeE, CodeFor, ConstsE, ConstsB, OrderlyE, OrderlyB, Flow;
    var n := |CodeE(s.iter, k)|;
    AtSplit(p.code, ip, Enc(Line(s.line)), CodeE(s.iter, k) + (Enc(IterSetup) + code));
    AtSplit(p.code, ip + 3, CodeE(s.iter, k), Enc(IterSetup) + code);
    AtSplit(p.code, ip + 3 + n, Enc(IterSetup), code);
    AtSplit(p.consts, k, ConstsE(s.iter), [StrV(s.x)] + ConstsB(s.body));
    hide Placed;
    m := CheckLine(p, ip, s.line, t, x);
    var m1 := CheckE(s.iter, k, p, ip + 3, t, x);
    SetsUp(p, ip + 3 + n + 1, t);
    m1 := GrowsThen(p, ip + 3, n, IterSetup, t, [Any], More(t, [Iter]), m1, x);
    var m2 := CheckFor(s.body, s.x, k1, top, p, ip + 3 + n + 1, t, x);
    m := SpanThen(p, ip, ip + 3, ip + 3 + n + 1, t, t, More(t, [Iter]), m, m1, x);
    m := SpanThen(p, ip, ip + 3 + n + 1, ip + 3 + n + 1 + |code|, t, More(t, [Iter]), t, m, m2, x);
  }

  lemma SetsUp(p: Prog, next: nat, t: Point)
    ensures Flow(p, IterSetup, next, More(t, [Any])) == One(next, More(t, [Iter]))
  {
    SwapOne(t, [Iter]);
  }

  // ----- chunks -----

  lemma InPlace<T>(s: seq<T>)
    ensures At(s, 0, s)
  {
    assert s[0..0 + |s|] == s;
  }

  lemma ChunkPlaces(p: Prog, code: seq<Byte>, ret: seq<Byte>, consts: seq<Val>)
    requires p == Prog(code + ret, consts) && |code + ret| < 65536 && |consts| < 65536
    ensures Placed(p, 0, 0, code, consts) && At(p.code, |code|, ret)
  {
    hide At;
    InPlace(p.code);
    InPlace(p.consts);
    AtSplit(p.code, 0, code, ret);
  }

  lemma OrderlyParts(fn: FnDecl)
    requires OrderlyFn(fn)
    ensures OrderlyB(fn.body, false) && |FnCode(fn)| < 65536 && |FnConsts(fn)| < 65536
  {
    hide FnCode, FnConsts, OrderlyB, CodeB, ConstsB;
  }

  lemma FnProgIs(fn: FnDecl)
    ensures FnCode(fn) == CodeB(fn.body, 0, TOP, false) + Enc(ReturnNil) && FnConsts(fn) == ConstsB(fn.body)
    ensures FnProg(fn) == Prog(FnCode(fn), FnConsts(fn)) && Plain(ReturnNil) && |Enc(ReturnNil)| == 1
  {
    hide Enc, CodeB, ConstsB;
  }

  lemma FnPlaces(fn: FnDecl, p: Prog, code: seq<Byte>)
    requires OrderlyFn(fn) && p == FnProg(fn) && code == CodeB(fn.body, 0, TOP, false)
    ensures OrderlyB(fn.body, false) && Placed(p, 0, 0, code, ConstsB(fn.body))
    ensures At(p.code, |code|, Enc(ReturnNil)) && |p.code| == |code| + 1
  {
    hide *;
    OrderlyParts(fn);
    FnProgIs(fn);
    ChunkPlaces(p, code, Enc(ReturnNil), ConstsB(fn.body));
  }

  /** Outside of loops there is nothing to leave. */
  lemma NoLoop(p: Prog, x: Points, ip: nat, n: nat, t: Point)
    ensures Exits(p, x, TOP, ip, n, t) && InLoop(TOP, 0, t, t)
  {
  }

  /** The chunk of a function passes the check. */
  lemma FnChecks(fn: FnDecl)
    requires OrderlyFn(fn)
    ensures ChunkChecks(FnProg(fn))
  {
    hide Spans, Enc, At, CodeB, ConstsB, OrderlyB, OrderlyFn, FnProg, ChunkChecks, Placed, Exits, InLoop;
    var p := FnProg(fn);
    var code := CodeB(fn.body, 0, TOP, false);
    var t := Point([], 0);
    FnPlaces(fn, p, code);
    NoLoop(p, map[], 0, |code|, t);
    var m1 := CheckB(fn.body, 0, TOP, false, p, 0, t, t, map[]);
    var m2 := Leaves(p, |code|, ReturnNil, t, t, map[]);
    var m := SpanThen(p, 0, |code|, |p.code|, t, t, t, m1, m2, map[]);
    ChunkSpans(p, t, m);
  }

  lemma ChunkSpans(p: Prog, u: Point, m: Points)
    requires Spans(p, 0, |p.code|, Point([], 0), u, m, map[])
    ensures ChunkChecks(p)
  {
    hide InstrChecks;
  }

  lemma ProgramPlaces(ss: seq<Stmt>, p: Prog, code: seq<Byte>)
    requires OrderlyProgram(ss) && p == Compiled(ss) && code == CodeSs(ss, 0, TOP, 0, true)
    ensures OrderlySs(ss, false) && Placed(p, 0, 0, code, ConstsSs(ss))
    ensures At(p.code, |code|, Enc(ReturnNil)) && |p.code| == |code| + 1
  {
    hide Enc, At, CodeSs, ConstsSs, OrderlySs, Placed;
    ChunkPlaces(p, code, Enc(ReturnNil), ConstsSs(ss));
  }

  /** The chunk of a program passes the check: every instruction has one stack shape,
      and every jump, back-patched breaks included, leads to an instruction. */
  lemma ProgramChecks(ss: seq<Stmt>)
    requires OrderlyProgram(ss)
    ensures ChunkChecks(Compiled(ss))
  {
    hide Spans, Enc, At, CodeSs, ConstsSs, OrderlySs, DeclaredIn, OrderlyProgram, Compiled, ChunkChecks, Placed, Exits,
      InLoop;
    var p := Compiled(ss);
    var code := CodeSs(ss, 0, TOP, 0, true);
    var t := Point([], 0);
    var u := BehindAll(t, ss);
    ProgramPlaces(ss, p, code);
    NoLoop(p, map[], 0, |code|, t);
    var m1 := CheckSs(ss, 0, TOP, 0, true, p, 0, t, t, map[]);
    var m2 := Leaves(p, |code|, ReturnNil, u, u, map[]);
    var m := SpanThen(p, 0, |code|, |p.code|, t, u, u, m1, m2, map[]);
    ChunkSpans(p, u, m);
  }

  // ----- constants -----

  lemma {:induction false} SafeConstsE(e: Expr)
    requires OrderlyE(e)
    ensures SafeVs(ConstsE(e))
    decreases e
  {
    hide SafeV;
    match e
    case Unary(_, a) => SafeConstsE(a);
    case Binary(_, a, b) => SafeConstsE(a); SafeConstsE(b);
    case Field(o, _) => SafeConstsE(o); SafeText(e.field);
    case Call(callee, args) =>
      SafeConstsEs(args);
      if !IsBuiltinCall(e) { SafeConstsE(callee); }
    case ArrayLit(es) => SafeConstsEs(es);
    case MapLit(ps) => SafeConstsPs(ps);
    case StructLit(t, ps) => SafeConstsPs(ps); SafeText(t);
    case Index(a, i) => SafeConstsE(a); SafeConstsE(i);
    case Lambda(fn) => SafeFn(fn);
    case ResultLit(_, a) => SafeConstsE(a);
    case Try(a) => SafeConstsE(a);
    case IntLit(n) => SafeScalar(IntV(n));
    case FloatLit(x) => SafeScalar(FloatV(x));
    case StrLit(s) => SafeText(s);
    case Ident(s) => SafeText(s);
    case BoolLit(_) =>
  }

  lemma SafeText(s: string)
    ensures SafeV(StrV(s))
  {
  }

  lemma SafeScalar(v: Val)
    requires v.IntV? || v.FloatV?
    ensures SafeV(v)
  {
  }

  lemma SafeFn(fn: FnDecl)
    requires OrderlyFn(fn)
    ensures SafeV(FnV(fn, []))
  {
  }

  lemma {:induction false} SafeConstsEs(es: seq<Expr>)
    requires OrderlyEs(es)
    ensures SafeVs(ConstsEs(es))
    decreases es
  {
    hide SafeV, ConstsE, OrderlyE;
    if es != [] {
      SafeConstsE(es[0]);
      SafeConstsEs(es[1..]);
    }
  }

  lemma {:induction false} SafeConstsPs(ps: seq<Entry>)
    requires OrderlyPs(ps)
    ensures SafeVs(ConstsPs(ps))
    decreases ps
  {
    hide SafeV, ConstsE, OrderlyE;
    if ps != [] {
      SafeText(ps[0].key);
      SafeConstsE(ps[0].value);
      SafeConstsPs(ps[1..]);
    }
  }

  lemma {:induction false} SafeConstsOpt(e: Option<Expr>)
    requires OrderlyOpt(e)
    ensures SafeVs(ConstsOpt(e))
  {
    hide SafeV, ConstsE, OrderlyE;
    if e.Some? { SafeConstsE(e.value); }
  }

  lemma {:induction false} SafeConstsS(s: Stmt, inLoop: bool)
    requires OrderlyS(s, inLoop)
    ensures SafeVs(ConstsS(s))
    decreases s
  {
    hide SafeV, ConstsE, OrderlyE, ConstsOpt, OrderlyOpt, ConstsB, OrderlyB, OrderlyFn;
    match s
    case ExprStmt(_, e) => SafeConstsE(e);
    case Decl(_, _, x, init) => SafeConstsOpt(init); SafeText(x);
    case Assign(_, x, e) => SafeConstsE(e); SafeText(x);
    case Return(_, e) => SafeConstsOpt(e);
    case If(chain) => SafeConstsIf(chain, inLoop);
    case While(_, cond, body) => SafeConstsE(cond); SafeConstsB(body, true);
    case For(_, x, iter, body) => SafeConstsE(iter); SafeText(x); SafeConstsB(body, true);
    case FnStmt(_, decl) => SafeFn(decl); SafeText(decl.fname);
    case Break(_) =>
    case Continue(_) =>
    case StructDecl(_) =>
  }

  lemma {:induction false} SafeConstsSs(ss: seq<Stmt>, inLoop: bool)
    requires OrderlySs(ss, inLoop)
    ensures SafeVs(ConstsSs(ss))
    decreases ss
  {
    hide SafeV, ConstsS, OrderlyS;
    if ss != [] {
      SafeConstsS(ss[0], inLoop);
      SafeConstsSs(ss[1..], inLoop);
    }
  }

  lemma {:induction false} SafeConstsB(b: Block, inLoop: bool)
    requires OrderlyB(b, inLoop)
    ensures SafeVs(ConstsB(b))
    decreases b
  {
    hide SafeV, ConstsSs, OrderlySs;
    SafeConstsSs(b.stmts, inLoop);
  }

  lemma {:induction false} SafeConstsIf(c: IfChain, inLoop: bool)
    requires OrderlyIf(c, inLoop)
    ensures SafeVs(ConstsIf(c))
    decreases c
  {
    hide SafeV, ConstsE, OrderlyE, ConstsB, OrderlyB;
    SafeConstsE(c.cond);
    SafeConstsB(c.thn, inLoop);
    match c.els
    case NoElse =>
    case ElseBlock(b) => SafeConstsB(b, inLoop);
    case ElseIf(c1) => SafeConstsIf(c1, inLoop);
  }

  // ----- whole programs -----

  lemma AllFunctionsCheck()
    ensures FunctionsCheck()
  {
    hide OrderlyFn, ChunkChecks, ConstsB, OrderlyB, FnCode;
    forall fn: FnDecl | OrderlyFn(fn) ensures ChunkChecks(FnProg(fn)) && SafeConsts(FnProg(fn)) {
      FnChecks(fn);
      OrderlyParts(fn);
      SafeConstsB(fn.body, false);
    }
  }

  /** No run of an orderly program gets stuck, wherever its breaks and continues sit. */
  lemma OrderlyNeverStuck(w: World, fuel: nat, ss: seq<Stmt>)
    requires SafeWorld(w) && OrderlyProgram(ss)
    ensures Run(w, fuel, Compiled(ss), 0, START) != Faulted(Stuck)
  {
    hide Run, OrderlySs, ConstsSs, ProgramCode, ChunkChecks, InstrChecks, Follows, FunctionsCheck, SafeWorld, SafeV;
    var p := Compiled(ss);
    ProgramChecks(ss);
    ProgramSafe(ss);
    AllFunctionsCheck();
    var m := ChunkPoints(p);
    EmptyStands(START, [], 0);
    CheckedRun(w, fuel, p, m, 0, START, [], 0);
  }

  lemma ChunkPoints(p: Prog) returns (m: Points)
    requires ChunkChecks(p)
    ensures Checks(p, 0, |p.code|, m, map[]) && 0 in m && m[0] == Point([], 0)
  {
    hide InstrChecks;
    m :| Checks(p, 0, |p.code|, m, map[]) && m[0] == Point([], 0);
  }

  /** Where an instruction may go on besides the next one. */
  function Target(i: Instr, next: nat): Option<int> {
    match i
    case Jump(off) => Some(next + off)
    case JumpBack(off) => Some(next - off)
    case JumpIf(_, off) => Some(next + off)
    case IterNext(off) => Some(next + off)
    case _ => None
  }

  lemma TargetLands(p: Prog, i: Instr, next: nat, t: Point, m: Points)
    requires Fits(i) && LandAll(Flow(p, i, next, t), m, map[])
    ensures Target(i, next).Some? ==> Target(i, next).value in m
  {
    hide Below, Swap, HasValues;
  }

  ghost predicate LeadsToBoundary(code: seq<Byte>, to: Option<int>) {
    to.Some? ==> to.value >= 0 && Boundary(code, 0, to.value)
  }

  /** Decoded from its start on, an orderly program's code is a row of instructions up to
      its end, and every jump in it, back-patched breaks included, leads to one of them. */
  lemma JumpsLand(ss: seq<Stmt>, q: nat)
    requires OrderlyProgram(ss) && Boundary(ProgramCode(ss), 0, q)
    ensures var code := ProgramCode(ss);
      && q <= |code| && Boundary(code, 0, |code|)
      && (q < |code| ==>
        Decode(code, q).Some?
        && LeadsToBoundary(code, Target(Decode(code, q).value, q + Size(Decode(code, q).value))))
  {
    hide OrderlyProgram, ProgramCode, ProgramConsts, ChunkChecks, Decode, Flow, LandAll, Follows, Boundary;
    var p := Compiled(ss);
    ProgramChecks(ss);
    var m := ChunkPoints(p);
    PointsAreBoundaries(p, 0, m, map[], q);
    PointsAreBoundaries(p, 0, m, map[], |p.code|);
    if q < |p.code| {
      assert InstrChecks(p, q, m, map[]);
      var i := Decode(p.code, q).value;
      TargetLands(p, i, q + Size(i), m[q], m);
      var to := Target(i, q + Size(i));
      if to.Some? { PointsAreBoundaries(p, 0, m, map[], to.value); }
    }
  }

  // ----- one stack height for every position -----

  /** The call of fv ends, and leaves its caller s in s1. */
  ghost predicate Returns(w: World, n: nat, fv: Val, args: seq<Val>, s: State, s1: State) {
    && fv.FnV? && |fv.decl.params| == |args|
    && var r := Run(w, n, FnProg(fv.decl), 0, EnterCall(fv, args, s));
       r.Halted? && LeaveCall(fv, s, r.st).Some?
       && (var back := LeaveCall(fv, s, r.st).value; s1 == back.1.(stack := back.1.stack + [back.0]))
  }

  /** One instruction of a chunk, a call and all it does being one. */
  ghost predicate Goes(w: World, p: Prog, ip: nat, s: State, ip1: nat, s1: State) {
    && ip < |p.code| && Decode(p.code, ip).Some?
    && var i := Decode(p.code, ip).value; var next := ip + Size(i);
       match Step(w, p, i, next, s)
       case Next(q, t) => ip1 == q && s1 == t
       case Invoke(fv, args, t) => ip1 == next && exists n: nat :: Returns(w, n, fv, args, t, s1)
       case _ => false
  }

  /** The run of a chunk that begins in s comes by ip1 in state s1 after n instructions. */
  ghost predicate Visits(w: World, p: Prog, n: nat, s: State, ip1: nat, s1: State)
    decreases n
  {
    if n == 0 then ip1 == 0 && s1 == s
    else exists q: nat, t: State :: Visits(w, p, n - 1, s, q, t) && Goes(w, p, q, t, ip1, s1)
  }

  lemma GoesOn(w: World, p: Prog, m: Points, ip: nat, s: State, ip1: nat, s1: State, low: seq<Val>, floor: nat)
    requires Checks(p, 0, |p.code|, m, map[]) && ip in m && Stands(s, m[ip], low, floor) && SafeState(s)
    requires SafeWorld(w) && SafeConsts(p) && FunctionsCheck() && Goes(w, p, ip, s, ip1, s1)
    ensures ip1 in m && Stands(s1, m[ip1], low, floor) && SafeState(s1)
  {
    hide Checks, Stands, SafeState, SafeWorld, SafeConsts, FunctionsCheck, StepsOn, LandAll, Flow, Step, Decode,
      Returns, Below;
    OnBoundary(p, m, ip, w, s, low, floor);
    var i := Decode(p.code, ip).value;
    var next := ip + Size(i);
    var e := Flow(p, i, next, m[ip]);
    match Step(w, p, i, next, s)
    case Next(q, t) => NextOnBoundary(e, m, q, t, low, floor);
    case Invoke(fv, args, t) =>
      InvokeParts(w, p, i, next, s, m[ip], fv, args, t, low, floor);
      CallLands(e, m);
      var n: nat :| Returns(w, n, fv, args, t, s1);
      ReturnStands(w, n, fv, args, t, s1, e.pt, m[ip1], low, floor);
  }

  lemma ReturnStands(w: World, n: nat, fv: Val, args: seq<Val>, t: State, s1: State, pt: Point, u: Point, low: seq<Val>,
      floor: nat)
    requires Returns(w, n, fv, args, t, s1) && SafeV(fv) && SafeVs(args) && SafeState(t) && SafeWorld(w)
    requires FunctionsCheck()
    requires pt.shape != [] && pt.shape[|pt.shape| - 1] == Any && Below(pt, u)
    requires Stands(t, pt.(shape := pt.shape[..|pt.shape| - 1]), low, floor)
    ensures Stands(s1, u, low, floor) && SafeState(s1)
  {
    hide Stands, SafeState, SafeV, SafeVs, SafeWorld, FunctionsCheck, RunsClean, FnProg, EnterCall, LeaveCall, Run,
      Below;
    CalleeRun(w, n, fv, args, t);
    FramesKept(w, n, FnProg(fv.decl), 0, EnterCall(fv, args, t));
    CallComesBack(fv, args, t, Run(w, n, FnProg(fv.decl), 0, EnterCall(fv, args, t)).st, pt, u, low, floor,
      CallFloor(fv, t));
  }

  lemma {:induction false} VisitsStand(w: World, p: Prog, m: Points, n: nat, s: State, ip: nat, s1: State)
    requires Checks(p, 0, |p.code|, m, map[]) && m[0] == Point([], 0) && SafeState(s)
    requires SafeWorld(w) && SafeConsts(p) && FunctionsCheck() && Visits(w, p, n, s, ip, s1)
    ensures ip in m && Stands(s1, m[ip], s.stack, |s.env|) && SafeState(s1)
    decreases n
  {
    hide InstrChecks, Follows, SafeState, SafeWorld, SafeConsts, FunctionsCheck, Goes;
    if n == 0 {
      EmptyStands(s, s.stack, |s.env|);
    } else {
      var q: nat, t: State :| Visits(w, p, n - 1, s, q, t) && Goes(w, p, q, t, ip, s1);
      VisitsStand(w, p, m, n - 1, s, q, t);
      hide Checks, Stands;
      GoesOn(w, p, m, q, t, ip, s1, s.stack, |s.env|);
    }
  }

  lemma StandsHeight(s: State, t: Point, low: seq<Val>, floor: nat)
    requires Stands(s, t, low, floor)
    ensures |s.stack| == |low| + Height(t.shape)
  {
    hide Fills, Height;
    FillsHeight(t.shape, s.stack[|low|..]);
  }

  /** p is the chunk of an orderly program or function. */
  ghost predicate OrderlyChunk(p: Prog) {
    (exists ss :: OrderlyProgram(ss) && p == Compiled(ss)) || (exists fn :: OrderlyFn(fn) && p == FnProg(fn))
  }

  lemma OrderlyChunkChecks(p: Prog)
    requires OrderlyChunk(p)
    ensures ChunkChecks(p) && SafeConsts(p)
  {
    hide ChunkChecks, OrderlyFn, ConstsSs, OrderlySs, ProgramCode, FnProg, SafeConsts;
    AllFunctionsCheck();
    if ss :| OrderlyProgram(ss) && p == Compiled(ss) {
      ProgramChecks(ss);
      ProgramSafe(ss);
    }
  }

  lemma ProgramSafe(ss: seq<Stmt>)
    requires OrderlyProgram(ss)
    ensures SafeConsts(Compiled(ss))
  {
    hide ConstsSs, OrderlySs, SafeV;
    SafeConstsSs(ss, false);
  }

  /** Whatever way two runs of a chunk take to the same position, and whatever lies on
      the stack below them, they have pushed equally many values when they come by. */
  lemma SameHeight(w: World, p: Prog, ip: nat, n1: nat, a: State, s1: State, n2: nat, b: State, s2: State)
    requires SafeWorld(w) && OrderlyChunk(p) && SafeState(a) && SafeState(b)
    requires Visits(w, p, n1, a, ip, s1) && Visits(w, p, n2, b, ip, s2)
    ensures |s1.stack| - |a.stack| == |s2.stack| - |b.stack| >= 0
    ensures a.stack <= s1.stack
  {
    hide OrderlyChunk, ChunkChecks, SafeState, SafeWorld, SafeConsts, FunctionsCheck, Visits, InstrChecks, Follows,
      Fills, Height;
    OrderlyChunkChecks(p);
    AllFunctionsCheck();
    var m := ChunkPoints(p);
    VisitsStand(w, p, m, n1, a, ip, s1);
    VisitsStand(w, p, m, n2, b, ip, s2);
    StandsHeight(s1, m[ip], a.stack, |a.env|);
    StandsHeight(s2, m[ip], b.stack, |b.env|);
  }
}
