/** A static check of machine code, in the manner of a bytecode verifier: one
    stack shape and one count of bindings for every instruction boundary, and
    every jump on a boundary.  Code that passes it never gets stuck. */
module Shapes {
  import opened Ast
  import opened Values
  import opened Bytecode
  import opened CodeGen
  import opened Machine
  import opened Places

  // ----- shapes -----

  /** A value, a string, or the three values of an iterator. */
  datatype Slot = Any | Text | Iter

  type Shape = seq<Slot>

  /** What holds at a position: the slots above the frame's base, and how many
      bindings there are at least beyond those the frame began with. */
  datatype Point = Point(shape: Shape, locals: nat)

  predicate SlotBelow(u: Slot, t: Slot) { u == t || (u == Text && t == Any) }

  /** What holds at u is enough for t. */
  predicate Below(u: Point, t: Point) {
    && |u.shape| == |t.shape| && u.locals >= t.locals
    && forall j :: 0 <= j < |u.shape| ==> SlotBelow(u.shape[j], t.shape[j])
  }

  /** The n topmost slots are single values. */
  predicate HasValues(s: Shape, n: int) {
    0 <= n <= |s| && forall j :: |s| - n <= j < |s| ==> s[j] != Iter
  }

  /** The topmost slots are n keys and values in turn. */
  predicate HasEntries(s: Shape, n: int) {
    HasValues(s, 2 * n) && forall j :: 0 <= j < n ==> s[|s| - 2 * n + 2 * j] == Text
  }

  predicate HasIter(s: Shape) { s != [] && s[|s| - 1] == Iter }

  /** n slots replaced by others. */
  function Swap(t: Point, n: int, add: Shape): Point
    requires 0 <= n <= |t.shape|
  {
    t.(shape := t.shape[..|t.shape| - n] + add)
  }

  // ----- what an instruction asks for and leaves -----

  /** Ill: the instruction may not stand here.  Ends: it leaves the chunk. */
  datatype Edges = Ill | Ends | One(ip: nat, pt: Point) | Two(ip: nat, pt: Point, ip2: nat, pt2: Point)

  function Flow(p: Prog, i: Instr, next: nat, t: Point): Edges
    requires Fits(i)
  {
    match i
    case Const(k) =>
      if k >= |p.consts| then Ill else One(next, Swap(t, 0, [if p.consts[k].StrV? then Text else Any]))
    case PushNil => One(next, Swap(t, 0, [Any]))
    case PushBool(_) => One(next, Swap(t, 0, [Any]))
    case BinaryOp(_) => Takes(t, 2, next)
    case UnaryOp(_) => Takes(t, 1, next)
    case IndexOp => Takes(t, 2, next)
    case MakeResult(_) => Takes(t, 1, next)
    case TryOp => Takes(t, 1, next)
    case GetField(k) => if IsName(p, k) then Takes(t, 1, next) else Ill
    case GetVar(k) => if IsName(p, k) then One(next, Swap(t, 0, [Any])) else Ill
    case SetVar(k) => if IsName(p, k) && HasValues(t.shape, 1) then One(next, Swap(t, 1, [])) else Ill
    case Define(_, k) =>
      if IsName(p, k) && HasValues(t.shape, 1) then One(next, Point(Swap(t, 1, []).shape, t.locals + 1)) else Ill
    case Pop => if HasValues(t.shape, 1) then One(next, Swap(t, 1, [])) else Ill
    case PopScope(n) => if n <= t.locals then One(next, Point(t.shape, t.locals - n)) else Ill
    case Jump(off) => One(next + off, t)
    case JumpBack(off) => if off <= next then One(next - off, t) else Ill
    case JumpIf(_, off) => if HasValues(t.shape, 1) then Two(next, Swap(t, 1, []), next + off, Swap(t, 1, [])) else Ill
    case Closure(k) => if k < |p.consts| && p.consts[k].FnV? then One(next, Swap(t, 0, [Any])) else Ill
    case CallOp(n) => Takes(t, n + 1, next)
    case CallBuiltin(_, n) => if n <= MAX_ARGS then Takes(t, n, next) else Ill
    case ReturnOp => if HasValues(t.shape, 1) then Ends else Ill
    case ReturnNil => Ends
    case MakeArray(n) => Takes(t, n, next)
    case MakeMap(n) => if HasEntries(t.shape, n) then Takes(t, 2 * n, next) else Ill
    case MakeStruct(k, n) =>
      if IsName(p, k) && n <= MAX_STRUCT_FIELDS && HasEntries(t.shape, n) then Takes(t, 2 * n, next) else Ill
    case IterSetup => if HasValues(t.shape, 1) then One(next, Swap(t, 1, [Iter])) else Ill
    case IterNext(off) => if HasIter(t.shape) then Two(next, Swap(t, 0, [Any]), next + off, t) else Ill
    case IterCleanup => if HasIter(t.shape) then One(next, Swap(t, 1, [])) else Ill
    case Line(_) => One(next, t)
  }

  /** n values become one. */
  function Takes(t: Point, n: int, next: nat): Edges {
    if HasValues(t.shape, n) then One(next, Swap(t, n, [Any])) else Ill
  }

  // ----- checked code -----

  type Points = map<nat, Point>

  /** The edge leads to a boundary of the fragment or to one of its exits, and
      brings what is asked for there. */
  predicate Lands(q: nat, u: Point, m: Points, x: Points) {
    (q in m && Below(u, m[q])) || (q in x && Below(u, x[q]))
  }

  predicate LandAll(e: Edges, m: Points, x: Points) {
    match e
    case Ill => false
    case Ends => true
    case One(q, u) => Lands(q, u, m, x)
    case Two(q, u, q2, u2) => Lands(q, u, m, x) && Lands(q2, u2, m, x)
  }

  predicate InstrChecks(p: Prog, ip: nat, m: Points, x: Points)
    requires ip in m
  {
    ip < |p.code| && Decode(p.code, ip).Some?
    && var i := Decode(p.code, ip).value;
       ip + Size(i) in m && LandAll(Flow(p, i, ip + Size(i), m[ip]), m, x)
  }

  /** q lies right behind an instruction of the fragment. */
  ghost predicate Follows(p: Prog, q: nat, m: Points) {
    exists z: nat :: z in m && EndsAt(p, z, q)
  }

  predicate EndsAt(p: Prog, z: nat, q: nat) {
    z < |p.code| && Decode(p.code, z).Some? && z + Size(Decode(p.code, z).value) == q
  }

  /** m gives every instruction boundary from a to b, reached or not, its point, and
      nothing else one; x are the exits. */
  ghost predicate Checks(p: Prog, a: nat, b: nat, m: Points, x: Points) {
    && a in m && b in m && (forall q :: q in m ==> a <= q <= b)
    && (forall q :: q in m && q < b ==> InstrChecks(p, q, m, x))
    && forall q :: q in m && a < q ==> Follows(p, q, m)
  }

  /** A whole chunk, entered with nothing on its part of the stack. */
  ghost predicate ChunkChecks(p: Prog) {
    exists m: Points :: Checks(p, 0, |p.code|, m, map[]) && m[0] == Point([], 0)
  }

  // ----- putting checked fragments together -----

  lemma LandMore(e: Edges, m: Points, m1: Points, x: Points, x1: Points)
    requires LandAll(e, m, x)
    requires forall q :: q in m ==> q in m1 && m1[q] == m[q]
    requires forall q :: q in x ==> (q in m1 && m1[q] == x[q]) || (q in x1 && x1[q] == x[q])
    ensures LandAll(e, m1, x1)
  {
    hide Below;
  }

  lemma StillChecks(p: Prog, q: nat, m: Points, m1: Points, x: Points, x1: Points)
    requires q in m && InstrChecks(p, q, m, x)
    requires forall z :: z in m ==> z in m1 && m1[z] == m[z]
    requires forall z :: z in x ==> (z in m1 && m1[z] == x[z]) || (z in x1 && x1[z] == x[z])
    ensures q in m1 && InstrChecks(p, q, m1, x1)
  {
    hide LandAll, Flow;
    var i := Decode(p.code, q).value;
    LandMore(Flow(p, i, q + Size(i), m[q]), m, m1, x, x1);
  }

  lemma StillFollows(p: Prog, q: nat, m: Points, m1: Points)
    requires Follows(p, q, m) && forall z :: z in m ==> z in m1
    ensures Follows(p, q, m1)
  {
    hide EndsAt;
  }

  /** Two fragments one after the other. */
  lemma Then(p: Prog, a: nat, b: nat, c: nat, m1: Points, m2: Points, x: Points) returns (m: Points)
    requires Checks(p, a, b, m1, x) && Checks(p, b, c, m2, x) && m1[b] == m2[b]
    ensures Checks(p, a, c, m, x) && m[a] == m1[a] && m[c] == m2[c]
    ensures forall q :: q in m1 ==> q in m && m[q] == m1[q]
    ensures forall q :: q in m2 ==> q in m && m[q] == m2[q]
  {
    hide InstrChecks, Follows;
    m := m1 + m2;
    assert forall q :: q in m <==> q in m1 || q in m2;
    assert forall q :: q in m2 ==> m[q] == m2[q];
    forall q | q in m1 ensures m[q] == m1[q] {
      if q in m2 { assert q == b; }
    }
    forall q | q in m && q < c ensures InstrChecks(p, q, m, x) {
      StillChecks(p, q, if q in m1 && q < b then m1 else m2, m, x, x);
    }
    forall q | q in m && a < q ensures Follows(p, q, m) {
      StillFollows(p, q, if q in m1 then m1 else m2, m);
    }
  }

  /** Exits that the fragment itself contains are exits no more. */
  lemma Discharge(p: Prog, a: nat, b: nat, m: Points, x: Points, x1: Points)
    requires Checks(p, a, b, m, x)
    requires forall q :: q in x ==> (q in m && m[q] == x[q]) || (q in x1 && x1[q] == x[q])
    ensures Checks(p, a, b, m, x1)
  {
    hide InstrChecks, Follows;
    forall q | q in m && q < b ensures InstrChecks(p, q, m, x1) { StillChecks(p, q, m, m, x, x1); }
  }

  /** One instruction. */
  lemma Alone(p: Prog, ip: nat, i: Instr, t: Point, u: Point, x: Points) returns (m: Points)
    requires Fits(i) && At(p.code, ip, Enc(i))
    requires LandAll(Flow(p, i, ip + Size(i), t), map[ip + Size(i) := u], x)
    ensures Checks(p, ip, ip + Size(i), m, x) && m[ip] == t && m[ip + Size(i)] == u
  {
    hide LandAll, Flow, Enc, Decode;
    DecodeEnc(p.code, ip, i);
    m := map[ip := t, ip + Size(i) := u];
    LandMore(Flow(p, i, ip + Size(i), t), map[ip + Size(i) := u], m, x, x);
    assert EndsAt(p, ip, ip + Size(i));
  }

  /** A fragment that is entered at t and left behind at u. */
  ghost predicate Spans(p: Prog, a: nat, b: nat, t: Point, u: Point, m: Points, x: Points) {
    Checks(p, a, b, m, x) && m[a] == t && m[b] == u
  }

  lemma SpanThen(p: Prog, a: nat, b: nat, c: nat, t: Point, u: Point, v: Point, m1: Points, m2: Points, x: Points)
      returns (m: Points)
    requires Spans(p, a, b, t, u, m1, x) && Spans(p, b, c, u, v, m2, x)
    ensures Spans(p, a, c, t, v, m, x)
    ensures forall q :: q in m1 ==> q in m && m[q] == m1[q]
    ensures forall q :: q in m2 ==> q in m && m[q] == m2[q]
  {
    hide Checks;
    m := Then(p, a, b, c, m1, m2, x);
  }

  /** One instruction that goes on behind itself. */
  lemma Straight(p: Prog, ip: nat, i: Instr, t: Point, u: Point, u1: Point, x: Points) returns (m: Points)
    requires Fits(i) && At(p.code, ip, Enc(i)) && Flow(p, i, ip + Size(i), t) == One(ip + Size(i), u1) && Below(u1, u)
    ensures Spans(p, ip, ip + Size(i), t, u, m, x)
  {
    hide Flow, Enc, Checks, Below;
    m := Alone(p, ip, i, t, u, x);
  }

  lemma BelowSelf(t: Point)
    ensures Below(t, t)
  {
  }

  // ----- checked code does not get stuck -----

  /** The stack cells from a frame's base on are of the shape. */
  ghost predicate Fills(s: Shape, vs: seq<Val>)
    decreases |s|
  {
    if s == [] then vs == []
    else
      var n, rest := |vs|, s[..|s| - 1];
      match s[|s| - 1]
      case Any => n >= 1 && Fills(rest, vs[..n - 1])
      case Text => n >= 1 && vs[n - 1].StrV? && Fills(rest, vs[..n - 1])
      case Iter => n >= 3 && IsIter(vs[n - 3], vs[n - 2], vs[n - 1]) && Fills(rest, vs[..n - 3])
  }

  /** An array, its length, and how many elements have been taken. */
  predicate IsIter(arr: Val, len: Val, idx: Val) {
    arr.ArrV? && len == IntV(|arr.elems|) && idx.IntV? && idx.i >= 0
  }

  lemma {:induction false} FillsBelow(s: Shape, t: Shape, vs: seq<Val>)
    requires Fills(s, vs) && |s| == |t| && forall j :: 0 <= j < |s| ==> SlotBelow(s[j], t[j])
    ensures Fills(t, vs)
    decreases |s|
  {
    if s != [] {
      var n := |s| - 1;
      FillsBelow(s[..n], t[..n], vs[..|vs| - if s[n] == Iter then 3 else 1]);
    }
  }

  lemma {:induction false} FillsTop(s: Shape, vs: seq<Val>, n: nat)
    requires Fills(s, vs) && HasValues(s, n)
    ensures n <= |vs| && Fills(s[..|s| - n], vs[..|vs| - n])
    decreases n
  {
    if n == 0 {
      assert s[..|s|] == s && vs[..|vs|] == vs;
    } else {
      var rest, below := s[..|s| - 1], vs[..|vs| - 1];
      assert Fills(rest, below) by { assert s[|s| - 1] != Iter; }
      assert HasValues(rest, n - 1);
      FillsTop(rest, below, n - 1);
      assert rest[..|rest| - (n - 1)] == s[..|s| - n] && below[..|below| - (n - 1)] == vs[..|vs| - n];
    }
  }

  /** The cell under j others. */
  lemma FillsCell(s: Shape, vs: seq<Val>, j: nat)
    requires Fills(s, vs) && HasValues(s, j + 1)
    ensures j < |vs| && (s[|s| - 1 - j] == Text ==> vs[|vs| - 1 - j].StrV?)
  {
    assert HasValues(s, j);
    FillsTop(s, vs, j);
    assert s[..|s| - j][|s| - j - 1] == s[|s| - 1 - j];
  }

  lemma FillsPush(s: Shape, vs: seq<Val>, v: Val)
    requires Fills(s, vs)
    ensures Fills(s + [Any], vs + [v])
    ensures v.StrV? ==> Fills(s + [Text], vs + [v])
  {
    assert (s + [Any])[..|s|] == s && (s + [Text])[..|s|] == s && (vs + [v])[..|vs|] == vs;
  }

  lemma FillsIter(s: Shape, vs: seq<Val>, arr: Val, len: Val, idx: Val)
    requires Fills(s, vs) && IsIter(arr, len, idx)
    ensures Fills(s + [Iter], vs + [arr, len, idx])
  {
    assert (s + [Iter])[..|s|] == s && (vs + [arr, len, idx])[..|vs|] == vs;
  }

  lemma {:induction false} UnzipTexts(vs: seq<Val>, strip: bool)
    requires |vs| % 2 == 0 && forall j :: 0 <= j < |vs| / 2 ==> vs[2 * j].StrV?
    ensures Unzip(vs, strip).Some?
    decreases |vs|
  {
    if vs != [] {
      assert vs[2 * 0].StrV?;
      var rest := vs[2..];
      forall j | 0 <= j < |rest| / 2 ensures rest[2 * j].StrV? { assert vs[2 * (j + 1)].StrV?; }
      UnzipTexts(rest, strip);
    }
  }

  lemma EntriesUnzip(s: Shape, low: seq<Val>, top: seq<Val>, n: nat, strip: bool)
    requires Fills(s, low + top) && HasEntries(s, n) && |top| == 2 * n && |top| % 2 == 0
    ensures Unzip(top, strip).Some?
  {
    var vs := low + top;
    forall j | 0 <= j < n ensures top[2 * j].StrV? {
      var d := 2 * n - 1 - 2 * j;
      assert HasValues(s, d + 1);
      FillsCell(s, vs, d);
      assert s[|s| - 2 * n + 2 * j] == Text;
      assert vs[|low| + 2 * j] == top[2 * j];
    }
    UnzipTexts(top, strip);
  }

  // ----- instruction boundaries -----

  /** q is met when the code is decoded from a on, one instruction after the other. */
  ghost predicate Boundary(code: seq<Byte>, a: nat, q: nat)
    decreases |code| - a
  {
    a == q || (a < |code| && Decode(code, a).Some? && Boundary(code, a + Size(Decode(code, a).value), q))
  }

  lemma {:induction false} BoundaryNext(code: seq<Byte>, a: nat, z: nat)
    requires Boundary(code, a, z) && z < |code| && Decode(code, z).Some?
    ensures Boundary(code, a, z + Size(Decode(code, z).value))
    decreases |code| - a
  {
    hide Decode;
    if a != z { BoundaryNext(code, a + Size(Decode(code, a).value), z); }
  }

  /** The positions that a check gives points to are exactly the boundaries. */
  lemma {:induction false} PointsAreBoundaries(p: Prog, a: nat, m: Points, x: Points, q: nat)
    requires Checks(p, a, |p.code|, m, x) && a <= |p.code|
    ensures q in m <==> Boundary(p.code, a, q)
  {
    hide InstrChecks, Follows, Decode, Boundary;
    if q in m { PointIsBoundary(p, a, m, x, q); }
    if Boundary(p.code, a, q) { BoundaryIsPoint(p, a, m, x, a, q); }
  }

  lemma PointBefore(p: Prog, a: nat, m: Points, x: Points, q: nat) returns (z: nat)
    requires Checks(p, a, |p.code|, m, x) && q in m && q != a
    ensures z in m && z < q && EndsAt(p, z, q)
  {
    hide InstrChecks, Decode;
    assert Follows(p, q, m);
    z :| z in m && EndsAt(p, z, q);
  }

  lemma {:induction false} PointIsBoundary(p: Prog, a: nat, m: Points, x: Points, q: nat)
    requires Checks(p, a, |p.code|, m, x) && q in m
    ensures Boundary(p.code, a, q)
    decreases q
  {
    hide Checks, Decode, Size;
    if q != a {
      var z := PointBefore(p, a, m, x, q);
      PointIsBoundary(p, a, m, x, z);
      BoundaryNext(p.code, a, z);
    }
  }

  lemma {:induction false} BoundaryIsPoint(p: Prog, a: nat, m: Points, x: Points, b: nat, q: nat)
    requires Checks(p, a, |p.code|, m, x) && b in m && Boundary(p.code, b, q)
    ensures q in m
    decreases |p.code| - b
  {
    hide Decode, Follows, LandAll, Flow;
    if b != q {
      assert InstrChecks(p, b, m, x);
      BoundaryIsPoint(p, a, m, x, b + Size(Decode(p.code, b).value), q);
    }
  }

  // ----- stack heights -----

  /** How many cells a shape takes. */
  function Height(s: Shape): nat
    decreases |s|
  {
    if s == [] then 0 else Height(s[..|s| - 1]) + if s[|s| - 1] == Iter then 3 else 1
  }

  lemma {:induction false} FillsHeight(s: Shape, vs: seq<Val>)
    requires Fills(s, vs)
    ensures |vs| == Height(s)
    decreases |s|
  {
    if s != [] {
      var n := if s[|s| - 1] == Iter then 3 else 1;
      FillsHeight(s[..|s| - 1], vs[..|vs| - n]);
    }
  }
}
