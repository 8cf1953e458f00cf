/** What the operators of the language compute (src/interpreter.c, src/vm.c), in the words
    of arithmetic and of order. */
module Operators {
  import opened Ast
  import opened Values
  import opened Semantics
  import opened Machine
  import opened Simulation

  // ----- integers -----

  /** q and r are the quotient toward zero and the remainder with the sign of a. */
  predicate Divides(a: int, b: int, q: int, r: int) {
    && a == q * b + r
    && (if b > 0 then -b < r < b else b < r < -b)
    && (a >= 0 ==> r >= 0) && (a <= 0 ==> r <= 0)
  }

  lemma MagnitudeIs(a: nat, b: nat)
    requires b > 0
    ensures var q := a / b; a == q * b + a % b && 0 <= a % b < b
  {
  }

  lemma Signs(q: int, b: int)
    ensures (-q) * b == -(q * b) && q * (-b) == -(q * b) && (-q) * (-b) == q * b
  {
  }

  /** Division cuts toward zero, and the remainder fits it. */
  lemma DivisionIs(a: int, b: int)
    requires b != 0
    ensures Divides(a, b, TruncDiv(a, b), TruncMod(a, b))
  {
    var x: nat := if a < 0 then -a else a;
    var y: nat := if b < 0 then -b else b;
    MagnitudeIs(x, y);
    Signs(x / y, y);
    assert b * TruncDiv(a, b) == TruncDiv(a, b) * b;
  }

  /** There is only one such pair. */
  lemma DivisionIsOne(a: int, b: int, q: int, r: int, q1: int, r1: int)
    requires b != 0 && Divides(a, b, q, r) && Divides(a, b, q1, r1)
    ensures q == q1 && r == r1
  {
    var d := q - q1;
    assert d * b == q * b - q1 * b == r1 - r;
    Small(d, b, r1 - r);
  }

  lemma Small(d: int, b: int, x: int)
    requires b != 0 && d * b == x && (if b > 0 then -b < x < b else b < x < -b)
    ensures d == 0
  {
    var y := if b > 0 then b else -b;
    Signs(d, b);
    if d > 0 { AtLeast(d, y); }
    if d < 0 { AtLeast(-d, y); }
  }

  lemma AtLeast(d: int, b: int)
    requires d > 0 && b > 0
    ensures d * b >= b
  {
  }

  predicate Ordered(op: BinOp) { op == Lt || op == Gt || op == Le || op == Ge }

  /** The comparisons of any order, from whether it is less and whether it is equal. */
  predicate Compares(op: BinOp, less: bool, equal: bool) {
    match op
    case Eq => equal
    case Neq => !equal
    case Lt => less
    case Le => less || equal
    case Gt => !less && !equal
    case Ge => !less
    case _ => false
  }

  predicate IsComparison(op: BinOp) { op == BinOp.Eq || op == BinOp.Neq || Ordered(op) }

  /** Both evaluators on two integers. */
  lemma IntOperators(w: World, a: int, b: int)
    ensures TreeBinary(w, Add, IntV(a), IntV(b)) == Ok(IntV(a + b))
    ensures TreeBinary(w, Sub, IntV(a), IntV(b)) == Ok(IntV(a - b))
    ensures TreeBinary(w, Mul, IntV(a), IntV(b)) == Ok(IntV(a * b))
    ensures b == 0 ==> TreeBinary(w, Div, IntV(a), IntV(b)) == Fail(DivByZero)
    ensures b == 0 ==> TreeBinary(w, Mod, IntV(a), IntV(b)) == Fail(DivByZero)
    ensures b != 0 ==>
      exists q, r :: (Divides(a, b, q, r)
        && TreeBinary(w, Div, IntV(a), IntV(b)) == Ok(IntV(q)) && TreeBinary(w, Mod, IntV(a), IntV(b)) == Ok(IntV(r)))
    ensures forall op :: IsComparison(op) ==>
      TreeBinary(w, op, IntV(a), IntV(b)) == Ok(BoolV(Compares(op, a < b, a == b)))
  {
    hide Divides;
    if b != 0 {
      DivisionIs(a, b);
      assert Divides(a, b, TruncDiv(a, b), TruncMod(a, b));
    }
  }

  /** The operators on floats, an integer beside a float counting as one. */
  lemma FloatOperators(w: World, a: Val, b: Val, x: Float, y: Float)
    requires (a == FloatV(x) || (a.IntV? && x == w.ofInt(a.i))) && (b == FloatV(y) || (b.IntV? && y == w.ofInt(b.i)))
    requires a.FloatV? || b.FloatV?
    ensures TreeBinary(w, Add, a, b) == Ok(FloatV(w.fAdd(x, y))) && TreeBinary(w, Sub, a, b) == Ok(FloatV(w.fSub(x, y)))
    ensures TreeBinary(w, Mul, a, b) == Ok(FloatV(w.fMul(x, y))) && TreeBinary(w, Div, a, b) == Ok(FloatV(w.fDiv(x, y)))
    ensures TreeBinary(w, BinOp.Eq, a, b) == Ok(BoolV(w.fEq(x, y)))
    ensures TreeBinary(w, BinOp.Neq, a, b) == Ok(BoolV(!w.fEq(x, y)))
    ensures TreeBinary(w, Lt, a, b) == Ok(BoolV(w.fLt(x, y))) && TreeBinary(w, Gt, a, b) == Ok(BoolV(w.fGt(x, y)))
    ensures TreeBinary(w, Le, a, b) == Ok(BoolV(w.fLe(x, y))) && TreeBinary(w, Ge, a, b) == Ok(BoolV(w.fGe(x, y)))
  {
  }

  // ----- strings -----

  /** The first k characters are the same, and then a ends or has the smaller one. */
  predicate Parts(a: string, b: string, k: nat) {
    k <= |a| && k < |b| && a[..k] == b[..k] && (k == |a| || a[k] < b[k])
  }

  /** a comes before b in a dictionary of bytes. */
  ghost predicate Before(a: string, b: string) { exists k: nat :: Parts(a, b, k) }

  lemma PartsCons(c: char, a: string, b: string, k: nat)
    ensures Parts([c] + a, [c] + b, k + 1) <==> Parts(a, b, k)
  {
    var x, y := [c] + a, [c] + b;
    if k <= |a| && k <= |b| {
      assert x[..k + 1] == [c] + a[..k] && y[..k + 1] == [c] + b[..k];
      assert a[..k] == ([c] + a[..k])[1..] && b[..k] == ([c] + b[..k])[1..];
    }
  }

  lemma BeforeCons(c: char, a: string, b: string)
    ensures Before([c] + a, [c] + b) <==> Before(a, b)
  {
    hide Parts;
    if Before(a, b) {
      var k: nat :| Parts(a, b, k);
      PartsCons(c, a, b, k);
    }
    if Before([c] + a, [c] + b) {
      var k: nat :| Parts([c] + a, [c] + b, k);
      NotYet(c, a, b);
      PartsCons(c, a, b, k - 1);
    }
  }

  lemma NotYet(c: char, a: string, b: string)
    ensures !Parts([c] + a, [c] + b, 0)
  {
  }

  /** Different first characters decide. */
  lemma BeforeFirst(a: string, b: string)
    requires a != "" && b != "" && a[0] != b[0]
    ensures Before(a, b) <==> a[0] < b[0]
  {
    if a[0] < b[0] { assert Parts(a, b, 0); }
    if Before(a, b) {
      var k: nat :| Parts(a, b, k);
      if k > 0 { assert a[..k][0] == b[..k][0]; }
    }
  }

  lemma BeforeNone(a: string)
    ensures !Before(a, "") && (a != "" ==> Before("", a))
  {
    if a != "" { assert Parts("", a, 0); }
  }

  lemma {:induction false} StrCmpIs(a: string, b: string)
    ensures StrCmp(a, b) < 0 <==> Before(a, b)
    ensures StrCmp(a, b) == 0 <==> a == b
    ensures StrCmp(a, b) > 0 <==> Before(b, a)
    decreases |a|
  {
    hide Before;
    if a == "" || b == "" {
      BeforeNone(a);
      BeforeNone(b);
    } else if a[0] != b[0] {
      BeforeFirst(a, b);
      BeforeFirst(b, a);
    } else {
      StrCmpIs(a[1..], b[1..]);
      assert a == [a[0]] + a[1..] && b == [a[0]] + b[1..];
      BeforeCons(a[0], a[1..], b[1..]);
      BeforeCons(a[0], b[1..], a[1..]);
    }
  }

  /** The text of a string: a literal of two characters or more loses its quotes. */
  lemma ContentIs(s: string)
    ensures StrContent("\"" + s + "\"") == s
    ensures |s| < 2 || s[0] != '"' ==> StrContent(s) == s
  {
    var q := "\"" + s + "\"";
    assert q[1..|q| - 1] == s;
  }

  /** Two strings are joined, or compared as in a dictionary, by their texts. */
  lemma StringOperators(w: World, a: string, b: string)
    ensures var x, y := StrV("\"" + a + "\""), StrV("\"" + b + "\"");
      && TreeBinary(w, Add, x, y) == Ok(StrV(a + b))
      && forall op :: IsComparison(op) ==> TreeBinary(w, op, x, y) == Ok(BoolV(Compares(op, Before(a, b), a == b)))
  {
    hide Before, StrCmp;
    ContentIs(a);
    ContentIs(b);
    StrCmpIs(a, b);
  }

  // ----- booleans, and which operands an operator takes -----

  lemma BoolOperators(w: World, a: bool, b: bool)
    ensures TreeBinary(w, BinOp.Eq, BoolV(a), BoolV(b)) == Ok(BoolV(a <==> b))
    ensures TreeBinary(w, BinOp.Neq, BoolV(a), BoolV(b)) == Ok(BoolV(!(a <==> b)))
    ensures TreeBinary(w, And, BoolV(a), BoolV(b)) == Ok(BoolV(a && b))
    ensures TreeBinary(w, Or, BoolV(a), BoolV(b)) == Ok(BoolV(a || b))
    ensures TreeUnary(w, Not, BoolV(a)) == Ok(BoolV(!a))
  {
  }

  lemma NumberSigns(w: World, n: int, x: Float)
    ensures TreeUnary(w, Neg, IntV(n)) == Ok(IntV(0 - n)) && TreeUnary(w, Neg, FloatV(x)) == Ok(FloatV(w.fNeg(x)))
  {
  }

  predicate IsNumber(v: Val) { v.IntV? || v.FloatV? }

  /** Numbers with numbers, but no remainder of floats; strings with strings for + and
      comparisons; booleans with booleans for equality, && and ||. */
  predicate Takes(op: BinOp, a: Val, b: Val) {
    || (IsNumber(a) && IsNumber(b) && op != And && op != Or && (op == Mod ==> a.IntV? && b.IntV?))
    || (a.StrV? && b.StrV? && (op == Add || IsComparison(op)))
    || (a.BoolV? && b.BoolV? && (op == BinOp.Eq || op == BinOp.Neq || op == And || op == Or))
  }

  /** Every other pair of operands is an error, and so is nothing else but a division of
      integers by zero. */
  lemma OperandsTaken(w: World, op: BinOp, a: Val, b: Val)
    ensures TreeBinary(w, op, a, b) == Fail(InvalidBinary) <==> !Takes(op, a, b)
    ensures TreeBinary(w, op, a, b).Fail? && Takes(op, a, b) ==>
      TreeBinary(w, op, a, b) == Fail(DivByZero) && (op == Div || op == Mod) && b == IntV(0) && a.IntV?
    ensures op != And && op != Or ==> VmBinary(w, op, a, b) == TreeBinary(w, op, a, b)
  {
    hide TruncDiv, TruncMod, StrCmp, StrContent;
    if op != And && op != Or { BinaryAgree(w, op, a, b); }
  }

  lemma OperandTaken(w: World, op: UnOp, a: Val)
    ensures TreeUnary(w, op, a).Fail? <==> !(if op == Neg then IsNumber(a) else a.BoolV?)
    ensures TreeUnary(w, op, a).Fail? ==> TreeUnary(w, op, a) == Fail(InvalidUnary)
    ensures VmUnary(w, op, a) == TreeUnary(w, op, a)
  {
    UnaryAgree(w, op, a);
  }

  // ----- indexing and fields -----

  /** The cast to 32 bits leaves numbers of 32 bits alone and takes numbers that differ by
      a multiple of 2 to the 32 for the same. */
  lemma CastIs(n: int)
    ensures -0x8000_0000 <= Int32(n) < 0x8000_0000
    ensures exists k :: n == Int32(n) + k * 0x1_0000_0000
    ensures -0x8000_0000 <= n < 0x8000_0000 ==> Int32(n) == n
  {
    var m := n + 0x8000_0000;
    assert m == m / 0x1_0000_0000 * 0x1_0000_0000 + m % 0x1_0000_0000;
    assert n == Int32(n) + m / 0x1_0000_0000 * 0x1_0000_0000;
  }

  /** The element at a place of an array, counted from 0, and an error elsewhere. */
  lemma ElementIs(es: seq<Val>, n: int)
    requires -0x8000_0000 <= n < 0x8000_0000
    ensures TreeIndex(ArrV(es), IntV(n)) == if 0 <= n < |es| then Ok(es[n]) else Fail(OutOfBounds)
  {
    CastIs(n);
  }

  /** The value of the first pair with a key, and nil when there is none. */
  lemma EntryIs(ps: seq<Pair>, key: string)
    ensures var r := TreeIndex(MapV(ps), StrV("\"" + key + "\""));
      if forall i :: 0 <= i < |ps| ==> ps[i].key != key then r == Ok(NilV)
      else exists i :: 0 <= i < |ps| && r == Ok(ps[i].value) && ps[i].key == key
                       && (forall j :: 0 <= j < i ==> ps[j].key != key)
  {
    ContentIs(key);
    FindPairIs(ps, key);
  }

  /** The value of the first field with a name, and an error when there is none. */
  lemma FieldIs(t: string, ps: seq<Pair>, name: string)
    ensures var r := TreeField(StructV(t, ps), name);
      if forall i :: 0 <= i < |ps| ==> ps[i].key != name then r == Fail(NoField)
      else exists i :: 0 <= i < |ps| && r == Ok(ps[i].value) && ps[i].key == name
                       && (forall j :: 0 <= j < i ==> ps[j].key != name)
  {
    FindPairIs(ps, name);
  }

  /** Everything else that is indexed or asked for a field is an error. */
  lemma IndexErrors(a: Val, b: Val, name: string)
    ensures !a.ArrV? && !a.MapV? ==> TreeIndex(a, b) == Fail(NotIndexable)
    ensures a.ArrV? && !b.IntV? ==> TreeIndex(a, b) == Fail(IndexNotInt)
    ensures a.MapV? && !b.StrV? ==> TreeIndex(a, b) == Fail(MapKeyNotString)
    ensures !a.StructV? ==> TreeField(a, name) == Fail(NotStruct)
    ensures VmIndex(a, b) == TreeIndex(a, b)
  {
    IndexAgree(a, b);
  }
}
