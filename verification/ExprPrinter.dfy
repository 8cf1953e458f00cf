/** Writing a tree back as tokens with as few parentheses as the precedence table
    allows, and what the parser makes of it. */
module ExprPrinters {
  import opened Ast
  import opened Tokens
  import opened Places
  import opened Pratt
  import opened Grammar
  import Json
  import JsonLaws

  /** Trees of the forms that the parser model covers; integers are literals, so
      they have no sign, and floats are left out. */
  predicate Writable(e: Expr)
    decreases e
  {
    match e
    case IntLit(n) => 0 <= n <= Json.INT64_MAX
    case StrLit(_) => true
    case BoolLit(_) => true
    case Ident(_) => true
    case Unary(_, a) => Writable(a)
    case Binary(_, l, r) => Writable(l) && Writable(r)
    case Field(o, _) => Writable(o)
    case Call(f, args) => Writable(f) && |args| <= MAX_ITEMS && AllWritable(args)
    case ArrayLit(es) => |es| <= MAX_ITEMS && AllWritable(es)
    case Index(a, i) => Writable(a) && Writable(i)
    case ResultLit(_, x) => Writable(x)
    case Try(x) => Writable(x)
    case _ => false
  }

  predicate AllWritable(es: seq<Expr>)
    decreases es
  {
    es != [] ==> Writable(es[0]) && AllWritable(es[1..])
  }

  /** The tree as a derivation. */
  function Plain(e: Expr): Cst
    requires Writable(e)
    decreases e, 0
  {
    match e
    case IntLit(n) => Tok(Token(IntTok, Json.DigitsOf(n)))
    case StrLit(raw) => Tok(Token(StrTok, raw))
    case BoolLit(b) => Tok(Mark(if b then True else False))
    case Ident(x) => Tok(Token(Name, x))
    case Unary(op, a) => Prefixed(op, Operand(a, PREC_UNARY))
    case Binary(op, l, r) => Infixed(op, Operand(l, Prec(KindOf(op))), Operand(r, Prec(KindOf(op)) + 1))
    case Field(o, f) => Dotted(Operand(o, PREC_CALL), f)
    case Call(f, args) => Called(Operand(f, PREC_CALL), PlainItems(args))
    case ArrayLit(es) => Listed(0, PlainItems(es))
    case Index(a, i) => Subscripted(Operand(a, PREC_CALL), Plain(i))
    case ResultLit(ok, x) => Wrapped(ok, Plain(x))
    case Try(x) => Tried(Operand(x, PREC_CALL))
  }

  /** In parentheses only when it binds less tightly than its place asks for. */
  function Operand(e: Expr, level: nat): Cst
    requires Writable(e)
    decreases e, 1
  {
    if Level(Plain(e)) >= level then Plain(e) else Group(Plain(e))
  }

  function PlainItems(es: seq<Expr>): (items: seq<Item>)
    requires AllWritable(es)
    ensures |items| == |es|
    decreases es
  {
    if es == [] then [] else [Item(0, Plain(es[0]), 0)] + PlainItems(es[1..])
  }

  lemma IntBack(n: int)
    requires 0 <= n <= Json.INT64_MAX
    ensures IntOf(Json.DigitsOf(n)) == n
  {
    hide Json.DigitsOf, Json.DigitsValue, Json.SkipDigits;
    var t := Json.DigitsOf(n);
    DigitsFew(n);
    JsonLaws.DigitsBack(n);
    JsonLaws.SkipAll(t, 0, |t|);
    assert t[..|t|] == t;
  }

  lemma DigitsFew(n: int)
    requires 0 <= n <= Json.INT64_MAX
    ensures |Json.DigitsOf(n)| <= 20
  {
    hide Json.DigitsOf;
    assert JsonLaws.Pow10(5) == 100000;
    assert JsonLaws.Pow10(10) == 10000000000;
    assert JsonLaws.Pow10(15) == 1000000000000000;
    assert JsonLaws.Pow10(20) == 100000000000000000000;
    JsonLaws.DigitsShort(n, 20);
  }

  lemma LeafBack(e: Expr, ft: Json.FloatText)
    requires Writable(e) && (e.IntLit? || e.StrLit? || e.BoolLit? || e.Ident?)
    ensures Obeys(Plain(e)) && Erase(Plain(e), ft) == e
  {
    hide IntOf, Json.DigitsOf;
    if e.IntLit? { IntBack(e.n); }
  }

  /** What is written obeys the grammar and is the tree again. */
  lemma {:induction false} PlainBack(e: Expr, ft: Json.FloatText)
    requires Writable(e)
    ensures Obeys(Plain(e)) && Erase(Plain(e), ft) == e
    decreases e, 1
  {
    hide Plain, Erase, Obeys, AllWritable;
    match e
    case IntLit(_) => LeafBack(e, ft);
    case StrLit(_) => LeafBack(e, ft);
    case BoolLit(_) => LeafBack(e, ft);
    case Ident(_) => LeafBack(e, ft);
    case Unary(_, _) => InnerBack(e, ft);
    case Binary(_, _, _) => BinaryBack(e, ft);
    case Field(_, _) => InnerBack(e, ft);
    case Call(_, _) => CallBack(e, ft);
    case ArrayLit(_) => CallBack(e, ft);
    case Index(_, _) => IndexBack(e, ft);
    case ResultLit(_, _) => InnerBack(e, ft);
    case Try(_) => InnerBack(e, ft);
  }

  /** The forms with one operand. */
  lemma {:induction false} InnerBack(e: Expr, ft: Json.FloatText)
    requires (e.Unary? || e.Field? || e.ResultLit? || e.Try?) && Writable(e)
    ensures Obeys(Plain(e)) && Erase(Plain(e), ft) == e
    decreases e, 0
  {
    hide Operand, LeafOf;
    match e
    case Unary(_, a) => OperandBack(a, PREC_UNARY, ft);
    case Field(o, _) => OperandBack(o, PREC_CALL, ft);
    case ResultLit(_, x) => PlainBack(x, ft);
    case Try(x) => OperandBack(x, PREC_CALL, ft);
  }

  lemma {:induction false} BinaryBack(e: Expr, ft: Json.FloatText)
    requires e.Binary? && Writable(e)
    ensures Obeys(Plain(e)) && Erase(Plain(e), ft) == e
    decreases e, 0
  {
    hide Operand, LeafOf, Prec, KindOf;
    var p := Prec(KindOf(e.op));
    OperandBack(e.left, p, ft);
    OperandBack(e.right, p + 1, ft);
  }

  lemma {:induction false} IndexBack(e: Expr, ft: Json.FloatText)
    requires e.Index? && Writable(e)
    ensures Obeys(Plain(e)) && Erase(Plain(e), ft) == e
    decreases e, 0
  {
    hide Operand, LeafOf;
    OperandBack(e.arr, PREC_CALL, ft);
    PlainBack(e.idx, ft);
  }

  lemma {:induction false} CallBack(e: Expr, ft: Json.FloatText)
    requires (e.Call? || e.ArrayLit?) && Writable(e)
    ensures Obeys(Plain(e)) && Erase(Plain(e), ft) == e
    decreases e, 0
  {
    hide Operand, LeafOf, AllWritable, PlainItems, AllObey, EraseItems;
    if e.Call? {
      OperandBack(e.callee, PREC_CALL, ft);
      PlainItemsBack(e.args, ft);
    } else {
      PlainItemsBack(e.elems, ft);
    }
  }

  lemma {:induction false} OperandBack(e: Expr, level: nat, ft: Json.FloatText)
    requires Writable(e) && level <= ATOM
    ensures Obeys(Operand(e, level)) && Erase(Operand(e, level), ft) == e && Level(Operand(e, level)) >= level
    decreases e, 2
  {
    hide Plain;
    PlainBack(e, ft);
  }

  lemma {:induction false} PlainItemsBack(es: seq<Expr>, ft: Json.FloatText)
    requires AllWritable(es)
    ensures AllObey(PlainItems(es)) && EraseItems(PlainItems(es), ft) == es
    decreases es
  {
    if es != [] {
      var a, rest := Item(0, Plain(es[0]), 0), PlainItems(es[1..]);
      assert PlainItems(es) == [a] + rest;
      PlainBack(es[0], ft);
      PlainItemsBack(es[1..], ft);
      ConsItem(a, rest, ft);
      assert es == [es[0]] + es[1..];
    }
  }

  lemma ConsItem(a: Item, rest: seq<Item>, ft: Json.FloatText)
    ensures AllObey([a] + rest) <==> Obeys(a.e) && AllObey(rest)
    ensures EraseItems([a] + rest, ft) == [Erase(a.e, ft)] + EraseItems(rest, ft)
  {
    assert ([a] + rest)[1..] == rest;
  }

  /** Parsing undoes printing and takes exactly the printed tokens, whatever
      follows that could not go on with the expression. */
  lemma ParseUndoesPrint(e: Expr, rest: seq<Token>, ft: Json.FloatText)
    requires Writable(e)
    requires var k := Cur(rest, 0).kind; Prec(k) == PREC_NONE && k != StrTok && k != LBrace
    ensures ParseExpr(Flat(Plain(e)) + rest, 0, PREC_NONE, ft) == Got(e, |Flat(Plain(e))|)
  {
    hide ParseExpr, Plain, Obeys, Erase, Flat, Runs;
    var c := Plain(e);
    var toks := Flat(c) + rest;
    PlainBack(e, ft);
    FlatSome(c);
    assert toks[0..|Flat(c)|] == Flat(c);
    assert Cur(toks, |Flat(c)|) == Cur(rest, 0);
    Apart(c, toks, |Flat(c)|);
    Whole(c, toks, 0, |Flat(c)|, PREC_NONE, e, ft);
  }

  // ----- no shorter way -----

  predicate Shorter(a: Cst, b: Cst) { |Flat(a)| <= |Flat(b)| }

  /** No derivation of the tree has fewer tokens. */
  lemma {:induction false} PrintIsShortest(c: Cst, ft: Json.FloatText)
    requires Obeys(c) && Writable(Erase(c, ft))
    ensures Shorter(Plain(Erase(c, ft)), c)
    ensures c.Group? ==> |Flat(Plain(Erase(c, ft)))| + 2 <= |Flat(c)|
    ensures !c.Group? ==> Level(Plain(Erase(c, ft))) == Level(c)
    decreases c, 0
  {
    hide LeafOf, Json.DigitsOf;
    match c
    case Tok(t) => LeafLevel(t, ft);
    case Group(e) => PrintIsShortest(e, ft);
    case Prefixed(op, e) => ShortOperand(e, PREC_UNARY, ft);
    case Wrapped(_, e) => PrintIsShortest(e, ft);
    case Listed(_, items) => ShortItems(items, ft);
    case Infixed(op, l, r) =>
      ShortOperand(l, Prec(KindOf(op)), ft);
      ShortOperand(r, Prec(KindOf(op)) + 1, ft);
    case Dotted(l, _) => ShortOperand(l, PREC_CALL, ft);
    case Called(l, items) =>
      ShortOperand(l, PREC_CALL, ft);
      ShortItems(items, ft);
    case Subscripted(l, r) =>
      ShortOperand(l, PREC_CALL, ft);
      PrintIsShortest(r, ft);
    case Tried(l) => ShortOperand(l, PREC_CALL, ft);
  }

  lemma LeafLevel(t: Token, ft: Json.FloatText)
    requires IsLeaf(t.kind) && Writable(LeafOf(t, ft))
    ensures Plain(LeafOf(t, ft)).Tok? && Level(Plain(LeafOf(t, ft))) == ATOM
    ensures |Flat(Plain(LeafOf(t, ft)))| == 1
  {
    hide Json.DigitsOf, IntOf;
  }

  lemma {:induction false} ShortOperand(c: Cst, level: nat, ft: Json.FloatText)
    requires Obeys(c) && Writable(Erase(c, ft)) && Level(c) >= level
    ensures Shorter(Operand(Erase(c, ft), level), c)
    decreases c, 1
  {
    hide Plain, Erase, Obeys;
    PrintIsShortest(c, ft);
  }

  lemma {:induction false} ShortItems(items: seq<Item>, ft: Json.FloatText)
    requires AllObey(items) && AllWritable(EraseItems(items, ft))
    ensures |FlatItems(PlainItems(EraseItems(items, ft)))| <= |FlatItems(items)|
    decreases items, 0
  {
    hide Plain, Erase, Obeys, Writable, Flat, FlatItem, FlatItems;
    if items == [] {
      ItemsNone(ft);
    } else {
      var a, es := items[0], EraseItems(items, ft);
      OneErased(items, ft);
      OneObeys(items);
      assert es[0] == Erase(a.e, ft) && es[1..] == EraseItems(items[1..], ft);
      ShortItem(a, ft);
      ShortItems(items[1..], ft);
      var b, more := Item(0, Plain(es[0]), 0), PlainItems(es[1..]);
      assert PlainItems(es) == [b] + more;
      assert ([b] + more)[1..] == more;
      FlatItemsParts(items);
      FlatItemsParts([b] + more);
    }
  }

  lemma ItemsNone(ft: Json.FloatText)
    ensures PlainItems(EraseItems([], ft)) == [] && FlatItems([]) == []
  {
  }

  lemma {:induction false} ShortItem(a: Item, ft: Json.FloatText)
    requires Obeys(a.e) && Writable(Erase(a.e, ft))
    ensures |FlatItem(Item(0, Plain(Erase(a.e, ft)), 0))| <= |FlatItem(a)|
    decreases a, 0
  {
    hide Plain, Erase, Obeys, Writable, Flat;
    PrintIsShortest(a.e, ft);
    ItemLength(a);
    ItemLength(Item(0, Plain(Erase(a.e, ft)), 0));
  }
}
