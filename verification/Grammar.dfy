/** The expression grammar of the precedence table as derivations, and the
    parser's agreement with it: it returns a tree exactly when one is derivable. */
module Grammar {
  import opened Ast
  import opened Tokens
  import opened Places
  import opened Pratt
  import Json

  // ----- derivations -----

  /** What was written, groups and newlines included. */
  datatype Cst =
    | Tok(t: Token)
    | Group(e: Cst)
    | Prefixed(op: UnOp, e: Cst)
    | Wrapped(isOk: bool, e: Cst)
    | Listed(blank: nat, items: seq<Item>)
    | Infixed(bop: BinOp, l: Cst, r: Cst)
    | Dotted(l: Cst, name: string)
    | Called(l: Cst, items: seq<Item>)
    | Subscripted(l: Cst, r: Cst)
    | Tried(l: Cst)

  /** An expression in a list, between newlines. */
  datatype Item = Item(before: nat, e: Cst, after: nat)

  function UnKind(op: UnOp): Kind { if op == Neg then Minus else Kind.Not }

  function WrapKind(isOk: bool): Kind { if isOk then Ok else Err }

  function Lines(n: nat): (s: seq<Token>)
    ensures |s| == n && forall i :: 0 <= i < n ==> s[i] == Mark(Newline)
  {
    if n == 0 then [] else [Mark(Newline)] + Lines(n - 1)
  }

  function Flat(c: Cst): seq<Token>
    decreases c
  {
    match c
    case Tok(t) => [t]
    case Group(e) => [Mark(LParen)] + Flat(e) + [Mark(RParen)]
    case Prefixed(op, e) => [Mark(UnKind(op))] + Flat(e)
    case Wrapped(isOk, e) => [Mark(WrapKind(isOk))] + ([Mark(LParen)] + Flat(e) + [Mark(RParen)])
    case Listed(blank, items) => [Mark(LBracket)] + (Lines(blank) + FlatItems(items)) + [Mark(RBracket)]
    case Infixed(op, l, r) => Flat(l) + ([Mark(KindOf(op))] + Flat(r))
    case Dotted(l, name) => Flat(l) + [Mark(Kind.Dot), Token(Name, name)]
    case Called(l, items) => Flat(l) + ([Mark(LParen)] + FlatItems(items) + [Mark(RParen)])
    case Subscripted(l, r) => Flat(l) + ([Mark(LBracket)] + Flat(r) + [Mark(RBracket)])
    case Tried(l) => Flat(l) + [Mark(Question)]
  }

  function FlatItem(a: Item): seq<Token>
    decreases a
  {
    Lines(a.before) + (Flat(a.e) + Lines(a.after))
  }

  function FlatItems(items: seq<Item>): seq<Token>
    decreases items
  {
    if items == [] then []
    else if |items| == 1 then FlatItem(items[0])
    else FlatItem(items[0]) + ([Mark(Comma)] + FlatItems(items[1..]))
  }

  /** The tree without groups and newlines. */
  function Erase(c: Cst, ft: Json.FloatText): Expr
    decreases c
  {
    match c
    case Tok(t) => if IsLeaf(t.kind) then LeafOf(t, ft) else Ident("")
    case Group(e) => Erase(e, ft)
    case Prefixed(op, e) => Unary(op, Erase(e, ft))
    case Wrapped(isOk, e) => ResultLit(isOk, Erase(e, ft))
    case Listed(_, items) => ArrayLit(EraseItems(items, ft))
    case Infixed(op, l, r) => Binary(op, Erase(l, ft), Erase(r, ft))
    case Dotted(l, name) => Field(Erase(l, ft), name)
    case Called(l, items) => Call(Erase(l, ft), EraseItems(items, ft))
    case Subscripted(l, r) => Index(Erase(l, ft), Erase(r, ft))
    case Tried(l) => Try(Erase(l, ft))
  }

  function EraseItems(items: seq<Item>, ft: Json.FloatText): (es: seq<Expr>)
    ensures |es| == |items|
    decreases items
  {
    if items == [] then [] else [EraseItem(items[0], ft)] + EraseItems(items[1..], ft)
  }

  function EraseItem(a: Item, ft: Json.FloatText): Expr
    decreases a
  {
    Erase(a.e, ft)
  }

  const ATOM: nat := 9

  /** How tightly the outermost form binds. */
  function Level(c: Cst): (r: nat)
    ensures PREC_NONE < r <= ATOM
  {
    match c
    case Prefixed(_, _) => PREC_UNARY
    case Infixed(op, _, _) => Prec(KindOf(op))
    case Dotted(_, _) => PREC_CALL
    case Called(_, _) => PREC_CALL
    case Subscripted(_, _) => PREC_CALL
    case Tried(_) => PREC_CALL
    case _ => ATOM
  }

  /** Precedence and left associativity: every left operand binds at least as
      tightly as its operator, every right operand tighter. */
  predicate Obeys(c: Cst)
    decreases c
  {
    match c
    case Tok(t) => IsLeaf(t.kind)
    case Group(e) => Obeys(e)
    case Prefixed(_, e) => Obeys(e) && Level(e) >= PREC_UNARY
    case Wrapped(_, e) => Obeys(e)
    case Listed(_, items) => |items| <= MAX_ITEMS && AllObey(items)
    case Infixed(op, l, r) => Obeys(l) && Obeys(r) && Level(l) >= Prec(KindOf(op)) && Level(r) > Prec(KindOf(op))
    case Dotted(l, _) => Obeys(l) && Level(l) >= PREC_CALL
    case Called(l, items) => Obeys(l) && Level(l) >= PREC_CALL && |items| <= MAX_ITEMS && AllObey(items)
    case Subscripted(l, r) => Obeys(l) && Level(l) >= PREC_CALL && Obeys(r)
    case Tried(l) => Obeys(l) && Level(l) >= PREC_CALL
  }

  predicate AllObey(items: seq<Item>)
    decreases items
  {
    items != [] ==> ItemObeys(items[0]) && AllObey(items[1..])
  }

  predicate ItemObeys(a: Item)
    decreases a
  {
    Obeys(a.e)
  }

  /** May stand where operators above low are parsed. */
  predicate Fits(c: Cst, low: nat) {
    Level(c) > low || (low == PREC_UNARY && c.Prefixed?)
  }

  /** The derivation ends in a name that the tokens at p would turn into an
      interpolated string or a struct literal. */
  predicate Runs(c: Cst, toks: seq<Token>, p: nat)
    requires 0 < p <= |toks|
  {
    match c
    case Tok(_) => Joined(toks, p - 1)
    case Prefixed(_, e) => Runs(e, toks, p)
    case Infixed(_, _, r) => Runs(r, toks, p)
    case _ => false
  }

  /** c derives e from the tokens between i and j, and what follows stays apart. */
  ghost predicate Derives(c: Cst, toks: seq<Token>, i: nat, j: nat, e: Expr, ft: Json.FloatText) {
    && Obeys(c) && At(toks, i, Flat(c)) && i < j == i + |Flat(c)| <= |toks| && Erase(c, ft) == e
    && Prec(Cur(toks, j).kind) <= Level(c) && !Runs(c, toks, j)
  }

  // ----- pieces -----

  lemma FlatSome(c: Cst)
    ensures Flat(c) != []
  {
    match c
    case Infixed(_, l, _) => FlatSome(l);
    case _ =>
  }

  /** A derivation starts with no newline and no closing bracket. */
  lemma {:induction false} FlatStart(c: Cst)
    requires Obeys(c)
    ensures Flat(c) != [] && Flat(c)[0].kind != Newline && Flat(c)[0].kind != RParen && Flat(c)[0].kind != RBracket
  {
    match c
    case Infixed(_, l, _) => FlatStart(l);
    case Dotted(l, _) => FlatStart(l);
    case Called(l, _) => FlatStart(l);
    case Subscripted(l, _) => FlatStart(l);
    case Tried(l) => FlatStart(l);
    case _ =>
  }

  lemma {:induction false} Apart(c: Cst, toks: seq<Token>, p: nat)
    requires 0 < p <= |toks| && Cur(toks, p).kind != StrTok && Cur(toks, p).kind != LBrace
    ensures !Runs(c, toks, p)
  {
    match c
    case Prefixed(_, e) => Apart(e, toks, p);
    case Infixed(_, _, r) => Apart(r, toks, p);
    case _ =>
  }

  lemma Bracketed(toks: seq<Token>, i: nat, o: Token, body: seq<Token>, c: Token)
    requires At(toks, i, [o] + body + [c])
    ensures i + 1 + |body| < |toks| && toks[i] == o && At(toks, i + 1, body) && toks[i + 1 + |body|] == c
  {
    AtSplit(toks, i, [o] + body, [c]);
    AtSplit(toks, i, [o], body);
    AtIndex(toks, i, [o], 0);
    AtIndex(toks, i + 1 + |body|, [c], 0);
  }

  lemma Opened(toks: seq<Token>, i: nat, o: Token, body: seq<Token>)
    requires At(toks, i, [o] + body)
    ensures i < |toks| && toks[i] == o && At(toks, i + 1, body)
  {
    AtSplit(toks, i, [o], body);
    AtIndex(toks, i, [o], 0);
  }

  lemma {:induction false} SkipAt(toks: seq<Token>, i: nat, n: nat)
    requires At(toks, i, Lines(n)) && Cur(toks, i + n).kind != Newline
    ensures i + n <= |toks| && SkipLines(toks, i) == i + n
    decreases n
  {
    if n > 0 {
      Opened(toks, i, Mark(Newline), Lines(n - 1));
      SkipAt(toks, i + 1, n - 1);
    }
  }

  // ----- completeness -----

  /** The primary forms are what parse_prefix returns. */
  lemma {:induction false} PrimaryBack(c: Cst, toks: seq<Token>, i: nat, j: nat, e: Expr, ft: Json.FloatText)
    requires Derives(c, toks, i, j, e, ft) && (Level(c) == ATOM || c.Prefixed?)
    ensures ParsePrefix(toks, i, ft) == Got(e, j)
    decreases c, 2
  {
    hide ParseExpr, Climb, ParseInfix, ParseList, ParseWrap, ParseElems, Joined;
    match c
    case Tok(t) => Opened(toks, i, t, []);
    case Group(d) => GroupBack(c, toks, i, j, e, ft);
    case Prefixed(op, d) => PrefixedBack(c, toks, i, j, e, ft);
    case Wrapped(isOk, d) => WrappedBack(c, toks, i, j, e, ft);
    case Listed(blank, items) => ListedBack(c, toks, i, j, e, ft);
  }

  lemma {:induction false} GroupBack(c: Cst, toks: seq<Token>, i: nat, j: nat, e: Expr, ft: Json.FloatText)
    requires Derives(c, toks, i, j, e, ft) && c.Group?
    ensures ParsePrefix(toks, i, ft) == Got(e, j)
    decreases c, 0
  {
    hide ParseExpr, ParsePrefix, Derives;
    GroupParts(c, toks, i, j, e, ft);
    Whole(c.e, toks, i + 1, j - 1, PREC_NONE, e, ft);
    GroupGives(toks, i, ft, j - 1, e);
  }

  lemma GroupGives(toks: seq<Token>, i: nat, ft: Json.FloatText, p: nat, e: Expr)
    requires i + 1 < p < |toks| && toks[i].kind == LParen && toks[p].kind == RParen
    requires ParseExpr(toks, i + 1, PREC_NONE, ft) == Got(e, p)
    ensures ParsePrefix(toks, i, ft) == Got(e, p + 1)
  {
    hide ParseExpr, ParseInfix, ParseList, ParseWrap, ParseElems, Climb;
  }

  lemma GroupParts(c: Cst, toks: seq<Token>, i: nat, j: nat, e: Expr, ft: Json.FloatText)
    requires Derives(c, toks, i, j, e, ft) && c.Group?
    ensures j <= |toks| && toks[i].kind == LParen && toks[j - 1].kind == RParen
    ensures i + 1 < j - 1 && Derives(c.e, toks, i + 1, j - 1, e, ft) && Fits(c.e, PREC_NONE)
  {
    var d := c.e;
    Bracketed(toks, i, Mark(LParen), Flat(d), Mark(RParen));
    FlatSome(d);
    Apart(d, toks, j - 1);
  }

  lemma {:induction false} PrefixedBack(c: Cst, toks: seq<Token>, i: nat, j: nat, e: Expr, ft: Json.FloatText)
    requires Derives(c, toks, i, j, e, ft) && c.Prefixed?
    ensures ParsePrefix(toks, i, ft) == Got(e, j)
    decreases c, 0
  {
    hide ParseExpr, Climb, ParseInfix, ParseList, ParseWrap, ParseElems, Joined, Flat, Obeys, Runs, Erase;
    PrefixedParts(c, toks, i, j, e, ft);
    Whole(c.e, toks, i + 1, j, PREC_UNARY, e.arg, ft);
  }

  lemma PrefixedParts(c: Cst, toks: seq<Token>, i: nat, j: nat, e: Expr, ft: Json.FloatText)
    requires Derives(c, toks, i, j, e, ft) && c.Prefixed?
    ensures j <= |toks| && toks[i].kind == UnKind(c.op) && i + 1 < j && e.Unary? && e.uop == c.op
    ensures Derives(c.e, toks, i + 1, j, e.arg, ft) && Fits(c.e, PREC_UNARY) && Prec(Cur(toks, j).kind) <= PREC_UNARY
  {
    var d := c.e;
    Opened(toks, i, Mark(UnKind(c.op)), Flat(d));
    FlatSome(d);
  }

  lemma {:induction false} WrappedBack(c: Cst, toks: seq<Token>, i: nat, j: nat, e: Expr, ft: Json.FloatText)
    requires Derives(c, toks, i, j, e, ft) && c.Wrapped?
    ensures ParsePrefix(toks, i, ft) == Got(e, j)
    decreases c, 0
  {
    hide ParseExpr, ParsePrefix, Derives;
    WrappedParts(c, toks, i, j, e, ft);
    Whole(c.e, toks, i + 2, j - 1, PREC_NONE, e.inner, ft);
    WrapGives(toks, i, ft, j - 1, c.isOk, e.inner);
  }

  lemma WrapGives(toks: seq<Token>, i: nat, ft: Json.FloatText, p: nat, isOk: bool, e: Expr)
    requires i + 2 < p < |toks| && toks[i].kind == WrapKind(isOk) && toks[i + 1].kind == LParen
    requires toks[p].kind == RParen
    requires ParseExpr(toks, i + 2, PREC_NONE, ft) == Got(e, p)
    ensures ParsePrefix(toks, i, ft) == Got(ResultLit(isOk, e), p + 1)
  {
    hide ParseExpr, ParseInfix, ParseList, ParseElems, Climb;
  }

  lemma WrappedParts(c: Cst, toks: seq<Token>, i: nat, j: nat, e: Expr, ft: Json.FloatText)
    requires Derives(c, toks, i, j, e, ft) && c.Wrapped?
    ensures j <= |toks| && toks[i].kind == WrapKind(c.isOk) && i + 2 < j - 1 && toks[i + 1].kind == LParen
    ensures toks[j - 1].kind == RParen && e.ResultLit? && e.isOk == c.isOk
    ensures Derives(c.e, toks, i + 2, j - 1, e.inner, ft) && Fits(c.e, PREC_NONE)
  {
    var d := c.e;
    Opened(toks, i, Mark(WrapKind(c.isOk)), [Mark(LParen)] + Flat(d) + [Mark(RParen)]);
    Bracketed(toks, i + 1, Mark(LParen), Flat(d), Mark(RParen));
    FlatSome(d);
    Apart(d, toks, j - 1);
  }

  lemma {:induction false} ListedBack(c: Cst, toks: seq<Token>, i: nat, j: nat, e: Expr, ft: Json.FloatText)
    requires Derives(c, toks, i, j, e, ft) && c.Listed?
    ensures ParsePrefix(toks, i, ft) == Got(e, j)
    decreases c, 1
  {
    hide *;
    ListedParts(c, toks, i, j, e, ft);
    if c.items == [] {
      NoItems(toks, i, c.blank, ft);
    } else {
      ElemsBack(c, c.items, c.blank, toks, i, j, ft);
    }
  }

  lemma {:induction false} ElemsBack(c: Cst, items: seq<Item>, n: nat, toks: seq<Token>, i: nat, j: nat,
      ft: Json.FloatText)
    requires c.Listed? && items == c.items != [] && |items| <= MAX_ITEMS && AllObey(items)
    requires At(toks, i + 1, Lines(n)) && At(toks, i + 1 + n, FlatItems(items))
    requires i + 1 + n + |FlatItems(items)| == j - 1
    requires 0 < j <= |toks| && toks[i].kind == LBracket && toks[j - 1].kind == RBracket
    ensures i <= |toks| && ParsePrefix(toks, i, ft) == Got(ArrayLit(EraseItems(items, ft)), j)
    decreases c, 0
  {
    hide ParseExpr, ParsePrefix, ParseList, Flat, FlatItems, Lines, Obeys, AllObey, EraseItems, SkipLines, At;
    var k := i + 1 + n;
    ItemsBack(items, toks, k, 0, ft);
    ItemsStart(items, toks, k);
    SkipOn(toks, i + 1, n);
    ListFrom(toks, k, ft);
    ElemsGive(toks, i, ft, j - 1, EraseItems(items, ft));
  }

  lemma NoItems(toks: seq<Token>, i: nat, n: nat, ft: Json.FloatText)
    requires i + 1 + n < |toks| && toks[i].kind == LBracket && At(toks, i + 1, Lines(n))
    requires toks[i + 1 + n].kind == RBracket
    ensures ParsePrefix(toks, i, ft) == Got(ArrayLit([]), i + 2 + n)
  {
    hide ParseExpr, Climb, ParseInfix, ParseList, ParseWrap, Lines, SkipLines, Joined, LeafOf;
    SkipAt(toks, i + 1, n);
  }

  lemma ElemsGive(toks: seq<Token>, i: nat, ft: Json.FloatText, p: nat, es: seq<Expr>)
    requires i < |toks| && toks[i].kind == LBracket && Cur(toks, SkipLines(toks, i + 1)).kind != RBracket
    requires p < |toks| && toks[p].kind == RBracket && ParseList(toks, SkipLines(toks, i + 1), 0, ft) == Got(es, p)
    ensures ParsePrefix(toks, i, ft) == Got(ArrayLit(es), p + 1)
  {
    hide ParseExpr, Climb, ParseInfix, ParseList, SkipLines;
  }

  lemma ListedParts(c: Cst, toks: seq<Token>, i: nat, j: nat, e: Expr, ft: Json.FloatText)
    requires Derives(c, toks, i, j, e, ft) && c.Listed?
    ensures 0 < j <= |toks| && i + 1 + c.blank <= j - 1 && toks[i].kind == LBracket && toks[j - 1].kind == RBracket
    ensures At(toks, i + 1, Lines(c.blank)) && At(toks, i + 1 + c.blank, FlatItems(c.items))
    ensures i + 1 + c.blank + |FlatItems(c.items)| == j - 1
    ensures |c.items| <= MAX_ITEMS && AllObey(c.items) && e == ArrayLit(EraseItems(c.items, ft))
    ensures c.items == [] ==> FlatItems(c.items) == [] && EraseItems(c.items, ft) == []
  {
    var body := Lines(c.blank) + FlatItems(c.items);
    Bracketed(toks, i, Mark(LBracket), body, Mark(RBracket));
    AtSplit(toks, i + 1, Lines(c.blank), FlatItems(c.items));
  }

  /** Newlines in front do not matter to what SkipLines finds. */
  lemma {:induction false} SkipOn(toks: seq<Token>, i: nat, n: nat)
    requires At(toks, i, Lines(n))
    ensures i + n <= |toks| && SkipLines(toks, i) == SkipLines(toks, i + n)
    decreases n
  {
    if n > 0 {
      Opened(toks, i, Mark(Newline), Lines(n - 1));
      SkipOn(toks, i + 1, n - 1);
    }
  }

  lemma ListFrom(toks: seq<Token>, i: nat, ft: Json.FloatText)
    requires i <= |toks|
    ensures ParseList(toks, SkipLines(toks, i), 0, ft) == ParseList(toks, i, 0, ft)
  {
    hide ParseExpr;
    assert SkipLines(toks, SkipLines(toks, i)) == SkipLines(toks, i);
  }

  /** The first item starts with no closing bracket. */
  lemma ItemsStart(items: seq<Item>, toks: seq<Token>, i: nat)
    requires items != [] && AllObey(items) && At(toks, i, FlatItems(items))
    ensures i < |toks| && toks[i].kind != RParen && toks[i].kind != RBracket
    ensures Cur(toks, SkipLines(toks, i)).kind != RParen && Cur(toks, SkipLines(toks, i)).kind != RBracket
  {
    hide Flat, Obeys, Lines, FlatItem, SkipLines;
    OneObeys(items);
    var a := items[0];
    if |items| > 1 { AtSplit(toks, i, FlatItem(a), [Mark(Comma)] + FlatItems(items[1..])); }
    ItemParts(a, toks, i);
    FlatStart(a.e);
    AtIndex(toks, i + a.before, Flat(a.e), 0);
    SkipAt(toks, i, a.before);
    if a.before > 0 { AtIndex(toks, i, Lines(a.before), 0); }
  }

  lemma ItemParts(a: Item, toks: seq<Token>, i: nat)
    requires At(toks, i, FlatItem(a))
    ensures At(toks, i, Lines(a.before)) && At(toks, i + a.before, Flat(a.e))
    ensures At(toks, i + a.before + |Flat(a.e)|, Lines(a.after))
  {
    hide Flat, Lines;
    AtSplit(toks, i, Lines(a.before), Flat(a.e) + Lines(a.after));
    AtSplit(toks, i + a.before, Flat(a.e), Lines(a.after));
  }

  lemma OneObeys(items: seq<Item>)
    requires items != [] && AllObey(items)
    ensures Obeys(items[0].e) && AllObey(items[1..])
  {
  }

  lemma OneErased(items: seq<Item>, ft: Json.FloatText)
    requires items != []
    ensures EraseItems(items, ft) == [Erase(items[0].e, ft)] + EraseItems(items[1..], ft)
    ensures |items| == 1 ==> EraseItems(items, ft) == [Erase(items[0].e, ft)]
  {
    hide Erase;
    if |items| == 1 {
      assert EraseItems(items[1..], ft) == [];
      assert [Erase(items[0].e, ft)] + [] == [Erase(items[0].e, ft)];
    }
  }

  lemma ItemLength(a: Item)
    ensures |FlatItem(a)| == a.before + |Flat(a.e)| + a.after
  {
    hide Flat;
  }

  lemma FlatItemsParts(items: seq<Item>)
    requires items != []
    ensures |items| == 1 ==> FlatItems(items) == FlatItem(items[0])
    ensures |items| > 1 ==> FlatItems(items) == FlatItem(items[0]) + ([Mark(Comma)] + FlatItems(items[1..]))
  {
    hide FlatItem;
  }

  lemma LinesThen(toks: seq<Token>, q: nat, n: nat)
    requires At(toks, q, Lines(n))
    ensures n > 0 ==> Cur(toks, q).kind == Newline
  {
    if n > 0 { AtIndex(toks, q, Lines(n), 0); }
  }

  /** How the newlines around an item are skipped. */
  lemma ItemPlaces(a: Item, toks: seq<Token>, i: nat, m: nat) returns (p: nat, q: nat)
    requires Obeys(a.e) && At(toks, i, FlatItem(a)) && m == i + |FlatItem(a)| <= |toks|
    requires var k := Cur(toks, m).kind; k == Comma || k == RParen || k == RBracket
    ensures i <= p < q == p + |Flat(a.e)| <= |toks| && At(toks, p, Flat(a.e))
    ensures SkipLines(toks, i) == p && SkipLines(toks, q) == m
    ensures Prec(Cur(toks, q).kind) == PREC_NONE && !Runs(a.e, toks, q)
  {
    hide Obeys, Flat, Lines, SkipLines, Runs, FlatItem, At;
    AtBound(toks, i, FlatItem(a));
    ItemParts(a, toks, i);
    ItemLength(a);
    p := i + a.before;
    q := p + |Flat(a.e)|;
    FlatStart(a.e);
    AtIndex(toks, p, Flat(a.e), 0);
    SkipAt(toks, i, a.before);
    SkipAt(toks, q, a.after);
    LinesThen(toks, q, a.after);
    Apart(a.e, toks, q);
  }

  lemma {:induction false} ItemBack(a: Item, toks: seq<Token>, i: nat, m: nat, ft: Json.FloatText) returns (q: nat)
    requires Obeys(a.e) && At(toks, i, FlatItem(a)) && m == i + |FlatItem(a)| <= |toks|
    requires var k := Cur(toks, m).kind; k == Comma || k == RParen || k == RBracket
    ensures i <= |toks| && ParseExpr(toks, SkipLines(toks, i), PREC_NONE, ft) == Got(Erase(a.e, ft), q)
    ensures q <= |toks| && SkipLines(toks, q) == m
    decreases a, 5
  {
    hide ParseExpr, Obeys, Erase, Flat, SkipLines, Runs, FlatItem;
    var p: nat;
    p, q := ItemPlaces(a, toks, i, m);
    Whole(a.e, toks, p, q, PREC_NONE, Erase(a.e, ft), ft);
  }

  /** Where the first item ends and the others start. */
  lemma ItemsSplit(items: seq<Item>, toks: seq<Token>, i: nat) returns (m: nat)
    requires items != [] && AllObey(items) && At(toks, i, FlatItems(items))
    ensures At(toks, i, FlatItem(items[0])) && m == i + |FlatItem(items[0])| <= |toks|
    ensures Obeys(items[0].e) && AllObey(items[1..])
    ensures |items| == 1 ==> m == i + |FlatItems(items)|
    ensures |items| > 1 ==> m < |toks| && toks[m].kind == Comma && At(toks, m + 1, FlatItems(items[1..]))
    ensures |items| > 1 ==> i + |FlatItems(items)| == m + 1 + |FlatItems(items[1..])|
  {
    hide FlatItem, FlatItems, Obeys, AllObey;
    OneObeys(items);
    m := i + |FlatItem(items[0])|;
    FlatItemsParts(items);
    if |items| > 1 {
      AtSplit(toks, i, FlatItem(items[0]), [Mark(Comma)] + FlatItems(items[1..]));
      Opened(toks, m, Mark(Comma), FlatItems(items[1..]));
    }
  }

  lemma {:induction false} ItemsBack(items: seq<Item>, toks: seq<Token>, i: nat, n: nat, ft: Json.FloatText)
    requires items != [] && AllObey(items) && n + |items| <= MAX_ITEMS && At(toks, i, FlatItems(items))
    requires var k := Cur(toks, i + |FlatItems(items)|).kind; k == RParen || k == RBracket
    ensures i <= |toks| && ParseList(toks, i, n, ft) == Got(EraseItems(items, ft), i + |FlatItems(items)|)
    decreases items, 0
  {
    hide ParseExpr, ParseList, FlatItem, FlatItems, Erase, EraseItems, Obeys, AllObey, SkipLines;
    var m := ItemsSplit(items, toks, i);
    var a := items[0];
    var k := ItemBack(a, toks, i, m, ft);
    OneErased(items, ft);
    if |items| > 1 { ItemsBack(items[1..], toks, m + 1, n + 1, ft); }
    ListStep(toks, i, n, ft, Erase(a.e, ft), k, m);
  }

  predicate IsInfix(c: Cst) { Level(c) < ATOM && !c.Prefixed? }

  /** The tokens behind the left operand. */
  function Tail(c: Cst): (r: seq<Token>)
    requires IsInfix(c)
    ensures r != [] && Prec(r[0].kind) == Level(c) && r[0].kind != StrTok && r[0].kind != LBrace
    ensures Flat(c) == Flat(c.l) + r
  {
    match c
    case Infixed(op, _, r) => [Mark(KindOf(op))] + Flat(r)
    case Dotted(_, name) => [Mark(Kind.Dot), Token(Name, name)]
    case Called(_, items) => [Mark(LParen)] + FlatItems(items) + [Mark(RParen)]
    case Subscripted(_, r) => [Mark(LBracket)] + Flat(r) + [Mark(RBracket)]
    case Tried(_) => [Mark(Question)]
  }

  lemma ObeysLeft(c: Cst)
    requires IsInfix(c) && Obeys(c)
    ensures Obeys(c.l) && Level(c) <= Level(c.l)
  {
  }

  lemma LeftParts(c: Cst, toks: seq<Token>, i: nat, j: nat, e: Expr, ft: Json.FloatText) returns (k: nat, left: Expr)
    requires Derives(c, toks, i, j, e, ft) && IsInfix(c)
    ensures i < k < j <= |toks| && j == k + |Tail(c)| && At(toks, k, Tail(c)) && toks[k] == Tail(c)[0]
    ensures left == Erase(c.l, ft) && Derives(c.l, toks, i, k, left, ft) && Prec(toks[k].kind) == Level(c) <= Level(c.l)
  {
    hide Tail, Flat, Runs, Prec;
    ObeysLeft(c);
    k, left := i + |Flat(c.l)|, Erase(c.l, ft);
    AtSplit(toks, i, Flat(c.l), Tail(c));
    AtIndex(toks, k, Tail(c), 0);
    FlatSome(c.l);
    Apart(c.l, toks, k);
  }

  lemma InfixedParts(c: Cst, toks: seq<Token>, i: nat, j: nat, k: nat, e: Expr, ft: Json.FloatText)
    requires c.Infixed? && At(toks, k, Tail(c)) && j == k + |Tail(c)| && Derives(c, toks, i, j, e, ft)
    ensures toks[k].kind == KindOf(c.bop) && e == Binary(c.bop, Erase(c.l, ft), Erase(c.r, ft)) && k < |toks|
    ensures Derives(c.r, toks, k + 1, j, Erase(c.r, ft), ft) && Level(c.r) > Level(c) == Prec(KindOf(c.bop))
    ensures Prec(Cur(toks, j).kind) <= Level(c)
  {
    Opened(toks, k, Mark(KindOf(c.bop)), Flat(c.r));
    FlatSome(c.r);
  }

  lemma CalledParts(c: Cst, toks: seq<Token>, i: nat, j: nat, k: nat, e: Expr, ft: Json.FloatText)
    requires c.Called? && At(toks, k, Tail(c)) && j == k + |Tail(c)| && Derives(c, toks, i, j, e, ft)
    ensures k + 1 <= j - 1 < |toks| && toks[k].kind == LParen && toks[j - 1].kind == RParen
    ensures At(toks, k + 1, FlatItems(c.items)) && j - 1 == k + 1 + |FlatItems(c.items)|
    ensures |c.items| <= MAX_ITEMS && AllObey(c.items) && (c.items == [] ==> FlatItems(c.items) == [])
    ensures e == Call(Erase(c.l, ft), EraseItems(c.items, ft)) && (c.items == [] ==> EraseItems(c.items, ft) == [])
  {
    Bracketed(toks, k, Mark(LParen), FlatItems(c.items), Mark(RParen));
  }

  lemma SubscriptedParts(c: Cst, toks: seq<Token>, i: nat, j: nat, k: nat, e: Expr, ft: Json.FloatText)
    requires c.Subscripted? && At(toks, k, Tail(c)) && j == k + |Tail(c)| && Derives(c, toks, i, j, e, ft)
    ensures k + 1 < j - 1 < |toks| && toks[k].kind == LBracket && toks[j - 1].kind == RBracket
    ensures Derives(c.r, toks, k + 1, j - 1, Erase(c.r, ft), ft)
    ensures e == Index(Erase(c.l, ft), Erase(c.r, ft))
  {
    Bracketed(toks, k, Mark(LBracket), Flat(c.r), Mark(RBracket));
    FlatSome(c.r);
    Apart(c.r, toks, j - 1);
  }

  lemma ShortParts(c: Cst, toks: seq<Token>, i: nat, j: nat, k: nat, e: Expr, ft: Json.FloatText)
    requires (c.Dotted? || c.Tried?) && At(toks, k, Tail(c)) && j == k + |Tail(c)| && Derives(c, toks, i, j, e, ft)
    ensures c.Tried? ==> j == k + 1 <= |toks| && toks[k].kind == Question && e == Try(Erase(c.l, ft))
    ensures c.Dotted? ==> j == k + 2 <= |toks| && toks[k].kind == Kind.Dot && toks[k + 1] == Token(Name, c.name)
                          && e == Field(Erase(c.l, ft), c.name)
  {
    AtIndex(toks, k, Tail(c), 0);
    if c.Dotted? { AtIndex(toks, k, Tail(c), 1); }
  }

  /** The other forms are what parse_infix returns behind their left operand. */
  lemma {:induction false} InfixBack(c: Cst, toks: seq<Token>, i: nat, j: nat, e: Expr, ft: Json.FloatText)
    returns (k: nat, left: Expr)
    requires Derives(c, toks, i, j, e, ft) && IsInfix(c)
    ensures i < k < j <= |toks| && Derives(c.l, toks, i, k, left, ft) && Prec(toks[k].kind) == Level(c) <= Level(c.l)
    ensures ParseInfix(toks, k, left, ft) == Got(e, j)
    decreases c, 1
  {
    hide ParseExpr, ParseInfix, ParseList, Flat, Tail, Runs, Obeys, Erase, Derives;
    k, left := LeftParts(c, toks, i, j, e, ft);
    if c.Called? {
      CalledBack(c, toks, i, j, k, left, e, ft);
    } else if c.Infixed? {
      InfixedParts(c, toks, i, j, k, e, ft);
      Whole(c.r, toks, k + 1, j, Level(c), Erase(c.r, ft), ft);
      BinaryGives(toks, k, left, ft, j, c.bop, Erase(c.r, ft));
    } else if c.Subscripted? {
      SubscriptedParts(c, toks, i, j, k, e, ft);
      Whole(c.r, toks, k + 1, j - 1, PREC_NONE, Erase(c.r, ft), ft);
      IndexGives(toks, k, left, ft, j - 1, Erase(c.r, ft));
    } else {
      ShortParts(c, toks, i, j, k, e, ft);
      ShortGives(toks, k, left, ft);
    }
  }

  lemma {:induction false} CalledBack(c: Cst, toks: seq<Token>, i: nat, j: nat, k: nat, left: Expr, e: Expr,
      ft: Json.FloatText)
    requires c.Called? && At(toks, k, Tail(c)) && j == k + |Tail(c)| && Derives(c, toks, i, j, e, ft)
    requires left == Erase(c.l, ft)
    ensures k < |toks| && ParseInfix(toks, k, left, ft) == Got(e, j)
    decreases c, 0
  {
    hide ParseExpr, ParseInfix, ParseList, Flat, FlatItems, Obeys, AllObey, Tail, SkipLines, Erase, EraseItems, Derives;
    CalledParts(c, toks, i, j, k, e, ft);
    var items := c.items;
    if items == [] {
      CallGives(toks, k, left, ft, j - 1, []);
    } else {
      ItemsBack(items, toks, k + 1, 0, ft);
      ItemsStart(items, toks, k + 1);
      CallGives(toks, k, left, ft, j - 1, EraseItems(items, ft));
    }
  }

  lemma BinaryGives(toks: seq<Token>, k: nat, left: Expr, ft: Json.FloatText, j: nat, op: BinOp, right: Expr)
    requires k < |toks| && toks[k].kind == KindOf(op)
    requires ParseExpr(toks, k + 1, Prec(KindOf(op)), ft) == Got(right, j)
    ensures ParseInfix(toks, k, left, ft) == Got(Binary(op, left, right), j)
  {
    hide ParseExpr, ParseList, KindOf, BinOf, Prec;
    KindBack(op);
  }

  lemma KindBack(op: BinOp)
    ensures PREC_NONE < Prec(KindOf(op)) < PREC_CALL && BinOf(KindOf(op)) == op
    ensures KindOf(op) != Question && KindOf(op) != LParen && KindOf(op) != LBracket && KindOf(op) != Kind.Dot
  {
  }

  lemma CallGives(toks: seq<Token>, k: nat, left: Expr, ft: Json.FloatText, p: nat, es: seq<Expr>)
    requires k < p < |toks| && toks[k].kind == LParen && toks[p].kind == RParen
    requires if p == k + 1 then es == [] else toks[k + 1].kind != RParen && ParseList(toks, k + 1, 0, ft) == Got(es, p)
    ensures ParseInfix(toks, k, left, ft) == Got(Call(left, es), p + 1)
  {
    hide ParseExpr, ParseList;
  }

  lemma IndexGives(toks: seq<Token>, k: nat, left: Expr, ft: Json.FloatText, p: nat, e: Expr)
    requires k < p < |toks| && toks[k].kind == LBracket && toks[p].kind == RBracket
    requires ParseExpr(toks, k + 1, PREC_NONE, ft) == Got(e, p)
    ensures ParseInfix(toks, k, left, ft) == Got(Index(left, e), p + 1)
  {
    hide ParseExpr;
  }

  lemma ShortGives(toks: seq<Token>, k: nat, left: Expr, ft: Json.FloatText)
    requires k < |toks|
    ensures toks[k].kind == Question ==> ParseInfix(toks, k, left, ft) == Got(Try(left), k + 1)
    ensures toks[k].kind == Kind.Dot && k + 1 < |toks| && toks[k + 1].kind == Name ==>
              ParseInfix(toks, k, left, ft) == Got(Field(left, toks[k + 1].text), k + 2)
  {
    hide ParseExpr, ParseList;
  }

  /** Parsing a derivation from its start is to go on climbing behind it. */
  lemma {:induction false} Absorb(c: Cst, toks: seq<Token>, i: nat, j: nat, low: nat, e: Expr, ft: Json.FloatText)
    requires Derives(c, toks, i, j, e, ft) && Fits(c, low)
    ensures ParseExpr(toks, i, low, ft) == Climb(toks, j, low, e, ft)
    decreases c, 3
  {
    hide ParsePrefix, ParseInfix, Flat, Obeys, Erase, Runs;
    if IsInfix(c) {
      var k, left := InfixBack(c, toks, i, j, e, ft);
      Absorb(c.l, toks, i, k, low, left, ft);
    } else {
      PrimaryBack(c, toks, i, j, e, ft);
    }
  }

  /** Completeness: what the grammar derives, up to where no operator goes on, is
      what the parser returns. */
  lemma {:induction false} Whole(c: Cst, toks: seq<Token>, i: nat, j: nat, low: nat, e: Expr, ft: Json.FloatText)
    requires Derives(c, toks, i, j, e, ft) && Fits(c, low) && Prec(Cur(toks, j).kind) <= low
    ensures ParseExpr(toks, i, low, ft) == Got(e, j)
    decreases c, 4
  {
    hide ParseExpr, ParseInfix, Flat, Obeys, Erase, Runs;
    Absorb(c, toks, i, j, low, e, ft);
  }
}
