/** The precedence table of the language, row by row, and what it makes of expressions:
    without the numbers that the parser gives its tokens. */
module Precedence {
  import opened Ast
  import opened Tokens
  import opened Places
  import opened Pratt
  import opened Grammar
  import Json
  import JsonGrammar
  import JsonTexts
  import ParserLaws

  /** Tokens and their operators, from the loosest row to the tightest. */
  const ROWS: seq<seq<(Kind, BinOp)>> := [
    [(Kind.Or, BinOp.Or)],
    [(Kind.And, BinOp.And)],
    [(Kind.Eq, BinOp.Eq), (Kind.Neq, BinOp.Neq)],
    [(Kind.Lt, BinOp.Lt), (Kind.Gt, BinOp.Gt), (Kind.Le, BinOp.Le), (Kind.Ge, BinOp.Ge)],
    [(Plus, Add), (Minus, Sub)],
    [(Star, Mul), (Slash, Div), (Percent, Mod)]]

  predicate InTable(r: nat, c: nat) { r < |ROWS| && c < |ROWS[r]| }

  function TokenAt(r: nat, c: nat): Token
    requires InTable(r, c)
  {
    Mark(ROWS[r][c].0)
  }

  function OpAt(r: nat, c: nat): BinOp
    requires InTable(r, c)
  {
    ROWS[r][c].1
  }

  /** The tokens that go on with an expression. */
  predicate GoesOn(k: Kind) {
    match k
    case Or | And | Eq | Neq | Lt | Gt | Le | Ge | Plus | Minus | Star | Slash | Percent => true
    case LParen | Dot | LBracket | Question => true
    case _ => false
  }

  /** An expression may end before such a token. */
  predicate MayFollow(k: Kind) { !GoesOn(k) && k != StrTok && k != LBrace }

  predicate IsOperand(t: Token) {
    t.kind == IntTok || t.kind == FloatTok || t.kind == StrTok || t.kind == Name || t.kind == True || t.kind == False
  }

  // ----- rows and precedences -----

  lemma RowIs(r: nat, c: nat)
    requires InTable(r, c)
    ensures Prec(ROWS[r][c].0) == r + 1 && KindOf(OpAt(r, c)) == ROWS[r][c].0
  {
    if r < 3 { LooseRow(r, c); } else { TightRow(r, c); }
  }

  lemma LooseRow(r: nat, c: nat)
    requires InTable(r, c) && r < 3
    ensures Prec(ROWS[r][c].0) == r + 1 && KindOf(OpAt(r, c)) == ROWS[r][c].0
  {
    var row := ROWS[r];
    if r == 0 { assert row == [(Kind.Or, BinOp.Or)]; }
    else if r == 1 { assert row == [(Kind.And, BinOp.And)]; }
    else { assert row == [(Kind.Eq, BinOp.Eq), (Kind.Neq, BinOp.Neq)]; }
  }

  lemma TightRow(r: nat, c: nat)
    requires InTable(r, c) && r >= 3
    ensures Prec(ROWS[r][c].0) == r + 1 && KindOf(OpAt(r, c)) == ROWS[r][c].0
  {
    var row := ROWS[r];
    if r == 3 { assert |row| == 4; }
    else if r == 4 { assert row == [(Plus, Add), (Minus, Sub)]; }
    else { assert row == [(Star, Mul), (Slash, Div), (Percent, Mod)]; }
  }

  lemma GoesOnIs(k: Kind)
    ensures GoesOn(k) <==> Prec(k) > 0
  {
  }

  lemma OperandIs(t: Token)
    ensures IsOperand(t) <==> IsLeaf(t.kind)
  {
  }

  // ----- two operators -----

  lemma Infixes(op: BinOp, l: Cst, r: Cst, ft: Json.FloatText)
    ensures var c := Infixed(op, l, r);
      && Flat(c) == Flat(l) + ([Mark(KindOf(op))] + Flat(r)) && Erase(c, ft) == Binary(op, Erase(l, ft), Erase(r, ft))
      && Level(c) == Prec(KindOf(op))
      && (Obeys(c) <==> Obeys(l) && Obeys(r) && Level(l) >= Prec(KindOf(op)) && Level(r) > Prec(KindOf(op)))
  {
    hide Prec, KindOf;
  }

  lemma Leaf(t: Token, ft: Json.FloatText)
    requires IsOperand(t)
    ensures var c := Tok(t);
      Flat(c) == [t] && Obeys(c) && Level(c) > 8 && Erase(c, ft) == LeafOf(t, ft) && IsLeaf(t.kind)
  {
  }

  /** A derivation at the start of the tokens is what they are parsed to. */
  lemma FromStart(c: Cst, toks: seq<Token>, rest: seq<Token>, ft: Json.FloatText)
    requires Obeys(c) && toks == Flat(c) + rest && MayFollow(Cur(rest, 0).kind)
    ensures ParseExpr(toks, 0, 0, ft) == Got(Erase(c, ft), |Flat(c)|)
  {
    hide ParseExpr, Obeys, Erase, Flat, Runs, Level, Prec;
    FlatSome(c);
    assert At(toks, 0, Flat(c)) by { assert toks[0..|Flat(c)|] == Flat(c); }
    assert Cur(toks, |Flat(c)|) == Cur(rest, 0);
    GoesOnIs(Cur(rest, 0).kind);
    Apart(c, toks, |Flat(c)|);
    assert Derives(c, toks, 0, |Flat(c)|, Erase(c, ft), ft);
    Whole(c, toks, 0, |Flat(c)|, 0, Erase(c, ft), ft);
  }

  /** Of two operators between three operands, the second takes the middle one exactly
      when it stands in a later row. */
  lemma TwoOperators(x: Token, y: Token, z: Token, r1: nat, c1: nat, r2: nat, c2: nat, rest: seq<Token>,
      ft: Json.FloatText)
    requires IsOperand(x) && IsOperand(y) && IsOperand(z) && InTable(r1, c1) && InTable(r2, c2)
    requires MayFollow(Cur(rest, 0).kind)
    ensures var a, b, c := LeafOf(x, ft), LeafOf(y, ft), LeafOf(z, ft); var o1, o2 := OpAt(r1, c1), OpAt(r2, c2);
      ParseExpr([x, TokenAt(r1, c1), y, TokenAt(r2, c2), z] + rest, 0, 0, ft)
      == Got(if r2 > r1 then Binary(o1, a, Binary(o2, b, c)) else Binary(o2, Binary(o1, a, b), c), 5)
  {
    hide ParseExpr, Obeys, Erase, Flat, Level, Prec, LeafOf;
    var o1, o2 := OpAt(r1, c1), OpAt(r2, c2);
    RowIs(r1, c1);
    RowIs(r2, c2);
    Leaf(x, ft);
    Leaf(y, ft);
    Leaf(z, ft);
    var toks := [x, TokenAt(r1, c1), y, TokenAt(r2, c2), z];
    if r2 > r1 {
      var inner := Infixed(o2, Tok(y), Tok(z));
      Infixes(o2, Tok(y), Tok(z), ft);
      Infixes(o1, Tok(x), inner, ft);
      assert toks == Flat(Infixed(o1, Tok(x), inner));
      FromStart(Infixed(o1, Tok(x), inner), toks + rest, rest, ft);
    } else {
      var inner := Infixed(o1, Tok(x), Tok(y));
      Infixes(o1, Tok(x), Tok(y), ft);
      Infixes(o2, inner, Tok(z), ft);
      assert toks == Flat(Infixed(o2, inner, Tok(z)));
      FromStart(Infixed(o2, inner, Tok(z)), toks + rest, rest, ft);
    }
  }

  // ----- prefix and postfix forms -----

  lemma Prefixes(op: UnOp, e: Cst, ft: Json.FloatText)
    ensures var c := Prefixed(op, e);
      && Flat(c) == [Mark(if op == Neg then Minus else Kind.Not)] + Flat(e) && Erase(c, ft) == Unary(op, Erase(e, ft))
      && Level(c) == 7 && (Obeys(c) <==> Obeys(e) && Level(e) >= 7)
  {
  }

  /** A prefix operator takes its operand only, whatever row the next operator is in. */
  lemma PrefixBinds(not: bool, x: Token, r: nat, c: nat, y: Token, rest: seq<Token>, ft: Json.FloatText)
    requires IsOperand(x) && IsOperand(y) && InTable(r, c) && MayFollow(Cur(rest, 0).kind)
    ensures var a, b := LeafOf(x, ft), LeafOf(y, ft);
      ParseExpr([Mark(if not then Kind.Not else Minus), x, TokenAt(r, c), y] + rest, 0, 0, ft)
      == Got(Binary(OpAt(r, c), Unary(if not then UnOp.Not else Neg, a), b), 4)
    ensures var a, b := LeafOf(x, ft), LeafOf(y, ft);
      ParseExpr([x, TokenAt(r, c), Mark(if not then Kind.Not else Minus), y] + rest, 0, 0, ft)
      == Got(Binary(OpAt(r, c), a, Unary(if not then UnOp.Not else Neg, b)), 4)
  {
    hide ParseExpr, Obeys, Erase, Flat, Level, Prec, LeafOf;
    var op := if not then UnOp.Not else Neg;
    var sign := Mark(if not then Kind.Not else Minus);
    RowIs(r, c);
    Leaf(x, ft);
    Leaf(y, ft);
    Prefixes(op, Tok(x), ft);
    Infixes(OpAt(r, c), Prefixed(op, Tok(x)), Tok(y), ft);
    var first := Infixed(OpAt(r, c), Prefixed(op, Tok(x)), Tok(y));
    assert [sign, x, TokenAt(r, c), y] == Flat(first);
    FromStart(first, [sign, x, TokenAt(r, c), y] + rest, rest, ft);
    Prefixes(op, Tok(y), ft);
    Infixes(OpAt(r, c), Tok(x), Prefixed(op, Tok(y)), ft);
    var second := Infixed(OpAt(r, c), Tok(x), Prefixed(op, Tok(y)));
    assert [x, TokenAt(r, c), sign, y] == Flat(second);
    FromStart(second, [x, TokenAt(r, c), sign, y] + rest, rest, ft);
  }

  /** The postfix forms: a field, a call, an index, and `?`. */
  datatype Post = Member(name: string) | Args(arg: Token) | Element(arg: Token) | Ask

  predicate LegalPost(p: Post) { p.Args? || p.Element? ==> IsOperand(p.arg) }

  function PostTokens(p: Post): seq<Token> {
    match p
    case Member(name) => [Mark(Kind.Dot), Token(Name, name)]
    case Args(t) => [Mark(LParen), t, Mark(RParen)]
    case Element(t) => [Mark(LBracket), t, Mark(RBracket)]
    case Ask => [Mark(Question)]
  }

  function PostTree(p: Post, e: Expr, ft: Json.FloatText): Expr
    requires LegalPost(p)
  {
    match p
    case Member(name) => Field(e, name)
    case Args(t) => (OperandIs(t); Call(e, [LeafOf(t, ft)]))
    case Element(t) => (OperandIs(t); Index(e, LeafOf(t, ft)))
    case Ask => Try(e)
  }

  function PostCst(p: Post, l: Cst): Cst {
    match p
    case Member(name) => Dotted(l, name)
    case Args(t) => Called(l, [Item(0, Tok(t), 0)])
    case Element(t) => Subscripted(l, Tok(t))
    case Ask => Tried(l)
  }

  lemma Postfixes(p: Post, l: Cst, ft: Json.FloatText)
    requires LegalPost(p)
    ensures var c := PostCst(p, l);
      && Flat(c) == Flat(l) + PostTokens(p) && Erase(c, ft) == PostTree(p, Erase(l, ft), ft)
      && Level(c) == 8 && (Obeys(c) <==> Obeys(l) && Level(l) >= 8)
  {
    if p.Args? { OneItem(p.arg, ft); }
    if p.Element? { Leaf(p.arg, ft); }
  }

  lemma OneItem(t: Token, ft: Json.FloatText)
    requires IsOperand(t)
    ensures var items := [Item(0, Tok(t), 0)];
      FlatItems(items) == [t] && EraseItems(items, ft) == [LeafOf(t, ft)] && AllObey(items) && IsLeaf(t.kind)
  {
    var a := Item(0, Tok(t), 0);
    Leaf(t, ft);
    assert FlatItem(a) == [t];
    assert [a][1..] == [] && EraseItem(a, ft) == LeafOf(t, ft) && ItemObeys(a);
  }

  lemma Front(a: Token, b: Token, more: seq<Token>)
    ensures [a] + ([b] + more) == [a, b] + more
  {
  }

  /** A postfix form binds tighter than a prefix operator before it. */
  lemma PostfixFirst(not: bool, x: Token, p: Post, rest: seq<Token>, ft: Json.FloatText)
    requires IsOperand(x) && LegalPost(p) && MayFollow(Cur(rest, 0).kind)
    ensures ParseExpr([Mark(if not then Kind.Not else Minus), x] + PostTokens(p) + rest, 0, 0, ft)
      == Got(Unary(if not then UnOp.Not else Neg, PostTree(p, LeafOf(x, ft), ft)), 2 + |PostTokens(p)|)
  {
    hide ParseExpr, Obeys, Erase, Flat, Level, Prec, LeafOf, PostTree, PostTokens, PostCst;
    var op := if not then UnOp.Not else Neg;
    var sign := Mark(if not then Kind.Not else Minus);
    Leaf(x, ft);
    Postfixes(p, Tok(x), ft);
    var inner := PostCst(p, Tok(x));
    Prefixes(op, inner, ft);
    Front(sign, x, PostTokens(p));
    FromStart(Prefixed(op, inner), [sign, x] + PostTokens(p) + rest, rest, ft);
  }

  /** And tighter than any binary operator before it. */
  lemma PostfixBinds(x: Token, p: Post, r: nat, c: nat, y: Token, rest: seq<Token>, ft: Json.FloatText)
    requires IsOperand(x) && IsOperand(y) && InTable(r, c) && LegalPost(p) && MayFollow(Cur(rest, 0).kind)
    ensures ParseExpr([x, TokenAt(r, c), y] + PostTokens(p) + rest, 0, 0, ft)
      == Got(Binary(OpAt(r, c), LeafOf(x, ft), PostTree(p, LeafOf(y, ft), ft)), 3 + |PostTokens(p)|)
  {
    hide ParseExpr, Obeys, Erase, Flat, Level, Prec, LeafOf, PostTree, PostTokens, PostCst;
    var op := OpAt(r, c);
    RowIs(r, c);
    Leaf(x, ft);
    Leaf(y, ft);
    Postfixes(p, Tok(y), ft);
    var inner := PostCst(p, Tok(y));
    Infixes(op, Tok(x), inner, ft);
    assert [x, TokenAt(r, c), y] + PostTokens(p) == Flat(Infixed(op, Tok(x), inner));
    FromStart(Infixed(op, Tok(x), inner), [x, TokenAt(r, c), y] + PostTokens(p) + rest, rest, ft);
  }

  // ----- operands and lists -----

  /** Literals and names: an integer is what the first 31 characters of its digits write,
      at most the greatest of 64 bits; a string keeps its quotes. */
  lemma OperandAlone(x: Token, rest: seq<Token>, ft: Json.FloatText)
    requires IsOperand(x) && x.kind != FloatTok && MayFollow(Cur(rest, 0).kind)
    requires x.kind == IntTok ==> JsonGrammar.Numeral(x.text) && x.text != ""
    ensures ParseExpr([x] + rest, 0, 0, ft)
      == Got(if x.kind == True then BoolLit(true)
             else if x.kind == False then BoolLit(false)
             else if x.kind == StrTok then StrLit(x.text)
             else if x.kind == Name then Ident(x.text)
             else IntLit(JsonGrammar.Bounded(false, JsonGrammar.Worth(JsonGrammar.Leading(x.text, 31)))), 1)
  {
    hide ParseExpr, Obeys, Erase, Flat, Level, IntOf, JsonGrammar.Worth, JsonGrammar.Bounded, JsonGrammar.Leading;
    Leaf(x, ft);
    FromStart(Tok(x), [x] + rest, rest, ft);
    if x.kind == IntTok { IntOfIs(x.text); }
  }

  lemma IntOfIs(t: string)
    requires JsonGrammar.Numeral(t) && t != ""
    ensures IntOf(t) == JsonGrammar.Bounded(false, JsonGrammar.Worth(JsonGrammar.Leading(t, 31)))
  {
    hide Json.SkipDigits, Json.StrToLL, JsonGrammar.Worth, JsonGrammar.Bounded;
    var d := JsonGrammar.Leading(t, 31);
    assert At(d, 0, d) by { assert d[0..|d|] == d; }
    JsonTexts.DigitsBack(d, 0, d);
    JsonTexts.IntIs(false, d, d);
    assert d[..|d|] == d;
  }

  /** Wrapped and grouped operands. */
  lemma AroundOperand(x: Token, isOk: bool, rest: seq<Token>, ft: Json.FloatText)
    requires IsOperand(x) && MayFollow(Cur(rest, 0).kind)
    ensures ParseExpr([Mark(if isOk then Kind.Ok else Kind.Err), Mark(LParen), x, Mark(RParen)] + rest, 0, 0, ft)
      == Got(ResultLit(isOk, LeafOf(x, ft)), 4)
    ensures ParseExpr([Mark(LParen), x, Mark(RParen)] + rest, 0, 0, ft) == Got(LeafOf(x, ft), 3)
  {
    hide ParseExpr, LeafOf;
    Leaf(x, ft);
    var c := Wrapped(isOk, Tok(x));
    assert Flat(c) == [Mark(if isOk then Kind.Ok else Kind.Err), Mark(LParen), x, Mark(RParen)];
    FromStart(c, Flat(c) + rest, rest, ft);
    var d := Group(Tok(x));
    assert Flat(d) == [Mark(LParen), x, Mark(RParen)];
    FromStart(d, Flat(d) + rest, rest, ft);
  }

  /** The tokens of a list of n names. */
  function Names(x: string, n: nat): seq<Token> {
    if n == 0 then [] else if n == 1 then [Token(Name, x)] else [Token(Name, x), Mark(Comma)] + Names(x, n - 1)
  }

  function Copies(x: string, n: nat): (r: seq<Expr>)
    ensures |r| == n
  {
    if n == 0 then [] else [Ident(x)] + Copies(x, n - 1)
  }

  function NameItems(x: string, n: nat): (r: seq<Item>)
    ensures |r| == n
  {
    if n == 0 then [] else [Item(0, Tok(Token(Name, x)), 0)] + NameItems(x, n - 1)
  }

  lemma NextName(x: string, n: nat, ft: Json.FloatText)
    requires n > 0
    ensures var more := NameItems(x, n - 1);
      && FlatItems(NameItems(x, n))
         == (if n == 1 then [Token(Name, x)] else [Token(Name, x)] + ([Mark(Comma)] + FlatItems(more)))
      && EraseItems(NameItems(x, n), ft) == [Ident(x)] + EraseItems(more, ft)
      && (AllByRows(NameItems(x, n)) <==> AllByRows(more)) && (AllObey(NameItems(x, n)) <==> AllObey(more))
  {
    var a, more := Item(0, Tok(Token(Name, x)), 0), NameItems(x, n - 1);
    assert NameItems(x, n) == [a] + more && ([a] + more)[1..] == more;
    OneName(a, x, ft);
    hide FlatItem, EraseItem, ItemByRows, ItemObeys, NameItems;
  }

  lemma OneName(a: Item, x: string, ft: Json.FloatText)
    requires a == Item(0, Tok(Token(Name, x)), 0)
    ensures FlatItem(a) == [Token(Name, x)] && EraseItem(a, ft) == Ident(x) && ItemByRows(a) && ItemObeys(a)
  {
  }

  lemma {:induction false} NamesFlat(x: string, n: nat, ft: Json.FloatText)
    ensures FlatItems(NameItems(x, n)) == Names(x, n) && EraseItems(NameItems(x, n), ft) == Copies(x, n)
    ensures AllByRows(NameItems(x, n)) && AllObey(NameItems(x, n))
    decreases n
  {
    hide *;
    if n > 0 {
      NamesFlat(x, n - 1, ft);
      NextName(x, n, ft);
      MoreNames(x, n);
    } else {
      NoNames(x, ft);
    }
  }

  lemma MoreNames(x: string, n: nat)
    requires n > 0
    ensures Names(x, n)
      == if n == 1 then [Token(Name, x)] else [Token(Name, x)] + ([Mark(Comma)] + Names(x, n - 1))
    ensures Copies(x, n) == [Ident(x)] + Copies(x, n - 1)
  {
    assert [Token(Name, x), Mark(Comma)] + Names(x, n - 1) == [Token(Name, x)] + ([Mark(Comma)] + Names(x, n - 1));
  }

  lemma NoNames(x: string, ft: Json.FloatText)
    ensures FlatItems(NameItems(x, 0)) == Names(x, 0) && EraseItems(NameItems(x, 0), ft) == Copies(x, 0)
    ensures AllByRows(NameItems(x, 0)) && AllObey(NameItems(x, 0))
  {
  }

  /** A list of n names is parsed to them if and only if there are at most 128. */
  lemma ListsUpTo128(x: string, n: nat, rest: seq<Token>, ft: Json.FloatText)
    requires Clean(rest) && MayFollow(Cur(rest, 0).kind)
    ensures var toks := [Mark(LBracket)] + Names(x, n) + [Mark(RBracket)] + rest;
      ParseExpr(toks, 0, 0, ft) == Got(ArrayLit(Copies(x, n)), 2 + |Names(x, n)|) <==> n <= 128
  {
    hide ParseExpr, Names, NameItems, Copies, Obeys, AllObey, AllByRows;
    var toks := [Mark(LBracket)] + Names(x, n) + [Mark(RBracket)] + rest;
    var c := Listed(0, NameItems(x, n));
    NamesFlat(x, n, ft);
    assert Flat(c) == [Mark(LBracket)] + Names(x, n) + [Mark(RBracket)] by { assert Lines(0) == []; }
    if n <= 128 {
      ListObeys(c);
      FromStart(c, toks, rest, ft);
    } else if ParseExpr(toks, 0, 0, ft) == Got(ArrayLit(Copies(x, n)), 2 + |Names(x, n)|) {
      NamesClean(x, n);
      ParsesByRows(toks, 0, 2 + |Names(x, n)|, ArrayLit(Copies(x, n)), ft);
      var d :| Reads(d, toks, 0, 2 + |Names(x, n)|, ArrayLit(Copies(x, n)), ft);
      LongList(d, toks, 2 + |Names(x, n)|, Copies(x, n), ft);
    }
  }

  lemma ListObeys(c: Cst)
    requires c.Listed? && |c.items| <= 128 && AllObey(c.items)
    ensures Obeys(c)
  {
  }

  lemma {:induction false} NamesClean(x: string, n: nat)
    ensures Clean(Names(x, n))
    decreases n
  {
    if n > 0 { NamesClean(x, n - 1); }
  }

  /** Nothing but a list of at most 128 is read as one from an opening bracket on. */
  lemma LongList(c: Cst, toks: seq<Token>, j: nat, es: seq<Expr>, ft: Json.FloatText)
    requires Reads(c, toks, 0, j, ArrayLit(es), ft) && toks[0].kind == LBracket
    ensures |es| <= 128
  {
    hide Runs, AllByRows, GoesOn;
    AtIndex(toks, 0, Flat(c), 0);
  }

  // ----- names that start something else -----

  /** A name before a brace opens a struct literal when, behind newlines, the brace closes
      again or a name and a colon follow; `f` before a string is an interpolated one.  The
      model gives neither a tree. */
  lemma FormsLeftOut(x: string, s: string, y: string, n: nat, rest: seq<Token>, ft: Json.FloatText)
    ensures ParseExpr([Token(Name, "f"), Token(StrTok, s)] + rest, 0, 0, ft) == Bad(Foreign, 0)
    ensures var toks := [Token(Name, x), Mark(LBrace)] + Lines(n) + [Mark(RBrace)] + rest;
      ParseExpr(toks, 0, 0, ft) == Bad(Foreign, 0)
    ensures var toks := [Token(Name, x), Mark(LBrace)] + Lines(n) + [Token(Name, y), Mark(Colon)] + rest;
      ParseExpr(toks, 0, 0, ft) == Bad(Foreign, 0)
  {
    hide ParseExpr;
    LeftOut([Token(Name, "f"), Token(StrTok, s)] + rest, ft);
    BraceLeftOut(x, n, [Mark(RBrace)] + rest, ft);
    BraceLeftOut(x, n, [Token(Name, y), Mark(Colon)] + rest, ft);
    var front := [Token(Name, x), Mark(LBrace)] + Lines(n);
    assert front + [Mark(RBrace)] + rest == front + ([Mark(RBrace)] + rest);
    assert front + [Token(Name, y), Mark(Colon)] + rest == front + ([Token(Name, y), Mark(Colon)] + rest);
  }

  lemma BraceLeftOut(x: string, n: nat, more: seq<Token>, ft: Json.FloatText)
    requires more != [] && (more[0].kind == RBrace || (more[0].kind == Name && Cur(more, 1).kind == Colon))
    ensures ParseExpr([Token(Name, x), Mark(LBrace)] + Lines(n) + more, 0, 0, ft) == Bad(Foreign, 0)
  {
    hide ParseExpr, Lines, SkipLines;
    var toks := [Token(Name, x), Mark(LBrace)] + Lines(n) + more;
    BracePlaces(x, n, more);
    LinesSkipped(toks, n);
    LeftOut(toks, ft);
  }

  lemma BracePlaces(x: string, n: nat, more: seq<Token>)
    requires more != []
    ensures var toks := [Token(Name, x), Mark(LBrace)] + Lines(n) + more;
      && |toks| > 2 + n && toks[0] == Token(Name, x) && toks[1] == Mark(LBrace) && toks[2 + n] == more[0]
      && (forall i :: 2 <= i < 2 + n ==> toks[i].kind == Newline) && Cur(toks, 3 + n) == Cur(more, 1)
  {
    var toks := [Token(Name, x), Mark(LBrace)] + Lines(n) + more;
    assert forall i :: 2 <= i < 2 + n ==> toks[i] == Lines(n)[i - 2];
  }

  lemma LeftOut(toks: seq<Token>, ft: Json.FloatText)
    requires |toks| > 1 && toks[0].kind == Name
    requires (toks[0].text == "f" && toks[1].kind == StrTok)
      || (toks[1].kind == LBrace
          && var j := SkipLines(toks, 2);
             Cur(toks, j).kind == RBrace || (Cur(toks, j).kind == Name && Cur(toks, j + 1).kind == Colon))
    ensures ParseExpr(toks, 0, 0, ft) == Bad(Foreign, 0)
  {
    hide SkipLines, Climb;
  }

  lemma LinesSkipped(toks: seq<Token>, n: nat)
    requires |toks| > 2 + n && (forall i :: 2 <= i < 2 + n ==> toks[i].kind == Newline) && toks[2 + n].kind != Newline
    ensures SkipLines(toks, 2) == 2 + n
  {
    SkipFrom(toks, 2, 2 + n);
  }

  lemma {:induction false} SkipFrom(toks: seq<Token>, i: nat, j: nat)
    requires i <= j < |toks| && (forall k :: i <= k < j ==> toks[k].kind == Newline) && toks[j].kind != Newline
    ensures SkipLines(toks, i) == j
    decreases j - i
  {
    if i < j { SkipFrom(toks, i + 1, j); }
  }

  /** Every other name is an operand, before a brace as well, where a block begins. */
  lemma NameBeforeBlock(x: string, n: nat, rest: seq<Token>, ft: Json.FloatText)
    requires rest != [] && rest[0].kind != Newline && rest[0].kind != RBrace
    requires rest[0].kind == Name ==> Cur(rest, 1).kind != Colon
    ensures ParseExpr([Token(Name, x), Mark(LBrace)] + Lines(n) + rest, 0, 0, ft) == Got(Ident(x), 1)
  {
    hide ParseExpr, Lines;
    var toks := [Token(Name, x), Mark(LBrace)] + Lines(n) + rest;
    assert forall i :: 2 <= i < 2 + n ==> toks[i] == Lines(n)[i - 2];
    assert toks[2 + n] == rest[0] && Cur(toks, 3 + n) == Cur(rest, 1);
    LinesSkipped(toks, n);
    NameEnds(toks, x, 2 + n, ft);
  }

  lemma NameEnds(toks: seq<Token>, x: string, j: nat, ft: Json.FloatText)
    requires 2 <= j < |toks| && toks[0] == Token(Name, x) && toks[1] == Mark(LBrace) && SkipLines(toks, 2) == j
    requires toks[j].kind != RBrace && (toks[j].kind == Name ==> Cur(toks, j + 1).kind != Colon)
    ensures ParseExpr(toks, 0, 0, ft) == Got(Ident(x), 1)
  {
    hide SkipLines;
  }

  // ----- what is missing -----

  /** The tokens that an expression may begin with. */
  predicate Begins(k: Kind) {
    match k
    case IntTok | FloatTok | StrTok | Name | True | False => true
    case LParen | LBracket | LBrace | Not | Minus | Ok | Err | Fn | Match => true
    case _ => false
  }

  lemma OperandAt(toks: seq<Token>, i: nat, low: nat, ft: Json.FloatText)
    requires i < |toks| && IsOperand(toks[i]) && MayFollow(Cur(toks, i + 1).kind)
    ensures ParseExpr(toks, i, low, ft) == Got(LeafOf(toks[i], ft), i + 1)
  {
    hide LeafOf, ParseInfix, Prec;
    GoesOnIs(Cur(toks, i + 1).kind);
    OperandIs(toks[i]);
  }

  lemma NoOperand(toks: seq<Token>, i: nat, low: nat, ft: Json.FloatText)
    requires i <= |toks| && !Begins(Cur(toks, i).kind)
    ensures ParseExpr(toks, i, low, ft) == Bad(Unexpected, i)
  {
    hide LeafOf, ParseInfix, ParseWrap, ParseElems, Climb;
  }

  /** A list of one operand. */
  lemma ListAt(toks: seq<Token>, i: nat, ft: Json.FloatText)
    requires i + 1 < |toks| && IsOperand(toks[i]) && MayFollow(toks[i + 1].kind)
    requires toks[i + 1].kind != Comma && toks[i + 1].kind != Newline
    ensures ParseList(toks, i, 0, ft) == Got([LeafOf(toks[i], ft)], i + 1)
  {
    hide LeafOf, ParseExpr;
    OperandAt(toks, i, 0, ft);
    assert SkipLines(toks, i) == i && SkipLines(toks, i + 1) == i + 1;
    ListStep(toks, i, 0, ft, LeafOf(toks[i], ft), i + 1, i + 1);
  }

  /** Of an operand and an operator or a postfix form behind it, the error is that of the
      form. */
  lemma FormAt(toks: seq<Token>, ft: Json.FloatText, f: Fault, at: nat)
    requires |toks| > 1 && IsOperand(toks[0]) && Prec(toks[1].kind) > 0
    requires ParseInfix(toks, 1, LeafOf(toks[0], ft), ft) == Bad(f, at)
    ensures ParseExpr(toks, 0, 0, ft) == Bad(f, at)
  {
    hide LeafOf, ParseInfix, Prec;
    OperandIs(toks[0]);
    GoesOnIs(toks[1].kind);
  }

  /** An expression that does not begin, or an operator without its operand, is reported at
      the token that stands there, the end of file included. */
  lemma NothingBegins(x: Token, not: bool, r: nat, c: nat, rest: seq<Token>, ft: Json.FloatText)
    requires !Begins(Cur(rest, 0).kind) && IsOperand(x) && InTable(r, c)
    ensures ParseExpr(rest, 0, 0, ft) == Bad(Unexpected, 0)
    ensures ParseExpr([Mark(if not then Kind.Not else Minus)] + rest, 0, 0, ft) == Bad(Unexpected, 1)
    ensures ParseExpr([x, TokenAt(r, c)] + rest, 0, 0, ft) == Bad(Unexpected, 2)
  {
    hide ParseExpr, LeafOf, Begins;
    NoOperand(rest, 0, 0, ft);
    var a := [Mark(if not then Kind.Not else Minus)] + rest;
    assert Cur(a, 1) == Cur(rest, 0);
    NoOperand(a, 1, PREC_UNARY, ft);
    SignFails(a, ft);
    var b := [x, TokenAt(r, c)] + rest;
    assert Cur(b, 2) == Cur(rest, 0);
    RowIs(r, c);
    NoOperand(b, 2, Prec(b[1].kind), ft);
    OperatorFails(b, LeafOf(x, ft), ft);
    FormAt(b, ft, Unexpected, 2);
  }

  lemma SignFails(toks: seq<Token>, ft: Json.FloatText)
    requires toks != [] && (toks[0].kind == Kind.Not || toks[0].kind == Minus)
    requires ParseExpr(toks, 1, PREC_UNARY, ft) == Bad(Unexpected, 1)
    ensures ParseExpr(toks, 0, 0, ft) == Bad(Unexpected, 1)
  {
    hide Climb;
  }

  lemma OperatorFails(toks: seq<Token>, l: Expr, ft: Json.FloatText)
    requires |toks| > 1 && 0 < Prec(toks[1].kind) < 7
    requires ParseExpr(toks, 2, Prec(toks[1].kind), ft) == Bad(Unexpected, 2)
    ensures ParseInfix(toks, 1, l, ft) == Bad(Unexpected, 2) && GoesOn(toks[1].kind)
  {
    hide ParseExpr;
    GoesOnIs(toks[1].kind);
  }

  /** What must close a group or a wrapped value is reported at the token that stands in
      its place. */
  lemma GroupsClose(x: Token, isOk: bool, t: Token, rest: seq<Token>, ft: Json.FloatText)
    requires IsOperand(x) && MayFollow(t.kind) && t.kind != RParen
    ensures ParseExpr([Mark(LParen), x, t] + rest, 0, 0, ft) == Bad(Expected(RParen), 2)
    ensures ParseExpr([Mark(if isOk then Kind.Ok else Kind.Err), Mark(LParen), x, t] + rest, 0, 0, ft)
      == Bad(Expected(RParen), 3)
  {
    hide ParseExpr, LeafOf, IsOperand, MayFollow;
    OperandIs(x);
    var a := [Mark(LParen), x, t] + rest;
    OperandAt(a, 1, 0, ft);
    GroupOpen(a, LeafOf(x, ft), ft);
    var w := [Mark(if isOk then Kind.Ok else Kind.Err), Mark(LParen), x, t] + rest;
    OperandAt(w, 2, 0, ft);
    WrapUnclosed(w, LeafOf(x, ft), ft);
  }

  /** And so what must close an index. */
  lemma IndexCloses(x: Token, y: Token, t: Token, rest: seq<Token>, ft: Json.FloatText)
    requires IsOperand(x) && IsOperand(y) && MayFollow(t.kind) && t.kind != RBracket
    ensures ParseExpr([x, Mark(LBracket), y, t] + rest, 0, 0, ft) == Bad(Expected(RBracket), 3)
  {
    hide ParseExpr, LeafOf, IsOperand, MayFollow, ParseInfix;
    OperandIs(x);
    OperandIs(y);
    var b := [x, Mark(LBracket), y, t] + rest;
    OperandAt(b, 2, 0, ft);
    IndexOpen(b, LeafOf(x, ft), LeafOf(y, ft), ft);
    FormAt(b, ft, Expected(RBracket), 3);
  }

  /** And an array literal, where a comma or a newline would go on. */
  lemma ArrayCloses(x: Token, t: Token, rest: seq<Token>, ft: Json.FloatText)
    requires IsOperand(x) && MayFollow(t.kind) && t.kind != Comma && t.kind != Newline && t.kind != RBracket
    ensures ParseExpr([Mark(LBracket), x, t] + rest, 0, 0, ft) == Bad(Expected(RBracket), 2)
  {
    hide ParseExpr, LeafOf, IsOperand, MayFollow, ParseInfix, ParseList;
    OperandIs(x);
    var c := [Mark(LBracket), x, t] + rest;
    ListAt(c, 1, ft);
    ElemsOpen(c, LeafOf(x, ft), ft);
  }

  /** And a call. */
  lemma CallCloses(x: Token, y: Token, t: Token, rest: seq<Token>, ft: Json.FloatText)
    requires IsOperand(x) && IsOperand(y) && MayFollow(t.kind)
    requires t.kind != Comma && t.kind != Newline && t.kind != RParen
    ensures ParseExpr([x, Mark(LParen), y, t] + rest, 0, 0, ft) == Bad(Expected(RParen), 3)
  {
    hide ParseExpr, LeafOf, IsOperand, MayFollow, ParseInfix, ParseList;
    OperandIs(x);
    OperandIs(y);
    var d := [x, Mark(LParen), y, t] + rest;
    ListAt(d, 2, ft);
    CallOpen(d, LeafOf(x, ft), LeafOf(y, ft), ft);
    FormAt(d, ft, Expected(RParen), 3);
  }

  lemma GroupOpen(toks: seq<Token>, e: Expr, ft: Json.FloatText)
    requires toks != [] && toks[0].kind == LParen && ParseExpr(toks, 1, 0, ft) == Got(e, 2)
    requires Cur(toks, 2).kind != RParen
    ensures ParseExpr(toks, 0, 0, ft) == Bad(Expected(RParen), 2)
  {
    hide Climb;
  }

  lemma WrapUnclosed(toks: seq<Token>, e: Expr, ft: Json.FloatText)
    requires |toks| > 1 && (toks[0].kind == Kind.Ok || toks[0].kind == Kind.Err) && toks[1].kind == LParen
    requires ParseExpr(toks, 2, 0, ft) == Got(e, 3) && Cur(toks, 3).kind != RParen
    ensures ParseExpr(toks, 0, 0, ft) == Bad(Expected(RParen), 3)
  {
    hide Climb, ParseExpr, ParsePrefix, ParseElems;
    assert ParseWrap(toks, 0, ft) == Bad(Expected(RParen), 3);
    PrefixIs(toks, ft);
  }

  lemma IndexOpen(toks: seq<Token>, l: Expr, e: Expr, ft: Json.FloatText)
    requires |toks| > 1 && toks[1].kind == LBracket && ParseExpr(toks, 2, 0, ft) == Got(e, 3)
    requires Cur(toks, 3).kind != RBracket
    ensures Prec(LBracket) > 0 && ParseInfix(toks, 1, l, ft) == Bad(Expected(RBracket), 3)
  {
    hide ParseExpr;
  }

  lemma ElemsOpen(toks: seq<Token>, e: Expr, ft: Json.FloatText)
    requires |toks| > 1 && toks[0].kind == LBracket && IsOperand(toks[1]) && ParseList(toks, 1, 0, ft) == Got([e], 2)
    requires Cur(toks, 2).kind != RBracket
    ensures ParseExpr(toks, 0, 0, ft) == Bad(Expected(RBracket), 2)
  {
    hide Climb, ParseList, ParseExpr, ParsePrefix, ParseWrap;
    assert ParseElems(toks, 0, ft) == Bad(Expected(RBracket), 2);
    PrefixIs(toks, ft);
  }

  /** The prefix forms that have a function of their own. */
  lemma PrefixIs(toks: seq<Token>, ft: Json.FloatText)
    requires toks != []
    ensures toks[0].kind == LBracket && ParseElems(toks, 0, ft).Bad? ==>
      ParseExpr(toks, 0, 0, ft) == ParseElems(toks, 0, ft)
    ensures (toks[0].kind == Kind.Ok || toks[0].kind == Kind.Err) && ParseWrap(toks, 0, ft).Bad? ==>
      ParseExpr(toks, 0, 0, ft) == ParseWrap(toks, 0, ft)
  {
    hide Climb, ParseElems, ParseWrap;
  }

  lemma CallOpen(toks: seq<Token>, l: Expr, e: Expr, ft: Json.FloatText)
    requires |toks| > 2 && toks[1].kind == LParen && IsOperand(toks[2]) && ParseList(toks, 2, 0, ft) == Got([e], 3)
    requires Cur(toks, 3).kind != RParen
    ensures Prec(LParen) > 0 && ParseInfix(toks, 1, l, ft) == Bad(Expected(RParen), 3)
  {
    hide ParseList;
  }

  /** A name stands behind a point, and a parenthesis behind ok and err. */
  lemma NothingFollows(x: Token, isOk: bool, rest: seq<Token>, ft: Json.FloatText)
    requires IsOperand(x)
    ensures Cur(rest, 0).kind != Name ==> ParseExpr([x, Mark(Dot)] + rest, 0, 0, ft) == Bad(Expected(Name), 2)
    ensures Cur(rest, 0).kind != LParen ==>
      ParseExpr([Mark(if isOk then Kind.Ok else Kind.Err)] + rest, 0, 0, ft) == Bad(Expected(LParen), 1)
  {
    hide ParseExpr, LeafOf;
    var a := [x, Mark(Dot)] + rest;
    assert Cur(a, 2) == Cur(rest, 0);
    if Cur(rest, 0).kind != Name { FormAt(a, ft, Expected(Name), 2); }
    var b := [Mark(if isOk then Kind.Ok else Kind.Err)] + rest;
    assert Cur(b, 1) == Cur(rest, 0);
    if Cur(rest, 0).kind != LParen { WrapOpen(b, ft); }
  }

  lemma WrapOpen(toks: seq<Token>, ft: Json.FloatText)
    requires toks != [] && (toks[0].kind == Kind.Ok || toks[0].kind == Kind.Err) && Cur(toks, 1).kind != LParen
    ensures ParseExpr(toks, 0, 0, ft) == Bad(Expected(LParen), 1)
  {
    hide Climb, ParseExpr, ParsePrefix, ParseElems;
    assert ParseWrap(toks, 0, ft) == Bad(Expected(LParen), 1);
    PrefixIs(toks, ft);
  }

  // ----- the whole grammar by rows -----

  function RowOf(op: BinOp): nat {
    match op
    case Or => 0
    case And => 1
    case Eq | Neq => 2
    case Lt | Gt | Le | Ge => 3
    case Add | Sub => 4
    case Mul | Div | Mod => 5
  }

  /** A binary operator stands under a left operand of its own row or a later one, and
      over right operands of later rows; a prefix operator under no binary one; a postfix
      form under neither.  At most 128 expressions stand in a list. */
  predicate ByRows(c: Cst)
    decreases c
  {
    match c
    case Tok(t) => IsOperand(t)
    case Group(e) => ByRows(e)
    case Prefixed(_, e) => ByRows(e) && !e.Infixed?
    case Wrapped(_, e) => ByRows(e)
    case Listed(_, items) => |items| <= 128 && AllByRows(items)
    case Infixed(op, l, r) =>
      && ByRows(l) && ByRows(r)
      && (l.Infixed? ==> RowOf(l.bop) >= RowOf(op)) && (r.Infixed? ==> RowOf(r.bop) > RowOf(op))
    case Dotted(l, _) => ByRows(l) && !l.Infixed? && !l.Prefixed?
    case Called(l, items) => ByRows(l) && !l.Infixed? && !l.Prefixed? && |items| <= 128 && AllByRows(items)
    case Subscripted(l, r) => ByRows(l) && !l.Infixed? && !l.Prefixed? && ByRows(r)
    case Tried(l) => ByRows(l) && !l.Infixed? && !l.Prefixed?
  }

  predicate AllByRows(items: seq<Item>)
    decreases items
  {
    items != [] ==> ItemByRows(items[0]) && AllByRows(items[1..])
  }

  predicate ItemByRows(a: Item)
    decreases a
  {
    ByRows(a.e)
  }

  lemma LevelIs(c: Cst)
    ensures c.Infixed? ==> Level(c) == RowOf(c.bop) + 1
    ensures Level(c) >= 7 <==> !c.Infixed?
    ensures Level(c) >= 8 <==> !c.Infixed? && !c.Prefixed?
    ensures forall op :: Prec(KindOf(op)) == RowOf(op) + 1 <= 6
  {
  }

  /** The precedences of the parser say the same as the rows. */
  lemma {:induction false} ObeysIsByRows(c: Cst)
    ensures Obeys(c) <==> ByRows(c)
    decreases c, 0
  {
    hide Level, Prec, RowOf, KindOf;
    match c
    case Tok(t) => OperandIs(t);
    case Group(e) => ObeysIsByRows(e);
    case Prefixed(_, e) =>
      ObeysIsByRows(e);
      LevelIs(e);
    case Wrapped(_, e) => ObeysIsByRows(e);
    case Listed(_, items) => ItemsByRows(items);
    case Infixed(_, l, r) =>
      ObeysIsByRows(l);
      ObeysIsByRows(r);
      LevelIs(l);
      LevelIs(r);
    case Dotted(l, _) =>
      ObeysIsByRows(l);
      LevelIs(l);
    case Called(l, items) =>
      ObeysIsByRows(l);
      LevelIs(l);
      ItemsByRows(items);
    case Subscripted(l, r) =>
      ObeysIsByRows(l);
      ObeysIsByRows(r);
      LevelIs(l);
    case Tried(l) =>
      ObeysIsByRows(l);
      LevelIs(l);
  }

  lemma {:induction false} ItemsByRows(items: seq<Item>)
    ensures AllObey(items) <==> AllByRows(items)
    decreases items, 0
  {
    hide Obeys, ByRows;
    if items != [] {
      ItemIsByRows(items[0]);
      ItemsByRows(items[1..]);
    }
  }

  lemma {:induction false} ItemIsByRows(a: Item)
    ensures ItemObeys(a) <==> ItemByRows(a)
    decreases a, 0
  {
    hide Obeys, ByRows;
    ObeysIsByRows(a.e);
  }

  /** c is written by the rows from i up to j, where nothing goes on with it. */
  ghost predicate Reads(c: Cst, toks: seq<Token>, i: nat, j: nat, e: Expr, ft: Json.FloatText) {
    && ByRows(c) && At(toks, i, Flat(c)) && i < j == i + |Flat(c)| <= |toks| && Erase(c, ft) == e
    && !GoesOn(Cur(toks, j).kind) && !Runs(c, toks, j)
  }

  /** A whole expression is parsed to e exactly when some tree of tokens by the rows of
      the table is e, and no token behind it goes on. */
  lemma ParsesByRows(toks: seq<Token>, i: nat, j: nat, e: Expr, ft: Json.FloatText)
    requires Clean(toks) && i <= |toks|
    ensures ParseExpr(toks, i, 0, ft) == Got(e, j) <==> exists c :: Reads(c, toks, i, j, e, ft)
  {
    hide ParseExpr, Derives, Reads, Fits;
    ParserLaws.ParsesWhatIsDerived(toks, i, j, 0, e, ft);
    if ParseExpr(toks, i, 0, ft) == Got(e, j) {
      var c :| Derives(c, toks, i, j, e, ft) && Fits(c, 0) && Prec(Cur(toks, j).kind) <= 0;
      DerivesIsReads(c, toks, i, j, e, ft);
    }
    if c :| Reads(c, toks, i, j, e, ft) {
      DerivesIsReads(c, toks, i, j, e, ft);
    }
  }

  lemma DerivesIsReads(c: Cst, toks: seq<Token>, i: nat, j: nat, e: Expr, ft: Json.FloatText)
    ensures Reads(c, toks, i, j, e, ft)
      <==> Derives(c, toks, i, j, e, ft) && Fits(c, 0) && Prec(Cur(toks, j).kind) <= 0
  {
    hide Obeys, ByRows, Flat, Erase, Runs;
    ObeysIsByRows(c);
    GoesOnIs(Cur(toks, j).kind);
  }
}
