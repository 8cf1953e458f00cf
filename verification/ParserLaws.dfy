/** The parser accepts what the grammar of the precedence table derives, and
    nothing else; parsing undoes printing with minimal parentheses. */
module ParserLaws {
  import opened Ast
  import opened Tokens
  import opened Places
  import opened Pratt
  import opened Grammar
  import Json

  // ----- soundness: what is returned is derived -----

  lemma AtOne(toks: seq<Token>, i: nat, k: Kind)
    requires i < |toks| && Clean(toks) && toks[i].kind == k && !HasText(k)
    ensures At(toks, i, [Mark(k)])
  {
    assert toks[i] == Mark(k);
  }

  lemma Surround(toks: seq<Token>, i: nat, o: Kind, body: seq<Token>, c: Kind)
    requires Clean(toks) && i + 1 + |body| < |toks| && !HasText(o) && !HasText(c)
    requires toks[i].kind == o && At(toks, i + 1, body) && toks[i + 1 + |body|].kind == c
    ensures At(toks, i, [Mark(o)] + body + [Mark(c)])
  {
    AtOne(toks, i, o);
    AtJoin(toks, i, [Mark(o)], body);
    AtOne(toks, i + 1 + |body|, c);
    AtJoin(toks, i, [Mark(o)] + body, [Mark(c)]);
  }

  lemma {:induction false} SkipIs(toks: seq<Token>, i: nat)
    requires Clean(toks) && i <= |toks|
    ensures At(toks, i, Lines(SkipLines(toks, i) - i))
    decreases |toks| - i
  {
    if Cur(toks, i).kind == Newline {
      SkipIs(toks, i + 1);
      AtOne(toks, i, Newline);
      AtJoin(toks, i, [Mark(Newline)], Lines(SkipLines(toks, i) - i - 1));
    }
  }

  lemma MakeGroup(d: Cst, toks: seq<Token>, i: nat, j: nat, e: Expr, ft: Json.FloatText) returns (c: Cst)
    requires Clean(toks) && i < j < |toks| && toks[i].kind == LParen && toks[j].kind == RParen
    requires Derives(d, toks, i + 1, j, e, ft)
    ensures Derives(c, toks, i, j + 1, e, ft) && Level(c) == ATOM
  {
    hide Flat;
    c := Group(d);
    Surround(toks, i, LParen, Flat(d), RParen);
    FlatGroup(d);
  }

  lemma FlatGroup(d: Cst)
    ensures Flat(Group(d)) == [Mark(LParen)] + Flat(d) + [Mark(RParen)]
  {
  }

  lemma MakePrefixed(op: UnOp, d: Cst, toks: seq<Token>, i: nat, j: nat, e: Expr, ft: Json.FloatText) returns (c: Cst)
    requires Clean(toks) && i < j <= |toks| && toks[i].kind == UnKind(op) && Derives(d, toks, i + 1, j, e, ft)
    requires Fits(d, PREC_UNARY) && Prec(Cur(toks, j).kind) <= PREC_UNARY
    ensures Derives(c, toks, i, j, Unary(op, e), ft) && c.Prefixed?
  {
    c := Prefixed(op, d);
    AtOne(toks, i, UnKind(op));
    AtJoin(toks, i, [Mark(UnKind(op))], Flat(d));
  }

  lemma WrappedFacts(isOk: bool, d: Cst, toks: seq<Token>, p: nat, ft: Json.FloatText)
    requires 0 < p <= |toks|
    ensures var c := Wrapped(isOk, d);
      && Flat(c) == [Mark(WrapKind(isOk))] + ([Mark(LParen)] + Flat(d) + [Mark(RParen)])
      && Erase(c, ft) == ResultLit(isOk, Erase(d, ft)) && Level(c) == ATOM && (Obeys(c) <==> Obeys(d))
      && !Runs(c, toks, p)
  {
  }

  lemma MakeWrapped(isOk: bool, d: Cst, toks: seq<Token>, i: nat, j: nat, e: Expr, ft: Json.FloatText) returns (c: Cst)
    requires Clean(toks) && i + 2 < j < |toks| && toks[i].kind == WrapKind(isOk) && toks[i + 1].kind == LParen
    requires toks[j].kind == RParen && Derives(d, toks, i + 2, j, e, ft)
    ensures Derives(c, toks, i, j + 1, ResultLit(isOk, e), ft) && Level(c) == ATOM
  {
    hide Flat, Erase, At, Clean, Obeys, Level, Runs, Prec;
    c := Wrapped(isOk, d);
    WrappedFacts(isOk, d, toks, j + 1, ft);
    Surround(toks, i + 1, LParen, Flat(d), RParen);
    AtOne(toks, i, WrapKind(isOk));
    AtJoin(toks, i, [Mark(WrapKind(isOk))], [Mark(LParen)] + Flat(d) + [Mark(RParen)]);
  }

  lemma ListedFacts(n: nat, items: seq<Item>, toks: seq<Token>, p: nat, ft: Json.FloatText)
    requires 0 < p <= |toks|
    ensures var c := Listed(n, items);
      && Flat(c) == [Mark(LBracket)] + (Lines(n) + FlatItems(items)) + [Mark(RBracket)]
      && Erase(c, ft) == ArrayLit(EraseItems(items, ft)) && Level(c) == ATOM
      && (Obeys(c) <==> |items| <= MAX_ITEMS && AllObey(items)) && !Runs(c, toks, p)
  {
  }

  lemma MakeListed(n: nat, items: seq<Item>, toks: seq<Token>, i: nat, j: nat, ft: Json.FloatText) returns (c: Cst)
    requires Clean(toks) && i < j < |toks| && toks[i].kind == LBracket && toks[j].kind == RBracket
    requires At(toks, i + 1, Lines(n)) && At(toks, i + 1 + n, FlatItems(items)) && j == i + 1 + n + |FlatItems(items)|
    requires |items| <= MAX_ITEMS && AllObey(items)
    ensures Derives(c, toks, i, j + 1, ArrayLit(EraseItems(items, ft)), ft) && Level(c) == ATOM
  {
    hide Flat, Erase, At, Clean, Obeys, Level, Runs, FlatItems, Lines, EraseItems, AllObey;
    c := Listed(n, items);
    ListedFacts(n, items, toks, j + 1, ft);
    AtJoin(toks, i + 1, Lines(n), FlatItems(items));
    Surround(toks, i, LBracket, Lines(n) + FlatItems(items), RBracket);
  }

  lemma {:induction false} SoundExpr(toks: seq<Token>, i: nat, low: nat, ft: Json.FloatText) returns (c: Cst)
    requires Clean(toks) && i <= |toks| && low <= PREC_UNARY && ParseExpr(toks, i, low, ft).Got?
    ensures var r := ParseExpr(toks, i, low, ft);
      Derives(c, toks, i, r.pos, r.value, ft) && Fits(c, low) && Prec(Cur(toks, r.pos).kind) <= low
    decreases |toks| - i, 5
  {
    hide ParsePrefix, Climb, Derives;
    var r := ParsePrefix(toks, i, ft);
    c := SoundPrefix(toks, i, ft);
    c := SoundClimb(c, toks, i, r.pos, low, r.value, ft);
  }

  lemma {:induction false} SoundPrefix(toks: seq<Token>, i: nat, ft: Json.FloatText) returns (c: Cst)
    requires Clean(toks) && i <= |toks| && ParsePrefix(toks, i, ft).Got?
    ensures var r := ParsePrefix(toks, i, ft); Derives(c, toks, i, r.pos, r.value, ft) && Fits(c, PREC_UNARY)
    decreases |toks| - i, 1
  {
    hide ParseExpr, ParseWrap, ParseElems, Climb, LeafOf, Joined, Derives, Level;
    var k := Cur(toks, i).kind;
    if IsLeaf(k) {
      c := Tok(toks[i]);
      SoundLeaf(toks, i, ft);
    } else if k == LParen || k == Kind.Not || k == Minus {
      c := SoundNested(toks, i, ft);
    } else if k == Ok || k == Err {
      c := SoundWrap(toks, i, ft);
    } else {
      c := SoundElems(toks, i, ft);
    }
  }

  /** Groups and prefix operators. */
  lemma {:induction false} SoundNested(toks: seq<Token>, i: nat, ft: Json.FloatText) returns (c: Cst)
    requires Clean(toks) && i < |toks| && ParsePrefix(toks, i, ft).Got?
    requires toks[i].kind == LParen || toks[i].kind == Kind.Not || toks[i].kind == Minus
    ensures var r := ParsePrefix(toks, i, ft); Derives(c, toks, i, r.pos, r.value, ft) && Fits(c, PREC_UNARY)
    decreases |toks| - i, 0
  {
    hide ParseExpr, ParseWrap, ParseElems, Climb, LeafOf, Joined, Derives, Level;
    if toks[i].kind == LParen {
      var r := ParseExpr(toks, i + 1, PREC_NONE, ft);
      c := SoundExpr(toks, i + 1, PREC_NONE, ft);
      c := MakeGroup(c, toks, i, r.pos, r.value, ft);
    } else {
      var r := ParseExpr(toks, i + 1, PREC_UNARY, ft);
      c := SoundExpr(toks, i + 1, PREC_UNARY, ft);
      c := MakePrefixed(if toks[i].kind == Minus then Neg else UnOp.Not, c, toks, i, r.pos, r.value, ft);
    }
  }

  lemma SoundLeaf(toks: seq<Token>, i: nat, ft: Json.FloatText)
    requires i < |toks| && IsLeaf(toks[i].kind) && !Joined(toks, i)
    ensures Derives(Tok(toks[i]), toks, i, i + 1, LeafOf(toks[i], ft), ft) && Fits(Tok(toks[i]), PREC_UNARY)
  {
    hide LeafOf, Joined;
  }

  lemma {:induction false} SoundWrap(toks: seq<Token>, i: nat, ft: Json.FloatText) returns (c: Cst)
    requires Clean(toks) && i < |toks| && (toks[i].kind == Ok || toks[i].kind == Err) && ParseWrap(toks, i, ft).Got?
    ensures var r := ParseWrap(toks, i, ft); Derives(c, toks, i, r.pos, r.value, ft) && Level(c) == ATOM
    decreases |toks| - i, 0
  {
    hide ParseExpr, Derives;
    var r := ParseExpr(toks, i + 2, PREC_NONE, ft);
    c := SoundExpr(toks, i + 2, PREC_NONE, ft);
    c := MakeWrapped(toks[i].kind == Ok, c, toks, i, r.pos, r.value, ft);
  }

  lemma ElemsGot(toks: seq<Token>, i: nat, ft: Json.FloatText)
    requires i < |toks| && toks[i].kind == LBracket && ParseElems(toks, i, ft).Got?
    ensures var j := SkipLines(toks, i + 1);
      if Cur(toks, j).kind == RBracket then ParseElems(toks, i, ft) == Got(ArrayLit([]), j + 1)
      else
        var r := ParseList(toks, j, 0, ft);
        r.Got? && r.pos < |toks| && toks[r.pos].kind == RBracket
        && ParseElems(toks, i, ft) == Got(ArrayLit(r.value), r.pos + 1)
  {
    hide ParseExpr, ParseList, SkipLines;
  }

  lemma {:induction false} SoundElems(toks: seq<Token>, i: nat, ft: Json.FloatText) returns (c: Cst)
    requires Clean(toks) && i < |toks| && toks[i].kind == LBracket && ParseElems(toks, i, ft).Got?
    ensures var r := ParseElems(toks, i, ft); Derives(c, toks, i, r.pos, r.value, ft) && Level(c) == ATOM
    decreases |toks| - i, 0
  {
    hide ParseElems, ParseList, Derives, SkipLines, FlatItems, AllObey, Lines, EraseItems, Clean, Level;
    ElemsGot(toks, i, ft);
    var j := SkipLines(toks, i + 1);
    var n := j - i - 1;
    SkipIs(toks, i + 1);
    if Cur(toks, j).kind == RBracket {
      NoFlat(ft);
      c := MakeListed(n, [], toks, i, j, ft);
    } else {
      var r := ParseList(toks, j, 0, ft);
      var items := SoundList(toks, j, 0, ft);
      c := MakeListed(n, items, toks, i, r.pos, ft);
    }
  }

  lemma NoFlat(ft: Json.FloatText)
    ensures FlatItems([]) == [] && EraseItems([], ft) == [] && AllObey([])
  {
  }

  lemma ListGot(toks: seq<Token>, i: nat, n: nat, ft: Json.FloatText) returns (j: nat, e: Expr, k: nat, m: nat)
    requires i <= |toks| && ParseList(toks, i, n, ft).Got?
    ensures n < MAX_ITEMS && i <= j == SkipLines(toks, i) <= |toks| && ParseExpr(toks, j, PREC_NONE, ft) == Got(e, k)
    ensures j < k <= m == SkipLines(toks, k) <= |toks|
    ensures Cur(toks, m).kind != Comma ==> ParseList(toks, i, n, ft) == Got([e], m)
    ensures m < |toks| && toks[m].kind == Comma ==> (var r := ParseList(toks, m + 1, n + 1, ft);
              r.Got? && ParseList(toks, i, n, ft) == Got([e] + r.value, r.pos))
  {
    hide ParseExpr, ParseList, SkipLines;
    ListStops(toks, i, n, ft);
    j := SkipLines(toks, i);
    var r := ParseExpr(toks, j, PREC_NONE, ft);
    e, k := r.value, r.pos;
    m := SkipLines(toks, k);
    ListStep(toks, i, n, ft, e, k, m);
  }

  lemma {:induction false} SoundList(toks: seq<Token>, i: nat, n: nat, ft: Json.FloatText) returns (items: seq<Item>)
    requires Clean(toks) && i <= |toks| && ParseList(toks, i, n, ft).Got?
    ensures var r := ParseList(toks, i, n, ft);
      && items != [] && n + |items| <= MAX_ITEMS && AllObey(items) && EraseItems(items, ft) == r.value
      && At(toks, i, FlatItems(items)) && r.pos == i + |FlatItems(items)|
    decreases |toks| - i, 6
  {
    hide ParseExpr, ParseList, SkipLines, Derives, FlatItems, FlatItem, AllObey, EraseItems, Erase, Obeys;
    var j, e, k, m := ListGot(toks, i, n, ft);
    var c := SoundExpr(toks, j, PREC_NONE, ft);
    var a := MakeItem(c, toks, i, j, k, m, e, ft);
    if Cur(toks, m).kind == Comma {
      var rest := SoundList(toks, m + 1, n + 1, ft);
      items := MakeMore(a, rest, toks, i, m, ft);
    } else {
      items := [a];
      MakeLast(a, ft);
    }
  }

  lemma MakeItem(c: Cst, toks: seq<Token>, i: nat, j: nat, k: nat, m: nat, e: Expr, ft: Json.FloatText)
      returns (a: Item)
    requires Clean(toks) && i <= |toks| && j == SkipLines(toks, i) && Derives(c, toks, j, k, e, ft)
    requires m == SkipLines(toks, k)
    ensures Obeys(a.e) && Erase(a.e, ft) == e && At(toks, i, FlatItem(a)) && m == i + |FlatItem(a)|
  {
    hide Flat, Obeys, Erase, Lines, SkipLines, Runs, At, Level, Clean, Cur, Prec;
    a := Item(j - i, c, m - k);
    SkipIs(toks, i);
    SkipIs(toks, k);
    AtJoin(toks, j, Flat(c), Lines(m - k));
    AtJoin(toks, i, Lines(j - i), Flat(c) + Lines(m - k));
  }

  lemma MakeLast(a: Item, ft: Json.FloatText)
    ensures FlatItems([a]) == FlatItem(a) && EraseItems([a], ft) == [Erase(a.e, ft)] && (Obeys(a.e) ==> AllObey([a]))
  {
    FlatItemsParts([a]);
    OneErased([a], ft);
  }

  lemma MakeMore(a: Item, rest: seq<Item>, toks: seq<Token>, i: nat, m: nat, ft: Json.FloatText)
      returns (items: seq<Item>)
    requires Clean(toks) && m < |toks| && toks[m].kind == Comma && rest != []
    requires Obeys(a.e) && At(toks, i, FlatItem(a)) && m == i + |FlatItem(a)|
    requires AllObey(rest) && At(toks, m + 1, FlatItems(rest))
    ensures items == [a] + rest && AllObey(items) && EraseItems(items, ft) == [Erase(a.e, ft)] + EraseItems(rest, ft)
    ensures At(toks, i, FlatItems(items)) && i + |FlatItems(items)| == m + 1 + |FlatItems(rest)|
  {
    hide Clean, At, FlatItem, FlatItems, Erase, EraseItems, Obeys, AllObey;
    items := [a] + rest;
    ItemsCons(a, rest, ft);
    AtOne(toks, m, Comma);
    AtJoin(toks, m, [Mark(Comma)], FlatItems(rest));
    AtJoin(toks, i, FlatItem(a), [Mark(Comma)] + FlatItems(rest));
  }

  lemma ItemsCons(a: Item, rest: seq<Item>, ft: Json.FloatText)
    requires rest != []
    ensures FlatItems([a] + rest) == FlatItem(a) + ([Mark(Comma)] + FlatItems(rest))
    ensures EraseItems([a] + rest, ft) == [Erase(a.e, ft)] + EraseItems(rest, ft)
    ensures Obeys(a.e) && AllObey(rest) ==> AllObey([a] + rest)
  {
    hide FlatItem, FlatItems, Erase, EraseItems;
    var items := [a] + rest;
    assert items[0] == a && items[1..] == rest;
    FlatItemsParts(items);
    OneErased(items, ft);
  }

  // ----- operators -----

  lemma {:induction false} SoundClimb(l: Cst, toks: seq<Token>, i: nat, k: nat, low: nat, left: Expr,
      ft: Json.FloatText)
    returns (c: Cst)
    requires Clean(toks) && low <= PREC_UNARY && Derives(l, toks, i, k, left, ft) && Fits(l, low)
    requires Climb(toks, k, low, left, ft).Got?
    ensures var r := Climb(toks, k, low, left, ft);
      Derives(c, toks, i, r.pos, r.value, ft) && Fits(c, low) && Prec(Cur(toks, r.pos).kind) <= low
    decreases |toks| - k, 2
  {
    hide ParseInfix, Derives, Prec;
    DerivesWithin(l, toks, i, k, left, ft);
    if Prec(Cur(toks, k).kind) <= low {
      c := l;
    } else {
      var r := ParseInfix(toks, k, left, ft);
      c := SoundInfix(l, toks, i, k, left, ft);
      c := SoundClimb(c, toks, i, r.pos, low, r.value, ft);
    }
  }

  lemma DerivesWithin(c: Cst, toks: seq<Token>, i: nat, j: nat, e: Expr, ft: Json.FloatText)
    requires Derives(c, toks, i, j, e, ft)
    ensures i < j <= |toks| && Prec(Cur(toks, j).kind) <= Level(c)
  {
  }

  lemma TryGot(toks: seq<Token>, k: nat, left: Expr, ft: Json.FloatText)
    requires k < |toks| && toks[k].kind == Question
    ensures ParseInfix(toks, k, left, ft) == Got(Try(left), k + 1)
  {
    hide ParseExpr, ParseList;
  }

  lemma DotGot(toks: seq<Token>, k: nat, left: Expr, ft: Json.FloatText)
    requires k < |toks| && toks[k].kind == Kind.Dot && ParseInfix(toks, k, left, ft).Got?
    ensures k + 1 < |toks| && toks[k + 1].kind == Name
    ensures ParseInfix(toks, k, left, ft) == Got(Field(left, toks[k + 1].text), k + 2)
  {
    hide ParseExpr, ParseList;
  }

  lemma IndexGot(toks: seq<Token>, k: nat, left: Expr, ft: Json.FloatText)
    requires k < |toks| && toks[k].kind == LBracket && ParseInfix(toks, k, left, ft).Got?
    ensures var x := ParseExpr(toks, k + 1, PREC_NONE, ft);
      && x.Got? && x.pos < |toks| && toks[x.pos].kind == RBracket
      && ParseInfix(toks, k, left, ft) == Got(Index(left, x.value), x.pos + 1)
  {
    hide ParseExpr, ParseList;
  }

  lemma BinaryGot(toks: seq<Token>, k: nat, left: Expr, ft: Json.FloatText)
    requires k < |toks| && PREC_NONE < Prec(toks[k].kind) < PREC_CALL && ParseInfix(toks, k, left, ft).Got?
    ensures var op := toks[k].kind; var x := ParseExpr(toks, k + 1, Prec(op), ft);
      x.Got? && ParseInfix(toks, k, left, ft) == Got(Binary(BinOf(op), left, x.value), x.pos)
  {
    hide ParseExpr, ParseList;
  }

  lemma CallKinds(k: Kind)
    ensures Prec(k) == PREC_CALL <==> k == Question || k == LParen || k == LBracket || k == Kind.Dot
  {
  }

  lemma {:induction false} SoundInfix(l: Cst, toks: seq<Token>, i: nat, k: nat, left: Expr, ft: Json.FloatText)
      returns (c: Cst)
    requires Clean(toks) && k < |toks| && Derives(l, toks, i, k, left, ft) && Prec(toks[k].kind) > PREC_NONE
    requires ParseInfix(toks, k, left, ft).Got?
    ensures var r := ParseInfix(toks, k, left, ft);
      Derives(c, toks, i, r.pos, r.value, ft) && Level(c) == Prec(toks[k].kind)
    decreases |toks| - k, 1
  {
    hide ParseExpr, ParseInfix, Derives, Prec, BinOf, Level;
    DerivesWithin(l, toks, i, k, left, ft);
    var op := toks[k].kind;
    CallKinds(op);
    if op == LParen {
      c := SoundCall(l, toks, i, k, left, ft);
    } else if op == LBracket {
      c := SoundIndex(l, toks, i, k, left, ft);
    } else if op == Kind.Dot {
      DotGot(toks, k, left, ft);
      c := MakeDotted(l, toks, i, k, left, ft);
    } else if op == Question {
      TryGot(toks, k, left, ft);
      c := MakeTried(l, toks, i, k, left, ft);
    } else {
      BinaryGot(toks, k, left, ft);
      var r := ParseExpr(toks, k + 1, Prec(op), ft);
      var d := SoundExpr(toks, k + 1, Prec(op), ft);
      c := MakeInfixed(BinOf(op), l, d, toks, i, k, r.pos, left, r.value, ft);
    }
  }

  lemma {:induction false} SoundIndex(l: Cst, toks: seq<Token>, i: nat, k: nat, left: Expr, ft: Json.FloatText)
      returns (c: Cst)
    requires Clean(toks) && k < |toks| && Derives(l, toks, i, k, left, ft) && toks[k].kind == LBracket
    requires ParseInfix(toks, k, left, ft).Got?
    ensures var r := ParseInfix(toks, k, left, ft); Derives(c, toks, i, r.pos, r.value, ft) && Level(c) == PREC_CALL
    decreases |toks| - k, 0
  {
    hide ParseExpr, ParseInfix, Derives, Level;
    IndexGot(toks, k, left, ft);
    var r := ParseExpr(toks, k + 1, PREC_NONE, ft);
    var d := SoundExpr(toks, k + 1, PREC_NONE, ft);
    c := MakeSubscripted(l, d, toks, i, k, r.pos, left, r.value, ft);
  }

  lemma CallGot(toks: seq<Token>, k: nat, left: Expr, ft: Json.FloatText)
    requires k < |toks| && toks[k].kind == LParen && ParseInfix(toks, k, left, ft).Got?
    ensures k + 1 < |toks|
    ensures toks[k + 1].kind == RParen ==> ParseInfix(toks, k, left, ft) == Got(Call(left, []), k + 2)
    ensures toks[k + 1].kind != RParen ==> (var x := ParseList(toks, k + 1, 0, ft);
              && x.Got? && x.pos < |toks| && toks[x.pos].kind == RParen
              && ParseInfix(toks, k, left, ft) == Got(Call(left, x.value), x.pos + 1))
  {
    hide ParseExpr, ParseList;
  }

  lemma {:induction false} SoundCall(l: Cst, toks: seq<Token>, i: nat, k: nat, left: Expr, ft: Json.FloatText)
      returns (c: Cst)
    requires Clean(toks) && k < |toks| && Derives(l, toks, i, k, left, ft) && toks[k].kind == LParen
    requires ParseInfix(toks, k, left, ft).Got?
    ensures var r := ParseInfix(toks, k, left, ft); Derives(c, toks, i, r.pos, r.value, ft) && Level(c) == PREC_CALL
    decreases |toks| - k, 0
  {
    hide ParseInfix, ParseList, Derives, AllObey, FlatItems, EraseItems;
    CallGot(toks, k, left, ft);
    if toks[k + 1].kind == RParen {
      NoFlat(ft);
      c := MakeCalled(l, [], toks, i, k, k + 1, left, ft);
    } else {
      var r := ParseList(toks, k + 1, 0, ft);
      var items := SoundList(toks, k + 1, 0, ft);
      c := MakeCalled(l, items, toks, i, k, r.pos, left, ft);
    }
  }

  lemma MakeTried(l: Cst, toks: seq<Token>, i: nat, k: nat, left: Expr, ft: Json.FloatText) returns (c: Cst)
    requires Clean(toks) && k < |toks| && toks[k].kind == Question && Derives(l, toks, i, k, left, ft)
    ensures Derives(c, toks, i, k + 1, Try(left), ft) && Level(c) == PREC_CALL
  {
    c := Tried(l);
    AtOne(toks, k, Question);
    AtJoin(toks, i, Flat(l), [Mark(Question)]);
  }

  lemma MakeDotted(l: Cst, toks: seq<Token>, i: nat, k: nat, left: Expr, ft: Json.FloatText) returns (c: Cst)
    requires Clean(toks) && k + 1 < |toks| && toks[k].kind == Kind.Dot && toks[k + 1].kind == Name
    requires Derives(l, toks, i, k, left, ft)
    ensures Derives(c, toks, i, k + 2, Field(left, toks[k + 1].text), ft) && Level(c) == PREC_CALL
  {
    c := Dotted(l, toks[k + 1].text);
    assert toks[k..k + 2] == [Mark(Kind.Dot), toks[k + 1]];
    AtJoin(toks, i, Flat(l), [Mark(Kind.Dot), toks[k + 1]]);
  }

  lemma MakeCalled(l: Cst, items: seq<Item>, toks: seq<Token>, i: nat, k: nat, p: nat, left: Expr, ft: Json.FloatText)
    returns (c: Cst)
    requires Clean(toks) && k < p < |toks| && toks[k].kind == LParen && toks[p].kind == RParen
    requires Derives(l, toks, i, k, left, ft)
    requires |items| <= MAX_ITEMS && AllObey(items) && At(toks, k + 1, FlatItems(items))
    requires p == k + 1 + |FlatItems(items)|
    ensures Derives(c, toks, i, p + 1, Call(left, EraseItems(items, ft)), ft) && Level(c) == PREC_CALL
  {
    hide FlatItems, EraseItems, AllObey;
    c := Called(l, items);
    Surround(toks, k, LParen, FlatItems(items), RParen);
    AtJoin(toks, i, Flat(l), [Mark(LParen)] + FlatItems(items) + [Mark(RParen)]);
  }

  lemma MakeSubscripted(l: Cst, d: Cst, toks: seq<Token>, i: nat, k: nat, p: nat, left: Expr, e: Expr,
      ft: Json.FloatText)
    returns (c: Cst)
    requires Clean(toks) && k < p < |toks| && toks[k].kind == LBracket && toks[p].kind == RBracket
    requires Derives(l, toks, i, k, left, ft)
    requires Derives(d, toks, k + 1, p, e, ft)
    ensures Derives(c, toks, i, p + 1, Index(left, e), ft) && Level(c) == PREC_CALL
  {
    c := Subscripted(l, d);
    Surround(toks, k, LBracket, Flat(d), RBracket);
    AtJoin(toks, i, Flat(l), [Mark(LBracket)] + Flat(d) + [Mark(RBracket)]);
  }

  lemma InfixedFacts(op: BinOp, l: Cst, d: Cst, toks: seq<Token>, p: nat, ft: Json.FloatText)
    requires 0 < p <= |toks|
    ensures var c := Infixed(op, l, d); var k := Prec(KindOf(op));
      && Flat(c) == Flat(l) + ([Mark(KindOf(op))] + Flat(d)) && Erase(c, ft) == Binary(op, Erase(l, ft), Erase(d, ft))
      && Level(c) == k && (Obeys(c) <==> Obeys(l) && Obeys(d) && Level(l) >= k && Level(d) > k)
      && (Runs(c, toks, p) <==> Runs(d, toks, p))
  {
    hide Prec, KindOf;
  }

  lemma OperatorKind(op: BinOp)
    ensures !HasText(KindOf(op)) && PREC_NONE < Prec(KindOf(op)) < PREC_UNARY
  {
  }

  lemma MakeInfixed(op: BinOp, l: Cst, d: Cst, toks: seq<Token>, i: nat, k: nat, p: nat, left: Expr, e: Expr,
      ft: Json.FloatText)
    returns (c: Cst)
    requires Clean(toks) && k < |toks| && toks[k].kind == KindOf(op) && Derives(l, toks, i, k, left, ft)
    requires Derives(d, toks, k + 1, p, e, ft) && Fits(d, Prec(KindOf(op)))
    requires Prec(Cur(toks, p).kind) <= Prec(KindOf(op))
    ensures Derives(c, toks, i, p, Binary(op, left, e), ft) && Level(c) == Prec(KindOf(op))
  {
    hide Flat, Erase, At, Clean, Obeys, Level, Runs, Prec, KindOf;
    c := Infixed(op, l, d);
    InfixedFacts(op, l, d, toks, p, ft);
    OperatorKind(op);
    AtBound(toks, k + 1, Flat(d));
    AtOne(toks, k, KindOf(op));
    AtJoin(toks, k, [Mark(KindOf(op))], Flat(d));
    AtJoin(toks, i, Flat(l), [Mark(KindOf(op))] + Flat(d));
  }

  // ----- exactness -----

  /** The parser returns e and stops at j exactly when the grammar derives e from
      the tokens between i and j and no operator above low goes on there. */
  lemma ParsesWhatIsDerived(toks: seq<Token>, i: nat, j: nat, low: nat, e: Expr, ft: Json.FloatText)
    requires Clean(toks) && i <= |toks| && low <= PREC_UNARY
    ensures ParseExpr(toks, i, low, ft) == Got(e, j)
       <==> exists c :: Derives(c, toks, i, j, e, ft) && Fits(c, low) && Prec(Cur(toks, j).kind) <= low
  {
    hide ParseExpr, Derives;
    if ParseExpr(toks, i, low, ft) == Got(e, j) {
      var c := SoundExpr(toks, i, low, ft);
    }
    forall c | Derives(c, toks, i, j, e, ft) && Fits(c, low) && Prec(Cur(toks, j).kind) <= low
      ensures ParseExpr(toks, i, low, ft) == Got(e, j)
    {
      Whole(c, toks, i, j, low, e, ft);
    }
  }

  /** The grammar is unambiguous: two derivations that both reach where no operator
      goes on end together and yield one tree. */
  lemma Unambiguous(c: Cst, d: Cst, toks: seq<Token>, i: nat, j: nat, k: nat, e: Expr, f: Expr, ft: Json.FloatText)
    requires Derives(c, toks, i, j, e, ft) && Prec(Cur(toks, j).kind) == PREC_NONE
    requires Derives(d, toks, i, k, f, ft) && Prec(Cur(toks, k).kind) == PREC_NONE
    ensures j == k && e == f
  {
    hide ParseExpr, Derives;
    Whole(c, toks, i, j, PREC_NONE, e, ft);
    Whole(d, toks, i, k, PREC_NONE, f, ft);
  }
}
