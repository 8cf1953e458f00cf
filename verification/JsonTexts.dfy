/** The JSON parser takes exactly the texts that have a derivation, and gives each the
    value that its derivation means. */
module JsonTexts {
  import opened Ast
  import opened Values
  import opened Places
  import opened Json
  import opened JsonGrammar
  import JsonLaws
  import JsonPrinters
  import Strings

  // ----- the worth of digits -----

  lemma Tenfold(x: int, a: int)
    ensures x * (10 * a) == 10 * (x * a)
  {
  }

  lemma WorthCons(x: char, d: string)
    requires Numeral(d) && '0' <= x <= '9'
    ensures Numeral([x] + d) && Worth([x] + d) == (x as int - '0' as int) * Power(|d|) + Worth(d)
  {
    hide Power, Numeral;
    NumeralCons(x, d);
    var e := [x] + d;
    assert e[1..] == d && e[0] == x && |e| == |d| + 1;
  }

  lemma NumeralCons(x: char, d: string)
    requires Numeral(d) && '0' <= x <= '9'
    ensures Numeral([x] + d)
  {
    var e := [x] + d;
    forall i | 0 <= i < |e| ensures '0' <= e[i] <= '9' { if i > 0 { assert e[i] == d[i - 1]; } }
  }

  lemma {:induction false} WorthSnoc(d: string, c: char)
    requires Numeral(d) && '0' <= c <= '9'
    ensures Numeral(d + [c]) && Worth(d + [c]) == 10 * Worth(d) + DigitOf(c)
    decreases |d|
  {
    hide Worth;
    if d == "" {
      WorthCons(c, "");
      assert "" + [c] == [c] + "" && Power(0) == 1;
      NoWorth();
    } else {
      var x, e := d[0], d[1..];
      assert d == [x] + e && d + [c] == [x] + (e + [c]);
      WorthSnoc(e, c);
      WorthCons(x, e);
      WorthCons(x, e + [c]);
      Tenfold(x as int - '0' as int, Power(|e|));
    }
  }

  lemma NoWorth()
    ensures Worth("") == 0
  {
  }

  lemma {:induction false} WorthIs(d: string)
    requires Numeral(d)
    ensures (forall i :: 0 <= i < |d| ==> IsDigit(d[i])) && Worth(d) == DigitsValue(d)
    decreases |d|
  {
    if d != "" {
      var m := |d| - 1;
      assert Numeral(d[..m]);
      WorthIs(d[..m]);
      WorthSnoc(d[..m], d[m]);
      assert d[..m] + [d[m]] == d;
    }
  }

  // ----- numbers, both ways -----

  predicate Begins(s: string, p: nat) { p < |s| && (s[p] == '-' || IsDigit(s[p])) }

  predicate Shaped(n: Num) {
    && Numeral(n.whole) && (n.fraction.Some? ==> Numeral(n.fraction.value))
    && (n.exp.Some? ==> LegalExp(n.exp.value)) && (n.minus || n.whole != "")
  }

  function Sign(n: Num): string { if n.minus then "-" else "" }

  /** The scans of the parser find the parts of n. */
  ghost predicate Scanned(s: string, p: nat, n: Num) {
    Begins(s, p) && At(s, p, NumText(n)) && Shaped(n) &&
    var i := p + |Sign(n)| + |n.whole|; var f := i + |FractionText(n.fraction)|;
    IntEnd(s, p) == i && FractionEnd(s, i) == f && ExponentEnd(s, f) == f + |ExpText(n.exp)|
  }

  lemma NumPlaces(s: string, p: nat, n: Num)
    requires At(s, p, NumText(n))
    ensures var i := p + |Sign(n)|; var w := i + |n.whole|; var f := w + |FractionText(n.fraction)|;
      && At(s, p, Sign(n)) && At(s, i, n.whole) && At(s, w, FractionText(n.fraction)) && At(s, f, ExpText(n.exp))
      && p + |NumText(n)| == f + |ExpText(n.exp)| <= |s|
  {
    hide At, FractionText, ExpText;
    var i := p + |Sign(n)|;
    var x, e := FractionText(n.fraction), ExpText(n.exp);
    AtSplit(s, p, Sign(n), n.whole + (x + e));
    AtSplit(s, i, n.whole, x + e);
    AtSplit(s, i + |n.whole|, x, e);
    AtBound(s, i + |n.whole| + |x|, e);
  }

  lemma JoinNum(s: string, p: nat, n: Num)
    requires At(s, p, Sign(n)) && At(s, p + |Sign(n)|, n.whole)
    requires var w := p + |Sign(n)| + |n.whole|; var x := FractionText(n.fraction);
      At(s, w, x) && At(s, w + |x|, ExpText(n.exp))
    ensures At(s, p, NumText(n))
  {
    hide At, FractionText, ExpText;
    var i := p + |Sign(n)|;
    var x, e := FractionText(n.fraction), ExpText(n.exp);
    AtJoin(s, i + |n.whole|, x, e);
    AtJoin(s, i, n.whole, x + e);
    AtJoin(s, p, Sign(n), n.whole + (x + e));
  }

  lemma DigitsRead(s: string, p: nat) returns (d: string)
    requires p <= |s|
    ensures Numeral(d) && At(s, p, d) && SkipDigits(s, p) == p + |d|
  {
    var q := SkipDigits(s, p);
    d := s[p..q];
    forall i | 0 <= i < |d| ensures '0' <= d[i] <= '9' { assert IsDigit(s[p + i]); }
  }

  lemma FractionRead(s: string, p: nat) returns (x: Option<string>)
    requires p <= |s|
    ensures (x.Some? ==> Numeral(x.value)) && At(s, p, FractionText(x)) && FractionEnd(s, p) == p + |FractionText(x)|
  {
    hide SkipDigits;
    x := None;
    if p < |s| && s[p] == '.' {
      var d := DigitsRead(s, p + 1);
      assert s[p..p + 1] == ".";
      AtJoin(s, p, ".", d);
      x := Some(d);
    }
  }

  predicate HasSign(s: string, p: nat) { p < |s| && (s[p] == '+' || s[p] == '-') }

  predicate HasMark(s: string, p: nat) { p < |s| && (s[p] == 'e' || s[p] == 'E') }

  lemma ExpEndIs(s: string, p: nat)
    requires p <= |s|
    ensures ExponentEnd(s, p)
      == if !HasMark(s, p) then p else SkipDigits(s, if HasSign(s, p + 1) then p + 2 else p + 1)
  {
    hide SkipDigits;
  }

  lemma OneAt(s: string, p: nat)
    requires p < |s|
    ensures At(s, p, [s[p]])
  {
  }

  lemma NoneAt(s: string, p: nat)
    requires p <= |s|
    ensures At(s, p, "")
  {
  }

  lemma ExpRead(s: string, p: nat) returns (e: Option<Exp>)
    requires p <= |s|
    ensures (e.Some? ==> LegalExp(e.value)) && At(s, p, ExpText(e)) && ExponentEnd(s, p) == p + |ExpText(e)|
  {
    hide At, SkipDigits, ExponentEnd, Numeral;
    ExpEndIs(s, p);
    if HasMark(s, p) {
      var sign := if HasSign(s, p + 1) then [s[p + 1]] else "";
      var d := DigitsRead(s, p + 1 + |sign|);
      if sign == "" { NoneAt(s, p + 1); } else { OneAt(s, p + 1); }
      e := Some(Exp(s[p], sign, d));
      OneAt(s, p);
      AtJoin(s, p + 1, sign, d);
      AtJoin(s, p, [s[p]], sign + d);
    } else {
      e := None;
      NoneAt(s, p);
    }
  }

  lemma PartsRead(s: string, p: nat) returns (n: Num)
    requires Begins(s, p)
    ensures Scanned(s, p, n)
  {
    hide SkipDigits, FractionEnd, ExponentEnd, FractionText, ExpText, NumText;
    var minus := s[p] == '-';
    var i := if minus then p + 1 else p;
    assert s[p..i] == if minus then "-" else "";
    var d := DigitsRead(s, i);
    var x := FractionRead(s, i + |d|);
    var e := ExpRead(s, i + |d| + |FractionText(x)|);
    n := Num(minus, d, x, e);
    assert At(s, p, Sign(n));
    JoinNum(s, p, n);
  }

  /** What follows a value in a text: nothing, a blank, a comma or a closing bracket. */
  predicate Apart(s: string, q: nat) {
    q <= |s| && (q < |s| ==> s[q] == ' ' || s[q] == '\t' || s[q] == '\n' || s[q] == '\r'
                             || s[q] == ',' || s[q] == ']' || s[q] == '}')
  }

  /** Digits in place, and no digit behind them. */
  lemma DigitsBack(s: string, p: nat, d: string)
    requires At(s, p, d) && Numeral(d) && (p + |d| < |s| ==> !IsDigit(s[p + |d|]))
    ensures p + |d| <= |s| && SkipDigits(s, p) == p + |d|
  {
    AtBytes(s, p, d);
    forall j | p <= j < p + |d| ensures IsDigit(s[j]) { assert s[p + (j - p)] == d[j - p]; }
    JsonLaws.SkipAll(s, p, p + |d|);
  }

  lemma FractionBack(s: string, p: nat, x: Option<string>)
    requires At(s, p, FractionText(x)) && (x.Some? ==> Numeral(x.value))
    requires var q := p + |FractionText(x)|; q < |s| ==> !IsDigit(s[q]) && s[q] != '.'
    ensures p <= |s| && FractionEnd(s, p) == p + |FractionText(x)|
  {
    hide SkipDigits;
    if x.Some? {
      AtSplit(s, p, ".", x.value);
      AtIndex(s, p, ".", 0);
      DigitsBack(s, p + 1, x.value);
    }
  }

  lemma ApartNoDigit(s: string, q: nat)
    requires Apart(s, q)
    ensures q < |s| ==> !IsDigit(s[q]) && !HasMark(s, q)
  {
  }

  lemma ExpBack(s: string, p: nat, e: Option<Exp>)
    requires At(s, p, ExpText(e)) && (e.Some? ==> LegalExp(e.value)) && Apart(s, p + |ExpText(e)|)
    ensures p <= |s| && ExponentEnd(s, p) == p + |ExpText(e)|
  {
    hide At, SkipDigits, ExponentEnd, Numeral, Apart, IsDigit;
    AtBound(s, p, ExpText(e));
    ApartNoDigit(s, p + |ExpText(e)|);
    ExpEndIs(s, p);
    if e.Some? {
      var x := e.value;
      AtSplit(s, p, [x.mark], x.sign + x.digits);
      AtIndex(s, p, [x.mark], 0);
      AtSplit(s, p + 1, x.sign, x.digits);
      var q := p + 1 + |x.sign|;
      DigitsBack(s, q, x.digits);
      SignBack(s, p + 1, x.sign, x.digits);
    }
  }

  /** A sign is taken exactly when there is one. */
  lemma SignBack(s: string, p: nat, sign: string, d: string)
    requires At(s, p, sign) && At(s, p + |sign|, d) && Numeral(d) && Apart(s, p + |sign| + |d|)
    requires sign == "" || sign == "+" || sign == "-"
    ensures HasSign(s, p) <==> sign != ""
    ensures sign != "" ==> |sign| == 1
  {
    hide At;
    if sign != "" { AtIndex(s, p, sign, 0); } else if d != "" { AtIndex(s, p, d, 0); }
  }

  /** The character that follows the whole part, or the fraction. */
  lemma NextPart(s: string, p: nat, t: string)
    requires At(s, p, t) && p + |t| <= |s|
    ensures t != "" ==> p < |s| && s[p] == t[0]
  {
    if t != "" { AtIndex(s, p, t, 0); }
  }

  /** Neither the exponent nor what follows a value goes on with the digits before it. */
  lemma NextExp(s: string, f: nat, e: Option<Exp>)
    requires At(s, f, ExpText(e)) && (e.Some? ==> LegalExp(e.value)) && Apart(s, f + |ExpText(e)|)
    ensures f <= |s| && (f < |s| ==> !IsDigit(s[f]) && s[f] != '.')
  {
    AtBound(s, f, ExpText(e));
    NextPart(s, f, ExpText(e));
  }

  lemma NextFraction(s: string, w: nat, x: Option<string>)
    requires At(s, w, FractionText(x)) && w + |FractionText(x)| <= |s|
    requires var f := w + |FractionText(x)|; f < |s| ==> !IsDigit(s[f])
    ensures w < |s| ==> !IsDigit(s[w])
  {
    NextPart(s, w, FractionText(x));
  }

  lemma WholeEnd(s: string, p: nat, minus: bool, d: string)
    requires Numeral(d) && (minus || d != "") && At(s, p, if minus then "-" else "")
    requires var i := if minus then p + 1 else p; At(s, i, d) && (i + |d| < |s| ==> !IsDigit(s[i + |d|]))
    ensures Begins(s, p) && IntEnd(s, p) == (if minus then p + 1 else p) + |d|
  {
    hide SkipDigits;
    DigitsBack(s, if minus then p + 1 else p, d);
    if minus { AtIndex(s, p, "-", 0); } else { AtIndex(s, p, d, 0); }
  }

  lemma PartsBack(s: string, p: nat, n: Num)
    requires Shaped(n) && At(s, p, NumText(n)) && Apart(s, p + |NumText(n)|)
    ensures Scanned(s, p, n)
  {
    hide At, SkipDigits, IntEnd, FractionEnd, ExponentEnd, NumText, FractionText, ExpText, Apart, LegalExp, Numeral,
      Begins;
    NumPlaces(s, p, n);
    var w := p + |Sign(n)| + |n.whole|;
    var f := w + |FractionText(n.fraction)|;
    NextExp(s, f, n.exp);
    NextFraction(s, w, n.fraction);
    WholeEnd(s, p, n.minus, n.whole);
    FractionBack(s, w, n.fraction);
    ExpBack(s, f, n.exp);
  }

  lemma LeadingIs(n: Num, t: string)
    requires IsInt(n) && Numeral(n.whole) && t == NumText(n)
    ensures t == Sign(n) + n.whole
    ensures var c := Clip(t); c == Sign(n) + Leading(n.whole, if n.minus then 62 else 63)
  {
    assert t == Sign(n) + n.whole;
  }

  lemma HeldIs(t: string)
    ensures Clip(t) == Held(t)
  {
  }

  /** An integer as strtoll reads it. */
  lemma IntIs(minus: bool, d: string, t: string)
    requires Numeral(d) && t == (if minus then "-" else "") + d
    ensures forall i :: 0 <= i < |t| ==> IsDigit(t[i]) || (i == 0 && t[i] == '-')
    ensures StrToLL(t) == if d == "" then None else Some(Bounded(minus, Worth(d)))
  {
    hide Worth, DigitsValue;
    WorthIs(d);
    if minus {
      assert t[1..] == d;
      forall i | 0 < i < |t| ensures IsDigit(t[i]) { assert t[i] == d[i - 1]; }
    } else {
      assert t == d;
      if d != "" { assert IsDigit(d[0]); }
    }
  }

  /** What the parser makes of it. */
  lemma NumberIs(s: string, p: nat, n: Num, ft: FloatText)
    requires Scanned(s, p, n)
    ensures var r := ParseNumber(s, p, ft);
      if LegalNum(n, ft) then r == Got(NumMeans(n, ft), p + |NumText(n)|) else r.Bad?
  {
    hide SkipDigits, IntEnd, FractionEnd, ExponentEnd, Worth, Clip, Held, StrToLL, Leading, Numeral;
    NumPlaces(s, p, n);
    HeldIs(NumText(n));
    if IsInt(n) {
      var t := NumText(n);
      LeadingIs(n, t);
      IntIs(n.minus, Leading(n.whole, if n.minus then 62 else 63), Clip(t));
      assert Leading(n.whole, if n.minus then 62 else 63) == "" <==> n.whole == "" by { hide *; LeadingSome(n.whole); }
    }
  }

  lemma LeadingSome(d: string)
    ensures Leading(d, 62) == "" <==> d == ""
    ensures Leading(d, 63) == "" <==> d == ""
  {
  }

  // ----- the words -----

  /** How a tree begins decides which way the parser goes. */
  lemma StartOf(t: Tree, ft: FloatText)
    requires Legal(t, ft)
    ensures var w := Written(t); w != "" && !IsWs(w[0]) && w[0] != ']' && w[0] != '}'
    ensures var c := Written(t)[0];
      match t
      case Null => c == 'n'
      case Yes => c == 't'
      case No => c == 'f'
      case Str(_) => c == '"' || c == '\\'
      case Number(_) => c == '-' || IsDigit(c)
      case Arr(_, _) => c == '['
      case Obj(_, _) => c == '{'
  {
    hide SpellAll;
    if t.Number? && !t.n.minus {
      assert IsDigit(t.n.whole[0]);
      assert NumText(t.n)[0] == t.n.whole[0];
    }
  }

  // ----- every derivation is parsed -----

  lemma SameValue(s: string, p: nat, q: nat, ft: FloatText)
    requires p <= |s| && q <= |s| && SkipWs(s, p) == SkipWs(s, q)
    ensures ParseValue(s, p, ft) == ParseValue(s, q, ft)
  {
    hide SkipWs, AtString, ParseString, ParseObject, ParseArray, ParseNumber, Literal;
  }

  lemma WordBack(t: Tree, s: string, p: nat, ft: FloatText)
    requires (t.Null? || t.Yes? || t.No?) && At(s, p, Written(t))
    ensures ParseValue(s, p, ft) == Got(Means(t, ft), p + |Written(t)|)
  {
    hide ParseString, ParseObject, ParseArray, ParseNumber;
    StartOf(t, ft);
    AtIndex(s, p, Written(t), 0);
    JsonLaws.NotWs(s, p);
    if !t.Yes? { JsonLaws.NoWord(s, p, "true"); }
    if t.Null? { JsonLaws.NoWord(s, p, "false"); }
  }

  lemma {:induction false} TreeBack(t: Tree, s: string, p: nat, ft: FloatText)
    requires Legal(t, ft) && At(s, p, Written(t)) && Apart(s, p + |Written(t)|)
    ensures p <= |s| && ParseValue(s, p, ft) == Got(Means(t, ft), p + |Written(t)|)
    decreases t, 1
  {
    hide ParseNumber, ParseString, ParseObject, ParseArray, Written, Legal, Means, TextOf, NumText, Content, NumMeans,
      LegalText, LegalNum;
    StartOf(t, ft);
    AtIndex(s, p, Written(t), 0);
    JsonLaws.NotWs(s, p);
    match t
    case Null => WordBack(t, s, p, ft);
    case Yes => WordBack(t, s, p, ft);
    case No => WordBack(t, s, p, ft);
    case Str(x) =>
      LeafParts(t, ft);
      TextBack(s, p, x);
    case Number(n) =>
      LeafParts(t, ft);
      NumBack(s, p, n, ft);
    case Arr(_, _) => ArrBack(t, s, p, ft);
    case Obj(_, _) => ObjBack(t, s, p, ft);
  }

  lemma LeafParts(t: Tree, ft: FloatText)
    requires Legal(t, ft)
    ensures t.Str? ==> LegalText(t.text) && Written(t) == TextOf(t.text) && Means(t, ft) == StrV(Content(t.text))
    ensures t.Number? ==> LegalNum(t.n, ft) && Written(t) == NumText(t.n) && Means(t, ft) == NumMeans(t.n, ft)
  {
  }

  lemma NumBack(s: string, p: nat, n: Num, ft: FloatText)
    requires LegalNum(n, ft) && At(s, p, NumText(n)) && Apart(s, p + |NumText(n)|)
    ensures Begins(s, p) && ParseNumber(s, p, ft) == Got(NumMeans(n, ft), p + |NumText(n)|)
    ensures !AtString(s, p) && s[p] != '{' && s[p] != '['
  {
    hide NumText, ParseNumber, NumMeans;
    PartsBack(s, p, n);
    NumberIs(s, p, n, ft);
  }

  /** Where an element ends: at a comma or a bracket. */
  predicate Closes(s: string, q: nat) { q < |s| && (s[q] == ',' || s[q] == ']' || s[q] == '}') }

  lemma BlankApart(s: string, p: nat, b: string)
    requires At(s, p, b) && Blanks(b) && p + |b| <= |s| && (p + |b| == |s| || Closes(s, p + |b|))
    ensures Apart(s, p) && SkipWs(s, p) == p + |b|
  {
    SkipBlanks(s, p, b);
    if b != "" { AtIndex(s, p, b, 0); }
  }

  lemma {:induction false} ItemBack(a: Item, s: string, p: nat, ft: FloatText)
    requires LegalItem(a, ft) && At(s, p, WrittenItem(a)) && Closes(s, p + |WrittenItem(a)|)
    ensures p <= |s| && ParseValue(s, p, ft).Got? && ParseValue(s, p, ft).value == ItemMeans(a, ft)
    ensures SkipWs(s, ParseValue(s, p, ft).pos) == p + |WrittenItem(a)|
    decreases a, 2
  {
    hide At, ParseValue, Written, Legal, Means, SkipWs, Blanks;
    var w := Written(a.tree);
    AtSplit(s, p, a.before, w + a.after);
    var q := p + |a.before|;
    AtSplit(s, q, w, a.after);
    BlankApart(s, q + |w|, a.after);
    TreeBack(a.tree, s, q, ft);
    SkipBlanks(s, p, a.before);
    SameValue(s, p, q, ft);
  }

  lemma ItemsParts(items: seq<Item>, ft: FloatText)
    requires items != []
    ensures var x := WrittenItem(items[0]);
      WrittenItems(items) == if |items| == 1 then x else x + ("," + WrittenItems(items[1..]))
    ensures LegalItems(items, ft) ==> LegalItem(items[0], ft) && LegalItems(items[1..], ft)
    ensures LegalItems(items, ft) ==>
      ItemsMean(items, ft)
      == if |items| == 1 then [ItemMeans(items[0], ft)]
         else [ItemMeans(items[0], ft)] + ItemsMean(items[1..], ft)
  {
    hide WrittenItem, LegalItem, ItemMeans;
    if |items| == 1 { assert items[1..] == []; }
  }

  lemma ItemsStep(s: string, p: nat, count: nat, ft: FloatText, q: nat)
    requires p <= |s| && count < 1024 && ParseValue(s, p, ft).Got?
    requires q < |s| && SkipWs(s, ParseValue(s, p, ft).pos) == q
    ensures var x := ParseValue(s, p, ft).value;
      if s[q] == ']' then ParseItems(s, p, count, ft) == Got([x], q + 1)
      else if s[q] != ',' then ParseItems(s, p, count, ft).Bad?
      else
        var rest := ParseItems(s, q + 1, count + 1, ft);
        ParseItems(s, p, count, ft) == if rest.Bad? then rest else Got([x] + rest.value, rest.pos)
  {
    hide ParseValue, SkipWs;
  }

  lemma {:induction false} ItemsBack(items: seq<Item>, s: string, p: nat, count: nat, ft: FloatText)
    requires items != [] && LegalItems(items, ft) && count + |items| <= 1024
    requires At(s, p, WrittenItems(items)) && At(s, p + |WrittenItems(items)|, "]")
    ensures p <= |s| && ParseItems(s, p, count, ft) == Got(ItemsMean(items, ft), p + |WrittenItems(items)| + 1)
    decreases items, 3
  {
    hide At, ParseValue, ParseItems, WrittenItem, WrittenItems, LegalItem, LegalItems, ItemMeans, ItemsMean, SkipWs;
    ItemsParts(items, ft);
    var x := WrittenItem(items[0]);
    var q := p + |x|;
    if |items| == 1 {
      AtIndex(s, q, "]", 0);
    } else {
      var rest := WrittenItems(items[1..]);
      AtSplit(s, p, x, "," + rest);
      AtSplit(s, q, ",", rest);
      AtIndex(s, q, ",", 0);
      ItemsBack(items[1..], s, q + 1, count + 1, ft);
    }
    ItemBack(items[0], s, p, ft);
    ItemsStep(s, p, count, ft, q);
  }

  /** Blanks before the first element make no difference. */
  lemma ItemsSkip(s: string, p: nat, ft: FloatText)
    requires p <= |s|
    ensures ParseItems(s, SkipWs(s, p), 0, ft) == ParseItems(s, p, 0, ft)
    ensures ParsePairs(s, SkipWs(s, p), 0, ft) == ParsePairs(s, p, 0, ft)
  {
    hide ParseValue, ParseString, AtString;
    var q := SkipWs(s, p);
    JsonLaws.NotWs(s, q);
    SameValue(s, p, q, ft);
  }

  lemma ArrParts(t: Tree, ft: FloatText)
    requires t.Arr? && Legal(t, ft)
    ensures Written(t) == "[" + (t.gap + (WrittenItems(t.items) + "]"))
    ensures Blanks(t.gap) && |t.items| <= 1024 && LegalItems(t.items, ft)
    ensures Means(t, ft) == ArrV(ItemsMean(t.items, ft))
    ensures t.items == [] ==> WrittenItems(t.items) == "" && ItemsMean(t.items, ft) == []
  {
  }

  lemma ItemParts(a: Item, ft: FloatText)
    requires LegalItem(a, ft)
    ensures Blanks(a.before) && Legal(a.tree, ft) && WrittenItem(a) == a.before + (Written(a.tree) + a.after)
  {
    hide Blanks, Legal, Written;
  }

  /** The first character of elements behind blanks is no closing bracket. */
  lemma {:induction false} ItemsStart(items: seq<Item>, s: string, p: nat, ft: FloatText)
    requires items != [] && LegalItems(items, ft) && At(s, p, WrittenItems(items))
    ensures p <= |s| && var q := SkipWs(s, p); q < |s| && s[q] != ']'
  {
    hide *;
    ItemsParts(items, ft);
    var a := items[0];
    var w := Written(a.tree);
    ItemParts(a, ft);
    if |items| > 1 { AtSplit(s, p, WrittenItem(a), "," + WrittenItems(items[1..])); }
    AtSplit(s, p, a.before, w + a.after);
    AtSplit(s, p + |a.before|, w, a.after);
    StartOf(a.tree, ft);
    AtIndex(s, p + |a.before|, w, 0);
    SkipBlanks(s, p, a.before);
    JsonLaws.NotWs(s, p + |a.before|);
  }

  /** Where the parts of a bracketed text stand. */
  lemma BracketPlaces(s: string, p: nat, o: char, gap: string, w: string, c: char)
    requires At(s, p, [o] + (gap + (w + [c]))) && Blanks(gap)
    ensures var q := p + 1 + |gap|;
      && p < |s| && s[p] == o && At(s, q, w) && At(s, q + |w|, [c]) && q + |w| < |s| && s[q + |w|] == c
      && SkipWs(s, p + 1) == SkipWs(s, q)
  {
    hide At, SkipWs, Blanks;
    var q := p + 1 + |gap|;
    AtSplit(s, p, [o], gap + (w + [c]));
    AtIndex(s, p, [o], 0);
    AtSplit(s, p + 1, gap, w + [c]);
    AtSplit(s, q, w, [c]);
    AtIndex(s, q + |w|, [c], 0);
    SkipBlanks(s, p + 1, gap);
  }

  /** An array from its bracket on, when the first element or the end is found at q. */
  lemma ArrayFrom(s: string, p: nat, q: nat, ft: FloatText)
    requires p < |s| && q <= |s| && SkipWs(s, p + 1) == SkipWs(s, q)
    ensures var k := SkipWs(s, q); k < |s| && s[k] == ']' ==> ParseArray(s, p, ft) == Got(ArrV([]), k + 1)
    ensures var k := SkipWs(s, q); var r := ParseItems(s, q, 0, ft);
      k < |s| && s[k] != ']' && r.Got? ==> ParseArray(s, p, ft) == Got(ArrV(r.value), r.pos)
  {
    hide ParseItems, SkipWs;
    ItemsSkip(s, q, ft);
  }

  lemma {:induction false} ArrBack(t: Tree, s: string, p: nat, ft: FloatText)
    requires t.Arr? && Legal(t, ft) && At(s, p, Written(t))
    ensures p < |s| && s[p] == '[' && ParseArray(s, p, ft) == Got(Means(t, ft), p + |Written(t)|)
    decreases t, 0
  {
    hide *;
    ArrParts(t, ft);
    var q := p + 1 + |t.gap|;
    var w := WrittenItems(t.items);
    BracketPlaces(s, p, '[', t.gap, w, ']');
    ArrayFrom(s, p, q, ft);
    if t.items == [] {
      CloseHere(s, q);
    } else {
      ItemsStart(t.items, s, q, ft);
      ItemsBack(t.items, s, q, 0, ft);
    }
  }

  lemma CloseHere(s: string, q: nat)
    requires q < |s| && (s[q] == ']' || s[q] == '}')
    ensures SkipWs(s, q) == q
  {
  }

  lemma PairStep(s: string, p: nat, ft: FloatText, q: nat, c: nat)
    requires p <= |s| && SkipWs(s, p) == q && AtString(s, q) && ParseString(s, q).Got?
    requires c < |s| && s[c] == ':' && SkipWs(s, ParseString(s, q).pos) == c && ParseValue(s, c + 1, ft).Got?
    ensures ParsePair(s, p, ft)
      == Got(Pair(ParseString(s, q).value, ParseValue(s, c + 1, ft).value), ParseValue(s, c + 1, ft).pos)
  {
    hide ParseValue, ParseString, AtString, SkipWs;
  }

  lemma {:induction false} MemberBack(m: Member, s: string, p: nat, ft: FloatText)
    requires LegalMember(m, ft) && At(s, p, WrittenMember(m)) && Closes(s, p + |WrittenMember(m)|)
    ensures p <= |s| && ParsePair(s, p, ft).Got? && ParsePair(s, p, ft).value == MemberMeans(m, ft)
    ensures SkipWs(s, ParsePair(s, p, ft).pos) == p + |WrittenMember(m)|
    decreases m, 4
  {
    hide At, ParseValue, ParseString, ParsePair, WrittenItem, LegalItem, ItemMeans, SkipWs, TextOf, Content, LegalText,
      AtString;
    var k, x := TextOf(m.key), WrittenItem(m.item);
    MemberPlaces(m, s, p);
    var q := p + |m.before|;
    var c := q + |k| + |m.colon|;
    SkipBlanks(s, p, m.before);
    TextBack(s, q, m.key);
    JsonLaws.NotWs(s, q) by { AtStringIs(s, q); }
    SkipBlanks(s, q + |k|, m.colon);
    JsonLaws.NotWs(s, c);
    ItemBack(m.item, s, c + 1, ft);
    PairStep(s, p, ft, q, c);
  }

  lemma AtStringIs(s: string, p: nat)
    requires AtString(s, p)
    ensures p < |s| && !IsWs(s[p]) && s[p] != '}'
  {
  }

  lemma MemberPlaces(m: Member, s: string, p: nat)
    requires At(s, p, WrittenMember(m))
    ensures var q := p + |m.before|; var c := q + |TextOf(m.key)| + |m.colon|;
      && At(s, p, m.before) && At(s, q, TextOf(m.key)) && At(s, q + |TextOf(m.key)|, m.colon)
      && c < |s| && s[c] == ':' && At(s, c + 1, WrittenItem(m.item))
      && p + |WrittenMember(m)| == c + 1 + |WrittenItem(m.item)|
  {
    hide TextOf, WrittenItem;
    var k, x := TextOf(m.key), WrittenItem(m.item);
    AtSplit(s, p, m.before, k + (m.colon + (":" + x)));
    var q := p + |m.before|;
    AtSplit(s, q, k, m.colon + (":" + x));
    AtSplit(s, q + |k|, m.colon, ":" + x);
    AtSplit(s, q + |k| + |m.colon|, ":", x);
    AtIndex(s, q + |k| + |m.colon|, ":", 0);
  }

  lemma MembersParts(ms: seq<Member>, ft: FloatText)
    requires ms != []
    ensures var x := WrittenMember(ms[0]);
      WrittenMembers(ms) == if |ms| == 1 then x else x + ("," + WrittenMembers(ms[1..]))
    ensures LegalMembers(ms, ft) ==> LegalMember(ms[0], ft) && LegalMembers(ms[1..], ft)
    ensures LegalMembers(ms, ft) ==>
      MembersMean(ms, ft)
      == if |ms| == 1 then [MemberMeans(ms[0], ft)] else [MemberMeans(ms[0], ft)] + MembersMean(ms[1..], ft)
  {
    hide WrittenMember, LegalMember, MemberMeans;
    if |ms| == 1 { assert ms[1..] == []; }
  }

  lemma PairsStep(s: string, p: nat, count: nat, ft: FloatText, q: nat)
    requires p <= |s| && count < 256 && ParsePair(s, p, ft).Got? && q < |s| && SkipWs(s, ParsePair(s, p, ft).pos) == q
    ensures var x := ParsePair(s, p, ft).value;
      if s[q] == '}' then ParsePairs(s, p, count, ft) == Got([x], q + 1)
      else if s[q] != ',' then ParsePairs(s, p, count, ft).Bad?
      else
        var rest := ParsePairs(s, q + 1, count + 1, ft);
        ParsePairs(s, p, count, ft) == if rest.Bad? then rest else Got([x] + rest.value, rest.pos)
  {
    hide ParsePair, SkipWs;
  }

  lemma {:induction false} MembersBack(ms: seq<Member>, s: string, p: nat, count: nat, ft: FloatText)
    requires ms != [] && LegalMembers(ms, ft) && count + |ms| <= 256
    requires At(s, p, WrittenMembers(ms)) && At(s, p + |WrittenMembers(ms)|, "}")
    ensures p <= |s| && ParsePairs(s, p, count, ft) == Got(MembersMean(ms, ft), p + |WrittenMembers(ms)| + 1)
    decreases ms, 5
  {
    hide At, ParsePair, ParsePairs, WrittenMember, WrittenMembers, LegalMember, LegalMembers, MemberMeans, MembersMean,
      SkipWs;
    MembersParts(ms, ft);
    var x := WrittenMember(ms[0]);
    var q := p + |x|;
    if |ms| == 1 {
      AtIndex(s, q, "}", 0);
    } else {
      var rest := WrittenMembers(ms[1..]);
      AtSplit(s, p, x, "," + rest);
      AtSplit(s, q, ",", rest);
      AtIndex(s, q, ",", 0);
      MembersBack(ms[1..], s, q + 1, count + 1, ft);
    }
    MemberBack(ms[0], s, p, ft);
    PairsStep(s, p, count, ft, q);
  }

  lemma ObjParts(t: Tree, ft: FloatText)
    requires t.Obj? && Legal(t, ft)
    ensures Written(t) == "{" + (t.gap + (WrittenMembers(t.members) + "}"))
    ensures Blanks(t.gap) && |t.members| <= 256 && LegalMembers(t.members, ft)
    ensures Means(t, ft) == MapV(MembersMean(t.members, ft))
    ensures t.members == [] ==> WrittenMembers(t.members) == "" && MembersMean(t.members, ft) == []
  {
  }

  lemma MembersStart(ms: seq<Member>, s: string, p: nat, ft: FloatText)
    requires ms != [] && LegalMembers(ms, ft) && At(s, p, WrittenMembers(ms))
    ensures p <= |s| && var q := SkipWs(s, p); q < |s| && s[q] != '}'
  {
    hide At, WrittenMembers, WrittenMember, LegalMembers, SkipWs, IsWs, LegalItem, TextOf;
    MembersParts(ms, ft);
    var m := ms[0];
    if |ms| > 1 { AtSplit(s, p, WrittenMember(m), "," + WrittenMembers(ms[1..])); }
    MemberPlaces(m, s, p);
    var q := p + |m.before|;
    TextBack(s, q, m.key);
    AtStringIs(s, q);
    SkipBlanks(s, p, m.before);
    JsonLaws.NotWs(s, q);
  }

  lemma ObjectFrom(s: string, p: nat, q: nat, ft: FloatText)
    requires p < |s| && q <= |s| && SkipWs(s, p + 1) == SkipWs(s, q)
    ensures var k := SkipWs(s, q); k < |s| && s[k] == '}' ==> ParseObject(s, p, ft) == Got(MapV([]), k + 1)
    ensures var k := SkipWs(s, q); var r := ParsePairs(s, q, 0, ft);
      k < |s| && s[k] != '}' && r.Got? ==> ParseObject(s, p, ft) == Got(MapV(r.value), r.pos)
  {
    hide ParsePairs, SkipWs;
    ItemsSkip(s, q, ft);
  }

  lemma {:induction false} ObjBack(t: Tree, s: string, p: nat, ft: FloatText)
    requires t.Obj? && Legal(t, ft) && At(s, p, Written(t))
    ensures p < |s| && s[p] == '{' && ParseObject(s, p, ft) == Got(Means(t, ft), p + |Written(t)|)
    decreases t, 0
  {
    hide *;
    ObjParts(t, ft);
    var q := p + 1 + |t.gap|;
    var w := WrittenMembers(t.members);
    BracketPlaces(s, p, '{', t.gap, w, '}');
    ObjectFrom(s, p, q, ft);
    if t.members == [] {
      CloseHere(s, q);
    } else {
      MembersStart(t.members, s, q, ft);
      MembersBack(t.members, s, q, 0, ft);
    }
  }

  // ----- everything parsed has a derivation -----

  lemma WordAt(s: string, q: nat, ft: FloatText) returns (t: Tree)
    requires q < |s| && SkipWs(s, q) == q && !AtString(s, q) && s[q] != '{' && s[q] != '[' && !Begins(s, q)
    requires ParseValue(s, q, ft).Got?
    ensures Legal(t, ft) && At(s, q, Written(t)) && ParseValue(s, q, ft) == Got(Means(t, ft), q + |Written(t)|)
  {
    hide ParseString, ParseObject, ParseArray, ParseNumber;
    t := if Literal(s, q, "true") then Yes else if Literal(s, q, "false") then No else Null;
  }

  /** Which way the parser goes, behind the blanks. */
  lemma ValueIs(s: string, p: nat, ft: FloatText)
    requires p <= |s| && ParseValue(s, p, ft).Got?
    ensures var q := SkipWs(s, p); q < |s| && ParseValue(s, p, ft) == ParseValue(s, q, ft) && SkipWs(s, q) == q
    ensures var q := SkipWs(s, p); var r := ParseValue(s, p, ft);
      if AtString(s, q) then ParseString(s, q).Got? && r == Got(StrV(ParseString(s, q).value), ParseString(s, q).pos)
      else if s[q] == '{' then r == ParseObject(s, q, ft)
      else if s[q] == '[' then r == ParseArray(s, q, ft)
      else Begins(s, q) ==> r == ParseNumber(s, q, ft)
  {
    hide SkipWs, AtString, ParseString, ParseObject, ParseArray, ParseNumber, Literal;
    JsonLaws.NotWs(s, SkipWs(s, p));
    SameValue(s, p, SkipWs(s, p), ft);
  }

  lemma {:induction false} TreeRead(s: string, p: nat, ft: FloatText) returns (b: string, t: Tree)
    requires p <= |s| && ParseValue(s, p, ft).Got?
    ensures Blanks(b) && Legal(t, ft) && At(s, p, b) && At(s, p + |b|, Written(t))
    ensures ParseValue(s, p, ft) == Got(Means(t, ft), p + |b| + |Written(t)|)
    decreases |s| - p, 1
  {
    hide ParseValue, ParseNumber, ParseString, ParseObject, ParseArray, SkipWs, AtString, Blanks, Legal, Means, Written,
      NumText, TextOf, Content, NumMeans, LegalNum, LegalText, Begins;
    b := SkippedBlanks(s, p);
    var q := p + |b|;
    ValueIs(s, p, ft);
    if AtString(s, q) {
      var x := TextRead(s, q);
      t := Str(x);
      LeafIs(t, ft);
    } else if s[q] == '{' {
      t := ObjRead(s, q, ft);
    } else if s[q] == '[' {
      t := ArrRead(s, q, ft);
    } else if Begins(s, q) {
      var n := PartsRead(s, q);
      ScannedAt(s, q, n);
      NumberIs(s, q, n, ft);
      t := Number(n);
      LeafIs(t, ft);
    } else {
      t := WordAt(s, q, ft);
    }
  }

  lemma ScannedAt(s: string, p: nat, n: Num)
    requires Scanned(s, p, n)
    ensures Begins(s, p) && At(s, p, NumText(n))
  {
  }

  lemma LeafIs(t: Tree, ft: FloatText)
    ensures t.Str? && LegalText(t.text) ==>
      Legal(t, ft) && Written(t) == TextOf(t.text) && Means(t, ft) == StrV(Content(t.text))
    ensures t.Number? && LegalNum(t.n, ft) ==>
      Legal(t, ft) && Written(t) == NumText(t.n) && Means(t, ft) == NumMeans(t.n, ft)
  {
  }

  lemma {:induction false} ArrRead(s: string, p: nat, ft: FloatText) returns (t: Tree)
    requires p < |s| && s[p] == '[' && ParseArray(s, p, ft).Got?
    ensures Legal(t, ft) && At(s, p, Written(t)) && ParseArray(s, p, ft) == Got(Means(t, ft), p + |Written(t)|)
    decreases |s| - p, 0
  {
    hide ParseItems, SkipWs, Blanks, LegalItems, WrittenItems, ItemsMean;
    var gap := SkippedBlanks(s, p + 1);
    var q := p + 1 + |gap|;
    var items := [];
    NoItems(ft);
    if s[q] != ']' { items := ItemsRead(s, q, 0, ft); }
    t := Arr(gap, items);
    Bracketed(s, p, '[', gap, WrittenItems(items), ']');
  }

  lemma NoItems(ft: FloatText)
    ensures WrittenItems([]) == "" && LegalItems([], ft) && ItemsMean([], ft) == []
    ensures WrittenMembers([]) == "" && LegalMembers([], ft) && MembersMean([], ft) == []
  {
  }

  lemma Bracketed(s: string, p: nat, o: char, gap: string, w: string, c: char)
    requires p < |s| && s[p] == o && At(s, p + 1, gap) && At(s, p + 1 + |gap|, w)
    requires var e := p + 1 + |gap| + |w|; e < |s| && s[e] == c
    ensures At(s, p, [o] + (gap + (w + [c])))
  {
    var e := p + 1 + |gap| + |w|;
    assert s[p..p + 1] == [o] && s[e..e + 1] == [c];
    AtJoin(s, p + 1 + |gap|, w, [c]);
    AtJoin(s, p + 1, gap, w + [c]);
    AtJoin(s, p, [o], gap + (w + [c]));
  }

  /** An element and the blanks around it, up to what is none. */
  lemma {:induction false} ItemRead(s: string, p: nat, ft: FloatText) returns (a: Item)
    requires p <= |s| && ParseValue(s, p, ft).Got?
    ensures LegalItem(a, ft) && At(s, p, WrittenItem(a)) && ParseValue(s, p, ft).value == ItemMeans(a, ft)
    ensures SkipWs(s, ParseValue(s, p, ft).pos) == p + |WrittenItem(a)|
    decreases |s| - p, 2
  {
    hide At, ParseValue, SkipWs, Blanks, Legal, Means, Written;
    var b, t := TreeRead(s, p, ft);
    var e := p + |b| + |Written(t)|;
    var c := SkippedBlanks(s, e);
    a := Item(b, t, c);
    AtJoin(s, p + |b|, Written(t), c);
    AtJoin(s, p, b, Written(t) + c);
  }

  lemma ItemsFirst(s: string, p: nat, count: nat, ft: FloatText)
    requires p <= |s| && ParseItems(s, p, count, ft).Got?
    ensures count < 1024 && ParseValue(s, p, ft).Got?
    ensures var q := SkipWs(s, ParseValue(s, p, ft).pos); q < |s| && (s[q] == ',' || s[q] == ']')
    ensures var q := SkipWs(s, ParseValue(s, p, ft).pos);
      s[q] == ',' ==> ParseItems(s, q + 1, count + 1, ft).Got? && q >= p
  {
    hide ParseValue, SkipWs;
  }

  lemma CommaAt(s: string, p: nat, x: string, rest: string)
    requires At(s, p, x) && p + |x| < |s| && s[p + |x|] == ',' && At(s, p + |x| + 1, rest)
    ensures At(s, p, x + ("," + rest))
  {
    assert s[p + |x|..p + |x| + 1] == ",";
    AtJoin(s, p + |x|, ",", rest);
    AtJoin(s, p, x, "," + rest);
  }

  /** The elements stand at p, and are what the parser finds. */
  ghost predicate ItemsFound(items: seq<Item>, s: string, p: nat, count: nat, ft: FloatText)
    requires p <= |s|
  {
    items != [] && LegalItems(items, ft) && count + |items| <= 1024 && At(s, p, WrittenItems(items)) &&
    var q := p + |WrittenItems(items)|;
    q < |s| && s[q] == ']' && ParseItems(s, p, count, ft) == Got(ItemsMean(items, ft), q + 1)
  }

  lemma LastFound(a: Item, s: string, p: nat, count: nat, ft: FloatText)
    requires p <= |s| && LegalItem(a, ft) && count < 1024 && At(s, p, WrittenItem(a))
    requires var q := p + |WrittenItem(a)|;
      q < |s| && s[q] == ']' && ParseItems(s, p, count, ft) == Got([ItemMeans(a, ft)], q + 1)
    ensures ItemsFound([a], s, p, count, ft)
  {
    hide LegalItem, WrittenItem, ItemMeans, ParseItems;
    NoItems(ft);
    assert [a] + [] == [a] && [ItemMeans(a, ft)] + [] == [ItemMeans(a, ft)];
    ItemsCons(a, [], ft);
  }

  lemma MoreFound(a: Item, rest: seq<Item>, s: string, p: nat, count: nat, ft: FloatText)
    requires p <= |s| && LegalItem(a, ft) && At(s, p, WrittenItem(a))
    requires var q := p + |WrittenItem(a)|; q < |s| && s[q] == ',' && ItemsFound(rest, s, q + 1, count + 1, ft)
    requires var r := ParseItems(s, p + |WrittenItem(a)| + 1, count + 1, ft);
      r.Got? ==> ParseItems(s, p, count, ft) == Got([ItemMeans(a, ft)] + r.value, r.pos)
    ensures ItemsFound([a] + rest, s, p, count, ft)
  {
    hide At, LegalItem, LegalItems, WrittenItem, WrittenItems, ItemMeans, ItemsMean, ParseItems;
    ItemsCons(a, rest, ft);
    CommaAt(s, p, WrittenItem(a), WrittenItems(rest));
  }

  lemma {:induction false} ItemsRead(s: string, p: nat, count: nat, ft: FloatText) returns (items: seq<Item>)
    requires p <= |s| && ParseItems(s, p, count, ft).Got?
    ensures ItemsFound(items, s, p, count, ft)
    decreases |s| - p, 3
  {
    hide ParseValue, ParseItems, SkipWs, LegalItem, WrittenItem, ItemMeans, ItemsFound;
    ItemsFirst(s, p, count, ft);
    var a := ItemRead(s, p, ft);
    var q := p + |WrittenItem(a)|;
    ItemsStep(s, p, count, ft, q);
    if s[q] == ']' {
      items := [a];
      LastFound(a, s, p, count, ft);
    } else {
      var rest := ItemsRead(s, q + 1, count + 1, ft);
      items := [a] + rest;
      MoreFound(a, rest, s, p, count, ft);
    }
  }

  lemma ItemsCons(a: Item, rest: seq<Item>, ft: FloatText)
    requires LegalItem(a, ft) && LegalItems(rest, ft)
    ensures LegalItems([a] + rest, ft)
    ensures WrittenItems([a] + rest)
      == if rest == [] then WrittenItem(a) else WrittenItem(a) + ("," + WrittenItems(rest))
    ensures ItemsMean([a] + rest, ft) == [ItemMeans(a, ft)] + ItemsMean(rest, ft)
  {
    hide LegalItem, WrittenItem, ItemMeans;
    assert ([a] + rest)[1..] == rest;
  }

  lemma PairIs(s: string, p: nat, ft: FloatText) returns (q: nat, c: nat)
    requires p <= |s| && ParsePair(s, p, ft).Got?
    ensures q == SkipWs(s, p) && AtString(s, q) && ParseString(s, q).Got?
    ensures c < |s| && s[c] == ':' && SkipWs(s, ParseString(s, q).pos) == c && ParseValue(s, c + 1, ft).Got? && c >= p
    ensures ParsePair(s, p, ft)
      == Got(Pair(ParseString(s, q).value, ParseValue(s, c + 1, ft).value), ParseValue(s, c + 1, ft).pos)
  {
    hide ParseValue, ParseString, AtString, SkipWs;
    q := SkipWs(s, p);
    c := SkipWs(s, ParseString(s, q).pos);
  }

  lemma JoinMember(s: string, p: nat, m: Member)
    requires var q := p + |m.before|; var d := q + |TextOf(m.key)|; var c := d + |m.colon|;
      && At(s, p, m.before) && At(s, q, TextOf(m.key)) && At(s, d, m.colon) && c < |s| && s[c] == ':'
      && At(s, c + 1, WrittenItem(m.item))
    ensures At(s, p, WrittenMember(m))
  {
    hide At, TextOf, WrittenItem;
    var k, x := TextOf(m.key), WrittenItem(m.item);
    var c := p + |m.before| + |k| + |m.colon|;
    OneAt(s, c);
    AtJoin(s, c, ":", x);
    AtJoin(s, p + |m.before| + |k|, m.colon, ":" + x);
    AtJoin(s, p + |m.before|, k, m.colon + (":" + x));
    AtJoin(s, p, m.before, k + (m.colon + (":" + x)));
  }

  lemma MemberLength(m: Member)
    ensures |WrittenMember(m)| == |m.before| + |TextOf(m.key)| + |m.colon| + 1 + |WrittenItem(m.item)|
  {
    hide TextOf, WrittenItem;
  }

  lemma MemberIs(m: Member, ft: FloatText)
    requires Blanks(m.before) && LegalText(m.key) && Blanks(m.colon) && LegalItem(m.item, ft)
    ensures LegalMember(m, ft) && MemberMeans(m, ft) == Pair(Content(m.key), ItemMeans(m.item, ft))
  {
    hide LegalText, LegalItem, Blanks, Content, ItemMeans;
  }

  lemma {:induction false} MemberRead(s: string, p: nat, ft: FloatText) returns (m: Member)
    requires p <= |s| && ParsePair(s, p, ft).Got?
    ensures LegalMember(m, ft) && At(s, p, WrittenMember(m)) && ParsePair(s, p, ft).value == MemberMeans(m, ft)
    ensures SkipWs(s, ParsePair(s, p, ft).pos) == p + |WrittenMember(m)|
    decreases |s| - p, 4
  {
    hide *;
    var q, c := PairIs(s, p, ft);
    var b := SkippedBlanks(s, p);
    var k := TextRead(s, q);
    var d := SkippedBlanks(s, q + |TextOf(k)|);
    var a := ItemRead(s, c + 1, ft);
    m := Member(b, k, d, a);
    JoinMember(s, p, m);
    MemberLength(m);
    MemberIs(m, ft);
  }

  lemma PairsFirst(s: string, p: nat, count: nat, ft: FloatText)
    requires p <= |s| && ParsePairs(s, p, count, ft).Got?
    ensures count < 256 && ParsePair(s, p, ft).Got?
    ensures var q := SkipWs(s, ParsePair(s, p, ft).pos); q < |s| && (s[q] == ',' || s[q] == '}')
    ensures var q := SkipWs(s, ParsePair(s, p, ft).pos);
      s[q] == ',' ==> ParsePairs(s, q + 1, count + 1, ft).Got? && q >= p
  {
    hide ParsePair, SkipWs;
  }

  ghost predicate MembersFound(ms: seq<Member>, s: string, p: nat, count: nat, ft: FloatText)
    requires p <= |s|
  {
    ms != [] && LegalMembers(ms, ft) && count + |ms| <= 256 && At(s, p, WrittenMembers(ms)) &&
    var q := p + |WrittenMembers(ms)|;
    q < |s| && s[q] == '}' && ParsePairs(s, p, count, ft) == Got(MembersMean(ms, ft), q + 1)
  }

  lemma LastMember(m: Member, s: string, p: nat, count: nat, ft: FloatText)
    requires p <= |s| && LegalMember(m, ft) && count < 256 && At(s, p, WrittenMember(m))
    requires var q := p + |WrittenMember(m)|;
      q < |s| && s[q] == '}' && ParsePairs(s, p, count, ft) == Got([MemberMeans(m, ft)], q + 1)
    ensures MembersFound([m], s, p, count, ft)
  {
    hide LegalMember, WrittenMember, MemberMeans, ParsePairs;
    NoItems(ft);
    assert [m] + [] == [m] && [MemberMeans(m, ft)] + [] == [MemberMeans(m, ft)];
    MembersCons(m, [], ft);
  }

  lemma MoreMembers(m: Member, rest: seq<Member>, s: string, p: nat, count: nat, ft: FloatText)
    requires p <= |s| && LegalMember(m, ft) && At(s, p, WrittenMember(m))
    requires var q := p + |WrittenMember(m)|; q < |s| && s[q] == ',' && MembersFound(rest, s, q + 1, count + 1, ft)
    requires var r := ParsePairs(s, p + |WrittenMember(m)| + 1, count + 1, ft);
      r.Got? ==> ParsePairs(s, p, count, ft) == Got([MemberMeans(m, ft)] + r.value, r.pos)
    ensures MembersFound([m] + rest, s, p, count, ft)
  {
    hide At, LegalMember, LegalMembers, WrittenMember, WrittenMembers, MemberMeans, MembersMean, ParsePairs;
    MembersCons(m, rest, ft);
    CommaAt(s, p, WrittenMember(m), WrittenMembers(rest));
  }

  lemma {:induction false} MembersRead(s: string, p: nat, count: nat, ft: FloatText) returns (ms: seq<Member>)
    requires p <= |s| && ParsePairs(s, p, count, ft).Got?
    ensures MembersFound(ms, s, p, count, ft)
    decreases |s| - p, 5
  {
    hide ParsePair, ParsePairs, SkipWs, LegalMember, WrittenMember, MemberMeans, MembersFound;
    PairsFirst(s, p, count, ft);
    var m := MemberRead(s, p, ft);
    var q := p + |WrittenMember(m)|;
    PairsStep(s, p, count, ft, q);
    if s[q] == '}' {
      ms := [m];
      LastMember(m, s, p, count, ft);
    } else {
      var rest := MembersRead(s, q + 1, count + 1, ft);
      ms := [m] + rest;
      MoreMembers(m, rest, s, p, count, ft);
    }
  }

  lemma MembersCons(m: Member, rest: seq<Member>, ft: FloatText)
    requires LegalMember(m, ft) && LegalMembers(rest, ft)
    ensures LegalMembers([m] + rest, ft)
    ensures WrittenMembers([m] + rest)
      == if rest == [] then WrittenMember(m) else WrittenMember(m) + ("," + WrittenMembers(rest))
    ensures MembersMean([m] + rest, ft) == [MemberMeans(m, ft)] + MembersMean(rest, ft)
  {
    hide LegalMember, WrittenMember, MemberMeans;
    assert ([m] + rest)[1..] == rest;
  }

  lemma {:induction false} ObjRead(s: string, p: nat, ft: FloatText) returns (t: Tree)
    requires p < |s| && s[p] == '{' && ParseObject(s, p, ft).Got?
    ensures Legal(t, ft) && At(s, p, Written(t)) && ParseObject(s, p, ft) == Got(Means(t, ft), p + |Written(t)|)
    decreases |s| - p, 0
  {
    hide ParsePairs, SkipWs, Blanks, LegalMembers, WrittenMembers, MembersMean;
    var gap := SkippedBlanks(s, p + 1);
    var q := p + 1 + |gap|;
    var ms := [];
    NoItems(ft);
    if s[q] != '}' { ms := MembersRead(s, q, 0, ft); }
    t := Obj(gap, ms);
    Bracketed(s, p, '{', gap, WrittenMembers(ms), '}');
  }

  // ----- the theorem -----

  /** The tree between blanks is the whole text, and means v. */
  ghost predicate Derives(before: string, t: Tree, after: string, s: string, v: Val, ft: FloatText) {
    Blanks(before) && Legal(t, ft) && Blanks(after) && s == before + (Written(t) + after) && Means(t, ft) == v
  }

  /** A text is parsed to a value if and only if some derivation of that value spans it
      between blanks; every other text is answered with an err. */
  lemma ParsesExactlyTexts(s: string, v: Val, ft: FloatText)
    ensures ParseText(s, ft) == ResV(true, v) <==> exists b, t, a :: Derives(b, t, a, s, v, ft)
    ensures ParseText(s, ft).ResV? && (!ParseText(s, ft).ok ==> ParseText(s, ft).val.StrV?)
  {
    hide Derives, ParseText;
    if ParseText(s, ft) == ResV(true, v) { var b, t, a := WholeRead(s, v, ft); }
    if b, t, a :| Derives(b, t, a, s, v, ft) { WholeBack(b, t, a, s, v, ft); }
    TextResult(s, ft);
  }

  lemma TextResult(s: string, ft: FloatText)
    ensures ParseText(s, ft).ResV? && (!ParseText(s, ft).ok ==> ParseText(s, ft).val.StrV?)
  {
  }

  lemma WholeRead(s: string, v: Val, ft: FloatText) returns (b: string, t: Tree, a: string)
    requires ParseText(s, ft) == ResV(true, v)
    ensures Derives(b, t, a, s, v, ft)
  {
    hide Written, Legal, Means, Blanks, ParseValue, SkipWs;
    b, t := TreeRead(s, 0, ft);
    var e := |b| + |Written(t)|;
    a := SkippedBlanks(s, e);
    assert s == b + (Written(t) + a) by { assert s[..|b|] == b && s[|b|..e] == Written(t) && s[e..] == a; }
  }

  lemma AllAt(s: string)
    ensures At(s, 0, s)
  {
  }

  lemma WholeBack(b: string, t: Tree, a: string, s: string, v: Val, ft: FloatText)
    requires Derives(b, t, a, s, v, ft)
    ensures ParseText(s, ft) == ResV(true, v)
  {
    hide At, Written, Legal, Means, Blanks, ParseValue, SkipWs;
    AllAt(s);
    AtSplit(s, 0, b, Written(t) + a);
    AtSplit(s, |b|, Written(t), a);
    BlankApart(s, |b| + |Written(t)|, a);
    TreeBack(t, s, |b|, ft);
    SkipBlanks(s, 0, b);
    SameValue(s, 0, |b|, ft);
  }

  /** So two derivations of one text mean the same. */
  lemma OneMeaning(b: string, t: Tree, a: string, c: string, u: Tree, d: string, s: string, v: Val, w: Val,
      ft: FloatText)
    requires Derives(b, t, a, s, v, ft) && Derives(c, u, d, s, w, ft)
    ensures v == w
  {
    hide Derives, ParseText;
    ParsesExactlyTexts(s, v, ft);
    ParsesExactlyTexts(s, w, ft);
  }

  // ----- what is printed is such a text -----

  /** A lower-case hex digit and its value. */
  predicate HexIs(h: char, n: int) {
    ('0' <= h <= '9' && n == h as int - '0' as int) || ('a' <= h <= 'f' && n == h as int - 'a' as int + 10)
  }

  predicate HasLetter(c: char) {
    c == '"' || c == '\\' || c as int == 8 || c as int == 9 || c as int == 10 || c as int == 12 || c as int == 13
  }

  /** A character is printed as itself, as an escape of one letter that stands for it, or,
      any other control character, as \u00 and the two hex digits of its code. */
  lemma EscapeIs(c: char)
    ensures var e := JsonPrinters.Escape(c);
      if HasLetter(c) then |e| == 2 && e == Spelled(Esc(e[1])) && Fine(Esc(e[1])) && Stands(Esc(e[1])) == c
      else if c as int >= 32 then e == [c]
      else |e| == 6 && e[..4] == "\\u00" && HexIs(e[4], c as int / 16) && HexIs(e[5], c as int % 16)
  {
  }

  /** The printed form of a value is a text by this grammar, and means the value. */
  lemma PrintedIsText(v: Val, ft: FloatText)
    requires JsonLaws.Printable(v, JsonPrinters.Plain)
    ensures exists b, t, a :: Derives(b, t, a, JsonPrinters.Show(v, ft, JsonPrinters.Plain), JsonLaws.Normal(v), ft)
  {
    hide Derives, ParseText, JsonPrinters.Show, JsonLaws.Normal, JsonLaws.Printable;
    JsonLaws.ParseUndoesShow(v, ft);
    ParsesExactlyTexts(JsonPrinters.Show(v, ft, JsonPrinters.Plain), JsonLaws.Normal(v), ft);
  }

  /** A result is printed as an object with one member, a function as a string. */
  lemma ShowIs(ok: bool, x: Val, fn: Val, ft: FloatText)
    requires fn.FnV?
    ensures var name := if ok then "ok" else "err";
      JsonPrinters.Show(ResV(ok, x), ft, JsonPrinters.Plain)
      == "{" + (("\"" + (name + "\"")) + (":" + (JsonPrinters.Show(x, ft, JsonPrinters.Plain) + "}")))
    ensures JsonPrinters.Show(fn, ft, JsonPrinters.Plain) == "\"" + ("<fn>" + "\"")
  {
    FnBody();
    NameBody(if ok then "ok" else "err");
    hide JsonPrinters.Body;
  }

  lemma {:induction false} NameBody(t: string)
    requires forall i :: 0 <= i < |t| ==> 'a' <= t[i] <= 'z'
    ensures JsonPrinters.Body(t) == t
    decreases |t|
  {
    if t != "" {
      NameBody(t[1..]);
      assert [t[0]] + t[1..] == t;
    }
  }

  lemma FnBody()
    ensures JsonPrinters.Body("<fn>") == "<fn>"
  {
    assert "<fn>"[1..] == "fn>" && "fn>"[1..] == "n>" && "n>"[1..] == ">" && ">"[1..] == "";
    assert JsonPrinters.Body(">") == ">" && JsonPrinters.Body("n>") == "n>" && JsonPrinters.Body("fn>") == "fn>";
  }

  // ----- what is answered to other texts -----

  lemma AnswerIs(s: string, v: Val, p: nat, ft: FloatText)
    requires p <= |s| && ParseValue(s, 0, ft) == Got(v, p) && SkipWs(s, p) < |s|
    ensures ParseText(s, ft) == ResV(false, StrV("unexpected trailing content"))
  {
    hide ParseValue, SkipWs;
  }

  lemma NotBlank(c: char)
    requires !Blanks([c])
    ensures !IsWs(c)
  {
  }

  /** Where the next character is a blank, or closes something. */
  lemma ThenApart(s: string, e: nat, a: string, rest: string)
    requires At(s, e, a) && At(s, e + |a|, rest) && rest != "" && Blanks(a) && !Blanks([rest[0]])
    requires a != "" || rest[0] == ',' || rest[0] == ']' || rest[0] == '}'
    ensures Apart(s, e) && SkipWs(s, e) == e + |a| < |s|
  {
    hide At, SkipWs;
    AtIndex(s, e + |a|, rest, 0);
    if a != "" { AtIndex(s, e, a, 0); }
    NotBlank(rest[0]);
    SkipBlanks(s, e, a);
    JsonLaws.NotWs(s, e + |a|);
  }

  /** Behind a whole value there is only blank space. */
  lemma TrailingContent(b: string, t: Tree, a: string, rest: string, ft: FloatText)
    requires Blanks(b) && Legal(t, ft) && Blanks(a) && rest != "" && !Blanks([rest[0]])
    requires a != "" || rest[0] == ',' || rest[0] == ']' || rest[0] == '}'
    ensures ParseText(b + (Written(t) + (a + rest)), ft) == ResV(false, StrV("unexpected trailing content"))
  {
    hide *;
    var s := b + (Written(t) + (a + rest));
    AllAt(s);
    AtSplit(s, 0, b, Written(t) + (a + rest));
    AtSplit(s, |b|, Written(t), a + rest);
    var e := |b| + |Written(t)|;
    AtSplit(s, e, a, rest);
    ThenApart(s, e, a, rest);
    TreeBack(t, s, |b|, ft);
    SkipBlanks(s, 0, b);
    SameValue(s, 0, |b|, ft);
    AnswerIs(s, Means(t, ft), e, ft);
  }

  /** Numbers are written in decimal, without a zero in front. */
  lemma DecimalIs(n: nat)
    ensures Numeral(Decimal(n)) && Decimal(n) != "" && Worth(Decimal(n)) == n
    ensures if n == 0 then Decimal(n) == "0" else Decimal(n)[0] != '0' && Decimal(0 - n) == "-" + Decimal(n)
  {
    hide DigitsOf, DigitsValue, Worth;
    JsonLaws.DigitsBack(n);
    WorthIs(DigitsOf(n));
    FirstDigit(n);
  }

  lemma {:induction false} FirstDigit(n: nat)
    ensures if n == 0 then DigitsOf(n) == "0" else DigitsOf(n)[0] != '0'
    decreases n
  {
    if n >= 10 { FirstDigit(n / 10); }
  }

  // ----- how values are printed -----

  lemma {:induction false} ItemsJoined(es: seq<Val>, ft: FloatText)
    ensures JsonPrinters.ShowItems(es, ft, JsonPrinters.Plain)
      == Strings.Join(seq(|es|, i requires 0 <= i < |es| => JsonPrinters.Show(es[i], ft, JsonPrinters.Plain)), ",")
    decreases |es|
  {
    hide JsonPrinters.Show;
    if es != [] {
      ItemsJoined(es[1..], ft);
      var all := seq(|es|, i requires 0 <= i < |es| => JsonPrinters.Show(es[i], ft, JsonPrinters.Plain));
      var n := |es| - 1;
      assert all[1..] == seq(n, i requires 0 <= i < n => JsonPrinters.Show(es[1..][i], ft, JsonPrinters.Plain));
    }
  }

  function MemberText(p: Pair, ft: FloatText): string {
    "\"" + JsonPrinters.Body(p.key) + "\"" + ":" + JsonPrinters.Show(p.value, ft, JsonPrinters.Plain)
  }

  lemma {:induction false} PairsJoined(ps: seq<Pair>, ft: FloatText)
    ensures JsonPrinters.ShowPairs(ps, ft, JsonPrinters.Plain)
      == Strings.Join(seq(|ps|, i requires 0 <= i < |ps| => MemberText(ps[i], ft)), ",")
    decreases |ps|
  {
    hide MemberText, JsonPrinters.ShowPair;
    if ps != [] {
      PairsJoined(ps[1..], ft);
      PairIsText(ps[0], ft);
      var all := seq(|ps|, i requires 0 <= i < |ps| => MemberText(ps[i], ft));
      var n := |ps| - 1;
      assert all[1..] == seq(n, i requires 0 <= i < n => MemberText(ps[1..][i], ft));
    }
  }

  lemma PairIsText(p: Pair, ft: FloatText)
    ensures JsonPrinters.ShowPair(p, ft, JsonPrinters.Plain) == MemberText(p, ft)
  {
  }

  lemma {:induction false} BodyJoined(s: string)
    ensures JsonPrinters.Body(s) == Strings.Join(seq(|s|, i requires 0 <= i < |s| => JsonPrinters.Escape(s[i])), "")
    decreases |s|
  {
    hide JsonPrinters.Escape;
    if s != "" {
      BodyJoined(s[1..]);
      var all := seq(|s|, i requires 0 <= i < |s| => JsonPrinters.Escape(s[i]));
      var n := |s| - 1;
      assert all[1..] == seq(n, i requires 0 <= i < n => JsonPrinters.Escape(s[1..][i]));
    }
  }

  /** Values are printed without any blank: the parts of an array and an object between
      commas, a name and its value with a colon in between, a string as its escaped
      characters between quotes. */
  lemma ShownCompactly(es: seq<Val>, ps: seq<Pair>, t: string, n: int, s: string, ft: FloatText)
    ensures var parts := seq(|es|, i requires 0 <= i < |es| => JsonPrinters.Show(es[i], ft, JsonPrinters.Plain));
      JsonPrinters.Show(ArrV(es), ft, JsonPrinters.Plain) == "[" + Strings.Join(parts, ",") + "]"
    ensures var all := "{" + Strings.Join(seq(|ps|, i requires 0 <= i < |ps| => MemberText(ps[i], ft)), ",") + "}";
      && JsonPrinters.Show(MapV(ps), ft, JsonPrinters.Plain) == all
      && JsonPrinters.Show(StructV(t, ps), ft, JsonPrinters.Plain) == all
    ensures var chars := seq(|s|, i requires 0 <= i < |s| => JsonPrinters.Escape(s[i]));
      JsonPrinters.Show(StrV("\"" + s + "\""), ft, JsonPrinters.Plain) == "\"" + Strings.Join(chars, "") + "\""
    ensures JsonPrinters.Show(IntV(n), ft, JsonPrinters.Plain) == Decimal(n)
    ensures JsonPrinters.Show(NilV, ft, JsonPrinters.Plain) == "null"
    ensures JsonPrinters.Show(BoolV(true), ft, JsonPrinters.Plain) == "true"
    ensures JsonPrinters.Show(BoolV(false), ft, JsonPrinters.Plain) == "false"
  {
    hide JsonPrinters.ShowItems, JsonPrinters.ShowPairs, JsonPrinters.Body, Decimal, MemberText, JsonPrinters.Escape;
    ItemsJoined(es, ft);
    PairsJoined(ps, ft);
    BodyJoined(s);
    var q := "\"" + s + "\"";
    assert q[1..|q| - 1] == s;
  }
}
