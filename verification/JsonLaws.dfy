/** Parsing undoes printing (RFC 8259, sections 6 and 7). */
module JsonLaws {
  import opened Ast
  import opened Places
  import opened Values
  import opened Json
  import opened JsonPrinters

  // ----- what a printed value reads back as -----

  /** One character: escapes for other control characters come back as a question
      mark and the last hex digit, which the decoder reads twice. */
  function Back(c: char): (r: string)
    ensures r == [c] <==> !Lossy(c)
    ensures Lossy(c) ==> |r| == 2
  {
    if Lossy(c) then ['?', HexDigit(c as int % 16)] else [c]
  }

  /** Printed as \u00xx. */
  predicate Lossy(c: char) {
    c < 0x20 as char && c != '\n' && c != '\t' && c != '\r' && c != 8 as char && c != 12 as char
  }

  function Reread(s: string): string {
    if s == "" then "" else Back(s[0]) + Reread(s[1..])
  }

  function LossyCount(s: string): nat {
    if s == "" then 0 else (if Lossy(s[0]) then 1 else 0) + LossyCount(s[1..])
  }

  /** A string survives exactly when no character of it is printed as \u00xx. */
  lemma {:induction false} RereadIsSame(s: string)
    ensures |Reread(s)| == |s| + LossyCount(s)
    ensures Reread(s) == s <==> LossyCount(s) == 0
  {
    if s != "" {
      RereadIsSame(s[1..]);
      assert [s[0]] + s[1..] == s;
    }
  }

  /** Structs and results become maps, functions their placeholder, strings their
      content. */
  function Normal(v: Val): Val
    decreases v
  {
    match v
    case NilV => v
    case BoolV(_) => v
    case IntV(_) => v
    case FloatV(_) => v
    case StrV(s) => StrV(Reread(StrContent(s)))
    case ArrV(es) => ArrV(NormalAll(es))
    case MapV(ps) => MapV(NormalPairs(ps))
    case StructV(_, ps) => MapV(NormalPairs(ps))
    case ResV(ok, x) => MapV([Pair(if ok then "ok" else "err", Normal(x))])
    case FnV(_, _) => StrV("<fn>")
  }

  function NormalAll(es: seq<Val>): (r: seq<Val>)
    ensures |r| == |es|
    decreases es
  {
    if es == [] then [] else [Normal(es[0])] + NormalAll(es[1..])
  }

  function NormalPairs(ps: seq<Pair>): (r: seq<Pair>)
    ensures |r| == |ps|
    decreases ps
  {
    if ps == [] then [] else [Pair(Reread(ps[0].key), Normal(ps[0].value))] + NormalPairs(ps[1..])
  }

  /** 64-bit integers, no floats, sizes within the parser's limits; with escaped
      delimiters, plain text only. */
  predicate Printable(v: Val, st: Style)
    decreases v
  {
    match v
    case NilV => true
    case BoolV(_) => true
    case IntV(n) => INT64_MIN <= n <= INT64_MAX
    case FloatV(_) => false
    case StrV(s) => TextFits(StrContent(s), st)
    case ArrV(es) => |es| <= MAX_ARRAY_SIZE && AllPrintable(es, st)
    case MapV(ps) => |ps| <= MAX_MAP_SIZE && PairsPrintable(ps, st)
    case StructV(_, ps) => |ps| <= MAX_MAP_SIZE && PairsPrintable(ps, st)
    case ResV(_, x) => Printable(x, st)
    case FnV(_, _) => true
  }

  predicate TextFits(s: string, st: Style) { st == Plain || PlainText(s) }

  predicate AllPrintable(es: seq<Val>, st: Style)
    decreases es
  {
    es != [] ==> Printable(es[0], st) && AllPrintable(es[1..], st)
  }

  predicate PairsPrintable(ps: seq<Pair>, st: Style)
    decreases ps
  {
    ps != [] ==> TextFits(ps[0].key, st) && Printable(ps[0].value, st) && PairsPrintable(ps[1..], st)
  }

  // ----- strings -----

  lemma HexIsOrdinary(n: nat)
    requires n < 16
    ensures HexDigit(n) != '"' && HexDigit(n) != '\\'
  {
  }

  lemma EscapeLossy(c: char)
    requires Lossy(c)
    ensures var e := Escape(c); var h := HexDigit(c as int % 16);
      |e| == 6 && e[0] == '\\' && e[1] == 'u' && e[5] == h && Back(c) == ['?', h]
  {
  }

  lemma ScanU(s: string, p: nat, n: nat)
    requires p + 5 < |s| && s[p] == '\\' && s[p + 1] == 'u' && s[p + 5] != '"' && s[p + 5] != '\\'
    ensures Scan(s, p, n) == Scan(s, p + 6, n + 2)
  {
    UnescapeU();
    assert Scan(s, p, n) == Scan(s, p + 5, n + 1);
  }

  lemma FillU(s: string, p: nat, end: nat)
    requires p + 6 <= end < |s| && s[p] == '\\' && s[p + 1] == 'u' && s[p + 5] != '\\'
    ensures Fill(s, p, end) == ['?', s[p + 5]] + Fill(s, p + 6, end)
  {
    assert Fill(s, p, end) == ['?'] + Fill(s, p + 5, end);
    assert Fill(s, p + 5, end) == [s[p + 5]] + Fill(s, p + 6, end);
  }

  lemma ScanLossy(s: string, p: nat, n: nat, c: char)
    requires At(s, p, Escape(c)) && Lossy(c)
    ensures Scan(s, p, n) == Scan(s, p + |Escape(c)|, n + |Back(c)|)
    ensures forall end :: p + |Escape(c)| <= end < |s| ==> Fill(s, p, end) == Back(c) + Fill(s, p + |Escape(c)|, end)
  {
    hide Escape, Back, Scan, Fill, HexDigit, At;
    var e := Escape(c);
    EscapeLossy(c);
    HexIsOrdinary(c as int % 16);
    AtBound(s, p, e);
    AtIndex(s, p, e, 0);
    AtIndex(s, p, e, 1);
    AtIndex(s, p, e, 5);
    ScanU(s, p, n);
    forall end | p + |e| <= end < |s| ensures Fill(s, p, end) == Back(c) + Fill(s, p + |e|, end) { FillU(s, p, end); }
  }

  /** One printed character: both passes step over it and yield what it reads
      back as. */
  lemma ScanChar(s: string, p: nat, n: nat, c: char)
    requires At(s, p, Escape(c))
    ensures Scan(s, p, n) == Scan(s, p + |Escape(c)|, n + |Back(c)|)
    ensures forall end :: p + |Escape(c)| <= end < |s| ==> Fill(s, p, end) == Back(c) + Fill(s, p + |Escape(c)|, end)
  {
    if Lossy(c) {
      ScanLossy(s, p, n, c);
    } else {
      var e := Escape(c);
      AtBytes(s, p, e);
      assert s[p + 0] == e[0];
      if |e| == 2 { assert s[p + 1] == e[1] && Unescape(e[1]) == Some(c); }
    }
  }

  lemma BodyParts(t: string)
    ensures t == "" ==> Body(t) == "" && Reread(t) == ""
    ensures t != "" ==> Body(t) == Escape(t[0]) + Body(t[1..]) && Reread(t) == Back(t[0]) + Reread(t[1..])
  {
    hide Escape, Back;
  }

  lemma {:induction false} ScanBody(s: string, p: nat, n: nat, t: string)
    requires At(s, p, Body(t) + "\"")
    ensures Scan(s, p, n) == Got(n + |Reread(t)|, p + |Body(t)|)
    ensures p + |Body(t)| < |s| && Fill(s, p, p + |Body(t)|) == Reread(t)
    decreases t
  {
    hide Escape, Back, Scan, Fill, At, Body, Reread;
    AtBound(s, p, Body(t) + "\"");
    BodyParts(t);
    if t == "" {
      ScanQuote(s, p, n);
    } else {
      var e, rest := Escape(t[0]), Body(t[1..]) + "\"";
      assert Body(t) + "\"" == e + rest;
      AtSplit(s, p, e, rest);
      ScanChar(s, p, n, t[0]);
      ScanBody(s, p + |e|, n + |Back(t[0])|, t[1..]);
    }
  }

  lemma ScanQuote(s: string, p: nat, n: nat)
    requires At(s, p, Body("") + "\"")
    ensures p < |s| && Scan(s, p, n) == Got(n, p) && Fill(s, p, p) == ""
  {
    assert Body("") + "\"" == "\"";
    AtIndex(s, p, "\"", 0);
  }

  /** Plain text up to an escaped quote. */
  lemma {:induction false} FindPlain(s: string, p: nat, t: string)
    requires PlainText(t) && At(s, p, t + "\\\"")
    ensures p + |t| + 2 <= |s| && FindEscaped(s, p) == p + |t| && s[p..p + |t|] == t
    decreases t
  {
    AtBytes(s, p, t + "\\\"");
    if t == "" {
      assert s[p + 0] == '\\' && s[p + 1] == '"';
    } else {
      assert s[p + 0] == t[0] && PlainChar(t[0]);
      assert t + "\\\"" == [t[0]] + (t[1..] + "\\\"");
      AtSplit(s, p, [t[0]], t[1..] + "\\\"");
      FindPlain(s, p + 1, t[1..]);
      assert s[p..p + |t|] == [s[p]] + s[p + 1..p + 1 + |t[1..]|];
    }
  }

  lemma {:induction false} RereadPlain(t: string)
    requires PlainText(t)
    ensures Reread(t) == t
  {
    if t != "" {
      assert PlainChar(t[0]);
      RereadPlain(t[1..]);
      assert [t[0]] + t[1..] == t;
    }
  }

  lemma StringBack(s: string, p: nat, t: string, st: Style)
    requires At(s, p, Quote(t, st)) && TextFits(t, st)
    ensures AtString(s, p) && ParseString(s, p) == Got(Reread(t), p + |Quote(t, st)|) && SkipWs(s, p) == p
  {
    hide Scan, Fill, Body, FindEscaped, Reread;
    AtSplit(s, p, Delim(st), Body(t) + Delim(st));
    AtIndex(s, p, Delim(st), 0);
    if st == Plain {
      ScanBody(s, p + 1, 0, t);
    } else {
      AtIndex(s, p, Delim(st), 1);
      QuotePlain(t);
      FindPlain(s, p + 2, t);
      RereadPlain(t);
    }
  }

  // ----- numbers -----

  lemma {:induction false} DigitsBack(n: nat)
    ensures DigitsValue(DigitsOf(n)) == n
  {
    var d := ['0' + (n % 10) as char];
    if n < 10 {
      assert DigitsOf(n)[..0] == "";
    } else {
      DigitsBack(n / 10);
      assert DigitsOf(n)[..|DigitsOf(n)| - 1] == DigitsOf(n / 10);
    }
  }

  function Pow10(k: nat): nat { if k == 0 then 1 else 10 * Pow10(k - 1) }

  lemma {:induction false} DigitsShort(n: nat, k: nat)
    requires 0 < k && n < Pow10(k)
    ensures |DigitsOf(n)| <= k
  {
    if n >= 10 {
      assert k > 1;
      DigitsShort(n / 10, k - 1);
    }
  }

  lemma Int64Short(n: int)
    requires INT64_MIN <= n <= INT64_MAX
    ensures |Decimal(n)| <= NUMBER_BUFFER
  {
    hide DigitsOf;
    assert Pow10(5) == 100000;
    assert Pow10(10) == 10000000000;
    assert Pow10(15) == 1000000000000000;
    assert Pow10(20) == 100000000000000000000;
    DigitsShort(if n < 0 then -n else n, 20);
  }

  /** The characters that would continue a number. */
  predicate Stops(s: string, p: nat) {
    p <= |s| && (p < |s| ==> !IsDigit(s[p]) && s[p] != '.' && s[p] != 'e' && s[p] != 'E')
  }

  lemma {:induction false} SkipAll(s: string, p: nat, q: nat)
    requires p <= q <= |s| && (forall j :: p <= j < q ==> IsDigit(s[j])) && (q < |s| ==> !IsDigit(s[q]))
    ensures SkipDigits(s, p) == q
    decreases q - p
  {
    if p < q { SkipAll(s, p + 1, q); }
  }

  lemma IntBack(s: string, p: nat, n: int, ft: FloatText)
    requires At(s, p, Decimal(n)) && Stops(s, p + |Decimal(n)|) && INT64_MIN <= n <= INT64_MAX
    ensures p < |s| && (s[p] == '-' || IsDigit(s[p]))
    ensures ParseNumber(s, p, ft) == Got(IntV(n), p + |Decimal(n)|)
  {
    hide DigitsOf, DigitsValue, SkipDigits;
    var t := Decimal(n);
    var q := p + |t|;
    AtBytes(s, p, t);
    assert s[p + 0] == t[0];
    Int64Short(n);
    DigitsBack(if n < 0 then -n else n);
    if n < 0 {
      var ds := DigitsOf(-n);
      assert forall j :: 0 <= j < |ds| ==> t[j + 1] == ds[j] && s[p + (j + 1)] == ds[j];
      forall j | p + 1 <= j < q ensures IsDigit(s[j]) { assert s[j] == s[p + (j - p - 1 + 1)] == ds[j - p - 1]; }
      SkipAll(s, p + 1, q);
      assert t[1..] == ds;
    } else {
      forall j | p <= j < q ensures IsDigit(s[j]) { assert s[j] == s[p + (j - p)] == t[j - p]; }
      SkipAll(s, p, q);
      assert t[0] != '-';
    }
    assert s[p..q] == t && Clip(t) == t;
    assert IntEnd(s, p) == q && FractionEnd(s, q) == q && ExponentEnd(s, q) == q;
  }

  // ----- values -----

  lemma NotWs(s: string, p: nat)
    requires p <= |s| && (p < |s| ==> !IsWs(s[p]))
    ensures SkipWs(s, p) == p
  {
  }

  lemma WordBack(s: string, p: nat, v: Val, ft: FloatText)
    requires v.NilV? || v.BoolV?
    requires At(s, p, Show(v, ft, Plain))
    ensures p <= |s| && ParseValue(s, p, ft) == Got(v, p + |Show(v, ft, Plain)|)
  {
    hide ParseString, ParseObject, ParseArray, ParseNumber;
    var w := Show(v, ft, Plain);
    AtBytes(s, p, w);
    assert s[p + 0] == w[0];
    NotWs(s, p);
    assert s[p..p + |w|] == w;
    if w == "null" {
      NoWord(s, p, "true");
      NoWord(s, p, "false");
    } else if w == "false" {
      NoWord(s, p, "true");
    }
  }

  lemma NoWord(s: string, p: nat, word: string)
    requires p < |s| && word != "" && s[p] != word[0]
    ensures !Literal(s, p, word)
  {
    if p + |word| <= |s| { assert s[p..p + |word|][0] == s[p]; }
  }

  /** A printed value is read back from wherever it stands, up to where it stops. */
  lemma {:induction false} ValueBack(v: Val, s: string, p: nat, ft: FloatText, st: Style)
    requires At(s, p, Show(v, ft, st)) && Stops(s, p + |Show(v, ft, st)|) && Printable(v, st)
    ensures p <= |s| && ParseValue(s, p, ft) == Got(Normal(v), p + |Show(v, ft, st)|)
    decreases v, 1
  {
    hide ParseValue, Quote, ShowItems, ShowPairs, NormalAll, NormalPairs, Reread, AllPrintable, PairsPrintable, Decimal;
    AtBound(s, p, Show(v, ft, st));
    match v
    case NilV => WordBack(s, p, v, ft);
    case BoolV(_) => WordBack(s, p, v, ft);
    case IntV(n) => NumberBack(s, p, n, ft);
    case StrV(t) => TextBack(s, p, StrContent(t), ft, st);
    case FnV(_, _) =>
      TextBack(s, p, "<fn>", ft, st);
      RereadPlain("<fn>");
    case ArrV(_) => ArrayBack(v, s, p, ft, st);
    case MapV(_) => ObjectBack(v, s, p, ft, st);
    case StructV(_, _) => ObjectBack(v, s, p, ft, st);
    case ResV(_, _) => ResultBack(v, s, p, ft, st);
  }

  lemma NumberBack(s: string, p: nat, n: int, ft: FloatText)
    requires At(s, p, Decimal(n)) && Stops(s, p + |Decimal(n)|) && INT64_MIN <= n <= INT64_MAX && p <= |s|
    ensures ParseValue(s, p, ft) == Got(IntV(n), p + |Decimal(n)|)
  {
    hide Decimal, ParseNumber, ParseString, ParseObject, ParseArray;
    IntBack(s, p, n, ft);
    NotWs(s, p);
  }

  lemma TextBack(s: string, p: nat, t: string, ft: FloatText, st: Style)
    requires At(s, p, Quote(t, st)) && TextFits(t, st) && p <= |s|
    ensures ParseValue(s, p, ft) == Got(StrV(Reread(t)), p + |Quote(t, st)|)
  {
    hide ParseNumber, ParseString, ParseObject, ParseArray, Quote, Reread;
    StringBack(s, p, t, st);
  }

  /** A punctuation character in place. */
  lemma Mark(s: string, p: nat, c: char)
    requires At(s, p, [c]) && !IsWs(c)
    ensures p < |s| && s[p] == c && SkipWs(s, p) == p
    ensures !IsDigit(c) && c != '.' && c != 'e' && c != 'E' ==> Stops(s, p)
  {
    AtIndex(s, p, [c], 0);
  }

  lemma {:induction false} ArrayBack(v: Val, s: string, p: nat, ft: FloatText, st: Style)
    requires v.ArrV? && At(s, p, Show(v, ft, st)) && Printable(v, st) && p <= |s|
    ensures ParseValue(s, p, ft) == Got(Normal(v), p + |Show(v, ft, st)|)
    decreases v, 0
  {
    hide ParseNumber, ParseString, ParseObject, ParseItems, ShowItems, AllPrintable;
    var es := v.elems;
    var items := ShowItems(es, ft, st);
    AtSplit(s, p, "[", items + "]");
    AtSplit(s, p + 1, items, "]");
    Mark(s, p, '[');
    Mark(s, p + 1 + |items|, ']');
    if es == [] {
      NoItems(ft, st);
    } else {
      FirstItem(es, s, p + 1, ft, st);
      ItemsBack(es, s, p + 1, 0, ft, st);
    }
  }

  lemma NoItems(ft: FloatText, st: Style)
    ensures ShowItems([], ft, st) == "" && ShowPairs([], ft, st) == ""
  {
  }

  /** Printed values start with neither a blank nor a closing bracket. */
  lemma FirstChar(v: Val, ft: FloatText, st: Style)
    requires Printable(v, st)
    ensures Show(v, ft, st) != "" && !IsWs(Show(v, ft, st)[0]) && Show(v, ft, st)[0] != ']'
  {
    hide DigitsOf, ShowItems, ShowPairs, Body;
    if v.IntV? {
      var d := DigitsOf(if v.i < 0 then -v.i else v.i);
      assert IsDigit(d[0]);
    }
  }

  lemma FirstItem(es: seq<Val>, s: string, p: nat, ft: FloatText, st: Style)
    requires es != [] && AllPrintable(es, st) && At(s, p, ShowItems(es, ft, st))
    ensures p < |s| && !IsWs(s[p]) && s[p] != ']' && SkipWs(s, p) == p
  {
    hide Show, Printable;
    FirstChar(es[0], ft, st);
    AtIndex(s, p, ShowItems(es, ft, st), 0);
  }

  lemma ItemsParts(es: seq<Val>, ft: FloatText, st: Style)
    requires es != []
    ensures var x := Show(es[0], ft, st);
      ShowItems(es, ft, st) == if |es| == 1 then x else x + ("," + ShowItems(es[1..], ft, st))
    ensures NormalAll(es) == if |es| == 1 then [Normal(es[0])] else [Normal(es[0])] + NormalAll(es[1..])
    ensures AllPrintable(es, st) ==> Printable(es[0], st) && AllPrintable(es[1..], st)
  {
    hide Show, Normal, Printable;
    assert Show(es[0], ft, st) + "" == Show(es[0], ft, st);
    if |es| == 1 { assert es[1..] == []; }
  }

  /** One step of the element loop, at the last element and before. */
  lemma ItemsStep(s: string, p: nat, count: nat, ft: FloatText, x: Val, q: nat)
    requires p <= |s| && count < MAX_ARRAY_SIZE && ParseValue(s, p, ft) == Got(x, q) && SkipWs(s, q) == q && q < |s|
    ensures s[q] == ']' ==> ParseItems(s, p, count, ft) == Got([x], q + 1)
    ensures s[q] == ',' ==> (
      var rest := ParseItems(s, q + 1, count + 1, ft);
      ParseItems(s, p, count, ft) == if rest.Bad? then rest else Got([x] + rest.value, rest.pos))
  {
    hide ParseValue;
  }

  lemma {:induction false} ItemsBack(es: seq<Val>, s: string, p: nat, count: nat, ft: FloatText, st: Style)
    requires es != [] && AllPrintable(es, st) && count + |es| <= MAX_ARRAY_SIZE
    requires At(s, p, ShowItems(es, ft, st)) && At(s, p + |ShowItems(es, ft, st)|, "]") && p <= |s|
    ensures ParseItems(s, p, count, ft) == Got(NormalAll(es), p + |ShowItems(es, ft, st)| + 1)
    decreases es, 2
  {
    hide ParseValue, ParseItems, Show, ShowItems, Printable, AllPrintable, Normal, NormalAll, At, SkipWs;
    var x := Show(es[0], ft, st);
    ItemsParts(es, ft, st);
    var q := p + |x|;
    if |es| == 1 {
      Mark(s, q, ']');
      ValueBack(es[0], s, p, ft, st);
      ItemsStep(s, p, count, ft, Normal(es[0]), q);
    } else {
      var rest := ShowItems(es[1..], ft, st);
      AtSplit(s, p, x, "," + rest);
      AtSplit(s, q, ",", rest);
      AtBound(s, q + 1, rest);
      Mark(s, q, ',');
      ValueBack(es[0], s, p, ft, st);
      ItemsBack(es[1..], s, q + 1, count + 1, ft, st);
      ItemsStep(s, p, count, ft, Normal(es[0]), q);
    }
  }

  lemma {:induction false} PairBack(q: Pair, s: string, p: nat, ft: FloatText, st: Style)
    requires TextFits(q.key, st) && Printable(q.value, st) && p <= |s|
    requires At(s, p, ShowPair(q, ft, st)) && Stops(s, p + |ShowPair(q, ft, st)|)
    ensures ParsePair(s, p, ft) == Got(Pair(Reread(q.key), Normal(q.value)), p + |ShowPair(q, ft, st)|)
    decreases q, 2
  {
    hide ParseValue, ParseString, Show, Printable, Normal, Quote, Reread;
    var k, x := Quote(q.key, st), Show(q.value, ft, st);
    AtSplit(s, p, k, ":" + x);
    AtSplit(s, p + |k|, ":", x);
    StringBack(s, p, q.key, st);
    Mark(s, p + |k|, ':');
    ValueBack(q.value, s, p + |k| + 1, ft, st);
  }

  function NormalPair(q: Pair): Pair { Pair(Reread(q.key), Normal(q.value)) }

  lemma PairsParts(ps: seq<Pair>, ft: FloatText, st: Style)
    requires ps != []
    ensures var x := ShowPair(ps[0], ft, st);
      ShowPairs(ps, ft, st) == if |ps| == 1 then x else x + ("," + ShowPairs(ps[1..], ft, st))
    ensures NormalPairs(ps) == if |ps| == 1 then [NormalPair(ps[0])] else [NormalPair(ps[0])] + NormalPairs(ps[1..])
    ensures PairsPrintable(ps, st) ==>
      TextFits(ps[0].key, st) && Printable(ps[0].value, st) && PairsPrintable(ps[1..], st)
  {
    hide ShowPair, Normal, Reread, Printable, TextFits;
    assert ShowPair(ps[0], ft, st) + "" == ShowPair(ps[0], ft, st);
    if |ps| == 1 { assert ps[1..] == []; }
  }

  lemma PairsStep(s: string, p: nat, count: nat, ft: FloatText, x: Pair, q: nat)
    requires p <= |s| && count < MAX_MAP_SIZE && ParsePair(s, p, ft) == Got(x, q) && SkipWs(s, q) == q && q < |s|
    ensures s[q] == '}' ==> ParsePairs(s, p, count, ft) == Got([x], q + 1)
    ensures s[q] == ',' ==> (
      var rest := ParsePairs(s, q + 1, count + 1, ft);
      ParsePairs(s, p, count, ft) == if rest.Bad? then rest else Got([x] + rest.value, rest.pos))
  {
    hide ParsePair;
  }

  lemma {:induction false} PairsBack(ps: seq<Pair>, s: string, p: nat, count: nat, ft: FloatText, st: Style)
    requires ps != [] && PairsPrintable(ps, st) && count + |ps| <= MAX_MAP_SIZE
    requires At(s, p, ShowPairs(ps, ft, st)) && At(s, p + |ShowPairs(ps, ft, st)|, "}") && p <= |s|
    ensures ParsePairs(s, p, count, ft) == Got(NormalPairs(ps), p + |ShowPairs(ps, ft, st)| + 1)
    decreases ps, 3
  {
    hide ParsePair, ParsePairs, ShowPair, ShowPairs, Printable, PairsPrintable, Normal, NormalPairs, Reread, At, SkipWs;
    var x := ShowPair(ps[0], ft, st);
    PairsParts(ps, ft, st);
    var q := p + |x|;
    if |ps| == 1 {
      Mark(s, q, '}');
      PairBack(ps[0], s, p, ft, st);
      PairsStep(s, p, count, ft, NormalPair(ps[0]), q);
    } else {
      var rest := ShowPairs(ps[1..], ft, st);
      AtSplit(s, p, x, "," + rest);
      AtSplit(s, q, ",", rest);
      AtBound(s, q + 1, rest);
      Mark(s, q, ',');
      PairBack(ps[0], s, p, ft, st);
      PairsBack(ps[1..], s, q + 1, count + 1, ft, st);
      PairsStep(s, p, count, ft, NormalPair(ps[0]), q);
    }
  }

  lemma FirstPair(ps: seq<Pair>, s: string, p: nat, ft: FloatText, st: Style)
    requires ps != [] && At(s, p, ShowPairs(ps, ft, st))
    ensures p < |s| && !IsWs(s[p]) && s[p] != '}' && SkipWs(s, p) == p
  {
    hide Show, Body;
    AtIndex(s, p, ShowPairs(ps, ft, st), 0);
  }

  lemma {:induction false} ObjectBack(v: Val, s: string, p: nat, ft: FloatText, st: Style)
    requires (v.MapV? || v.StructV?) && At(s, p, Show(v, ft, st)) && Printable(v, st) && p <= |s|
    ensures ParseValue(s, p, ft) == Got(Normal(v), p + |Show(v, ft, st)|)
    decreases v, 0
  {
    hide ParseNumber, ParseString, ParseArray, ParsePairs, ShowPairs, PairsPrintable;
    var ps := if v.MapV? then v.pairs else v.fields;
    var text := ShowPairs(ps, ft, st);
    AtSplit(s, p, "{", text + "}");
    AtSplit(s, p + 1, text, "}");
    Mark(s, p, '{');
    Mark(s, p + 1 + |text|, '}');
    if ps == [] {
      NoItems(ft, st);
    } else {
      FirstPair(ps, s, p + 1, ft, st);
      PairsBack(ps, s, p + 1, 0, ft, st);
    }
  }

  lemma ResultParts(v: Val, ft: FloatText, st: Style)
    requires v.ResV?
    ensures var k := Quote(if v.ok then "ok" else "err", st);
      Show(v, ft, st) == "{" + (k + (":" + (Show(v.val, ft, st) + "}")))
    ensures Normal(v) == MapV([Pair(if v.ok then "ok" else "err", Normal(v.val))])
    ensures Printable(v, st) ==> Printable(v.val, st)
    ensures var name := if v.ok then "ok" else "err"; TextFits(name, st) && Reread(name) == name
  {
    hide Quote;
    RereadPlain("ok");
    RereadPlain("err");
  }

  /** Where the parts of a one-entry object stand. */
  lemma ResultPlaces(s: string, p: nat, k: string, x: string) returns (c: nat, q: nat)
    requires p <= |s| && At(s, p, "{" + (k + (":" + (x + "}"))))
    ensures c == p + 1 + |k| && q == c + 1 + |x| < |s| && s[p] == '{' && s[c] == ':' && s[q] == '}'
    ensures At(s, p + 1, k) && At(s, c + 1, x)
    ensures SkipWs(s, p) == p && SkipWs(s, c) == c && SkipWs(s, q) == q
  {
    hide At, SkipWs;
    AtSplit(s, p, "{", k + (":" + (x + "}")));
    AtSplit(s, p + 1, k, ":" + (x + "}"));
    AtSplit(s, p + 1 + |k|, ":", x + "}");
    AtSplit(s, p + 1 + |k| + 1, x, "}");
    c := p + 1 + |k|;
    q := c + 1 + |x|;
    Mark(s, p, '{');
    Mark(s, c, ':');
    Mark(s, q, '}');
  }

  lemma {:induction false} ResultBack(v: Val, s: string, p: nat, ft: FloatText, st: Style)
    requires v.ResV? && At(s, p, Show(v, ft, st)) && Printable(v, st) && p <= |s|
    ensures ParseValue(s, p, ft) == Got(Normal(v), p + |Show(v, ft, st)|)
    decreases v, 0
  {
    hide ParseValue, ParseString, ParsePairs, Show, Quote, Normal, Printable, Reread, At, SkipWs, TextFits, AtString;
    var key := if v.ok then "ok" else "err";
    var k, x := Quote(key, st), Show(v.val, ft, st);
    ResultParts(v, ft, st);
    var c, q := ResultPlaces(s, p, k, x);
    StringBack(s, p + 1, key, st);
    ValueBack(v.val, s, c + 1, ft, st);
    OnePair(s, p + 1, key, Normal(v.val), ft, c, q);
    OpenObject(s, p, ft, [Pair(key, Normal(v.val))], q + 1);
  }

  lemma OnePair(s: string, p: nat, key: string, x: Val, ft: FloatText, c: nat, q: nat)
    requires p <= c < q < |s| && AtString(s, p) && SkipWs(s, p) == p && ParseString(s, p) == Got(key, c)
    requires SkipWs(s, c) == c && s[c] == ':' && ParseValue(s, c + 1, ft) == Got(x, q) && SkipWs(s, q) == q
    requires s[q] == '}'
    ensures ParsePairs(s, p, 0, ft) == Got([Pair(key, x)], q + 1)
  {
    hide ParseValue, ParseString;
    assert ParsePair(s, p, ft) == Got(Pair(key, x), q);
  }

  lemma OpenObject(s: string, p: nat, ft: FloatText, ps: seq<Pair>, e: nat)
    requires p + 1 < |s| && s[p] == '{' && SkipWs(s, p) == p && SkipWs(s, p + 1) == p + 1 && AtString(s, p + 1)
    requires ParsePairs(s, p + 1, 0, ft) == Got(ps, e)
    ensures ParseValue(s, p, ft) == Got(MapV(ps), e)
  {
    hide ParsePairs;
  }

  // ----- the laws -----

  /** Parsing what was printed gives the value back, normalised. */
  lemma ParseUndoesShow(v: Val, ft: FloatText)
    requires Printable(v, Plain)
    ensures ParseText(Show(v, ft, Plain), ft) == ResV(true, Normal(v))
  {
    hide Show, ParseValue, Normal, Printable;
    var s := Show(v, ft, Plain);
    assert s[0..0 + |s|] == s;
    ValueBack(v, s, 0, ft, Plain);
    NotWs(s, |s|);
  }

  // ----- delimiters written with a backslash -----

  /** The text as it stands inside a string literal: every quote escaped. */
  function EscapeQuotes(t: string): string {
    if t == "" then "" else (if t[0] == '"' then "\\\"" else [t[0]]) + EscapeQuotes(t[1..])
  }

  lemma {:induction false} EscapeAppend(a: string, b: string)
    ensures EscapeQuotes(a + b) == EscapeQuotes(a) + EscapeQuotes(b)
  {
    if a == "" {
      assert a + b == b;
    } else {
      assert (a + b)[1..] == a[1..] + b;
      EscapeAppend(a[1..], b);
    }
  }

  lemma {:induction false} EscapeNone(t: string)
    requires '"' !in t
    ensures EscapeQuotes(t) == t
  {
    if t != "" {
      EscapeNone(t[1..]);
      assert [t[0]] + t[1..] == t;
    }
  }

  lemma EscapeQuote(t: string)
    requires PlainText(t)
    ensures EscapeQuotes(Quote(t, Plain)) == Quote(t, Escaped)
  {
    QuotePlain(t);
    forall c | c in t ensures c != '"' {
      var i :| 0 <= i < |t| && t[i] == c;
      assert PlainChar(t[i]);
    }
    EscapeNone(t);
    EscapeAppend("\"", t + "\"");
    EscapeAppend(t, "\"");
    assert EscapeQuotes("\"") == "\\\"" + "";
  }

  lemma DecimalPlain(n: int)
    ensures '"' !in Decimal(n)
  {
    hide DigitsOf;
    var d := DigitsOf(if n < 0 then -n else n);
    assert forall i :: 0 <= i < |d| ==> IsDigit(d[i]);
  }

  /** Escaping the quotes of a printed value is printing it with escaped ones. */
  lemma {:induction false} EscapeShow(v: Val, ft: FloatText)
    requires Printable(v, Escaped)
    ensures EscapeQuotes(Show(v, ft, Plain)) == Show(v, ft, Escaped)
    decreases v, 1
  {
    hide Quote, EscapeQuotes, ShowItems, ShowPairs, AllPrintable, PairsPrintable, Decimal;
    match v
    case NilV => EscapeNone("null");
    case BoolV(_) =>
      EscapeNone("true");
      EscapeNone("false");
    case IntV(n) =>
      DecimalPlain(n);
      EscapeNone(Decimal(n));
    case StrV(t) => EscapeQuote(StrContent(t));
    case FnV(_, _) => EscapeQuote("<fn>");
    case ArrV(es) =>
      EscapeItems(es, ft);
      EscapeBracket("[", ShowItems(es, ft, Plain), "]");
    case MapV(ps) =>
      EscapePairs(ps, ft);
      EscapeBracket("{", ShowPairs(ps, ft, Plain), "}");
    case StructV(_, ps) =>
      EscapePairs(ps, ft);
      EscapeBracket("{", ShowPairs(ps, ft, Plain), "}");
    case ResV(ok, x) =>
      EscapeShow(x, ft);
      EscapeQuote(if ok then "ok" else "err");
      var k := Quote(if ok then "ok" else "err", Plain);
      EscapeBracket(":", Show(x, ft, Plain), "}");
      EscapeBracket("{", k, ":" + (Show(x, ft, Plain) + "}"));
  }

  lemma EscapeBracket(a: string, b: string, c: string)
    requires '"' !in a
    ensures EscapeQuotes(a + (b + c)) == a + (EscapeQuotes(b) + EscapeQuotes(c))
    ensures '"' !in c ==> EscapeQuotes(a + (b + c)) == a + (EscapeQuotes(b) + c)
  {
    hide EscapeQuotes;
    EscapeAppend(a, b + c);
    EscapeAppend(b, c);
    EscapeNone(a);
    if '"' !in c { EscapeNone(c); }
  }

  lemma {:induction false} EscapeItems(es: seq<Val>, ft: FloatText)
    requires AllPrintable(es, Escaped)
    ensures EscapeQuotes(ShowItems(es, ft, Plain)) == ShowItems(es, ft, Escaped)
    decreases es, 0
  {
    hide Show, ShowItems, Printable, EscapeQuotes;
    if es == [] {
      NoItems(ft, Plain);
      NoItems(ft, Escaped);
      EscapeNone("");
    } else {
      ItemsParts(es, ft, Plain);
      ItemsParts(es, ft, Escaped);
      EscapeShow(es[0], ft);
      if |es| > 1 {
        EscapeItems(es[1..], ft);
        EscapeAppend(Show(es[0], ft, Plain), "," + ShowItems(es[1..], ft, Plain));
        EscapeAppend(",", ShowItems(es[1..], ft, Plain));
        EscapeNone(",");
      }
    }
  }

  lemma {:induction false} EscapePair(q: Pair, ft: FloatText)
    requires TextFits(q.key, Escaped) && Printable(q.value, Escaped)
    ensures EscapeQuotes(ShowPair(q, ft, Plain)) == ShowPair(q, ft, Escaped)
    decreases q, 0
  {
    hide Show, Quote, Printable, EscapeQuotes;
    EscapeQuote(q.key);
    EscapeShow(q.value, ft);
    EscapeAppend(Quote(q.key, Plain), ":" + Show(q.value, ft, Plain));
    EscapeAppend(":", Show(q.value, ft, Plain));
    EscapeNone(":");
  }

  lemma {:induction false} EscapePairs(ps: seq<Pair>, ft: FloatText)
    requires PairsPrintable(ps, Escaped)
    ensures EscapeQuotes(ShowPairs(ps, ft, Plain)) == ShowPairs(ps, ft, Escaped)
    decreases ps, 1
  {
    hide ShowPair, ShowPairs, Printable, EscapeQuotes, TextFits;
    if ps == [] {
      NoItems(ft, Plain);
      NoItems(ft, Escaped);
      EscapeNone("");
    } else {
      PairsParts(ps, ft, Plain);
      PairsParts(ps, ft, Escaped);
      EscapePair(ps[0], ft);
      if |ps| > 1 {
        EscapePairs(ps[1..], ft);
        EscapeAppend(ShowPair(ps[0], ft, Plain), "," + ShowPairs(ps[1..], ft, Plain));
        EscapeAppend(",", ShowPairs(ps[1..], ft, Plain));
        EscapeNone(",");
      }
    }
  }

  /** A value of plain text parses to the same from its printed form and from that
      form with every quote written \". */
  lemma DelimitersDoNotMatter(v: Val, ft: FloatText)
    requires Printable(v, Escaped)
    ensures ParseText(EscapeQuotes(Show(v, ft, Plain)), ft) == ResV(true, Normal(v))
      == ParseText(Show(v, ft, Plain), ft)
  {
    hide Show, ParseValue, Normal, Printable, EscapeQuotes;
    EscapeShow(v, ft);
    var s := Show(v, ft, Escaped);
    assert s[0..0 + |s|] == s;
    ValueBack(v, s, 0, ft, Escaped);
    NotWs(s, |s|);
    PrintableBoth(v);
    ParseUndoesShow(v, ft);
  }

  lemma {:induction false} PrintableBoth(v: Val)
    requires Printable(v, Escaped)
    ensures Printable(v, Plain)
    decreases v, 1
  {
    hide PlainText;
    match v
    case ArrV(es) => AllBoth(es);
    case MapV(ps) => PairsBoth(ps);
    case StructV(_, ps) => PairsBoth(ps);
    case ResV(_, x) => PrintableBoth(x);
    case _ =>
  }

  lemma {:induction false} AllBoth(es: seq<Val>)
    requires AllPrintable(es, Escaped)
    ensures AllPrintable(es, Plain)
    decreases es, 0
  {
    hide Printable;
    if es != [] {
      PrintableBoth(es[0]);
      AllBoth(es[1..]);
    }
  }

  lemma {:induction false} PairsBoth(ps: seq<Pair>)
    requires PairsPrintable(ps, Escaped)
    ensures PairsPrintable(ps, Plain)
    decreases ps, 0
  {
    hide Printable, PlainText;
    if ps != [] {
      PrintableBoth(ps[0].value);
      PairsBoth(ps[1..]);
    }
  }
}
