/** What the JSON parser answers to texts that are none: the first place where no text can
    go on, with what is missing there.  Each law speaks of the rest of a text from any
    position on, so that they can be put into one another. */
module JsonErrors {
  import opened Ast
  import opened Values
  import opened Places
  import opened Json
  import opened JsonGrammar
  import opened JsonTexts
  import JsonLaws

  /** w is the rest of s from p on. */
  ghost predicate Rest(s: string, p: nat, w: string) { At(s, p, w) && p + |w| == |s| }

  lemma RestSplit(s: string, p: nat, a: string, b: string)
    requires Rest(s, p, a + b)
    ensures At(s, p, a) && Rest(s, p + |a|, b) && p + |a| <= |s|
  {
    AtSplit(s, p, a, b);
  }

  lemma RestFirst(s: string, p: nat, w: string)
    requires Rest(s, p, w)
    ensures w == "" <==> p == |s|
    ensures w != "" ==> p < |s| && s[p] == w[0]
    ensures |w| > 1 ==> p + 1 < |s| && s[p + 1] == w[1]
  {
    AtBytes(s, p, w);
    assert w != "" ==> s[p + 0] == w[0];
  }

  /** What a program sees of an error. */
  lemma Reported(s: string, msg: string, at: nat, ft: FloatText)
    requires ParseValue(s, 0, ft) == Bad(msg, at)
    ensures ParseText(s, ft) == ResV(false, StrV(msg + " at position " + Decimal(at)))
  {
    hide ParseValue;
  }

  /** Blanks before a value make no difference. */
  lemma Behind(s: string, p: nat, b: string, w: string, ft: FloatText)
    requires Blanks(b) && Rest(s, p, b + w)
    ensures p + |b| <= |s| && Rest(s, p + |b|, w) && ParseValue(s, p, ft) == ParseValue(s, p + |b|, ft)
  {
    hide Rest, ParseValue, SkipWs;
    RestSplit(s, p, b, w);
    SkipBlanks(s, p, b);
    SameValue(s, p, p + |b|, ft);
  }

  // ----- where a value should begin -----

  lemma EndsEarly(s: string, p: nat, b: string, ft: FloatText)
    requires Blanks(b) && Rest(s, p, b)
    ensures p <= |s| && ParseValue(s, p, ft) == Bad("unexpected end of input", |s|)
  {
    hide ParseString, ParseObject, ParseArray, ParseNumber, SkipWs;
    assert b + "" == b;
    Behind(s, p, b, "", ft);
    JsonLaws.NotWs(s, |s|);
  }

  /** No value begins like this. */
  predicate NoStart(w: string) {
    && w != "" && !Blanks([w[0]]) && w[0] != '"' && !("\\\"" <= w) && w[0] != '{' && w[0] != '[' && w[0] != '-'
    && !('0' <= w[0] <= '9') && !("true" <= w) && !("false" <= w) && !("null" <= w)
  }

  lemma WrongStart(s: string, p: nat, b: string, w: string, ft: FloatText)
    requires Blanks(b) && Rest(s, p, b + w) && NoStart(w)
    ensures p <= |s| && ParseValue(s, p, ft) == Bad("unexpected character", p + |b|)
  {
    hide ParseString, ParseObject, ParseArray, ParseNumber, SkipWs;
    Behind(s, p, b, w, ft);
    var q := p + |b|;
    RestFirst(s, q, w);
    NotBlank(w[0]);
    JsonLaws.NotWs(s, q);
    assert s[q..] == w;
    NoWord(s, q, w, "true");
    NoWord(s, q, w, "false");
    NoWord(s, q, w, "null");
  }

  lemma NoWord(s: string, q: nat, w: string, word: string)
    requires q <= |s| && s[q..] == w && !(word <= w)
    ensures !Literal(s, q, word)
  {
    var n := |word|;
    assert q + n <= |s| ==> s[q..q + n] == w[..n];
  }

  // ----- numbers and strings -----

  /** A minus with nothing behind it that a number could go on with. */
  lemma NumberStops(s: string, p: nat, b: string, w: string, ft: FloatText)
    requires Blanks(b) && Rest(s, p, b + ("-" + w))
    requires w != "" ==> !('0' <= w[0] <= '9') && w[0] != '.' && w[0] != 'e' && w[0] != 'E'
    ensures p <= |s| && ParseValue(s, p, ft) == Bad("invalid number", p + |b| + 1)
  {
    hide ParseString, ParseObject, ParseArray, SkipWs;
    Behind(s, p, b, "-" + w, ft);
    var q := p + |b|;
    RestFirst(s, q, "-" + w);
    RestSplit(s, q, "-", w);
    RestFirst(s, q + 1, w);
    JsonLaws.NotWs(s, q);
    assert s[q..q + 1] == "-";
  }

  /** How the rest of a text can break a string off. */
  predicate Breaks(w: string) {
    w == "" || w == "\\" || (|w| > 1 && w[0] == '\\' && w[1] != 'u' && !Fine(Esc(w[1])))
  }

  function BreakText(w: string): string {
    if w == "" then "unterminated string"
    else if w == "\\" then "unterminated string escape"
    else "invalid escape sequence"
  }

  lemma {:induction false} UnitsStop(s: string, p: nat, n: nat, us: seq<Unit>, w: string)
    requires (forall i :: 0 <= i < |us| ==> Fine(us[i])) && Rest(s, p, SpellAll(us) + w) && Breaks(w)
    ensures Scan(s, p, n) == Bad(BreakText(w), |s| - |w| + if w == "" then 0 else 1)
    decreases |us|
  {
    hide *;
    if us == [] {
      NoUnits(w);
      BreaksHere(s, p, n, w);
    } else {
      var u, more := us[0], us[1..];
      assert us == [u] + more;
      SpellCons(u, more);
      assert Spelled(u) + SpellAll(more) + w == Spelled(u) + (SpellAll(more) + w);
      RestSplit(s, p, Spelled(u), SpellAll(more) + w);
      UnitBack(s, p, n, u);
      UnitsStop(s, p + |Spelled(u)|, n + 1, more, w);
    }
  }

  lemma NoUnits(w: string)
    ensures SpellAll([]) + w == w
  {
  }

  lemma BreaksHere(s: string, p: nat, n: nat, w: string)
    requires Rest(s, p, w) && Breaks(w)
    ensures Scan(s, p, n) == Bad(BreakText(w), |s| - |w| + if w == "" then 0 else 1)
  {
    hide Rest;
    RestEnd(s, p, w);
    RestFirst(s, p, w);
    if |w| > 1 { EscIs(w[1]); }
  }

  lemma RestEnd(s: string, p: nat, w: string)
    requires Rest(s, p, w)
    ensures p + |w| == |s|
  {
  }

  /** A string that is broken off by the end of the text or a wrong escape. */
  lemma StringStops(s: string, p: nat, b: string, us: seq<Unit>, w: string, ft: FloatText)
    requires Blanks(b) && (forall i :: 0 <= i < |us| ==> Fine(us[i])) && Breaks(w)
    requires Rest(s, p, b + ("\"" + (SpellAll(us) + w)))
    ensures p <= |s| && ParseValue(s, p, ft) == Bad(BreakText(w), |s| - |w| + if w == "" then 0 else 1)
  {
    hide *;
    var all := "\"" + (SpellAll(us) + w);
    Behind(s, p, b, all, ft);
    var q := p + |b|;
    assert all[0] == '"';
    RestFirst(s, q, all);
    RestSplit(s, q, "\"", SpellAll(us) + w);
    UnitsStop(s, q + 1, 0, us, w);
    QuoteOpens(s, q, ft);
  }

  lemma QuoteOpens(s: string, q: nat, ft: FloatText)
    requires q < |s| && s[q] == '"' && Scan(s, q + 1, 0).Bad?
    ensures var r := Scan(s, q + 1, 0); ParseValue(s, q, ft) == Bad(r.msg, r.at)
  {
    hide Scan, Fill, SkipWs, ParseObject, ParseArray, ParseNumber;
    JsonLaws.NotWs(s, q);
  }

  lemma {:induction false} NoEscaped(s: string, p: nat)
    requires p <= |s| && forall i :: p < i < |s| ==> !(s[i - 1] == '\\' && s[i] == '"')
    ensures FindEscaped(s, p) == |s|
    decreases |s| - p
  {
    if p < |s| {
      if p + 1 < |s| { assert s[p + 1 - 1] == s[p]; }
      NoEscaped(s, p + 1);
    }
  }

  /** The same between quotes with backslashes. */
  lemma BareStops(s: string, p: nat, b: string, x: string, ft: FloatText)
    requires Blanks(b) && LegalText(Bare(x)) && Rest(s, p, b + ("\\\"" + x))
    ensures p <= |s| && ParseValue(s, p, ft) == Bad("unterminated string", |s|)
  {
    hide Rest, FindEscaped, SkipWs, ParseObject, ParseArray, ParseNumber;
    Behind(s, p, b, "\\\"" + x, ft);
    var q := p + |b|;
    RestFirst(s, q, "\\\"" + x);
    RestSplit(s, q, "\\\"", x);
    assert s[q + 2..] == x by { RestIs(s, q + 2, x); }
    forall i | q + 2 < i < |s| ensures !(s[i - 1] == '\\' && s[i] == '"') {
      assert s[i] == x[i - q - 2] && s[i - 1] == x[i - q - 3];
    }
    NoEscaped(s, q + 2);
    JsonLaws.NotWs(s, q);
  }

  lemma RestIs(s: string, p: nat, w: string)
    requires Rest(s, p, w)
    ensures p <= |s| && s[p..] == w
  {
  }

  // ----- arrays -----

  /** The blanks behind the last element reach up to q, and no number goes on there. */
  ghost predicate EndsAt(s: string, q: nat, after: string) {
    |after| <= q && Apart(s, q - |after|) && SkipWs(s, q - |after|) == q
  }

  /** An element up to q, whatever stands there. */
  lemma ItemEnd(a: Item, s: string, p: nat, ft: FloatText)
    requires LegalItem(a, ft) && At(s, p, WrittenItem(a)) && EndsAt(s, p + |WrittenItem(a)|, a.after)
    ensures p <= |s| && ParseValue(s, p, ft).Got? && ParseValue(s, p, ft).value == ItemMeans(a, ft)
    ensures SkipWs(s, ParseValue(s, p, ft).pos) == p + |WrittenItem(a)|
  {
    hide At, ParseValue, Written, Legal, Means, SkipWs, Blanks;
    var w := Written(a.tree);
    AtSplit(s, p, a.before, w + a.after);
    var q := p + |a.before|;
    AtSplit(s, q, w, a.after);
    TreeBack(a.tree, s, q, ft);
    SkipBlanks(s, p, a.before);
    SameValue(s, p, q, ft);
  }

  lemma ItemsAnswer(s: string, p: nat, count: nat, ft: FloatText, q: nat)
    requires p <= |s| && count < 1024 && ParseValue(s, p, ft).Got? && SkipWs(s, ParseValue(s, p, ft).pos) == q <= |s|
    ensures q == |s| || (s[q] != ',' && s[q] != ']') ==>
      ParseItems(s, p, count, ft) == Bad("expected ',' or ']' in array", q)
    ensures q < |s| && s[q] == ',' ==>
      var r := ParseItems(s, q + 1, count + 1, ft);
      r.Bad? ==> ParseItems(s, p, count, ft) == r
  {
    hide ParseValue, SkipWs;
  }

  lemma CommaCloses(s: string, q: nat)
    requires q < |s| && s[q] == ','
    ensures Closes(s, q)
  {
  }

  /** Elements, and then either no comma and no bracket, or a comma and an error. */
  lemma {:induction false} ItemsStop(items: seq<Item>, s: string, p: nat, count: nat, ft: FloatText)
    requires items != [] && LegalItems(items, ft) && count + |items| <= 1024 && At(s, p, WrittenItems(items))
    requires EndsAt(s, p + |WrittenItems(items)|, items[|items| - 1].after)
    ensures p + |WrittenItems(items)| <= |s|
    ensures var q := p + |WrittenItems(items)|;
      q == |s| || (s[q] != ',' && s[q] != ']') ==>
        ParseItems(s, p, count, ft) == Bad("expected ',' or ']' in array", q)
    ensures var q := p + |WrittenItems(items)|;
      q < |s| && s[q] == ',' ==>
        var r := ParseItems(s, q + 1, count + |items|, ft); r.Bad? ==> ParseItems(s, p, count, ft) == r
    decreases |items|
  {
    hide *;
    ItemsParts(items, ft);
    AtBound(s, p, WrittenItems(items));
    var x := WrittenItem(items[0]);
    var q := p + |x|;
    if |items| == 1 {
      ItemEnd(items[0], s, p, ft);
    } else {
      var rest := WrittenItems(items[1..]);
      AtSplit(s, p, x, "," + rest);
      AtSplit(s, q, ",", rest);
      AtIndex(s, q, ",", 0);
      CommaCloses(s, q);
      ItemBack(items[0], s, p, ft);
      ItemsStop(items[1..], s, q + 1, count + 1, ft);
    }
    ItemsAnswer(s, p, count, ft, q);
  }

  /** An array whose elements fail, from behind its bracket and blanks on. */
  lemma ArrayFails(s: string, p: nat, b: string, gap: string, ft: FloatText)
    requires Blanks(b) && Blanks(gap) && At(s, p, b + ("[" + gap))
    ensures p + |b| + 1 + |gap| <= |s|
    ensures var q := p + |b| + 1 + |gap|; var k := SkipWs(s, q); var r := ParseItems(s, q, 0, ft);
      (k == |s| || s[k] != ']') && r.Bad? ==> ParseValue(s, p, ft) == Bad(r.msg, r.at)
  {
    hide *;
    AtSplit(s, p, b, "[" + gap);
    AtSplit(s, p + |b|, "[", gap);
    AtIndex(s, p + |b|, "[", 0);
    AtBound(s, p + |b| + 1, gap);
    SkipBlanks(s, p, b);
    SameValue(s, p, p + |b|, ft);
    SkipBlanks(s, p + |b| + 1, gap);
    ItemsSkip(s, p + |b| + 1 + |gap|, ft);
    Opened(s, p + |b|, ft);
  }

  /** From an opening bracket on. */
  lemma Opened(s: string, p: nat, ft: FloatText)
    requires p < |s|
    ensures var k := SkipWs(s, p + 1);
      s[p] == '[' && (k == |s| || s[k] != ']') ==>
        var r := ParseItems(s, k, 0, ft); r.Bad? ==> ParseValue(s, p, ft) == Bad(r.msg, r.at)
    ensures var k := SkipWs(s, p + 1);
      s[p] == '{' && (k == |s| || s[k] != '}') ==>
        var r := ParsePairs(s, k, 0, ft); r.Bad? ==> ParseValue(s, p, ft) == Bad(r.msg, r.at)
  {
    hide ParseItems, ParsePairs, ParseNumber, ParseString, SkipWs;
    if s[p] == '[' || s[p] == '{' { JsonLaws.NotWs(s, p); }
  }

  lemma FirstFails(s: string, q: nat, count: nat, ft: FloatText)
    requires q <= |s|
    ensures count >= 1024 ==> ParseItems(s, q, count, ft) == Bad("array too large", q)
    ensures var v := ParseValue(s, q, ft); count < 1024 && v.Bad? ==> ParseItems(s, q, count, ft) == Bad(v.msg, v.at)
  {
    hide ParseValue;
  }

  /** An error in the first element is the error of the array. */
  lemma FirstElement(s: string, p: nat, b: string, gap: string, ft: FloatText)
    requires Blanks(b) && Blanks(gap) && At(s, p, b + ("[" + gap))
    ensures p + |b| + 1 + |gap| <= |s|
    ensures var q := p + |b| + 1 + |gap|; var k := SkipWs(s, q);
      (k == |s| || s[k] != ']') && ParseValue(s, q, ft).Bad? ==> ParseValue(s, p, ft) == ParseValue(s, q, ft)
  {
    hide At, ParseItems, ParseValue, SkipWs, Blanks;
    ArrayFails(s, p, b, gap, ft);
    FirstFails(s, p + |b| + 1 + |gap|, 0, ft);
  }

  /** Behind elements of an array stands a comma or the bracket; behind the comma of the
      1024th there is none that is taken, and otherwise the error of the next element is
      the error of the array. */
  lemma ArrayStops(s: string, p: nat, b: string, gap: string, items: seq<Item>, ft: FloatText)
    requires Blanks(b) && Blanks(gap) && items != [] && LegalItems(items, ft) && |items| <= 1024
    requires At(s, p, (b + ("[" + gap)) + WrittenItems(items))
    requires EndsAt(s, p + |b| + 1 + |gap| + |WrittenItems(items)|, items[|items| - 1].after)
    ensures p + |b| + 1 + |gap| + |WrittenItems(items)| <= |s|
    ensures var q := p + |b| + 1 + |gap| + |WrittenItems(items)|;
      q == |s| || (s[q] != ',' && s[q] != ']') ==>
        ParseValue(s, p, ft) == Bad("expected ',' or ']' in array", q)
    ensures var q := p + |b| + 1 + |gap| + |WrittenItems(items)|;
      q < |s| && s[q] == ',' && |items| == 1024 ==> ParseValue(s, p, ft) == Bad("array too large", q + 1)
    ensures var q := p + |b| + 1 + |gap| + |WrittenItems(items)|;
      q < |s| && s[q] == ',' && |items| < 1024 && ParseValue(s, q + 1, ft).Bad? ==>
        ParseValue(s, p, ft) == ParseValue(s, q + 1, ft)
  {
    hide At, ParseItems, ParseValue, SkipWs, Blanks, WrittenItems, LegalItems, EndsAt;
    var head := b + ("[" + gap);
    AtSplit(s, p, head, WrittenItems(items));
    var f := p + |head|;
    ArrayFails(s, p, b, gap, ft);
    ItemsStart(items, s, f, ft);
    ItemsStop(items, s, f, 0, ft);
    var q := f + |WrittenItems(items)|;
    if q < |s| { FirstFails(s, q + 1, |items|, ft); }
  }

  // ----- objects -----

  /** A member: a string, a colon, a value, or the error of the first of them that is not
      there. */
  lemma MemberAnswer(s: string, p: nat, b: string, ft: FloatText)
    requires Blanks(b) && At(s, p, b) && p + |b| <= |s| && SkipWs(s, p + |b|) == p + |b|
    ensures !AtString(s, p + |b|) ==> ParsePair(s, p, ft) == Bad("expected string key in object", p + |b|)
    ensures AtString(s, p + |b|) && ParseString(s, p + |b|).Bad? ==>
      var key := ParseString(s, p + |b|); ParsePair(s, p, ft) == Bad(key.msg, key.at)
  {
    hide *;
    SkipBlanks(s, p, b);
    NoKey(s, p, p + |b|, ft);
  }

  lemma NoKey(s: string, p: nat, q: nat, ft: FloatText)
    requires p <= |s| && SkipWs(s, p) == q <= |s|
    ensures !AtString(s, q) ==> ParsePair(s, p, ft) == Bad("expected string key in object", q)
    ensures AtString(s, q) && ParseString(s, q).Bad? ==>
      var key := ParseString(s, q); ParsePair(s, p, ft) == Bad(key.msg, key.at)
  {
    hide AtString, ParseString, SkipWs, ParseValue;
  }

  /** Behind the key stands a colon, and an error of the value is one of the member. */
  lemma KeyAnswer(s: string, p: nat, b: string, key: Text, colon: string, ft: FloatText)
    requires Blanks(b) && LegalText(key) && Blanks(colon) && At(s, p, b + (TextOf(key) + colon))
    requires var c := p + |b| + |TextOf(key)| + |colon|; c <= |s| && SkipWs(s, c) == c
    ensures var c := p + |b| + |TextOf(key)| + |colon|;
      c == |s| || s[c] != ':' ==> ParsePair(s, p, ft) == Bad("expected ':' after key in object", c)
    ensures var c := p + |b| + |TextOf(key)| + |colon|;
      c < |s| && s[c] == ':' && ParseValue(s, c + 1, ft).Bad? ==>
        var v := ParseValue(s, c + 1, ft); ParsePair(s, p, ft) == Bad(v.msg, v.at)
  {
    hide At, AtString, ParseString, SkipWs, ParseValue, TextOf, LegalText, Content, Blanks;
    var k := TextOf(key);
    AtSplit(s, p, b, k + colon);
    AtSplit(s, p + |b|, k, colon);
    SkipBlanks(s, p, b);
    TextBack(s, p + |b|, key);
    JsonLaws.NotWs(s, p + |b|) by { AtStringIs(s, p + |b|); }
    SkipBlanks(s, p + |b| + |k|, colon);
  }

  lemma MemberEnd(m: Member, s: string, p: nat, ft: FloatText)
    requires LegalMember(m, ft) && At(s, p, WrittenMember(m)) && EndsAt(s, p + |WrittenMember(m)|, m.item.after)
    ensures p <= |s| && ParsePair(s, p, ft).Got? && SkipWs(s, ParsePair(s, p, ft).pos) == p + |WrittenMember(m)|
  {
    hide At, ParseValue, ParseString, ParsePair, WrittenItem, LegalItem, ItemMeans, SkipWs, TextOf, Content, LegalText,
      AtString, EndsAt;
    var k, x := TextOf(m.key), WrittenItem(m.item);
    MemberPlaces(m, s, p);
    var q := p + |m.before|;
    var c := q + |k| + |m.colon|;
    SkipBlanks(s, p, m.before);
    TextBack(s, q, m.key);
    JsonLaws.NotWs(s, q) by { AtStringIs(s, q); }
    SkipBlanks(s, q + |k|, m.colon);
    JsonLaws.NotWs(s, c);
    ItemEnd(m.item, s, c + 1, ft);
    PairStep(s, p, ft, q, c);
  }

  lemma PairsAnswer(s: string, p: nat, count: nat, ft: FloatText, q: nat)
    requires p <= |s| && count < 256 && ParsePair(s, p, ft).Got? && SkipWs(s, ParsePair(s, p, ft).pos) == q <= |s|
    ensures q == |s| || (s[q] != ',' && s[q] != '}') ==>
      ParsePairs(s, p, count, ft) == Bad("expected ',' or '}' in object", q)
    ensures q < |s| && s[q] == ',' ==>
      var r := ParsePairs(s, q + 1, count + 1, ft);
      r.Bad? ==> ParsePairs(s, p, count, ft) == r
  {
    hide ParsePair, SkipWs;
  }

  /** Members, and then either no comma and no bracket, or a comma and an error. */
  lemma {:induction false} MembersStop(ms: seq<Member>, s: string, p: nat, count: nat, ft: FloatText)
    requires ms != [] && LegalMembers(ms, ft) && count + |ms| <= 256 && At(s, p, WrittenMembers(ms))
    requires EndsAt(s, p + |WrittenMembers(ms)|, ms[|ms| - 1].item.after)
    ensures p + |WrittenMembers(ms)| <= |s|
    ensures var q := p + |WrittenMembers(ms)|;
      q == |s| || (s[q] != ',' && s[q] != '}') ==>
        ParsePairs(s, p, count, ft) == Bad("expected ',' or '}' in object", q)
    ensures var q := p + |WrittenMembers(ms)|;
      q < |s| && s[q] == ',' ==>
        var r := ParsePairs(s, q + 1, count + |ms|, ft); r.Bad? ==> ParsePairs(s, p, count, ft) == r
    decreases |ms|
  {
    hide *;
    MembersParts(ms, ft);
    AtBound(s, p, WrittenMembers(ms));
    var x := WrittenMember(ms[0]);
    var q := p + |x|;
    if |ms| == 1 {
      MemberEnd(ms[0], s, p, ft);
    } else {
      var rest := WrittenMembers(ms[1..]);
      AtSplit(s, p, x, "," + rest);
      AtSplit(s, q, ",", rest);
      AtIndex(s, q, ",", 0);
      CommaCloses(s, q);
      MemberBack(ms[0], s, p, ft);
      MembersStop(ms[1..], s, q + 1, count + 1, ft);
    }
    PairsAnswer(s, p, count, ft, q);
  }

  lemma ObjectFails(s: string, p: nat, b: string, gap: string, ft: FloatText)
    requires Blanks(b) && Blanks(gap) && At(s, p, b + ("{" + gap))
    ensures p + |b| + 1 + |gap| <= |s|
    ensures var q := p + |b| + 1 + |gap|; var k := SkipWs(s, q); var r := ParsePairs(s, q, 0, ft);
      (k == |s| || s[k] != '}') && r.Bad? ==> ParseValue(s, p, ft) == Bad(r.msg, r.at)
  {
    hide *;
    AtSplit(s, p, b, "{" + gap);
    AtSplit(s, p + |b|, "{", gap);
    AtIndex(s, p + |b|, "{", 0);
    AtBound(s, p + |b| + 1, gap);
    SkipBlanks(s, p, b);
    SameValue(s, p, p + |b|, ft);
    SkipBlanks(s, p + |b| + 1, gap);
    ItemsSkip(s, p + |b| + 1 + |gap|, ft);
    Opened(s, p + |b|, ft);
  }

  lemma MemberFails(s: string, q: nat, count: nat, ft: FloatText)
    requires q <= |s|
    ensures count >= 256 ==> ParsePairs(s, q, count, ft) == Bad("object too large", q)
    ensures var v := ParsePair(s, q, ft); count < 256 && v.Bad? ==> ParsePairs(s, q, count, ft) == Bad(v.msg, v.at)
  {
    hide ParsePair;
  }

  /** An error in the first member is the error of the object. */
  lemma FirstMember(s: string, p: nat, b: string, gap: string, ft: FloatText)
    requires Blanks(b) && Blanks(gap) && At(s, p, b + ("{" + gap))
    ensures p + |b| + 1 + |gap| <= |s|
    ensures var q := p + |b| + 1 + |gap|; var k := SkipWs(s, q); var m := ParsePair(s, q, ft);
      (k == |s| || s[k] != '}') && m.Bad? ==> ParseValue(s, p, ft) == Bad(m.msg, m.at)
  {
    hide At, ParsePairs, ParsePair, ParseValue, SkipWs, Blanks;
    ObjectFails(s, p, b, gap, ft);
    MemberFails(s, p + |b| + 1 + |gap|, 0, ft);
  }

  /** Behind members of an object stands a comma or the bracket; behind the comma of the
      256th there is none that is taken, and otherwise the error of the next member is the
      error of the object. */
  lemma ObjectStops(s: string, p: nat, b: string, gap: string, ms: seq<Member>, ft: FloatText)
    requires Blanks(b) && Blanks(gap) && ms != [] && LegalMembers(ms, ft) && |ms| <= 256
    requires At(s, p, (b + ("{" + gap)) + WrittenMembers(ms))
    requires EndsAt(s, p + |b| + 1 + |gap| + |WrittenMembers(ms)|, ms[|ms| - 1].item.after)
    ensures p + |b| + 1 + |gap| + |WrittenMembers(ms)| <= |s|
    ensures var q := p + |b| + 1 + |gap| + |WrittenMembers(ms)|;
      q == |s| || (s[q] != ',' && s[q] != '}') ==>
        ParseValue(s, p, ft) == Bad("expected ',' or '}' in object", q)
    ensures var q := p + |b| + 1 + |gap| + |WrittenMembers(ms)|;
      q < |s| && s[q] == ',' && |ms| == 256 ==> ParseValue(s, p, ft) == Bad("object too large", q + 1)
    ensures var q := p + |b| + 1 + |gap| + |WrittenMembers(ms)|;
      q < |s| && s[q] == ',' && |ms| < 256 && ParsePair(s, q + 1, ft).Bad? ==>
        var m := ParsePair(s, q + 1, ft); ParseValue(s, p, ft) == Bad(m.msg, m.at)
  {
    hide At, ParsePairs, ParsePair, ParseValue, SkipWs, Blanks, WrittenMembers, LegalMembers, EndsAt;
    var head := b + ("{" + gap);
    AtSplit(s, p, head, WrittenMembers(ms));
    var f := p + |head|;
    ObjectFails(s, p, b, gap, ft);
    MembersStart(ms, s, f, ft);
    MembersStop(ms, s, f, 0, ft);
    var q := f + |WrittenMembers(ms)|;
    if q < |s| { MemberFails(s, q + 1, |ms|, ft); }
  }
}
