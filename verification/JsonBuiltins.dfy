/** json_parse and json_stringify as the language calls them (src/builtins_core.c): the
    parser sees a string's content, without the quotes of a literal. */
module JsonBuiltins {
  import opened Ast
  import opened Values
  import opened Json
  import opened JsonPrinters
  import opened JsonLaws

  function ParseCall(args: seq<Val>, ft: FloatText): Res<Val> {
    if |args| != 1 then Fail(BuiltinErr(RuntimeErr))
    else if !args[0].StrV? then Fail(BuiltinErr(TypeErr))
    else Ok(ParseText(StrContent(args[0].s), ft))
  }

  function StringifyCall(args: seq<Val>, ft: FloatText): Res<Val> {
    if |args| != 1 then Fail(BuiltinErr(RuntimeErr)) else Ok(StrV(Show(args[0], ft, Plain)))
  }

  /** What a program gets that prints a value and parses the text. */
  function ThereAndBack(v: Val, ft: FloatText): Res<Val> {
    var text := StringifyCall([v], ft);
    if text.Fail? then text else ParseCall([text.value], ft)
  }

  /** Strings and functions are printed between quotes, nothing else is. */
  lemma QuotedIs(v: Val, ft: FloatText)
    requires Printable(v, Plain)
    ensures var s := Show(v, ft, Plain); s != "" && (s[0] == '"' <==> v.StrV? || v.FnV?)
  {
    hide ShowItems, ShowPairs, Body;
    if v.IntV? && v.i >= 0 { assert DigitsOf(v.i)[0] != '"'; }
  }

  lemma QuotedContent(s: string)
    ensures StrContent(Quote(s, Plain)) == Body(s)
  {
    hide Body;
    var q := Quote(s, Plain);
    assert q[1..|q| - 1] == Body(s);
  }

  /** A quote in an escaped text stands behind a backslash. */
  lemma {:induction false} QuoteEscaped(t: string, j: nat)
    requires j < |Body(t)| && Body(t)[j] == '"'
    ensures j > 0 && Body(t)[j - 1] == '\\'
  {
    var e := Escape(t[0]);
    if j >= |e| {
      QuoteEscaped(t[1..], j - |e|);
      assert Body(t)[j - 1] == Body(t[1..])[j - |e| - 1];
    }
  }

  /** Where a text without its quotes reads as a string at all, that string begins with
      blanks and a quote, which the parser has taken for its delimiter. */
  lemma {:induction false} BareStart(t: string, k: nat)
    requires SkipWs(Body(t), 0) == k && AtString(Body(t), k)
    ensures k < |t| && t[k] == '"' && (forall i :: 0 <= i < k ==> t[i] == ' ') && Body(t)[k] == '\\'
    decreases |t|
  {
    var rest := t[1..];
    if t[0] == ' ' {
      assert Body(t) == " " + Body(rest);
      SkipAfter(Body(t), Body(rest), 0);
      BareStart(rest, k - 1);
      assert forall i :: 0 < i < k ==> t[i] == rest[i - 1];
    } else {
      NoBlank(t[0]);
      assert Body(t)[0] == Escape(t[0])[0];
      assert k == 0;
      EscapedQuote(t[0]);
    }
  }

  lemma NoBlank(c: char)
    requires c != ' '
    ensures !IsWs(Escape(c)[0]) && Escape(c)[0] != '"'
  {
  }

  lemma EscapedQuote(c: char)
    requires |Escape(c)| >= 2 && Escape(c)[1] == '"'
    ensures c == '"'
  {
  }

  lemma {:induction false} SkipAfter(s: string, rest: string, p: nat)
    requires s == " " + rest && p <= |rest|
    ensures SkipWs(s, p + 1) == SkipWs(rest, p) + 1
    decreases |rest| - p
  {
    if p < |rest| && IsWs(rest[p]) { SkipAfter(s, rest, p + 1); }
  }

  lemma {:induction false} RereadStart(t: string, k: nat)
    requires k < |t| && t[k] == '"' && forall i :: 0 <= i < k ==> t[i] == ' '
    ensures k < |Reread(t)| && Reread(t)[k] == '"'
    decreases k
  {
    if k > 0 {
      assert t[0] == ' ';
      RereadStart(t[1..], k - 1);
    }
  }

  lemma {:induction false} FindsFirst(s: string, p: nat, j: nat)
    requires p <= |s| && p <= j < FindEscaped(s, p)
    ensures !(s[j] == '\\' && j + 1 < |s| && s[j + 1] == '"')
    decreases |s| - p
  {
    if p < j { FindsFirst(s, p + 1, j); }
  }

  lemma ReadAsString(s: string, ft: FloatText, w: string)
    requires ParseText(s, ft) == ResV(true, StrV(w))
    ensures var q := SkipWs(s, 0); AtString(s, q) && ParseString(s, q).Got? && ParseString(s, q).value == w
  {
    hide ParseString, ParseNumber, AtString, Literal;
    var q := SkipWs(s, 0);
    assert ParseValue(s, 0, ft) == Got(StrV(w), ParseValue(s, 0, ft).pos);
    if !AtString(s, q) { OtherValue(s, q, ft); }
  }

  lemma OtherValue(s: string, q: nat, ft: FloatText)
    requires q < |s|
    ensures s[q] == '{' && ParseObject(s, q, ft).Got? ==> ParseObject(s, q, ft).value.MapV?
    ensures s[q] == '[' && ParseArray(s, q, ft).Got? ==> ParseArray(s, q, ft).value.ArrV?
    ensures (s[q] == '-' || IsDigit(s[q])) && ParseNumber(s, q, ft).Got? ==> !ParseNumber(s, q, ft).value.StrV?
  {
    hide ParsePairs, ParseItems, IntEnd, FractionEnd, ExponentEnd, Clip, StrToLL;
  }

  /** What is read begins with no quote behind k characters, unlike the string itself. */
  lemma NoQuoteThere(t: string, k: nat)
    requires var s := Body(t); AtString(s, k) && s[k] == '\\'
    ensures var s := Body(t); var w := s[k + 2..FindEscaped(s, k + 2)]; k < |w| ==> w[k] != '"'
  {
    hide Body, FindEscaped;
    var s := Body(t);
    var j := k + 2 + k;
    if j < FindEscaped(s, k + 2) && s[j] == '"' {
      QuoteEscaped(t, j);
      if k > 0 { FindsFirst(s, k + 2, j - 1); }
      assert false;
    }
  }

  /** Without its quotes, a printed string is never read as itself: it would have to hold
      the quote that ends it. */
  lemma BareIsOther(t: string, ft: FloatText)
    ensures ParseText(Body(t), ft) != ResV(true, StrV(Reread(t)))
  {
    hide ParseText, Body, Reread, FindEscaped, Scan, SkipWs;
    var s, w := Body(t), Reread(t);
    if ParseText(s, ft) == ResV(true, StrV(w)) {
      ReadAsString(s, ft, w);
      var k := SkipWs(s, 0);
      BareStart(t, k);
      RereadStart(t, k);
      NoQuoteThere(t, k);
    }
  }

  /** Through the builtins a printed value comes back, normalised, if and only if its text
      does not begin with a quote. */
  lemma BuiltinsRoundTripIff(v: Val, ft: FloatText)
    requires Printable(v, Plain)
    ensures var s := Show(v, ft, Plain); s != "" && (ThereAndBack(v, ft) == Ok(ResV(true, Normal(v))) <==> s[0] != '"')
  {
    hide Show, ParseText, Printable, Body, Reread;
    QuotedIs(v, ft);
    ParseUndoesShow(v, ft);
    if v.StrV? {
      QuotedText(v, ft, StrContent(v.s));
      BareIsOther(StrContent(v.s), ft);
    } else if v.FnV? {
      QuotedText(v, ft, "<fn>");
      FnIsNoText(ft);
    }
  }

  lemma QuotedText(v: Val, ft: FloatText, t: string)
    requires (v.StrV? && t == StrContent(v.s)) || (v.FnV? && t == "<fn>")
    ensures StrContent(Show(v, ft, Plain)) == Body(t)
  {
    hide Body;
    QuotedContent(t);
  }

  lemma FnIsNoText(ft: FloatText)
    ensures ParseText(Body("<fn>"), ft) != ResV(true, StrV("<fn>"))
  {
    BareIsOther("<fn>", ft);
    assert Reread("<fn>") == "<fn>" by { RereadIsSame("<fn>"); PlainFn(); }
  }

  lemma PlainFn()
    ensures LossyCount("<fn>") == 0
  {
    var s := "<fn>";
    assert s[1..] == "fn>" && s[1..][1..] == "n>" && s[1..][1..][1..] == ">" && s[1..][1..][1..][1..] == "";
    assert LossyCount(">") == 0 && LossyCount("n>") == 0 && LossyCount("fn>") == 0;
  }

  /** What the two builtins take: one argument, which for json_parse is a string, read
      without the quotes of a literal. */
  lemma CallsTake(args: seq<Val>, text: string, ft: FloatText)
    ensures |args| != 1 ==>
      ParseCall(args, ft) == Fail(BuiltinErr(RuntimeErr)) && StringifyCall(args, ft) == Fail(BuiltinErr(RuntimeErr))
    ensures |args| == 1 ==> StringifyCall(args, ft).Ok?
    ensures |args| == 1 && !args[0].StrV? ==> ParseCall(args, ft) == Fail(BuiltinErr(TypeErr))
    ensures ParseCall([StrV("\"" + text + "\"")], ft) == Ok(ParseText(text, ft))
  {
    hide ParseText, Show;
    var q := "\"" + text + "\"";
    assert q[1..|q| - 1] == text;
  }
}
