/** The JSON printer (src/json.c): the text of a value, and the growing buffer it
    is written to. */
module JsonPrinters {
  import opened Ast
  import opened Values
  import opened Places
  import opened Json

  function HexDigit(n: nat): char
    requires n < 16
  {
    if n < 10 then '0' + n as char else 'a' + (n - 10) as char
  }

  /** How one character is written inside a string. */
  function Escape(c: char): string {
    match c
    case '"' => "\\\""
    case '\\' => "\\\\"
    case '\n' => "\\n"
    case '\t' => "\\t"
    case '\r' => "\\r"
    case _ =>
      if c == 8 as char then "\\b"
      else if c == 12 as char then "\\f"
      else if c < 0x20 as char then "\\u00" + [HexDigit(c as int / 16), HexDigit(c as int % 16)]
      else [c]
  }

  function Body(s: string): string {
    if s == "" then "" else Escape(s[0]) + Body(s[1..])
  }

  /** A string between delimiters: what the printer writes, or, with quotes
      escaped once more, what a string literal of the language holds. */
  datatype Style = Plain | Escaped

  function Delim(st: Style): string { if st == Plain then "\"" else "\\\"" }

  function Quote(s: string, st: Style): string {
    Delim(st) + (Body(s) + Delim(st))
  }

  function Show(v: Val, ft: FloatText, st: Style): string
    decreases v
  {
    match v
    case NilV => "null"
    case BoolV(b) => if b then "true" else "false"
    case IntV(n) => Decimal(n)
    case FloatV(f) => ft.show(f)
    case StrV(s) => Quote(StrContent(s), st)
    case ArrV(es) => "[" + (ShowItems(es, ft, st) + "]")
    case MapV(ps) => "{" + (ShowPairs(ps, ft, st) + "}")
    case StructV(_, ps) => "{" + (ShowPairs(ps, ft, st) + "}")
    case ResV(ok, x) => "{" + (Quote(if ok then "ok" else "err", st) + (":" + (Show(x, ft, st) + "}")))
    case FnV(_, _) => Quote("<fn>", st)
  }

  function ShowItems(es: seq<Val>, ft: FloatText, st: Style): string
    decreases es
  {
    if es == [] then ""
    else Show(es[0], ft, st) + if |es| == 1 then "" else "," + ShowItems(es[1..], ft, st)
  }

  function ShowPair(p: Pair, ft: FloatText, st: Style): string
    decreases p
  {
    Quote(p.key, st) + (":" + Show(p.value, ft, st))
  }

  function ShowPairs(ps: seq<Pair>, ft: FloatText, st: Style): string
    decreases ps
  {
    if ps == [] then ""
    else ShowPair(ps[0], ft, st) + if |ps| == 1 then "" else "," + ShowPairs(ps[1..], ft, st)
  }

  class JsonBuf {
    var buf: array<char>
    var len: nat
    ghost var Text: string

    ghost predicate Valid()
      reads this, buf
    {
      0 < buf.Length && len <= buf.Length && Text == buf[..len]
    }

    /** jb_init */
    constructor ()
      ensures Valid() && fresh(buf) && Text == ""
    {
      buf := new char[256];
      len := 0;
      Text := "";
    }

    /** jb_grow: doubles the capacity until there is room. */
    method Grow(need: nat)
      requires Valid()
      modifies this`buf
      ensures Valid() && fresh(buf) && len + need <= buf.Length
    {
      var cap := buf.Length;
      while len + need > cap
        invariant cap >= buf.Length
        decreases len + need - cap
      {
        cap := cap * 2;
      }
      var bigger := new char[cap];
      for i := 0 to len
        invariant Valid() && buf == old(buf) && len <= cap == bigger.Length && bigger[..i] == buf[..i]
      {
        bigger[i] := buf[i];
      }
      buf := bigger;
    }

    /** jb_append */
    method Append(s: string)
      requires Valid()
      modifies this, buf
      ensures Valid() && (buf == old(buf) || fresh(buf)) && Text == old(Text) + s
    {
      if len + |s| > buf.Length { Grow(|s|); }
      for i := 0 to |s|
        invariant Valid() && len == old(len) && (buf == old(buf) || fresh(buf)) && len + |s| <= buf.Length
        invariant Text == old(Text) && buf[..len + i] == Text + s[..i]
      {
        buf[len + i] := s[i];
        assert s[..i + 1] == s[..i] + [s[i]];
        assert buf[..len + i + 1] == buf[..len + i] + [s[i]];
      }
      assert s[..|s|] == s;
      len := len + |s|;
      Text := Text + s;
    }

    /** jb_append_escaped_string */
    method AppendEscaped(s: string)
      requires Valid()
      modifies this, buf
      ensures Valid() && (buf == old(buf) || fresh(buf)) && Text == old(Text) + Quote(s, Plain)
    {
      hide Escape;
      Append("\"");
      assert s[0..] == s;
      ghost var t := Text;
      for i := 0 to |s|
        invariant Valid() && (buf == old(buf) || fresh(buf)) && Text + Body(s[i..]) == t + Body(s)
      {
        ghost var was := Text;
        assert s[i..][0] == s[i] && s[i..][1..] == s[i + 1..];
        Append(Escape(s[i]));
        Assoc(was, Escape(s[i]), Body(s[i + 1..]));
      }
      assert s[|s|..] == "" && Text + "" == Text;
      Append("\"");
      Assoc(old(Text), "\"", Body(s));
      Assoc(old(Text), "\"", Body(s) + "\"");
      Assoc(old(Text) + "\"", Body(s), "\"");
    }

    /** jb_stringify_val */
    method Stringify(v: Val, ft: FloatText)
      requires Valid()
      modifies this, buf
      ensures Valid() && (buf == old(buf) || fresh(buf)) && Text == old(Text) + Show(v, ft, Plain)
      decreases v, 1
    {
      hide Quote, ShowItems, ShowPairs, Decimal;
      match v
      case NilV => Append("null");
      case BoolV(b) => if b { Append("true"); } else { Append("false"); }
      case IntV(n) => Append(Decimal(n));
      case FloatV(f) => Append(ft.show(f));
      case StrV(s) => AppendEscaped(StrContent(s));
      case ArrV(es) => StringifyArray(v, ft);
      case MapV(ps) => StringifyPairs(v, ft);
      case StructV(_, ps) => StringifyPairs(v, ft);
      case ResV(_, _) => StringifyResult(v, ft);
      case FnV(_, _) =>
        Append("\"<fn>\"");
        QuoteFn();
    }

    method StringifyArray(v: Val, ft: FloatText)
      requires Valid() && v.ArrV?
      modifies this, buf
      ensures Valid() && (buf == old(buf) || fresh(buf)) && Text == old(Text) + Show(v, ft, Plain)
      decreases v, 0
    {
      hide Show, ShowItems;
      var es := v.elems;
      Append("[");
      ghost var t := Text;
      assert es[0..] == es;
      for i := 0 to |es|
        invariant Valid() && (buf == old(buf) || fresh(buf))
        invariant Text + Tail(i, ShowItems(es[i..], ft, Plain), |es|) == t + ShowItems(es, ft, Plain)
      {
        ItemsStep(es, i, ft, Text);
        if i > 0 { Append(","); }
        Stringify(es[i], ft);
      }
      assert es[|es|..] == [];
      NoItems(ft);
      assert Text + "" == Text;
      Append("]");
      ShowArray(es, ft, old(Text), v);
    }

    method StringifyPairs(v: Val, ft: FloatText)
      requires Valid() && (v.MapV? || v.StructV?)
      modifies this, buf
      ensures Valid() && (buf == old(buf) || fresh(buf)) && Text == old(Text) + Show(v, ft, Plain)
      decreases v, 0
    {
      hide Show, Quote;
      var ps := if v.MapV? then v.pairs else v.fields;
      Append("{");
      ghost var t := Text;
      assert ps[0..] == ps;
      for i := 0 to |ps|
        invariant Valid() && (buf == old(buf) || fresh(buf))
        invariant Text + Tail(i, ShowPairs(ps[i..], ft, Plain), |ps|) == t + ShowPairs(ps, ft, Plain)
      {
        PairsStep(ps, i, ft, Text);
        if i > 0 { Append(","); }
        AppendEscaped(ps[i].key);
        Append(":");
        Stringify(ps[i].value, ft);
      }
      assert ps[|ps|..] == [];
      assert Text + "" == Text;
      Append("}");
      ShowObject(ps, ft, old(Text), v);
    }

    method StringifyResult(v: Val, ft: FloatText)
      requires Valid() && v.ResV?
      modifies this, buf
      ensures Valid() && (buf == old(buf) || fresh(buf)) && Text == old(Text) + Show(v, ft, Plain)
      decreases v, 0
    {
      hide Show;
      Append("{");
      if v.ok { Append("\"ok\":"); } else { Append("\"err\":"); }
      Stringify(v.val, ft);
      Append("}");
      ShowResult(v, ft, old(Text));
    }
  }

  /** What is left of a list from element i on: a comma first, except at the start. */
  function Tail(i: nat, rest: string, n: nat): string {
    if i == 0 || i >= n then rest else "," + rest
  }

  lemma NoItems(ft: FloatText)
    ensures ShowItems([], ft, Plain) == ""
  {
  }

  lemma ItemsStep(es: seq<Val>, i: nat, ft: FloatText, t: string)
    requires i < |es|
    ensures t + Tail(i, ShowItems(es[i..], ft, Plain), |es|)
         == (if i > 0 then t + "," else t) + Show(es[i], ft, Plain)
           + Tail(i + 1, ShowItems(es[i + 1..], ft, Plain), |es|)
  {
    hide Show;
    assert es[i..][0] == es[i] && es[i..][1..] == es[i + 1..];
    var x := Show(es[i], ft, Plain);
    if i + 1 == |es| { assert es[i + 1..] == []; }
    var more := Tail(i + 1, ShowItems(es[i + 1..], ft, Plain), |es|);
    assert ShowItems(es[i..], ft, Plain) == x + more;
    assert t + "," + (x + more) == t + "," + x + more;
    assert t + (x + more) == t + x + more;
    assert t + ("," + (x + more)) == t + "," + x + more;
  }

  lemma PairsStep(ps: seq<Pair>, i: nat, ft: FloatText, t: string)
    requires i < |ps|
    ensures t + Tail(i, ShowPairs(ps[i..], ft, Plain), |ps|)
         == (if i > 0 then t + "," else t) + Quote(ps[i].key, Plain) + ":" + Show(ps[i].value, ft, Plain)
            + Tail(i + 1, ShowPairs(ps[i + 1..], ft, Plain), |ps|)
  {
    hide Show, Quote;
    assert ps[i..][0] == ps[i] && ps[i..][1..] == ps[i + 1..];
    var k, x := Quote(ps[i].key, Plain), Show(ps[i].value, ft, Plain);
    if i + 1 == |ps| { assert ps[i + 1..] == []; }
    var more := Tail(i + 1, ShowPairs(ps[i + 1..], ft, Plain), |ps|);
    assert ShowPairs(ps[i..], ft, Plain) == (k + (":" + x)) + more;
    assert t + ((k + (":" + x)) + more) == t + k + ":" + x + more;
    assert t + ("," + ((k + (":" + x)) + more)) == t + "," + k + ":" + x + more;
  }

  lemma ShowArray(es: seq<Val>, ft: FloatText, t: string, v: Val)
    requires v == ArrV(es)
    ensures t + "[" + ShowItems(es, ft, Plain) + "]" == t + Show(v, ft, Plain)
  {
    hide ShowItems;
    var x := ShowItems(es, ft, Plain);
    assert t + "[" + x + "]" == t + ("[" + (x + "]"));
  }

  lemma ShowObject(ps: seq<Pair>, ft: FloatText, t: string, v: Val)
    requires (v.MapV? && v.pairs == ps) || (v.StructV? && v.fields == ps)
    ensures t + "{" + ShowPairs(ps, ft, Plain) + "}" == t + Show(v, ft, Plain)
  {
    hide ShowPairs;
    var x := ShowPairs(ps, ft, Plain);
    assert t + "{" + x + "}" == t + ("{" + (x + "}"));
  }

  lemma ShowResult(v: Val, ft: FloatText, t: string)
    requires v.ResV?
    ensures t + "{" + (if v.ok then "\"ok\":" else "\"err\":") + Show(v.val, ft, Plain) + "}" == t + Show(v, ft, Plain)
  {
    hide Quote;
    ResultKey();
    var q, x := Quote(if v.ok then "ok" else "err", Plain), Show(v.val, ft, Plain);
    Assoc(q, ":", x + "}");
    FourParts(t, "{", q + ":", x, "}");
    assert Show(v, ft, Plain) == "{" + (q + (":" + (x + "}")));
  }

  lemma FourParts(t: string, a: string, b: string, c: string, d: string)
    ensures t + a + b + c + d == t + (a + (b + (c + d)))
  {
  }

  lemma ResultKey()
    ensures Quote("ok", Plain) + ":" == "\"ok\":" && Quote("err", Plain) + ":" == "\"err\":"
  {
    QuotePlain("ok");
    QuotePlain("err");
  }

  predicate PlainChar(c: char) { c >= 0x20 as char && c != '"' && c != '\\' }

  predicate PlainText(s: string) { forall i :: 0 <= i < |s| ==> PlainChar(s[i]) }

  /** Text without quotes, backslashes and control characters is written as is. */
  lemma {:induction false} QuotePlain(s: string)
    requires PlainText(s)
    ensures Body(s) == s
  {
    if s != "" {
      QuotePlain(s[1..]);
      assert [s[0]] + s[1..] == s;
    }
  }

  lemma QuoteFn()
    ensures Quote("<fn>", Plain) == "\"<fn>\""
  {
    QuotePlain("<fn>");
  }

  /** json_stringify */
  method JsonStringify(v: Val, ft: FloatText) returns (s: string)
    ensures s == Show(v, ft, Plain)
  {
    hide Show;
    var jb := new JsonBuf();
    jb.Stringify(v, ft);
    assert "" + Show(v, ft, Plain) == Show(v, ft, Plain);
    s := jb.buf[..jb.len];
  }
}
