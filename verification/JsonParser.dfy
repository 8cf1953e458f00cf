/** The parser as the repository writes it (src/json.c): a position and an error
    flag moved along by loops, and a string decoder of two passes. */
module JsonParsers {
  import opened Ast
  import opened Values
  import opened Places
  import opened Json

  datatype Failure = Failure(msg: string, at: nat)

  class JsonParser {
    const src: string
    const floats: FloatText
    var pos: nat
    var error: Option<Failure>

    constructor (src: string, floats: FloatText)
      ensures this.src == src && this.floats == floats && pos == 0 && error.None?
    {
      this.src := src;
      this.floats := floats;
      pos := 0;
      error := None;
    }

    /** The parser has done what r says; an error leaves the value open. */
    ghost predicate Did<T>(r: Parse<T>, v: T)
      reads this
    {
      match r
      case Got(x, p) => error.None? && pos == p && v == x
      case Bad(msg, at) => error == Some(Failure(msg, at))
    }

    /** jp_error: the first error stays. */
    method Fail(msg: string)
      modifies this`error
      ensures error == if old(error).Some? then old(error) else Some(Failure(msg, pos))
    {
      if error.None? { error := Some(Failure(msg, pos)); }
    }

    method SkipBlank()
      requires pos <= |src|
      modifies this`pos
      ensures pos == SkipWs(src, old(pos))
    {
      while pos < |src|
        invariant pos <= |src| && SkipWs(src, pos) == SkipWs(src, old(pos))
      {
        if IsWs(src[pos]) { pos := pos + 1; } else { break; }
      }
    }

    /** jp_match */
    method Match(expected: char) returns (ok: bool)
      requires pos <= |src|
      modifies this`pos
      ensures var q := SkipWs(src, old(pos));
        && ok == (q < |src| && src[q] == expected)
        && pos == if ok then q + 1 else q
    {
      SkipBlank();
      ok := pos < |src| && src[pos] == expected;
      if ok { pos := pos + 1; }
    }

    /** jp_match_str */
    method MatchWord(word: string) returns (ok: bool)
      requires pos <= |src|
      modifies this`pos
      ensures ok == Literal(src, old(pos), word) && pos == if ok then old(pos) + |word| else old(pos)
    {
      ok := pos + |word| <= |src| && src[pos..pos + |word|] == word;
      if ok { pos := pos + |word|; }
    }

    // ----- strings -----

    /** A string opened with \": raw up to the next \". */
    method ParseEscaped() returns (v: string)
      requires error.None? && AtString(src, pos) && src[pos] == '\\'
      modifies this
      ensures Did(ParseString(src, old(pos)), v)
    {
      pos := pos + 2;
      var start := pos;
      v := "";
      while pos < |src|
        invariant start <= pos <= |src| && FindEscaped(src, pos) == FindEscaped(src, start)
        invariant error.None?
        decreases |src| - pos
      {
        if src[pos] == '\\' && pos + 1 < |src| && src[pos + 1] == '"' { break; }
        pos := pos + 1;
      }
      if pos >= |src| {
        Fail("unterminated string");
        return;
      }
      v := src[start..pos];
      pos := pos + 2;
    }

    /** The counting pass: moves to the closing quote. */
    method CountChars() returns (n: nat)
      requires error.None?
      modifies this
      ensures Did(Scan(src, old(pos), 0), n)
    {
      n := 0;
      while pos < |src| && src[pos] != '"'
        invariant error.None? && Scan(src, pos, n) == Scan(src, old(pos), 0)
        decreases if pos <= |src| then |src| - pos else 0
      {
        if src[pos] == '\\' {
          pos := pos + 1;
          if pos >= |src| {
            Fail("unterminated string escape");
            return;
          }
          if Unescape(src[pos]).Some? {
            n := n + 1;
          } else if src[pos] == 'u' {
            pos := pos + 4;
            n := n + 1;
            continue;
          } else {
            Fail("invalid escape sequence");
            return;
          }
        } else {
          n := n + 1;
        }
        pos := pos + 1;
      }
      if pos >= |src| { Fail("unterminated string"); }
    }

    /** The filling pass, into a buffer of the counted size. */
    method FillChars(start: nat, n: nat) returns (v: string)
      requires Scan(src, start, 0) == Got(n, pos)
      ensures v == Fill(src, start, pos) && |v| == n
    {
      PassesAgree(src, start, 0);
      var buf := new char[n];
      var wi: nat, ri: nat := 0, start;
      while ri < pos
        invariant wi + |Fill(src, ri, pos)| == n && buf[..wi] + Fill(src, ri, pos) == Fill(src, start, pos)
        decreases if ri <= pos then pos - ri else 0
      {
        ghost var done := buf[..wi];
        var c: char;
        if src[ri] == '\\' {
          ri := ri + 1;
          var e := Unescape(src[ri]);
          if src[ri] == 'u' {
            c := '?';
            ri := ri + 4;
          } else {
            c := if e.Some? then e.value else src[ri];
            ri := ri + 1;
          }
        } else {
          c := src[ri];
          ri := ri + 1;
        }
        buf[wi] := c;
        assert buf[..wi + 1] == done + [c];
        Assoc(done, [c], Fill(src, ri, pos));
        wi := wi + 1;
      }
      assert buf[..wi] == buf[..];
      v := buf[..];
    }

    method ParseStr() returns (v: string)
      requires error.None? && AtString(src, pos)
      modifies this
      ensures Did(ParseString(src, old(pos)), v)
    {
      if src[pos] == '\\' {
        v := ParseEscaped();
        return;
      }
      pos := pos + 1;
      var start := pos;
      v := "";
      var n := CountChars();
      if error.Some? { return; }
      v := FillChars(start, n);
      pos := pos + 1;
    }

    // ----- numbers -----

    method SkipNum()
      requires pos <= |src|
      modifies this`pos
      ensures pos == SkipDigits(src, old(pos))
    {
      while pos < |src| && IsDigit(src[pos])
        invariant pos <= |src| && SkipDigits(src, pos) == SkipDigits(src, old(pos))
      {
        pos := pos + 1;
      }
    }

    method SkipInt()
      requires pos < |src| && (src[pos] == '-' || IsDigit(src[pos]))
      modifies this`pos
      ensures pos == IntEnd(src, old(pos))
    {
      if src[pos] == '-' { pos := pos + 1; }
      SkipNum();
    }

    method SkipFraction() returns (seen: bool)
      requires pos <= |src|
      modifies this`pos
      ensures pos == FractionEnd(src, old(pos)) && (seen <==> pos != old(pos))
    {
      seen := pos < |src| && src[pos] == '.';
      if seen {
        pos := pos + 1;
        SkipNum();
      }
    }

    method SkipExponent() returns (seen: bool)
      requires pos <= |src|
      modifies this`pos
      ensures pos == ExponentEnd(src, old(pos)) && (seen <==> pos != old(pos))
    {
      seen := pos < |src| && (src[pos] == 'e' || src[pos] == 'E');
      if seen {
        pos := pos + 1;
        if pos < |src| && (src[pos] == '+' || src[pos] == '-') { pos := pos + 1; }
        SkipNum();
      }
    }

    method ParseNum() returns (v: Val)
      requires error.None? && pos < |src| && (src[pos] == '-' || IsDigit(src[pos]))
      modifies this
      ensures Did(ParseNumber(src, old(pos), floats), v)
    {
      hide IntEnd, FractionEnd, ExponentEnd, StrToLL, Clip;
      v := NilV;
      var start := pos;
      SkipInt();
      var point := SkipFraction();
      var exponent := SkipExponent();
      var tmp := Clip(src[start..pos]);
      if point || exponent {
        var x := floats.parse(tmp);
        if x.None? { Fail("invalid number"); } else { v := FloatV(x.value); }
      } else {
        ClipIsInt(src, start, pos);
        var n := StrToLL(tmp);
        if n.None? { Fail("invalid number"); } else { v := IntV(n.value); }
      }
    }

    // ----- arrays, objects, values -----

    method ParseArr() returns (v: Val)
      requires error.None? && pos < |src|
      modifies this
      ensures Did(ParseArray(src, old(pos), floats), v)
      decreases |src| - pos, 0
    {
      hide ParseItems;
      v := NilV;
      pos := pos + 1;
      SkipBlank();
      if pos < |src| && src[pos] == ']' {
        pos := pos + 1;
        return ArrV([]);
      }
      var items := ParseElements();
      if error.None? { v := ArrV(items); }
    }

    /** The element loop of an array. */
    method ParseElements() returns (items: seq<Val>)
      requires error.None? && pos <= |src|
      modifies this
      ensures Did(ParseItems(src, old(pos), 0, floats), items)
      decreases |src| - pos, 2
    {
      hide ParseValue;
      items := [];
      ghost var start := pos;
      OntoNone(ParseItems(src, pos, 0, floats));
      while true
        invariant error.None? && start <= pos <= |src|
        invariant Onto(items, ParseItems(src, pos, |items|, floats)) == ParseItems(src, start, 0, floats)
        decreases |src| - pos
      {
        ghost var before := items;
        if |items| >= MAX_ARRAY_SIZE {
          Fail("array too large");
          return;
        }
        var v := ParseVal();
        if error.Some? { return; }
        items := items + [v];
        OntoOne(before, v);
        SkipBlank();
        var comma := Match(',');
        if comma {
          OntoMore(before, v, ParseItems(src, pos, |items|, floats));
          continue;
        }
        var close := Match(']');
        if !close { Fail("expected ',' or ']' in array"); }
        return;
      }
    }

    method ParseVal() returns (v: Val)
      requires error.None? && pos <= |src|
      modifies this
      ensures Did(ParseValue(src, old(pos), floats), v)
      ensures error.None? ==> old(pos) < pos <= |src|
      decreases |src| - pos, 1
    {
      hide ParseString, ParseObject, ParseArray, ParseNumber;
      v := NilV;
      SkipBlank();
      if pos >= |src| {
        Fail("unexpected end of input");
        return;
      }
      if AtString(src, pos) {
        var s := ParseStr();
        if error.None? { v := StrV(s); }
        return;
      }
      var c := src[pos];
      if c == '{' { v := ParseObj(); return; }
      if c == '[' { v := ParseArr(); return; }
      if c == '-' || IsDigit(c) { v := ParseNum(); return; }
      var word := MatchWord("true");
      if word { return BoolV(true); }
      word := MatchWord("false");
      if word { return BoolV(false); }
      word := MatchWord("null");
      if word { return NilV; }
      Fail("unexpected character");
    }

    method ParseObj() returns (v: Val)
      requires error.None? && pos < |src|
      modifies this
      ensures Did(ParseObject(src, old(pos), floats), v)
      decreases |src| - pos, 0
    {
      hide ParsePairs;
      v := NilV;
      pos := pos + 1;
      SkipBlank();
      var close := Match('}');
      if close { return MapV([]); }
      var pairs := ParseMembers();
      if error.None? { v := MapV(pairs); }
    }

    /** A key, a colon and a value. */
    method ParseMember() returns (pair: Pair)
      requires error.None? && pos <= |src|
      modifies this
      ensures Did(ParsePair(src, old(pos), floats), pair)
      ensures error.None? ==> old(pos) < pos <= |src|
      decreases |src| - pos, 2
    {
      hide ParseString, ParseValue;
      pair := Pair("", NilV);
      SkipBlank();
      if !AtString(src, pos) {
        Fail("expected string key in object");
        return;
      }
      var key := ParseStr();
      if error.Some? { return; }
      SkipBlank();
      var colon := Match(':');
      if !colon {
        Fail("expected ':' after key in object");
        return;
      }
      var v := ParseVal();
      if error.Some? { return; }
      pair := Pair(key, v);
    }

    method ParseMembers() returns (pairs: seq<Pair>)
      requires error.None? && pos <= |src|
      modifies this
      ensures Did(ParsePairs(src, old(pos), 0, floats), pairs)
      decreases |src| - pos, 3
    {
      hide ParsePair;
      pairs := [];
      ghost var start := pos;
      OntoNone(ParsePairs(src, pos, 0, floats));
      while true
        invariant error.None? && start <= pos <= |src|
        invariant Onto(pairs, ParsePairs(src, pos, |pairs|, floats)) == ParsePairs(src, start, 0, floats)
        decreases |src| - pos
      {
        ghost var before := pairs;
        if |pairs| >= MAX_MAP_SIZE {
          Fail("object too large");
          return;
        }
        var pair := ParseMember();
        if error.Some? { return; }
        pairs := pairs + [pair];
        OntoOne(before, pair);
        SkipBlank();
        var comma := Match(',');
        if comma {
          OntoMore(before, pair, ParsePairs(src, pos, |pairs|, floats));
          continue;
        }
        var close := Match('}');
        if !close { Fail("expected ',' or '}' in object"); }
        return;
      }
    }
  }

  /** Elements already parsed, before the rest. */
  function Onto<T>(done: seq<T>, r: Parse<seq<T>>): Parse<seq<T>> {
    if r.Got? then Got(done + r.value, r.pos) else r
  }

  lemma OntoNone<T>(r: Parse<seq<T>>)
    ensures Onto([], r) == r
  {
    if r.Got? { assert [] + r.value == r.value; }
  }

  lemma OntoOne<T>(done: seq<T>, x: T)
    ensures forall p: nat {:trigger Got([x], p)} :: Onto(done, Got([x], p)) == Got(done + [x], p)
  {
  }

  lemma OntoMore<T>(done: seq<T>, x: T, r: Parse<seq<T>>)
    ensures Onto(done, if r.Bad? then r else Got([x] + r.value, r.pos)) == Onto(done + [x], r)
  {
    if r.Got? { Assoc(done, [x], r.value); }
  }

  lemma ClipIsInt(s: string, p: nat, q: nat)
    requires p < |s| && (s[p] == '-' || IsDigit(s[p])) && q == IntEnd(s, p)
    ensures var t := Clip(s[p..q]); forall i :: 0 <= i < |t| ==> IsDigit(t[i]) || (i == 0 && t[i] == '-')
  {
    var t := Clip(s[p..q]);
    forall i | 0 <= i < |t| ensures IsDigit(t[i]) || (i == 0 && t[i] == '-') {
      assert t[i] == s[p + i];
    }
  }

  /** json_parse */
  method JsonParse(src: string, floats: FloatText) returns (v: Val)
    ensures v == ParseText(src, floats)
  {
    hide ParseValue, Decimal;
    var p := new JsonParser(src, floats);
    var parsed := p.ParseVal();
    if p.error.Some? {
      return ResV(false, StrV(p.error.value.msg + " at position " + Decimal(p.error.value.at)));
    }
    p.SkipBlank();
    if p.pos < |src| { return ResV(false, StrV("unexpected trailing content")); }
    v := ResV(true, parsed);
  }

}
