/** What the JSON parser computes (src/json.c), as functions of the input and a
    position: the value and the position after it, or the first error. */
module Json {
  import opened Ast
  import opened Values

  const MAX_ARRAY_SIZE: nat := 1024
  const MAX_MAP_SIZE: nat := 256
  const NUMBER_BUFFER: nat := 63

  const INT64_MIN: int := -0x8000_0000_0000_0000
  const INT64_MAX: int := 0x7fff_ffff_ffff_ffff

  datatype Parse<+T> = Got(value: T, pos: nat) | Bad(msg: string, at: nat)

  /** strtod and %g, which the model does not define. */
  datatype FloatText = FloatText(parse: string -> Option<Float>, show: Float -> string)

  // ----- characters -----

  predicate IsWs(c: char) { c == ' ' || c == '\t' || c == '\n' || c == '\r' }

  predicate IsDigit(c: char) { '0' <= c <= '9' }

  function SkipWs(s: string, p: nat): (r: nat)
    requires p <= |s|
    ensures p <= r <= |s|
    ensures r < |s| ==> !IsWs(s[r])
    decreases |s| - p
  {
    if p < |s| && IsWs(s[p]) then SkipWs(s, p + 1) else p
  }

  function SkipDigits(s: string, p: nat): (r: nat)
    requires p <= |s|
    ensures p <= r <= |s|
    ensures forall j :: p <= j < r ==> IsDigit(s[j])
    ensures r < |s| ==> !IsDigit(s[r])
    decreases |s| - p
  {
    if p < |s| && IsDigit(s[p]) then SkipDigits(s, p + 1) else p
  }

  // ----- strings -----

  /** A quote, or a quote behind a backslash. */
  predicate AtString(s: string, p: nat) {
    p < |s| && (s[p] == '"' || (s[p] == '\\' && p + 1 < |s| && s[p + 1] == '"'))
  }

  /** The next backslash that stands before a quote. */
  function FindEscaped(s: string, p: nat): (r: nat)
    requires p <= |s|
    ensures p <= r <= |s|
    ensures r < |s| ==> r + 1 < |s| && s[r] == '\\' && s[r + 1] == '"'
    decreases |s| - p
  {
    if p == |s| || (s[p] == '\\' && p + 1 < |s| && s[p + 1] == '"') then p else FindEscaped(s, p + 1)
  }

  /** The character a one-letter escape stands for. */
  function Unescape(c: char): Option<char> {
    match c
    case '"' => Some('"')
    case '\\' => Some('\\')
    case '/' => Some('/')
    case 'n' => Some('\n')
    case 't' => Some('\t')
    case 'r' => Some('\r')
    case 'b' => Some(8 as char)
    case 'f' => Some(12 as char)
    case _ => None
  }

  /** The counting pass: the closing quote, and how many characters there are.
      After \u it lands on the last hex digit, which it then counts again. */
  function Scan(s: string, p: nat, n: nat): (r: Parse<nat>)
    ensures r.Got? ==> p <= r.pos < |s| && s[r.pos] == '"' && n <= r.value
    decreases if p <= |s| then |s| - p else 0
  {
    if p >= |s| then Bad("unterminated string", p)
    else if s[p] == '"' then Got(n, p)
    else if s[p] != '\\' then Scan(s, p + 1, n + 1)
    else if p + 1 >= |s| then Bad("unterminated string escape", p + 1)
    else if Unescape(s[p + 1]).Some? then Scan(s, p + 2, n + 1)
    else if s[p + 1] == 'u' then Scan(s, p + 5, n + 1)
    else Bad("invalid escape sequence", p + 1)
  }

  /** The filling pass, up to the closing quote at end. */
  function Fill(s: string, p: nat, end: nat): string
    requires end < |s|
    decreases if p <= end then end - p else 0
  {
    if p >= end then ""
    else if s[p] != '\\' then [s[p]] + Fill(s, p + 1, end)
    else if s[p + 1] == 'u' then ['?'] + Fill(s, p + 5, end)
    else
      var c := Unescape(s[p + 1]);
      [if c.Some? then c.value else s[p + 1]] + Fill(s, p + 2, end)
  }

  function ParseString(s: string, p: nat): (r: Parse<string>)
    requires AtString(s, p)
    ensures r.Got? ==> p < r.pos <= |s|
  {
    if s[p] == '\\' then
      var end := FindEscaped(s, p + 2);
      if end == |s| then Bad("unterminated string", end) else Got(s[p + 2..end], end + 2)
    else
      var end := Scan(s, p + 1, 0);
      if end.Bad? then Bad(end.msg, end.at) else Got(Fill(s, p + 1, end.pos), end.pos + 1)
  }

  // ----- numbers -----

  function DigitOf(c: char): nat
    requires IsDigit(c)
  {
    c as int - '0' as int
  }

  function DigitsValue(t: string): nat
    requires forall i :: 0 <= i < |t| ==> IsDigit(t[i])
  {
    if t == "" then 0 else 10 * DigitsValue(t[..|t| - 1]) + DigitOf(t[|t| - 1])
  }

  function Clamp(n: int): int {
    if n < INT64_MIN then INT64_MIN else if n > INT64_MAX then INT64_MAX else n
  }

  /** strtoll on an optional minus and digits; None when there is no digit. */
  function StrToLL(t: string): Option<int>
    requires forall i :: 0 <= i < |t| ==> IsDigit(t[i]) || (i == 0 && t[i] == '-')
  {
    var minus := t != "" && t[0] == '-';
    var ds := if minus then t[1..] else t;
    if ds == "" then None
    else Some(Clamp(if minus then -(DigitsValue(ds) as int) else DigitsValue(ds)))
  }

  /** The end of the optional minus and the digits. */
  function IntEnd(s: string, p: nat): (r: nat)
    requires p < |s| && (s[p] == '-' || IsDigit(s[p]))
    ensures p < r <= |s|
    ensures forall j :: p <= j < r ==> IsDigit(s[j]) || (j == p && s[j] == '-')
    ensures r < |s| ==> !IsDigit(s[r])
  {
    if s[p] == '-' then SkipDigits(s, p + 1) else SkipDigits(s, p)
  }

  function FractionEnd(s: string, p: nat): (r: nat)
    requires p <= |s|
    ensures p <= r <= |s|
  {
    if p < |s| && s[p] == '.' then SkipDigits(s, p + 1) else p
  }

  function ExponentEnd(s: string, p: nat): (r: nat)
    requires p <= |s|
    ensures p <= r <= |s|
  {
    if p < |s| && (s[p] == 'e' || s[p] == 'E') then
      var q := if p + 1 < |s| && (s[p + 1] == '+' || s[p + 1] == '-') then p + 2 else p + 1;
      SkipDigits(s, q)
    else p
  }

  /** At most 63 characters of the number reach the conversion. */
  function Clip(t: string): (r: string)
    ensures |r| <= |t| && forall k :: 0 <= k < |r| ==> r[k] == t[k]
  {
    if |t| > NUMBER_BUFFER then t[..NUMBER_BUFFER] else t
  }

  function ParseNumber(s: string, p: nat, ft: FloatText): (r: Parse<Val>)
    requires p < |s| && (s[p] == '-' || IsDigit(s[p]))
    ensures r.Got? ==> p < r.pos <= |s|
  {
    var i := IntEnd(s, p);
    var f := FractionEnd(s, i);
    var e := ExponentEnd(s, f);
    if e == i then
      var t := s[p..i];
      assert forall k :: 0 <= k < |t| ==> t[k] == s[p + k];
      var n := StrToLL(Clip(t));
      if n.Some? then Got(IntV(n.value), i) else Bad("invalid number", i)
    else
      var x := ft.parse(Clip(s[p..e]));
      if x.Some? then Got(FloatV(x.value), e) else Bad("invalid number", e)
  }

  // ----- values -----

  predicate Literal(s: string, p: nat, word: string) {
    p + |word| <= |s| && s[p..p + |word|] == word
  }

  function ParseValue(s: string, p: nat, ft: FloatText): (r: Parse<Val>)
    requires p <= |s|
    ensures r.Got? ==> p < r.pos <= |s|
    decreases |s| - p, 1
  {
    var q := SkipWs(s, p);
    if q == |s| then Bad("unexpected end of input", q)
    else if AtString(s, q) then
      var r := ParseString(s, q);
      if r.Bad? then Bad(r.msg, r.at) else Got(StrV(r.value), r.pos)
    else if s[q] == '{' then ParseObject(s, q, ft)
    else if s[q] == '[' then ParseArray(s, q, ft)
    else if s[q] == '-' || IsDigit(s[q]) then ParseNumber(s, q, ft)
    else if Literal(s, q, "true") then Got(BoolV(true), q + 4)
    else if Literal(s, q, "false") then Got(BoolV(false), q + 5)
    else if Literal(s, q, "null") then Got(NilV, q + 4)
    else Bad("unexpected character", q)
  }

  function ParseArray(s: string, p: nat, ft: FloatText): (r: Parse<Val>)
    requires p < |s|
    ensures r.Got? ==> p < r.pos <= |s|
    decreases |s| - p, 0
  {
    var q := SkipWs(s, p + 1);
    if q < |s| && s[q] == ']' then Got(ArrV([]), q + 1) else
    var r := ParseItems(s, q, 0, ft);
    if r.Bad? then Bad(r.msg, r.at) else Got(ArrV(r.value), r.pos)
  }

  /** Elements from p up to the closing bracket; count of them came before. */
  function ParseItems(s: string, p: nat, count: nat, ft: FloatText): (r: Parse<seq<Val>>)
    requires p <= |s|
    ensures r.Got? ==> p < r.pos <= |s|
    ensures r.Got? ==> r.value != [] && count + |r.value| <= MAX_ARRAY_SIZE
    decreases |s| - p, 2
  {
    if count >= MAX_ARRAY_SIZE then Bad("array too large", p) else
    var v := ParseValue(s, p, ft);
    if v.Bad? then Bad(v.msg, v.at) else
    var q := SkipWs(s, v.pos);
    if q < |s| && s[q] == ',' then
      var rest := ParseItems(s, q + 1, count + 1, ft);
      if rest.Bad? then rest else Got([v.value] + rest.value, rest.pos)
    else if q < |s| && s[q] == ']' then Got([v.value], q + 1)
    else Bad("expected ',' or ']' in array", q)
  }

  function ParseObject(s: string, p: nat, ft: FloatText): (r: Parse<Val>)
    requires p < |s|
    ensures r.Got? ==> p < r.pos <= |s|
    decreases |s| - p, 0
  {
    var q := SkipWs(s, p + 1);
    if q < |s| && s[q] == '}' then Got(MapV([]), q + 1) else
    var r := ParsePairs(s, q, 0, ft);
    if r.Bad? then Bad(r.msg, r.at) else Got(MapV(r.value), r.pos)
  }

  /** A key, a colon and a value. */
  function ParsePair(s: string, p: nat, ft: FloatText): (r: Parse<Pair>)
    requires p <= |s|
    ensures r.Got? ==> p < r.pos <= |s|
    decreases |s| - p, 2
  {
    var q := SkipWs(s, p);
    if !AtString(s, q) then Bad("expected string key in object", q) else
    var key := ParseString(s, q);
    if key.Bad? then Bad(key.msg, key.at) else
    var c := SkipWs(s, key.pos);
    if c == |s| || s[c] != ':' then Bad("expected ':' after key in object", c) else
    var v := ParseValue(s, c + 1, ft);
    if v.Bad? then Bad(v.msg, v.at) else Got(Pair(key.value, v.value), v.pos)
  }

  function ParsePairs(s: string, p: nat, count: nat, ft: FloatText): (r: Parse<seq<Pair>>)
    requires p <= |s|
    ensures r.Got? ==> p < r.pos <= |s|
    ensures r.Got? ==> r.value != [] && count + |r.value| <= MAX_MAP_SIZE
    decreases |s| - p, 3
  {
    if count >= MAX_MAP_SIZE then Bad("object too large", p) else
    var v := ParsePair(s, p, ft);
    if v.Bad? then Bad(v.msg, v.at) else
    var q := SkipWs(s, v.pos);
    if q < |s| && s[q] == ',' then
      var rest := ParsePairs(s, q + 1, count + 1, ft);
      if rest.Bad? then rest else Got([v.value] + rest.value, rest.pos)
    else if q < |s| && s[q] == '}' then Got([v.value], q + 1)
    else Bad("expected ',' or '}' in object", q)
  }

  // ----- the whole input -----

  /** %d and %lld */
  function Decimal(n: int): (r: string)
    ensures r != ""
  {
    if n < 0 then "-" + DigitsOf(-n) else DigitsOf(n)
  }

  function DigitsOf(n: nat): (r: string)
    ensures r != ""
    ensures forall i :: 0 <= i < |r| ==> IsDigit(r[i])
  {
    var d := ['0' + (n % 10) as char];
    if n < 10 then d else DigitsOf(n / 10) + d
  }

  /** json_parse: a result value. */
  function ParseText(s: string, ft: FloatText): Val {
    var r := ParseValue(s, 0, ft);
    if r.Bad? then ResV(false, StrV(r.msg + " at position " + Decimal(r.at)))
    else if SkipWs(s, r.pos) < |s| then ResV(false, StrV("unexpected trailing content"))
    else ResV(true, r.value)
  }

  // ----- the two passes over a string agree -----

  /** The filling pass ends on the same closing quote and writes exactly as many
      characters as the counting pass announced. */
  lemma {:induction false} PassesAgree(s: string, p: nat, n: nat)
    requires Scan(s, p, n).Got?
    ensures var r := Scan(s, p, n); |Fill(s, p, r.pos)| == r.value - n
    decreases if p <= |s| then |s| - p else 0
  {
    hide Unescape;
    if s[p] == '"' {
    } else if s[p] != '\\' {
      PassesAgree(s, p + 1, n + 1);
    } else if Unescape(s[p + 1]).Some? {
      UnescapeU();
      PassesAgree(s, p + 2, n + 1);
    } else {
      PassesAgree(s, p + 5, n + 1);
    }
  }

  lemma UnescapeU()
    ensures Unescape('u') == None
  {
  }
}
