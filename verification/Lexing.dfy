/** What the lexer computes (src/lexer.c), as functions of a source without NUL
    and a position. */
module Lexing {
  import Ast
  import opened Tokens
  import Json

  // ----- characters -----

  /** The terminating NUL stands behind the last character. */
  function Peek(src: string, p: nat): char { if p < |src| then src[p] else '\0' }

  predicate IsAlpha(c: char) { 'a' <= c <= 'z' || 'A' <= c <= 'Z' || c == '_' }

  predicate IsAlnum(c: char) { IsAlpha(c) || Json.IsDigit(c) }

  predicate IsBlank(c: char) { c == ' ' || c == '\t' || c == '\r' || c == '\n' }

  /** The token kinds after which a line break ends a statement. */
  predicate EndsLine(k: Kind) {
    k == Name || k == IntTok || k == FloatTok || k == StrTok || k == True || k == False || k == Break || k == Continue
    || k == Return || k == RParen || k == RBracket || k == RBrace || k == Question
  }

  // ----- gaps -----

  predicate AtComment(src: string, p: nat) { Peek(src, p) == '/' && Peek(src, p + 1) == '/' }

  function SkipLine(src: string, p: nat): (r: nat)
    requires p <= |src|
    ensures p <= r <= |src| && (r < |src| ==> src[r] == '\n') && forall i :: p <= i < r ==> src[i] != '\n'
    decreases |src| - p
  {
    if p < |src| && src[p] != '\n' then SkipLine(src, p + 1) else p
  }

  function SkipGap(src: string, p: nat): (r: nat)
    requires p <= |src|
    ensures p <= r <= |src| && !IsBlank(Peek(src, r)) && !AtComment(src, r)
    decreases |src| - p
  {
    if p < |src| && IsBlank(src[p]) then SkipGap(src, p + 1)
    else if AtComment(src, p) then SkipGap(src, SkipLine(src, p))
    else p
  }

  predicate HasLine(src: string, a: nat, b: nat)
    requires b <= |src|
  {
    exists i :: a <= i < b && src[i] == '\n'
  }

  // ----- tokens -----

  /** A token and the span of the source it stands for; a newline has none. */
  datatype Span = Span(kind: Kind, start: nat, end: nat)

  function Keyword(text: string): (k: Kind)
    ensures IsWord(k)
  {
    if text == "break" then Break
    else if text == "continue" then Continue
    else if text == "else" then Else
    else if text == "err" then Err
    else if text == "false" then False
    else if text == "fn" then Fn
    else if text == "for" then For
    else if text == "if" then If
    else if text == "import" then Import
    else if text == "in" then In
    else if text == "let" then Let
    else if text == "match" then Match
    else if text == "ok" then Ok
    else if text == "return" then Return
    else if text == "struct" then Struct
    else if text == "true" then True
    else if text == "var" then Var
    else if text == "while" then While
    else Name
  }

  predicate IsWord(k: Kind) {
    k == Break || k == Continue || k == Else || k == Err || k == False || k == Fn || k == For || k == If || k == Import
    || k == In || k == Let || k == Match || k == Ok || k == Return || k == Struct || k == True || k == Var || k == While
    || k == Name
  }

  function SkipWord(src: string, p: nat): (r: nat)
    requires p <= |src|
    ensures p <= r <= |src| && !IsAlnum(Peek(src, r)) && forall i :: p <= i < r ==> IsAlnum(src[i])
    decreases |src| - p
  {
    if p < |src| && IsAlnum(src[p]) then SkipWord(src, p + 1) else p
  }

  /** Where a number that starts at p ends, and whether it has a fraction. */
  function ScanNumber(src: string, p: nat): Span
    requires p <= |src|
  {
    var q := Json.SkipDigits(src, p);
    if Peek(src, q) == '.' && Json.IsDigit(Peek(src, q + 1)) then Span(FloatTok, p, Json.SkipDigits(src, q + 1))
    else Span(IntTok, p, q)
  }

  /** Behind the closing quote, from behind the opening one. */
  function ScanString(src: string, p: nat): (r: Ast.Option<nat>)
    requires p <= |src|
    ensures r.Some? ==> p < r.value <= |src|
    decreases |src| - p
  {
    if p == |src| || src[p] == '\n' then Ast.None
    else if src[p] == '"' then Ast.Some(p + 1)
    else if src[p] == '\\' then if p + 1 == |src| then Ast.None else ScanString(src, p + 2)
    else ScanString(src, p + 1)
  }

  /** A kind of two characters. */
  function Double(c: char, d: char): (k: Ast.Option<Kind>)
    ensures k.Some? ==> d != '\0' && Spelling(k.value) == [c, d]
  {
    if c == '-' && d == '>' then Ast.Some(Arrow)
    else if c == '=' && d == '=' then Ast.Some(Eq)
    else if c == '!' && d == '=' then Ast.Some(Neq)
    else if c == '<' && d == '=' then Ast.Some(Le)
    else if c == '>' && d == '=' then Ast.Some(Ge)
    else if c == '&' && d == '&' then Ast.Some(And)
    else if c == '|' && d == '|' then Ast.Some(Or)
    else Ast.None
  }

  function Delimiter(c: char): (k: Ast.Option<Kind>)
    ensures k.Some? ==> Spelling(k.value) == [c]
  {
    if c == '(' then Ast.Some(LParen)
    else if c == ')' then Ast.Some(RParen)
    else if c == '{' then Ast.Some(LBrace)
    else if c == '}' then Ast.Some(RBrace)
    else if c == '[' then Ast.Some(LBracket)
    else if c == ']' then Ast.Some(RBracket)
    else if c == ',' then Ast.Some(Comma)
    else if c == ':' then Ast.Some(Colon)
    else if c == '.' then Ast.Some(Dot)
    else if c == '?' then Ast.Some(Question)
    else Ast.None
  }

  function Operator(c: char): (k: Ast.Option<Kind>)
    ensures k.Some? ==> Spelling(k.value) == [c]
  {
    if c == '+' then Ast.Some(Plus)
    else if c == '*' then Ast.Some(Star)
    else if c == '/' then Ast.Some(Slash)
    else if c == '%' then Ast.Some(Percent)
    else if c == '-' then Ast.Some(Minus)
    else if c == '=' then Ast.Some(Assign)
    else if c == '!' then Ast.Some(Not)
    else if c == '<' then Ast.Some(Lt)
    else if c == '>' then Ast.Some(Gt)
    else Ast.None
  }

  function Single(c: char): (k: Ast.Option<Kind>)
    ensures k.Some? ==> Spelling(k.value) == [c]
  {
    if Delimiter(c).Some? then Delimiter(c) else Operator(c)
  }

  /** A kind by its first and second character; & and | do not stand alone. */
  function Symbol(c: char, d: char): (k: Ast.Option<Kind>)
    ensures k.Some? ==> Spelling(k.value) == [c] || (d != '\0' && Spelling(k.value) == [c, d])
  {
    if Double(c, d).Some? then Double(c, d) else Single(c)
  }

  function Spelling(k: Kind): string {
    match k
    case LParen => "("
    case RParen => ")"
    case LBrace => "{"
    case RBrace => "}"
    case LBracket => "["
    case RBracket => "]"
    case Comma => ","
    case Colon => ":"
    case Dot => "."
    case Question => "?"
    case Plus => "+"
    case Star => "*"
    case Slash => "/"
    case Percent => "%"
    case Arrow => "->"
    case Minus => "-"
    case Eq => "=="
    case Assign => "="
    case Neq => "!="
    case Not => "!"
    case Le => "<="
    case Lt => "<"
    case Ge => ">="
    case Gt => ">"
    case And => "&&"
    case Or => "||"
    case _ => ""
  }

  /** One token at a character that starts no gap; None for an error. */
  function Scan(src: string, p: nat): (r: Ast.Option<Span>)
    requires p < |src|
    ensures r.Some? ==> r.value.start == p < r.value.end <= |src| && r.value.kind != Newline && r.value.kind != Eof
  {
    var c := src[p];
    if IsAlpha(c) then
      var q := SkipWord(src, p + 1);
      Ast.Some(Span(Keyword(src[p..q]), p, q))
    else if Json.IsDigit(c) then
      Ast.Some(ScanNumber(src, p))
    else if c == '"' then
      var q := ScanString(src, p + 1);
      if q.Some? then Ast.Some(Span(StrTok, p, q.value)) else Ast.None
    else
      var k := Symbol(c, Peek(src, p + 1));
      if k.Some? then Ast.Some(Span(k.value, p, p + |Spelling(k.value)|)) else Ast.None
  }

  // ----- the state between tokens -----

  datatype State = State(pos: nat, depth: nat, insert: bool)

  const START: State := State(0, 0, false)

  function DepthAfter(depth: nat, k: Kind): nat {
    if k == LParen || k == LBracket then depth + 1
    else if (k == RParen || k == RBracket) && depth > 0 then depth - 1
    else depth
  }

  /** agl_lexer_next_token: the token and the state behind it, None for an error. */
  function Next(src: string, s: State): (r: Ast.Option<(Span, State)>)
    requires s.pos <= |src|
    ensures r.Some? && r.value.0.kind != Eof ==>
              (s.pos <= r.value.1.pos <= |src| && (s.pos < r.value.1.pos || (s.insert && !r.value.1.insert)))
  {
    var q := SkipGap(src, s.pos);
    if s.insert && ((HasLine(src, s.pos, q) && s.depth == 0) || q == |src|) then
      Ast.Some((Span(Newline, q, q), State(q, s.depth, false)))
    else if q == |src| then
      Ast.Some((Span(Eof, q, q), State(q, s.depth, s.insert)))
    else
      var t := Scan(src, q);
      if t.None? then Ast.None
      else Ast.Some((t.value, State(t.value.end, DepthAfter(s.depth, t.value.kind), EndsLine(t.value.kind))))
  }

  /** All tokens before the end of file. */
  function LexAll(src: string, s: State): Ast.Option<seq<Span>>
    requires s.pos <= |src|
    decreases |src| - s.pos, s.insert
  {
    var n := Next(src, s);
    if n.None? then Ast.None
    else if n.value.0.kind == Eof then Ast.Some([])
    else
      var rest := LexAll(src, n.value.1);
      if rest.None? then Ast.None else Ast.Some([n.value.0] + rest.value)
  }

  /** What the parser sees of a token. */
  function TokenOf(src: string, t: Span): Token
    requires t.start <= t.end <= |src|
  {
    Token(t.kind, if HasText(t.kind) then src[t.start..t.end] else "")
  }
}
