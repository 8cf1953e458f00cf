/** What the expression parser computes (src/parser.c), as functions of the
    tokens and a position: the tree and the position after it, or the first error. */
module Pratt {
  import opened Ast
  import opened Tokens
  import Json

  const PREC_NONE: nat := 0
  const PREC_OR: nat := 1
  const PREC_AND: nat := 2
  const PREC_EQUALITY: nat := 3
  const PREC_COMPARISON: nat := 4
  const PREC_TERM: nat := 5
  const PREC_FACTOR: nat := 6
  const PREC_UNARY: nat := 7
  const PREC_CALL: nat := 8

  const MAX_ITEMS: nat := 128

  /** Foreign: a form that the model leaves out. */
  datatype Fault = Unexpected | Expected(kind: Kind) | TooMany | Foreign

  datatype Parse<+T> = Got(value: T, pos: nat) | Bad(fault: Fault, at: nat)

  function Prec(k: Kind): (r: nat)
    ensures r <= PREC_CALL && r != PREC_UNARY
  {
    match k
    case Or => PREC_OR
    case And => PREC_AND
    case Eq => PREC_EQUALITY
    case Neq => PREC_EQUALITY
    case Lt => PREC_COMPARISON
    case Gt => PREC_COMPARISON
    case Le => PREC_COMPARISON
    case Ge => PREC_COMPARISON
    case Plus => PREC_TERM
    case Minus => PREC_TERM
    case Star => PREC_FACTOR
    case Slash => PREC_FACTOR
    case Percent => PREC_FACTOR
    case LParen => PREC_CALL
    case Dot => PREC_CALL
    case LBracket => PREC_CALL
    case Question => PREC_CALL
    case _ => PREC_NONE
  }

  function KindOf(op: BinOp): Kind
  {
    match op
    case Add => Plus
    case Sub => Minus
    case Mul => Star
    case Div => Slash
    case Mod => Percent
    case Eq => Kind.Eq
    case Neq => Kind.Neq
    case Lt => Kind.Lt
    case Gt => Kind.Gt
    case Le => Kind.Le
    case Ge => Kind.Ge
    case And => Kind.And
    case Or => Kind.Or
  }

  /** The binary operator of a token with a precedence below that of calls. */
  function BinOf(k: Kind): (op: BinOp)
    requires PREC_NONE < Prec(k) < PREC_CALL
    ensures KindOf(op) == k
  {
    match k
    case Plus => Add
    case Minus => Sub
    case Star => Mul
    case Slash => Div
    case Percent => Mod
    case Eq => BinOp.Eq
    case Neq => BinOp.Neq
    case Lt => BinOp.Lt
    case Gt => BinOp.Gt
    case Le => BinOp.Le
    case Ge => BinOp.Ge
    case And => BinOp.And
    case Or => BinOp.Or
  }

  // ----- leaves -----

  /** strtoll on the first 31 characters, strtod on the first 63. */
  function IntOf(text: string): int {
    var t := if |text| > 31 then text[..31] else text;
    var n := Json.StrToLL(t[..Json.SkipDigits(t, 0)]);
    if n.Some? then n.value else 0
  }

  function FloatOf(text: string, ft: Json.FloatText): Float {
    var f := ft.parse(Json.Clip(text));
    if f.Some? then f.value else 0
  }

  predicate IsLeaf(k: Kind) { HasText(k) || k == True || k == False }

  function LeafOf(t: Token, ft: Json.FloatText): Expr
    requires IsLeaf(t.kind)
  {
    match t.kind
    case IntTok => IntLit(IntOf(t.text))
    case FloatTok => FloatLit(FloatOf(t.text, ft))
    case StrTok => StrLit(t.text)
    case True => BoolLit(true)
    case False => BoolLit(false)
    case Name => Ident(t.text)
  }

  // ----- newlines and lookahead -----

  function SkipLines(toks: seq<Token>, i: nat): (r: nat)
    requires i <= |toks|
    ensures i <= r <= |toks| && Cur(toks, r).kind != Newline
    decreases |toks| - i
  {
    if Cur(toks, i).kind == Newline then SkipLines(toks, i + 1) else i
  }

  /** Nothing but newlines is skipped. */
  lemma {:induction false} SkipsOnlyLines(toks: seq<Token>, i: nat, j: nat)
    requires i <= |toks| && i <= j < SkipLines(toks, i)
    ensures toks[j].kind == Newline
    decreases |toks| - i
  {
    if i < j { SkipsOnlyLines(toks, i + 1, j); }
  }

  /** A brace that opens the fields of a struct literal. */
  predicate OpensFields(toks: seq<Token>, i: nat)
    requires i < |toks| && toks[i].kind == LBrace
  {
    var j := SkipLines(toks, i + 1);
    Cur(toks, j).kind == RBrace || (Cur(toks, j).kind == Name && Cur(toks, j + 1).kind == Colon)
  }

  /** A name that starts an interpolated string or a struct literal. */
  predicate Joined(toks: seq<Token>, i: nat)
    requires i <= |toks|
  {
    && Cur(toks, i).kind == Name
    && (|| (Cur(toks, i).text == "f" && Cur(toks, i + 1).kind == StrTok)
        || (Cur(toks, i + 1).kind == LBrace && OpensFields(toks, i + 1)))
  }

  // ----- expressions -----

  /** parser_expect, with what has been parsed before. */
  function Closed(toks: seq<Token>, p: nat, k: Kind, v: Expr): Parse<Expr> {
    if Cur(toks, p).kind == k then Got(v, p + 1) else Bad(Expected(k), p)
  }

  function ParseExpr(toks: seq<Token>, i: nat, low: nat, ft: Json.FloatText): (r: Parse<Expr>)
    requires i <= |toks|
    ensures r.Got? ==> i < r.pos <= |toks|
    decreases |toks| - i, 2
  {
    match ParsePrefix(toks, i, ft)
    case Bad(f, at) => Bad(f, at)
    case Got(left, j) => Climb(toks, j, low, left, ft)
  }

  function ParsePrefix(toks: seq<Token>, i: nat, ft: Json.FloatText): (r: Parse<Expr>)
    requires i <= |toks|
    ensures r.Got? ==> i < r.pos <= |toks|
    decreases |toks| - i, 1
  {
    var k := Cur(toks, i).kind;
    if IsLeaf(k) then
      if Joined(toks, i) then Bad(Foreign, i) else Got(LeafOf(toks[i], ft), i + 1)
    else if k == LParen then
      match ParseExpr(toks, i + 1, PREC_NONE, ft)
      case Bad(f, at) => Bad(f, at)
      case Got(e, j) => Closed(toks, j, RParen, e)
    else if k == Kind.Not || k == Minus then
      match ParseExpr(toks, i + 1, PREC_UNARY, ft)
      case Bad(f, at) => Bad(f, at)
      case Got(e, j) => Got(Unary(if k == Minus then Neg else UnOp.Not, e), j)
    else if k == Ok || k == Err then
      ParseWrap(toks, i, ft)
    else if k == LBracket then
      ParseElems(toks, i, ft)
    else if k == Fn || k == Match || k == LBrace then
      Bad(Foreign, i)
    else
      Bad(Unexpected, i)
  }

  /** ok(e) or err(e) */
  function ParseWrap(toks: seq<Token>, i: nat, ft: Json.FloatText): (r: Parse<Expr>)
    requires i < |toks|
    ensures r.Got? ==> i < r.pos <= |toks|
    decreases |toks| - i, 0
  {
    if Cur(toks, i + 1).kind != LParen then Bad(Expected(LParen), i + 1)
    else
      match ParseExpr(toks, i + 2, PREC_NONE, ft)
      case Bad(f, at) => Bad(f, at)
      case Got(e, j) => Closed(toks, j, RParen, ResultLit(toks[i].kind == Ok, e))
  }

  function ParseElems(toks: seq<Token>, i: nat, ft: Json.FloatText): (r: Parse<Expr>)
    requires i < |toks|
    ensures r.Got? ==> i < r.pos <= |toks|
    decreases |toks| - i, 0
  {
    var j := SkipLines(toks, i + 1);
    if Cur(toks, j).kind == RBracket then Got(ArrayLit([]), j + 1)
    else
      match ParseList(toks, j, 0, ft)
      case Bad(f, at) => Bad(f, at)
      case Got(es, p) => Closed(toks, p, RBracket, ArrayLit(es))
  }

  /** Expressions between commas, of which n have gone before; newlines may stand
      around each. */
  function ParseList(toks: seq<Token>, i: nat, n: nat, ft: Json.FloatText): (r: Parse<seq<Expr>>)
    requires i <= |toks|
    ensures r.Got? ==> i < r.pos <= |toks| && r.value != []
    decreases |toks| - i, 3
  {
    var j := SkipLines(toks, i);
    if n >= MAX_ITEMS then Bad(TooMany, j)
    else
      match ParseExpr(toks, j, PREC_NONE, ft)
      case Bad(f, at) => Bad(f, at)
      case Got(e, k) =>
        var m := SkipLines(toks, k);
        if Cur(toks, m).kind == Comma then
          After([e], ParseList(toks, m + 1, n + 1, ft))
        else Got([e], m)
  }

  /** A list result with elements in front. */
  function After(done: seq<Expr>, r: Parse<seq<Expr>>): Parse<seq<Expr>> {
    if r.Got? then Got(done + r.value, r.pos) else r
  }

  /** The loop of parse_expression: operators that bind tighter than low. */
  function Climb(toks: seq<Token>, i: nat, low: nat, left: Expr, ft: Json.FloatText): (r: Parse<Expr>)
    requires i <= |toks|
    ensures r.Got? ==> i <= r.pos <= |toks|
    decreases |toks| - i, 1
  {
    if Prec(Cur(toks, i).kind) <= low then Got(left, i)
    else
      match ParseInfix(toks, i, left, ft)
      case Bad(f, at) => Bad(f, at)
      case Got(e, j) => Climb(toks, j, low, e, ft)
  }

  /** One operator or postfix form, whose token stands at i. */
  function ParseInfix(toks: seq<Token>, i: nat, left: Expr, ft: Json.FloatText): (r: Parse<Expr>)
    requires i < |toks| && Prec(toks[i].kind) > PREC_NONE
    ensures r.Got? ==> i < r.pos <= |toks|
    decreases |toks| - i, 0
  {
    var k := toks[i].kind;
    if k == Question then Got(Try(left), i + 1)
    else if k == LParen then
      if Cur(toks, i + 1).kind == RParen then Got(Call(left, []), i + 2)
      else
        match ParseList(toks, i + 1, 0, ft)
        case Bad(f, at) => Bad(f, at)
        case Got(es, p) => Closed(toks, p, RParen, Call(left, es))
    else if k == LBracket then
      match ParseExpr(toks, i + 1, PREC_NONE, ft)
      case Bad(f, at) => Bad(f, at)
      case Got(e, j) => Closed(toks, j, RBracket, Index(left, e))
    else if k == Dot then
      if Cur(toks, i + 1).kind == Name then Got(Field(left, toks[i + 1].text), i + 2)
      else Bad(Expected(Name), i + 1)
    else
      match ParseExpr(toks, i + 1, Prec(k), ft)
      case Bad(f, at) => Bad(f, at)
      case Got(e, j) => Got(Binary(BinOf(k), left, e), j)
  }

  /** One turn of the loop of a list. */
  lemma ListStep(toks: seq<Token>, i: nat, n: nat, ft: Json.FloatText, e: Expr, k: nat, m: nat)
    requires i <= |toks| && n < MAX_ITEMS && ParseExpr(toks, SkipLines(toks, i), PREC_NONE, ft) == Got(e, k)
    requires m == SkipLines(toks, k)
    ensures Cur(toks, m).kind != Comma ==> ParseList(toks, i, n, ft) == Got([e], m)
    ensures m < |toks| && toks[m].kind == Comma ==>
      ParseList(toks, i, n, ft) == After([e], ParseList(toks, m + 1, n + 1, ft))
  {
    hide ParseExpr, ParsePrefix, Climb, ParseInfix, SkipLines, After;
  }

  lemma ListStops(toks: seq<Token>, i: nat, n: nat, ft: Json.FloatText)
    requires i <= |toks|
    ensures n >= MAX_ITEMS ==> ParseList(toks, i, n, ft) == Bad(TooMany, SkipLines(toks, i))
    ensures var r := ParseExpr(toks, SkipLines(toks, i), PREC_NONE, ft);
      n < MAX_ITEMS && r.Bad? ==> ParseList(toks, i, n, ft) == Bad(r.fault, r.at)
  {
    hide ParseExpr, ParsePrefix, Climb, ParseInfix, SkipLines;
  }
}
