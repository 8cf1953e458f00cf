/** From a tree to source text and back through the lexer and the parser. */
module SourceTexts {
  import Ast
  import Json
  import opened Tokens
  import opened Places
  import opened Lexing
  import opened LexLaws
  import Pratt
  import Grammar
  import ExprPrinters

  /** The keywords of expressions. */
  function WordText(k: Kind): string {
    if k == True then "true"
    else if k == False then "false"
    else if k == Ok then "ok"
    else if k == Err then "err"
    else ""
  }

  function Text(t: Token): string {
    if HasText(t.kind) then t.text else if IsWord(t.kind) then WordText(t.kind) else Spelling(t.kind)
  }

  /** The text of the token is one that the lexer reads as its kind. */
  predicate Spells(t: Token) {
    var w := Text(t);
    && w != "" && (!HasText(t.kind) ==> t.text == "") && t.kind != FloatTok
    && (IsWord(t.kind) ==> IsAlpha(w[0]) && (forall i :: 0 <= i < |w| ==> IsAlnum(w[i])) && Keyword(w) == t.kind)
    && (t.kind == IntTok ==> forall i :: 0 <= i < |w| ==> Json.IsDigit(w[i]))
    && (t.kind == StrTok ==> |w| >= 2 && w[0] == '"' && w[|w| - 1] == '"' && Inside(w, 1, |w| - 1))
  }

  predicate AllSpell(ts: seq<Token>) {
    forall i :: 0 <= i < |ts| ==> Spells(ts[i])
  }

  /** Tokens as text, a blank behind each. */
  function Write(ts: seq<Token>): string {
    if ts == [] then "" else Text(ts[0]) + (" " + Write(ts[1..]))
  }

  predicate Within(src: string, spans: seq<Span>) {
    forall i :: 0 <= i < |spans| ==> spans[i].start <= spans[i].end <= |src|
  }

  function TokensOf(src: string, spans: seq<Span>): seq<Token>
    requires Within(src, spans)
  {
    if spans == [] then [] else [TokenOf(src, spans[0])] + TokensOf(src, spans[1..])
  }

  lemma {:induction false} InsideShift(w: string, src: string, p: nat, a: nat, b: nat)
    requires At(src, p, w) && a <= b <= |w| && Inside(w, a, b)
    ensures p + b <= |src| && Inside(src, p + a, p + b)
    decreases b - a
  {
    AtBytes(src, p, w);
    if a < b {
      assert src[p + a] == w[a];
      InsideShift(w, src, p, if w[a] == '\\' then a + 2 else a + 1, b);
    }
  }

  /** The characters of a text in place, one by one. */
  lemma TextAt(src: string, p: nat, w: string)
    requires At(src, p, w)
    ensures p + |w| <= |src| && src[p..p + |w|] == w && forall i :: p <= i < p + |w| ==> src[i] == w[i - p]
  {
    AtBytes(src, p, w);
    forall i | p <= i < p + |w| ensures src[i] == w[i - p] { assert src[p + (i - p)] == w[i - p]; }
  }

  lemma WordIsLongest(src: string, p: nat, t: Token)
    requires Spells(t) && IsWord(t.kind) && At(src, p, Text(t)) && Peek(src, p + |Text(t)|) == ' '
    ensures var s := Span(t.kind, p, p + |Text(t)|); s.start < s.end <= |src| && LongestWord(src, s)
  {
    hide Text, Keyword, At;
    TextAt(src, p, Text(t));
  }

  lemma StringParts(t: Token)
    requires Spells(t) && t.kind == StrTok
    ensures var w := t.text; |w| >= 2 && w[0] == '"' && w[|w| - 1] == '"' && Inside(w, 1, |w| - 1)
  {
    hide Inside;
  }

  lemma StringIsLongest(src: string, p: nat, t: Token)
    requires Spells(t) && t.kind == StrTok && At(src, p, t.text)
    ensures var s := Span(t.kind, p, p + |t.text|); s.start < s.end <= |src| && IsString(src, s)
  {
    hide At, Inside, Spells;
    StringParts(t);
    InsideShift(t.text, src, p, 1, |t.text| - 1);
    AtIndex(src, p, t.text, 0);
    AtIndex(src, p, t.text, |t.text| - 1);
  }

  lemma NumberIsLongest(src: string, p: nat, t: Token)
    requires Spells(t) && t.kind == IntTok && At(src, p, t.text) && Peek(src, p + |t.text|) == ' '
    ensures var s := Span(t.kind, p, p + |t.text|); s.start < s.end <= |src| && LongestNumber(src, s)
  {
    hide At;
    TextAt(src, p, t.text);
  }

  lemma BlankEnds(k: Kind)
    ensures !Extends(k, ' ')
  {
  }

  lemma SymbolSpells(t: Token)
    requires Spells(t) && !HasText(t.kind) && !IsWord(t.kind)
    ensures Spelling(t.kind) != ""
  {
    hide Spelling;
  }

  lemma SymbolIsLongest(src: string, p: nat, t: Token)
    requires Spells(t) && !HasText(t.kind) && !IsWord(t.kind) && At(src, p, Spelling(t.kind))
    requires Peek(src, p + |Spelling(t.kind)|) == ' '
    ensures var s := Span(t.kind, p, p + |Spelling(t.kind)|); s.start < s.end <= |src| && LongestSymbol(src, s)
  {
    hide At, Spelling, Spells, IsWord;
    TextAt(src, p, Spelling(t.kind));
    SymbolSpells(t);
    BlankEnds(t.kind);
  }

  /** A token before a blank is read as written. */
  lemma WrittenIsLongest(src: string, p: nat, t: Token)
    requires Spells(t) && At(src, p, Text(t)) && Peek(src, p + |Text(t)|) == ' '
    ensures var s := Span(t.kind, p, p + |Text(t)|); s.start < s.end <= |src| && Longest(src, s) && TokenOf(src, s) == t
  {
    hide Spelling, Keyword, LongestWord, LongestNumber, LongestSymbol, IsString, Spells, WordText, At, IsWord;
    KindClasses();
    TextAt(src, p, Text(t));
    SpellsSome(t);
    if IsWord(t.kind) {
      WordIsLongest(src, p, t);
    } else if t.kind == StrTok {
      StringIsLongest(src, p, t);
    } else if t.kind == IntTok {
      NumberIsLongest(src, p, t);
    } else {
      SymbolIsLongest(src, p, t);
    }
  }

  lemma SpellsSome(t: Token)
    requires Spells(t)
    ensures Text(t) != "" && t.kind != FloatTok && (!HasText(t.kind) ==> t.text == "")
      && (t.kind == StrTok ==> |t.text| >= 2)
  {
    hide Spelling, Keyword, WordText, Inside;
  }

  /** The blank behind a token, if it is there. */
  predicate BlankBefore(src: string, a: nat, p: nat) {
    a <= p <= |src| && (a == p || (p == a + 1 && src[a] == ' '))
  }

  lemma BlankIsGap(src: string, a: nat, p: nat)
    requires BlankBefore(src, a, p)
    ensures IsGap(src, a, p) && !HasLine(src, a, p)
  {
    assert a < p ==> IsGap(src, a + 1, p);
  }

  predicate LastEnds(ts: seq<Token>, ends: bool) { if ts == [] then ends else EndsLine(ts[|ts| - 1].kind) }

  lemma {:induction false} WrittenIsTiled(src: string, a: nat, p: nat, ends: bool, depth: nat, ts: seq<Token>)
      returns (spans: seq<Span>)
    requires BlankBefore(src, a, p) && src[p..] == Write(ts) && AllSpell(ts)
    ensures Tiled(src, a, ends, depth, spans) && Within(src, spans)
    ensures TokensOf(src, spans) == ts + if LastEnds(ts, ends) then [Mark(Newline)] else []
    decreases |ts|
  {
    hide IsGap, HasLine, Longest, Spells, EndsLine, DepthAfter, Tiled, Text, At, TokenOf, TokensOf, LastEnds, Within;
    BlankIsGap(src, a, p);
    var s := State(a, depth, ends);
    if ts == [] {
      assert |src[p..]| == |src| - p == 0;
      spans := if ends then [Span(Newline, p, p)] else [];
      NoRest(src, s);
      NoTokens(src, ends, p);
    } else {
      var t, w := ts[0], Text(ts[0]);
      var q := WriteParts(src, p, ts);
      WrittenIsLongest(src, p, t);
      var x := Span(t.kind, p, q);
      var more := WrittenIsTiled(src, q, q + 1, EndsLine(t.kind), DepthAfter(depth, t.kind), ts[1..]);
      spans := [x] + more;
      OneMore(src, s, p, x, more, ts);
    }
  }

  lemma NoTokens(src: string, ends: bool, p: nat)
    requires p == |src|
    ensures var spans := if ends then [Span(Newline, p, p)] else [];
      Within(src, spans) && TokensOf(src, spans) == [] + if LastEnds([], ends) then [Mark(Newline)] else []
  {
    if ends { assert [Span(Newline, p, p)][1..] == []; }
  }

  lemma WriteParts(src: string, p: nat, ts: seq<Token>) returns (q: nat)
    requires p <= |src| && src[p..] == Write(ts) && ts != []
    ensures q == p + |Text(ts[0])| < |src| && At(src, p, Text(ts[0])) && src[q] == ' ' && src[q + 1..] == Write(ts[1..])
  {
    hide Text;
    var w, rest := Text(ts[0]), Write(ts[1..]);
    q := p + |w|;
    var all := src[p..];
    assert all == w + (" " + rest);
    assert src[p..q] == all[..|w|] == w;
    assert src[q] == all[|w|] == ' ';
    assert src[q + 1..] == all[|w| + 1..] == rest;
  }

  lemma NoRest(src: string, s: State)
    requires s.pos <= |src| && IsGap(src, s.pos, |src|)
    ensures Tiled(src, s.pos, s.insert, s.depth, if s.insert then [Span(Newline, |src|, |src|)] else [])
  {
    hide IsGap;
    MakeTiled(src, s, |src|, s.insert, [], if s.insert then [Span(Newline, |src|, |src|)] else []);
  }

  lemma OneMore(src: string, s: State, p: nat, x: Span, more: seq<Span>, ts: seq<Token>)
    requires s.pos <= p < |src| && IsGap(src, s.pos, p) && !HasLine(src, s.pos, p)
    requires x.start == p < x.end <= |src| && Longest(src, x) && ts != [] && TokenOf(src, x) == ts[0]
    requires Tiled(src, x.end, EndsLine(x.kind), DepthAfter(s.depth, x.kind), more)
    requires Within(src, more)
    requires TokensOf(src, more) == ts[1..] + if LastEnds(ts[1..], EndsLine(x.kind)) then [Mark(Newline)] else []
    ensures Tiled(src, s.pos, s.insert, s.depth, [x] + more)
    ensures Within(src, [x] + more)
    ensures TokensOf(src, [x] + more) == ts + if LastEnds(ts, s.insert) then [Mark(Newline)] else []
  {
    hide IsGap, HasLine, EndsLine, DepthAfter, Tiled, Longest, TokenOf, TokensOf, LastEnds;
    assert ([x] + more)[1..] == more;
    LongestIsScanned(src, x);
    assert [] + ([x] + more) == [x] + more;
    NotAtEnd(src, s, p);
    MakeTiled(src, s, p, false, [x] + more, [x] + more);
    MoreTokens(src, x, more, ts, if LastEnds(ts[1..], EndsLine(x.kind)) then [Mark(Newline)] else []);
    SameEnd(src, x, ts, s.insert);
  }

  lemma NotAtEnd(src: string, s: State, p: nat)
    requires s.pos <= p < |src| && !HasLine(src, s.pos, p)
    ensures !Breaks(src, s, p)
  {
    hide HasLine;
  }

  lemma SameEnd(src: string, x: Span, ts: seq<Token>, ends: bool)
    requires x.start <= x.end <= |src| && ts != [] && TokenOf(src, x) == ts[0]
    ensures LastEnds(ts[1..], EndsLine(x.kind)) == LastEnds(ts, ends)
  {
    hide EndsLine;
  }

  lemma MoreTokens(src: string, x: Span, more: seq<Span>, ts: seq<Token>, last: seq<Token>)
    requires x.start <= x.end <= |src| && Within(src, more) && ts != [] && TokenOf(src, x) == ts[0]
    requires TokensOf(src, more) == ts[1..] + last
    ensures Within(src, [x] + more) && TokensOf(src, [x] + more) == ts + last
  {
    hide TokenOf;
    assert ([x] + more)[1..] == more;
    assert ts == [ts[0]] + ts[1..];
  }

  // ----- trees -----

  /** Names and strings as a source can hold them. */
  predicate Legible(e: Ast.Expr)
    requires ExprPrinters.Writable(e)
    decreases e
  {
    match e
    case IntLit(_) => true
    case StrLit(raw) => Spells(Token(StrTok, raw))
    case BoolLit(_) => true
    case Ident(x) => Spells(Token(Name, x))
    case Unary(_, a) => Legible(a)
    case Binary(_, l, r) => Legible(l) && Legible(r)
    case Field(o, f) => Legible(o) && Spells(Token(Name, f))
    case Call(f, args) => Legible(f) && AllLegible(args)
    case ArrayLit(es) => AllLegible(es)
    case Index(a, i) => Legible(a) && Legible(i)
    case ResultLit(_, x) => Legible(x)
    case Try(x) => Legible(x)
  }

  predicate AllLegible(es: seq<Ast.Expr>)
    requires ExprPrinters.AllWritable(es)
    decreases es
  {
    es != [] ==> Legible(es[0]) && AllLegible(es[1..])
  }

  lemma MarkSpells(k: Kind)
    requires !HasText(k) && k != FloatTok
      && (k == True || k == False || k == Ok || k == Err || (Spelling(k) != "" && !IsWord(k)))
    ensures Spells(Mark(k)) && AllSpell([Mark(k)])
  {
  }

  lemma DigitsSpell(n: nat)
    ensures AllSpell([Token(IntTok, Json.DigitsOf(n))])
  {
    hide Json.DigitsOf;
  }

  lemma JoinSpell(a: seq<Token>, b: seq<Token>)
    requires AllSpell(a) && AllSpell(b)
    ensures AllSpell(a + b)
  {
    hide Spells;
  }

  lemma GroupSpells(o: Kind, body: seq<Token>, c: Kind)
    requires (o == LParen && c == RParen) || (o == LBracket && c == RBracket)
    requires AllSpell(body)
    ensures AllSpell([Mark(o)] + body + [Mark(c)])
  {
    hide Spells, AllSpell;
    MarkSpells(o);
    MarkSpells(c);
    JoinSpell([Mark(o)], body);
    JoinSpell([Mark(o)] + body, [Mark(c)]);
  }

  /** Every token of a legible tree spells. */
  lemma {:induction false} LegibleSpells(e: Ast.Expr)
    requires ExprPrinters.Writable(e) && Legible(e)
    ensures AllSpell(Grammar.Flat(ExprPrinters.Plain(e)))
    decreases e, 1
  {
    hide Spells, AllSpell, ExprPrinters.Operand, Json.DigitsOf;
    match e
    case IntLit(n) => DigitsSpell(n);
    case StrLit(raw) => OneSpells(Token(StrTok, raw));
    case BoolLit(b) => MarkSpells(if b then True else False);
    case Ident(x) => OneSpells(Token(Name, x));
    case Unary(op, a) =>
      OperandSpells(a, Pratt.PREC_UNARY);
      MarkSpells(Grammar.UnKind(op));
      JoinSpell([Mark(Grammar.UnKind(op))], Grammar.Flat(ExprPrinters.Operand(a, Pratt.PREC_UNARY)));
    case ArrayLit(es) => ElemsSpell(e);
    case ResultLit(_, _) => ResultSpells(e);
    case Binary(_, _, _) => InfixSpells(e);
    case Field(_, _) => InfixSpells(e);
    case Call(_, _) => CallSpells(e);
    case Index(_, _) => IndexSpells(e);
    case Try(_) => InfixSpells(e);
  }

  lemma {:induction false} ElemsSpell(e: Ast.Expr)
    requires e.ArrayLit? && ExprPrinters.Writable(e) && Legible(e)
    ensures AllSpell(Grammar.Flat(ExprPrinters.Plain(e)))
    decreases e, 0
  {
    hide Spells, AllSpell, Grammar.FlatItems, ExprPrinters.PlainItems;
    var ts := Grammar.FlatItems(ExprPrinters.PlainItems(e.elems));
    ItemsSpell(e.elems);
    assert Grammar.Lines(0) + ts == ts;
    GroupSpells(LBracket, ts, RBracket);
  }

  lemma {:induction false} ResultSpells(e: Ast.Expr)
    requires e.ResultLit? && ExprPrinters.Writable(e) && Legible(e)
    ensures AllSpell(Grammar.Flat(ExprPrinters.Plain(e)))
    decreases e, 0
  {
    hide Spells, AllSpell;
    var ts := Grammar.Flat(ExprPrinters.Plain(e.inner));
    LegibleSpells(e.inner);
    GroupSpells(LParen, ts, RParen);
    MarkSpells(Grammar.WrapKind(e.isOk));
    JoinSpell([Mark(Grammar.WrapKind(e.isOk))], [Mark(LParen)] + ts + [Mark(RParen)]);
  }

  lemma {:induction false} CallSpells(e: Ast.Expr)
    requires e.Call? && ExprPrinters.Writable(e) && Legible(e)
    ensures AllSpell(Grammar.Flat(ExprPrinters.Plain(e)))
    decreases e, 0
  {
    hide Spells, AllSpell, ExprPrinters.Operand, Grammar.FlatItems, ExprPrinters.PlainItems;
    var ts := Grammar.FlatItems(ExprPrinters.PlainItems(e.args));
    OperandSpells(e.callee, Pratt.PREC_CALL);
    ItemsSpell(e.args);
    GroupSpells(LParen, ts, RParen);
    JoinSpell(Grammar.Flat(ExprPrinters.Operand(e.callee, Pratt.PREC_CALL)), [Mark(LParen)] + ts + [Mark(RParen)]);
  }

  lemma {:induction false} IndexSpells(e: Ast.Expr)
    requires e.Index? && ExprPrinters.Writable(e) && Legible(e)
    ensures AllSpell(Grammar.Flat(ExprPrinters.Plain(e)))
    decreases e, 0
  {
    hide Spells, AllSpell, ExprPrinters.Operand;
    var ts := Grammar.Flat(ExprPrinters.Plain(e.idx));
    OperandSpells(e.arr, Pratt.PREC_CALL);
    LegibleSpells(e.idx);
    GroupSpells(LBracket, ts, RBracket);
    JoinSpell(Grammar.Flat(ExprPrinters.Operand(e.arr, Pratt.PREC_CALL)), [Mark(LBracket)] + ts + [Mark(RBracket)]);
  }

  lemma {:induction false} InfixSpells(e: Ast.Expr)
    requires e.Binary? || e.Field? || e.Try?
    requires ExprPrinters.Writable(e) && Legible(e)
    ensures AllSpell(Grammar.Flat(ExprPrinters.Plain(e)))
    decreases e, 0
  {
    hide Spells, AllSpell, ExprPrinters.Operand;
    match e
    case Binary(op, l, r) =>
      var p := Pratt.Prec(Pratt.KindOf(op));
      OperandSpells(l, p);
      OperandSpells(r, p + 1);
      BinarySpells(op, Grammar.Flat(ExprPrinters.Operand(l, p)), Grammar.Flat(ExprPrinters.Operand(r, p + 1)));
    case Field(o, f) =>
      OperandSpells(o, Pratt.PREC_CALL);
      FieldSpells(Grammar.Flat(ExprPrinters.Operand(o, Pratt.PREC_CALL)), f);
    case Try(x) =>
      OperandSpells(x, Pratt.PREC_CALL);
      MarkSpells(Question);
      JoinSpell(Grammar.Flat(ExprPrinters.Operand(x, Pratt.PREC_CALL)), [Mark(Question)]);
  }

  lemma OneSpells(t: Token)
    requires Spells(t)
    ensures AllSpell([t])
  {
    hide Spells;
  }

  lemma BinarySpells(op: Ast.BinOp, l: seq<Token>, r: seq<Token>)
    requires AllSpell(l) && AllSpell(r)
    ensures AllSpell(l + ([Mark(Pratt.KindOf(op))] + r))
  {
    hide AllSpell, Spells;
    MarkSpells(Pratt.KindOf(op));
    JoinSpell([Mark(Pratt.KindOf(op))], r);
    JoinSpell(l, [Mark(Pratt.KindOf(op))] + r);
  }

  lemma FieldSpells(l: seq<Token>, f: string)
    requires AllSpell(l) && Spells(Token(Name, f))
    ensures AllSpell(l + [Mark(Dot), Token(Name, f)])
  {
    hide AllSpell, Spells;
    MarkSpells(Dot);
    OneSpells(Token(Name, f));
    JoinSpell([Mark(Dot)], [Token(Name, f)]);
    assert [Mark(Dot)] + [Token(Name, f)] == [Mark(Dot), Token(Name, f)];
    JoinSpell(l, [Mark(Dot), Token(Name, f)]);
  }

  lemma {:induction false} OperandSpells(e: Ast.Expr, level: nat)
    requires ExprPrinters.Writable(e) && Legible(e)
    ensures AllSpell(Grammar.Flat(ExprPrinters.Operand(e, level)))
    decreases e, 2
  {
    hide AllSpell, ExprPrinters.Plain;
    LegibleSpells(e);
    GroupSpells(LParen, Grammar.Flat(ExprPrinters.Plain(e)), RParen);
  }

  lemma {:induction false} ItemsSpell(es: seq<Ast.Expr>)
    requires ExprPrinters.AllWritable(es) && AllLegible(es)
    ensures AllSpell(Grammar.FlatItems(ExprPrinters.PlainItems(es)))
    decreases es, 0
  {
    hide Grammar.Flat, ExprPrinters.Plain, Spells;
    if es != [] {
      var c, rest := ExprPrinters.Plain(es[0]), ExprPrinters.PlainItems(es[1..]);
      var item := Grammar.Item(0, c, 0);
      var items := [item] + rest;
      assert ExprPrinters.PlainItems(es) == items && items[1..] == rest;
      LegibleSpells(es[0]);
      ItemsSpell(es[1..]);
      Grammar.FlatItemsParts(items);
      assert Grammar.FlatItem(item) == Grammar.Flat(c);
      MarkSpells(Comma);
      JoinSpell([Mark(Comma)], Grammar.FlatItems(rest));
      JoinSpell(Grammar.Flat(c), [Mark(Comma)] + Grammar.FlatItems(rest));
    }
  }

  /** Text, lexer and parser: the text of a tree is read back as the tree. */
  lemma SourceRoundTrip(e: Ast.Expr, ft: Json.FloatText) returns (src: string, spans: seq<Span>)
    requires ExprPrinters.Writable(e) && Legible(e)
    ensures src == Write(Grammar.Flat(ExprPrinters.Plain(e))) && LexAll(src, START) == Ast.Some(spans)
    ensures Within(src, spans)
    ensures var n := |Grammar.Flat(ExprPrinters.Plain(e))|;
      Pratt.ParseExpr(TokensOf(src, spans), 0, Pratt.PREC_NONE, ft) == Pratt.Got(e, n)
  {
    hide *;
    LegibleSpells(e);
    var ts := Grammar.Flat(ExprPrinters.Plain(e));
    src := Write(ts);
    spans := WriteLexes(ts);
    NewlineStops(ts);
    ExprPrinters.ParseUndoesPrint(e, if LastEnds(ts, false) then [Mark(Newline)] else [], ft);
  }

  lemma NewlineStops(ts: seq<Token>)
    ensures var k := Cur(if LastEnds(ts, false) then [Mark(Newline)] else [], 0).kind;
      Pratt.Prec(k) == Pratt.PREC_NONE && k != StrTok && k != LBrace
  {
    hide LastEnds;
  }

  /** Tokens that spell are read back from their text, with a newline token behind
      the last when it may end a statement. */
  lemma WriteLexes(ts: seq<Token>) returns (spans: seq<Span>)
    requires AllSpell(ts)
    ensures LexAll(Write(ts), START) == Ast.Some(spans) && Within(Write(ts), spans)
    ensures TokensOf(Write(ts), spans) == ts + if LastEnds(ts, false) then [Mark(Newline)] else []
  {
    hide AllSpell, Tiled, LexAll, Write, TokensOf, LastEnds, Within;
    var src := Write(ts);
    assert src[0..] == src;
    spans := WrittenIsTiled(src, 0, 0, false, 0, ts);
    LexesExactlyTilings(src, spans);
  }
}
