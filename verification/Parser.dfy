/** The parser as the repository writes it (src/parser.c): a current and a
    previous token moved along by mutually recursive methods. */
module Parsers {
  import opened Ast
  import opened Tokens
  import opened Pratt
  import Json

  datatype Failure = Failure(fault: Fault, at: nat)

  class Parser {
    const toks: seq<Token>      // what the lexer delivers
    const ft: Json.FloatText
    var pos: nat                // the place of the current token
    var current: Token
    var previous: Token
    var error: Option<Failure>

    ghost predicate Valid()
      reads this
    {
      pos <= |toks| && current == Cur(toks, pos)
    }

    constructor (toks: seq<Token>, ft: Json.FloatText)
      ensures Valid() && this.toks == toks && this.ft == ft && pos == 0 && error.None?
    {
      this.toks := toks;
      this.ft := ft;
      pos := 0;
      current := Cur(toks, 0);
      previous := Cur(toks, 0);
      error := None;
    }

    /** The parser has done what r says; an error leaves the tree open. */
    ghost predicate Did<T>(r: Parse<T>, v: T)
      reads this
    {
      Valid() &&
      match r
      case Got(x, p) => error.None? && pos == p && v == x
      case Bad(f, at) => error == Some(Failure(f, at))
    }

    method Advance()
      requires Valid()
      modifies this`pos, this`current, this`previous
      ensures Valid() && previous == old(current)
      ensures pos == if old(pos) < |toks| then old(pos) + 1 else old(pos)
    {
      previous := current;
      if pos < |toks| { pos := pos + 1; }
      current := Cur(toks, pos);
    }

    method MatchKind(k: Kind) returns (ok: bool)
      requires Valid() && k != Eof
      modifies this`pos, this`current, this`previous
      ensures Valid() && ok == (Cur(toks, old(pos)).kind == k)
      ensures if ok then pos == old(pos) + 1 && previous == toks[old(pos)]
              else pos == old(pos) && previous == old(previous)
    {
      ok := current.kind == k;
      if ok { Advance(); }
    }

    /** parser_expect: the first error stays. */
    method Expect(k: Kind)
      requires Valid() && k != Eof
      modifies this
      ensures Valid()
      ensures if Cur(toks, old(pos)).kind == k
              then pos == old(pos) + 1 && previous == toks[old(pos)] && error == old(error)
              else error == (if old(error).Some? then old(error) else Some(Failure(Expected(k), old(pos))))
    {
      if current.kind == k {
        Advance();
      } else if error.None? {
        error := Some(Failure(Expected(k), pos));
      }
    }

    method SkipNewlines()
      requires Valid()
      modifies this`pos, this`current, this`previous
      ensures Valid() && pos == SkipLines(toks, old(pos))
    {
      while current.kind == Newline
        invariant Valid() && SkipLines(toks, pos) == SkipLines(toks, old(pos))
        decreases |toks| - pos
      {
        Advance();
      }
    }

    method ParseExpression(low: nat) returns (left: Expr)
      requires Valid() && error.None?
      modifies this
      ensures Did(ParseExpr(toks, old(pos), low, ft), left)
      decreases |toks| - pos, 2
    {
      hide ParsePrefix, ParseInfix, ParseList, ParseWrap, ParseElems;
      left := Prefix();
      if error.Some? { return; }
      while Pratt.Prec(current.kind) > low
        invariant Valid() && error.None? && old(pos) < pos
        invariant ParseExpr(toks, old(pos), low, ft) == Climb(toks, pos, low, left, ft)
        decreases |toks| - pos
      {
        Advance();
        left := Infix(left);
        if error.Some? { return; }
      }
    }

    method Prefix() returns (v: Expr)
      requires Valid() && error.None?
      modifies this
      ensures Did(ParsePrefix(toks, old(pos), ft), v)
      decreases |toks| - pos, 1
    {
      hide ParseExpr, ParsePrefix, Climb, ParseInfix, ParseList, ParseWrap, ParseElems, LeafOf;
      v := Ident("");
      PlainPrefix(toks, pos, ft);
      var start := pos;
      Advance();
      var tok := previous;
      match tok.kind {
        case IntTok | FloatTok | StrTok | True | False => v := LeafOf(tok, ft);
        case Name => v := NameTail(tok);
        case LParen => v := Grouped();
        case Not => v := UnaryTail(UnOp.Not);
        case Minus => v := UnaryTail(Neg);
        case Ok => v := WrapTail(true);
        case Err => v := WrapTail(false);
        case LBracket => v := ElemsTail();
        case Fn | Match | LBrace => error := Some(Failure(Foreign, start));
        case _ => error := Some(Failure(Unexpected, start));
      }
    }

    /** The lookahead on a copy of the lexer, behind a name and before a brace. */
    method ProbeFields() returns (fields: bool)
      requires Valid() && pos < |toks| && current.kind == LBrace
      ensures fields == OpensFields(toks, pos)
    {
      var p := pos + 1;
      while Cur(toks, p).kind == Newline
        invariant p <= |toks| && SkipLines(toks, p) == SkipLines(toks, pos + 1)
        decreases |toks| - p
      {
        p := p + 1;
      }
      var t1, t2 := Cur(toks, p), Cur(toks, p + 1);
      fields := (t1.kind == Name && t2.kind == Colon) || t1.kind == RBrace;
    }

    /** A name, unless it starts an interpolated string or a struct literal. */
    method NameTail(tok: Token) returns (v: Expr)
      requires Valid() && error.None? && 0 < pos && toks[pos - 1] == tok && tok.kind == Name
      modifies this`error
      ensures Did(ParsePrefix(toks, old(pos) - 1, ft), v)
    {
      hide ParseExpr, Climb, ParseInfix, ParseList, ParseWrap, ParseElems, OpensFields, LeafOf;
      v := LeafOf(tok, ft);
      var fields := false;
      if current.kind == LBrace { fields := ProbeFields(); }
      if (tok.text == "f" && current.kind == StrTok) || fields { error := Some(Failure(Foreign, pos - 1)); }
    }

    method Grouped() returns (v: Expr)
      requires Valid() && error.None? && 0 < pos && toks[pos - 1].kind == LParen
      modifies this
      ensures Did(ParsePrefix(toks, old(pos) - 1, ft), v)
      decreases |toks| - pos, 3
    {
      hide ParseExpr, Climb, ParseInfix, ParseList, ParseWrap, ParseElems;
      v := ParseExpression(PREC_NONE);
      Expect(RParen);
    }

    method UnaryTail(op: UnOp) returns (v: Expr)
      requires Valid() && error.None? && 0 < pos && toks[pos - 1].kind == (if op == Neg then Minus else Kind.Not)
      modifies this
      ensures Did(ParsePrefix(toks, old(pos) - 1, ft), v)
      decreases |toks| - pos, 3
    {
      hide ParseExpr, Climb, ParseInfix, ParseList, ParseWrap, ParseElems;
      var e := ParseExpression(PREC_UNARY);
      v := Unary(op, e);
    }

    /** parse_result_wrap */
    method WrapTail(isOk: bool) returns (v: Expr)
      requires Valid() && error.None? && 0 < pos && toks[pos - 1].kind == (if isOk then Ok else Err)
      modifies this
      ensures Did(ParsePrefix(toks, old(pos) - 1, ft), v)
      decreases |toks| - pos, 3
    {
      hide ParseExpr, Climb, ParseInfix, ParseList, LeafOf;
      v := Ident("");
      Expect(LParen);
      if error.Some? { return; }
      var e := ParseExpression(PREC_NONE);
      if error.Some? { return; }
      Expect(RParen);
      v := ResultLit(isOk, e);
    }

    /** The elements of an array literal, behind its bracket. */
    method ElemsTail() returns (v: Expr)
      requires Valid() && error.None? && 0 < pos && toks[pos - 1].kind == LBracket
      modifies this
      ensures Did(ParsePrefix(toks, old(pos) - 1, ft), v)
      decreases |toks| - pos, 6
    {
      hide ParseExpr, Climb, ParseInfix, ParseList, LeafOf;
      v := Ident("");
      SkipNewlines();
      var es: seq<Expr> := [];
      if current.kind != RBracket {
        es := List();
        if error.Some? { return; }
      }
      Expect(RBracket);
      v := ArrayLit(es);
    }

    /** The loop that parse_call and the array literal share: at most 128
        expressions, collected while commas follow. */
    method List() returns (es: seq<Expr>)
      requires Valid() && error.None?
      modifies this
      ensures Did(ParseList(toks, old(pos), 0, ft), es)
      decreases |toks| - pos, 5
    {
      hide ParseExpr, ParsePrefix, Climb, ParseInfix, ParseList, ParseWrap, ParseElems, SkipLines, After;
      es := [];
      var more := true;
      AfterNone(ParseList(toks, pos, 0, ft));
      while more
        invariant Valid() && error.None? && |es| <= MAX_ITEMS && old(pos) <= pos
        invariant more ==> ParseList(toks, old(pos), 0, ft) == After(es, ParseList(toks, pos, |es|, ft))
        invariant !more ==> ParseList(toks, old(pos), 0, ft) == Got(es, pos)
        decreases more, |toks| - pos
      {
        ghost var done, r := es, ParseList(toks, pos, |es|, ft);
        var e: Expr;
        e, more := NextItem(|es|);
        if error.Some? {
          AfterBad(done, r);
          return;
        }
        es := es + [e];
        AfterMore(done, e, if more then ParseList(toks, pos, |es|, ft) else r, pos);
      }
    }

    /** One expression of a list, and whether a comma follows. */
    method NextItem(n: nat) returns (e: Expr, more: bool)
      requires Valid() && error.None?
      modifies this
      ensures Valid() && pos <= |toks|
      ensures error.Some? ==> ParseList(toks, old(pos), n, ft) == Bad(error.value.fault, error.value.at)
      ensures error.None? ==> n < MAX_ITEMS && old(pos) < pos
      ensures error.None? && more ==> ParseList(toks, old(pos), n, ft) == After([e], ParseList(toks, pos, n + 1, ft))
      ensures error.None? && !more ==> ParseList(toks, old(pos), n, ft) == Got([e], pos)
      decreases |toks| - pos, 4
    {
      hide ParseExpr, ParsePrefix, Climb, ParseInfix, ParseList, ParseWrap, ParseElems, SkipLines, After;
      e, more := Ident(""), false;
      ghost var from := pos;
      SkipNewlines();
      if n >= MAX_ITEMS {
        ListStops(toks, from, n, ft);
        error := Some(Failure(TooMany, pos));
        return;
      }
      e := ParseExpression(PREC_NONE);
      if error.Some? {
        ListStops(toks, from, n, ft);
        return;
      }
      ghost var k := pos;
      SkipNewlines();
      ListStep(toks, from, n, ft, e, k, pos);
      more := MatchKind(Comma);
    }

    /** parse_infix: previous is the operator. */
    method Infix(left: Expr) returns (v: Expr)
      requires Valid() && error.None? && 0 < pos && previous == toks[pos - 1] && Pratt.Prec(previous.kind) > PREC_NONE
      modifies this
      ensures Did(ParseInfix(toks, old(pos) - 1, left, ft), v)
      decreases |toks| - pos, 7
    {
      hide ParseExpr, ParsePrefix, Climb, ParseList, ParseWrap, ParseElems;
      v := left;
      var op := previous.kind;
      if op == Question {
        v := Try(left);
        return;
      }
      if op == LParen {
        v := CallTail(left);
        return;
      }
      if op == LBracket {
        var e := ParseExpression(PREC_NONE);
        if error.Some? { return; }
        Expect(RBracket);
        v := Index(left, e);
        return;
      }
      if op == Dot {
        Expect(Name);
        if error.Some? { return; }
        v := Field(left, previous.text);
        return;
      }
      var right := ParseExpression(Pratt.Prec(op));
      v := Binary(BinOf(op), left, right);
    }

    /** parse_call, behind the parenthesis. */
    method CallTail(callee: Expr) returns (v: Expr)
      requires Valid() && error.None? && 0 < pos && toks[pos - 1].kind == LParen
      modifies this
      ensures Did(ParseInfix(toks, old(pos) - 1, callee, ft), v)
      decreases |toks| - pos, 6
    {
      hide ParseExpr, ParsePrefix, Climb, ParseList, ParseWrap, ParseElems;
      v := callee;
      var args: seq<Expr> := [];
      if current.kind != RParen {
        args := List();
        if error.Some? { return; }
      }
      Expect(RParen);
      v := Call(callee, args);
    }
  }

  lemma AfterNone(r: Parse<seq<Expr>>)
    ensures After([], r) == r
  {
    if r.Got? { assert [] + r.value == r.value; }
  }

  lemma AfterBad(done: seq<Expr>, r: Parse<seq<Expr>>)
    requires r.Bad?
    ensures After(done, r) == r
  {
  }

  lemma AfterMore(done: seq<Expr>, e: Expr, r: Parse<seq<Expr>>, p: nat)
    ensures After(done, After([e], r)) == After(done + [e], r)
    ensures After(done, Got([e], p)) == Got(done + [e], p)
  {
    if r.Got? { assert done + ([e] + r.value) == (done + [e]) + r.value; }
  }

  /** What parse_prefix does with a token that starts no longer form. */
  lemma PlainPrefix(toks: seq<Token>, i: nat, ft: Json.FloatText)
    requires i <= |toks|
    ensures var k := Cur(toks, i).kind;
      && (IsLeaf(k) && k != Name ==> ParsePrefix(toks, i, ft) == Got(LeafOf(toks[i], ft), i + 1))
      && (k == Fn || k == Match || k == LBrace ==> ParsePrefix(toks, i, ft) == Bad(Foreign, i))
      && ((!IsLeaf(k) && k != LParen && k != Kind.Not && k != Minus && k != Ok && k != Err && k != LBracket
            && k != Fn && k != Match && k != LBrace)
          ==> ParsePrefix(toks, i, ft) == Bad(Unexpected, i))
  {
    hide ParseExpr, ParseWrap, ParseElems, LeafOf, OpensFields;
  }
}
