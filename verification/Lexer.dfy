/** The lexer as the repository writes it (src/lexer.c): a position, a bracket
    depth and a newline flag moved along by scanning loops. */
module Lexers {
  import Ast
  import Json
  import opened Tokens
  import opened Lexing

  class Lexer {
    const src: string
    var pos: nat
    var depth: nat
    var insert: bool
    var error: bool

    ghost predicate Valid()
      reads this
    {
      pos <= |src|
    }

    ghost function Now(): State
      reads this
    {
      State(pos, depth, insert)
    }

    /** A source is a C string, so no NUL stands in it. */
    constructor (src: string)
      requires '\0' !in src
      ensures Valid() && this.src == src && Now() == START && !error
    {
      this.src := src;
      pos := 0;
      depth := 0;
      insert := false;
      error := false;
    }

    method SkipWhitespaceAndComments() returns (saw: bool)
      requires Valid()
      modifies this`pos
      ensures Valid() && pos == SkipGap(src, old(pos)) && saw == HasLine(src, old(pos), pos)
    {
      saw := false;
      while true
        invariant old(pos) <= pos <= |src| && SkipGap(src, pos) == SkipGap(src, old(pos))
        invariant saw == HasLine(src, old(pos), pos)
        decreases |src| - pos
      {
        ghost var at := pos;
        var c := Peek(src, pos);
        if pos < |src| && (c == ' ' || c == '\t' || c == '\r') {
          pos := pos + 1;
        } else if pos < |src| && c == '\n' {
          saw := true;
          pos := pos + 1;
          assert src[at] == '\n';
        } else if c == '/' && Peek(src, pos + 1) == '/' {
          while pos < |src| && src[pos] != '\n'
            invariant at <= pos <= |src| && SkipLine(src, pos) == SkipLine(src, at)
            invariant saw == HasLine(src, old(pos), pos)
          {
            pos := pos + 1;
          }
          assert AtComment(src, at);
        } else {
          break;
        }
      }
    }

    method ScanNumberTail(start: nat) returns (t: Span)
      requires Valid() && start < |src| && Json.IsDigit(src[start]) && pos == start + 1
      modifies this`pos
      ensures Valid() && t == ScanNumber(src, start) && pos == t.end
    {
      var kind := IntTok;
      while Json.IsDigit(Peek(src, pos))
        invariant start <= pos <= |src| && Json.SkipDigits(src, pos) == Json.SkipDigits(src, start)
        decreases |src| - pos
      {
        pos := pos + 1;
      }
      if Peek(src, pos) == '.' && Json.IsDigit(Peek(src, pos + 1)) {
        kind := FloatTok;
        pos := pos + 1;
        ghost var q := pos;
        while Json.IsDigit(Peek(src, pos))
          invariant q <= pos <= |src| && Json.SkipDigits(src, pos) == Json.SkipDigits(src, q)
          decreases |src| - pos
        {
          pos := pos + 1;
        }
      }
      t := Span(kind, start, pos);
    }

    /** scan_string, behind the opening quote. */
    method ScanStringTail() returns (ok: bool)
      requires Valid() && '\0' !in src
      modifies this`pos
      ensures Valid() && ok == ScanString(src, old(pos)).Some? && (ok ==> pos == ScanString(src, old(pos)).value)
    {
      while Peek(src, pos) != '"' && Peek(src, pos) != '\0'
        invariant Valid() && ScanString(src, pos) == ScanString(src, old(pos))
        decreases |src| - pos
      {
        if Peek(src, pos) == '\n' { return false; }
        if Peek(src, pos) == '\\' {
          pos := pos + 1;
          if Peek(src, pos) == '\0' { return false; }
        }
        pos := pos + 1;
      }
      if Peek(src, pos) == '\0' { return false; }
      pos := pos + 1;
      ok := true;
    }

    method ScanIdentifier(start: nat) returns (t: Span)
      requires Valid() && start < |src| && IsAlpha(src[start]) && pos == start + 1
      modifies this`pos
      ensures Valid() && Scan(src, start) == Ast.Some(t) && pos == t.end && IsWord(t.kind)
    {
      while IsAlnum(Peek(src, pos))
        invariant start < pos <= |src| && SkipWord(src, pos) == SkipWord(src, start + 1)
        decreases |src| - pos
      {
        pos := pos + 1;
      }
      t := Span(Keyword(src[start..pos]), start, pos);
    }

    /** match: takes the character if it is the expected one. */
    method Match(expected: char) returns (ok: bool)
      requires Valid() && expected != '\0'
      modifies this`pos
      ensures Valid() && ok == (Peek(src, old(pos)) == expected) && pos == if ok then old(pos) + 1 else old(pos)
    {
      ok := Peek(src, pos) == expected;
      if ok { pos := pos + 1; }
    }

    /** The operators and delimiters. */
    method ScanSymbol(start: nat) returns (k: Ast.Option<Kind>)
      requires Valid() && start < |src| && pos == start + 1
      modifies this`pos, this`depth
      ensures Valid() && k == Symbol(src[start], Peek(src, start + 1))
      ensures k.Some? ==> pos == start + |Spelling(k.value)| && depth == DepthAfter(old(depth), k.value)
    {
      hide Double, Single, Spelling;
      var c := src[start];
      var two := false;
      if c == '-' {
        two := Match('>');
      } else if c == '=' || c == '!' || c == '<' || c == '>' {
        two := Match('=');
      } else if c == '&' || c == '|' {
        two := Match(c);
      }
      k := if two then Double(c, Peek(src, start + 1)) else Single(c);
      SymbolIs(c, Peek(src, start + 1), two, k);
      if k == Ast.Some(LParen) || k == Ast.Some(LBracket) {
        depth := depth + 1;
      } else if (k == Ast.Some(RParen) || k == Ast.Some(RBracket)) && depth > 0 {
        depth := depth - 1;
      }
    }

    /** agl_lexer_next_token */
    method NextToken() returns (t: Span)
      requires Valid() && '\0' !in src && !error
      modifies this
      ensures Valid() && Next(src, old(Now())) == if error then Ast.None else Ast.Some((t, Now()))
    {
      hide SkipGap, Double, Single, Spelling, Keyword, HasLine;
      var saw := SkipWhitespaceAndComments();
      t := Span(Newline, pos, pos);
      if saw && insert && depth == 0 {
        insert := false;
        return;
      }
      if pos == |src| {
        if insert {
          insert := false;
          return;
        }
        t := Span(Eof, pos, pos);
        return;
      }
      var start := pos;
      t := ScanAt(start);
      if !error { insert := EndsLine(t.kind); }
    }

    method ScanAt(start: nat) returns (t: Span)
      requires Valid() && '\0' !in src && !error && pos == start < |src|
      modifies this
      ensures Valid() && Scan(src, start) == if error then Ast.None else Ast.Some(t)
      ensures !error ==> pos == t.end && depth == DepthAfter(old(depth), t.kind)
    {
      hide Symbol, Spelling, Keyword, ScanNumber, ScanString, SkipWord, DepthAfter;
      t := Span(Eof, start, start);
      var c := src[start];
      pos := pos + 1;
      if IsAlpha(c) {
        t := ScanIdentifier(start);
        SameDepth(depth, t.kind);
        return;
      }
      if Json.IsDigit(c) {
        t := ScanNumberTail(start);
        NumberDepth(src, start, depth);
        return;
      }
      if c == '"' {
        var ok := ScanStringTail();
        if ok { t := Span(StrTok, start, pos); }
        SameDepth(depth, StrTok);
        error, insert := !ok, ok;
        return;
      }
      var k := ScanSymbol(start);
      if k.None? {
        error, insert := true, false;
      } else {
        t := Span(k.value, start, pos);
      }
    }
  }

  lemma SameDepth(depth: nat, k: Kind)
    ensures IsWord(k) || HasText(k) ==> DepthAfter(depth, k) == depth
  {
  }

  lemma NumberDepth(src: string, p: nat, depth: nat)
    requires p <= |src|
    ensures DepthAfter(depth, ScanNumber(src, p).kind) == depth
  {
  }

  /** How many characters a symbol takes. */
  lemma SymbolIs(c: char, d: char, two: bool, k: Ast.Option<Kind>)
    requires two == (|| (c == '-' && d == '>') || ((c == '=' || c == '!' || c == '<' || c == '>') && d == '=')
                     || ((c == '&' || c == '|') && d == c))
    requires k == if two then Double(c, d) else Single(c)
    ensures k == Symbol(c, d) && (k.Some? ==> |Spelling(k.value)| == if two then 2 else 1)
  {
    hide Single, Spelling;
  }
}
