/** A source is cut into tokens in one way only: the lexer returns a list of spans
    exactly when they tile the source. */
module LexLaws {
  import Ast
  import Json
  import JsonLaws
  import opened Tokens
  import opened Lexing

  // ----- what a tiling is -----

  predicate LineEnd(src: string, a: nat, c: nat) {
    a <= c <= |src| && (c < |src| ==> src[c] == '\n') && forall i :: a <= i < c ==> src[i] != '\n'
  }

  /** Only white space and whole comments between a and b. */
  ghost predicate IsGap(src: string, a: nat, b: nat)
    requires a <= b <= |src|
    decreases b - a
  {
    a == b
    || (IsBlank(src[a]) && IsGap(src, a + 1, b))
    || (AtComment(src, a) && exists c :: a < c <= b && LineEnd(src, a, c) && IsGap(src, c, b))
  }

  predicate AllDigits(src: string, a: nat, b: nat)
    requires b <= |src|
  {
    a < b && forall i :: a <= i < b ==> Json.IsDigit(src[i])
  }

  /** The inside of a string: a backslash takes the next character with it. */
  predicate Inside(src: string, a: nat, b: nat)
    requires a <= b <= |src|
    decreases b - a
  {
    a == b
    || (if src[a] == '\\' then a + 2 <= b && Inside(src, a + 2, b)
        else src[a] != '"' && src[a] != '\n' && Inside(src, a + 1, b))
  }

  /** The symbol goes on with this character, or is a comment with it. */
  predicate Extends(k: Kind, c: char) {
    (k == Minus && c == '>') || ((k == Assign || k == Not || k == Lt || k == Gt) && c == '=')
      || (k == Slash && c == '/')
  }

  /** The span spells a token of its kind, and no longer one starts there. */
  ghost predicate Longest(src: string, t: Span) {
    && t.start < t.end <= |src|
    && if IsWord(t.kind) then LongestWord(src, t)
       else if t.kind == IntTok || t.kind == FloatTok then LongestNumber(src, t)
       else if t.kind == StrTok then IsString(src, t)
       else LongestSymbol(src, t)
  }

  predicate LongestWord(src: string, t: Span)
    requires t.start < t.end <= |src|
  {
    && IsAlpha(src[t.start]) && (forall i :: t.start <= i < t.end ==> IsAlnum(src[i]))
    && !IsAlnum(Peek(src, t.end)) && Keyword(src[t.start..t.end]) == t.kind
  }

  ghost predicate LongestNumber(src: string, t: Span)
    requires t.start < t.end <= |src|
  {
    && !Json.IsDigit(Peek(src, t.end))
    && if t.kind == IntTok then
         AllDigits(src, t.start, t.end) && !(Peek(src, t.end) == '.' && Json.IsDigit(Peek(src, t.end + 1)))
       else
         exists m :: t.start < m < t.end && src[m] == '.' && AllDigits(src, t.start, m) && AllDigits(src, m + 1, t.end)
  }

  predicate IsString(src: string, t: Span)
    requires t.start < t.end <= |src|
  {
    t.start + 2 <= t.end && src[t.start] == '"' && src[t.end - 1] == '"' && Inside(src, t.start + 1, t.end - 1)
  }

  predicate LongestSymbol(src: string, t: Span)
    requires t.start < t.end <= |src|
  {
    src[t.start..t.end] == Spelling(t.kind) && !Extends(t.kind, Peek(src, t.end))
  }

  /** From a on: gaps and tokens in turn, and a newline token behind a token that
      may end a statement, just when a line break outside all brackets or the end
      of the source follows it. */
  ghost predicate Tiled(src: string, a: nat, ends: bool, depth: nat, ts: seq<Span>)
    decreases |ts|
  {
    var nl := ts != [] && ts[0].kind == Newline;
    var rest := if nl then ts[1..] else ts;
    var b := if rest == [] then |src| else rest[0].start;
    && a <= b <= |src| && IsGap(src, a, b)
    && (nl ==> ts[0] == Span(Newline, b, b))
    && (nl <==> ends && (rest == [] || (depth == 0 && HasLine(src, a, b))))
    && (rest != [] ==>
          Longest(src, rest[0])
          && Tiled(src, rest[0].end, EndsLine(rest[0].kind), DepthAfter(depth, rest[0].kind), rest[1..]))
  }

  // ----- gaps -----

  lemma {:induction false} GapIs(src: string, a: nat)
    requires a <= |src|
    ensures IsGap(src, a, SkipGap(src, a))
    decreases |src| - a
  {
    if a < |src| && IsBlank(src[a]) {
      GapIs(src, a + 1);
    } else if AtComment(src, a) {
      var c := SkipLine(src, a);
      assert LineEnd(src, a, c) && a < c;
      GapIs(src, c);
    }
  }

  lemma {:induction false} LineEndIs(src: string, a: nat, c: nat)
    requires LineEnd(src, a, c)
    ensures SkipLine(src, a) == c
    decreases c - a
  {
    if a < c { LineEndIs(src, a + 1, c); }
  }

  /** A gap reaches as far as it can. */
  lemma {:induction false} GapBack(src: string, a: nat, b: nat)
    requires a <= b <= |src| && IsGap(src, a, b) && !IsBlank(Peek(src, b)) && !AtComment(src, b)
    ensures SkipGap(src, a) == b
    decreases b - a
  {
    if a < b {
      if IsBlank(src[a]) {
        GapBack(src, a + 1, b);
      } else {
        var c :| a < c <= b && LineEnd(src, a, c) && IsGap(src, c, b);
        LineEndIs(src, a, c);
        GapBack(src, c, b);
      }
    }
  }

  // ----- single tokens -----

  lemma {:induction false} StringIs(src: string, p: nat)
    requires p <= |src| && ScanString(src, p).Some?
    ensures var e := ScanString(src, p).value; src[e - 1] == '"' && Inside(src, p, e - 1)
    decreases |src| - p
  {
    if src[p] == '"' {
    } else if src[p] == '\\' {
      StringIs(src, p + 2);
    } else {
      StringIs(src, p + 1);
    }
  }

  lemma {:induction false} StringBack(src: string, p: nat, e: nat)
    requires p < e <= |src| && src[e - 1] == '"' && Inside(src, p, e - 1)
    ensures ScanString(src, p) == Ast.Some(e)
    decreases e - p
  {
    if p < e - 1 { StringBack(src, if src[p] == '\\' then p + 2 else p + 1, e); }
  }

  lemma {:induction false} WordBack(src: string, p: nat, q: nat)
    requires p <= q <= |src| && !IsAlnum(Peek(src, q)) && forall i :: p <= i < q ==> IsAlnum(src[i])
    ensures SkipWord(src, p) == q
    decreases q - p
  {
    if p < q { WordBack(src, p + 1, q); }
  }

  lemma SymbolIs(src: string, p: nat)
    requires p < |src| && !AtComment(src, p)
    ensures var k := Symbol(src[p], Peek(src, p + 1));
      k.Some? ==> var t := Span(k.value, p, p + |Spelling(k.value)|);
        !IsWord(k.value) && !HasText(k.value) && t.end <= |src| && LongestSymbol(src, t)
  {
  }

  predicate StartsSymbol(c: char) { !IsAlpha(c) && !Json.IsDigit(c) && c != '"' && !IsBlank(c) }

  lemma SingleBack(k: Kind)
    requires |Spelling(k)| == 1
    ensures var c := Spelling(k)[0]; Single(c) == Ast.Some(k) && StartsSymbol(c) && (c == '/' <==> k == Slash)
    ensures forall d :: !Extends(k, d) ==> Double(Spelling(k)[0], d) == Ast.None
  {
  }

  lemma DoubleBack(k: Kind)
    requires |Spelling(k)| == 2
    ensures var w := Spelling(k); Double(w[0], w[1]) == Ast.Some(k) && StartsSymbol(w[0]) && w[0] != '/'
  {
  }

  lemma SpellingSize(k: Kind)
    ensures |Spelling(k)| <= 2
  {
  }

  lemma SymbolBack(src: string, t: Span)
    requires t.start < t.end <= |src| && LongestSymbol(src, t)
    ensures Symbol(src[t.start], Peek(src, t.start + 1)) == Ast.Some(t.kind) && t.end == t.start + |Spelling(t.kind)|
    ensures StartsSymbol(src[t.start]) && !AtComment(src, t.start)
  {
    hide Spelling, Single, Double, StartsSymbol, Extends;
    var w := src[t.start..t.end];
    SpellingSize(t.kind);
    if |w| == 1 {
      SingleBack(t.kind);
      assert Peek(src, t.start + 1) == Peek(src, t.end);
      SlashExtends(t.kind, Peek(src, t.end));
    } else {
      DoubleBack(t.kind);
      assert w[0] == src[t.start] && w[1] == src[t.start + 1];
    }
  }

  lemma SlashExtends(k: Kind, c: char)
    ensures k == Slash && !Extends(k, c) ==> c != '/'
  {
  }

  lemma KindClasses()
    ensures !IsWord(IntTok) && !IsWord(FloatTok) && !IsWord(StrTok) && !IsWord(Newline) && !IsWord(Eof) && IsWord(Name)
    ensures Spelling(Newline) == "" && Spelling(Eof) == ""
  {
    hide Spelling;
    NoSpelling();
  }

  lemma NoSpelling()
    ensures Spelling(Newline) == "" && Spelling(Eof) == ""
  {
  }

  lemma ScanIsLongest(src: string, p: nat)
    requires p < |src| && !AtComment(src, p) && Scan(src, p).Some?
    ensures Longest(src, Scan(src, p).value)
  {
    hide Spelling, Symbol, Keyword, LongestSymbol, LongestNumber, ScanNumber, ScanString, Inside, IsWord;
    KindClasses();
    var c, t := src[p], Scan(src, p).value;
    if IsAlpha(c) {
    } else if Json.IsDigit(c) {
      NumberIs(src, p);
    } else if c == '"' {
      StringIs(src, p + 1);
    } else {
      SymbolIs(src, p);
    }
  }

  lemma NumberIs(src: string, p: nat)
    requires p < |src| && Json.IsDigit(src[p])
    ensures var t := ScanNumber(src, p);
      t.start == p < t.end <= |src| && (t.kind == IntTok || t.kind == FloatTok) && LongestNumber(src, t)
  {
    var q := Json.SkipDigits(src, p);
    var t := ScanNumber(src, p);
    if t.kind == FloatTok {
      assert p < q < t.end && src[q] == '.' && AllDigits(src, p, q) && AllDigits(src, q + 1, t.end);
    }
  }

  lemma NumberBack(src: string, t: Span)
    requires t.start < t.end <= |src| && (t.kind == IntTok || t.kind == FloatTok) && LongestNumber(src, t)
    ensures ScanNumber(src, t.start) == t && Json.IsDigit(src[t.start])
  {
    if t.kind == IntTok {
      JsonLaws.SkipAll(src, t.start, t.end);
    } else {
      var m :| t.start < m < t.end && src[m] == '.' && AllDigits(src, t.start, m) && AllDigits(src, m + 1, t.end);
      JsonLaws.SkipAll(src, t.start, m);
      JsonLaws.SkipAll(src, m + 1, t.end);
    }
  }

  lemma LongestIsScanned(src: string, t: Span)
    requires Longest(src, t)
    ensures Scan(src, t.start) == Ast.Some(t) && !IsBlank(src[t.start]) && !AtComment(src, t.start)
    ensures t.kind != Newline && t.kind != Eof
  {
    hide Spelling, Symbol, Keyword, LongestSymbol, LongestNumber, ScanNumber, ScanString, Inside, IsWord;
    KindClasses();
    if IsWord(t.kind) {
      WordBack(src, t.start + 1, t.end);
    } else if t.kind == IntTok || t.kind == FloatTok {
      NumberBack(src, t);
    } else if t.kind == StrTok {
      StringBack(src, t.start + 1, t.end);
    } else {
      SymbolBack(src, t);
    }
  }

  // ----- the whole source -----

  function Cons(t: Span, r: Ast.Option<seq<Span>>): Ast.Option<seq<Span>> {
    if r.None? then r else Ast.Some([t] + r.value)
  }

  /** What LexAll does behind the gap, whether or not a newline token stands there. */
  function Behind(src: string, q: nat, depth: nat): Ast.Option<seq<Span>>
    requires q <= |src|
  {
    if q == |src| then Ast.Some([])
    else
      var t := Scan(src, q);
      if t.None? then Ast.None
      else Cons(t.value, LexAll(src, State(t.value.end, DepthAfter(depth, t.value.kind), EndsLine(t.value.kind))))
  }

  predicate Breaks(src: string, s: State, q: nat)
    requires q <= |src|
  {
    s.insert && ((HasLine(src, s.pos, q) && s.depth == 0) || q == |src|)
  }

  /** One gap and the token behind it take one or two calls of the lexer. */
  lemma Turn(src: string, s: State, q: nat)
    requires s.pos <= |src| && q == SkipGap(src, s.pos)
    ensures LexAll(src, s)
      == if Breaks(src, s, q) then Cons(Span(Newline, q, q), Behind(src, q, s.depth)) else Behind(src, q, s.depth)
  {
    hide Scan, SkipGap;
    if Breaks(src, s, q) {
      SkipAgain(src, s.pos);
      var s' := State(q, s.depth, false);
      assert Next(src, s) == Ast.Some((Span(Newline, q, q), s'));
    }
  }

  lemma SkipAgain(src: string, p: nat)
    requires p <= |src|
    ensures SkipGap(src, SkipGap(src, p)) == SkipGap(src, p)
  {
  }

  lemma MakeTiled(src: string, s: State, b: nat, nl: bool, rest: seq<Span>, ts: seq<Span>)
    requires s.pos <= b <= |src| && IsGap(src, s.pos, b) && nl == Breaks(src, s, b)
    requires ts == (if nl then [Span(Newline, b, b)] else []) + rest
    requires if rest == [] then b == |src|
             else
               var t := rest[0];
               && b == t.start < t.end <= |src| && t.kind != Newline && Longest(src, t)
               && Tiled(src, t.end, EndsLine(t.kind), DepthAfter(s.depth, t.kind), rest[1..])
    ensures Tiled(src, s.pos, s.insert, s.depth, ts)
  {
    hide IsGap, Longest, HasLine, DepthAfter, EndsLine;
    if nl {
      assert ts[0] == Span(Newline, b, b) && ts[1..] == rest;
    } else {
      assert ts == rest;
    }
  }

  lemma TiledParts(src: string, s: State, ts: seq<Span>) returns (b: nat, nl: bool, rest: seq<Span>)
    requires Tiled(src, s.pos, s.insert, s.depth, ts)
    ensures s.pos <= b <= |src| && IsGap(src, s.pos, b) && nl == Breaks(src, s, b) && |rest| <= |ts|
    ensures ts == (if nl then [Span(Newline, b, b)] else []) + rest
    ensures if rest == [] then b == |src|
            else
              var t := rest[0];
              && b == t.start < t.end <= |src| && Longest(src, t)
              && Tiled(src, t.end, EndsLine(t.kind), DepthAfter(s.depth, t.kind), rest[1..])
  {
    hide IsGap, HasLine, DepthAfter, EndsLine, LongestWord, LongestNumber, IsString, LongestSymbol;
    nl := ts != [] && ts[0].kind == Newline;
    rest := if nl then ts[1..] else ts;
    b := if rest == [] then |src| else rest[0].start;
  }

  lemma {:induction false} LexedIsTiled(src: string, s: State, ts: seq<Span>)
    requires s.pos <= |src| && LexAll(src, s) == Ast.Some(ts)
    ensures Tiled(src, s.pos, s.insert, s.depth, ts)
    decreases |ts|
  {
    hide SkipGap, IsGap, LexAll, Longest, Breaks, Tiled, DepthAfter, EndsLine, Scan;
    var q := SkipGap(src, s.pos);
    Turn(src, s, q);
    GapIs(src, s.pos);
    var nl := Breaks(src, s, q);
    if q == |src| {
      MakeTiled(src, s, q, nl, [], ts);
    } else {
      var t := Scan(src, q).value;
      var s' := State(t.end, DepthAfter(s.depth, t.kind), EndsLine(t.kind));
      var more := LexAll(src, s').value;
      ScanIsLongest(src, q);
      assert ts == (if nl then [Span(Newline, q, q)] else []) + ([t] + more);
      LexedIsTiled(src, s', more);
      assert ([t] + more)[1..] == more;
      MakeTiled(src, s, q, nl, [t] + more, ts);
    }
  }

  lemma {:induction false} TiledIsLexed(src: string, s: State, ts: seq<Span>)
    requires Tiled(src, s.pos, s.insert, s.depth, ts)
    ensures s.pos <= |src| && LexAll(src, s) == Ast.Some(ts)
    decreases |ts|
  {
    hide SkipGap, IsGap, LexAll, Longest, Breaks, Tiled, DepthAfter, EndsLine, Scan;
    var b, nl, rest := TiledParts(src, s, ts);
    if rest == [] {
      GapToEnd(src, s.pos);
    } else {
      var t := rest[0];
      LongestIsScanned(src, t);
      var s' := State(t.end, DepthAfter(s.depth, t.kind), EndsLine(t.kind));
      TiledIsLexed(src, s', rest[1..]);
      assert rest == [t] + rest[1..];
      GapBack(src, s.pos, b);
    }
    assert [] + rest == rest;
    Turn(src, s, b);
  }

  lemma GapToEnd(src: string, a: nat)
    requires a <= |src| && IsGap(src, a, |src|)
    ensures SkipGap(src, a) == |src|
  {
    hide IsGap, SkipGap;
    GapBack(src, a, |src|);
  }

  /** Lexing the whole source succeeds with a list of tokens exactly when they tile
      the source. */
  lemma LexesExactlyTilings(src: string, ts: seq<Span>)
    ensures LexAll(src, START) == Ast.Some(ts) <==> Tiled(src, 0, false, 0, ts)
  {
    if LexAll(src, START) == Ast.Some(ts) { LexedIsTiled(src, START, ts); }
    if Tiled(src, 0, false, 0, ts) { TiledIsLexed(src, START, ts); }
  }
}
