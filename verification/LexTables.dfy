/** The words and symbols of the language by their spelling, and what a line break behind
    them means. */
module LexTables {
  import Ast
  import Json
  import JsonLaws
  import opened Tokens
  import opened Lexing
  import LexLaws
  import Precedence
  import Pratt
  import Grammar

  const WORDS: seq<(string, Kind)> := [
    ("break", Break), ("continue", Continue), ("else", Else), ("err", Err), ("false", False), ("fn", Fn),
    ("for", For), ("if", If), ("import", Import), ("in", In), ("let", Let), ("match", Match),
    ("ok", Ok), ("return", Return), ("struct", Struct), ("true", True), ("var", Var), ("while", While)]

  const SYMBOLS: seq<(string, Kind)> := [
    ("(", LParen), (")", RParen), ("{", LBrace), ("}", RBrace), ("[", LBracket), ("]", RBracket),
    (",", Comma), (":", Colon), (".", Dot), ("?", Question), ("->", Arrow),
    ("+", Plus), ("-", Minus), ("*", Star), ("/", Slash), ("%", Percent), ("=", Assign),
    ("==", Eq), ("!=", Neq), ("<", Lt), (">", Gt), ("<=", Le), (">=", Ge), ("&&", And), ("||", Or), ("!", Not)]

  predicate Letter(c: char) { 'a' <= c <= 'z' || 'A' <= c <= 'Z' || c == '_' }

  predicate Digit(c: char) { '0' <= c <= '9' }

  /** A letter or an underscore, and then also digits. */
  predicate IsName(w: string) {
    w != "" && Letter(w[0]) && forall i :: 0 <= i < |w| ==> Letter(w[i]) || Digit(w[i])
  }

  /** The kinds behind which a line break ends the statement. */
  predicate Ender(k: Kind) {
    match k
    case Name | IntTok | FloatTok | StrTok | True | False => true
    case Break | Continue | Return => true
    case RParen | RBracket | RBrace | Question => true
    case _ => false
  }

  lemma EnderIs(k: Kind)
    ensures Ender(k) <==> EndsLine(k)
  {
  }

  /** What the lexer makes of a text that is one token. */
  function Alone(w: string, k: Kind): seq<Span> {
    [Span(k, 0, |w|)] + if Ender(k) then [Span(Newline, |w|, |w|)] else []
  }

  lemma AloneIs(w: string, k: Kind)
    requires w != "" && Scan(w, 0) == Ast.Some(Span(k, 0, |w|)) && SkipGap(w, 0) == 0
    ensures LexAll(w, START) == Ast.Some(Alone(w, k))
  {
    hide Scan, SkipGap, EndsLine, Ender;
    EnderIs(k);
    var s := State(|w|, DepthAfter(0, k), EndsLine(k));
    assert SkipGap(w, |w|) == |w| by { hide *; GapAtEnd(w); }
    AtTheEnd(w, s);
    var rest := if EndsLine(k) then [Span(Newline, |w|, |w|)] else [];
    assert Next(w, START) == Ast.Some((Span(k, 0, |w|), s));
    assert LexAll(w, s) == Ast.Some(rest);
  }

  lemma GapAtEnd(w: string)
    ensures SkipGap(w, |w|) == |w|
  {
  }

  lemma AtTheEnd(w: string, s: State)
    requires s.pos == |w| && SkipGap(w, |w|) == |w|
    ensures LexAll(w, s) == Ast.Some(if s.insert then [Span(Newline, |w|, |w|)] else [])
  {
    hide Scan, SkipGap;
    var t := State(|w|, s.depth, false);
    assert Next(w, t) == Ast.Some((Span(Eof, |w|, |w|), t));
    assert LexAll(w, t) == Ast.Some([]);
    if s.insert {
      assert Next(w, s) == Ast.Some((Span(Newline, |w|, |w|), t));
      assert [Span(Newline, |w|, |w|)] + [] == [Span(Newline, |w|, |w|)];
    }
  }

  // ----- words -----

  lemma {:induction false} NameToEnd(w: string, p: nat)
    requires p <= |w| && forall i :: p <= i < |w| ==> Letter(w[i]) || Digit(w[i])
    ensures SkipWord(w, p) == |w|
    decreases |w| - p
  {
    if p < |w| { NameToEnd(w, p + 1); }
  }

  lemma NoGap(w: string)
    requires w != "" && w[0] != ' ' && w[0] != '\t' && w[0] != '\r' && w[0] != '\n'
    requires w[0] != '/' || |w| == 1 || w[1] != '/'
    ensures SkipGap(w, 0) == 0
  {
  }

  /** A keyword is the token of its name, any other name a name. */
  lemma WordAlone(w: string)
    requires IsName(w)
    ensures Unreserved(w) ==> LexAll(w, START) == Ast.Some(Alone(w, Name))
    ensures forall i :: 0 <= i < |WORDS| && WORDS[i].0 == w ==> LexAll(w, START) == Ast.Some(Alone(w, WORDS[i].1))
  {
    hide LexAll, SkipGap, Alone;
    NameToEnd(w, 1);
    NoGap(w);
    assert w[0..|w|] == w;
    var k := Keyword(w);
    assert Scan(w, 0) == Ast.Some(Span(k, 0, |w|));
    AloneIs(w, k);
    forall i | 0 <= i < |WORDS| && WORDS[i].0 == w ensures WORDS[i].1 == k { KeywordAt(i); }
    if Unreserved(w) { NoKeyword(w); }
  }

  lemma KeywordAt(i: nat)
    requires i < |WORDS|
    ensures Keyword(WORDS[i].0) == WORDS[i].1
  {
    if i < 5 {
      FirstWords(i);
    } else if i < 10 {
      SecondWords(i);
    } else if i < 14 {
      ThirdWords(i);
    } else {
      LastWords(i);
    }
  }

  lemma FirstWords(i: nat)
    requires i < 5
    ensures Keyword(WORDS[i].0) == WORDS[i].1
  {
    assert i == 0 || i == 1 || i == 2 || i == 3 || i == 4;
  }

  lemma SecondWords(i: nat)
    requires 5 <= i < 10
    ensures Keyword(WORDS[i].0) == WORDS[i].1
  {
    assert i == 5 || i == 6 || i == 7 || i == 8 || i == 9;
  }

  lemma ThirdWords(i: nat)
    requires 10 <= i < 14
    ensures Keyword(WORDS[i].0) == WORDS[i].1
  {
    assert i == 10 || i == 11 || i == 12 || i == 13;
  }

  lemma LastWords(i: nat)
    requires 14 <= i < 18
    ensures Keyword(WORDS[i].0) == WORDS[i].1
  {
    assert i == 14 || i == 15 || i == 16 || i == 17;
  }

  /** The text is no keyword. */
  predicate Unreserved(w: string) { forall i :: 0 <= i < |WORDS| ==> WORDS[i].0 != w }

  lemma NoKeyword(w: string)
    requires Unreserved(w)
    ensures Keyword(w) == Name
  {
    assert WORDS[0].0 != w && WORDS[1].0 != w && WORDS[2].0 != w && WORDS[3].0 != w && WORDS[4].0 != w;
    assert WORDS[5].0 != w && WORDS[6].0 != w && WORDS[7].0 != w && WORDS[8].0 != w && WORDS[9].0 != w;
    assert WORDS[10].0 != w && WORDS[11].0 != w && WORDS[12].0 != w && WORDS[13].0 != w && WORDS[14].0 != w;
    assert WORDS[15].0 != w && WORDS[16].0 != w && WORDS[17].0 != w;
  }

  // ----- symbols -----

  lemma SymbolAlone(i: nat)
    requires i < |SYMBOLS|
    ensures LexAll(SYMBOLS[i].0, START) == Ast.Some(Alone(SYMBOLS[i].0, SYMBOLS[i].1))
  {
    hide LexAll, SkipGap, Alone;
    var w := SYMBOLS[i].0;
    SymbolAt(i);
    NoGap(w);
    AloneIs(w, SYMBOLS[i].1);
  }

  lemma SymbolAt(i: nat)
    requires i < |SYMBOLS|
    ensures var w := SYMBOLS[i].0;
      && (|w| == 1 || |w| == 2) && w[0] != ' ' && w[0] != '\t' && w[0] != '\r' && w[0] != '\n'
      && (w[0] != '/' || |w| == 1) && Scan(w, 0) == Ast.Some(Span(SYMBOLS[i].1, 0, |w|))
  {
    if i < 9 {
      assert i == 0 || i == 1 || i == 2 || i == 3 || i == 4 || i == 5 || i == 6 || i == 7 || i == 8;
    } else if i < 18 {
      assert i == 9 || i == 10 || i == 11 || i == 12 || i == 13 || i == 14 || i == 15 || i == 16 || i == 17;
    } else {
      assert i == 18 || i == 19 || i == 20 || i == 21 || i == 22 || i == 23 || i == 24 || i == 25;
    }
  }

  // ----- numbers and strings -----

  lemma {:induction false} DigitsToEnd(w: string, p: nat, q: nat)
    requires p <= q <= |w| && (forall i :: p <= i < q ==> Digit(w[i])) && (q < |w| ==> !Digit(w[q]))
    ensures Json.SkipDigits(w, p) == q
    decreases q - p
  {
    if p < q { DigitsToEnd(w, p + 1, q); }
  }

  predicate Digits(d: string) { d != "" && forall i :: 0 <= i < |d| ==> Digit(d[i]) }

  /** Digits are an integer; with a point and more digits they are a float. */
  lemma NumberAlone(d: string, e: string)
    requires Digits(d) && Digits(e)
    ensures LexAll(d, START) == Ast.Some(Alone(d, IntTok))
    ensures LexAll(d + "." + e, START) == Ast.Some(Alone(d + "." + e, FloatTok))
  {
    hide LexAll, SkipGap, Alone, Json.SkipDigits;
    DigitsToEnd(d, 0, |d|);
    NoGap(d);
    AloneIs(d, IntTok);
    var w := d + "." + e;
    assert forall i :: 0 <= i < |w| ==> w[i] == if i < |d| then d[i] else if i == |d| then '.' else e[i - |d| - 1];
    DigitsToEnd(w, 0, |d|);
    DigitsToEnd(w, |d| + 1, |w|);
    NoGap(w);
    AloneIs(w, FloatTok);
  }

  lemma {:induction false} QuoteAt(w: string, p: nat, q: nat)
    requires p <= q < |w| && w[q] == '"' && forall i :: p <= i < q ==> w[i] != '"' && w[i] != '\\' && w[i] != '\n'
    ensures ScanString(w, p) == Ast.Some(q + 1)
    decreases q - p
  {
    if p < q { QuoteAt(w, p + 1, q); }
  }

  /** Anything else between quotes is a string. */
  lemma StringAlone(s: string)
    requires forall i :: 0 <= i < |s| ==> s[i] != '"' && s[i] != '\\' && s[i] != '\n'
    ensures var w := "\"" + s + "\""; LexAll(w, START) == Ast.Some(Alone(w, StrTok))
  {
    hide LexAll, SkipGap, Alone, ScanString;
    var w := "\"" + s + "\"";
    assert forall i :: 1 <= i < |w| - 1 ==> w[i] == s[i - 1];
    QuoteAt(w, 1, |w| - 1);
    NoGap(w);
    AloneIs(w, StrTok);
  }

  // ----- what is no token -----

  predicate Blank(c: char) { c == ' ' || c == '\t' || c == '\r' || c == '\n' }

  /** Every character on its own: nothing, a name, a number, a symbol, or an error. */
  lemma CharacterAlone(c: char)
    ensures Blank(c) ==> LexAll([c], START) == Ast.Some([])
    ensures Letter(c) ==> LexAll([c], START) == Ast.Some(Alone([c], Name))
    ensures Digit(c) ==> LexAll([c], START) == Ast.Some(Alone([c], IntTok))
    ensures !Blank(c) && !Letter(c) && !Digit(c) && (forall i :: 0 <= i < |SYMBOLS| ==> SYMBOLS[i].0 != [c]) ==>
      LexAll([c], START) == Ast.None
  {
    hide LexAll, SkipGap, Alone, Keyword, Scan;
    var w := [c];
    if Blank(c) {
      OnlyGap(w);
    } else if Letter(c) {
      WordAlone(w);
      OneLetter(c);
    } else if Digit(c) {
      NumberAlone(w, w);
    } else if forall i :: 0 <= i < |SYMBOLS| ==> SYMBOLS[i].0 != [c] {
      NoGap(w);
      NoSymbol(c);
      Refused(w);
    }
  }

  lemma OneLetter(c: char)
    ensures Unreserved([c])
  {
    forall i | 0 <= i < |WORDS| ensures |WORDS[i].0| > 1 {
      if i < 9 {
        assert i == 0 || i == 1 || i == 2 || i == 3 || i == 4 || i == 5 || i == 6 || i == 7 || i == 8;
      } else {
        assert i == 9 || i == 10 || i == 11 || i == 12 || i == 13 || i == 14 || i == 15 || i == 16 || i == 17;
      }
    }
  }

  lemma NoSymbol(c: char)
    requires !Blank(c) && !Letter(c) && !Digit(c) && forall i :: 0 <= i < |SYMBOLS| ==> SYMBOLS[i].0 != [c]
    ensures Scan([c], 0).None?
  {
    assert SYMBOLS[0].0 != [c] && SYMBOLS[1].0 != [c] && SYMBOLS[2].0 != [c] && SYMBOLS[3].0 != [c];
    assert SYMBOLS[4].0 != [c] && SYMBOLS[5].0 != [c] && SYMBOLS[6].0 != [c] && SYMBOLS[7].0 != [c];
    assert SYMBOLS[8].0 != [c] && SYMBOLS[9].0 != [c] && SYMBOLS[11].0 != [c] && SYMBOLS[12].0 != [c];
    assert SYMBOLS[13].0 != [c] && SYMBOLS[14].0 != [c] && SYMBOLS[15].0 != [c] && SYMBOLS[16].0 != [c];
    assert SYMBOLS[19].0 != [c] && SYMBOLS[20].0 != [c] && SYMBOLS[25].0 != [c];
  }

  lemma Refused(w: string)
    requires w != "" && SkipGap(w, 0) == 0 && Scan(w, 0).None?
    ensures LexAll(w, START) == Ast.None
  {
    hide Scan, SkipGap;
  }

  lemma OnlyGap(w: string)
    requires SkipGap(w, 0) == |w| || (w != "" && |w| == 1 && Blank(w[0]))
    ensures LexAll(w, START) == Ast.Some([])
  {
    hide Scan;
    assert Next(w, START) == Ast.Some((Span(Eof, |w|, |w|), State(|w|, 0, false)));
  }

  lemma {:induction false} LineToEnd(w: string, p: nat)
    requires p <= |w| && forall i :: p <= i < |w| ==> w[i] != '\n'
    ensures SkipLine(w, p) == |w|
    decreases |w| - p
  {
    if p < |w| { LineToEnd(w, p + 1); }
  }

  /** So is a comment, up to the end of its line. */
  lemma CommentAlone(t: string)
    requires forall i :: 0 <= i < |t| ==> t[i] != '\n'
    ensures LexAll("//" + t, START) == Ast.Some([])
  {
    hide LexAll, SkipLine;
    var w := "//" + t;
    assert forall i :: 2 <= i < |w| ==> w[i] == t[i - 2];
    LineToEnd(w, 0);
    OnlyGap(w);
  }

  // ----- line breaks and brackets -----

  /** Two names on two lines between brackets. */
  function TwoLines(o: char, x: string, c: char): string { [o] + x + "\n" + x + [c] }

  function Parts(open: Kind, n: nat, broken: bool, close: Kind): seq<Span> {
    [Span(open, 0, 1), Span(Name, 1, 1 + n)]
    + ((if broken then [Span(Newline, 2 + n, 2 + n)] else [])
       + [Span(Name, 2 + n, 2 + n + n), Span(close, 2 + n + n, 3 + n + n), Span(Newline, 3 + n + n, 3 + n + n)])
  }

  lemma {:induction false} NameUpTo(w: string, p: nat, q: nat)
    requires p <= q <= |w| && (forall i :: p <= i < q ==> Letter(w[i]) || Digit(w[i]))
    requires q < |w| ==> !Letter(w[q]) && !Digit(w[q])
    ensures SkipWord(w, p) == q
    decreases q - p
  {
    if p < q { NameUpTo(w, p + 1, q); }
  }

  lemma Turn(src: string, s: State, t: Span, s1: State, rest: seq<Span>)
    requires s.pos <= |src| && s1.pos <= |src| && t.kind != Eof
    requires Next(src, s) == Ast.Some((t, s1)) && LexAll(src, s1) == Ast.Some(rest)
    ensures LexAll(src, s) == Ast.Some([t] + rest)
  {
    hide Next;
  }

  /** A name in place. */
  lemma NameAt(src: string, p: nat, x: string)
    requires IsName(x) && Keyword(x) == Name && p + |x| < |src| && src[p..p + |x|] == x
    requires !Letter(src[p + |x|]) && !Digit(src[p + |x|])
    ensures SkipGap(src, p) == p && Scan(src, p) == Ast.Some(Span(Name, p, p + |x|))
  {
    forall i | p <= i < p + |x| ensures src[i] == x[i - p] { assert src[p..p + |x|][i - p] == src[i]; }
    NameUpTo(src, p + 1, p + |x|);
  }

  /** Round, square and curly brackets; a line break counts in the last only. */
  predicate Pair(o: char, k1: Kind, c: char, k2: Kind, counts: bool) {
    || (o == '(' && k1 == LParen && c == ')' && k2 == RParen && !counts)
    || (o == '[' && k1 == LBracket && c == ']' && k2 == RBracket && !counts)
    || (o == '{' && k1 == LBrace && c == '}' && k2 == RBrace && counts)
  }

  lemma BracketAt(o: char, k1: Kind, c: char, k2: Kind, counts: bool, src: string, p: nat)
    requires Pair(o, k1, c, k2, counts) && p < |src|
    ensures src[p] == o ==> SkipGap(src, p) == p && Scan(src, p) == Ast.Some(Span(k1, p, p + 1))
    ensures src[p] == c ==> SkipGap(src, p) == p && Scan(src, p) == Ast.Some(Span(k2, p, p + 1))
    ensures !Letter(c) && !Digit(c) && !EndsLine(k1) && EndsLine(k2)
    ensures var d := if counts then 0 else 1; DepthAfter(0, k1) == d && DepthAfter(d, k2) == 0
  {
  }

  lemma NextToken(src: string, s: State, q: nat, t: Span)
    requires s.pos <= |src| && SkipGap(src, s.pos) == q < |src| && Scan(src, q) == Ast.Some(t)
    requires s.insert ==> s.depth > 0 || !HasLine(src, s.pos, q)
    ensures Next(src, s) == Ast.Some((t, State(t.end, DepthAfter(s.depth, t.kind), EndsLine(t.kind))))
  {
    hide SkipGap, Scan, HasLine, DepthAfter, EndsLine;
  }

  lemma NextBreak(src: string, s: State, q: nat)
    requires s.pos <= |src| && SkipGap(src, s.pos) == q && s.insert && s.depth == 0 && HasLine(src, s.pos, q)
    ensures Next(src, s) == Ast.Some((Span(Newline, q, q), State(q, 0, false)))
  {
    hide SkipGap, Scan, HasLine;
  }

  lemma LineIsNone()
    ensures !Letter('\n') && !Digit('\n')
  {
  }

  /** The first name, from behind the bracket to the line break. */
  lemma FirstName(src: string, o: char, x: string, c: char)
    requires src == TwoLines(o, x, c) && IsName(x) && Keyword(x) == Name
    ensures var n := |x|; |src| == 3 + n + n && SkipGap(src, 1) == 1 && Scan(src, 1) == Ast.Some(Span(Name, 1, 1 + n))
  {
    hide *;
    LineIsNone();
    Layout(o, x, c);
    NameAt(src, 1, x);
  }

  /** The line break. */
  lemma TheBreak(src: string, o: char, x: string, c: char)
    requires src == TwoLines(o, x, c) && IsName(x)
    ensures var n := |x|; |src| == 3 + n + n && SkipGap(src, 1 + n) == 2 + n && HasLine(src, 1 + n, 2 + n)
  {
    hide *;
    Layout(o, x, c);
    LineAt(src, 1 + |x|);
  }

  /** The second name, up to the closing bracket. */
  lemma SecondName(src: string, o: char, x: string, c: char)
    requires src == TwoLines(o, x, c) && IsName(x) && Keyword(x) == Name && !Letter(c) && !Digit(c)
    ensures var m := 2 + |x|; var e := m + |x|;
      |src| == e + 1 && SkipGap(src, m) == m && Scan(src, m) == Ast.Some(Span(Name, m, e))
  {
    hide *;
    Layout(o, x, c);
    NameAt(src, 2 + |x|, x);
  }

  /** The brackets. */
  lemma TheBrackets(o: char, k1: Kind, c: char, k2: Kind, counts: bool, src: string, x: string)
    requires Pair(o, k1, c, k2, counts) && src == TwoLines(o, x, c) && IsName(x)
    ensures var e := 2 + |x| + |x|;
      && |src| == e + 1 && SkipGap(src, 0) == 0 && Scan(src, 0) == Ast.Some(Span(k1, 0, 1))
      && SkipGap(src, e) == e && Scan(src, e) == Ast.Some(Span(k2, e, e + 1)) && !HasLine(src, e, e)
  {
    hide *;
    Layout(o, x, c);
    BracketAt(o, k1, c, k2, counts, src, 0);
    BracketAt(o, k1, c, k2, counts, src, 2 + |x| + |x|);
    NoLine(src, 2 + |x| + |x|);
  }

  lemma KindsOf(o: char, k1: Kind, c: char, k2: Kind, counts: bool)
    requires Pair(o, k1, c, k2, counts)
    ensures k1 != Eof && k2 != Eof && !Letter(c) && !Digit(c) && !EndsLine(k1) && EndsLine(k2) && EndsLine(Name)
    ensures var d := if counts then 0 else 1;
      DepthAfter(0, k1) == d && DepthAfter(d, k2) == 0 && DepthAfter(d, Name) == d
  {
  }

  /** The turns of the lexer in order. */
  lemma Turns(o: char, k1: Kind, c: char, k2: Kind, counts: bool, x: string)
    requires Pair(o, k1, c, k2, counts) && IsName(x) && Keyword(x) == Name
    ensures var src := TwoLines(o, x, c); var n := |x|; var d := if counts then 0 else 1; var e := 2 + n + n;
      && |src| == e + 1 && Next(src, State(0, 0, false)) == Ast.Some((Span(k1, 0, 1), State(1, d, false)))
      && Next(src, State(1, d, false)) == Ast.Some((Span(Name, 1, 1 + n), State(1 + n, d, true)))
      && (counts ==>
            && Next(src, State(1 + n, d, true)) == Ast.Some((Span(Newline, 2 + n, 2 + n), State(2 + n, 0, false)))
            && Next(src, State(2 + n, 0, false)) == Ast.Some((Span(Name, 2 + n, e), State(e, d, true))))
      && (!counts ==> Next(src, State(1 + n, d, true)) == Ast.Some((Span(Name, 2 + n, e), State(e, d, true))))
      && Next(src, State(e, d, true)) == Ast.Some((Span(k2, e, e + 1), State(e + 1, 0, true)))
      && LexAll(src, State(e + 1, 0, true)) == Ast.Some([Span(Newline, e + 1, e + 1)])
  {
    hide *;
    var src, n, d := TwoLines(o, x, c), |x|, if counts then 0 else 1;
    KindsOf(o, k1, c, k2, counts);
    FirstName(src, o, x, c);
    TheBreak(src, o, x, c);
    SecondName(src, o, x, c);
    TheBrackets(o, k1, c, k2, counts, src, x);
    NextToken(src, State(0, 0, false), 0, Span(k1, 0, 1));
    NextToken(src, State(1, d, false), 1, Span(Name, 1, 1 + n));
    var second := Span(Name, 2 + n, 2 + n + n);
    if counts {
      NextBreak(src, State(1 + n, d, true), 2 + n);
      NextToken(src, State(2 + n, 0, false), 2 + n, second);
    } else {
      NextToken(src, State(1 + n, d, true), 2 + n, second);
    }
    NextToken(src, State(2 + n + n, d, true), 2 + n + n, Span(k2, 2 + n + n, 3 + n + n));
    GapAtEnd(src);
    AtTheEnd(src, State(3 + n + n, 0, true));
  }

  lemma StartIs()
    ensures START == State(0, 0, false)
  {
  }

  lemma PartsAre(k1: Kind, n: nat, counts: bool, k2: Kind)
    ensures Parts(k1, n, counts, k2)
      == [Span(k1, 0, 1)] + ([Span(Name, 1, 1 + n)] + MidParts(n, counts, k2))
  {
  }

  function MidParts(n: nat, counts: bool, k2: Kind): seq<Span> {
    (if counts then [Span(Newline, 2 + n, 2 + n)] else []) + LastParts(n, k2)
  }

  function LastParts(n: nat, k2: Kind): seq<Span> {
    [Span(Name, 2 + n, 2 + n + n)] + ([Span(k2, 2 + n + n, 3 + n + n)] + [Span(Newline, 3 + n + n, 3 + n + n)])
  }

  lemma MidIs(n: nat, counts: bool, k2: Kind)
    ensures MidParts(n, counts, k2)
      == if counts then [Span(Newline, 2 + n, 2 + n)] + LastParts(n, k2) else LastParts(n, k2)
  {
    hide LastParts;
  }

  /** A break between two names in round or square brackets is none, and one in braces is a
      token. */
  lemma BreakInBrackets(o: char, k1: Kind, c: char, k2: Kind, counts: bool, x: string)
    requires Pair(o, k1, c, k2, counts) && IsName(x) && Unreserved(x)
    ensures LexAll(TwoLines(o, x, c), START) == Ast.Some(Parts(k1, |x|, counts, k2))
  {
    hide *;
    NoKeyword(x);
    var src, n, d := TwoLines(o, x, c), |x|, if counts then 0 else 1;
    Turns(o, k1, c, k2, counts, x);
    KindsOf(o, k1, c, k2, counts);
    var close, second := Span(k2, 2 + n + n, 3 + n + n), Span(Name, 2 + n, 2 + n + n);
    var s2, s4 := State(1 + n, d, true), State(2 + n + n, d, true);
    var last := [Span(Newline, 3 + n + n, 3 + n + n)];
    Turn(src, s4, close, State(3 + n + n, 0, true), last);
    MidIs(n, counts, k2);
    LastIsParts(n, k2);
    if counts {
      Turn(src, State(2 + n, 0, false), second, s4, [close] + last);
      Turn(src, s2, Span(Newline, 2 + n, 2 + n), State(2 + n, 0, false), LastParts(n, k2));
    } else {
      Turn(src, s2, second, s4, [close] + last);
    }
    var mid := MidParts(n, counts, k2);
    Turn(src, State(1, d, false), Span(Name, 1, 1 + n), s2, mid);
    Turn(src, State(0, 0, false), Span(k1, 0, 1), State(1, d, false), [Span(Name, 1, 1 + n)] + mid);
    StartIs();
    PartsAre(k1, n, counts, k2);
  }

  lemma LastIsParts(n: nat, k2: Kind)
    ensures LastParts(n, k2)
      == [Span(Name, 2 + n, 2 + n + n)] + ([Span(k2, 2 + n + n, 3 + n + n)] + [Span(Newline, 3 + n + n, 3 + n + n)])
  {
  }

  lemma Layout(o: char, x: string, c: char)
    requires IsName(x)
    ensures var src := TwoLines(o, x, c); var n := |x|;
      && n > 0 && |src| == 3 + n + n && src[0] == o && src[1..1 + n] == x && src[1 + n] == '\n'
      && src[2 + n..2 + n + n] == x && src[2 + n + n] == c && Letter(src[1]) && Letter(src[2 + n])
  {
    var src, n := TwoLines(o, x, c), |x|;
    assert src[1] == x[0] && src[2 + n] == x[0];
  }

  lemma LineAt(src: string, p: nat)
    requires p + 1 < |src| && src[p] == '\n' && Letter(src[p + 1])
    ensures SkipGap(src, p) == p + 1 && HasLine(src, p, p + 1)
  {
  }

  lemma NoLine(src: string, p: nat)
    requires p <= |src|
    ensures !HasLine(src, p, p)
  {
  }

  // ----- every line break -----

  /** How many more opening than closing brackets, round and square ones. */
  function Excess(ts: seq<Span>): int {
    if ts == [] then 0 else Excess(ts[..|ts| - 1]) + Weight(ts[|ts| - 1].kind)
  }

  function Weight(k: Kind): int {
    match k
    case LParen | LBracket => 1
    case RParen | RBracket => -1
    case _ => 0
  }

  /** Every opening bracket is closed further on. */
  predicate AllClosed(ts: seq<Span>) { forall k :: 0 <= k <= |ts| ==> Excess(ts[k..]) <= 0 }

  function Depth(ts: seq<Span>): nat {
    if ts == [] then 0 else DepthAfter(Depth(ts[..|ts| - 1]), ts[|ts| - 1].kind)
  }

  lemma ExcessSnoc(ts: seq<Span>, k: nat)
    requires k < |ts|
    ensures Excess(ts[k..]) == Excess(ts[..|ts| - 1][k..]) + Weight(ts[|ts| - 1].kind)
  {
    hide Weight;
    var n := |ts|;
    assert ts[k..][..n - k - 1] == ts[..n - 1][k..] && ts[k..][n - k - 1] == ts[n - 1];
  }

  lemma NoExcess()
    ensures Excess([]) == 0 && Depth([]) == 0
  {
  }

  lemma DepthSnoc(ts: seq<Span>)
    requires ts != []
    ensures var d := Depth(ts[..|ts| - 1]) + Weight(ts[|ts| - 1].kind); Depth(ts) == if d < 0 then 0 else d
  {
  }

  lemma {:induction false} DepthIs(ts: seq<Span>)
    ensures forall k :: 0 <= k <= |ts| ==> Excess(ts[k..]) <= Depth(ts)
    ensures exists k :: 0 <= k <= |ts| && Excess(ts[k..]) == Depth(ts)
    decreases |ts|
  {
    hide *;
    var n := |ts|;
    assert ts[n..] == [];
    NoExcess();
    if n > 0 {
      var b := ts[..n - 1];
      DepthIs(b);
      DepthSnoc(ts);
      var k :| 0 <= k <= |b| && Excess(b[k..]) == Depth(b);
      ExcessSnoc(ts, k);
      forall m | 0 <= m <= n ensures Excess(ts[m..]) <= Depth(ts) { if m < n { ExcessSnoc(ts, m); } }
    }
  }

  lemma ClosedIs(ts: seq<Span>)
    ensures AllClosed(ts) <==> Depth(ts) == 0
  {
    hide Excess, Depth;
    DepthIs(ts);
  }

  lemma DepthCons(pre: seq<Span>, t: Span)
    ensures Depth(pre + [t]) == DepthAfter(Depth(pre), t.kind)
  {
    assert (pre + [t])[..|pre|] == pre;
  }

  lemma {:induction false} TiledFrom(src: string, a: nat, ends: bool, pre: seq<Span>, ts: seq<Span>, i: nat)
    requires LexLaws.Tiled(src, a, ends, Depth(pre), ts) && i < |ts| && ts[i].kind != Newline
    ensures LexLaws.Tiled(src, ts[i].end, EndsLine(ts[i].kind), Depth(pre + ts[..i + 1]), ts[i + 1..])
    decreases |ts|
  {
    hide Depth, LexLaws.IsGap, LexLaws.Longest, HasLine, EndsLine, DepthAfter;
    var m := if ts[0].kind == Newline then 1 else 0;
    if m == 1 { DepthCons(pre, ts[0]); }
    assert DepthAfter(Depth(pre), Newline) == Depth(pre) by { LineKeepsDepth(Depth(pre)); }
    var mid := pre + ts[..m];
    assert Depth(mid) == Depth(pre) by { assert mid == if m == 1 then pre + [ts[0]] else pre; }
    DepthCons(mid, ts[m]);
    var next := pre + ts[..m + 1];
    assert next == mid + [ts[m]];
    var rest := if m == 1 then ts[1..] else ts;
    assert rest[0] == ts[m] && rest[1..] == ts[m + 1..];
    if i > m {
      TiledFrom(src, ts[m].end, EndsLine(ts[m].kind), next, ts[m + 1..], i - m - 1);
      assert ts[m + 1..][..i - m] == ts[m + 1..i + 1] && next + ts[m + 1..i + 1] == pre + ts[..i + 1];
      assert ts[m + 1..][i - m..] == ts[i + 1..];
    }
  }

  lemma LineKeepsDepth(d: nat)
    ensures DepthAfter(d, Newline) == d
  {
  }

  /** Behind a token comes a newline token if and only if the token may end a statement and
      either nothing else follows, or the text up to the next token holds a line break and
      every round and square bracket before it is closed. */
  lemma BreaksExactly(src: string, ts: seq<Span>, i: nat)
    requires LexAll(src, START) == Ast.Some(ts) && i < |ts| && ts[i].kind != Newline
    ensures var broken := i + 1 < |ts| && ts[i + 1].kind == Newline;
      var next := if broken then i + 2 else i + 1;
      var end := if next < |ts| then ts[next].start else |src|;
      ts[i].end <= end <= |src|
      && (broken <==>
            (Ender(ts[i].kind) && (next == |ts| || (AllClosed(ts[..i + 1]) && '\n' in src[ts[i].end..end]))))
  {
    hide LexAll, LexLaws.IsGap, LexLaws.Longest, Depth, AllClosed, EndsLine, Ender;
    LexLaws.LexesExactlyTilings(src, ts);
    assert Depth([]) == 0 && START.pos == 0 by { NothingOpen(); }
    TiledFrom(src, 0, false, [], ts, i);
    assert [] + ts[..i + 1] == ts[..i + 1];
    ClosedIs(ts[..i + 1]);
    EnderIs(ts[i].kind);
    var rest := ts[i + 1..];
    var broken := rest != [] && rest[0].kind == Newline;
    assert broken <==> i + 1 < |ts| && ts[i + 1].kind == Newline;
    var more := if broken then rest[1..] else rest;
    var next := if broken then i + 2 else i + 1;
    assert more == ts[next..];
    var end := if more == [] then |src| else more[0].start;
    InText(src, ts[i].end, end);
  }

  lemma NothingOpen()
    ensures Depth([]) == 0 && START.pos == 0
  {
  }

  lemma InText(src: string, a: nat, b: nat)
    requires a <= b <= |src|
    ensures HasLine(src, a, b) <==> '\n' in src[a..b]
  {
    if HasLine(src, a, b) {
      var i :| a <= i < b && src[i] == '\n';
      assert src[a..b][i - a] == '\n';
    }
    if '\n' in src[a..b] {
      var i :| 0 <= i < b - a && src[a..b][i] == '\n';
      assert src[a + i] == '\n';
    }
  }

  // ----- line breaks and expressions -----

  /** Behind a whole expression a line break ends the statement. */
  lemma {:induction false} LastEnds(c: Grammar.Cst)
    requires Precedence.ByRows(c)
    ensures var f := Grammar.Flat(c); f != [] && Ender(f[|f| - 1].kind)
    decreases c
  {
    hide Ender, Precedence.AllByRows, Grammar.FlatItems;
    match c
    case Prefixed(_, e) => LastEnds(e);
    case Infixed(_, _, r) => LastEnds(r);
    case _ => LastIs(c);
  }

  lemma LastIs(c: Grammar.Cst)
    requires Precedence.ByRows(c) && !c.Prefixed? && !c.Infixed?
    ensures var f := Grammar.Flat(c); f != [] && Ender(f[|f| - 1].kind)
  {
    hide Precedence.AllByRows, Grammar.FlatItems;
  }

  /** Behind an operator it does not, for an operand must follow; nor behind an opening
      bracket or a comma. */
  lemma OperatorsGoOn(k: Kind)
    ensures Precedence.GoesOn(k) ==> (Ender(k) <==> k == Question)
    ensures k == Not || k == LBrace || k == Comma || k == Colon || k == Assign || k == Arrow ==> !Ender(k)
  {
  }
}
