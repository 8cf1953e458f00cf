/** The texts that the JSON parser takes, as derivations: what may be written, what it
    means, and the strings and numbers in both directions (RFC 8259, sections 2 to 7, with
    the parser's own limits and its second style of quotes). */
module JsonGrammar {
  import opened Ast
  import opened Values
  import opened Places
  import opened Json

  // ----- strings -----

  /** A unit of a string: a character, an escape of one letter, or \u with the three
      characters behind it. */
  datatype Unit = Raw(c: char) | Esc(c: char) | Hex(x: char, y: char, z: char)

  /** Between quotes, or between quotes written with a backslash, where nothing else is
      an escape. */
  datatype Text = Quoted(units: seq<Unit>) | Bare(inner: string)

  function Spelled(u: Unit): (r: string)
    ensures r != ""
  {
    match u
    case Raw(c) => [c]
    case Esc(c) => ['\\', c]
    case Hex(x, y, z) => ['\\', 'u', x, y, z]
  }

  predicate Fine(u: Unit) {
    match u
    case Raw(c) => c != '"' && c != '\\'
    case Esc(c) =>
      c == '"' || c == '\\' || c == '/' || c == 'n' || c == 't' || c == 'r' || c == 'b' || c == 'f'
    case Hex(_, _, _) => true
  }

  /** The character a unit stands for; \u stands for a question mark, and its last digit
      is a unit of its own. */
  function Stands(u: Unit): char {
    match u
    case Raw(c) => c
    case Hex(_, _, _) => '?'
    case Esc(c) =>
      if c == 'n' then 10 as char
      else if c == 't' then 9 as char
      else if c == 'r' then 13 as char
      else if c == 'b' then 8 as char
      else if c == 'f' then 12 as char
      else c
  }

  function SpellAll(us: seq<Unit>): string {
    if us == [] then "" else Spelled(us[0]) + SpellAll(us[1..])
  }

  function StandAll(us: seq<Unit>): (r: string)
    ensures |r| == |us|
  {
    if us == [] then "" else [Stands(us[0])] + StandAll(us[1..])
  }

  predicate LegalText(t: Text) {
    match t
    case Quoted(us) => forall i :: 0 <= i < |us| ==> Fine(us[i])
    case Bare(x) => forall i :: 0 < i < |x| ==> !(x[i - 1] == '\\' && x[i] == '"')
  }

  function TextOf(t: Text): string {
    match t
    case Quoted(us) => "\"" + (SpellAll(us) + "\"")
    case Bare(x) => "\\\"" + (x + "\\\"")
  }

  function Content(t: Text): string {
    match t
    case Quoted(us) => StandAll(us)
    case Bare(x) => x
  }

  // ----- numbers -----

  datatype Exp = Exp(mark: char, sign: string, digits: string)

  datatype Num = Num(minus: bool, whole: string, fraction: Option<string>, exp: Option<Exp>)

  predicate Numeral(d: string) { forall i :: 0 <= i < |d| ==> '0' <= d[i] <= '9' }

  function Power(k: nat): nat { if k == 0 then 1 else 10 * Power(k - 1) }

  /** The number that digits write. */
  function Worth(d: string): nat
    requires Numeral(d)
  {
    if d == "" then 0 else (d[0] as int - '0' as int) * Power(|d| - 1) + Worth(d[1..])
  }

  function NumText(n: Num): string {
    (if n.minus then "-" else "") + (n.whole + (FractionText(n.fraction) + ExpText(n.exp)))
  }

  function FractionText(f: Option<string>): string { if f.Some? then "." + f.value else "" }

  function ExpText(e: Option<Exp>): string {
    if e.Some? then [e.value.mark] + (e.value.sign + e.value.digits) else ""
  }

  predicate IsInt(n: Num) { n.fraction.None? && n.exp.None? }

  /** The first 63 characters. */
  function Held(t: string): string { if |t| <= 63 then t else t[..63] }

  predicate LegalNum(n: Num, ft: FloatText) {
    && Numeral(n.whole) && (n.fraction.Some? ==> Numeral(n.fraction.value))
    && (n.exp.Some? ==> LegalExp(n.exp.value))
    && (if IsInt(n) then n.whole != "" else (n.minus || n.whole != "") && ft.parse(Held(NumText(n))).Some?)
  }

  predicate LegalExp(e: Exp) {
    (e.mark == 'e' || e.mark == 'E') && (e.sign == "" || e.sign == "+" || e.sign == "-") && Numeral(e.digits)
  }

  /** An integer is the number its first 63 characters write, held to 64 bits; a float is
      for strtod to say. */
  function NumMeans(n: Num, ft: FloatText): Val
    requires LegalNum(n, ft)
  {
    if IsInt(n) then
      IntV(Bounded(n.minus, Worth(Leading(n.whole, if n.minus then 62 else 63))))
    else FloatV(ft.parse(Held(NumText(n))).value)
  }

  function Leading(d: string, k: nat): (r: string)
    ensures Numeral(d) ==> Numeral(r)
  {
    if |d| <= k then d else d[..k]
  }

  function Bounded(minus: bool, n: nat): int {
    if minus then (if n > 0x8000_0000_0000_0000 then -0x8000_0000_0000_0000 else 0 - n)
    else if n > 0x7fff_ffff_ffff_ffff then 0x7fff_ffff_ffff_ffff
    else n
  }

  // ----- values -----

  /** Null, true and false, strings, numbers, arrays and objects.  gap: the blanks behind
      an opening bracket, which are all there is when nothing is in the brackets. */
  datatype Tree =
    | Null
    | Yes
    | No
    | Str(text: Text)
    | Number(n: Num)
    | Arr(gap: string, items: seq<Item>)
    | Obj(gap: string, members: seq<Member>)

  datatype Item = Item(before: string, tree: Tree, after: string)

  datatype Member = Member(before: string, key: Text, colon: string, item: Item)

  predicate Blanks(b: string) {
    forall i :: 0 <= i < |b| ==> b[i] == ' ' || b[i] == '\t' || b[i] == '\n' || b[i] == '\r'
  }

  function Written(t: Tree): string
    decreases t
  {
    match t
    case Null => "null"
    case Yes => "true"
    case No => "false"
    case Str(x) => TextOf(x)
    case Number(n) => NumText(n)
    case Arr(gap, items) => "[" + (gap + (WrittenItems(items) + "]"))
    case Obj(gap, ms) => "{" + (gap + (WrittenMembers(ms) + "}"))
  }

  function WrittenItem(a: Item): string
    decreases a
  {
    a.before + (Written(a.tree) + a.after)
  }

  function WrittenItems(items: seq<Item>): string
    decreases items
  {
    if items == [] then ""
    else if |items| == 1 then WrittenItem(items[0])
    else WrittenItem(items[0]) + ("," + WrittenItems(items[1..]))
  }

  function WrittenMember(m: Member): string
    decreases m
  {
    m.before + (TextOf(m.key) + (m.colon + (":" + WrittenItem(m.item))))
  }

  function WrittenMembers(ms: seq<Member>): string
    decreases ms
  {
    if ms == [] then ""
    else if |ms| == 1 then WrittenMember(ms[0])
    else WrittenMember(ms[0]) + ("," + WrittenMembers(ms[1..]))
  }

  /** At most 1024 elements and 256 members. */
  predicate Legal(t: Tree, ft: FloatText)
    decreases t
  {
    match t
    case Str(x) => LegalText(x)
    case Number(n) => LegalNum(n, ft)
    case Arr(gap, items) => Blanks(gap) && |items| <= 1024 && LegalItems(items, ft)
    case Obj(gap, ms) => Blanks(gap) && |ms| <= 256 && LegalMembers(ms, ft)
    case _ => true
  }

  predicate LegalItem(a: Item, ft: FloatText)
    decreases a
  {
    Blanks(a.before) && Legal(a.tree, ft) && Blanks(a.after)
  }

  predicate LegalItems(items: seq<Item>, ft: FloatText)
    decreases items
  {
    items != [] ==> LegalItem(items[0], ft) && LegalItems(items[1..], ft)
  }

  predicate LegalMember(m: Member, ft: FloatText)
    decreases m
  {
    Blanks(m.before) && LegalText(m.key) && Blanks(m.colon) && LegalItem(m.item, ft)
  }

  predicate LegalMembers(ms: seq<Member>, ft: FloatText)
    decreases ms
  {
    ms != [] ==> LegalMember(ms[0], ft) && LegalMembers(ms[1..], ft)
  }

  function Means(t: Tree, ft: FloatText): Val
    requires Legal(t, ft)
    decreases t
  {
    match t
    case Null => NilV
    case Yes => BoolV(true)
    case No => BoolV(false)
    case Str(x) => StrV(Content(x))
    case Number(n) => NumMeans(n, ft)
    case Arr(_, items) => ArrV(ItemsMean(items, ft))
    case Obj(_, ms) => MapV(MembersMean(ms, ft))
  }

  function ItemMeans(a: Item, ft: FloatText): Val
    requires LegalItem(a, ft)
    decreases a
  {
    Means(a.tree, ft)
  }

  function ItemsMean(items: seq<Item>, ft: FloatText): seq<Val>
    requires LegalItems(items, ft)
    decreases items
  {
    if items == [] then [] else [ItemMeans(items[0], ft)] + ItemsMean(items[1..], ft)
  }

  function MemberMeans(m: Member, ft: FloatText): Pair
    requires LegalMember(m, ft)
    decreases m
  {
    Pair(Content(m.key), ItemMeans(m.item, ft))
  }

  function MembersMean(ms: seq<Member>, ft: FloatText): seq<Pair>
    requires LegalMembers(ms, ft)
    decreases ms
  {
    if ms == [] then [] else [MemberMeans(ms[0], ft)] + MembersMean(ms[1..], ft)
  }

  // ----- blanks in place -----

  lemma BlankIs(b: string, i: nat)
    requires Blanks(b) && i < |b|
    ensures IsWs(b[i])
  {
  }

  /** Blanks are skipped, up to what is none. */
  lemma {:induction false} SkipBlanks(s: string, p: nat, b: string)
    requires At(s, p, b) && Blanks(b)
    ensures p + |b| <= |s| && SkipWs(s, p) == SkipWs(s, p + |b|)
    decreases |b|
  {
    if b != "" {
      AtIndex(s, p, b, 0);
      BlankIs(b, 0);
      assert b == [b[0]] + b[1..];
      AtSplit(s, p, [b[0]], b[1..]);
      SkipBlanks(s, p + 1, b[1..]);
    }
  }

  /** And what is skipped is blanks. */
  lemma {:induction false} SkippedBlanks(s: string, p: nat) returns (b: string)
    requires p <= |s|
    ensures Blanks(b) && At(s, p, b) && p + |b| == SkipWs(s, p)
    decreases |s| - p
  {
    var q := SkipWs(s, p);
    b := s[p..q];
    if q > p {
      var c := SkippedBlanks(s, p + 1);
      assert b == [s[p]] + c;
    }
  }

  // ----- strings, both ways -----

  lemma EscIs(c: char)
    ensures Unescape(c).Some? <==> Fine(Esc(c))
    ensures Fine(Esc(c)) ==> Unescape(c).value == Stands(Esc(c))
  {
  }

  lemma SpellCons(u: Unit, us: seq<Unit>)
    ensures SpellAll([u] + us) == Spelled(u) + SpellAll(us) && StandAll([u] + us) == [Stands(u)] + StandAll(us)
  {
    assert ([u] + us)[1..] == us;
  }

  /** The first unit that the two passes see. */
  lemma FirstUnit(s: string, p: nat, n: nat) returns (u: Unit)
    requires Scan(s, p, n).Got? && s[p] != '"'
    ensures Fine(u) && At(s, p, Spelled(u)) && Scan(s, p, n) == Scan(s, p + |Spelled(u)|, n + 1)
    ensures Scan(s, p + |Spelled(u)|, n + 1).Got?
    ensures var r := Scan(s, p, n); Fill(s, p, r.pos) == [Stands(u)] + Fill(s, p + |Spelled(u)|, r.pos)
  {
    if s[p] != '\\' {
      u := Raw(s[p]);
      assert s[p..p + 1] == [s[p]];
    } else {
      EscIs(s[p + 1]);
      if Unescape(s[p + 1]).Some? {
        UnescapeU();
        u := Esc(s[p + 1]);
        assert s[p..p + 2] == ['\\', s[p + 1]];
      } else {
        var r := Scan(s, p + 5, n + 1);
        u := Hex(s[p + 2], s[p + 3], s[p + 4]);
        assert s[p..p + 5] == ['\\', 'u', s[p + 2], s[p + 3], s[p + 4]];
      }
    }
  }

  lemma {:induction false} UnitsRead(s: string, p: nat, n: nat) returns (us: seq<Unit>)
    requires Scan(s, p, n).Got?
    ensures (forall i :: 0 <= i < |us| ==> Fine(us[i])) && At(s, p, SpellAll(us))
    ensures var r := Scan(s, p, n); p + |SpellAll(us)| == r.pos && Fill(s, p, r.pos) == StandAll(us)
    decreases |s| - p
  {
    if s[p] == '"' {
      us := [];
    } else {
      hide Scan, Fill, Spelled, Fine, Stands;
      var u := FirstUnit(s, p, n);
      var more := UnitsRead(s, p + |Spelled(u)|, n + 1);
      us := [u] + more;
      SpellCons(u, more);
      AtJoin(s, p, Spelled(u), SpellAll(more));
    }
  }

  lemma UnitBack(s: string, p: nat, n: nat, u: Unit)
    requires Fine(u) && At(s, p, Spelled(u))
    ensures Scan(s, p, n) == Scan(s, p + |Spelled(u)|, n + 1)
    ensures forall end: nat :: p + |Spelled(u)| <= end < |s| ==>
      Fill(s, p, end) == [Stands(u)] + Fill(s, p + |Spelled(u)|, end)
  {
    AtBytes(s, p, Spelled(u));
    var w := Spelled(u);
    assert s[p + 0] == w[0];
    if !u.Raw? {
      assert s[p + 1] == w[1];
      EscIs(w[1]);
      UnescapeU();
    }
  }

  lemma {:induction false} UnitsBack(s: string, p: nat, n: nat, us: seq<Unit>)
    requires (forall i :: 0 <= i < |us| ==> Fine(us[i])) && At(s, p, SpellAll(us))
    requires var q := p + |SpellAll(us)|; q < |s| && s[q] == '"'
    ensures var q := p + |SpellAll(us)|; Scan(s, p, n) == Got(n + |us|, q) && Fill(s, p, q) == StandAll(us)
    decreases |us|
  {
    if us != [] {
      hide Scan, Fill, Spelled, Fine, Stands;
      var u, more := us[0], us[1..];
      assert us == [u] + more;
      SpellCons(u, more);
      AtSplit(s, p, Spelled(u), SpellAll(more));
      UnitBack(s, p, n, u);
      UnitsBack(s, p + |Spelled(u)|, n + 1, more);
    }
  }

  /** Between the quotes with backslashes. */
  lemma {:induction false} BareRead(s: string, p: nat)
    requires p <= |s| && FindEscaped(s, p) < |s|
    ensures var x := s[p..FindEscaped(s, p)]; LegalText(Bare(x))
    decreases |s| - p
  {
    var e := FindEscaped(s, p);
    if p < e {
      BareRead(s, p + 1);
      var x, y := s[p..e], s[p + 1..e];
      forall i | 0 < i < |x| ensures !(x[i - 1] == '\\' && x[i] == '"') {
        if i > 1 { assert x[i - 1] == y[i - 2] && x[i] == y[i - 1]; }
      }
    }
  }

  lemma {:induction false} BareBack(s: string, p: nat, x: string)
    requires LegalText(Bare(x)) && At(s, p, x + "\\\"")
    ensures FindEscaped(s, p) == p + |x|
    decreases |x|
  {
    AtBytes(s, p, x + "\\\"");
    if x == "" {
      assert s[p + 0] == '\\' && s[p + 1] == '"';
    } else {
      var y := x[1..];
      assert x + "\\\"" == [x[0]] + (y + "\\\"");
      AtSplit(s, p, [x[0]], y + "\\\"");
      assert s[p + 0] == x[0];
      assert s[p + 1] == (x + "\\\"")[1];
      assert |x| > 1 ==> x[1 - 1] == x[0];
      BareBack(s, p + 1, y);
    }
  }

  lemma TextRead(s: string, p: nat) returns (t: Text)
    requires AtString(s, p) && ParseString(s, p).Got?
    ensures LegalText(t) && At(s, p, TextOf(t))
    ensures ParseString(s, p) == Got(Content(t), p + |TextOf(t)|)
  {
    hide Scan, Fill, FindEscaped, SpellAll, StandAll, Fine;
    if s[p] == '\\' {
      BareRead(s, p + 2);
      t := Bare(s[p + 2..FindEscaped(s, p + 2)]);
      BarePlace(s, p, t.inner);
    } else {
      var us := UnitsRead(s, p + 1, 0);
      t := Quoted(us);
      QuotedPlace(s, p, SpellAll(us));
    }
  }

  lemma BarePlace(s: string, p: nat, x: string)
    requires p + 4 + |x| <= |s| && s[p] == '\\' && s[p + 1] == '"' && s[p + 2..p + 2 + |x|] == x
    requires s[p + 2 + |x|] == '\\' && s[p + 3 + |x|] == '"'
    ensures At(s, p, "\\\"" + (x + "\\\""))
  {
    assert s[p..p + 2] == "\\\"" && s[p + 2 + |x|..p + 4 + |x|] == "\\\"";
    AtJoin(s, p + 2, x, "\\\"");
    AtJoin(s, p, "\\\"", x + "\\\"");
  }

  lemma QuotedPlace(s: string, p: nat, x: string)
    requires p + 2 + |x| <= |s| && s[p] == '"' && s[p + 1..p + 1 + |x|] == x && s[p + 1 + |x|] == '"'
    ensures At(s, p, "\"" + (x + "\""))
  {
    assert s[p..p + 1] == "\"" && s[p + 1 + |x|..p + 2 + |x|] == "\"";
    AtJoin(s, p + 1, x, "\"");
    AtJoin(s, p, "\"", x + "\"");
  }

  lemma TextBack(s: string, p: nat, t: Text)
    requires LegalText(t) && At(s, p, TextOf(t))
    ensures AtString(s, p) && ParseString(s, p) == Got(Content(t), p + |TextOf(t)|)
  {
    hide Scan, Fill, FindEscaped, SpellAll, StandAll;
    match t
    case Bare(x) =>
      AtSplit(s, p, "\\\"", x + "\\\"");
      AtIndex(s, p, "\\\"", 0);
      AtIndex(s, p, "\\\"", 1);
      BareBack(s, p + 2, x);
      AtSplit(s, p + 2, x, "\\\"");
    case Quoted(us) =>
      AtSplit(s, p, "\"", SpellAll(us) + "\"");
      AtSplit(s, p + 1, SpellAll(us), "\"");
      AtIndex(s, p, "\"", 0);
      AtIndex(s, p + 1 + |SpellAll(us)|, "\"", 0);
      UnitsBack(s, p + 1, 0, us);
  }
}
