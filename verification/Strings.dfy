/** split, join and replace (src/builtins_core.c): index loops that count first
    and fill a buffer of exactly that size afterwards, and the laws that relate
    the three. */
module Strings {
  import opened Ast
  import opened Values
  import opened Places

  const MAX_CUTS: nat := 255

  // ----- what the loops compute -----

  /** sub stands in s at i. */
  predicate OccursAt(s: string, sub: string, i: nat) {
    i + |sub| <= |s| && s[i..i + |sub|] == sub
  }

  ghost predicate Contains(s: string, sub: string) {
    exists i: nat :: OccursAt(s, sub, i)
  }

  /** The first occurrence at or after i; |s| when there is none. */
  function Find(s: string, sub: string, i: nat): (r: nat)
    requires i <= |s|
    ensures i <= r <= |s|
    ensures forall j :: i <= j < r ==> !OccursAt(s, sub, j)
    ensures r < |s| ==> OccursAt(s, sub, r)
    decreases |s| - i
  {
    if i == |s| || OccursAt(s, sub, i) then i else Find(s, sub, i + 1)
  }

  /** s cut at its leftmost occurrences of sep, at most n times. */
  function Split(s: string, sep: string, n: nat): (r: seq<string>)
    requires sep != ""
    ensures 1 <= |r| <= n + 1
    decreases |s|
  {
    var i := Find(s, sep, 0);
    if n == 0 || i == |s| then [s] else [s[..i]] + Split(s[i + |sep|..], sep, n - 1)
  }

  function Join(parts: seq<string>, sep: string): string {
    if parts == [] then ""
    else if |parts| == 1 then parts[0]
    else parts[0] + sep + Join(parts[1..], sep)
  }

  /** Every occurrence of from, leftmost first, replaced. */
  function Replace(s: string, from: string, into: string): string
    requires from != ""
    decreases |s|
  {
    if s == "" then ""
    else if OccursAt(s, from, 0) then into + Replace(s[|from|..], from, into)
    else [s[0]] + Replace(s[1..], from, into)
  }

  // ----- laws -----

  lemma OccursLater(s: string, sub: string, j: nat)
    requires s != ""
    ensures OccursAt(s[1..], sub, j) <==> OccursAt(s, sub, j + 1)
  {
    if j + 1 + |sub| <= |s| { assert s[1..][j..j + |sub|] == s[j + 1..j + 1 + |sub|]; }
  }

  lemma OccursBefore(s: string, sub: string, i: nat, j: nat)
    requires i <= |s| && OccursAt(s[..i], sub, j)
    ensures OccursAt(s, sub, j)
  {
    assert s[..i][j..j + |sub|] == s[j..j + |sub|];
  }

  lemma SplitCut(s: string, sep: string, n: nat)
    requires sep != "" && n > 0 && Find(s, sep, 0) < |s|
    ensures var i := Find(s, sep, 0);
      i + |sep| <= |s| && s[..i] + sep + s[i + |sep|..] == s
      && Split(s, sep, n) == [s[..i]] + Split(s[i + |sep|..], sep, n - 1)
  {
    var i := Find(s, sep, 0);
    assert s[i..i + |sep|] == sep;
  }

  lemma SplitNone(s: string, sep: string, n: nat)
    requires sep != "" && (n == 0 || Find(s, sep, 0) == |s|)
    ensures Split(s, sep, n) == [s]
  {
    hide Find, OccursAt;
  }

  lemma JoinOne(s: string, sep: string)
    ensures Join([s], sep) == s
  {
  }

  lemma JoinCons(x: string, parts: seq<string>, sep: string)
    requires parts != []
    ensures Join([x] + parts, sep) == x + sep + Join(parts, sep)
  {
    assert ([x] + parts)[1..] == parts;
  }

  /** Joining undoes splitting, cap or no cap. */
  lemma {:induction false} JoinSplit(s: string, sep: string, n: nat)
    requires sep != ""
    ensures Join(Split(s, sep, n), sep) == s
    decreases |s|
  {
    hide Find, OccursAt, Split, Join;
    var i := Find(s, sep, 0);
    if n > 0 && i < |s| {
      SplitCut(s, sep, n);
      var rest := s[i + |sep|..];
      JoinCons(s[..i], Split(rest, sep, n - 1), sep);
      JoinSplit(rest, sep, n - 1);
    } else {
      SplitNone(s, sep, n);
      JoinOne(s, sep);
    }
  }

  lemma FirstIsFree(s: string, sep: string)
    requires sep != ""
    ensures !Contains(s[..Find(s, sep, 0)], sep)
  {
    var i := Find(s, sep, 0);
    if Contains(s[..i], sep) {
      var j: nat :| OccursAt(s[..i], sep, j);
      OccursBefore(s, sep, i, j);
      assert false;
    }
  }

  /** Only the last part can contain the separator, and only when the cap is hit. */
  lemma {:induction false} PartsAreFree(s: string, sep: string, n: nat, k: nat)
    requires sep != "" && k < |Split(s, sep, n)|
    ensures k < |Split(s, sep, n)| - 1 || |Split(s, sep, n)| <= n ==> !Contains(Split(s, sep, n)[k], sep)
    decreases |s|
  {
    hide Find, OccursAt, Split, Contains;
    var i := Find(s, sep, 0);
    if n > 0 && i < |s| {
      SplitCut(s, sep, n);
      if k > 0 { PartsAreFree(s[i + |sep|..], sep, n - 1, k - 1); } else { FirstIsFree(s, sep); }
    } else {
      SplitNone(s, sep, n);
      if n > 0 {
        FirstIsFree(s, sep);
        assert s[..i] == s;
      }
    }
  }

  /** Replacing is joining what uncapped splitting cut apart: the two-pass loop
      and the splitter choose the same occurrences. */
  lemma {:induction false} ReplaceIsJoinSplit(s: string, from: string, into: string, n: nat)
    requires from != "" && |Split(s, from, n)| <= n
    ensures Replace(s, from, into) == Join(Split(s, from, n), into)
    decreases |s|
  {
    hide Find, OccursAt, Split, Join, Replace;
    var i := Find(s, from, 0);
    ReplaceSkips(s, from, into, i);
    if i < |s| {
      SplitCut(s, from, n);
      var rest := s[i + |from|..];
      JoinCons(s[..i], Split(rest, from, n - 1), into);
      ReplaceIsJoinSplit(rest, from, into, n - 1);
      ReplaceHere(s, from, into, i);
      assert s[..i] + (into + Replace(rest, from, into)) == s[..i] + into + Replace(rest, from, into);
    } else {
      SplitNone(s, from, n);
      JoinOne(s, into);
      assert s[..i] == s && s[i..] == "";
      ReplaceEmpty(from, into);
    }
  }

  lemma ReplaceEmpty(from: string, into: string)
    requires from != ""
    ensures Replace("", from, into) == "" && forall s: string :: s + "" == s
  {
  }

  lemma ReplaceHere(s: string, from: string, into: string, i: nat)
    requires from != "" && OccursAt(s, from, i)
    ensures Replace(s[i..], from, into) == into + Replace(s[i + |from|..], from, into)
  {
    assert s[i..][0..|from|] == s[i..i + |from|];
    assert s[i..][|from|..] == s[i + |from|..];
  }

  /** Up to the first occurrence everything is copied. */
  lemma {:induction false} ReplaceSkips(s: string, from: string, into: string, i: nat)
    requires from != "" && i <= |s| && forall j :: 0 <= j < i ==> !OccursAt(s, from, j)
    ensures Replace(s, from, into) == s[..i] + Replace(s[i..], from, into)
    decreases |s|
  {
    hide OccursAt, Replace;
    if i == 0 {
      assert s[0..] == s && s[..0] + s == s;
      assert s[..0] + Replace(s, from, into) == Replace(s, from, into);
    } else {
      forall j | 0 <= j < i - 1 ensures !OccursAt(s[1..], from, j) { OccursLater(s, from, j); }
      ReplaceSkips(s[1..], from, into, i - 1);
      ReplaceCopies(s, from, into);
      assert s[1..][i - 1..] == s[i..];
      assert [s[0]] + (s[1..][..i - 1] + Replace(s[i..], from, into)) == s[..i] + Replace(s[i..], from, into);
    }
  }

  lemma ReplaceCopies(s: string, from: string, into: string)
    requires from != "" && s != "" && !OccursAt(s, from, 0)
    ensures Replace(s, from, into) == [s[0]] + Replace(s[1..], from, into)
  {
  }

  // ----- parts as values: join strips what looks quoted -----

  predicate Quoted(s: string) { |s| >= 2 && s[0] == '"' }

  function Strip(parts: seq<string>): (r: seq<string>)
    ensures |r| == |parts| && forall i :: 0 <= i < |parts| ==> r[i] == StrContent(parts[i])
  {
    seq(|parts|, i requires 0 <= i < |parts| => StrContent(parts[i]))
  }

  function QuotedParts(parts: seq<string>): nat {
    if parts == [] then 0 else (if Quoted(parts[0]) then 1 else 0) + QuotedParts(parts[1..])
  }

  lemma {:induction false} StripLength(parts: seq<string>, sep: string)
    ensures |Join(Strip(parts), sep)| == |Join(parts, sep)| - 2 * QuotedParts(parts)
    ensures QuotedParts(parts) == 0 <==> forall i :: 0 <= i < |parts| ==> !Quoted(parts[i])
    ensures QuotedParts(parts) == 0 ==> Strip(parts) == parts
  {
    if parts != [] {
      StripLength(parts[1..], sep);
      assert Strip(parts)[1..] == Strip(parts[1..]);
      assert forall i :: 0 < i < |parts| ==> parts[i] == parts[1..][i - 1];
    }
  }

  /** The round trip through values holds exactly when no part of two bytes or
      more begins with a quote, which the join would take for a literal. */
  lemma JoinUndoesSplit(s: string, sep: string)
    requires sep != ""
    ensures var parts := Split(s, sep, 255);
      Join(Strip(parts), sep) == s <==> forall i :: 0 <= i < |parts| ==> !Quoted(parts[i])
  {
    var parts := Split(s, sep, MAX_CUTS);
    JoinSplit(s, sep, MAX_CUTS);
    StripLength(parts, sep);
  }

  /** In particular for every string without quotes. */
  lemma JoinUndoesSplitPlain(s: string, sep: string)
    requires sep != "" && '"' !in s
    ensures Join(Strip(Split(s, sep, 255)), sep) == s
  {
    JoinUndoesSplit(s, sep);
    PartsWithin(s, sep, MAX_CUTS);
  }

  /** Below the cap, replacing is splitting and joining, again exactly when no
      part looks like a literal. */
  lemma ReplaceIsBuiltins(s: string, from: string, into: string)
    requires from != "" && |Split(s, from, 255)| <= 255
    ensures var parts := Split(s, from, 255);
      Join(Strip(parts), into) == Replace(s, from, into) <==> forall i :: 0 <= i < |parts| ==> !Quoted(parts[i])
  {
    hide Split, Join, Replace;
    ReplaceIsJoinSplit(s, from, into, MAX_CUTS);
    StripLength(Split(s, from, MAX_CUTS), into);
  }

  lemma {:induction false} PartsWithin(s: string, sep: string, n: nat)
    requires sep != ""
    ensures forall k :: 0 <= k < |Split(s, sep, n)| ==> forall c :: c in Split(s, sep, n)[k] ==> c in s
    decreases |s|
  {
    var i := Find(s, sep, 0);
    if n > 0 && i < |s| { PartsWithin(s[i + |sep|..], sep, n - 1); }
  }

  // ----- the builtins -----

  function Texts(vs: seq<Val>): (r: seq<string>)
    requires forall i :: 0 <= i < |vs| ==> vs[i].StrV?
    ensures |r| == |vs| && forall i :: 0 <= i < |vs| ==> r[i] == vs[i].s
  {
    seq(|vs|, i requires 0 <= i < |vs| => vs[i].s)
  }

  /** What is still to be cut once the parts before start are done. */
  lemma SplitScan(s: string, sep: string, start: nat, i: nat, n: nat)
    requires sep != "" && start <= i <= |s| && forall j :: start <= j < i ==> !OccursAt(s, sep, j)
    ensures n > 0 && OccursAt(s, sep, i) ==>
      Split(s[start..], sep, n) == [s[start..i]] + Split(s[i + |sep|..], sep, n - 1)
    ensures n == 0 || i + |sep| > |s| ==> Split(s[start..], sep, n) == [s[start..]]
  {
    hide Find, Split;
    var t := s[start..];
    forall j | 0 <= j ensures OccursAt(t, sep, j) <==> OccursAt(s, sep, start + j) { OccursShift(s, sep, start, j); }
    var f := Find(t, sep, 0);
    if n > 0 && OccursAt(s, sep, i) {
      assert OccursAt(t, sep, i - start);
      assert f == i - start;
      SplitCut(t, sep, n);
      assert t[f + |sep|..] == s[i + |sep|..] && t[..f] == s[start..i];
    } else if n == 0 || i + |sep| > |s| {
      assert f < |t| ==> OccursAt(s, sep, start + f);
      SplitNone(t, sep, n);
    }
  }

  lemma OccursShift(s: string, sub: string, a: nat, j: nat)
    requires a <= |s|
    ensures OccursAt(s[a..], sub, j) <==> OccursAt(s, sub, a + j)
  {
    if a + j + |sub| <= |s| { assert s[a..][j..j + |sub|] == s[a + j..a + j + |sub|]; }
  }

  /** The scan of split: at most 255 parts are cut off, the rest is the last. */
  method CutAll(s: string, sep: string) returns (parts: seq<Val>)
    requires sep != ""
    ensures (forall x :: x in parts ==> x.StrV?) && Texts(parts) == Split(s, sep, 255)
  {
    hide Split, OccursAt;
    parts := [];
    var start: nat, i: nat := 0, 0;
    assert s[0..] == s;
    while i + |sep| <= |s| && |parts| < MAX_CUTS
      invariant start <= i <= |s| && |parts| <= MAX_CUTS
      invariant forall x :: x in parts ==> x.StrV?
      invariant forall j :: start <= j < i ==> !OccursAt(s, sep, j)
      invariant Texts(parts) + Split(s[start..], sep, MAX_CUTS - |parts|) == Split(s, sep, MAX_CUTS)
      decreases |s| - i
    {
      if OccursAt(s, sep, i) {
        SplitScan(s, sep, start, i, MAX_CUTS - |parts|);
        OccursFits(s, sep, i);
        Assoc(Texts(parts), [s[start..i]], Split(s[i + |sep|..], sep, MAX_CUTS - |parts| - 1));
        TextsSnoc(parts, s[start..i]);
        parts := parts + [StrV(s[start..i])];
        start := i + |sep|;
        i := start;
      } else {
        i := i + 1;
      }
    }
    SplitScan(s, sep, start, i, MAX_CUTS - |parts|);
    TextsSnoc(parts, s[start..]);
    parts := parts + [StrV(s[start..])];
  }

  lemma OccursFits(s: string, sub: string, i: nat)
    requires OccursAt(s, sub, i)
    ensures i + |sub| <= |s|
  {
  }

  method BuiltinSplit(args: seq<Val>) returns (r: Res<Val>)
    ensures |args| != 2 ==> r == Fail(BuiltinErr(RuntimeErr))
    ensures |args| == 2 && !(args[0].StrV? && args[1].StrV?) ==> r == Fail(BuiltinErr(TypeErr))
    ensures |args| == 2 && args[0].StrV? && args[1].StrV? ==>
      var s, sep := StrContent(args[0].s), StrContent(args[1].s);
      if sep == "" then r == Fail(BuiltinErr(RuntimeErr))
      else r.Ok? && r.value.ArrV? && (forall x :: x in r.value.elems ==> x.StrV?)
           && Texts(r.value.elems) == Split(s, sep, MAX_CUTS)
  {
    hide Split;
    if |args| != 2 { return Fail(BuiltinErr(RuntimeErr)); }
    if !args[0].StrV? || !args[1].StrV? { return Fail(BuiltinErr(TypeErr)); }
    var s, sep := StrContent(args[0].s), StrContent(args[1].s);
    if sep == "" { return Fail(BuiltinErr(RuntimeErr)); }
    var parts := CutAll(s, sep);
    r := Ok(ArrV(parts));
  }

  /** memcpy into a buffer. */
  method Copy(buf: array<char>, wi: nat, src: string)
    requires wi + |src| <= buf.Length
    modifies buf
    ensures buf[..wi] == old(buf[..wi]) && buf[wi..wi + |src|] == src
    ensures buf[..wi + |src|] == old(buf[..wi]) + src
  {
    for k := 0 to |src|
      invariant buf[..wi] == old(buf[..wi]) && buf[wi..wi + k] == src[..k]
    {
      buf[wi + k] := src[k];
    }
    assert buf[..wi + |src|] == buf[..wi] + buf[wi..wi + |src|];
  }

  lemma {:induction false} JoinSnoc(parts: seq<string>, x: string, sep: string)
    ensures Join(parts + [x], sep) == if parts == [] then x else Join(parts, sep) + sep + x
  {
    if parts == [] {
      JoinOne(x, sep);
      assert parts + [x] == [x];
    } else if |parts| == 1 {
      JoinCons(parts[0], [x], sep);
      JoinOne(x, sep);
      assert parts + [x] == [parts[0]] + [x];
    } else {
      hide Join;
      JoinSnoc(parts[1..], x, sep);
      JoinCons(parts[0], parts[1..], sep);
      JoinCons(parts[0], parts[1..] + [x], sep);
      assert parts == [parts[0]] + parts[1..];
      assert parts + [x] == [parts[0]] + (parts[1..] + [x]);
      var a, b := parts[0], Join(parts[1..], sep);
      assert a + sep + (b + sep + x) == (a + sep + b) + sep + x;
    }
  }

  /** One more part, stripped. */
  lemma NextPart(texts: seq<string>, i: nat, sep: string)
    requires i < |texts|
    ensures Join(Strip(texts[..i + 1]), sep)
         == Join(Strip(texts[..i]), sep) + (if i > 0 then sep else "") + StrContent(texts[i])
  {
    hide Join;
    assert Strip(texts[..i + 1]) == Strip(texts[..i]) + [StrContent(texts[i])];
    JoinSnoc(Strip(texts[..i]), StrContent(texts[i]), sep);
    if i == 0 { JoinNone(sep); }
  }

  lemma JoinNone(sep: string)
    ensures Join([], sep) == "" && forall s: string :: "" + "" + s == s
  {
  }

  lemma {:induction false} JoinGrows(texts: seq<string>, i: nat, sep: string)
    requires i <= |texts|
    ensures |Join(Strip(texts[..i]), sep)| <= |Join(Strip(texts), sep)|
    decreases |texts| - i
  {
    hide Join;
    if i == |texts| {
      assert texts[..i] == texts;
    } else {
      NextPart(texts, i, sep);
      JoinGrows(texts, i + 1, sep);
    }
  }

  /** The two passes of join: the buffer of the counted size is filled exactly. */
  method Concat(texts: seq<string>, sep: string) returns (r: string)
    ensures r == Join(Strip(texts), sep)
  {
    hide Join, Strip;
    var total: nat := 0;
    JoinStart(texts, sep);
    for i := 0 to |texts|
      invariant total == |Join(Strip(texts[..i]), sep)|
    {
      NextPart(texts, i, sep);
      total := total + |StrContent(texts[i])|;
      if i > 0 { total := total + |sep|; }
    }
    assert texts[..|texts|] == texts;
    var buf := new char[total];
    var wi: nat := 0;
    for i := 0 to |texts|
      invariant wi == |Join(Strip(texts[..i]), sep)| <= total && buf[..wi] == Join(Strip(texts[..i]), sep)
    {
      NextPart(texts, i, sep);
      JoinGrows(texts, i + 1, sep);
      if i > 0 && |sep| > 0 {
        Copy(buf, wi, sep);
        wi := wi + |sep|;
      }
      var e := StrContent(texts[i]);
      if |e| > 0 {
        Copy(buf, wi, e);
        wi := wi + |e|;
      }
    }
    assert buf[..total] == buf[..];
    r := buf[..];
  }

  lemma JoinStart(texts: seq<string>, sep: string)
    ensures Join(Strip(texts[..0]), sep) == ""
  {
  }

  method BuiltinJoin(args: seq<Val>) returns (r: Res<Val>)
    ensures |args| != 2 ==> r == Fail(BuiltinErr(RuntimeErr))
    ensures |args| == 2 ==>
      if args[0].ArrV? && args[1].StrV? && forall x :: x in args[0].elems ==> x.StrV?
      then r == Ok(StrV(Join(Strip(Texts(args[0].elems)), StrContent(args[1].s))))
      else r == Fail(BuiltinErr(TypeErr))
  {
    hide Join, Strip;
    if |args| != 2 { return Fail(BuiltinErr(RuntimeErr)); }
    if !args[0].ArrV? || !args[1].StrV? { return Fail(BuiltinErr(TypeErr)); }
    var elems := args[0].elems;
    for i := 0 to |elems|
      invariant forall j :: 0 <= j < i ==> elems[j].StrV?
    {
      if !elems[i].StrV? { return Fail(BuiltinErr(TypeErr)); }
    }
    var s := Concat(Texts(elems), StrContent(args[1].s));
    r := Ok(StrV(s));
  }

  // ----- replace -----

  /** Leftmost occurrences that do not overlap. */
  function Count(s: string, from: string): nat
    requires from != ""
    decreases |s|
  {
    if s == "" then 0
    else if OccursAt(s, from, 0) then 1 + Count(s[|from|..], from)
    else Count(s[1..], from)
  }

  lemma Distribute(c: int, d: int)
    ensures (1 + c) * d == d + c * d
  {
  }

  lemma {:induction false} CountShort(s: string, from: string)
    requires |s| < |from|
    ensures Count(s, from) == 0
    decreases |s|
  {
    if s != "" { CountShort(s[1..], from); }
  }

  /** One position of either pass. */
  lemma ReplaceAt(s: string, from: string, into: string, i: nat)
    requires from != "" && i < |s|
    ensures OccursAt(s, from, i) ==> (
      && i + |from| <= |s|
      && Replace(s[i..], from, into) == into + Replace(s[i + |from|..], from, into)
      && Count(s[i..], from) == 1 + Count(s[i + |from|..], from))
    ensures !OccursAt(s, from, i) ==> (
      && Replace(s[i..], from, into) == [s[i]] + Replace(s[i + 1..], from, into)
      && Count(s[i..], from) == Count(s[i + 1..], from))
  {
    OccursShift(s, from, i, 0);
    if OccursAt(s, from, i) { assert s[i..][|from|..] == s[i + |from|..]; }
    assert s[i..][1..] == s[i + 1..];
  }

  /** Counting and filling agree on the size. */
  lemma {:induction false} ReplaceLength(s: string, from: string, into: string)
    requires from != ""
    ensures |Replace(s, from, into)| == |s| + Count(s, from) * (|into| - |from|)
    decreases |s|
  {
    hide Replace, Count, OccursAt;
    ReplaceEmpty(from, into);
    CountShort("", from);
    if s != "" {
      ReplaceAt(s, from, into, 0);
      assert s[0..] == s;
      var rest := if OccursAt(s, from, 0) then s[|from|..] else s[1..];
      ReplaceLength(rest, from, into);
      Distribute(Count(rest, from), |into| - |from|);
    }
  }

  method CountAll(s: string, from: string) returns (occ: nat)
    requires from != ""
    ensures occ == Count(s, from)
  {
    hide Count, Replace, OccursAt;
    occ := 0;
    var i: nat := 0;
    assert s[0..] == s;
    while i + |from| <= |s|
      invariant i <= |s| && occ + Count(s[i..], from) == Count(s, from)
      decreases |s| - i
    {
      ReplaceAt(s, from, "", i);
      if OccursAt(s, from, i) {
        occ := occ + 1;
        i := i + (|from| - 1);
      }
      i := i + 1;
    }
    CountShort(s[i..], from);
  }

  /** The filling pass of replace into a buffer of the counted size. */
  method Fill(s: string, from: string, into: string) returns (r: string)
    requires from != ""
    ensures r == Replace(s, from, into)
  {
    hide Count, Replace, OccursAt;
    var occ := CountAll(s, from);
    ReplaceLength(s, from, into);
    var rlen := |s| + occ * (|into| - |from|);
    var buf := new char[rlen];
    var wi: nat, i: nat := 0, 0;
    assert s[0..] == s;
    while i < |s|
      invariant i <= |s| && wi <= rlen
      invariant buf[..wi] + Replace(s[i..], from, into) == Replace(s, from, into)
      decreases |s| - i
    {
      ReplaceAt(s, from, into, i);
      ghost var done := buf[..wi];
      if OccursAt(s, from, i) {
        Assoc(done, into, Replace(s[i + |from|..], from, into));
        assert |done + into + Replace(s[i + |from|..], from, into)| == rlen;
        Copy(buf, wi, into);
        wi := wi + |into|;
        i := i + |from|;
      } else {
        Assoc(done, [s[i]], Replace(s[i + 1..], from, into));
        assert |done + [s[i]] + Replace(s[i + 1..], from, into)| == rlen;
        buf[wi] := s[i];
        assert buf[..wi + 1] == done + [s[i]];
        wi := wi + 1;
        i := i + 1;
      }
    }
    ReplaceEmpty(from, into);
    assert s[i..] == "" && buf[..wi] + "" == buf[..wi];
    assert wi == rlen && buf[..rlen] == buf[..];
    r := buf[..];
  }

  method BuiltinReplace(args: seq<Val>) returns (r: Res<Val>)
    ensures |args| != 3 ==> r == Fail(BuiltinErr(RuntimeErr))
    ensures |args| == 3 && !(args[0].StrV? && args[1].StrV? && args[2].StrV?) ==> r == Fail(BuiltinErr(TypeErr))
    ensures |args| == 3 && args[0].StrV? && args[1].StrV? && args[2].StrV? ==>
      var s, from, into := StrContent(args[0].s), StrContent(args[1].s), StrContent(args[2].s);
      r == Ok(StrV(if from == "" then s else Replace(s, from, into)))
  {
    hide Replace;
    if |args| != 3 { return Fail(BuiltinErr(RuntimeErr)); }
    if !args[0].StrV? || !args[1].StrV? || !args[2].StrV? { return Fail(BuiltinErr(TypeErr)); }
    var s, from, into := StrContent(args[0].s), StrContent(args[1].s), StrContent(args[2].s);
    if from == "" { return Ok(StrV(s)); }
    var t := Fill(s, from, into);
    r := Ok(StrV(t));
  }

  lemma TextsSnoc(vs: seq<Val>, t: string)
    requires forall x :: x in vs ==> x.StrV?
    ensures forall x :: x in vs + [StrV(t)] ==> x.StrV?
    ensures Texts(vs + [StrV(t)]) == Texts(vs) + [t]
  {
  }
}
