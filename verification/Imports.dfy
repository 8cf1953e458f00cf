/** Loading imports (the OP_IMPORT case of src/vm.c, src/modules.c): depth-first,
    over any module graph, cycles included, with bodies that may end early. */
module Imports {
  import opened Ast

  const MAX_MODULES: nat := 64

  /** One thing a run of a body performs.  Ends: the body ends here without an error, by
      a `return` at top level or a `?` on an err. */
  datatype Action = Import(name: string) | Other(fails: bool) | Ends

  /** A module's body lists what running it would perform, in that order: an import in
      an if, a loop or a called function stands where, and as often as, it is executed;
      behind an Ends stands what would follow if the body did not end there.  A body that
      parses but is refused by the compiler is one that fails at once. */
  datatype Source = Missing | Malformed | Module(body: seq<Action>)

  /** Path resolution and the files themselves, which the model does not define. */
  datatype Files = Files(resolve: (string, string) -> Option<string>, load: string -> Source)

  datatype LoadErr = InvalidPath | CannotOpen | BadModule | TooManyModules | RunError

  // ----- the module graph -----

  /** r is imported by a body that stands in file. */
  predicate Imported(fs: Files, file: string, body: seq<Action>, r: string) {
    exists i :: 0 <= i < |body| && body[i].Import? && fs.resolve(file, body[i].name) == Some(r)
  }

  predicate Edge(fs: Files, p: string, q: string) {
    fs.load(p).Module? && Imported(fs, p, fs.load(p).body, q)
  }

  /** q is imported by the body, directly or through at most n further modules. */
  predicate ReachIn(fs: Files, file: string, body: seq<Action>, q: string, n: nat)
    decreases n
  {
    Imported(fs, file, body, q) ||
    (n > 0 && exists i :: 0 <= i < |body| && Through(fs, file, body[i], q, n))
  }

  predicate Through(fs: Files, file: string, a: Action, q: string, n: nat)
    requires n > 0
    decreases n, 0
  {
    a.Import? && var r := fs.resolve(file, a.name);
    r.Some? && fs.load(r.value).Module? && ReachIn(fs, r.value, fs.load(r.value).body, q, n - 1)
  }

  ghost predicate Reaches(fs: Files, file: string, body: seq<Action>, q: string) {
    exists n: nat :: ReachIn(fs, file, body, q, n)
  }

  /** Modules that a reached module reaches are reached. */
  lemma ReachThrough(fs: Files, file: string, body: seq<Action>, i: nat, r: string, q: string)
    requires i < |body| && body[i].Import? && fs.resolve(file, body[i].name) == Some(r) && fs.load(r).Module?
    requires Reaches(fs, r, fs.load(r).body, q)
    ensures Reaches(fs, file, body, q)
  {
    var n: nat :| ReachIn(fs, r, fs.load(r).body, q, n);
    assert Through(fs, file, body[i], q, n + 1);
    assert ReachIn(fs, file, body, q, n + 1);
  }

  /** A set that holds the imports of the body and of its own members holds all
      the body reaches. */
  lemma {:induction false} ClosedHoldsReach(fs: Files, file: string, body: seq<Action>, c: seq<string>, q: string,
      n: nat)
    requires forall r :: Imported(fs, file, body, r) ==> r in c
    requires forall p, r :: p in c && Edge(fs, p, r) ==> r in c
    requires ReachIn(fs, file, body, q, n)
    ensures q in c
    decreases n
  {
    if !Imported(fs, file, body, q) {
      var i :| 0 <= i < |body| && Through(fs, file, body[i], q, n);
      var r := fs.resolve(file, body[i].name).value;
      assert Imported(fs, file, body, r);
      forall x | Imported(fs, r, fs.load(r).body, x) ensures x in c { assert Edge(fs, r, x); }
      ClosedHoldsReach(fs, r, fs.load(r).body, c, q, n - 1);
    }
  }

  predicate Distinct(s: seq<string>) {
    forall i, j :: 0 <= i < j < |s| ==> s[i] != s[j]
  }

  // ----- what is performed -----

  /** The part of a body that is run when nothing fails. */
  function Performed(body: seq<Action>): seq<Action> {
    if body == [] || body[0].Ends? then [] else [body[0]] + Performed(body[1..])
  }

  /** The same files with every body cut off where it ends. */
  function Cut(fs: Files): Files {
    Files(fs.resolve, p => match fs.load(p) case Module(body) => Module(Performed(body)) case other => other)
  }

  // ----- the loader as functions -----

  /** The error, the registered paths, and the paths whose bodies were begun. */
  datatype Progress = Progress(error: Option<LoadErr>, modules: seq<string>, started: seq<string>)

  function RunBody(fs: Files, file: string, body: seq<Action>, s: Progress): (r: Progress)
    requires |s.modules| <= MAX_MODULES
    ensures |s.modules| <= |r.modules| <= MAX_MODULES
    decreases MAX_MODULES - |s.modules|, 1, |body|
  {
    if body == [] || body[0].Ends? then s
    else if body[0].Other? then
      if body[0].fails then s.(error := Some(RunError)) else RunBody(fs, file, body[1..], s)
    else
      var t := RunImport(fs, file, body[0].name, s);
      if t.error.Some? then t else RunBody(fs, file, body[1..], t)
  }

  function RunImport(fs: Files, file: string, name: string, s: Progress): (r: Progress)
    requires |s.modules| <= MAX_MODULES
    ensures |s.modules| <= |r.modules| <= MAX_MODULES
    decreases MAX_MODULES - |s.modules|, 0
  {
    var path := fs.resolve(file, name);
    if path.None? then s.(error := Some(InvalidPath))
    else if path.value in s.modules then s
    else match fs.load(path.value)
      case Missing => s.(error := Some(CannotOpen))
      case Malformed => s.(error := Some(BadModule))
      case Module(body) =>
        if |s.modules| >= MAX_MODULES then s.(error := Some(TooManyModules))
        else RunBody(fs, path.value, body, Progress(s.error, s.modules + [path.value], s.started + [path.value]))
  }

  /** A whole program. */
  function LoadOf(fs: Files, file: string, body: seq<Action>): Progress {
    RunBody(fs, file, body, Progress(None, [], []))
  }

  // ----- what a run adds -----

  /** From s to r, a performed body adds modules that it reaches, and when nothing fails
      all that it and they import. */
  ghost predicate Grew(fs: Files, file: string, body: seq<Action>, s: Progress, r: Progress) {
    && s.modules <= r.modules
    && (forall q :: q in r.modules[|s.modules|..] ==> Reaches(Cut(fs), file, body, q))
    && (r.error.None? ==> forall q, x :: q in r.modules[|s.modules|..] && Edge(Cut(fs), q, x) ==> x in r.modules)
    && (r.error.None? ==> forall x :: Imported(fs, file, body, x) ==> x in r.modules)
  }

  lemma InTail(all: seq<string>, before: seq<string>, n: nat, q: string)
    requires before <= all && n <= |before| && q in all[n..]
    ensures q in before[n..] || q in all[|before|..]
  {
    var k :| 0 <= k < |all[n..]| && all[n..][k] == q;
    if n + k < |before| { assert before[n..][k] == q; }
    else { assert all[|before|..][n + k - |before|] == q; }
  }

  lemma ImportedSplit(fs: Files, file: string, a: seq<Action>, b: seq<Action>, x: string)
    requires Imported(fs, file, a + b, x)
    ensures Imported(fs, file, a, x) || Imported(fs, file, b, x)
  {
    var i :| 0 <= i < |a + b| && (a + b)[i].Import? && fs.resolve(file, (a + b)[i].name) == Some(x);
    if i < |a| { assert a[i].Import?; } else { assert b[i - |a|].Import?; }
  }

  /** What a part of a body reaches, the body reaches. */
  lemma ReachPart(fs: Files, file: string, a: seq<Action>, b: seq<Action>, c: seq<Action>, q: string)
    requires Reaches(fs, file, b, q)
    ensures Reaches(fs, file, a + b + c, q)
  {
    var all := a + b + c;
    var n: nat :| ReachIn(fs, file, b, q, n);
    if Imported(fs, file, b, q) {
      var i :| 0 <= i < |b| && b[i].Import? && fs.resolve(file, b[i].name) == Some(q);
      assert all[|a| + i] == b[i];
    } else {
      var i :| 0 <= i < |b| && Through(fs, file, b[i], q, n);
      assert all[|a| + i] == b[i];
    }
    assert ReachIn(fs, file, all, q, n);
  }

  lemma GrewThen(fs: Files, file: string, a: seq<Action>, b: seq<Action>, s: Progress, t: Progress, r: Progress)
    requires Grew(fs, file, a, s, t) && t.error.None? && Grew(fs, file, b, t, r)
    ensures Grew(fs, file, a + b, s, r)
  {
    hide Reaches, Edge, Imported;
    forall q | q in r.modules[|s.modules|..] ensures Reaches(Cut(fs), file, a + b, q) {
      InTail(r.modules, t.modules, |s.modules|, q);
      if q in t.modules[|s.modules|..] {
        ReachPart(Cut(fs), file, [], a, b, q);
        assert [] + a + b == a + b;
      } else {
        ReachPart(Cut(fs), file, a, b, [], q);
        assert a + b + [] == a + b;
      }
    }
    forall q, x | r.error.None? && q in r.modules[|s.modules|..] && Edge(Cut(fs), q, x) ensures x in r.modules {
      InTail(r.modules, t.modules, |s.modules|, q);
    }
    forall x | r.error.None? && Imported(fs, file, a + b, x) ensures x in r.modules {
      ImportedSplit(fs, file, a, b, x);
    }
  }

  lemma GrewNone(fs: Files, file: string, s: Progress, r: Progress)
    requires s.modules == r.modules
    ensures Grew(fs, file, [], s, r)
  {
  }

  lemma {:induction false} BodyGrows(fs: Files, file: string, body: seq<Action>, s: Progress)
    requires s.error.None? && |s.modules| <= MAX_MODULES
    ensures Grew(fs, file, Performed(body), s, RunBody(fs, file, body, s))
    decreases MAX_MODULES - |s.modules|, 1, |body|
  {
    hide Grew, RunImport;
    GrewNone(fs, file, s, s);
    if body != [] && !body[0].Ends? {
      var rest := Performed(body[1..]);
      if body[0].Other? {
        OtherGrows(fs, file, body[0], s, if body[0].fails then Some(RunError) else None);
        if body[0].fails {
          GrewFailed(fs, file, [body[0]], rest, s, s.(error := Some(RunError)));
        } else {
          BodyGrows(fs, file, body[1..], s);
          GrewThen(fs, file, [body[0]], rest, s, s, RunBody(fs, file, body[1..], s));
        }
      } else {
        ImportGrows(fs, file, body[0].name, s);
        var t := RunImport(fs, file, body[0].name, s);
        if t.error.Some? {
          GrewFailed(fs, file, [body[0]], rest, s, t);
        } else {
          BodyGrows(fs, file, body[1..], t);
          GrewThen(fs, file, [body[0]], rest, s, t, RunBody(fs, file, body[1..], t));
        }
      }
    }
  }

  lemma OtherGrows(fs: Files, file: string, a: Action, s: Progress, e: Option<LoadErr>)
    requires a.Other?
    ensures Grew(fs, file, [a], s, s.(error := e))
  {
  }

  lemma GrewFailed(fs: Files, file: string, a: seq<Action>, b: seq<Action>, s: Progress, r: Progress)
    requires Grew(fs, file, a, s, r) && r.error.Some?
    ensures Grew(fs, file, a + b, s, r)
  {
    hide Reaches, Edge, Imported;
    forall q | q in r.modules[|s.modules|..] ensures Reaches(Cut(fs), file, a + b, q) {
      ReachPart(Cut(fs), file, [], a, b, q);
      assert [] + a + b == a + b;
    }
  }

  lemma {:induction false} ImportGrows(fs: Files, file: string, name: string, s: Progress)
    requires s.error.None? && |s.modules| <= MAX_MODULES
    ensures Grew(fs, file, [Import(name)], s, RunImport(fs, file, name, s))
    decreases MAX_MODULES - |s.modules|, 0
  {
    hide Reaches, Edge, RunBody;
    var act := [Import(name)];
    var path := fs.resolve(file, name);
    OnlyImport(fs, file, name);
    if path.Some? && path.value !in s.modules && fs.load(path.value).Module? && |s.modules| < MAX_MODULES {
      var body := fs.load(path.value).body;
      var t := Progress(s.error, s.modules + [path.value], s.started + [path.value]);
      BodyGrows(fs, path.value, body, t);
      var r := RunBody(fs, path.value, body, t);
      hide Imported;
      forall q | q in r.modules[|s.modules|..] ensures Reaches(Cut(fs), file, act, q) {
        InTail(r.modules, t.modules, |s.modules|, q);
        assert t.modules[|s.modules|..] == [path.value];
        if q == path.value {
          ReachFirst(fs, file, act, q);
        } else {
          ReachThrough(Cut(fs), file, act, 0, path.value, q);
        }
      }
      forall q, x | r.error.None? && q in r.modules[|s.modules|..] && Edge(Cut(fs), q, x) ensures x in r.modules {
        InTail(r.modules, t.modules, |s.modules|, q);
        assert t.modules[|s.modules|..] == [path.value];
        if q == path.value { EdgeImports(fs, q, x); }
      }
      assert t.modules[|s.modules|] == path.value;
    }
  }

  lemma OnlyImport(fs: Files, file: string, name: string)
    ensures forall x :: Imported(fs, file, [Import(name)], x) <==> fs.resolve(file, name) == Some(x)
  {
    assert [Import(name)][0].Import?;
  }

  lemma ReachFirst(fs: Files, file: string, body: seq<Action>, q: string)
    requires Imported(fs, file, body, q)
    ensures Reaches(Cut(fs), file, body, q)
  {
    assert ReachIn(Cut(fs), file, body, q, 0);
  }

  lemma EdgeImports(fs: Files, q: string, x: string)
    requires Edge(Cut(fs), q, x) && fs.load(q).Module?
    ensures Imported(fs, q, Performed(fs.load(q).body), x)
  {
  }

  // ----- whole programs -----

  /** No module is registered twice, and the registered ones are those whose bodies were
      begun, in that order. */
  lemma {:induction false} StartedOnce(fs: Files, file: string, body: seq<Action>, s: Progress)
    requires |s.modules| <= MAX_MODULES && Distinct(s.modules) && s.started == s.modules
    ensures var r := RunBody(fs, file, body, s); Distinct(r.modules) && r.started == r.modules
    decreases MAX_MODULES - |s.modules|, 1, |body|
  {
    if body != [] {
      if body[0].Import? {
        ImportedOnce(fs, file, body[0].name, s);
        var t := RunImport(fs, file, body[0].name, s);
        if t.error.None? { StartedOnce(fs, file, body[1..], t); }
      } else if body[0].Other? && !body[0].fails {
        StartedOnce(fs, file, body[1..], s);
      }
    }
  }

  lemma {:induction false} ImportedOnce(fs: Files, file: string, name: string, s: Progress)
    requires |s.modules| <= MAX_MODULES && Distinct(s.modules) && s.started == s.modules
    ensures var r := RunImport(fs, file, name, s); Distinct(r.modules) && r.started == r.modules
    decreases MAX_MODULES - |s.modules|, 0
  {
    var path := fs.resolve(file, name);
    if path.Some? && path.value !in s.modules && fs.load(path.value).Module? && |s.modules| < MAX_MODULES {
      StartedOnce(fs, path.value, fs.load(path.value).body,
        Progress(s.error, s.modules + [path.value], s.started + [path.value]));
    }
  }

  /** Whatever happens, only modules that performed imports reach are loaded; without an
      error, all of them are. */
  lemma LoadsWhatIsPerformed(fs: Files, file: string, body: seq<Action>, q: string)
    ensures var r := LoadOf(fs, file, body);
      && |r.modules| <= 64 && Distinct(r.modules) && r.started == r.modules
      && (q in r.modules ==> Reaches(Cut(fs), file, Performed(body), q))
      && (r.error.None? && Reaches(Cut(fs), file, Performed(body), q) ==> q in r.modules)
  {
    hide Reaches, RunBody, Performed;
    var s := Progress(None, [], []);
    var r := RunBody(fs, file, body, s);
    BodyGrows(fs, file, body, s);
    StartedOnce(fs, file, body, s);
    assert r.modules[0..] == r.modules;
    if r.error.None? && Reaches(Cut(fs), file, Performed(body), q) {
      AllReached(fs, file, Performed(body), r.modules, q);
    }
  }

  lemma AllReached(fs: Files, file: string, body: seq<Action>, c: seq<string>, q: string)
    requires forall r :: Imported(fs, file, body, r) ==> r in c
    requires forall p, r :: p in c && Edge(Cut(fs), p, r) ==> r in c
    requires Reaches(Cut(fs), file, body, q)
    ensures q in c
  {
    hide Edge;
    var n: nat :| ReachIn(Cut(fs), file, body, q, n);
    forall r | Imported(Cut(fs), file, body, r) ensures r in c { assert Imported(fs, file, body, r); }
    ClosedHoldsReach(Cut(fs), file, body, c, q, n);
  }

  // ----- bodies that end early -----

  lemma {:induction false} PerformedIs(body: seq<Action>)
    ensures |Performed(body)| <= |body| && Performed(body) == body[..|Performed(body)|]
    ensures |Performed(body)| < |body| ==> body[|Performed(body)|].Ends?
    decreases |body|
  {
    if body != [] && !body[0].Ends? { PerformedIs(body[1..]); }
  }

  /** A body that stands in from imports x behind the place where it ends. */
  ghost predicate EndsBefore(fs: Files, from: string, body: seq<Action>, x: string) {
    Imported(fs, from, body, x) && !Imported(fs, from, Performed(body), x)
  }

  /** Among the program and the modules that performed imports reach, no body ends
      before an import of a module that they do not reach. */
  ghost predicate SkipsNothing(fs: Files, file: string, body: seq<Action>) {
    && (forall x :: EndsBefore(fs, file, body, x) ==> Reaches(Cut(fs), file, Performed(body), x))
    && (forall p, x ::
          Reaches(Cut(fs), file, Performed(body), p) && fs.load(p).Module? && EndsBefore(fs, p, fs.load(p).body, x) ==>
            Reaches(Cut(fs), file, Performed(body), x))
  }

  /** What performed imports reach, the imports reach. */
  lemma {:induction false} CutReaches(fs: Files, file: string, body: seq<Action>, q: string, n: nat)
    requires ReachIn(Cut(fs), file, Performed(body), q, n)
    ensures ReachIn(fs, file, body, q, n)
    decreases n
  {
    PerformedIs(body);
    var cut := Performed(body);
    if Imported(Cut(fs), file, cut, q) {
      var i :| 0 <= i < |cut| && cut[i].Import? && fs.resolve(file, cut[i].name) == Some(q);
      assert body[i] == cut[i];
    } else {
      var i :| 0 <= i < |cut| && Through(Cut(fs), file, cut[i], q, n);
      var r := fs.resolve(file, cut[i].name).value;
      CutReaches(fs, r, fs.load(r).body, q, n - 1);
      assert body[i] == cut[i] && Through(fs, file, body[i], q, n);
    }
  }

  lemma {:induction false} ReachEdge(fs: Files, file: string, body: seq<Action>, p: string, x: string, n: nat)
    requires ReachIn(fs, file, body, p, n) && Edge(fs, p, x)
    ensures ReachIn(fs, file, body, x, n + 1)
    decreases n
  {
    hide Edge;
    if Imported(fs, file, body, p) {
      var i :| 0 <= i < |body| && body[i].Import? && fs.resolve(file, body[i].name) == Some(p);
      EdgeStep(fs, p, x, n);
      assert Through(fs, file, body[i], x, n + 1);
    } else {
      var i :| 0 <= i < |body| && Through(fs, file, body[i], p, n);
      var r := fs.resolve(file, body[i].name).value;
      ReachEdge(fs, r, fs.load(r).body, p, x, n - 1);
      assert Through(fs, file, body[i], x, n + 1);
    }
  }

  lemma EdgeStep(fs: Files, p: string, x: string, n: nat)
    requires Edge(fs, p, x)
    ensures fs.load(p).Module? && ReachIn(fs, p, fs.load(p).body, x, n)
  {
  }

  lemma CutReachesToo(fs: Files, file: string, body: seq<Action>, q: string)
    requires Reaches(Cut(fs), file, Performed(body), q)
    ensures Reaches(fs, file, body, q)
  {
    hide ReachIn;
    var n: nat :| ReachIn(Cut(fs), file, Performed(body), q, n);
    CutReaches(fs, file, body, q, n);
  }

  /** A load without an error has loaded all reached modules if and only if no body that
      was run ends before an import of a module that is not loaded otherwise. */
  lemma AllLoadedIff(fs: Files, file: string, body: seq<Action>)
    requires LoadOf(fs, file, body).error.None?
    ensures (forall q :: Reaches(fs, file, body, q) ==> q in LoadOf(fs, file, body).modules)
      <==> SkipsNothing(fs, file, body)
  {
    hide Reaches, LoadOf, Performed, Cut, Imported, Edge;
    var mods := LoadOf(fs, file, body).modules;
    forall q ensures q in mods <==> Reaches(Cut(fs), file, Performed(body), q) {
      LoadsWhatIsPerformed(fs, file, body, q);
    }
    if SkipsNothing(fs, file, body) {
      forall x | Imported(fs, file, body, x) ensures x in mods { PerformedImport(fs, file, body, x); }
      forall p, x | p in mods && Edge(fs, p, x) ensures x in mods {
        EdgeParts(fs, p, x);
        if Imported(fs, p, Performed(fs.load(p).body), x) { PerformedEdge(fs, file, Performed(body), p, x); }
      }
      forall q | Reaches(fs, file, body, q) ensures q in mods { FullyReached(fs, file, body, mods, q); }
    }
    if forall q :: Reaches(fs, file, body, q) ==> q in mods {
      forall x | EndsBefore(fs, file, body, x) ensures x in mods { ReachImported(fs, file, body, x); }
      forall p, x | p in mods && fs.load(p).Module? && EndsBefore(fs, p, fs.load(p).body, x) ensures x in mods {
        CutReachesToo(fs, file, body, p);
        ReachOn(fs, file, body, p, x);
      }
    }
  }

  lemma PerformedImport(fs: Files, file: string, body: seq<Action>, x: string)
    requires Imported(fs, file, body, x)
    ensures EndsBefore(fs, file, body, x) || Reaches(Cut(fs), file, Performed(body), x)
  {
    if Imported(fs, file, Performed(body), x) { ReachFirst(fs, file, Performed(body), x); }
  }

  lemma EdgeParts(fs: Files, p: string, x: string)
    requires Edge(fs, p, x)
    ensures fs.load(p).Module? && Imported(fs, p, fs.load(p).body, x)
  {
  }

  lemma PerformedEdge(fs: Files, file: string, body: seq<Action>, p: string, x: string)
    requires Reaches(Cut(fs), file, body, p) && fs.load(p).Module? && Imported(fs, p, Performed(fs.load(p).body), x)
    ensures Reaches(Cut(fs), file, body, x)
  {
    var n: nat :| ReachIn(Cut(fs), file, body, p, n);
    assert Imported(Cut(fs), p, Performed(fs.load(p).body), x);
    ReachEdge(Cut(fs), file, body, p, x, n);
  }

  lemma FullyReached(fs: Files, file: string, body: seq<Action>, c: seq<string>, q: string)
    requires forall r :: Imported(fs, file, body, r) ==> r in c
    requires forall p, r :: p in c && Edge(fs, p, r) ==> r in c
    requires Reaches(fs, file, body, q)
    ensures q in c
  {
    hide Edge, Imported;
    var n: nat :| ReachIn(fs, file, body, q, n);
    ClosedHoldsReach(fs, file, body, c, q, n);
  }

  lemma ReachImported(fs: Files, file: string, body: seq<Action>, x: string)
    requires Imported(fs, file, body, x)
    ensures Reaches(fs, file, body, x)
  {
    assert ReachIn(fs, file, body, x, 0);
  }

  lemma ReachOn(fs: Files, file: string, body: seq<Action>, p: string, x: string)
    requires Reaches(fs, file, body, p) && fs.load(p).Module? && Imported(fs, p, fs.load(p).body, x)
    ensures Reaches(fs, file, body, x)
  {
    var n: nat :| ReachIn(fs, file, body, p, n);
    ReachEdge(fs, file, body, p, x, n);
  }

  /** A `return` before an import: no error, and the module is not loaded. */
  lemma ReturnSkipsImport(fs: Files, file: string, name: string)
    requires fs.resolve(file, name).Some?
    ensures var body := [Ends, Import(name)]; var r := LoadOf(fs, file, body);
      r.error.None? && r.modules == [] && Reaches(fs, file, body, fs.resolve(file, name).value)
  {
    var body := [Ends, Import(name)];
    assert body[1].Import?;
    ReachImported(fs, file, body, fs.resolve(file, name).value);
  }

  // ----- the loader as the repository writes it -----

  class Loader {
    const fs: Files
    var file: string
    var modules: seq<string>
    var error: Option<LoadErr>
    ghost var Started: seq<string>    // the modules whose bodies were begun, in order

    ghost function View(): Progress
      reads this
    {
      Progress(error, modules, Started)
    }

    constructor (fs: Files, file: string)
      ensures this.fs == fs && this.file == file && View() == Progress(None, [], [])
    {
      this.fs := fs;
      this.file := file;
      modules := [];
      error := None;
      Started := [];
    }

    /** module_loaded */
    method Loaded(path: string) returns (r: bool)
      ensures r <==> path in modules
    {
      for i := 0 to |modules|
        invariant path !in modules[..i]
      {
        if modules[i] == path { return true; }
      }
      assert modules[..|modules|] == modules;
      r := false;
    }

    /** OP_IMPORT, from the file that is running. */
    method Load(name: string)
      requires error.None? && |modules| <= MAX_MODULES
      modifies this
      ensures View() == RunImport(fs, old(file), name, old(View())) && file == old(file)
      decreases MAX_MODULES - |modules|, 0, 1
    {
      hide RunBody;
      var resolved := fs.resolve(file, name);
      if resolved.None? {
        error := Some(InvalidPath);
        return;
      }
      var path := resolved.value;
      var loaded := Loaded(path);
      if loaded { return; }
      var source := fs.load(path);
      if source.Missing? {
        error := Some(CannotOpen);
        return;
      }
      if source.Malformed? {
        error := Some(BadModule);
        return;
      }
      if |modules| >= MAX_MODULES {
        error := Some(TooManyModules);
        return;
      }
      modules := modules + [path];
      var saved := file;
      file := path;
      Start(source.body);
      file := saved;
    }

    /** The run of a module's body, in its own file. */
    method Start(body: seq<Action>)
      requires error.None? && |modules| <= MAX_MODULES
      modifies this
      ensures View() == RunBody(fs, old(file), body, Progress(None, old(modules), old(Started) + [old(file)]))
      ensures file == old(file)
      decreases MAX_MODULES - |modules|, 2
    {
      hide RunBody;
      Started := Started + [file];
      Execute(body);
    }

    /** A body, as far as it is run. */
    method Execute(body: seq<Action>)
      requires error.None? && |modules| <= MAX_MODULES
      modifies this
      ensures View() == RunBody(fs, old(file), body, old(View())) && file == old(file)
      decreases MAX_MODULES - |modules|, 1
    {
      hide RunImport;
      assert body[0..] == body;
      for i := 0 to |body|
        invariant error.None? && file == old(file) && |old(modules)| <= |modules| <= MAX_MODULES
        invariant RunBody(fs, file, body[i..], View()) == RunBody(fs, file, body, old(View()))
      {
        assert body[i..][0] == body[i] && body[i..][1..] == body[i + 1..];
        match body[i]
        case Other(fails) =>
          if fails {
            error := Some(RunError);
            return;
          }
        case Ends => return;
        case Import(name) =>
          Load(name);
          if error.Some? { return; }
      }
    }
  }

  /** A program and all it imports. */
  method LoadProgram(fs: Files, file: string, body: seq<Action>) returns (err: Option<LoadErr>, modules: seq<string>)
    ensures err == LoadOf(fs, file, body).error && modules == LoadOf(fs, file, body).modules
  {
    hide RunBody;
    var loader := new Loader(fs, file);
    loader.Execute(body);
    modules := loader.modules;
    err := loader.error;
  }
}
