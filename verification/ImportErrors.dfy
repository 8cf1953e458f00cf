/** When loading a program's imports succeeds, over any graph of modules. */
module ImportErrors {
  import opened Ast
  import opened Imports

  /** No action that is performed fails, and every import that is performed leads to a file
      that is there and parses. */
  ghost predicate Clean(fs: Files, file: string, body: seq<Action>) {
    forall a :: a in Performed(body) ==>
      (a.Other? ==> !a.fails)
      && (a.Import? ==> fs.resolve(file, a.name).Some? && fs.load(fs.resolve(file, a.name).value).Module?)
  }

  /** The module that stands in p. */
  ghost predicate CleanModule(fs: Files, p: string) {
    fs.load(p).Module? && Clean(fs, p, fs.load(p).body)
  }

  ghost predicate Reached(fs: Files, file: string, body: seq<Action>, p: string) {
    Reaches(Cut(fs), file, Performed(body), p)
  }

  /** The program and every module that performed imports reach are clean, and these are at
      most 64. */
  ghost predicate Loadable(fs: Files, file: string, body: seq<Action>) {
    && Clean(fs, file, body)
    && (forall p :: Reached(fs, file, body, p) ==> CleanModule(fs, p))
    && (forall ms: seq<string> :: Distinct(ms) && (forall p :: p in ms ==> Reached(fs, file, body, p)) ==> |ms| <= 64)
  }

  // ----- one step -----

  lemma CleanCons(fs: Files, file: string, a: Action, rest: seq<Action>)
    requires !a.Ends?
    ensures Clean(fs, file, [a] + rest) <==> Clean(fs, file, [a]) && Clean(fs, file, rest)
  {
    assert ([a] + rest)[1..] == rest && [a][1..] == [];
    assert Performed([a] + rest) == [a] + Performed(rest) && Performed([a]) == [a] + Performed([]);
  }

  lemma CleanOne(fs: Files, file: string, a: Action)
    requires !a.Ends?
    ensures Clean(fs, file, [a])
      <==> (a.Other? ==> !a.fails)
           && (a.Import? ==> fs.resolve(file, a.name).Some? && fs.load(fs.resolve(file, a.name).value).Module?)
  {
    assert [a][1..] == [] && Performed([a]) == [a] + Performed([]);
  }

  lemma CleanNone(fs: Files, file: string, body: seq<Action>)
    requires body == [] || body[0].Ends?
    ensures Clean(fs, file, body) && Performed(body) == []
  {
  }

  /** What an import answers. */
  lemma ImportAnswers(fs: Files, file: string, name: string, s: Progress)
    requires |s.modules| <= 64
    ensures var path := fs.resolve(file, name); var r := RunImport(fs, file, name, s);
      if path.None? then r.error == Some(InvalidPath)
      else if path.value in s.modules then r == s
      else if fs.load(path.value).Missing? then r.error == Some(CannotOpen)
      else if fs.load(path.value).Malformed? then r.error == Some(BadModule)
      else if |s.modules| == 64 then r.error == Some(TooManyModules)
      else r == RunBody(fs, path.value, fs.load(path.value).body,
                        Progress(s.error, s.modules + [path.value], s.started + [path.value]))
  {
    hide RunBody;
  }

  lemma BodyStep(fs: Files, file: string, body: seq<Action>, s: Progress)
    requires |s.modules| <= 64
    ensures body == [] || body[0].Ends? ==> RunBody(fs, file, body, s) == s
    ensures body != [] && body[0].Other? ==>
      RunBody(fs, file, body, s)
      == if body[0].fails then s.(error := Some(RunError)) else RunBody(fs, file, body[1..], s)
    ensures body != [] && body[0].Import? ==>
      var t := RunImport(fs, file, body[0].name, s);
      RunBody(fs, file, body, s) == if t.error.Some? then t else RunBody(fs, file, body[1..], t)
  {
    hide RunImport;
  }

  // ----- success means that everything is clean -----

  ghost predicate AllModules(fs: Files, ms: seq<string>) { forall q :: q in ms ==> fs.load(q).Module? }

  /** The modules behind the first n are clean. */
  ghost predicate CleanBehind(fs: Files, ms: seq<string>, n: nat) {
    forall i :: n <= i < |ms| ==> CleanModule(fs, ms[i])
  }

  lemma {:induction false} SuccessIsClean(fs: Files, file: string, body: seq<Action>, s: Progress)
    requires s.error.None? && |s.modules| <= 64 && AllModules(fs, s.modules)
    requires RunBody(fs, file, body, s).error.None?
    ensures var r := RunBody(fs, file, body, s);
      && Clean(fs, file, body) && AllModules(fs, r.modules) && s.modules <= r.modules
      && CleanBehind(fs, r.modules, |s.modules|)
    decreases 64 - |s.modules|, 1, |body|
  {
    hide RunBody, RunImport, Clean, CleanModule;
    BodyStep(fs, file, body, s);
    if body == [] || body[0].Ends? {
      CleanNone(fs, file, body);
    } else {
      assert body == [body[0]] + body[1..];
      CleanCons(fs, file, body[0], body[1..]);
      CleanOne(fs, file, body[0]);
      if body[0].Other? {
        SuccessIsClean(fs, file, body[1..], s);
      } else {
        ImportIsClean(fs, file, body[0].name, s);
        var t := RunImport(fs, file, body[0].name, s);
        SuccessIsClean(fs, file, body[1..], t);
        BehindThen(fs, s.modules, t.modules, RunBody(fs, file, body, s).modules);
      }
    }
  }

  lemma BehindThen(fs: Files, a: seq<string>, b: seq<string>, c: seq<string>)
    requires a <= b <= c && CleanBehind(fs, b, |a|) && CleanBehind(fs, c, |b|)
    ensures CleanBehind(fs, c, |a|)
  {
    hide CleanModule;
    forall i | |a| <= i < |c| ensures CleanModule(fs, c[i]) { if i < |b| { assert c[i] == b[i]; } }
  }

  lemma {:induction false} ImportIsClean(fs: Files, file: string, name: string, s: Progress)
    requires s.error.None? && |s.modules| <= 64 && AllModules(fs, s.modules)
    requires RunImport(fs, file, name, s).error.None?
    ensures var r := RunImport(fs, file, name, s);
      && fs.resolve(file, name).Some? && fs.load(fs.resolve(file, name).value).Module?
      && AllModules(fs, r.modules) && s.modules <= r.modules && |s.modules| <= |r.modules| <= 64
      && CleanBehind(fs, r.modules, |s.modules|)
    decreases 64 - |s.modules|, 0
  {
    hide RunBody, Clean;
    ImportAnswers(fs, file, name, s);
    var path := fs.resolve(file, name).value;
    if path !in s.modules {
      var t := Progress(s.error, s.modules + [path], s.started + [path]);
      SuccessIsClean(fs, path, fs.load(path).body, t);
      var r := RunBody(fs, path, fs.load(path).body, t);
      assert CleanBehind(fs, t.modules, |s.modules|);
      BehindThen(fs, s.modules, t.modules, r.modules);
    }
  }

  // ----- and where everything is clean there is no error -----

  /** The modules registered so far are distinct and reached from the start. */
  ghost predicate Registered(fs: Files, start: string, main: seq<Action>, ms: seq<string>) {
    Distinct(ms) && forall p :: p in ms ==> Reached(fs, start, main, p)
  }

  lemma {:induction false} CleanSucceeds(fs: Files, start: string, main: seq<Action>, file: string, body: seq<Action>,
      s: Progress)
    requires Loadable(fs, start, main) && s.error.None? && |s.modules| <= 64 && Registered(fs, start, main, s.modules)
    requires Clean(fs, file, body)
    requires forall x :: Imported(fs, file, Performed(body), x) ==> Reached(fs, start, main, x)
    ensures var r := RunBody(fs, file, body, s); r.error.None? && Registered(fs, start, main, r.modules)
    decreases 64 - |s.modules|, 1, |body|
  {
    hide RunBody, RunImport, Clean, Registered, Loadable, Reached;
    BodyStep(fs, file, body, s);
    if body != [] && !body[0].Ends? {
      assert body == [body[0]] + body[1..];
      CleanCons(fs, file, body[0], body[1..]);
      CleanOne(fs, file, body[0]);
      PerformedParts(fs, file, body);
      if body[0].Other? {
        CleanSucceeds(fs, start, main, file, body[1..], s);
      } else {
        ImportSucceeds(fs, start, main, file, body[0].name, s);
        CleanSucceeds(fs, start, main, file, body[1..], RunImport(fs, file, body[0].name, s));
      }
    }
  }

  lemma PerformedParts(fs: Files, file: string, body: seq<Action>)
    requires body != [] && !body[0].Ends?
    ensures forall x :: Imported(fs, file, Performed(body[1..]), x) ==> Imported(fs, file, Performed(body), x)
    ensures body[0].Import? && fs.resolve(file, body[0].name).Some? ==>
      Imported(fs, file, Performed(body), fs.resolve(file, body[0].name).value)
  {
    var all, rest := Performed(body), Performed(body[1..]);
    assert all == [body[0]] + rest;
    forall x | Imported(fs, file, rest, x) ensures Imported(fs, file, all, x) {
      var i :| 0 <= i < |rest| && rest[i].Import? && fs.resolve(file, rest[i].name) == Some(x);
      assert all[i + 1] == rest[i];
    }
    assert all[0] == body[0];
  }

  lemma {:induction false} ImportSucceeds(fs: Files, start: string, main: seq<Action>, file: string, name: string,
      s: Progress)
    requires Loadable(fs, start, main) && s.error.None? && |s.modules| <= 64 && Registered(fs, start, main, s.modules)
    requires fs.resolve(file, name).Some? && Reached(fs, start, main, fs.resolve(file, name).value)
    ensures var r := RunImport(fs, file, name, s);
      r.error.None? && Registered(fs, start, main, r.modules) && |s.modules| <= |r.modules| <= 64
    decreases 64 - |s.modules|, 0
  {
    hide RunBody, Clean, Registered, Loadable, Reached;
    ImportAnswers(fs, file, name, s);
    var path := fs.resolve(file, name).value;
    ReachedClean(fs, start, main, path);
    if path !in s.modules {
      OneMore(fs, start, main, s.modules, path);
      var body := fs.load(path).body;
      var t := Progress(s.error, s.modules + [path], s.started + [path]);
      forall x | Imported(fs, path, Performed(body), x) ensures Reached(fs, start, main, x) {
        ReachedOn(fs, start, main, path, x);
      }
      CleanSucceeds(fs, start, main, path, body, t);
    }
  }

  lemma ReachedClean(fs: Files, start: string, main: seq<Action>, p: string)
    requires Loadable(fs, start, main) && Reached(fs, start, main, p)
    ensures fs.load(p).Module? && Clean(fs, p, fs.load(p).body)
  {
    hide Clean, Reached;
    assert CleanModule(fs, p);
  }

  /** There is room for one more, or 65 would be reached. */
  lemma OneMore(fs: Files, start: string, main: seq<Action>, ms: seq<string>, p: string)
    requires Loadable(fs, start, main) && Registered(fs, start, main, ms) && Reached(fs, start, main, p) && p !in ms
    ensures |ms| < 64 && Registered(fs, start, main, ms + [p])
  {
    hide Reached, Clean, CleanModule;
    var more := ms + [p];
    assert forall q :: q in more ==> q in ms || q == p;
    assert Distinct(more);
    assert |more| <= 64;
  }

  lemma ReachedOn(fs: Files, start: string, main: seq<Action>, p: string, x: string)
    requires Reached(fs, start, main, p) && fs.load(p).Module? && Imported(fs, p, Performed(fs.load(p).body), x)
    ensures Reached(fs, start, main, x)
  {
    hide ReachIn;
    var n: nat :| ReachIn(Cut(fs), start, Performed(main), p, n);
    CutEdge(fs, p, x);
    ReachEdge(Cut(fs), start, Performed(main), p, x, n);
  }

  lemma CutEdge(fs: Files, p: string, x: string)
    requires fs.load(p).Module? && Imported(fs, p, Performed(fs.load(p).body), x)
    ensures Edge(Cut(fs), p, x)
  {
    var body := Performed(fs.load(p).body);
    var i :| 0 <= i < |body| && body[i].Import? && fs.resolve(p, body[i].name) == Some(x);
    assert Cut(fs).resolve(p, body[i].name) == Some(x);
  }

  // ----- the theorem -----

  lemma {:induction false} FewDistinct(ms: seq<string>, all: seq<string>)
    requires Distinct(ms) && forall p :: p in ms ==> p in all
    ensures |ms| <= |all|
    decreases |all|
  {
    if ms != [] {
      var p, rest := ms[|ms| - 1], ms[..|ms| - 1];
      assert p in ms && p in all;
      var i :| 0 <= i < |all| && all[i] == p;
      var others := all[..i] + all[i + 1..];
      forall q | q in rest ensures q in others {
        var k :| 0 <= k < |rest| && rest[k] == q;
        assert ms[k] == q && q in ms && q in all && ms[k] != ms[|ms| - 1];
        var j :| 0 <= j < |all| && all[j] == q;
        if j < i { assert others[j] == q; } else { assert others[j - 1] == q; }
      }
      FewDistinct(rest, others);
    }
  }

  /** Loading ends without an error if and only if everything that is performed is clean and
      at most 64 modules are reached. */
  lemma LoadsIff(fs: Files, file: string, body: seq<Action>)
    ensures LoadOf(fs, file, body).error.None? <==> Loadable(fs, file, body)
  {
    hide RunBody, Clean, CleanModule, Reaches, Performed, Cut;
    var s := Progress(None, [], []);
    var r := LoadOf(fs, file, body);
    if r.error.None? {
      SuccessIsClean(fs, file, body, s);
      forall p ensures Reached(fs, file, body, p) ==> p in r.modules { LoadsWhatIsPerformed(fs, file, body, p); }
      forall p | Reached(fs, file, body, p) ensures CleanModule(fs, p) {
        var i :| 0 <= i < |r.modules| && r.modules[i] == p;
      }
      forall ms: seq<string> | Distinct(ms) && (forall p :: p in ms ==> Reached(fs, file, body, p)) ensures |ms| <= 64 {
        FewDistinct(ms, r.modules);
        LoadsWhatIsPerformed(fs, file, body, "");
      }
    }
    if Loadable(fs, file, body) {
      forall x | Imported(fs, file, Performed(body), x) ensures Reached(fs, file, body, x) {
        FirstReached(fs, file, body, x);
      }
      CleanSucceeds(fs, file, body, file, body, s);
    }
  }

  lemma FirstReached(fs: Files, file: string, body: seq<Action>, x: string)
    requires Imported(fs, file, Performed(body), x)
    ensures Reached(fs, file, body, x)
  {
    ReachFirst(fs, file, Performed(body), x);
  }
}
