/** Collections in the course of a run (vm_gc_collect in src/vm.c): which bindings and
    frames a machine comes to have, what a collection keeps of what they lead to, and when
    it takes something away that is needed later. */
module GcRuns {
  import opened Gcs

  // ----- what a collection keeps -----

  lemma {:induction false} SavedBounds(frames: seq<Frame>, live: set<Obj>, s: set<Obj>)
    requires FramesSafe(frames, s) && Closed(live) && live <= s
    ensures var k := live + Fns(frames) + SavedAhead(frames, live, s);
      k <= s && FrameRoots(frames) <= k && ClosedBeyond(k, Fns(frames))
    decreases |frames|
  {
    hide Objs, Ahead;
    if frames != [] {
      var below, f := frames[..|frames| - 1], frames[|frames| - 1];
      SavedBounds(below, live, s);
      var c: set<Obj> :| c <= s && Objs(f.saved) <= c && ClosedBeyond(c, Fns(frames));
      var stop := Fns(frames) - live;
      FnsWithin(frames, s);
      assert OpenAt(c + live + Fns(frames), stop);
      AheadIs(Objs(f.saved), stop, s, c + live + Fns(frames));
    }
  }

  lemma {:induction false} FnsWithin(frames: seq<Frame>, s: set<Obj>)
    requires FramesSafe(frames, s)
    ensures Fns(frames) <= s && Fns(frames) <= FrameRoots(frames)
    decreases |frames|
  {
    hide Objs, SavedSafe;
    if frames != [] { FnsWithin(frames[..|frames| - 1], s); }
  }

  lemma {:induction false} SavedLeast(frames: seq<Frame>, live: set<Obj>, s: set<Obj>, c: set<Obj>)
    requires c <= s && Closed(c) && FrameRoots(frames) <= c
    ensures SavedAhead(frames, live, s) <= c && Fns(frames) <= c
    decreases |frames|
  {
    hide Objs, Ahead;
    if frames != [] {
      var below, f := frames[..|frames| - 1], frames[|frames| - 1];
      SavedLeast(below, live, s, c);
      assert OpenAt(c, Fns(frames) - live);
      AheadIs(Objs(f.saved), Fns(frames) - live, s, c);
    }
  }

  /** What survives lies in s, holds the roots, and is left by values of the frames'
      functions only. */
  lemma SurvivorsHold(roots: set<Obj>, frames: seq<Frame>, s: set<Obj>)
    requires RootsSafe(roots, s) && FramesSafe(frames, s)
    ensures var k := Survivors(roots, frames, s);
      k <= s && roots + FrameRoots(frames) + Fns(frames) <= k && ClosedBeyond(k, Fns(frames))
  {
    hide Objs, Ahead, FramesSafe, FrameRoots, Fns, SavedAhead;
    var c: set<Obj> :| c <= s && roots <= c && Closed(c);
    assert OpenAt(c, {});
    AheadIs(roots, {}, s, c);
    var live := Ahead(roots, {}, s);
    assert Closed(live);
    SavedBounds(frames, live, s);
  }

  /** A collection keeps exactly what all roots reach if and only if, before it, the
      captured values of every frame's function are among what the stack, the environment
      and the saved environments lead to without help of a frame's function. */
  lemma KeepsAllIff(roots: set<Obj>, frames: seq<Frame>, s: set<Obj>)
    requires RootsSafe(roots, s) && FramesSafe(frames, s)
    ensures IsReach(Survivors(roots, frames, s), roots + FrameRoots(frames), s)
      <==> forall f | f in Fns(frames) :: Objs(f.kids) <= Survivors(roots, frames, s)
  {
    hide Objs, FramesSafe, FrameRoots, Fns, Survivors;
    var k := Survivors(roots, frames, s);
    SurvivorsHold(roots, frames, s);
    if forall f | f in Fns(frames) :: Objs(f.kids) <= k {
      assert Closed(k);
      forall c: set<Obj> | c <= s && roots + FrameRoots(frames) <= c && Closed(c) ensures k <= c {
        SurvivorsLeast(roots, frames, s, c);
      }
    }
  }

  lemma SurvivorsLeast(roots: set<Obj>, frames: seq<Frame>, s: set<Obj>, c: set<Obj>)
    requires c <= s && roots + FrameRoots(frames) <= c && Closed(c)
    ensures Survivors(roots, frames, s) <= c
  {
    hide Objs, Ahead, FrameRoots, Fns, SavedAhead;
    assert OpenAt(c, {});
    AheadIs(roots, {}, s, c);
    SavedLeast(frames, Ahead(roots, {}, s), s, c);
  }

  // ----- bindings and frames over a run -----

  /** The current bindings, and the calls in progress. */
  datatype Calls = Calls(env: seq<Cell>, frames: seq<Frame>)

  predicate IsClosure(fn: Obj?) { fn != null && fn.kids != [] }

  /** What a run does to them.  Enter: a call binds copies of what a closure has captured,
      and the arguments there is room for; any other function goes on in its caller's
      bindings. */
  datatype Move = Bind(v: Cell) | Unbind(n: nat) | Assign(i: nat, v: Cell) | Enter(fn: Obj, args: seq<Cell>) | Return

  /** The bindings that the running function has not declared itself. */
  function Floor(frames: seq<Frame>): nat {
    if frames == [] then 0 else
    var f := frames[|frames| - 1];
    if IsClosure(f.fn) then |f.fn.kids| else f.count
  }

  /** Blocks drop what they have declared, and names stand for bindings there are. */
  predicate Legal(c: Calls, m: Move) {
    match m
    case Unbind(n) => Floor(c.frames) + n <= |c.env|
    case Assign(i, _) => i < |c.env|
    case Return => c.frames != []
    case _ => true
  }

  function Cut(env: seq<Cell>, n: nat): seq<Cell> { if n <= |env| then env[..n] else env }

  function Do(c: Calls, m: Move): (r: Calls)
    requires Legal(c, m)
    ensures m.Return? ==> |r.frames| < |c.frames|
  {
    match m
    case Bind(v) => c.(env := c.env + [v])
    case Unbind(n) => c.(env := c.env[..|c.env| - n])
    case Assign(i, v) => c.(env := c.env[i := v])
    case Enter(fn, args) =>
      if IsClosure(fn) then Calls(fn.kids + args, c.frames + [Frame(fn, |c.env|, c.env)])
      else Calls(c.env + args, c.frames + [Frame(fn, |c.env|, [])])
    case Return =>
      var f := c.frames[|c.frames| - 1];
      Calls(if IsClosure(f.fn) then f.saved else Cut(c.env, f.count), c.frames[..|c.frames| - 1])
  }

  predicate AllLegal(c: Calls, ms: seq<Move>)
    decreases |ms|
  {
    ms != [] ==> Legal(c, ms[0]) && AllLegal(Do(c, ms[0]), ms[1..])
  }

  function Play(c: Calls, ms: seq<Move>): Calls
    requires AllLegal(c, ms)
    decreases |ms|
  {
    if ms == [] then c else Play(Do(c, ms[0]), ms[1..])
  }

  // ----- nothing is lost while captured variables keep their values -----

  /** Every closure that runs still has its captured values bound, now or in the bindings
      saved for it. */
  ghost predicate Intact(c: Calls)
    decreases |c.frames|
  {
    c.frames != [] ==>
      var f := c.frames[|c.frames| - 1];
      (if IsClosure(f.fn) then f.fn.kids <= c.env else f.count <= |c.env|) && Intact(Do(c, Return))
  }

  /** How many of the current bindings are copies of captured values. */
  function Captured(frames: seq<Frame>): nat
    decreases |frames|
  {
    if frames == [] then 0 else
    var f := frames[|frames| - 1];
    if IsClosure(f.fn) then |f.fn.kids| else Captured(frames[..|frames| - 1])
  }

  lemma {:induction false} CapturedFits(c: Calls)
    requires Intact(c)
    ensures Captured(c.frames) <= |c.env|
    ensures c.frames != [] && !IsClosure(c.frames[|c.frames| - 1].fn)
      ==> Captured(c.frames) <= c.frames[|c.frames| - 1].count
    decreases |c.frames|
  {
    if c.frames != [] && !IsClosure(c.frames[|c.frames| - 1].fn) { CapturedFits(Do(c, Return)); }
  }

  /** An assignment keeps the captured values bound if and only if it is to another
      variable, or assigns what the variable has. */
  lemma {:induction false} AssignKeepsIff(c: Calls, i: nat, v: Cell)
    requires Intact(c) && i < |c.env|
    ensures Intact(Do(c, Assign(i, v))) <==> i >= Captured(c.frames) || v == c.env[i]
    decreases |c.frames|
  {
    var c1 := Do(c, Assign(i, v));
    if v == c.env[i] { assert c1 == c; }
    if c.frames != [] {
      var f := c.frames[|c.frames| - 1];
      var back := Do(c, Return);
      if IsClosure(f.fn) {
        assert Do(c1, Return) == back;
        PrefixSet(f.fn.kids, c.env, i, v);
      } else if i < f.count {
        assert Do(c1, Return) == Do(back, Assign(i, v));
        AssignKeepsIff(back, i, v);
      } else {
        CapturedFits(c);
        assert Do(c1, Return) == back;
      }
    }
  }

  lemma PrefixSet(a: seq<Cell>, b: seq<Cell>, i: nat, v: Cell)
    requires a <= b && i < |b|
    ensures a <= b[i := v] <==> i >= |a| || v == b[i]
  {
    if i < |a| && a <= b[i := v] { assert a[i] == b[i := v][i]; }
  }

  /** So does everything else a run does. */
  lemma MoveKeeps(c: Calls, m: Move)
    requires Intact(c) && Legal(c, m) && !m.Assign?
    ensures Intact(Do(c, m))
  {
    var c1 := Do(c, m);
    match m
    case Enter(fn, args) => EnterKeeps(c, fn, args);
    case Return =>
    case Bind(v) => if c.frames != [] { assert Do(c1, Return) == Do(c, Return); }
    case Unbind(n) => if c.frames != [] { assert Do(c1, Return) == Do(c, Return); }
  }

  lemma EnterKeeps(c: Calls, fn: Obj, args: seq<Cell>)
    requires Intact(c)
    ensures Intact(Do(c, Enter(fn, args)))
  {
    var c1 := Do(c, Enter(fn, args));
    assert c1.frames[..|c1.frames| - 1] == c.frames;
    assert (c.env + args)[..|c.env|] == c.env;
    assert Do(c1, Return) == c;
  }

  /** No captured variable gets another value. */
  predicate Careful(c: Calls, ms: seq<Move>)
    requires AllLegal(c, ms)
    decreases |ms|
  {
    ms != [] ==>
      (ms[0].Assign? ==> ms[0].i >= Captured(c.frames) || ms[0].v == c.env[ms[0].i]) && Careful(Do(c, ms[0]), ms[1..])
  }

  lemma {:induction false} CarefulRuns(c: Calls, ms: seq<Move>)
    requires Intact(c) && AllLegal(c, ms) && Careful(c, ms)
    ensures Intact(Play(c, ms))
    decreases |ms|
  {
    hide Intact, Do, Captured;
    if ms != [] {
      if ms[0].Assign? { AssignKeepsIff(c, ms[0].i, ms[0].v); } else { MoveKeeps(c, ms[0]); }
      CarefulRuns(Do(c, ms[0]), ms[1..]);
    }
  }

  lemma {:induction false} CapturedKept(c: Calls, k: set<Obj>, f: Obj)
    requires Intact(c) && Objs(c.env) + FrameRoots(c.frames) <= k && f in Fns(c.frames)
    ensures Objs(f.kids) <= k
    decreases |c.frames|
  {
    var top := c.frames[|c.frames| - 1];
    var back := Do(c, Return);
    if f == top.fn {
      if IsClosure(f) {
        forall o | o in Objs(f.kids) ensures o in k { assert Ref(o) in c.env; }
      }
    } else {
      assert Objs(back.env) <= k;
      CapturedKept(back, k, f);
    }
  }

  /** From any start, whatever is called, returned from, bound and assigned: as long as no
      captured variable gets another value, a collection keeps exactly what is reached. */
  lemma NothingLost(stack: seq<Cell>, env: seq<Cell>, ms: seq<Move>, s: set<Obj>)
    requires var c := Calls(env, []); AllLegal(c, ms) && Careful(c, ms)
    requires var c := Play(Calls(env, []), ms); Safe(stack, c.env, c.frames, s)
    ensures var c := Play(Calls(env, []), ms); var roots := Objs(stack) + Objs(c.env);
      IsReach(Survivors(roots, c.frames, s), roots + FrameRoots(c.frames), s)
  {
    hide Objs, FrameRoots, Fns, FramesSafe, IsReach, Survivors, Play, Careful, AllLegal, RootsSafe;
    var c := Play(Calls(env, []), ms);
    var roots := Objs(stack) + Objs(c.env);
    var k := Survivors(roots, c.frames, s);
    CarefulRuns(Calls(env, []), ms);
    SurvivorsHold(roots, c.frames, s);
    forall f | f in Fns(c.frames) ensures Objs(f.kids) <= k { CapturedKept(c, k, f); }
    KeepsAllIff(roots, c.frames, s);
  }

  lemma {:induction false} ClosedSafe(frames: seq<Frame>, k: set<Obj>)
    requires Closed(k) && FrameRoots(frames) <= k
    ensures FramesSafe(frames, k)
    decreases |frames|
  {
    hide Objs;
    if frames != [] {
      ClosedSafe(frames[..|frames| - 1], k);
      assert ClosedBeyond(k, Fns(frames));
    }
  }

  /** What such a collection leaves is enough for the next one behind a return. */
  lemma ReturnStaysSafe(stack: seq<Cell>, c: Calls, s: set<Obj>)
    requires Intact(c) && Safe(stack, c.env, c.frames, s) && c.frames != []
    ensures var c1 := Do(c, Return); Safe(stack, c1.env, c1.frames, Survivors(Objs(stack) + Objs(c.env), c.frames, s))
  {
    hide Fns, FramesSafe, Survivors;
    var c1 := Do(c, Return);
    var roots := Objs(stack) + Objs(c.env);
    var k := Survivors(roots, c.frames, s);
    SurvivorsHold(roots, c.frames, s);
    forall f | f in Fns(c.frames) ensures Objs(f.kids) <= k { CapturedKept(c, k, f); }
    assert Closed(k);
    assert Objs(c1.env) <= k;
    ClosedSafe(c1.frames, k);
  }

  // ----- a captured variable that gets another value -----

  /** A closure and the array it captured. */
  method ClosureHeap() returns (gc: Gc, fn: Obj, captured: Obj)
    ensures fresh(gc) && fresh(fn) && fresh(captured) && fn != captured
    ensures gc.Valid() && gc.Clear() && gc.List == [fn, captured] && gc.All() == {fn, captured}
    ensures fn.kids == [Ref(captured)] && captured.kids == []
  {
    gc := new Gc();
    captured := gc.Alloc(32, []);
    fn := gc.Alloc(64, [Ref(captured)]);
  }

  /** The closure is called where the caller has the variable `outer`, and its body assigns
      a number to the variable it has captured. */
  function Rebinds(fn: Obj): seq<Move> { [Enter(fn, []), Assign(0, Scalar)] }

  lemma Rebound(fn: Obj, captured: Obj, outer: Cell)
    requires fn.kids == [Ref(captured)]
    ensures var c := Calls([outer], []);
      AllLegal(c, Rebinds(fn)) && Play(c, Rebinds(fn)) == Calls([Scalar], [Frame(fn, 1, [outer])])
  {
    var c := Calls([outer], []);
    var ms := Rebinds(fn);
    var c1 := Do(c, ms[0]);
    assert c1 == Calls([Ref(captured)], [Frame(fn, 1, [outer])]);
    var rest := ms[1..];
    assert rest == [Assign(0, Scalar)] && rest[1..] == [];
    var c2 := Do(c1, rest[0]);
    assert c2 == Calls([Scalar], [Frame(fn, 1, [outer])]);
    assert AllLegal(c2, rest[1..]) && Play(c2, rest[1..]) == c2;
    assert AllLegal(c1, rest) && Play(c1, rest) == c2;
  }

  /** The collection that follows can take place, and keeps the closure alone. */
  lemma ReboundSurvivors(fn: Obj, captured: Obj, outer: Cell, s: set<Obj>, frames: seq<Frame>)
    requires fn.kids == [Ref(captured)] && s == {fn, captured} && (outer == Scalar || outer == Ref(fn))
    requires frames == [Frame(fn, 1, [outer])]
    ensures Safe([], [Scalar], frames, s) && Survivors(Objs([]) + Objs([Scalar]), frames, s) == {fn}
  {
    hide Safe, Survivors, Ahead;
    assert frames[..0] == [] && Fns(frames[..0]) == {} && Fns(frames) == {fn} && SavedAhead(frames[..0], {}, s) == {};
    assert Objs([]) + Objs([Scalar]) == {} && Objs([outer]) <= {fn};
    AheadIs({}, {}, s, {});
    AheadIs(Objs([outer]), {fn}, s, {fn});
    assert {fn} - {} == {fn};
    assert SavedAhead(frames, {}, s) == {} + Ahead(Objs([outer]), {fn}, s);
    OneSurvives(fn, s, frames);
    ReboundSafe(fn, outer, s, frames);
  }

  lemma OneSurvives(fn: Obj, s: set<Obj>, frames: seq<Frame>)
    requires Ahead({}, {}, s) == {} && Fns(frames) == {fn} && SavedAhead(frames, {}, s) <= {fn}
    ensures Survivors({}, frames, s) == {fn}
  {
    hide Ahead, Fns, SavedAhead;
  }

  lemma ReboundSafe(fn: Obj, outer: Cell, s: set<Obj>, frames: seq<Frame>)
    requires fn in s && frames == [Frame(fn, 1, [outer])] && Objs([outer]) <= {fn}
    ensures Safe([], [Scalar], frames, s)
  {
    assert frames[..0] == [] && Fns(frames) == {fn};
    assert Closed({}) && Objs([]) + Objs([Scalar]) == {};
    assert ClosedBeyond({fn}, {fn});
    assert SavedSafe(frames[0], Fns(frames), s);
  }

  /** A frame's function survives without what it captured: the body has assigned another
      value to its captured variable, and the array is nowhere else. */
  method FrameKeepsFunctionOnly() returns (gc: Gc, fn: Obj, captured: Obj, ghost c: Calls)
    ensures AllLegal(Calls([Scalar], []), Rebinds(fn)) && c == Play(Calls([Scalar], []), Rebinds(fn))
    ensures Safe([], c.env, c.frames, gc.All())
    ensures Objs(fn.kids) == {captured} && fn in gc.List && captured !in gc.List
  {
    hide Survivors, Safe, IsReach, FramesMark, Keep, Linked, Distinct, Bytes, AllLegal;
    gc, fn, captured := ClosureHeap();
    ghost var s := gc.All();
    Rebound(fn, captured, Scalar);
    ReboundSurvivors(fn, captured, Scalar, s, [Frame(fn, 1, [Scalar])]);
    assert Objs(fn.kids) == {captured};
    var live, m := gc.CollectVm([], [Scalar], [Frame(fn, 1, [Scalar])]);
    c := Calls([Scalar], [Frame(fn, 1, [Scalar])]);
    assert fn in gc.All() && captured !in gc.All();
  }

  /** What it keeps dangling comes back with the caller's bindings when the caller has a
      variable for the closure: the next collection of the call is safe, the next one
      after the return follows a pointer to a swept object. */
  method ReturnBringsItBack() returns (gc: Gc, fn: Obj, ghost c: Calls)
    ensures AllLegal(Calls([Ref(fn)], []), Rebinds(fn)) && c == Play(Calls([Ref(fn)], []), Rebinds(fn))
    ensures Safe([], c.env, c.frames, gc.All()) && fn in gc.List
    ensures Legal(c, Return) && !Safe([], Do(c, Return).env, Do(c, Return).frames, gc.All())
  {
    hide Survivors, Safe, IsReach, FramesMark, Keep, Linked, Distinct, Bytes, AllLegal, Play;
    var captured;
    gc, fn, captured := ClosureHeap();
    ghost var s := gc.All();
    Rebound(fn, captured, Ref(fn));
    ReboundSurvivors(fn, captured, Ref(fn), s, [Frame(fn, 1, [Ref(fn)])]);
    var live, m := gc.CollectVm([], [Scalar], [Frame(fn, 1, [Ref(fn)])]);
    c := Calls([Scalar], [Frame(fn, 1, [Ref(fn)])]);
    assert fn in gc.All();
    Dangles(fn, captured);
  }

  lemma Dangles(fn: Obj, captured: Obj)
    requires fn != captured && fn.kids == [Ref(captured)]
    ensures !Safe([], [Ref(fn)], [], {fn})
  {
    assert Objs([Ref(fn)]) == {fn} && Objs(fn.kids) == {captured};
  }

  // ----- collecting again and again -----

  /** An object to allocate, holding what is on the stack, and whether it is pushed. */
  datatype Work = Work(size: nat, push: bool)

  /** A new object that holds values of the stack may be pushed on it. */
  lemma SafePush(stack: seq<Cell>, env: seq<Cell>, frames: seq<Frame>, s: set<Obj>, o: Obj)
    requires Safe(stack, env, frames, s) && o.kids == stack
    ensures Safe(stack + [Ref(o)], env, frames, s + {o})
  {
    hide FramesSafe;
    FramesSafeMore(frames, s, s + {o});
    var c: set<Obj> :| c <= s && Objs(stack) + Objs(env) <= c && Closed(c);
    assert Objs(stack + [Ref(o)]) == Objs(stack) + {o};
    assert Closed(c + {o});
  }

  /** Any work between any number of collections, with the frames of any calls in
      progress: no collection takes away what a later one needs. */
  method Churn(gc: Gc, stack0: seq<Cell>, env: seq<Cell>, frames: seq<Frame>, work: seq<Work>)
      returns (stack: seq<Cell>)
    requires gc.Valid() && gc.Clear() && Safe(stack0, env, frames, gc.All()) && Paid(gc.Books())
    requires Spaced(gc.Books())
    modifies gc, gc.List`next, gc.List`marked
    ensures gc.Valid() && gc.Clear() && Safe(stack, env, frames, gc.All())
    ensures Paid(gc.Books()) && stack0 <= stack
    ensures work != [] ==> gc.bytesAllocated <= 1024 * 1024 || gc.bytesAllocated <= 2 * gc.Base
  {
    hide Safe, Linked, Distinct, Bytes;
    stack := stack0;
    for i := 0 to |work|
      invariant gc.Valid() && gc.Clear() && Safe(stack, env, frames, gc.All()) && Paid(gc.Books()) && stack0 <= stack
      invariant Spaced(gc.Books()) && (i > 0 ==> gc.bytesAllocated <= gc.nextGc)
      invariant forall o | o in gc.List :: o in old(gc.List) || fresh(o)
    {
      var o := gc.Alloc(work[i].size, stack);
      if work[i].push {
        SafePush(stack, env, frames, gc.All() - {o}, o);
        stack := stack + [Ref(o)];
      } else {
        SafeMore(stack, env, frames, gc.All() - {o}, gc.All());
      }
      assert fresh(o);
      assert forall k :: 0 <= k < |gc.List| ==> gc.List[k] in old(gc.List) || fresh(gc.List[k]);
      gc.CollectIfDue(stack, env, frames);
    }
  }
}
