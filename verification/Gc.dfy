/** The mark-and-sweep collector (src/gc.c, src/runtime.c, src/vm.c): depth-first
    marking over an arbitrary object graph, an in-place sweep of the list of all
    objects, byte accounting and the doubling threshold. */
module Gcs {

  const GC_INITIAL_THRESHOLD: nat := 1024 * 1024
  const GC_GROWTH_FACTOR: nat := 2

  /** A value: a scalar, or a pointer to a heap object that may be null. */
  datatype Cell = Scalar | Ref(obj: Obj?)

  /** An object header, and the values the object holds. */
  class Obj {
    var next: Obj?
    const size: nat
    var marked: bool
    const kids: seq<Cell>

    constructor (size: nat, kids: seq<Cell>, next: Obj?)
      ensures this.size == size && this.kids == kids && this.next == next && !marked
    {
      this.size := size;
      this.kids := kids;
      this.next := next;
      marked := false;
    }
  }

  // ----- the object graph -----

  ghost function Objs(vs: seq<Cell>): set<Obj> {
    set v | v in vs && v.Ref? && v.obj != null :: v.obj
  }

  /** Following any value of an object of s stays in s. */
  ghost predicate Closed(s: set<Obj>) {
    forall o | o in s :: Objs(o.kids) <= s
  }

  /** r is what can be reached from the roots inside s: the least closed set
      that holds them. */
  ghost predicate IsReach(r: set<Obj>, roots: set<Obj>, s: set<Obj>) {
    && roots <= r <= s && Closed(r)
    && forall c: set<Obj> | c <= s && roots <= c && Closed(c) :: r <= c
  }

  /** What can be reached in at most n steps. */
  ghost function Within(roots: set<Obj>, s: set<Obj>, n: nat): set<Obj>
    requires roots <= s && Closed(s)
    ensures Within(roots, s, n) <= s
  {
    if n == 0 then roots else
    var w := Within(roots, s, n - 1);
    w + set o, k | o in w && k in Objs(o.kids) :: k
  }

  ghost predicate Near(o: Obj, roots: set<Obj>, s: set<Obj>)
    requires roots <= s && Closed(s)
  {
    exists n: nat :: o in Within(roots, s, n)
  }

  lemma NearStep(o: Obj, k: Obj, roots: set<Obj>, s: set<Obj>)
    requires roots <= s && Closed(s) && Near(o, roots, s) && k in Objs(o.kids)
    ensures Near(k, roots, s)
  {
    var n: nat :| o in Within(roots, s, n);
    assert k in Within(roots, s, n + 1);
  }

  /** The least closed set is reachability: its members are those some number of
      steps away from a root. */
  lemma ReachIsWithin(r: set<Obj>, roots: set<Obj>, s: set<Obj>)
    requires Closed(s) && IsReach(r, roots, s)
    ensures forall o | o in s :: o in r <==> Near(o, roots, s)
  {
    hide Objs, Within, Near;
    forall o | o in s && Near(o, roots, s) ensures o in r { NearReach(o, r, roots, s); }
    NearClosed(roots, s);
    assert r <= set o | o in s && Near(o, roots, s);
  }

  lemma NearReach(o: Obj, r: set<Obj>, roots: set<Obj>, s: set<Obj>)
    requires Closed(s) && roots <= r <= s && Closed(r) && Near(o, roots, s)
    ensures o in r
  {
    var n: nat :| o in Within(roots, s, n);
    WithinReach(r, roots, s, n);
  }

  lemma NearClosed(roots: set<Obj>, s: set<Obj>)
    requires roots <= s && Closed(s)
    ensures var c := set o | o in s && Near(o, roots, s); roots <= c <= s && Closed(c)
  {
    hide Objs, Within;
    var c := set o | o in s && Near(o, roots, s);
    forall o, k | o in c && k in Objs(o.kids) ensures k in c { NearStep(o, k, roots, s); }
    forall o | o in roots ensures o in c { NearRoot(o, roots, s); }
  }

  lemma NearRoot(o: Obj, roots: set<Obj>, s: set<Obj>)
    requires o in roots && roots <= s && Closed(s)
    ensures Near(o, roots, s)
  {
    assert o in Within(roots, s, 0);
  }

  lemma {:induction false} WithinReach(r: set<Obj>, roots: set<Obj>, s: set<Obj>, n: nat)
    requires Closed(s) && roots <= r <= s && Closed(r)
    ensures Within(roots, s, n) <= r
  {
    if n > 0 { WithinReach(r, roots, s, n - 1); }
  }

  // ----- lists of objects -----

  ghost predicate Distinct(list: seq<Obj>) {
    forall i, j :: 0 <= i < j < |list| ==> list[i] != list[j]
  }

  ghost function After(list: seq<Obj>, i: nat): Obj? {
    if i + 1 < |list| then list[i + 1] else null
  }

  /** The objects of list, linked from head to null. */
  ghost predicate Linked(head: Obj?, list: seq<Obj>)
    reads list`next
  {
    && head == (if list == [] then null else list[0])
    && forall i :: 0 <= i < |list| ==> list[i].next == After(list, i)
  }

  ghost function Bytes(list: seq<Obj>): nat {
    if list == [] then 0 else list[0].size + Bytes(list[1..])
  }

  lemma {:induction false} BytesAppend(a: seq<Obj>, b: seq<Obj>)
    ensures Bytes(a + b) == Bytes(a) + Bytes(b)
  {
    if a == [] {
      assert a + b == b;
    } else {
      assert (a + b)[1..] == a[1..] + b;
      BytesAppend(a[1..], b);
    }
  }

  lemma LinkedAt(head: Obj?, list: seq<Obj>, k: nat)
    requires Linked(head, list) && k < |list|
    ensures list[k].next == After(list, k)
  {
  }

  /** A new object in front of a list. */
  lemma InFront(o: Obj, list: seq<Obj>, head: Obj?)
    requires o !in list && Distinct(list) && Linked(head, list) && o.next == head
    ensures Distinct([o] + list) && Linked(o, [o] + list) && Bytes([o] + list) == o.size + Bytes(list)
  {
    var all := [o] + list;
    assert all[1..] == list;
    assert forall k :: 0 <= k < |list| ==> all[k + 1] == list[k] && list[k] != o;
  }

  /** The members of keep, in their order. */
  ghost function Keep(list: seq<Obj>, keep: set<Obj>): seq<Obj> {
    if list == [] then []
    else (if list[0] in keep then [list[0]] else []) + Keep(list[1..], keep)
  }

  lemma {:induction false} KeepSnoc(list: seq<Obj>, keep: set<Obj>, o: Obj)
    ensures Keep(list + [o], keep) == Keep(list, keep) + if o in keep then [o] else []
  {
    if list == [] {
      assert list + [o] == [o];
    } else {
      var rest := list[1..];
      assert (list + [o])[0] == list[0] && (list + [o])[1..] == rest + [o];
      KeepSnoc(rest, keep, o);
      var first, more := if list[0] in keep then [list[0]] else [], if o in keep then [o] else [];
      assert first + (Keep(rest, keep) + more) == (first + Keep(rest, keep)) + more;
    }
  }

  /** Exactly the kept members remain, none twice. */
  lemma {:induction false} KeepMembers(list: seq<Obj>, keep: set<Obj>)
    ensures forall o: Obj :: o in Keep(list, keep) <==> o in list && o in keep
    ensures forall j :: 0 <= j < |Keep(list, keep)| ==> Keep(list, keep)[j] in list
    ensures Distinct(list) ==> Distinct(Keep(list, keep))
  {
    if list != [] {
      KeepMembers(list[1..], keep);
      assert Distinct(list) ==> list[0] !in list[1..];
      assert forall o: Obj :: o in list[1..] ==> o in list;
    }
  }

  // ----- marking -----

  ghost function Marked(s: set<Obj>): set<Obj>
    reads s`marked
  {
    set o | o in s && o.marked
  }

  /** Outside m, following any value of an object of c stays in c or m. */
  ghost predicate ClosedBeyond(c: set<Obj>, m: set<Obj>) {
    forall o | o in c - m :: Objs(o.kids) <= c + m
  }

  /** m1 is what marking from the roots makes of the marked set m: the least set
      that holds them and is closed beyond m. */
  ghost predicate IsMark(m: set<Obj>, roots: set<Obj>, s: set<Obj>, m1: set<Obj>) {
    && m + roots <= m1 <= s && ClosedBeyond(m1, m)
    && forall c: set<Obj> | c <= s && roots <= c && ClosedBeyond(c, m) :: m1 <= m + c
  }

  /** Marking from some roots and then from others is marking from both. */
  lemma MarkThen(m: set<Obj>, r1: set<Obj>, m1: set<Obj>, r2: set<Obj>, m2: set<Obj>, s: set<Obj>)
    requires IsMark(m, r1, s, m1) && IsMark(m1, r2, s, m2)
    ensures IsMark(m, r1 + r2, s, m2)
  {
    hide Objs;
    forall c: set<Obj> | c <= s && r1 + r2 <= c && ClosedBeyond(c, m) ensures m2 <= m + c {
      assert m1 <= m + c;
      assert ClosedBeyond(c, m1);
    }
  }

  lemma MarkNone(m: set<Obj>, s: set<Obj>)
    requires m <= s
    ensures IsMark(m, {}, s, m)
  {
  }

  /** From a clear state, marking marks exactly what the roots reach. */
  lemma MarkIsReach(roots: set<Obj>, s: set<Obj>, m: set<Obj>)
    requires IsMark({}, roots, s, m)
    ensures IsReach(m, roots, s)
  {
    hide Objs;
    forall c: set<Obj> | c <= s && roots <= c && Closed(c) ensures m <= c {
      assert ClosedBeyond(c, {});
      assert m <= {} + c;
    }
  }

  lemma ObjsOne(v: Cell)
    ensures Objs([v]) == if v.Ref? && v.obj != null then {v.obj} else {}
  {
  }

  lemma NoObjs(kids: seq<Cell>)
    ensures Objs(kids[..0]) == {}
  {
  }

  lemma KidsSplit(kids: seq<Cell>, i: nat)
    requires i < |kids|
    ensures Objs(kids[..i + 1]) == Objs(kids[..i]) + Objs([kids[i]]) && Objs([kids[i]]) <= Objs(kids)
  {
    assert kids[..i + 1] == kids[..i] + [kids[i]];
  }

  /** A set that nothing leads out of except to marked objects still is one when more
      objects are marked. */
  lemma BeyondMore(c: set<Obj>, m: set<Obj>, m1: set<Obj>)
    requires ClosedBeyond(c, m) && m <= m1
    ensures ClosedBeyond(c, m1) && ClosedBeyond(c + m, m1)
  {
    hide Objs;
  }

  /** mark_val: marks the object and, unless it was marked already, whatever its
      values lead to.  s are objects that exist; c is any part of them that the value
      lies in and that only marked objects lead out of. */
  method MarkVal(v: Cell, ghost s: set<Obj>, ghost c: set<Obj>)
    requires c <= s && Objs([v]) <= c && ClosedBeyond(c, Marked(s))
    modifies s`marked
    ensures IsMark(old(Marked(s)), Objs([v]), s, Marked(s))
    decreases s - Marked(s)
  {
    hide Objs;
    ObjsOne(v);
    if v.Scalar? || v.obj == null || v.obj.marked {
      MarkNone(Marked(s), s);
      return;
    }
    var o: Obj := v.obj;
    ghost var m := Marked(s);
    o.marked := true;
    assert Marked(s) == m + {o};
    assert o in c - m;
    assert Objs(o.kids) <= c + m;
    MarkNone(m + {o}, s);
    NoObjs(o.kids);
    for i := 0 to |o.kids|
      invariant IsMark(m + {o}, Objs(o.kids[..i]), s, Marked(s))
    {
      KidsSplit(o.kids, i);
      ghost var m1 := Marked(s);
      BeyondMore(c, m, m1);
      MarkVal(o.kids[i], s, c + m);
      MarkThen(m + {o}, Objs(o.kids[..i]), m1, Objs([o.kids[i]]), Marked(s), s);
    }
    assert o.kids[..|o.kids|] == o.kids;
    MarkRoot(m, o, s, Marked(s));
  }

  /** Marking an unmarked object and then from its values is marking from it. */
  lemma MarkRoot(m: set<Obj>, o: Obj, s: set<Obj>, m1: set<Obj>)
    requires o in s - m && m <= s && IsMark(m + {o}, Objs(o.kids), s, m1)
    ensures IsMark(m, {o}, s, m1)
  {
    hide Objs;
    forall c: set<Obj> | c <= s && {o} <= c && ClosedBeyond(c, m) ensures m1 <= m + c {
      MarkRootLeast(m, o, s, m1, c);
    }
  }

  lemma MarkRootLeast(m: set<Obj>, o: Obj, s: set<Obj>, m1: set<Obj>, c: set<Obj>)
    requires IsMark(m + {o}, Objs(o.kids), s, m1)
    requires m <= s && o in s - m && c <= s && o in c && ClosedBeyond(c, m)
    ensures m1 <= m + c
  {
    hide Objs;
    var d := c + m;
    assert Objs(o.kids) <= d;
    assert ClosedBeyond(d, m + {o});
    assert m1 <= (m + {o}) + d;
  }

  /** The values of an environment, a stack or a saved environment, in order. */
  method MarkAll(vs: seq<Cell>, ghost s: set<Obj>, ghost c: set<Obj>)
    requires c <= s && Objs(vs) <= c && ClosedBeyond(c, Marked(s))
    modifies s`marked
    ensures IsMark(old(Marked(s)), Objs(vs), s, Marked(s))
  {
    hide Objs;
    ghost var m := Marked(s);
    NoObjs(vs);
    MarkNone(m, s);
    for i := 0 to |vs|
      invariant IsMark(m, Objs(vs[..i]), s, Marked(s))
    {
      KidsSplit(vs, i);
      ghost var m1 := Marked(s);
      BeyondMore(c, m, m1);
      MarkVal(vs[i], s, c);
      MarkThen(m, Objs(vs[..i]), m1, Objs([vs[i]]), Marked(s), s);
    }
    assert vs[..|vs|] == vs;
  }

  // ----- call frames: the function itself, then its saved environment -----

  /** A call in progress: its function, how many bindings its caller had, and the caller's
      bindings if a closure runs. */
  datatype Frame = Frame(fn: Obj?, count: nat, saved: seq<Cell>)

  ghost function FnObj(f: Frame): set<Obj> {
    if f.fn == null then {} else {f.fn}
  }

  /** What a frame keeps alive by itself. */
  ghost function FrameRoots(frames: seq<Frame>): set<Obj> {
    if frames == [] then {}
    else FrameRoots(frames[..|frames| - 1]) + FnObj(frames[|frames| - 1]) + Objs(frames[|frames| - 1].saved)
  }

  /** m1 is what marking the frames in order makes of m: a frame's function is
      marked without looking at what it captured. */
  ghost predicate FramesMark(m: set<Obj>, frames: seq<Frame>, s: set<Obj>, m1: set<Obj>)
    decreases |frames|
  {
    if frames == [] then m1 == m else
    var f := frames[|frames| - 1];
    exists q: set<Obj> | q <= s ::
      FramesMark(m, frames[..|frames| - 1], s, q) && IsMark(q + FnObj(f), Objs(f.saved), s, m1)
  }

  /** Marking the frames loses no mark, reaches every frame's function and saved
      values, and marks nothing that a closed set of all of these lacks. */
  lemma {:induction false} FramesBounds(m: set<Obj>, frames: seq<Frame>, s: set<Obj>, m1: set<Obj>, c: set<Obj>)
    requires FramesMark(m, frames, s, m1)
    ensures m <= m1 && FrameRoots(frames) <= m1
    ensures c <= s && Closed(c) && m + FrameRoots(frames) <= c ==> m1 <= c
    decreases |frames|
  {
    hide Objs;
    if frames != [] {
      var f := frames[|frames| - 1];
      var q: set<Obj> :| q <= s && FramesMark(m, frames[..|frames| - 1], s, q)
        && IsMark(q + FnObj(f), Objs(f.saved), s, m1);
      FramesBounds(m, frames[..|frames| - 1], s, q, c);
      if c <= s && Closed(c) && m + FrameRoots(frames) <= c {
        assert ClosedBeyond(c, q + FnObj(f));
        assert m1 <= q + FnObj(f) + c;
      }
    }
  }

  // ----- roots that can be followed -----

  /** The functions of the frames. */
  ghost function Fns(frames: seq<Frame>): set<Obj> {
    if frames == [] then {} else Fns(frames[..|frames| - 1]) + FnObj(frames[|frames| - 1])
  }

  /** Marking a frame's saved environment, after the functions of its frame and of those
      below, comes by objects of s only. */
  ghost predicate SavedSafe(f: Frame, fns: set<Obj>, s: set<Obj>) {
    exists c: set<Obj> | c <= s :: Objs(f.saved) <= c && ClosedBeyond(c, fns)
  }

  ghost predicate FramesSafe(frames: seq<Frame>, s: set<Obj>)
    decreases |frames|
  {
    frames != [] ==>
      var f := frames[|frames| - 1];
      FramesSafe(frames[..|frames| - 1], s) && FnObj(f) <= s && SavedSafe(f, Fns(frames), s)
  }

  ghost predicate RootsSafe(roots: set<Obj>, s: set<Obj>) {
    exists c: set<Obj> | c <= s :: roots <= c && Closed(c)
  }

  /** What a collection asks for: it follows no pointer out of s.  Values that only a
      frame's function leads to need not be in s. */
  ghost predicate Safe(stack: seq<Cell>, env: seq<Cell>, frames: seq<Frame>, s: set<Obj>) {
    RootsSafe(Objs(stack) + Objs(env), s) && FramesSafe(frames, s)
  }

  lemma {:induction false} FramesSafeMore(frames: seq<Frame>, s: set<Obj>, s1: set<Obj>)
    requires FramesSafe(frames, s) && s <= s1
    ensures FramesSafe(frames, s1)
    decreases |frames|
  {
    hide Objs, Fns, ClosedBeyond;
    if frames != [] { FramesSafeMore(frames[..|frames| - 1], s, s1); }
  }

  /** Objects that are added do no harm. */
  lemma SafeMore(stack: seq<Cell>, env: seq<Cell>, frames: seq<Frame>, s: set<Obj>, s1: set<Obj>)
    requires Safe(stack, env, frames, s) && s <= s1
    ensures Safe(stack, env, frames, s1)
  {
    hide Objs, Closed, FramesSafe;
    FramesSafeMore(frames, s, s1);
  }

  lemma {:induction false} FrameSafeAt(frames: seq<Frame>, s: set<Obj>, i: nat)
    requires FramesSafe(frames, s) && i < |frames|
    ensures FnObj(frames[i]) <= s && SavedSafe(frames[i], Fns(frames[..i + 1]), s)
    decreases |frames|
  {
    hide Objs, Fns, SavedSafe;
    if i < |frames| - 1 {
      FrameSafeAt(frames[..|frames| - 1], s, i);
      assert frames[..|frames| - 1][..i + 1] == frames[..i + 1];
    } else {
      assert frames[..i + 1] == frames;
    }
  }

  lemma FnsNext(frames: seq<Frame>, i: nat)
    requires i < |frames|
    ensures Fns(frames[..0]) == {} && Fns(frames[..i + 1]) == Fns(frames[..i]) + FnObj(frames[i])
  {
    assert frames[..i + 1][..i] == frames[..i];
  }

  method MarkFrames(frames: seq<Frame>, ghost s: set<Obj>)
    requires FramesSafe(frames, s)
    modifies s`marked
    ensures FramesMark(old(Marked(s)), frames, s, Marked(s))
  {
    hide Objs, IsMark, FramesMark, Fns, FramesSafe, ClosedBeyond;
    ghost var m := Marked(s);
    NoFrames(m, frames, s);
    for i := 0 to |frames|
      invariant FramesMark(m, frames[..i], s, Marked(s)) && (i > 0 ==> Fns(frames[..i]) <= Marked(s))
    {
      ghost var q := Marked(s);
      FrameSafeAt(frames, s, i);
      FnsNext(frames, i);
      ghost var c: set<Obj> :| c <= s && Objs(frames[i].saved) <= c && ClosedBeyond(c, Fns(frames[..i + 1]));
      var fn := frames[i].fn;
      if fn != null && !fn.marked { fn.marked := true; }
      assert Marked(s) == q + FnObj(frames[i]);
      BeyondMore(c, Fns(frames[..i + 1]), Marked(s));
      MarkAll(frames[i].saved, s, c);
      MarkKeeps(q + FnObj(frames[i]), Objs(frames[i].saved), s, Marked(s));
      NextFrame(m, frames, i, s, q, Marked(s));
    }
    assert frames[..|frames|] == frames;
  }

  lemma MarkKeeps(m: set<Obj>, roots: set<Obj>, s: set<Obj>, m1: set<Obj>)
    requires IsMark(m, roots, s, m1)
    ensures m + roots <= m1 <= s && ClosedBeyond(m1, m)
  {
  }

  /** What the frames have marked can be followed again: only their functions lead out
      of it. */
  lemma {:induction false} MarkedSafe(m: set<Obj>, frames: seq<Frame>, s: set<Obj>, m1: set<Obj>)
    requires FramesMark(m, frames, s, m1) && Closed(m) && m <= s
    ensures m <= m1 <= s && ClosedBeyond(m1, Fns(frames)) && Fns(frames) <= m1 && FramesSafe(frames, m1)
    decreases |frames|
  {
    hide Objs;
    if frames != [] {
      var below, f := frames[..|frames| - 1], frames[|frames| - 1];
      var q: set<Obj> :| q <= s && FramesMark(m, below, s, q) && IsMark(q + FnObj(f), Objs(f.saved), s, m1);
      MarkedSafe(m, below, s, q);
      FramesSafeMore(below, q, m1);
      assert ClosedBeyond(m1, Fns(frames)) by {
        hide FramesSafe, FramesMark, IsMark;
        MarkKeeps(q + FnObj(f), Objs(f.saved), s, m1);
      }
      assert SavedSafe(f, Fns(frames), m1);
    }
  }

  lemma NoFrames(m: set<Obj>, frames: seq<Frame>, s: set<Obj>)
    ensures FramesMark(m, frames[..0], s, m)
  {
  }

  lemma NextFrame(m: set<Obj>, frames: seq<Frame>, i: nat, s: set<Obj>, q: set<Obj>, m1: set<Obj>)
    requires i < |frames| && q <= s && FramesMark(m, frames[..i], s, q)
    requires IsMark(q + FnObj(frames[i]), Objs(frames[i].saved), s, m1)
    ensures FramesMark(m, frames[..i + 1], s, m1)
  {
    hide Objs, IsMark;
    assert frames[..i + 1][..i] == frames[..i];
  }

  lemma SweepStart(all: seq<Obj>, m: set<Obj>)
    ensures Keep(all[..0], m) == [] && [] + all[0..] == all && all[0..] == all && Bytes([]) == 0
  {
  }

  lemma RestDistinct(all: seq<Obj>, i: nat, m: set<Obj>)
    requires Distinct(all) && i <= |all|
    ensures Distinct(Keep(all[..i], m) + all[i..])
    ensures forall o: Obj :: o in Keep(all[..i], m) ==> o in all[..i]
  {
    var kept, rest := Keep(all[..i], m), all[i..];
    assert Distinct(all[..i]);
    KeepMembers(all[..i], m);
    forall o: Obj | o in kept ensures o in all[..i] {
      var j :| 0 <= j < |kept| && kept[j] == o;
    }
    forall j, k | 0 <= j < k < |kept + rest| ensures (kept + rest)[j] != (kept + rest)[k] {
      if j < |kept| <= k {
        assert kept[j] in all[..i];
        var x :| 0 <= x < i && all[..i][x] == kept[j];
        assert all[x] != all[i + (k - |kept|)];
      }
    }
  }

  /** What is kept so far comes before the object now looked at. */
  lemma NotKept(all: seq<Obj>, i: nat, m: set<Obj>)
    requires Distinct(all) && i < |all|
    ensures all[i] !in Keep(all[..i], m)
    ensures forall j, k :: 0 <= j < k < |all| ==> all[j] != all[k]
  {
    RestDistinct(all, i, m);
    assert forall j :: 0 <= j < i ==> all[..i][j] != all[i];
  }

  lemma SweepStep(all: seq<Obj>, i: nat, m: set<Obj>, kept: seq<Obj>)
    requires i < |all| && kept == Keep(all[..i], m)
    ensures Keep(all[..i + 1], m) == kept + if all[i] in m then [all[i]] else []
    ensures Bytes(all[i..]) == all[i].size + Bytes(all[i + 1..])
    ensures Bytes(kept + [all[i]]) == Bytes(kept) + all[i].size
    ensures all[..i + 1] == all[..i] + [all[i]] && (kept + [all[i]]) + all[i + 1..] == kept + all[i..]
  {
    assert all[..i + 1] == all[..i] + [all[i]];
    KeepSnoc(all[..i], m, all[i]);
    assert all[i..][1..] == all[i + 1..];
    BytesAppend(kept, [all[i]]);
  }

  // ----- what survives, by the heap before -----

  /** No value leads out of c, except from objects of stop. */
  ghost predicate OpenAt(c: set<Obj>, stop: set<Obj>) {
    forall o | o in c - stop :: Objs(o.kids) <= c
  }

  /** What the roots lead to in s, going on from no object of stop. */
  ghost function Ahead(roots: set<Obj>, stop: set<Obj>, s: set<Obj>): set<Obj> {
    set o | o in s && forall c: set<Obj> | c <= s && roots <= c && OpenAt(c, stop) :: o in c
  }

  /** What the saved environments lead to, each going on from no function of its frame or
      of a frame below that the stack and the environment do not lead to. */
  ghost function SavedAhead(frames: seq<Frame>, live: set<Obj>, s: set<Obj>): set<Obj> {
    if frames == [] then {}
    else SavedAhead(frames[..|frames| - 1], live, s) + Ahead(Objs(frames[|frames| - 1].saved), Fns(frames) - live, s)
  }

  /** What a collection leaves of s. */
  ghost function Survivors(roots: set<Obj>, frames: seq<Frame>, s: set<Obj>): set<Obj> {
    var live := Ahead(roots, {}, s);
    live + Fns(frames) + SavedAhead(frames, live, s)
  }

  /** Where there is a set to stay in, what lies ahead is the least one. */
  lemma AheadIs(roots: set<Obj>, stop: set<Obj>, s: set<Obj>, c: set<Obj>)
    requires c <= s && roots <= c && OpenAt(c, stop)
    ensures var r := Ahead(roots, stop, s); roots <= r <= c && OpenAt(r, stop)
  {
    hide Objs;
    var r := Ahead(roots, stop, s);
    forall o, k | o in r - stop && k in Objs(o.kids) ensures k in r {
      assert k in c;
      forall d: set<Obj> | d <= s && roots <= d && OpenAt(d, stop) ensures k in d { assert o in d; }
    }
  }

  /** From no stops, it is what can be reached. */
  lemma ReachIsAhead(r: set<Obj>, roots: set<Obj>, s: set<Obj>)
    requires IsReach(r, roots, s)
    ensures r == Ahead(roots, {}, s)
  {
    hide Objs;
    assert OpenAt(r, {});
    AheadIs(roots, {}, s, r);
    assert Closed(Ahead(roots, {}, s));
  }

  /** Marking from a saved environment, with the functions of its frame and of those below
      marked beforehand. */
  lemma SavedMarks(q: set<Obj>, fns: set<Obj>, roots: set<Obj>, live: set<Obj>, s: set<Obj>, m1: set<Obj>)
    requires IsMark(q, roots, s, m1) && fns + live <= q && Closed(live) && ClosedBeyond(m1, fns)
    ensures m1 == q + Ahead(roots, fns - live, s)
  {
    hide Objs;
    var stop := fns - live;
    assert OpenAt(m1, stop) by {
      forall o | o in m1 - stop ensures Objs(o.kids) <= m1 { if o in live { assert Objs(o.kids) <= live; } }
    }
    AheadIs(roots, stop, s, m1);
    var r := Ahead(roots, stop, s);
    assert ClosedBeyond(r, q);
    assert m1 <= q + r;
  }

  lemma {:induction false} FramesLeave(live: set<Obj>, frames: seq<Frame>, s: set<Obj>, m: set<Obj>)
    requires FramesMark(live, frames, s, m) && Closed(live) && live <= s
    ensures m == live + Fns(frames) + SavedAhead(frames, live, s)
    decreases |frames|
  {
    hide Objs, Ahead, FramesSafe, Closed, ClosedBeyond;
    if frames != [] {
      var below, f := frames[..|frames| - 1], frames[|frames| - 1];
      var q: set<Obj> :| q <= s && FramesMark(live, below, s, q) && IsMark(q + FnObj(f), Objs(f.saved), s, m);
      FramesLeave(live, below, s, q);
      MarkedSafe(live, frames, s, m);
      SavedMarks(q + FnObj(f), Fns(frames), Objs(f.saved), live, s, m);
    }
  }

  /** What a collection marks is what the heap says beforehand. */
  lemma SurvivorsAre(roots: set<Obj>, frames: seq<Frame>, s: set<Obj>, live: set<Obj>, m: set<Obj>)
    requires IsReach(live, roots, s) && FramesMark(live, frames, s, m)
    ensures m == Survivors(roots, frames, s)
  {
    hide Objs, Ahead, FramesMark, Fns, SavedAhead;
    ReachIsAhead(live, roots, s);
    FramesLeave(live, frames, s, m);
  }

  // ----- byte accounting -----

  /** bytes: in the list; next: the threshold; total: ever allocated; examined: looked at by
      all sweeps; base: what the last sweep left. */
  datatype Account = Account(bytes: nat, next: nat, total: nat, examined: nat, base: nat)

  /** What happens to it: an allocation, or a statement boundary, where a collection
      leaves `kept` bytes if one is due. */
  datatype Tick = Grow(size: nat) | Pause(kept: nat)

  function Threshold(bytes: nat): nat {
    if bytes * GC_GROWTH_FACTOR < GC_INITIAL_THRESHOLD then GC_INITIAL_THRESHOLD else bytes * GC_GROWTH_FACTOR
  }

  function Tock(a: Account, t: Tick): Account {
    match t
    case Grow(n) => a.(bytes := a.bytes + n, total := a.total + n)
    case Pause(kept) =>
      if a.bytes <= a.next then a else
      var left := if kept < a.bytes then kept else a.bytes;
      Account(left, Threshold(left), a.total, a.examined + a.bytes, left)
  }

  function Ticks(a: Account, ts: seq<Tick>): Account
    decreases |ts|
  {
    if ts == [] then a else Tock(Ticks(a, ts[..|ts| - 1]), ts[|ts| - 1])
  }

  const FRESH: Account := Account(0, GC_INITIAL_THRESHOLD, 0, 0, 0)

  /** No more has been swept than twice what was allocated before the bytes added since
      the last sweep. */
  predicate Paid(a: Account) {
    && a.base <= a.bytes && a.next >= GC_GROWTH_FACTOR * a.base && a.bytes - a.base <= a.total
    && a.examined <= 2 * (a.total - (a.bytes - a.base))
  }

  /** Over every run, however allocations and boundaries follow each other and whatever
      the collections leave, all sweeps together look at no more than twice the bytes
      ever allocated. */
  lemma {:induction false} SweepsArePaid(ts: seq<Tick>)
    ensures var a := Ticks(FRESH, ts); Paid(a) && a.examined <= 2 * a.total
    decreases |ts|
  {
    if ts != [] { SweepsArePaid(ts[..|ts| - 1]); }
  }

  /** What was allocated behind the last statement boundary. */
  function SinceBoundary(ts: seq<Tick>): nat
    decreases |ts|
  {
    if ts == [] || ts[|ts| - 1].Pause? then 0 else SinceBoundary(ts[..|ts| - 1]) + ts[|ts| - 1].size
  }

  predicate Spaced(a: Account) { a.next == if a.base < 512 * 1024 then 1024 * 1024 else 2 * a.base }

  /** The other half: over every run, the bytes in the list are at most a mebibyte, or
      twice what the last sweep left, and what was allocated behind the last boundary. */
  lemma {:induction false} SpaceBound(ts: seq<Tick>)
    ensures var a := Ticks(FRESH, ts);
      a.bytes <= 1024 * 1024 + SinceBoundary(ts) || a.bytes <= 2 * a.base + SinceBoundary(ts)
    ensures Spaced(Ticks(FRESH, ts))
    decreases |ts|
  {
    if ts != [] { SpaceBound(ts[..|ts| - 1]); }
  }

  /** So at a boundary there is never more than that. */
  lemma BoundaryBound(ts: seq<Tick>, kept: nat)
    ensures var a := Ticks(FRESH, ts + [Pause(kept)]); a.bytes <= 1024 * 1024 || a.bytes <= 2 * a.base
  {
    hide Ticks;
    SpaceBound(ts + [Pause(kept)]);
  }

  /** And a boundary with more bytes than that sweeps: they are looked at, and what is
      left of them is the new base. */
  lemma DueIsDone(ts: seq<Tick>, kept: nat)
    requires var a := Ticks(FRESH, ts); a.bytes > 1024 * 1024 && a.bytes > 2 * a.base
    ensures var a := Ticks(FRESH, ts); var b := Ticks(FRESH, ts + [Pause(kept)]);
      b.examined == a.examined + a.bytes && b.bytes == b.base == if kept < a.bytes then kept else a.bytes
  {
    SpaceBound(ts);
    assert (ts + [Pause(kept)])[..|ts|] == ts;
  }

  // ----- the list of all objects -----

  class Gc {
    var objects: Obj?
    var objectCount: nat
    var bytesAllocated: nat
    var nextGc: nat
    ghost var List: seq<Obj>
    ghost var Examined: nat           // bytes all sweeps have looked at
    ghost var Allocated: nat          // bytes ever allocated
    ghost var Base: nat               // bytes that survived the last sweep

    ghost predicate Valid()
      reads this, List`next
    {
      && Linked(objects, List) && Distinct(List)
      && objectCount == |List| && bytesAllocated == Bytes(List)
    }

    ghost predicate Clear()
      reads this, List`marked
    {
      forall o | o in List :: !o.marked
    }

    ghost function Books(): Account
      reads this
    {
      Account(bytesAllocated, nextGc, Allocated, Examined, Base)
    }

    /** agl_gc_new */
    constructor ()
      ensures Valid() && Clear() && List == [] && Books() == FRESH
    {
      objects := null;
      objectCount := 0;
      bytesAllocated := 0;
      nextGc := GC_INITIAL_THRESHOLD;
      List := [];
      Examined, Allocated, Base := 0, 0, 0;
    }

    /** agl_gc_alloc: the new object becomes the head of the list. */
    method Alloc(size: nat, kids: seq<Cell>) returns (o: Obj)
      requires Valid()
      modifies this
      ensures Valid() && fresh(o) && o.size == size && o.kids == kids && !o.marked
      ensures List == [o] + old(List) && (old(Clear()) ==> Clear())
      ensures All() == old(All()) + {o} && Books() == Tock(old(Books()), Grow(size))
    {
      hide Objs, Closed, Keep, Distinct, Linked, Bytes;
      o := new Obj(size, kids, objects);
      InFront(o, List, objects);
      objects := o;
      objectCount := objectCount + 1;
      bytesAllocated := bytesAllocated + size;
      List := [o] + List;
      Allocated := Allocated + size;
    }

    /** agl_gc_should_collect */
    predicate ShouldCollect()
      reads this
    {
      bytesAllocated > nextGc
    }

    /** Takes cur, the object after prev, out of the list; a null prev stands for
        the head pointer. */
    method Unlink(prev: Obj?, cur: Obj, ghost kept: seq<Obj>, ghost rest: seq<Obj>)
      requires rest != [] && cur == rest[0] && Distinct(kept + rest) && Linked(objects, kept + rest)
      requires prev == if kept == [] then null else kept[|kept| - 1]
      modifies this`objects, kept`next
      ensures Linked(objects, kept + rest[1..])
      ensures cur.next == old(cur.next)
    {
      ghost var was, now := kept + rest, kept + rest[1..];
      ghost var n := |kept|;
      assert was[n] == cur;
      assert cur.next == After(was, n);
      assert forall k :: 0 <= k < n ==> was[k] == kept[k];
      if prev == null { objects := cur.next; } else { prev.next := cur.next; }
      forall k | 0 <= k < |now| ensures now[k].next == After(now, k) {
        assert now[k] == if k < n then was[k] else was[k + 1];
        assert k + 1 < |now| ==> now[k + 1] == if k + 1 < n then was[k + 1] else was[k + 2];
      }
    }

    /** The sweep has passed i of all objects: kept are the marked ones among
        them, m the objects that were marked at the start. */
    ghost predicate Sweeping(prev: Obj?, cur: Obj?, all: seq<Obj>, i: nat, m: set<Obj>, kept: seq<Obj>)
      reads this, all`next, all`marked, kept`next, kept`marked
    {
      && Distinct(all) && i <= |all| && kept == Keep(all[..i], m)
      && (forall j :: 0 <= j < |kept| ==> kept[j] in all && !kept[j].marked)
      && (forall j :: i <= j < |all| ==> (all[j].marked <==> all[j] in m))
      && Linked(objects, kept + all[i..])
      && cur == (if i < |all| then all[i] else null)
      && prev == (if kept == [] then null else kept[|kept| - 1])
      && objectCount == |kept| + |all| - i && bytesAllocated == Bytes(kept) + Bytes(all[i..])
    }

    /** One turn of the sweep: cur is dropped, or its mark is cleared. */
    method SweepOne(prev: Obj?, cur: Obj, ghost all: seq<Obj>, ghost i: nat, ghost m: set<Obj>, ghost kept: seq<Obj>)
      returns (prev': Obj?, cur': Obj?, ghost kept': seq<Obj>)
      requires Sweeping(prev, cur, all, i, m, kept)
      modifies this`objects, this`objectCount, this`bytesAllocated, all`next, all`marked
      ensures i < |all| && Sweeping(prev', cur', all, i + 1, m, kept')
      ensures bytesAllocated <= old(bytesAllocated)
    {
      if !cur.marked {
        prev', cur', kept' := Drop(prev, cur, all, i, m, kept);
      } else {
        prev', cur', kept' := Survive(prev, cur, all, i, m, kept);
      }
    }

    method Drop(prev: Obj?, cur: Obj, ghost all: seq<Obj>, ghost i: nat, ghost m: set<Obj>, ghost kept: seq<Obj>)
      returns (prev': Obj?, cur': Obj?, ghost kept': seq<Obj>)
      requires Sweeping(prev, cur, all, i, m, kept) && !cur.marked
      modifies this`objects, this`objectCount, this`bytesAllocated, kept`next
      ensures i < |all| && Sweeping(prev', cur', all, i + 1, m, kept')
      ensures bytesAllocated <= old(bytesAllocated)
    {
      hide Bytes, Keep, Distinct, Linked;
      assert (kept + all[i..])[|kept|] == cur;
      RestDistinct(all, i, m);
      SweepStep(all, i, m, kept);
      LinkedAt(objects, kept + all[i..], |kept|);
      Unlink(prev, cur, kept, all[i..]);
      prev', cur', kept' := prev, cur.next, kept;
      bytesAllocated := bytesAllocated - cur.size;
      objectCount := objectCount - 1;
    }

    method Survive(prev: Obj?, cur: Obj, ghost all: seq<Obj>, ghost i: nat, ghost m: set<Obj>, ghost kept: seq<Obj>)
      returns (prev': Obj?, cur': Obj?, ghost kept': seq<Obj>)
      requires Sweeping(prev, cur, all, i, m, kept) && cur.marked
      modifies cur`marked
      ensures i < |all| && Sweeping(prev', cur', all, i + 1, m, kept')
    {
      hide Bytes, Keep, Distinct;
      assert (kept + all[i..])[|kept|] == cur;
      SweepStep(all, i, m, kept);
      NotKept(all, i, m);
      cur.marked := false;
      prev', cur', kept' := cur, cur.next, kept + [cur];
    }

    /** agl_gc_sweep: unlinks the unmarked objects in place, clears the marks of
        the others, and sets the next threshold. */
    method Sweep()
      requires Valid()
      modifies this, List`next, List`marked
      ensures Valid() && Clear()
      ensures List == Keep(old(List), old(Marked(set o | o in List)))
      ensures nextGc == Threshold(bytesAllocated)
      ensures bytesAllocated <= old(bytesAllocated) && Allocated == old(Allocated)
      ensures Base == bytesAllocated && Examined == old(Examined) + old(bytesAllocated)
    {
      hide Sweeping, Keep, Bytes, Distinct, Linked;
      ghost var all, m := List, Marked(set o | o in List);
      ghost var kept: seq<Obj> := [];
      ghost var i: nat := 0;
      var prev: Obj? := null;         // whose link is looked at; null: the head
      var cur := objects;
      SweepBegins(m);
      while cur != null
        invariant i <= |all| && Sweeping(prev, cur, all, i, m, kept) && bytesAllocated <= old(bytesAllocated)
        invariant List == all && Allocated == old(Allocated) && Examined == old(Examined)
        decreases |all| - i
      {
        prev, cur, kept := SweepOne(prev, cur, all, i, m, kept);
        i := i + 1;
      }
      SweepEnds(prev, all, i, m, kept);
      List := kept;
      Examined := Examined + old(bytesAllocated);
      Base := bytesAllocated;
      nextGc := bytesAllocated * GC_GROWTH_FACTOR;
      if nextGc < GC_INITIAL_THRESHOLD { nextGc := GC_INITIAL_THRESHOLD; }
    }

    lemma SweepBegins(m: set<Obj>)
      requires Valid() && m == Marked(set o | o in List)
      ensures Sweeping(null, objects, List, 0, m, [])
    {
      SweepStart(List, m);
    }

    lemma SweepEnds(prev: Obj?, all: seq<Obj>, i: nat, m: set<Obj>, kept: seq<Obj>)
      requires Sweeping(prev, null, all, i, m, kept)
      ensures kept == Keep(all, m) && Distinct(kept) && Linked(objects, kept)
      ensures objectCount == |kept| && bytesAllocated == Bytes(kept) && forall o | o in kept :: !o.marked
    {
      hide Keep;
      assert all[..i] == all && kept + all[i..] == kept;
      SweepStart(all[i..], m);
      KeepMembers(all, m);
    }

    ghost function All(): set<Obj>
      reads this
    {
      set o | o in List
    }

    lemma KeptSet(list: seq<Obj>, m: set<Obj>)
      requires List == Keep(list, m) && m <= set o | o in list
      ensures All() == m
    {
      KeepMembers(list, m);
    }

    /** gc_collect of the tree walker: from a clear state exactly the objects that
        the environment and the return value reach stay, in their order. */
    method Collect(env: seq<Cell>, ret: Cell) returns (ghost live: set<Obj>)
      requires Valid() && Clear() && RootsSafe(Objs(env) + Objs([ret]), All())
      modifies this, List`next, List`marked
      ensures Valid() && Clear()
      ensures IsReach(live, Objs(env) + Objs([ret]), old(All())) && List == Keep(old(List), live)
      ensures Closed(All()) && All() == live
      ensures Base == bytesAllocated <= old(bytesAllocated) && nextGc == Threshold(bytesAllocated)
    {
      hide Objs, Keep, Bytes, IsMark, Linked, Distinct;
      ghost var s := All();
      ghost var list := List;
      assert Marked(s) == {};
      ghost var c: set<Obj> :| c <= s && Objs(env) + Objs([ret]) <= c && Closed(c);
      MarkAll(env, s, c);
      ghost var m := Marked(s);
      BeyondMore(c, {}, m);
      MarkVal(ret, s, c);
      live := Marked(s);
      MarkThen({}, Objs(env), m, Objs([ret]), live, s);
      MarkIsReach(Objs(env) + Objs([ret]), s, live);
      Sweep();
      KeptSet(list, live);
    }

    /** vm_gc_collect: the value stack and the environment first, from a clear
        state; then the frames.  What survives can be collected again from the same
        roots. */
    method CollectVm(stack: seq<Cell>, env: seq<Cell>, frames: seq<Frame>)
        returns (ghost live: set<Obj>, ghost m: set<Obj>)
      requires Valid() && Clear() && Safe(stack, env, frames, All())
      modifies this, List`next, List`marked
      ensures Valid() && Clear() && Safe(stack, env, frames, All())
      ensures IsReach(live, Objs(stack) + Objs(env), old(All()))
      ensures FramesMark(live, frames, old(All()), m) && List == Keep(old(List), m) && All() == m
      ensures All() == Survivors(Objs(stack) + Objs(env), frames, old(All()))
      ensures Base == bytesAllocated <= old(bytesAllocated) && nextGc == Threshold(bytesAllocated)
      ensures Allocated == old(Allocated) && Examined == old(Examined) + old(bytesAllocated)
    {
      hide Objs, Keep, Bytes, IsMark, Linked, Distinct, FramesMark, FramesSafe, IsReach, Survivors;
      ghost var s := All();
      ghost var list := List;
      assert Marked(s) == {};
      ghost var c: set<Obj> :| c <= s && Objs(stack) + Objs(env) <= c && Closed(c);
      MarkAll(stack, s, c);
      ghost var m0 := Marked(s);
      BeyondMore(c, {}, m0);
      MarkAll(env, s, c);
      live := Marked(s);
      MarkThen({}, Objs(stack), m0, Objs(env), live, s);
      MarkIsReach(Objs(stack) + Objs(env), s, live);
      MarkFrames(frames, s);
      m := Marked(s);
      ReachParts(live, Objs(stack) + Objs(env), s);
      MarkedSafe(live, frames, s, m);
      SurvivorsAre(Objs(stack) + Objs(env), frames, s, live, m);
      Sweep();
      KeptSet(list, m);
      assert RootsSafe(Objs(stack) + Objs(env), m);
    }

    lemma ReachParts(r: set<Obj>, roots: set<Obj>, s: set<Obj>)
      requires IsReach(r, roots, s)
      ensures roots <= r <= s && Closed(r)
    {
    }

    /** A statement boundary: a collection runs when the threshold is passed, and then
        only. */
    method CollectIfDue(stack: seq<Cell>, env: seq<Cell>, frames: seq<Frame>)
      requires Valid() && Clear() && (ShouldCollect() ==> Safe(stack, env, frames, All()))
      modifies this, List`next, List`marked
      ensures Valid() && Clear() && Books() == Tock(old(Books()), Pause(bytesAllocated))
      ensures old(bytesAllocated) > old(nextGc) ==>
        All() == Survivors(Objs(stack) + Objs(env), frames, old(All())) && List == Keep(old(List), All())
      ensures old(bytesAllocated) <= old(nextGc) ==> List == old(List)
      ensures old(Safe(stack, env, frames, All())) ==> Safe(stack, env, frames, All())
      ensures forall o | o in List :: o in old(List)
    {
      hide Objs, Keep, Bytes, Linked, Distinct, FramesMark, Safe, IsReach, Closed, Survivors;
      ghost var list := List;
      if ShouldCollect() {
        var live, m := CollectVm(stack, env, frames);
        KeepMembers(list, m);
      }
    }
  }

  /** Everything the stack and the environment reach survives vm_gc_collect, and
      every survivor is reached from them, a frame's function or a saved
      environment. */
  lemma VmBounds(list: seq<Obj>, roots: set<Obj>, frames: seq<Frame>, live: set<Obj>, m: set<Obj>, r: set<Obj>)
    requires var s := set o | o in list;
      && IsReach(live, roots, s) && FramesMark(live, frames, s, m)
      && IsReach(r, roots + FrameRoots(frames), s)
    ensures forall o | o in live :: o in Keep(list, m)
    ensures forall o | o in Keep(list, m) :: o in r
    ensures forall o | o in FrameRoots(frames) :: o in Keep(list, m)
  {
    hide FramesMark, Keep, FrameRoots;
    var s := set o | o in list;
    FramesBounds(live, frames, s, m, r);
    KeepMembers(list, m);
    assert live <= r;
  }
}
