/** Fragments in place: a sequence that stands in another at some position. */
module Places {

  ghost predicate At<T>(code: seq<T>, p: nat, frag: seq<T>) {
    p + |frag| <= |code| && code[p..p + |frag|] == frag
  }

  lemma AtSplit<T>(code: seq<T>, p: nat, a: seq<T>, b: seq<T>)
    requires At(code, p, a + b)
    ensures At(code, p, a) && At(code, p + |a|, b)
  {
    var whole := code[p..p + |a + b|];
    assert code[p..p + |a|] == whole[..|a|] == a;
    assert code[p + |a|..p + |a| + |b|] == whole[|a|..] == b;
  }

  lemma AtJoin<T>(code: seq<T>, p: nat, a: seq<T>, b: seq<T>)
    requires At(code, p, a) && At(code, p + |a|, b)
    ensures At(code, p, a + b)
  {
    assert code[p..p + |a + b|] == code[p..p + |a|] + code[p + |a|..p + |a| + |b|];
  }

  lemma AtIndex<T>(code: seq<T>, p: nat, frag: seq<T>, j: nat)
    requires At(code, p, frag) && j < |frag|
    ensures p + j < |code| && code[p + j] == frag[j]
  {
    assert code[p..p + |frag|][j] == code[p + j];
  }

  lemma AtBytes<T>(code: seq<T>, p: nat, frag: seq<T>)
    requires At(code, p, frag)
    ensures p + |frag| <= |code| && forall j :: 0 <= j < |frag| ==> code[p + j] == frag[j]
  {
    forall j | 0 <= j < |frag| ensures code[p + j] == frag[j] { AtIndex(code, p, frag, j); }
  }

  lemma AtBound<T>(code: seq<T>, p: nat, frag: seq<T>)
    requires At(code, p, frag)
    ensures p + |frag| <= |code|
  {
  }

  lemma Assoc<T>(a: seq<T>, b: seq<T>, c: seq<T>)
    ensures a + b + c == a + (b + c)
  {
  }
}
