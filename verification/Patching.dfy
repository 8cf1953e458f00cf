/** Back-patching: code whose break jumps still hold their placeholder becomes,
    once every recorded position is patched, the code with its break target. */
module Patching {
  import opened Ast
  import opened Bytecode
  import opened CodeGen
  import opened Chunks

  /** The operand at p made to jump to target. */
  function Aim(code: seq<Byte>, p: nat, target: int): (r: seq<Byte>)
    requires p + 2 <= |code|
    ensures |r| == |code|
  {
    Patch(code, p, target - p - 2)
  }

  predicate InRange(ps: seq<nat>, n: nat) {
    forall i :: 0 <= i < |ps| ==> ps[i] + 2 <= n
  }

  /** Every recorded operand made to jump to target, in the recorded order. */
  function AimAll(code: seq<Byte>, ps: seq<nat>, target: int): (r: seq<Byte>)
    requires InRange(ps, |code|)
    ensures |r| == |code|
    decreases |ps|
  {
    if ps == [] then code else AimAll(Aim(code, ps[0], target), ps[1..], target)
  }

  // ----- where a fragment's break operands are -----

  /** Positions of the operands of the breaks that leave the loop around a
      fragment, whose code starts at `at`. */
  function BreaksS(s: Stmt, k: nat, l: Loop, bvc: nat, top: bool, at: nat): seq<nat>
    decreases s
  {
    match s
    case If(chain) => BreaksIf(chain, k, l, top, at)
    case Break(_) => if l.kind == Outside then [] else [at + 3 + |ExitCode(l.kind, bvc)| + 1]
    case _ => []
  }

  function BreaksSs(ss: seq<Stmt>, k: nat, l: Loop, bvc: nat, top: bool, at: nat): seq<nat>
    decreases ss
  {
    if ss == [] then [] else
    var n := |CodeS(ss[0], k, l, bvc, top)|;
    BreaksS(ss[0], k, l, bvc, top, at)
    + BreaksSs(ss[1..], k + |ConstsS(ss[0])|, Shift(l, n), bvc + Declared(ss[0]), top, at + n)
  }

  function BreaksB(b: Block, k: nat, l: Loop, top: bool, at: nat): seq<nat>
    decreases b
  {
    BreaksSs(b.stmts, k, Shift(l, 3), 0, top, at + 3)
  }

  function BreaksIf(c: IfChain, k: nat, l: Loop, top: bool, at: nat): seq<nat>
    decreases c
  {
    var n := 3 + |CodeE(c.cond, k)| + 3;
    var k1 := k + |ConstsE(c.cond)|;
    var m := |CodeB(c.thn, k1, Shift(l, n), top)|;
    BreaksB(c.thn, k1, Shift(l, n), top, at + n)
    + BreaksElse(c.els, k1 + |ConstsB(c.thn)|, Shift(l, n + m), top, at + n + m)
  }

  function BreaksElse(els: Else, k: nat, l: Loop, top: bool, at: nat): seq<nat>
    decreases els
  {
    match els
    case NoElse => []
    case ElseBlock(b) => BreaksB(b, k, Shift(l, 3), top, at + 3)
    case ElseIf(c) => BreaksIf(c, k, Shift(l, 3), top, at + 3)
  }

  // ----- patching in pieces -----

  lemma AimAt(pre: seq<Byte>, x: int, post: seq<Byte>, target: int)
    ensures var p := |pre|;
      Aim(pre + U16(x) + post, p, target) == pre + U16(target - p - 2) + post
  {
    var code := pre + U16(x) + post;
    assert code[..|pre|] == pre;
    assert code[|pre| + 2..] == post;
  }

  lemma {:induction false} AimAllAppend(code: seq<Byte>, ps: seq<nat>, qs: seq<nat>, target: int)
    requires InRange(ps, |code|) && InRange(qs, |code|)
    ensures InRange(ps + qs, |code|)
    ensures AimAll(code, ps + qs, target) == AimAll(AimAll(code, ps, target), qs, target)
    decreases |ps|
  {
    if ps == [] {
      assert ps + qs == qs;
    } else {
      assert (ps + qs)[1..] == ps[1..] + qs;
      AimAllAppend(Aim(code, ps[0], target), ps[1..], qs, target);
    }
  }

  /** The loop a fragment sees once its break target is known. */
  function Aimed(l: Loop, fwd: int): Loop {
    Loop(l.kind, l.back, Some(fwd))
  }

  /** Patching ps turns the fragment a, between pre and post, into a'. */
  predicate Filled(pre: seq<Byte>, a: seq<Byte>, a': seq<Byte>, post: seq<Byte>, ps: seq<nat>, target: int) {
    InRange(ps, |pre + a + post|) && AimAll(pre + a + post, ps, target) == pre + a' + post
  }

  /** Patching two neighbouring fragments one after the other. */
  lemma FillTwo(pre: seq<Byte>, a: seq<Byte>, a': seq<Byte>, b: seq<Byte>, b': seq<Byte>, post: seq<Byte>,
                ps: seq<nat>, qs: seq<nat>, target: int)
    requires Filled(pre, a, a', b + post, ps, target) && Filled(pre + a', b, b', post, qs, target)
    ensures Filled(pre, a + b, a' + b', post, ps + qs, target)
  {
    hide AimAll;
    assert pre + a + (b + post) == pre + (a + b) + post;
    assert pre + a' + (b + post) == pre + a' + b + post;
    AimAllAppend(pre + (a + b) + post, ps, qs, target);
    assert pre + a' + b' + post == pre + (a' + b') + post;
  }

  // ----- filling the holes -----

  lemma {:induction false} FillS(s: Stmt, k: nat, l: Loop, fwd: int, bvc: nat, top: bool, pre: seq<Byte>,
      post: seq<Byte>)
    requires l.fwd.None?
    ensures Filled(pre, CodeS(s, k, l, bvc, top), CodeS(s, k, Aimed(l, fwd), bvc, top), post,
                   BreaksS(s, k, l, bvc, top, |pre|), |pre| + fwd)
    decreases s
  {
    hide Enc, CodeE, CodeIf, CodeWhile, CodeFor, CodeSimple, BreaksIf, ConstsE, Filled;
    if s.If? {
      FillIf(s.chain, k, l, fwd, top, pre, post);
    } else if s.Break? && l.kind != Outside {
      FillBreak(s, l, fwd, bvc, pre, post);
    } else {
      NoPatch(pre, CodeS(s, k, l, bvc, top), post, |pre| + fwd);
    }
  }

  lemma NoPatch(pre: seq<Byte>, a: seq<Byte>, post: seq<Byte>, target: int)
    ensures Filled(pre, a, a, post, [], target)
  {
  }

  lemma FillBreak(s: Stmt, l: Loop, fwd: int, bvc: nat, pre: seq<Byte>, post: seq<Byte>)
    requires s.Break? && l.kind != Outside && l.fwd.None?
    ensures var p := |pre| + 3 + |ExitCode(l.kind, bvc)| + 1;
      Filled(pre, CodeExit(s, l, bvc), CodeExit(s, Aimed(l, fwd), bvc), post, [p], |pre| + fwd)
  {
    hide ExitCode, Aim;
    var exit := ExitCode(l.kind, bvc);
    var line := Enc(Line(s.line));
    var pre1 := pre + line + exit + [OP_JUMP];
    var n := 3 + |exit| + 3;
    assert CodeExit(s, l, bvc) == line + (exit + ([OP_JUMP] + U16(0xffff)));
    assert CodeExit(s, Aimed(l, fwd), bvc) == line + (exit + ([OP_JUMP] + U16(fwd - n)));
    assert pre + CodeExit(s, l, bvc) + post == pre1 + U16(0xffff) + post;
    AimAt(pre1, 0xffff, post, |pre| + fwd);
    assert pre1 + U16(fwd - n) + post == pre + CodeExit(s, Aimed(l, fwd), bvc) + post;
    var code := pre + CodeExit(s, l, bvc) + post;
    assert AimAll(code, [|pre1|], |pre| + fwd) == Aim(code, |pre1|, |pre| + fwd) by {
      assert [|pre1|][1..] == [];
    }
  }

  lemma {:induction false} FillSs(ss: seq<Stmt>, k: nat, l: Loop, fwd: int, bvc: nat, top: bool, pre: seq<Byte>,
      post: seq<Byte>)
    requires l.fwd.None?
    ensures Filled(pre, CodeSs(ss, k, l, bvc, top), CodeSs(ss, k, Aimed(l, fwd), bvc, top), post,
                   BreaksSs(ss, k, l, bvc, top, |pre|), |pre| + fwd)
    decreases ss
  {
    hide CodeS, ConstsS, BreaksS, Filled, Declared;
    if ss == [] {
      NoPatch(pre, [], post, |pre| + fwd);
    } else {
      var a := CodeS(ss[0], k, l, bvc, top);
      var a' := CodeS(ss[0], k, Aimed(l, fwd), bvc, top);
      LenS(ss[0], k, l, Aimed(l, fwd), bvc, top);
      var k1 := k + |ConstsS(ss[0])|;
      var b1 := bvc + Declared(ss[0]);
      var b := CodeSs(ss[1..], k1, Shift(l, |a|), b1, top);
      FillS(ss[0], k, l, fwd, bvc, top, pre, b + post);
      FillSs(ss[1..], k1, Shift(l, |a|), fwd - |a|, b1, top, pre + a', post);
      assert Aimed(Shift(l, |a|), fwd - |a|) == Shift(Aimed(l, fwd), |a|);
      FillTwo(pre, a, a', b, CodeSs(ss[1..], k1, Shift(Aimed(l, fwd), |a|), b1, top), post,
              BreaksS(ss[0], k, l, bvc, top, |pre|),
              BreaksSs(ss[1..], k1, Shift(l, |a|), b1, top, |pre + a'|), |pre| + fwd);
    }
  }

  /** A fragment between fixed bytes is filled where it stands. */
  lemma FillInside(pre: seq<Byte>, x: seq<Byte>, a: seq<Byte>, a': seq<Byte>, y: seq<Byte>, post: seq<Byte>,
                   ps: seq<nat>, target: int)
    requires Filled(pre + x, a, a', y + post, ps, target)
    ensures Filled(pre, x + (a + y), x + (a' + y), post, ps, target)
  {
    hide AimAll;
    assert pre + (x + (a + y)) + post == pre + x + a + (y + post);
    assert pre + x + a' + (y + post) == pre + (x + (a' + y)) + post;
  }

  lemma {:induction false} FillB(b: Block, k: nat, l: Loop, fwd: int, top: bool, pre: seq<Byte>, post: seq<Byte>)
    requires l.fwd.None?
    ensures Filled(pre, CodeB(b, k, l, top), CodeB(b, k, Aimed(l, fwd), top), post,
                   BreaksB(b, k, l, top, |pre|), |pre| + fwd)
    decreases b
  {
    hide Enc, CodeSs, BreaksSs, Filled, PopCode;
    var x := Enc(Line(b.bline));
    var y := PopCode(DeclaredIn(b.stmts));
    FillSs(b.stmts, k, Shift(l, 3), fwd - 3, 0, top, pre + x, y + post);
    assert Aimed(Shift(l, 3), fwd - 3) == Shift(Aimed(l, fwd), 3);
    FillInside(pre, x, CodeSs(b.stmts, k, Shift(l, 3), 0, top), CodeSs(b.stmts, k, Shift(Aimed(l, fwd), 3), 0, top), y,
      post,
               BreaksSs(b.stmts, k, Shift(l, 3), 0, top, |pre| + 3), |pre| + fwd);
  }

  lemma FillBehind(pre: seq<Byte>, x: seq<Byte>, a: seq<Byte>, a': seq<Byte>, post: seq<Byte>, ps: seq<nat>,
      target: int)
    requires Filled(pre + x, a, a', post, ps, target)
    ensures Filled(pre, x + a, x + a', post, ps, target)
  {
    hide AimAll;
    assert pre + (x + a) + post == pre + x + a + post;
    assert pre + (x + a') + post == pre + x + a' + post;
  }

  lemma {:induction false} FillIf(c: IfChain, k: nat, l: Loop, fwd: int, top: bool, pre: seq<Byte>, post: seq<Byte>)
    requires l.fwd.None?
    ensures Filled(pre, CodeIf(c, k, l, top), CodeIf(c, k, Aimed(l, fwd), top), post,
                   BreaksIf(c, k, l, top, |pre|), |pre| + fwd)
    decreases c
  {
    hide Enc, CodeE, CodeB, CodeElse, ConstsE, ConstsB, BreaksB, BreaksElse, Filled;
    var l' := Aimed(l, fwd);
    var n := 3 + |CodeE(c.cond, k)| + 3;
    var k1 := k + |ConstsE(c.cond)|;
    var k2 := k1 + |ConstsB(c.thn)|;
    var a := CodeB(c.thn, k1, Shift(l, n), top);
    var a' := CodeB(c.thn, k1, Shift(l', n), top);
    LenBlock(c.thn, k1, Shift(l, n), Shift(l', n), top);
    var b := CodeElse(c.els, k2, Shift(l, n + |a|), top);
    var b' := CodeElse(c.els, k2, Shift(l', n + |a|), top);
    var x := Enc(Line(c.line)) + (CodeE(c.cond, k) + Enc(JumpIf(false, |a| + if c.els.NoElse? then 0 else 3)));
    assert CodeIf(c, k, l, top) == x + (a + b);
    assert CodeIf(c, k, l', top) == x + (a' + b');
    FillB(c.thn, k1, Shift(l, n), fwd - n, top, pre + x, b + post);
    FillElse(c.els, k2, Shift(l, n + |a|), fwd - n - |a|, top, pre + x + a', post);
    assert Aimed(Shift(l, n), fwd - n) == Shift(l', n);
    assert Aimed(Shift(l, n + |a|), fwd - n - |a|) == Shift(l', n + |a|);
    FillTwo(pre + x, a, a', b, b', post, BreaksB(c.thn, k1, Shift(l, n), top, |pre| + n),
            BreaksElse(c.els, k2, Shift(l, n + |a|), top, |pre| + n + |a|), |pre| + fwd);
    FillBehind(pre, x, a + b, a' + b', post, BreaksIf(c, k, l, top, |pre|), |pre| + fwd);
  }

  lemma {:induction false} FillElse(els: Else, k: nat, l: Loop, fwd: int, top: bool, pre: seq<Byte>, post: seq<Byte>)
    requires l.fwd.None?
    ensures Filled(pre, CodeElse(els, k, l, top), CodeElse(els, k, Aimed(l, fwd), top), post,
                   BreaksElse(els, k, l, top, |pre|), |pre| + fwd)
    decreases els
  {
    hide Enc, CodeB, CodeIf, BreaksB, BreaksIf, Filled;
    var l3 := Shift(l, 3);
    assert Aimed(l3, fwd - 3) == Shift(Aimed(l, fwd), 3);
    match els
    case NoElse => NoPatch(pre, [], post, |pre| + fwd);
    case ElseBlock(b) =>
      var x := Enc(Jump(|CodeB(b, k, l3, top)|));
      LenBlock(b, k, l3, Aimed(l3, fwd - 3), top);
      FillB(b, k, l3, fwd - 3, top, pre + x, post);
      FillBehind(pre, x, CodeB(b, k, l3, top), CodeB(b, k, Aimed(l3, fwd - 3), top), post,
                 BreaksB(b, k, l3, top, |pre| + 3), |pre| + fwd);
    case ElseIf(c) =>
      var x := Enc(Jump(|CodeIf(c, k, l3, top)|));
      LenIf(c, k, l3, Aimed(l3, fwd - 3), top);
      FillIf(c, k, l3, fwd - 3, top, pre + x, post);
      FillBehind(pre, x, CodeIf(c, k, l3, top), CodeIf(c, k, Aimed(l3, fwd - 3), top), post,
                 BreaksIf(c, k, l3, top, |pre| + 3), |pre| + fwd);
  }
}
