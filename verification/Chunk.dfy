/** The growable chunk with back-patching (src/chunk.c). */
module Chunks {
  import opened Ast
  import opened Values
  import opened Bytecode

  /** The bytes with the operand at p overwritten. */
  function Patch(code: seq<Byte>, p: nat, x: int): (r: seq<Byte>)
    requires p + 2 <= |code|
    ensures |r| == |code|
    ensures r == code[..p] + U16(x) + code[p + 2..]
  {
    code[p := U16(x)[0]][p + 1 := U16(x)[1]]
  }

  class Chunk {
    var code: array<Byte>
    var codeCount: nat
    var constants: array<Val>
    var constCount: nat
    ghost var Bytes: seq<Byte>        // the code written so far
    ghost var Pool: seq<Val>          // the constants added so far
    ghost var Repr: set<object>

    ghost predicate Valid()
      reads this, Repr
    {
      && Repr == {this, code, constants}
      && codeCount <= code.Length && Bytes == code[..codeCount]
      && constCount <= constants.Length && Pool == constants[..constCount]
    }

    /** code_count */
    function Count(): (n: nat)
      requires Valid()
      reads this, Repr
      ensures n == |Bytes|
    {
      codeCount
    }

    /** agl_chunk_new */
    constructor ()
      ensures Valid() && fresh(Repr) && Bytes == [] && Pool == []
    {
      code := new Byte[0];
      codeCount := 0;
      constants := new Val[0];
      constCount := 0;
      Bytes := [];
      Pool := [];
      new;
      Repr := {this, code, constants};
    }

    /** agl_chunk_write: appends a byte, doubling the buffer when it is full. */
    method Write(b: Byte)
      requires Valid()
      modifies Repr
      ensures Valid() && fresh(Repr - old(Repr))
      ensures Bytes == old(Bytes) + [b] && Pool == old(Pool)
    {
      if codeCount >= code.Length {
        var cap := if code.Length < 8 then 8 else code.Length * 2;
        var bigger := new Byte[cap];
        for i := 0 to codeCount
          invariant Valid() && code == old(code) && constants == old(constants) && codeCount == old(codeCount)
          invariant Bytes == old(Bytes) && Pool == old(Pool) && Repr == old(Repr)
          invariant bigger[..i] == code[..i]
        {
          bigger[i] := code[i];
        }
        code := bigger;
        Repr := {this, code, constants};
      }
      code[codeCount] := b;
      codeCount := codeCount + 1;
      Bytes := Bytes + [b];
    }

    /** agl_chunk_write_u16 */
    method WriteU16(x: int)
      requires Valid()
      modifies Repr
      ensures Valid() && fresh(Repr - old(Repr))
      ensures Bytes == old(Bytes) + U16(x) && Pool == old(Pool)
    {
      Write(x % 256);
      Write((x / 256) % 256);
    }

    /** agl_chunk_add_const: appends a constant and returns its index. */
    method AddConst(v: Val) returns (idx: nat)
      requires Valid()
      modifies Repr
      ensures Valid() && fresh(Repr - old(Repr))
      ensures idx == |old(Pool)| && Pool == old(Pool) + [v] && Bytes == old(Bytes)
    {
      if constCount >= constants.Length {
        var cap := if constants.Length < 8 then 8 else constants.Length * 2;
        var bigger := new Val[cap];
        for i := 0 to constCount
          invariant Valid() && code == old(code) && constants == old(constants) && constCount == old(constCount)
          invariant Bytes == old(Bytes) && Pool == old(Pool) && Repr == old(Repr)
          invariant bigger[..i] == constants[..i]
        {
          bigger[i] := constants[i];
        }
        constants := bigger;
        Repr := {this, code, constants};
      }
      constants[constCount] := v;
      idx := constCount;
      constCount := constCount + 1;
      Pool := Pool + [v];
    }

    /** agl_chunk_emit_jump: an opcode and a 0xffff placeholder, whose position
        is returned. */
    method EmitJump(op: Byte) returns (at: nat)
      requires Valid()
      modifies Repr
      ensures Valid() && fresh(Repr - old(Repr))
      ensures at == |old(Bytes)| + 1
      ensures Bytes == old(Bytes) + ([op] + U16(0xffff)) && Pool == old(Pool)
    {
      Write(op);
      at := codeCount;
      Write(0xff);
      Write(0xff);
    }

    /** agl_chunk_patch_jump: makes the jump whose operand is at p land here. */
    method PatchJump(p: nat)
      requires Valid() && p + 2 <= |Bytes|
      modifies Repr
      ensures Valid() && Repr == old(Repr)
      ensures Bytes == Patch(old(Bytes), p, |old(Bytes)| - p - 2) && Pool == old(Pool)
    {
      var jump := codeCount - p - 2;
      code[p] := jump % 256;
      code[p + 1] := (jump / 256) % 256;
      Bytes := Patch(Bytes, p, jump);
    }

    /** agl_chunk_emit_loop: a jump back to start. */
    method EmitLoop(start: nat)
      requires Valid() && start <= |Bytes|
      modifies Repr
      ensures Valid() && fresh(Repr - old(Repr))
      ensures Bytes == old(Bytes) + Enc(JumpBack(|old(Bytes)| + 3 - start)) && Pool == old(Pool)
    {
      Write(OP_JUMP_BACK);
      var offset := codeCount - start + 2;
      WriteU16(offset);
    }
  }
}
