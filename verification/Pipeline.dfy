/** Source to result: the compiler and the machine put together
    (agl_vm_interpret in src/vm.c). */
module Pipeline {
  import opened Ast
  import opened Values
  import opened Semantics
  import opened CodeGen
  import opened Machine
  import opened Fragment
  import opened Correctness
  import opened Limits
  import opened Compilers
  import opened Vms
  import SemaSound
  import Semas

  datatype Outcome =
    | Rejected(error: CompileErr)
    | Finished(v: Val, env: Env)
    | Failed(err: Err)
    | Overflowed
    | Unfinished

  /** Compiling a program and running the chunk gives what the source means. */
  method Interpret(program: seq<Stmt>, w: World, fuel: nat) returns (r: Outcome)
    requires GoodWorld(w) && FewSs(program)
    requires ErrSs(program, 0).None? ==> CoreProgram(program)
    ensures r.Rejected? <==> ErrSs(program, 0).Some?
    ensures r.Rejected? ==> ErrSs(program, 0) == Some(r.error)
    ensures r.Finished? ==> ExecProgram(w, fuel, program) == Returned(r.v, r.env)
    ensures r.Failed? ==> ExecProgram(w, fuel, program) == Error(r.err)
    ensures r.Unfinished? ==> Run(w, fuel, Compiled(program), 0, START).OutOfFuel?
    ensures r.Overflowed? ==> NeedSs(program) > 1024
  {
    hide Run, ExecProgram, CoreProgram, GoodWorld, FewSs, ErrSs, NeedSs, ProgramCode, ProgramConsts;
    var chunk, err := Compiler.Compile(program);
    if chunk == null { return Rejected(err.value); }
    var p := Prog(chunk.code[..chunk.codeCount], chunk.constants[..chunk.constCount]);
    assert p == Compiled(program);
    NeverStuck(w, fuel, program);
    var vm := new Vm(w);
    assert vm.View() == START;
    var finished := vm.Execute(p, fuel);
    MachineCorrect(w, fuel, program);
    if NeedSs(program) <= STACK_MAX { NeverOverflows(w, fuel, program); }
    if !finished { return Unfinished; }
    if vm.error == Some(StackOverflow) { return Overflowed; }
    if vm.error.Some? { return Failed(vm.error.value.err); }
    r := Finished(vm.stack[vm.stackTop - 1], vm.env);
  }

  /** A program the checker accepts, of the kind the checker is sound for, never
      makes the machine report an undefined variable or an assignment to an
      immutable one. */
  lemma CheckedRunsClean(w: World, n: nat, ss: seq<Stmt>)
    requires GoodWorld(w) && CoreProgram(ss)
    requires SemaSound.HonestWorld(w) && SemaSound.SafeProgram(ss) && Semas.ProgramErr(ss).None?
    ensures var r := Run(w, n, Compiled(ss), 0, START);
      r != Faulted(Raised(UndefinedVar)) && r != Faulted(Raised(ImmutableVar))
  {
    hide Run, Compiled, CoreProgram, GoodWorld, ExecProgram, SemaSound.HonestWorld, SemaSound.SafeProgram,
      Semas.ProgramErr;
    MachineCorrect(w, n, ss);
    SemaSound.CheckerSound(w, n, ss);
  }
}
