/** Runtime values, the flat environment and the operations on values that
    both evaluators share (src/runtime.h, src/runtime.c). */
module Values {
  import opened Ast

  /** Heap objects are never updated once built (lists and maps are copied by
      every builtin that changes one), so they are modelled as values.  The
      compiled chunk of a function value is a cache of its declaration. */
  datatype Val =
    | NilV
    | IntV(i: int)
    | FloatV(f: Float)
    | BoolV(b: bool)
    | StrV(s: string)
    | FnV(decl: FnDecl, captured: Env)
    | ArrV(elems: seq<Val>)
    | StructV(tname: string, fields: seq<Pair>)
    | ResV(ok: bool, val: Val)
    | MapV(pairs: seq<Pair>)

  datatype Pair = Pair(key: string, value: Val)

  datatype Binding = Binding(name: string, value: Val, immut: bool)

  /** The flat environment: names, values, immutable flags, up to the count. */
  type Env = seq<Binding>

  const MAX_VARS: nat := 256
  const MAX_CALL_DEPTH: nat := 512
  const STACK_MAX: nat := 1024
  const MAX_ARGS: nat := 64
  const MAX_STRUCT_FIELDS: nat := 64

  /** One constructor per error message of the two evaluators. */
  datatype Err =
    | InvalidBinary | InvalidUnary | NotStruct | MapKeyNotString | NotIndexable
    | IndexNotInt | NotIterable | NotCallable | NotResult
    | UndefinedVar | NoField
    | ImmutableVar | DivByZero | OutOfBounds | BadArity | CallDepth | TooManyVars
    | BuiltinErr(code: ErrCode)

  datatype ErrCode = TypeErr | NameErr | RuntimeErr | IoErr

  datatype Res<+T> = Ok(value: T) | Fail(err: Err)

  /** What the model does not define: double arithmetic and the builtins. */
  datatype World = World(
    fAdd: (Float, Float) -> Float,
    fSub: (Float, Float) -> Float,
    fMul: (Float, Float) -> Float,
    fDiv: (Float, Float) -> Float,
    fNeg: Float -> Float,
    fEq: (Float, Float) -> bool,
    fLt: (Float, Float) -> bool,
    fGt: (Float, Float) -> bool,
    fLe: (Float, Float) -> bool,
    fGe: (Float, Float) -> bool,
    ofInt: int -> Float,
    builtin: (nat, seq<Val>) -> Res<Val>)

  /** str_content: a string that starts with a quote loses its first and last byte. */
  function StrContent(s: string): string {
    if |s| >= 2 && s[0] == '"' then s[1..|s| - 1] else s
  }

  predicate Truthy(w: World, v: Val) {
    match v
    case BoolV(b) => b
    case NilV => false
    case IntV(i) => i != 0
    case FloatV(f) => !w.fEq(f, w.ofInt(0))
    case StrV(s) => |s| > 0
    case FnV(_, _) => true
    case ArrV(es) => |es| > 0
    case StructV(_, _) => true
    case ResV(ok, _) => ok
    case MapV(ps) => |ps| > 0
  }

  // ----- C integer division, which truncates toward zero -----

  function Abs(x: int): nat { if x < 0 then -x else x }

  function TruncDiv(a: int, b: int): int
    requires b != 0
  {
    if (a < 0) == (b < 0) then Abs(a) / Abs(b) else -(Abs(a) / Abs(b))
  }

  function TruncMod(a: int, b: int): int
    requires b != 0
  {
    a - b * TruncDiv(a, b)
  }

  /** The cast of a 64-bit index to a 32-bit int. */
  function Int32(n: int): int {
    (n + 0x8000_0000) % 0x1_0000_0000 - 0x8000_0000
  }

  // ----- byte-wise comparison: memcmp, then the lengths -----

  function StrCmp(a: string, b: string): int {
    if a == [] && b == [] then 0
    else if a == [] then -1
    else if b == [] then 1
    else if a[0] != b[0] then (if a[0] < b[0] then -1 else 1)
    else StrCmp(a[1..], b[1..])
  }

  // ----- the environment -----

  /** Index of the last binding of a name among the first n, if there is one. */
  function FindVar(env: Env, name: string, n: nat): (r: Option<nat>)
    requires n <= |env|
    ensures r.Some? ==> r.value < n && env[r.value].name == name
    ensures r.Some? ==> forall j :: r.value < j < n ==> env[j].name != name
    ensures r.None? ==> forall j :: 0 <= j < n ==> env[j].name != name
  {
    if n == 0 then None
    else if env[n - 1].name == name then Some(n - 1)
    else FindVar(env, name, n - 1)
  }

  function Lookup(env: Env, name: string): Option<Val> {
    match FindVar(env, name, |env|)
    case Some(i) => Some(env[i].value)
    case None => None
  }

  /** env_assign: rebinds the innermost binding of the name, unless immutable. */
  function AssignVar(env: Env, name: string, v: Val): (r: Res<Env>)
    ensures r.Ok? ==> |r.value| == |env|
  {
    match FindVar(env, name, |env|)
    case None => Fail(UndefinedVar)
    case Some(i) =>
      if env[i].immut then Fail(ImmutableVar)
      else Ok(env[i := env[i].(value := v)])
  }

  /** env_define: refuses the 257th binding. */
  function DefineVar(env: Env, name: string, v: Val, immut: bool): (r: Res<Env>)
    ensures r.Ok? ==> |r.value| == |env| + 1
  {
    if |env| >= MAX_VARS then Fail(TooManyVars)
    else Ok(env + [Binding(name, v, immut)])
  }

  /** Assignment changes the value of the innermost binding of the name and nothing else;
      it fails exactly when there is none, or when that one is immutable. */
  lemma AssignIs(env: Env, name: string, v: Val)
    ensures var r := AssignVar(env, name, v); r.Ok? ==>
      && Lookup(r.value, name) == Some(v) && |r.value| == |env|
      && (forall i :: 0 <= i < |env| ==> r.value[i].name == env[i].name && r.value[i].immut == env[i].immut)
      && (forall x :: x != name ==> Lookup(r.value, x) == Lookup(env, x))
    ensures var r := AssignVar(env, name, v); r.Fail? ==>
      if Lookup(env, name).None? then r.err == UndefinedVar
      else r.err == ImmutableVar && env[FindVar(env, name, |env|).value].immut
  {
    var r := AssignVar(env, name, v);
    if r.Ok? {
      var i := FindVar(env, name, |env|).value;
      FindSame(env, r.value, name, |env|);
      forall x | x != name ensures Lookup(r.value, x) == Lookup(env, x) { FindSame(env, r.value, x, |env|); }
    }
  }

  /** Where the names are the same, so is what is found. */
  lemma {:induction false} FindSame(env: Env, env1: Env, name: string, n: nat)
    requires n <= |env| && n <= |env1| && forall i :: 0 <= i < n ==> env[i].name == env1[i].name
    ensures FindVar(env, name, n) == FindVar(env1, name, n)
    decreases n
  {
    if n > 0 { FindSame(env, env1, name, n - 1); }
  }

  /** A definition hides what the name stood for, leaves every other name alone, is undone
      by cutting the bindings back, and fails exactly when there are 256 already. */
  lemma DefineIs(env: Env, name: string, v: Val, immut: bool)
    ensures var r := DefineVar(env, name, v, immut); r.Ok? ==>
      && |env| < 256 && Lookup(r.value, name) == Some(v) && r.value[..|env|] == env
      && (forall x :: x != name ==> Lookup(r.value, x) == Lookup(env, x))
    ensures var r := DefineVar(env, name, v, immut); r.Fail? ==> |env| >= 256 && r.err == TooManyVars
  {
    var r := DefineVar(env, name, v, immut);
    if r.Ok? {
      forall x | x != name ensures Lookup(r.value, x) == Lookup(env, x) {
        assert FindVar(r.value, x, |r.value|) == FindVar(r.value, x, |env|);
        FindSame(env, r.value, x, |env|);
      }
    }
  }

  function Bind(params: seq<string>, args: seq<Val>): (r: Env)
    requires |params| == |args|
    ensures |r| == |params|
    ensures forall i :: 0 <= i < |params| ==> r[i] == Binding(params[i], args[i], true)
  {
    seq(|params|, i requires 0 <= i < |params| => Binding(params[i], args[i], true))
  }

  /** Parameters become immutable bindings; the machine does not look at the
      result of env_define, so parameters past the limit are dropped. */
  function BindParams(env: Env, params: seq<string>, args: seq<Val>): (r: Env)
    requires |params| == |args|
    ensures |env| <= |r|
    decreases |params|
  {
    if params == [] then env
    else
      var d := DefineVar(env, params[0], args[0], true);
      BindParams(if d.Ok? then d.value else env, params[1..], args[1..])
  }

  lemma BindHead(params: seq<string>, args: seq<Val>)
    requires |params| == |args| && params != []
    ensures Bind(params, args) == [Binding(params[0], args[0], true)] + Bind(params[1..], args[1..])
  {
  }

  lemma {:induction false} NoRoom(env: Env, params: seq<string>, args: seq<Val>)
    requires |params| == |args| && |env| >= MAX_VARS
    ensures BindParams(env, params, args) == env
    decreases |params|
  {
    if params != [] { NoRoom(env, params[1..], args[1..]); }
  }

  /** A call binds as many of its parameters as the 256 slots have room for, and
      so all of them exactly when they fit; where they do not, the tree walker
      reports "too many variables" and the machine goes on without the rest. */
  lemma {:induction false} CallBindsAll(env: Env, params: seq<string>, args: seq<Val>)
    requires |params| == |args| && |env| <= 256
    ensures var room := 256 - |env|;
      BindParams(env, params, args)
      == env + if |params| <= room then Bind(params, args) else Bind(params, args)[..room]
    decreases |params|
  {
    hide Bind, BindParams;
    var all := Bind(params, args);
    if params == [] {
      NoParams(env, params, args);
      assert env + all == env;
    } else if |env| == MAX_VARS {
      NoRoom(env, params, args);
      assert env + all[..0] == env;
    } else {
      var b := Binding(params[0], args[0], true);
      var rest := Bind(params[1..], args[1..]);
      BindHead(params, args);
      BindNext(env, params, args, b);
      CallBindsAll(env + [b], params[1..], args[1..]);
      OneMore(env, b, rest, MAX_VARS - |env|);
    }
  }

  lemma NoParams(env: Env, params: seq<string>, args: seq<Val>)
    requires |params| == |args| && params == []
    ensures BindParams(env, params, args) == env
  {
  }

  lemma BindNext(env: Env, params: seq<string>, args: seq<Val>, b: Binding)
    requires |params| == |args| && params != [] && |env| < MAX_VARS && b == Binding(params[0], args[0], true)
    ensures BindParams(env, params, args) == BindParams(env + [b], params[1..], args[1..])
  {
  }

  lemma OneMore<T>(a: seq<T>, b: T, rest: seq<T>, room: nat)
    requires room > 0
    ensures (a + [b]) + (if |rest| <= room - 1 then rest else rest[..room - 1])
      == a + if |[b] + rest| <= room then [b] + rest else ([b] + rest)[..room]
  {
    if |rest| > room - 1 { assert ([b] + rest)[..room] == [b] + rest[..room - 1]; }
  }

  function FindPair(ps: seq<Pair>, key: string): (r: Option<Val>)
    ensures r.Some? ==> exists i :: 0 <= i < |ps| && ps[i] == Pair(key, r.value)
  {
    if ps == [] then None
    else if ps[0].key == key then
      assert ps[0] == Pair(key, ps[0].value);
      Some(ps[0].value)
    else
      var r := FindPair(ps[1..], key);
      assert r.Some? ==> exists i :: 0 <= i < |ps| && ps[i] == Pair(key, r.value) by {
        if r.Some? {
          var i :| 0 <= i < |ps[1..]| && ps[1..][i] == Pair(key, r.value);
          assert ps[i + 1] == Pair(key, r.value);
        }
      }
      r
  }

  /** A lookup finds the first pair with the key, and nothing exactly when there is none. */
  lemma {:induction false} FindPairIs(ps: seq<Pair>, key: string)
    ensures var r := FindPair(ps, key);
      if r.Some? then
        exists i :: 0 <= i < |ps| && ps[i] == Pair(key, r.value) && (forall j :: 0 <= j < i ==> ps[j].key != key)
      else forall j :: 0 <= j < |ps| ==> ps[j].key != key
    decreases |ps|
  {
    if ps != [] && ps[0].key != key {
      FindPairIs(ps[1..], key);
      var r := FindPair(ps[1..], key);
      if r.Some? {
        var i :| 0 <= i < |ps[1..]| && ps[1..][i] == Pair(key, r.value)
          && forall j :: 0 <= j < i ==> ps[1..][j].key != key;
        assert ps[i + 1] == Pair(key, r.value);
        forall j | 0 <= j < i + 1 ensures ps[j].key != key { if j > 0 { assert ps[j] == ps[1..][j - 1]; } }
      } else {
        forall j | 0 <= j < |ps| ensures ps[j].key != key { if j > 0 { assert ps[j] == ps[1..][j - 1]; } }
      }
    } else if ps != [] {
      assert ps[0] == Pair(key, ps[0].value);
    }
  }

  /** The first n bindings (all of them when there are fewer). */
  function Truncate(env: Env, n: nat): Env {
    if n <= |env| then env[..n] else env
  }
}
