/** The abstract syntax of AGL (src/ast.h), without `match`, `import` and
    type annotations.  Bodies that the parser always builds as blocks are
    blocks by type. */
module Ast {

  datatype Option<+T> = None | Some(value: T)

  /** A 64-bit double, known only by its bit pattern. */
  type Float = x: int | 0 <= x < 0x1_0000_0000_0000_0000

  datatype UnOp = Neg | Not

  datatype BinOp =
    | Add | Sub | Mul | Div | Mod
    | Eq | Neq | Lt | Gt | Le | Ge
    | And | Or

  datatype Expr =
    | IntLit(n: int)
    | FloatLit(f: Float)
    | StrLit(raw: string)            // the token text, quotes included
    | BoolLit(b: bool)
    | Ident(name: string)
    | Unary(uop: UnOp, arg: Expr)
    | Binary(op: BinOp, left: Expr, right: Expr)
    | Field(obj: Expr, field: string)
    | Call(callee: Expr, args: seq<Expr>)
    | ArrayLit(elems: seq<Expr>)
    | MapLit(pairs: seq<Entry>)
    | StructLit(tname: string, pairs: seq<Entry>)
    | Index(arr: Expr, idx: Expr)
    | Lambda(fn: FnDecl)
    | ResultLit(isOk: bool, inner: Expr)
    | Try(inner: Expr)

  datatype Entry = Entry(key: string, value: Expr)

  datatype FnDecl = FnDecl(fname: string, params: seq<string>, body: Block)

  datatype Block = Block(bline: nat, stmts: seq<Stmt>)

  datatype Stmt =
    | ExprStmt(line: nat, e: Expr)
    | Decl(line: nat, immut: bool, x: string, init: Option<Expr>)  // let / var
    | Assign(line: nat, x: string, e: Expr)
    | Return(line: nat, value: Option<Expr>)
    | If(chain: IfChain)
    | While(line: nat, cond: Expr, body: Block)
    | For(line: nat, x: string, iter: Expr, body: Block)
    | Break(line: nat)
    | Continue(line: nat)
    | FnStmt(line: nat, decl: FnDecl)
    | StructDecl(line: nat)

  datatype IfChain = IfChain(line: nat, cond: Expr, thn: Block, els: Else)

  datatype Else = NoElse | ElseBlock(block: Block) | ElseIf(chain: IfChain)

  /** Names that the compiler lowers to CALL_BUILTIN, in the order of the ids
      of src/builtins_core.h (the slot of AGL_BUILTIN_COUNT is no name). */
  const BUILTIN_NAMES: seq<string> := [
    "print", "len", "type", "str", "int", "float", "push", "map", "filter",
    "abs", "min", "max", "read_file", "write_file", "file_exists",
    "map_get", "map_set", "map_keys", "map_has", "map_del",
    "split", "trim", "contains", "replace", "starts_with", "ends_with",
    "to_upper", "to_lower", "join", "substr", "",
    "json_parse", "json_stringify", "env", "env_default",
    "http_get", "http_post", "exec", "now", "sleep"]

  function FindName(names: seq<string>, name: string, i: nat): (r: Option<nat>)
    requires i <= |names|
    ensures r.Some? ==> i <= r.value < |names| && names[r.value] == name
    ensures r.None? <==> name !in names[i..]
    decreases |names| - i
  {
    if i == |names| then None
    else if names[i] == name then Some(i)
    else FindName(names, name, i + 1)
  }

  /** The id of a builtin, if the name is one. */
  function BuiltinId(name: string): (r: Option<nat>)
    ensures r.Some? ==> r.value < 40
  {
    if name == "" then None else FindName(BUILTIN_NAMES, name, 0)
  }

  /** A name has an id exactly when it is one of the names, and the id is its place. */
  lemma BuiltinIdIs(name: string)
    ensures BuiltinId(name).Some? <==> name != "" && name in BUILTIN_NAMES
    ensures BuiltinId(name).Some? ==> BUILTIN_NAMES[BuiltinId(name).value] == name
  {
    assert BUILTIN_NAMES[0..] == BUILTIN_NAMES;
  }

  /** How many bindings a statement leaves behind in its block. */
  function Declared(s: Stmt): nat {
    if s.Decl? || s.FnStmt? then 1 else 0
  }

  function DeclaredIn(ss: seq<Stmt>): nat {
    if ss == [] then 0 else Declared(ss[0]) + DeclaredIn(ss[1..])
  }
}
