/** The tokens of AGL (src/lexer.h).  Only literals and names have a text that
    later stages read; every other token is its kind. */
module Tokens {

  datatype Kind =
    | IntTok | FloatTok | StrTok | True | False | Name
    | Let | Var | Fn | Return | If | Else | While | For | In | Struct | Import | Match | Ok | Err | Break | Continue
    | Plus | Minus | Star | Slash | Percent | Assign | Eq | Neq | Lt | Gt | Le | Ge | And | Or | Not
    | Arrow | Dot | Question | LParen | RParen | LBrace | RBrace | LBracket | RBracket | Comma | Colon
    | Newline | Eof

  predicate HasText(k: Kind) { k == IntTok || k == FloatTok || k == StrTok || k == Name }

  datatype Token = Token(kind: Kind, text: string)

  function Mark(k: Kind): Token { Token(k, "") }

  /** Tokens whose text is never read carry none. */
  predicate Clean(toks: seq<Token>) {
    forall i :: 0 <= i < |toks| ==> HasText(toks[i].kind) || toks[i].text == ""
  }

  /** The lexer keeps answering end of file. */
  function Cur(toks: seq<Token>, i: nat): Token {
    if i < |toks| then toks[i] else Mark(Eof)
  }
}
