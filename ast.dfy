/** The token and syntax-tree types declared in 9cc.h, as values. */
module Ast {

  datatype TokenKind = Reserved | Ident | Number | Eof

  /** A token is a span `[start, start + len)` of the source text; `val` holds the
      value of a number token and is 0 for the others. */
  datatype Token = Token(kind: TokenKind, start: nat, len: nat, val: int) {
    function End(): nat { start + len }
  }

  /** The source text together with the token list built from it: the pair of
      globals `user_input` and `token` that the parser reads. */
  datatype Stream = Stream(src: string, toks: seq<Token>) {

    /** The shape `tokenize` guarantees: exactly one end-of-input token, at the
        end; every other token non-empty; every span inside the source. */
    predicate Valid() {
      && |toks| > 0
      && toks[|toks| - 1].kind == Eof
      && (forall k :: 0 <= k < |toks| - 1 ==> toks[k].kind != Eof)
      && (forall k :: 0 <= k < |toks| - 1 ==> toks[k].len > 0)
      && (forall k :: 0 <= k < |toks| ==> toks[k].End() <= |src|)
    }

    function Text(k: nat): string
      requires Valid() && k < |toks|
    {
      src[toks[k].start..toks[k].End()]
    }

    /** Token `k` is the reserved symbol `op` (the test made by `consume` and `expect`). */
    predicate IsOp(k: nat, op: string)
      requires Valid() && k < |toks|
    {
      toks[k].kind == Reserved && Text(k) == op
    }
  }

  datatype BinOp = Eq | Ne | Lt | Le | Add | Sub | Mul | Div

  /** ND_NUM and ND_LVAR are leaves; the eight operator kinds and ND_ASSIGN always
      have both children. There is no "greater" kind. */
  datatype Node =
    | Num(val: int)
    | LVar(offset: int)
    | Binary(op: BinOp, lhs: Node, rhs: Node)
    | Assign(lhs: Node, rhs: Node)
}
