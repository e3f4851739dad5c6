/** The parser of 9cc.c is the expression part of parser.c: on every input the
    tokenizer of 9cc.c accepts, its `expr` builds the same tree as the later `expr`
    and stops at the same token. Only the error values differ. */
module SnapshotLaws {
  import opened Wrappers
  import opened Ast
  import SL = SnapshotLexer
  import SG = SnapshotGrammar
  import G = Grammar
  import L = Tokenizer

  /** A later token stream the earlier parser can read: no identifiers, and no
      assignment symbol. */
  predicate Compatible(s: Stream) {
    && s.Valid()
    && SL.Fits(s.src, s.toks)
    && forall k :: 0 <= k < |s.toks| ==> !s.IsOp(k, "=")
  }

  /** The stream as 9cc.c stores it. */
  function Earlier(s: Stream): (toks: seq<SL.Token>)
    requires Compatible(s)
    ensures |toks| == |s.toks| && SL.Terminated(toks)
  {
    var toks := SL.Forget(s.src, s.toks);
    assert forall k :: 0 <= k < |toks| ==> (toks[k].Eof? <==> s.toks[k].kind == Eof);
    toks
  }

  /** Both parsers succeed together, and then with the same tree and position. */
  predicate Same(r: Result<G.Parsed, SL.SyntaxError>, q: Result<G.Parsed, nat>) {
    r.Ok? == q.Ok? && (r.Ok? ==> r.value == q.value)
  }

  /** Token `k` looks the same to both parsers. */
  lemma {:induction false} TokenAgrees(s: Stream, k: nat)
    requires Compatible(s) && k < |s.toks|
    ensures forall op :: SL.IsOp(Earlier(s), k, op) <==> s.IsOp(k, op)
    ensures Earlier(s)[k].Number? <==> s.toks[k].kind == Number
    ensures Earlier(s)[k].Number? ==> Earlier(s)[k].val == s.toks[k].val
    ensures s.toks[k].kind != Ident && !s.IsOp(k, "=")
  {
    assert Earlier(s)[k] == SL.ForgetOne(s.src, s.toks[k]);
  }

  lemma {:induction false} ExprAgrees(s: Stream, pos: nat)
    requires Compatible(s) && pos < |s.toks|
    ensures Same(SG.Expr(Earlier(s), pos), G.Expr(s, pos))
    decreases |s.toks| - pos, 20
  {
    EqualityAgrees(s, pos);
    var lhs := G.Equality(s, pos);
    if lhs.Ok? {
      TokenAgrees(s, lhs.value.next);
    }
  }

  lemma {:induction false} EqualityAgrees(s: Stream, pos: nat)
    requires Compatible(s) && pos < |s.toks|
    ensures Same(SG.Equality(Earlier(s), pos), G.Equality(s, pos))
    decreases |s.toks| - pos, 18
  {
    RelationalAgrees(s, pos);
    var lhs := G.Relational(s, pos);
    if lhs.Ok? {
      EqualityLoopAgrees(s, lhs.value.node, lhs.value.next);
    }
  }

  lemma {:induction false} EqualityLoopAgrees(s: Stream, node: Node, pos: nat)
    requires Compatible(s) && pos < |s.toks|
    ensures Same(SG.EqualityLoop(Earlier(s), node, pos), G.EqualityLoop(s, node, pos))
    decreases |s.toks| - pos, 17
  {
    TokenAgrees(s, pos);
    if s.IsOp(pos, "==") || s.IsOp(pos, "!=") {
      RelationalAgrees(s, pos + 1);
      var rhs := G.Relational(s, pos + 1);
      if rhs.Ok? {
        var op := if s.IsOp(pos, "==") then Eq else Ne;
        EqualityLoopAgrees(s, Binary(op, node, rhs.value.node), rhs.value.next);
      }
    }
  }

  lemma {:induction false} RelationalAgrees(s: Stream, pos: nat)
    requires Compatible(s) && pos < |s.toks|
    ensures Same(SG.Relational(Earlier(s), pos), G.Relational(s, pos))
    decreases |s.toks| - pos, 16
  {
    AdditiveAgrees(s, pos);
    var lhs := G.Additive(s, pos);
    if lhs.Ok? {
      RelationalLoopAgrees(s, lhs.value.node, lhs.value.next);
    }
  }

  lemma {:induction false} RelationalLoopAgrees(s: Stream, node: Node, pos: nat)
    requires Compatible(s) && pos < |s.toks|
    ensures Same(SG.RelationalLoop(Earlier(s), node, pos), G.RelationalLoop(s, node, pos))
    decreases |s.toks| - pos, 15
  {
    TokenAgrees(s, pos);
    assert SG.RelationalOp(Earlier(s), pos) == G.RelationalOp(s, pos);
    match G.RelationalOp(s, pos)
    case None =>
    case Some((op, swapped)) =>
      AdditiveAgrees(s, pos + 1);
      var rhs := G.Additive(s, pos + 1);
      if rhs.Ok? {
        var n := rhs.value.node;
        RelationalLoopAgrees(s, if swapped then Binary(op, n, node) else Binary(op, node, n), rhs.value.next);
      }
  }

  lemma {:induction false} AdditiveAgrees(s: Stream, pos: nat)
    requires Compatible(s) && pos < |s.toks|
    ensures Same(SG.Additive(Earlier(s), pos), G.Additive(s, pos))
    decreases |s.toks| - pos, 14
  {
    MultiplicativeAgrees(s, pos);
    var lhs := G.Multiplicative(s, pos);
    if lhs.Ok? {
      AdditiveLoopAgrees(s, lhs.value.node, lhs.value.next);
    }
  }

  lemma {:induction false} AdditiveLoopAgrees(s: Stream, node: Node, pos: nat)
    requires Compatible(s) && pos < |s.toks|
    ensures Same(SG.AdditiveLoop(Earlier(s), node, pos), G.AdditiveLoop(s, node, pos))
    decreases |s.toks| - pos, 13
  {
    TokenAgrees(s, pos);
    if s.IsOp(pos, "+") || s.IsOp(pos, "-") {
      MultiplicativeAgrees(s, pos + 1);
      var rhs := G.Multiplicative(s, pos + 1);
      if rhs.Ok? {
        var op := if s.IsOp(pos, "+") then Add else Sub;
        AdditiveLoopAgrees(s, Binary(op, node, rhs.value.node), rhs.value.next);
      }
    }
  }

  lemma {:induction false} MultiplicativeAgrees(s: Stream, pos: nat)
    requires Compatible(s) && pos < |s.toks|
    ensures Same(SG.Multiplicative(Earlier(s), pos), G.Multiplicative(s, pos))
    decreases |s.toks| - pos, 12
  {
    UnaryAgrees(s, pos);
    var lhs := G.Unary(s, pos);
    if lhs.Ok? {
      MultiplicativeLoopAgrees(s, lhs.value.node, lhs.value.next);
    }
  }

  lemma {:induction false} MultiplicativeLoopAgrees(s: Stream, node: Node, pos: nat)
    requires Compatible(s) && pos < |s.toks|
    ensures Same(SG.MultiplicativeLoop(Earlier(s), node, pos), G.MultiplicativeLoop(s, node, pos))
    decreases |s.toks| - pos, 11
  {
    TokenAgrees(s, pos);
    if s.IsOp(pos, "*") || s.IsOp(pos, "/") {
      UnaryAgrees(s, pos + 1);
      var rhs := G.Unary(s, pos + 1);
      if rhs.Ok? {
        var op := if s.IsOp(pos, "*") then Mul else Div;
        MultiplicativeLoopAgrees(s, Binary(op, node, rhs.value.node), rhs.value.next);
      }
    }
  }

  lemma {:induction false} UnaryAgrees(s: Stream, pos: nat)
    requires Compatible(s) && pos < |s.toks|
    ensures Same(SG.Unary(Earlier(s), pos), G.Unary(s, pos))
    decreases |s.toks| - pos, 10
  {
    TokenAgrees(s, pos);
    if s.IsOp(pos, "+") || s.IsOp(pos, "-") {
      UnaryAgrees(s, pos + 1);
    } else {
      PrimaryAgrees(s, pos);
    }
  }

  lemma {:induction false} PrimaryAgrees(s: Stream, pos: nat)
    requires Compatible(s) && pos < |s.toks|
    ensures Same(SG.Primary(Earlier(s), pos), G.Primary(s, pos))
    decreases |s.toks| - pos, 9
  {
    TokenAgrees(s, pos);
    if s.IsOp(pos, "(") {
      ExprAgrees(s, pos + 1);
      var inner := G.Expr(s, pos + 1);
      if inner.Ok? {
        TokenAgrees(s, inner.value.next);
      }
    }
  }

  /** On any input the tokenizer of 9cc.c accepts, its `expr` and the later `expr`
      (run on the later tokenizer's output) build the same tree and stop at the same
      token: the same precedence chain and the same associativity, with no
      assignment and no variables. */
  lemma ParsesLikeLater(src: string)
    requires SL.TokenizeFrom(src, 0).Ok?
    ensures L.TokenizeFrom(src, 0).Ok?
    ensures var s := Stream(src, L.TokenizeFrom(src, 0).value);
      && Compatible(s)
      && Same(SG.Expr(SL.TokenizeFrom(src, 0).value, 0), G.Expr(s, 0))
  {
    SL.LaterTokenizerAgrees(src, 0);
    SL.TokenizeSuccess(src, 0);
    var s := Stream(src, L.TokenizeFrom(src, 0).value);
    NoAssignSymbol(s, SL.TokenizeFrom(src, 0).value);
    ExprAgrees(s, 0);
  }

  /** A stream whose earlier reading carries only the twelve symbols of 9cc.c has no
      `=` token. */
  lemma NoAssignSymbol(s: Stream, earlier: seq<SL.Token>)
    requires s.Valid() && SL.Fits(s.src, s.toks) && SL.Forget(s.src, s.toks) == earlier
    requires forall t :: t in earlier ==> SL.ReservedText(t)
    ensures Compatible(s)
  {
    forall k | 0 <= k < |s.toks|
      ensures !s.IsOp(k, "=")
    {
      assert earlier[k] == SL.ForgetOne(s.src, s.toks[k]);
      assert earlier[k] in earlier;
    }
  }
}
