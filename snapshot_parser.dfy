/** The parser of 9cc.c as it runs: recursive-descent procedures that move the
    global token cursor and rebind a local tree in their `for (;;)` loops. Each is
    proved to compute what the function of the same level in `SnapshotGrammar`
    describes. */
module SnapshotParser {
  import opened Wrappers
  import opened Ast
  import opened SnapshotLexer
  import G = SnapshotGrammar
  import Parser

  /** `expr`. */
  method Expr(cur: Cursor) returns (r: Result<Node, SyntaxError>)
    requires cur.Valid()
    modifies cur
    ensures cur.Valid()
    ensures Parser.Lift(r, cur.pos) == G.Expr(cur.toks, old(cur.pos))
    decreases |cur.toks| - cur.pos, 20
  {
    r := Equality(cur);
  }

  method Equality(cur: Cursor) returns (r: Result<Node, SyntaxError>)
    requires cur.Valid()
    modifies cur
    ensures cur.Valid()
    ensures Parser.Lift(r, cur.pos) == G.Equality(cur.toks, old(cur.pos))
    decreases |cur.toks| - cur.pos, 18
  {
    ghost var start := cur.pos;
    var node :- Relational(cur);
    while true
      invariant cur.Valid() && start < cur.pos
      invariant G.Equality(cur.toks, start) == G.EqualityLoop(cur.toks, node, cur.pos)
      decreases |cur.toks| - cur.pos
    {
      var b := cur.Consume("==");
      if b {
        var rhs :- Relational(cur);
        node := Binary(Eq, node, rhs);
        continue;
      }
      b := cur.Consume("!=");
      if b {
        var rhs :- Relational(cur);
        node := Binary(Ne, node, rhs);
        continue;
      }
      return Ok(node);
    }
  }

  /** The four `consume` tests of `relational`'s loop, in the source's order. */
  method RelationalOperator(cur: Cursor) returns (op: Option<(BinOp, bool)>)
    requires cur.Valid()
    modifies cur
    ensures cur.Valid()
    ensures op == G.RelationalOp(cur.toks, old(cur.pos))
    ensures cur.pos == if op.Some? then old(cur.pos) + 1 else old(cur.pos)
  {
    var b := cur.Consume("<");
    if b {
      return Some((Lt, false));
    }
    b := cur.Consume("<=");
    if b {
      return Some((Le, false));
    }
    b := cur.Consume(">");
    if b {
      return Some((Lt, true));
    }
    b := cur.Consume(">=");
    if b {
      return Some((Le, true));
    }
    return None;
  }

  /** `>` and `>=` put the operand parsed after the operator on the left. */
  method Relational(cur: Cursor) returns (r: Result<Node, SyntaxError>)
    requires cur.Valid()
    modifies cur
    ensures cur.Valid()
    ensures Parser.Lift(r, cur.pos) == G.Relational(cur.toks, old(cur.pos))
    decreases |cur.toks| - cur.pos, 16
  {
    ghost var start := cur.pos;
    var node :- Additive(cur);
    while true
      invariant cur.Valid() && start < cur.pos
      invariant G.Relational(cur.toks, start) == G.RelationalLoop(cur.toks, node, cur.pos)
      decreases |cur.toks| - cur.pos
    {
      var found := RelationalOperator(cur);
      if found.None? {
        return Ok(node);
      }
      var (op, swapped) := found.value;
      var operand :- Additive(cur);
      node := if swapped then Binary(op, operand, node) else Binary(op, node, operand);
    }
  }

  method Additive(cur: Cursor) returns (r: Result<Node, SyntaxError>)
    requires cur.Valid()
    modifies cur
    ensures cur.Valid()
    ensures Parser.Lift(r, cur.pos) == G.Additive(cur.toks, old(cur.pos))
    decreases |cur.toks| - cur.pos, 14
  {
    ghost var start := cur.pos;
    var node :- Multiplicative(cur);
    while true
      invariant cur.Valid() && start < cur.pos
      invariant G.Additive(cur.toks, start) == G.AdditiveLoop(cur.toks, node, cur.pos)
      decreases |cur.toks| - cur.pos
    {
      var b := cur.Consume("+");
      if b {
        var rhs :- Multiplicative(cur);
        node := Binary(Add, node, rhs);
        continue;
      }
      b := cur.Consume("-");
      if b {
        var rhs :- Multiplicative(cur);
        node := Binary(Sub, node, rhs);
        continue;
      }
      return Ok(node);
    }
  }

  method Multiplicative(cur: Cursor) returns (r: Result<Node, SyntaxError>)
    requires cur.Valid()
    modifies cur
    ensures cur.Valid()
    ensures Parser.Lift(r, cur.pos) == G.Multiplicative(cur.toks, old(cur.pos))
    decreases |cur.toks| - cur.pos, 12
  {
    ghost var start := cur.pos;
    var node :- Unary(cur);
    while true
      invariant cur.Valid() && start < cur.pos
      invariant G.Multiplicative(cur.toks, start) == G.MultiplicativeLoop(cur.toks, node, cur.pos)
      decreases |cur.toks| - cur.pos
    {
      var b := cur.Consume("*");
      if b {
        var rhs :- Unary(cur);
        node := Binary(Mul, node, rhs);
        continue;
      }
      b := cur.Consume("/");
      if b {
        var rhs :- Unary(cur);
        node := Binary(Div, node, rhs);
        continue;
      }
      return Ok(node);
    }
  }

  method Unary(cur: Cursor) returns (r: Result<Node, SyntaxError>)
    requires cur.Valid()
    modifies cur
    ensures cur.Valid()
    ensures Parser.Lift(r, cur.pos) == G.Unary(cur.toks, old(cur.pos))
    decreases |cur.toks| - cur.pos, 10
  {
    var plus := cur.Consume("+");
    if plus {
      r := Unary(cur);
      return;
    }
    var minus := cur.Consume("-");
    if minus {
      var operand :- Unary(cur);
      return Ok(Binary(Sub, Num(0), operand));
    }
    r := Primary(cur);
  }

  method Primary(cur: Cursor) returns (r: Result<Node, SyntaxError>)
    requires cur.Valid()
    modifies cur
    ensures cur.Valid()
    ensures Parser.Lift(r, cur.pos) == G.Primary(cur.toks, old(cur.pos))
    decreases |cur.toks| - cur.pos, 9
  {
    var open := cur.Consume("(");
    if open {
      var node :- Expr(cur);
      var close := cur.Expect(")");
      if close.Fail? {
        return Err(close.error);
      }
      return Ok(node);
    }
    var val :- cur.ExpectNumber();
    return Ok(Num(val));
  }
}
