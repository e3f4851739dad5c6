/** parser.c as it runs: recursive-descent procedures that move the shared token
    cursor and rebind a local tree in their `for (;;)` loops, and `program`, which
    fills the statement array. Each procedure is proved to compute what the function
    of the same level in `Grammar` describes. */
module Parser {
  import opened Wrappers
  import opened Ast
  import opened Tokenizer
  import G = Grammar

  /** A procedure's result and the cursor it leaves, in the form the `Grammar`
      functions return them. After an error the cursor position does not matter. */
  function Lift<E>(r: Result<Node, E>, pos: nat): Result<G.Parsed, E> {
    match r
    case Ok(n) => Ok(G.Parsed(n, pos))
    case Err(e) => Err(e)
  }

  /** A `Grammar` result with the failing token replaced by its source offset, which
      is what `error_at(tok->str, ...)` reports. The procedures below pass the failing
      token's index up; `program` reports its offset. */
  function Located<T>(s: Stream, g: Result<T, nat>): Result<T, nat>
    requires s.Valid() && (g.Err? ==> g.error < |s.toks|)
  {
    match g
    case Ok(v) => Ok(v)
    case Err(k) => Err(s.toks[k].start)
  }

  /** The state `program` writes: the global `code[]` of statement roots (its NULL
      terminator is the end of the sequence), and the token cursor it reads from. */
  class Parser {
    const cur: Cursor
    var code: seq<Node>

    ghost predicate Valid()
      reads this, cur
    {
      cur.Valid()
    }

    constructor (input: Stream)
      requires input.Valid()
      ensures Valid() && fresh(cur) && cur.input == input && cur.pos == 0 && code == []
    {
      cur := new Cursor(input);
      code := [];
    }

    /** `program`: parse statements until end-of-input, storing each root in `code`. */
    method Program() returns (r: Outcome<nat>)
      requires Valid()
      modifies this, cur
      ensures Valid()
      ensures Located(cur.input, G.ProgramFrom(cur.input, old(cur.pos)))
           == if r.Pass? then Ok(code) else Err(r.error)
    {
      code := [];
      PrependNothing(G.ProgramFrom(cur.input, cur.pos));
      while !cur.AtEof()
        invariant Valid()
        invariant G.ProgramFrom(cur.input, old(cur.pos)) == Prepend(code, G.ProgramFrom(cur.input, cur.pos))
        decreases |cur.input.toks| - cur.pos
      {
        var st := Statement(cur);
        if st.Err? {
          return Fail(cur.input.toks[st.error].start);
        }
        PrependOne(code, st.value, G.ProgramFrom(cur.input, cur.pos));
        code := code + [st.value];
      }
      assert code + [] == code;
      return Pass;
    }
  }

  /** `stmt`: an expression followed by `;`. */
  method Statement(cur: Cursor) returns (r: Result<Node, nat>)
    requires cur.Valid()
    modifies cur
    ensures cur.Valid()
    ensures Lift(r, cur.pos) == G.Statement(cur.input, old(cur.pos))
  {
    var node :- Expr(cur);
    var semi := cur.Expect(";");
    if semi.Fail? {
      return Err(semi.error);
    }
    return Ok(node);
  }

  method Expr(cur: Cursor) returns (r: Result<Node, nat>)
    requires cur.Valid()
    modifies cur
    ensures cur.Valid()
    ensures Lift(r, cur.pos) == G.Expr(cur.input, old(cur.pos))
    decreases |cur.input.toks| - cur.pos, 20
  {
    r := Assignment(cur);
  }

  method Assignment(cur: Cursor) returns (r: Result<Node, nat>)
    requires cur.Valid()
    modifies cur
    ensures cur.Valid()
    ensures Lift(r, cur.pos) == G.Assignment(cur.input, old(cur.pos))
    decreases |cur.input.toks| - cur.pos, 19
  {
    var node :- Equality(cur);
    var eq := cur.Consume("=");
    if eq {
      var rhs :- Assignment(cur);
      node := Assign(node, rhs);
    }
    return Ok(node);
  }

  method Equality(cur: Cursor) returns (r: Result<Node, nat>)
    requires cur.Valid()
    modifies cur
    ensures cur.Valid()
    ensures Lift(r, cur.pos) == G.Equality(cur.input, old(cur.pos))
    decreases |cur.input.toks| - cur.pos, 18
  {
    ghost var s, start := cur.input, cur.pos;
    var node :- Relational(cur);
    while true
      invariant cur.Valid() && cur.input == s && start < cur.pos
      invariant G.Equality(s, start) == G.EqualityLoop(s, node, cur.pos)
      decreases |cur.input.toks| - cur.pos
    {
      var op := ConsumeEither(cur, "==", Eq, "!=", Ne);
      if op.None? {
        return Ok(node);
      }
      var rhs :- Relational(cur);
      node := Binary(op.value, node, rhs);
    }
  }

  /** The two `consume` tests of an `equality`, `add` or `mul` loop, in the source's
      order: the node kind of the operator found, if any. */
  method ConsumeEither(cur: Cursor, a: string, opA: BinOp, b: string, opB: BinOp)
    returns (op: Option<BinOp>)
    requires cur.Valid()
    modifies cur
    ensures cur.Valid()
    ensures op == if cur.input.IsOp(old(cur.pos), a) then Some(opA)
                  else if cur.input.IsOp(old(cur.pos), b) then Some(opB) else None
    ensures cur.pos == if op.Some? then old(cur.pos) + 1 else old(cur.pos)
  {
    var found := cur.Consume(a);
    if found {
      return Some(opA);
    }
    found := cur.Consume(b);
    if found {
      return Some(opB);
    }
    return None;
  }

  /** The four `consume` tests of `relational`'s loop, in the source's order: the
      operator found, if any, with whether it puts its operands the other way round. */
  method RelationalOperator(cur: Cursor) returns (op: Option<(BinOp, bool)>)
    requires cur.Valid()
    modifies cur
    ensures cur.Valid()
    ensures op == G.RelationalOp(cur.input, old(cur.pos))
    ensures cur.pos == if op.Some? then old(cur.pos) + 1 else old(cur.pos)
  {
    var b := cur.Consume("<");
    if b {
      return Some((Lt, false));
    }
    b := cur.Consume("<=");
    if b {
      return Some((Le, false));
    }
    b := cur.Consume(">");
    if b {
      return Some((Lt, true));
    }
    b := cur.Consume(">=");
    if b {
      return Some((Le, true));
    }
    return None;
  }

  /** `>` and `>=` put the operand parsed after the operator on the left. */
  method Relational(cur: Cursor) returns (r: Result<Node, nat>)
    requires cur.Valid()
    modifies cur
    ensures cur.Valid()
    ensures Lift(r, cur.pos) == G.Relational(cur.input, old(cur.pos))
    decreases |cur.input.toks| - cur.pos, 16
  {
    ghost var s, start := cur.input, cur.pos;
    var node :- Additive(cur);
    while true
      invariant cur.Valid() && cur.input == s && start < cur.pos
      invariant G.Relational(s, start) == G.RelationalLoop(s, node, cur.pos)
      decreases |cur.input.toks| - cur.pos
    {
      var found := RelationalOperator(cur);
      if found.None? {
        return Ok(node);
      }
      var (op, swapped) := found.value;
      var operand :- Additive(cur);
      node := if swapped then Binary(op, operand, node) else Binary(op, node, operand);
    }
  }

  method Additive(cur: Cursor) returns (r: Result<Node, nat>)
    requires cur.Valid()
    modifies cur
    ensures cur.Valid()
    ensures Lift(r, cur.pos) == G.Additive(cur.input, old(cur.pos))
    decreases |cur.input.toks| - cur.pos, 14
  {
    ghost var s, start := cur.input, cur.pos;
    var node :- Multiplicative(cur);
    while true
      invariant cur.Valid() && cur.input == s && start < cur.pos
      invariant G.Additive(s, start) == G.AdditiveLoop(s, node, cur.pos)
      decreases |cur.input.toks| - cur.pos
    {
      var op := ConsumeEither(cur, "+", Add, "-", Sub);
      if op.None? {
        return Ok(node);
      }
      var rhs :- Multiplicative(cur);
      node := Binary(op.value, node, rhs);
    }
  }

  method Multiplicative(cur: Cursor) returns (r: Result<Node, nat>)
    requires cur.Valid()
    modifies cur
    ensures cur.Valid()
    ensures Lift(r, cur.pos) == G.Multiplicative(cur.input, old(cur.pos))
    decreases |cur.input.toks| - cur.pos, 12
  {
    ghost var s, start := cur.input, cur.pos;
    var node :- Unary(cur);
    while true
      invariant cur.Valid() && cur.input == s && start < cur.pos
      invariant G.Multiplicative(s, start) == G.MultiplicativeLoop(s, node, cur.pos)
      decreases |cur.input.toks| - cur.pos
    {
      var op := ConsumeEither(cur, "*", Mul, "/", Div);
      if op.None? {
        return Ok(node);
      }
      var rhs :- Unary(cur);
      node := Binary(op.value, node, rhs);
    }
  }

  method Unary(cur: Cursor) returns (r: Result<Node, nat>)
    requires cur.Valid()
    modifies cur
    ensures cur.Valid()
    ensures Lift(r, cur.pos) == G.Unary(cur.input, old(cur.pos))
    decreases |cur.input.toks| - cur.pos, 10
  {
    var plus := cur.Consume("+");
    if plus {
      r := Unary(cur);
      return;
    }
    var minus := cur.Consume("-");
    if minus {
      var operand :- Unary(cur);
      return Ok(Binary(Sub, Num(0), operand));
    }
    r := Primary(cur);
  }

  method Primary(cur: Cursor) returns (r: Result<Node, nat>)
    requires cur.Valid()
    modifies cur
    ensures cur.Valid()
    ensures Lift(r, cur.pos) == G.Primary(cur.input, old(cur.pos))
    decreases |cur.input.toks| - cur.pos, 9
  {
    var open := cur.Consume("(");
    if open {
      var node :- Expr(cur);
      var close := cur.Expect(")");
      if close.Fail? {
        return Err(close.error);
      }
      return Ok(node);
    }
    var tok := cur.ConsumeIdent();
    if tok.Some? {
      return Ok(LVar(G.LvarOffset(cur.input.src[tok.value.start])));
    }
    var val :- cur.ExpectNumber();
    return Ok(Num(val));
  }
}
