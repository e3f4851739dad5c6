/** The parser of 9cc.c read as functions, in the same form as `Grammar`: each
    precedence level takes the index of the current token and returns the tree and
    the index just past it. 9cc.c has no statements, variables or assignment, and
    its errors carry no source offset. */
module SnapshotGrammar {
  import opened Wrappers
  import opened Ast
  import opened SnapshotLexer
  import Codegen
  import Grammar

  type Parsed = Grammar.Parsed
  type Token = SnapshotLexer.Token

  /** A level consumes at least one token, stops before the end-of-input token at
      the latest, and builds only numbers and operators. */
  ghost predicate Advances(toks: seq<Token>, pos: nat, r: Result<Parsed, SyntaxError>) {
    r.Ok? ==> pos < r.value.next < |toks| && Codegen.Pure(r.value.node)
  }

  /** The same for a loop, which may consume nothing and extends the tree it is given. */
  ghost predicate Continues(toks: seq<Token>, pos: nat, node: Node, r: Result<Parsed, SyntaxError>) {
    r.Ok? ==> pos <= r.value.next < |toks| && (Codegen.Pure(node) ==> Codegen.Pure(r.value.node))
  }

  // expr = equality
  function Expr(toks: seq<Token>, pos: nat): (r: Result<Parsed, SyntaxError>)
    requires Terminated(toks) && pos < |toks|
    ensures Advances(toks, pos, r)
    decreases |toks| - pos, 20
  {
    Equality(toks, pos)
  }

  // equality = relational ("==" relational | "!=" relational)*
  function Equality(toks: seq<Token>, pos: nat): (r: Result<Parsed, SyntaxError>)
    requires Terminated(toks) && pos < |toks|
    ensures Advances(toks, pos, r)
    decreases |toks| - pos, 18
  {
    var lhs :- Relational(toks, pos);
    EqualityLoop(toks, lhs.node, lhs.next)
  }

  function EqualityLoop(toks: seq<Token>, node: Node, pos: nat): (r: Result<Parsed, SyntaxError>)
    requires Terminated(toks) && pos < |toks|
    ensures Continues(toks, pos, node, r)
    decreases |toks| - pos, 17
  {
    if IsOp(toks, pos, "==") then
      var rhs :- Relational(toks, pos + 1);
      EqualityLoop(toks, Binary(Eq, node, rhs.node), rhs.next)
    else if IsOp(toks, pos, "!=") then
      var rhs :- Relational(toks, pos + 1);
      EqualityLoop(toks, Binary(Ne, node, rhs.node), rhs.next)
    else
      Ok(Grammar.Parsed(node, pos))
  }

  // relational = add ("<" add | "<=" add | ">" add | ">=" add)*
  function Relational(toks: seq<Token>, pos: nat): (r: Result<Parsed, SyntaxError>)
    requires Terminated(toks) && pos < |toks|
    ensures Advances(toks, pos, r)
    decreases |toks| - pos, 16
  {
    var lhs :- Additive(toks, pos);
    RelationalLoop(toks, lhs.node, lhs.next)
  }

  /** The relational operator at token `pos`, tested in the source's order, and
      whether it puts the operand that follows it on the left. */
  function RelationalOp(toks: seq<Token>, pos: nat): Option<(BinOp, bool)>
    requires pos < |toks|
  {
    if IsOp(toks, pos, "<") then Some((Lt, false))
    else if IsOp(toks, pos, "<=") then Some((Le, false))
    else if IsOp(toks, pos, ">") then Some((Lt, true))
    else if IsOp(toks, pos, ">=") then Some((Le, true))
    else None
  }

  function RelationalLoop(toks: seq<Token>, node: Node, pos: nat): (r: Result<Parsed, SyntaxError>)
    requires Terminated(toks) && pos < |toks|
    ensures Continues(toks, pos, node, r)
    decreases |toks| - pos, 15
  {
    match RelationalOp(toks, pos)
    case None => Ok(Grammar.Parsed(node, pos))
    case Some((op, swapped)) =>
      var rhs :- Additive(toks, pos + 1);
      RelationalLoop(toks, if swapped then Binary(op, rhs.node, node) else Binary(op, node, rhs.node), rhs.next)
  }

  // add = mul ("+" mul | "-" mul)*
  function Additive(toks: seq<Token>, pos: nat): (r: Result<Parsed, SyntaxError>)
    requires Terminated(toks) && pos < |toks|
    ensures Advances(toks, pos, r)
    decreases |toks| - pos, 14
  {
    var lhs :- Multiplicative(toks, pos);
    AdditiveLoop(toks, lhs.node, lhs.next)
  }

  function AdditiveLoop(toks: seq<Token>, node: Node, pos: nat): (r: Result<Parsed, SyntaxError>)
    requires Terminated(toks) && pos < |toks|
    ensures Continues(toks, pos, node, r)
    decreases |toks| - pos, 13
  {
    if IsOp(toks, pos, "+") then
      var rhs :- Multiplicative(toks, pos + 1);
      AdditiveLoop(toks, Binary(Add, node, rhs.node), rhs.next)
    else if IsOp(toks, pos, "-") then
      var rhs :- Multiplicative(toks, pos + 1);
      AdditiveLoop(toks, Binary(Sub, node, rhs.node), rhs.next)
    else
      Ok(Grammar.Parsed(node, pos))
  }

  // mul = unary ("*" unary | "/" unary)*
  function Multiplicative(toks: seq<Token>, pos: nat): (r: Result<Parsed, SyntaxError>)
    requires Terminated(toks) && pos < |toks|
    ensures Advances(toks, pos, r)
    decreases |toks| - pos, 12
  {
    var lhs :- Unary(toks, pos);
    MultiplicativeLoop(toks, lhs.node, lhs.next)
  }

  function MultiplicativeLoop(toks: seq<Token>, node: Node, pos: nat): (r: Result<Parsed, SyntaxError>)
    requires Terminated(toks) && pos < |toks|
    ensures Continues(toks, pos, node, r)
    decreases |toks| - pos, 11
  {
    if IsOp(toks, pos, "*") then
      var rhs :- Unary(toks, pos + 1);
      MultiplicativeLoop(toks, Binary(Mul, node, rhs.node), rhs.next)
    else if IsOp(toks, pos, "/") then
      var rhs :- Unary(toks, pos + 1);
      MultiplicativeLoop(toks, Binary(Div, node, rhs.node), rhs.next)
    else
      Ok(Grammar.Parsed(node, pos))
  }

  // unary = ("+" | "-")? unary | primary
  function Unary(toks: seq<Token>, pos: nat): (r: Result<Parsed, SyntaxError>)
    requires Terminated(toks) && pos < |toks|
    ensures Advances(toks, pos, r)
    decreases |toks| - pos, 10
  {
    if IsOp(toks, pos, "+") then
      Unary(toks, pos + 1)
    else if IsOp(toks, pos, "-") then
      var operand :- Unary(toks, pos + 1);
      Ok(Grammar.Parsed(Binary(Sub, Num(0), operand.node), operand.next))
    else
      Primary(toks, pos)
  }

  // primary = "(" expr ")" | num
  function Primary(toks: seq<Token>, pos: nat): (r: Result<Parsed, SyntaxError>)
    requires Terminated(toks) && pos < |toks|
    ensures Advances(toks, pos, r)
    decreases |toks| - pos, 9
  {
    if IsOp(toks, pos, "(") then
      var inner :- Expr(toks, pos + 1);
      if IsOp(toks, inner.next, ")") then Ok(Grammar.Parsed(inner.node, inner.next + 1))
      else Err(Expected(")"))
    else if toks[pos].Number? then
      Ok(Grammar.Parsed(Num(toks[pos].val), pos + 1))
    else
      Err(ExpectedNumber)
  }
}
