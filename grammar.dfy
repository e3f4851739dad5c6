/** parser.c read as functions: each precedence level takes the index of the current
    token and returns the tree it built and the index just past it, or the index of
    the token where parsing failed (`error_at` reports that token's source offset).
    A `for (;;)` loop of the source is the function `...Loop`, which takes the tree
    built so far. */
module Grammar {
  import opened Wrappers
  import opened Ast
  import Tokenizer

  datatype Parsed = Parsed(node: Node, next: nat)

  /** A level that must consume at least one token: on success it stops at a later
      token (never past end-of-input); on failure it names a token at `pos` or later. */
  ghost predicate Advances(s: Stream, pos: nat, r: Result<Parsed, nat>) {
    && (r.Ok? ==> pos < r.value.next < |s.toks|)
    && (r.Err? ==> pos <= r.error < |s.toks|)
  }

  /** The same for a loop, which may consume nothing. */
  ghost predicate Continues(s: Stream, pos: nat, r: Result<Parsed, nat>) {
    && (r.Ok? ==> pos <= r.value.next < |s.toks|)
    && (r.Err? ==> pos <= r.error < |s.toks|)
  }

  /** The frame offset `new_node_lvar` gives the variable named `c`: a multiple of 8,
      positive exactly from `a` on, and at most 208 up to `z`. */
  function LvarOffset(c: char): (offset: int)
    ensures offset % 8 == 0
    ensures offset > 0 <==> c >= 'a'
    ensures c <= 'z' ==> offset <= 208
  {
    ((c as int) - ('a' as int) + 1) * 8
  }

  /** `new_node_lvar(tok)`: the variable node for identifier token `k`, at the slot of
      the token's first character. */
  function NewLvar(s: Stream, k: nat): (n: Node)
    requires s.Valid() && k < |s.toks| - 1
    ensures n.LVar? && n.offset % 8 == 0
    ensures 'a' <= s.src[s.toks[k].start] <= 'z' ==> 8 <= n.offset <= 208
  {
    LVar(LvarOffset(s.src[s.toks[k].start]))
  }

  // expr = assign
  function Expr(s: Stream, pos: nat): (r: Result<Parsed, nat>)
    requires s.Valid() && pos < |s.toks|
    ensures Advances(s, pos, r)
    decreases |s.toks| - pos, 20
  {
    Assignment(s, pos)
  }

  // assign = equality ("=" assign)?
  function Assignment(s: Stream, pos: nat): (r: Result<Parsed, nat>)
    requires s.Valid() && pos < |s.toks|
    ensures Advances(s, pos, r)
    decreases |s.toks| - pos, 19
  {
    var lhs :- Equality(s, pos);
    if s.IsOp(lhs.next, "=") then
      var rhs :- Assignment(s, lhs.next + 1);
      Ok(Parsed(Assign(lhs.node, rhs.node), rhs.next))
    else
      Ok(lhs)
  }

  // equality = relational ("==" relational | "!=" relational)*
  function Equality(s: Stream, pos: nat): (r: Result<Parsed, nat>)
    requires s.Valid() && pos < |s.toks|
    ensures Advances(s, pos, r)
    decreases |s.toks| - pos, 18
  {
    var lhs :- Relational(s, pos);
    EqualityLoop(s, lhs.node, lhs.next)
  }

  function EqualityLoop(s: Stream, node: Node, pos: nat): (r: Result<Parsed, nat>)
    requires s.Valid() && pos < |s.toks|
    ensures Continues(s, pos, r)
    decreases |s.toks| - pos, 17
  {
    if s.IsOp(pos, "==") then
      var rhs :- Relational(s, pos + 1);
      EqualityLoop(s, Binary(Eq, node, rhs.node), rhs.next)
    else if s.IsOp(pos, "!=") then
      var rhs :- Relational(s, pos + 1);
      EqualityLoop(s, Binary(Ne, node, rhs.node), rhs.next)
    else
      Ok(Parsed(node, pos))
  }

  // relational = add ("<" add | "<=" add | ">" add | ">=" add)*
  function Relational(s: Stream, pos: nat): (r: Result<Parsed, nat>)
    requires s.Valid() && pos < |s.toks|
    ensures Advances(s, pos, r)
    decreases |s.toks| - pos, 16
  {
    var lhs :- Additive(s, pos);
    RelationalLoop(s, lhs.node, lhs.next)
  }

  /** The relational operator at token `pos`, if any, and whether it swaps its
      operands: `>` and `>=` reuse ND_LT and ND_LE with the right operand first. */
  function RelationalOp(s: Stream, pos: nat): Option<(BinOp, bool)>
    requires s.Valid() && pos < |s.toks|
  {
    if s.IsOp(pos, "<") then Some((Lt, false))
    else if s.IsOp(pos, "<=") then Some((Le, false))
    else if s.IsOp(pos, ">") then Some((Lt, true))
    else if s.IsOp(pos, ">=") then Some((Le, true))
    else None
  }

  function RelationalLoop(s: Stream, node: Node, pos: nat): (r: Result<Parsed, nat>)
    requires s.Valid() && pos < |s.toks|
    ensures Continues(s, pos, r)
    decreases |s.toks| - pos, 15
  {
    match RelationalOp(s, pos)
    case None => Ok(Parsed(node, pos))
    case Some((op, swapped)) =>
      var rhs :- Additive(s, pos + 1);
      RelationalLoop(s, if swapped then Binary(op, rhs.node, node) else Binary(op, node, rhs.node), rhs.next)
  }

  // add = mul ("+" mul | "-" mul)*
  function Additive(s: Stream, pos: nat): (r: Result<Parsed, nat>)
    requires s.Valid() && pos < |s.toks|
    ensures Advances(s, pos, r)
    decreases |s.toks| - pos, 14
  {
    var lhs :- Multiplicative(s, pos);
    AdditiveLoop(s, lhs.node, lhs.next)
  }

  function AdditiveLoop(s: Stream, node: Node, pos: nat): (r: Result<Parsed, nat>)
    requires s.Valid() && pos < |s.toks|
    ensures Continues(s, pos, r)
    decreases |s.toks| - pos, 13
  {
    if s.IsOp(pos, "+") then
      var rhs :- Multiplicative(s, pos + 1);
      AdditiveLoop(s, Binary(Add, node, rhs.node), rhs.next)
    else if s.IsOp(pos, "-") then
      var rhs :- Multiplicative(s, pos + 1);
      AdditiveLoop(s, Binary(Sub, node, rhs.node), rhs.next)
    else
      Ok(Parsed(node, pos))
  }

  // mul = unary ("*" unary | "/" unary)*
  function Multiplicative(s: Stream, pos: nat): (r: Result<Parsed, nat>)
    requires s.Valid() && pos < |s.toks|
    ensures Advances(s, pos, r)
    decreases |s.toks| - pos, 12
  {
    var lhs :- Unary(s, pos);
    MultiplicativeLoop(s, lhs.node, lhs.next)
  }

  function MultiplicativeLoop(s: Stream, node: Node, pos: nat): (r: Result<Parsed, nat>)
    requires s.Valid() && pos < |s.toks|
    ensures Continues(s, pos, r)
    decreases |s.toks| - pos, 11
  {
    if s.IsOp(pos, "*") then
      var rhs :- Unary(s, pos + 1);
      MultiplicativeLoop(s, Binary(Mul, node, rhs.node), rhs.next)
    else if s.IsOp(pos, "/") then
      var rhs :- Unary(s, pos + 1);
      MultiplicativeLoop(s, Binary(Div, node, rhs.node), rhs.next)
    else
      Ok(Parsed(node, pos))
  }

  // unary = ("+" | "-")? unary | primary
  function Unary(s: Stream, pos: nat): (r: Result<Parsed, nat>)
    requires s.Valid() && pos < |s.toks|
    ensures Advances(s, pos, r)
    decreases |s.toks| - pos, 10
  {
    if s.IsOp(pos, "+") then
      Unary(s, pos + 1)
    else if s.IsOp(pos, "-") then
      var operand :- Unary(s, pos + 1);
      Ok(Parsed(Binary(Sub, Num(0), operand.node), operand.next))
    else
      Primary(s, pos)
  }

  // primary = "(" expr ")" | num | ident
  /** A `(` whose expression is not followed by `)` fails at the token after that
      expression; a token that starts no operand fails at itself. */
  function Primary(s: Stream, pos: nat): (r: Result<Parsed, nat>)
    requires s.Valid() && pos < |s.toks|
    ensures Advances(s, pos, r)
    ensures s.IsOp(pos, "(") && Expr(s, pos + 1).Ok? ==>
      && (r.Err? <==> !s.IsOp(Expr(s, pos + 1).value.next, ")"))
      && (r.Err? ==> r.error == Expr(s, pos + 1).value.next)
    ensures s.IsOp(pos, "(") && Expr(s, pos + 1).Err? ==> r == Expr(s, pos + 1)
    ensures !s.IsOp(pos, "(") ==>
      && (r.Err? <==> s.toks[pos].kind !in {Ident, Number})
      && (r.Err? ==> r.error == pos)
    decreases |s.toks| - pos, 9
  {
    if s.IsOp(pos, "(") then
      var inner :- Expr(s, pos + 1);
      if s.IsOp(inner.next, ")") then Ok(Parsed(inner.node, inner.next + 1))
      else Err(inner.next)
    else if s.toks[pos].kind == Ident then
      Ok(Parsed(NewLvar(s, pos), pos + 1))
    else if s.toks[pos].kind == Number then
      Ok(Parsed(Num(s.toks[pos].val), pos + 1))
    else
      Err(pos)
  }

  // stmt = expr ";"
  /** A statement fails where its expression fails, or, when the expression is not
      followed by `;`, at the token after the expression. */
  function Statement(s: Stream, pos: nat): (r: Result<Parsed, nat>)
    requires s.Valid() && pos < |s.toks|
    ensures Advances(s, pos, r)
    ensures r.Ok? ==> s.IsOp(r.value.next - 1, ";")
    ensures r.Err? <==> Expr(s, pos).Err? || !s.IsOp(Expr(s, pos).value.next, ";")
    ensures r.Err? ==> r.error == if Expr(s, pos).Err? then Expr(s, pos).error else Expr(s, pos).value.next
  {
    var e :- Expr(s, pos);
    if s.IsOp(e.next, ";") then Ok(Parsed(e.node, e.next + 1))
    else Err(e.next)
  }

  /** program = stmt*: the statement roots, in order, up to end-of-input. Every
      statement takes at least two tokens (an operand and its `;`). */
  function ProgramFrom(s: Stream, pos: nat): (r: Result<seq<Node>, nat>)
    requires s.Valid() && pos < |s.toks|
    ensures r.Ok? ==> 2 * |r.value| <= |s.toks| - 1 - pos
    ensures r.Err? ==> pos <= r.error < |s.toks|
    decreases |s.toks| - pos
  {
    if s.toks[pos].kind == Eof then
      Ok([])
    else
      var st :- Statement(s, pos);
      var rest :- ProgramFrom(s, st.next);
      Ok([st.node] + rest)
  }

  /** The front end of main.c: tokenize the input, then parse the whole program.
      Either stage fails with the source offset `error_at` reports: the offending
      character, or the start of the offending token. */
  function Parse(src: string): (r: Result<seq<Node>, nat>)
    ensures r.Err? ==> r.error <= |src|
    ensures Tokenizer.TokenizeFrom(src, 0).Err? ==>
      && r.Err? && r.error < |src| && Tokenizer.BadAt(src, r.error)
      && forall j :: 0 <= j < r.error ==> !Tokenizer.BadAt(src, j)
    ensures Tokenizer.TokenizeFrom(src, 0).Ok? ==>
      var s := Stream(src, Tokenizer.TokenizeFrom(src, 0).value);
      && (r.Ok? <==> ProgramFrom(s, 0).Ok?)
      && (r.Ok? ==> r.value == ProgramFrom(s, 0).value)
      && (r.Err? ==> r.error == s.toks[ProgramFrom(s, 0).error].start)
  {
    Tokenizer.TokenizeFailsAtFirstBad(src, 0);
    var toks :- Tokenizer.TokenizeFrom(src, 0);
    var s := Stream(src, toks);
    match ProgramFrom(s, 0)
    case Ok(code) => Ok(code)
    case Err(k) => Err(s.toks[k].start)
  }
}
