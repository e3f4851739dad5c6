/** What the grammar of parser.c promises about the trees it builds: the precedence
    of the operators, the direction in which each level associates, the rewriting of
    `>`, `>=` and unary `-`, and the frame slots of variables. */
module GrammarLaws {
  import opened Wrappers
  import opened Ast
  import opened Grammar
  import Tokenizer
  import Codegen

  /** Token `k` is the number `v`. */
  predicate NumAt(s: Stream, k: nat, v: int)
    requires k < |s.toks|
  {
    s.toks[k].kind == Number && s.toks[k].val == v
  }

  /** Token `k` is the identifier `c`. */
  predicate IdentAt(s: Stream, k: nat, c: char)
    requires s.Valid() && k < |s.toks|
  {
    s.toks[k].kind == Ident && s.Text(k) == [c]
  }

  /** Token `k` continues no expression: it is no binary operator and no `=`. */
  predicate Closes(s: Stream, k: nat)
    requires s.Valid() && k < |s.toks|
  {
    forall op :: op in ["=", "==", "!=", "<", "<=", ">", ">=", "+", "-", "*", "/"] ==> !s.IsOp(k, op)
  }

  // ---------------------------------------------------------------------------
  // A level hands its operand up unchanged when no operator of its own follows.

  lemma NumberIsUnary(s: Stream, pos: nat)
    requires s.Valid() && pos < |s.toks| && s.toks[pos].kind == Number
    ensures Unary(s, pos) == Ok(Parsed(Num(s.toks[pos].val), pos + 1))
  {
  }

  lemma IdentIsUnary(s: Stream, pos: nat, c: char)
    requires s.Valid() && pos < |s.toks| - 1 && IdentAt(s, pos, c)
    ensures Unary(s, pos) == Ok(Parsed(LVar(LvarOffset(c)), pos + 1))
  {
    assert s.src[s.toks[pos].start] == s.Text(pos)[0];
  }

  lemma UnaryIsMultiplicative(s: Stream, pos: nat, n: Node, p: nat)
    requires s.Valid() && pos < |s.toks| && Unary(s, pos) == Ok(Parsed(n, p))
    requires !s.IsOp(p, "*") && !s.IsOp(p, "/")
    ensures Multiplicative(s, pos) == Ok(Parsed(n, p))
  {
  }

  lemma MultiplicativeIsAdditive(s: Stream, pos: nat, n: Node, p: nat)
    requires s.Valid() && pos < |s.toks| && Multiplicative(s, pos) == Ok(Parsed(n, p))
    requires !s.IsOp(p, "+") && !s.IsOp(p, "-")
    ensures Additive(s, pos) == Ok(Parsed(n, p))
  {
  }

  /** An additive expression followed by a token that continues nothing is a whole
      expression. */
  lemma AdditiveIsExpr(s: Stream, pos: nat, n: Node, p: nat)
    requires s.Valid() && pos < |s.toks| && Additive(s, pos) == Ok(Parsed(n, p)) && Closes(s, p)
    ensures Expr(s, pos) == Ok(Parsed(n, p))
  {
    assert !s.IsOp(p, "<") && !s.IsOp(p, "<=") && !s.IsOp(p, ">") && !s.IsOp(p, ">=");
    assert Relational(s, pos) == Ok(Parsed(n, p));
    assert !s.IsOp(p, "==") && !s.IsOp(p, "!=");
    assert Equality(s, pos) == Ok(Parsed(n, p));
    assert !s.IsOp(p, "=");
  }

  /** A program of one statement: an expression, its `;`, and end-of-input. */
  lemma OneStatement(s: Stream, n: Node, p: nat)
    requires s.Valid() && p + 2 == |s.toks| && Expr(s, 0) == Ok(Parsed(n, p)) && s.IsOp(p, ";")
    ensures ProgramFrom(s, 0) == Ok([n])
  {
    assert Statement(s, 0) == Ok(Parsed(n, p + 1));
    assert ProgramFrom(s, p + 1) == Ok([]);
    assert [n] + [] == [n];
  }

  // ---------------------------------------------------------------------------
  // Precedence and associativity, on token streams of a fixed shape.

  /** `a + b * c ;` is `a + (b * c)`: `*` binds tighter than `+`. */
  lemma MulBindsTighter(s: Stream, a: int, b: int, c: int)
    requires s.Valid() && |s.toks| == 7
    requires NumAt(s, 0, a) && s.IsOp(1, "+") && NumAt(s, 2, b) && s.IsOp(3, "*") && NumAt(s, 4, c) && s.IsOp(5, ";")
    ensures ProgramFrom(s, 0) == Ok([Binary(Add, Num(a), Binary(Mul, Num(b), Num(c)))])
  {
    var product := Binary(Mul, Num(b), Num(c));
    NumberIsUnary(s, 2);
    NumberIsUnary(s, 4);
    assert MultiplicativeLoop(s, product, 5) == Ok(Parsed(product, 5));
    assert Multiplicative(s, 2) == Ok(Parsed(product, 5));
    NumberIsUnary(s, 0);
    UnaryIsMultiplicative(s, 0, Num(a), 1);
    assert AdditiveLoop(s, Binary(Add, Num(a), product), 5) == Ok(Parsed(Binary(Add, Num(a), product), 5));
    assert Additive(s, 0) == Ok(Parsed(Binary(Add, Num(a), product), 5));
    AdditiveIsExpr(s, 0, Binary(Add, Num(a), product), 5);
    OneStatement(s, Binary(Add, Num(a), product), 5);
  }

  /** `( a + b ) * c ;` is `(a + b) * c`: parentheses override precedence. */
  lemma ParenthesesGroup(s: Stream, a: int, b: int, c: int)
    requires s.Valid() && |s.toks| == 9
    requires s.IsOp(0, "(") && NumAt(s, 1, a) && s.IsOp(2, "+") && NumAt(s, 3, b) && s.IsOp(4, ")")
    requires s.IsOp(5, "*") && NumAt(s, 6, c) && s.IsOp(7, ";")
    ensures ProgramFrom(s, 0) == Ok([Binary(Mul, Binary(Add, Num(a), Num(b)), Num(c))])
  {
    var sum := Binary(Add, Num(a), Num(b));
    NumberIsUnary(s, 3);
    UnaryIsMultiplicative(s, 3, Num(b), 4);
    NumberIsUnary(s, 1);
    UnaryIsMultiplicative(s, 1, Num(a), 2);
    assert AdditiveLoop(s, sum, 4) == Ok(Parsed(sum, 4));
    assert Additive(s, 1) == Ok(Parsed(sum, 4));
    AdditiveIsExpr(s, 1, sum, 4);
    assert Unary(s, 0) == Ok(Parsed(sum, 5));
    NumberIsUnary(s, 6);
    assert MultiplicativeLoop(s, Binary(Mul, sum, Num(c)), 7) == Ok(Parsed(Binary(Mul, sum, Num(c)), 7));
    assert Multiplicative(s, 0) == Ok(Parsed(Binary(Mul, sum, Num(c)), 7));
    MultiplicativeIsAdditive(s, 0, Binary(Mul, sum, Num(c)), 7);
    AdditiveIsExpr(s, 0, Binary(Mul, sum, Num(c)), 7);
    OneStatement(s, Binary(Mul, sum, Num(c)), 7);
  }

  /** `a - b - c ;` is `(a - b) - c`: the additive operators associate to the left. */
  lemma SubtractionLeftAssociative(s: Stream, a: int, b: int, c: int)
    requires s.Valid() && |s.toks| == 7
    requires NumAt(s, 0, a) && s.IsOp(1, "-") && NumAt(s, 2, b) && s.IsOp(3, "-") && NumAt(s, 4, c) && s.IsOp(5, ";")
    ensures ProgramFrom(s, 0) == Ok([Binary(Sub, Binary(Sub, Num(a), Num(b)), Num(c))])
  {
    var tree := Binary(Sub, Binary(Sub, Num(a), Num(b)), Num(c));
    NumberIsUnary(s, 0);
    UnaryIsMultiplicative(s, 0, Num(a), 1);
    NumberIsUnary(s, 2);
    UnaryIsMultiplicative(s, 2, Num(b), 3);
    NumberIsUnary(s, 4);
    UnaryIsMultiplicative(s, 4, Num(c), 5);
    assert AdditiveLoop(s, Binary(Sub, Num(a), Num(b)), 3) == Ok(Parsed(tree, 5));
    assert Additive(s, 0) == Ok(Parsed(tree, 5));
    AdditiveIsExpr(s, 0, tree, 5);
    OneStatement(s, tree, 5);
  }

  /** `x = y = v ;` is `x = (y = v)`: assignment associates to the right. */
  lemma AssignmentRightAssociative(s: Stream, x: char, y: char, v: int)
    requires s.Valid() && |s.toks| == 7
    requires IdentAt(s, 0, x) && s.IsOp(1, "=") && IdentAt(s, 2, y) && s.IsOp(3, "=") && NumAt(s, 4, v) && s.IsOp(5, ";")
    ensures ProgramFrom(s, 0) == Ok([Assign(LVar(LvarOffset(x)), Assign(LVar(LvarOffset(y)), Num(v)))])
  {
    var inner := Assign(LVar(LvarOffset(y)), Num(v));
    NumberIsUnary(s, 4);
    UnaryIsMultiplicative(s, 4, Num(v), 5);
    MultiplicativeIsAdditive(s, 4, Num(v), 5);
    AdditiveIsExpr(s, 4, Num(v), 5);
    assert Assignment(s, 4) == Ok(Parsed(Num(v), 5));
    EqualityOperand(s, 2, LVar(LvarOffset(y)), y);
    assert Assignment(s, 2) == Ok(Parsed(inner, 5));
    EqualityOperand(s, 0, LVar(LvarOffset(x)), x);
    assert Expr(s, 0) == Ok(Parsed(Assign(LVar(LvarOffset(x)), inner), 5));
    OneStatement(s, Assign(LVar(LvarOffset(x)), inner), 5);
  }

  /** An identifier followed by `=` is the whole left-hand side of that `=`. */
  lemma EqualityOperand(s: Stream, pos: nat, n: Node, c: char)
    requires s.Valid() && pos + 1 < |s.toks| - 1 && IdentAt(s, pos, c) && s.IsOp(pos + 1, "=") && n == LVar(LvarOffset(c))
    ensures Equality(s, pos) == Ok(Parsed(n, pos + 1))
  {
    IdentIsUnary(s, pos, c);
    UnaryIsMultiplicative(s, pos, n, pos + 1);
    MultiplicativeIsAdditive(s, pos, n, pos + 1);
    assert Relational(s, pos) == Ok(Parsed(n, pos + 1));
  }

  /** The left-hand side of `=` is not checked: `a = b ;` with two numbers parses. */
  lemma AssignToNumber(s: Stream, a: int, b: int)
    requires s.Valid() && |s.toks| == 5
    requires NumAt(s, 0, a) && s.IsOp(1, "=") && NumAt(s, 2, b) && s.IsOp(3, ";")
    ensures ProgramFrom(s, 0) == Ok([Assign(Num(a), Num(b))])
  {
    NumberIsUnary(s, 2);
    UnaryIsMultiplicative(s, 2, Num(b), 3);
    MultiplicativeIsAdditive(s, 2, Num(b), 3);
    AdditiveIsExpr(s, 2, Num(b), 3);
    NumberIsUnary(s, 0);
    UnaryIsMultiplicative(s, 0, Num(a), 1);
    MultiplicativeIsAdditive(s, 0, Num(a), 1);
    assert Relational(s, 0) == Ok(Parsed(Num(a), 1));
    assert Equality(s, 0) == Ok(Parsed(Num(a), 1));
    OneStatement(s, Assign(Num(a), Num(b)), 3);
  }

  // ---------------------------------------------------------------------------
  // Every binary level folds its run of `op operand` pairs to the left.

  /** The four binary levels that parser.c writes as a `for (;;)` loop. */
  datatype Level = EqualityLevel | RelationalLevel | AdditiveLevel | MultiplicativeLevel

  /** The operator that token `k` introduces at `level`, and whether the level puts
      the new operand first (`>` and `>=`). */
  function OpAt(level: Level, s: Stream, k: nat): Option<(BinOp, bool)>
    requires s.Valid() && k < |s.toks|
  {
    match level
    case EqualityLevel =>
      if s.IsOp(k, "==") then Some((Eq, false)) else if s.IsOp(k, "!=") then Some((Ne, false)) else None
    case RelationalLevel => RelationalOp(s, k)
    case AdditiveLevel =>
      if s.IsOp(k, "+") then Some((Add, false)) else if s.IsOp(k, "-") then Some((Sub, false)) else None
    case MultiplicativeLevel =>
      if s.IsOp(k, "*") then Some((Mul, false)) else if s.IsOp(k, "/") then Some((Div, false)) else None
  }

  /** The next tighter level, which parses each operand of `level`. */
  function Operand(level: Level, s: Stream, pos: nat): (r: Result<Parsed, nat>)
    requires s.Valid() && pos < |s.toks|
    ensures Advances(s, pos, r)
  {
    match level
    case EqualityLevel => Relational(s, pos)
    case RelationalLevel => Additive(s, pos)
    case AdditiveLevel => Multiplicative(s, pos)
    case MultiplicativeLevel => Unary(s, pos)
  }

  function AtLevel(level: Level, s: Stream, pos: nat): Result<Parsed, nat>
    requires s.Valid() && pos < |s.toks|
  {
    match level
    case EqualityLevel => Equality(s, pos)
    case RelationalLevel => Relational(s, pos)
    case AdditiveLevel => Additive(s, pos)
    case MultiplicativeLevel => Multiplicative(s, pos)
  }

  function LoopAt(level: Level, s: Stream, node: Node, pos: nat): Result<Parsed, nat>
    requires s.Valid() && pos < |s.toks|
  {
    match level
    case EqualityLevel => EqualityLoop(s, node, pos)
    case RelationalLevel => RelationalLoop(s, node, pos)
    case AdditiveLevel => AdditiveLoop(s, node, pos)
    case MultiplicativeLevel => MultiplicativeLoop(s, node, pos)
  }

  /** One `op operand` pair of a run: the operator built, whether the operands are
      swapped, and the operand's tree. */
  datatype Pair = Pair(op: BinOp, swapped: bool, operand: Node)

  /** The tree built so far, extended by one pair. */
  function Extend(acc: Node, p: Pair): Node {
    if p.swapped then Binary(p.op, p.operand, acc) else Binary(p.op, acc, p.operand)
  }

  /** The pairs applied to `node` from the left: `((node op0 x0) op1 x1) ...`. */
  function FoldLeft(node: Node, pairs: seq<Pair>): Node
    decreases |pairs|
  {
    if pairs == [] then node else FoldLeft(Extend(node, pairs[0]), pairs[1..])
  }

  /** The tokens from `at[0]` on are a maximal run of pairs at `level`: pair `i` has
      its operator at token `at[i]`, and the next level parses its operand from the
      token after that up to `at[i + 1]`; token `at[|pairs|]` is no operator of the
      level. */
  predicate Run(level: Level, s: Stream, at: seq<nat>, pairs: seq<Pair>)
    requires s.Valid()
  {
    && |at| == |pairs| + 1
    && (forall i :: 0 <= i < |at| ==> at[i] < |s.toks|)
    && OpAt(level, s, at[|pairs|]).None?
    && forall i :: 0 <= i < |pairs| ==>
      && OpAt(level, s, at[i]) == Some((pairs[i].op, pairs[i].swapped))
      && at[i] + 1 < |s.toks|
      && Operand(level, s, at[i] + 1) == Ok(Parsed(pairs[i].operand, at[i + 1]))
  }

  /** One pass of a loop: without an operator it stops; with one, it extends the tree
      by the operand the next level parses and goes round again. */
  lemma LoopStep(level: Level, s: Stream, node: Node, pos: nat, p: Pair, next: nat)
    requires s.Valid() && pos + 1 < |s.toks|
    requires OpAt(level, s, pos) == Some((p.op, p.swapped))
    requires Operand(level, s, pos + 1) == Ok(Parsed(p.operand, next))
    ensures LoopAt(level, s, node, pos) == LoopAt(level, s, Extend(node, p), next)
  {
  }

  /** A loop from any tree folds a whole run of pairs into it, from the left, and
      stops at the first token that is no operator of its level. */
  lemma {:induction false} LoopFoldsLeft(level: Level, s: Stream, node: Node, at: seq<nat>, pairs: seq<Pair>)
    requires s.Valid() && Run(level, s, at, pairs)
    ensures LoopAt(level, s, node, at[0]) == Ok(Parsed(FoldLeft(node, pairs), at[|pairs|]))
    decreases |pairs|
  {
    if pairs == [] {
      return;
    }
    LoopStep(level, s, node, at[0], pairs[0], at[1]);
    assert Run(level, s, at[1..], pairs[1..]);
    LoopFoldsLeft(level, s, Extend(node, pairs[0]), at[1..], pairs[1..]);
  }

  /** Precedence and associativity for every input: a binary level is its first
      operand, parsed by the next tighter level, with the run of pairs after it folded
      in from the left. */
  lemma LevelFoldsLeft(level: Level, s: Stream, pos: nat, first: Node, at: seq<nat>, pairs: seq<Pair>)
    requires s.Valid() && pos < |s.toks| && Run(level, s, at, pairs)
    requires Operand(level, s, pos) == Ok(Parsed(first, at[0]))
    ensures AtLevel(level, s, pos) == Ok(Parsed(FoldLeft(first, pairs), at[|pairs|]))
  {
    LoopFoldsLeft(level, s, first, at, pairs);
  }

  /** `a / b / c ;` is `(a / b) / c`, an instance of `LoopFoldsLeft`. */
  lemma DivisionLeftAssociative(s: Stream, a: int, b: int, c: int)
    requires s.Valid() && |s.toks| == 7
    requires NumAt(s, 0, a) && s.IsOp(1, "/") && NumAt(s, 2, b) && s.IsOp(3, "/") && NumAt(s, 4, c) && s.IsOp(5, ";")
    ensures ProgramFrom(s, 0) == Ok([Binary(Div, Binary(Div, Num(a), Num(b)), Num(c))])
  {
    var tree := Binary(Div, Binary(Div, Num(a), Num(b)), Num(c));
    NumberIsUnary(s, 0);
    NumberIsUnary(s, 2);
    NumberIsUnary(s, 4);
    var pairs := [Pair(Div, false, Num(b)), Pair(Div, false, Num(c))];
    LevelFoldsLeft(MultiplicativeLevel, s, 0, Num(a), [1, 3, 5], pairs);
    assert FoldLeft(Num(a), pairs) == FoldLeft(Binary(Div, Num(a), Num(b)), pairs[1..]) == tree;
    assert Multiplicative(s, 0) == Ok(Parsed(tree, 5));
    MultiplicativeIsAdditive(s, 0, tree, 5);
    AdditiveIsExpr(s, 0, tree, 5);
    OneStatement(s, tree, 5);
  }

  /** `a < b + c ;` is `a < (b + c)`: `+` binds tighter than `<`. */
  lemma AdditiveBindsTighter(s: Stream, a: int, b: int, c: int)
    requires s.Valid() && |s.toks| == 7
    requires NumAt(s, 0, a) && s.IsOp(1, "<") && NumAt(s, 2, b) && s.IsOp(3, "+") && NumAt(s, 4, c) && s.IsOp(5, ";")
    ensures ProgramFrom(s, 0) == Ok([Binary(Lt, Num(a), Binary(Add, Num(b), Num(c)))])
  {
    var sum := Binary(Add, Num(b), Num(c));
    var tree := Binary(Lt, Num(a), sum);
    NumberIsUnary(s, 0);
    UnaryIsMultiplicative(s, 0, Num(a), 1);
    MultiplicativeIsAdditive(s, 0, Num(a), 1);
    NumberIsUnary(s, 2);
    UnaryIsMultiplicative(s, 2, Num(b), 3);
    NumberIsUnary(s, 4);
    UnaryIsMultiplicative(s, 4, Num(c), 5);
    assert AdditiveLoop(s, sum, 5) == Ok(Parsed(sum, 5));
    assert Additive(s, 2) == Ok(Parsed(sum, 5));
    assert RelationalLoop(s, tree, 5) == Ok(Parsed(tree, 5));
    assert Relational(s, 0) == Ok(Parsed(tree, 5));
    assert Equality(s, 0) == Ok(Parsed(tree, 5));
    assert Expr(s, 0) == Ok(Parsed(tree, 5));
    OneStatement(s, tree, 5);
  }

  /** `a == b < c ;` is `a == (b < c)`: `<` binds tighter than `==`. */
  lemma RelationalBindsTighter(s: Stream, a: int, b: int, c: int)
    requires s.Valid() && |s.toks| == 7
    requires NumAt(s, 0, a) && s.IsOp(1, "==") && NumAt(s, 2, b) && s.IsOp(3, "<") && NumAt(s, 4, c) && s.IsOp(5, ";")
    ensures ProgramFrom(s, 0) == Ok([Binary(Eq, Num(a), Binary(Lt, Num(b), Num(c)))])
  {
    var less := Binary(Lt, Num(b), Num(c));
    var tree := Binary(Eq, Num(a), less);
    NumberIsUnary(s, 0);
    UnaryIsMultiplicative(s, 0, Num(a), 1);
    MultiplicativeIsAdditive(s, 0, Num(a), 1);
    assert Relational(s, 0) == Ok(Parsed(Num(a), 1));
    NumberIsUnary(s, 2);
    UnaryIsMultiplicative(s, 2, Num(b), 3);
    MultiplicativeIsAdditive(s, 2, Num(b), 3);
    NumberIsUnary(s, 4);
    UnaryIsMultiplicative(s, 4, Num(c), 5);
    MultiplicativeIsAdditive(s, 4, Num(c), 5);
    assert RelationalLoop(s, less, 5) == Ok(Parsed(less, 5));
    assert Relational(s, 2) == Ok(Parsed(less, 5));
    assert EqualityLoop(s, tree, 5) == Ok(Parsed(tree, 5));
    assert Equality(s, 0) == Ok(Parsed(tree, 5));
    assert Expr(s, 0) == Ok(Parsed(tree, 5));
    OneStatement(s, tree, 5);
  }

  /** `x = a == b ;` is `x = (a == b)`: `==` binds tighter than `=`. */
  lemma EqualityBindsTighter(s: Stream, x: char, a: int, b: int)
    requires s.Valid() && |s.toks| == 7
    requires IdentAt(s, 0, x) && s.IsOp(1, "=") && NumAt(s, 2, a) && s.IsOp(3, "==") && NumAt(s, 4, b) && s.IsOp(5, ";")
    ensures ProgramFrom(s, 0) == Ok([Assign(LVar(LvarOffset(x)), Binary(Eq, Num(a), Num(b)))])
  {
    var same := Binary(Eq, Num(a), Num(b));
    NumberIsUnary(s, 2);
    UnaryIsMultiplicative(s, 2, Num(a), 3);
    MultiplicativeIsAdditive(s, 2, Num(a), 3);
    assert Relational(s, 2) == Ok(Parsed(Num(a), 3));
    NumberIsUnary(s, 4);
    UnaryIsMultiplicative(s, 4, Num(b), 5);
    MultiplicativeIsAdditive(s, 4, Num(b), 5);
    assert Relational(s, 4) == Ok(Parsed(Num(b), 5));
    assert EqualityLoop(s, same, 5) == Ok(Parsed(same, 5));
    assert Equality(s, 2) == Ok(Parsed(same, 5));
    assert Assignment(s, 2) == Ok(Parsed(same, 5));
    EqualityOperand(s, 0, LVar(LvarOffset(x)), x);
    assert Expr(s, 0) == Ok(Parsed(Assign(LVar(LvarOffset(x)), same), 5));
    OneStatement(s, Assign(LVar(LvarOffset(x)), same), 5);
  }

  // ---------------------------------------------------------------------------
  // Where parsing fails.

  /** `a + ;` fails at `;`, where `primary` finds no operand. */
  lemma OperandMissing(s: Stream, a: int)
    requires s.Valid() && |s.toks| == 4
    requires NumAt(s, 0, a) && s.IsOp(1, "+") && s.IsOp(2, ";")
    ensures ProgramFrom(s, 0) == Err(2)
  {
    NumberIsUnary(s, 0);
    UnaryIsMultiplicative(s, 0, Num(a), 1);
    assert Unary(s, 2) == Err(2);
    assert Multiplicative(s, 2) == Err(2);
    assert Additive(s, 0) == Err(2);
    assert Relational(s, 0) == Err(2);
    assert Equality(s, 0) == Err(2);
    assert Expr(s, 0) == Err(2);
  }

  /** `( a ;` fails at `;`, where `expect(")")` finds another token. */
  lemma UnclosedParenthesis(s: Stream, a: int)
    requires s.Valid() && |s.toks| == 4
    requires s.IsOp(0, "(") && NumAt(s, 1, a) && s.IsOp(2, ";")
    ensures ProgramFrom(s, 0) == Err(2)
  {
    NumberIsUnary(s, 1);
    UnaryIsMultiplicative(s, 1, Num(a), 2);
    MultiplicativeIsAdditive(s, 1, Num(a), 2);
    AdditiveIsExpr(s, 1, Num(a), 2);
    assert Unary(s, 0) == Err(2);
    assert Multiplicative(s, 0) == Err(2);
    assert Additive(s, 0) == Err(2);
    assert Relational(s, 0) == Err(2);
    assert Equality(s, 0) == Err(2);
    assert Expr(s, 0) == Err(2);
  }

  /** `a b ;` fails at `b`, where `expect(";")` finds another token. */
  lemma SemicolonMissing(s: Stream, a: int, b: int)
    requires s.Valid() && |s.toks| == 4
    requires NumAt(s, 0, a) && NumAt(s, 1, b) && s.IsOp(2, ";")
    ensures ProgramFrom(s, 0) == Err(1)
  {
    NumberIsUnary(s, 0);
    UnaryIsMultiplicative(s, 0, Num(a), 1);
    MultiplicativeIsAdditive(s, 0, Num(a), 1);
    AdditiveIsExpr(s, 0, Num(a), 1);
  }

  /** The front end reports a text whose tokens read `a + ;` at the source offset of
      its `;`. */
  lemma ParseOperandMissing(src: string, a: int)
    requires Tokenizer.TokenizeFrom(src, 0).Ok?
    requires var s := Stream(src, Tokenizer.TokenizeFrom(src, 0).value);
      |s.toks| == 4 && NumAt(s, 0, a) && s.IsOp(1, "+") && s.IsOp(2, ";")
    ensures Parse(src) == Err(Tokenizer.TokenizeFrom(src, 0).value[2].start)
  {
    OperandMissing(Stream(src, Tokenizer.TokenizeFrom(src, 0).value), a);
  }

  // ---------------------------------------------------------------------------
  // The rewritings: no "greater" node and no unary node.

  /** `a > b ;` and `a >= b ;` are built as `b < a` and `b <= a`, and those trees
      evaluate to 1 exactly when `a` is greater (or greater or equal). */
  lemma GreaterSwapsOperands(s: Stream, a: int, b: int)
    requires s.Valid() && |s.toks| == 5
    requires NumAt(s, 0, a) && (s.IsOp(1, ">") || s.IsOp(1, ">=")) && NumAt(s, 2, b) && s.IsOp(3, ";")
    ensures var strict := s.IsOp(1, ">");
      var tree := Binary(if strict then Lt else Le, Num(b), Num(a));
      && ProgramFrom(s, 0) == Ok([tree])
      && Codegen.Pure(tree) && Codegen.Eval(tree) == Some(if (if strict then a > b else a >= b) then 1 else 0)
  {
    var tree := Binary(if s.IsOp(1, ">") then Lt else Le, Num(b), Num(a));
    NumberIsUnary(s, 0);
    UnaryIsMultiplicative(s, 0, Num(a), 1);
    MultiplicativeIsAdditive(s, 0, Num(a), 1);
    NumberIsUnary(s, 2);
    UnaryIsMultiplicative(s, 2, Num(b), 3);
    MultiplicativeIsAdditive(s, 2, Num(b), 3);
    assert RelationalLoop(s, tree, 3) == Ok(Parsed(tree, 3));
    assert Relational(s, 0) == Ok(Parsed(tree, 3));
    assert Equality(s, 0) == Ok(Parsed(tree, 3));
    assert Expr(s, 0) == Ok(Parsed(tree, 3));
    OneStatement(s, tree, 3);
  }

  /** `+ a ;` is `a` and `- a ;` is `0 - a`; the latter evaluates to the negation. */
  lemma UnarySigns(s: Stream, a: int)
    requires s.Valid() && |s.toks| == 4
    requires (s.IsOp(0, "+") || s.IsOp(0, "-")) && NumAt(s, 1, a) && s.IsOp(2, ";")
    ensures var plus := s.IsOp(0, "+");
      var tree := if plus then Num(a) else Binary(Sub, Num(0), Num(a));
      && ProgramFrom(s, 0) == Ok([tree])
      && Codegen.Pure(tree) && Codegen.Eval(tree) == Some(if plus then a else -a)
  {
    var tree := if s.IsOp(0, "+") then Num(a) else Binary(Sub, Num(0), Num(a));
    NumberIsUnary(s, 1);
    assert Unary(s, 0) == Ok(Parsed(tree, 2));
    UnaryIsMultiplicative(s, 0, tree, 2);
    MultiplicativeIsAdditive(s, 0, tree, 2);
    AdditiveIsExpr(s, 0, tree, 2);
    OneStatement(s, tree, 2);
  }

  // ---------------------------------------------------------------------------
  // Frame slots of variables.

  /** The 26 lower-case variables get distinct slots, multiples of 8 from 8 to 208:
      exactly the 208 bytes main.c reserves below rbp. */
  lemma LowercaseSlots(c: char, d: char)
    requires 'a' <= c <= 'z' && 'a' <= d <= 'z'
    ensures 8 <= LvarOffset(c) <= 208 && LvarOffset(c) % 8 == 0
    ensures LvarOffset(c) == LvarOffset(d) <==> c == d
  {
  }

  /** The tokenizer also accepts upper-case letters and `_` as identifiers, and their
      slots fall outside that region: every one of them is negative, above rbp. */
  lemma OtherIdentifierSlots(c: char)
    requires Tokenizer.IsIdentChar(c) && !('a' <= c <= 'z')
    ensures LvarOffset(c) < 0
  {
  }
}
