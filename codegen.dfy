/** codegen.c: `gen` walks a tree in post-order and emits stack-machine code. Each
    subtree's code leaves its value on top of the stack; an operator pops its right
    operand into rdi and its left into rax, combines them into rax and pushes rax. */
module Codegen {
  import opened Wrappers
  import opened Ast
  import opened StackMachine

  /** The trees `gen` can compile: numbers and the eight binary operators. It has no
      case for ND_LVAR or ND_ASSIGN. */
  predicate Pure(n: Node) {
    match n
    case Num(_) => true
    case Binary(_, lhs, rhs) => Pure(lhs) && Pure(rhs)
    case LVar(_) => false
    case Assign(_, _) => false
  }

  predicate IsComparison(op: BinOp) {
    op == Eq || op == Ne || op == Lt || op == Le
  }

  /** What an operator means on its left and right operands, in the terms of C:
      division truncates toward zero and has no value for a zero divisor; a
      comparison is 1 when it holds and 0 otherwise. */
  function Apply(op: BinOp, x: int, y: int): (r: Option<int>)
    ensures r.None? <==> op == Div && y == 0
    ensures IsComparison(op) ==> r == Some(0) || r == Some(1)
  {
    match op
    case Add => Some(x + y)
    case Sub => Some(x - y)
    case Mul => Some(x * y)
    case Div => if y == 0 then None else Some(TruncDiv(x, y))
    case Eq => Some(if x == y then 1 else 0)
    case Ne => Some(if x != y then 1 else 0)
    case Lt => Some(if x < y then 1 else 0)
    case Le => Some(if x <= y then 1 else 0)
  }

  /** The value of a tree, or `None` when evaluating it divides by zero. */
  function Eval(n: Node): Option<int>
    requires Pure(n)
  {
    match n
    case Num(v) => Some(v)
    case Binary(op, lhs, rhs) =>
      match (Eval(lhs), Eval(rhs))
      case (Some(x), Some(y)) => Apply(op, x, y)
      case _ => None
  }

  /** The instructions of the `switch` for each operator, run with the left operand
      in rax and the right one in rdi. None of them pushes or pops. */
  function OpCode(op: BinOp): (code: seq<Instr>)
    ensures 0 < |code| && forall i :: 0 <= i < |code| ==> InstrEffect(code[i]) == 0
    ensures StackEffect(code) == 0
  {
    match op
    case Add => [AddRaxRdi]
    case Sub => [SubRaxRdi]
    case Mul => [ImulRaxRdi]
    case Div => [Cqo, IdivRdi]
    case Eq => [CmpRaxRdi, Sete, MovzbRaxAl]
    case Ne => [CmpRaxRdi, Setne, MovzbRaxAl]
    case Lt => [CmpRaxRdi, Setl, MovzbRaxAl]
    case Le => [CmpRaxRdi, Setle, MovzbRaxAl]
  }

  /** The code after both operands: pop them, combine them, push the result. It
      takes two values off the stack and puts one back. */
  function Combine(op: BinOp): (code: seq<Instr>)
    ensures StackEffect(code) == -1
  {
    StackEffectAppend([PopRdi, PopRax], OpCode(op));
    StackEffectAppend([PopRdi, PopRax] + OpCode(op), [PushRax]);
    [PopRdi, PopRax] + OpCode(op) + [PushRax]
  }

  /** `gen(node)`: the instructions it prints, in order. Post-order code starts by
      pushing a number and leaves exactly one more value on the stack. */
  function Gen(n: Node): (code: seq<Instr>)
    requires Pure(n)
    ensures 0 < |code| && code[0].Push?
    ensures StackEffect(code) == 1
  {
    match n
    case Num(v) => [Push(v)]
    case Binary(op, lhs, rhs) =>
      StackEffectAppend(Gen(lhs), Gen(rhs));
      StackEffectAppend(Gen(lhs) + Gen(rhs), Combine(op));
      Gen(lhs) + Gen(rhs) + Combine(op)
  }

  /** With the left operand in rax and the right one in rdi, the `switch` code leaves
      `Apply(op, x, y)` in rax, and faults exactly when that has no value. */
  lemma OpCodeComputes(op: BinOp, st: State, floor: nat)
    ensures var r := Exec(OpCode(op), st, floor);
      && (r.Some? <==> Apply(op, st.rax, st.rdi).Some?)
      && (r.Some? ==> r.value.rax == Apply(op, st.rax, st.rdi).value && r.value.stack == st.stack)
  {
    var code := OpCode(op);
    if |code| == 1 {
      assert code[1..] == [];
    } else if |code| == 2 {
      var filled := st.(rdx := SignFill(st.rax));
      assert code[1..] == [IdivRdi] && code[1..][1..] == [];
      assert Exec(code, st, floor) == Exec([IdivRdi], filled, floor);
    } else {
      var compared := st.(cmpLhs := st.rax, cmpRhs := st.rdi);
      assert code[1..] == [code[1], MovzbRaxAl] && code[1..][1..] == [MovzbRaxAl];
      assert Exec(code, st, floor) == Exec(code[1..], compared, floor);
      var flagged := Step(code[1], compared, floor).value;
      assert Exec(code[1..], compared, floor) == Exec([MovzbRaxAl], flagged, floor);
    }
  }

  /** The pops take the right operand first, so rdi gets `y` and rax gets `x`; the
      combined value replaces both operands on the stack. */
  lemma {:induction false} CombineComputes(op: BinOp, st: State, floor: nat, below: seq<int>, x: int, y: int)
    requires st.stack == below + [x, y] && floor <= |below|
    ensures var r := Exec(Combine(op), st, floor);
      && (r.Some? <==> Apply(op, x, y).Some?)
      && (r.Some? ==> r.value.stack == below + [Apply(op, x, y).value])
  {
    var popped := st.(stack := below, rdi := y, rax := x);
    assert st.stack[..|st.stack| - 1] == below + [x];
    assert (below + [x])[..|below|] == below;
    assert Exec([PopRdi, PopRax], st, floor) == Some(popped) by {
      assert [PopRdi, PopRax][1..] == [PopRax];
    }
    ExecAppend([PopRdi, PopRax], OpCode(op), st, floor);
    ExecAppend([PopRdi, PopRax] + OpCode(op), [PushRax], st, floor);
    OpCodeComputes(op, popped, floor);
  }

  /** Code generation is correct: running `gen(n)` from any stack, never popping below
      `floor`, pushes exactly the value of `n` on top of that stack, and faults only
      when evaluating `n` divides by zero. With `floor` the starting depth, the code
      never touches what lay on the stack before it. */
  lemma {:induction false} GenCorrect(n: Node, st: State, floor: nat)
    requires Pure(n) && floor <= |st.stack|
    ensures var r := Exec(Gen(n), st, floor);
      && (r.Some? <==> Eval(n).Some?)
      && (r.Some? ==> r.value.stack == st.stack + [Eval(n).value])
  {
    match n
    case Num(v) =>
    case Binary(op, lhs, rhs) =>
      GenCorrect(lhs, st, floor);
      ExecAppend(Gen(lhs), Gen(rhs), st, floor);
      ExecAppend(Gen(lhs) + Gen(rhs), Combine(op), st, floor);
      var left := Exec(Gen(lhs), st, floor);
      if left.Some? {
        var x := Eval(lhs).value;
        GenCorrect(rhs, left.value, floor);
        var right := Exec(Gen(rhs), left.value, floor);
        if right.Some? {
          var y := Eval(rhs).value;
          assert right.value.stack == st.stack + [x, y];
          CombineComputes(op, right.value, floor, st.stack, x, y);
        }
      }
  }

  /** Every comparison pushes 0 or 1, whatever its operands. */
  lemma ComparisonPushesBoolean(n: Node, st: State, floor: nat)
    requires Pure(n) && n.Binary? && IsComparison(n.op) && floor <= |st.stack|
    requires Exec(Gen(n), st, floor).Some?
    ensures var top := Exec(Gen(n), st, floor).value.stack;
      |top| == |st.stack| + 1 && top[|st.stack|] in {0, 1}
  {
    GenCorrect(n, st, floor);
  }
}
