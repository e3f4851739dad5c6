/** The part of x86-64 that the emitted code uses: the stack, the registers rax, rdi
    and rdx, the byte register al, and the operands of the last `cmp`. Integers are
    mathematical; 64-bit wrap-around is not modelled. */
module StackMachine {
  import opened Wrappers

  /** One line of the code `gen` prints after the prologue. */
  datatype Instr =
    | Push(n: int)   // push n
    | PopRdi         // pop rdi
    | PopRax         // pop rax
    | AddRaxRdi      // add rax, rdi
    | SubRaxRdi      // sub rax, rdi
    | ImulRaxRdi     // imul rax, rdi
    | Cqo            // cqo
    | IdivRdi        // idiv rdi
    | CmpRaxRdi      // cmp rax, rdi
    | Sete           // sete al
    | Setne          // setne al
    | Setl           // setl al
    | Setle          // setle al
    | MovzbRaxAl     // movzb rax, al
    | PushRax        // push rax

  /** The stack grows at the end of `stack`. `cmpLhs` and `cmpRhs` stand for the flags
      set by `cmp`: the `set*` instructions only ever compare those two values. */
  datatype State = State(stack: seq<int>, rax: int, rdi: int, rdx: int, al: int, cmpLhs: int, cmpRhs: int)

  /** Division truncated toward zero, as `idiv` computes it (and as C's `/` does). */
  function TruncDiv(a: int, b: int): int
    requires b != 0
  {
    var q := Abs(a) / Abs(b);
    if (a < 0) == (b < 0) then q else -q
  }

  /** The remainder `idiv` leaves in rdx. */
  function TruncRem(a: int, b: int): int
    requires b != 0
  {
    a - b * TruncDiv(a, b)
  }

  function Abs(a: int): nat {
    if a < 0 then -a else a
  }

  /** `TruncDiv` is division rounded toward zero: quotient and remainder recompose the
      dividend, and the remainder is smaller than the divisor in magnitude and never
      has the opposite sign of the dividend. */
  lemma TruncDivRem(a: int, b: int)
    requires b != 0
    ensures a == b * TruncDiv(a, b) + TruncRem(a, b)
    ensures Abs(TruncRem(a, b)) < Abs(b)
    ensures a >= 0 ==> TruncRem(a, b) >= 0
    ensures a <= 0 ==> TruncRem(a, b) <= 0
  {
    TruncRemAbs(a, b);
  }

  /** The remainder is `|a| % |b|` with the sign of `a`. */
  lemma TruncRemAbs(a: int, b: int)
    requires b != 0
    ensures TruncRem(a, b) == if a < 0 then -(Abs(a) % Abs(b)) else Abs(a) % Abs(b)
  {
    var n: int, d: int := Abs(a), Abs(b);
    var m := n / d;
    assert n == d * m + n % d;
    if a >= 0 && b > 0 {
      assert TruncDiv(a, b) == m && b * m == d * m;
    } else if a >= 0 {
      assert TruncDiv(a, b) == -m && b * -m == d * m;
    } else if b > 0 {
      assert TruncDiv(a, b) == -m && b * -m == -(d * m);
    } else {
      assert TruncDiv(a, b) == m && b * m == -(d * m);
    }
  }

  /** Those facts fix the quotient: any `q` whose remainder `a - b * q` has them is
      `TruncDiv(a, b)`. */
  lemma TruncDivUnique(a: int, b: int, q: int)
    requires b != 0
    requires Abs(a - b * q) < Abs(b)
    requires a >= 0 ==> a - b * q >= 0
    requires a <= 0 ==> a - b * q <= 0
    ensures q == TruncDiv(a, b)
  {
    var n, d, r := Abs(a), Abs(b), Abs(a - b * q);
    // |a| == |b| * |q'| + |r|, where q' is q with the sign of a / b.
    var aq := if (a < 0) == (b < 0) then q else -q;
    assert n == d * aq + r by {
      if a < 0 && b < 0 {
        assert n == -a && d == -b && r == -(a - b * q);
      } else if a < 0 {
        assert n == -a && d == b && r == -(a - b * q);
      } else if b < 0 {
        assert n == a && d == -b && r == a - b * q;
      }
    }
    DivUnique(n, d, aq, r);
  }

  lemma DivUnique(n: nat, d: nat, q: int, r: nat)
    requires d > 0 && r < d && n == d * q + r
    ensures q == n / d
  {
    var m := n / d;
    assert d * q == d * m + d * (q - m);
    MulBound(d, q - m);
  }

  /** A nonzero multiple of `d` is at least `d` in magnitude. */
  lemma MulBound(d: int, k: int)
    requires d > 0
    ensures k > 0 ==> d * k >= d
    ensures k < 0 ==> d * k <= -d
  {
    if k > 0 {
      assert d * k == d * (k - 1) + d;
    } else if k < 0 {
      assert d * k == -(d * (-k - 1)) - d;
    }
  }

  /** The sign extension of rax into rdx that `cqo` produces. */
  function SignFill(rax: int): int {
    if rax < 0 then -1 else 0
  }

  /** One instruction. `None` is a fault: a pop at or below `floor` (the lowest stack
      depth the code may reach), or `idiv` by zero. `idiv` divides rdx:rax; only the
      case where rdx is rax's sign extension, the one `cqo` sets up, is modelled, and
      any other rdx is treated as a fault too. */
  function Step(i: Instr, st: State, floor: nat): Option<State> {
    match i
    case Push(n) => Some(st.(stack := st.stack + [n]))
    case PushRax => Some(st.(stack := st.stack + [st.rax]))
    case PopRdi =>
      if |st.stack| <= floor then None
      else Some(st.(stack := st.stack[..|st.stack| - 1], rdi := st.stack[|st.stack| - 1]))
    case PopRax =>
      if |st.stack| <= floor then None
      else Some(st.(stack := st.stack[..|st.stack| - 1], rax := st.stack[|st.stack| - 1]))
    case AddRaxRdi => Some(st.(rax := st.rax + st.rdi))
    case SubRaxRdi => Some(st.(rax := st.rax - st.rdi))
    case ImulRaxRdi => Some(st.(rax := st.rax * st.rdi))
    case Cqo => Some(st.(rdx := SignFill(st.rax)))
    case IdivRdi =>
      if st.rdi == 0 || st.rdx != SignFill(st.rax) then None
      else Some(st.(rax := TruncDiv(st.rax, st.rdi), rdx := TruncRem(st.rax, st.rdi)))
    case CmpRaxRdi => Some(st.(cmpLhs := st.rax, cmpRhs := st.rdi))
    case Sete => Some(st.(al := if st.cmpLhs == st.cmpRhs then 1 else 0))
    case Setne => Some(st.(al := if st.cmpLhs != st.cmpRhs then 1 else 0))
    case Setl => Some(st.(al := if st.cmpLhs < st.cmpRhs then 1 else 0))
    case Setle => Some(st.(al := if st.cmpLhs <= st.cmpRhs then 1 else 0))
    case MovzbRaxAl => Some(st.(rax := st.al))
  }

  /** Run `code` from the first instruction to the last, stopping at the first fault. */
  function Exec(code: seq<Instr>, st: State, floor: nat): Option<State>
    decreases |code|
  {
    if code == [] then Some(st)
    else
      match Step(code[0], st, floor)
      case None => None
      case Some(next) => Exec(code[1..], next, floor)
  }

  /** How much one instruction deepens the stack: 1 for a push, -1 for a pop. */
  function InstrEffect(i: Instr): int {
    match i
    case Push(_) => 1
    case PushRax => 1
    case PopRdi => -1
    case PopRax => -1
    case _ => 0
  }

  /** Pushes minus pops: how much `code` deepens the stack when it runs through. */
  function StackEffect(code: seq<Instr>): int
    decreases |code|
  {
    if code == [] then 0 else InstrEffect(code[0]) + StackEffect(code[1..])
  }

  lemma {:induction false} StackEffectAppend(a: seq<Instr>, b: seq<Instr>)
    ensures StackEffect(a + b) == StackEffect(a) + StackEffect(b)
    decreases |a|
  {
    if a == [] {
      assert a + b == b;
    } else {
      assert (a + b)[0] == a[0];
      assert (a + b)[1..] == a[1..] + b;
      StackEffectAppend(a[1..], b);
    }
  }

  /** Code that runs through changes the depth of the stack by exactly its
      `StackEffect`, whatever the values. */
  lemma {:induction false} ExecDepth(code: seq<Instr>, st: State, floor: nat)
    requires Exec(code, st, floor).Some?
    ensures |Exec(code, st, floor).value.stack| == |st.stack| + StackEffect(code)
    decreases |code|
  {
    if code != [] {
      ExecDepth(code[1..], Step(code[0], st, floor).value, floor);
    }
  }

  /** Running two pieces of code one after the other is running their concatenation. */
  lemma {:induction false} ExecAppend(a: seq<Instr>, b: seq<Instr>, st: State, floor: nat)
    ensures Exec(a + b, st, floor) ==
      match Exec(a, st, floor)
      case None => None
      case Some(mid) => Exec(b, mid, floor)
    decreases |a|
  {
    if a == [] {
      assert a + b == b;
    } else {
      assert (a + b)[0] == a[0];
      assert (a + b)[1..] == a[1..] + b;
      match Step(a[0], st, floor)
      case None =>
      case Some(next) => ExecAppend(a[1..], b, next, floor);
    }
  }
}
