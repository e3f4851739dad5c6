/** The code generator and driver of 9cc.c: tokenize the argument, parse one
    expression, emit its code, and pop the value it leaves into rax as the result. */
module Snapshot {
  import opened Wrappers
  import opened Ast
  import opened StackMachine
  import opened SnapshotLexer
  import SnapshotParser
  import G = SnapshotGrammar
  import Codegen
  import Grammar
  import L = Tokenizer

  type Token = SnapshotLexer.Token

  /** Why 9cc.c gives up: a character no token starts at (its offset), or a
      syntax error. */
  datatype Failure = Untokenizable(offset: nat) | Syntax(error: SyntaxError)

  /** `gen` of 9cc.c: the instructions it prints for a tree of numbers and operators. */
  function Gen(n: Node): (code: seq<Instr>)
    requires Codegen.Pure(n)
    ensures 0 < |code| && code[0].Push?
    ensures StackEffect(code) == 1
  {
    match n
    case Num(v) => [Push(v)]
    case Binary(op, lhs, rhs) =>
      var tail := [PopRdi, PopRax] + Codegen.OpCode(op) + [PushRax];
      assert tail == Codegen.Combine(op);
      StackEffectAppend(Gen(lhs), Gen(rhs));
      StackEffectAppend(Gen(lhs) + Gen(rhs), tail);
      Gen(lhs) + Gen(rhs) + tail
  }

  /** The emitter of 9cc.c is the one codegen.c kept: it prints the same code for
      every tree both accept. */
  lemma {:induction false} SameEmitter(n: Node)
    requires Codegen.Pure(n)
    ensures Gen(n) == Codegen.Gen(n)
  {
    match n
    case Num(_) =>
    case Binary(op, lhs, rhs) =>
      SameEmitter(lhs);
      SameEmitter(rhs);
      assert [PopRdi, PopRax] + Codegen.OpCode(op) + [PushRax] == Codegen.Combine(op);
  }

  /** What `main` prints after the fixed header, or why it stops. Parsing starts at
      the first token and nothing checks that it ends at the last one. */
  function Compile(src: string): (r: Result<seq<Instr>, Failure>)
    requires '\0' !in src
    ensures r.Ok? ==> 1 < |r.value| && r.value[|r.value| - 1] == PopRax && StackEffect(r.value) == 0
    ensures r.Err? && r.error.Untokenizable? ==>
      r.error.offset < |src| && BadAt(src, r.error.offset) && Reaches(src, 0, r.error.offset)
  {
    match TokenizeFrom(src, 0)
    case Err(e) =>
      TokenizeFailure(src, 0);
      Err(Untokenizable(e))
    case Ok(toks) =>
      match G.Expr(toks, 0)
      case Err(e) => Err(Syntax(e))
      case Ok(parsed) =>
        StackEffectAppend(Gen(parsed.node), [PopRax]);
        Ok(Gen(parsed.node) + [PopRax])
  }

  /** `main` with its argument: the tokenizer loop, then `expr` on the global cursor,
      then the emitted code and the final `pop rax`. */
  method Run(src: string) returns (r: Result<seq<Instr>, Failure>)
    requires '\0' !in src
    ensures r == Compile(src)
  {
    var tokenized := Tokenize(src);
    if tokenized.Err? {
      return Err(Untokenizable(tokenized.error));
    }
    var cur := new Cursor(tokenized.value);
    var node := SnapshotParser.Expr(cur);
    if node.Err? {
      return Err(Syntax(node.error));
    }
    return Ok(Gen(node.value) + [PopRax]);
  }

  /** The compiled program computes the expression: run on any stack, it leaves that
      stack as it was with the expression's value in rax, and faults only when the
      expression divides by zero. */
  lemma CompileCorrect(src: string, st: State)
    requires '\0' !in src && Compile(src).Ok?
    ensures var node := G.Expr(TokenizeFrom(src, 0).value, 0).value.node;
      var r := Exec(Compile(src).value, st, |st.stack|);
      && (r.Some? <==> Codegen.Eval(node).Some?)
      && (r.Some? ==> r.value.rax == Codegen.Eval(node).value && r.value.stack == st.stack)
  {
    var node := G.Expr(TokenizeFrom(src, 0).value, 0).value.node;
    SameEmitter(node);
    Codegen.GenCorrect(node, st, |st.stack|);
    ExecAppend(Gen(node), [PopRax], st, |st.stack|);
    var after := Exec(Gen(node), st, |st.stack|);
    if after.Some? {
      assert after.value.stack[..|after.value.stack| - 1] == st.stack;
    }
  }

  /** A number followed by a token that is not a symbol is a whole expression: the
      parser stops there without looking further. */
  lemma NumberAlone(toks: seq<Token>, pos: nat)
    requires Terminated(toks) && pos + 1 < |toks|
    requires toks[pos].Number? && !toks[pos + 1].Reserved?
    ensures G.Expr(toks, pos) == Ok(Grammar.Parsed(Num(toks[pos].val), pos + 1))
  {
    var done := Ok(Grammar.Parsed(Num(toks[pos].val), pos + 1));
    assert G.Unary(toks, pos) == done;
    assert G.Multiplicative(toks, pos) == done;
    assert G.Additive(toks, pos) == done;
    assert G.Relational(toks, pos) == done;
    assert G.Equality(toks, pos) == done;
  }

  /** A lone digit is scanned as a number token of that digit's value. */
  lemma ScanDigit(src: string, i: nat)
    requires i < |src| && L.IsDigit(src[i]) && (i + 1 == |src| || !L.IsDigit(src[i + 1]))
    ensures Scan(src, i) == Some((Token.Number(src[i] as int - '0' as int), i + 1))
  {
    L.TwoCharOpChars(src, i);
    assert L.DigitRunEnd(src, i) == i + 1;
    var digits := src[i..i + 1];
    assert digits[..0] == [] && digits[0] == src[i];
    assert L.DecimalValue(digits) == src[i] as int - '0' as int;
  }

  /** Tokens after a complete expression are ignored: `1 2` compiles as `1`. */
  lemma TrailingTokensIgnored()
    ensures Compile("1 2") == Compile("1") == Ok([Push(1), PopRax])
  {
    TokenizeOne();
    CompileLeadingNumber("1", [Token.Number(1), Token.Eof]);
    TokenizeOneTwo();
    CompileLeadingNumber("1 2", [Token.Number(1), Token.Number(2), Token.Eof]);
  }

  /** A source whose first token is a number and whose second is not a symbol
      compiles to pushing that number and popping it into rax. */
  lemma CompileLeadingNumber(src: string, toks: seq<Token>)
    requires '\0' !in src && TokenizeFrom(src, 0) == Ok(toks)
    requires |toks| > 1 && toks[0].Number? && !toks[1].Reserved?
    ensures Compile(src) == Ok([Push(toks[0].val), PopRax])
  {
    NumberAlone(toks, 0);
    assert Gen(Num(toks[0].val)) + [PopRax] == [Push(toks[0].val), PopRax];
  }

  lemma TokenizeOne()
    ensures TokenizeFrom("1", 0) == Ok([Token.Number(1), Token.Eof])
  {
    var one, eof, n1 := "1", Token.Eof, Token.Number(1);
    assert |one| == 1 && one[0] == '1';
    ScanDigit(one, 0);
    TokenizeScanned(one, 0);
    assert TokenizeFrom(one, 1) == Ok([eof]);
    assert [n1] + [eof] == [n1, eof];
  }

  lemma TokenizeOneTwo()
    ensures TokenizeFrom("1 2", 0) == Ok([Token.Number(1), Token.Number(2), Token.Eof])
  {
    var both, eof, n1, n2 := "1 2", Token.Eof, Token.Number(1), Token.Number(2);
    assert |both| == 3 && both[0] == '1' && both[1] == ' ' && both[2] == '2';
    ScanDigit(both, 2);
    TokenizeScanned(both, 2);
    assert TokenizeFrom(both, 3) == Ok([eof]);
    assert [n2] + [eof] == [n2, eof];
    assert TokenizeFrom(both, 1) == TokenizeFrom(both, 2) == Ok([n2, eof]);
    ScanDigit(both, 0);
    TokenizeScanned(both, 0);
    assert [n1] + [n2, eof] == [n1, n2, eof];
  }
}
