/** tokenizer.c: the scanner that turns the source string into a token list, and the
    cursor operations the parser uses to walk that list. */
module Tokenizer {
  import opened Wrappers
  import opened Ast

  /** `isspace` in the C locale: space, and tab through carriage return. */
  predicate IsSpace(c: char) {
    c == ' ' || '\t' <= c <= '\r'
  }

  predicate IsDigit(c: char) {
    '0' <= c <= '9'
  }

  /** Characters that form a one-character identifier token. */
  predicate IsIdentChar(c: char) {
    'a' <= c <= 'z' || 'A' <= c <= 'Z' || c == '_'
  }

  /** The one-character symbols. */
  predicate IsPunct(c: char) {
    c in "+-*/()<>=;"
  }

  /** `startswith(p, q)`: the text at offset `i` begins with `q`. */
  predicate StartsWith(src: string, i: nat, q: string) {
    i + |q| <= |src| && src[i..i + |q|] == q
  }

  /** `startswith` compares character by character, as `memcmp` does, and never
      reads past the end of the text. */
  lemma StartsWithChars(src: string, i: nat, q: string)
    ensures StartsWith(src, i, q) <==> i + |q| <= |src| && forall k :: 0 <= k < |q| ==> src[i + k] == q[k]
  {
    if i + |q| <= |src| {
      var prefix := src[i..i + |q|];
      assert forall k :: 0 <= k < |q| ==> prefix[k] == src[i + k];
    }
  }

  predicate StartsTwoCharOp(src: string, i: nat) {
    StartsWith(src, i, "==") || StartsWith(src, i, "!=") || StartsWith(src, i, "<=") || StartsWith(src, i, ">=")
  }

  /** The two-character symbols, character by character: `=`, `!`, `<` or `>`, then `=`. */
  lemma TwoCharOpChars(src: string, i: nat)
    ensures StartsTwoCharOp(src, i) <==>
      i + 1 < |src| && src[i + 1] == '=' && src[i] in "=!<>"
  {
    if i + 1 < |src| {
      assert src[i..i + 2] == [src[i], src[i + 1]];
    }
  }

  /** The end of the maximal run of digits that starts at `i` (where `strtol` stops). */
  function DigitRunEnd(src: string, i: nat): (j: nat)
    requires i <= |src|
    ensures i <= j <= |src|
    ensures forall k :: i <= k < j ==> IsDigit(src[k])
    ensures j == |src| || !IsDigit(src[j])
    decreases |src| - i
  {
    if i < |src| && IsDigit(src[i]) then DigitRunEnd(src, i + 1) else i
  }

  predicate AllDigits(s: string) {
    forall k :: 0 <= k < |s| ==> IsDigit(s[k])
  }

  /** `10` raised to the power `n`. */
  function Pow10(n: nat): nat {
    if n == 0 then 1 else 10 * Pow10(n - 1)
  }

  /** The base-10 value of a string of digits, as `strtol(p, &p, 10)` reads it. */
  function DecimalValue(s: string): nat
    requires AllDigits(s)
  {
    if s == [] then 0 else DecimalValue(s[..|s| - 1]) * 10 + (s[|s| - 1] as int - '0' as int)
  }

  /** The value has no more decimal digits than the string, and its last decimal
      digit is the string's last character. */
  lemma {:induction false} DecimalValueDigits(s: string)
    requires AllDigits(s)
    ensures DecimalValue(s) < Pow10(|s|)
    ensures |s| > 0 ==> DecimalValue(s) % 10 == s[|s| - 1] as int - '0' as int
  {
    if s != [] {
      var init := s[..|s| - 1];
      assert AllDigits(init);
      DecimalValueDigits(init);
    }
  }

  /** The token that starts at offset `i`, tried in the scanner's order (two-character
      symbols before one-character ones); `None` when none starts there. */
  function Scan(src: string, i: nat): (r: Option<Token>)
    requires i < |src|
    ensures r.Some? ==> r.value.start == i && i < r.value.End() <= |src| && r.value.kind != Eof
  {
    if StartsTwoCharOp(src, i) then Some(Token(Reserved, i, 2, 0))
    else if IsPunct(src[i]) then Some(Token(Reserved, i, 1, 0))
    else if IsIdentChar(src[i]) then Some(Token(Ident, i, 1, 0))
    else if IsDigit(src[i]) then
      var j := DigitRunEnd(src, i);
      Some(Token(Number, i, j - i, DecimalValue(src[i..j])))
    else None
  }

  /** The token list `tokenize` builds from the text at offset `i` onwards, or the
      offset of the first character it cannot tokenize. */
  function TokenizeFrom(src: string, i: nat): (r: Result<seq<Token>, nat>)
    requires i <= |src|
    ensures r.Ok? ==> Stream(src, r.value).Valid()
    decreases |src| - i
  {
    if i == |src| then
      Ok([Token(Eof, i, 0, 0)])
    else if IsSpace(src[i]) then
      TokenizeFrom(src, i + 1)
    else
      match Scan(src, i)
      case None => Err(i)
      case Some(t) =>
        var rest :- TokenizeFrom(src, t.End());
        Ok([t] + rest)
  }

  /** `tokenize`: the `while (*p)` loop, appending each new token at the tail of the list.
      The input is the contents of a C string, so it holds no NUL character. The tests
      of the loop body after the whitespace skip are `Scan`. */
  method Tokenize(src: string) returns (r: Result<seq<Token>, nat>)
    requires '\0' !in src
    ensures r == TokenizeFrom(src, 0)
  {
    var p := 0;
    var toks: seq<Token> := [];
    PrependNothing(TokenizeFrom(src, 0));
    while p < |src|
      invariant p <= |src|
      invariant TokenizeFrom(src, 0) == Prepend(toks, TokenizeFrom(src, p))
      decreases |src| - p
    {
      if IsSpace(src[p]) {
        p := p + 1;
        continue;
      }
      var scanned := Scan(src, p);
      if scanned.None? {
        return Err(p);
      }
      var t := scanned.value;
      PrependOne(toks, t, TokenizeFrom(src, t.End()));
      toks := toks + [t];
      p := t.End();
    }
    toks := toks + [Token(Eof, p, 0, 0)];
    return Ok(toks);
  }

  // ---------------------------------------------------------------------------
  // What the scanner guarantees about the tokens it produces.

  /** The facts `tokenize` establishes about one token it built from `src`. */
  predicate WellLexed(src: string, t: Token) {
    match t.kind
    case Eof => t.start == |src| && t.len == 0
    case Reserved =>
      && t.End() <= |src|
      && ((t.len == 2 && StartsTwoCharOp(src, t.start))
          || (t.len == 1 && IsPunct(src[t.start]) && !StartsTwoCharOp(src, t.start)))
    case Ident => t.len == 1 && t.start < |src| && IsIdentChar(src[t.start])
    case Number =>
      && t.len > 0 && t.start < |src|
      && t.End() == DigitRunEnd(src, t.start)
      && t.val == DecimalValue(src[t.start..t.End()])
  }

  /** Every offset in `[a, b)` holds a whitespace character. */
  predicate Blank(src: string, a: nat, b: nat) {
    forall j :: a <= j < b ==> j < |src| && IsSpace(src[j])
  }

  /** The spans of `ts` appear in source order, do not overlap, and only whitespace
      lies between them (and between offset `i` and the first of them). */
  predicate Tiles(src: string, i: nat, ts: seq<Token>) {
    && |ts| > 0
    && i <= ts[0].start
    && Blank(src, i, ts[0].start)
    && forall k :: 0 <= k < |ts| - 1 ==> ts[k].End() <= ts[k + 1].start && Blank(src, ts[k].End(), ts[k + 1].start)
  }

  /** Offset `j` lies inside the span of some token of `ts`. */
  predicate Covered(ts: seq<Token>, j: nat) {
    exists k :: 0 <= k < |ts| && ts[k].start <= j < ts[k].End()
  }

  /** The characters `tokenize` rejects: anything that starts no token and is not whitespace. */
  predicate BadAt(src: string, j: nat)
    requires j < |src|
  {
    !IsSpace(src[j]) && !StartsTwoCharOp(src, j) && !IsPunct(src[j]) && !IsIdentChar(src[j]) && !IsDigit(src[j])
  }

  /** Away from whitespace, a token starts exactly where the character is not
      rejected, and the scanner builds it as `WellLexed` describes. */
  lemma ScanLexed(src: string, i: nat)
    requires i < |src| && !IsSpace(src[i])
    ensures Scan(src, i).Some? <==> !BadAt(src, i)
    ensures Scan(src, i).Some? ==> WellLexed(src, Scan(src, i).value)
  {
  }

  /** The characters a token spans are neither whitespace nor rejected. */
  lemma ScanChars(src: string, i: nat, j: nat)
    requires i < |src| && Scan(src, i).Some?
    requires i <= j < Scan(src, i).value.End()
    ensures !IsSpace(src[j]) && !BadAt(src, j)
  {
    if StartsTwoCharOp(src, i) {
      assert src[i..i + 2] in {"==", "!=", "<=", ">="};
      assert src[j] == src[i..i + 2][j - i];
    }
  }

  /** One step of the scan, away from the end and from whitespace. */
  lemma TokenizeStep(src: string, i: nat)
    requires i < |src| && !IsSpace(src[i])
    ensures Scan(src, i).Some? <==> !BadAt(src, i)
    ensures BadAt(src, i) ==> TokenizeFrom(src, i) == Err(i)
    ensures !BadAt(src, i) ==>
      TokenizeFrom(src, i) == Prepend([Scan(src, i).value], TokenizeFrom(src, Scan(src, i).value.End()))
  {
    ScanLexed(src, i);
  }

  /** Every token the scanner builds satisfies `WellLexed`. */
  lemma {:induction false} TokenizeWellLexed(src: string, i: nat)
    requires i <= |src|
    requires TokenizeFrom(src, i).Ok?
    ensures forall t :: t in TokenizeFrom(src, i).value ==> WellLexed(src, t)
    decreases |src| - i
  {
    if i == |src| {
    } else if IsSpace(src[i]) {
      TokenizeWellLexed(src, i + 1);
    } else {
      TokenizeStep(src, i);
      ScanLexed(src, i);
      TokenizeWellLexed(src, Scan(src, i).value.End());
    }
  }

  /** The token spans follow the source order with only whitespace between them. */
  lemma {:induction false} TokenizeTiles(src: string, i: nat)
    requires i <= |src|
    requires TokenizeFrom(src, i).Ok?
    ensures Tiles(src, i, TokenizeFrom(src, i).value)
    decreases |src| - i
  {
    if i == |src| {
    } else if IsSpace(src[i]) {
      TokenizeTiles(src, i + 1);
    } else {
      TokenizeStep(src, i);
      var t := Scan(src, i).value;
      TokenizeTiles(src, t.End());
      var ts := TokenizeFrom(src, i).value;
      var rest := TokenizeFrom(src, t.End()).value;
      assert ts == [t] + rest;
      forall k | 0 <= k < |ts| - 1
        ensures ts[k].End() <= ts[k + 1].start && Blank(src, ts[k].End(), ts[k + 1].start)
      {
        if k > 0 {
          assert ts[k] == rest[k - 1] && ts[k + 1] == rest[k];
        }
      }
    }
  }

  /** Whitespace yields no token, and every other character lies inside exactly the
      tokens' spans. */
  lemma {:induction false} TokenizeCovers(src: string, i: nat)
    requires i <= |src|
    requires TokenizeFrom(src, i).Ok?
    ensures forall j :: i <= j < |src| ==> (Covered(TokenizeFrom(src, i).value, j) <==> !IsSpace(src[j]))
    decreases |src| - i
  {
    var ts := TokenizeFrom(src, i).value;
    if i == |src| {
      return;
    }
    if IsSpace(src[i]) {
      TokenizeCovers(src, i + 1);
      forall k | 0 <= k < |ts|
        ensures i < ts[k].start
      {
        TokenizeStartsAfter(src, i + 1, k);
      }
      return;
    }
    TokenizeStep(src, i);
    var t := Scan(src, i).value;
    TokenizeCovers(src, t.End());
    var rest := TokenizeFrom(src, t.End()).value;
    forall j | i <= j < |src|
      ensures Covered(ts, j) <==> !IsSpace(src[j])
    {
      CoveredCons(t, rest, j);
      if j < t.End() {
        ScanChars(src, i, j);
      }
    }
  }

  lemma CoveredCons(t: Token, rest: seq<Token>, j: nat)
    ensures Covered([t] + rest, j) <==> (t.start <= j < t.End() || Covered(rest, j))
  {
    var ts := [t] + rest;
    if t.start <= j < t.End() {
      assert ts[0] == t;
    }
    if Covered(ts, j) && !(t.start <= j < t.End()) {
      var k :| 0 <= k < |ts| && ts[k].start <= j < ts[k].End();
      assert rest[k - 1] == ts[k];
    }
    if Covered(rest, j) {
      var k :| 0 <= k < |rest| && rest[k].start <= j < rest[k].End();
      assert ts[k + 1] == rest[k];
    }
  }

  /** Every token built from offset `i` onwards starts at `i` or later. */
  lemma {:induction false} TokenizeStartsAfter(src: string, i: nat, k: nat)
    requires i <= |src|
    requires TokenizeFrom(src, i).Ok? && k < |TokenizeFrom(src, i).value|
    ensures i <= TokenizeFrom(src, i).value[k].start
    decreases |src| - i
  {
    if i == |src| {
    } else if IsSpace(src[i]) {
      TokenizeStartsAfter(src, i + 1, k);
    } else {
      TokenizeStep(src, i);
      var t := Scan(src, i).value;
      if k > 0 {
        TokenizeStartsAfter(src, t.End(), k - 1);
      }
    }
  }

  /** `tokenize` fails exactly when some character is rejected, and then at the first one. */
  lemma {:induction false} TokenizeFailsAtFirstBad(src: string, i: nat)
    requires i <= |src|
    ensures TokenizeFrom(src, i).Err? ==>
      var e := TokenizeFrom(src, i).error;
      i <= e < |src| && BadAt(src, e) && forall j :: i <= j < e ==> !BadAt(src, j)
    decreases |src| - i
  {
    if i == |src| {
      return;
    }
    if IsSpace(src[i]) {
      TokenizeFailsAtFirstBad(src, i + 1);
      return;
    }
    TokenizeStep(src, i);
    if BadAt(src, i) {
      return;
    }
    var next := Scan(src, i).value.End();
    TokenizeFailsAtFirstBad(src, next);
    forall j | i <= j < next
      ensures !BadAt(src, j)
    {
      ScanChars(src, i, j);
    }
  }

  lemma {:induction false} TokenizeOkIffNoBad(src: string, i: nat)
    requires i <= |src|
    ensures TokenizeFrom(src, i).Ok? <==> forall j :: i <= j < |src| ==> !BadAt(src, j)
    decreases |src| - i
  {
    if i == |src| {
      return;
    }
    if IsSpace(src[i]) {
      TokenizeOkIffNoBad(src, i + 1);
      return;
    }
    TokenizeStep(src, i);
    if BadAt(src, i) {
      return;
    }
    var next := Scan(src, i).value.End();
    TokenizeOkIffNoBad(src, next);
    forall j | i <= j < next
      ensures !BadAt(src, j)
    {
      ScanChars(src, i, j);
    }
  }

  /** Longest match: a token that starts at `==`, `!=`, `<=` or `>=` is one reserved
      token of length 2, never a one-character token. */
  lemma TwoCharOpIsOneToken(src: string, k: nat)
    requires TokenizeFrom(src, 0).Ok?
    requires k < |TokenizeFrom(src, 0).value|
    requires StartsTwoCharOp(src, TokenizeFrom(src, 0).value[k].start)
    ensures TokenizeFrom(src, 0).value[k].kind == Reserved
    ensures TokenizeFrom(src, 0).value[k].len == 2
  {
    var ts := TokenizeFrom(src, 0).value;
    TokenizeWellLexed(src, 0);
    assert ts[k] in ts;
    LexedAtTwoCharOp(src, ts[k]);
  }

  lemma LexedAtTwoCharOp(src: string, t: Token)
    requires WellLexed(src, t) && StartsTwoCharOp(src, t.start)
    ensures t.kind == Reserved && t.len == 2
  {
    TwoCharOpChars(src, t.start);
  }

  // ---------------------------------------------------------------------------
  // The cursor over the token list (the global `token` of tokenizer.c).

  class Cursor {
    const input: Stream
    var pos: nat

    ghost predicate Valid()
      reads this
    {
      input.Valid() && pos < |input.toks|
    }

    constructor (input: Stream)
      requires input.Valid()
      ensures Valid() && this.input == input && pos == 0
    {
      this.input := input;
      pos := 0;
    }

    /** `consume(op)`: step over the current token if it is the symbol `op`. */
    method Consume(op: string) returns (ok: bool)
      requires Valid()
      modifies this
      ensures Valid()
      ensures ok == input.IsOp(old(pos), op)
      ensures pos == if ok then old(pos) + 1 else old(pos)
    {
      var t := input.toks[pos];
      if t.kind != Reserved || |op| != t.len || input.src[t.start..t.End()] != op {
        return false;
      }
      pos := pos + 1;
      return true;
    }

    /** `consume_ident`: step over the current token if it is an identifier, and return it. */
    method ConsumeIdent() returns (tok: Option<Token>)
      requires Valid()
      modifies this
      ensures Valid()
      ensures tok == if input.toks[old(pos)].kind == Ident then Some(input.toks[old(pos)]) else None
      ensures pos == if tok.Some? then old(pos) + 1 else old(pos)
    {
      var t := input.toks[pos];
      if t.kind != Ident {
        return None;
      }
      pos := pos + 1;
      return Some(t);
    }

    /** `expect(op)`: like `consume`, but a mismatch is an error at the current token.
        The failure names that token by its index; `error_at` prints its `start`. */
    method Expect(op: string) returns (r: Outcome<nat>)
      requires Valid()
      modifies this
      ensures Valid()
      ensures r == if input.IsOp(old(pos), op) then Pass else Fail(old(pos))
      ensures pos == if r.Pass? then old(pos) + 1 else old(pos)
    {
      var t := input.toks[pos];
      if t.kind != Reserved || |op| != t.len || input.src[t.start..t.End()] != op {
        return Fail(pos);
      }
      pos := pos + 1;
      return Pass;
    }

    /** `expect_number`: the value of the current token if it is a number, otherwise
        an error naming the current token. */
    method ExpectNumber() returns (r: Result<int, nat>)
      requires Valid()
      modifies this
      ensures Valid()
      ensures r == if input.toks[old(pos)].kind == Number then Ok(input.toks[old(pos)].val)
                   else Err(old(pos))
      ensures pos == if r.Ok? then old(pos) + 1 else old(pos)
    {
      var t := input.toks[pos];
      if t.kind != Number {
        return Err(pos);
      }
      pos := pos + 1;
      return Ok(t.val);
    }

    /** `at_eof`: the cursor has reached the end-of-input token, the last one of the list. */
    function AtEof(): (b: bool)
      reads this
      requires Valid()
      ensures b <==> pos == |input.toks| - 1
    {
      input.toks[pos].kind == Eof
    }
  }
}
