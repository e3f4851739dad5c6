/** The tokenizer of 9cc.c, the earlier single-file compiler for arithmetic and
    comparisons only. Its tokens do not point into the source: a symbol keeps a copy
    of its text, a number its value. */
module SnapshotLexer {
  import opened Wrappers
  import L = Tokenizer
  import A = Ast

  datatype Token = Reserved(text: string) | Number(val: int) | Eof

  /** The one-character symbols of 9cc.c: no `=`, `;` or identifiers yet. */
  predicate IsPunct(c: char) {
    c in "+-*/()<>"
  }

  /** A token list as `tokenize` leaves it: one end-of-input token, at the end. */
  predicate Terminated(toks: seq<Token>) {
    && |toks| > 0
    && toks[|toks| - 1].Eof?
    && forall k :: 0 <= k < |toks| - 1 ==> !toks[k].Eof?
  }

  /** The token that starts at offset `i`, tried in the scanner's order, with the
      offset where scanning resumes; `None` when no token starts there. */
  function Scan(src: string, i: nat): (r: Option<(Token, nat)>)
    requires i < |src|
    ensures r.Some? ==> i < r.value.1 <= |src| && !r.value.0.Eof?
  {
    if L.StartsTwoCharOp(src, i) then Some((Reserved(src[i..i + 2]), i + 2))
    else if IsPunct(src[i]) then Some((Reserved([src[i]]), i + 1))
    else if L.IsDigit(src[i]) then
      var j := L.DigitRunEnd(src, i);
      Some((Number(L.DecimalValue(src[i..j])), j))
    else None
  }

  /** The tokens built from offset `i` onwards, or the offset of the first character
      the scanner cannot handle. */
  function TokenizeFrom(src: string, i: nat): (r: Result<seq<Token>, nat>)
    requires i <= |src|
    ensures r.Ok? ==> Terminated(r.value)
    decreases |src| - i
  {
    if i == |src| then
      Ok([Eof])
    else if L.IsSpace(src[i]) then
      TokenizeFrom(src, i + 1)
    else
      match Scan(src, i)
      case None => Err(i)
      case Some((t, j)) =>
        var rest :- TokenizeFrom(src, j);
        Ok([t] + rest)
  }

  /** `tokenize`: the `while (*p)` loop appending to the list, for the contents of a
      C string. The tests of the loop body after the whitespace skip are `Scan`. */
  method Tokenize(src: string) returns (r: Result<seq<Token>, nat>)
    requires '\0' !in src
    ensures r == TokenizeFrom(src, 0)
  {
    var p := 0;
    var toks: seq<Token> := [];
    PrependNothing(TokenizeFrom(src, 0));
    while p < |src|
      invariant p <= |src|
      invariant TokenizeFrom(src, 0) == Prepend(toks, TokenizeFrom(src, p))
      decreases |src| - p
    {
      if L.IsSpace(src[p]) {
        p := p + 1;
        continue;
      }
      var scanned := Scan(src, p);
      if scanned.None? {
        return Err(p);
      }
      var (t, q) := scanned.value;
      PrependOne(toks, t, TokenizeFrom(src, q));
      toks := toks + [t];
      p := q;
    }
    toks := toks + [Eof];
    return Ok(toks);
  }

  /** Where a token is scanned, the result is that token in front of the tokens
      after it. */
  lemma TokenizeScanned(src: string, i: nat)
    requires i < |src| && !L.IsSpace(src[i]) && Scan(src, i).Some?
    ensures TokenizeFrom(src, i) == Prepend([Scan(src, i).value.0], TokenizeFrom(src, Scan(src, i).value.1))
  {
  }

  /** The characters 9cc.c can read at all: whitespace, digits, its symbols, and the
      `=` and `!` that only occur inside `==`, `!=`, `<=` and `>=`. */
  predicate InAlphabet(c: char) {
    L.IsSpace(c) || L.IsDigit(c) || IsPunct(c) || c == '=' || c == '!'
  }

  /** The scanner stops at offset `j` when no token starts there. */
  predicate BadAt(src: string, j: nat)
    requires j < |src|
  {
    !L.IsSpace(src[j]) && !L.StartsTwoCharOp(src, j) && !IsPunct(src[j]) && !L.IsDigit(src[j])
  }

  /** The symbols a token can carry are the four two-character operators and the
      eight one-character ones, with their own text. */
  predicate ReservedText(t: Token) {
    t.Reserved? ==> t.text in {"==", "!=", "<=", ">=", "+", "-", "*", "/", "(", ")", "<", ">"}
  }

  /** A token is read only from non-blank characters of the alphabet, and a symbol
      carries one of the twelve texts; no token starts exactly where `BadAt` holds. */
  lemma ScanChars(src: string, i: nat)
    requires i < |src| && !L.IsSpace(src[i])
    ensures Scan(src, i).None? <==> BadAt(src, i)
    ensures Scan(src, i).Some? ==>
      && ReservedText(Scan(src, i).value.0)
      && forall k :: i <= k < Scan(src, i).value.1 ==> InAlphabet(src[k]) && !L.IsSpace(src[k])
  {
    if L.StartsTwoCharOp(src, i) {
      L.TwoCharOpChars(src, i);
      assert src[i..i + 2] == [src[i], src[i + 1]];
    }
  }

  /** The scanning loop started at offset `i` arrives at offset `j`: it skips
      whitespace, steps over each token it scans, and stops where none starts. */
  predicate Reaches(src: string, i: nat, j: nat)
    decreases |src| - i
  {
    || i == j
    || (&& i < j && i < |src|
        && if L.IsSpace(src[i]) then Reaches(src, i + 1, j)
           else Scan(src, i).Some? && Reaches(src, Scan(src, i).value.1, j))
  }

  /** The loop never gets past a rejected character it reaches: that character is
      the last offset it arrives at. */
  lemma {:induction false} ReachedBadIsLast(src: string, i: nat, a: nat, b: nat)
    requires Reaches(src, i, a) && Reaches(src, i, b) && a < |src| && BadAt(src, a)
    ensures b <= a
    decreases |src| - i
  {
    if i == a {
      ScanChars(src, i);
    } else if i < b {
      var next := if L.IsSpace(src[i]) then i + 1 else Scan(src, i).value.1;
      ReachedBadIsLast(src, next, a, b);
    }
  }

  /** A failure is at a character where no token starts, the loop arrives there and
      at no later offset, and everything before it belongs to the alphabet: the
      failing offset is the first rejected character the loop reaches. */
  lemma {:induction false} TokenizeFailure(src: string, i: nat)
    requires i <= |src|
    requires TokenizeFrom(src, i).Err?
    ensures var e := TokenizeFrom(src, i).error;
      && i <= e < |src| && BadAt(src, e) && Reaches(src, i, e)
      && (forall j: nat :: Reaches(src, i, j) ==> j <= e)
      && forall j :: i <= j < e ==> InAlphabet(src[j])
    decreases |src| - i
  {
    if L.IsSpace(src[i]) {
      TokenizeFailure(src, i + 1);
    } else {
      ScanChars(src, i);
      if Scan(src, i).Some? {
        TokenizeFailure(src, Scan(src, i).value.1);
      }
    }
    var e := TokenizeFrom(src, i).error;
    forall j: nat | Reaches(src, i, j)
      ensures j <= e
    {
      ReachedBadIsLast(src, i, e, j);
    }
  }

  /** Conversely, a rejected character the loop reaches is where it fails. */
  lemma {:induction false} ReachedBadFails(src: string, i: nat, e: nat)
    requires e < |src| && Reaches(src, i, e) && BadAt(src, e)
    ensures TokenizeFrom(src, i) == Err(e)
    decreases |src| - i
  {
    if i == e {
      ScanChars(src, i);
    } else if L.IsSpace(src[i]) {
      ReachedBadFails(src, i + 1, e);
    } else {
      ReachedBadFails(src, Scan(src, i).value.1, e);
    }
  }

  /** The `=` or `!` at offset `j` is the first or the second character of a
      two-character operator that the loop started at `i` scans. */
  predicate InTwoCharOp(src: string, i: nat, j: nat) {
    || (Reaches(src, i, j) && L.StartsTwoCharOp(src, j))
    || (i < j && Reaches(src, i, j - 1) && L.StartsTwoCharOp(src, j - 1))
  }

  /** A success means every character is in the alphabet, every `=` and `!` belongs
      to a two-character operator the loop scans, and every symbol is one of the
      twelve. */
  lemma {:induction false} TokenizeSuccess(src: string, i: nat)
    requires i <= |src|
    requires TokenizeFrom(src, i).Ok?
    ensures forall j :: i <= j < |src| ==> InAlphabet(src[j])
    ensures forall j :: i <= j < |src| && src[j] in "=!" ==> InTwoCharOp(src, i, j)
    ensures forall t :: t in TokenizeFrom(src, i).value ==> ReservedText(t)
    decreases |src| - i
  {
    if i == |src| {
      return;
    }
    var next := if L.IsSpace(src[i]) then i + 1 else Scan(src, i).value.1;
    if !L.IsSpace(src[i]) {
      ScanChars(src, i);
    }
    TokenizeSuccess(src, next);
    forall j | i <= j < |src| && src[j] in "=!"
      ensures InTwoCharOp(src, i, j)
    {
      if j < next {
        L.TwoCharOpChars(src, i);
        assert L.StartsTwoCharOp(src, i) && Reaches(src, i, i);
      } else {
        assert InTwoCharOp(src, next, j);
        if Reaches(src, next, j) && L.StartsTwoCharOp(src, j) {
          assert Reaches(src, i, j);
        } else {
          assert Reaches(src, i, j - 1);
        }
      }
    }
  }

  /** Two-character operators are matched first: wherever the text spells one of
      them, the scan that reaches that offset makes it a single token. */
  lemma TwoCharOpFirst(src: string, i: nat)
    requires i < |src| && L.StartsTwoCharOp(src, i)
    ensures TokenizeFrom(src, i) == Prepend([Reserved(src[i..i + 2])], TokenizeFrom(src, i + 2))
  {
    L.TwoCharOpChars(src, i);
  }

  /** Where 9cc.c reads a token, the later scanner reads one at the same place, with
      the same text or value and the same end. */
  lemma ScanAgrees(src: string, i: nat)
    requires i < |src| && !L.IsSpace(src[i]) && Scan(src, i).Some?
    ensures L.Scan(src, i).Some?
    ensures L.Scan(src, i).value.kind != A.Ident
    ensures ForgetOne(src, L.Scan(src, i).value) == Scan(src, i).value.0
    ensures L.Scan(src, i).value.End() == Scan(src, i).value.1
  {
    if IsPunct(src[i]) {
      assert src[i..i + 1] == [src[i]];
    }
  }

  /** The later tokenizer agrees with this one wherever this one succeeds: it builds
      the same tokens, read back as text and value, and no identifiers. */
  lemma {:induction false} LaterTokenizerAgrees(src: string, i: nat)
    requires i <= |src|
    requires TokenizeFrom(src, i).Ok?
    ensures L.TokenizeFrom(src, i).Ok?
    ensures Fits(src, L.TokenizeFrom(src, i).value)
    ensures Forget(src, L.TokenizeFrom(src, i).value) == TokenizeFrom(src, i).value
    decreases |src| - i
  {
    if i == |src| {
    } else if L.IsSpace(src[i]) {
      LaterTokenizerAgrees(src, i + 1);
    } else {
      var j := Scan(src, i).value.1;
      ScanAgrees(src, i);
      L.TokenizeStep(src, i);
      LaterTokenizerAgrees(src, j);
      ForgetCons(src, L.Scan(src, i).value, L.TokenizeFrom(src, j).value);
    }
  }

  /** Where the later scanner reads a token that is no identifier and no `=` or `;`,
      9cc.c reads one too, ending at the same place. */
  lemma ScanAgreesBack(src: string, i: nat)
    requires i < |src| && !L.IsSpace(src[i]) && L.Scan(src, i).Some?
    requires Readable(src, [L.Scan(src, i).value])
    ensures Scan(src, i).Some? && Scan(src, i).value.1 == L.Scan(src, i).value.End()
  {
    var t := L.Scan(src, i).value;
    assert [t][0] == t;
    if t.kind == A.Reserved && t.len == 1 {
      assert src[t.start..t.End()] == [src[i]];
      assert src[i] != '=' && src[i] != ';';
      assert L.IsPunct(src[i]);
      assert IsPunct(src[i]);
    }
  }

  /** The converse of `LaterTokenizerAgrees`: when the later tokenizer succeeds with
      no identifier and no `=` or `;`, 9cc.c succeeds too, with the same tokens. */
  lemma {:induction false} EarlierTokenizerAgrees(src: string, i: nat)
    requires i <= |src|
    requires L.TokenizeFrom(src, i).Ok? && Readable(src, L.TokenizeFrom(src, i).value)
    ensures TokenizeFrom(src, i).Ok?
    ensures Forget(src, L.TokenizeFrom(src, i).value) == TokenizeFrom(src, i).value
    decreases |src| - i
  {
    if i == |src| {
    } else if L.IsSpace(src[i]) {
      EarlierTokenizerAgrees(src, i + 1);
    } else {
      L.TokenizeStep(src, i);
      var t := L.Scan(src, i).value;
      var ts := L.TokenizeFrom(src, i).value;
      assert ts[0] == t;
      assert Readable(src, [t]);
      ScanAgreesBack(src, i);
      var rest := L.TokenizeFrom(src, t.End()).value;
      assert rest == ts[1..];
      assert Readable(src, rest) by {
        forall k | 0 <= k < |rest|
          ensures rest[k] == ts[k + 1]
        {
        }
      }
      EarlierTokenizerAgrees(src, t.End());
      LaterTokenizerAgrees(src, i);
    }
  }

  /** The later tokenizer's loop, started at offset `i`, arrives at offset `j`. */
  predicate LaterReaches(src: string, i: nat, j: nat)
    decreases |src| - i
  {
    || i == j
    || (&& i < j && i < |src|
        && if L.IsSpace(src[i]) then LaterReaches(src, i + 1, j)
           else L.Scan(src, i).Some? && LaterReaches(src, L.Scan(src, i).value.End(), j))
  }

  /** Where 9cc.c fails, the later tokenizer arrives too. Either it fails there as
      well, or it reads there a token 9cc.c does not know: an identifier, `=` or `;`. */
  lemma {:induction false} FirstFailure(src: string, i: nat)
    requires i <= |src|
    requires TokenizeFrom(src, i).Err?
    ensures var e := TokenizeFrom(src, i).error;
      && e < |src| && LaterReaches(src, i, e)
      && (L.BadAt(src, e) ==> L.TokenizeFrom(src, i) == Err(e))
      && (!L.BadAt(src, e) ==>
            && L.Scan(src, e).Some?
            && (|| L.Scan(src, e).value.kind == A.Ident
                || (L.Scan(src, e).value.kind == A.Reserved && L.Scan(src, e).value.len == 1 && src[e] in "=;")))
    decreases |src| - i
  {
    if L.IsSpace(src[i]) {
      FirstFailure(src, i + 1);
    } else {
      ScanChars(src, i);
      L.TokenizeStep(src, i);
      if Scan(src, i).Some? {
        ScanAgrees(src, i);
        FirstFailure(src, Scan(src, i).value.1);
      }
    }
  }

  /** Later tokens that 9cc.c can read as well: no identifier, and no `=` or `;`. */
  predicate Readable(src: string, ts: seq<A.Token>) {
    && Fits(src, ts)
    && forall k :: 0 <= k < |ts| && ts[k].kind == A.Reserved ==> src[ts[k].start..ts[k].End()] !in {"=", ";"}
  }

  /** Later tokens that lie inside the source and include no identifier. */
  predicate Fits(src: string, ts: seq<A.Token>) {
    forall k :: 0 <= k < |ts| ==> ts[k].End() <= |src| && ts[k].kind != A.Ident
  }

  /** A later token seen as 9cc.c sees it. */
  function ForgetOne(src: string, t: A.Token): Token
    requires t.End() <= |src| && t.kind != A.Ident
  {
    match t.kind
    case Reserved => Reserved(src[t.start..t.End()])
    case Number => Number(t.val)
    case Eof => Eof
  }

  function Forget(src: string, ts: seq<A.Token>): seq<Token>
    requires Fits(src, ts)
  {
    seq(|ts|, k requires 0 <= k < |ts| => ForgetOne(src, ts[k]))
  }

  lemma ForgetCons(src: string, t: A.Token, ts: seq<A.Token>)
    requires t.End() <= |src| && t.kind != A.Ident && Fits(src, ts)
    ensures Forget(src, [t] + ts) == [ForgetOne(src, t)] + Forget(src, ts)
  {
  }

  // ---------------------------------------------------------------------------
  // The cursor over the token list (the global `token` of 9cc.c).

  /** Why parsing stopped: `expect(op)` met another token, or `expect_number` met a
      token that is not a number. `expect` passes `error_at` the token's own copy of
      its text, which lies outside the input, so no source offset is kept. */
  datatype SyntaxError = Expected(op: string) | ExpectedNumber

  /** Token `k` is the symbol `op`: the test `consume` and `expect` make. */
  predicate IsOp(toks: seq<Token>, k: nat, op: string)
    requires k < |toks|
  {
    toks[k] == Reserved(op)
  }

  class Cursor {
    const toks: seq<Token>
    var pos: nat

    ghost predicate Valid()
      reads this
    {
      Terminated(toks) && pos < |toks|
    }

    constructor (toks: seq<Token>)
      requires Terminated(toks)
      ensures Valid() && this.toks == toks && pos == 0
    {
      this.toks := toks;
      pos := 0;
    }

    /** `consume(op)`: step over the current token if it is the symbol `op`. */
    method Consume(op: string) returns (ok: bool)
      requires Valid()
      modifies this
      ensures Valid()
      ensures ok == IsOp(toks, old(pos), op)
      ensures pos == if ok then old(pos) + 1 else old(pos)
    {
      var t := toks[pos];
      if !t.Reserved? || |op| != |t.text| || t.text != op {
        return false;
      }
      pos := pos + 1;
      return true;
    }

    /** `expect(op)`: like `consume`, but a mismatch is an error. */
    method Expect(op: string) returns (r: Outcome<SyntaxError>)
      requires Valid()
      modifies this
      ensures Valid()
      ensures r == if IsOp(toks, old(pos), op) then Pass else Fail(Expected(op))
      ensures pos == if r.Pass? then old(pos) + 1 else old(pos)
    {
      var t := toks[pos];
      if !t.Reserved? || |op| != |t.text| || t.text != op {
        return Fail(Expected(op));
      }
      pos := pos + 1;
      return Pass;
    }

    /** `expect_number`: the value of the current token if it is a number. */
    method ExpectNumber() returns (r: Result<int, SyntaxError>)
      requires Valid()
      modifies this
      ensures Valid()
      ensures r == if toks[old(pos)].Number? then Ok(toks[old(pos)].val) else Err(ExpectedNumber)
      ensures pos == if r.Ok? then old(pos) + 1 else old(pos)
    {
      var t := toks[pos];
      if !t.Number? {
        return Err(ExpectedNumber);
      }
      pos := pos + 1;
      return Ok(t.val);
    }

    /** `at_eof`: the cursor has reached the end-of-input token, the last one. */
    function AtEof(): (b: bool)
      reads this
      requires Valid()
      ensures b <==> pos == |toks| - 1
    {
      toks[pos].Eof?
    }
  }
}
