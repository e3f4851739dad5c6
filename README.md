# 9cc front end and code generator in Dafny

This project models the core of 9cc, a small compiler from a C-like language of
integer expressions to x86-64 assembly, and proves properties of the model. It has
two pipelines.

- **The later pipeline** consists of `tokenizer.c`, `parser.c` and `codegen.c`.
  - It accepts statements terminated by `;`, single-letter variables and assignment.
  - The tokenizer turns the source text into a token list. Each token is a span of
    the source, with the value of a number.
  - The parser is recursive descent over a global token cursor. It builds trees and
    stores the statement roots in the global array `code[]`.
  - `gen` emits post-order stack-machine code for a tree.
- **The earlier pipeline** is the single file `9cc.c`.
  - It handles arithmetic and comparisons only: no variables, no `;` and no `=`.
  - Its tokens keep a copy of their symbol text rather than a span.
  - `main` parses one expression and pops its value into rax.

Each module takes the form of the code it models.

- **Tokenizers.** Each `tokenize` is a `while` loop appending to a list. Each is a
  method (`Tokenizer.Tokenize`, `SnapshotLexer.Tokenize`) proved equal to a recursive
  specification function `TokenizeFrom`. The lemmas about what the scanner
  guarantees are proved about that function.
- **Cursors.** The global token cursor is a class (`Tokenizer.Cursor`,
  `SnapshotLexer.Cursor`) whose methods move `pos`.
- **Parsers.** The precedence procedures are methods that move that cursor and
  rebind a local tree in their `for (;;)` loops (`Parser`, `SnapshotParser`). Each is
  proved to compute the function of the same grammar level (`Grammar`,
  `SnapshotGrammar`). `program` is a method of a class whose field `code` is the
  statement array.
- **Code generators.** `gen` is a pure function. Its correctness is proved against
  an evaluator for trees (`Codegen.Eval`) on an interpreter for the instructions it
  emits (`StackMachine.Exec`).

The main results are these.

- **Tokenizer.** It succeeds exactly when no character is rejected, and otherwise
  fails at the first rejected one.
  - Tokens appear in source order with only whitespace between them.
  - A character lies inside a token exactly when it is not whitespace.
  - Every token has the shape its branch of the scanner gives it, including the
    longest match for `==`, `!=`, `<=` and `>=`.
- **Parser.** Each of the four binary levels parses its first operand with the
  next tighter level and then folds the run of `op operand` pairs that follows into
  it from the left (`GrammarLaws.LevelFoldsLeft`). This holds for every input, so
  `==`, `!=`, `<`, `<=`, `>`, `>=`, `+`, `-`, `*` and `/` all associate to the left.
  - Fixed-shape lemmas show each level binding tighter than the one above it (`*`
    over `+`, `+` over `<`, `<` over `==`, `==` over `=`), grouping by parentheses,
    and right associativity for `=`.
  - A failure names the offending token: where `primary` finds no operand or no
    `)`, or where `stmt` finds no `;`. `Parse` reports that token's source offset.
  - `>` and `>=` are rewritten with swapped operands, and the rewritten trees keep
    their meaning.
  - Unary `-x` becomes `0 - x`.
- **Code generation.** The code for a tree, run on any stack, pushes exactly the
  value of the tree. It never touches what lay below, and faults only when the tree
  divides by zero.
- **Earlier pipeline.**
  - Its tokenizer agrees with the later one on every input it accepts.
  - Its parser builds the same trees as the later `expr` on those inputs.
  - Its emitter prints the same code as the later `gen`.
  - Its driver ignores trailing tokens: `1 2` compiles as `1`.

The tokenizer accepts upper-case letters and `_` as identifiers, but
`new_node_lvar` computes `(c - 'a' + 1) * 8`. That is negative for all of them
(`GrammarLaws.OtherIdentifierSlots`). Only the 26 lower-case letters fall inside the
208 bytes main.c reserves (`GrammarLaws.LowercaseSlots`). `gen` has no case for
variables, so nothing emitted ever uses these offsets.

In these places the code does less than one might expect, and the model follows
the code:

- Code generation has no case for variables or assignment. The model's `gen`
  requires a tree of numbers and operators (`Codegen.Pure`), and `1=2;` parses
  (`GrammarLaws.AssignToNumber`). No semantic error is raised for it.
- The earlier `expect` reports its error at a copy of the token's text. That copy
  does not point into the input, and `expect_number` reports no position at all. So
  the earlier pipeline's syntax errors carry no source offset
  (`SnapshotLexer.SyntaxError`).
- Identifiers are not limited to the 26 lower-case letters (see above).

## Model

| member | source | states |
|---|---|---|
| Tokenizer.StartsWithChars | tokenizer.c:68-70 | `startswith(p, q)` holds exactly when at least as many characters as `q` has remain from `p` on, and they equal those of `q` one by one |
| Tokenizer.TwoCharOpChars | tokenizer.c:88-89 | the text at an offset starts with `==`, `!=`, `<=` or `>=` exactly when the next character is `=` and this one is `=`, `!`, `<` or `>` |
| Tokenizer.DigitRunEnd | tokenizer.c:109-113 | where `strtol` stops: every character from the start up to it is a digit, and it is the end of the text or a non-digit |
| Tokenizer.DecimalValueDigits | tokenizer.c:109-113 | the value `strtol` reads from a run of digits is below 10 to the power of its length, and its last decimal digit is the run's last character |
| Tokenizer.Scan | tokenizer.c:87-115 | a token found at an offset starts there, is non-empty, lies inside the text and is never end-of-input |
| Tokenizer.TokenizeFrom | tokenizer.c:79-121 | a successful scan ends with exactly one end-of-input token and none earlier; every other token is non-empty; every span lies inside the text |
| Tokenizer.Tokenize | tokenizer.c:73-122 | the `while (*p)` loop appending to the list returns exactly `TokenizeFrom(src, 0)`: the same tokens, or the same failing offset |
| Tokenizer.ScanLexed | tokenizer.c:87-117 | away from whitespace, a token starts at an offset exactly when its character is not rejected, and it has the shape `WellLexed` describes |
| Tokenizer.ScanChars | tokenizer.c:87-115 | no character inside a token's span is whitespace or a rejected character |
| Tokenizer.TokenizeStep | tokenizer.c:79-118 | one iteration: a rejected character fails at its own offset; otherwise the scanned token comes first and scanning resumes at its end |
| Tokenizer.TokenizeWellLexed | tokenizer.c:88-120 | every token: a 2-character symbol at `==`/`!=`/`<=`/`>=`; a 1-character symbol from `+-*/()<>=;` that starts no 2-character one; an identifier of length 1 holding a letter or `_`; a number spanning the maximal digit run, valued in base 10; end-of-input at the end of the text with length 0 |
| Tokenizer.TokenizeTiles | tokenizer.c:79-85 | token spans are in source order, do not overlap, and only whitespace lies before and between them |
| Tokenizer.TokenizeCovers | tokenizer.c:82-85 | a character lies inside some token's span exactly when it is not whitespace |
| Tokenizer.TokenizeStartsAfter | tokenizer.c:79-121 | every token scanned from an offset onwards starts at that offset or later |
| Tokenizer.TokenizeFailsAtFirstBad | tokenizer.c:117 | a failure is at a rejected character, and no character before it is rejected |
| Tokenizer.TokenizeOkIffNoBad | tokenizer.c:79-118 | tokenizing succeeds exactly when no character of the text is rejected |
| Tokenizer.TwoCharOpIsOneToken | tokenizer.c:88-93 | longest match: a token that starts at `==`, `!=`, `<=` or `>=` is one reserved token of length 2 |
| Tokenizer.LexedAtTwoCharOp | tokenizer.c:88-99 | a well-formed token starting at a 2-character symbol is reserved and of length 2, never a 1-character symbol, an identifier or a number |
| Tokenizer.Cursor.constructor | main.c:10-11 | the cursor starts at the first token of a well-formed token list |
| Tokenizer.Cursor.Consume | tokenizer.c:15-22 | returns true and advances by one token exactly when the current token is the reserved symbol `op`; otherwise the cursor stays |
| Tokenizer.Cursor.ConsumeIdent | tokenizer.c:26-32 | returns the current token and advances exactly when it is an identifier; otherwise returns nothing and stays |
| Tokenizer.Cursor.Expect | tokenizer.c:36-42 | advances when the current token is `op`, otherwise fails at the current token and stays |
| Tokenizer.Cursor.ExpectNumber | tokenizer.c:46-52 | returns the current token's value and advances when it is a number, otherwise fails at the current token and stays |
| Tokenizer.Cursor.AtEof | tokenizer.c:54-56 | true exactly when the cursor is at the last token |
| Grammar.LvarOffset | parser.c:25-29 | `(c - 'a' + 1) * 8` is a multiple of 8, positive exactly from `a` on, and at most 208 up to `z` |
| Grammar.NewLvar | parser.c:25-29 | `new_node_lvar` builds a variable node whose offset is a multiple of 8, between 8 and 208 when the token's first character is a lower-case letter |
| Grammar.Expr | parser.c:67-69 | on success stops at a later token, never past end-of-input; on failure names a token at the start or later |
| Grammar.Assignment | parser.c:72-77 | the same bounds, for `equality ("=" assign)?` |
| Grammar.Equality | parser.c:80-91 | the same bounds, for `relational ("==" relational \| "!=" relational)*` |
| Grammar.EqualityLoop | parser.c:83-90 | the loop consumes zero or more tokens and stays before end-of-input; failures lie in the consumed range or later |
| Grammar.Relational | parser.c:94-109 | the same bounds as `Expr`, for the relational level |
| Grammar.RelationalLoop | parser.c:97-108 | the loop's bounds, as for `EqualityLoop` |
| Grammar.Additive | parser.c:112-123 | the same bounds as `Expr`, for the additive level |
| Grammar.AdditiveLoop | parser.c:115-122 | the loop's bounds, as for `EqualityLoop` |
| Grammar.Multiplicative | parser.c:126-137 | the same bounds as `Expr`, for the multiplicative level |
| Grammar.MultiplicativeLoop | parser.c:129-136 | the loop's bounds, as for `EqualityLoop` |
| Grammar.Unary | parser.c:141-147 | the same bounds as `Expr`, for unary `+` and `-` |
| Grammar.Primary | parser.c:150-162 | the same bounds as `Expr`. After `(`: fails exactly when the inner expression fails (with its error) or is not followed by `)`, and then at the token after the inner expression. Otherwise: fails exactly when the token is neither identifier nor number, and then at that token |
| Grammar.Statement | parser.c:60-64 | the same bounds as `Expr`, and the last token consumed is `;`. Fails exactly when the expression fails (with its error) or is not followed by `;`, and then at the token after the expression |
| Grammar.ProgramFrom | parser.c:51-57 | every statement takes at least two tokens, so the roots number at most half the tokens before end-of-input; a failure names a token in range |
| Grammar.Parse | main.c:10-14 | a failure offset lies inside the input or at its end. If tokenizing fails, the offset is the first rejected character. Otherwise parsing succeeds exactly when `ProgramFrom` does, with its roots, and a failure is the source offset of the token `ProgramFrom` names |
| Parser.Parser.constructor | main.c:10-14 | a fresh cursor at the first token, and an empty statement array |
| Parser.Parser.Program | parser.c:51-57 | on success `code` holds exactly the roots `ProgramFrom` gives, in order; on failure the error is the source offset of the token `ProgramFrom` names |
| Parser.Statement | parser.c:60-64 | computes `Grammar.Statement`: the same tree with the cursor after `;`, or the same failing token |
| Parser.Expr | parser.c:67-69 | computes `Grammar.Expr`: the same tree and the same cursor, or the same failing token |
| Parser.Assignment | parser.c:72-77 | computes `Grammar.Assignment` |
| Parser.Equality | parser.c:80-91 | the `for (;;)` loop computes `Grammar.Equality` |
| Parser.ConsumeEither | parser.c:84-89 | the two `consume` tests of an equality, additive or multiplicative loop in source order: the operator found, with the cursor advanced by one token exactly when one was found |
| Parser.RelationalOperator | parser.c:97-106 | the four `consume` tests in source order: the operator found and whether its operands are swapped, with the cursor advanced by one token exactly when one was found |
| Parser.Relational | parser.c:94-109 | the loop computes `Grammar.Relational` |
| Parser.Additive | parser.c:112-123 | the loop computes `Grammar.Additive` |
| Parser.Multiplicative | parser.c:126-137 | the loop computes `Grammar.Multiplicative` |
| Parser.Unary | parser.c:141-147 | computes `Grammar.Unary` |
| Parser.Primary | parser.c:150-162 | computes `Grammar.Primary` |
| GrammarLaws.NumberIsUnary | parser.c:161 | a number token is a whole unary operand |
| GrammarLaws.IdentIsUnary | parser.c:158-160 | an identifier token is a variable at its frame offset |
| GrammarLaws.UnaryIsMultiplicative | parser.c:126-137 | a unary operand not followed by `*` or `/` is the whole multiplicative expression |
| GrammarLaws.MultiplicativeIsAdditive | parser.c:112-123 | a multiplicative expression not followed by `+` or `-` is the whole additive expression |
| GrammarLaws.AdditiveIsExpr | parser.c:67-109 | an additive expression followed by no operator and no `=` is the whole expression |
| GrammarLaws.OneStatement | parser.c:51-64 | an expression, its `;` and end-of-input make a program of that one root |
| GrammarLaws.LoopStep | parser.c:83-136 | one pass of a binary level's loop: at an operator of the level, it extends the tree by the operand the next level parses, swapping the operands for `>` and `>=`, and goes on after that operand |
| GrammarLaws.LoopFoldsLeft | parser.c:83-136 | from any tree, a loop over a maximal run of `op operand` pairs returns the pairs folded into that tree from the left, and stops at the first token that is no operator of the level |
| GrammarLaws.LevelFoldsLeft | parser.c:80-137 | for every input, each binary level is its first operand (parsed by the next tighter level) with the following run of pairs folded in from the left |
| GrammarLaws.DivisionLeftAssociative | parser.c:126-137 | `a / b / c ;` parses to `DIV(DIV(a, b), c)` |
| GrammarLaws.AdditiveBindsTighter | parser.c:94-123 | `a < b + c ;` parses to `LT(a, ADD(b, c))` |
| GrammarLaws.RelationalBindsTighter | parser.c:80-109 | `a == b < c ;` parses to `EQ(a, LT(b, c))` |
| GrammarLaws.EqualityBindsTighter | parser.c:72-91 | `x = a == b ;` parses to `ASSIGN(x, EQ(a, b))` |
| GrammarLaws.OperandMissing | parser.c:150-162 | `a + ;` fails at the `;`, where `primary` finds no operand |
| GrammarLaws.UnclosedParenthesis | parser.c:150-156 | `( a ;` fails at the `;`, where `expect(")")` finds another token |
| GrammarLaws.SemicolonMissing | parser.c:60-64 | `a b ;` fails at `b`, where `expect(";")` finds another token |
| GrammarLaws.ParseOperandMissing | main.c:10-14 | a text whose tokens read `a + ;` is reported at the source offset of its `;` |
| GrammarLaws.MulBindsTighter | parser.c:112-137 | `a + b * c ;` parses to `ADD(a, MUL(b, c))` |
| GrammarLaws.ParenthesesGroup | parser.c:150-156 | `( a + b ) * c ;` parses to `MUL(ADD(a, b), c)` |
| GrammarLaws.SubtractionLeftAssociative | parser.c:112-123 | `a - b - c ;` parses to `SUB(SUB(a, b), c)` |
| GrammarLaws.AssignmentRightAssociative | parser.c:72-77 | `x = y = v ;` parses to `ASSIGN(x, ASSIGN(y, v))` |
| GrammarLaws.EqualityOperand | parser.c:80-109 | an identifier followed by `=` is the whole left operand of that `=` |
| GrammarLaws.AssignToNumber | parser.c:72-77 | the left side of `=` is not checked: `a = b ;` with two numbers parses to `ASSIGN(a, b)` |
| GrammarLaws.GreaterSwapsOperands | parser.c:102-105 | `a > b ;` and `a >= b ;` parse to `LT(b, a)` and `LE(b, a)`, which evaluate to 1 exactly when `a > b` (`a >= b`) |
| GrammarLaws.UnarySigns | parser.c:141-147 | `+ a ;` parses to `a`, and `- a ;` to `SUB(0, a)`, whose value is `-a` |
| GrammarLaws.LowercaseSlots | parser.c:25-29 | the 26 lower-case variables get pairwise distinct offsets, multiples of 8 from 8 to 208 |
| GrammarLaws.OtherIdentifierSlots | parser.c:25-29 | every other identifier character the tokenizer accepts (upper case, `_`) gets a negative offset |
| StackMachine.TruncDivRem | codegen.c:40-44 | `idiv`'s quotient and remainder recompose the dividend; the remainder is smaller than the divisor in magnitude and has the sign of the dividend |
| StackMachine.TruncRemAbs | codegen.c:40-44 | the remainder is `|a| mod |b|` carrying the sign of `a` |
| StackMachine.TruncDivUnique | codegen.c:40-44 | those properties fix the quotient: any quotient with them is the truncated one |
| StackMachine.DivUnique | codegen.c:40-44 | for non-negative operands, a quotient whose remainder lies in `[0, d)` is the Euclidean one |
| StackMachine.StackEffectAppend | codegen.c:15-67 | the pushes minus pops of concatenated code add up |
| StackMachine.ExecDepth | codegen.c:15-67 | code that runs through changes the stack depth by exactly its pushes minus pops, whatever the values |
| StackMachine.ExecAppend | codegen.c:23-28 | running two pieces of printed code in turn is running their concatenation, and a fault in the first stops both |
| Codegen.OpCode | codegen.c:30-64 | the code of each `switch` case is non-empty and none of its instructions pushes or pops |
| Codegen.Combine | codegen.c:27-67 | `pop rdi; pop rax; <op>; push rax` takes two values off the stack and puts one back |
| Codegen.Gen | codegen.c:15-67 | the code printed for a tree starts by pushing a number and leaves exactly one more value on the stack than it found |
| Codegen.Apply | codegen.c:31-64 | an operator has no value exactly when it divides by zero; comparisons are 0 or 1 |
| Codegen.OpCodeComputes | codegen.c:30-65 | with the left operand in rax and the right one in rdi, each `switch` case leaves the operator's value in rax and the stack unchanged, and faults exactly on a zero divisor |
| Codegen.CombineComputes | codegen.c:27-67 | `pop rdi; pop rax; <op>; push rax` replaces the two operands on top of the stack by their combined value, the right operand being the one pushed last |
| Codegen.GenCorrect | codegen.c:15-67 | running `gen(n)` on any stack, never popping below a given floor, succeeds exactly when `n` has a value and then leaves the stack with that value pushed |
| Codegen.ComparisonPushesBoolean | codegen.c:45-64 | the code of `==`, `!=`, `<` and `<=` pushes exactly one value, 0 or 1 |
| SnapshotLexer.Scan | 9cc.c:121-144 | a token found at an offset ends later, inside the text, and is never end-of-input |
| SnapshotLexer.TokenizeFrom | 9cc.c:113-150 | a successful scan ends with exactly one end-of-input token and none earlier |
| SnapshotLexer.Tokenize | 9cc.c:107-151 | the `while (*p)` loop returns exactly `TokenizeFrom(src, 0)` |
| SnapshotLexer.TokenizeScanned | 9cc.c:121-144 | where a token is scanned, the result is that token followed by the tokens after it |
| SnapshotLexer.ScanChars | 9cc.c:121-146 | at a non-blank character, no token starts exactly when the character is rejected; a token spans only non-blank characters of the alphabet, and a symbol carries one of its twelve texts |
| SnapshotLexer.ReachedBadIsLast | 9cc.c:113-147 | the loop gets no further than a rejected character it reaches: that is the last offset it arrives at |
| SnapshotLexer.TokenizeFailure | 9cc.c:146 | a failure is at a rejected character the loop reaches, the loop reaches no later offset, and every character before it is in the alphabet: the failure is at the first rejected character the loop reaches |
| SnapshotLexer.ReachedBadFails | 9cc.c:146 | conversely, a rejected character the loop reaches is where tokenizing fails; with `TokenizeFailure`, tokenizing fails at `e` exactly when the loop reaches a rejected character at `e` |
| SnapshotLexer.TokenizeSuccess | 9cc.c:113-147 | success means every character is whitespace, a digit, `+-*/()<>`, `=` or `!`; every `=` and `!` is the first or second character of a two-character operator the loop scans; every symbol is one of the twelve |
| SnapshotLexer.TwoCharOpFirst | 9cc.c:122-130 | at `==`, `!=`, `<=` or `>=` the scan produces that two-character symbol as one token |
| SnapshotLexer.ScanAgrees | 9cc.c:121-144 | where 9cc.c reads a token, the later scanner reads one at the same place, with the same text or value and the same end, and never an identifier |
| SnapshotLexer.LaterTokenizerAgrees | 9cc.c:107-151 | whenever 9cc.c tokenizes a text, the later tokenizer also succeeds, without identifiers, and yields the same tokens read back as text and value |
| SnapshotLexer.ScanAgreesBack | 9cc.c:121-144 | where the later scanner reads a token that is no identifier and no `=` or `;`, 9cc.c reads one too, ending at the same place |
| SnapshotLexer.EarlierTokenizerAgrees | 9cc.c:107-151 | the converse of `LaterTokenizerAgrees`: when the later tokenizer succeeds with no identifier, `=` or `;`, 9cc.c succeeds with the same tokens |
| SnapshotLexer.FirstFailure | 9cc.c:146 | where 9cc.c fails, the later tokenizer's loop arrives too, and there it either fails as well or reads an identifier, `=` or `;` |
| SnapshotLexer.Cursor.constructor | 9cc.c:380-381 | the cursor starts at the first token |
| SnapshotLexer.Cursor.Consume | 9cc.c:57-64 | returns true and advances by one exactly when the current token is the symbol `op` |
| SnapshotLexer.Cursor.Expect | 9cc.c:68-74 | advances when the current token is `op`, otherwise fails naming `op` and stays |
| SnapshotLexer.Cursor.ExpectNumber | 9cc.c:78-84 | returns the current number's value and advances, otherwise fails and stays |
| SnapshotLexer.Cursor.AtEof | 9cc.c:86-88 | true exactly when the cursor is at the last token |
| SnapshotGrammar.Expr | 9cc.c:215-217 | on success stops at a later token before end-of-input and builds only numbers and operators |
| SnapshotGrammar.Equality | 9cc.c:220-232 | the same, for the equality level |
| SnapshotGrammar.EqualityLoop | 9cc.c:223-231 | the loop stays before end-of-input and keeps the tree free of variables |
| SnapshotGrammar.Relational | 9cc.c:235-251 | the same as `Expr`, for the relational level |
| SnapshotGrammar.RelationalLoop | 9cc.c:238-250 | the loop's bounds, as for `EqualityLoop` |
| SnapshotGrammar.Additive | 9cc.c:254-266 | the same as `Expr`, for the additive level |
| SnapshotGrammar.AdditiveLoop | 9cc.c:257-265 | the loop's bounds, as for `EqualityLoop` |
| SnapshotGrammar.Multiplicative | 9cc.c:269-281 | the same as `Expr`, for the multiplicative level |
| SnapshotGrammar.MultiplicativeLoop | 9cc.c:272-280 | the loop's bounds, as for `EqualityLoop` |
| SnapshotGrammar.Unary | 9cc.c:284-292 | the same as `Expr`, for unary `+` and `-` |
| SnapshotGrammar.Primary | 9cc.c:295-304 | the same as `Expr`, for parentheses and numbers |
| SnapshotParser.Expr | 9cc.c:215-217 | computes `SnapshotGrammar.Expr`: the same tree and cursor, or the same error |
| SnapshotParser.Equality | 9cc.c:220-232 | the loop computes `SnapshotGrammar.Equality` |
| SnapshotParser.RelationalOperator | 9cc.c:239-246 | the four `consume` tests in source order, advancing exactly when one matched |
| SnapshotParser.Relational | 9cc.c:235-251 | the loop computes `SnapshotGrammar.Relational` |
| SnapshotParser.Additive | 9cc.c:254-266 | the loop computes `SnapshotGrammar.Additive` |
| SnapshotParser.Multiplicative | 9cc.c:269-281 | the loop computes `SnapshotGrammar.Multiplicative` |
| SnapshotParser.Unary | 9cc.c:284-292 | computes `SnapshotGrammar.Unary` |
| SnapshotParser.Primary | 9cc.c:295-304 | computes `SnapshotGrammar.Primary` |
| SnapshotLaws.Earlier | 9cc.c:91-104 | a later token stream, read as 9cc.c stores tokens, keeps its length and its single final end-of-input token |
| SnapshotLaws.TokenAgrees | 9cc.c:57-64 | a token is the symbol `op` for 9cc.c exactly when it is for the later parser, and numbers carry the same value |
| SnapshotLaws.ExprAgrees | 9cc.c:215-217 | 9cc.c's `expr` and the later `expr` succeed together, with the same tree and stopping token |
| SnapshotLaws.EqualityAgrees | 9cc.c:220-232 | the same for the equality level |
| SnapshotLaws.EqualityLoopAgrees | 9cc.c:223-231 | the same for the equality loop, from any tree built so far |
| SnapshotLaws.RelationalAgrees | 9cc.c:235-251 | the same for the relational level |
| SnapshotLaws.RelationalLoopAgrees | 9cc.c:238-250 | the same for the relational loop, including the swapped `>` and `>=` |
| SnapshotLaws.AdditiveAgrees | 9cc.c:254-266 | the same for the additive level |
| SnapshotLaws.AdditiveLoopAgrees | 9cc.c:257-265 | the same for the additive loop |
| SnapshotLaws.MultiplicativeAgrees | 9cc.c:269-281 | the same for the multiplicative level |
| SnapshotLaws.MultiplicativeLoopAgrees | 9cc.c:272-280 | the same for the multiplicative loop |
| SnapshotLaws.UnaryAgrees | 9cc.c:284-292 | the same for unary `+` and `-` |
| SnapshotLaws.PrimaryAgrees | 9cc.c:295-304 | the same for parentheses and numbers |
| SnapshotLaws.NoAssignSymbol | 9cc.c:133 | a stream that 9cc.c reads with only its twelve symbols has no `=` token |
| SnapshotLaws.ParsesLikeLater | 9cc.c:215-304 | on every input 9cc.c tokenizes, its `expr` and the later `expr` build the same tree and stop at the same token: same precedence, same associativity, no assignment and no variables |
| Snapshot.Gen | 9cc.c:318-371 | the code printed for a tree starts by pushing a number and leaves exactly one more value on the stack than it found |
| Snapshot.SameEmitter | 9cc.c:318-371 | 9cc.c's `gen` prints the same code as codegen.c's for every tree of numbers and operators |
| Snapshot.Compile | 9cc.c:373-401 | compiled code ends with `pop rax` and leaves the stack depth as it found it; an untokenizable text fails at a rejected character the tokenizer loop reaches |
| Snapshot.Run | 9cc.c:373-401 | `main` (tokenize, `expr`, `gen`, `pop rax`) returns exactly `Compile(src)` |
| Snapshot.CompileCorrect | 9cc.c:394-398 | the compiled program leaves the expression's value in rax and the stack as it found it, and faults only on division by zero |
| Snapshot.NumberAlone | 9cc.c:215-304 | a number followed by a non-symbol is a whole expression, and parsing stops there |
| Snapshot.ScanDigit | 9cc.c:140-143 | a lone digit is scanned as the number of that digit |
| Snapshot.CompileLeadingNumber | 9cc.c:385-398 | a text whose first token is a number and whose second is no symbol compiles to pushing that number and popping it into rax |
| Snapshot.TokenizeOne | 9cc.c:113-150 | `1` tokenizes to the number 1 and end-of-input |
| Snapshot.TokenizeOneTwo | 9cc.c:113-150 | `1 2` tokenizes to the numbers 1 and 2 and end-of-input |
| Snapshot.TrailingTokensIgnored | 9cc.c:385 | `1 2` compiles to the same code as `1`, namely `push 1; pop rax` |

## Left out

- Process plumbing of `main` in main.c and 9cc.c is not modelled:
  - the argument-count check;
  - the fixed text `asm_prologue` prints (codegen.c:8-12) and the frame prologue and
    epilogue lines;
  - main.c's per-statement `pop rax` loop.
  `Snapshot.Compile` keeps only the code after the header and the final `pop rax`.
- `error` and `error_at` are not modelled. They format a message, print a caret and
  exit. The model returns a failure value instead: the later pipeline reports the
  source offset `error_at` would point at; 9cc.c's syntax errors carry no offset, as
  explained above.
- `debug_token` and `debug_node` only print, and are not modelled.
- `calloc`, `malloc`, `strncpy` and the linked-list links are replaced by sequences
  and inductive datatypes. `new_token`, `new_node`, `new_binary`, `new_node_num` and
  `new_node_lvar` become the datatype constructors `Token`, `Binary`, `Assign`, `Num`
  and `LVar` (the last through `Grammar.NewLvar`).
- Number literals use mathematical integers. `strtol` overflow and the truncation
  to `int` are not modelled.
- Runtime arithmetic uses mathematical integers, so 64-bit wrap-around of `add`,
  `sub`, `imul` and `idiv` is not modelled. `push` of a literal that does not fit 32
  bits is not modelled either.
- StackMachine.Step: `idiv` divides the 128-bit value rdx:rax. Only the case where
  rdx is the sign extension of rax is modelled, which is the case `cqo` sets up.
  Any other rdx counts as a fault.
- StackMachine.Step: the flags that `cmp` sets are represented by its two operands.
  `al` is a register of its own rather than the low byte of rax.
- Parser.Parser.Program: the array `code[100]` has a fixed size, and overflowing it
  past 99 statements is not modelled. `code` is a sequence, and its NULL terminator
  is its end.
- `isspace` and `isdigit` are the ASCII (C locale) classes. The input is the
  contents of a C string, so it contains no NUL character.
- Parser.RelationalOperator, Parser.ConsumeEither and
  SnapshotParser.RelationalOperator: the `consume` tests at the head of each loop
  in parser.c, and of the relational loop in 9cc.c, are factored into a helper
  procedure. The tests are the same, in the same order, with the same effect on the
  cursor.
- Tokenizer.Tokenize and SnapshotLexer.Tokenize: the tests after the whitespace
  skip are factored into the function `Scan`, in the same order. A token is
  appended by concatenating a sequence, not by linking through `cur`.
- Address, load and store code for variables and assignment is not modelled,
  because `gen` has none. `Codegen.Gen` requires a tree without variables and
  assignments.
- Grammar.Expr: its contract states position bounds. The tree it builds is stated
  by fixed-shape lemmas only, not for every input.
- Grammar.Assignment: its contract states position bounds. Right associativity and
  the operand of `=` are stated by fixed-shape lemmas only
  (`AssignmentRightAssociative`, `EqualityBindsTighter`, `AssignToNumber`).
- Grammar.Unary: its contract states position bounds. The signs are stated by the
  fixed-shape lemma `UnarySigns` only.
- Grammar.Equality, Grammar.Relational, Grammar.Additive, Grammar.Multiplicative and
  their loops: their contracts state position bounds. The tree for every input is
  stated by `GrammarLaws.LevelFoldsLeft` and `GrammarLaws.LoopFoldsLeft` instead.
