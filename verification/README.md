# ncc in Dafny

A model of ncc, a small compiler for a subset of C, in its first two
generations.

- **`ncc.c`** is the older, single-file compiler. It reads one command-line
  argument and tokenizes it. It parses one arithmetic or comparison
  expression by recursive descent. It prints x86-64 assembly that computes the
  expression on the machine stack and returns its value from `main` in `rax`.
- **`tokenize.c` and `parse.c`** are the newer front end. It adds `;`, `=`,
  identifiers, a program of `;`-terminated statements and a right-associative
  assignment. It also adds one-character local variables at the fixed frame
  offset `(c - 'a' + 1) * 8`. For `a` to `z` that is a slot below the
  frame pointer. The tokenizer also accepts `A` to `Z` and `_` as names,
  and the same formula gives them negative offsets, which lie above the
  frame pointer.

The two generations redefine the same C names, so they are modelled as two
separate families of modules:

| file | module | what it holds |
|---|---|---|
| `seqs.dfy` | `Seqs` | where the pieces of a concatenation sit in a sequence, shared by both round-trip proofs |
| `results.dfy` | `Results` | `Result`/`Option`; `error_at` becomes `Err(Error(pos, msg))`, with `pos` the offset of the offending character |
| `chars.dfy` | `Chars` | NUL-free input strings, `isspace`/`isdigit`, the digit runs `strtol` reads, `is_startwith`, `printf("%d")` |
| `ncc.dfy` | `Ncc` | the older tokenizer, parser, `gen` and driver |
| `ncc_machine.dfy` | `NccMachine` | an interpreter for the emitted instructions, a reference evaluator `Eval`, and the correctness of `gen` |
| `ncc_grammar.dfy` | `NccGrammar` | precedence, associativity and unary operators of the older parser, and its round trip |
| `ncc_props.dfy` | `NccProps` | the older tokenizer computes the unique tiling of the input; its alphabet; concrete inputs |
| `ncc_examples.dfy` | `NccExamples` | whole runs of the older `main`: trailing tokens ignored, `10-2-3` returns 5 |
| `tokenize.dfy` | `Tokenizer` | the newer tokenizer |
| `tokenize_props.dfy` | `TokenizerProps` | unique tiling, order, coverage, greedy identifiers, concrete inputs |
| `parse.dfy` | `Parser` | the newer parser, including `program` and the 100-slot `code` array |
| `parse_grammar.dfy` | `ParserGrammar` | precedence, left-associative binary levels, right-associative `=` |
| `parse_props.dfy` | `ParserProps` | variable offsets, rejected inputs, concrete statements |
| `parse_roundtrip.dfy` | `ParserRoundTrip` | expressions and whole programs read back from a parenthesised rendering; overflow of `code` |

How the C code maps onto the model:

- **Token lists.** The linked token list becomes a `seq<Token>`. A token
  records its kind, its value, its offset `pos` in the input, and the `len`
  characters at `str` as `text`.
- **Parser cursor.** The global cursor `token` becomes an index threaded
  through pure, mutually recursive parse functions. Each function returns the
  node and the index after it. Termination is by the pair (tokens left,
  grammar level).
- **Tokenizer.** It is specified by a predicate `Tiles`: the input is cut
  into lexemes and whitespace, followed by exactly one end-of-input token at
  the end of the input. The tokenizer succeeds exactly when such a tiling
  exists, and it then returns that tiling, which is unique.
- **Code generator.** `gen` returns the list of instructions it prints, and
  `Lines` is the text `printf` writes for them. An interpreter `Run` gives
  those instructions a meaning, so `gen` can be proved correct against
  `Eval`.

## Model

| member | source | states |
|---|---|---|
| Chars.DigitRunEnd | ncc.c:164-169 | the end of the digit run `strtol` reads: every character before it is a digit, and the character at it is not (or it is the end of the input) |
| Chars.StartsWithInBounds | ncc.c:126-129 | `is_startwith` holds exactly when the literal lies wholly inside the input at that offset. `memcmp` compares all `strlen(q)` bytes whatever they are. The comparison is still faithful because `tokenize` only passes two-character literals at a `p` that is not the NUL, so the last byte it can read is the terminator. The model reads that terminator as `'\0'` at index `|s|` (`Chars.At`) |
| Chars.TwoCharOpInBounds | ncc.c:149-150 | a two-character operator starts at `p` exactly when one of `== != <= >=` occupies `s[p..p+2]`, and its first character is one of `=!<>` |
| Chars.DecimalValueOfNatText | ncc.c:319 | reading back the digits that `printf("%d")` writes for a natural number gives that number |
| Ncc.Lex | ncc.c:139-173 | success tiles the rest of the input with lexemes and whitespace, ending in one end-of-input token at the end; failure reports an unlexable character at or after the cursor, with "expected a number" |
| Ncc.Emit | ncc.c:152-169 | after a lexeme, success gives a tiling that starts with that token; failure lies beyond the lexeme |
| Ncc.Tokenize | ncc.c:132-178 | a successful result tiles the whole input; an error points at a character that no rule accepts |
| Ncc.EndAfter | ncc.c:152-169 | every lexeme consumes at least one character and stays inside the input |
| Ncc.Consume | ncc.c:80-88 | advances by one exactly when the current token is the punctuator `op`, and otherwise leaves the cursor where it was; never steps past the end token |
| Ncc.Expect | ncc.c:91-98 | succeeds exactly on the punctuator `op` and advances past it; otherwise fails at the current token's position |
| Ncc.ExpectNumber | ncc.c:101-108 | succeeds exactly on a number token, yielding its value and advancing; otherwise fails there with "expected a number" |
| Ncc.ParsePrimary | ncc.c:303-313 | a successful parse consumes at least one token and stops before the end token (the same holds for every level from `expr` down) |
| Ncc.LinesAppend | ncc.c:315-377 | the text of two instruction sequences printed one after the other is the text of their concatenation, so printing as `gen` goes equals printing the list |
| NccMachine.TruncDiv | ncc.c:340-342 | `idiv`'s quotient: non-negative when the operands' signs agree and non-positive when they differ, with magnitude the floor of \|a\|/\|b\| (truncation toward zero) |
| NccMachine.RunAppend | ncc.c:323-327 | running two instruction sequences in a row is running the first, then the second on the state it leaves, and a fault in the first stops the run |
| NccMachine.SetAlThenZeroExtend | ncc.c:346-347 | after `setCC al`, `movzb rax, al` leaves exactly 1 or 0, whatever `rax` held before |
| NccMachine.RunCompare | ncc.c:344-373 | a `cmp`, a `setCC` and a `movzb` leave 1 in `rax` when the condition holds of the compared pair and 0 otherwise, with the stack untouched |
| NccMachine.DivideValue | ncc.c:340-342 | `cqo; idiv rdi` faults exactly on a zero divisor and otherwise leaves the truncated quotient in `rax` |
| NccMachine.OperateValue | ncc.c:329-374 | the operator's instructions fault exactly when the operation traps, and otherwise compute `Apply(op, rax, rdi)` into `rax` without touching the stack; the swapped `cmp rdi, rax` makes `>=` and `>` come out right |
| NccMachine.OperateCorrect | ncc.c:326-376 | with the two operand values on top of the stack, the two pops, the operator and `push rax` replace them by the operation's value, or fault exactly when it traps |
| NccMachine.GenCorrect | ncc.c:315-377 | running `gen(e)` faults exactly when evaluating `e` divides by zero, and otherwise leaves the stack it started from with `Eval(e)` pushed on top |
| NccMachine.CompiledCode | ncc.c:388-401 | the driver's code is `gen` of the parsed expression followed by `pop rax; ret` |
| NccMachine.RunMain | ncc.c:396-401 | from any machine state, whatever its registers hold, `gen(e); pop rax; ret` returns with `Eval(e)` in `rax` and the caller's stack unchanged, or faults exactly when evaluation does |
| NccMachine.CompileCorrect | ncc.c:387-401 | whenever the input tokenizes and an expression parses from the first token, the compiled program, entered in any machine state, returns with the value of that expression in `rax` and the caller's stack unchanged, or faults exactly when it divides by zero |
| NccGrammar.Level | ncc.c:225-290 | every binary operator belongs to one of the four loop levels |
| NccGrammar.OpTextLevel | ncc.c:225-290 | each operator's spelling is recognised by exactly the loop of its own level |
| NccGrammar.LevelUnfold | ncc.c:225-290 | each level parses the next tighter level first and then runs its own operator loop |
| NccGrammar.TailStop | ncc.c:235-236 | an operator loop stops, without consuming, at any token that is not one of its own operators |
| NccGrammar.TailStep | ncc.c:231-234 | an operator loop consumes its operator, parses the next tighter level, and continues with the combined node on the left |
| NccGrammar.LevelAtom | ncc.c:218-313 | a primary followed by a token that is no operator of levels 1 to `level` parses, at that level, to the primary alone |
| NccGrammar.LevelBinary | ncc.c:225-290 | `a op b` parses at any level at or above `op`'s level to `Bin(op, a, b)` |
| NccGrammar.LevelTernary | ncc.c:225-290 | `a op1 b op2 c` parses to the grouping that precedence and left associativity dictate |
| NccGrammar.TernaryOneLevel | ncc.c:261-274 | two operators of the same level group to the left: `a-b-c` is `(a-b)-c` |
| NccGrammar.TernaryTighterRight | ncc.c:225-290 | a tighter operator on the right binds first: `a+b*c` is `a+(b*c)` |
| NccGrammar.TernaryTighterLeft | ncc.c:225-290 | a tighter operator on the left binds first: `a*b+c` is `(a*b)+c` |
| NccGrammar.LeftChainLast | ncc.c:261-274 | left association for chains of any length: the last operator of a chain is the root, with the rest of the chain as its left operand |
| NccGrammar.TailChain | ncc.c:231-236 | an operator loop run over any number of operators of its level consumes them all and builds the left-grouped tree |
| NccGrammar.LevelChain | ncc.c:225-290 | a level parses a primary followed by any chain of its own operators, such as `a-b-c-d`, to `((a-b)-c)-d` |
| NccGrammar.LevelLift | ncc.c:218-290 | what a level parses, when followed by no operator of a looser level, is what every looser level parses |
| NccGrammar.ExprTernary | ncc.c:218-290 | `expr` parses any two-operator expression of primaries to the precedence-dictated tree |
| NccGrammar.ExprChain | ncc.c:218-290 | `expr` groups a chain of any length of one level's operators to the left |
| NccGrammar.UnarySigns | ncc.c:293-300 | unary `-x` parses to `0 - x` and unary `+x` to `x`, for any primary `x` |
| NccGrammar.LevelErr | ncc.c:218-300 | a failure at the start of an expression is passed up unchanged through every level |
| NccGrammar.DoubleSignRejected | ncc.c:293-312 | unary applies to a primary only, so two signs in a row fail with "expected a number" at the second sign |
| NccGrammar.PrimaryUnparse | ncc.c:303-313 | the rendering of any tree, wherever it sits in a token list, parses as a primary back to the tree |
| NccGrammar.ParensBinary | ncc.c:305-310 | `( a op b )` with primaries `a` and `b` is a primary that parses to `Bin(op, a, b)` |
| NccGrammar.PrimaryParens | ncc.c:305-310 | `(` expression `)` is a primary that parses to the inner expression |
| NccGrammar.ParseUnparse | ncc.c:218-313 | `expr` inverts the parenthesised rendering of every tree and stops exactly at its end |
| NccProps.LexemeNotSpace | ncc.c:142-146 | no lexeme starts with whitespace |
| NccProps.TilesTail | ncc.c:139-170 | dropping the first token of a tiling leaves a tiling of the input after it |
| NccProps.LexStep | ncc.c:149-170 | at a lexeme's start, the loop emits exactly that lexeme and continues after it |
| NccProps.LexError | ncc.c:172 | the loop fails, with "expected a number", at the first character that no rule accepts |
| NccProps.TilesAtEnd | ncc.c:176 | the only tiling of the empty remainder is the single end-of-input token |
| NccProps.LexComplete | ncc.c:139-176 | whenever a tiling of the input exists, the tokenizer returns exactly that tiling |
| NccProps.TilesSkipSpace | ncc.c:142-146 | whitespace before the first token is skipped without changing the result |
| NccProps.TilesHead | ncc.c:149-170 | a tiling that starts at the cursor begins with a lexeme, which the loop emits |
| NccProps.EmitOk | ncc.c:152-169 | a lexeme followed by the tokens of the rest is what the loop builds |
| NccProps.TokenizeIffTiles | ncc.c:132-178 | `tokenize` returns `ts` if and only if `ts` tiles the input, so the tiling is unique |
| NccProps.TokenizeFailsIffNoTiling | ncc.c:172 | `tokenize` fails if and only if no tiling of the input exists |
| NccProps.WhitespaceOnly | ncc.c:139-146 | whitespace-only input (including the empty input) yields exactly one end-of-input token |
| NccProps.LexAlphabet | ncc.c:139-173 | input that tokenizes contains only whitespace, digits, `+-*/()<>` and the characters of `== != <= >=` |
| NccProps.NextStart | ncc.c:142-170 | each step of a successful loop advances the cursor over alphabet characters to a point from which the loop also succeeds |
| NccProps.TwoCharOpAlphabet | ncc.c:149-155 | a two-character operator consists of alphabet characters, and the loop continues after both |
| NccProps.OneCharNext | ncc.c:158-162 | a one-character operator is consumed alone, and the loop continues after it |
| NccProps.DigitNext | ncc.c:164-172 | at any other non-space character, a successful loop found a digit and continues after its whole run |
| NccProps.AlphabetFrom | ncc.c:139-173 | alphabet characters on `[p, q)` and on `[q, end)` cover `[p, end)` |
| NccProps.SimpleInputLexes | ncc.c:139-170 | input made only of whitespace, digits and one-character operators always tokenizes |
| NccProps.LessEqualIsOneToken | ncc.c:149-155 | `<=` is one reserved token of length 2, not `<` then `=` |
| NccProps.SemicolonRejected | ncc.c:158-172 | `;` is not a token of this generation: `1;` fails at offset 1 |
| NccProps.LetterAndAssignRejected | ncc.c:158-172 | letters and a lone `=` are rejected at offset 0 |
| NccExamples.SmallDecimal | ncc.c:168 | the value `strtol` reads from a one- or two-digit literal |
| NccExamples.OneTwoTokens | ncc.c:139-176 | `1 2` tokenizes to two numbers and the end token |
| NccExamples.TrailingTokensIgnored | ncc.c:388-389 | the driver parses one expression and ignores what follows: `1 2` compiles to `push 1; pop rax; ret` |
| NccExamples.ReturnOneText | ncc.c:319 | the text printed for `push 1; pop rax; ret` |
| NccExamples.TrailingTokensOutput | ncc.c:387-401 | the exact text `main` prints for the input `1 2` |
| NccExamples.SubtractionGroupsLeft | ncc.c:261-274 | `10-2-3` tokenizes, parses as `(10-2)-3`, compiles, and returns 5 in `rax` from any entry state |
| Tokenizer.IdentRunEnd | tokenize.c:45-49 | where the identifier loop stops: identifier characters up to it, and none at it |
| Tokenizer.Lex | tokenize.c:20-63 | success tiles the rest of the input with lexemes and whitespace and one end token at the end; failure reports an unlexable character at or after the cursor, with "tokenizer: Invalid Token" |
| Tokenizer.Emit | tokenize.c:28-59 | after a lexeme, success gives a tiling that starts with that token; failure lies beyond the lexeme |
| Tokenizer.EndAfter | tokenize.c:28-59 | every lexeme consumes at least one character and stays inside the input |
| Tokenizer.IdentLexeme | tokenize.c:44-53 | the identifier the loop reads at an identifier start is a lexeme |
| Tokenizer.IdentRunLexeme | tokenize.c:44-53 | a maximal run of identifier characters after an identifier start is an identifier lexeme |
| Tokenizer.Tokenize | tokenize.c:14-68 | a successful result tiles the whole input; an error points at a character that no rule accepts |
| TokenizerProps.LexemeNotSpace | tokenize.c:20-25 | no lexeme starts with whitespace |
| TokenizerProps.LexStep | tokenize.c:27-60 | at a lexeme's start, the loop emits exactly that lexeme and continues after it |
| TokenizerProps.LexReservedStep | tokenize.c:27-39 | the same for punctuators: two-character ones are tried first |
| TokenizerProps.LexIdentStep | tokenize.c:44-53 | the same for identifiers |
| TokenizerProps.IdentRunMaximal | tokenize.c:44-53 | an identifier lexeme is the whole run of identifier characters at its start |
| TokenizerProps.IdentRunFrom | tokenize.c:45-49 | a run of identifier characters that ends at a non-identifier character is where the loop stops |
| TokenizerProps.LexError | tokenize.c:62 | the loop fails at the first character that no rule accepts, with "tokenizer: Invalid Token" |
| TokenizerProps.TilesTail | tokenize.c:20-63 | dropping the first token of a tiling leaves a tiling of the input after it |
| TokenizerProps.TilesAtEnd | tokenize.c:66 | the only tiling of the empty remainder is the single end-of-input token |
| TokenizerProps.LexComplete | tokenize.c:20-66 | whenever a tiling of the input exists, the tokenizer returns exactly that tiling |
| TokenizerProps.TilesSkipSpace | tokenize.c:22-25 | whitespace before the first token is skipped without changing the result |
| TokenizerProps.TilesHead | tokenize.c:27-60 | a tiling that starts at the cursor begins with a lexeme, which the loop emits |
| TokenizerProps.EmitOk | tokenize.c:94-101 | a lexeme followed by the tokens of the rest is what the loop links up |
| TokenizerProps.TokenizeIffTiles | tokenize.c:14-68 | `tokenize` returns `ts` if and only if `ts` tiles the input, so the tiling is unique |
| TokenizerProps.TokenizeFailsIffNoTiling | tokenize.c:62 | `tokenize` fails if and only if no tiling of the input exists |
| TokenizerProps.WhitespaceOnly | tokenize.c:20-25 | whitespace-only input yields exactly one end-of-input token, at the end |
| TokenizerProps.TilesOrdered | tokenize.c:20-66 | token start offsets strictly increase, each token's span ends inside the input and no later than where the next token starts, so spans never overlap |
| TokenizerProps.TilesCover | tokenize.c:20-66 | every non-whitespace character of a tiled input lies inside some token's span |
| TokenizerProps.IdentifierIsGreedy | tokenize.c:44-53 | `abc1_x` is one identifier token of length 6 |
| TokenizerProps.GreaterEqualIsOneToken | tokenize.c:28-33 | `>=` is one reserved token of length 2 |
| TokenizerProps.SingleIdentLexeme | tokenize.c:44-53 | a name character followed by no identifier character is an identifier token of length 1 |
| TokenizerProps.SingleOpLexeme | tokenize.c:28-39 | a one-character punctuator not followed by `=` is a punctuator token of its own, since every two-character punctuator ends in `=` |
| TokenizerProps.SingleDigitLexeme | tokenize.c:56-60 | a digit followed by no digit is a number token holding that digit's value |
| TokenizerProps.LexSuffix | tokenize.c:20-63 | at a lexeme, the loop returns that token followed by whatever it returns from the lexeme's end |
| TokenizerProps.BangAndAtAreRejected | tokenize.c:36-62 | a lone `!` and `@` are invalid tokens at offset 0 |
| Parser.NewNodeLvar | parse.c:159-164 | a variable node's offset is a multiple of 8 |
| Parser.Consume | parse.c:179-185 | advances by one exactly when the current token is a punctuator spelled `op` (so `>` does not match `>=`), and otherwise leaves the cursor unchanged; never steps past the end token |
| Parser.ConsumeIdent | parse.c:187-194 | takes the current token exactly when it is an identifier of length 1, and otherwise leaves the cursor unchanged |
| Parser.Expect | parse.c:197-202 | succeeds exactly on the punctuator `op` and advances; otherwise fails at the current token with "expected 'op'" |
| Parser.ExpectNumber | parse.c:205-210 | succeeds exactly on a number token, yielding its value; otherwise fails with "expected a number" |
| Parser.Program | parse.c:45-49 | a successful program holds fewer than 100 statements, leaving a slot for the terminating NULL |
| Parser.Statements | parse.c:46-48 | the statements already stored are kept in order, and a successful loop stores fewer than 100 in all |
| Parser.Statement | parse.c:52-56 | a statement consumes at least one token and ends with `;` |
| Parser.ParsePrimary | parse.c:136-149 | a successful parse consumes at least one token and stops before the end token (the same holds for every level from `expr` down) |
| ParserGrammar.Level | parse.c:69-126 | every binary operator belongs to one of the four loop levels |
| ParserGrammar.OpTextLevel | parse.c:69-126 | each operator's spelling is recognised by exactly the loop of its own level |
| ParserGrammar.LevelUnfold | parse.c:69-126 | each level parses the next tighter level first and then runs its own operator loop |
| ParserGrammar.TailStop | parse.c:77-78 | an operator loop stops, without consuming, at any token that is not one of its own operators |
| ParserGrammar.TailStep | parse.c:73-76 | an operator loop consumes its operator, parses the next tighter level, and continues with the combined node on the left |
| ParserGrammar.NumberAtom | parse.c:148 | a number token is a primary |
| ParserGrammar.LevelAtom | parse.c:69-149 | a primary followed by no operator of levels 1 to `level` parses, at that level, to the primary alone |
| ParserGrammar.LevelBinary | parse.c:69-126 | `a op b` parses at any level at or above `op`'s level to `Bin(op, a, b)` |
| ParserGrammar.LevelTernary | parse.c:69-126 | `a op1 b op2 c` parses to the grouping that precedence and left associativity dictate |
| ParserGrammar.TernaryOneLevel | parse.c:69-126 | two operators of the same level group to the left |
| ParserGrammar.TernaryTighterRight | parse.c:69-126 | a tighter operator on the right binds first |
| ParserGrammar.TernaryTighterLeft | parse.c:69-126 | a tighter operator on the left binds first |
| ParserGrammar.AssignStop | parse.c:62-65 | without a following `=`, `assign` is its `equality` |
| ParserGrammar.AssignStep | parse.c:62-65 | with a following `=`, `assign` makes the rest of the expression the right-hand side of an assignment |
| ParserGrammar.ExprAtom | parse.c:59-66 | a primary followed by a token that ends an expression is the whole expression |
| ParserGrammar.AssignRight | parse.c:62-66 | assignment is right-associative: `a = b = c` is `a = (b = c)` |
| ParserGrammar.LeftChainLast | parse.c:101-112 | left association for chains of any length: the last operator of a chain is the root, with the rest of the chain as its left operand |
| ParserGrammar.TailChain | parse.c:73-78 | an operator loop run over any number of operators of its level consumes them all and builds the left-grouped tree |
| ParserGrammar.LevelChain | parse.c:69-126 | a level parses a primary followed by any chain of its own operators to the left-grouped tree |
| ParserGrammar.LevelLift | parse.c:69-126 | what a level parses, when followed by no operator of a looser level, is what every looser level parses |
| ParserGrammar.ExprTernary | parse.c:59-126 | `expr` parses any two-operator expression of primaries to the precedence-dictated tree |
| ParserGrammar.ExprChain | parse.c:59-126 | `expr` groups a chain of any length of one level's operators to the left when nothing after it continues the expression |
| ParserProps.LetterOffsets | parse.c:145 | `a` lives at offset 8 and `z` at 208; each lower-case letter has its own 8-byte slot below the frame pointer |
| ParserProps.OtherNameOffsets | parse.c:143-146 | the other one-character names the tokenizer accepts, `A` to `Z` and `_`, get negative offsets from -248 to -8 (`A` -248, `Z` -48, `_` -8), above the frame pointer and not below it |
| ParserProps.VarOffsetInjective | parse.c:145 | the same name always gives the same offset, and different names give different offsets |
| ParserProps.PrimaryVariable | parse.c:143-146 | a one-character identifier parses to the variable its character names |
| ParserProps.LevelErr | parse.c:69-133 | a failure of `unary` at the start of an expression is passed up unchanged through every level |
| ParserProps.ExprErr | parse.c:59-133 | the same failure is the failure of `expr` |
| ParserProps.LongIdentifierRejected | parse.c:187-194 | an identifier longer than one character falls through to `expect_number` and fails with "expected a number" |
| ParserProps.UnarySigns | parse.c:129-133 | `-x` parses to `0 - x` and `+x` to `x`, for any primary `x` |
| ParserProps.DoubleSignRejected | parse.c:129-133 | `--1` and the like fail with "expected a number" at the second sign |
| ParserProps.ChainTokensOfText | tokenize.c:14-68 | `tokenize` turns the text `a=b=3;` into six one-character tokens and the end token |
| ParserProps.ChainedAssignment | parse.c:62-66 | the text `a=b=3;` tokenizes and is the one-statement program `a = (b = 3)`, with `a` at 8 and `b` at 16 |
| ParserProps.NumberAssignTokensOfText | tokenize.c:14-68 | `tokenize` turns the text `1=2;` into four one-character tokens and the end token |
| ParserProps.AssignToNumberAccepted | parse.c:63-64 | nothing checks the left side of `=`: the text `1=2;` tokenizes and is a one-statement program |
| ParserProps.NumberAssignStatement | parse.c:52-66 | `1=2;` is the statement `Assign(Num 1, Num 2)` |
| ParserProps.ExprNotAtEof | parse.c:205-206 | no expression starts at the end token: `primary` fails there with "expected a number" |
| ParserProps.StatementNeedsSemicolon | parse.c:52-56 | an expression followed by anything but `;` fails at that token with "expected ';'", and so does a program starting with it |
| ParserProps.EmptyProgram | parse.c:45-49 | a program with no tokens before the end stores no statement |
| ParserRoundTrip.VarName | parse.c:145 | the name recovered from a variable offset maps back to that offset |
| ParserRoundTrip.VarNameOfOffset | parse.c:145 | every identifier start names exactly one offset, and its name is recovered from it |
| ParserRoundTrip.PrimaryParens | parse.c:137-141 | `(` expression `)` is a primary that parses to the inner expression |
| ParserRoundTrip.ParensBinary | parse.c:137-141 | `( a op b )` with primaries `a` and `b` is a primary that parses to `Bin(op, a, b)` |
| ParserRoundTrip.ParensAssign | parse.c:137-141 | `( a = b )` with primaries `a` and `b` is a primary that parses to `Assign(a, b)` |
| ParserRoundTrip.VarAtom | parse.c:143-146 | a one-character identifier is a primary: the variable its name gives |
| ParserRoundTrip.PrimaryUnparse | parse.c:136-149 | the rendering of any tree, wherever it sits, parses as a primary back to the tree |
| ParserRoundTrip.InfixUnparse | parse.c:137-141 | the rendering of a binary or assignment node is a primary once its operands' renderings are |
| ParserRoundTrip.ParseUnparse | parse.c:59-149 | `expr` inverts the parenthesised rendering of every tree and stops exactly at its end |
| ParserRoundTrip.StatementUnparse | parse.c:52-56 | a rendered tree followed by `;` is a statement |
| ParserRoundTrip.StatementsUnparse | parse.c:45-49 | the statement loop reads back a rendered program, and fails with an overflow as soon as `code` would be written past its end |
| ParserRoundTrip.StatementsAtEof | parse.c:47-48 | at the end token the loop stops; writing the NULL overflows a full `code` |
| ParserRoundTrip.StatementsStep | parse.c:47 | away from the end token, a parsed statement is stored unless `code` is already full |
| ParserRoundTrip.ProgramUnparse | parse.c:41-49 | `program` reads back any rendered program of at most 99 statements and overflows on any longer one |

## Left out

- I/O: `argv` handling, the usage error and the `printf` calls are out of the model. `main`'s output is modelled as a string, and its input as a NUL-free string.
- `error_at`/`error` formatting and `exit` (tokenize.c:71-91, ncc.c:55-77) are out of the model: every failure is an `Err` carrying the offset of the offending character and the message.
- Ncc.Expect: ncc.c:96 passes the string `op` to a `%c` conversion, which prints an unspecified character. The model's message spells out `op`, the evidently intended text.
- The bytes after the NUL: `Chars.At` reads `'\0'` at index `|s|` and beyond, where C would read the terminator and then memory past it. No operation of either tokenizer reads past the terminator, so no result depends on it.
- Names `A` to `Z` and `_` (parse.c:145): their negative offsets are computed as the C computes them. The stack memory above the frame pointer that they would address is out of the model, because code generation for variables is out.
- NccMachine.CompileCorrect: the process exit status is the low 8 bits of the value `main` returns (so `0-1` exits with 255 and `1000` with 232). The model stops at the value in `rax`, because `exit` and the operating system are out of the model.
- `strtol` into an `int`, and 64-bit `rax`/stack slots: values are unbounded integers. There is no truncation of large literals and no wrap-around of `+`, `-` and `*`.
- NccMachine.GenCorrect: an `idiv` by zero is a fault (`None`) of the machine and of `Eval`, rather than a hardware trap. `idiv` is only modelled after `cqo`, which is the only way `gen` emits it.
- Code generation for the newer generation (`ND_ASSIGN`, `ND_LVAR`) is out: `gen` is only declared (ncc.h:68), and codegen.c is not part of this model.
- main.c is out of the model. It calls a `parse()` (main.c:17) that no shown file defines. `Parser.Parse` composes `tokenize` with `program` (parse.c:45) instead.
- Parser.Program: the C loop writes `code[100]`, one past the end of the array, as soon as 100 statements are stored: the 101st statement or the NULL goes there. The model turns that write into the error "too many statements" at the token where it happens. That message is the model's own.
- Linked lists, `calloc` and the `str` pointer are out: tokens are a `seq<Token>` with an offset, and trees are immutable datatypes.
- Characters are Dafny `char`s, not bytes. `isspace` and `isdigit` are the C locale's ASCII classes.
- The repository's later design is not in these files and is not modelled: a first-seen variable table, `return`, `if`, and lvalue code generation. The model follows the code as it stands: offsets come from the letter, and at most 99 statements fit.
- Ncc.ParsePrimary: the parse functions' own contracts state only progress. What they build is stated by the grammar lemmas (`LevelBinary`, `LevelTernary`, `LevelChain`, `PrimaryParens`, `ParseUnparse` and the others), to keep the mutually recursive functions cheap to verify.
- Parser.ParsePrimary: its own contract states only progress, for the same reason. What it builds is stated by `ParserProps.PrimaryVariable` (one-character names), `ParserGrammar.NumberAtom` (numbers), `ParserRoundTrip.PrimaryParens` (parenthesised expressions), `ParserProps.LongIdentifierRejected` (longer names) and `ParserProps.ExprNotAtEof` (the end token).
