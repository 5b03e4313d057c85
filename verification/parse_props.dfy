/** Properties of parse.c beyond precedence: where variables live, what
    unary `+`/`-` build, which inputs `primary` rejects, and concrete
    statements showing assignment and its missing lvalue check.
 */
module ParserProps {
  import opened Chars
  import opened Results
  import opened Tokenizer
  import opened TokenizerProps
  import opened Parser
  import opened ParserGrammar

  //
  // Variables
  //

  /** `a` lives 8 bytes below the frame pointer and `z` 208; the 26
      lower-case letters take the 8-byte slots 1 to 26 in order (the other
      one-character names are covered by `OtherNameOffsets`). */
  lemma LetterOffsets(c: char)
    requires 'a' <= c <= 'z'
    ensures VarOffset(c) == 8 * ((c as int) - ('a' as int) + 1)
    ensures 8 <= VarOffset(c) <= 208
    ensures VarOffset('a') == 8 && VarOffset('z') == 208
  {
  }

  /** Only the lower-case letters get a slot below the frame pointer. The
      other one-character identifiers the tokenizer accepts, `A` to `Z` and
      `_`, are counted from `a` all the same and get negative offsets:
      `A` is -248, `Z` -48 and `_` -8, that is, places above the frame
      pointer rather than below it. */
  lemma OtherNameOffsets(c: char)
    requires IsIdentStart(c) && !('a' <= c <= 'z')
    ensures -248 <= VarOffset(c) <= -8
    ensures VarOffset('A') == -248 && VarOffset('Z') == -48 && VarOffset('_') == -8
  {
  }

  /** The same name always gives the same offset and different names give
      different offsets. */
  lemma VarOffsetInjective(c1: char, c2: char)
    ensures VarOffset(c1) == VarOffset(c2) <==> c1 == c2
  {
  }

  /** A one-character identifier is the variable its letter names. */
  lemma PrimaryVariable(ts: seq<Token>, i: nat)
    requires Valid(ts) && i < |ts| && ts[i].kind == Ident && |ts[i].text| == 1
    ensures ParsePrimary(ts, i) == Ok(Parsed(LVar(VarOffset(ts[i].text[0])), i + 1))
  {
  }

  //
  // Errors reaching `expr` unchanged
  //

  /** A failure of `unary` at the start of an expression is the failure of
      every level above it, and of `expr`. */
  lemma {:induction false} LevelErr(level: nat, ts: seq<Token>, i: nat)
    requires level <= 4 && Valid(ts) && i < |ts| && ParseLevel(0, ts, i).Err?
    ensures ParseLevel(level, ts, i) == ParseLevel(0, ts, i)
  {
    if level > 0 {
      LevelErr(level - 1, ts, i);
      LevelUnfold(level, ts, i);
    }
  }

  lemma ExprErr(ts: seq<Token>, i: nat)
    requires Valid(ts) && i < |ts| && ParseUnary(ts, i).Err?
    ensures ParseExpr(ts, i) == ParseUnary(ts, i)
  {
    LevelErr(4, ts, i);
  }

  /** An identifier longer than one character is not a variable: `primary`
      falls through to `expect_number`, and the expression fails there. */
  lemma LongIdentifierRejected(ts: seq<Token>, i: nat)
    requires Valid(ts) && i < |ts| && ts[i].kind == Ident && |ts[i].text| != 1
    ensures ParseExpr(ts, i) == Err(Error(ts[i].pos, "expected a number"))
  {
    assert ParseUnary(ts, i) == Err(Error(ts[i].pos, "expected a number"));
    ExprErr(ts, i);
  }

  //
  // Unary operators
  //

  /** `- x` is `0 - x` and `+ x` is `x`, for any primary `x`. */
  lemma UnarySigns(ts: seq<Token>, i: nat, e: Node, k: nat)
    requires i < |ts| && ts[i].kind == Reserved && Atom(ts, i + 1, e, k)
    ensures ts[i].text == "-" ==> ParseUnary(ts, i) == Ok(Parsed(Bin(Sub, Num(0), e), k))
    ensures ts[i].text == "+" ==> ParseUnary(ts, i) == Ok(Parsed(e, k))
  {
  }

  /** Unary operators apply to a primary only, so a second sign is an
      error: `--1` fails with "expected a number" at the second `-`. */
  lemma DoubleSignRejected(ts: seq<Token>, i: nat)
    requires Valid(ts) && i + 1 < |ts|
    requires ts[i].kind == Reserved && (ts[i].text == "+" || ts[i].text == "-")
    requires ts[i + 1].kind == Reserved && (ts[i + 1].text == "+" || ts[i + 1].text == "-")
    ensures ParseExpr(ts, i) == Err(Error(ts[i + 1].pos, "expected a number"))
  {
    assert ParsePrimary(ts, i + 1) == Err(Error(ts[i + 1].pos, "expected a number"));
    ExprErr(ts, i);
  }

  //
  // Statements
  //

  function Tok(kind: TokenKind, val: int, pos: nat, text: string): Token
  {
    Token(kind, val, pos, text)
  }

  /** The tokens of `a=b=3;`. */
  const ChainTokens: seq<Token> := [
    Tok(Ident, 0, 0, "a"), Tok(Reserved, 0, 1, "="), Tok(Ident, 0, 2, "b"),
    Tok(Reserved, 0, 3, "="), Tok(Number, 3, 4, ""), Tok(Reserved, 0, 5, ";"), Tok(Eof, 0, 6, "")]

  const ChainText: CString := "a=b=3;"

  /** Every character of `a=b=3;` is a token of its own. */
  lemma ChainLexeme(k: nat)
    requires k < 6
    ensures ChainTokens[k].pos == k
    ensures Lexeme(ChainText, ChainTokens[k]) && End(ChainText, ChainTokens[k]) == k + 1
  {
    var s := ChainText;
    if k == 0 || k == 2 {
      SingleIdentLexeme(s, k);
    } else if k == 4 {
      SingleDigitLexeme(s, k);
    } else {
      SingleOpLexeme(s, k);
    }
  }

  /** The loop returns the tokens of `a=b=3;` from each character on. */
  lemma {:induction false} ChainFrom(k: nat)
    requires k <= 6
    ensures Lex(ChainText, k) == Ok(ChainTokens[k..])
    decreases 6 - k
  {
    if k < 6 {
      ChainFrom(k + 1);
      ChainLexeme(k);
      LexSuffix(ChainText, ChainTokens, k);
    }
  }

  /** `ChainTokens` is what `tokenize` makes of `a=b=3;`. */
  lemma ChainTokensOfText()
    ensures Tokenize(ChainText) == Ok(ChainTokens)
  {
    ChainFrom(0);
  }

  /** `a=b=3;` assigns to `b` first: it is `a = (b = 3)`, a statement of
      five tokens and the whole program. */
  lemma ChainedAssignment()
    ensures Tokenize(ChainText) == Ok(ChainTokens)
    ensures Valid(ChainTokens)
    ensures ParseExpr(ChainTokens, 0) == Ok(Parsed(Assign(LVar(8), Assign(LVar(16), Num(3))), 5))
    ensures Program(ChainTokens) == Ok([Assign(LVar(8), Assign(LVar(16), Num(3)))])
  {
    ChainTokensOfText();
    ChainParse();
  }

  lemma ChainParse()
    ensures Valid(ChainTokens)
    ensures ParseExpr(ChainTokens, 0) == Ok(Parsed(Assign(LVar(8), Assign(LVar(16), Num(3))), 5))
    ensures Program(ChainTokens) == Ok([Assign(LVar(8), Assign(LVar(16), Num(3)))])
  {
    var ts := ChainTokens;
    PrimaryVariable(ts, 0);
    PrimaryVariable(ts, 2);
    assert VarOffset('a') == 8 && VarOffset('b') == 16;
    NumberAtom(ts, 4);
    AssignRight(ts, 0, LVar(8), 1, LVar(16), 3, Num(3), 5);
    assert Statement(ts, 0) == Ok(Parsed(Assign(LVar(8), Assign(LVar(16), Num(3))), 6));
    assert Statements(ts, 6, [Assign(LVar(8), Assign(LVar(16), Num(3)))]).Ok?;
  }

  /** The tokens of `1=2;`. */
  const NumberAssignTokens: seq<Token> := [
    Tok(Number, 1, 0, ""), Tok(Reserved, 0, 1, "="), Tok(Number, 2, 2, ""),
    Tok(Reserved, 0, 3, ";"), Tok(Eof, 0, 4, "")]

  const NumberAssignText: CString := "1=2;"

  /** Every character of `1=2;` is a token of its own. */
  lemma NumberAssignLexeme(k: nat)
    requires k < 4
    ensures NumberAssignTokens[k].pos == k
    ensures Lexeme(NumberAssignText, NumberAssignTokens[k]) && End(NumberAssignText, NumberAssignTokens[k]) == k + 1
  {
    var s := NumberAssignText;
    if k == 0 || k == 2 {
      SingleDigitLexeme(s, k);
    } else {
      SingleOpLexeme(s, k);
    }
  }

  /** The loop returns the tokens of `1=2;` from each character on. */
  lemma {:induction false} NumberAssignFrom(k: nat)
    requires k <= 4
    ensures Lex(NumberAssignText, k) == Ok(NumberAssignTokens[k..])
    decreases 4 - k
  {
    if k < 4 {
      NumberAssignFrom(k + 1);
      NumberAssignLexeme(k);
      LexSuffix(NumberAssignText, NumberAssignTokens, k);
    }
  }

  /** `NumberAssignTokens` is what `tokenize` makes of `1=2;`. */
  lemma NumberAssignTokensOfText()
    ensures Tokenize(NumberAssignText) == Ok(NumberAssignTokens)
  {
    NumberAssignFrom(0);
  }

  /** Nothing checks that the left side of `=` is a variable: `1=2;` is a
      statement. */
  lemma AssignToNumberAccepted()
    ensures Tokenize(NumberAssignText) == Ok(NumberAssignTokens)
    ensures Valid(NumberAssignTokens)
    ensures Program(NumberAssignTokens) == Ok([Assign(Num(1), Num(2))])
  {
    NumberAssignTokensOfText();
    NumberAssignStatement();
    assert Statements(NumberAssignTokens, 4, [Assign(Num(1), Num(2))]).Ok?;
  }

  lemma NumberAssignStatement()
    ensures Valid(NumberAssignTokens)
    ensures Statement(NumberAssignTokens, 0) == Ok(Parsed(Assign(Num(1), Num(2)), 4))
  {
    var ts := NumberAssignTokens;
    NumberAtom(ts, 0);
    NumberAtom(ts, 2);
    ExprAtom(ts, 2, Num(2), 3);
    LevelAtom(4, ts, 0, Num(1), 1);
    AssignStep(ts, 0, Num(1), 1, Num(2), 3);
  }

  /** No expression starts at the end-of-input token: `primary` rejects it
      with "expected a number". */
  lemma ExprNotAtEof(ts: seq<Token>, i: nat)
    requires Valid(ts) && i < |ts|
    ensures ts[i].kind == Eof ==> ParseExpr(ts, i) == Err(Error(ts[i].pos, "expected a number"))
  {
    if ts[i].kind == Eof {
      assert ParseUnary(ts, i) == Err(Error(ts[i].pos, "expected a number"));
      ExprErr(ts, i);
    }
  }

  /** Every statement must end with `;`: an expression followed by anything
      else fails at that token with "expected ';'", and so does a program
      that starts with it. */
  lemma StatementNeedsSemicolon(ts: seq<Token>, i: nat, e: Node, k: nat)
    requires Valid(ts) && i < |ts| && ParseExpr(ts, i) == Ok(Parsed(e, k))
    requires !(ts[k].kind == Reserved && ts[k].text == ";")
    ensures Statement(ts, i) == Err(Error(ts[k].pos, "expected ';'"))
    ensures i == 0 ==> Program(ts) == Err(Error(ts[k].pos, "expected ';'"))
  {
    ExprNotAtEof(ts, i);
  }

  /** An empty program (only the end-of-input token) stores no statement. */
  lemma EmptyProgram(ts: seq<Token>)
    requires Valid(ts) && ts[0].kind == Eof
    ensures Program(ts) == Ok([])
  {
  }
}
