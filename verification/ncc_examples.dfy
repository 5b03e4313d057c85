/** Whole runs of ncc.c's `main` on concrete inputs: the driver ignores
    what follows the first expression, and `10-2-3` groups to the left all
    the way down to the value the emitted code returns in `rax`.
 */
module NccExamples {
  import opened Chars
  import opened Results
  import opened Ncc
  import opened NccProps
  import opened NccGrammar
  import opened NccMachine

  /** The value of a one- or two-digit literal at `p`. */
  lemma SmallDecimal(s: string, p: nat)
    requires p < |s| && IsDigit(s[p])
    ensures p + 1 < |s| && IsDigit(s[p + 1]) && (p + 2 == |s| || !IsDigit(s[p + 2])) ==>
              DigitRunEnd(s, p) == p + 2 && DecimalAt(s, p) == DigitValue(s[p]) * 10 + DigitValue(s[p + 1])
    ensures (p + 1 == |s| || !IsDigit(s[p + 1])) ==>
              DigitRunEnd(s, p) == p + 1 && DecimalAt(s, p) == DigitValue(s[p])
  {
    if p + 1 < |s| && IsDigit(s[p + 1]) && (p + 2 == |s| || !IsDigit(s[p + 2])) {
      var ds := s[p..p + 2];
      assert DigitRunEnd(s, p) == p + 2;
      assert ds[..1] == [s[p]];
      assert DecimalValue(ds[..1]) == DigitValue(s[p]);
    }
    if p + 1 == |s| || !IsDigit(s[p + 1]) {
      assert s[p..p + 1] == [s[p]];
      assert DecimalValue(s[p..p + 1]) == DigitValue(s[p]);
    }
  }

  /** The tokens of `1 2`. */
  const OneTwo: seq<Token> := [Token(Number, 1, 0, ""), Token(Number, 2, 2, ""), Token(Eof, 0, 3, "")]

  lemma OneTwoTokens()
    ensures Tokenize("1 2") == Ok(OneTwo)
  {
    var s: CString := "1 2";
    var ts := OneTwo;
    SmallDecimal(s, 0);
    SmallDecimal(s, 2);
    assert Lexeme(s, ts[0]) && Lexeme(s, ts[1]);
    assert End(s, ts[0]) == 1 && End(s, ts[1]) == 3;
    assert Blank(s, 1, 2);
    assert Tiles(s, 0, ts);
    TokenizeIffTiles(s, ts);
  }

  /** `1 2` tokenizes to two numbers; the driver parses `1`, ignores `2`,
      and compiles the program that returns 1 in `rax`. */
  lemma TrailingTokensIgnored()
    ensures Tokenize("1 2") == Ok(OneTwo)
    ensures Compile("1 2") == Ok([Push(1), PopRax, Ret])
  {
    var ts := OneTwo;
    OneTwoTokens();
    assert Atom(ts, 0, Num(1), 1);
    LevelAtom(4, ts, 0, Num(1), 1);
    assert Gen(Num(1)) + [PopRax, Ret] == [Push(1), PopRax, Ret];
  }

  /** Three instructions print as their three lines, in order. */
  lemma LinesOfThree(a: Instr, b: Instr, c: Instr)
    ensures Lines([a, b, c]) == Line(a) + Line(b) + Line(c)
  {
    assert [a, b, c] == [a, b] + [c] && [a, b] == [a] + [b];
    LinesAppend([a, b], [c]);
    LinesAppend([a], [b]);
    LinesOne(a);
    LinesOne(b);
    LinesOne(c);
  }

  lemma LinesOne(a: Instr)
    ensures Lines([a]) == Line(a)
  {
    assert [a][1..] == [];
  }

  /** `push 1` prints the literal as the single digit `1`. */
  lemma PushOneLine()
    ensures Line(Push(1)) == "    push 1\n"
  {
    assert IntText(1) == "1";
  }

  /** The text of the three instructions that return 1. */
  lemma ReturnOneText()
    ensures Lines([Push(1), PopRax, Ret]) == "    push 1\n    pop rax\n    ret\n"
  {
    LinesOfThree(Push(1), PopRax, Ret);
    PushOneLine();
  }

  /** The assembly text `main` prints for `1 2`. */
  lemma TrailingTokensOutput()
    ensures Main("1 2") == Ok(Header + "    push 1\n    pop rax\n    ret\n")
  {
    TrailingTokensIgnored();
    ReturnOneText();
  }

  /** The input `10-2-3` and its tokens. */
  const SubText: CString := "10-2-3"
  const SubChain: seq<Token> := [
    Token(Number, 10, 0, ""), Token(Reserved, 0, 2, "-"), Token(Number, 2, 3, ""),
    Token(Reserved, 0, 4, "-"), Token(Number, 3, 5, ""), Token(Eof, 0, 6, "")]

  /** The tree `(10-2)-3`. */
  const LeftGrouped: Node := Bin(Sub, Bin(Sub, Num(10), Num(2)), Num(3))

  /** A lone `-` is a one-character punctuator. */
  lemma MinusLexeme(s: CString, p: nat)
    requires p < |s| && s[p] == '-'
    ensures Lexeme(s, Token(Reserved, 0, p, "-")) && End(s, Token(Reserved, 0, p, "-")) == p + 1
  {
    TwoCharOpInBounds(s, p);
    assert s[p..p + 1] == "-";
  }

  /** Each token of `SubChain` is a lexeme that ends where the next begins. */
  lemma SubChainLexemes()
    ensures Lexeme(SubText, SubChain[0]) && End(SubText, SubChain[0]) == 2
    ensures Lexeme(SubText, SubChain[1]) && End(SubText, SubChain[1]) == 3
    ensures Lexeme(SubText, SubChain[2]) && End(SubText, SubChain[2]) == 4
    ensures Lexeme(SubText, SubChain[3]) && End(SubText, SubChain[3]) == 5
    ensures Lexeme(SubText, SubChain[4]) && End(SubText, SubChain[4]) == 6
  {
    var s := SubText;
    SmallDecimal(s, 0);
    SmallDecimal(s, 3);
    SmallDecimal(s, 5);
    MinusLexeme(s, 2);
    MinusLexeme(s, 4);
  }

  lemma SubChainTokens()
    ensures Tokenize(SubText) == Ok(SubChain)
  {
    SubChainLexemes();
    forall k | 0 <= k < 5
      ensures Lexeme(SubText, SubChain[k]) && End(SubText, SubChain[k]) == SubChain[k + 1].pos
    {
      if k == 0 {
      } else if k == 1 {
      } else if k == 2 {
      } else if k == 3 {
      } else {
      }
    }
    assert Tiles(SubText, 0, SubChain);
    TokenizeIffTiles(SubText, SubChain);
  }

  lemma SubChainParse()
    ensures Valid(SubChain)
    ensures ParseExpr(SubChain, 0) == Ok(Parsed(LeftGrouped, 5))
  {
    var ts := SubChain;
    assert Atom(ts, 0, Num(10), 1);
    assert Atom(ts, 2, Num(2), 3);
    assert Atom(ts, 4, Num(3), 5);
    ExprTernary(ts, 0, Num(10), 1, Sub, Num(2), 3, Sub, Num(3), 5);
  }

  /** `(10-2)-3` is 5, where `10-(2-3)` would be 11. */
  lemma LeftGroupedValue()
    ensures Eval(LeftGrouped) == Some(5)
    ensures Eval(Bin(Sub, Num(10), Bin(Sub, Num(2), Num(3)))) == Some(11)
  {
  }

  /** `10-2-3` is `(10-2)-3`, and the program it compiles to returns 5 in
      `rax` (not 11, which `10-(2-3)` would give), whatever state it is
      entered in. */
  lemma SubtractionGroupsLeft(m: Machine)
    ensures Tokenize(SubText) == Ok(SubChain)
    ensures ParseExpr(SubChain, 0) == Ok(Parsed(LeftGrouped, 5))
    ensures Compile(SubText).Ok?
    ensures Run(Compile(SubText).value, m).Some?
    ensures Run(Compile(SubText).value, m).value.rax == 5
  {
    SubChainTokens();
    SubChainParse();
    LeftGroupedValue();
    CompileCorrect(SubText, SubChain, Parsed(LeftGrouped, 5), m);
  }
}
