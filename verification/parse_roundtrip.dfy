/** parse.c inverts a fully parenthesised rendering: any tree whose
    variables all have one-character names comes back from `expr`, and any
    program of fewer than 100 such statements comes back from `program`;
    a program of 100 or more statements overflows `code`.
 */
module ParserRoundTrip {
  import opened Results
  import opened Seqs
  import opened Tokenizer
  import opened Parser
  import opened ParserGrammar

  //
  // Variable names
  //

  /** `off` is the offset of a variable with a one-character name. */
  predicate IsVarOffset(off: int)
  {
    && off % 8 == 0
    && 'A' as int <= off / 8 + 'a' as int - 1 <= 'z' as int
    && IsIdentStart((off / 8 + 'a' as int - 1) as char)
  }

  /** The one-character name of the variable at offset `off`. */
  function VarName(off: int): (c: char)
    requires IsVarOffset(off)
    ensures IsIdentStart(c) && VarOffset(c) == off
  {
    (off / 8 + 'a' as int - 1) as char
  }

  /** Every identifier character names exactly one offset, and `VarName`
      recovers it: `VarOffset` is one-to-one on identifier starts. */
  lemma VarNameOfOffset(c: char)
    requires IsIdentStart(c)
    ensures IsVarOffset(VarOffset(c)) && VarName(VarOffset(c)) == c
  {
  }

  /** Every variable in `e` has a one-character name. */
  predicate Named(e: Node)
  {
    match e
    case Num(_) => true
    case LVar(off) => IsVarOffset(off)
    case Bin(_, l, r) => Named(l) && Named(r)
    case Assign(l, r) => Named(l) && Named(r)
  }

  //
  // Rendering
  //

  function Punct(text: string): Token
  {
    Token(Reserved, 0, 0, text)
  }

  const EofToken: Token := Token(Eof, 0, 0, "")

  /** The punctuator between the operands of a binary or assignment node. */
  function Infix(e: Node): string
    requires e.Bin? || e.Assign?
  {
    if e.Bin? then OpText(e.op) else "="
  }

  /** A tree written out as tokens with every binary and assignment node in
      parentheses. Positions are irrelevant to the parser and are left at 0. */
  function Unparse(e: Node): (ts: seq<Token>)
    requires Named(e)
    ensures |ts| > 0
  {
    match e
    case Num(v) => [Token(Number, v, 0, "")]
    case LVar(off) => [Token(Ident, 0, 0, [VarName(off)])]
    case Bin(_, l, r) => [Punct("(")] + Unparse(l) + [Punct(Infix(e))] + Unparse(r) + [Punct(")")]
    case Assign(l, r) => [Punct("(")] + Unparse(l) + [Punct(Infix(e))] + Unparse(r) + [Punct(")")]
  }

  /** A program written out as its statements, each followed by `;`. */
  function UnparseProgram(code: seq<Node>): seq<Token>
    requires forall k :: 0 <= k < |code| ==> Named(code[k])
  {
    if |code| == 0 then [] else Unparse(code[0]) + [Punct(";")] + UnparseProgram(code[1..])
  }

  //
  // Expressions
  //

  /** `"(" expr ")"` is a primary expression. */
  lemma PrimaryParens(ts: seq<Token>, i: nat, e: Node, m: nat)
    requires Valid(ts) && i + 1 < |ts| && ts[i] == Punct("(")
    requires ParseExpr(ts, i + 1) == Ok(Parsed(e, m))
    requires m < |ts| && ts[m] == Punct(")")
    ensures Atom(ts, i, e, m + 1)
  {
  }

  /** `( a op b )` with atoms `a` and `b` is an atom. */
  lemma ParensBinary(ts: seq<Token>, i: nat, a: Node, k1: nat, op: BinOp, b: Node, k2: nat)
    requires i < |ts| && ts[i] == Punct("(") && Atom(ts, i + 1, a, k1)
    requires OpAt(ts, k1, op) && Atom(ts, k1 + 1, b, k2)
    requires ts[k2] == Punct(")")
    ensures Atom(ts, i, Bin(op, a, b), k2 + 1)
  {
    LevelBinary(4, ts, i + 1, a, k1, op, b, k2);
    AssignStop(ts, i + 1, Bin(op, a, b), k2);
    PrimaryParens(ts, i, Bin(op, a, b), k2);
  }

  /** `( a = b )` with atoms `a` and `b` is an atom. */
  lemma ParensAssign(ts: seq<Token>, i: nat, a: Node, k1: nat, b: Node, k2: nat)
    requires i < |ts| && ts[i] == Punct("(") && Atom(ts, i + 1, a, k1)
    requires ts[k1] == Punct("=") && Atom(ts, k1 + 1, b, k2)
    requires ts[k2] == Punct(")")
    ensures Atom(ts, i, Assign(a, b), k2 + 1)
  {
    ExprAtom(ts, k1 + 1, b, k2);
    LevelAtom(4, ts, i + 1, a, k1);
    AssignStep(ts, i + 1, a, k1, b, k2);
    PrimaryParens(ts, i, Assign(a, b), k2);
  }

  /** A one-character identifier is an atom: the variable its name gives. */
  lemma VarAtom(ts: seq<Token>, i: nat, off: int)
    requires Valid(ts) && i + 1 < |ts| && IsVarOffset(off)
    requires ts[i] == Token(Ident, 0, 0, [VarName(off)])
    ensures Atom(ts, i, LVar(off), i + 1)
  {
  }

  /** Where the parentheses, the operands and the infix punctuator of a
      rendered node sit in a token list that holds the rendering at `i`. */
  lemma UnparsePieces(e: Node, ts: seq<Token>, i: nat) returns (k: nat, m: nat)
    requires (e.Bin? || e.Assign?) && Named(e) && i + |Unparse(e)| <= |ts|
    requires ts[i..i + |Unparse(e)|] == Unparse(e)
    ensures k == i + 1 + |Unparse(e.lhs)| && m == k + 1 + |Unparse(e.rhs)|
    ensures m + 1 == i + |Unparse(e)|
    ensures ts[i] == Punct("(") && ts[i + 1..k] == Unparse(e.lhs)
    ensures ts[k] == Punct(Infix(e)) && ts[k + 1..m] == Unparse(e.rhs)
    ensures ts[m] == Punct(")")
  {
    UnparseInfix(e);
    k, m := Split(ts, i, |Unparse(e)|, Punct("("), Unparse(e.lhs), Punct(Infix(e)), Unparse(e.rhs), Punct(")"));
  }

  lemma UnparseInfix(e: Node)
    requires (e.Bin? || e.Assign?) && Named(e)
    ensures Unparse(e) == [Punct("(")] + Unparse(e.lhs) + [Punct(Infix(e))] + Unparse(e.rhs) + [Punct(")")]
    ensures |Unparse(e)| == |Unparse(e.lhs)| + |Unparse(e.rhs)| + 3
  {
  }

  /** The rendering of any tree, wherever it sits in a token list, is an
      atom that parses back to the tree. */
  lemma {:induction false} PrimaryUnparse(e: Node, ts: seq<Token>, i: nat, j: nat)
    requires Valid(ts) && Named(e) && j == i + |Unparse(e)| && j < |ts|
    requires ts[i..j] == Unparse(e)
    ensures Atom(ts, i, e, j)
    decreases e, 1
  {
    if e.Num? {
      assert ts[i] == Unparse(e)[0];
    } else if e.LVar? {
      VarUnparse(e, ts, i, j);
    } else {
      InfixUnparse(e, ts, i, j);
    }
  }

  /** The rendering of a binary or assignment node is an atom once its two
      operands' renderings are. */
  lemma {:induction false} InfixUnparse(e: Node, ts: seq<Token>, i: nat, j: nat)
    requires e.Bin? || e.Assign?
    requires Valid(ts) && Named(e) && j == i + |Unparse(e)| && j < |ts|
    requires ts[i..j] == Unparse(e)
    ensures Atom(ts, i, e, j)
    decreases e, 0
  {
    var k, m := UnparsePieces(e, ts, i);
    PrimaryUnparse(e.lhs, ts, i + 1, k);
    PrimaryUnparse(e.rhs, ts, k + 1, m);
    InfixAtom(e, ts, i, k, m, j);
  }

  lemma VarUnparse(e: Node, ts: seq<Token>, i: nat, j: nat)
    requires e.LVar? && Valid(ts) && Named(e) && j == i + |Unparse(e)| && j < |ts|
    requires ts[i..j] == Unparse(e)
    ensures Atom(ts, i, e, j)
  {
    var t := Token(Ident, 0, 0, [VarName(e.offset)]);
    assert Unparse(e) == [t];
    assert ts[i] == t;
    VarAtom(ts, i, e.offset);
  }

  /** `( a op b )` or `( a = b )` with atoms `a` and `b` is an atom. */
  lemma InfixAtom(e: Node, ts: seq<Token>, i: nat, k: nat, m: nat, j: nat)
    requires e.Bin? || e.Assign?
    requires Atom(ts, i + 1, e.lhs, k) && Atom(ts, k + 1, e.rhs, m)
    requires i < |ts| && ts[i] == Punct("(") && ts[k] == Punct(Infix(e)) && ts[m] == Punct(")") && j == m + 1
    ensures Atom(ts, i, e, j)
  {
    if e.Bin? {
      ParensBinary(ts, i, e.lhs, k, e.op, e.rhs, m);
    } else {
      ParensAssign(ts, i, e.lhs, k, e.rhs, m);
    }
  }

  /** Parsing the fully parenthesised rendering of any tree, followed by
      the end of input, gives back exactly that tree and stops at the end. */
  lemma ParseUnparse(e: Node)
    requires Named(e)
    ensures Valid(Unparse(e) + [EofToken])
    ensures ParseExpr(Unparse(e) + [EofToken], 0) == Ok(Parsed(e, |Unparse(e)|))
  {
    var ts := Unparse(e) + [EofToken];
    assert ts[0..|Unparse(e)|] == Unparse(e);
    PrimaryUnparse(e, ts, 0, |Unparse(e)|);
    ExprAtom(ts, 0, e, |Unparse(e)|);
  }

  //
  // Programs
  //

  /** Where the first statement of a rendered program, its `;` and the
      rest sit in a token list that ends with the rendering: the statement
      fills `ts[i..j]` and the `;` is at `j`. */
  lemma ProgramPieces(code: seq<Node>, ts: seq<Token>, i: nat) returns (j: nat)
    requires |code| > 0 && forall k :: 0 <= k < |code| ==> Named(code[k])
    requires i <= |ts| && ts[i..] == UnparseProgram(code) + [EofToken]
    ensures j == i + |Unparse(code[0])| && j + 1 < |ts|
    ensures ts[i..j] == Unparse(code[0]) && ts[j] == Punct(";")
    ensures ts[j + 1..] == UnparseProgram(code[1..]) + [EofToken]
  {
    var u, rest := Unparse(code[0]), UnparseProgram(code[1..]) + [EofToken];
    var n := |u|;
    j := i + n;
    assert ts[i..] == u + [Punct(";")] + rest;
    assert ts[i..][..n] == u;
    assert ts[i..][n] == Punct(";");
    assert ts[i..][n + 1..] == rest;
  }

  /** A rendered tree followed by `;` is a statement. */
  lemma StatementUnparse(e: Node, ts: seq<Token>, i: nat, j: nat)
    requires Valid(ts) && Named(e) && j == i + |Unparse(e)| && j + 1 < |ts|
    requires ts[i..j] == Unparse(e) && ts[j] == Punct(";")
    ensures ts[i].kind != Eof
    ensures Statement(ts, i) == Ok(Parsed(e, j + 1))
  {
    PrimaryUnparse(e, ts, i, j);
    ExprAtom(ts, i, e, j);
  }

  /** The statement loop reads back a rendered program, and stops with an
      overflow as soon as `code` would be written past its end. */
  lemma {:induction false} StatementsUnparse(code: seq<Node>, ts: seq<Token>, i: nat, acc: seq<Node>)
    requires forall k :: 0 <= k < |code| ==> Named(code[k])
    requires Valid(ts) && i < |ts| && ts[i..] == UnparseProgram(code) + [EofToken]
    ensures |acc| + |code| < Capacity ==> Statements(ts, i, acc) == Ok(acc + code)
    ensures |acc| + |code| >= Capacity ==>
              Statements(ts, i, acc).Err? && Statements(ts, i, acc).error.msg == TooManyStatements
    decreases |code|
  {
    if |code| == 0 {
      assert ts[i] == ts[i..][0] == EofToken;
      StatementsAtEof(ts, i, acc);
      assert acc + code == acc;
    } else {
      var j := ProgramPieces(code, ts, i);
      StatementUnparse(code[0], ts, i, j);
      StatementsUnparse(code[1..], ts, j + 1, acc + [code[0]]);
      StatementsThen(ts, i, j + 1, acc, code);
    }
  }

  /** At the end of input the loop stops: it stores nothing more, and
      writing the terminating null overflows a full `code`. */
  lemma StatementsAtEof(ts: seq<Token>, i: nat, acc: seq<Node>)
    requires Valid(ts) && i < |ts| && ts[i].kind == Eof
    ensures |acc| < Capacity ==> Statements(ts, i, acc) == Ok(acc)
    ensures |acc| >= Capacity ==> Statements(ts, i, acc) == Err(Error(ts[i].pos, TooManyStatements))
  {
  }

  /** What the loop makes of `code` from token `i` follows from what it
      makes of `code[1..]` after the first statement. */
  lemma StatementsThen(ts: seq<Token>, i: nat, j: nat, acc: seq<Node>, code: seq<Node>)
    requires Valid(ts) && i < |ts| && ts[i].kind != Eof && |code| > 0
    requires Statement(ts, i) == Ok(Parsed(code[0], j))
    requires j < |ts|
    requires |acc| + |code| < Capacity ==> Statements(ts, j, acc + [code[0]]) == Ok(acc + [code[0]] + code[1..])
    requires |acc| + |code| >= Capacity && |acc| < Capacity ==>
               Statements(ts, j, acc + [code[0]]).Err? && Statements(ts, j, acc + [code[0]]).error.msg == TooManyStatements
    ensures |acc| + |code| < Capacity ==> Statements(ts, i, acc) == Ok(acc + code)
    ensures |acc| + |code| >= Capacity ==>
              Statements(ts, i, acc).Err? && Statements(ts, i, acc).error.msg == TooManyStatements
  {
    StatementsStep(ts, i, acc, code[0], j);
    assert acc + [code[0]] + code[1..] == acc + code;
  }

  /** One turn of the statement loop away from the end of input: a parsed
      statement is stored, unless `code` is already full. */
  lemma StatementsStep(ts: seq<Token>, i: nat, acc: seq<Node>, e: Node, j: nat)
    requires Valid(ts) && i < |ts| && ts[i].kind != Eof
    requires Statement(ts, i) == Ok(Parsed(e, j))
    ensures i < j < |ts|
    ensures Statements(ts, i, acc) == if |acc| >= Capacity then Err(Error(ts[i].pos, TooManyStatements))
                                      else Statements(ts, j, acc + [e])
  {
  }

  /** `program` reads back any rendered program of at most 99 statements,
      and overflows `code` on any longer one. */
  lemma ProgramUnparse(code: seq<Node>)
    requires forall k :: 0 <= k < |code| ==> Named(code[k])
    ensures Valid(UnparseProgram(code) + [EofToken])
    ensures |code| < Capacity ==> Program(UnparseProgram(code) + [EofToken]) == Ok(code)
    ensures |code| >= Capacity ==>
              var r := Program(UnparseProgram(code) + [EofToken]);
              r.Err? && r.error.msg == TooManyStatements
  {
    var ts := UnparseProgram(code) + [EofToken];
    assert ts[0..] == ts;
    StatementsUnparse(code, ts, 0, []);
    assert [] + code == code;
  }
}
