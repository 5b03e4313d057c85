/** Precedence and associativity of ncc.c's expression parser.

    The four binary levels `mul`, `add`, `relational` and `equality` share
    one shape: parse the next tighter level, then loop over the operators of
    this level. `ParseLevel`/`TailLevel` name the level functions by number
    (0 is `unary`), so that the facts below are proved once, by induction on
    the level, instead of once per function.
 */
module NccGrammar {
  import opened Results
  import opened Seqs
  import opened Ncc

  /** The binding level of each operator: 1 binds tightest. */
  function Level(op: BinOp): (l: nat)
    ensures 1 <= l <= 4
  {
    match op
    case Mul | Div => 1
    case Add | Sub => 2
    case Ge | Le | Gt | Lt => 3
    case Eq | Neq => 4
  }

  /** The punctuator each operator is written with. */
  function OpText(op: BinOp): string
  {
    match op
    case Add => "+"
    case Sub => "-"
    case Mul => "*"
    case Div => "/"
    case Eq => "=="
    case Neq => "!="
    case Ge => ">="
    case Le => "<="
    case Gt => ">"
    case Lt => "<"
  }

  /** The level of the operator a punctuator denotes; 0 for any other text. */
  function TextLevel(text: string): nat
  {
    if text == "*" || text == "/" then 1
    else if text == "+" || text == "-" then 2
    else if text == ">=" || text == "<=" || text == ">" || text == "<" then 3
    else if text == "==" || text == "!=" then 4
    else 0
  }

  /** Each operator is written with a punctuator of its own level. */
  lemma OpTextLevel(op: BinOp)
    ensures TextLevel(OpText(op)) == Level(op)
  {
  }

  /** `t` is an operator of one of the levels 1 to `level`. */
  predicate OpUpTo(t: Token, level: nat)
  {
    t.kind == Reserved && 1 <= TextLevel(t.text) <= level
  }

  predicate OpAt(ts: seq<Token>, k: nat, op: BinOp)
  {
    k < |ts| && ts[k].kind == Reserved && ts[k].text == OpText(op)
  }

  /** The level functions by number: 0 is `unary`, 1 `mul`, 2 `add`,
      3 `relational` and 4 `equality`, which is all `expr` does. */
  function ParseLevel(level: nat, ts: seq<Token>, i: nat): Result<Parsed>
    requires level <= 4 && Valid(ts) && i < |ts|
  {
    match level
    case 0 => ParseUnary(ts, i)
    case 1 => ParseMul(ts, i)
    case 2 => ParseAdd(ts, i)
    case 3 => ParseRelational(ts, i)
    case _ => ParseEquality(ts, i)
  }

  /** The operator loops of the binary levels by number. */
  function TailLevel(level: nat, ts: seq<Token>, i: nat, node: Node): Result<Parsed>
    requires 1 <= level <= 4 && Valid(ts) && i < |ts|
  {
    match level
    case 1 => MulTail(ts, i, node)
    case 2 => AddTail(ts, i, node)
    case 3 => RelationalTail(ts, i, node)
    case _ => EqualityTail(ts, i, node)
  }

  /** A binary level parses the next tighter level, then runs its loop. */
  lemma LevelUnfold(level: nat, ts: seq<Token>, i: nat)
    requires 1 <= level <= 4 && Valid(ts) && i < |ts|
    ensures ParseLevel(level, ts, i) == match ParseLevel(level - 1, ts, i)
                                        case Err(e) => Err(e)
                                        case Ok(lhs) => TailLevel(level, ts, lhs.next, lhs.node)
  {
  }

  /** The loop stops, consuming nothing, at a token that is not one of its
      operators. */
  lemma TailStop(level: nat, ts: seq<Token>, k: nat, node: Node)
    requires 1 <= level <= 4 && Valid(ts) && k < |ts|
    requires !(ts[k].kind == Reserved && TextLevel(ts[k].text) == level)
    ensures TailLevel(level, ts, k, node) == Ok(Parsed(node, k))
  {
  }

  /** At one of its operators the loop consumes it, parses the right operand
      at the next tighter level and goes on with the tree grown to the left. */
  lemma TailStep(level: nat, ts: seq<Token>, k: nat, node: Node, op: BinOp)
    requires Valid(ts) && OpAt(ts, k, op) && Level(op) == level
    ensures k + 1 < |ts|
    ensures TailLevel(level, ts, k, node) == match ParseLevel(level - 1, ts, k + 1)
                                             case Err(e) => Err(e)
                                             case Ok(rhs) => TailLevel(level, ts, rhs.next, Bin(op, node, rhs.node))
  {
  }

  /** `ts[i..k]` is a primary expression that parses to `e`: a number or a
      parenthesised expression. */
  ghost predicate Atom(ts: seq<Token>, i: nat, e: Node, k: nat)
  {
    && Valid(ts) && i < k < |ts|
    && (ts[i].kind == Number || (ts[i].kind == Reserved && ts[i].text == "("))
    && ParsePrimary(ts, i) == Ok(Parsed(e, k))
  }

  /** An atom followed by anything that is not an operator of levels 1 to
      `level` parses, at that level, to the atom alone. */
  lemma {:induction false} LevelAtom(level: nat, ts: seq<Token>, i: nat, e: Node, k: nat)
    requires level <= 4 && Atom(ts, i, e, k)
    requires !OpUpTo(ts[k], level)
    ensures ParseLevel(level, ts, i) == Ok(Parsed(e, k))
  {
    if level > 0 {
      LevelAtom(level - 1, ts, i, e, k);
      LevelUnfold(level, ts, i);
      TailStop(level, ts, k, e);
    }
  }

  /** `a op b` followed by a token that is not an operator of levels 1 to
      `level` parses to `Bin(op, a, b)` at any level from `op`'s own up. */
  lemma {:induction false} LevelBinary(level: nat, ts: seq<Token>, i: nat, a: Node, k1: nat,
                                       op: BinOp, b: Node, k2: nat)
    requires Level(op) <= level <= 4
    requires Atom(ts, i, a, k1) && OpAt(ts, k1, op) && Atom(ts, k1 + 1, b, k2)
    requires !OpUpTo(ts[k2], level)
    ensures ParseLevel(level, ts, i) == Ok(Parsed(Bin(op, a, b), k2))
  {
    LevelUnfold(level, ts, i);
    if Level(op) < level {
      LevelBinary(level - 1, ts, i, a, k1, op, b, k2);
      TailStop(level, ts, k2, Bin(op, a, b));
    } else {
      OpTextLevel(op);
      LevelAtom(level - 1, ts, i, a, k1);
      TailStep(level, ts, k1, a, op);
      LevelAtom(level - 1, ts, k1 + 1, b, k2);
      TailStop(level, ts, k2, Bin(op, a, b));
    }
  }

  /** The tree `a op1 b op2 c` parses to: the tighter operator groups first
      (`1+2*3` is `1+(2*3)`), and operators of one level group to the left
      (`10-2-3` is `(10-2)-3`). */
  function Grouped(a: Node, op1: BinOp, b: Node, op2: BinOp, c: Node): Node
  {
    if Level(op2) < Level(op1) then Bin(op1, a, Bin(op2, b, c))
    else Bin(op2, Bin(op1, a, b), c)
  }

  lemma {:induction false} LevelTernary(level: nat, ts: seq<Token>, i: nat, a: Node, k1: nat,
                                        op1: BinOp, b: Node, k2: nat, op2: BinOp, c: Node, k3: nat)
    requires Level(op1) <= level && Level(op2) <= level && level <= 4
    requires Atom(ts, i, a, k1) && OpAt(ts, k1, op1) && Atom(ts, k1 + 1, b, k2)
    requires OpAt(ts, k2, op2) && Atom(ts, k2 + 1, c, k3)
    requires !OpUpTo(ts[k3], level)
    ensures ParseLevel(level, ts, i) == Ok(Parsed(Grouped(a, op1, b, op2, c), k3))
  {
    if Level(op1) < level && Level(op2) < level {
      LevelUnfold(level, ts, i);
      LevelTernary(level - 1, ts, i, a, k1, op1, b, k2, op2, c, k3);
      TailStop(level, ts, k3, Grouped(a, op1, b, op2, c));
    } else if Level(op1) == level && Level(op2) == level {
      TernaryOneLevel(level, ts, i, a, k1, op1, b, k2, op2, c, k3);
    } else if Level(op1) == level {
      TernaryTighterRight(level, ts, i, a, k1, op1, b, k2, op2, c, k3);
    } else {
      TernaryTighterLeft(level, ts, i, a, k1, op1, b, k2, op2, c, k3);
    }
  }

  /** Both operators at this level: the loop groups to the left. */
  lemma TernaryOneLevel(level: nat, ts: seq<Token>, i: nat, a: Node, k1: nat,
                        op1: BinOp, b: Node, k2: nat, op2: BinOp, c: Node, k3: nat)
    requires Level(op1) == level && Level(op2) == level
    requires Atom(ts, i, a, k1) && OpAt(ts, k1, op1) && Atom(ts, k1 + 1, b, k2)
    requires OpAt(ts, k2, op2) && Atom(ts, k2 + 1, c, k3)
    requires !OpUpTo(ts[k3], level)
    ensures ParseLevel(level, ts, i) == Ok(Parsed(Bin(op2, Bin(op1, a, b), c), k3))
  {
    LevelUnfold(level, ts, i);
    OpTextLevel(op1);
    OpTextLevel(op2);
    LevelAtom(level - 1, ts, i, a, k1);
    TailStep(level, ts, k1, a, op1);
    LevelAtom(level - 1, ts, k1 + 1, b, k2);
    TailStep(level, ts, k2, Bin(op1, a, b), op2);
    LevelAtom(level - 1, ts, k2 + 1, c, k3);
    TailStop(level, ts, k3, Bin(op2, Bin(op1, a, b), c));
  }

  /** Only the first operator at this level: the second binds tighter and
      is grouped inside the right operand. */
  lemma TernaryTighterRight(level: nat, ts: seq<Token>, i: nat, a: Node, k1: nat,
                            op1: BinOp, b: Node, k2: nat, op2: BinOp, c: Node, k3: nat)
    requires Level(op1) == level && Level(op2) < level
    requires Atom(ts, i, a, k1) && OpAt(ts, k1, op1) && Atom(ts, k1 + 1, b, k2)
    requires OpAt(ts, k2, op2) && Atom(ts, k2 + 1, c, k3)
    requires !OpUpTo(ts[k3], level)
    ensures ParseLevel(level, ts, i) == Ok(Parsed(Bin(op1, a, Bin(op2, b, c)), k3))
  {
    LevelUnfold(level, ts, i);
    OpTextLevel(op1);
    LevelAtom(level - 1, ts, i, a, k1);
    TailStep(level, ts, k1, a, op1);
    LevelBinary(level - 1, ts, k1 + 1, b, k2, op2, c, k3);
    TailStop(level, ts, k3, Bin(op1, a, Bin(op2, b, c)));
  }

  /** Only the second operator at this level: the first binds tighter and
      is grouped inside the left operand. */
  lemma TernaryTighterLeft(level: nat, ts: seq<Token>, i: nat, a: Node, k1: nat,
                           op1: BinOp, b: Node, k2: nat, op2: BinOp, c: Node, k3: nat)
    requires Level(op1) < level && Level(op2) == level
    requires Atom(ts, i, a, k1) && OpAt(ts, k1, op1) && Atom(ts, k1 + 1, b, k2)
    requires OpAt(ts, k2, op2) && Atom(ts, k2 + 1, c, k3)
    requires !OpUpTo(ts[k3], level)
    ensures ParseLevel(level, ts, i) == Ok(Parsed(Bin(op2, Bin(op1, a, b), c), k3))
  {
    LevelUnfold(level, ts, i);
    OpTextLevel(op2);
    LevelBinary(level - 1, ts, i, a, k1, op1, b, k2);
    TailStep(level, ts, k2, Bin(op1, a, b), op2);
    LevelAtom(level - 1, ts, k2 + 1, c, k3);
    TailStop(level, ts, k3, Bin(op2, Bin(op1, a, b), c));
  }

  /** Precedence and associativity for three operands: `expr` groups
      `a op1 b op2 c` as `Grouped` says, for every pair of operators. */
  lemma ExprTernary(ts: seq<Token>, i: nat, a: Node, k1: nat, op1: BinOp, b: Node, k2: nat,
                    op2: BinOp, c: Node, k3: nat)
    requires Atom(ts, i, a, k1) && OpAt(ts, k1, op1) && Atom(ts, k1 + 1, b, k2)
    requires OpAt(ts, k2, op2) && Atom(ts, k2 + 1, c, k3)
    requires !OpUpTo(ts[k3], 4)
    ensures ParseExpr(ts, i) == Ok(Parsed(Grouped(a, op1, b, op2, c), k3))
  {
    LevelTernary(4, ts, i, a, k1, op1, b, k2, op2, c, k3);
  }

  //
  // Chains of operators of one level
  //

  /** What a level's loop builds from a first operand and the operators and
      right operands that follow it: each step puts the tree so far on the
      left, so `a - b - c - d` is `((a - b) - c) - d`. */
  function LeftChain(acc: Node, ops: seq<BinOp>, rhs: seq<Node>): Node
    requires |ops| == |rhs|
    decreases |ops|
  {
    if |ops| == 0 then acc else LeftChain(Bin(ops[0], acc, rhs[0]), ops[1..], rhs[1..])
  }

  /** Left association: the last operator of a chain is its root, with the
      rest of the chain as its left operand. */
  lemma {:induction false} LeftChainLast(acc: Node, ops: seq<BinOp>, rhs: seq<Node>, op: BinOp, r: Node)
    requires |ops| == |rhs|
    ensures LeftChain(acc, ops + [op], rhs + [r]) == Bin(op, LeftChain(acc, ops, rhs), r)
    decreases |ops|
  {
    if |ops| == 0 {
      assert (ops + [op])[1..] == [] && (rhs + [r])[1..] == [];
    } else {
      assert (ops + [op])[1..] == ops[1..] + [op];
      assert (rhs + [r])[1..] == rhs[1..] + [r];
      LeftChainLast(Bin(ops[0], acc, rhs[0]), ops[1..], rhs[1..], op, r);
    }
  }

  /** From token `k` on, `ts` holds `ops[0] rhs[0] ops[1] rhs[1] ...`: every
      operator of this `level`, and every right operand an atom that ends
      at the matching entry of `ends`. */
  ghost predicate Chain(ts: seq<Token>, level: nat, k: nat, ops: seq<BinOp>, rhs: seq<Node>, ends: seq<nat>)
    decreases |ops|
  {
    && |ops| == |rhs| == |ends|
    && (|ops| > 0 ==>
          && OpAt(ts, k, ops[0]) && Level(ops[0]) == level
          && Atom(ts, k + 1, rhs[0], ends[0])
          && Chain(ts, level, ends[0], ops[1..], rhs[1..], ends[1..]))
  }

  /** Where a chain that starts at `k` stops. */
  function ChainEnd(k: nat, ends: seq<nat>): nat
  {
    if |ends| == 0 then k else ends[|ends| - 1]
  }

  /** The token after an operand of a chain is no operator of a tighter
      level: it is the chain's next operator or the token after the chain. */
  lemma ChainNext(ts: seq<Token>, level: nat, k: nat, ops: seq<BinOp>, rhs: seq<Node>, ends: seq<nat>)
    requires 1 <= level && Chain(ts, level, k, ops, rhs, ends)
    requires ChainEnd(k, ends) < |ts| && !OpUpTo(ts[ChainEnd(k, ends)], level)
    ensures k < |ts| && !OpUpTo(ts[k], level - 1)
  {
    if |ops| > 0 {
      OpTextLevel(ops[0]);
    }
  }

  /** The loop of `level`, run at the start of a chain with `acc` parsed so
      far, consumes the whole chain and builds `LeftChain`. */
  lemma {:induction false} TailChain(level: nat, ts: seq<Token>, k: nat, acc: Node,
                                     ops: seq<BinOp>, rhs: seq<Node>, ends: seq<nat>)
    requires 1 <= level <= 4 && Valid(ts) && k < |ts|
    requires Chain(ts, level, k, ops, rhs, ends)
    requires ChainEnd(k, ends) < |ts| && !OpUpTo(ts[ChainEnd(k, ends)], level)
    ensures TailLevel(level, ts, k, acc) == Ok(Parsed(LeftChain(acc, ops, rhs), ChainEnd(k, ends)))
    decreases |ops|
  {
    if |ops| == 0 {
      TailStop(level, ts, k, acc);
    } else {
      var m := ends[0];
      assert ChainEnd(m, ends[1..]) == ChainEnd(k, ends);
      ChainNext(ts, level, m, ops[1..], rhs[1..], ends[1..]);
      var next := Bin(ops[0], acc, rhs[0]);
      TailStep(level, ts, k, acc, ops[0]);
      LevelAtom(level - 1, ts, k + 1, rhs[0], m);
      assert TailLevel(level, ts, k, acc) == TailLevel(level, ts, m, next);
      TailChain(level, ts, m, next, ops[1..], rhs[1..], ends[1..]);
      assert LeftChain(acc, ops, rhs) == LeftChain(next, ops[1..], rhs[1..]);
    }
  }

  /** A level parses an atom followed by a chain of its own operators,
      however long, to the left-grouped tree. */
  lemma LevelChain(level: nat, ts: seq<Token>, i: nat, a: Node, k: nat,
                   ops: seq<BinOp>, rhs: seq<Node>, ends: seq<nat>)
    requires 1 <= level <= 4 && Atom(ts, i, a, k)
    requires Chain(ts, level, k, ops, rhs, ends)
    requires ChainEnd(k, ends) < |ts| && !OpUpTo(ts[ChainEnd(k, ends)], level)
    ensures ParseLevel(level, ts, i) == Ok(Parsed(LeftChain(a, ops, rhs), ChainEnd(k, ends)))
  {
    LevelUnfold(level, ts, i);
    ChainNext(ts, level, k, ops, rhs, ends);
    LevelAtom(level - 1, ts, i, a, k);
    TailChain(level, ts, k, a, ops, rhs, ends);
  }

  /** What a level parses, followed by no operator of the looser levels up
      to `top`, is also what each of those levels parses. */
  lemma {:induction false} LevelLift(level: nat, top: nat, ts: seq<Token>, i: nat, e: Node, k: nat)
    requires level <= top <= 4 && Valid(ts) && i < |ts|
    requires ParseLevel(level, ts, i) == Ok(Parsed(e, k))
    requires k < |ts| && !OpUpTo(ts[k], top)
    ensures ParseLevel(top, ts, i) == Ok(Parsed(e, k))
    decreases top - level
  {
    if level < top {
      LevelUnfold(level + 1, ts, i);
      TailStop(level + 1, ts, k, e);
      LevelLift(level + 1, top, ts, i, e, k);
    }
  }

  /** `expr` groups a chain of operators of any one level to the left. */
  lemma ExprChain(level: nat, ts: seq<Token>, i: nat, a: Node, k: nat,
                  ops: seq<BinOp>, rhs: seq<Node>, ends: seq<nat>)
    requires 1 <= level <= 4 && Atom(ts, i, a, k)
    requires Chain(ts, level, k, ops, rhs, ends)
    requires ChainEnd(k, ends) < |ts| && !OpUpTo(ts[ChainEnd(k, ends)], 4)
    ensures ParseExpr(ts, i) == Ok(Parsed(LeftChain(a, ops, rhs), ChainEnd(k, ends)))
  {
    LevelChain(level, ts, i, a, k, ops, rhs, ends);
    LevelLift(level, 4, ts, i, LeftChain(a, ops, rhs), ChainEnd(k, ends));
    assert ParseExpr(ts, i) == ParseLevel(4, ts, i);
  }

  //
  // Unary operators
  //

  /** `- x` is `0 - x` and `+ x` is `x`, for any primary `x`. */
  lemma UnarySigns(ts: seq<Token>, i: nat, e: Node, k: nat)
    requires i < |ts| && ts[i].kind == Reserved && Atom(ts, i + 1, e, k)
    ensures ts[i].text == "-" ==> ParseUnary(ts, i) == Ok(Parsed(Bin(Sub, Num(0), e), k))
    ensures ts[i].text == "+" ==> ParseUnary(ts, i) == Ok(Parsed(e, k))
  {
  }

  /** A failure of `unary` at the start of an expression is the failure of
      every level above it, and of `expr`. */
  lemma {:induction false} LevelErr(level: nat, ts: seq<Token>, i: nat)
    requires level <= 4 && Valid(ts) && i < |ts| && ParseLevel(0, ts, i).Err?
    ensures ParseLevel(level, ts, i) == ParseLevel(0, ts, i)
  {
    if level > 0 {
      LevelErr(level - 1, ts, i);
      LevelUnfold(level, ts, i);
    }
  }

  /** Unary operators apply to a primary only, so a second sign is an
      error: `--1` fails with "expected a number" at the second `-`. */
  lemma DoubleSignRejected(ts: seq<Token>, i: nat)
    requires Valid(ts) && i + 1 < |ts|
    requires ts[i].kind == Reserved && (ts[i].text == "+" || ts[i].text == "-")
    requires ts[i + 1].kind == Reserved && (ts[i + 1].text == "+" || ts[i + 1].text == "-")
    ensures ParseExpr(ts, i) == Err(Error(ts[i + 1].pos, "expected a number"))
  {
    assert ParsePrimary(ts, i + 1) == Err(Error(ts[i + 1].pos, "expected a number"));
    LevelErr(4, ts, i);
  }

  //
  // Round trip through a fully parenthesised rendering
  //

  function Punct(text: string): Token
  {
    Token(Reserved, 0, 0, text)
  }

  /** A tree written out as tokens with every binary node in parentheses.
      Positions are irrelevant to the parser and are left at 0. */
  function Unparse(e: Node): (ts: seq<Token>)
    ensures |ts| > 0
  {
    match e
    case Num(v) => [Token(Number, v, 0, "")]
    case Bin(op, l, r) => [Punct("(")] + Unparse(l) + [Punct(OpText(op))] + Unparse(r) + [Punct(")")]
  }

  /** The rendering of any tree, wherever it sits in a token list, is an
      atom that parses back to the tree. */
  lemma {:induction false} PrimaryUnparse(e: Node, ts: seq<Token>, i: nat, j: nat)
    requires Valid(ts) && j == i + |Unparse(e)| && j < |ts|
    requires ts[i..j] == Unparse(e)
    ensures Atom(ts, i, e, j)
  {
    match e
    case Num(v) =>
      assert ts[i] == Unparse(e)[0];
    case Bin(op, l, r) =>
      var k, m := UnparsePieces(e, ts, i);
      PrimaryUnparse(l, ts, i + 1, k);
      PrimaryUnparse(r, ts, k + 1, m);
      ParensBinary(ts, i, l, k, op, r, m);
  }

  /** Where the parentheses, the operands and the operator of a rendered
      binary node sit in a token list that holds the rendering at `i`. */
  lemma UnparsePieces(e: Node, ts: seq<Token>, i: nat) returns (k: nat, m: nat)
    requires e.Bin? && i + |Unparse(e)| <= |ts|
    requires ts[i..i + |Unparse(e)|] == Unparse(e)
    ensures k == i + 1 + |Unparse(e.lhs)| && m == k + 1 + |Unparse(e.rhs)|
    ensures m + 1 == i + |Unparse(e)|
    ensures ts[i] == Punct("(") && ts[i + 1..k] == Unparse(e.lhs)
    ensures ts[k] == Punct(OpText(e.op)) && ts[k + 1..m] == Unparse(e.rhs)
    ensures ts[m] == Punct(")")
  {
    UnparseBin(e);
    k, m := Split(ts, i, |Unparse(e)|, Punct("("), Unparse(e.lhs), Punct(OpText(e.op)), Unparse(e.rhs), Punct(")"));
  }

  lemma UnparseBin(e: Node)
    requires e.Bin?
    ensures Unparse(e) == [Punct("(")] + Unparse(e.lhs) + [Punct(OpText(e.op))] + Unparse(e.rhs) + [Punct(")")]
    ensures |Unparse(e)| == |Unparse(e.lhs)| + |Unparse(e.rhs)| + 3
  {
  }

  /** `( a op b )` with atoms `a` and `b` is an atom. */
  lemma ParensBinary(ts: seq<Token>, i: nat, a: Node, k1: nat, op: BinOp, b: Node, k2: nat)
    requires i < |ts| && ts[i] == Punct("(") && Atom(ts, i + 1, a, k1)
    requires OpAt(ts, k1, op) && Atom(ts, k1 + 1, b, k2)
    requires ts[k2] == Punct(")")
    ensures Atom(ts, i, Bin(op, a, b), k2 + 1)
  {
    LevelBinary(4, ts, i + 1, a, k1, op, b, k2);
    PrimaryParens(ts, i, Bin(op, a, b), k2);
  }

  /** `"(" expr ")"` is a primary expression. */
  lemma PrimaryParens(ts: seq<Token>, i: nat, e: Node, m: nat)
    requires Valid(ts) && i + 1 < |ts| && ts[i] == Punct("(")
    requires ParseLevel(4, ts, i + 1) == Ok(Parsed(e, m))
    requires m < |ts| && ts[m] == Punct(")")
    ensures ParsePrimary(ts, i) == Ok(Parsed(e, m + 1))
    ensures Atom(ts, i, e, m + 1)
  {
    assert ParseExpr(ts, i + 1) == ParseLevel(4, ts, i + 1);
  }

  /** Parsing the fully parenthesised rendering of any tree, followed by
      the end of input, gives back exactly that tree and stops at the end. */
  lemma ParseUnparse(e: Node)
    ensures Valid(Unparse(e) + [Token(Eof, 0, 0, "")])
    ensures ParseExpr(Unparse(e) + [Token(Eof, 0, 0, "")], 0) == Ok(Parsed(e, |Unparse(e)|))
  {
    var ts := Unparse(e) + [Token(Eof, 0, 0, "")];
    assert ts[0..|Unparse(e)|] == Unparse(e);
    PrimaryUnparse(e, ts, 0, |Unparse(e)|);
    LevelAtom(4, ts, 0, e, |Unparse(e)|);
    assert ParseExpr(ts, 0) == ParseLevel(4, ts, 0);
  }
}
