/** The first generation of the compiler: a single-file expression compiler
    (ncc.c). It tokenizes one C string, parses one expression by recursive
    descent and emits x86-64 stack-machine code for it.

    The process-wide cursor `token` of the C code becomes an explicit index
    into an immutable token sequence, threaded through pure parse functions;
    the linked token list becomes a `seq<Token>`, the heap-allocated AST an
    immutable tree, and every `error_at` an `Err` carrying the offset of the
    offending character.
 */
module Ncc {
  import opened Chars
  import opened Results

  //
  // Tokens
  //

  datatype TokenKind = Reserved | Number | Eof

  /** A token. `pos` is where `str` points within the input and `text` the
      `len` characters found there. A number token consumes its digits but
      records `len == 0`, so its `text` is empty and only `val` is set. */
  datatype Token = Token(kind: TokenKind, val: int, pos: nat, text: string)

  /** The single-character punctuators of this generation. */
  const OneCharOps: string := "+-*/()<>"

  /** The token the tokenizer may place at `t.pos`: a punctuator read off
      the input (two characters whenever one of the four two-character
      punctuators starts there), or a number holding the value of the whole
      digit run that starts there. */
  ghost predicate Lexeme(s: string, t: Token)
  {
    && t.pos < |s|
    && match t.kind
       case Reserved =>
         && t.val == 0
         && t.pos + |t.text| <= |s|
         && t.text == s[t.pos..t.pos + |t.text|]
         && (|| t.text in TwoCharOps
             || (|t.text| == 1 && t.text[0] in OneCharOps && !TwoCharOpAt(s, t.pos)))
       case Number =>
         t.text == "" && IsDigit(s[t.pos]) && t.val == DecimalAt(s, t.pos)
       case Eof => false
  }

  /** Where the input consumed by `t` ends. */
  function End(s: string, t: Token): nat
  {
    if t.kind == Number && t.pos <= |s| then DigitRunEnd(s, t.pos) else t.pos + |t.text|
  }

  /** `s[a..b]` is whitespace only. */
  ghost predicate Blank(s: string, a: nat, b: nat)
  {
    a <= b <= |s| && forall q :: a <= q < b ==> IsSpace(s[q])
  }

  /** `ts` tiles the input from `p` on: lexemes separated by whitespace and
      followed by exactly one end-of-input token, positioned at the end. */
  ghost predicate Tiles(s: string, p: nat, ts: seq<Token>)
  {
    && |ts| >= 1
    && ts[|ts| - 1] == Token(Eof, 0, |s|, "")
    && (forall k :: 0 <= k < |ts| - 1 ==> Lexeme(s, ts[k]))
    && Blank(s, p, ts[0].pos)
    && (forall k :: 0 <= k < |ts| - 1 ==> Blank(s, End(s, ts[k]), ts[k + 1].pos))
  }

  /** A character at which no rule of the tokenizer applies. */
  predicate Unlexable(s: string, p: nat)
    requires p < |s|
  {
    !IsSpace(s[p]) && !TwoCharOpAt(s, p) && s[p] !in OneCharOps && !IsDigit(s[p])
  }

  /** The loop of `tokenize` from the character at `p` on. */
  function Lex(s: CString, p: nat): (r: Result<seq<Token>>)
    requires p <= |s|
    ensures r.Ok? ==> Tiles(s, p, r.value)
    ensures r.Err? ==> p <= r.error.pos < |s| && Unlexable(s, r.error.pos)
    ensures r.Err? ==> r.error.msg == "expected a number"
    decreases |s| - p
  {
    if p == |s| then
      Ok([Token(Eof, 0, p, "")])
    else if IsSpace(s[p]) then
      Lex(s, p + 1)
    else if TwoCharOpAt(s, p) then
      TwoCharOpInBounds(s, p);
      Emit(s, Token(Reserved, 0, p, s[p..p + 2]))
    else if s[p] in OneCharOps then
      Emit(s, Token(Reserved, 0, p, s[p..p + 1]))
    else if IsDigit(s[p]) then
      Emit(s, Token(Number, DecimalAt(s, p), p, ""))
    else
      Err(Error(p, "expected a number"))
  }

  /** `new_token` followed by the rest of the loop: the lexeme `t`, then the
      tokens of the input after it. */
  function Emit(s: CString, t: Token): (r: Result<seq<Token>>)
    requires Lexeme(s, t)
    ensures r.Ok? ==> Tiles(s, t.pos, r.value) && r.value[0] == t
    ensures r.Err? ==> End(s, t) <= r.error.pos < |s| && Unlexable(s, r.error.pos)
    ensures r.Err? ==> r.error.msg == "expected a number"
    decreases |s| - t.pos, 0
  {
    EndAfter(s, t);
    var rest :- Lex(s, End(s, t));
    Ok([t] + rest)
  }

  /** A lexeme consumes at least its first character and stays inside the
      input. */
  lemma EndAfter(s: string, t: Token)
    requires Lexeme(s, t)
    ensures t.pos < End(s, t) <= |s|
  {
    if t.kind == Reserved {
      assert |t.text| > 0 by {
        if t.text in TwoCharOps {
          assert |t.text| == 2;
        }
      }
    }
  }

  /** `tokenize()` on `user_input`. */
  function Tokenize(s: CString): (r: Result<seq<Token>>)
    ensures r.Ok? ==> Tiles(s, 0, r.value)
    ensures r.Err? ==> r.error.pos < |s| && Unlexable(s, r.error.pos)
  {
    Lex(s, 0)
  }

  //
  // Syntax tree
  //

  datatype BinOp = Add | Sub | Mul | Div | Eq | Neq | Ge | Le | Gt | Lt

  /** `ND_NUM` leaves and binary nodes owning their two operands. */
  datatype Node = Num(val: int) | Bin(op: BinOp, lhs: Node, rhs: Node)

  //
  // Parser
  //

  /** A parsed node and the index of the first token after it. */
  datatype Parsed = Parsed(node: Node, next: nat)

  /** A token list as `tokenize` links it: terminated by an end-of-input
      token, which no matching primitive ever steps over. */
  predicate Valid(ts: seq<Token>)
  {
    |ts| > 0 && ts[|ts| - 1].kind == Eof
  }

  /** `consume(op)`: whether the current token is the punctuator `op`, and
      the cursor after the attempt. */
  function Consume(ts: seq<Token>, i: nat, op: string): (r: (bool, nat))
    requires Valid(ts) && i < |ts|
    ensures r.1 < |ts|
    ensures r.0 <==> ts[i].kind == Reserved && ts[i].text == op
    ensures r.1 == if r.0 then i + 1 else i
  {
    if ts[i].kind != Reserved || |ts[i].text| != |op| || ts[i].text != op then (false, i)
    else (true, i + 1)
  }

  /** `expect(op)`: the cursor after the punctuator `op`, or an error at the
      current token. */
  function Expect(ts: seq<Token>, i: nat, op: string): (r: Result<nat>)
    requires Valid(ts) && i < |ts|
    ensures r.Ok? <==> ts[i].kind == Reserved && ts[i].text == op
    ensures r.Ok? ==> r.value == i + 1 < |ts|
    ensures r.Err? ==> r.error.pos == ts[i].pos
  {
    if ts[i].kind != Reserved || |ts[i].text| != |op| || ts[i].text != op then
      Err(Error(ts[i].pos, "expected '" + op + "'"))
    else
      Ok(i + 1)
  }

  /** `expect_number()`: the value of the current number token and the
      cursor after it, or an error at the current token. */
  function ExpectNumber(ts: seq<Token>, i: nat): (r: Result<(int, nat)>)
    requires Valid(ts) && i < |ts|
    ensures r.Ok? <==> ts[i].kind == Number
    ensures r.Ok? ==> r.value == (ts[i].val, i + 1) && i + 1 < |ts|
    ensures r.Err? ==> r.error == Error(ts[i].pos, "expected a number")
  {
    if ts[i].kind != Number then Err(Error(ts[i].pos, "expected a number"))
    else Ok((ts[i].val, i + 1))
  }

  /** `is_at_eof()`; the driver never calls it. */
  predicate IsAtEof(ts: seq<Token>, i: nat)
    requires i < |ts|
  {
    ts[i].kind == Eof
  }

  // The parse functions are mutually recursive. Each one's measure is the
  // pair (tokens left, grammar level): a loop step consumes an operator
  // before it descends, and the only way back up to `expr` is through a
  // consumed "(". Every successful parse consumes at least one token and
  // stops before the end-of-input token.

  /** expr = equality */
  function ParseExpr(ts: seq<Token>, i: nat): (r: Result<Parsed>)
    requires Valid(ts) && i < |ts|
    ensures r.Ok? ==> i < r.value.next < |ts|
    decreases |ts| - i, 10
  {
    ParseEquality(ts, i)
  }

  /** equality = relational ("==" relational | "!=" relational)* */
  function ParseEquality(ts: seq<Token>, i: nat): (r: Result<Parsed>)
    requires Valid(ts) && i < |ts|
    ensures r.Ok? ==> i < r.value.next < |ts|
    decreases |ts| - i, 9
  {
    var lhs :- ParseRelational(ts, i);
    EqualityTail(ts, lhs.next, lhs.node)
  }

  /** The `for (;;)` loop of `equality` with `node` built so far. */
  function EqualityTail(ts: seq<Token>, i: nat, node: Node): (r: Result<Parsed>)
    requires Valid(ts) && i < |ts|
    ensures r.Ok? ==> i <= r.value.next < |ts|
    decreases |ts| - i, 8
  {
    var (eq, j) := Consume(ts, i, "==");
    if eq then
      var rhs :- ParseRelational(ts, j);
      EqualityTail(ts, rhs.next, Bin(Eq, node, rhs.node))
    else
      var (ne, j) := Consume(ts, i, "!=");
      if ne then
        var rhs :- ParseRelational(ts, j);
        EqualityTail(ts, rhs.next, Bin(Neq, node, rhs.node))
      else
        Ok(Parsed(node, i))
  }

  /** relational = add (">=" add | "<=" add | ">" add | "<" add)* */
  function ParseRelational(ts: seq<Token>, i: nat): (r: Result<Parsed>)
    requires Valid(ts) && i < |ts|
    ensures r.Ok? ==> i < r.value.next < |ts|
    decreases |ts| - i, 7
  {
    var lhs :- ParseAdd(ts, i);
    RelationalTail(ts, lhs.next, lhs.node)
  }

  function RelationalTail(ts: seq<Token>, i: nat, node: Node): (r: Result<Parsed>)
    requires Valid(ts) && i < |ts|
    ensures r.Ok? ==> i <= r.value.next < |ts|
    decreases |ts| - i, 6
  {
    var (ge, j) := Consume(ts, i, ">=");
    if ge then
      var rhs :- ParseAdd(ts, j);
      RelationalTail(ts, rhs.next, Bin(Ge, node, rhs.node))
    else
      var (le, j) := Consume(ts, i, "<=");
      if le then
        var rhs :- ParseAdd(ts, j);
        RelationalTail(ts, rhs.next, Bin(Le, node, rhs.node))
      else
        var (gt, j) := Consume(ts, i, ">");
        if gt then
          var rhs :- ParseAdd(ts, j);
          RelationalTail(ts, rhs.next, Bin(Gt, node, rhs.node))
        else
          var (lt, j) := Consume(ts, i, "<");
          if lt then
            var rhs :- ParseAdd(ts, j);
            RelationalTail(ts, rhs.next, Bin(Lt, node, rhs.node))
          else
            Ok(Parsed(node, i))
  }

  /** add = mul ("+" mul | "-" mul)* */
  function ParseAdd(ts: seq<Token>, i: nat): (r: Result<Parsed>)
    requires Valid(ts) && i < |ts|
    ensures r.Ok? ==> i < r.value.next < |ts|
    decreases |ts| - i, 5
  {
    var lhs :- ParseMul(ts, i);
    AddTail(ts, lhs.next, lhs.node)
  }

  function AddTail(ts: seq<Token>, i: nat, node: Node): (r: Result<Parsed>)
    requires Valid(ts) && i < |ts|
    ensures r.Ok? ==> i <= r.value.next < |ts|
    decreases |ts| - i, 4
  {
    var (plus, j) := Consume(ts, i, "+");
    if plus then
      var rhs :- ParseMul(ts, j);
      AddTail(ts, rhs.next, Bin(Add, node, rhs.node))
    else
      var (minus, j) := Consume(ts, i, "-");
      if minus then
        var rhs :- ParseMul(ts, j);
        AddTail(ts, rhs.next, Bin(Sub, node, rhs.node))
      else
        Ok(Parsed(node, i))
  }

  /** mul = unary ("*" unary | "/" unary)* */
  function ParseMul(ts: seq<Token>, i: nat): (r: Result<Parsed>)
    requires Valid(ts) && i < |ts|
    ensures r.Ok? ==> i < r.value.next < |ts|
    decreases |ts| - i, 3
  {
    var lhs :- ParseUnary(ts, i);
    MulTail(ts, lhs.next, lhs.node)
  }

  function MulTail(ts: seq<Token>, i: nat, node: Node): (r: Result<Parsed>)
    requires Valid(ts) && i < |ts|
    ensures r.Ok? ==> i <= r.value.next < |ts|
    decreases |ts| - i, 2
  {
    var (times, j) := Consume(ts, i, "*");
    if times then
      var rhs :- ParseUnary(ts, j);
      MulTail(ts, rhs.next, Bin(Mul, node, rhs.node))
    else
      var (over, j) := Consume(ts, i, "/");
      if over then
        var rhs :- ParseUnary(ts, j);
        MulTail(ts, rhs.next, Bin(Div, node, rhs.node))
      else
        Ok(Parsed(node, i))
  }

  /** unary = ("+" | "-")? primary, where "-" x stands for 0 - x */
  function ParseUnary(ts: seq<Token>, i: nat): (r: Result<Parsed>)
    requires Valid(ts) && i < |ts|
    ensures r.Ok? ==> i < r.value.next < |ts|
    decreases |ts| - i, 1
  {
    var (plus, j) := Consume(ts, i, "+");
    if plus then
      ParsePrimary(ts, j)
    else
      var (minus, j) := Consume(ts, i, "-");
      if minus then
        var operand :- ParsePrimary(ts, j);
        Ok(Parsed(Bin(Sub, Num(0), operand.node), operand.next))
      else
        ParsePrimary(ts, i)
  }

  /** primary = num | "(" expr ")" */
  function ParsePrimary(ts: seq<Token>, i: nat): (r: Result<Parsed>)
    requires Valid(ts) && i < |ts|
    ensures r.Ok? ==> i < r.value.next < |ts|
    decreases |ts| - i, 0
  {
    var (open, j) := Consume(ts, i, "(");
    if open then
      var inner :- ParseExpr(ts, j);
      var k :- Expect(ts, inner.next, ")");
      Ok(Parsed(inner.node, k))
    else
      var num :- ExpectNumber(ts, i);
      Ok(Parsed(Num(num.0), num.1))
  }

  //
  // Code generator
  //

  /** One line `gen` or the driver prints, in the order of the source. */
  datatype Instr =
    | Push(imm: int)   // push <imm>
    | PopRdi           // pop rdi
    | PopRax           // pop rax
    | AddRaxRdi        // add rax, rdi
    | SubRaxRdi        // sub rax, rdi
    | ImulRaxRdi       // imul rax, rdi
    | Cqo              // cqo
    | IdivRdi          // idiv rdi
    | CmpRaxRdi        // cmp rax, rdi
    | CmpRdiRax        // cmp rdi, rax
    | Sete             // sete al
    | Setne            // setne al
    | Setl             // setl al
    | Setle            // setle al
    | MovzbRaxAl       // movzb rax, al
    | PushRax          // push rax
    | Ret              // ret

  /** The text `printf` writes for one instruction. */
  function Line(ins: Instr): string
  {
    match ins
    case Push(n) => "    push " + IntText(n) + "\n"
    case PopRdi => "    pop rdi\n"
    case PopRax => "    pop rax\n"
    case AddRaxRdi => "    add rax, rdi\n"
    case SubRaxRdi => "    sub rax, rdi\n"
    case ImulRaxRdi => "    imul rax, rdi\n"
    case Cqo => "    cqo\n"
    case IdivRdi => "    idiv rdi\n"
    case CmpRaxRdi => "    cmp rax, rdi\n"
    case CmpRdiRax => "    cmp rdi, rax\n"
    case Sete => "    sete al\n"
    case Setne => "    setne al\n"
    case Setl => "    setl al\n"
    case Setle => "    setle al\n"
    case MovzbRaxAl => "    movzb rax, al\n"
    case PushRax => "    push rax\n"
    case Ret => "    ret\n"
  }

  /** The text of a whole instruction sequence, one line per instruction. */
  function Lines(prog: seq<Instr>): string
  {
    if |prog| == 0 then "" else Line(prog[0]) + Lines(prog[1..])
  }

  /** Printing two pieces one after the other writes the text of the
      joined sequence: `gen` may print each instruction as it goes, as the
      C code does, instead of building the whole sequence first. */
  lemma {:induction false} LinesAppend(p: seq<Instr>, q: seq<Instr>)
    ensures Lines(p + q) == Lines(p) + Lines(q)
    decreases |p|
  {
    if |p| == 0 {
      assert p + q == q;
    } else {
      assert (p + q)[1..] == p[1..] + q;
      LinesAppend(p[1..], q);
      AppendAssoc(Line(p[0]), Lines(p[1..]), Lines(q));
    }
  }

  lemma AppendAssoc(a: string, b: string, c: string)
    ensures a + (b + c) == (a + b) + c
  {
  }

  /** The `switch` of `gen`: combines `rax` (left) and `rdi` (right) into `rax`. */
  function Operate(op: BinOp): seq<Instr>
  {
    match op
    case Add => [AddRaxRdi]
    case Sub => [SubRaxRdi]
    case Mul => [ImulRaxRdi]
    case Div => [Cqo, IdivRdi]
    case Le => [CmpRaxRdi, Setle, MovzbRaxAl]
    case Lt => [CmpRaxRdi, Setl, MovzbRaxAl]
    case Ge => [CmpRdiRax, Setle, MovzbRaxAl]
    case Gt => [CmpRdiRax, Setl, MovzbRaxAl]
    case Eq => [CmpRaxRdi, Sete, MovzbRaxAl]
    case Neq => [CmpRaxRdi, Setne, MovzbRaxAl]
  }

  /** `gen(node)`: code that pushes the value of `node`. */
  function Gen(node: Node): seq<Instr>
  {
    match node
    case Num(v) => [Push(v)]
    case Bin(op, l, r) => Gen(l) + Gen(r) + [PopRdi, PopRax] + Operate(op) + [PushRax]
  }

  //
  // Driver
  //

  /** The instructions `main` emits after the `main:` label: one expression
      is parsed from the first token, whatever follows it is ignored, and
      its value is popped into `rax` as `main`'s return value. */
  function Compile(input: CString): Result<seq<Instr>>
  {
    var ts :- Tokenize(input);
    var e :- ParseExpr(ts, 0);
    Ok(Gen(e.node) + [PopRax, Ret])
  }

  const Header: string := ".intel_syntax noprefix\n.global main\nmain:\n"

  /** Everything `main` writes to standard output for `argv[1] == input`. */
  function Main(input: CString): Result<string>
  {
    var prog :- Compile(input);
    Ok(Header + Lines(prog))
  }
}
