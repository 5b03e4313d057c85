/** The parser of the second generation of the compiler (parse.c).

    It adds to the first generation a program of `;`-terminated statements,
    a right-associative assignment and single-letter local variables, each
    at a fixed offset from the frame pointer computed from its letter as
    `(c - 'a' + 1) * 8`: below the frame pointer for `a` to `z`, and a
    negative offset, above it, for the other one-character names `A` to
    `Z` and `_`.
    There is no variable table, no keyword and no check that the left side
    of `=` is a variable.

    As in the first generation, the process-wide cursor `token` becomes an
    index threaded through pure functions over an immutable token sequence,
    and each `error_at` an `Err` at the offending token.
 */
module Parser {
  import opened Chars
  import opened Results
  import opened Tokenizer

  //
  // Syntax tree
  //

  datatype BinOp = Add | Sub | Mul | Div | Eq | Neq | Ge | Le | Gt | Lt

  /** `ND_NUM` and `ND_LVAR` leaves, binary nodes and `ND_ASSIGN`, each
      owning its operands. `offset` is the `offset_bytes` of a variable. */
  datatype Node =
    | Num(val: int)
    | LVar(offset: int)
    | Bin(op: BinOp, lhs: Node, rhs: Node)
    | Assign(lhs: Node, rhs: Node)

  /** A parsed node and the index of the first token after it. */
  datatype Parsed = Parsed(node: Node, next: nat)

  /** `code` holds 100 slots: the statements and the NULL that ends them. */
  const Capacity: nat := 100

  const TooManyStatements: string := "too many statements"

  /** `new_node_lvar(offset_stacks)`: a variable `offset_stacks` 8-byte
      stack slots below the frame pointer (above it when `offset_stacks`
      is negative). */
  function NewNodeLvar(offsetStacks: int): (n: Node)
    ensures n.LVar? && n.offset % 8 == 0
  {
    LVar(offsetStacks * 8)
  }

  /** The offset `primary` gives a one-letter variable named `c`. */
  function VarOffset(c: char): int
  {
    NewNodeLvar((c as int) - ('a' as int) + 1).offset
  }

  //
  // Token cursor
  //

  /** A token list as `tokenize` links it: terminated by an end-of-input
      token, which no matching primitive ever steps over. */
  predicate Valid(ts: seq<Token>)
  {
    |ts| > 0 && ts[|ts| - 1].kind == Eof
  }

  /** `consume(op)`: whether the current token is the punctuator `op`, and
      the cursor after the attempt. The length is compared before the
      characters, so `>` does not match a `>=` token. */
  function Consume(ts: seq<Token>, i: nat, op: string): (r: (bool, nat))
    requires Valid(ts) && i < |ts|
    ensures r.1 < |ts|
    ensures r.0 <==> ts[i].kind == Reserved && ts[i].text == op
    ensures r.1 == if r.0 then i + 1 else i
  {
    if ts[i].kind != Reserved || |ts[i].text| != |op| || ts[i].text != op then (false, i)
    else (true, i + 1)
  }

  /** `consume_ident()`: the current token if it is an identifier of exactly
      one character, and the cursor after the attempt. */
  function ConsumeIdent(ts: seq<Token>, i: nat): (r: (Option<Token>, nat))
    requires Valid(ts) && i < |ts|
    ensures r.1 < |ts|
    ensures r.0.Some? <==> ts[i].kind == Ident && |ts[i].text| == 1
    ensures r.0.Some? ==> r.0.value == ts[i] && r.1 == i + 1
    ensures r.0.None? ==> r.1 == i
  {
    if ts[i].kind != Ident || |ts[i].text| != 1 then (None, i)
    else (Some(ts[i]), i + 1)
  }

  /** `expect(op)`: the cursor after the punctuator `op`, or an error at the
      current token. */
  function Expect(ts: seq<Token>, i: nat, op: string): (r: Result<nat>)
    requires Valid(ts) && i < |ts|
    ensures r.Ok? <==> ts[i].kind == Reserved && ts[i].text == op
    ensures r.Ok? ==> r.value == i + 1 < |ts|
    ensures r.Err? ==> r.error == Error(ts[i].pos, "expected '" + op + "'")
  {
    if ts[i].kind != Reserved || |ts[i].text| != |op| || ts[i].text != op then
      Err(Error(ts[i].pos, "expected '" + op + "'"))
    else
      Ok(i + 1)
  }

  /** `expect_number()`: the value of the current number token and the
      cursor after it, or an error at the current token. */
  function ExpectNumber(ts: seq<Token>, i: nat): (r: Result<(int, nat)>)
    requires Valid(ts) && i < |ts|
    ensures r.Ok? <==> ts[i].kind == Number
    ensures r.Ok? ==> r.value == (ts[i].val, i + 1) && i + 1 < |ts|
    ensures r.Err? ==> r.error == Error(ts[i].pos, "expected a number")
  {
    if ts[i].kind != Number then Err(Error(ts[i].pos, "expected a number"))
    else Ok((ts[i].val, i + 1))
  }

  /** `is_at_eof()`. */
  predicate IsAtEof(ts: seq<Token>, i: nat)
    requires i < |ts|
  {
    ts[i].kind == Eof
  }

  //
  // Grammar
  //

  // The parse functions are mutually recursive. Each one's measure is the
  // pair (tokens left, grammar level): a loop step consumes an operator
  // before it descends, and the only ways back up to `assign` are through a
  // consumed "(" or "=". Every successful parse consumes at least one token
  // and stops before the end-of-input token.

  /** program = statement*, stored in `code` with a NULL after the last
      statement. The C loop writes past the end of `code` once a 100th
      statement has been parsed; here that is an error at the token where
      the write happens. */
  function Program(ts: seq<Token>): (r: Result<seq<Node>>)
    requires Valid(ts)
    ensures r.Ok? ==> |r.value| < Capacity
  {
    Statements(ts, 0, [])
  }

  /** The `while` loop of `program` from token `i` on, with the statements
      `code` stored so far. */
  function Statements(ts: seq<Token>, i: nat, code: seq<Node>): (r: Result<seq<Node>>)
    requires Valid(ts) && i < |ts|
    ensures r.Ok? ==> |code| <= |r.value| < Capacity && r.value[..|code|] == code
    decreases |ts| - i
  {
    if IsAtEof(ts, i) then
      if |code| >= Capacity then Err(Error(ts[i].pos, TooManyStatements))
      else Ok(code)
    else
      var st :- Statement(ts, i);
      if |code| >= Capacity then Err(Error(ts[i].pos, TooManyStatements))
      else
        var r := Statements(ts, st.next, code + [st.node]);
        if r.Ok? then
          assert r.value[..|code|] == (code + [st.node])[..|code|] == code;
          r
        else r
  }

  /** statement = expr ";" */
  function Statement(ts: seq<Token>, i: nat): (r: Result<Parsed>)
    requires Valid(ts) && i < |ts|
    ensures r.Ok? ==> i < r.value.next < |ts|
    ensures r.Ok? ==> ts[r.value.next - 1].kind == Reserved && ts[r.value.next - 1].text == ";"
  {
    var e :- ParseExpr(ts, i);
    var k :- Expect(ts, e.next, ";");
    Ok(Parsed(e.node, k))
  }

  /** expr = assign */
  function ParseExpr(ts: seq<Token>, i: nat): (r: Result<Parsed>)
    requires Valid(ts) && i < |ts|
    ensures r.Ok? ==> i < r.value.next < |ts|
    decreases |ts| - i, 11
  {
    ParseAssign(ts, i)
  }

  /** assign = equality ("=" assign)? */
  function ParseAssign(ts: seq<Token>, i: nat): (r: Result<Parsed>)
    requires Valid(ts) && i < |ts|
    ensures r.Ok? ==> i < r.value.next < |ts|
    decreases |ts| - i, 10
  {
    var lhs :- ParseEquality(ts, i);
    var (assign, j) := Consume(ts, lhs.next, "=");
    if assign then
      var rhs :- ParseAssign(ts, j);
      Ok(Parsed(Assign(lhs.node, rhs.node), rhs.next))
    else
      Ok(lhs)
  }

  /** equality = relational ("==" relational | "!=" relational)* */
  function ParseEquality(ts: seq<Token>, i: nat): (r: Result<Parsed>)
    requires Valid(ts) && i < |ts|
    ensures r.Ok? ==> i < r.value.next < |ts|
    decreases |ts| - i, 9
  {
    var lhs :- ParseRelational(ts, i);
    EqualityTail(ts, lhs.next, lhs.node)
  }

  /** The `for (;;)` loop of `equality` with `node` built so far. */
  function EqualityTail(ts: seq<Token>, i: nat, node: Node): (r: Result<Parsed>)
    requires Valid(ts) && i < |ts|
    ensures r.Ok? ==> i <= r.value.next < |ts|
    decreases |ts| - i, 8
  {
    var (eq, j) := Consume(ts, i, "==");
    if eq then
      var rhs :- ParseRelational(ts, j);
      EqualityTail(ts, rhs.next, Bin(Eq, node, rhs.node))
    else
      var (ne, j) := Consume(ts, i, "!=");
      if ne then
        var rhs :- ParseRelational(ts, j);
        EqualityTail(ts, rhs.next, Bin(Neq, node, rhs.node))
      else
        Ok(Parsed(node, i))
  }

  /** relational = add (">=" add | "<=" add | ">" add | "<" add)* */
  function ParseRelational(ts: seq<Token>, i: nat): (r: Result<Parsed>)
    requires Valid(ts) && i < |ts|
    ensures r.Ok? ==> i < r.value.next < |ts|
    decreases |ts| - i, 7
  {
    var lhs :- ParseAdd(ts, i);
    RelationalTail(ts, lhs.next, lhs.node)
  }

  function RelationalTail(ts: seq<Token>, i: nat, node: Node): (r: Result<Parsed>)
    requires Valid(ts) && i < |ts|
    ensures r.Ok? ==> i <= r.value.next < |ts|
    decreases |ts| - i, 6
  {
    var (ge, j) := Consume(ts, i, ">=");
    if ge then
      var rhs :- ParseAdd(ts, j);
      RelationalTail(ts, rhs.next, Bin(Ge, node, rhs.node))
    else
      var (le, j) := Consume(ts, i, "<=");
      if le then
        var rhs :- ParseAdd(ts, j);
        RelationalTail(ts, rhs.next, Bin(Le, node, rhs.node))
      else
        var (gt, j) := Consume(ts, i, ">");
        if gt then
          var rhs :- ParseAdd(ts, j);
          RelationalTail(ts, rhs.next, Bin(Gt, node, rhs.node))
        else
          var (lt, j) := Consume(ts, i, "<");
          if lt then
            var rhs :- ParseAdd(ts, j);
            RelationalTail(ts, rhs.next, Bin(Lt, node, rhs.node))
          else
            Ok(Parsed(node, i))
  }

  /** add = mul ("+" mul | "-" mul)* */
  function ParseAdd(ts: seq<Token>, i: nat): (r: Result<Parsed>)
    requires Valid(ts) && i < |ts|
    ensures r.Ok? ==> i < r.value.next < |ts|
    decreases |ts| - i, 5
  {
    var lhs :- ParseMul(ts, i);
    AddTail(ts, lhs.next, lhs.node)
  }

  function AddTail(ts: seq<Token>, i: nat, node: Node): (r: Result<Parsed>)
    requires Valid(ts) && i < |ts|
    ensures r.Ok? ==> i <= r.value.next < |ts|
    decreases |ts| - i, 4
  {
    var (plus, j) := Consume(ts, i, "+");
    if plus then
      var rhs :- ParseMul(ts, j);
      AddTail(ts, rhs.next, Bin(Add, node, rhs.node))
    else
      var (minus, j) := Consume(ts, i, "-");
      if minus then
        var rhs :- ParseMul(ts, j);
        AddTail(ts, rhs.next, Bin(Sub, node, rhs.node))
      else
        Ok(Parsed(node, i))
  }

  /** mul = unary ("*" unary | "/" unary)* */
  function ParseMul(ts: seq<Token>, i: nat): (r: Result<Parsed>)
    requires Valid(ts) && i < |ts|
    ensures r.Ok? ==> i < r.value.next < |ts|
    decreases |ts| - i, 3
  {
    var lhs :- ParseUnary(ts, i);
    MulTail(ts, lhs.next, lhs.node)
  }

  function MulTail(ts: seq<Token>, i: nat, node: Node): (r: Result<Parsed>)
    requires Valid(ts) && i < |ts|
    ensures r.Ok? ==> i <= r.value.next < |ts|
    decreases |ts| - i, 2
  {
    var (times, j) := Consume(ts, i, "*");
    if times then
      var rhs :- ParseUnary(ts, j);
      MulTail(ts, rhs.next, Bin(Mul, node, rhs.node))
    else
      var (over, j) := Consume(ts, i, "/");
      if over then
        var rhs :- ParseUnary(ts, j);
        MulTail(ts, rhs.next, Bin(Div, node, rhs.node))
      else
        Ok(Parsed(node, i))
  }

  /** unary = ("+" | "-")? primary, where "-" x stands for 0 - x */
  function ParseUnary(ts: seq<Token>, i: nat): (r: Result<Parsed>)
    requires Valid(ts) && i < |ts|
    ensures r.Ok? ==> i < r.value.next < |ts|
    decreases |ts| - i, 1
  {
    var (plus, j) := Consume(ts, i, "+");
    if plus then
      ParsePrimary(ts, j)
    else
      var (minus, j) := Consume(ts, i, "-");
      if minus then
        var operand :- ParsePrimary(ts, j);
        Ok(Parsed(Bin(Sub, Num(0), operand.node), operand.next))
      else
        ParsePrimary(ts, i)
  }

  /** primary = num | ident | "(" expr ")", where only one-character
      identifiers are accepted. */
  function ParsePrimary(ts: seq<Token>, i: nat): (r: Result<Parsed>)
    requires Valid(ts) && i < |ts|
    ensures r.Ok? ==> i < r.value.next < |ts|
    decreases |ts| - i, 0
  {
    var (open, j) := Consume(ts, i, "(");
    if open then
      var inner :- ParseExpr(ts, j);
      var k :- Expect(ts, inner.next, ")");
      Ok(Parsed(inner.node, k))
    else
      var (tok, j) := ConsumeIdent(ts, i);
      if tok.Some? then
        Ok(Parsed(NewNodeLvar((tok.value.text[0] as int) - ('a' as int) + 1), j))
      else
        var num :- ExpectNumber(ts, i);
        Ok(Parsed(Num(num.0), num.1))
  }

  //
  // Front end
  //

  /** `tokenize()` followed by `program()`: the statements stored in `code`. */
  function Parse(input: CString): Result<seq<Node>>
  {
    var ts :- Tokenize(input);
    Program(ts)
  }
}
