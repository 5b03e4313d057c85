/** What the code of ncc.c's `gen` does when it runs: a small interpreter for
    the emitted instructions, a reference evaluator for syntax trees, and the
    proof that `gen(e)` pushes exactly the value of `e` and nothing else.

    Registers and stack slots hold unbounded integers (no 64-bit
    wrap-around). A `pop` from an empty stack and an `idiv` by zero fault.
 */
module NccMachine {
  import opened Chars
  import opened Results
  import opened Ncc

  /** The machine state the emitted code touches: the stack (top last),
      `rax`, `rdi`, `rdx`, and the two operands of the last `cmp`, which is
      all the `setCC` instructions read from the flags. */
  datatype Machine = Machine(stack: seq<int>, rax: int, rdi: int, rdx: int, cmpL: int, cmpR: int)

  /** Signed division as `idiv` performs it: the quotient truncated toward
      zero, so -7 / 2 is -3 (Dafny's own `/` is Euclidean and gives -4). */
  function TruncDiv(a: int, b: int): (q: int)
    requires b != 0
    ensures (a < 0) == (b < 0) ==> q >= 0
    ensures (a < 0) != (b < 0) ==> q <= 0
    ensures Abs(q) * Abs(b) <= Abs(a) < (Abs(q) + 1) * Abs(b)
  {
    var q := Abs(a) / Abs(b);
    DivBounds(Abs(a), Abs(b), q);
    if (a < 0) == (b < 0) then q else -q
  }

  lemma DivBounds(x: nat, y: nat, q: nat)
    requires y > 0 && q == x / y
    ensures q * y <= x < (q + 1) * y
  {
    assert x == q * y + x % y;
  }

  function TruncRem(a: int, b: int): int
    requires b != 0
  {
    a - TruncDiv(a, b) * b
  }

  function Abs(a: int): nat
  {
    if a < 0 then -a else a
  }

  /** The low byte of `rax`, as `al` sees it in two's complement. */
  function Low8(x: int): int
  {
    x % 256
  }

  /** `setCC al`: replace the low byte of `rax` by 1 or 0. */
  function SetAl(rax: int, b: bool): int
  {
    rax - Low8(rax) + (if b then 1 else 0)
  }

  /** One instruction. `idiv` faults on a zero divisor; it is only modelled
      for a dividend that `cqo` has sign-extended into `rdx`. */
  function Step(m: Machine, ins: Instr): Option<Machine>
  {
    match ins
    case Push(n) => Some(m.(stack := m.stack + [n]))
    case PopRdi =>
      if |m.stack| == 0 then None
      else Some(m.(rdi := m.stack[|m.stack| - 1], stack := m.stack[..|m.stack| - 1]))
    case PopRax =>
      if |m.stack| == 0 then None
      else Some(m.(rax := m.stack[|m.stack| - 1], stack := m.stack[..|m.stack| - 1]))
    case AddRaxRdi => Some(m.(rax := m.rax + m.rdi))
    case SubRaxRdi => Some(m.(rax := m.rax - m.rdi))
    case ImulRaxRdi => Some(m.(rax := m.rax * m.rdi))
    case Cqo => Some(m.(rdx := if m.rax < 0 then -1 else 0))
    case IdivRdi =>
      if m.rdi == 0 || m.rdx != (if m.rax < 0 then -1 else 0) then None
      else Some(m.(rax := TruncDiv(m.rax, m.rdi), rdx := TruncRem(m.rax, m.rdi)))
    case CmpRaxRdi => Some(m.(cmpL := m.rax, cmpR := m.rdi))
    case CmpRdiRax => Some(m.(cmpL := m.rdi, cmpR := m.rax))
    case Sete => Some(m.(rax := SetAl(m.rax, m.cmpL == m.cmpR)))
    case Setne => Some(m.(rax := SetAl(m.rax, m.cmpL != m.cmpR)))
    case Setl => Some(m.(rax := SetAl(m.rax, m.cmpL < m.cmpR)))
    case Setle => Some(m.(rax := SetAl(m.rax, m.cmpL <= m.cmpR)))
    case MovzbRaxAl => Some(m.(rax := Low8(m.rax)))
    case PushRax => Some(m.(stack := m.stack + [m.rax]))
    case Ret => Some(m)
  }

  /** Runs a straight-line program; `ret` hands the state back to the caller,
      which then finds the return value in `rax`. */
  function Run(prog: seq<Instr>, m: Machine): Option<Machine>
    decreases |prog|
  {
    if |prog| == 0 then Some(m)
    else match Step(m, prog[0])
      case None => None
      case Some(m') => Run(prog[1..], m')
  }

  /** Running two programs one after the other. */
  lemma {:induction false} RunAppend(a: seq<Instr>, b: seq<Instr>, m: Machine)
    ensures Run(a + b, m) == match Run(a, m) case None => None case Some(m') => Run(b, m')
    decreases |a|
  {
    if |a| == 0 {
      assert a + b == b;
    } else {
      assert (a + b)[0] == a[0];
      assert (a + b)[1..] == a[1..] + b;
      match Step(m, a[0])
      case None =>
      case Some(m') => RunAppend(a[1..], b, m');
    }
  }

  /** The value of a binary operator in C with 64-bit `long`s (no overflow):
      comparisons give 0 or 1, division truncates, a zero divisor traps. */
  function Apply(op: BinOp, a: int, b: int): Option<int>
  {
    match op
    case Add => Some(a + b)
    case Sub => Some(a - b)
    case Mul => Some(a * b)
    case Div => if b == 0 then None else Some(TruncDiv(a, b))
    case Eq => Some(if a == b then 1 else 0)
    case Neq => Some(if a != b then 1 else 0)
    case Ge => Some(if a >= b then 1 else 0)
    case Le => Some(if a <= b then 1 else 0)
    case Gt => Some(if a > b then 1 else 0)
    case Lt => Some(if a < b then 1 else 0)
  }

  /** The value of an expression; `None` when a division by zero occurs. */
  function Eval(e: Node): Option<int>
  {
    match e
    case Num(v) => Some(v)
    case Bin(op, l, r) =>
      match Eval(l)
      case None => None
      case Some(a) =>
        match Eval(r)
        case None => None
        case Some(b) => Apply(op, a, b)
  }

  /** After `setCC al`, `movzb rax, al` leaves exactly the condition bit. */
  lemma SetAlThenZeroExtend(rax: int, b: bool)
    ensures Low8(SetAl(rax, b)) == if b then 1 else 0
  {
    var k := rax / 256;
    assert rax - Low8(rax) == 256 * k;
    var c := if b then 1 else 0;
    assert (256 * k + c) % 256 == c;
  }

  /** Running a program whose first instruction does not fault. */
  lemma RunCons(ins: Instr, rest: seq<Instr>, m: Machine)
    requires Step(m, ins).Some?
    ensures Run([ins] + rest, m) == Run(rest, Step(m, ins).value)
  {
    assert ([ins] + rest)[0] == ins;
    assert ([ins] + rest)[1..] == rest;
  }

  /** The condition a `setCC` instruction tests of the compared pair. */
  function Holds(setcc: Instr, l: int, r: int): bool
    requires setcc == Sete || setcc == Setne || setcc == Setl || setcc == Setle
  {
    match setcc
    case Sete => l == r
    case Setne => l != r
    case Setl => l < r
    case _ => l <= r
  }

  /** The pair a compare instruction puts in the flags, left operand first. */
  function Compared(cmp: Instr, m: Machine): (int, int)
  {
    if cmp == CmpRaxRdi then (m.rax, m.rdi) else (m.rdi, m.rax)
  }

  lemma CompareStep(cmp: Instr, m: Machine)
    requires cmp == CmpRaxRdi || cmp == CmpRdiRax
    ensures Step(m, cmp) == Some(m.(cmpL := Compared(cmp, m).0, cmpR := Compared(cmp, m).1))
  {
  }

  lemma SetStep(setcc: Instr, m: Machine)
    requires setcc == Sete || setcc == Setne || setcc == Setl || setcc == Setle
    ensures Step(m, setcc) == Some(m.(rax := SetAl(m.rax, Holds(setcc, m.cmpL, m.cmpR))))
  {
  }

  /** A compare, a `setCC al` and a `movzb rax, al` in a row: `rax` ends up
      holding 1 when the condition holds of the compared pair and 0
      otherwise. */
  lemma RunCompare(cmp: Instr, setcc: Instr, m: Machine)
    requires cmp == CmpRaxRdi || cmp == CmpRdiRax
    requires setcc == Sete || setcc == Setne || setcc == Setl || setcc == Setle
    ensures Run([cmp, setcc, MovzbRaxAl], m).Some?
    ensures
      var (l, r) := Compared(cmp, m);
      Run([cmp, setcc, MovzbRaxAl], m).value.rax == (if Holds(setcc, l, r) then 1 else 0) &&
      Run([cmp, setcc, MovzbRaxAl], m).value.stack == m.stack
  {
    var (l, r) := Compared(cmp, m);
    var m1 := m.(cmpL := l, cmpR := r);
    var m2 := m1.(rax := SetAl(m1.rax, Holds(setcc, l, r)));
    var m3 := m2.(rax := Low8(m2.rax));
    CompareStep(cmp, m);
    SetStep(setcc, m1);
    assert Step(m2, MovzbRaxAl) == Some(m3);
    SetAlThenZeroExtend(m1.rax, Holds(setcc, l, r));
    assert [cmp, setcc, MovzbRaxAl] == [cmp] + ([setcc] + ([MovzbRaxAl] + []));
    RunCons(cmp, [setcc] + ([MovzbRaxAl] + []), m);
    RunCons(setcc, [MovzbRaxAl] + [], m1);
    RunCons(MovzbRaxAl, [], m2);
  }

  /** The `switch` of `gen` computes `Apply(op, rax, rdi)` into `rax`, or
      faults exactly when that traps; the stack is not touched. */
  lemma OperateValue(op: BinOp, m: Machine)
    ensures Run(Operate(op), m).Some? <==> Apply(op, m.rax, m.rdi).Some?
    ensures Apply(op, m.rax, m.rdi).Some? ==>
              Run(Operate(op), m).value.rax == Apply(op, m.rax, m.rdi).value &&
              Run(Operate(op), m).value.stack == m.stack
  {
    match op
    case Add =>
    case Sub =>
    case Mul =>
    case Div => DivideValue(m);
    case Le => RunCompare(CmpRaxRdi, Setle, m);
    case Lt => RunCompare(CmpRaxRdi, Setl, m);
    case Ge => RunCompare(CmpRdiRax, Setle, m);
    case Gt => RunCompare(CmpRdiRax, Setl, m);
    case Eq => RunCompare(CmpRaxRdi, Sete, m);
    case Neq => RunCompare(CmpRaxRdi, Setne, m);
  }

  /** `cqo; idiv rdi` divides `rax` by `rdi`, truncating, and faults on a
      zero divisor. */
  lemma DivideValue(m: Machine)
    ensures Run([Cqo, IdivRdi], m).Some? <==> m.rdi != 0
    ensures m.rdi != 0 ==>
              Run([Cqo, IdivRdi], m).value.rax == TruncDiv(m.rax, m.rdi) &&
              Run([Cqo, IdivRdi], m).value.stack == m.stack
  {
    var m1 := m.(rdx := if m.rax < 0 then -1 else 0);
    assert Step(m, Cqo) == Some(m1);
    RunCons(Cqo, [IdivRdi], m);
    assert [Cqo, IdivRdi] == [Cqo] + [IdivRdi];
    if m.rdi != 0 {
      RunCons(IdivRdi, [], m1);
    }
  }

  /** The instructions after the two operand pushes leave `Apply(op, a, b)`
      in place of the operands, or fault exactly when it traps. The swapped
      `cmp rdi, rax` is what makes `setle`/`setl` compute `>=`/`>`. */
  lemma OperateCorrect(op: BinOp, s: seq<int>, a: int, b: int, m: Machine)
    requires m.stack == s + [a, b]
    ensures Run([PopRdi, PopRax] + Operate(op) + [PushRax], m).Some? <==> Apply(op, a, b).Some?
    ensures Apply(op, a, b).Some? ==>
              Run([PopRdi, PopRax] + Operate(op) + [PushRax], m).value.stack == s + [Apply(op, a, b).value]
  {
    var m1 := m.(rdi := b, stack := s + [a]);
    var m2 := m1.(rax := a, stack := s);
    assert (s + [a, b])[..|s| + 1] == s + [a];
    assert (s + [a])[..|s|] == s;
    assert Step(m, PopRdi) == Some(m1);
    assert Step(m1, PopRax) == Some(m2);
    assert [PopRdi, PopRax] + Operate(op) + [PushRax] == [PopRdi, PopRax] + (Operate(op) + [PushRax]);
    RunAppend([PopRdi, PopRax], Operate(op) + [PushRax], m);
    assert [PopRdi, PopRax][1..] == [PopRax];
    assert Run([PopRdi, PopRax], m) == Some(m2);
    RunAppend(Operate(op), [PushRax], m2);
    OperateValue(op, m2);
  }

  /** `gen(e)` evaluates `e` on the stack: it faults exactly when evaluation
      divides by zero, and otherwise leaves the stack it found with the value
      of `e` pushed on top. */
  lemma {:induction false} GenCorrect(e: Node, m: Machine)
    ensures Run(Gen(e), m).Some? <==> Eval(e).Some?
    ensures Eval(e).Some? ==> Run(Gen(e), m).value.stack == m.stack + [Eval(e).value]
  {
    match e
    case Num(v) =>
    case Bin(op, l, r) =>
      var tail := [PopRdi, PopRax] + Operate(op) + [PushRax];
      assert Gen(e) == Gen(l) + (Gen(r) + tail);
      RunAppend(Gen(l), Gen(r) + tail, m);
      GenCorrect(l, m);
      if Eval(l).Some? {
        var m1 := Run(Gen(l), m).value;
        RunAppend(Gen(r), tail, m1);
        GenCorrect(r, m1);
        if Eval(r).Some? {
          var m2 := Run(Gen(r), m1).value;
          assert m2.stack == m.stack + [Eval(l).value, Eval(r).value];
          OperateCorrect(op, m.stack, Eval(l).value, Eval(r).value, m2);
        }
      }
  }

  /** A compiled program returns with the stack as it found it and the value
      of the parsed expression in `rax`, from whatever machine state `main`
      is entered in: the emitted code never reads a register before writing
      it. */
  lemma CompileCorrect(input: CString, ts: seq<Token>, e: Parsed, m: Machine)
    requires Tokenize(input) == Ok(ts)
    requires ParseExpr(ts, 0) == Ok(e)
    ensures Compile(input).Ok?
    ensures Run(Compile(input).value, m).Some? <==> Eval(e.node).Some?
    ensures Eval(e.node).Some? ==>
              var m' := Run(Compile(input).value, m).value;
              m'.rax == Eval(e.node).value && m'.stack == m.stack
  {
    CompiledCode(input, ts, e);
    RunMain(e.node, m);
  }

  /** The driver's code for a parsed expression: `gen`, then `pop rax; ret`. */
  lemma CompiledCode(input: CString, ts: seq<Token>, e: Parsed)
    requires Tokenize(input) == Ok(ts)
    requires ParseExpr(ts, 0) == Ok(e)
    ensures Compile(input) == Ok(Gen(e.node) + [PopRax, Ret])
  {
  }

  /** Running `gen(e)` and then `pop rax; ret` from any machine state. */
  lemma RunMain(e: Node, m: Machine)
    ensures Run(Gen(e) + [PopRax, Ret], m).Some? <==> Eval(e).Some?
    ensures Eval(e).Some? ==>
              var m' := Run(Gen(e) + [PopRax, Ret], m).value;
              m'.rax == Eval(e).value && m'.stack == m.stack
  {
    RunAppend(Gen(e), [PopRax, Ret], m);
    GenCorrect(e, m);
    if Eval(e).Some? {
      var s := m.stack;
      var m1 := Run(Gen(e), m).value;
      var m2 := m1.(rax := Eval(e).value, stack := s);
      assert (s + [Eval(e).value])[..|s|] == s;
      assert Step(m1, PopRax) == Some(m2);
      RunCons(PopRax, [Ret], m1);
      RunCons(Ret, [], m2);
    }
  }
}
