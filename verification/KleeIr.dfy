/** A small register machine with symbolic expressions: the arithmetic, comparison, select
    and branch instructions of the executor, for any meaning of their operators. */
module KleeIr {

  /** The meaning of the operators: arithmetic, comparison, and logic on one-bit values. */
  datatype Machine = Machine(alu: (int, int, int) -> int, cmp: (int, int, int) -> bool, bit: (int, bool, bool) -> bool)

  /** The values of the symbolic objects: the seed is one, any other test input another. */
  type Input = nat -> int

  datatype IExpr =
    | Const(value: int)
    | Symbol(index: nat)
    | Alu(op: int, left: IExpr, right: IExpr)
    | Ite(cond: BExpr, left: IExpr, right: IExpr)

  datatype BExpr =
    | BConst(truth: bool)
    | Cmp(op: int, a: IExpr, b: IExpr)
    | Bit(op: int, p: BExpr, q: BExpr)
    | IsZero(inner: BExpr)

  function EvalI(m: Machine, e: IExpr, w: Input): int {
    match e
    case Const(v) => v
    case Symbol(i) => w(i)
    case Alu(op, l, r) => m.alu(op, EvalI(m, l, w), EvalI(m, r, w))
    case Ite(c, l, r) => if EvalB(m, c, w) then EvalI(m, l, w) else EvalI(m, r, w)
  }

  predicate EvalB(m: Machine, e: BExpr, w: Input) {
    match e
    case BConst(v) => v
    case Cmp(op, a, b) => m.cmp(op, EvalI(m, a, w), EvalI(m, b, w))
    case Bit(op, p, q) => m.bit(op, EvalB(m, p, w), EvalB(m, q, w))
    case IsZero(x) => !EvalB(m, x, w)
  }

  // ---- Registers.

  function Read<T>(regs: seq<T>, k: nat, none: T): T { if k < |regs| then regs[k] else none }

  function Write<T>(regs: seq<T>, k: nat, v: T): seq<T> { if k < |regs| then regs[k := v] else regs }

  function EvalRegs(m: Machine, regs: seq<IExpr>, w: Input): seq<int> {
    seq(|regs|, i requires 0 <= i < |regs| => EvalI(m, regs[i], w))
  }

  function EvalBits(m: Machine, bits: seq<BExpr>, w: Input): seq<bool> {
    seq(|bits|, i requires 0 <= i < |bits| => EvalB(m, bits[i], w))
  }

  // ---- Programs and their concrete runs.

  datatype Operand = Reg(index: nat) | Imm(value: int)

  datatype Instr =
    | DoAlu(dst: nat, op: int, a: Operand, b: Operand)
    | DoCmp(dst: nat, op: int, a: Operand, b: Operand)
    | DoBit(dst: nat, op: int, p: nat, q: nat)
    | DoSelect(dst: nat, cond: nat, a: Operand, b: Operand)
    | Br(cond: nat, onTrue: nat, onFalse: nat)
    | Jump(target: nat)
    | Halt

  type Program = seq<Instr>

  function Fetch(prog: Program, pc: nat): Instr { if pc < |prog| then prog[pc] else Halt }

  datatype Concrete = Concrete(pc: nat, regs: seq<int>, bits: seq<bool>, path: seq<bool>)

  function Value(regs: seq<int>, o: Operand): int {
    match o
    case Reg(k) => Read(regs, k, 0)
    case Imm(v) => v
  }

  function Step(m: Machine, prog: Program, c: Concrete): Concrete {
    match Fetch(prog, c.pc)
    case DoAlu(d, op, a, b) =>
      Concrete(c.pc + 1, Write(c.regs, d, m.alu(op, Value(c.regs, a), Value(c.regs, b))), c.bits, c.path)
    case DoCmp(d, op, a, b) =>
      Concrete(c.pc + 1, c.regs, Write(c.bits, d, m.cmp(op, Value(c.regs, a), Value(c.regs, b))), c.path)
    case DoBit(d, op, p, q) =>
      Concrete(c.pc + 1, c.regs, Write(c.bits, d, m.bit(op, Read(c.bits, p, false), Read(c.bits, q, false))), c.path)
    case DoSelect(d, k, a, b) =>
      var v := if Read(c.bits, k, false) then Value(c.regs, a) else Value(c.regs, b);
      Concrete(c.pc + 1, Write(c.regs, d, v), c.bits, c.path)
    case Br(k, t, f) =>
      var taken := Read(c.bits, k, false);
      Concrete(if taken then t else f, c.regs, c.bits, c.path + [taken])
    case Jump(t) => Concrete(t, c.regs, c.bits, c.path)
    case Halt => c
  }

  function Run(m: Machine, prog: Program, c: Concrete, n: nat): Concrete {
    if n == 0 then c else Step(m, prog, Run(m, prog, c, n - 1))
  }

  // ---- The machine, instruction by instruction.

  lemma {:induction false} StepIs(m: Machine, prog: Program, c: Concrete)
    requires c.pc < |prog|
    ensures match prog[c.pc]
            case DoAlu(d, op, a, b) =>
              d < |c.regs| ==>
                Step(m, prog, c) ==
                c.(pc := c.pc + 1, regs := c.regs[d := m.alu(op, Value(c.regs, a), Value(c.regs, b))])
            case DoCmp(d, op, a, b) =>
              d < |c.bits| ==>
                Step(m, prog, c) ==
                c.(pc := c.pc + 1, bits := c.bits[d := m.cmp(op, Value(c.regs, a), Value(c.regs, b))])
            case DoBit(d, op, p, q) =>
              d < |c.bits| && p < |c.bits| && q < |c.bits| ==>
                Step(m, prog, c) == c.(pc := c.pc + 1, bits := c.bits[d := m.bit(op, c.bits[p], c.bits[q])])
            case DoSelect(d, k, a, b) =>
              d < |c.regs| && k < |c.bits| ==>
                Step(m, prog, c) == c.(pc := c.pc + 1, regs := c.regs[d := Value(c.regs, if c.bits[k] then a else b)])
            case Br(k, t, f) =>
              k < |c.bits| ==>
                Step(m, prog, c) == c.(pc := if c.bits[k] then t else f, path := c.path + [c.bits[k]])
            case Jump(t) => Step(m, prog, c) == c.(pc := t)
            case Halt => Step(m, prog, c) == c
  {
  }

  lemma {:induction false} ValueIs(regs: seq<int>, k: nat, v: int)
    ensures Value(regs, Imm(v)) == v && (k < |regs| ==> Value(regs, Reg(k)) == regs[k])
  {
  }

  lemma {:induction false} RunIs(m: Machine, prog: Program, c: Concrete, n: nat)
    ensures Run(m, prog, c, 0) == c && Run(m, prog, c, n + 1) == Step(m, prog, Run(m, prog, c, n))
  {
  }

  lemma {:induction false} EvalIs(m: Machine, w: Input, v: int, i: nat, op: int, l: IExpr, r: IExpr, p: BExpr, q: BExpr)
    ensures EvalI(m, Const(v), w) == v && EvalI(m, Symbol(i), w) == w(i)
    ensures EvalI(m, Alu(op, l, r), w) == m.alu(op, EvalI(m, l, w), EvalI(m, r, w))
    ensures EvalI(m, Ite(p, l, r), w) == if EvalB(m, p, w) then EvalI(m, l, w) else EvalI(m, r, w)
    ensures EvalB(m, BConst(true), w) && !EvalB(m, BConst(false), w) && EvalB(m, IsZero(p), w) == !EvalB(m, p, w)
    ensures EvalB(m, Cmp(op, l, r), w) == m.cmp(op, EvalI(m, l, w), EvalI(m, r, w))
    ensures EvalB(m, Bit(op, p, q), w) == m.bit(op, EvalB(m, p, w), EvalB(m, q, w))
  {
  }

  /** Evaluating the registers and writing one commute. */
  lemma {:induction false} EvalWriteReg(m: Machine, regs: seq<IExpr>, k: nat, e: IExpr, w: Input)
    ensures EvalRegs(m, Write(regs, k, e), w) == Write(EvalRegs(m, regs, w), k, EvalI(m, e, w))
  {
  }

  lemma {:induction false} EvalWriteBit(m: Machine, bits: seq<BExpr>, k: nat, e: BExpr, w: Input)
    ensures EvalBits(m, Write(bits, k, e), w) == Write(EvalBits(m, bits, w), k, EvalB(m, e, w))
  {
  }
}
