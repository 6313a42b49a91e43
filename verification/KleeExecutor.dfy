/** The executor driven by one seed: it follows the seed and collects the path condition. */
module KleeExecutor {
  import opened KleeIr

  /** The expression builders and the constraint set, which may rewrite what they are given
      as long as it keeps its meaning. */
  datatype Builder = Builder(number: IExpr -> IExpr, truth: BExpr -> BExpr, add: (seq<BExpr>, BExpr) -> seq<BExpr>)

  ghost predicate Sat(m: Machine, cs: seq<BExpr>, w: Input) { forall i :: 0 <= i < |cs| ==> EvalB(m, cs[i], w) }

  ghost predicate KeepsInt(m: Machine, x: Builder, e: IExpr, w: Input) { EvalI(m, x.number(e), w) == EvalI(m, e, w) }
  ghost predicate KeepsBool(m: Machine, x: Builder, e: BExpr, w: Input) { EvalB(m, x.truth(e), w) == EvalB(m, e, w) }
  ghost predicate KeepsSat(m: Machine, x: Builder, cs: seq<BExpr>, e: BExpr, w: Input) {
    Sat(m, x.add(cs, e), w) <==> Sat(m, cs, w) && EvalB(m, e, w)
  }

  ghost predicate Sound(m: Machine, x: Builder) {
    && (forall e, w :: KeepsInt(m, x, e, w)) && (forall e, w :: KeepsBool(m, x, e, w))
    && (forall cs, e, w :: KeepsSat(m, x, cs, e, w))
  }

  /** The plain builder rewrites nothing. */
  const Plain := Builder(e => e, e => e, (cs, e) => cs + [e])

  lemma {:induction false} PlainIsSound(m: Machine)
    ensures Sound(m, Plain)
  {
    forall cs, e, w ensures KeepsSat(m, Plain, cs, e, w) {
      assert (cs + [e])[|cs|] == e;
      if Sat(m, cs + [e], w) {
        forall i | 0 <= i < |cs| ensures EvalB(m, cs[i], w) { assert (cs + [e])[i] == cs[i]; }
      }
    }
  }

  class Executor {
    const m: Machine
    const x: Builder
    const prog: Program
    var pc: nat
    var regs: seq<IExpr>
    var bits: seq<BExpr>
    var constraints: seq<BExpr>
    var path: seq<bool>
    var seed: Input
    /** "attempt to add invalid constraint" */
    var aborted: bool
    /** "seeds patched for violating constraint" */
    var patched: bool

    const regs0: seq<IExpr>
    const bits0: seq<BExpr>

    constructor (m: Machine, x: Builder, prog: Program, regs: seq<IExpr>, bits: seq<BExpr>, seed: Input)
      ensures this.m == m && this.x == x && this.prog == prog && this.seed == seed && regs0 == regs && bits0 == bits
      ensures pc == 0 && this.regs == regs && this.bits == bits
      ensures constraints == [] && path == [] && !aborted && !patched
    {
      this.m, this.x, this.prog, this.seed, regs0, bits0 := m, x, prog, seed, regs, bits;
      pc, this.regs, this.bits, constraints, path, aborted, patched := 0, regs, bits, [], [], false, false;
    }

    /** What the symbolic state is for one input. */
    ghost function At(w: Input): Concrete
      reads this
    {
      Concrete(pc, EvalRegs(m, regs, w), EvalBits(m, bits, w), path)
    }

    /** The concrete run of one input. */
    ghost function RunOf(w: Input, n: nat): Concrete {
      Run(m, prog, Concrete(0, EvalRegs(m, regs0, w), EvalBits(m, bits0, w), []), n)
    }

    /** An input that satisfies the constraints is where the symbolic state says; any other one
        has taken some branch differently. */
    ghost predicate TracksAt(n: nat, w: Input)
      reads this
    {
      if Sat(m, constraints, w) then RunOf(w, n) == At(w) else Diverged(RunOf(w, n).path, path)
    }

    ghost predicate Tracks(n: nat)
      reads this
    {
      forall w :: TracksAt(n, w)
    }

    /** Nothing has gone wrong with the seed. */
    ghost predicate Healthy()
      reads this
    {
      Sound(m, x) && Sat(m, constraints, seed) && !aborted && !patched
    }

    /** A condition the seed meets is added; one it violates stops the program or patches the seed. */
    method AddConstraint(condition: BExpr)
      requires Healthy()
      modifies `constraints, `aborted, `patched, `seed
      ensures EvalB(m, condition, old(seed)) ==> Healthy() && seed == old(seed)
      ensures !EvalB(m, condition, old(seed)) ==> aborted || patched
      ensures !aborted ==> forall w :: Sat(m, constraints, w) <==> Sat(m, old(constraints), w) && EvalB(m, condition, w)
    {
      hide Sat;
      if condition.BConst? {
        if !condition.truth { aborted := true; }
        return;
      }
      if !EvalB(m, condition, seed) {
        var other: Input := *;
        seed, patched := other, true;
      }
      ghost var cs := constraints;
      constraints := x.add(constraints, condition);
      forall w ensures Sat(m, constraints, w) <==> Sat(m, cs, w) && EvalB(m, condition, w) {
        assert KeepsSat(m, x, cs, condition, w);
      }
    }

    /** One seed means one successor: the one the seed takes, remembered as a constraint. */
    method Fork(condition: BExpr) returns (first: bool, second: bool)
      requires Healthy()
      modifies `constraints, `aborted, `patched, `seed, `path
      ensures Healthy() && seed == old(seed) && first == EvalB(m, condition, seed) && second == !first
      ensures path == old(path) + [first]
      ensures forall w :: Sat(m, constraints, w) <==> Sat(m, old(constraints), w) && EvalB(m, condition, w) == first
    {
      hide Sat;
      var trueSeed, falseSeed := false, false;
      if EvalB(m, condition, seed) { trueSeed := true; } else { falseSeed := true; }
      if !(trueSeed && falseSeed) {
        var isZero := x.truth(IsZero(condition));
        forall w ensures EvalB(m, isZero, w) == !EvalB(m, condition, w) {
          assert KeepsBool(m, x, IsZero(condition), w);
        }
        AddConstraint(if trueSeed then condition else isZero);
      }
      path := path + [trueSeed];
      return trueSeed, !trueSeed;
    }

    /** An instruction that adds no constraint and does to every input's state what the machine does. */
    twostate lemma {:induction false} Moves(n: nat)
      requires old(Tracks(n)) && constraints == old(constraints) && path == old(path)
      requires forall w :: MovesAt(w)
      ensures Tracks(n + 1)
    {
      hide Sat, Diverged, Step;
      ghost var next := n + 1;
      forall w ensures TracksAt(next, w) {
        assert old(TracksAt(n, w));
        assert MovesAt(w);
        if !Sat(m, constraints, w) { StaysDiverged(m, prog, RunOf(w, n), path); }
      }
    }

    twostate predicate MovesAt(w: Input)
      reads this
    {
      At(w) == Step(m, prog, old(At(w)))
    }

    /** The machine's next step writes the value of `e`. */
    ghost predicate WritesReg(d: nat, e: IExpr, w: Input)
      reads this
    {
      var c := At(w);
      Step(m, prog, c) == Concrete(pc + 1, Write(c.regs, d, EvalI(m, e, w)), c.bits, c.path)
    }

    ghost predicate WritesBit(d: nat, e: BExpr, w: Input)
      reads this
    {
      var c := At(w);
      Step(m, prog, c) == Concrete(pc + 1, c.regs, Write(c.bits, d, EvalB(m, e, w)), c.path)
    }

    method ExecuteReg(d: nat, e: IExpr, ghost n: nat)
      requires Healthy() && Tracks(n)
      requires forall w :: WritesReg(d, e, w)
      modifies `pc, `regs
      ensures Healthy() && Tracks(n + 1)
    {
      hide Sat, EvalI, EvalRegs, EvalBits, Write, Step, Tracks;
      regs, pc := Write(regs, d, x.number(e)), pc + 1;
      forall w ensures MovesAt(w) {
        assert KeepsInt(m, x, e, w) && old(WritesReg(d, e, w));
        EvalWriteReg(m, old(regs), d, x.number(e), w);
      }
      Moves(n);
    }

    method ExecuteBit(d: nat, e: BExpr, ghost n: nat)
      requires Healthy() && Tracks(n)
      requires forall w :: WritesBit(d, e, w)
      modifies `pc, `bits
      ensures Healthy() && Tracks(n + 1)
    {
      hide Sat, EvalB, EvalRegs, EvalBits, Write, Step, Tracks;
      bits, pc := Write(bits, d, x.truth(e)), pc + 1;
      forall w ensures MovesAt(w) {
        assert KeepsBool(m, x, e, w) && old(WritesBit(d, e, w));
        EvalWriteBit(m, old(bits), d, x.truth(e), w);
      }
      Moves(n);
    }

    method ExecuteBr(k: nat, t: nat, f: nat, ghost n: nat)
      requires Healthy() && Tracks(n) && Fetch(prog, pc) == Br(k, t, f)
      modifies `pc, `constraints, `aborted, `patched, `seed, `path
      ensures Healthy() && Tracks(n + 1) && seed == old(seed)
    {
      hide Sat, Diverged, EvalRegs, EvalBits;
      var cond := x.truth(Read(bits, k, BConst(false)));
      var first, second := Fork(cond);
      if first { pc := t; }
      if second { pc := f; }
      ghost var next := n + 1;
      forall w ensures TracksAt(next, w) {
        assert old(TracksAt(n, w));
        assert KeepsBool(m, x, Read(bits, k, BConst(false)), w);
        BitEval(m, bits, k, w);
        if !Sat(m, old(constraints), w) {
          StaysDiverged(m, prog, RunOf(w, n), old(path));
          LongerDiverged(RunOf(w, n + 1).path, old(path), first);
        } else if EvalB(m, cond, w) != first {
          JustDiverged(old(path), first);
        }
      }
    }

    /** `executeInstruction` */
    method Execute(ghost n: nat)
      requires Healthy() && Tracks(n)
      modifies `pc, `regs, `bits, `constraints, `aborted, `patched, `seed, `path
      ensures Healthy() && Tracks(n + 1) && seed == old(seed)
    {
      hide Sat, Sound, EvalRegs, EvalBits, Write, Diverged, Read;
      match Fetch(prog, pc)
      case DoAlu(d, op, a, b) =>
        var e := Alu(op, SymOperand(regs, a), SymOperand(regs, b));
        forall w ensures WritesReg(d, e, w) { OperandEval(m, regs, a, w); OperandEval(m, regs, b, w); }
        ExecuteReg(d, e, n);
      case DoCmp(d, op, a, b) =>
        var e := Cmp(op, SymOperand(regs, a), SymOperand(regs, b));
        forall w ensures WritesBit(d, e, w) { OperandEval(m, regs, a, w); OperandEval(m, regs, b, w); }
        ExecuteBit(d, e, n);
      case DoBit(d, op, p, q) =>
        var e := Bit(op, Read(bits, p, BConst(false)), Read(bits, q, BConst(false)));
        forall w ensures WritesBit(d, e, w) { BitEval(m, bits, p, w); BitEval(m, bits, q, w); }
        ExecuteBit(d, e, n);
      case DoSelect(d, k, a, b) =>
        var e := Ite(Read(bits, k, BConst(false)), SymOperand(regs, a), SymOperand(regs, b));
        forall w ensures WritesReg(d, e, w) {
          OperandEval(m, regs, a, w);
          OperandEval(m, regs, b, w);
          BitEval(m, bits, k, w);
        }
        ExecuteReg(d, e, n);
      case Br(k, t, f) =>
        ExecuteBr(k, t, f, n);
      case Jump(t) =>
        pc := t;
        forall w ensures MovesAt(w) { }
        Moves(n);
      case Halt =>
        forall w ensures MovesAt(w) { }
        Moves(n);
    }
  }

  /** After any number of steps from one seed: no abort and no patched seed, the seed meets the
      collected constraints, and another input meets them exactly when it takes the same branches;
      the registers then hold what that input computes. */
  method Explore(m: Machine, x: Builder, prog: Program, regs: seq<IExpr>, bits: seq<BExpr>, seed: Input, n: nat)
    returns (constraints: seq<BExpr>, path: seq<bool>, finals: seq<IExpr>, aborted: bool, patched: bool)
    requires Sound(m, x)
    ensures !aborted && !patched && Sat(m, constraints, seed)
    ensures path == Run(m, prog, Begin(m, regs, bits, seed), n).path
    ensures forall w :: Sat(m, constraints, w) <==> Run(m, prog, Begin(m, regs, bits, w), n).path == path
    ensures forall w :: Sat(m, constraints, w) ==>
              EvalRegs(m, finals, w) == Run(m, prog, Begin(m, regs, bits, w), n).regs
  {
    hide Sound, Run;
    var e := new Executor(m, x, prog, regs, bits, seed);
    forall w ensures e.TracksAt(0, w) { NoSteps(m, prog, Begin(m, regs, bits, w)); }
    for i := 0 to n
      invariant fresh(e) && e.Healthy() && e.Tracks(i) && e.seed == seed
    {
      e.Execute(i);
    }
    constraints, path, finals, aborted, patched := e.constraints, e.path, e.regs, e.aborted, e.patched;
    forall w
      ensures Sat(m, constraints, w) <==> Run(m, prog, Begin(m, regs, bits, w), n).path == path
      ensures Sat(m, constraints, w) ==> EvalRegs(m, finals, w) == Run(m, prog, Begin(m, regs, bits, w), n).regs
    {
      assert e.TracksAt(n, w);
    }
  }

  /** Where the program starts on an input. */
  ghost function Begin(m: Machine, regs: seq<IExpr>, bits: seq<BExpr>, w: Input): (c: Concrete)
    ensures c.pc == 0 && c.path == [] && |c.regs| == |regs| && |c.bits| == |bits|
    ensures (forall k :: 0 <= k < |regs| ==> c.regs[k] == EvalI(m, regs[k], w))
    ensures (forall k :: 0 <= k < |bits| ==> c.bits[k] == EvalB(m, bits[k], w))
  {
    Concrete(0, EvalRegs(m, regs, w), EvalBits(m, bits, w), [])
  }

  lemma {:induction false} NoSteps(m: Machine, prog: Program, c: Concrete)
    ensures Run(m, prog, c, 0) == c
  {
  }

  function SymOperand(regs: seq<IExpr>, o: Operand): IExpr {
    match o
    case Reg(k) => Read(regs, k, Const(0))
    case Imm(v) => Const(v)
  }

  lemma {:induction false} OperandEval(m: Machine, regs: seq<IExpr>, o: Operand, w: Input)
    ensures EvalI(m, SymOperand(regs, o), w) == Value(EvalRegs(m, regs, w), o)
  {
  }

  lemma {:induction false} BitEval(m: Machine, bits: seq<BExpr>, k: nat, w: Input)
    ensures EvalB(m, Read(bits, k, BConst(false)), w) == Read(EvalBits(m, bits, w), k, false)
  {
  }

  // ---- Branch sequences.

  lemma {:induction false} StaysDiverged(m: Machine, prog: Program, c: Concrete, path: seq<bool>)
    requires Diverged(c.path, path)
    ensures Diverged(Step(m, prog, c).path, path)
  {
    var k :| 0 <= k < |c.path| && k < |path| && c.path[k] != path[k];
    assert Step(m, prog, c).path[k] == c.path[k];
  }

  lemma {:induction false} LongerDiverged(a: seq<bool>, b: seq<bool>, taken: bool)
    requires Diverged(a, b)
    ensures Diverged(a, b + [taken])
  {
    var k :| 0 <= k < |a| && k < |b| && a[k] != b[k];
    assert (b + [taken])[k] == b[k];
  }

  lemma {:induction false} JustDiverged(path: seq<bool>, taken: bool)
    ensures Diverged(path + [!taken], path + [taken])
  {
    assert (path + [!taken])[|path|] != (path + [taken])[|path|];
  }

  /** Two branch sequences that differ where both are defined. */
  ghost predicate Diverged(a: seq<bool>, b: seq<bool>) { exists k :: 0 <= k < |a| && k < |b| && a[k] != b[k] }
}
