/** The shunting-yard pass `convert_expr` of the integrity zone. */
module ExprConvert {
  import opened ExprSyntax

  /** EXPR_STACK_MAX_SIZE: the length of `op_stack` and of `out_queue`. */
  const CAP := 16

  /** `op_stack`, `out_queue` and `expect_op` between two tokens. */
  datatype Conv = Conv(ops: seq<char>, out: seq<int>, expectOp: bool)

  /** `Overflow` is a write past one of the two 16-entry buffers; the two
      parenthesis errors are the exits of `convert_expr`. */
  datatype Outcome = More(st: Conv) | Mismatched | Extra | Overflow

  datatype Conversion = Postfix(tokens: seq<int>) | Failed(why: Outcome)

  /** The cast to `int8_t`. */
  function ToInt8(n: int): int {
    var m := n % 256;
    if m < 128 then m else m - 256
  }

  function Pop(st: Conv): Conv
    requires st.ops != []
  {
    var n := |st.ops| - 1;
    Conv(st.ops[..n], st.out + [-(st.ops[n] as int)], st.expectOp)
  }

  /** Whether an incoming operator `c` sends the stacked operator `t` to the queue. */
  predicate Yields(t: char, c: char) {
    t != '(' && c != '^' && Precedence(t) >= Precedence(c)
  }

  function PopOps(c: char, st: Conv): Outcome
    decreases |st.ops|
  {
    if st.ops == [] || !Yields(st.ops[|st.ops| - 1], c) then More(st)
    else if |st.out| == CAP then Overflow
    else PopOps(c, Pop(st))
  }

  /** An incoming operator pops a stack that was not empty down to its bottom. The loop then
      reads the byte below `op_stack` before it tests the index. */
  predicate Empties(c: char, st: Conv) {
    st.ops != [] && PopOps(c, st).More? && PopOps(c, st).st.ops == []
  }

  function Push(c: char, st: Conv): Outcome {
    if |st.ops| == CAP then Overflow else More(Conv(st.ops + [c], st.out, false))
  }

  function Operator(c: char, st: Conv): Outcome {
    var r := PopOps(c, st);
    if r.More? then Push(if !r.st.expectOp && c == '-' then '#' else c, r.st) else r
  }

  function CloseParen(st: Conv): Outcome
    decreases |st.ops|
  {
    if st.ops == [] then Mismatched
    else if st.ops[|st.ops| - 1] == '(' then More(Conv(st.ops[..|st.ops| - 1], st.out, false))
    else if |st.out| == CAP then Overflow
    else CloseParen(Pop(st))
  }

  function Operand(n: nat, st: Conv): Outcome {
    if |st.out| == CAP then Overflow else More(Conv(st.ops, st.out + [ToInt8(n)], true))
  }

  function Flush(st: Conv): Outcome
    decreases |st.ops|
  {
    if st.ops == [] then More(st)
    else if st.ops[|st.ops| - 1] == '(' then Extra
    else if |st.out| == CAP then Overflow
    else Flush(Pop(st))
  }

  /** The length of the numeral a text starts with. */
  function DigitRun(text: string): (n: nat)
    ensures n <= |text|
    ensures forall i :: 0 <= i < n ==> IsDigit(text[i])
    ensures n < |text| ==> !IsDigit(text[n])
    ensures text != "" && IsDigit(text[0]) ==> n > 0
  {
    if text == "" || !IsDigit(text[0]) then 0 else 1 + DigitRun(text[1..])
  }

  /** One operator, parenthesis or ignored character. */
  function Symbol(c: char, st: Conv): Outcome {
    if IsOp(c) then Operator(c, st)
    else if c == '(' then Push(c, st)
    else if c == ')' then CloseParen(st)
    else More(st)
  }

  function Run(text: string, st: Conv): Outcome
    decreases |text|
  {
    if text == "" then More(st)
    else if IsDigit(text[0]) then
      var n := DigitRun(text);
      var r := Operand(NumeralValue(text[..n]), st);
      if r.More? then Run(text[n..], r.st) else r
    else
      var r := Symbol(text[0], st);
      if r.More? then Run(text[1..], r.st) else r
  }

  /** Whether converting a text reads the byte below `op_stack`. */
  predicate ReadsBelow(text: string, st: Conv)
    decreases |text|
  {
    if text == "" then false
    else if IsDigit(text[0]) then
      var n := DigitRun(text);
      var r := Operand(NumeralValue(text[..n]), st);
      r.More? && ReadsBelow(text[n..], r.st)
    else
      var r := Symbol(text[0], st);
      (IsOp(text[0]) && Empties(text[0], st)) || (r.More? && ReadsBelow(text[1..], r.st))
  }

  const Begin := Conv([], [], false)

  /** The whole conversion. Copying `out_len + 1` bytes out of the queue needs
      one entry past the last token. */
  function Convert(text: string): Conversion {
    var r := Run(text, Begin);
    var f := if r.More? then Flush(r.st) else r;
    if !f.More? then Failed(f) else if |f.st.out| == CAP then Failed(Overflow) else Postfix(f.st.out)
  }

  lemma {:induction false} RunSymbol(c: char, rest: string, st: Conv)
    requires !IsDigit(c)
    ensures Run([c] + rest, st) == (var r := Symbol(c, st); if r.More? then Run(rest, r.st) else r)
  {
    assert ([c] + rest)[1..] == rest;
  }

  lemma {:induction false} BelowSymbol(c: char, rest: string, st: Conv)
    requires !IsDigit(c)
    ensures ReadsBelow([c] + rest, st)
       <==> (IsOp(c) && Empties(c, st)) || (Symbol(c, st).More? && ReadsBelow(rest, Symbol(c, st).st))
  {
    assert ([c] + rest)[1..] == rest;
  }

  lemma {:induction false} NumeralSnoc(digits: string, c: char)
    requires forall i :: 0 <= i < |digits| ==> IsDigit(digits[i])
    requires IsDigit(c)
    ensures NumeralValue(digits + [c]) == 10 * NumeralValue(digits) + DigitValue(c)
  {
    assert (digits + [c])[..|digits|] == digits;
  }

  lemma {:induction false} DigitRunIs(text: string, n: nat)
    requires n <= |text|
    requires forall i :: 0 <= i < n ==> IsDigit(text[i])
    requires n < |text| ==> !IsDigit(text[n])
    ensures DigitRun(text) == n
    decreases n
  {
    if n > 0 {
      DigitRunIs(text[1..], n - 1);
    }
  }

  /** In-place blank removal: the kept characters move to the front. */
  method RemoveSpace(expr: array<char>) returns (n: nat)
    modifies expr
    ensures n <= expr.Length
    ensures expr[..n] == NoSpace(old(expr[..]))
  {
    n := 0;
    for i := 0 to expr.Length
      invariant n <= i
      invariant expr[i..] == old(expr[i..])
      invariant expr[..n] == NoSpace(old(expr[..i]))
    {
      assert old(expr[..i + 1])[..i] == old(expr[..i]);
      assert expr[i] == expr[i..][0] == old(expr[i..])[0] == old(expr[i]);
      assert expr[i + 1..] == expr[i..][1..] == old(expr[i..])[1..] == old(expr[i + 1..]);
      if expr[i] != ' ' {
        expr[n] := expr[i];
        n := n + 1;
      }
    }
    assert old(expr[..expr.Length]) == old(expr[..]);
  }

  /** The numeral starting at `i`, and the index after it. */
  method ReadNumeral(expr: string, i: nat) returns (num: nat, j: nat)
    requires i < |expr| && IsDigit(expr[i])
    ensures j == i + DigitRun(expr[i..]) <= |expr|
    ensures num == NumeralValue(expr[i..][..j - i])
  {
    num, j := DigitValue(expr[i]), i + 1;
    assert expr[i..j] == "" + [expr[i]];
    NumeralSnoc("", expr[i]);
    while j < |expr| && IsDigit(expr[j])
      invariant i < j <= |expr|
      invariant forall k :: i <= k < j ==> IsDigit(expr[k])
      invariant num == NumeralValue(expr[i..j])
    {
      NumeralSnoc(expr[i..j], expr[j]);
      assert expr[i..j + 1] == expr[i..j] + [expr[j]];
      num := 10 * num + DigitValue(expr[j]);
      j := j + 1;
    }
    DigitRunIs(expr[i..], j - i);
    assert expr[i..][..j - i] == expr[i..j];
  }

  /** The local variables of `convert_expr`, updated in place. `below` is whatever byte lies
      under `op_stack`, and `readBelow` tells whether the loop has looked at it. */
  class Converter {
    const below: char
    const opStack: array<char>
    const outQueue: array<int>
    var opTopPos: int
    var outLen: nat
    var expectOp: bool
    var readBelow: bool

    ghost predicate Valid()
      reads this
    {
      opStack.Length == CAP && outQueue.Length == CAP && -1 <= opTopPos < CAP && outLen <= CAP
    }

    function State(): Conv
      requires Valid()
      reads this, opStack, outQueue
    {
      Conv(opStack[..opTopPos + 1], outQueue[..outLen], expectOp)
    }

    /** The outcome of a step: an error, or the state it left behind. */
    ghost predicate Reached(r: Outcome)
      requires Valid()
      reads this, opStack, outQueue
    {
      r.More? ==> State() == r.st
    }

    constructor (below: char)
      ensures Valid() && fresh(opStack) && fresh(outQueue) && this.below == below
      ensures State() == Begin && !readBelow
    {
      this.below := below;
      opStack, outQueue := new char[CAP], new int[CAP];
      opTopPos, outLen, expectOp, readBelow := -1, 0, false, false;
    }

    /** Send the top of `op_stack` to the queue. */
    method PopOne()
      requires Valid() && opTopPos >= 0 && outLen < CAP
      modifies this, outQueue
      ensures Valid() && State() == Pop(old(State())) && opTopPos == old(opTopPos) - 1
      ensures readBelow == old(readBelow)
    {
      var opTop := opStack[opTopPos];
      ghost var st := State();
      outQueue[outLen] := -(opTop as int);
      opTopPos, outLen := opTopPos - 1, outLen + 1;
      assert outQueue[..outLen] == st.out + [-(opTop as int)];
      assert opStack[..opTopPos + 1] == st.ops[..opTopPos + 1];
    }

    /** The inner loop at an operator: pop while the top binds at least as tightly. The index is
        tested last, after the next top has been read; what the byte below holds changes nothing. */
    method PopWhileYields(c: char) returns (ok: bool)
      requires Valid()
      modifies this, outQueue
      ensures Valid()
      ensures PopOps(c, old(State())) == if ok then More(State()) else Overflow
      ensures readBelow == (old(readBelow) || Empties(c, old(State())))
    {
      if opTopPos >= 0 {
        var opTop := opStack[opTopPos];
        while opTop != '(' && c != '^' && Precedence(opTop) >= Precedence(c) && opTopPos >= 0
          invariant Valid() && (opTopPos >= 0 ==> opTop == opStack[opTopPos])
          invariant PopOps(c, old(State())) == PopOps(c, State())
          invariant readBelow == (old(readBelow) || opTopPos < 0)
          decreases opTopPos
        {
          if outLen == CAP { return false; }
          PopOne();
          if opTopPos >= 0 {
            opTop := opStack[opTopPos];
          } else {
            opTop, readBelow := below, true;
          }
        }
      }
      ok := true;
    }

    method PushOp(c: char) returns (ok: bool)
      requires Valid()
      modifies this, opStack
      ensures Valid()
      ensures Push(c, old(State())) == if ok then More(State()) else Overflow
      ensures readBelow == old(readBelow)
    {
      if opTopPos + 1 == CAP { return false; }
      ghost var st := State();
      opTopPos := opTopPos + 1;
      opStack[opTopPos] := c;
      expectOp := false;
      assert opStack[..opTopPos + 1] == st.ops + [c];
      ok := true;
    }

    /** The do-while loop at a closing parenthesis. */
    method PopToParen() returns (r: Outcome)
      requires Valid()
      modifies this, outQueue
      ensures Valid()
      ensures r == CloseParen(old(State())) && Reached(r) && readBelow == old(readBelow)
    {
      while true
        invariant Valid()
        invariant CloseParen(old(State())) == CloseParen(State()) && readBelow == old(readBelow)
        decreases opTopPos
      {
        if opTopPos < 0 { return Mismatched; }
        if opStack[opTopPos] == '(' {
          ghost var st := State();
          opTopPos, expectOp := opTopPos - 1, false;
          assert opStack[..opTopPos + 1] == st.ops[..opTopPos + 1];
          return More(State());
        }
        if outLen == CAP { return Overflow; }
        PopOne();
      }
    }

    method ReadSymbol(c: char) returns (r: Outcome)
      requires Valid()
      modifies this, opStack, outQueue
      ensures Valid()
      ensures r == Symbol(c, old(State())) && Reached(r)
      ensures readBelow == (old(readBelow) || (IsOp(c) && Empties(c, old(State()))))
    {
      if IsOp(c) {
        var ok := PopWhileYields(c);
        if !ok { return Overflow; }
        ok := PushOp(if !expectOp && c == '-' then '#' else c);
        return if ok then More(State()) else Overflow;
      } else if c == '(' {
        var ok := PushOp(c);
        return if ok then More(State()) else Overflow;
      } else if c == ')' {
        r := PopToParen();
      } else {
        r := More(State());
      }
    }

    method ReadOperand(num: nat) returns (r: Outcome)
      requires Valid()
      modifies this, outQueue
      ensures Valid()
      ensures r == Operand(num, old(State())) && Reached(r) && readBelow == old(readBelow)
    {
      if outLen == CAP { return Overflow; }
      ghost var st := State();
      outQueue[outLen] := ToInt8(num);
      outLen, expectOp := outLen + 1, true;
      assert outQueue[..outLen] == st.out + [ToInt8(num)];
      r := More(State());
    }

    /** The loop that empties `op_stack` at the end of the text. */
    method PopAll() returns (r: Outcome)
      requires Valid()
      modifies this, outQueue
      ensures Valid()
      ensures r == Flush(old(State())) && Reached(r) && readBelow == old(readBelow)
    {
      while opTopPos >= 0
        invariant Valid()
        invariant Flush(old(State())) == Flush(State()) && readBelow == old(readBelow)
        decreases opTopPos
      {
        if opStack[opTopPos] == '(' { return Extra; }
        if outLen == CAP { return Overflow; }
        PopOne();
      }
      r := More(State());
    }
  }

  /** The result does not depend on the byte below the stack, although the loop may read it. */
  method ConvertExpr(expr: string, below: char) returns (result: Conversion, readBelow: bool)
    ensures result == Convert(expr) && readBelow == ReadsBelow(expr, Begin)
  {
    var y := new Converter(below);
    var i := 0;
    assert expr[0..] == expr;
    while i < |expr|
      invariant i <= |expr| && y.Valid() && fresh(y) && fresh(y.opStack) && fresh(y.outQueue)
      invariant Run(expr, Begin) == Run(expr[i..], y.State())
      invariant ReadsBelow(expr, Begin) == (y.readBelow || ReadsBelow(expr[i..], y.State()))
    {
      var r: Outcome;
      ghost var rest := expr[i..];
      if IsDigit(expr[i]) {
        var num, j := ReadNumeral(expr, i);
        r := y.ReadOperand(num);
        assert rest[j - i..] == expr[j..];
        i := j;
      } else {
        r := y.ReadSymbol(expr[i]);
        assert rest[1..] == expr[i + 1..];
        i := i + 1;
      }
      if !r.More? { return Failed(r), y.readBelow; }
    }
    assert expr[i..] == "";
    var f := y.PopAll();
    readBelow := y.readBelow;
    if !f.More? { return Failed(f), readBelow; }
    if y.outLen == CAP { return Failed(Overflow), readBelow; }
    result := Postfix(y.outQueue[..y.outLen]);
  }
}
