/** The postfix stack machine `plain_float_eval_expr` of the privacy zone, for any
    value type and any interpretation of the operators. */
module ExprEval {
  import opened Options

  /** EXPR_STACK_MAX_SIZE: the length of `stack`. */
  const CAP := 16

  /** One byte of the postfix string. Positive bytes name an operand, negative ones
      an operator. `None` stands for an access outside `stack` or `arr`. */
  function Step<V>(t: int, stack: seq<V>, args: seq<V>, apply: (char, V, V) -> V, neg: V -> V): Option<seq<V>>
    requires -128 <= t <= 127
  {
    var n := |stack|;
    if t > 0 then
      if t <= |args| && n < CAP then Some(stack + [args[t - 1]]) else None
    else if -t == '#' as int then
      if n < 1 then None else Some(stack[..n - 1] + [neg(stack[n - 1])])
    else if n < 2 then None
    else
      var op1, op2 := stack[n - 1], stack[n - 2];
      Some(stack[..n - 2] + [Combine((-t) as char, op1, op2, apply)])
  }

  /** The switch over the operator: `op1` was on top. Addition alone is stored with
      the operands exchanged; an unknown operator leaves `op2`. */
  function Combine<V>(c: char, op1: V, op2: V, apply: (char, V, V) -> V): V {
    if c == '+' then apply(c, op1, op2)
    else if c == '-' || c == '*' || c == '/' || c == '%' || c == '^' then apply(c, op2, op1)
    else op2
  }

  predicate Bytes(expr: seq<int>) { forall i :: 0 <= i < |expr| ==> -128 <= expr[i] <= 127 }

  /** Running the bytes up to the first zero, which ends a C string. */
  function Run<V>(expr: seq<int>, stack: seq<V>, args: seq<V>, apply: (char, V, V) -> V, neg: V -> V): Option<seq<V>>
    requires Bytes(expr)
  {
    if expr == [] || expr[0] == 0 then Some(stack)
    else
      var r := Step(expr[0], stack, args, apply, neg);
      if r.None? then None else Run(expr[1..], r.value, args, apply, neg)
  }

  /** The value returned: the top of the final stack. */
  function Evaluate<V>(expr: seq<int>, args: seq<V>, apply: (char, V, V) -> V, neg: V -> V): Option<V>
    requires Bytes(expr)
  {
    var r := Run(expr, [], args, apply, neg);
    if r.None? || r.value == [] then None else Some(r.value[|r.value| - 1])
  }

  method EvalExpr<V>(expr: seq<int>, args: seq<V>, apply: (char, V, V) -> V, neg: V -> V, zero: V)
    returns (result: Option<V>)
    requires Bytes(expr)
    ensures result == Evaluate(expr, args, apply, neg)
  {
    var stack := new V[CAP](_ => zero);
    var top := -1;
    var i := 0;
    while i < |expr| && expr[i] != 0
      invariant 0 <= i <= |expr| && -1 <= top < CAP
      invariant Run(expr, [], args, apply, neg) == Run(expr[i..], stack[..top + 1], args, apply, neg)
    {
      var c := expr[i];
      ghost var before := stack[..top + 1];
      if c > 0 {
        if c > |args| || top + 1 == CAP { return None; }
        top := top + 1;
        stack[top] := args[c - 1];
        assert stack[..top + 1] == before + [args[c - 1]];
      } else if -c == '#' as int {
        if top < 0 { return None; }
        stack[top] := neg(stack[top]);
        assert stack[..top + 1] == before[..top] + [neg(before[top])];
      } else {
        if top < 1 { return None; }
        var op1 := stack[top];
        top := top - 1;
        stack[top] := Combine((-c) as char, op1, stack[top], apply);
        assert stack[..top + 1] == before[..top] + [stack[top]];
      }
      assert expr[i..][1..] == expr[i + 1..];
      i := i + 1;
    }
    result := if top < 0 then None else Some(stack[top]);
  }

  lemma {:induction false} RunAppend<V>(a: seq<int>, b: seq<int>, stack: seq<V>, args: seq<V>,
                                        apply: (char, V, V) -> V, neg: V -> V)
    requires Bytes(a) && Bytes(b) && 0 !in a
    ensures Run(a + b, stack, args, apply, neg) ==
            (var r := Run(a, stack, args, apply, neg); if r.None? then r else Run(b, r.value, args, apply, neg))
    decreases |a|
  {
    if a == [] {
      assert a + b == b;
    } else {
      assert (a + b)[1..] == a[1..] + b;
      var r := Step(a[0], stack, args, apply, neg);
      if r.Some? { RunAppend(a[1..], b, r.value, args, apply, neg); }
    }
  }
}
