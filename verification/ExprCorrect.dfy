/** Converting an infix text and running the postfix form in the other zone gives
    the value of the expression; the exact texts and operand counts for which they do. */
module ExprCorrect {
  import opened ExprSyntax
  import opened ExprConvert
  import opened Options
  import M = ExprEval

  /** The reference postfix form of a derivation. */
  function PostfixOf(e: Expr): seq<int>
    requires WellFormed(e)
  {
    match e
    case Num(d) => [NumeralValue(d)]
    case Paren(inner) => PostfixOf(inner)
    case Bin(op, l, r) => PostfixOf(l) + PostfixOf(r) + [-(op as int)]
  }

  /** The operators left on the stack after the text of `e`, bottom first. */
  function Pending(e: Expr): seq<char> {
    if e.Bin? then [e.op] + Pending(e.right) else []
  }

  /** The part of the postfix form already queued after the text of `e`. */
  function Queued(e: Expr): seq<int>
    requires WellFormed(e)
  {
    if e.Bin? then PostfixOf(e.left) + Queued(e.right) else PostfixOf(e)
  }

  /** What popping a stack appends to the queue. */
  function Drain(ops: seq<char>): seq<int> {
    if ops == [] then [] else [-(ops[|ops| - 1] as int)] + Drain(ops[..|ops| - 1])
  }

  lemma {:induction false} DrainCons(c: char, ops: seq<char>)
    ensures Drain([c] + ops) == Drain(ops) + [-(c as int)]
    ensures |Drain(ops)| == |ops|
    decreases |ops|
  {
    if ops == [] {
      assert ([c] + ops)[..0] == [];
    } else {
      var n := |ops| - 1;
      assert ([c] + ops)[..n + 1] == [c] + ops[..n];
      DrainCons(c, ops[..n]);
    }
  }

  /** The pending operators bind at least as tightly as the expression itself. */
  lemma {:induction false} PendingOps(e: Expr)
    requires WellFormed(e)
    ensures |Pending(e)| <= Depth(e)
    ensures forall i :: 0 <= i < |Pending(e)| ==> IsOp(Pending(e)[i]) && Precedence(Pending(e)[i]) >= Level(e)
    decreases e
  {
    match e
    case Num(d) =>
    case Paren(inner) =>
    case Bin(op, l, r) => PendingOps(r);
  }

  /** Queue and stack together hold the postfix form. */
  lemma {:induction false} QueuedThenPending(e: Expr)
    requires WellFormed(e)
    ensures Queued(e) + Drain(Pending(e)) == PostfixOf(e)
    decreases e
  {
    match e
    case Num(d) =>
    case Paren(inner) =>
    case Bin(op, l, r) =>
      QueuedThenPending(r);
      DrainCons(op, Pending(r));
      assert Queued(e) + Drain(Pending(e)) == PostfixOf(l) + (Queued(r) + Drain(Pending(r))) + [-(op as int)];
  }

  lemma {:induction false} PostfixSize(e: Expr)
    requires WellFormed(e)
    ensures |Queued(e)| + |Pending(e)| == |PostfixOf(e)| == Size(e)
    decreases e
  {
    match e
    case Num(d) =>
    case Paren(inner) => PostfixSize(inner);
    case Bin(op, l, r) =>
      PostfixSize(l);
      PostfixSize(r);
  }

  /** Popping the last of the operators `p` above the stack `s`. */
  lemma {:induction false} PopLast(s: seq<char>, p: seq<char>, q: seq<int>, x: bool)
    requires p != []
    ensures (s + p)[|s + p| - 1] == p[|p| - 1]
    ensures Pop(Conv(s + p, q, x)) == Conv(s + p[..|p| - 1], q + [-(p[|p| - 1] as int)], x)
    ensures q + [-(p[|p| - 1] as int)] + Drain(p[..|p| - 1]) == q + Drain(p)
  {
    assert (s + p)[..|s + p| - 1] == s + p[..|p| - 1];
    DrainLast(p, q);
  }

  lemma {:induction false} DrainLast(p: seq<char>, q: seq<int>)
    requires p != []
    ensures q + [-(p[|p| - 1] as int)] + Drain(p[..|p| - 1]) == q + Drain(p)
  {
    var t := Drain(p[..|p| - 1]);
    assert q + [-(p[|p| - 1] as int)] + t == q + ([-(p[|p| - 1] as int)] + t);
  }

  lemma {:induction false} PopsAll(c: char, s: seq<char>, p: seq<char>, q: seq<int>, x: bool)
    requires s == [] || !Yields(s[|s| - 1], c)
    requires forall i :: 0 <= i < |p| ==> Yields(p[i], c)
    requires |q| + |p| <= CAP
    ensures PopOps(c, Conv(s + p, q, x)) == More(Conv(s, q + Drain(p), x))
    decreases |p|
  {
    if p == [] {
      assert s + p == s;
    } else {
      PopLast(s, p, q, x);
      PopsAll(c, s, p[..|p| - 1], q + [-(p[|p| - 1] as int)], x);
    }
  }

  lemma {:induction false} ClosesAll(s: seq<char>, p: seq<char>, q: seq<int>, x: bool)
    requires forall i :: 0 <= i < |p| ==> p[i] != '('
    requires |q| + |p| <= CAP
    ensures CloseParen(Conv(s + ['('] + p, q, x)) == More(Conv(s, q + Drain(p), false))
    decreases |p|
  {
    var open := s + ['('];
    if p == [] {
      assert open + p == open && open[..|s|] == s;
    } else {
      PopLast(open, p, q, x);
      ClosesAll(s, p[..|p| - 1], q + [-(p[|p| - 1] as int)], x);
    }
  }

  lemma {:induction false} FlushesAll(p: seq<char>, q: seq<int>, x: bool)
    requires forall i :: 0 <= i < |p| ==> p[i] != '('
    requires |q| + |p| <= CAP
    ensures Flush(Conv(p, q, x)) == More(Conv([], q + Drain(p), x))
    decreases |p|
  {
    if p != [] {
      PopLast([], p, q, x);
      assert [] + p == p && [] + p[..|p| - 1] == p[..|p| - 1];
      FlushesAll(p[..|p| - 1], q + [-(p[|p| - 1] as int)], x);
    }
  }

  /** No operator of an expression of this level can pop the stack top. */
  predicate Shields(ops: seq<char>, level: int) {
    ops == [] || ops[|ops| - 1] == '(' || Precedence(ops[|ops| - 1]) < level || level >= 2
  }

  predicate NoDigitFirst(rest: string) { rest == "" || !IsDigit(rest[0]) }

  /** The state the conversion is in after reading the text of `e`. */
  function After(e: Expr, st: Conv): Conv
    requires WellFormed(e)
  {
    Conv(st.ops + Pending(e), st.out + Queued(e), EndsWithDigit(e))
  }

  lemma {:induction false} ReadsNumeral(d: string, st: Conv, rest: string)
    requires WellFormed(Num(d)) && NoDigitFirst(rest) && |st.out| < CAP
    ensures Run(d + rest, st) == Run(rest, After(Num(d), st))
  {
    DigitRunIs(d + rest, |d|);
    assert (d + rest)[..|d|] == d && (d + rest)[|d|..] == rest;
    assert st.ops + [] == st.ops;
  }

  /** The invariant of the whole pass, for every expression, stack and following text. */
  lemma {:induction false} ReadsExpr(e: Expr, st: Conv, rest: string)
    requires WellFormed(e) && MinusAfterNumeral(e) && NoDigitFirst(rest)
    requires Shields(st.ops, Level(e))
    requires |st.ops| + Depth(e) <= CAP && |st.out| + Size(e) <= CAP
    ensures Run(Text(e) + rest, st) == Run(rest, After(e, st))
    decreases e
  {
    match e
    case Num(d) => ReadsNumeral(d, st, rest);
    case Paren(inner) => ReadsParen(inner, st, rest);
    case Bin(op, l, r) => ReadsBin(op, l, r, st, rest);
  }

  lemma {:induction false} ReadsParen(inner: Expr, st: Conv, rest: string)
    requires WellFormed(inner) && MinusAfterNumeral(inner) && NoDigitFirst(rest)
    requires |st.ops| + 1 + Depth(inner) <= CAP && |st.out| + Size(inner) <= CAP
    ensures Run(Text(Paren(inner)) + rest, st) == Run(rest, After(Paren(inner), st))
    decreases Paren(inner), 0
  {
    var open := Conv(st.ops + ['('], st.out, false);
    assert Text(Paren(inner)) + rest == ['('] + (Text(inner) + ([')'] + rest));
    RunSymbol('(', Text(inner) + ([')'] + rest), st);
    ReadsExpr(inner, open, [')'] + rest);
    ClosesParen(inner, st);
    RunSymbol(')', rest, After(inner, open));
  }

  /** A closing parenthesis sends the pending operators inside it and drops the `(`. */
  lemma {:induction false} ClosesParen(inner: Expr, st: Conv)
    requires WellFormed(inner) && |st.out| + Size(inner) <= CAP
    ensures Symbol(')', After(inner, Conv(st.ops + ['('], st.out, false))) == More(After(Paren(inner), st))
  {
    QueuedThenPending(inner);
    PostfixSize(inner);
    PendingOps(inner);
    ClosesAll(st.ops, Pending(inner), st.out + Queued(inner), EndsWithDigit(inner));
    assert st.out + Queued(inner) + Drain(Pending(inner)) == st.out + PostfixOf(inner);
    assert st.ops + [] == st.ops;
  }

  /** All pending operators of a left operand yield to the operator after it. */
  lemma {:induction false} PendingYields(op: char, l: Expr)
    requires IsOp(op) && WellFormed(l)
    requires if op == '^' then Level(l) == 3 else Level(l) >= Precedence(op)
    ensures forall i :: 0 <= i < |Pending(l)| ==> Yields(Pending(l)[i], op)
  {
    PendingOps(l);
  }

  /** An operator sends exactly the pending operators of its left operand, then is pushed. */
  lemma {:induction false} ReadsOperator(op: char, l: Expr, st: Conv)
    requires IsOp(op) && WellFormed(l) && (op == '-' ==> EndsWithDigit(l))
    requires if op == '^' then Level(l) == 3 else Level(l) >= Precedence(op)
    requires Shields(st.ops, Precedence(op)) && |st.out| + Size(l) <= CAP
    ensures Symbol(op, After(l, st)) == Push(op, Conv(st.ops, st.out + PostfixOf(l), EndsWithDigit(l)))
  {
    var x := EndsWithDigit(l);
    assert PopOps(op, After(l, st)) == More(Conv(st.ops, st.out + PostfixOf(l), x)) by {
      PendingYields(op, l);
      PostfixSize(l);
      PopsAll(op, st.ops, Pending(l), st.out + Queued(l), x);
      QueueAll(l, st.out);
    }
  }

  lemma {:induction false} QueueAll(e: Expr, q: seq<int>)
    requires WellFormed(e)
    ensures q + Queued(e) + Drain(Pending(e)) == q + PostfixOf(e)
  {
    QueuedThenPending(e);
    assert q + Queued(e) + Drain(Pending(e)) == q + (Queued(e) + Drain(Pending(e)));
  }

  lemma {:induction false} ReadsBin(op: char, l: Expr, r: Expr, st: Conv, rest: string)
    requires var e := Bin(op, l, r);
             && WellFormed(e) && MinusAfterNumeral(e) && NoDigitFirst(rest)
             && Shields(st.ops, Level(e))
             && |st.ops| + Depth(e) <= CAP && |st.out| + Size(e) <= CAP
    ensures Run(Text(Bin(op, l, r)) + rest, st) == Run(rest, After(Bin(op, l, r), st))
    decreases Bin(op, l, r), 0
  {
    assert Text(Bin(op, l, r)) + rest == Text(l) + ([op] + (Text(r) + rest));
    ReadsExpr(l, st, [op] + (Text(r) + rest));
    ReadsOperator(op, l, st);
    var s2 := Conv(st.ops + [op], st.out + PostfixOf(l), false);
    RunSymbol(op, Text(r) + rest, After(l, st));
    PostfixSize(l);
    ReadsExpr(r, s2, rest);
    AfterBin(op, l, r, st);
  }

  lemma {:induction false} AfterBin(op: char, l: Expr, r: Expr, st: Conv)
    requires WellFormed(Bin(op, l, r))
    ensures After(r, Conv(st.ops + [op], st.out + PostfixOf(l), false)) == After(Bin(op, l, r), st)
  {
    assert st.ops + [op] + Pending(r) == st.ops + ([op] + Pending(r));
    assert st.out + PostfixOf(l) + Queued(r) == st.out + (PostfixOf(l) + Queued(r));
  }

  /** The conversion produces the reference postfix form. */
  lemma {:induction false} ConvertsToPostfix(e: Expr)
    requires WellFormed(e) && MinusAfterNumeral(e)
    requires Size(e) <= CAP - 1 && Depth(e) <= CAP
    ensures Convert(Text(e)) == Postfix(PostfixOf(e))
  {
    var st := Begin;
    assert Text(e) + "" == Text(e);
    ReadsExpr(e, st, "");
    QueuedThenPending(e);
    PostfixSize(e);
    PendingOps(e);
    assert st.ops + Pending(e) == Pending(e) && st.out + Queued(e) == Queued(e);
    FlushesAll(Pending(e), Queued(e), EndsWithDigit(e));
  }

  ghost predicate PlusCommutes<V(!new)>(apply: (char, V, V) -> V) {
    forall a, b :: apply('+', a, b) == apply('+', b, a)
  }

  lemma {:induction false} PostfixBytes(e: Expr)
    requires WellFormed(e)
    ensures M.Bytes(PostfixOf(e)) && 0 !in PostfixOf(e)
    decreases e
  {
    match e
    case Num(d) =>
    case Paren(inner) => PostfixBytes(inner);
    case Bin(op, l, r) =>
      PostfixBytes(l);
      PostfixBytes(r);
  }

  /** On any stack with room, the postfix form pushes exactly the value. */
  lemma {:induction false} PostfixPushesValue<V(!new)>(e: Expr, stack: seq<V>, args: seq<V>,
                                                       apply: (char, V, V) -> V, neg: V -> V)
    requires WellFormed(e) && MaxOperand(e) <= |args| && PlusCommutes(apply)
    requires |stack| + Size(e) <= CAP
    ensures M.Bytes(PostfixOf(e))
    ensures M.Run(PostfixOf(e), stack, args, apply, neg) == Some(stack + [Value(e, args, apply)])
    decreases e
  {
    PostfixBytes(e);
    match e
    case Num(d) =>
      assert M.Run(PostfixOf(e)[1..], stack + [Value(e, args, apply)], args, apply, neg).Some?;
    case Paren(inner) => PostfixPushesValue(inner, stack, args, apply, neg);
    case Bin(op, l, r) =>
      PostfixBytes(l);
      PostfixBytes(r);
      var vl, vr := Value(l, args, apply), Value(r, args, apply);
      var code := [-(op as int)];
      PostfixPushesValue(l, stack, args, apply, neg);
      PostfixPushesValue(r, stack + [vl], args, apply, neg);
      M.RunAppend(PostfixOf(l), PostfixOf(r), stack, args, apply, neg);
      M.RunAppend(PostfixOf(l) + PostfixOf(r), code, stack, args, apply, neg);
      var full := stack + [vl] + [vr];
      assert full[..|full| - 2] == stack;
      assert M.Run(code[1..], stack + [apply(op, vl, vr)], args, apply, neg).Some?;
  }

  /** Both stages together: from the text to the single value left on the stack. */
  lemma {:induction false} TranslationPreservesValue<V(!new)>(
    e: Expr, args: seq<V>, apply: (char, V, V) -> V, neg: V -> V)
    requires WellFormed(e) && MinusAfterNumeral(e)
    requires Size(e) <= 15 && Depth(e) <= 16
    requires MaxOperand(e) <= |args| && PlusCommutes(apply)
    ensures Convert(Text(e)).Postfix? && M.Bytes(Convert(Text(e)).tokens)
    ensures M.Run(Convert(Text(e)).tokens, [], args, apply, neg) == Some([Value(e, args, apply)])
    ensures M.Evaluate(Convert(Text(e)).tokens, args, apply, neg) == Some(Value(e, args, apply))
  {
    ConvertsToPostfix(e);
    PostfixPushesValue(e, [], args, apply, neg);
    assert [] + [Value(e, args, apply)] == [Value(e, args, apply)];
  }

  // ---- The operand arrays.

  /** EXPR_MAX_SIZE: the entries of `arr` in both zones and of `items` in the request. */
  const MAX_ARGS := 8

  /** From a text without blanks to the result; `None` is a failed conversion or an access outside
      an array. */
  function Pipeline<V>(text: string, args: seq<V>, apply: (char, V, V) -> V, neg: V -> V): Option<V> {
    var c := Convert(text);
    if c.Failed? || |args| > MAX_ARGS || !M.Bytes(c.tokens) then None else M.Evaluate(c.tokens, args, apply, neg)
  }

  /** The operands are copied one by one into an array of eight; a ninth is written past its end. */
  method CopyOperands<V>(args: seq<V>, zero: V) returns (r: Option<seq<V>>)
    ensures r == if |args| <= 8 then Some(args) else None
  {
    var arr := new V[MAX_ARGS](_ => zero);
    for i := 0 to |args|
      invariant i <= MAX_ARGS && arr[..i] == args[..i]
    {
      if i == MAX_ARGS { return None; }
      arr[i] := args[i];
    }
    assert args[..|args|] == args;
    r := Some(arr[..|args|]);
  }

  /** `enc_float4_eval_expr`: blanks are removed, the text is converted, the operands are copied,
      and the other zone runs the postfix form. */
  method EvalText<V(!new)>(expr: array<char>, args: seq<V>, apply: (char, V, V) -> V, neg: V -> V, zero: V, below: char)
    returns (result: Option<V>)
    requires PlusCommutes(apply)
    modifies expr
    ensures result == Pipeline(NoSpace(old(expr[..])), args, apply, neg)
    ensures forall e :: WellFormed(e) && Text(e) == NoSpace(old(expr[..])) && MaxOperand(e) <= |args| <= 8
                        && MinusAfterNumeral(e) && Size(e) <= 15 && Depth(e) <= 16
                        ==> result == Some(Value(e, args, apply))
  {
    var n := RemoveSpace(expr);
    var text := expr[..n];
    var c, _ := ConvertExpr(text, below);
    forall e | WellFormed(e) && Text(e) == text && MaxOperand(e) <= |args|
               && MinusAfterNumeral(e) && Size(e) <= CAP - 1 && Depth(e) <= CAP
      ensures c.Postfix? && M.Bytes(c.tokens)
      ensures M.Evaluate(c.tokens, args, apply, neg) == Some(Value(e, args, apply))
    {
      TranslationPreservesValue(e, args, apply, neg);
    }
    if c.Failed? { return None; }
    var operands := CopyOperands(args, zero);
    if operands.None? || !M.Bytes(c.tokens) { return None; }
    result := M.EvalExpr(c.tokens, operands.value, apply, neg, zero);
  }

  // ---- The byte below the stack.

  /** Only an operator outside parentheses, after an operand that is itself unparenthesised and
      compound, empties the stack. */
  predicate BelowIn(e: Expr, st: Conv) { st.ops == [] && e.Bin? && e.left.Bin? }

  lemma {:induction false} BelowExpr(e: Expr, st: Conv, rest: string)
    requires WellFormed(e) && MinusAfterNumeral(e) && NoDigitFirst(rest)
    requires Shields(st.ops, Level(e))
    requires |st.ops| + Depth(e) <= CAP && |st.out| + Size(e) <= CAP
    ensures ReadsBelow(Text(e) + rest, st) <==> BelowIn(e, st) || ReadsBelow(rest, After(e, st))
    decreases e, 1
  {
    match e
    case Num(d) => BelowNumeral(d, st, rest);
    case Paren(inner) => BelowParen(inner, st, rest);
    case Bin(op, l, r) => BelowBin(op, l, r, st, rest);
  }

  lemma {:induction false} BelowNumeral(d: string, st: Conv, rest: string)
    requires WellFormed(Num(d)) && NoDigitFirst(rest) && |st.out| < CAP
    ensures ReadsBelow(d + rest, st) <==> ReadsBelow(rest, After(Num(d), st))
  {
    DigitRunIs(d + rest, |d|);
    assert (d + rest)[..|d|] == d && (d + rest)[|d|..] == rest;
    assert st.ops + [] == st.ops;
  }

  lemma {:induction false} BelowParen(inner: Expr, st: Conv, rest: string)
    requires WellFormed(inner) && MinusAfterNumeral(inner) && NoDigitFirst(rest)
    requires |st.ops| + 1 + Depth(inner) <= CAP && |st.out| + Size(inner) <= CAP
    ensures ReadsBelow(Text(Paren(inner)) + rest, st) <==> ReadsBelow(rest, After(Paren(inner), st))
    decreases Paren(inner), 0
  {
    hide ReadsBelow;
    var open := Conv(st.ops + ['('], st.out, false);
    assert Text(Paren(inner)) + rest == ['('] + (Text(inner) + ([')'] + rest));
    BelowSymbol('(', Text(inner) + ([')'] + rest), st);
    BelowExpr(inner, open, [')'] + rest);
    ClosesParen(inner, st);
    BelowSymbol(')', rest, After(inner, open));
  }

  /** An operator pops exactly what its left operand left pending. */
  lemma {:induction false} PopsPending(op: char, l: Expr, st: Conv)
    requires IsOp(op) && WellFormed(l) && |st.out| + Size(l) <= CAP
    requires if op == '^' then Level(l) == 3 else Level(l) >= Precedence(op)
    requires Shields(st.ops, Precedence(op))
    ensures Empties(op, After(l, st)) <==> st.ops == [] && l.Bin?
  {
    PendingYields(op, l);
    PostfixSize(l);
    PopsAll(op, st.ops, Pending(l), st.out + Queued(l), EndsWithDigit(l));
  }

  lemma {:induction false} BelowBin(op: char, l: Expr, r: Expr, st: Conv, rest: string)
    requires var e := Bin(op, l, r);
             && WellFormed(e) && MinusAfterNumeral(e) && NoDigitFirst(rest)
             && Shields(st.ops, Level(e))
             && |st.ops| + Depth(e) <= CAP && |st.out| + Size(e) <= CAP
    ensures ReadsBelow(Text(Bin(op, l, r)) + rest, st)
       <==> BelowIn(Bin(op, l, r), st) || ReadsBelow(rest, After(Bin(op, l, r), st))
    decreases Bin(op, l, r), 0
  {
    hide ReadsBelow, Empties;
    assert Text(Bin(op, l, r)) + rest == Text(l) + ([op] + (Text(r) + rest));
    BelowExpr(l, st, [op] + (Text(r) + rest));
    ReadsOperator(op, l, st);
    PopsPending(op, l, st);
    var s2 := Conv(st.ops + [op], st.out + PostfixOf(l), false);
    BelowSymbol(op, Text(r) + rest, After(l, st));
    PostfixSize(l);
    BelowExpr(r, s2, rest);
    AfterBin(op, l, r, st);
  }

  /** Which texts make `convert_expr` read the byte below `op_stack`. */
  lemma {:induction false} ReadsBelowExactly(e: Expr)
    requires WellFormed(e) && MinusAfterNumeral(e) && Size(e) <= CAP && Depth(e) <= CAP
    ensures ReadsBelow(Text(e), Begin) <==> e.Bin? && e.left.Bin?
  {
    assert Text(e) + "" == Text(e);
    BelowExpr(e, Begin, "");
  }

  /** The shortest such text shape. */
  lemma {:induction false} SumOfThreeReadsBelow()
    ensures ReadsBelow("1+2+3", Begin)
  {
    var e := Bin('+', Bin('+', Num("1"), Num("2")), Num("3"));
    assert NumeralValue("1") == 1 && NumeralValue("2") == 2 && NumeralValue("3") == 3;
    assert Text(e) == "1+2+3";
    ReadsBelowExactly(e);
  }

  // ---- Texts with a `-` after a `)`: the conversion reads it as a unary minus.

  /** The `-` signs that do not follow a numeral. */
  function BadMinus(e: Expr): nat {
    match e
    case Num(_) => 0
    case Paren(inner) => BadMinus(inner)
    case Bin(op, l, r) => BadMinus(l) + BadMinus(r) + (if op == '-' && !EndsWithDigit(l) then 1 else 0)
  }

  function Leaves(e: Expr): nat {
    match e
    case Num(_) => 1
    case Paren(inner) => Leaves(inner)
    case Bin(_, l, r) => Leaves(l) + Leaves(r)
  }

  function Operands(q: seq<int>): nat {
    if q == [] then 0 else Operands(q[..|q| - 1]) + (if q[|q| - 1] > 0 then 1 else 0)
  }

  predicate IsBinaryCode(t: int) { t < 0 && t != -('#' as int) }

  function Binaries(q: seq<int>): nat {
    if q == [] then 0 else Binaries(q[..|q| - 1]) + (if IsBinaryCode(q[|q| - 1]) then 1 else 0)
  }

  function BinaryOps(ops: seq<char>): nat {
    if ops == [] then 0
    else BinaryOps(ops[..|ops| - 1]) + (if IsOp(ops[|ops| - 1]) then 1 else 0)
  }

  function Opens(ops: seq<char>): nat {
    if ops == [] then 0 else Opens(ops[..|ops| - 1]) + (if ops[|ops| - 1] == '(' then 1 else 0)
  }

  /** Only operator characters and `(` on the stack, only their codes and positive bytes queued. */
  predicate Clean(st: Conv) {
    && |st.out| <= CAP
    && (forall i :: 0 <= i < |st.ops| ==> IsOp(st.ops[i]) || st.ops[i] == '#' || st.ops[i] == '(')
    && Codes(st.out)
  }

  predicate Codes(q: seq<int>) { forall i :: 0 <= i < |q| ==> IsCode(q[i]) }

  predicate IsCode(t: int) {
    0 < t <= 127 || t == -('#' as int) || (-128 < t < 0 && IsOp((-t) as char))
  }

  /** The stack and the queue differ from `a` to `b` only by binary operators moved. */
  predicate SameCounts(a: Conv, b: Conv) {
    && Clean(b)
    && Operands(b.out) == Operands(a.out)
    && Binaries(b.out) + BinaryOps(b.ops) == Binaries(a.out) + BinaryOps(a.ops)
  }

  lemma {:induction false} PopCounts(st: Conv)
    requires Clean(st) && st.ops != [] && st.ops[|st.ops| - 1] != '(' && |st.out| < CAP
    ensures SameCounts(st, Pop(st)) && Opens(Pop(st).ops) == Opens(st.ops)
  {
    assert Pop(st).out[..|st.out|] == st.out;
  }

  lemma {:induction false} PopOpsCounts(c: char, st: Conv)
    requires Clean(st)
    ensures var r := PopOps(c, st);
            r == Overflow ||
            (r.More? && SameCounts(st, r.st) && Opens(r.st.ops) == Opens(st.ops) && r.st.expectOp == st.expectOp)
    decreases |st.ops|
  {
    if st.ops != [] && Yields(st.ops[|st.ops| - 1], c) && |st.out| < CAP {
      PopCounts(st);
      PopOpsCounts(c, Pop(st));
    }
  }

  lemma {:induction false} CloseCounts(st: Conv)
    requires Clean(st) && Opens(st.ops) > 0
    ensures var r := CloseParen(st);
            r == Overflow ||
            (r.More? && SameCounts(st, r.st) && Opens(r.st.ops) == Opens(st.ops) - 1 && !r.st.expectOp)
    decreases |st.ops|
  {
    if st.ops[|st.ops| - 1] != '(' && |st.out| < CAP {
      PopCounts(st);
      CloseCounts(Pop(st));
    }
  }

  lemma {:induction false} FlushCounts(st: Conv)
    requires Clean(st) && Opens(st.ops) == 0
    ensures var r := Flush(st); r == Overflow || (r.More? && SameCounts(st, r.st) && r.st.ops == [])
    decreases |st.ops|
  {
    if st.ops != [] && |st.out| < CAP {
      PopCounts(st);
      FlushCounts(Pop(st));
    }
  }

  /** What reading `e` adds to the counts: one binary operator fewer for each bad minus. */
  predicate Counted(e: Expr, a: Conv, b: Conv) {
    && Clean(b) && Opens(b.ops) == Opens(a.ops) && b.expectOp == EndsWithDigit(e)
    && Operands(b.out) == Operands(a.out) + Leaves(e)
    && Binaries(b.out) + BinaryOps(b.ops) + BadMinus(e) + 1 == Binaries(a.out) + BinaryOps(a.ops) + Leaves(e)
  }

  lemma {:induction false} CountsNumeral(d: string, st: Conv, rest: string) returns (r: Outcome)
    requires WellFormed(Num(d)) && NoDigitFirst(rest) && Clean(st)
    ensures r == Overflow || (r.More? && Counted(Num(d), st, r.st))
    ensures Run(d + rest, st) == if r.More? then Run(rest, r.st) else r
  {
    if |st.out| == CAP {
      DigitRunIs(d + rest, |d|);
      assert (d + rest)[..|d|] == d;
      return Overflow;
    }
    ReadsNumeral(d, st, rest);
    r := More(After(Num(d), st));
    assert r.st.ops == st.ops;
    assert r.st.out[..|st.out|] == st.out;
  }

  lemma {:induction false} OpenCounts(st: Conv)
    requires Clean(st)
    ensures var open := Conv(st.ops + ['('], st.out, false);
            SameCounts(st, open) && Opens(open.ops) == Opens(st.ops) + 1
  {
    assert (st.ops + ['('])[..|st.ops|] == st.ops;
  }

  lemma {:induction false} PushCounts(c: char, st: Conv)
    requires Clean(st) && (IsOp(c) || c == '#')
    ensures var pushed := Conv(st.ops + [c], st.out, false);
            && Clean(pushed) && Opens(pushed.ops) == Opens(st.ops)
            && BinaryOps(pushed.ops) == BinaryOps(st.ops) + (if IsOp(c) then 1 else 0)
  {
    assert (st.ops + [c])[..|st.ops|] == st.ops;
  }

  /** An operator adds one binary operator, or a `#` when it is a bad minus. */
  lemma {:induction false} OperatorCounts(op: char, st: Conv)
    requires IsOp(op) && Clean(st)
    ensures var r := Symbol(op, st);
            r == Overflow ||
            (&& r.More? && Clean(r.st) && Opens(r.st.ops) == Opens(st.ops)
             && Operands(r.st.out) == Operands(st.out)
             && Binaries(r.st.out) + BinaryOps(r.st.ops)
                == Binaries(st.out) + BinaryOps(st.ops) + (if op == '-' && !st.expectOp then 0 else 1))
  {
    hide PopOps, Clean, Operands, Binaries, BinaryOps, Opens;
    PopOpsCounts(op, st);
    var p := PopOps(op, st);
    if p.More? && |p.st.ops| != CAP { PushCounts(if !p.st.expectOp && op == '-' then '#' else op, p.st); }
  }

  lemma {:induction false} CountsExpr(e: Expr, st: Conv, rest: string) returns (r: Outcome)
    requires WellFormed(e) && NoDigitFirst(rest) && Clean(st)
    ensures r == Overflow || (r.More? && Counted(e, st, r.st))
    ensures Run(Text(e) + rest, st) == if r.More? then Run(rest, r.st) else r
    decreases e, 1
  {
    match e
    case Num(d) => r := CountsNumeral(d, st, rest);
    case Paren(inner) => r := CountsParen(inner, st, rest);
    case Bin(op, l, right) => r := CountsBin(op, l, right, st, rest);
  }

  lemma {:induction false} CountsParen(inner: Expr, st: Conv, rest: string) returns (r: Outcome)
    requires WellFormed(inner) && NoDigitFirst(rest) && Clean(st)
    ensures r == Overflow || (r.More? && Counted(Paren(inner), st, r.st))
    ensures Run(Text(Paren(inner)) + rest, st) == if r.More? then Run(rest, r.st) else r
    decreases Paren(inner), 0
  {
    assert Text(Paren(inner)) + rest == ['('] + (Text(inner) + ([')'] + rest));
    RunSymbol('(', Text(inner) + ([')'] + rest), st);
    r := Symbol('(', st);
    if r.More? {
      OpenCounts(st);
      r := CountsExpr(inner, r.st, [')'] + rest);
      if r.More? {
        RunSymbol(')', rest, r.st);
        CloseCounts(r.st);
        r := Symbol(')', r.st);
      }
    }
  }

  lemma {:induction false} CountsBin(op: char, l: Expr, right: Expr, st: Conv, rest: string) returns (r: Outcome)
    requires WellFormed(Bin(op, l, right)) && NoDigitFirst(rest) && Clean(st)
    ensures r == Overflow || (r.More? && Counted(Bin(op, l, right), st, r.st))
    ensures Run(Text(Bin(op, l, right)) + rest, st) == if r.More? then Run(rest, r.st) else r
    decreases Bin(op, l, right), 0
  {
    assert Text(Bin(op, l, right)) + rest == Text(l) + ([op] + (Text(right) + rest));
    r := CountsExpr(l, st, [op] + (Text(right) + rest));
    if r.More? {
      RunSymbol(op, Text(right) + rest, r.st);
      OperatorCounts(op, r.st);
      r := Symbol(op, r.st);
      if r.More? { r := CountsExpr(right, r.st, rest); }
    }
  }

  /** When the buffers suffice, the postfix form has all the operands but one binary
      operator too few for each bad minus. */
  lemma {:induction false} ConvertCounts(e: Expr)
    requires WellFormed(e) && Convert(Text(e)) != Failed(Overflow)
    ensures Convert(Text(e)).Postfix?
    ensures var q := Convert(Text(e)).tokens;
            && |q| < CAP && Codes(q) && Operands(q) == Leaves(e) && Binaries(q) + BadMinus(e) + 1 == Leaves(e)
  {
    assert Text(e) + "" == Text(e);
    var r := CountsExpr(e, Begin, "");
    if r.More? { FlushCounts(r.st); }
  }

  function Sum(s: seq<int>): int {
    if s == [] then 0 else Sum(s[..|s| - 1]) + s[|s| - 1]
  }

  /** The interpretation that counts operands: every operator adds, negation keeps. */
  const Count: (char, int, int) -> int := (c, a, b) => a + b
  const Keep: int -> int := a => a

  ghost predicate Counting(stack: seq<int>, operands: int, binaries: int) {
    && Sum(stack) == operands && |stack| == operands - binaries
    && forall i :: 0 <= i < |stack| ==> stack[i] >= 1
  }

  lemma {:induction false} SumAppend(s: seq<int>, x: int)
    ensures Sum(s + [x]) == Sum(s) + x
  {
    assert (s + [x])[..|s|] == s;
  }

  lemma {:induction false} CountStep(t: int, stack: seq<int>, args: seq<int>, operands: int, binaries: int)
    requires IsCode(t)
    requires forall i :: 0 <= i < |args| ==> args[i] == 1
    requires Counting(stack, operands, binaries)
    ensures var r := M.Step(t, stack, args, Count, Keep);
            r.Some? ==>
              Counting(r.value, operands + (if t > 0 then 1 else 0), binaries + (if IsBinaryCode(t) then 1 else 0))
  {
    var n := |stack|;
    if t > 0 {
      SumAppend(stack, 1);
    } else if t == -('#' as int) {
      if n > 0 { assert stack[..n - 1] + [stack[n - 1]] == stack; }
    } else if n > 1 {
      SumAppend(stack[..n - 2], stack[n - 1] + stack[n - 2]);
      assert stack[..n - 1] == stack[..n - 2] + [stack[n - 2]];
      assert stack == stack[..n - 1] + [stack[n - 1]];
      SumAppend(stack[..n - 2], stack[n - 2]);
      SumAppend(stack[..n - 1], stack[n - 1]);
    }
  }

  lemma {:induction false} CountRun(q: seq<int>, args: seq<int>)
    requires Codes(q)
    requires forall i :: 0 <= i < |args| ==> args[i] == 1
    ensures var r := M.Run(q, [], args, Count, Keep); r.Some? ==> Counting(r.value, Operands(q), Binaries(q))
    decreases |q|
  {
    if q != [] {
      var n := |q| - 1;
      CountRun(q[..n], args);
      assert q == q[..n] + [q[n]];
      M.RunAppend(q[..n], [q[n]], [], args, Count, Keep);
      var r := M.Run(q[..n], [], args, Count, Keep);
      if r.Some? {
        CountStep(q[n], r.value, args, Operands(q[..n]), Binaries(q[..n]));
        var s := M.Step(q[n], r.value, args, Count, Keep);
        if s.Some? { assert M.Run([q[n]][1..], s.value, args, Count, Keep) == s; }
      }
    }
  }

  lemma {:induction false} CountValue(e: Expr, args: seq<int>)
    requires WellFormed(e) && MaxOperand(e) <= |args|
    requires forall i :: 0 <= i < |args| ==> args[i] == 1
    ensures Value(e, args, Count) == Leaves(e)
    decreases e
  {
    match e
    case Num(d) =>
    case Paren(inner) => CountValue(inner, args);
    case Bin(op, l, r) =>
      CountValue(l, args);
      CountValue(r, args);
  }

  lemma {:induction false} MinusCounted(e: Expr)
    ensures MinusAfterNumeral(e) <==> BadMinus(e) == 0
    decreases e
  {
    match e
    case Num(_) =>
    case Paren(inner) => MinusCounted(inner);
    case Bin(op, l, r) =>
      MinusCounted(l);
      MinusCounted(r);
  }

  lemma {:induction false} TopBelowSum(s: seq<int>)
    requires forall i :: 0 <= i < |s| ==> s[i] >= 1
    ensures Sum(s) >= |s|
    ensures |s| >= 2 ==> s[|s| - 1] < Sum(s)
    decreases |s|
  {
    if s != [] { TopBelowSum(s[..|s| - 1]); }
  }

  /** A bad minus loses operands: the machine's top of stack is not the value. */
  lemma {:induction false} BadMinusLosesOperands(e: Expr, args: seq<int>)
    requires WellFormed(e) && Convert(Text(e)) != Failed(Overflow) && BadMinus(e) > 0
    requires MaxOperand(e) <= |args| && forall i :: 0 <= i < |args| ==> args[i] == 1
    ensures Convert(Text(e)).Postfix? && M.Bytes(Convert(Text(e)).tokens)
    ensures M.Evaluate(Convert(Text(e)).tokens, args, Count, Keep) != Some(Value(e, args, Count))
  {
    ConvertCounts(e);
    var q := Convert(Text(e)).tokens;
    CountRun(q, args);
    CountValue(e, args);
    var r := M.Run(q, [], args, Count, Keep);
    if r.Some? { TopBelowSum(r.value); }
  }

  /** Every interpretation with a commutative `+`, and every vector of `n` operands, gets the
      value of the expression back from the pipeline. */
  ghost predicate Faithful(e: Expr, n: nat)
    requires WellFormed(e) && MaxOperand(e) <= n
  {
    forall args: seq<int>, apply: (char, int, int) -> int, neg: int -> int ::
      |args| == n && PlusCommutes(apply) ==>
        Pipeline(Text(e), args, apply, neg) == Some(Value(e, args, apply))
  }

  /** An expression nested deeper than `op_stack` runs past its end. */
  lemma {:induction false} TooDeepOverflows(e: Expr, st: Conv, rest: string)
    requires WellFormed(e) && MinusAfterNumeral(e) && NoDigitFirst(rest)
    requires Shields(st.ops, Level(e))
    requires |st.ops| <= CAP < |st.ops| + Depth(e) && |st.out| + Size(e) <= CAP
    ensures Run(Text(e) + rest, st) == Overflow
    decreases e, 1
  {
    match e
    case Num(d) =>
    case Paren(inner) => TooDeepParen(inner, st, rest);
    case Bin(op, l, r) => TooDeepBin(op, l, r, st, rest);
  }

  lemma {:induction false} TooDeepParen(inner: Expr, st: Conv, rest: string)
    requires WellFormed(inner) && MinusAfterNumeral(inner) && NoDigitFirst(rest)
    requires |st.ops| <= CAP < |st.ops| + 1 + Depth(inner) && |st.out| + Size(inner) <= CAP
    ensures Run(Text(Paren(inner)) + rest, st) == Overflow
    decreases Paren(inner), 0
  {
    hide Run;
    assert Text(Paren(inner)) + rest == ['('] + (Text(inner) + ([')'] + rest));
    RunSymbol('(', Text(inner) + ([')'] + rest), st);
    if |st.ops| < CAP { TooDeepOverflows(inner, Conv(st.ops + ['('], st.out, false), [')'] + rest); }
  }

  lemma {:induction false} TooDeepBin(op: char, l: Expr, r: Expr, st: Conv, rest: string)
    requires WellFormed(Bin(op, l, r)) && MinusAfterNumeral(Bin(op, l, r)) && NoDigitFirst(rest)
    requires Shields(st.ops, Precedence(op))
    requires |st.ops| <= CAP < |st.ops| + Depth(Bin(op, l, r)) && |st.out| + Size(Bin(op, l, r)) <= CAP
    ensures Run(Text(Bin(op, l, r)) + rest, st) == Overflow
    decreases Bin(op, l, r), 0
  {
    hide Run, Symbol;
    assert Text(Bin(op, l, r)) + rest == Text(l) + ([op] + (Text(r) + rest));
    if |st.ops| + Depth(l) > CAP {
      TooDeepOverflows(l, st, [op] + (Text(r) + rest));
    } else {
      ReadsExpr(l, st, [op] + (Text(r) + rest));
      RunSymbol(op, Text(r) + rest, After(l, st));
      ReadsOperator(op, l, st);
      PostfixSize(l);
      if |st.ops| < CAP { TooDeepOverflows(r, Conv(st.ops + [op], st.out + PostfixOf(l), false), rest); }
    }
  }

  lemma {:induction false} CodesCounted(q: seq<int>)
    ensures Operands(q) + Binaries(q) <= |q|
    decreases |q|
  {
    if q != [] { CodesCounted(q[..|q| - 1]); }
  }

  lemma {:induction false} SizeIsTokens(e: Expr)
    ensures Size(e) + 1 == 2 * Leaves(e)
    decreases e
  {
    match e
    case Num(_) =>
    case Paren(inner) => SizeIsTokens(inner);
    case Bin(_, l, r) =>
      SizeIsTokens(l);
      SizeIsTokens(r);
  }

  /** A conversion that succeeds on an expression without a bad minus fitted the buffers. */
  lemma {:induction false} ConvertedFits(e: Expr)
    requires WellFormed(e) && MinusAfterNumeral(e) && Convert(Text(e)).Postfix?
    ensures Size(e) <= CAP - 1 && Depth(e) <= CAP
  {
    MinusCounted(e);
    ConvertCounts(e);
    CodesCounted(Convert(Text(e)).tokens);
    SizeIsTokens(e);
    if Depth(e) > CAP {
      assert Text(e) + "" == Text(e);
      TooDeepOverflows(e, Begin, "");
    }
  }

  /** Exactly when the pipeline computes a well-formed expression's value from `n` operands. */
  lemma {:induction false} FaithfulExactly(e: Expr, n: nat)
    requires WellFormed(e) && MaxOperand(e) <= n
    ensures Faithful(e, n) <==> MinusAfterNumeral(e) && Size(e) <= 15 && Depth(e) <= 16 && n <= 8
  {
    MinusCounted(e);
    var args := seq(n, _ => 1);
    assert PlusCommutes(Count);
    if Faithful(e, n) {
      assert Pipeline(Text(e), args, Count, Keep) == Some(Value(e, args, Count));
      if !MinusAfterNumeral(e) { BadMinusLosesOperands(e, args); }
      ConvertedFits(e);
    }
    if MinusAfterNumeral(e) && Size(e) <= CAP - 1 && Depth(e) <= CAP && n <= MAX_ARGS { FittingIsFaithful(e, n); }
  }

  lemma {:induction false} FittingIsFaithful(e: Expr, n: nat)
    requires WellFormed(e) && MinusAfterNumeral(e) && Size(e) <= CAP - 1 && Depth(e) <= CAP
    requires MaxOperand(e) <= n <= MAX_ARGS
    ensures Faithful(e, n)
  {
    forall args: seq<int>, apply: (char, int, int) -> int, neg: int -> int | |args| == n && PlusCommutes(apply)
      ensures Pipeline(Text(e), args, apply, neg) == Some(Value(e, args, apply))
    {
      TranslationPreservesValue(e, args, apply, neg);
    }
  }

  /** The smallest failing text. */
  lemma {:induction false} MinusAfterParenFails()
    ensures var e := Bin('-', Paren(Num("1")), Num("2"));
            WellFormed(e) && Text(e) == "(1)-2" && MaxOperand(e) == 2 && !Faithful(e, 2)
  {
    assert NumeralValue("1") == 1 && NumeralValue("2") == 2;
    FaithfulExactly(Bin('-', Paren(Num("1")), Num("2")), 2);
  }

  /** A ninth operand is one too many, however short the text. */
  lemma {:induction false} NineOperandsFail()
    ensures var e := Num("9");
            && WellFormed(e) && Text(e) == "9" && MaxOperand(e) == 9
            && MinusAfterNumeral(e) && Size(e) <= 15 && Depth(e) <= 16 && !Faithful(e, 9)
  {
    assert NumeralValue("9") == 9;
    FaithfulExactly(Num("9"), 9);
  }
}
