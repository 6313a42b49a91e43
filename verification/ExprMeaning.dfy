/** What the pipeline makes of texts, said in their characters: how operators group, what a minus
    in front negates, and which parentheses are refused. */
module ExprMeaning {
  import opened ExprConvert
  import opened ExprCorrect
  import opened ExprSyntax
  import opened Options
  import M = ExprEval

  // ---- The grammar by classes of characters.

  predicate IsNumeral(d: string) { forall i :: 0 <= i < |d| ==> '0' <= d[i] <= '9' }

  /** A numeral from 1 to 127, or a sum in parentheses. */
  predicate IsAtom(e: Expr)
    decreases e, 0
  {
    match e
    case Num(d) => d != "" && IsNumeral(d) && 1 <= Decimal(d) <= 127
    case Paren(inner) => IsSum(inner)
    case Bin(_, _, _) => false
  }

  /** Atoms joined by `^`, the last one first. */
  predicate IsPower(e: Expr)
    decreases e, 1
  {
    IsAtom(e) || (e.Bin? && e.op == '^' && IsAtom(e.left) && IsPower(e.right))
  }

  /** Powers joined by `*`, `/` and `%`, the first one first. */
  predicate IsProduct(e: Expr)
    decreases e, 2
  {
    IsPower(e) || (e.Bin? && e.op in "*/%" && IsProduct(e.left) && IsPower(e.right))
  }

  /** Products joined by `+` and `-`, the first one first. */
  predicate IsSum(e: Expr)
    decreases e, 3
  {
    IsProduct(e) || (e.Bin? && e.op in "+-" && IsSum(e.left) && IsProduct(e.right))
  }

  /** The number a numeral spells, from its first digit on. */
  function Decimal(d: string): nat
    requires IsNumeral(d)
  {
    if d == "" then 0 else (d[0] as int - 48) * Tens(|d| - 1) + Decimal(d[1..])
  }

  function Tens(n: nat): nat { if n == 0 then 1 else 10 * Tens(n - 1) }

  lemma {:induction false} NumeralCons(d: string)
    requires d != "" && forall i :: 0 <= i < |d| ==> IsDigit(d[i])
    ensures NumeralValue(d) == DigitValue(d[0]) * Tens(|d| - 1) + NumeralValue(d[1..])
    decreases |d|
  {
    var n := |d| - 1;
    if n > 0 {
      NumeralCons(d[..n]);
      assert d[..n][1..] == d[1..][..n - 1];
      TenTimes(DigitValue(d[0]), n);
    }
  }

  lemma {:induction false} TenTimes(x: nat, n: nat)
    requires n > 0
    ensures 10 * (x * Tens(n - 1)) == x * Tens(n)
  {
  }

  lemma {:induction false} NumeralIsDecimal(d: string)
    ensures IsNumeral(d) <==> forall i :: 0 <= i < |d| ==> IsDigit(d[i])
    ensures IsNumeral(d) ==> NumeralValue(d) == Decimal(d)
    decreases |d|
  {
    if d != "" && IsNumeral(d) {
      NumeralCons(d);
      NumeralIsDecimal(d[1..]);
    }
  }

  /** The derivations are exactly those of the grammar, and their levels are its classes. */
  lemma {:induction false} GrammarExactly(e: Expr)
    ensures WellFormed(e) <==> IsSum(e)
    ensures WellFormed(e) && Level(e) >= 1 <==> IsProduct(e)
    ensures WellFormed(e) && Level(e) >= 2 <==> IsPower(e)
    ensures WellFormed(e) && Level(e) >= 3 <==> IsAtom(e)
    decreases e
  {
    match e
    case Num(d) =>
      NumeralIsDecimal(d);
      assert WellFormed(e) <==> IsAtom(e);
      assert IsAtom(e) <==> IsPower(e);
      assert IsPower(e) <==> IsProduct(e);
    case Paren(inner) =>
      GrammarExactly(inner);
      assert WellFormed(e) <==> IsAtom(e);
      assert IsAtom(e) <==> IsPower(e);
      assert IsPower(e) <==> IsProduct(e);
    case Bin(op, l, r) =>
      GrammarExactly(l);
      GrammarExactly(r);
      assert !IsAtom(e);
      assert IsPower(e) <==> op == '^' && IsAtom(l) && IsPower(r);
      assert IsProduct(e) <==> IsPower(e) || (op in "*/%" && IsProduct(l) && IsPower(r));
      assert IsSum(e) <==> IsProduct(e) || (op in "+-" && IsSum(l) && IsProduct(r));
  }

  // ---- Three operands and two operators.

  const NAMES := "12345678"

  lemma {:induction false} Name(i: nat)
    requires i < 8
    ensures var d := [NAMES[i]];
            (forall k :: 0 <= k < |d| ==> IsDigit(d[k])) && NumeralValue(d) == i + 1 && WellFormed(Num(d))
  {
    var d := [NAMES[i]];
    assert forall k :: 0 <= k < 8 ==> NAMES[k] as int == 49 + k;
    assert d[..0] == "";
  }

  /** An expression that fits the buffers, its text and its value. */
  ghost predicate Fits<V(!new)>(e: Expr, text: string, size: nat, args: seq<V>, apply: (char, V, V) -> V, v: V) {
    && WellFormed(e) && MinusAfterNumeral(e) && Size(e) <= size && Depth(e) <= size && Text(e) == text
    && MaxOperand(e) <= |args| && Value(e, args, apply) == v
  }

  lemma {:induction false} NameFits<V(!new)>(i: nat, args: seq<V>, apply: (char, V, V) -> V)
    requires i < |args| <= 8
    ensures Fits(Num([NAMES[i]]), [NAMES[i]], 1, args, apply, args[i])
  {
    hide NumeralValue;
    Name(i);
  }

  lemma {:induction false} BinFits<V(!new)>(op: char, l: Expr, a: string, m: nat, x: V, r: Expr, b: string, n: nat,
                                            y: V, args: seq<V>, apply: (char, V, V) -> V)
    requires Fits(l, a, m, args, apply, x) && Fits(r, b, n, args, apply, y)
    requires WellFormed(Bin(op, l, r)) && (op == '-' ==> EndsWithDigit(l))
    ensures Fits(Bin(op, l, r), a + [op] + b, m + 1 + n, args, apply, apply(op, x, y))
  {
  }

  lemma {:induction false} ParenFits<V(!new)>(e: Expr, a: string, m: nat, x: V, args: seq<V>, apply: (char, V, V) -> V)
    requires Fits(e, a, m, args, apply, x)
    ensures Fits(Paren(e), "(" + a + ")", m + 1, args, apply, x)
  {
  }

  lemma {:induction false} FitsComputed<V(!new)>(e: Expr, text: string, size: nat, args: seq<V>,
                                                 apply: (char, V, V) -> V, neg: V -> V, v: V)
    requires Fits(e, text, size, args, apply, v) && size <= 15 && |args| <= 8 && PlusCommutes(apply)
    ensures Pipeline(text, args, apply, neg) == Some(v)
  {
    TranslationPreservesValue(e, args, apply, neg);
  }

  /** The second operator goes first. */
  predicate Tighter(o: char, p: char) {
    (o in "+-" && p in "*/%^") || (o in "*/%" && p == '^') || (o == '^' && p == '^')
  }

  lemma {:induction false} PairWellFormed(a: Expr, b: Expr, c: Expr, o: char, p: char)
    requires a.Num? && b.Num? && c.Num? && WellFormed(a) && WellFormed(b) && WellFormed(c)
    requires o in "+-*/%^" && p in "+-*/%^"
    ensures WellFormed(Bin(o, a, b)) && WellFormed(Bin(p, b, c))
    ensures WellFormed(Bin(o, a, Paren(Bin(p, b, c)))) && WellFormed(Bin(p, Paren(Bin(o, a, b)), c))
    ensures if Tighter(o, p) then WellFormed(Bin(o, a, Bin(p, b, c))) else WellFormed(Bin(p, Bin(o, a, b), c))
  {
    hide NumeralValue;
    assert Level(a) == Level(b) == Level(c) == 3;
    assert WellFormed(Bin(o, a, b)) && WellFormed(Bin(p, b, c));
    assert WellFormed(Paren(Bin(p, b, c))) && WellFormed(Paren(Bin(o, a, b)));
  }

  /** Two operators without parentheses, for all 36 pairs: `+ -` bind loosest, then `* / %`, then `^`;
      equals group to the left, but `^` to the right. */
  lemma {:induction false} Grouping<V(!new)>(i: nat, j: nat, k: nat, o: char, p: char, args: seq<V>,
                                             apply: (char, V, V) -> V, neg: V -> V)
    requires i < |args| && j < |args| && k < |args| && |args| <= 8 && PlusCommutes(apply)
    requires o in "+-*/%^" && p in "+-*/%^"
    ensures Pipeline(["12345678"[i], o, "12345678"[j], p, "12345678"[k]], args, apply, neg) ==
            Some(if (o in "+-" && p in "*/%^") || (o in "*/%" && p == '^') || (o == '^' && p == '^')
                 then apply(o, args[i], apply(p, args[j], args[k]))
                 else apply(p, apply(o, args[i], args[j]), args[k]))
  {
    hide Pipeline, Fits, WellFormed;
    NameFits(i, args, apply);
    NameFits(j, args, apply);
    NameFits(k, args, apply);
    Name(i);
    Name(j);
    Name(k);
    var u, v, w := [NAMES[i]], [NAMES[j]], [NAMES[k]];
    var a, b, c := Num(u), Num(v), Num(w);
    PairWellFormed(a, b, c, o, p);
    assert [NAMES[i], o, NAMES[j], p, NAMES[k]] == u + [o] + (v + [p] + w) == u + [o] + v + [p] + w;
    if Tighter(o, p) {
      BinFits(p, b, v, 1, args[j], c, w, 1, args[k], args, apply);
      var y := apply(p, args[j], args[k]);
      BinFits(o, a, u, 1, args[i], Bin(p, b, c), v + [p] + w, 3, y, args, apply);
      FitsComputed(Bin(o, a, Bin(p, b, c)), u + [o] + (v + [p] + w), 5, args, apply, neg, apply(o, args[i], y));
    } else {
      BinFits(o, a, u, 1, args[i], b, v, 1, args[j], args, apply);
      var x := apply(o, args[i], args[j]);
      BinFits(p, Bin(o, a, b), u + [o] + v, 3, x, c, w, 1, args[k], args, apply);
      FitsComputed(Bin(p, Bin(o, a, b), c), u + [o] + v + [p] + w, 5, args, apply, neg, apply(p, x, args[k]));
    }
  }

  /** Parentheses decide, on either side; after a `)` no minus is read as a subtraction. */
  lemma {:induction false} ParensGroup<V(!new)>(i: nat, j: nat, k: nat, o: char, p: char, args: seq<V>,
                                                apply: (char, V, V) -> V, neg: V -> V)
    requires i < |args| && j < |args| && k < |args| && |args| <= 8 && PlusCommutes(apply)
    requires o in "+-*/%^" && p in "+-*/%^"
    ensures Pipeline(["12345678"[i], o, '(', "12345678"[j], p, "12345678"[k], ')'], args, apply, neg) ==
            Some(apply(o, args[i], apply(p, args[j], args[k])))
    ensures p != '-' ==>
            Pipeline(['(', "12345678"[i], o, "12345678"[j], ')', p, "12345678"[k]], args, apply, neg) ==
            Some(apply(p, apply(o, args[i], args[j]), args[k]))
  {
    hide Pipeline, Fits, WellFormed;
    NameFits(i, args, apply);
    NameFits(j, args, apply);
    NameFits(k, args, apply);
    Name(i);
    Name(j);
    Name(k);
    var u, v, w := [NAMES[i]], [NAMES[j]], [NAMES[k]];
    var a, b, c := Num(u), Num(v), Num(w);
    PairWellFormed(a, b, c, o, p);
    var x, y := apply(o, args[i], args[j]), apply(p, args[j], args[k]);
    BinFits(p, b, v, 1, args[j], c, w, 1, args[k], args, apply);
    ParenFits(Bin(p, b, c), v + [p] + w, 3, y, args, apply);
    BinFits(o, a, u, 1, args[i], Paren(Bin(p, b, c)), "(" + (v + [p] + w) + ")", 4, y, args, apply);
    var right := u + [o] + ("(" + (v + [p] + w) + ")");
    assert right == [NAMES[i], o, '(', NAMES[j], p, NAMES[k], ')'];
    FitsComputed(Bin(o, a, Paren(Bin(p, b, c))), right, 6, args, apply, neg, apply(o, args[i], y));
    if p != '-' {
      BinFits(o, a, u, 1, args[i], b, v, 1, args[j], args, apply);
      ParenFits(Bin(o, a, b), u + [o] + v, 3, x, args, apply);
      BinFits(p, Paren(Bin(o, a, b)), "(" + (u + [o] + v) + ")", 4, x, c, w, 1, args[k], args, apply);
      var left := "(" + (u + [o] + v) + ")" + [p] + w;
      assert left == ['(', NAMES[i], o, NAMES[j], ')', p, NAMES[k]];
      FitsComputed(Bin(p, Paren(Bin(o, a, b)), c), left, 6, args, apply, neg, apply(p, x, args[k]));
    }
  }

  // ---- A minus in front.

  lemma {:induction false} ReadsMinus(e: Expr)
    requires WellFormed(e) && MinusAfterNumeral(e) && Size(e) <= 14 && Depth(e) <= 15
    ensures Convert("-" + Text(e)) == Postfix(PostfixOf(e) + [-35])
  {
    hide Run, Symbol, Flush;
    var st, q, x := Conv(['#'], [], false), Queued(e), EndsWithDigit(e);
    assert "-" + Text(e) == ['-'] + (Text(e) + "");
    RunSymbol('-', Text(e) + "", Begin);
    MinusOnEmpty(Begin);
    ReadsExpr(e, st, "");
    RunNothing(After(e, st));
    QueuedThenPending(e);
    PostfixSize(e);
    PendingOps(e);
    var all := ['#'] + Pending(e);
    assert [] + q == q;
    DrainCons('#', Pending(e));
    FlushesAll(all, q, x);
    assert q + Drain(all) == PostfixOf(e) + [-35];
  }

  /** A minus in front negates the value of everything after it, not of its first operand. */
  lemma {:induction false} LeadingMinus<V(!new)>(e: Expr, args: seq<V>, apply: (char, V, V) -> V, neg: V -> V)
    requires WellFormed(e) && MinusAfterNumeral(e) && Size(e) <= 14 && Depth(e) <= 15
    requires MaxOperand(e) <= |args| <= 8 && PlusCommutes(apply)
    ensures Pipeline("-" + Text(e), args, apply, neg) == Some(neg(Value(e, args, apply)))
  {
    var v := Value(e, args, apply);
    ReadsMinus(e);
    PostfixBytes(e);
    PostfixPushesValue(e, [], args, apply, neg);
    M.RunAppend(PostfixOf(e), [-35], [], args, apply, neg);
    assert [] + [v] == [v];
    assert [v][..0] + [neg(v)] == [neg(v)];
    assert M.Run([-35][1..], [neg(v)], args, apply, neg) == Some([neg(v)]);
  }

  /** The usual reading: the minus belongs to the first operand. */
  function FirstNegated<V>(e: Expr, args: seq<V>, apply: (char, V, V) -> V, neg: V -> V): V
    requires WellFormed(e) && MaxOperand(e) <= |args|
  {
    if e.Bin? then apply(e.op, FirstNegated(e.left, args, apply, neg), Value(e.right, args, apply))
    else neg(Value(e, args, apply))
  }

  ghost predicate MinusFaithful(e: Expr, n: nat)
    requires WellFormed(e) && MaxOperand(e) <= n
  {
    forall args: seq<int>, apply: (char, int, int) -> int, neg: int -> int ::
      |args| == n && PlusCommutes(apply) ==>
        Pipeline("-" + Text(e), args, apply, neg) == Some(FirstNegated(e, args, apply, neg))
  }

  const Flip: int -> int := a => -a

  lemma {:induction false} FlippedSum(e: Expr, args: seq<int>)
    requires WellFormed(e) && MaxOperand(e) <= |args| && forall i :: 0 <= i < |args| ==> args[i] == 1
    ensures FirstNegated(e, args, Count, Flip) + Leaves(e) >= 0
    ensures e.Bin? ==> FirstNegated(e, args, Count, Flip) + Leaves(e) > 0
    decreases e
  {
    CountValue(e, args);
    if e.Bin? {
      FlippedSum(e.left, args);
      CountValue(e.right, args);
      SomeLeaf(e.right);
    }
  }

  lemma {:induction false} SomeLeaf(e: Expr)
    ensures Leaves(e) >= 1
    decreases e
  {
    match e
    case Num(_) =>
    case Paren(inner) => SomeLeaf(inner);
    case Bin(_, l, r) => SomeLeaf(l);
  }

  /** A minus in front is read as usual if and only if a single operand follows it. */
  lemma {:induction false} LeadingMinusExactly(e: Expr, n: nat)
    requires WellFormed(e) && MinusAfterNumeral(e) && Size(e) <= 14 && Depth(e) <= 15 && MaxOperand(e) <= n <= 8
    ensures MinusFaithful(e, n) <==> !e.Bin?
  {
    if e.Bin? {
      var args := seq(n, _ => 1);
      assert PlusCommutes(Count);
      LeadingMinus(e, args, Count, Flip);
      CountValue(e, args);
      FlippedSum(e, args);
      assert Pipeline("-" + Text(e), args, Count, Flip) != Some(FirstNegated(e, args, Count, Flip));
    } else {
      forall args: seq<int>, apply: (char, int, int) -> int, neg: int -> int | |args| == n && PlusCommutes(apply)
        ensures Pipeline("-" + Text(e), args, apply, neg) == Some(FirstNegated(e, args, apply, neg))
      {
        LeadingMinus(e, args, apply, neg);
      }
    }
  }

  /** `-1+2` is the negated sum. */
  lemma {:induction false} MinusOnePlusTwo<V(!new)>(args: seq<V>, apply: (char, V, V) -> V, neg: V -> V)
    requires 2 <= |args| <= 8 && PlusCommutes(apply)
    ensures Pipeline("-1+2", args, apply, neg) == Some(neg(apply('+', args[0], args[1])))
  {
    hide NumeralValue, Text, Value, Pipeline;
    var a, b := Num([NAMES[0]]), Num([NAMES[1]]);
    NameFits(0, args, apply);
    NameFits(1, args, apply);
    assert WellFormed(Bin('+', a, b));
    BinFits('+', a, [NAMES[0]], 1, args[0], b, [NAMES[1]], 1, args[1], args, apply);
    LeadingMinus(Bin('+', a, b), args, apply, neg);
    assert "-" + ([NAMES[0]] + ['+'] + [NAMES[1]]) == "-1+2";
  }

  /** `(1)-2` ends with both operands on the stack: the result is the negated second one. */
  lemma {:induction false} MinusAfterParen<V(!new)>(args: seq<V>, apply: (char, V, V) -> V, neg: V -> V)
    requires 2 <= |args| <= 8
    ensures Pipeline("(1)-2", args, apply, neg) == Some(neg(args[1]))
  {
    ReadsMinusAfterParen();
    Evaluates(args, apply, neg);
  }

  lemma {:induction false} ReadsMinusAfterParen()
    ensures Convert("(1)-2") == Postfix([1, 2, -35])
  {
    hide Run, Symbol, Flush, NumeralValue;
    TwoNames();
    assert WellFormed(Num("1")) && WellFormed(Num("2"));
    var st, st2 := After(Paren(Num("1")), Begin), Conv(['#'], [1], false);
    assert Text(Num("1")) == "1" && PostfixOf(Num("1")) == [1] && Queued(Num("2")) == [2];
    assert st == Conv([], [1], false);
    assert "(1)-2" == Text(Paren(Num("1"))) + "-2";
    ReadsExpr(Paren(Num("1")), Begin, "-2");
    assert "-2" == ['-'] + ("2" + "");
    RunSymbol('-', "2" + "", st);
    MinusOnEmpty(st);
    ReadsNumeral("2", st2, "");
    assert After(Num("2"), st2) == Conv(['#'], [1, 2], true);
    RunNothing(Conv(['#'], [1, 2], true));
    FlushesAll(['#'], [1, 2], true);
    DrainCons('#', []);
    assert ['#'] + [] == ['#'] && [1, 2] + Drain(['#']) == [1, 2, -35];
  }

  lemma {:induction false} TwoNames()
    ensures forall i :: 0 <= i < |"1"| ==> IsDigit("1"[i])
    ensures forall i :: 0 <= i < |"2"| ==> IsDigit("2"[i])
    ensures NumeralValue("1") == 1 && NumeralValue("2") == 2
  {
  }

  lemma {:induction false} RunNothing(st: Conv)
    ensures Run("", st) == More(st)
  {
  }

  lemma {:induction false} MinusOnEmpty(st: Conv)
    requires st.ops == [] && !st.expectOp
    ensures Symbol('-', st) == More(Conv(['#'], st.out, false))
  {
  }

  lemma {:induction false} Evaluates<V(!new)>(args: seq<V>, apply: (char, V, V) -> V, neg: V -> V)
    requires 2 <= |args| <= 8
    ensures M.Run([1, 2, -35], [], args, apply, neg) == Some([args[0], neg(args[1])])
  {
    var s1, s2, s3 := [args[0]], [args[0], args[1]], [args[0], neg(args[1])];
    assert [1, 2, -35][1..] == [2, -35] && [2, -35][1..] == [-35] && [-35][1..] == [];
    assert [] + [args[0]] == s1 && s1 + [args[1]] == s2 && s2[..1] + [neg(s2[1])] == s3;
    assert M.Run([], s3, args, apply, neg) == Some(s3);
    assert M.Run([-35], s2, args, apply, neg) == Some(s3);
    assert M.Run([2, -35], s1, args, apply, neg) == Some(s3);
  }

  // ---- Parentheses, in any text.

  /** Opened minus closed. */
  function Balance(text: string): int {
    if text == "" then 0
    else
      var c := text[|text| - 1];
      Balance(text[..|text| - 1]) + (if c == '(' then 1 else if c == ')' then -1 else 0)
  }

  /** A `)` without its `(`. */
  predicate Closes(text: string) { exists n :: 0 <= n <= |text| && Balance(text[..n]) < 0 }

  lemma {:induction false} BalanceAppend(a: string, b: string)
    ensures Balance(a + b) == Balance(a) + Balance(b)
    decreases |b|
  {
    if b == "" {
      assert a + b == a;
    } else {
      assert (a + b)[..|a + b| - 1] == a + b[..|b| - 1];
      BalanceAppend(a, b[..|b| - 1]);
    }
  }

  lemma {:induction false} DigitsBalance(d: string)
    requires forall i :: 0 <= i < |d| ==> IsDigit(d[i])
    ensures Balance(d) == 0
    decreases |d|
  {
    if d != "" { DigitsBalance(d[..|d| - 1]); }
  }

  /** What a piece in front changes: the first bad prefix is in the rest, `b` further on. */
  ghost predicate ClosesFrom(text: string, open: int) { exists n :: 0 <= n <= |text| && open + Balance(text[..n]) < 0 }

  lemma {:induction false} ClosesRest(a: string, b: string, open: int)
    requires forall n :: 0 <= n <= |a| ==> open + Balance(a[..n]) >= 0
    ensures ClosesFrom(a + b, open) <==> ClosesFrom(b, open + Balance(a))
  {
    if ClosesFrom(a + b, open) {
      var n :| 0 <= n <= |a + b| && open + Balance((a + b)[..n]) < 0;
      forall m | 0 <= m <= |a| ensures (a + b)[..m] == a[..m] { }
      assert (a + b)[..n] == a + b[..n - |a|];
      BalanceAppend(a, b[..n - |a|]);
    }
    if ClosesFrom(b, open + Balance(a)) {
      var n :| 0 <= n <= |b| && open + Balance(a) + Balance(b[..n]) < 0;
      assert (a + b)[..|a| + n] == a + b[..n];
      BalanceAppend(a, b[..n]);
    }
  }

  lemma {:induction false} PopOpsOpens(c: char, st: Conv)
    ensures var r := PopOps(c, st); r == Overflow || (r.More? && Opens(r.st.ops) == Opens(st.ops))
    decreases |st.ops|
  {
    if st.ops != [] && Yields(st.ops[|st.ops| - 1], c) && |st.out| != CAP { PopOpsOpens(c, Pop(st)); }
  }

  lemma {:induction false} CloseOpens(st: Conv)
    ensures var r := CloseParen(st);
            if Opens(st.ops) == 0 then r == Overflow || r == Mismatched
            else r == Overflow || (r.More? && Opens(r.st.ops) == Opens(st.ops) - 1)
    decreases |st.ops|
  {
    if st.ops != [] && st.ops[|st.ops| - 1] != '(' && |st.out| != CAP { CloseOpens(Pop(st)); }
  }

  lemma {:induction false} FlushOpens(st: Conv)
    ensures var r := Flush(st); r == Overflow || (if Opens(st.ops) == 0 then r.More? else r == Extra)
    decreases |st.ops|
  {
    if st.ops != [] && st.ops[|st.ops| - 1] != '(' && |st.out| != CAP { FlushOpens(Pop(st)); }
  }

  lemma {:induction false} PushOpens(c: char, st: Conv)
    ensures var r := Push(c, st);
            r == Overflow || (r.More? && Opens(r.st.ops) == Opens(st.ops) + (if c == '(' then 1 else 0))
  {
    assert (st.ops + [c])[..|st.ops|] == st.ops;
  }

  /** A symbol keeps count of the open parentheses. */
  lemma {:induction false} SymbolOpens(c: char, st: Conv)
    ensures var r, b := Symbol(c, st), Balance([c]);
            r == Overflow || (if Opens(st.ops) + b < 0 then r == Mismatched
                              else r.More? && Opens(r.st.ops) == Opens(st.ops) + b)
  {
    hide PopOps, CloseParen;
    assert Balance([c][..0]) == 0;
    PopOpsOpens(c, st);
    CloseOpens(st);
    PushOpens(c, st);
    var p := PopOps(c, st);
    if IsOp(c) && p.More? { PushOpens(if !p.st.expectOp && c == '-' then '#' else c, p.st); }
  }

  lemma {:induction false} RunParens(text: string, st: Conv)
    ensures var r := Run(text, st);
            r == Overflow || (if ClosesFrom(text, Opens(st.ops)) then r == Mismatched
                              else r.More? && Opens(r.st.ops) == Opens(st.ops) + Balance(text))
    decreases |text|
  {
    hide Symbol, Opens;
    if text == "" {
      assert Balance(text) == 0 && forall n :: 0 <= n <= |text| ==> text[..n] == "";
    } else {
      var n := if IsDigit(text[0]) then DigitRun(text) else 1;
      var a, b := text[..n], text[n..];
      assert text == a + b;
      FrontBalance(a);
      BalanceAppend(a, b);
      if IsDigit(text[0]) {
        ClosesRest(a, b, Opens(st.ops));
        var r := Operand(NumeralValue(a), st);
        if r.More? { RunParens(b, r.st); }
      } else {
        assert a == [text[0]];
        SymbolOpens(text[0], st);
        FirstPrefix(a, b, Opens(st.ops));
        var r := Symbol(text[0], st);
        if r.More? { RunParens(b, r.st); }
      }
    }
  }

  /** Digits leave the balance alone, and so does every prefix of them. */
  lemma {:induction false} FrontBalance(a: string)
    ensures (forall i :: 0 <= i < |a| ==> IsDigit(a[i])) ==> forall n :: 0 <= n <= |a| ==> Balance(a[..n]) == 0
    ensures a[..|a|] == a
  {
    if forall i :: 0 <= i < |a| ==> IsDigit(a[i]) {
      forall n | 0 <= n <= |a| ensures Balance(a[..n]) == 0 { DigitsBalance(a[..n]); }
    }
  }

  lemma {:induction false} FirstPrefix(a: string, b: string, open: nat)
    requires |a| == 1
    ensures if open + Balance(a) < 0 then ClosesFrom(a + b, open)
            else ClosesFrom(a + b, open) <==> ClosesFrom(b, open + Balance(a))
  {
    assert (a + b)[..1] == a && a[..0] == "" && a[..1] == a;
    if open + Balance(a) >= 0 {
      forall n | 0 <= n <= |a| ensures open + Balance(a[..n]) >= 0 { assert n == 0 || n == 1; }
      ClosesRest(a, b, open);
    }
  }

  /** Any text at all: unless a buffer overruns, it is refused as mismatched exactly when a `)` comes
      without its `(`, as unclosed exactly when a `(` is left over, and converted otherwise. */
  lemma {:induction false} ParensDecide(text: string)
    ensures Convert(text) == Failed(Overflow) ||
            (if Closes(text) then Convert(text) == Failed(Mismatched)
             else if Balance(text) > 0 then Convert(text) == Failed(Extra)
             else Convert(text).Postfix?)
  {
    RunParens(text, Begin);
    assert Closes(text) <==> ClosesFrom(text, 0);
    var r := Run(text, Begin);
    if r.More? { FlushOpens(r.st); }
    if !Closes(text) { assert text[..|text|] == text; }
  }

  /** Characters that are no digit, operator or parenthesis are passed over. */
  lemma {:induction false} OthersIgnored(c: char, rest: string, st: Conv)
    requires !('0' <= c <= '9') && c !in "+-*/%^()"
    ensures Run([c] + rest, st) == Run(rest, st)
  {
    RunSymbol(c, rest, st);
  }

  // ---- Small laws of the remaining parts.

  /** Removing blanks keeps every other character, in order. */
  lemma {:induction false} NoSpaceIs(a: string, c: char)
    ensures NoSpace("") == "" && NoSpace(a + [c]) == NoSpace(a) + (if c == ' ' then "" else [c])
  {
    assert (a + [c])[..|a|] == a;
  }

  /** The cast keeps the value modulo 256 and gives a signed byte. */
  lemma {:induction false} ToInt8Is(n: int)
    ensures -128 <= ToInt8(n) <= 127 && (n - ToInt8(n)) % 256 == 0
  {
  }

  /** What follows a zero byte is not run. */
  lemma {:induction false} ZeroEnds<V>(a: seq<int>, b: seq<int>, args: seq<V>, apply: (char, V, V) -> V, neg: V -> V)
    requires M.Bytes(a) && M.Bytes(b) && 0 !in a
    ensures M.Bytes(a + [0] + b) && M.Evaluate(a + [0] + b, args, apply, neg) == M.Evaluate(a, args, apply, neg)
  {
    assert a + [0] + b == a + ([0] + b);
    M.RunAppend(a, [0] + b, [], args, apply, neg);
  }

  /** A code that is no operator leaves the lower of the two operands. */
  lemma {:induction false} UnknownCode<V>(t: int, stack: seq<V>, x: V, y: V, args: seq<V>,
                                          apply: (char, V, V) -> V, neg: V -> V)
    requires -128 <= t < 0 && (-t) as char !in "+-*/%^#"
    ensures M.Step(t, stack + [x, y], args, apply, neg) == Some(stack + [x])
  {
    assert (stack + [x, y])[..|stack|] == stack;
  }

  /** An operand needs its argument and a free entry, a negation one value and an operator two. */
  lemma {:induction false} StepDefined<V>(t: int, stack: seq<V>, args: seq<V>, apply: (char, V, V) -> V, neg: V -> V)
    requires -128 <= t <= 127
    ensures M.Step(t, stack, args, apply, neg).Some? <==>
            if t > 0 then t <= |args| && |stack| < 16 else |stack| >= (if t == -35 then 1 else 2)
  {
  }
}
