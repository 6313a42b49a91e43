/** The infix expressions that `enc_float4_eval_expr` accepts, as derivations
    that keep the digits and the parentheses of the text. */
module ExprSyntax {

  datatype Expr =
    | Num(digits: string)
    | Paren(inner: Expr)
    | Bin(op: char, left: Expr, right: Expr)

  predicate IsDigit(c: char) { '0' <= c <= '9' }

  function DigitValue(c: char): nat
    requires IsDigit(c)
  {
    c as int - '0' as int
  }

  predicate IsOp(c: char) { c == '+' || c == '-' || c == '*' || c == '/' || c == '%' || c == '^' }

  /** `get_precedance`: unary minus, spelled '#', and the parenthesis share -1. */
  function Precedence(c: char): int {
    if c == '+' || c == '-' then 0
    else if c == '*' || c == '/' || c == '%' then 1
    else if c == '^' then 2
    else -1
  }

  /** The number a digit string spells. */
  function NumeralValue(digits: string): nat
    requires forall i :: 0 <= i < |digits| ==> IsDigit(digits[i])
  {
    if digits == "" then 0
    else
      var n := |digits| - 1;
      10 * NumeralValue(digits[..n]) + DigitValue(digits[n])
  }

  /** The loosest operator outside parentheses; operands bind tightest. */
  function Level(e: Expr): int {
    if e.Bin? then Precedence(e.op) else 3
  }

  /** A derivation of the usual grammar: `+ - * / %` group to the left, `^` to
      the right, and operand numerals are positive `int8_t` values. */
  predicate WellFormed(e: Expr) {
    match e
    case Num(d) =>
      && d != ""
      && (forall i :: 0 <= i < |d| ==> IsDigit(d[i]))
      && 1 <= NumeralValue(d) <= 127
    case Paren(inner) => WellFormed(inner)
    case Bin(op, l, r) =>
      && IsOp(op) && WellFormed(l) && WellFormed(r)
      && (if op == '^' then Level(l) == 3 && Level(r) >= 2
          else Level(l) >= Precedence(op) && Level(r) > Precedence(op))
  }

  /** The text a derivation stands for. */
  function Text(e: Expr): string {
    match e
    case Num(d) => d
    case Paren(inner) => "(" + Text(inner) + ")"
    case Bin(op, l, r) => Text(l) + [op] + Text(r)
  }

  /** Operands plus operators: the length of the postfix form. */
  function Size(e: Expr): nat {
    match e
    case Num(_) => 1
    case Paren(inner) => Size(inner)
    case Bin(_, l, r) => Size(l) + 1 + Size(r)
  }

  /** The operator-stack entries the conversion needs. */
  function Depth(e: Expr): nat {
    match e
    case Num(_) => 0
    case Paren(inner) => 1 + Depth(inner)
    case Bin(_, l, r) => if Depth(l) <= 1 + Depth(r) then 1 + Depth(r) else Depth(l)
  }

  predicate EndsWithDigit(e: Expr) {
    match e
    case Num(_) => true
    case Paren(_) => false
    case Bin(_, _, r) => EndsWithDigit(r)
  }

  /** Every `-` of the text comes right after a numeral, never after `)`. */
  predicate MinusAfterNumeral(e: Expr) {
    match e
    case Num(_) => true
    case Paren(inner) => MinusAfterNumeral(inner)
    case Bin(op, l, r) =>
      MinusAfterNumeral(l) && MinusAfterNumeral(r) && (op == '-' ==> EndsWithDigit(l))
  }

  /** The largest operand index an expression mentions. */
  function MaxOperand(e: Expr): nat
    requires WellFormed(e)
  {
    match e
    case Num(d) => NumeralValue(d)
    case Paren(inner) => MaxOperand(inner)
    case Bin(_, l, r) => if MaxOperand(l) <= MaxOperand(r) then MaxOperand(r) else MaxOperand(l)
  }

  /** The meaning of an expression, for any interpretation of the operators and
      any operand vector. */
  function Value<V>(e: Expr, args: seq<V>, apply: (char, V, V) -> V): V
    requires WellFormed(e) && MaxOperand(e) <= |args|
  {
    match e
    case Num(d) => args[NumeralValue(d) - 1]
    case Paren(inner) => Value(inner, args, apply)
    case Bin(op, l, r) => apply(op, Value(l, args, apply), Value(r, args, apply))
  }

  /** Removing the blanks from a text, as `remove_space` does. */
  function NoSpace(s: string): string {
    if s == "" then "" else NoSpace(s[..|s| - 1]) + (if s[|s| - 1] == ' ' then "" else [s[|s| - 1]])
  }
}
