/** The laws of arithmetic modulo a positive number. */
module ModArith {

  /** C's division, which truncates toward zero. */
  function TruncDiv(a: int, b: int): int
    requires b != 0
  {
    var q := (if a < 0 then -a else a) / (if b < 0 then -b else b);
    if (a < 0) == (b < 0) then q else -q
  }

  /** C's remainder, which has the sign of the dividend. */
  function TruncMod(a: int, b: int): int
    requires b > 0
  {
    if a < 0 then -((-a) % b) else a % b
  }

  lemma {:induction false} SmallMultiple(m: int, t: int)
    requires m > 0 && -m < m * t < m
    ensures t == 0
  {
  }

  lemma {:induction false} RemainderUnique(a: int, q: int, r: int, m: int)
    requires m > 0 && a == m * q + r && 0 <= r < m
    ensures a % m == r
  {
    var t := q - a / m;
    assert a == m * (a / m) + a % m;
    assert m * t == m * q - m * (a / m) == a % m - r;
    SmallMultiple(m, t);
  }

  lemma {:induction false} AddMultiple(z: int, k: int, m: int)
    requires m > 0
    ensures (z + m * k) % m == z % m
  {
    assert z == m * (z / m) + z % m;
    assert z + m * k == m * (z / m + k) + z % m;
    RemainderUnique(z + m * k, z / m + k, z % m, m);
  }

  lemma {:induction false} MulMod(x: int, y: int, m: int)
    requires m > 0
    ensures ((x % m) * y) % m == (x * y) % m
  {
    var q, r := x / m, x % m;
    assert x == m * q + r;
    assert x * y == r * y + m * (q * y) by {
      assert (m * q + r) * y == m * q * y + r * y;
      assert m * q * y == m * (q * y);
    }
    AddMultiple(r * y, q * y, m);
  }

  lemma {:induction false} AddMod(x: int, y: int, m: int)
    requires m > 0
    ensures ((x % m) + y) % m == (x + y) % m
  {
    assert x == m * (x / m) + x % m;
    AddMultiple(x % m + y, x / m, m);
  }

  lemma {:induction false} ModAddAssoc(a: int, b: int, c: int, m: int)
    requires m > 0
    ensures ((a + b) % m + c) % m == (a + (b + c) % m) % m
  {
    var t := (b + c) % m;
    assert ((a + b) % m + c) % m == (a + b + c) % m by { AddMod(a + b, c, m); }
    assert (t + a) % m == (b + c + a) % m by { AddMod(b + c, a, m); }
    assert a + t == t + a && b + c + a == a + b + c;
  }

  lemma {:induction false} ModMulAssoc(a: int, b: int, c: int, m: int)
    requires m > 0
    ensures ((a * b) % m * c) % m == (a * ((b * c) % m)) % m
  {
    MulMod(a * b, c, m);
    MulMod(b * c, a, m);
    var bc := (b * c) % m;
    assert a * bc == bc * a;
    assert a * b * c == b * c * a;
  }

  lemma {:induction false} ModDistrib(a: int, b: int, c: int, m: int)
    requires m > 0
    ensures (a * ((b + c) % m)) % m == ((a * b) % m + (a * c) % m) % m
  {
    var s := (b + c) % m;
    MulMod(b + c, a, m);
    assert a * s == s * a && (b + c) * a == a * b + a * c;
    AddMod(a * b, a * c, m);
    AddMod(a * c, (a * b) % m, m);
  }

  lemma {:induction false} MulBound(x: int, y: int, b: int)
    requires 0 <= x <= b && 0 <= y <= b
    ensures 0 <= x * y <= b * b
  {
    assert x * y <= x * b <= b * b;
  }

  lemma {:induction false} MulMono(x: int, y: int, r: int)
    requires x <= y && r >= 0
    ensures x * r <= y * r
  {
  }

  lemma {:induction false} QuotientUnique(a: int, q: int, r: int, m: int)
    requires m > 0 && a == m * q + r && 0 <= r < m
    ensures a / m == q
  {
    RemainderUnique(a, q, r, m);
    assert m * (a / m - q) == 0;
    SmallMultiple(m, a / m - q);
  }

  /** Subtracting a multiple lowers the quotient and keeps the remainder. */
  lemma {:induction false} ShiftDown(x: int, k: int, m: int)
    requires m > 0
    ensures (x - m * k) / m == x / m - k && (x - m * k) % m == x % m
  {
    var q, r := x / m, x % m;
    assert x - m * k == m * (q - k) + r by { assert m * (q - k) == m * q - m * k; }
    QuotientUnique(x - m * k, q - k, r, m);
    RemainderUnique(x - m * k, q - k, r, m);
  }

  /** The rounded-up quotient of the next number. */
  lemma {:induction false} CeilStep(y: int, m: int)
    requires m > 1
    ensures (y + m) / m == (y + m - 1) / m + (if y % m == 0 then 1 else 0)
  {
    var q, r := y / m, y % m;
    QuotientUnique(y + m, q + 1, r, m);
    if r == 0 { QuotientUnique(y + m - 1, q, m - 1, m); } else { QuotientUnique(y + m - 1, q + 1, r - 1, m); }
  }

  /** Offsets that differ by less than the modulus leave different remainders. */
  lemma {:induction false} CloseRemaindersDiffer(x: int, d: int, m: int)
    requires 0 < d < m
    ensures (x + d) % m != x % m
  {
    var q, r := x / m, x % m;
    if r + d < m {
      RemainderUnique(x + d, q, r + d, m);
    } else {
      RemainderUnique(x + d, q + 1, r + d - m, m);
    }
  }
}
