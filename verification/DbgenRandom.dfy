/** The two random generators of dbgen and their logarithmic skip-ahead. */
module DbgenRandom {
  import opened ModArith
  import Ring

  // ---- The 31-bit generator: rnd.c and speed_seed.c.

  const MULTIPLIER := 16807
  const MODULUS := 2147483647 // 2^31 - 1
  const INVERSE := 1407677000 // of the multiplier modulo the modulus
  const INT64_MAX := 0x7FFF_FFFF_FFFF_FFFF

  type Seed = x: int | 0 <= x < MODULUS

  function Add31(x: Seed, y: Seed): Seed { (x + y) % MODULUS }
  function Mul31(x: Seed, y: Seed): Seed { (x * y) % MODULUS }
  const R31: Ring.Ring<Seed> := Ring.Ring<Seed>.Ring(Add31, Mul31, 0, 1)

  lemma {:induction false} R31IsRing()
    ensures Ring.IsRing(R31)
  {
    forall a: Seed, b: Seed, c: Seed
      ensures Ring.AddAssoc(R31, a, b, c) && Ring.MulAssoc(R31, a, b, c) && Ring.Distrib(R31, a, b, c)
    {
      ModAddAssoc(a, b, c, MODULUS);
      ModMulAssoc(a, b, c, MODULUS);
      ModDistrib(a, b, c, MODULUS);
    }
    forall a: Seed, b: Seed ensures Ring.AddComm(R31, a, b) && Ring.MulComm(R31, a, b) {
    }
  }

  function NextRand(seed: Seed): Seed {
    (seed * MULTIPLIER) % MODULUS
  }

  /** The generator stepped `n` times. */
  function Steps(seed: Seed, n: nat): Seed {
    if n == 0 then seed else NextRand(Steps(seed, n - 1))
  }

  lemma {:induction false} StepsAdd(seed: Seed, i: nat, j: nat)
    ensures Steps(seed, i + j) == Steps(Steps(seed, i), j)
    decreases j
  {
    if j > 0 { StepsAdd(seed, i, j - 1); }
  }

  /** Stepping is multiplying by a power. */
  lemma {:induction false} StepsIsPower(seed: Seed, n: nat)
    ensures Steps(seed, n) == R31.mul(seed, Ring.Pow(R31, MULTIPLIER, n))
    decreases n
  {
    R31IsRing();
    if n == 0 {
      assert Ring.MulComm(R31, seed, 1) && Ring.MulOne(R31, seed);
    } else {
      StepsIsPower(seed, n - 1);
      var p := Ring.Pow(R31, MULTIPLIER, n - 1);
      assert Ring.MulAssoc(R31, seed, p, MULTIPLIER) && Ring.MulComm(R31, p, MULTIPLIER);
    }
  }

  /** Multiplying by 16807 is invertible modulo 2^31 - 1, so a legal seed stays legal. */
  lemma {:induction false} NextRandInvertible(seed: Seed)
    ensures (NextRand(seed) * INVERSE) % MODULUS == seed
    ensures seed != 0 ==> NextRand(seed) != 0
  {
    MulMod(seed * MULTIPLIER, INVERSE, MODULUS);
    assert seed * MULTIPLIER * INVERSE == seed + MODULUS * (11017 * seed);
    AddMultiple(seed, 11017 * seed, MODULUS);
  }

  lemma {:induction false} StepsInRange(seed: Seed, n: nat)
    requires seed != 0
    ensures 1 <= Steps(seed, n) < MODULUS
    decreases n
  {
    if n > 0 {
      StepsInRange(seed, n - 1);
      NextRandInvertible(Steps(seed, n - 1));
    }
  }

  lemma {:induction false} ProductFits(x: Seed, y: Seed)
    ensures 0 <= x * y <= INT64_MAX
  {
    MulBound(x, y, MODULUS);
  }

  /** Halving the exponent squares the multiplier, in any ring. */
  lemma {:induction false} HalveExponent<T(!new)>(r: Ring.Ring<T>, z: T, b: T, n: nat)
    requires Ring.IsRing(r) && n > 0
    ensures r.mul(z, Ring.Pow(r, b, n))
         == r.mul(if n % 2 != 0 then r.mul(b, z) else z, Ring.Pow(r, r.mul(b, b), n / 2))
  {
    var q := n / 2;
    var p := Ring.Pow(r, b, 2 * q);
    Ring.PowSquare(r, b, q);
    if n % 2 != 0 {
      assert Ring.Pow(r, b, n) == r.mul(b, p);
      assert Ring.MulAssoc(r, z, b, p) && Ring.MulComm(r, z, b);
    }
  }

  // ---- The 64-bit generator: rng64.c. Values are residues modulo 2^64.

  const WORD := 0x1_0000_0000_0000_0000
  const RNG_A := 6364136223846793005
  const RNG_C := 1

  type Word = x: int | 0 <= x < WORD

  function Add64(x: Word, y: Word): Word { (x + y) % WORD }
  function Mul64(x: Word, y: Word): Word { (x * y) % WORD }
  const R64: Ring.Ring<Word> := Ring.Ring<Word>.Ring(Add64, Mul64, 0, 1)

  lemma {:induction false} R64IsRing()
    ensures Ring.IsRing(R64)
  {
    forall a: Word, b: Word, c: Word
      ensures Ring.AddAssoc(R64, a, b, c) && Ring.MulAssoc(R64, a, b, c) && Ring.Distrib(R64, a, b, c)
    {
      ModAddAssoc(a, b, c, WORD);
      ModMulAssoc(a, b, c, WORD);
      ModDistrib(a, b, c, WORD);
    }
    forall a: Word, b: Word ensures Ring.AddComm(R64, a, b) && Ring.MulComm(R64, a, b) {
    }
  }

  function NextRand64(seed: Word): Word {
    (seed * RNG_A + RNG_C) % WORD
  }

  function Steps64(seed: Word, n: nat): Word {
    if n == 0 then seed else NextRand64(Steps64(seed, n - 1))
  }

  lemma {:induction false} Steps64IsAffine(seed: Word, n: nat)
    ensures Steps64(seed, n) == Ring.Affine(R64, RNG_A, RNG_C, seed, n)
    decreases n
  {
    if n > 0 {
      Steps64IsAffine(seed, n - 1);
      var s := Steps64(seed, n - 1);
      AddMod(s * RNG_A, RNG_C, WORD);
      assert s * RNG_A == RNG_A * s;
    }
  }

  /** `n >> k` */
  function Shr(n: nat, k: nat): nat {
    if k == 0 then n else Shr(n, k - 1) / 2
  }

  /** One bit of the count: sum and power double, then take one more step if it is set. */
  lemma {:induction false} DoubleStep<T(!new)>(r: Ring.Ring<T>, b: T, m: nat)
    requires Ring.IsRing(r)
    ensures var p, g := Ring.Pow(r, b, m), Ring.Geo(r, b, m);
            && r.mul(p, p) == Ring.Pow(r, b, 2 * m)
            && r.mul(g, r.add(p, r.one)) == Ring.Geo(r, b, 2 * m)
    ensures r.mul(Ring.Pow(r, b, 2 * m), b) == Ring.Pow(r, b, 2 * m + 1)
    ensures r.add(Ring.Geo(r, b, 2 * m), Ring.Pow(r, b, 2 * m)) == Ring.Geo(r, b, 2 * m + 1)
  {
    Ring.PowAdd(r, b, m, m);
    Ring.GeoDouble(r, b, m);
    Ring.GeoSnoc(r, b, 2 * m);
    assert Ring.MulComm(r, Ring.Pow(r, b, 2 * m), b);
  }

  /** The two assignments of one round, on residues. */
  method DoubleWord(apow: Word, dsum: Word, odd: bool) returns (a: Word, d: Word)
    ensures var a2, d2 := R64.mul(apow, apow), R64.mul(dsum, R64.add(apow, 1));
            && a == (if odd then R64.mul(a2, RNG_A) else a2)
            && d == (if odd then R64.add(d2, a2) else d2)
  {
    d := (dsum * ((apow + 1) % WORD)) % WORD;
    a := (apow * apow) % WORD;
    if odd {
      d := (d + a) % WORD;
      a := (a * RNG_A) % WORD;
    }
  }

  /** The last line of the skip: one multiplication and one addition. */
  method FinishWord(seed: Word, apow: Word, dsum: Word) returns (r: Word)
    ensures r == R64.add(R64.mul(seed, apow), R64.mul(dsum, RNG_C))
  {
    r := ((seed * apow) % WORD + (dsum * RNG_C) % WORD) % WORD;
  }

  /** Reading one more bit of the count extends the prefix whose power is known. */
  lemma {:induction false} PrefixStep<T(!new)>(r: Ring.Ring<T>, b: T, m: nat, m': nat)
    requires Ring.IsRing(r) && m == m' / 2
    ensures var p, g := Ring.Pow(r, b, m), Ring.Geo(r, b, m);
            var p2, g2 := r.mul(p, p), r.mul(g, r.add(p, r.one));
            && Ring.Pow(r, b, m') == (if m' % 2 == 1 then r.mul(p2, b) else p2)
            && Ring.Geo(r, b, m') == (if m' % 2 == 1 then r.add(g2, p2) else g2)
  {
    DoubleStep(r, b, m);
    assert m' == 2 * m + m' % 2;
  }

  /** The position of the highest set bit. */
  method HighestBit(count: nat) returns (nBit: nat)
    requires count > 0
    ensures Shr(count, nBit) == 1
  {
    nBit := 0;
    while Shr(count, nBit) != 1
      invariant Shr(count, nBit) >= 1
      decreases Shr(count, nBit)
    {
      nBit := nBit + 1;
    }
  }

  method AdvanceRand64(seed: Word, count: nat) returns (r: Word)
    ensures r == Steps64(seed, count)
  {
    if count == 0 { return seed; }
    var apow: Word, dsum: Word := RNG_A, RNG_C;
    var nBit := HighestBit(count);
    FirstRound();
    R64IsRing();
    while nBit > 0
      invariant apow == Ring.Pow(R64, RNG_A, Shr(count, nBit))
      invariant dsum == Ring.Geo(R64, RNG_A, Shr(count, nBit))
    {
      PrefixStep(R64, RNG_A, Shr(count, nBit), Shr(count, nBit - 1));
      nBit := nBit - 1;
      apow, dsum := DoubleWord(apow, dsum, Shr(count, nBit) % 2 == 1);
    }
    r := FinishWord(seed, apow, dsum);
    Steps64IsAffine(seed, count);
    Ring.AffineClosed(R64, RNG_A, RNG_C, seed, count);
  }

  lemma {:induction false} FirstRound()
    ensures Ring.Pow(R64, RNG_A, 1) == RNG_A && Ring.Geo(R64, RNG_A, 1) == RNG_C
  {
    assert Ring.Pow(R64, RNG_A, 1) == R64.mul(RNG_A, Ring.Pow(R64, RNG_A, 0));
    assert Ring.Geo(R64, RNG_A, 1) == R64.add(1, R64.mul(RNG_A, Ring.Geo(R64, RNG_A, 0)));
  }

  // ---- Streams as signed 64-bit words, and the skip on them.

  const SIGN := 0x8000_0000_0000_0000

  /** The signed reading of a word, and back. */
  function Signed(x: Word): int { if x < SIGN then x else x - WORD }
  function Unsigned(x: int): Word { x % WORD }

  function Clamp(n: int): nat { if n < 0 then 0 else n }

  /** One multiplication of the skip, in signed words that wrap around. */
  function MulStep(mult: Seed, z: Word): Word {
    Unsigned(TruncMod(Signed(Unsigned(mult * Signed(z))), MODULUS))
  }

  /** The skip by repeated squaring. */
  function Nth(n: nat, mult: Seed, z: Word): Word {
    if n == 0 then z else Nth(n / 2, (mult * mult) % MODULUS, if n % 2 != 0 then MulStep(mult, z) else z)
  }

  /** `n` steps at once, on whatever a stream holds. */
  function Skip31(z: Word, n: nat): Word { Nth(n, MULTIPLIER, z) }

  /** On a seed of the 31-bit generator nothing wraps. */
  lemma {:induction false} MulStepSmall(mult: Seed, z: Seed)
    ensures MulStep(mult, z) == R31.mul(mult, z)
  {
    hide Unsigned, Signed, TruncMod;
    var p := mult * z;
    ProductFits(mult, z);
    SmallWord(z);
    SmallWord(p);
    assert TruncMod(p, MODULUS) == p % MODULUS by { TruncModPositive(p); }
    SmallWord(p % MODULUS);
  }

  lemma {:induction false} SmallWord(x: int)
    requires 0 <= x < SIGN
    ensures Unsigned(x) == x && Signed(x) == x
  {
    RemainderUnique(x, 0, x, WORD);
  }

  lemma {:induction false} TruncModPositive(p: int)
    requires p >= 0
    ensures TruncMod(p, MODULUS) == p % MODULUS
  {
  }

  lemma {:induction false} NthIsPower(n: nat, mult: Seed, z: Seed)
    ensures Nth(n, mult, z) == R31.mul(z, Ring.Pow(R31, mult, n))
    decreases n
  {
    hide MulStep;
    R31IsRing();
    if n == 0 {
      assert Ring.MulComm(R31, z, 1) && Ring.MulOne(R31, z);
    } else {
      MulStepSmall(mult, z);
      HalveExponent(R31, z, mult, n);
      NthIsPower(n / 2, R31.mul(mult, mult), if n % 2 != 0 then R31.mul(mult, z) else z);
    }
  }

  /** On a seed, skipping is stepping. */
  lemma {:induction false} SkipIsSteps(z: Seed, n: nat)
    ensures Skip31(z, n) == Steps(z, n)
  {
    NthIsPower(n, MULTIPLIER, z);
    StepsIsPower(z, n);
  }

  /** `count` steps at once; a negative count, like zero, does nothing. On a seed no product
      exceeds a signed 64-bit word. */
  method NthElement(count: int, startSeed: Word) returns (z: Word)
    ensures z == Skip31(startSeed, Clamp(count))
    ensures startSeed < MODULUS ==> z == Steps(startSeed, Clamp(count))
  {
    hide MulStep;
    if startSeed < MODULUS { SkipIsSteps(startSeed, Clamp(count)); }
    var n := count;
    var mult: Seed := MULTIPLIER;
    z := startSeed;
    while n > 0
      invariant Nth(Clamp(n), mult, z) == Skip31(startSeed, Clamp(count))
    {
      if n % 2 != 0 {
        z := MulStep(mult, z);
      }
      n := n / 2;
      mult := (mult * mult) % MODULUS;
    }
  }

  // ---- Draws from the 64-bit generator: dss_random64.

  /** The absolute value in a signed word; that of the least word is the least word again. */
  function Magnitude(w: Word): int {
    var n := Signed(w);
    if n < 0 then Signed(Unsigned(-n)) else n
  }

  /** A draw between 1 and `hi` from the word the generator has reached. */
  function Draw64(w: Word, hi: int): int
    requires hi > 0
  {
    1 + TruncMod(Magnitude(w), hi)
  }

  /** A draw is in its range if and only if it is not made from the least word, whatever the
      range, as long as the range is a multiple of five. */
  lemma {:induction false} Draw64InRange(w: Word, hi: int)
    requires hi > 0 && hi % 5 == 0
    ensures 1 <= Draw64(w, hi) <= hi <==> w != SIGN
  {
    if w == SIGN {
      assert Magnitude(w) == -SIGN;
      NotAMultiple(hi);
    } else {
      assert 0 <= Magnitude(w) < SIGN;
    }
  }

  /** No multiple of five divides a power of two. */
  lemma {:induction false} NotAMultiple(hi: int)
    requires hi > 0 && hi % 5 == 0
    ensures SIGN % hi != 0
  {
    var q, f := SIGN / hi, hi / 5;
    assert SIGN % hi == SIGN - 5 * (f * q) by {
      assert SIGN == hi * q + SIGN % hi && hi == 5 * f;
    }
    AddMultiple(SIGN, -(f * q), 5);
  }

  lemma {:induction false} Steps64Add(seed: Word, i: nat, j: nat)
    ensures Steps64(seed, i + j) == Steps64(Steps64(seed, i), j)
    decreases j
  {
    if j > 0 { Steps64Add(seed, i, j - 1); }
  }

  lemma {:induction false} MagnitudeParity(w: Word)
    ensures Magnitude(w) % 2 == w % 2
  {
  }

  lemma {:induction false} NegParity(x: int)
    ensures (-x) % 2 == x % 2
  {
    AddMultiple(x, -x, 2);
  }

  lemma {:induction false} RemainderParity(m: int, hi: int)
    requires hi > 0 && hi % 2 == 0
    ensures m % hi % 2 == m % 2
  {
    var q, h := m / hi, hi / 2;
    assert m % hi == m + 2 * (-(h * q)) by {
      assert m == hi * q + m % hi && hi * q == 2 * (h * q);
    }
    AddMultiple(m, -(h * q), 2);
  }

  lemma {:induction false} TruncModParity(n: int, hi: int)
    requires hi > 0 && hi % 2 == 0
    ensures TruncMod(n, hi) % 2 == n % 2
  {
    if n < 0 {
      RemainderParity(-n, hi);
      NegParity(n);
      NegParity((-n) % hi);
    } else {
      RemainderParity(n, hi);
    }
  }

  lemma {:induction false} Draw64Parity(w: Word, hi: int)
    requires hi > 0 && hi % 2 == 0
    ensures Draw64(w, hi) % 2 == (w + 1) % 2
  {
    hide Magnitude, TruncMod;
    MagnitudeParity(w);
    TruncModParity(Magnitude(w), hi);
  }
}
