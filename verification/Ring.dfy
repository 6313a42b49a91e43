/** Powers and geometric sums in any commutative ring. Each law is a named instance, so
    that proofs cite exactly the instances they use. */
module Ring {

  datatype Ring<!T> = Ring(add: (T, T) -> T, mul: (T, T) -> T, zero: T, one: T)

  ghost predicate AddAssoc<T>(r: Ring<T>, a: T, b: T, c: T) { r.add(r.add(a, b), c) == r.add(a, r.add(b, c)) }
  ghost predicate AddComm<T>(r: Ring<T>, a: T, b: T) { r.add(a, b) == r.add(b, a) }
  ghost predicate AddZero<T>(r: Ring<T>, a: T) { r.add(r.zero, a) == a }
  ghost predicate MulAssoc<T>(r: Ring<T>, a: T, b: T, c: T) { r.mul(r.mul(a, b), c) == r.mul(a, r.mul(b, c)) }
  ghost predicate MulComm<T>(r: Ring<T>, a: T, b: T) { r.mul(a, b) == r.mul(b, a) }
  ghost predicate MulOne<T>(r: Ring<T>, a: T) { r.mul(r.one, a) == a }
  ghost predicate MulZero<T>(r: Ring<T>, a: T) { r.mul(r.zero, a) == r.zero }
  ghost predicate Distrib<T>(r: Ring<T>, a: T, b: T, c: T) { r.mul(a, r.add(b, c)) == r.add(r.mul(a, b), r.mul(a, c)) }

  ghost predicate IsRing<T(!new)>(r: Ring<T>) {
    && (forall a, b, c :: AddAssoc(r, a, b, c)) && (forall a, b :: AddComm(r, a, b)) && (forall a :: AddZero(r, a))
    && (forall a, b, c :: MulAssoc(r, a, b, c)) && (forall a, b :: MulComm(r, a, b)) && (forall a :: MulOne(r, a))
    && (forall a :: MulZero(r, a)) && (forall a, b, c :: Distrib(r, a, b, c))
  }

  ghost function Pow<T>(r: Ring<T>, b: T, n: nat): T {
    if n == 0 then r.one else r.mul(b, Pow(r, b, n - 1))
  }

  /** 1 + b + ... + b^(n-1), by Horner's rule. */
  ghost function Geo<T>(r: Ring<T>, b: T, n: nat): T {
    if n == 0 then r.zero else r.add(r.one, r.mul(b, Geo(r, b, n - 1)))
  }

  /** `n` steps of x -> a x + c. */
  ghost function Affine<T>(r: Ring<T>, a: T, c: T, x: T, n: nat): T {
    if n == 0 then x else r.add(r.mul(a, Affine(r, a, c, x, n - 1)), c)
  }

  lemma {:induction false} PowAdd<T(!new)>(r: Ring<T>, b: T, i: nat, j: nat)
    requires IsRing(r)
    ensures Pow(r, b, i + j) == r.mul(Pow(r, b, i), Pow(r, b, j))
    decreases i
  {
    if i == 0 {
      assert MulOne(r, Pow(r, b, j));
    } else {
      PowAdd(r, b, i - 1, j);
      assert MulAssoc(r, b, Pow(r, b, i - 1), Pow(r, b, j));
    }
  }

  lemma {:induction false} PowSquare<T(!new)>(r: Ring<T>, b: T, n: nat)
    requires IsRing(r)
    ensures Pow(r, r.mul(b, b), n) == Pow(r, b, 2 * n)
    decreases n
  {
    if n > 0 {
      PowSquare(r, b, n - 1);
      var p := Pow(r, b, 2 * (n - 1));
      assert Pow(r, b, 2 * n) == r.mul(b, Pow(r, b, 2 * n - 1)) == r.mul(b, r.mul(b, p));
      assert MulAssoc(r, b, b, p);
    }
  }

  lemma {:induction false} GeoAdd<T(!new)>(r: Ring<T>, b: T, i: nat, j: nat)
    requires IsRing(r)
    ensures Geo(r, b, i + j) == r.add(Geo(r, b, i), r.mul(Pow(r, b, i), Geo(r, b, j)))
    decreases i
  {
    var g := Geo(r, b, j);
    if i == 0 {
      assert MulOne(r, g) && AddZero(r, g);
    } else {
      GeoAdd(r, b, i - 1, j);
      var gi, p := Geo(r, b, i - 1), Pow(r, b, i - 1);
      assert Distrib(r, b, gi, r.mul(p, g));
      assert MulAssoc(r, b, p, g);
      assert AddAssoc(r, r.one, r.mul(b, gi), r.mul(r.mul(b, p), g));
    }
  }

  /** Doubling the length of a sum: G(2m) = G(m) (b^m + 1). */
  lemma {:induction false} GeoDouble<T(!new)>(r: Ring<T>, b: T, m: nat)
    requires IsRing(r)
    ensures Geo(r, b, 2 * m) == r.mul(Geo(r, b, m), r.add(Pow(r, b, m), r.one))
  {
    var g, p := Geo(r, b, m), Pow(r, b, m);
    GeoAdd(r, b, m, m);
    assert Distrib(r, g, p, r.one);
    assert MulComm(r, g, r.one) && MulOne(r, g) && MulComm(r, g, p);
    assert AddComm(r, r.mul(g, p), g);
  }

  lemma {:induction false} GeoSnoc<T(!new)>(r: Ring<T>, b: T, n: nat)
    requires IsRing(r)
    ensures Geo(r, b, n + 1) == r.add(Geo(r, b, n), Pow(r, b, n))
  {
    GeoAdd(r, b, n, 1);
    var p := Pow(r, b, n);
    assert MulComm(r, b, r.zero) && MulZero(r, b) && AddComm(r, r.one, r.zero) && AddZero(r, r.one);
    assert Geo(r, b, 1) == r.add(r.one, r.mul(b, Geo(r, b, 0))) == r.one;
    assert MulComm(r, p, r.one) && MulOne(r, p);
  }

  /** Stepping an affine map is one multiplication and one addition. */
  lemma {:induction false} AffineClosed<T(!new)>(r: Ring<T>, a: T, c: T, x: T, n: nat)
    requires IsRing(r)
    ensures Affine(r, a, c, x, n) == r.add(r.mul(x, Pow(r, a, n)), r.mul(Geo(r, a, n), c))
    decreases n
  {
    if n == 0 {
      assert MulComm(r, x, r.one) && MulOne(r, x) && MulZero(r, c) && AddComm(r, x, r.zero) && AddZero(r, x);
    } else {
      AffineClosed(r, a, c, x, n - 1);
      var p, g := Pow(r, a, n - 1), Geo(r, a, n - 1);
      var gc := r.mul(g, c);
      assert Distrib(r, a, r.mul(x, p), gc);
      assert r.mul(a, r.mul(x, p)) == r.mul(x, r.mul(a, p)) by {
        assert MulAssoc(r, a, x, p) && MulComm(r, a, x) && MulAssoc(r, x, a, p);
      }
      assert r.add(r.mul(a, gc), c) == r.mul(Geo(r, a, n), c) by {
        var ag := r.mul(a, g);
        assert MulAssoc(r, a, g, c);
        assert Distrib(r, c, r.one, ag);
        assert MulComm(r, c, r.one) && MulOne(r, c) && MulComm(r, c, ag);
        assert MulComm(r, c, r.add(r.one, ag));
        assert AddComm(r, c, r.mul(ag, c));
      }
      assert AddAssoc(r, r.mul(x, Pow(r, a, n)), r.mul(a, gc), c);
    }
  }
}
