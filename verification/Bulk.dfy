/** The chunked aggregates over encrypted integers; ciphertexts stand for their plaintexts. */
module Bulk {
  import opened ModArith
  import opened Options

  const BULK_SIZE := 256
  const WORD := 0x1_0000_0000

  type Int32 = x: int | -0x8000_0000 <= x < 0x8000_0000

  /** Two's complement wrap-around. */
  function Wrap(x: int): Int32 { (x + 0x8000_0000) % WORD - 0x8000_0000 }

  lemma {:induction false} WrapAdd(a: int, b: int)
    ensures Wrap(Wrap(a) + b) == Wrap(a + b)
  {
    AddMod(a + 0x8000_0000, b, WORD);
  }

  lemma {:induction false} WrapSame(x: Int32)
    ensures Wrap(x) == x
  {
  }

  /** The same number modulo 2^32, as a signed one. */
  lemma {:induction false} WrapIs(x: int)
    ensures -0x8000_0000 <= Wrap(x) < 0x8000_0000 && (x - Wrap(x)) % 0x1_0000_0000 == 0
  {
  }

  function Sum(xs: seq<int>): int { if xs == [] then 0 else Sum(xs[..|xs| - 1]) + xs[|xs| - 1] }

  lemma {:induction false} SumIs(xs: seq<int>, x: int)
    ensures Sum([]) == 0 && Sum(xs + [x]) == Sum(xs) + x
  {
    assert (xs + [x])[..|xs|] == xs;
  }

  lemma {:induction false} SumNext(xs: seq<int>, k: nat)
    requires k < |xs|
    ensures Sum(xs[..k + 1]) == Sum(xs[..k]) + xs[k]
  {
    assert xs[..k + 1][..k] == xs[..k];
  }

  // ---- plain_int_ops.c

  method PlainSumBulk(size: nat, a: array<Int32>) returns (res: Int32)
    requires size <= a.Length
    ensures res == Wrap(Sum(a[..size]))
  {
    res := 0;
    for i := 0 to size
      invariant res == Wrap(Sum(a[..i]))
    {
      WrapAdd(Sum(a[..i]), a[i]);
      SumNext(a[..size], i);
      assert a[..size][..i] == a[..i] && a[..size][..i + 1] == a[..i + 1];
      res := Wrap(res + a[i]);
    }
  }

  // ---- enc_int4.cpp

  /** The array holds a partial sum in slot 0 and items after it; together they come to `total`. */
  ghost predicate Carries(a: array<Int32>, counter: int, total: int)
    reads a
  {
    a.Length == BULK_SIZE && 1 <= counter < BULK_SIZE && Wrap(Sum(a[..counter])) == Wrap(total)
  }

  lemma {:induction false} SumOne(x: int)
    ensures Sum([x]) == x
  {
    assert [x][..0] == [];
  }

  /** Another item in the next slot. */
  method Store(a: array<Int32>, counter: nat, x: Int32, ghost total: int)
    requires Carries(a, counter, total)
    modifies a
    ensures a.Length == BULK_SIZE && Wrap(Sum(a[..counter + 1])) == Wrap(total + x)
  {
    ghost var before := a[..counter];
    a[counter] := x;
    SumNext(a[..counter + 1], counter);
    assert a[..counter + 1][..counter] == before && a[..counter + 1][..counter + 1] == a[..counter + 1];
    WrapAdd(Sum(before), x);
    WrapAdd(total, x);
  }

  /** One request to the other zone, after which its answer is the only thing carried. */
  method Flush(a: array<Int32>, counter: nat, ghost total: int) returns (sum: Int32)
    requires a.Length == BULK_SIZE && 1 <= counter <= BULK_SIZE && Wrap(Sum(a[..counter])) == Wrap(total)
    modifies a
    ensures sum == Wrap(total) && Carries(a, 1, total)
  {
    sum := PlainSumBulk(counter, a);
    a[0] := sum;
    assert a[..1] == [sum];
    SumOne(sum);
    WrapSame(sum);
  }

  /** Every request but the last holds BULK_SIZE items, the last at least two; each but the first item
      has been sent once. */
  ghost predicate Sized(requests: seq<int>, sent: int) {
    && (forall i :: 0 <= i < |requests| ==> 2 <= requests[i] <= BULK_SIZE) && Sum(requests) - |requests| == sent
  }

  /** Full requests so far. */
  ghost predicate AllFull(requests: seq<int>) { forall i :: 0 <= i < |requests| ==> requests[i] == BULK_SIZE }

  lemma {:induction false} OneMore(requests: seq<int>, n: int, sent: int)
    requires AllFull(requests) && Sized(requests, sent) && 2 <= n <= BULK_SIZE
    ensures Sized(requests + [n], sent + n - 1) && (n == BULK_SIZE ==> AllFull(requests + [n]))
  {
    SumIs(requests, n);
  }

  lemma {:induction false} NoRequests()
    ensures Sized([], 0) && AllFull([])
  {
  }

  /** The sum of any non-empty array modulo 2^32; the empty one has no first item to read. All requests
      but the last are full. */
  method SumBulk(items: seq<Int32>) returns (r: Option<Int32>, requests: seq<int>)
    ensures r == None <==> items == []
    ensures items != [] ==> r == Some(Wrap(Sum(items)))
    ensures forall i :: 0 <= i < |requests| ==> 2 <= requests[i] <= 256 && (i < |requests| - 1 ==> requests[i] == 256)
    ensures items != [] ==> Sum(requests) - |requests| == |items| - 1
  {
    hide Wrap, Sum, Sized;
    requests := [];
    if items == [] { return None, requests; }
    var a := new Int32[BULK_SIZE];
    var sum := items[0];
    a[0] := sum;
    var counter := 1;
    assert a[..1] == [sum] && items[..1] == [sum];
    SumOne(sum);
    WrapSame(sum);
    NoRequests();
    for k := 1 to |items|
      invariant Carries(a, counter, Sum(items[..k])) && AllFull(requests) && Sized(requests, k - counter)
      invariant counter == 1 ==> sum == Wrap(Sum(items[..k]))
    {
      SumNext(items, k);
      Store(a, counter, items[k], Sum(items[..k]));
      counter := counter + 1;
      if counter == BULK_SIZE {
        OneMore(requests, BULK_SIZE, k + 1 - counter);
        sum := Flush(a, counter, Sum(items[..k + 1]));
        requests, counter := requests + [BULK_SIZE], 1;
      }
    }
    assert items[..|items|] == items;
    if counter > 1 {
      OneMore(requests, counter, |items| - counter);
      sum := Flush(a, counter, Sum(items));
      requests := requests + [counter];
    }
    r := Some(sum);
    SizedMeans(requests, |items| - 1);
  }

  lemma {:induction false} SizedMeans(requests: seq<int>, sent: int)
    requires Sized(requests, sent)
    ensures forall i :: 0 <= i < |requests| ==> 2 <= requests[i] <= 256
    ensures Sum(requests) - |requests| == sent
  {
  }

  lemma {:induction false} DivSelf(x: Int32)
    requires x != 0
    ensures TruncDiv(x, x) == 1
  {
  }

  lemma {:induction false} QuotientSmaller(x: int, n: int)
    requires x >= 0 && n > 0
    ensures 0 <= x / n <= x
  {
    var q := x / n;
    MulMono(1, n, q);
  }

  lemma {:induction false} DivFits(a: Int32, n: int)
    requires n > 0
    ensures -0x8000_0000 <= TruncDiv(a, n) < 0x8000_0000
  {
    var x: int := a;
    QuotientSmaller(if x < 0 then -x else x, n);
  }

  /** C's division by a positive number: towards zero. */
  lemma {:induction false} DivTruncates(a: int, n: int)
    requires n > 0
    ensures var q := TruncDiv(a, n);
            && (a >= 0 ==> q >= 0 && q * n <= a < (q + 1) * n) && (a < 0 ==> q <= 0 && (q - 1) * n < a <= q * n)
  {
    var b := if a < 0 then -a else a;
    var k := b / n;
    assert b == k * n + b % n && k >= 0 by { QuotientSmaller(b, n); }
    assert (-k) * n == -(k * n) && (-k - 1) * n == -(k * n) - n && (k + 1) * n == k * n + n;
  }

  /** The count is carried beside the sum as a sum of encrypted ones. The average is defined
      exactly when there are two items or more, the first not zero: the one comes from dividing
      the first item by itself, and a single item leaves the count unset. */
  method AvgBulk(items: seq<Int32>) returns (r: Option<Int32>, requests: seq<int>)
    requires |items| < 0x8000_0000
    ensures forall i :: 0 <= i < |requests| ==> 2 <= requests[i] <= 256
    ensures r.Some? <==> |items| >= 2 && items[0] != 0
    ensures r.Some? ==> var q, sum, n := r.value, Wrap(Sum(items)), |items|;
              && (sum >= 0 ==> q >= 0 && q * n <= sum < (q + 1) * n)
              && (sum < 0 ==> q <= 0 && (q - 1) * n < sum <= q * n)
  {
    hide Wrap, Sum, TruncDiv;
    requests := [];
    if items == [] || items[0] == 0 { return None, requests; }
    var sum := items[0];
    DivSelf(sum);
    var unit: Int32 := TruncDiv(sum, sum);
    var a := new Int32[BULK_SIZE];
    var ones := new Int32[BULK_SIZE](_ => unit);
    a[0] := sum;
    var counter := 1;
    var num := None;
    assert a[..1] == [sum] && items[..1] == [sum] && ones[..1] == [1];
    SumOne(sum);
    SumOne(1);
    WrapSame(sum);
    for k := 1 to |items|
      invariant Carries(a, counter, Sum(items[..k])) && Carries(ones, counter, k)
      invariant forall i :: 0 <= i < |requests| ==> 2 <= requests[i] <= 256
      invariant counter == 1 ==> sum == Wrap(Sum(items[..k])) && (k == 1 || num == Some(k))
      invariant k == 1 ==> num.None? && counter == 1
    {
      SumNext(items, k);
      Store(a, counter, items[k], Sum(items[..k]));
      Store(ones, counter, unit, k);
      counter := counter + 1;
      if counter == BULK_SIZE {
        sum := Flush(a, counter, Sum(items[..k + 1]));
        var n := Flush(ones, counter, k + 1);
        WrapSame(k + 1);
        num, requests, counter := Some(n), requests + [BULK_SIZE, BULK_SIZE], 1;
      }
    }
    assert items[..|items|] == items;
    if counter > 1 {
      sum := Flush(a, counter, Sum(items));
      var n := Flush(ones, counter, |items|);
      WrapSame(|items|);
      num, requests := Some(n), requests + [counter, counter];
    }
    if num.None? { return None, requests; }
    DivFits(sum, num.value);
    DivTruncates(sum, num.value);
    r := Some(TruncDiv(sum, num.value));
  }
}
