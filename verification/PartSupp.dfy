/** The keys that tie parts, suppliers, line items, orders and customers together (clause 4.2.3
    of the TPC-H specification). */
module PartSupp {
  import opened DbgenRows
  import opened DbgenRandom
  import opened ModArith

  lemma {:induction false} QuotientBelow(a: nat, b: nat, k: nat)
    requires b > 0 && a < k * b
    ensures 0 <= a / b < k
  {
    if a / b >= k {
      MulMono(k, a / b, b);
    }
  }

  /** The stride between a part's suppliers: a quarter of them, plus less than 20. */
  lemma {:induction false} Stride(scale: nat, p: int)
    requires scale > 0 && 1 <= p <= Base(PART) * scale
    ensures var tot := Base(SUPP) * scale;
            var d := tot / SUPP_PER_PART + TruncDiv(p - 1, tot);
            0 < d && 3 * d < tot
  {
    var tot := Base(SUPP) * scale;
    assert tot / SUPP_PER_PART == 2500 * scale;
    QuotientBelow(p - 1, tot, 20);
  }

  /** A part's suppliers are numbered 1 to S, and the four are different. */
  lemma {:induction false} SuppliersDistinct(scale: nat, p: int, i: nat, j: nat)
    requires scale > 0 && 1 <= p <= 200000 * scale && i < j < 4
    ensures 1 <= Supplier(scale, p, i) <= 10000 * scale && 1 <= Supplier(scale, p, j) <= 10000 * scale
    ensures Supplier(scale, p, i) != Supplier(scale, p, j)
  {
    var tot := Base(SUPP) * scale;
    var d := tot / SUPP_PER_PART + TruncDiv(p - 1, tot);
    Stride(scale, p);
    var gap := if j - i == 1 then d else if j - i == 2 then 2 * d else 3 * d;
    assert p + j * d == (p + i * d) + gap by { Spread(i, j, d); }
    CloseRemaindersDiffer(p + i * d, gap, tot);
  }

  lemma {:induction false} Spread(i: nat, j: nat, d: int)
    requires i < j < SUPP_PER_PART
    ensures j * d == i * d + (if j - i == 1 then d else if j - i == 2 then 2 * d else 3 * d)
  {
    assert j * d - i * d == (j - i) * d;
  }

  /** Every partsupp row takes five places; the first is the supplier. */
  lemma {:induction false} PsuppRowAt(cfg: Config, p: int, w: Values, n: nat, k: nat)
    requires cfg.scale > 0 && k < n
    ensures |PsuppRows(cfg, p, w, n)| == 5 * n
    ensures PsuppRows(cfg, p, w, n)[5 * k] == Supplier(cfg.scale, p, k)
    decreases n
  {
    hide Draw, Supplier;
    assert |PsuppRows(cfg, p, w, n - 1)| == 5 * (n - 1) by {
      if n > 1 { PsuppRowAt(cfg, p, w, n - 1, 0); }
    }
    if k < n - 1 { PsuppRowAt(cfg, p, w, n - 1, k); }
  }

  /** The (part, supplier) keys written for a part are pairwise different. */
  lemma {:induction false} PsuppKeysUnique(cfg: Config, p: int, w: Values, i: nat, j: nat)
    requires cfg.scale > 0 && 1 <= p <= 200000 * cfg.scale && i < j < 4
    ensures |PsuppRows(cfg, p, w, 4)| == 20 && PsuppRows(cfg, p, w, 4)[5 * i] != PsuppRows(cfg, p, w, 4)[5 * j]
  {
    PsuppRowAt(cfg, p, w, SUPP_PER_PART, i);
    PsuppRowAt(cfg, p, w, SUPP_PER_PART, j);
    SuppliersDistinct(cfg.scale, p, i, j);
  }

  /** The pair is a key of the partsupp table, whatever the streams stood at when it was written. */
  ghost predicate InPartSupp(cfg: Config, part: int, supplier: int, w: Values)
    requires cfg.scale > 0
  {
    && 1 <= part <= Base(PART) * cfg.scale
    && exists k :: 0 <= k < SUPP_PER_PART && PsuppKey(cfg, part, w, k) == supplier
  }

  /** What being a key means: the part exists, and one of its four rows begins with the supplier. */
  lemma {:induction false} InPartSuppIs(cfg: Config, part: int, supplier: int, w: Values)
    requires cfg.scale > 0
    ensures |PsuppRows(cfg, part, w, 4)| == 20
    ensures var r := PsuppRows(cfg, part, w, 4);
            InPartSupp(cfg, part, supplier, w) <==>
            1 <= part <= 200000 * cfg.scale && supplier in {r[0], r[5], r[10], r[15]}
  {
    hide PsuppRows;
    PsuppRowAt(cfg, part, w, 4, 0);
    assert PsuppKey(cfg, part, w, 0) == PsuppRows(cfg, part, w, 4)[0];
    assert PsuppKey(cfg, part, w, 1) == PsuppRows(cfg, part, w, 4)[5];
    assert PsuppKey(cfg, part, w, 2) == PsuppRows(cfg, part, w, 4)[10];
    assert PsuppKey(cfg, part, w, 3) == PsuppRows(cfg, part, w, 4)[15];
  }

  /** The supplier of a part's `k`-th partsupp row. */
  ghost function PsuppKey(cfg: Config, part: int, w: Values, k: nat): int
    requires cfg.scale > 0 && k < SUPP_PER_PART
  {
    PsuppRowAt(cfg, part, w, SUPP_PER_PART, k);
    PsuppRows(cfg, part, w, SUPP_PER_PART)[5 * k]
  }

  /** A line's part key is the key of a part if and only if it is not drawn from the least 64-bit
      word, whose absolute value overflows. */
  lemma {:induction false} PartKeyInRange(cfg: Config, v: Values, line: nat)
    requires cfg.scale > 0
    ensures 1 <= KeyDraw(cfg, v, 19, line, 200000 * cfg.scale) <= 200000 * cfg.scale <==>
            (cfg.scale >= 30000 ==> Steps64(v[19], line + 1) != 0x8000_0000_0000_0000)
  {
    hide Draw64, Steps64, Steps, Unif;
    if cfg.scale >= WIDE_SCALE {
      RemainderUnique(Base(PART) * cfg.scale, 40000 * cfg.scale, 0, 5);
      Draw64InRange(Steps64(v[19], line + 1), Base(PART) * cfg.scale);
    } else {
      UnifInRange(1, Base(PART) * cfg.scale, Steps(Low(v[19]), line + 1));
    }
  }

  /** At every scale: a line item's (part, supplier) pair is a partsupp key if and only if the part
      key is not drawn from that word, however the streams stood when either was written. */
  lemma {:induction false} LineItemHasPartSupp(cfg: Config, v: Values, line: nat, w: Values)
    requires cfg.scale > 0
    ensures |Goods(cfg, v, line)| == 9
    ensures InPartSupp(cfg, Goods(cfg, v, line)[7], Goods(cfg, v, line)[8], w) <==>
            (cfg.scale >= 30000 ==> Steps64(v[19], line + 1) != 0x8000_0000_0000_0000)
  {
    hide Supplier, Draw64, Steps64, KeyDraw;
    PartKeyInRange(cfg, v, line);
    UnifInRange(0, 3, Steps(Low(v[20]), line + 1));
    var part, k := Goods(cfg, v, line)[7], Draw(v, 20, line, 0, 3);
    PsuppRowAt(cfg, part, w, SUPP_PER_PART, k);
    assert PsuppKey(cfg, part, w, k) == Goods(cfg, v, line)[8];
  }

  /** A stream one step before the least word: the line names a part that does not exist. */
  lemma {:induction false} LeastWordHasNoPart(cfg: Config, v: Values, w: Values)
    requires cfg.scale >= 30000 && v[19] == 13792291969850005339
    ensures |Goods(cfg, v, 0)| == 9 && !InPartSupp(cfg, Goods(cfg, v, 0)[7], Goods(cfg, v, 0)[8], w)
  {
    hide Goods;
    assert Steps64(v[19], 1) == NextRand64(Steps64(v[19], 0)) == SIGN;
    LineItemHasPartSupp(cfg, v, 0, w);
  }

  /** At every scale: no order names a customer whose number is a multiple of three, and it names
      a customer at all if and only if its key is not drawn from the least word. */
  lemma {:induction false} OrderHasCustomer(cfg: Config, v: Values)
    requires cfg.scale > 0
    ensures CustomerKey(cfg, v) % 3 != 0
    ensures 1 <= CustomerKey(cfg, v) <= 150000 * cfg.scale <==>
            (cfg.scale >= 30000 ==> Steps64(v[40], 1) != 0x8000_0000_0000_0000)
  {
    hide Draw64, Steps64, Steps, Unif;
    var hi := Base(CUST) * cfg.scale;
    RemainderUnique(hi, 50000 * cfg.scale, 0, 3);
    if cfg.scale >= WIDE_SCALE {
      var w := Steps64(v[40], 1);
      RemainderUnique(hi, 30000 * cfg.scale, 0, 5);
      RemainderUnique(hi, 75000 * cfg.scale, 0, 2);
      Draw64InRange(w, hi);
      Draw64AtMost(w, hi);
      if w == SIGN { Draw64Parity(w, hi); }
    } else {
      UnifInRange(1, hi, Steps(Low(v[40]), 1));
    }
  }

  lemma {:induction false} Draw64AtMost(w: Word, hi: int)
    requires hi > 0
    ensures Draw64(w, hi) <= hi
  {
  }
}
