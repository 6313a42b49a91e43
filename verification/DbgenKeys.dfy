/** At every scale, splitting a table keeps every stream in step but the two that keys are drawn
    from at large scales: the split output is the serial one exactly when its keys are. */
module DbgenKeys {
  import opened ChunkAlgebra
  import opened DbgenChunks
  import opened DbgenRandom
  import opened DbgenRows

  // ---- All other streams stay in step.

  /** The 31-bit streams that what is written comes from. */
  function Core(cfg: Config, t: Table, v: Values): Values {
    seq(STREAMS, s requires 0 <= s < STREAMS => if Drawn(t, s) && !Wide(cfg, s) then v[s] else 0)
  }

  lemma {:induction false} CoreIsAgreement(cfg: Config, t: Table, v: Values, w: Values)
    ensures Agree(cfg, t, v, w) <==> Core(cfg, t, v) == Core(cfg, t, w)
  {
    hide Drawn;
    if Core(cfg, t, v) == Core(cfg, t, w) {
      forall s | 0 <= s < STREAMS && Drawn(t, s) && !Wide(cfg, s) ensures v[s] == w[s] {
        assert Core(cfg, t, v)[s] == v[s] && Core(cfg, t, w)[s] == w[s];
      }
    }
  }

  /** Each row's number, and the 31-bit streams it is made from. */
  function CoreOf(cfg: Config, t: Table): Generator<Values, (int, Values)>
    requires Chunkable(t)
  {
    Maker(cfg, t, (index: int, v: Values) => (index, Core(cfg, t, v)))
  }

  /** At every scale the chunks make their rows from the 31-bit streams of the serial run. */
  lemma {:induction false} CoreSplits(cfg: Config, t: Table, v: Values, procs: nat)
    requires Regular(cfg, t) && Ok(cfg, v) && procs > 0
    ensures FirstChunks(CoreOf(cfg, t), v, Base(t) * cfg.scale, procs, procs)
         == Rows(CoreOf(cfg, t), 1, Base(t) * cfg.scale, v)
  {
    hide Core, Agree, SkipChunk, AfterRows, FirstChunks, Rows;
    forall v: Values, w: Values | Agree(cfg, t, v, w) ensures Core(cfg, t, v) == Core(cfg, t, w) {
      CoreIsAgreement(cfg, t, v, w);
    }
    MakersAreLawful(cfg, t, (index: int, v: Values) => (index, Core(cfg, t, v)));
    ChunksAreSerial(CoreOf(cfg, t), v, Base(t) * cfg.scale, procs);
  }

  // ---- The keys of a row, and what else it needs.

  function PartKey(cfg: Config, v: Values, i: nat): int
    requires cfg.scale > 0
  {
    KeyDraw(cfg, v, 19, i, Base(PART) * cfg.scale)
  }

  /** The written keys that may come from the 64-bit generator. */
  function Keys(cfg: Config, t: Table, v: Values): seq<int>
    requires cfg.scale > 0
  {
    (if t == ORDER || t == ORDER_LINE then [CustomerKey(cfg, v)] else [])
    + (if MakesOrders(t) then seq(LineCount(v), i requires 0 <= i => PartKey(cfg, v, i)) else [])
  }

  /** The streams of an order but its key streams. */
  predicate SameButKeys(v: Values, w: Values) {
    && v[13] == w[13] && v[43] == w[43]
    && forall s :: 14 <= s <= 25 && s != 19 ==> v[s] == w[s]
  }

  lemma {:induction false} FlagsSame(v: Values, w: Values, n: nat)
    requires SameButKeys(v, w)
    ensures Flags(v, n) == Flags(w, n)
    decreases n
  {
    hide Draw, Returned;
    if n > 0 {
      FlagsSame(v, w, n - 1);
      DateSame(v, w, n - 1);
    }
  }

  lemma {:induction false} DateSame(v: Values, w: Values, i: nat)
    requires SameButKeys(v, w)
    ensures ReceiptDate(v, i) == ReceiptDate(w, i)
  {
    assert v[21] == w[21] && v[23] == w[23];
  }

  lemma {:induction false} DatesSame(cfg: Config, v: Values, w: Values, i: nat)
    requires SameButKeys(v, w)
    ensures Dates(cfg, v, i) == Dates(cfg, w, i)
  {
    hide Returned;
    assert v[21] == w[21] && v[22] == w[22] && v[23] == w[23] && v[24] == w[24];
    FlagsSame(v, w, i);
    DateSame(v, w, i);
  }

  /** A line is told apart by its part key. */
  lemma {:induction false} LineTellsKey(cfg: Config, v: Values, w: Values, i: nat)
    requires cfg.scale > 0 && SameButKeys(v, w)
    ensures |OrderLine(cfg, v, i)| == |OrderLine(cfg, w, i)|
    ensures OrderLine(cfg, v, i) == OrderLine(cfg, w, i) <==> PartKey(cfg, v, i) == PartKey(cfg, w, i)
  {
    hide Dates, KeyDraw, Supplier, Unif, Steps;
    DatesSame(cfg, v, w, i);
    assert v[14] == w[14] && v[15] == w[15] && v[16] == w[16] && v[17] == w[17] && v[18] == w[18];
    assert v[20] == w[20] && v[25] == w[25];
    assert |Goods(cfg, v, i)| == |Goods(cfg, w, i)| == 9;
    assert Goods(cfg, v, i)[7] == PartKey(cfg, v, i) && Goods(cfg, w, i)[7] == PartKey(cfg, w, i);
    assert OrderLine(cfg, v, i)[7] == PartKey(cfg, v, i) && OrderLine(cfg, w, i)[7] == PartKey(cfg, w, i);
  }

  /** Equally long parts are equal together only if each pair is. */
  lemma {:induction false} ConcatTells(f: nat -> seq<int>, g: nat -> seq<int>, n: nat)
    requires forall i: nat :: |f(i)| == |g(i)|
    ensures |Concat(f, n)| == |Concat(g, n)|
    ensures Concat(f, n) == Concat(g, n) <==> forall i: nat :: i < n ==> f(i) == g(i)
    decreases n
  {
    if n > 0 {
      ConcatTells(f, g, n - 1);
      var a, b := Concat(f, n - 1), Concat(g, n - 1);
      if Concat(f, n) == Concat(g, n) {
        assert a == Concat(f, n)[..|a|] && b == Concat(g, n)[..|b|];
        assert f(n - 1) == Concat(f, n)[|a|..] && g(n - 1) == Concat(g, n)[|b|..];
      }
    }
  }

  lemma {:induction false} LinesTellKeys(cfg: Config, v: Values, w: Values, n: nat)
    requires cfg.scale > 0 && SameButKeys(v, w)
    ensures |OrderLines(cfg, v, n)| == |OrderLines(cfg, w, n)|
    ensures OrderLines(cfg, v, n) == OrderLines(cfg, w, n) <==>
            forall i: nat :: i < n ==> PartKey(cfg, v, i) == PartKey(cfg, w, i)
  {
    hide OrderLine, PartKey;
    var f, g := (i: nat) => OrderLine(cfg, v, i), (i: nat) => OrderLine(cfg, w, i);
    forall i: nat
      ensures |f(i)| == |g(i)| && (f(i) == g(i) <==> PartKey(cfg, v, i) == PartKey(cfg, w, i))
    {
      LineTellsKey(cfg, v, w, i);
    }
    ConcatTells(f, g, n);
  }

  lemma {:induction false} OrderStreams(cfg: Config, t: Table, v: Values, w: Values)
    requires MakesOrders(t) && Agree(cfg, t, v, w)
    ensures SameButKeys(v, w) && LineCount(v) == LineCount(w)
    ensures t != LINE ==> v[11] == w[11] && v[12] == w[12] && v[38] == w[38]
  {
    assert v[13] == w[13] && v[43] == w[43] && forall s :: 14 <= s <= 25 && s != 19 ==> Drawn(t, s) && v[s] == w[s];
    if t != LINE { assert v[11] == w[11] && v[12] == w[12] && v[38] == w[38]; }
  }

  lemma {:induction false} SamePartKeys(cfg: Config, v: Values, w: Values, n: nat)
    requires cfg.scale > 0
    ensures seq(n, i requires 0 <= i => PartKey(cfg, v, i)) == seq(n, i requires 0 <= i => PartKey(cfg, w, i)) <==>
            forall i: nat :: i < n ==> PartKey(cfg, v, i) == PartKey(cfg, w, i)
  {
    hide PartKey;
    var a, b := seq(n, i requires 0 <= i => PartKey(cfg, v, i)), seq(n, i requires 0 <= i => PartKey(cfg, w, i));
    if a == b {
      forall i: nat | i < n ensures PartKey(cfg, v, i) == PartKey(cfg, w, i) { assert a[i] == b[i]; }
    }
  }

  lemma {:induction false} KeylessAgree(cfg: Config, t: Table, v: Values, w: Values)
    requires Chunkable(t) && !MakesOrders(t) && Agree(cfg, t, v, w)
    ensures AgreeFully(t, v, w)
  {
    assert !Drawn(t, 19) && !Drawn(t, 40);
  }

  lemma {:induction false} KeysTold(cfg: Config, t: Table, v: Values, w: Values)
    requires cfg.scale > 0 && MakesOrders(t) && LineCount(v) == LineCount(w)
    ensures Keys(cfg, t, v) == Keys(cfg, t, w) <==>
            && (forall i: nat :: i < LineCount(v) ==> PartKey(cfg, v, i) == PartKey(cfg, w, i))
            && (t == LINE || CustomerKey(cfg, v) == CustomerKey(cfg, w))
  {
    hide PartKey, CustomerKey, LineCount;
    var n := LineCount(v);
    SamePartKeys(cfg, v, w, n);
    var a, b := seq(n, i requires 0 <= i => PartKey(cfg, v, i)), seq(n, i requires 0 <= i => PartKey(cfg, w, i));
    if t == LINE {
      assert Keys(cfg, t, v) == a && Keys(cfg, t, w) == b;
    } else {
      assert Keys(cfg, t, v) == [CustomerKey(cfg, v)] + a && Keys(cfg, t, w) == [CustomerKey(cfg, w)] + b;
      assert Keys(cfg, t, v)[1..] == a && Keys(cfg, t, w)[1..] == b;
    }
  }

  /** Rows made from the same 31-bit streams are told apart by their keys. */
  lemma {:induction false} RowsTellKeys(cfg: Config, t: Table, index: int, v: Values, w: Values)
    requires cfg.scale > 0 && Chunkable(t) && Agree(cfg, t, v, w)
    ensures RowOf(cfg, t, index, v) == RowOf(cfg, t, index, w) <==> Keys(cfg, t, v) == Keys(cfg, t, w)
  {
    hide RowOf, Agree, AgreeFully, PartKey, CustomerKey, OrderLines, LineCount, SameButKeys;
    if MakesOrders(t) {
      OrderStreams(cfg, t, v, w);
      LinesTellKeys(cfg, v, w, LineCount(v));
      KeysTold(cfg, t, v, w);
      OrderTellsKeys(cfg, t, index, v, w);
    } else {
      KeylessAgree(cfg, t, v, w);
      RowAgree(cfg, t, index, v, w);
    }
  }

  lemma {:induction false} OrderTellsKeys(cfg: Config, t: Table, index: int, v: Values, w: Values)
    requires cfg.scale > 0 && MakesOrders(t) && SameButKeys(v, w) && LineCount(v) == LineCount(w)
    requires t != LINE ==> v[11] == w[11] && v[12] == w[12] && v[38] == w[38]
    requires |OrderLines(cfg, v, LineCount(v))| == |OrderLines(cfg, w, LineCount(w))|
    ensures RowOf(cfg, t, index, v) == RowOf(cfg, t, index, w) <==>
            && OrderLines(cfg, v, LineCount(v)) == OrderLines(cfg, w, LineCount(w))
            && (t == LINE || CustomerKey(cfg, v) == CustomerKey(cfg, w))
  {
    hide OrderLines, LineCount, CustomerKey, Unif, Steps, Weight;
    var a, b := OrderLines(cfg, v, LineCount(v)), OrderLines(cfg, w, LineCount(w));
    var r, s := RowOf(cfg, t, index, v), RowOf(cfg, t, index, w);
    if t == LINE {
      assert a == r[3..] && b == s[3..];
    } else {
      assert |OrderHead(cfg, index, v)| == |OrderHead(cfg, index, w)| == 7;
      assert a == r[8..] && b == s[8..] && r[1] == CustomerKey(cfg, v) && s[1] == CustomerKey(cfg, w);
    }
  }

  // ---- Exactly when a table splits.

  function KeysOf(cfg: Config, t: Table): Generator<Values, seq<int>>
    requires cfg.scale > 0 && Chunkable(t)
  {
    Maker(cfg, t, (_: int, v: Values) => Keys(cfg, t, v))
  }

  /** The keys of the chunks put together are those of the serial output. */
  ghost predicate KeysSplit(cfg: Config, t: Table, v: Values, procs: nat)
    requires cfg.scale > 0 && Chunkable(t)
  {
    FirstChunks(KeysOf(cfg, t), v, Base(t) * cfg.scale, procs, procs) == Rows(KeysOf(cfg, t), 1, Base(t) * cfg.scale, v)
  }

  /** Rows made at places with the same numbers and 31-bit streams. */
  lemma {:induction false} ImagesTellKeys(cfg: Config, t: Table, a: seq<(int, Values)>, b: seq<(int, Values)>)
    requires cfg.scale > 0 && Chunkable(t)
    requires Image(CoreOf(cfg, t).make, a) == Image(CoreOf(cfg, t).make, b)
    ensures Image(GeneratorOf(cfg, t).make, a) == Image(GeneratorOf(cfg, t).make, b) <==>
            Image(KeysOf(cfg, t).make, a) == Image(KeysOf(cfg, t).make, b)
  {
    hide RowOf, Keys, Core, Agree, SkipChunk, AfterRows;
    var rows, keys, core := GeneratorOf(cfg, t).make, KeysOf(cfg, t).make, CoreOf(cfg, t).make;
    assert |a| == |Image(core, a)| == |Image(core, b)| == |b|;
    forall k | 0 <= k < |a|
      ensures Image(rows, a)[k] == Image(rows, b)[k] <==> Image(keys, a)[k] == Image(keys, b)[k]
    {
      assert Image(core, a)[k] == Image(core, b)[k];
      CoreIsAgreement(cfg, t, a[k].1, b[k].1);
      RowsTellKeys(cfg, t, a[k].0, a[k].1, b[k].1);
    }
    SameImages(rows, a, b);
    SameImages(keys, a, b);
  }

  lemma {:induction false} SameImages<V(!new), R>(make: (int, V) -> R, a: seq<(int, V)>, b: seq<(int, V)>)
    requires |a| == |b|
    ensures Image(make, a) == Image(make, b) <==> forall k :: 0 <= k < |a| ==> Image(make, a)[k] == Image(make, b)[k]
  {
  }

  /** For every table, scale, process count and seed table: the chunks put together are the
      serial output if and only if their keys are. */
  lemma {:induction false} SplitsExactly(cfg: Config, t: Table, v: Values, procs: nat)
    requires Regular(cfg, t) && Ok(cfg, v) && procs > 0
    ensures Splits(cfg, t, v, procs) <==> KeysSplit(cfg, t, v, procs)
  {
    hide RowOf, Keys, Core, Agree, SkipChunk, AfterRows, FirstChunks, Rows, Image;
    var total := Base(t) * cfg.scale;
    var g, k, c := GeneratorOf(cfg, t), KeysOf(cfg, t), CoreOf(cfg, t);
    CoreSplits(cfg, t, v, procs);
    ChunksAreImages(g, v, total, procs, procs);
    ChunksAreImages(k, v, total, procs, procs);
    ChunksAreImages(c, v, total, procs, procs);
    RowsAreImages(g, 1, total, v);
    RowsAreImages(k, 1, total, v);
    RowsAreImages(c, 1, total, v);
    assert Places(g) == Places(k) == Places(c);
    ImagesTellKeys(cfg, t, FirstChunks(Places(g), v, total, procs, procs), Rows(Places(g), 1, total, v));
  }
}
