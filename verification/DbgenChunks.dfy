/** Splitting a table over processes gives the rows of the serial run. */
module DbgenChunks {
  import opened ChunkAlgebra
  import opened DbgenRandom
  import opened DbgenRows

  // ---- Serial generation.

  /** A stream that held `x`, after `n` draws. */
  function Moved(cfg: Config, s: int, x: Word, n: nat): Word {
    if Wide(cfg, s) then Steps64(x, n) else Skip31(x, n)
  }

  /** A stream that held `x`, after a row that drew from it `n` times: `row_stop` always skips
      with the 31-bit generator. */
  function RowEnd(cfg: Config, t: Table, s: int, x: Word, n: nat): Word {
    if RowStream(t, s) then Skip31(Moved(cfg, s, x, n), Clamp(Boundary(s) - n)) else Moved(cfg, s, x, n)
  }

  /** The streams after one row. */
  function AfterRow(cfg: Config, t: Table, v: Values): Values
    requires Chunkable(t)
  {
    seq(STREAMS, s requires 0 <= s < STREAMS => RowEnd(cfg, t, s, v[s], Usage(cfg, t, v, s)))
  }

  function AfterRows(cfg: Config, t: Table, v: Values, n: nat): Values
    requires Chunkable(t)
  {
    if n == 0 then v else AfterRow(cfg, t, AfterRows(cfg, t, v, n - 1))
  }

  // ---- Skipping ahead.

  /** How many calls per skipped row the table's `sd_` routine makes on a stream. */
  function SkipCalls(t: Table, s: int): nat {
    match t
    case PART | PART_PSUPP => if 0 <= s <= 4 then 1 else if s == 6 then 2 else if s == 37 then 92 else 0
    case PSUPP => if s == 7 || s == 8 then SUPP_PER_PART else if s == 9 then SUPP_PER_PART * 2 else 0
    case ORDER | ORDER_LINE => if s in {10, 11, 13, 38, 40, 43} then 1 else if s == 12 then 2 else 0
    case LINE => if 14 <= s <= 24 then O_LCNT_MAX else if s == 25 then O_LCNT_MAX * 2 else 0
    case CUST => if s == 26 then 9 else if s == 31 then 2 else if s == 28 then 3 else if 26 <= s <= 31 then 1 else 0
    case SUPP =>
      if s == 32 then 9 else if s == 34 then 3 else if s == 36 then 2
      else if s == 33 || s == 35 || 44 <= s <= 47 then 1 else 0
    case _ => 0
  }

  function Skip(t: Table, v: Values, rows: nat): Values {
    seq(STREAMS, s requires 0 <= s < STREAMS => Skip31(v[s], rows * SkipCalls(t, s)))
  }

  /** `set_state` asks the line items, generated alone, to move the two order streams they share. */
  function SkipTable(t: Table, v: Values, rows: nat): Values {
    var w := Skip(t, v, rows);
    if t == LINE then w[13 := Skip31(w[13], rows)][43 := Skip31(w[43], rows)] else w
  }

  /** One round of `set_state`: the table and then its child skip a chunk. */
  function SkipChunk(t: Table, v: Values, rows: nat): Values {
    Skip(ChildOf(t), SkipTable(t, v, rows), rows)
  }

  function Rounds(t: Table, v: Values, rows: nat, n: nat): Values {
    if n == 0 then v else SkipChunk(t, Rounds(t, v, rows, n - 1), rows)
  }

  /** Streams that nothing written can tell apart, but for keys drawn from the 64-bit generator. */
  predicate Agree(cfg: Config, t: Table, v: Values, w: Values) {
    forall s :: 0 <= s < STREAMS && Drawn(t, s) && !Wide(cfg, s) ==> v[s] == w[s]
  }

  /** Streams that nothing written can tell apart. */
  predicate AgreeFully(t: Table, v: Values, w: Values) {
    forall s :: 0 <= s < STREAMS && Drawn(t, s) ==> v[s] == w[s]
  }

  /** The order streams that line items generated alone take with them. */
  function SharedCalls(t: Table, s: int): nat { if t == LINE && (s == 13 || s == 43) then 1 else 0 }

  /** The skip routines know the boundary of every drawn stream, and one of them moves it. */
  lemma {:induction false} SkipMatchesBoundary(t: Table, s: nat)
    requires Chunkable(t) && s < STREAMS && Drawn(t, s)
    ensures SkipCalls(t, s) + SharedCalls(t, s) + SkipCalls(ChildOf(t), s) == Boundary(s)
    ensures SharedCalls(t, s) > 0 ==> SkipCalls(t, s) == 0
  {
  }

  /** A table choice, and colours as the distributions file has them. */
  predicate Regular(cfg: Config, t: Table) { cfg.scale > 0 && Chunkable(t) && cfg.colors <= 92 }

  /** All streams of a row are 31-bit ones. */
  predicate Narrow(cfg: Config, t: Table) { Supported(cfg, t) && cfg.colors <= 92 }

  lemma {:induction false} NarrowAgree(cfg: Config, t: Table, v: Values, w: Values)
    requires Supported(cfg, t) && Agree(cfg, t, v, w)
    ensures AgreeFully(t, v, w)
  {
    forall s | 0 <= s < STREAMS && Drawn(t, s) ensures v[s] == w[s] { NotWide(cfg, t, s); }
  }

  lemma {:induction false} NotWide(cfg: Config, t: Table, s: int)
    requires Supported(cfg, t) && Drawn(t, s)
    ensures !Wide(cfg, s)
  {
  }

  lemma {:induction false} SkipSeed(x: Word, n: nat)
    requires x < MODULUS
    ensures Low(x) == x && Skip31(x, n) == Steps(Low(x), n)
  {
    SkipIsSteps(x, n);
  }

  /** A row moves each 31-bit stream it is drawn from to the boundary, whatever it drew. */
  lemma {:induction false} AfterRowAt(cfg: Config, t: Table, v: Values, s: nat)
    requires Regular(cfg, t) && Ok(cfg, v) && s < STREAMS && Drawn(t, s) && !Wide(cfg, s)
    ensures AfterRow(cfg, t, v)[s] == Steps(Low(v[s]), Boundary(s))
  {
    hide Usage, Boundary, RowStream, Drawn;
    var n := Usage(cfg, t, v, s);
    UsageWithinBoundary(cfg, t, v, s);
    SkipSeed(v[s], n);
    SkipSeed(Steps(Low(v[s]), n), Clamp(Boundary(s) - n));
    StepsAdd(Low(v[s]), n, Clamp(Boundary(s) - n));
  }

  lemma {:induction false} AfterRowOk(cfg: Config, t: Table, v: Values)
    requires Chunkable(t) && Ok(cfg, v)
    ensures Ok(cfg, AfterRow(cfg, t, v))
  {
    hide Usage, Boundary, RowStream;
    forall s | 0 <= s < STREAMS && !Wide(cfg, s) ensures AfterRow(cfg, t, v)[s] < MODULUS {
      var n := Usage(cfg, t, v, s);
      SkipSeed(v[s], n);
      SkipSeed(Steps(Low(v[s]), n), Clamp(Boundary(s) - n));
    }
  }

  lemma {:induction false} AfterRowsOk(cfg: Config, t: Table, v: Values, n: nat)
    requires Chunkable(t) && Ok(cfg, v)
    ensures Ok(cfg, AfterRows(cfg, t, v, n))
    decreases n
  {
    hide AfterRow;
    if n > 0 {
      AfterRowsOk(cfg, t, v, n - 1);
      AfterRowOk(cfg, t, AfterRows(cfg, t, v, n - 1));
    }
  }

  lemma {:induction false} AfterRowsAt(cfg: Config, t: Table, v: Values, n: nat, s: nat)
    requires Regular(cfg, t) && Ok(cfg, v) && s < STREAMS && Drawn(t, s) && !Wide(cfg, s)
    ensures AfterRows(cfg, t, v, n)[s] == Steps(Low(v[s]), n * Boundary(s))
    decreases n
  {
    hide AfterRow, Boundary, RowStream, Drawn, Steps, Skip31;
    SkipSeed(v[s], 0);
    NoSkip31(v[s]);
    if n > 0 {
      AfterRowsAt(cfg, t, v, n - 1, s);
      AfterRowsOk(cfg, t, v, n - 1);
      AfterRowAt(cfg, t, AfterRows(cfg, t, v, n - 1), s);
      StepsAdd(Low(v[s]), (n - 1) * Boundary(s), Boundary(s));
      SkipSeed(Steps(Low(v[s]), (n - 1) * Boundary(s)), 0);
      assert (n - 1) * Boundary(s) + Boundary(s) == n * Boundary(s);
    }
  }

  lemma {:induction false} AfterRowsAdd(cfg: Config, t: Table, v: Values, a: nat, b: nat)
    requires Chunkable(t)
    ensures AfterRows(cfg, t, v, a + b) == AfterRows(cfg, t, AfterRows(cfg, t, v, a), b)
    decreases b
  {
    hide AfterRow;
    if b > 0 { AfterRowsAdd(cfg, t, v, a, b - 1); }
  }

  /** Skipping keeps seeds seeds. */
  lemma {:induction false} SkippedSeed(t: Table, v: Values, rows: nat, s: nat)
    requires s < STREAMS && v[s] < MODULUS
    ensures SkipTable(t, v, rows)[s] < MODULUS && SkipChunk(t, v, rows)[s] < MODULUS
  {
    hide SkipCalls;
    SkipSeed(v[s], rows * SkipCalls(t, s));
    var x := Steps(Low(v[s]), rows * SkipCalls(t, s));
    SkipSeed(x, rows);
    SkipSeed(x, rows * SkipCalls(ChildOf(t), s));
    SkipSeed(Steps(x, rows), rows * SkipCalls(ChildOf(t), s));
  }

  lemma {:induction false} SkipOk(cfg: Config, t: Table, v: Values, rows: nat)
    requires Chunkable(t) && Ok(cfg, v)
    ensures Ok(cfg, SkipChunk(t, v, rows))
  {
    hide SkipChunk;
    forall s | 0 <= s < STREAMS && !Wide(cfg, s) ensures SkipChunk(t, v, rows)[s] < MODULUS {
      SkippedSeed(t, v, rows, s);
    }
  }

  lemma {:induction false} SkipAt(cfg: Config, t: Table, v: Values, rows: nat, s: nat)
    requires Regular(cfg, t) && Ok(cfg, v) && s < STREAMS && Drawn(t, s) && !Wide(cfg, s)
    ensures SkipChunk(t, v, rows)[s] == AfterRows(cfg, t, v, rows)[s]
  {
    hide SkipCalls, Boundary, StreamTable, AfterRows, Skip31, Steps, Drawn;
    SkipMatchesBoundary(t, s);
    AfterRowsAt(cfg, t, v, rows, s);
    var a, b := SkipCalls(t, s) + SharedCalls(t, s), SkipCalls(ChildOf(t), s);
    NoSkip31(v[s]);
    SkipTwice(v[s], rows * a, rows * b);
    assert rows * a + rows * b == rows * (a + b);
  }

  lemma {:induction false} NoSkip31(x: Word)
    ensures Skip31(x, 0) == x
  {
  }

  lemma {:induction false} SkipTwice(x: Word, n: nat, m: nat)
    requires x < MODULUS
    ensures Skip31(Skip31(x, n), m) == Steps(Low(x), n + m)
  {
    SkipSeed(x, n);
    SkipSeed(Steps(Low(x), n), m);
    StepsAdd(Low(x), n, m);
  }

  /** Skipping a chunk moves the drawn streams as generating it would, but for the 64-bit ones. */
  lemma {:induction false} SkipIsGenerate(cfg: Config, t: Table, v: Values, rows: nat)
    requires Regular(cfg, t) && Ok(cfg, v)
    ensures Agree(cfg, t, SkipChunk(t, v, rows), AfterRows(cfg, t, v, rows))
  {
    hide SkipChunk, AfterRows, RowStream, Drawn;
    forall s | 0 <= s < STREAMS && Drawn(t, s) && !Wide(cfg, s)
      ensures SkipChunk(t, v, rows)[s] == AfterRows(cfg, t, v, rows)[s]
    {
      SkipAt(cfg, t, v, rows, s);
    }
  }

  // ---- Rows look only at the drawn streams.

  lemma {:induction false} CharsAgree(v: Values, w: Values, s: nat, n: nat)
    requires s < STREAMS && v[s] == w[s]
    ensures Chars(v, s, n) == Chars(w, s, n)
    decreases n
  {
    if n > 0 { CharsAgree(v, w, s, n - 1); }
  }

  lemma {:induction false} ShuffleAgree(v: Values, w: Values, s: nat, n: nat, c: nat)
    requires s < STREAMS && v[s] == w[s]
    ensures Shuffle(v, s, n, c) == Shuffle(w, s, n, c)
    decreases n
  {
    if n > 0 { ShuffleAgree(v, w, s, n - 1, c); }
  }

  lemma {:induction false} PsuppAgree(cfg: Config, index: int, v: Values, w: Values, n: nat)
    requires cfg.scale > 0 && v[7] == w[7] && v[8] == w[8] && v[9] == w[9]
    ensures PsuppRows(cfg, index, v, n) == PsuppRows(cfg, index, w, n)
    decreases n
  {
    if n > 0 { PsuppAgree(cfg, index, v, w, n - 1); }
  }

  predicate SameLineStreams(v: Values, w: Values) { v[13] == w[13] && forall s :: 14 <= s <= 25 ==> v[s] == w[s] }

  lemma {:induction false} FlagsAgree(v: Values, w: Values, n: nat)
    requires SameLineStreams(v, w)
    ensures Flags(v, n) == Flags(w, n)
    decreases n
  {
    if n > 0 {
      FlagsAgree(v, w, n - 1);
      assert v[21] == w[21] && v[23] == w[23];
    }
  }

  lemma {:induction false} LineAgree(cfg: Config, v: Values, w: Values, i: nat)
    requires cfg.scale > 0 && SameLineStreams(v, w)
    ensures OrderLine(cfg, v, i) == OrderLine(cfg, w, i)
  {
    FlagsAgree(v, w, i);
    assert v[14] == w[14] && v[15] == w[15] && v[16] == w[16] && v[17] == w[17] && v[18] == w[18] && v[19] == w[19];
    assert v[20] == w[20] && v[21] == w[21] && v[22] == w[22] && v[23] == w[23] && v[24] == w[24] && v[25] == w[25];
  }

  lemma {:induction false} ConcatAgree(f: nat -> seq<int>, g: nat -> seq<int>, n: nat)
    requires forall i: nat :: f(i) == g(i)
    ensures Concat(f, n) == Concat(g, n)
    decreases n
  {
    if n > 0 { ConcatAgree(f, g, n - 1); }
  }

  lemma {:induction false} LinesAgree(cfg: Config, v: Values, w: Values, n: nat)
    requires cfg.scale > 0 && SameLineStreams(v, w)
    ensures OrderLines(cfg, v, n) == OrderLines(cfg, w, n)
  {
    var f, g := (i: nat) => OrderLine(cfg, v, i), (i: nat) => OrderLine(cfg, w, i);
    forall i: nat ensures f(i) == g(i) { LineAgree(cfg, v, w, i); }
    ConcatAgree(f, g, n);
  }

  lemma {:induction false} PartAgree(cfg: Config, index: int, v: Values, w: Values)
    requires cfg.scale > 0 && AgreeFully(PART_PSUPP, v, w)
    ensures PartRow(cfg, index, v) == PartRow(cfg, index, w)
  {
    assert v[0] == w[0] && v[1] == w[1] && v[2] == w[2] && v[3] == w[3] && v[4] == w[4] && v[6] == w[6];
    assert v[7] == w[7] && v[8] == w[8] && v[9] == w[9] && v[37] == w[37];
    ShuffleAgree(v, w, 37, cfg.colors, cfg.colors);
    PsuppAgree(cfg, index, v, w, SUPP_PER_PART);
  }

  lemma {:induction false} SuppAgree(cfg: Config, index: int, v: Values, w: Values)
    requires AgreeFully(SUPP, v, w)
    ensures SuppRow(cfg, index, v) == SuppRow(cfg, index, w)
  {
    assert v[32] == w[32] && v[33] == w[33] && v[34] == w[34] && v[35] == w[35] && v[36] == w[36];
    assert v[44] == w[44] && v[45] == w[45] && v[46] == w[46] && v[47] == w[47];
    CharsAgree(v, w, 32, Ceil5(Draw(v, 32, 0, 10, 40)));
  }

  lemma {:induction false} CustAgree(cfg: Config, index: int, v: Values, w: Values)
    requires AgreeFully(CUST, v, w)
    ensures CustRow(cfg, index, v) == CustRow(cfg, index, w)
  {
    assert v[26] == w[26] && v[27] == w[27] && v[28] == w[28] && v[29] == w[29] && v[30] == w[30] && v[31] == w[31];
    CharsAgree(v, w, 26, Ceil5(Draw(v, 26, 0, 10, 40)));
  }

  lemma {:induction false} OrderAgree(cfg: Config, index: int, v: Values, w: Values)
    requires cfg.scale > 0 && AgreeFully(ORDER_LINE, v, w)
    ensures OrderRow(cfg, index, v) == OrderRow(cfg, index, w)
  {
    assert v[11] == w[11] && v[12] == w[12] && v[13] == w[13] && v[38] == w[38] && v[40] == w[40] && v[43] == w[43];
    LinesAgree(cfg, v, w, LineCount(v));
  }

  lemma {:induction false} LineRowAgree(cfg: Config, index: int, v: Values, w: Values)
    requires cfg.scale > 0 && AgreeFully(LINE, v, w)
    ensures LineRow(cfg, index, v) == LineRow(cfg, index, w)
  {
    assert v[13] == w[13] && v[43] == w[43];
    LinesAgree(cfg, v, w, LineCount(v));
  }

  lemma {:induction false} SameStreams(t: Table, v: Values, w: Values)
    requires AgreeFully(t, v, w)
    ensures t == PART ==> AgreeFully(PART_PSUPP, v, w)
    ensures t == ORDER ==> AgreeFully(ORDER_LINE, v, w)
  {
  }

  /** A row depends on the drawn streams only. */
  lemma {:induction false} RowAgree(cfg: Config, t: Table, index: int, v: Values, w: Values)
    requires cfg.scale > 0 && Chunkable(t) && AgreeFully(t, v, w)
    ensures RowOf(cfg, t, index, v) == RowOf(cfg, t, index, w)
  {
    hide AgreeFully;
    SameStreams(t, v, w);
    match t
    case PART | PART_PSUPP => PartAgree(cfg, index, v, w);
    case PSUPP => DetailAgree(cfg, index, v, w);
    case SUPP => SuppAgree(cfg, index, v, w);
    case CUST => CustAgree(cfg, index, v, w);
    case ORDER | ORDER_LINE => OrderAgree(cfg, index, v, w);
    case LINE => LineRowAgree(cfg, index, v, w);
  }

  lemma {:induction false} DetailAgree(cfg: Config, index: int, v: Values, w: Values)
    requires cfg.scale > 0 && AgreeFully(PSUPP, v, w)
    ensures PsuppRows(cfg, index, v, SUPP_PER_PART) == PsuppRows(cfg, index, w, SUPP_PER_PART)
  {
    PsuppAgree(cfg, index, v, w, SUPP_PER_PART);
  }

  lemma {:induction false} AfterRowsAgree(cfg: Config, t: Table, n: nat, v: Values, w: Values)
    requires Regular(cfg, t) && Ok(cfg, v) && Ok(cfg, w) && Agree(cfg, t, v, w)
    ensures Agree(cfg, t, AfterRows(cfg, t, v, n), AfterRows(cfg, t, w, n))
  {
    hide AfterRows, Drawn;
    forall s | 0 <= s < STREAMS && Drawn(t, s) && !Wide(cfg, s)
      ensures AfterRows(cfg, t, v, n)[s] == AfterRows(cfg, t, w, n)[s]
    {
      AfterRowsAt(cfg, t, v, n, s);
      AfterRowsAt(cfg, t, w, n, s);
    }
  }

  /** Neither a row nor the streams after it depend on the text pool's stream. */
  lemma {:induction false} ColumnsMakeRow(cfg: Config, t: Table, index: int, v: Values, w: Values)
    requires cfg.scale > 0 && Chunkable(t) && SameColumns(v, w)
    ensures RowOf(cfg, t, index, v) == RowOf(cfg, t, index, w)
  {
    hide RowOf;
    RowAgree(cfg, t, index, v, w);
  }

  lemma {:induction false} ColumnsUsage(cfg: Config, t: Table, v: Values, w: Values, s: nat)
    requires Chunkable(t) && SameColumns(v, w) && s < STREAMS
    ensures Usage(cfg, t, v, s) == Usage(cfg, t, w, s)
  {
    hide Draw, Flags;
    assert v[26] == w[26] && v[32] == w[32] && v[43] == w[43] && v[13] == w[13] && v[21] == w[21] && v[23] == w[23];
    assert LineCount(v) == LineCount(w) by { SameDraw(v, w, 43, 1, O_LCNT_MAX); }
    SameDraw(v, w, 26, 10, 40);
    SameDraw(v, w, 32, 10, 40);
    FlagsAgree(v, w, LineCount(v));
  }

  lemma {:induction false} SameDraw(v: Values, w: Values, s: nat, lo: int, hi: int)
    requires s < STREAMS && v[s] == w[s]
    ensures Draw(v, s, 0, lo, hi) == Draw(w, s, 0, lo, hi)
  {
  }

  lemma {:induction false} ColumnsMove(cfg: Config, t: Table, v: Values, w: Values)
    requires Chunkable(t) && SameColumns(v, w)
    ensures SameColumns(AfterRow(cfg, t, v), AfterRow(cfg, t, w))
  {
    hide Usage, RowEnd;
    forall s | Column(s) ensures AfterRow(cfg, t, v)[s] == AfterRow(cfg, t, w)[s] { ColumnsUsage(cfg, t, v, w, s); }
  }

  // ---- The tables as generators.

  /** What `make` sees of the rows of a table. */
  function Maker<R>(cfg: Config, t: Table, make: (int, Values) -> R): Generator<Values, R>
    requires Chunkable(t)
  {
    Generator(make, (v: Values, n: nat) => AfterRows(cfg, t, v, n), (v: Values, n: nat) => SkipChunk(t, v, n),
              (v: Values) => Ok(cfg, v), (v: Values, w: Values) => Agree(cfg, t, v, w))
  }

  function GeneratorOf(cfg: Config, t: Table): Generator<Values, seq<int>>
    requires cfg.scale > 0 && Chunkable(t)
  {
    Maker(cfg, t, (index: int, v: Values) => RowOf(cfg, t, index, v))
  }

  lemma {:induction false} RoundsSkip(cfg: Config, t: Table, v: Values, rows: nat, n: nat)
    requires cfg.scale > 0 && Chunkable(t)
    ensures Rounds(t, v, rows, n) == Skipped(GeneratorOf(cfg, t), v, rows, n)
    decreases n
  {
    hide RowOf, SkipChunk, Agree, AfterRows, Ok;
    if n > 0 { RoundsSkip(cfg, t, v, rows, n - 1); }
  }

  /** Every table skips its 31-bit streams as it generates, so whatever depends on those alone
      can be split. */
  lemma {:induction false} MakersAreLawful<R>(cfg: Config, t: Table, make: (int, Values) -> R)
    requires Regular(cfg, t)
    requires forall i: int, v: Values, w: Values :: Agree(cfg, t, v, w) ==> make(i, v) == make(i, w)
    ensures Lawful(Maker(cfg, t, make))
  {
    hide SkipChunk, Agree, AfterRows, Ok;
    var g := Maker(cfg, t, make);
    forall v: Values ensures AfterNone(g, v) { NoRowsYet(cfg, t, v); }
    forall u: Values, v: Values, w: Values ensures AgreeTrans(g, u, v, w) { AgreeChain(cfg, t, u, v, w); }
    forall v: Values, a: nat, b: nat ensures AfterAdds(g, v, a, b) { AfterRowsAdd(cfg, t, v, a, b); }
    forall v: Values, n: nat ensures StaysOk(g, v, n) {
      if Ok(cfg, v) {
        AfterRowsOk(cfg, t, v, n);
        SkipOk(cfg, t, v, n);
      }
    }
    forall v: Values, w: Values, n: nat ensures AfterAgrees(g, v, w, n) {
      if Ok(cfg, v) && Ok(cfg, w) && Agree(cfg, t, v, w) { AfterRowsAgree(cfg, t, n, v, w); }
    }
    forall v: Values, n: nat ensures SkipAgrees(g, v, n) { if Ok(cfg, v) { SkipIsGenerate(cfg, t, v, n); } }
    forall i: int, v: Values, w: Values ensures MakeAgrees(g, i, v, w) { }
  }

  lemma {:induction false} NoRowsYet(cfg: Config, t: Table, v: Values)
    requires Chunkable(t)
    ensures AfterRows(cfg, t, v, 0) == v && Agree(cfg, t, v, v)
  {
  }

  lemma {:induction false} AgreeChain(cfg: Config, t: Table, u: Values, v: Values, w: Values)
    ensures Agree(cfg, t, u, v) && Agree(cfg, t, v, w) ==> Agree(cfg, t, u, w)
  {
  }

  lemma {:induction false} TablesAreLawful(cfg: Config, t: Table)
    requires Narrow(cfg, t)
    ensures Lawful(GeneratorOf(cfg, t))
  {
    hide RowOf, Agree, AgreeFully;
    forall i: int, v: Values, w: Values | Agree(cfg, t, v, w) ensures RowOf(cfg, t, i, v) == RowOf(cfg, t, i, w) {
      NarrowAgree(cfg, t, v, w);
      RowAgree(cfg, t, i, v, w);
    }
    MakersAreLawful(cfg, t, (index: int, v: Values) => RowOf(cfg, t, index, v));
  }

  /** The chunks of a table put together are the serial output. */
  ghost predicate Splits(cfg: Config, t: Table, v: Values, procs: nat)
    requires cfg.scale > 0 && Chunkable(t)
  {
    FirstChunks(GeneratorOf(cfg, t), v, Base(t) * cfg.scale, procs, procs)
    == Rows(GeneratorOf(cfg, t), 1, Base(t) * cfg.scale, v)
  }

  /** So it is for every table drawn from the 31-bit generator, every process count and every
      table of seeds. */
  lemma {:induction false} TableChunksAreSerial(cfg: Config, t: Table, v: Values, procs: nat)
    requires Narrow(cfg, t) && Ok(cfg, v) && procs > 0
    ensures Splits(cfg, t, v, procs)
  {
    hide RowOf, SkipChunk, Agree, AfterRows;
    TablesAreLawful(cfg, t);
    ChunksAreSerial(GeneratorOf(cfg, t), v, Base(t) * cfg.scale, procs);
  }
}
