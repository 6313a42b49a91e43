/** The columns of the TPC-H rows, one by one: from which draw of which stream each comes, and the
    constants of the program's tables. */
module DbgenColumns {
  import opened ChunkAlgebra
  import opened DbgenChunks
  import opened DbgenRandom
  import opened DbgenRows
  import opened ModArith

  // ---- rnd.h, driver.c

  /** The draws per row that each stream has, and the table it belongs to. */
  lemma {:induction false} SeedTableIs(s: nat)
    requires s < 48
    ensures s <= 5 || s in {10, 11, 13, 27, 29, 30, 33, 35, 38, 39, 40} || 43 <= s ==> Boundary(s) == 1
    ensures s in {6, 12, 31, 36, 41, 42} ==> Boundary(s) == 2
    ensures s in {28, 34} ==> Boundary(s) == 3
    ensures s in {7, 8} ==> Boundary(s) == 4
    ensures 14 <= s <= 24 ==> Boundary(s) == 7
    ensures s == 9 ==> Boundary(s) == 8
    ensures s in {26, 32} ==> Boundary(s) == 9
    ensures s == 25 ==> Boundary(s) == 14
    ensures s == 37 ==> Boundary(s) == 92
    ensures s <= 4 || s == 6 || s == 37 <==> StreamTable(s) == PART
    ensures 7 <= s <= 9 <==> StreamTable(s) == PSUPP
    ensures 10 <= s <= 13 || s in {38, 40, 43} <==> StreamTable(s) == ORDER
    ensures 14 <= s <= 25 || s == 39 <==> StreamTable(s) == LINE
    ensures 26 <= s <= 31 <==> StreamTable(s) == CUST
    ensures 32 <= s <= 36 || 44 <= s <==> StreamTable(s) == SUPP
    ensures s == 41 <==> StreamTable(s) == NATION
    ensures s == 42 <==> StreamTable(s) == REGION
    ensures s == 5 <==> StreamTable(s) == NoTable
  {
  }

  /** The rows of each table. */
  lemma {:induction false} TableSizes(cfg: Config, t: Table, v: Values)
    requires cfg.scale > 0 && Chunkable(t)
    ensures |Rows(GeneratorOf(cfg, t), 1, Base(t) * cfg.scale, v)| ==
            cfg.scale * (if t == SUPP then 10000 else if t == CUST then 150000
                         else if t == PART || t == PSUPP || t == PART_PSUPP then 200000 else 1500000)
  {
    hide RowOf, AfterRows, SkipChunk, Rows;
    RowsLength(GeneratorOf(cfg, t), 1, Base(t) * cfg.scale, v);
  }

  lemma {:induction false} RowHead(cfg: Config, t: Table, index: int, v: Values)
    requires cfg.scale > 0 && Chunkable(t)
    ensures |RowOf(cfg, t, index, v)| > 0 && RowOf(cfg, t, index, v)[0] == index
  {
  }

  /** The rows a step writes: as many as the quotient says, the remainder with the last step, and
      numbered on from the steps before. */
  lemma {:induction false} StepWrites(cfg: Config, t: Table, v: Values, procs: nat, s: nat, k: nat)
    requires cfg.scale > 0 && Chunkable(t) && 1 <= s <= procs
    ensures var rows, n := Chunk(GeneratorOf(cfg, t), v, Base(t) * cfg.scale, procs, s), Base(t) * cfg.scale / procs;
            && |rows| == (if s < procs then n else n + Base(t) * cfg.scale % procs)
            && (k < |rows| ==> |rows[k]| > 0 && rows[k][0] == (s - 1) * n + k + 1)
  {
    hide RowOf, AfterRows, SkipChunk, Rows, Skipped;
    var g, n, count := GeneratorOf(cfg, t), Base(t) * cfg.scale / procs, ChunkLength(Base(t) * cfg.scale, procs, s);
    var from := Skipped(g, v, n, s - 1);
    RowsLength(g, (s - 1) * n + 1, count, from);
    if k < count {
      RowsAt(g, (s - 1) * n + 1, count, from, k);
      RowHead(cfg, t, (s - 1) * n + 1 + k, AfterRows(cfg, t, from, k));
    }
  }

  // ---- Draws.

  /** A draw of the 31-bit generator: `k + 1` steps, then an even share of the range. */
  lemma {:induction false} DrawIs(v: Values, s: nat, k: nat, lo: int, hi: int, r: int)
    requires s < STREAMS && lo <= hi && !(lo == 0 && hi == 0x7FFF_FFFF)
    ensures r == Draw(v, s, k, lo, hi) <==>
            (r - lo) * 0x7FFF_FFFF <= Steps(v[s] % 0x7FFF_FFFF, k + 1) * (hi - lo + 1) < (r - lo + 1) * 0x7FFF_FFFF
  {
    UnifExactly(lo, hi, Steps(Low(v[s]), k + 1), r);
  }

  lemma {:induction false} StepsIs(x: Seed, n: nat)
    ensures Steps(x, 0) == x && Steps(x, n + 1) == (Steps(x, n) * 16807) % 0x7FFF_FFFF
  {
  }

  lemma {:induction false} Steps64Is(w: Word, n: nat)
    ensures Steps64(w, 0) == w
    ensures Steps64(w, n + 1) == (Steps64(w, n) * 6364136223846793005 + 1) % 0x1_0000_0000_0000_0000
  {
  }

  /** A draw of the 64-bit generator: the remainder of the absolute value of a signed word. */
  lemma {:induction false} Draw64Is(w: Word, hi: int)
    requires hi > 0
    ensures w < 0x8000_0000_0000_0000 ==> Draw64(w, hi) == 1 + w % hi
    ensures w > 0x8000_0000_0000_0000 ==> Draw64(w, hi) == 1 + (0x1_0000_0000_0000_0000 - w) % hi
    ensures w == 0x8000_0000_0000_0000 ==> Draw64(w, hi) == 1 - 0x8000_0000_0000_0000 % hi
  {
    hide Unsigned;
    var n := Signed(w);
    if n < 0 { UnsignedNegated(w); }
  }

  lemma {:induction false} UnsignedNegated(w: Word)
    requires w >= SIGN
    ensures Unsigned(-Signed(w)) == WORD - w
  {
    RemainderUnique(WORD - w, 0, WORD - w, WORD);
  }

  lemma {:induction false} KeyDrawIs(cfg: Config, v: Values, s: nat, k: nat, hi: int)
    requires s < STREAMS && hi > 0
    ensures cfg.scale >= 30000 ==> KeyDraw(cfg, v, s, k, hi) == Draw64(Steps64(v[s], k + 1), hi)
    ensures cfg.scale < 30000 ==> KeyDraw(cfg, v, s, k, hi) == Draw(v, s, k, 1, hi)
  {
  }

  // ---- Dates.

  /** The days from the first of January 1992 to a day of the form YYDDD. */
  function DayNumber(d: int): int {
    var y, n := d / 1000, d % 1000;
    365 * (y - 92) + (y - 89) / 4 + n - 1
  }

  /** The day lies in its year. */
  predicate IsDay(d: int) {
    var y, n := d / 1000, d % 1000;
    92 <= y < 100 && 1 <= n <= (if y % 4 == 0 then 366 else 365)
  }

  /** From the first day of a year, `julian` counts the days of the years from 1992 to 1999. */
  lemma {:induction false} JulianCounts(y: int, offset: nat)
    requires 92 <= y < 100 && DayNumber(1000 * y + 1) + offset < 2922
    ensures IsDay(Julian(1000 * y + 1, offset))
    ensures DayNumber(Julian(1000 * y + 1, offset)) == DayNumber(1000 * y + 1) + offset
    decreases offset
  {
    var d, n := 1000 * y + 1, if Leap(y) then 366 else 365;
    FirstDay(y);
    if offset >= n {
      FirstDay(y + 1);
      JulianCounts(y + 1, offset - n);
    } else {
      QuotientUnique(d + offset, y, 1 + offset, 1000);
    }
  }

  lemma {:induction false} FirstDay(y: int)
    requires 92 <= y <= 100
    ensures (1000 * y + 1) / 1000 == y && (1000 * y + 1) % 1000 == 1
    ensures DayNumber(1000 * y + 1) == 365 * (y - 92) + (y - 89) / 4
    ensures y < 100 ==> (Leap(y) <==> y % 4 == 0) && (y + 1 - 89) / 4 == (y - 89) / 4 + (if Leap(y) then 1 else 0)
  {
    QuotientUnique(1000 * y + 1, y, 1, 1000);
  }

  lemma {:induction false} NextYear(y: int, offset: nat)
    requires y >= 92
    ensures var n := if Leap(y) then 366 else 365;
            Julian(1000 * y + 1, offset) ==
            if offset >= n then Julian(1000 * (y + 1) + 1, offset - n) else 1000 * y + 1 + offset
  {
    QuotientUnique(1000 * y + 1, y, 1, 1000);
  }

  lemma {:induction false} JulianAtLeast(y: int, offset: nat)
    requires y >= 92
    ensures Julian(1000 * y + 1, offset) >= 1000 * y + 1
    decreases offset
  {
    var n := if Leap(y) then 366 else 365;
    NextYear(y, offset);
    if offset >= n { JulianAtLeast(y + 1, offset - n); }
  }

  /** A line has been returned if it was received by the 17th of June 1995, the 1264th day. */
  lemma {:induction false} ReturnedExactly(date: int)
    ensures Returned(date) <==> date <= 92001 + 1263
  {
    hide Julian;
    var o := if date < 92001 then 0 else date - 92001;
    NextYear(92, o);
    if o >= 366 {
      NextYear(93, o - 366);
      if o >= 731 {
        NextYear(94, o - 731);
        if o >= 1096 {
          NextYear(95, o - 1096);
          if o >= 1461 { JulianAtLeast(96, o - 1461); }
        }
      }
    }
  }

  // ---- Rows.

  lemma {:induction false} CharsAt(v: Values, s: nat, n: nat)
    requires s < STREAMS
    ensures |Chars(v, s, n)| == n && forall k :: 0 <= k < n ==> Chars(v, s, n)[k] == Draw(v, s, k + 1, 0, 0x7FFF_FFFF)
    decreases n
  {
    hide Draw;
    if n > 0 { CharsAt(v, s, n - 1); }
  }

  /** A random string: its length from 10 to 40, then a draw for every five characters. */
  lemma {:induction false} AddressIs(v: Values, s: nat)
    requires s < STREAMS
    ensures var a, len := Address(v, s), Draw(v, s, 0, 10, 40);
            && 10 <= len <= 40 && |a| == 1 + (len + 4) / 5 && a[0] == len
            && forall k :: 0 <= k < (len + 4) / 5 ==> a[1..][k] == Draw(v, s, k + 1, 0, 0x7FFF_FFFF)
  {
    var len := Draw(v, s, 0, 10, 40);
    UnifInRange(10, 40, Steps(Low(v[s]), 1));
    CharsAt(v, s, (len + 4) / 5);
  }

  /** A telephone number and a text. */
  lemma {:induction false} GroupsAre(v: Values, s: nat, k: nat, lo: int, hi: int)
    requires s < STREAMS
    ensures Phone(v, s) == [Draw(v, s, 0, 100, 999), Draw(v, s, 1, 100, 999), Draw(v, s, 2, 1000, 9999)]
    ensures Text(v, s, k, lo, hi) == [Draw(v, s, k, 0, 314572800 - hi), Draw(v, s, k + 1, lo, hi)]
  {
  }

  lemma {:induction false} SupplierColumns(cfg: Config, index: int, v: Values)
    ensures var noise := Draw(v, 44, 0, 0, Draw(v, 36, 1, 25, 100) - 19);
            SuppRow(cfg, index, v) ==
            [index] + Address(v, 32) + [Draw(v, 33, 0, 0, cfg.nations - 1)] + Phone(v, 34)
            + [Draw(v, 35, 0, -99999, 999999)] + Text(v, 36, 0, 25, 100)
            + [Draw(v, 46, 0, 1, 10000), Draw(v, 45, 0, 0, 100), noise,
               Draw(v, 47, 0, 0, Draw(v, 36, 1, 25, 100) - (19 + noise))]
  {
  }

  lemma {:induction false} CustomerColumns(cfg: Config, index: int, v: Values)
    requires |cfg.weight| > 30
    ensures CustRow(cfg, index, v) ==
            [index] + Address(v, 26) + [Draw(v, 27, 0, 0, cfg.nations - 1)] + Phone(v, 28)
            + [Draw(v, 29, 0, -99999, 999999), Draw(v, 30, 0, 1, cfg.weight[30])] + Text(v, 31, 0, 29, 116)
  {
  }

  lemma {:induction false} ShuffleAt(v: Values, s: nat, n: nat, c: nat)
    requires s < STREAMS
    ensures |Shuffle(v, s, n, c)| == n && forall k :: 0 <= k < n ==> Shuffle(v, s, n, c)[k] == Draw(v, s, k, k, c - 1)
    decreases n
  {
    hide Draw;
    if n > 0 { ShuffleAt(v, s, n - 1, c); }
  }

  lemma {:induction false} PartColumns(cfg: Config, index: int, v: Values)
    requires cfg.scale > 0 && |cfg.weight| > 4
    ensures var row, c := PartRow(cfg, index, v), cfg.colors;
            && |row| == c + 28 && row[0] == index && row[1..c + 1] == Shuffle(v, 37, c, c)
            && row[c + 1..c + 6] == [Draw(v, 0, 0, 1, 5), Draw(v, 1, 0, 1, 5), Draw(v, 2, 0, 1, cfg.weight[2]),
                                     Draw(v, 3, 0, 1, 50), Draw(v, 4, 0, 1, cfg.weight[4])]
            && row[c + 6..c + 8] == Text(v, 6, 0, 5, 22) && row[c + 8..] == PsuppRows(cfg, index, v, 4)
  {
    hide Draw;
    var c := cfg.colors;
    ShuffleAt(v, 37, c, c);
    PsuppColumns(cfg, index, v, 4);
    var name, made, text := Shuffle(v, 37, c, c), Makers(cfg, v), Text(v, 6, 0, 5, 22);
    var tail := PsuppRows(cfg, index, v, 4);
    assert PartRow(cfg, index, v) == [index] + name + made + text + tail;
  }

  /** The partsupp rows of a part, five columns each. */
  lemma {:induction false} PsuppColumns(cfg: Config, index: int, v: Values, n: nat)
    requires cfg.scale > 0
    ensures |PsuppRows(cfg, index, v, n)| == 5 * n
    ensures forall k :: 0 <= k < n ==>
              PsuppRows(cfg, index, v, n)[5 * k..5 * k + 5] ==
              [Supplier(cfg.scale, index, k), Draw(v, 7, k, 1, 9999), Draw(v, 8, k, 100, 100000)]
              + Text(v, 9, 2 * k, 49, 198)
    decreases n
  {
    hide Draw, Supplier;
    if n > 0 {
      PsuppColumns(cfg, index, v, n - 1);
      var all, before := PsuppRows(cfg, index, v, n), PsuppRows(cfg, index, v, n - 1);
      forall k | 0 <= k < n - 1 ensures all[5 * k..5 * k + 5] == before[5 * k..5 * k + 5] { }
    }
  }

  /** Clause 4.2.3: the supplier of a part's `i`-th partsupp row, of S suppliers. */
  lemma {:induction false} SupplierIs(scale: nat, p: int, i: nat, S: int, stride: int)
    requires scale > 0 && p >= 1 && S == 10000 * scale && stride == S / 4 + (p - 1) / S
    ensures Supplier(scale, p, i) == (p + i * stride) % S + 1
  {
    hide TruncDiv, TruncMod, Supplier;
    TruncIsFloor(p - 1, S);
    SupplierBy(scale, p, i, S, stride);
    assert stride >= 0 by { NonNegative(p - 1, S); }
    MulMono(0, i, stride);
    TruncIsFloor(p + i * stride, S);
  }

  lemma {:induction false} NonNegative(a: int, b: int)
    requires a >= 0 && b > 0
    ensures a / b >= 0
  {
  }

  lemma {:induction false} SupplierBy(scale: nat, p: int, i: nat, S: int, stride: int)
    requires scale > 0 && S == 10000 * scale && stride == S / 4 + TruncDiv(p - 1, S)
    ensures Supplier(scale, p, i) == TruncMod(p + i * stride, S) + 1
  {
    hide TruncDiv, TruncMod;
  }

  lemma {:induction false} TruncIsFloor(a: int, b: int)
    requires a >= 0 && b > 0
    ensures TruncDiv(a, b) == a / b && TruncMod(a, b) == a % b
  {
  }

  lemma {:induction false} OrderColumns(cfg: Config, index: int, v: Values)
    requires cfg.scale > 0 && |cfg.weight| > 38
    ensures OrderRow(cfg, index, v) ==
            [index, MovedKey(KeyDraw(cfg, v, 40, 0, 150000 * cfg.scale), 150000 * cfg.scale),
             Draw(v, 13, 0, 92001, 94406), Draw(v, 38, 0, 1, cfg.weight[38]), Draw(v, 11, 0, 1, 1000 * cfg.scale)]
            + Text(v, 12, 0, 19, 78) + [Draw(v, 43, 0, 1, 7)] + OrderLines(cfg, v, Draw(v, 43, 0, 1, 7))
    ensures LineRow(cfg, index, v) ==
            [index, Draw(v, 13, 0, 92001, 94406), Draw(v, 43, 0, 1, 7)] + OrderLines(cfg, v, Draw(v, 43, 0, 1, 7))
  {
    hide Unif, Steps, Low, MovedKey, KeyDraw, OrderLines;
    assert 1 <= Draw(v, 43, 0, 1, 7) by { UnifInRange(1, 7, Steps(Low(v[43]), 1)); }
  }

  /** The lines of an order one after the other. */
  lemma {:induction false} LinesAre(cfg: Config, v: Values, n: nat)
    requires cfg.scale > 0
    ensures OrderLines(cfg, v, 0) == [] && OrderLines(cfg, v, n + 1) == OrderLines(cfg, v, n) + OrderLine(cfg, v, n)
  {
    hide OrderLine;
  }

  /** The columns of a line; the return flag is there if the line was received in time. */
  lemma {:induction false} LineColumns(cfg: Config, v: Values, i: nat)
    requires cfg.scale > 0 && |cfg.weight| > 24
    ensures var part := KeyDraw(cfg, v, 19, i, 200000 * cfg.scale);
            var back := Draw(v, 13, 0, 92001, 94406) + Draw(v, 21, i, 1, 121) + Draw(v, 23, i, 1, 30) <= 93264;
            OrderLine(cfg, v, i) ==
            [Draw(v, 14, i, 1, 50), Draw(v, 15, i, 0, 10), Draw(v, 16, i, 0, 8), Draw(v, 17, i, 1, cfg.weight[17]),
             Draw(v, 18, i, 1, cfg.weight[18])] + Text(v, 25, 2 * i, 10, 43)
            + [part, Supplier(cfg.scale, part, Draw(v, 20, i, 0, 3))]
            + [Draw(v, 21, i, 1, 121), Draw(v, 22, i, 30, 90), Draw(v, 23, i, 1, 30)]
            + (if back then [Draw(v, 24, Flags(v, i), 1, cfg.weight[24])] else [])
  {
    hide Draw, Supplier, KeyDraw, Returned;
    ReturnedExactly(ReceiptDate(v, i));
  }

  /** The return flags drawn before a line are those of the lines received in time before it. */
  lemma {:induction false} FlagsAre(v: Values, n: nat)
    ensures Flags(v, 0) == 0
    ensures Flags(v, n + 1) == Flags(v, n)
            + (if Draw(v, 13, 0, 92001, 94406) + Draw(v, 21, n, 1, 121) + Draw(v, 23, n, 1, 30) <= 93264 then 1 else 0)
  {
    hide Draw, Returned;
    ReturnedExactly(ReceiptDate(v, n));
  }
}
