/** The rows of the TPC-H tables as functions of the random streams: every column draws
    from its own stream, so a row is given by its number and the streams' values. */
module DbgenRows {
  import opened DbgenRandom
  import opened ModArith

  const MAX_STREAM := 47
  const STREAMS := MAX_STREAM + 1

  // ---- Tables and streams (dss.h, shared.h, rnd.h).

  datatype Table = NoTable | PART | PSUPP | SUPP | CUST | ORDER | LINE | ORDER_LINE | PART_PSUPP | NATION | REGION

  /** The table each stream belongs to. */
  function StreamTable(i: int): Table {
    if i in {0, 1, 2, 3, 4, 6, 37} then PART
    else if 7 <= i <= 9 then PSUPP
    else if i in {10, 11, 12, 13, 38, 40, 43} then ORDER
    else if 14 <= i <= 25 || i == 39 then LINE
    else if 26 <= i <= 31 then CUST
    else if 32 <= i <= 36 || 44 <= i <= 47 then SUPP
    else if i == 41 then NATION
    else if i == 42 then REGION
    else NoTable
  }

  /** The draws reserved per row in each stream. */
  function Boundary(i: int): nat {
    if i == 6 || i == 12 || i == 31 || i == 36 || i == 41 || i == 42 then 2
    else if i == 7 || i == 8 then SUPP_PER_PART
    else if i == 9 then SUPP_PER_PART * 2
    else if 14 <= i <= 24 then O_LCNT_MAX
    else if i == 25 then O_LCNT_MAX * 2
    else if i == 26 || i == 32 then 9
    else if i == 28 || i == 34 then 3
    else if i == 37 then 92
    else 1
  }

  /** `tdefs[t].child` */
  function ChildOf(t: Table): Table {
    match t
    case PART | PART_PSUPP => PSUPP
    case ORDER | ORDER_LINE => LINE
    case _ => NoTable
  }

  /** `tdefs[t].base`; the program makes the orders ten for each customer before it reads options. */
  function Base(t: Table): nat {
    match t
    case PART | PSUPP | PART_PSUPP => 200000
    case SUPP => 10000
    case CUST => 150000
    case ORDER | LINE | ORDER_LINE => 1500000
    case _ => 90
  }

  const SUPP_PER_PART := 4
  const O_LCNT_MAX := 7
  const MAX_LONG := 0x7FFFFFFF
  const TEXT_POOL_SIZE := 314572800
  const STARTDATE := 92001
  const CURRENTDATE := 95168
  const O_ODATE_MAX := 92001 + 2557 - (121 + 30) - 1

  /** What the distributions file fixes: the number of nations and of colours, and the
      largest weight of the distribution each stream picks from. */
  datatype Config = Config(scale: nat, nations: int, colors: nat, weight: seq<int>)

  /** What the streams hold: 64-bit words, most of them seeds of the 31-bit generator. */
  type Values = v: seq<Word> | |v| == STREAMS witness seq(STREAMS, _ => 0)

  function Low(x: Word): Seed { x % MODULUS }

  /** From scale 30000 on, orders draw customer and part keys from the 64-bit generator. */
  const WIDE_SCALE := 30000

  predicate Wide(cfg: Config, s: int) { cfg.scale >= WIDE_SCALE && (s == 19 || s == 40) }

  /** Every stream holds a seed, as at the start of a process. */
  predicate AllSeeds(v: Values) { forall s :: 0 <= s < STREAMS ==> v[s] < MODULUS }

  /** The streams of the 31-bit generator hold its seeds. */
  predicate Ok(cfg: Config, v: Values) { forall s :: 0 <= s < STREAMS && !Wide(cfg, s) ==> v[s] < MODULUS }

  // ---- One draw (UnifInt), with its double arithmetic read exactly.

  /** A value scaled to `lo..hi`; the 32-bit range of `0..MAX_LONG` wraps. */
  function Unif(lo: int, hi: int, value: Seed): int {
    var range := if hi == MAX_LONG && lo == 0 then -0x80000000 else hi - lo + 1;
    lo + TruncDiv(value * range, MODULUS)
  }

  lemma {:induction false} UnifInRange(lo: int, hi: int, value: Seed)
    requires lo <= hi && !(hi == MAX_LONG && lo == 0)
    ensures lo <= Unif(lo, hi, value) <= hi
  {
    ScaledBelow(value, hi - lo + 1);
  }

  /** A draw divides the seeds evenly: `r` stands for the seeds in its share of 0..2^31-2. */
  lemma {:induction false} UnifExactly(lo: int, hi: int, value: Seed, r: int)
    requires lo <= hi && !(lo == 0 && hi == 0x7FFF_FFFF)
    ensures r == Unif(lo, hi, value) <==>
            (r - lo) * 0x7FFF_FFFF <= value * (hi - lo + 1) < (r - lo + 1) * 0x7FFF_FFFF
  {
    var p := value * (hi - lo + 1);
    MulMono(0, value, hi - lo + 1);
    assert p == (p / MODULUS) * MODULUS + p % MODULUS;
    if (r - lo) * MODULUS <= p < (r - lo + 1) * MODULUS { QuotientUnique(p, r - lo, p - (r - lo) * MODULUS, MODULUS); }
  }

  /** The one draw whose range wraps: every share counts downwards from zero. */
  lemma {:induction false} UnifWraps(value: Seed)
    ensures Unif(0, 0x7FFF_FFFF, value) == -(value * 0x8000_0000 / 0x7FFF_FFFF)
  {
    assert value * -0x8000_0000 == -(value * 0x8000_0000);
  }

  lemma {:induction false} ScaledBelow(value: Seed, range: int)
    requires range > 0
    ensures 0 <= (value * range) / MODULUS < range
  {
    MulMono(0, value, range);
    MulMono(value, MODULUS - 1, range);
  }

  /** The `k`-th draw a row makes from stream `s`, the streams standing at `v`. */
  function Draw(v: Values, s: nat, k: nat, lo: int, hi: int): int
    requires s < STREAMS
  {
    Unif(lo, hi, Steps(Low(v[s]), k + 1))
  }

  /** The `k`-th draw of a key between 1 and `hi`: the generator depends on the scale. */
  function KeyDraw(cfg: Config, v: Values, s: nat, k: nat, hi: int): int
    requires s < STREAMS && hi > 0
  {
    if cfg.scale >= WIDE_SCALE then Draw64(Steps64(v[s], k + 1), hi) else Draw(v, s, k, 1, hi)
  }

  // ---- Column groups.

  /** `dbg_text`: an offset into the text pool and a length. */
  function Text(v: Values, s: nat, k: nat, lo: int, hi: int): seq<int>
    requires s < STREAMS
  {
    [Draw(v, s, k, 0, TEXT_POOL_SIZE - hi), Draw(v, s, k + 1, lo, hi)]
  }

  /** `a_rnd`: a length, then one draw for every five characters. */
  function Chars(v: Values, s: nat, n: nat): seq<int>
    requires s < STREAMS
  {
    if n == 0 then [] else Chars(v, s, n - 1) + [Draw(v, s, n, 0, MAX_LONG)]
  }

  function Ceil5(n: int): nat { if n <= 0 then 0 else (n + 4) / 5 }

  function Address(v: Values, s: nat): seq<int>
    requires s < STREAMS
  {
    var len := Draw(v, s, 0, 10, 40);
    [len] + Chars(v, s, Ceil5(len))
  }

  function AddressDraws(v: Values, s: nat): nat
    requires s < STREAMS
  {
    1 + Ceil5(Draw(v, s, 0, 10, 40))
  }

  function Phone(v: Values, s: nat): seq<int>
    requires s < STREAMS
  {
    [Draw(v, s, 0, 100, 999), Draw(v, s, 1, 100, 999), Draw(v, s, 2, 1000, 9999)]
  }

  /** `permute`: the swaps that shuffle the colour list. */
  function Shuffle(v: Values, s: nat, n: nat, c: nat): seq<int>
    requires s < STREAMS
  {
    if n == 0 then [] else Shuffle(v, s, n - 1, c) + [Draw(v, s, n - 1, n - 1, c - 1)]
  }

  /** PART_SUPP_BRIDGE: the supplier of the `s`-th partsupp row of part `p`. */
  function Supplier(scale: nat, p: int, s: int): int
    requires scale > 0
  {
    var tot := Base(SUPP) * scale;
    TruncMod(p + s * (tot / SUPP_PER_PART + TruncDiv(p - 1, tot)), tot) + 1
  }

  predicate Leap(y: int) { y % 4 == 0 && y % 100 != 0 }

  /** `julian`: a day number past the end of its year moves into the next ones. */
  function Julian(result: int, offset: nat): int
    decreases offset
  {
    var yr := result / 1000;
    var yend := yr * 1000 + 365 + (if Leap(yr) then 1 else 0);
    if result + offset > yend && yend >= result then Julian(result + 1000, offset - (yend - result + 1))
    else result + offset
  }

  predicate Returned(date: int) { Julian(STARTDATE, if date < STARTDATE then 0 else date - STARTDATE) <= CURRENTDATE }

  // ---- Whole rows.

  /** The draws for a remark of the Better Business Bureau in a comment of `clen` characters. */
  function Remark(v: Values, clen: int): seq<int> {
    var noise := Draw(v, 44, 0, 0, clen - 19);
    [Draw(v, 46, 0, 1, 10000), Draw(v, 45, 0, 0, 100), noise, Draw(v, 47, 0, 0, clen - (19 + noise))]
  }

  function SuppRow(cfg: Config, index: int, v: Values): seq<int> {
    [index] + Address(v, 32) + [Draw(v, 33, 0, 0, cfg.nations - 1)] + Phone(v, 34)
    + [Draw(v, 35, 0, -99999, 999999)] + Text(v, 36, 0, 25, 100) + Remark(v, Draw(v, 36, 1, 25, 100))
  }

  function Weight(cfg: Config, s: nat): int { if s < |cfg.weight| then cfg.weight[s] else 0 }

  function CustRow(cfg: Config, index: int, v: Values): seq<int> {
    [index] + Address(v, 26) + [Draw(v, 27, 0, 0, cfg.nations - 1)] + Phone(v, 28)
    + [Draw(v, 29, 0, -99999, 999999), Draw(v, 30, 0, 1, Weight(cfg, 30))] + Text(v, 31, 0, 29, 116)
  }

  /** The first `n` partsupp rows of a part. */
  function PsuppRows(cfg: Config, index: int, v: Values, n: nat): seq<int>
    requires cfg.scale > 0
  {
    if n == 0 then []
    else
      var i := n - 1;
      PsuppRows(cfg, index, v, i)
      + [Supplier(cfg.scale, index, i), Draw(v, 7, i, 1, 9999), Draw(v, 8, i, 100, 100000)]
      + Text(v, 9, 2 * i, 49, 198)
  }

  /** Manufacturer, brand, type, size and container. */
  function Makers(cfg: Config, v: Values): seq<int> {
    [Draw(v, 0, 0, 1, 5), Draw(v, 1, 0, 1, 5), Draw(v, 2, 0, 1, Weight(cfg, 2)),
     Draw(v, 3, 0, 1, 50), Draw(v, 4, 0, 1, Weight(cfg, 4))]
  }

  function PartRow(cfg: Config, index: int, v: Values): seq<int>
    requires cfg.scale > 0
  {
    [index] + Shuffle(v, 37, cfg.colors, cfg.colors) + Makers(cfg, v) + Text(v, 6, 0, 5, 22)
    + PsuppRows(cfg, index, v, SUPP_PER_PART)
  }

  /** The receipt date of line `i`, which decides whether its return flag is drawn. */
  function ReceiptDate(v: Values, i: nat): int {
    Draw(v, 13, 0, STARTDATE, O_ODATE_MAX) + Draw(v, 21, i, 1, 121) + Draw(v, 23, i, 1, 30)
  }

  /** The return-flag draws of the first `n` lines. */
  function Flags(v: Values, n: nat): nat {
    if n == 0 then 0 else Flags(v, n - 1) + (if Returned(ReceiptDate(v, n - 1)) then 1 else 0)
  }

  /** A line's quantity, discount, tax, instruction and mode. */
  function Terms(cfg: Config, v: Values, i: nat): seq<int> {
    [Draw(v, 14, i, 1, 50), Draw(v, 15, i, 0, 10), Draw(v, 16, i, 0, 8),
     Draw(v, 17, i, 1, Weight(cfg, 17)), Draw(v, 18, i, 1, Weight(cfg, 18))]
  }

  /** Quantity, discount, tax, shipping, comment, part and supplier of line `i`. */
  function Goods(cfg: Config, v: Values, i: nat): seq<int>
    requires cfg.scale > 0
  {
    var partkey := KeyDraw(cfg, v, 19, i, Base(PART) * cfg.scale);
    Terms(cfg, v, i) + Text(v, 25, 2 * i, 10, 43) + [partkey, Supplier(cfg.scale, partkey, Draw(v, 20, i, 0, 3))]
  }

  /** Ship, commit and receipt date of line `i`, and a return flag if it came back in time. */
  function Dates(cfg: Config, v: Values, i: nat): seq<int> {
    [Draw(v, 21, i, 1, 121), Draw(v, 22, i, 30, 90), Draw(v, 23, i, 1, 30)]
    + (if Returned(ReceiptDate(v, i)) then [Draw(v, 24, Flags(v, i), 1, Weight(cfg, 24))] else [])
  }

  function OrderLine(cfg: Config, v: Values, i: nat): seq<int>
    requires cfg.scale > 0
  {
    Goods(cfg, v, i) + Dates(cfg, v, i)
  }

  /** The first `n` parts one after the other. */
  function Concat(part: nat -> seq<int>, n: nat): seq<int> {
    if n == 0 then [] else Concat(part, n - 1) + part(n - 1)
  }

  function OrderLines(cfg: Config, v: Values, n: nat): seq<int>
    requires cfg.scale > 0
  {
    Concat((i: nat) => OrderLine(cfg, v, i), n)
  }

  function LineCount(v: Values): nat {
    var n := Draw(v, 43, 0, 1, O_LCNT_MAX);
    if n < 0 then 0 else n
  }

  function Max(a: int, b: int): int { if a > b then a else b }

  /** An order's priority, clerk and comment. */
  function Desk(cfg: Config, v: Values): seq<int> {
    [Draw(v, 38, 0, 1, Weight(cfg, 38)), Draw(v, 11, 0, 1, Max(cfg.scale * 1000, 1000))] + Text(v, 12, 0, 19, 78)
  }

  /** CUST_MORTALITY: every third customer has no orders; `mk_order` moves a key that names one. */
  function MovedKey(key: int, max: int): int {
    if key % 3 != 0 then key else if key < max then key + 1 else max - 1
  }

  /** A key that names no customer moves up, and the last one down. */
  lemma {:induction false} MovedKeyIs(key: int, max: int)
    requires max % 3 == 0 && key <= max
    ensures key % 3 != 0 ==> MovedKey(key, max) == key
    ensures key % 3 == 0 ==> MovedKey(key, max) == (if key == max then key - 1 else key + 1)
    ensures MovedKey(key, max) % 3 != 0
  {
  }

  /** Written keys tell drawn keys apart unless these are neighbours. */
  lemma {:induction false} MovedKeysTell(a: int, b: int, max: int)
    requires max % 3 == 0 && a <= max && b <= max && MovedKey(a, max) == MovedKey(b, max)
    ensures -1 <= a - b <= 1
  {
  }

  /** The customer key that is written. */
  function CustomerKey(cfg: Config, v: Values): int
    requires cfg.scale > 0
  {
    MovedKey(KeyDraw(cfg, v, 40, 0, Base(CUST) * cfg.scale), Base(CUST) * cfg.scale)
  }

  function OrderHead(cfg: Config, index: int, v: Values): seq<int>
    requires cfg.scale > 0
  {
    [index, CustomerKey(cfg, v), Draw(v, 13, 0, STARTDATE, O_ODATE_MAX)] + Desk(cfg, v)
  }

  function OrderRow(cfg: Config, index: int, v: Values): seq<int>
    requires cfg.scale > 0
  {
    OrderHead(cfg, index, v) + [Draw(v, 43, 0, 1, O_LCNT_MAX)] + OrderLines(cfg, v, LineCount(v))
  }

  /** An order generated for its lines alone: only its number and date are written with them. */
  function LineRow(cfg: Config, index: int, v: Values): seq<int>
    requires cfg.scale > 0
  {
    [index, Draw(v, 13, 0, STARTDATE, O_ODATE_MAX), Draw(v, 43, 0, 1, O_LCNT_MAX)] + OrderLines(cfg, v, LineCount(v))
  }

  /** The draws of an order and `n` of its lines. */
  function OrderUsage(v: Values, n: nat, s: nat): nat {
    if s in {11, 13, 38, 40, 43} then 1 else if s == 12 then 2
    else if 14 <= s <= 23 then n else if s == 24 then Flags(v, n) else if s == 25 then 2 * n else 0
  }

  /** The table choices whose generation can be split into chunks. */
  predicate Chunkable(t: Table) { t != NoTable && t != NATION && t != REGION }

  predicate MakesOrders(t: Table) { t == ORDER || t == LINE || t == ORDER_LINE }

  /** The tables whose rows draw from the 31-bit generator only. */
  predicate Supported(cfg: Config, t: Table) {
    Chunkable(t) && cfg.scale > 0 && (MakesOrders(t) ==> cfg.scale < WIDE_SCALE)
  }

  /** What a row is made of. A master generated alone is made with its details, a detail
      generated alone with its master, and only the detail is written. */
  function RowOf(cfg: Config, t: Table, index: int, v: Values): seq<int>
    requires cfg.scale > 0 && Chunkable(t)
  {
    match t
    case PART | PART_PSUPP => PartRow(cfg, index, v)
    case PSUPP => [index] + PsuppRows(cfg, index, v, SUPP_PER_PART)
    case SUPP => SuppRow(cfg, index, v)
    case CUST => CustRow(cfg, index, v)
    case ORDER | ORDER_LINE => OrderRow(cfg, index, v)
    case LINE => LineRow(cfg, index, v)
  }

  /** The draws a row makes from each stream. */
  function Usage(cfg: Config, t: Table, v: Values, s: nat): nat
    requires Chunkable(t) && s < STREAMS
  {
    match t
    case PART | PSUPP | PART_PSUPP =>
      if s == 37 then cfg.colors
      else if s <= 4 then 1 else if s == 6 then 2
      else if s == 7 || s == 8 then SUPP_PER_PART else if s == 9 then 2 * SUPP_PER_PART else 0
    case SUPP =>
      if s == 32 then AddressDraws(v, 32)
      else if s == 33 || s == 35 || 44 <= s <= 47 then 1 else if s == 34 then 3 else if s == 36 then 2 else 0
    case CUST =>
      if s == 26 then AddressDraws(v, 26)
      else if s == 27 || s == 29 || s == 30 then 1 else if s == 28 then 3 else if s == 31 then 2 else 0
    case ORDER | LINE | ORDER_LINE => OrderUsage(v, LineCount(v), s)
  }

  /** `row_stop` rounds the streams of a table and of its child up to the boundary. A table
      without a child has NONE there, as the text-pool stream has for its table. */
  predicate RowStream(t: Table, s: int) {
    var m := if t == ORDER_LINE then ORDER else if t == PART_PSUPP then PART else t;
    StreamTable(s) == m || StreamTable(s) == ChildOf(m)
  }

  /** The streams that what is written comes from. `row_stop` also rounds up two that no row of
      these tables uses: 39, and 5 through a missing child. */
  predicate Drawn(t: Table, s: int) {
    if t == PSUPP then 7 <= s <= 9
    else if t == LINE then 14 <= s <= 25 || s == 13 || s == 43
    else RowStream(t, s) && s != 39 && s != 5
  }

  /** The streams of the tables; stream 5 builds the pool of text that comments are cut from. */
  predicate Column(s: int) { 0 <= s < STREAMS && s != 5 }

  ghost predicate SameColumns(v: Values, w: Values) { forall s :: Column(s) ==> v[s] == w[s] }

  lemma {:induction false} FlagsBound(v: Values, n: nat)
    ensures Flags(v, n) <= n
    decreases n
  {
    if n > 0 { FlagsBound(v, n - 1); }
  }

  /** No row draws more from a stream than the stream's boundary, and what is written is drawn
      from streams that `row_stop` rounds up or that every row draws from that often. */
  lemma {:induction false} UsageWithinBoundary(cfg: Config, t: Table, v: Values, s: nat)
    requires Chunkable(t) && s < STREAMS && cfg.colors <= 92
    ensures Usage(cfg, t, v, s) <= Boundary(s)
    ensures Drawn(t, s) ==> RowStream(t, s) || Usage(cfg, t, v, s) == Boundary(s)
    ensures Usage(cfg, t, v, s) > 0 ==> RowStream(t, s) || t == PSUPP || t == LINE
  {
    if MakesOrders(t) {
      UnifInRange(1, O_LCNT_MAX, Steps(Low(v[43]), 1));
      FlagsBound(v, LineCount(v));
    }
    if t == SUPP { UnifInRange(10, 40, Steps(Low(v[32]), 1)); }
    if t == CUST { UnifInRange(10, 40, Steps(Low(v[26]), 1)); }
  }
}
