/** The generator itself: the seed table, the row makers that draw from it, the skip
    routines, and the drivers, each proved against the rows and streams they stand for. */
module DbgenGen {
  import opened ChunkAlgebra
  import opened ModArith
  import opened DbgenRandom
  import opened DbgenRows
  import opened DbgenChunks

  class SeedTable {
    const cfg: Config
    const value: array<Word>
    const usage: array<nat>
    /** How many draws building the text pool takes, from where its stream stands, and whether
        this process has built it. */
    const poolDraws: Word -> nat
    var pooled: bool
    /** The values at the last `row_start`. */
    ghost var start: Values

    ghost predicate Shaped() { value.Length == STREAMS == usage.Length && value as object != usage as object }

    ghost function Now(): Values
      requires Shaped()
      reads value
    {
      value[..]
    }

    /** Every stream has been stepped once per draw since the row started. */
    ghost predicate Tracks()
      reads this, value, usage
    {
      Shaped() && Ok(cfg, start) && forall s :: 0 <= s < STREAMS ==> value[s] == Moved(cfg, s, start[s], usage[s])
    }

    /** Nothing drawn yet. */
    ghost predicate Unused()
      requires Shaped()
      reads usage
    {
      forall s :: 0 <= s < STREAMS ==> usage[s] == 0
    }

    /** Exactly the draws of a row of table `t`. */
    ghost predicate Spent(t: Table)
      requires Shaped() && Chunkable(t)
      reads this, usage
    {
      forall s :: Column(s) ==> usage[s] == Usage(cfg, t, start, s)
    }

    /** Since then, `n` draws from stream `s` and none from any other. */
    twostate predicate Drew(s: nat, n: nat)
      requires Shaped()
      reads usage
    {
      forall k :: 0 <= k < STREAMS ==> usage[k] == old(usage[k]) + (if k == s then n else 0)
    }

    /** The same, but for building the text pool. */
    twostate predicate DrewText(s: nat, n: nat)
      requires Shaped()
      reads this, usage
    {
      && (forall k :: Column(k) ==> usage[k] == old(usage[k]) + (if k == s then n else 0))
      && pooled && (old(pooled) ==> Drew(s, n))
    }

    // ---- rnd.c, rng64.c

    /** One step of one stream; the result is uniform between its bounds. */
    method UnifInt(lo: int, hi: int, stream: nat) returns (r: int)
      requires Shaped() && stream < STREAMS && value[stream] < MODULUS
      modifies value
      ensures r == Unif(lo, hi, NextRand(old(value[stream])))
      ensures Now() == old(Now())[stream := NextRand(old(value[stream]))]
      ensures lo <= hi && !(lo == 0 && hi == 0x7FFF_FFFF) ==>
        lo <= r <= hi && (r - lo) * 0x7FFF_FFFF <= value[stream] * (hi - lo + 1) < (r - lo + 1) * 0x7FFF_FFFF
    {
      var seed := NextRand(value[stream]);
      if lo <= hi && !(hi == MAX_LONG && lo == 0) {
        UnifInRange(lo, hi, seed);
        UnifExactly(lo, hi, seed, Unif(lo, hi, seed));
      }
      value[stream] := seed;
      var range := if hi == MAX_LONG && lo == 0 then -0x80000000 else hi - lo + 1;
      r := lo + TruncDiv(value[stream] * range, MODULUS);
    }

    method DssRandom(lo: int, hi: int, stream: nat) returns (tgt: int)
      requires Tracks() && stream < STREAMS && !Wide(cfg, stream)
      modifies value, usage
      ensures Tracks() && Drew(stream, 1)
      ensures tgt == Draw(start, stream, old(usage[stream]), lo, hi)
      ensures lo <= hi && !(lo == 0 && hi == 0x7FFF_FFFF) ==>
        lo <= tgt <= hi && (tgt - lo) * 0x7FFF_FFFF <= value[stream] * (hi - lo + 1) < (tgt - lo + 1) * 0x7FFF_FFFF
    {
      hide Skip31, Unif, NextRand, Low;
      OneMore(start[stream], usage[stream]);
      tgt := UnifInt(lo, hi, stream);
      usage[stream] := usage[stream] + 1;
    }

    /** `dss_random64`: a step of the 64-bit generator, its absolute value, and a remainder. */
    method DssRandom64(hi: int, stream: nat) returns (tgt: int)
      requires Tracks() && stream < STREAMS && Wide(cfg, stream) && hi > 0
      modifies value, usage
      ensures Tracks() && Drew(stream, 1)
      ensures tgt == Draw64(Steps64(start[stream], old(usage[stream]) + 1), hi)
    {
      hide NextRand64;
      value[stream] := NextRand64(value[stream]);
      var nTemp := Signed(value[stream]);
      if nTemp < 0 { nTemp := Signed(Unsigned(-nTemp)); }
      nTemp := TruncMod(nTemp, hi);
      tgt := 1 + nTemp;
      usage[stream] := usage[stream] + 1;
    }

    /** A key column: the generator depends on the scale. */
    method KeyRandom(hi: int, stream: nat) returns (tgt: int)
      requires Tracks() && (stream == 19 || stream == 40) && hi > 0
      modifies value, usage
      ensures Tracks() && Drew(stream, 1) && tgt == KeyDraw(cfg, start, stream, old(usage[stream]), hi) <= hi
    {
      if cfg.scale >= 30000 {
        tgt := DssRandom64(hi, stream);
      } else {
        UnifInRange(1, hi, Steps(Low(start[stream]), usage[stream] + 1));
        tgt := DssRandom(1, hi, stream);
      }
    }

    method RowStart()
      requires Shaped() && Ok(cfg, Now())
      modifies usage, this`start
      ensures Tracks() && Unused() && start == Now()
    {
      var i := 0;
      while i <= MAX_STREAM
        invariant 0 <= i <= STREAMS
        invariant forall s :: 0 <= s < i ==> usage[s] == 0
      {
        usage[i] := 0;
        i := i + 1;
      }
      start := value[..];
    }

    method RowStop(t: Table)
      requires Shaped()
      modifies value
      ensures forall s :: 0 <= s < STREAMS ==>
        value[s] == if RowStream(t, s) then Skip31(old(value[s]), Clamp(Boundary(s) - usage[s])) else old(value[s])
    {
      var i := 0;
      while i <= MAX_STREAM
        invariant 0 <= i <= STREAMS
        invariant forall s :: 0 <= s < i ==>
          value[s] == if RowStream(t, s) then Skip31(old(value[s]), Clamp(Boundary(s) - usage[s])) else old(value[s])
        invariant forall s :: i <= s < STREAMS ==> value[s] == old(value[s])
      {
        if RowStream(t, i) {
          var z := NthElement(Boundary(i) - usage[i], value[i]);
          value[i] := z;
        }
        i := i + 1;
      }
    }

    // ---- Column groups: bm_utils.c, text.c, permute.c, build.c.

    method ARnd(s: nat) returns (a: seq<int>)
      requires Tracks() && s < STREAMS && !Wide(cfg, s) && usage[s] == 0
      modifies value, usage
      ensures Tracks() && a == Address(start, s) && Drew(s, AddressDraws(start, s))
    {
      hide Moved, Ok, Draw;
      var len := DssRandom(10, 40, s);
      a := [len];
      var i := 0;
      while i < len
        invariant 0 <= i && (i <= len || i == 0) && Tracks()
        invariant a == [len] + Chars(start, s, Ceil5(i)) && Drew(s, 1 + Ceil5(i))
      {
        if i % 5 == 0 {
          var c := DssRandom(0, MAX_LONG, s);
          a := a + [c];
        }
        i := i + 1;
      }
    }

    method GenPhone(s: nat) returns (p: seq<int>)
      requires Tracks() && s < STREAMS && !Wide(cfg, s) && usage[s] == 0
      modifies value, usage
      ensures Tracks() && p == Phone(start, s) && Drew(s, 3)
    {
      hide Moved, Ok, Draw;
      var acode := DssRandom(100, 999, s);
      var exchg := DssRandom(100, 999, s);
      var number := DssRandom(1000, 9999, s);
      p := [acode, exchg, number];
    }

    /** The first text of a process builds the pool, from stream 5. */
    method BuildPool()
      requires Tracks()
      modifies value, usage, this`pooled
      ensures Tracks() && pooled && (old(pooled) ==> unchanged(value) && unchanged(usage))
      ensures forall k :: Column(k) ==> usage[k] == old(usage[k])
    {
      hide Moved, Ok;
      if pooled { return; }
      var needed := poolDraws(value[5]);
      for wordlen := 0 to needed
        invariant Tracks() && !pooled && forall k :: Column(k) ==> usage[k] == old(usage[k])
      {
        var _ := DssRandom(1, 100, 5);
      }
      pooled := true;
    }

    method DbgText(s: nat, lo: int, hi: int) returns (x: seq<int>)
      requires Tracks() && Column(s) && !Wide(cfg, s)
      modifies value, usage, this`pooled
      ensures Tracks() && x == Text(start, s, old(usage[s]), lo, hi) && DrewText(s, 2)
    {
      hide Moved, Ok, Draw;
      BuildPool();
      var offset := DssRandom(0, TEXT_POOL_SIZE - hi, s);
      var length := DssRandom(lo, hi, s);
      x := [offset, length];
    }

    method Permute(s: nat, c: nat) returns (swaps: seq<int>)
      requires Tracks() && s < STREAMS && !Wide(cfg, s) && usage[s] == 0
      modifies value, usage
      ensures Tracks() && swaps == Shuffle(start, s, c, c) && Drew(s, c)
    {
      hide Moved, Ok, Draw;
      swaps := [];
      for i := 0 to c
        invariant Tracks() && swaps == Shuffle(start, s, i, c) && Drew(s, i)
      {
        var source := DssRandom(i, c - 1, s);
        swaps := swaps + [source];
      }
    }

    // ---- Rows: build.c.

    method MkRemark(clen: int) returns (r: seq<int>)
      requires Tracks() && usage[44] == usage[45] == usage[46] == usage[47] == 0
      modifies value, usage
      ensures Tracks() && r == Remark(start, clen)
      ensures forall k :: 0 <= k < STREAMS ==> usage[k] == old(usage[k]) + (if 44 <= k <= 47 then 1 else 0)
    {
      hide Moved, Ok, Draw;
      var badPress := DssRandom(1, 10000, 46);
      var kind := DssRandom(0, 100, 45);
      var noise := DssRandom(0, clen - 19, 44);
      var offset := DssRandom(0, clen - (19 + noise), 47);
      r := [badPress, kind, noise, offset];
    }

    method MkSupp(index: int) returns (row: seq<int>)
      requires Tracks() && Unused()
      modifies value, usage, this`pooled
      ensures Tracks() && row == SuppRow(cfg, index, start) && Spent(SUPP)
    {
      hide Moved, Ok, Draw, Address, AddressDraws, Phone, Remark;
      var address := ARnd(32);
      var nation := DssRandom(0, cfg.nations - 1, 33);
      var phone := GenPhone(34);
      var acctbal := DssRandom(-99999, 999999, 35);
      var comment := DbgText(36, 25, 100);
      var remark := MkRemark(comment[1]);
      row := [index] + address + [nation] + phone + [acctbal] + comment + remark;
    }

    method MkCust(index: int) returns (row: seq<int>)
      requires Tracks() && Unused()
      modifies value, usage, this`pooled
      ensures Tracks() && row == CustRow(cfg, index, start) && Spent(CUST)
    {
      hide Moved, Ok, Draw, Address, AddressDraws, Phone, Text;
      var address := ARnd(26);
      var nation := DssRandom(0, cfg.nations - 1, 27);
      var phone := GenPhone(28);
      var acctbal := DssRandom(-99999, 999999, 29);
      var segment := DssRandom(1, Weight(cfg, 30), 30);
      var comment := DbgText(31, 29, 116);
      row := [index] + address + [nation] + phone + [acctbal, segment] + comment;
    }

    method MkPsupp(index: int, n: nat) returns (rows: seq<int>)
      requires Tracks() && cfg.scale > 0 && usage[7] == usage[8] == usage[9] == 0
      modifies value, usage, this`pooled
      ensures Tracks() && rows == PsuppRows(cfg, index, start, n)
      ensures forall k :: Column(k) ==>
        usage[k] == old(usage[k]) + (if k == 7 || k == 8 then n else if k == 9 then 2 * n else 0)
    {
      hide Moved, Ok, Draw, Text, Supplier;
      rows := [];
      for i := 0 to n
        invariant Tracks() && rows == PsuppRows(cfg, index, start, i)
        invariant forall k :: Column(k) ==>
          usage[k] == old(usage[k]) + (if k == 7 || k == 8 then i else if k == 9 then 2 * i else 0)
      {
        var qty := DssRandom(1, 9999, 7);
        var cost := DssRandom(100, 100000, 8);
        var comment := DbgText(9, 49, 198);
        rows := rows + [Supplier(cfg.scale, index, i), qty, cost] + comment;
      }
    }

    method MkMaker() returns (r: seq<int>)
      requires Tracks() && usage[0] == usage[1] == usage[2] == usage[3] == usage[4] == 0
      modifies value, usage
      ensures Tracks() && r == Makers(cfg, start)
      ensures forall k :: 0 <= k < STREAMS ==> usage[k] == old(usage[k]) + (if k <= 4 then 1 else 0)
    {
      hide Moved, Ok, Draw;
      var mfgr := DssRandom(1, 5, 0);
      var brand := DssRandom(1, 5, 1);
      var kind := DssRandom(1, Weight(cfg, 2), 2);
      var size := DssRandom(1, 50, 3);
      var container := DssRandom(1, Weight(cfg, 4), 4);
      r := [mfgr, brand, kind, size, container];
    }

    /** A part, and its partsupp rows alone. */
    method MkPart(index: int) returns (row: seq<int>, detail: seq<int>)
      requires Tracks() && Unused() && cfg.scale > 0
      modifies value, usage, this`pooled
      ensures Tracks() && row == PartRow(cfg, index, start) && Spent(PART_PSUPP)
      ensures detail == [index] + PsuppRows(cfg, index, start, SUPP_PER_PART)
    {
      hide Moved, Ok, Draw, Shuffle, Text, PsuppRows, Makers;
      var name := Permute(37, cfg.colors);
      var made := MkMaker();
      var comment := DbgText(6, 5, 22);
      var psupp := MkPsupp(index, SUPP_PER_PART);
      row, detail := [index] + name + made + comment + psupp, [index] + psupp;
    }

    /** The usage after the order's own columns and `n` of its lines. */
    ghost predicate LinesSpent(n: nat)
      requires Shaped()
      reads this, usage
    {
      forall s :: Column(s) ==> usage[s] == OrderUsage(start, n, s)
    }

    method MkTerms(ghost i: nat) returns (r: seq<int>)
      requires Tracks() && forall k :: 14 <= k <= 18 ==> usage[k] == i
      modifies value, usage
      ensures Tracks() && r == Terms(cfg, start, i)
      ensures forall k :: 0 <= k < STREAMS ==> usage[k] == old(usage[k]) + (if 14 <= k <= 18 then 1 else 0)
    {
      hide Moved, Ok, Draw;
      var quantity := DssRandom(1, 50, 14);
      var discount := DssRandom(0, 10, 15);
      var tax := DssRandom(0, 8, 16);
      var instruct := DssRandom(1, Weight(cfg, 17), 17);
      var mode := DssRandom(1, Weight(cfg, 18), 18);
      r := [quantity, discount, tax, instruct, mode];
    }

    method MkGoods(ghost i: nat) returns (r: seq<int>)
      requires Tracks() && cfg.scale > 0 && (forall k :: 14 <= k <= 20 ==> usage[k] == i) && usage[25] == 2 * i
      modifies value, usage, this`pooled
      ensures Tracks() && r == Goods(cfg, start, i)
      ensures forall k :: Column(k) ==>
        usage[k] == old(usage[k]) + (if 14 <= k <= 20 then 1 else if k == 25 then 2 else 0)
    {
      hide Moved, Ok, Draw, Text, Supplier, Terms, KeyDraw;
      var terms := MkTerms(i);
      var comment := DbgText(25, 10, 43);
      var partkey := KeyRandom(Base(PART) * cfg.scale, 19);
      var suppNum := DssRandom(0, 3, 20);
      r := terms + comment + [partkey, Supplier(cfg.scale, partkey, suppNum)];
    }

    method MkDates(date: int, ghost i: nat) returns (r: seq<int>)
      requires Tracks() && date == Draw(start, 13, 0, STARTDATE, O_ODATE_MAX)
      requires usage[21] == usage[22] == usage[23] == i && usage[24] == Flags(start, i)
      modifies value, usage
      ensures Tracks() && r == Dates(cfg, start, i)
      ensures forall k :: 0 <= k < STREAMS ==>
        usage[k] == old(usage[k]) + (if 21 <= k <= 23 then 1
                                     else if k == 24 then Flags(start, i + 1) - Flags(start, i) else 0)
    {
      hide Moved, Ok, Draw, Returned;
      var ship := DssRandom(1, 121, 21);
      var commit := DssRandom(30, 90, 22);
      var receipt := DssRandom(1, 30, 23);
      r := [ship, commit, receipt];
      if Returned(date + ship + receipt) {
        var flag := DssRandom(1, Weight(cfg, 24), 24);
        r := r + [flag];
      }
    }

    method MkLine(date: int, ghost i: nat) returns (r: seq<int>)
      requires Tracks() && cfg.scale > 0 && date == Draw(start, 13, 0, STARTDATE, O_ODATE_MAX) && LinesSpent(i)
      modifies value, usage, this`pooled
      ensures Tracks() && r == OrderLine(cfg, start, i) && LinesSpent(i + 1)
    {
      hide Moved, Ok, Draw, Goods, Dates, Flags;
      var goods := MkGoods(i);
      var dates := MkDates(date, i);
      r := goods + dates;
    }

    method MkDesk() returns (r: seq<int>)
      requires Tracks() && usage[11] == usage[12] == usage[38] == 0
      modifies value, usage, this`pooled
      ensures Tracks() && r == Desk(cfg, start)
      ensures forall k :: Column(k) ==>
        usage[k] == old(usage[k]) + (if k == 11 || k == 38 then 1 else if k == 12 then 2 else 0)
    {
      hide Moved, Ok, Draw, Text;
      var priority := DssRandom(1, Weight(cfg, 38), 38);
      var clerk := DssRandom(1, Max(cfg.scale * 1000, 1000), 11);
      var comment := DbgText(12, 19, 78);
      r := [priority, clerk] + comment;
    }

    /** The loop that moves a key naming a customer without orders. */
    static method MoveKey(drawn: int, max: nat) returns (custkey: int)
      requires drawn <= max && max % 3 == 0
      ensures custkey == MovedKey(drawn, max)
      ensures custkey == if drawn % 3 != 0 then drawn else if drawn == max then drawn - 1 else drawn + 1
    {
      custkey := drawn;
      var delta := 1;
      while custkey % 3 == 0
        invariant delta == 1 || delta == -1
        invariant custkey % 3 == 0 && delta == 1 ==> custkey == drawn
        invariant custkey % 3 == 0 && delta == -1 ==> custkey == drawn == max
        invariant custkey % 3 != 0 ==> custkey == MovedKey(drawn, max)
        decreases custkey % 3 == 0, delta
      {
        custkey := custkey + delta;
        if custkey > max { custkey := max; }
        delta := -delta;
      }
    }

    method MkHead(index: int) returns (date: int, lines: int, head: seq<int>)
      requires Tracks() && Unused() && cfg.scale > 0
      modifies value, usage, this`pooled
      ensures Tracks() && LinesSpent(0) && date == Draw(start, 13, 0, STARTDATE, O_ODATE_MAX)
      ensures lines == Draw(start, 43, 0, 1, O_LCNT_MAX) && head == OrderHead(cfg, index, start)
    {
      hide Moved, Ok, Draw, Text, KeyDraw, Desk, MovedKey;
      var drawn := KeyRandom(Base(CUST) * cfg.scale, 40);
      var custkey := MoveKey(drawn, Base(CUST) * cfg.scale);
      date := DssRandom(STARTDATE, O_ODATE_MAX, 13);
      var desk := MkDesk();
      head := [index, custkey, date] + desk;
      lines := DssRandom(1, O_LCNT_MAX, 43);
    }

    /** An order with its lines, and its lines alone. */
    method MkOrder(index: int) returns (row: seq<int>, detail: seq<int>)
      requires Tracks() && Unused() && cfg.scale > 0
      modifies value, usage, this`pooled
      ensures Tracks() && row == OrderRow(cfg, index, start) && Spent(ORDER_LINE)
      ensures detail == LineRow(cfg, index, start)
    {
      hide Moved, Ok, Draw, OrderHead, OrderLine, Flags;
      var date, lines, head := MkHead(index);
      var body: seq<int> := [];
      var i := 0;
      while i < lines
        invariant 0 <= i && (i <= lines || i == 0) && Tracks() && LinesSpent(i)
        invariant body == OrderLines(cfg, start, i)
      {
        var line := MkLine(date, i);
        body := body + line;
        i := i + 1;
      }
      row, detail := head + [lines] + body, [index, date, lines] + body;
    }

    // ---- speed_seed.c

    method AdvanceStream(s: nat, calls: nat)
      requires Shaped() && s < STREAMS
      modifies value
      ensures Now() == old(Now())[s := Skip31(old(value[s]), calls)]
    {
      var z := NthElement(calls, value[s]);
      value[s] := z;
    }

    method SdPart(rows: nat)
      requires Shaped()
      modifies value
      ensures Now() == Skip(PART, old(Now()), rows)
    {
      hide Skip31;
      NoSkips(Now());
      var i := 0;
      while i <= 4
        invariant 0 <= i <= 5
        invariant forall s :: 0 <= s < STREAMS ==>
          value[s] == if s < i then Skip31(old(value[s]), rows) else old(value[s])
      {
        AdvanceStream(i, rows);
        i := i + 1;
      }
      AdvanceStream(6, rows * 2);
      AdvanceStream(37, rows * 92);
    }

    method PsuppRound(rows: nat)
      requires Shaped()
      modifies value
      ensures Now() == Round(PSUPP, old(Now()), rows)
    {
      hide Skip31;
      NoSkips(Now());
      AdvanceStream(7, rows);
      AdvanceStream(8, rows);
      AdvanceStream(9, rows * 2);
    }

    method SdPsupp(rows: nat)
      requires Shaped() && Ready(PSUPP, Now())
      modifies value
      ensures Now() == Skip(PSUPP, old(Now()), rows)
    {
      hide Skip, Round;
      for j := 0 to SUPP_PER_PART
        invariant Now() == RoundN(PSUPP, old(Now()), rows, j)
      {
        PsuppRound(rows);
      }
      RoundsMakeSkip(PSUPP, old(Now()), rows);
    }

    method LineRound(rows: nat)
      requires Shaped()
      modifies value
      ensures Now() == Round(LINE, old(Now()), rows)
    {
      hide Skip31;
      NoSkips(Now());
      var i := 14;
      while i <= 24
        invariant 14 <= i <= 25
        invariant forall s :: 0 <= s < STREAMS ==>
          value[s] == if 14 <= s < i then Skip31(old(value[s]), rows) else old(value[s])
      {
        AdvanceStream(i, rows);
        i := i + 1;
      }
      AdvanceStream(25, rows * 2);
    }

    method SdLine(child: bool, rows: nat)
      requires Shaped() && Ready(LINE, Now())
      modifies value
      ensures Now() == if child then SkipTable(LINE, old(Now()), rows) else Skip(LINE, old(Now()), rows)
    {
      hide Skip, Round;
      for j := 0 to O_LCNT_MAX
        invariant Now() == RoundN(LINE, old(Now()), rows, j)
      {
        LineRound(rows);
      }
      RoundsMakeSkip(LINE, old(Now()), rows);
      if child {
        AdvanceStream(13, rows);
        AdvanceStream(43, rows);
      }
    }

    method SdOrder(rows: nat)
      requires Shaped()
      modifies value
      ensures Now() == Skip(ORDER, old(Now()), rows)
    {
      hide Skip31;
      NoSkips(Now());
      AdvanceStream(43, rows);
      AdvanceStream(40, rows);
      AdvanceStream(12, rows * 2);
      AdvanceStream(10, rows);
      AdvanceStream(11, rows);
      AdvanceStream(38, rows);
      AdvanceStream(13, rows);
    }

    method SdCust(rows: nat)
      requires Shaped()
      modifies value
      ensures Now() == Skip(CUST, old(Now()), rows)
    {
      hide Skip31;
      NoSkips(Now());
      AdvanceStream(26, rows * 9);
      AdvanceStream(31, rows * 2);
      AdvanceStream(27, rows);
      AdvanceStream(28, 3 * rows);
      AdvanceStream(29, rows);
      AdvanceStream(30, rows);
    }

    method SdSupp(rows: nat)
      requires Shaped()
      modifies value
      ensures Now() == Skip(SUPP, old(Now()), rows)
    {
      hide Skip31;
      NoSkips(Now());
      AdvanceStream(33, rows);
      AdvanceStream(34, 3 * rows);
      AdvanceStream(35, rows);
      AdvanceStream(32, rows * 9);
      AdvanceStream(36, rows * 2);
      SdRemark(rows);
    }

    method SdRemark(rows: nat)
      requires Shaped()
      modifies value
      ensures forall s :: 0 <= s < STREAMS ==>
        value[s] == if 44 <= s <= 47 then Skip31(old(value[s]), rows) else old(value[s])
    {
      hide Skip31;
      AdvanceStream(46, rows);
      AdvanceStream(44, rows);
      AdvanceStream(47, rows);
      AdvanceStream(45, rows);
    }

    /** The table's entry in `tdefs`; nations and regions have none. */
    method GenSeed(t: Table, child: bool, rows: nat)
      requires Shaped() && Chunkable(t) && Ready(t, Now()) && (child ==> t == LINE)
      modifies value
      ensures Now() == if child then SkipTable(t, old(Now()), rows) else Skip(t, old(Now()), rows)
    {
      match t
      case PART | PART_PSUPP => SdPart(rows);
      case PSUPP => SdPsupp(rows);
      case ORDER | ORDER_LINE => SdOrder(rows);
      case LINE => SdLine(child, rows);
      case CUST => SdCust(rows);
      case SUPP => SdSupp(rows);
    }

    // ---- bm_utils.c, driver.c

    method SetState(t: Table, sf: nat, procs: nat, step: int) returns (result: nat, extra: nat)
      requires Shaped() && Chunkable(t) && Ready(t, Now()) && Ready(ChildOf(t), Now()) && procs > 0
      modifies value
      ensures sf == 0 || step == 0 ==> result == 0 && Now() == old(Now())
      ensures sf != 0 && step != 0 ==>
        && result == Base(t) * sf / procs && extra == Base(t) * sf % procs
        && var v := Rounds(t, old(Now()), result, Clamp(step - 1));
           Now() == if step > procs then Skip(t, v, extra) else v
    {
      hide Skip, SkipTable;
      if sf == 0 || step == 0 { return 0, 0; }
      var rowcount := Base(t) * sf;
      extra := rowcount % procs;
      rowcount := rowcount / procs;
      result := rowcount;
      var i := 0;
      while i < step - 1
        invariant 0 <= i && (i <= step - 1 || i == 0)
        invariant Now() == Rounds(t, old(Now()), result, i)
        invariant Ready(t, Now()) && Ready(ChildOf(t), Now())
      {
        StaysReady(t, t, Now(), rowcount);
        StaysReady(t, ChildOf(t), Now(), rowcount);
        OneRound(t, rowcount);
        i := i + 1;
      }
      if step > procs {
        GenSeed(t, false, extra);
      }
    }

    method OneRound(t: Table, rows: nat)
      requires Shaped() && Chunkable(t) && Ready(t, Now()) && Ready(ChildOf(t), Now())
      modifies value
      ensures Now() == SkipChunk(t, old(Now()), rows)
    {
      hide Skip;
      PlainSkip(t, old(Now()), rows);
      ChildStaysReady(t, old(Now()), rows);
      GenSeed(t, t == LINE, rows);
      if ChildOf(t) != NoTable {
        GenSeed(ChildOf(t), false, rows);
      } else {
        NoSkip(Now(), rows);
      }
    }

    /** One turn of `gen_tbl`'s loop. */
    method GenRow(t: Table, index: int) returns (row: seq<int>)
      requires Shaped() && Ok(cfg, Now()) && cfg.scale > 0 && Chunkable(t)
      modifies value, usage, this`start, this`pooled
      ensures row == RowOf(cfg, t, index, old(Now()))
      ensures SameColumns(Now(), AfterRow(cfg, t, old(Now()))) && Ok(cfg, Now())
    {
      hide PartRow, PsuppRows, SuppRow, CustRow, OrderRow, LineRow, Usage, RowStream, Boundary, Moved, Skip31;
      RowStart();
      row := MakeRow(t, index);
      RowStop(t);
      PoolStays(cfg, t, start[5], usage[5]);
      AfterRowOk(cfg, t, start);
    }

    method MakeRow(t: Table, index: int) returns (row: seq<int>)
      requires Tracks() && Unused() && cfg.scale > 0 && Chunkable(t)
      modifies value, usage, this`pooled
      ensures Tracks() && row == RowOf(cfg, t, index, start) && Spent(t)
    {
      hide PartRow, PsuppRows, SuppRow, CustRow, OrderRow, LineRow, Moved, Skip31, Ok;
      var detail: seq<int>;
      match t {
        case PART | PART_PSUPP => row, detail := MkPart(index);
        case PSUPP => detail, row := MkPart(index);
        case SUPP => row := MkSupp(index);
        case CUST => row := MkCust(index);
        case ORDER | ORDER_LINE => row, detail := MkOrder(index);
        case LINE => detail, row := MkOrder(index);
      }
    }

    method GenTbl(t: Table, first: int, count: nat) returns (rows: seq<seq<int>>)
      requires Shaped() && Ok(cfg, Now()) && cfg.scale > 0 && Chunkable(t)
      modifies value, usage, this`start, this`pooled
      ensures rows == Rows(GeneratorOf(cfg, t), first, count, old(Now()))
      ensures SameColumns(Now(), AfterRows(cfg, t, old(Now()), count)) && Ok(cfg, Now())
    {
      hide RowOf, AfterRow, Agree, SkipChunk, Ok, SameColumns;
      rows := [];
      AllSame(Now());
      for n := 0 to count
        invariant rows == Rows(GeneratorOf(cfg, t), first, n, old(Now()))
        invariant SameColumns(Now(), AfterRows(cfg, t, old(Now()), n)) && Ok(cfg, Now())
      {
        ghost var v, w := Now(), AfterRows(cfg, t, old(Now()), n);
        ColumnsMakeRow(cfg, t, first + n, v, w);
        ColumnsMove(cfg, t, v, w);
        var row := GenRow(t, first + n);
        SameChain(Now(), AfterRow(cfg, t, v), AfterRow(cfg, t, w));
        rows := rows + [row];
      }
    }

    method Partial(t: Table, s: int, children: nat) returns (rows: seq<seq<int>>)
      requires Shaped() && Ok(cfg, Now()) && cfg.scale > 0 && Chunkable(t) && 1 <= s <= children
      requires Ready(t, Now()) && Ready(ChildOf(t), Now())
      modifies value, usage, this`start, this`pooled
      ensures rows == Chunk(GeneratorOf(cfg, t), old(Now()), Base(t) * cfg.scale, children, s)
    {
      hide GeneratorOf, Rounds, Rows, Skipped, Ok, Ready;
      var rowcnt, extra := SetState(t, cfg.scale, children, s);
      RoundsSkip(cfg, t, old(Now()), rowcnt, s - 1);
      RoundsOk(cfg, t, old(Now()), rowcnt, s - 1);
      if s == children {
        rows := GenTbl(t, rowcnt * (s - 1) + 1, rowcnt + extra);
      } else {
        rows := GenTbl(t, rowcnt * (s - 1) + 1, rowcnt);
      }
    }

    /** A process's own copy of the seed table. */
    constructor (cfg: Config, seeds: Values, poolDraws: Word -> nat)
      ensures Shaped() && fresh(value) && fresh(usage) && Now() == seeds && this.cfg == cfg && !pooled
    {
      this.cfg, this.poolDraws, pooled := cfg, poolDraws, false;
      value := new Word[STREAMS](i requires 0 <= i < STREAMS => seeds[i]);
      usage := new nat[STREAMS](_ => 0);
      start := seeds;
    }
  }

  /** Every step of a split load, each in a process of its own with the initial seeds, writes its
      chunk; together they write what one process writes, as long as every row draws from the
      31-bit generator. */
  method LoadInSteps(cfg: Config, t: Table, procs: nat, seeds: Values, poolDraws: Word -> nat)
    returns (rows: seq<seq<int>>)
    requires cfg.scale > 0 && Chunkable(t) && procs > 0 && AllSeeds(seeds)
    ensures rows == FirstChunks(GeneratorOf(cfg, t), seeds, Base(t) * cfg.scale, procs, procs)
    ensures Narrow(cfg, t) ==> rows == Rows(GeneratorOf(cfg, t), 1, Base(t) * cfg.scale, seeds)
  {
    hide GeneratorOf, Rows, Chunk;
    rows := [];
    for s := 0 to procs
      invariant rows == FirstChunks(GeneratorOf(cfg, t), seeds, Base(t) * cfg.scale, procs, s)
    {
      var process := new SeedTable(cfg, seeds, poolDraws);
      var chunk := process.Partial(t, s + 1, procs);
      rows := rows + chunk;
    }
    if Narrow(cfg, t) { TableChunksAreSerial(cfg, t, seeds, procs); }
  }

  /** One more step of a 31-bit stream. */
  lemma {:induction false} OneMore(x: Word, n: nat)
    requires x < MODULUS
    ensures Skip31(x, n) == Steps(Low(x), n) && NextRand(Steps(Low(x), n)) == Skip31(x, n + 1) == Steps(Low(x), n + 1)
  {
    SkipSeed(x, n);
    SkipSeed(x, n + 1);
  }

  lemma {:induction false} PoolStays(cfg: Config, t: Table, x: Word, n: nat)
    requires x < MODULUS
    ensures RowEnd(cfg, t, 5, x, n) < MODULUS
  {
    SkipSeed(x, n);
    SkipSeed(Steps(Low(x), n), Clamp(Boundary(5) - n));
  }

  lemma {:induction false} AllSame(v: Values)
    ensures SameColumns(v, v)
  {
  }

  lemma {:induction false} SameChain(u: Values, v: Values, w: Values)
    requires SameColumns(u, v) && SameColumns(v, w)
    ensures SameColumns(u, w)
  {
  }

  /** The streams a skip routine moves hold seeds, as they do before anything is drawn. */
  predicate Ready(t: Table, v: Values) { forall s :: 0 <= s < STREAMS && SkipCalls(t, s) > 0 ==> v[s] < MODULUS }

  lemma {:induction false} StaysReady(t: Table, u: Table, v: Values, rows: nat)
    requires Ready(u, v)
    ensures Ready(u, SkipChunk(t, v, rows))
  {
    hide SkipCalls;
    forall s | 0 <= s < STREAMS && SkipCalls(u, s) > 0 ensures SkipChunk(t, v, rows)[s] < MODULUS {
      SkippedSeed(t, v, rows, s);
    }
  }

  lemma {:induction false} ChildStaysReady(t: Table, v: Values, rows: nat)
    requires Ready(ChildOf(t), v)
    ensures Ready(ChildOf(t), SkipTable(t, v, rows))
  {
    hide SkipCalls;
    forall s | 0 <= s < STREAMS && SkipCalls(ChildOf(t), s) > 0 ensures SkipTable(t, v, rows)[s] < MODULUS {
      SkippedSeed(t, v, rows, s);
    }
  }

  lemma {:induction false} RoundsOk(cfg: Config, t: Table, v: Values, rows: nat, n: nat)
    requires Chunkable(t) && Ok(cfg, v)
    ensures Ok(cfg, Rounds(t, v, rows, n))
    decreases n
  {
    hide Ok, SkipChunk;
    if n > 0 {
      RoundsOk(cfg, t, v, rows, n - 1);
      SkipOk(cfg, t, Rounds(t, v, rows, n - 1), rows);
    }
  }

  lemma {:induction false} PlainSkip(t: Table, v: Values, rows: nat)
    ensures t != LINE ==> SkipTable(t, v, rows) == Skip(t, v, rows)
  {
  }

  lemma {:induction false} NoSkip(v: Values, rows: nat)
    ensures Skip(NoTable, v, rows) == v
  {
  }

  // ---- The loops in `sd_psupp` and `sd_line`.

  function CallsPerRound(t: Table, s: int, rows: nat): nat {
    if t == PSUPP then (if s == 7 || s == 8 then rows else if s == 9 then rows * 2 else 0)
    else if 14 <= s <= 24 then rows else if s == 25 then rows * 2 else 0
  }

  function Round(t: Table, v: Values, rows: nat): Values {
    seq(STREAMS, s requires 0 <= s < STREAMS => Skip31(v[s], CallsPerRound(t, s, rows)))
  }

  function RoundN(t: Table, v: Values, rows: nat, n: nat): Values {
    if n == 0 then v else Round(t, RoundN(t, v, rows, n - 1), rows)
  }

  lemma {:induction false} RoundNAt(t: Table, v: Values, rows: nat, n: nat, s: nat)
    requires s < STREAMS && (v[s] < MODULUS || CallsPerRound(t, s, rows) == 0)
    ensures RoundN(t, v, rows, n)[s] == Skip31(v[s], Before(n, CallsPerRound(t, s, rows)))
    decreases n
  {
    hide Skip31, CallsPerRound;
    var c := CallsPerRound(t, s, rows);
    NoSkip31(v[s]);
    if n > 0 {
      RoundNAt(t, v, rows, n - 1, s);
      if v[s] < MODULUS {
        SkipSeed(v[s], Before(n - 1, c));
        SkipSeed(Steps(Low(v[s]), Before(n - 1, c)), c);
        SkipSeed(v[s], Before(n, c));
        StepsAdd(Low(v[s]), Before(n - 1, c), c);
      } else {
        BeforeIsProduct(n, 0);
        BeforeIsProduct(n - 1, 0);
      }
    }
  }

  lemma {:induction false} NoSkips(v: Values)
    ensures forall s :: 0 <= s < STREAMS ==> Skip31(v[s], 0) == v[s]
  {
  }

  lemma {:induction false} RoundsMakeSkip(t: Table, v: Values, rows: nat)
    requires (t == PSUPP || t == LINE) && Ready(t, v)
    ensures RoundN(t, v, rows, if t == PSUPP then SUPP_PER_PART else O_LCNT_MAX) == Skip(t, v, rows)
  {
    hide Skip31, RoundN;
    var n := if t == PSUPP then SUPP_PER_PART else O_LCNT_MAX;
    forall s | 0 <= s < STREAMS ensures RoundN(t, v, rows, n)[s] == Skip(t, v, rows)[s] {
      RoundNAt(t, v, rows, n, s);
      BeforeIsProduct(n, CallsPerRound(t, s, rows));
    }
  }
}
