/** From scale 30000 on, orders draw two keys from the 64-bit generator, which the skip routines
    do not know: the steps of such a load do not give the serial output. */
module DbgenWide {
  import opened ChunkAlgebra
  import opened DbgenChunks
  import opened DbgenRandom
  import opened DbgenRows
  import opened ModArith
  import Ring

  /** The seeds of rnd.h, eight at a time. */
  const Seeds0: seq<Seed> :=
    [1, 46831694, 1841581359, 1193163244, 727633698, 933588178, 804159733, 1671059989]
  const Seeds1: seq<Seed> :=
    [1051288424, 1961692154, 1227283347, 1171034773, 276090261, 1066728069, 209208115, 554590007]
  const Seeds2: seq<Seed> :=
    [721958466, 1371272478, 675466456, 1808217256, 2095021727, 1769349045, 904914315, 373135028]
  const Seeds3: seq<Seed> :=
    [717419739, 1095462486, 881155353, 1489529863, 1521138112, 298370230, 1140279430, 1335826707]
  const Seeds4: seq<Seed> :=
    [706178559, 110356601, 884434366, 962338209, 1341315363, 709314158, 591449447, 431918286]
  const Seeds5: seq<Seed> :=
    [851767375, 606179079, 1500869201, 1434868289, 263032577, 753643799, 202794285, 715851524]

  const InitialSeeds: Values := Seeds0 + Seeds1 + Seeds2 + Seeds3 + Seeds4 + Seeds5

  lemma {:induction false} InitialSeedsAreSeeds()
    ensures AllSeeds(InitialSeeds) && InitialSeeds[40] == 851767375
  {
    assert InitialSeeds[40] == Seeds5[0];
  }

  // ---- The written customer key of an order.

  predicate WritesCustomers(t: Table) { t == ORDER || t == ORDER_LINE }

  /** The key written for the first order made when its stream holds `x`. */
  function WrittenKey(cfg: Config, x: Word): int
    requires cfg.scale > 0
  {
    MovedKey(Draw64(NextRand64(x), Base(CUST) * cfg.scale), Base(CUST) * cfg.scale)
  }

  lemma {:induction false} RowHasKey(cfg: Config, t: Table, index: int, v: Values)
    requires cfg.scale >= WIDE_SCALE && WritesCustomers(t)
    ensures |RowOf(cfg, t, index, v)| > 1 && RowOf(cfg, t, index, v)[1] == WrittenKey(cfg, v[40])
  {
    hide Draw, OrderLines, LineCount, Draw64, NextRand64, Desk, MovedKey;
    assert Steps64(v[40], 1) == NextRand64(Steps64(v[40], 0)) == NextRand64(v[40]);
  }

  // ---- Where generating and skipping take that stream.

  lemma {:induction false} KeyStreamAfter(cfg: Config, t: Table, v: Values, n: nat)
    requires cfg.scale >= WIDE_SCALE && WritesCustomers(t)
    ensures AfterRows(cfg, t, v, n)[40] == Steps64(v[40], n)
    decreases n
  {
    hide AfterRow, Steps64;
    if n == 0 {
      NoSteps64(v[40]);
    } else {
      KeyStreamAfter(cfg, t, v, n - 1);
      KeyStreamRow(cfg, t, AfterRows(cfg, t, v, n - 1));
      Steps64Add(v[40], n - 1, 1);
    }
  }

  lemma {:induction false} NoSteps64(x: Word)
    ensures Steps64(x, 0) == x
  {
  }

  lemma {:induction false} KeyStreamRow(cfg: Config, t: Table, v: Values)
    requires cfg.scale >= WIDE_SCALE && WritesCustomers(t)
    ensures AfterRow(cfg, t, v)[40] == Steps64(v[40], 1)
  {
    hide Steps64, Flags, LineCount;
    assert Usage(cfg, t, v, 40) == 1 && Boundary(40) == 1 && RowStream(t, 40);
  }

  lemma {:induction false} KeyStreamSkipped(t: Table, v: Values, rows: nat)
    requires v[40] < MODULUS && WritesCustomers(t)
    ensures SkipChunk(t, v, rows)[40] == Steps(v[40], rows)
  {
    SkipIsSteps(v[40], rows);
    assert SkipCalls(t, 40) == 1 && SkipCalls(LINE, 40) == 0;
    assert rows * 1 == rows;
  }

  // ---- Splitting fails.

  /** After that many orders the skipped stream gives another key than the generated one. */
  predicate KeyLost(cfg: Config, x: Seed, rows: nat)
    requires cfg.scale > 0
  {
    WrittenKey(cfg, Steps(x, rows)) != WrittenKey(cfg, Steps64(x, rows))
  }

  /** Then the second step writes another first order than the serial run. */
  lemma {:induction false} SplitFails(cfg: Config, t: Table, v: Values, procs: nat)
    requires cfg.scale >= WIDE_SCALE && WritesCustomers(t) && v[40] < MODULUS && 2 <= procs <= Base(t) * cfg.scale
    requires KeyLost(cfg, v[40], Base(t) * cfg.scale / procs)
    ensures !Splits(cfg, t, v, procs)
  {
    hide RowOf, AfterRows, SkipChunk, Agree, FirstChunks, Rows, KeyLost;
    var g, total := GeneratorOf(cfg, t), Base(t) * cfg.scale;
    var rows := total / procs;
    SecondChunkRow(g, v, total, procs);
    RowsLength(g, 1, total, v);
    RowsFewer(total, procs);
    var skipped, serial := SkipChunk(t, v, rows), AfterRows(cfg, t, v, rows);
    RowsAt(g, 1, total, v, rows);
    NoRowsYet(cfg, t, skipped);
    RowsDiffer(cfg, t, rows + 1, skipped, serial, v, rows);
  }

  lemma {:induction false} RowsFewer(total: nat, procs: nat)
    requires 2 <= procs <= total
    ensures total / procs < total
  {
    var q := total / procs;
    AtLeastOne(total, procs);
    assert total == procs * q + total % procs;
    MulMono(2, procs, q);
  }

  lemma {:induction false} RowsDiffer(cfg: Config, t: Table, index: int, skipped: Values, serial: Values, v: Values,
                                      rows: nat)
    requires cfg.scale >= WIDE_SCALE && WritesCustomers(t) && v[40] < MODULUS && KeyLost(cfg, v[40], rows)
    requires skipped == SkipChunk(t, v, rows) && serial == AfterRows(cfg, t, v, rows)
    ensures RowOf(cfg, t, index, skipped) != RowOf(cfg, t, index, serial)
  {
    hide RowOf, AfterRows, SkipChunk, Steps, Steps64, WrittenKey;
    KeyStreamSkipped(t, v, rows);
    KeyStreamAfter(cfg, t, v, rows);
    RowHasKey(cfg, t, index, skipped);
    RowHasKey(cfg, t, index, serial);
  }

  // ---- When two words give different keys, whatever the scale.

  lemma {:induction false} NestedRemainder(m: nat, scale: nat)
    requires scale > 0
    ensures m % (Base(CUST) * scale) % Base(CUST) == m % Base(CUST)
  {
    var hi := Base(CUST) * scale;
    var q := m / hi;
    assert m == hi * q + m % hi;
    assert hi * q == Base(CUST) * (scale * q);
    AddMultiple(m % hi, scale * q, Base(CUST));
  }

  /** Words whose absolute values are not neighbours modulo the number of customers at scale 1. */
  predicate FarApart(a: nat, b: nat) {
    var d := a % Base(CUST) - b % Base(CUST);
    d != 0 && d != 1 && d != -1 && d != Base(CUST) - 1 && d != 1 - Base(CUST)
  }

  lemma {:induction false} FarRemainders(p: int, q: int)
    requires p >= 0 && q >= 0 && -1 <= p - q <= 1
    ensures !FarApart(p, q)
  {
  }

  lemma {:induction false} FarKeysDiffer(cfg: Config, x: Word, y: Word)
    requires cfg.scale > 0 && Magnitude(NextRand64(x)) >= 0 && Magnitude(NextRand64(y)) >= 0
    requires FarApart(Magnitude(NextRand64(x)), Magnitude(NextRand64(y)))
    ensures WrittenKey(cfg, x) != WrittenKey(cfg, y)
  {
    hide Magnitude, NextRand64, MovedKey;
    var m, n, hi := Magnitude(NextRand64(x)), Magnitude(NextRand64(y)), Base(CUST) * cfg.scale;
    NestedRemainder(m, cfg.scale);
    NestedRemainder(n, cfg.scale);
    if WrittenKey(cfg, x) == WrittenKey(cfg, y) {
      RemainderUnique(hi, 50000 * cfg.scale, 0, 3);
      MovedKeysTell(1 + m % hi, 1 + n % hi, hi);
      FarRemainders(m % hi, n % hi);
    }
  }

  // ---- Long jumps of both generators.

  /** What a number of steps multiplies a seed by, and multiplies a word by and adds to it. */
  datatype Leap = Leap(k: Seed, p: Word, g: Word)

  ghost predicate Jump(n: nat, l: Leap) {
    Ring.Pow(R31, MULTIPLIER, n) == l.k && Ring.Pow(R64, RNG_A, n) == l.p && Ring.Geo(R64, RNG_A, n) == l.g
  }

  function Twice(l: Leap): Leap {
    Leap((l.k * l.k) % MODULUS, (l.p * l.p) % WORD, (l.g * ((l.p + 1) % WORD)) % WORD)
  }

  function OnceMore(l: Leap): Leap {
    Leap((MULTIPLIER * l.k) % MODULUS, (RNG_A * l.p) % WORD, (l.g + l.p) % WORD)
  }

  lemma {:induction false} FirstJump()
    ensures Jump(1, Leap1)
  {
    FirstRound();
    assert Ring.Pow(R31, MULTIPLIER, 1) == R31.mul(MULTIPLIER, Ring.Pow(R31, MULTIPLIER, 0));
  }

  lemma {:induction false} JumpTwice(n: nat, l: Leap)
    requires Jump(n, l)
    ensures Jump(2 * n, Twice(l))
  {
    R31IsRing();
    R64IsRing();
    PrefixStep(R31, MULTIPLIER, n, 2 * n);
    PrefixStep(R64, RNG_A, n, 2 * n);
  }

  lemma {:induction false} JumpOnce(n: nat, l: Leap)
    requires Jump(n, l)
    ensures Jump(n + 1, OnceMore(l))
  {
    R64IsRing();
    Ring.GeoSnoc(R64, RNG_A, n);
  }

  lemma {:induction false} Jumped(x: Seed, n: nat, l: Leap)
    requires Jump(n, l)
    ensures Steps(x, n) == (x * l.k) % MODULUS && Steps64(x, n) == ((x * l.p) % WORD + l.g) % WORD
  {
    StepsIsPower(x, n);
    Jumped64(x, n);
  }

  lemma {:induction false} Jumped64(x: Word, n: nat)
    ensures Steps64(x, n) == ((x * Ring.Pow(R64, RNG_A, n)) % WORD + Ring.Geo(R64, RNG_A, n)) % WORD
  {
    hide Steps64;
    R64IsRing();
    Steps64IsAffine(x, n);
    Ring.AffineClosed(R64, RNG_A, RNG_C, x, n);
    var g := Ring.Geo(R64, RNG_A, n);
    RemainderUnique(g * RNG_C, 0, g, WORD);
  }

  /** The leaps of 1, 2, 3, 6, 12, 24, 25, 50 and 100 steps. */
  const Leap1 := Leap(16807, 6364136223846793005, 1)
  const Leap2 := Leap(282475249, 7520897724310334953, 6364136223846793006)
  const Leap3 := Leap(1622650073, 793875393913628917, 13885033948157127959)
  const Leap6 := Leap(470211272, 17333513496047876729, 3490389784639564826)
  const Leap12 := Leap(1115438165, 3146358351720713521, 9857737466630432868)
  const Leap24 := Leap(1998097157, 7973944128306742113, 6386349962426349448)
  const Leap25 := Leap(1817129560, 16647900582672578317, 14360294090733091561)
  const Leap50 := Leap(937186357, 15270486119133320873, 17428909956592060350)
  const Leap100 := Leap(892053144, 9347866163719994257, 14300435540928297004)

  lemma {:induction false} Leaps2()
    ensures Twice(Leap1) == Leap2
  {
  }

  lemma {:induction false} Leaps3()
    ensures OnceMore(Leap2) == Leap3
  {
  }

  lemma {:induction false} Leaps6()
    ensures Twice(Leap3) == Leap6
  {
  }

  lemma {:induction false} Leaps12()
    ensures Twice(Leap6) == Leap12
  {
  }

  lemma {:induction false} Leaps24()
    ensures Twice(Leap12) == Leap24
  {
  }

  lemma {:induction false} Leaps25()
    ensures OnceMore(Leap24) == Leap25
  {
  }

  lemma {:induction false} Leaps50()
    ensures Twice(Leap25) == Leap50
  {
  }

  lemma {:induction false} Leaps100()
    ensures Twice(Leap50) == Leap100
  {
  }

  lemma {:induction false} Jump100()
    ensures Jump(100, Leap100)
  {
    hide Jump, Twice, OnceMore, Leap1, Leap2, Leap3, Leap6, Leap12, Leap24, Leap25, Leap50, Leap100;
    FirstJump();
    JumpTwice(1, Leap1);
    Leaps2();
    JumpOnce(2, Leap2);
    Leaps3();
    JumpTwice(3, Leap3);
    Leaps6();
    JumpTwice(6, Leap6);
    Leaps12();
    JumpTwice(12, Leap12);
    Leaps24();
    JumpOnce(24, Leap24);
    Leaps25();
    JumpTwice(25, Leap25);
    Leaps50();
    JumpTwice(50, Leap50);
    Leaps100();
  }

  /** A hundred steps of either generator from the program's seed. */
  lemma {:induction false} KeyStreamAfter100()
    ensures Steps(851767375, 100) == 639485093 && Steps64(851767375, 100) == 2323404518869240299
  {
    hide Jump, Steps, Steps64;
    Jump100();
    Jumped(851767375, 100, Leap100);
    Landing();
  }

  lemma {:induction false} Landing()
    ensures (851767375 * Leap100.k) % MODULUS == 639485093
    ensures ((851767375 * Leap100.p) % WORD + Leap100.g) % WORD == 2323404518869240299
  {
  }

  /** The words drawn next. */
  lemma {:induction false} WordsAfter100()
    ensures NextRand64(639485093) == 1028207907467062274 && NextRand64(2323404518869240299) == 7847533952119952208
  {
  }

  lemma {:induction false} WordsFarApart()
    ensures Magnitude(1028207907467062274) == 1028207907467062274
    ensures Magnitude(7847533952119952208) == 7847533952119952208
    ensures FarApart(1028207907467062274, 7847533952119952208)
  {
  }

  /** The program's customer key is lost after a hundred orders, at every scale. */
  lemma {:induction false} KeyLostAfter100(cfg: Config)
    requires cfg.scale > 0
    ensures KeyLost(cfg, 851767375, 100)
  {
    hide Steps, Steps64, NextRand64, Magnitude, WrittenKey, FarApart;
    KeyStreamAfter100();
    WordsAfter100();
    WordsFarApart();
    FarKeysDiffer(cfg, 639485093, 2323404518869240299);
  }

  // ---- Exactly when splitting is right.

  /** The largest scale the program supports, and the largest number `atoi` gives it. */
  const MAX_SCALE := 100000
  const INT_MAX := 0x7FFF_FFFF

  /** As many processes as leave a hundred orders to each. */
  lemma {:induction false} HundredEach(scale: nat)
    requires WIDE_SCALE <= scale <= MAX_SCALE
    ensures var procs := 15000 * scale; 2 <= procs <= INT_MAX && 1500000 * scale / procs == 100
  {
    QuotientUnique(1500000 * scale, 100, 0, 15000 * scale);
  }

  /** With the program's own seeds, and the scales and numbers of processes it can be given: orders
      split right over every number of processes if and only if the scale keeps them on the
      31-bit generator. */
  lemma {:induction false} ProgramSplitsExactly(cfg: Config, t: Table)
    requires 0 < cfg.scale <= 100000 && cfg.colors <= 92 && (t == ORDER || t == ORDER_LINE)
    ensures (forall procs: nat :: 0 < procs <= 0x7FFF_FFFF ==> Splits(cfg, t, InitialSeeds, procs)) <==>
            cfg.scale < 30000
  {
    hide Splits, KeyLost;
    InitialSeedsAreSeeds();
    if cfg.scale < WIDE_SCALE {
      forall procs: nat | 0 < procs <= INT_MAX ensures Splits(cfg, t, InitialSeeds, procs) {
        TableChunksAreSerial(cfg, t, InitialSeeds, procs);
      }
    } else {
      HundredEach(cfg.scale);
      KeyLostAfter100(cfg);
      SplitFails(cfg, t, InitialSeeds, 15000 * cfg.scale);
    }
  }

  /** The reference commands for scale 30000 split the orders over 450000000 processes. */
  lemma {:induction false} ReferenceOrdersFail(cfg: Config)
    requires cfg.scale == 30000
    ensures !Splits(cfg, ORDER, InitialSeeds, 450000000)
  {
    hide Splits, KeyLost;
    InitialSeedsAreSeeds();
    KeyLostAfter100(cfg);
    HundredEach(30000);
    SplitFails(cfg, ORDER, InitialSeeds, 450000000);
  }

  /** A step that skips no row is right at every scale: one process, or more processes than rows. */
  lemma {:induction false} UnskippedSplits(cfg: Config, t: Table, v: Values, procs: nat)
    requires cfg.scale > 0 && Chunkable(t) && procs > 0 && (procs == 1 || procs > Base(t) * cfg.scale)
    ensures Splits(cfg, t, v, procs)
  {
    hide RowOf, AfterRows, Agree, FirstChunks, Rows, SkipChunk;
    NoRowsSkipped(t, v);
    NothingSkipped(GeneratorOf(cfg, t), v, Base(t) * cfg.scale, procs, procs);
  }

  lemma {:induction false} NoRowsSkipped(t: Table, v: Values)
    ensures SkipChunk(t, v, 0) == v
  {
    forall s | 0 <= s < STREAMS ensures SkipChunk(t, v, 0)[s] == v[s] { NoSkip31(v[s]); }
  }
}
