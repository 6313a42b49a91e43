/** Splitting a generator's rows over processes, for any generator that can skip ahead. */
module ChunkAlgebra {

  /** A row is made from its number and the streams `V`; `after` moves the streams past that
      many rows; `skip` is the fast form; `ok` holds of streams the fast form is meant for, and
      `agree` of streams no row can tell apart. */
  datatype Generator<!V, R> = Generator(
    make: (int, V) -> R, after: (V, nat) -> V, skip: (V, nat) -> V, ok: V -> bool, agree: (V, V) -> bool)

  // ---- The laws, one instance each.

  ghost predicate AfterNone<V, R>(g: Generator<V, R>, v: V) { g.after(v, 0) == v && g.agree(v, v) }

  ghost predicate AfterAdds<V, R>(g: Generator<V, R>, v: V, a: nat, b: nat) {
    g.after(v, a + b) == g.after(g.after(v, a), b)
  }

  ghost predicate AgreeTrans<V, R>(g: Generator<V, R>, u: V, v: V, w: V) {
    g.agree(u, v) && g.agree(v, w) ==> g.agree(u, w)
  }

  ghost predicate StaysOk<V, R>(g: Generator<V, R>, v: V, n: nat) {
    g.ok(v) ==> g.ok(g.after(v, n)) && g.ok(g.skip(v, n))
  }

  ghost predicate AfterAgrees<V, R>(g: Generator<V, R>, v: V, w: V, n: nat) {
    g.ok(v) && g.ok(w) && g.agree(v, w) ==> g.agree(g.after(v, n), g.after(w, n))
  }

  ghost predicate SkipAgrees<V, R>(g: Generator<V, R>, v: V, n: nat) {
    g.ok(v) ==> g.agree(g.skip(v, n), g.after(v, n))
  }

  ghost predicate MakeAgrees<V, R>(g: Generator<V, R>, i: int, v: V, w: V) {
    g.agree(v, w) ==> g.make(i, v) == g.make(i, w)
  }

  ghost predicate Lawful<V(!new), R>(g: Generator<V, R>) {
    && (forall v :: AfterNone(g, v))
    && (forall v, a, b :: AfterAdds(g, v, a, b))
    && (forall u, v, w :: AgreeTrans(g, u, v, w))
    && (forall v, n :: StaysOk(g, v, n))
    && (forall v, w, n :: AfterAgrees(g, v, w, n))
    && (forall v, n :: SkipAgrees(g, v, n))
    && (forall i, v, w :: MakeAgrees(g, i, v, w))
  }

  // ---- Rows and chunks.

  /** Rows `start .. start + count - 1`, the streams standing at `v`. */
  function Rows<V, R>(g: Generator<V, R>, start: int, count: nat, v: V): seq<R> {
    if count == 0 then [] else Rows(g, start, count - 1, v) + [g.make(start + count - 1, g.after(v, count - 1))]
  }

  /** Skipping `n` chunks of `rows` rows, one after the other. */
  function Skipped<V, R>(g: Generator<V, R>, v: V, rows: nat, n: nat): V {
    if n == 0 then v else g.skip(Skipped(g, v, rows, n - 1), rows)
  }

  /** The last of the chunks takes the remainder too. */
  function ChunkLength(total: nat, procs: nat, s: nat): nat
    requires 1 <= s <= procs
  {
    if s == procs then total / procs + total % procs else total / procs
  }

  /** The rows that step `s` of `procs` produces. */
  function Chunk<V, R>(g: Generator<V, R>, v: V, total: nat, procs: nat, s: nat): seq<R>
    requires 1 <= s <= procs
  {
    var rows := total / procs;
    Rows(g, (s - 1) * rows + 1, ChunkLength(total, procs, s), Skipped(g, v, rows, s - 1))
  }

  function FirstChunks<V, R>(g: Generator<V, R>, v: V, total: nat, procs: nat, n: nat): seq<R>
    requires n <= procs
  {
    if n == 0 then [] else FirstChunks(g, v, total, procs, n - 1) + Chunk(g, v, total, procs, n)
  }

  // ---- Chunks put together are the serial rows.

  lemma {:induction false} RowsAgree<V(!new), R>(g: Generator<V, R>, start: int, count: nat, v: V, w: V)
    requires Lawful(g) && g.ok(v) && g.ok(w) && g.agree(v, w)
    ensures Rows(g, start, count, v) == Rows(g, start, count, w)
    decreases count
  {
    if count > 0 {
      RowsAgree(g, start, count - 1, v, w);
      assert AfterAgrees(g, v, w, count - 1);
      assert MakeAgrees(g, start + count - 1, g.after(v, count - 1), g.after(w, count - 1));
    }
  }

  lemma {:induction false} RowsSplit<V(!new), R>(g: Generator<V, R>, start: int, a: nat, b: nat, v: V)
    requires Lawful(g)
    ensures Rows(g, start, a + b, v) == Rows(g, start, a, v) + Rows(g, start + a, b, g.after(v, a))
    decreases b
  {
    if b > 0 {
      RowsSplit(g, start, a, b - 1, v);
      assert AfterAdds(g, v, a, b - 1);
    }
  }

  /** The rows of the first `n` chunks. */
  function Before(n: nat, rows: nat): nat { if n == 0 then 0 else Before(n - 1, rows) + rows }

  lemma {:induction false} BeforeIsProduct(n: nat, rows: nat)
    ensures Before(n, rows) == n * rows
    decreases n
  {
    if n > 0 { BeforeIsProduct(n - 1, rows); }
  }

  /** Skipping chunks leads where generating their rows leads. */
  lemma {:induction false} SkippedInStep<V(!new), R>(g: Generator<V, R>, v: V, rows: nat, n: nat)
    requires Lawful(g) && g.ok(v)
    ensures g.ok(Skipped(g, v, rows, n)) && g.ok(g.after(v, Before(n, rows)))
    ensures g.agree(Skipped(g, v, rows, n), g.after(v, Before(n, rows)))
    decreases n
  {
    if n == 0 {
      assert AfterNone(g, v);
    } else {
      var w, x := Skipped(g, v, rows, n - 1), g.after(v, Before(n - 1, rows));
      SkippedInStep(g, v, rows, n - 1);
      assert StaysOk(g, w, rows) && StaysOk(g, v, Before(n, rows));
      assert SkipAgrees(g, w, rows);
      assert AfterAgrees(g, w, x, rows);
      assert AgreeTrans(g, g.skip(w, rows), g.after(w, rows), g.after(x, rows));
      assert AfterAdds(g, v, Before(n - 1, rows), rows);
    }
  }

  /** A chunk continues the serial rows before it, whatever its length. */
  lemma {:induction false} NextChunk<V(!new), R>(g: Generator<V, R>, v: V, rows: nat, n: nat, len: nat)
    requires Lawful(g) && g.ok(v)
    ensures Rows(g, 1, Before(n, rows) + len, v)
         == Rows(g, 1, Before(n, rows), v) + Rows(g, Before(n, rows) + 1, len, Skipped(g, v, rows, n))
  {
    var k := Before(n, rows);
    RowsSplit(g, 1, k, len, v);
    SkippedInStep(g, v, rows, n);
    RowsAgree(g, k + 1, len, Skipped(g, v, rows, n), g.after(v, k));
  }

  /** The rows up to the end of chunk `n`. */
  function Through(total: nat, procs: nat, n: nat): nat
    requires n <= procs
  {
    if n == 0 then 0 else Before(n - 1, total / procs) + ChunkLength(total, procs, n)
  }

  lemma {:induction false} ThroughPrevious(total: nat, procs: nat, n: nat)
    requires 0 < n <= procs
    ensures Through(total, procs, n - 1) == Before(n - 1, total / procs) == (n - 1) * (total / procs)
  {
    BeforeIsProduct(n - 1, total / procs);
  }

  lemma {:induction false} FirstChunksAreSerial<V(!new), R>(g: Generator<V, R>, v: V, total: nat, procs: nat, n: nat)
    requires Lawful(g) && g.ok(v) && n <= procs
    ensures FirstChunks(g, v, total, procs, n) == Rows(g, 1, Through(total, procs, n), v)
    decreases n
  {
    hide Lawful, Rows, Skipped, Before, ChunkLength;
    if n == 0 {
      NoRows(g, v);
    } else {
      FirstChunksAreSerial(g, v, total, procs, n - 1);
      ThroughPrevious(total, procs, n);
      NextChunk(g, v, total / procs, n - 1, ChunkLength(total, procs, n));
    }
  }

  lemma {:induction false} NoRows<V(!new), R>(g: Generator<V, R>, v: V)
    ensures Rows(g, 1, 0, v) == []
  {
  }

  /** The chunks cover the table. */
  lemma {:induction false} ThroughAll(total: nat, procs: nat)
    requires procs > 0
    ensures Through(total, procs, procs) == total
  {
    BeforeIsProduct(procs, total / procs);
  }

  lemma {:induction false} ChunksAreSerial<V(!new), R>(g: Generator<V, R>, v: V, total: nat, procs: nat)
    requires Lawful(g) && g.ok(v) && procs > 0
    ensures FirstChunks(g, v, total, procs, procs) == Rows(g, 1, total, v)
  {
    hide Lawful, FirstChunks, Rows, Through;
    FirstChunksAreSerial(g, v, total, procs, procs);
    ThroughAll(total, procs);
  }

  // ---- Single rows, for any generator.

  lemma {:induction false} RowsAt<V, R>(g: Generator<V, R>, start: int, count: nat, v: V, k: nat)
    requires k < count
    ensures |Rows(g, start, count, v)| == count && Rows(g, start, count, v)[k] == g.make(start + k, g.after(v, k))
    decreases count
  {
    if count > 1 { RowsAt(g, start, count - 1, v, if k < count - 1 then k else 0); }
  }

  lemma {:induction false} RowsLength<V, R>(g: Generator<V, R>, start: int, count: nat, v: V)
    ensures |Rows(g, start, count, v)| == count
  {
    if count > 0 { RowsAt(g, start, count, v, 0); }
  }

  lemma {:induction false} ChunksExtend<V, R>(g: Generator<V, R>, v: V, total: nat, procs: nat, n: nat, m: nat)
    requires n <= m <= procs
    ensures FirstChunks(g, v, total, procs, n) <= FirstChunks(g, v, total, procs, m)
    decreases m - n
  {
    hide Chunk;
    if n < m { ChunksExtend(g, v, total, procs, n, m - 1); }
  }

  /** The first row of the second chunk, in its place among all the chunks. */
  lemma {:induction false} SecondChunkRow<V, R>(g: Generator<V, R>, v: V, total: nat, procs: nat)
    requires 2 <= procs <= total
    ensures var rows, all := total / procs, FirstChunks(g, v, total, procs, procs);
            0 < rows < |all| && all[rows] == g.make(rows + 1, g.after(g.skip(v, rows), 0))
  {
    var rows := total / procs;
    AtLeastOne(total, procs);
    var one, two := Chunk(g, v, total, procs, 1), Chunk(g, v, total, procs, 2);
    RowsLength(g, 1, rows, v);
    RowsAt(g, rows + 1, ChunkLength(total, procs, 2), Skipped(g, v, rows, 1), 0);
    assert FirstChunks(g, v, total, procs, 1) == [] + one;
    assert FirstChunks(g, v, total, procs, 2) == one + two;
    ChunksExtend(g, v, total, procs, 2, procs);
  }

  lemma {:induction false} AtLeastOne(total: nat, procs: nat)
    requires 1 <= procs <= total
    ensures 1 <= total / procs <= total
  {
  }

  /** One chunk, or more chunks than rows: all rows come from the untouched streams. */
  lemma {:induction false} NothingSkipped<V, R>(g: Generator<V, R>, v: V, total: nat, procs: nat, n: nat)
    requires n <= procs && procs > 0 && (procs == 1 || procs > total) && g.skip(v, 0) == v
    ensures FirstChunks(g, v, total, procs, n) == if n == procs then Rows(g, 1, total, v) else []
    decreases n
  {
    SmallQuotient(total, procs);
    if n > 0 {
      NothingSkipped(g, v, total, procs, n - 1);
      SkipsNothing(g, v, n - 1);
    }
  }

  lemma {:induction false} SmallQuotient(total: nat, procs: nat)
    requires procs == 1 || procs > total
    ensures procs > total ==> total / procs == 0 && total % procs == total
    ensures procs == 1 ==> total / procs == total && total % procs == 0
  {
  }

  lemma {:induction false} SkipsNothing<V, R>(g: Generator<V, R>, v: V, n: nat)
    requires g.skip(v, 0) == v
    ensures Skipped(g, v, 0, n) == v
    decreases n
  {
    if n > 0 { SkipsNothing(g, v, n - 1); }
  }

  // ---- Rows as images of the places they are made at.

  /** The generator that only tells at which number and streams each row is made. */
  function Places<V, R>(g: Generator<V, R>): Generator<V, (int, V)> {
    Generator((i: int, v: V) => (i, v), g.after, g.skip, g.ok, g.agree)
  }

  function Image<V, R>(make: (int, V) -> R, places: seq<(int, V)>): seq<R> {
    seq(|places|, k requires 0 <= k < |places| => make(places[k].0, places[k].1))
  }

  lemma {:induction false} ImageAppend<V, R>(make: (int, V) -> R, a: seq<(int, V)>, b: seq<(int, V)>)
    ensures Image(make, a + b) == Image(make, a) + Image(make, b)
  {
  }

  lemma {:induction false} RowsAreImages<V, R>(g: Generator<V, R>, start: int, count: nat, v: V)
    ensures Rows(g, start, count, v) == Image(g.make, Rows(Places(g), start, count, v))
    decreases count
  {
    if count > 0 {
      RowsAreImages(g, start, count - 1, v);
      var place := (start + count - 1, g.after(v, count - 1));
      ImageAppend(g.make, Rows(Places(g), start, count - 1, v), [place]);
      assert Image(g.make, [place]) == [g.make(place.0, place.1)];
    }
  }

  lemma {:induction false} SkippedSame<V, R>(g: Generator<V, R>, v: V, rows: nat, n: nat)
    ensures Skipped(g, v, rows, n) == Skipped(Places(g), v, rows, n)
    decreases n
  {
    if n > 0 { SkippedSame(g, v, rows, n - 1); }
  }

  lemma {:induction false} ChunksAreImages<V, R>(g: Generator<V, R>, v: V, total: nat, procs: nat, n: nat)
    requires n <= procs
    ensures FirstChunks(g, v, total, procs, n) == Image(g.make, FirstChunks(Places(g), v, total, procs, n))
    decreases n
  {
    hide Rows, Skipped, Image;
    if n == 0 {
      NoImage(g.make);
    } else {
      ChunksAreImages(g, v, total, procs, n - 1);
      SkippedSame(g, v, total / procs, n - 1);
      var rows := total / procs;
      RowsAreImages(g, (n - 1) * rows + 1, ChunkLength(total, procs, n), Skipped(g, v, rows, n - 1));
      ImageAppend(g.make, FirstChunks(Places(g), v, total, procs, n - 1), Chunk(Places(g), v, total, procs, n));
    }
  }

  lemma {:induction false} NoImage<V, R>(make: (int, V) -> R)
    ensures Image(make, []) == []
  {
  }
}
