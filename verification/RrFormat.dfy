/** The byte format that the recorder, the replayer and the desenitizer share. */
module RrFormat {
  import opened Octets

  type Int32 = x: int | -0x8000_0000 <= x < 0x8000_0000

  const ENC_LENGTH := 32 // ENC_INT32_LENGTH, ENC_FLOAT4_LENGTH
  const ENC_TIMESTAMP_LENGTH := 36
  const ENCSTR_MAX := 292 // sizeof(EncStr)
  const BULK_SIZE := 256

  // ---- Integers: four bytes, little endian, two's complement.

  function IntBytes(x: Int32): (b: Bytes)
    ensures |b| == 4
  {
    var u := if x < 0 then x + 0x1_0000_0000 else x;
    [u % 256, u / 256 % 256, u / 256 / 256 % 256, u / 256 / 256 / 256]
  }

  function IntOf(b: Bytes): Int32
    requires |b| == 4
  {
    var u: int := b[0] as int + 256 * (b[1] as int) + 65536 * (b[2] as int) + 16777216 * (b[3] as int);
    if u >= 0x8000_0000 then u - 0x1_0000_0000 else u
  }

  lemma {:induction false} IntRoundTrip(x: Int32)
    ensures IntOf(IntBytes(x)) == x
  {
    var u := if x < 0 then x + 0x1_0000_0000 else x;
    var q := u / 256;
    var r := q / 256;
    assert u == 256 * q + u % 256 && q == 256 * r + q % 256 && r == 256 * (r / 256) + r % 256;
  }

  /** Least significant byte first; a negative number is read modulo 2^32. */
  lemma {:induction false} IntBytesIs(x: Int32)
    ensures var b := IntBytes(x);
            b[0] as int + 0x100 * (b[1] as int) + 0x1_0000 * (b[2] as int) + 0x100_0000 * (b[3] as int) ==
            if x < 0 then 0x1_0000_0000 + x else x
  {
    var u := if x < 0 then x + 0x1_0000_0000 else x;
    var q := u / 256;
    var r := q / 256;
    assert u == 256 * q + u % 256 && q == 256 * r + q % 256 && r == 256 * (r / 256) + r % 256;
  }

  // ---- Requests.

  /** A request buffer with operands and, once answered, results. */
  datatype Request =
    | Cmp(op: Int32, left: Bytes, right: Bytes, cmp: Int32)
    | Calc(op: Int32, left: Bytes, right: Bytes, res: Bytes)
    | Bulk(op: Int32, items: seq<Bytes>, res: Bytes)
    | StrCmp(op: Int32, left: Bytes, right: Bytes, cmp: Int32)
    | Substring(str: Bytes, start: Bytes, length: Bytes, res: Bytes)
    | Concat(left: Bytes, right: Bytes, res: Bytes)
    | Year(input: Bytes, res: Bytes)
    | EncDec(op: Int32)

  /** `reqType` */
  function OpOf(r: Request): Int32 {
    match r
    case Substring(_, _, _, _) => 44
    case Concat(_, _, _) => 45
    case Year(_, _) => 53
    case _ => r.op
  }

  predicate IsCalc(op: int) { 1 <= op <= 4 || 8 <= op <= 9 || 21 <= op <= 24 || 28 <= op <= 29 }
  predicate IsEncDec(op: int) { op in {6, 7, 26, 27, 42, 43, 51, 52} }

  function CmpLength(op: int): nat { if op == 50 then ENC_TIMESTAMP_LENGTH else ENC_LENGTH }

  /** An `EncStr` up to its length: an order word, a length word and that many bytes. */
  predicate IsStr(b: Bytes) { 8 <= |b| <= ENCSTR_MAX && IntOf(b[4..8]) == |b| - 8 }

  predicate AllSized(items: seq<Bytes>, n: nat) { forall i :: 0 <= i < |items| ==> |items[i]| == n }

  /** The operands have the sizes of their types and the layout is the operation's. */
  predicate Asking(r: Request) {
    match r
    case Cmp(op, l, rt, _) => op in {5, 25, 50} && |l| == |rt| == CmpLength(op)
    case Calc(op, l, rt, _) => IsCalc(op) && |l| == |rt| == ENC_LENGTH
    case Bulk(op, items, _) => op in {10, 30} && |items| <= BULK_SIZE && AllSized(items, ENC_LENGTH)
    case StrCmp(op, l, rt, _) => op in {41, 46} && IsStr(l) && IsStr(rt)
    case Substring(s, st, ln, _) => IsStr(s) && |st| == |ln| == ENC_LENGTH
    case Concat(l, rt, _) => IsStr(l) && IsStr(rt)
    case Year(i, _) => |i| == ENC_TIMESTAMP_LENGTH
    case EncDec(op) => IsEncDec(op)
  }

  /** The buffers the operations build: the results have the sizes of their types too. */
  predicate WellFormed(r: Request) {
    && Asking(r)
    && match r
       case Cmp(_, _, _, _) | StrCmp(_, _, _, _) | EncDec(_) => true
       case Calc(_, _, _, res) => |res| == ENC_LENGTH
       case Bulk(_, _, res) => |res| == ENC_LENGTH
       case Substring(_, _, _, res) => IsStr(res)
       case Concat(_, _, res) => IsStr(res)
       case Year(_, res) => |res| == ENC_LENGTH
  }

  /** The request without results. */
  function Operands(r: Request): Request {
    match r
    case Cmp(op, l, rt, _) => Cmp(op, l, rt, 0)
    case Calc(op, l, rt, _) => Calc(op, l, rt, [])
    case Bulk(op, items, _) => Bulk(op, items, [])
    case StrCmp(op, l, rt, _) => StrCmp(op, l, rt, 0)
    case Substring(s, st, ln, _) => Substring(s, st, ln, [])
    case Concat(l, rt, _) => Concat(l, rt, [])
    case Year(i, _) => Year(i, [])
    case EncDec(op) => EncDec(op)
  }

  // ---- Entries of the log.

  datatype Entry = Entry(req: Request, resp: Int32, stamp: Bytes)

  predicate Recordable(e: Entry) { WellFormed(e.req) && !e.req.EncDec? && |e.stamp| == 8 }

  /** The pieces of an entry's first part after the operation. */
  function Pieces(e: Entry): seq<Bytes>
    requires Recordable(e)
  {
    var resp, stamp := IntBytes(e.resp), e.stamp;
    match e.req
    case Cmp(_, l, r, c) => [l, r, IntBytes(c), resp, stamp]
    case Calc(_, l, r, res) => [l, r, res, resp, stamp]
    case Bulk(_, items, res) => [IntBytes(|items|), res, resp, stamp]
    case StrCmp(_, l, r, c) => [IntBytes(|l|), IntBytes(|r|), l, r, IntBytes(c), resp, stamp]
    case Substring(s, st, ln, res) => [IntBytes(|s|), IntBytes(|res|), s, st, ln, res, resp, stamp]
    case Concat(l, r, res) => [IntBytes(|l|), IntBytes(|r|), IntBytes(|res|), l, r, res, resp, stamp]
    case Year(i, res) => [i, res, resp, stamp]
  }

  /** The second part, which only bulk sums have. */
  function Items(e: Entry): seq<Bytes> { if e.req.Bulk? then e.req.items else [] }

  /** The pieces put together. */
  function Flat(parts: seq<Bytes>): Bytes {
    if parts == [] then [] else parts[0] + Flat(parts[1..])
  }

  function Encode(e: Entry): Bytes
    requires Recordable(e)
  {
    IntBytes(OpOf(e.req)) + Flat(Pieces(e)) + Flat(Items(e))
  }

  function Zeros(n: nat): Bytes { seq(n, _ => 0) }

  /** An encrypted string of this size. */
  function Str(n: nat): (b: Bytes)
    requires 8 <= n <= ENCSTR_MAX
    ensures |b| == n && IsStr(b)
  {
    IntRoundTrip(n - 8);
    var b := Zeros(4) + IntBytes(n - 8) + Zeros(n - 8);
    assert b[4..8] == IntBytes(n - 8);
    b
  }

  // ---- The operations and the bytes of their entries.

  /** The operations there are, and the layout of each. */
  lemma {:induction false} LayoutOf(r: Request)
    requires WellFormed(r)
    ensures r.Cmp? <==> OpOf(r) in {5, 25, 50}
    ensures r.Calc? <==> OpOf(r) in {1, 2, 3, 4, 8, 9, 21, 22, 23, 24, 28, 29}
    ensures r.Bulk? <==> OpOf(r) in {10, 30}
    ensures r.StrCmp? <==> OpOf(r) in {41, 46}
    ensures r.Substring? <==> OpOf(r) == 44
    ensures r.Concat? <==> OpOf(r) == 45
    ensures r.Year? <==> OpOf(r) == 53
    ensures r.EncDec? <==> OpOf(r) in {6, 7, 26, 27, 42, 43, 51, 52}
  {
  }

  lemma {:induction false} EveryOp(op: Int32)
    requires 1 <= op <= 10 || 21 <= op <= 30 || 41 <= op <= 46 || 50 <= op <= 53
    ensures exists r :: WellFormed(r) && OpOf(r) == op
  {
    var enc, str, time := Zeros(32), Str(8), Zeros(36);
    var r :=
      if op in {5, 25} then Cmp(op, enc, enc, 0) else if op == 50 then Cmp(op, time, time, 0)
      else if op in {10, 30} then Bulk(op, [], enc) else if op in {41, 46} then StrCmp(op, str, str, 0)
      else if op == 44 then Substring(str, enc, enc, str) else if op == 45 then Concat(str, str, str)
      else if op == 53 then Year(time, enc) else if IsEncDec(op) then EncDec(op) else Calc(op, enc, enc, enc);
    assert WellFormed(r) && OpOf(r) == op;
  }

  /** What `record` leaves in the file for each layout. */
  lemma {:induction false} EntryBytes(e: Entry)
    requires Recordable(e)
    ensures Encode(e) == IntBytes(OpOf(e.req)) +
            (match e.req
             case Cmp(_, l, r, c) => l + r + IntBytes(c) + IntBytes(e.resp) + e.stamp
             case Calc(_, l, r, res) => l + r + res + IntBytes(e.resp) + e.stamp
             case Bulk(_, items, res) => IntBytes(|items|) + res + IntBytes(e.resp) + e.stamp + Flat(items)
             case StrCmp(_, l, r, c) =>
               IntBytes(|l|) + IntBytes(|r|) + l + r + IntBytes(c) + IntBytes(e.resp) + e.stamp
             case Substring(s, st, ln, res) =>
               IntBytes(|s|) + IntBytes(|res|) + s + st + ln + res + IntBytes(e.resp) + e.stamp
             case Concat(l, r, res) =>
               IntBytes(|l|) + IntBytes(|r|) + IntBytes(|res|) + l + r + res + IntBytes(e.resp) + e.stamp
             case Year(i, res) => i + res + IntBytes(e.resp) + e.stamp
             case EncDec(_) => [])
  {
    hide Flat, IntBytes, IntOf;
    var resp, stamp := IntBytes(e.resp), e.stamp;
    FlatNothing();
    match e.req
    case Cmp(_, l, r, c) => FlatFive([l, r, IntBytes(c), resp, stamp]);
    case Calc(_, l, r, res) => FlatFive([l, r, res, resp, stamp]);
    case Bulk(_, items, res) => FlatFour([IntBytes(|items|), res, resp, stamp]);
    case StrCmp(_, l, r, c) => FlatSeven([IntBytes(|l|), IntBytes(|r|), l, r, IntBytes(c), resp, stamp]);
    case Substring(s, st, ln, res) => FlatEight([IntBytes(|s|), IntBytes(|res|), s, st, ln, res, resp, stamp]);
    case Concat(l, r, res) => FlatEight([IntBytes(|l|), IntBytes(|r|), IntBytes(|res|), l, r, res, resp, stamp]);
    case Year(i, res) => FlatFour([i, res, resp, stamp]);
  }

  lemma {:induction false} FlatNothing()
    ensures Flat([]) == []
  {
  }

  lemma {:induction false} FlatFour(p: seq<Bytes>)
    requires |p| == 4
    ensures Flat(p) == p[0] + p[1] + p[2] + p[3]
  {
    var q := p[1..];
    var r := q[1..];
    assert r[1..] == [p[3]];
    FlatOne(p[3]);
    assert Flat(r) == p[2] + p[3] && Flat(q) == p[1] + Flat(r);
  }

  lemma {:induction false} FlatFive(p: seq<Bytes>)
    requires |p| == 5
    ensures Flat(p) == p[0] + p[1] + p[2] + p[3] + p[4]
  {
    FlatFour(p[1..]);
  }

  lemma {:induction false} FlatSeven(p: seq<Bytes>)
    requires |p| == 7
    ensures Flat(p) == p[0] + p[1] + p[2] + p[3] + p[4] + p[5] + p[6]
  {
    var q := p[1..];
    FlatFive(q[1..]);
    assert Flat(q) == q[0] + Flat(q[1..]);
  }

  lemma {:induction false} FlatEight(p: seq<Bytes>)
    requires |p| == 8
    ensures Flat(p) == p[0] + p[1] + p[2] + p[3] + p[4] + p[5] + p[6] + p[7]
  {
    FlatSeven(p[1..]);
  }

  // ---- Pieces and their sizes.

  predicate SameSizes(a: seq<Bytes>, b: seq<Bytes>) { |a| == |b| && forall i :: 0 <= i < |a| ==> |a[i]| == |b[i]| }

  lemma {:induction false} FlatAppend(a: seq<Bytes>, b: seq<Bytes>)
    ensures Flat(a + b) == Flat(a) + Flat(b)
    decreases a
  {
    if a == [] {
      assert a + b == b;
    } else {
      assert (a + b)[1..] == a[1..] + b;
      FlatAppend(a[1..], b);
    }
  }

  /** Sizes and bytes together determine the pieces. */
  lemma {:induction false} PiecesUnique(a: seq<Bytes>, b: seq<Bytes>)
    requires SameSizes(a, b) && Flat(a) == Flat(b)
    ensures a == b
    decreases a
  {
    if a != [] {
      var n := |a[0]|;
      assert a[0] == Flat(a)[..n] == Flat(b)[..n] == b[0];
      assert Flat(a[1..]) == Flat(a)[n..] == Flat(b)[n..] == Flat(b[1..]);
      PiecesUnique(a[1..], b[1..]);
      assert a == [a[0]] + a[1..] && b == [b[0]] + b[1..];
    }
  }

  lemma {:induction false} SizesFlat(a: seq<Bytes>, b: seq<Bytes>)
    requires SameSizes(a, b)
    ensures |Flat(a)| == |Flat(b)|
    decreases a
  {
    if a != [] { SizesFlat(a[1..], b[1..]); }
  }

  lemma {:induction false} ItemsLength(items: seq<Bytes>, n: nat)
    requires AllSized(items, n)
    ensures |Flat(items)| == |items| * n
    decreases items
  {
    if items != [] {
      ItemsLength(items[1..], n);
      assert (|items| - 1) * n + n == |items| * n;
    }
  }

  lemma {:induction false} FlatOne(b: Bytes)
    ensures Flat([b]) == b
  {
    assert [b][1..] == [];
  }

  /** One more piece. */
  lemma {:induction false} FlatNext(parts: seq<Bytes>, k: nat)
    requires k < |parts|
    ensures Flat(parts[..k + 1]) == Flat(parts[..k]) + parts[k]
    ensures |Flat(parts[..k + 1])| <= |Flat(parts)|
  {
    assert parts[..k + 1] == parts[..k] + [parts[k]];
    FlatAppend(parts[..k], [parts[k]]);
    FlatOne(parts[k]);
    assert parts == parts[..k + 1] + parts[k + 1..];
    FlatAppend(parts[..k + 1], parts[k + 1..]);
  }

  lemma {:induction false} Flat4(a: Bytes, b: Bytes, c: Bytes, d: Bytes)
    ensures |Flat([a, b, c, d])| == |a| + |b| + |c| + |d|
  {
    assert [a, b, c, d][1..] == [b, c, d] && [b, c, d][1..] == [c, d] && [c, d][1..] == [d];
    FlatOne(d);
    assert Flat([b, c, d]) == b + Flat([c, d]) == b + (c + d);
  }

  lemma {:induction false} Flat5(a: Bytes, b: Bytes, c: Bytes, d: Bytes, e: Bytes)
    ensures |Flat([a, b, c, d, e])| == |a| + |b| + |c| + |d| + |e|
  {
    assert [a, b, c, d, e][1..] == [b, c, d, e];
    Flat4(b, c, d, e);
  }

  lemma {:induction false} Flat6(a: Bytes, b: Bytes, c: Bytes, d: Bytes, e: Bytes, f: Bytes)
    ensures |Flat([a, b, c, d, e, f])| == |a| + |b| + |c| + |d| + |e| + |f|
  {
    assert [a, b, c, d, e, f][1..] == [b, c, d, e, f];
    Flat5(b, c, d, e, f);
  }

  lemma {:induction false} Flat7(a: Bytes, b: Bytes, c: Bytes, d: Bytes, e: Bytes, f: Bytes, g: Bytes)
    ensures |Flat([a, b, c, d, e, f, g])| == |a| + |b| + |c| + |d| + |e| + |f| + |g|
  {
    assert [a, b, c, d, e, f, g][1..] == [b, c, d, e, f, g];
    Flat6(b, c, d, e, f, g);
  }

  lemma {:induction false} Flat8(a: Bytes, b: Bytes, c: Bytes, d: Bytes, e: Bytes, f: Bytes, g: Bytes, h: Bytes)
    ensures |Flat([a, b, c, d, e, f, g, h])| == |a| + |b| + |c| + |d| + |e| + |f| + |g| + |h|
  {
    assert [a, b, c, d, e, f, g, h][1..] == [b, c, d, e, f, g, h];
    Flat7(b, c, d, e, f, g, h);
  }

  /** The bytes of an entry's first part after the operation. */
  function PartLength(r: Request): nat {
    match r
    case Cmp(op, _, _, _) => 4 * 2 + CmpLength(op) * 2 + 8
    case Calc(_, _, _, _) => 4 + ENC_LENGTH * 3 + 8
    case Bulk(_, _, _) => 4 * 2 + ENC_LENGTH + 8
    case StrCmp(_, l, rt, _) => 4 * 4 + |l| + |rt| + 8
    case Substring(s, _, _, res) => 4 * 3 + |s| + |res| + 2 * ENC_LENGTH + 8
    case Concat(l, rt, res) => 4 * 4 + |l| + |rt| + |res| + 8
    case Year(_, _) => 4 + ENC_TIMESTAMP_LENGTH + ENC_LENGTH + 8
    case EncDec(_) => 0
  }

  lemma {:induction false} PiecesLength(e: Entry)
    requires Recordable(e)
    ensures |Flat(Pieces(e))| == PartLength(e.req)
  {
    hide Flat, IntOf;
    var resp, stamp := IntBytes(e.resp), e.stamp;
    match e.req
    case Cmp(_, l, r, c) => Flat5(l, r, IntBytes(c), resp, stamp);
    case Calc(_, l, r, res) => Flat5(l, r, res, resp, stamp);
    case Bulk(_, items, res) => Flat4(IntBytes(|items|), res, resp, stamp);
    case StrCmp(_, l, r, c) => Flat7(IntBytes(|l|), IntBytes(|r|), l, r, IntBytes(c), resp, stamp);
    case Substring(s, st, ln, res) => Flat8(IntBytes(|s|), IntBytes(|res|), s, st, ln, res, resp, stamp);
    case Concat(l, r, res) => Flat8(IntBytes(|l|), IntBytes(|r|), IntBytes(|res|), l, r, res, resp, stamp);
    case Year(i, res) => Flat4(i, res, resp, stamp);
  }
}
