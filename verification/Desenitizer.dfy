/** The desenitizer's reader: a second, separately written reader of the same log. */
module Desenitizer {
  import opened ModArith
  import opened Octets
  import opened RrFormat
  import opened RrRecord
  import opened RrReplay
  import opened RrRoundTrip

  /** What one call ends with: a request, -1, -2, `exit(0)`, or a size no buffer has. */
  datatype Status = Got | Eof | NoNewOps | Exited | Overflow

  const BUFFER := 8240 // sizeof(EncIntBulkRequestData)

  /** One `fread` into the buffer. If `x` comes next in the file and is what was asked for,
      it is what arrives. */
  method ReadBlock(f: File, n: int, junk: Junk, ghost x: Bytes) returns (ok: bool, buf: Bytes)
    requires f.Valid()
    modifies f
    ensures f.Valid() && (ok <==> 0 <= n <= BUFFER) && (ok ==> |buf| == n) && old(f.cursor) <= f.cursor
    ensures ok && n == |x| && x <= old(f.Rest()) ==>
      buf == x && f.Rest() == old(f.Rest())[|x|..] && f.cursor == old(f.cursor) + |x|
  {
    if n < 0 || n > BUFFER { return false, []; }
    var b, got := f.Fread(Blank(n, junk));
    return true, b;
  }

  /** The first pieces, cut from the buffer at their offsets. */
  lemma {:induction false} FirstTwo(p: seq<Bytes>)
    requires |p| >= 2
    ensures |p[0]| + |p[1]| <= |Flat(p)|
    ensures Flat(p)[..|p[0]|] == p[0] && Flat(p)[|p[0]|..|p[0]| + |p[1]|] == p[1]
  {
    assert Flat(p) == p[0] + (p[1] + Flat(p[1..][1..]));
  }

  /** Comparisons and arithmetic of fixed size: two operands in front of `n` bytes. */
  method RetrievePair(f: File, size: nat, n: nat, junk: Junk, ghost e: Entry) returns (left: Bytes, right: Bytes)
    requires f.Valid() && 2 * size <= n <= BUFFER
    modifies f
    ensures f.Valid() && old(f.cursor) <= f.cursor
    ensures Next(old(f.Rest()), e, OpOf(e.req)) && (e.req.Cmp? || e.req.Calc?)
            && |e.req.left| == size && PartLength(e.req) == n ==>
      left == e.req.left && right == e.req.right && f.cursor == old(f.cursor) + n
  {
    hide Flat, IntBytes, IntOf;
    ghost var good := Next(f.Rest(), e, OpOf(e.req)) && (e.req.Cmp? || e.req.Calc?)
                      && |e.req.left| == size && PartLength(e.req) == n;
    if good {
      PiecesLength(e);
      FirstTwo(Pieces(e));
    }
    var ok, buf := ReadBlock(f, n, junk, if good then Flat(Pieces(e)) else []);
    left, right := buf[..size], buf[size..size + size];
  }

  method RetrieveYear(f: File, junk: Junk, ghost e: Entry) returns (input: Bytes)
    requires f.Valid()
    modifies f
    ensures f.Valid() && old(f.cursor) <= f.cursor
    ensures Next(old(f.Rest()), e, OpOf(e.req)) && e.req.Year? ==>
      input == e.req.input && f.cursor == old(f.cursor) + |Flat(Pieces(e))|
  {
    hide Flat, IntBytes, IntOf;
    ghost var good := Next(f.Rest(), e, OpOf(e.req)) && e.req.Year?;
    if good {
      PiecesLength(e);
      FirstTwo(Pieces(e));
    }
    var ok, buf := ReadBlock(f, 4 + ENC_TIMESTAMP_LENGTH + ENC_LENGTH + 8, junk, if good then Flat(Pieces(e)) else []);
    input := buf[..ENC_TIMESTAMP_LENGTH];
  }

  /** The items, copied one by one from the buffer. */
  method RetrieveItems(f: File, count: int, junk: Junk, ghost recorded: seq<Bytes>)
    returns (ok: bool, items: seq<Bytes>)
    requires f.Valid()
    modifies f
    ensures f.Valid() && old(f.cursor) <= f.cursor && (ok <==> 0 <= count * ENC_LENGTH <= BUFFER)
    ensures ok && AllSized(recorded, ENC_LENGTH) && |recorded| == count && Flat(recorded) <= old(f.Rest()) ==>
      items == recorded && f.cursor == old(f.cursor) + |Flat(recorded)|
  {
    hide Flat;
    ghost var good := AllSized(recorded, ENC_LENGTH) && |recorded| == count && Flat(recorded) <= f.Rest();
    if good { ItemsLength(recorded, ENC_LENGTH); }
    var buf;
    ok, buf := ReadBlock(f, count * ENC_LENGTH, junk, if good then Flat(recorded) else []);
    items := [];
    if !ok { return; }
    var src := 0;
    for i := 0 to count
      modifies {}
      invariant src == i * ENC_LENGTH && |items| == i && (good ==> forall k :: 0 <= k < i ==> items[k] == recorded[k])
    {
      if good { ItemAt(recorded, ENC_LENGTH, i); }
      items := items + [buf[src..src + ENC_LENGTH]];
      src := src + ENC_LENGTH;
    }
  }

  method RetrieveBulk(f: File, op: Int32, junk: Junk, ghost e: Entry) returns (status: Status, req: Request)
    requires f.Valid()
    modifies f
    ensures f.Valid() && old(f.cursor) <= f.cursor && (status == Got || status == Overflow)
    ensures Next(old(f.Rest()), e, op) && e.req.Bulk? ==>
      status == Got && req == Operands(e.req) && f.cursor == old(f.cursor) + |Flat(Pieces(e))| + |Flat(Items(e))|
  {
    hide Flat, IntBytes, IntOf;
    ghost var good := Next(f.Rest(), e, op) && e.req.Bulk?;
    if good {
      PiecesLength(e);
      FirstTwo(Pieces(e));
      IntRoundTrip(|e.req.items|);
    }
    var ok, buf := ReadBlock(f, 4 * 2 + ENC_LENGTH + 8, junk, if good then Flat(Pieces(e)) else []);
    var bulkSize := IntOf(buf[..4]);
    var fits, items := RetrieveItems(f, bulkSize, junk, if good then Items(e) else []);
    if !fits { return Overflow, EncDec(op); }
    status, req := Got, Bulk(op, items, []);
  }

  method RetrieveStrCmp(f: File, op: Int32, junk: Junk, ghost e: Entry) returns (status: Status, req: Request)
    requires f.Valid()
    modifies f
    ensures f.Valid() && old(f.cursor) <= f.cursor && (status == Got || status == Overflow)
    ensures Next(old(f.Rest()), e, op) && e.req.StrCmp? ==>
      status == Got && req == Operands(e.req) && f.cursor == old(f.cursor) + |Flat(Pieces(e))|
  {
    hide Flat, IntBytes, IntOf;
    ghost var good := Next(f.Rest(), e, op) && e.req.StrCmp?;
    ghost var p, x, y := [], 0, 0;
    if good {
      FlatEmpty();
      PiecesLength(e);
      p, x, y := Pieces(e), |e.req.left|, |e.req.right|;
      Front(p, f.Rest());
    }
    var n := f.ReadInt(junk, x);
    if good { Front(p[1..], f.Rest()); }
    var m := f.ReadInt(junk, y);
    var left: int, right: int := n, m;
    if good { FirstTwo(p[1..][1..]); }
    var ok, buf := ReadBlock(f, left + right + 4 * 2 + 8, junk, if good then Flat(p[1..][1..]) else []);
    if !ok || left < 0 || right < 0 { return Overflow, EncDec(op); }
    status, req := Got, StrCmp(op, buf[..left], buf[left..left + right], 0);
  }

  method RetrieveConcatBody(f: File, left: int, right: int, res: int, junk: Junk, ghost e: Entry)
    returns (status: Status, req: Request)
    requires f.Valid()
    modifies f
    ensures f.Valid() && old(f.cursor) <= f.cursor && (status == Got || status == Overflow)
    ensures NextBody(old(f.Rest()), e, 3) && e.req.Concat?
            && left == |e.req.left| && right == |e.req.right| && res == |e.req.res| ==>
      status == Got && req == Operands(e.req) && f.cursor == old(f.cursor) + |Flat(Pieces(e)[3..])|
  {
    hide Flat, IntBytes, IntOf;
    ghost var good := NextBody(f.Rest(), e, 3) && e.req.Concat?
                      && left == |e.req.left| && right == |e.req.right| && res == |e.req.res|;
    if good {
      FirstTwo(Pieces(e)[3..]);
      Flat5(e.req.left, e.req.right, e.req.res, IntBytes(e.resp), e.stamp);
    }
    var ok, buf := ReadBlock(f, 4 + left + right + res + 8, junk, if good then Flat(Pieces(e)[3..]) else []);
    if !ok || left < 0 || right < 0 || res < 0 { return Overflow, EncDec(45); }
    status, req := Got, Concat(buf[..left], buf[left..left + right], []);
  }

  method RetrieveConcat(f: File, junk: Junk, ghost e: Entry) returns (status: Status, req: Request)
    requires f.Valid()
    modifies f
    ensures f.Valid() && old(f.cursor) <= f.cursor && (status == Got || status == Overflow)
    ensures Next(old(f.Rest()), e, 45) && e.req.Concat? ==>
      status == Got && req == Operands(e.req) && f.cursor == old(f.cursor) + |Flat(Pieces(e))|
  {
    hide Flat, IntBytes, IntOf, Operands;
    ghost var good := Next(f.Rest(), e, 45) && e.req.Concat?;
    ghost var p, x, y, z := [], 0, 0, 0;
    if good {
      FlatEmpty();
      p, x, y, z := Pieces(e), |e.req.left|, |e.req.right|, |e.req.res|;
      Front(p, f.Rest());
    }
    var n := f.ReadInt(junk, x);
    if good {
      Front(p[1..], f.Rest());
      assert p[1..][1..] == p[2..];
    }
    var m := f.ReadInt(junk, y);
    if good {
      Front(p[2..], f.Rest());
      assert p[2..][1..] == p[3..];
    }
    var k := f.ReadInt(junk, z);
    status, req := RetrieveConcatBody(f, n, m, k, junk, e);
  }

  method RetrieveSubstring(f: File, junk: Junk, ghost e: Entry) returns (status: Status, req: Request)
    requires f.Valid()
    modifies f
    ensures f.Valid() && old(f.cursor) <= f.cursor && (status == Got || status == Overflow)
    ensures Next(old(f.Rest()), e, 44) && e.req.Substring? ==>
      status == Got && req == Operands(e.req) && f.cursor == old(f.cursor) + |Flat(Pieces(e))|
  {
    hide Flat, IntBytes, IntOf;
    ghost var good := Next(f.Rest(), e, 44) && e.req.Substring?;
    ghost var p, x, y := [], 0, 0;
    if good {
      FlatEmpty();
      PiecesLength(e);
      p, x, y := Pieces(e), |e.req.str|, |e.req.res|;
      Front(p, f.Rest());
    }
    var n := f.ReadInt(junk, x);
    if good { Front(p[1..], f.Rest()); }
    var m := f.ReadInt(junk, y);
    var str: int, res: int := n, m;
    if good { FirstThree(p[1..][1..]); }
    var ok, buf := ReadBlock(f, str + res + 4 + ENC_LENGTH * 2 + 8, junk, if good then Flat(p[1..][1..]) else []);
    if !ok || str < 0 || res < 0 { return Overflow, EncDec(44); }
    var start := str + ENC_LENGTH;
    status, req := Got, Substring(buf[..str], buf[str..start], buf[start..start + ENC_LENGTH], []);
  }

  lemma {:induction false} FirstThree(p: seq<Bytes>)
    requires |p| >= 3
    ensures |p[0]| + |p[1]| + |p[2]| <= |Flat(p)| && Flat(p)[..|p[0]|] == p[0]
    ensures Flat(p)[|p[0]|..|p[0]| + |p[1]|] == p[1]
    ensures Flat(p)[|p[0]| + |p[1]|..|p[0]| + |p[1]| + |p[2]|] == p[2]
  {
    FirstTwo(p[1..]);
    var t := Flat(p[1..]);
    assert Flat(p) == p[0] + t;
    assert Flat(p)[|p[0]|..|p[0]| + |p[1]|] == t[..|p[1]|];
    assert Flat(p)[|p[0]| + |p[1]|..|p[0]| + |p[1]| + |p[2]|] == t[|p[1]|..|p[1]| + |p[2]|];
  }

  // ---- retrieve_request_from_file

  /** The bodies of the switch; whatever it does not know ends the program. */
  method RetrieveBody(f: File, op: Int32, junk: Junk, ghost e: Entry) returns (status: Status, req: Request)
    requires f.Valid()
    modifies f
    ensures f.Valid() && old(f.cursor) <= f.cursor && (status == Got || status == Exited || status == Overflow)
    ensures Next(old(f.Rest()), e, op) ==>
      status == Got && req == Operands(e.req) && f.cursor == old(f.cursor) + |Flat(Pieces(e))| + |Flat(Items(e))|
    ensures !KnownOp(op) ==> status == Exited
  {
    hide Flat, IntBytes, IntOf, Pieces, IsStr;
    ghost var good := Next(f.Rest(), e, op);
    FlatEmpty();
    if good { PiecesLength(e); }
    status, req := Got, EncDec(op);
    if op == 5 || op == 25 || op == 50 {
      var n := CmpLength(op);
      var left, right := RetrievePair(f, n, 4 * 2 + n * 2 + 8, junk, e);
      req := Cmp(op, left, right, 0);
    } else if op == 10 || op == 30 {
      status, req := RetrieveBulk(f, op, junk, e);
    } else if IsCalc(op) {
      var left, right := RetrievePair(f, ENC_LENGTH, 4 + ENC_LENGTH * 3 + 8, junk, e);
      req := Calc(op, left, right, []);
    } else if op == 41 || op == 46 {
      status, req := RetrieveStrCmp(f, op, junk, e);
    } else if op == 44 {
      status, req := RetrieveSubstring(f, junk, e);
    } else if op == 45 {
      status, req := RetrieveConcat(f, junk, e);
    } else if op == 53 {
      var input := RetrieveYear(f, junk, e);
      req := Year(input, []);
    } else {
      status := Exited;
    }
  }

  predicate KnownOp(op: int) { op in {5, 25, 50, 10, 30, 41, 46, 44, 45, 53} || IsCalc(op) }

  /** The operation word a short read leaves: the bytes there are, then uninitialised ones. */
  function OpWord(rest: Bytes, junk: Junk): Int32 {
    var n := if |rest| < 4 then |rest| else 4;
    IntOf(rest[..n] + Blank(4, junk)[n..])
  }

  method Retrieve(f: File, junk: Junk, ghost e: Entry) returns (status: Status, req: Request)
    requires f.Valid()
    modifies f
    ensures f.Valid() && old(f.cursor) <= f.cursor && (status != Eof ==> old(f.cursor) < f.cursor)
    ensures status == Eof <==> old(f.Rest()) == []
    ensures status == NoNewOps <==> old(f.Rest()) != [] && OpWord(old(f.Rest()), junk) == 0
    ensures old(f.Rest()) != [] && OpWord(old(f.Rest()), junk) != 0 && !KnownOp(OpWord(old(f.Rest()), junk)) ==>
      status == Exited
    ensures At(old(f.Rest()), e) ==> status == Got && req == Operands(e.req) && f.cursor == old(f.cursor) + |Encode(e)|
    ensures At(old(f.Rest()), e) ==> OpOf(req) == OpOf(e.req) && Matches(req, e.req)
    ensures At(old(f.Rest()), e) && e.req.StrCmp? ==> req.StrCmp? && req.left == e.req.left && req.right == e.req.right
  {
    hide Flat, IntBytes, IntOf, Pieces, Operands, WellFormed, Blank, KnownOp, Matches;
    OperandsKeep(e.req);
    ghost var rest := f.Rest();
    var b, bytes := f.Fread(Blank(4, junk));
    var op := IntOf(b);
    assert op == OpWord(rest, junk);
    req := EncDec(op);
    if At(rest, e) {
      AtNext(rest, e);
      KnownOps(e);
      assert b == IntBytes(OpOf(e.req));
      IntRoundTrip(OpOf(e.req));
    }
    if bytes < 1 { return Eof, req; }
    if op == 0 { return NoNewOps, req; }
    status, req := RetrieveBody(f, op, junk, e);
  }

  lemma {:induction false} KnownOps(e: Entry)
    requires Recordable(e)
    ensures KnownOp(OpOf(e.req)) && OpOf(e.req) != 0
  {
  }

  // ---- thread_entry: the whole log.

  /** The entries that a run leaves in its log. */
  function Recorded(run: seq<Entry>): (r: seq<Entry>)
    requires IsRun(run)
    ensures IsRun(r) && forall i :: 0 <= i < |r| ==> Recordable(r[i])
  {
    if run == [] then []
    else
      var e := run[|run| - 1];
      Recorded(run[..|run| - 1]) + (if e.req.EncDec? then [] else [e])
  }

  lemma {:induction false} TraceOfRecorded(run: seq<Entry>)
    requires IsRun(run)
    ensures Trace(Recorded(run)) == Trace(run)
    decreases run
  {
    hide Encode, WellFormed;
    if run != [] {
      var init, e := run[..|run| - 1], run[|run| - 1];
      TraceOfRecorded(init);
      if e.req.EncDec? {
        assert Recorded(run) == Recorded(init);
      } else {
        assert Recorded(run)[..|Recorded(init)|] == Recorded(init);
      }
    }
  }

  /** How reading ends at a tail of `t` zero bytes. */
  function TailStatus(t: nat, junk: Junk): Status {
    if t == 0 then Eof else if OpWord(Zeros(t), junk) == 0 then NoNewOps else Exited
  }

  lemma {:induction false} LowByte(w: Bytes)
    requires |w| == 4
    ensures IntOf(w) % 256 == w[0]
  {
    var k := w[1] as int + 256 * (w[2] as int) + 65536 * (w[3] as int);
    AddMultiple(w[0], if w[3] >= 128 then k - 16777216 else k, 256);
  }

  lemma {:induction false} TailWord(t: nat, junk: Junk)
    requires t > 0
    ensures OpWord(Zeros(t), junk) % 256 == 0 && (t >= 4 ==> OpWord(Zeros(t), junk) == 0)
  {
    var n := if t < 4 then t else 4;
    var w := Zeros(t)[..n] + Blank(4, junk)[n..];
    LowByte(w);
    if t >= 4 { assert w == [0, 0, 0, 0]; }
  }

  lemma {:induction false} HighByte(t: nat)
    requires 1 <= t <= 3
    ensures OpWord(Zeros(t), _ => 1) != 0
  {
    var b := Blank(4, _ => 1);
    assert b == [1, 1, 1, 1] by { FourOnes(); }
    assert (Zeros(t)[..t] + b[t..])[3] == 1;
  }

  lemma {:induction false} FourOnes()
    ensures Blank(4, _ => 1) == [1, 1, 1, 1]
  {
    var one: Junk := _ => 1;
    assert Blank(1, one) == [1] && Blank(2, one) == [1, 1] && Blank(3, one) == [1, 1, 1];
  }

  /** Reading stops at the tail, whatever the stack holds, unless 1 to 3 zero bytes are left. */
  lemma {:induction false} TailExactly(t: nat)
    ensures (forall junk: Junk :: TailStatus(t, junk) != Exited) <==> t == 0 || t >= 4
  {
    if 1 <= t <= 3 {
      HighByte(t);
      assert TailStatus(t, _ => 1) == Exited;
    } else {
      forall junk: Junk ensures TailStatus(t, junk) != Exited {
        if t >= 4 { TailWord(t, junk); }
      }
    }
  }

  /** The operands of the entries, in order. */
  function AllOperands(entries: seq<Entry>): seq<Request> {
    if entries == [] then [] else AllOperands(entries[..|entries| - 1]) + [Operands(entries[|entries| - 1].req)]
  }

  /** The log holds these entries and `t` zero bytes, and the cursor stands before entry `i`. */
  ghost predicate Reading(f: File, entries: seq<Entry>, t: nat, i: nat)
    reads f
  {
    && f.Valid() && IsRun(entries) && (forall k :: 0 <= k < |entries| ==> Recordable(entries[k])) && i <= |entries|
    && f.bytes == Trace(entries) + Zeros(t) && f.cursor == |Trace(entries[..i])|
  }

  lemma {:induction false} ReadingAt(f: File, entries: seq<Entry>, t: nat, i: nat)
    requires Reading(f, entries, t, i)
    ensures i < |entries| ==> At(f.Rest(), entries[i]) && |Trace(entries[..i + 1])| == f.cursor + |Encode(entries[i])|
    ensures i == |entries| ==> f.Rest() == Zeros(t)
  {
    hide Encode, WellFormed, Trace, Zeros;
    if i < |entries| {
      EntryAt(f.bytes, entries, i);
      TraceNext(entries, i);
    } else {
      assert entries[..i] == entries;
    }
  }

  method NextRequest(f: File, junk: Junk, ghost entries: seq<Entry>, ghost t: nat, ghost i: nat)
    returns (status: Status, req: Request)
    requires f.Valid()
    modifies f
    ensures f.Valid() && old(f.cursor) <= f.cursor && (status != Eof ==> old(f.cursor) < f.cursor)
    ensures old(Reading(f, entries, t, i)) && i < |entries| ==>
      status == Got && req == Operands(entries[i].req) && Reading(f, entries, t, i + 1)
    ensures old(Reading(f, entries, t, i)) && i == |entries| ==> status == TailStatus(t, junk)
  {
    hide Encode, WellFormed, Trace, OpWord, Operands;
    ghost var e := Entry(EncDec(0), 0, []);
    ghost var good := Reading(f, entries, t, i);
    if good {
      ReadingAt(f, entries, t, i);
      if i < |entries| { e := entries[i]; }
      else if t > 0 { TailWord(t, junk); NotKnown(OpWord(Zeros(t), junk)); }
    }
    status, req := Retrieve(f, junk, e);
  }

  lemma {:induction false} NotKnown(op: int)
    ensures op % 256 == 0 ==> !KnownOp(op)
  {
  }

  /** The loop. */
  method ReadAll(f: File, junk: Junk, ghost run: seq<Entry>, ghost t: nat) returns (reqs: seq<Request>, status: Status)
    requires f.Valid() && f.cursor == 0
    modifies f
    ensures status != Got
    ensures IsRun(run) && f.bytes == Trace(run) + Zeros(t) ==>
      reqs == AllOperands(Recorded(run)) && status == TailStatus(t, junk)
  {
    hide Trace, WellFormed, OpWord, Operands, Zeros;
    ghost var entries, i := [], 0;
    ghost var good := IsRun(run) && f.bytes == Trace(run) + Zeros(t);
    if good {
      TraceOfRecorded(run);
      TraceEmpty();
      entries := Recorded(run);
    }
    reqs, status := [], Got;
    while status == Got
      invariant f.Valid()
      invariant good && status == Got ==> Reading(f, entries, t, i) && reqs == AllOperands(entries[..i])
      invariant good && status != Got ==> reqs == AllOperands(entries) && status == TailStatus(t, junk)
      decreases status == Got, |f.bytes| - f.cursor
    {
      var req;
      status, req := NextRequest(f, junk, entries, t, i);
      if status == Got {
        reqs := reqs + [req];
        if good { OperandsNext(entries, i); }
        i := i + 1;
      }
      if good && i == |entries| { assert entries[..i] == entries; }
    }
  }

  /** Every recorded request is recovered once, in order, and reading stops at the tail. */
  method ReadLog(f: File, junk: Junk, ghost run: seq<Entry>, ghost t: nat) returns (reqs: seq<Request>, status: Status)
    requires f.Valid() && f.cursor == 0
    modifies f
    ensures status != Got
    ensures IsRun(run) && f.bytes == Trace(run) + Zeros(t) ==>
      && |reqs| == |Recorded(run)| && reqs == AllOperands(Recorded(run))
      && (forall i :: 0 <= i < |reqs| ==> var r := Recorded(run)[i].req;
            && OpOf(reqs[i]) == OpOf(r) && Matches(reqs[i], r)
            && (r.StrCmp? ==> reqs[i].StrCmp? && reqs[i].left == r.left && reqs[i].right == r.right))
      && status == TailStatus(t, junk) && (t == 0 ==> status == Eof) && (t >= 4 ==> status == NoNewOps)
  {
    hide Trace, WellFormed, OpWord, Operands, Zeros, Matches, AllOperands;
    reqs, status := ReadAll(f, junk, run, t);
    if IsRun(run) {
      AllOperandsKeep(Recorded(run));
      if t >= 4 { TailWord(t, junk); }
    }
  }

  lemma {:induction false} AllOperandsKeep(entries: seq<Entry>)
    requires forall i :: 0 <= i < |entries| ==> !entries[i].req.EncDec?
    ensures |AllOperands(entries)| == |entries|
    ensures forall i :: 0 <= i < |entries| ==> var q, r := AllOperands(entries)[i], entries[i].req;
              && OpOf(q) == OpOf(r) && Matches(q, r)
              && (r.StrCmp? ==> q.StrCmp? && q.left == r.left && q.right == r.right)
    decreases entries
  {
    hide Operands, Matches;
    if entries != [] {
      AllOperandsKeep(entries[..|entries| - 1]);
      OperandsKeep(entries[|entries| - 1].req);
    }
  }

  /** What a run leaves in the log is what it asked but encryptions and decryptions, in order. */
  lemma {:induction false} RecordedIs(run: seq<Entry>, e: Entry)
    requires IsRun(run) && IsRun(run + [e])
    ensures Recorded([]) == [] && Recorded(run + [e]) == Recorded(run) + (if e.req.EncDec? then [] else [e])
  {
    assert (run + [e])[..|run|] == run;
  }

  lemma {:induction false} OperandsNext(entries: seq<Entry>, i: nat)
    requires i < |entries|
    ensures AllOperands(entries[..i + 1]) == AllOperands(entries[..i]) + [Operands(entries[i].req)]
  {
    assert entries[..i + 1][..i] == entries[..i];
  }

  /** On any log the recorder writes. */
  method RecordAndRead(run: seq<Entry>, junk: Junk) returns (reqs: seq<Request>, status: Status)
    requires IsRun(run)
    ensures reqs == AllOperands(Recorded(run)) && status == TailStatus(Tail(run), junk)
    ensures |reqs| == |Recorded(run)| && forall i :: 0 <= i < |reqs| ==> var r := Recorded(run)[i].req;
              && OpOf(reqs[i]) == OpOf(r) && Matches(reqs[i], r)
              && (r.StrCmp? ==> reqs[i].StrCmp? && reqs[i].left == r.left && reqs[i].right == r.right)
  {
    hide Trace, WellFormed, TailStatus, AllOperands, Zeros, Tail;
    var log := RecordRun(run);
    var f := new File(log);
    reqs, status := ReadLog(f, junk, run, Tail(run));
  }

  /** The runs after which the reader stops cleanly, whatever the stack holds. */
  lemma {:induction false} StopsExactly(run: seq<Entry>)
    requires IsRun(run)
    ensures (forall junk: Junk :: TailStatus(Tail(run), junk) != Exited) <==>
            |Trace(run)| % 0x100_0000 <= 0x100_0000 - 4
  {
    hide Trace, WellFormed, TailStatus;
    TailExactly(Tail(run));
  }

  // ---- A run that leaves one byte.

  function Compare(n: nat, m: nat): (e: Entry)
    requires 8 <= n <= ENCSTR_MAX && 8 <= m <= ENCSTR_MAX
    ensures Recordable(e) && |Encode(e)| == 28 + n + m
  {
    var e := Entry(StrCmp(41, Str(n), Str(m), 0), 0, Zeros(8));
    PiecesLength(e);
    e
  }

  lemma {:induction false} RepeatTrace(e: Entry, n: nat)
    requires Recordable(e)
    ensures IsRun(seq(n, _ => e)) && |Trace(seq(n, _ => e))| == n * |Encode(e)|
    decreases n
  {
    hide Encode, WellFormed;
    if n > 0 {
      RepeatTrace(e, n - 1);
      assert seq(n, _ => e)[..n - 1] == seq(n - 1, _ => e);
    }
  }

  /** 27414 comparisons of strings fill all of the first chunk but its last byte: the reader
      takes three bytes from the stack and leaves with `exit(0)`. */
  lemma {:induction false} OneByteLeft() returns (run: seq<Entry>)
    ensures IsRun(run) && |run| == 27414 && Tail(run) == 1 && TailStatus(Tail(run), _ => 1) == Exited
  {
    hide Encode, WellFormed;
    var most := seq(27413, _ => Compare(292, 292));
    run := most + [Compare(292, 139)];
    RepeatTrace(Compare(292, 292), 27413);
    TraceNext(run, 27413);
    assert run[..27413] == most && run[..27414] == run;
    HighByte(1);
  }
}
