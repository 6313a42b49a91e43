/** The replayer: it answers requests from the log instead of asking the other zone. */
module RrReplay {
  import opened Octets
  import opened RrFormat
  import opened RrRecord

  /** Uninitialised memory. */
  type Junk = nat -> Byte

  /** A buffer nobody has written to. */
  function Blank(n: nat, junk: Junk): (b: Bytes)
    ensures |b| == n
  {
    if n == 0 then [] else Blank(n - 1, junk) + [junk(n - 1)]
  }

  class File {
    const bytes: Bytes
    var cursor: nat

    ghost predicate Valid()
      reads this
    {
      cursor <= |bytes|
    }

    /** What is left to read. */
    ghost function Rest(): Bytes
      requires Valid()
      reads this
    {
      bytes[cursor..]
    }

    /** `fopen` */
    constructor (content: Bytes)
      ensures Valid() && bytes == content && cursor == 0
    {
      bytes, cursor := content, 0;
    }

    /** `fread` overwrites only the bytes it got; near the end the buffer keeps the others. */
    method Fread(buffer: Bytes) returns (b: Bytes, got: nat)
      requires Valid()
      modifies this
      ensures Valid() && got <= |buffer| && got <= |old(Rest())| && (got == |buffer| || got == |old(Rest())|)
      ensures b == old(Rest())[..got] + buffer[got..] && Rest() == old(Rest())[got..] && cursor == old(cursor) + got
    {
      got := |buffer|;
      if cursor + got > |bytes| { got := |bytes| - cursor; }
      b := bytes[cursor..cursor + got] + buffer[got..];
      cursor := cursor + got;
    }

    method ReadInt(junk: Junk, ghost x: Int32) returns (r: Int32)
      requires Valid()
      modifies this
      ensures Valid() && old(cursor) <= cursor
      ensures IntBytes(x) <= old(Rest()) ==> r == x && Rest() == old(Rest())[4..] && cursor == old(cursor) + 4
    {
      hide IntBytes, IntOf;
      var b, got := Fread(Blank(4, junk));
      r := IntOf(b);
      if IntBytes(x) <= old(Rest()) {
        assert b == IntBytes(x);
        IntRoundTrip(x);
      }
    }

    /** A buffer of `total` bytes read at once and unpacked into pieces sized like `args`. If
        pieces `p` of those sizes come next in the file, it finds them. */
    method ReadParts(total: nat, args: seq<Bytes>, junk: Junk, ghost p: seq<Bytes>) returns (parts: seq<Bytes>)
      requires Valid() && args != [] && |Flat(args)| == total
      modifies this
      ensures Valid() && SameSizes(parts, args)
      ensures SameSizes(p, args) && Flat(p) <= old(Rest()) ==>
        parts == p && Rest() == old(Rest())[|Flat(p)|..] && cursor == old(cursor) + |Flat(p)|
    {
      hide Flat;
      var buf, got := Fread(Blank(total, junk));
      var _, q := Rrprintf(false, buf, args);
      parts := q;
      if SameSizes(p, args) && Flat(p) <= old(Rest()) {
        SizesFlat(p, args);
        assert buf == Flat(p);
        PiecesUnique(parts, p);
      }
    }
  }

  // ---- What replaying is to do.

  /** `return -RETRY_FAILED`, where the constant is itself negative. */
  const MISMATCH := 10086
  const NOT_REPLAY := -10087

  /** A returned code, an error raised to the database, or a length no C program can use. */
  datatype Reply = Ret(code: int) | Raised | Undefined

  /** The operands a request is compared by: for string comparisons only their sizes. */
  predicate Matches(a: Request, b: Request) {
    match (a, b)
    case (Cmp(_, l, r, _), Cmp(_, l', r', _)) => l == l' && r == r'
    case (Calc(_, l, r, _), Calc(_, l', r', _)) => l == l' && r == r'
    case (Bulk(_, items, _), Bulk(_, items', _)) => items == items'
    case (StrCmp(_, l, r, _), StrCmp(_, l', r', _)) => |l| == |l'| && |r| == |r'|
    case (Substring(s, st, ln, _), Substring(s', st', ln', _)) => s == s' && st == st' && ln == ln'
    case (Concat(l, r, _), Concat(l', r', _)) => l == l' && r == r'
    case (Year(i, _), Year(i', _)) => i == i'
    case _ => false
  }

  /** The request with the recorded results. */
  function Answered(a: Request, b: Request): Request {
    match (a, b)
    case (Cmp(op, l, r, _), Cmp(_, _, _, c)) => Cmp(op, l, r, c)
    case (Calc(op, l, r, _), Calc(_, _, _, res)) => Calc(op, l, r, res)
    case (Bulk(op, items, _), Bulk(_, _, res)) => Bulk(op, items, res)
    case (StrCmp(op, l, r, _), StrCmp(_, _, _, c)) => StrCmp(op, l, r, c)
    case (Substring(str, st, ln, _), Substring(_, _, _, res)) => Substring(str, st, ln, res)
    case (Concat(l, r, _), Concat(_, _, res)) => Concat(l, r, res)
    case (Year(i, _), Year(_, res)) => Year(i, res)
    case _ => a
  }

  /** Only the operands count, and an answer replaces the results. */
  lemma {:induction false} OperandsDecide(a: Request, b: Request, c: Request)
    requires Operands(a) == Operands(b)
    ensures (Asking(a) <==> Asking(b)) && (a.EncDec? <==> b.EncDec?) && OpOf(a) == OpOf(b)
    ensures Matches(a, c) <==> Matches(b, c)
    ensures Matches(a, c) ==> Answered(a, c) == Answered(b, c) && Operands(Answered(a, c)) == Operands(a)
  {
    hide IsStr, IsCalc, IsEncDec, AllSized, CmpLength;
  }

  /** What is compared: all bytes of all operands, or the sizes of the strings of a comparison. */
  lemma {:induction false} MatchesExactly(a: Request, b: Request)
    requires Asking(a) && Asking(b) && OpOf(a) == OpOf(b)
    ensures Matches(a, b) <==>
            match a
            case Cmp(_, l, r, _) => b.Cmp? && b.left == l && b.right == r
            case Calc(_, l, r, _) => b.Calc? && b.left == l && b.right == r
            case Bulk(_, items, _) => b.Bulk? && b.items == items
            case StrCmp(_, l, r, _) => b.StrCmp? && |b.left| == |l| && |b.right| == |r|
            case Substring(s, st, ln, _) => b.Substring? && b.str == s && b.start == st && b.length == ln
            case Concat(l, r, _) => b.Concat? && b.left == l && b.right == r
            case Year(i, _) => b.Year? && b.input == i
            case EncDec(_) => false
  {
    hide IsStr, IsCalc, IsEncDec, AllSized, CmpLength;
  }

  /** A request answered from the entry it matches is the recorded one; a string comparison keeps its
      own strings. */
  lemma {:induction false} AnsweredIs(a: Request, b: Request)
    requires Matches(a, b) && OpOf(a) == OpOf(b)
    ensures if a.StrCmp? then b.StrCmp? && Answered(a, b) == StrCmp(a.op, a.left, a.right, b.cmp)
            else Answered(a, b) == b
  {
  }

  /** A request without results asks what it asked. */
  lemma {:induction false} OperandsKeep(r: Request)
    ensures OpOf(Operands(r)) == OpOf(r) && (r.EncDec? || Matches(Operands(r), r))
    ensures r.StrCmp? ==> Operands(r).StrCmp? && Operands(r).left == r.left && Operands(r).right == r.right
  {
  }

  /** The entry's pieces come next, its operation having been read. */
  ghost predicate Next(rest: Bytes, e: Entry, op: Int32) {
    Recordable(e) && OpOf(e.req) == op && Flat(Pieces(e)) + Flat(Items(e)) <= rest
  }

  /** A matching request is answered as recorded and the cursor moves past the whole entry;
      any other one is turned down. */
  ghost predicate Right(req: Request, e: Entry, reply: Reply, out: Request, moved: int)
    requires Recordable(e)
  {
    if Matches(req, e.req)
    then reply == Ret(e.resp) && out == Answered(req, e.req) && moved == |Flat(Pieces(e))| + |Flat(Items(e))|
    else reply == Ret(MISMATCH) && out == req
  }

  /** The same when the first `k` pieces have been read too. */
  ghost predicate NextBody(rest: Bytes, e: Entry, k: nat) {
    Recordable(e) && k <= |Pieces(e)| && Flat(Pieces(e)[k..]) <= rest
  }

  ghost predicate RightBody(req: Request, e: Entry, k: nat, reply: Reply, out: Request, moved: int)
    requires Recordable(e) && k <= |Pieces(e)|
  {
    if Matches(req, e.req)
    then reply == Ret(e.resp) && out == Answered(req, e.req) && moved == |Flat(Pieces(e)[k..])|
    else reply == Ret(MISMATCH) && out == req
  }

  lemma {:induction false} SameShape(a: Request, b: Request)
    requires Asking(a) && Asking(b) && OpOf(a) == OpOf(b)
    ensures (a.Cmp? <==> b.Cmp?) && (a.Calc? <==> b.Calc?) && (a.Bulk? <==> b.Bulk?) && (a.StrCmp? <==> b.StrCmp?)
    ensures (a.Substring? <==> b.Substring?) && (a.Concat? <==> b.Concat?) && (a.Year? <==> b.Year?)
  {
  }

  // ---- replayer.cpp, one method per layout.

  method ReplayCmp(f: File, req: Request, junk: Junk, ghost e: Entry) returns (reply: Reply, out: Request)
    requires f.Valid() && Asking(req) && req.Cmp?
    modifies f
    ensures f.Valid() && Operands(out) == Operands(req)
    ensures Next(old(f.Rest()), e, OpOf(req)) ==> Right(req, e, reply, out, f.cursor - old(f.cursor))
  {
    hide Flat, IntBytes, IntOf, Blank;
    var n := CmpLength(req.op);
    var args := [Blank(n, junk), Blank(n, junk), Blank(4, junk), Blank(4, junk), Blank(8, junk)];
    Flat5(args[0], args[1], args[2], args[3], args[4]);
    ghost var good := Next(f.Rest(), e, OpOf(req));
    if good { SameShape(req, e.req); }
    ghost var p := if good then Pieces(e) else args;
    var parts := f.ReadParts(4 * 2 + n * 2 + 8, args, junk, p);
    out := req;
    if parts[0] != req.left || parts[1] != req.right { reply := Ret(MISMATCH); }
    else {
      out := Cmp(req.op, req.left, req.right, IntOf(parts[2]));
      reply := Ret(IntOf(parts[3]));
    }
    if good {
      FlatEmpty();
      IntRoundTrip(e.req.cmp);
      IntRoundTrip(e.resp);
    }
  }

  method ReplayCalc(f: File, req: Request, junk: Junk, ghost e: Entry) returns (reply: Reply, out: Request)
    requires f.Valid() && Asking(req) && req.Calc?
    modifies f
    ensures f.Valid() && Operands(out) == Operands(req)
    ensures Next(old(f.Rest()), e, OpOf(req)) ==> Right(req, e, reply, out, f.cursor - old(f.cursor))
  {
    hide Flat, IntBytes, IntOf, Blank;
    var enc := Blank(ENC_LENGTH, junk);
    var args := [enc, enc, enc, Blank(4, junk), Blank(8, junk)];
    Flat5(args[0], args[1], args[2], args[3], args[4]);
    ghost var good := Next(f.Rest(), e, OpOf(req));
    if good { SameShape(req, e.req); }
    ghost var p := if good then Pieces(e) else args;
    var parts := f.ReadParts(4 + ENC_LENGTH * 3 + 8, args, junk, p);
    out := req;
    if parts[0] != req.left || parts[1] != req.right { reply := Ret(MISMATCH); }
    else {
      out := Calc(req.op, req.left, req.right, parts[2]);
      reply := Ret(IntOf(parts[3]));
    }
    if good {
      FlatEmpty();
      IntRoundTrip(e.resp);
    }
  }

  method ReplayYear(f: File, req: Request, junk: Junk, ghost e: Entry) returns (reply: Reply, out: Request)
    requires f.Valid() && Asking(req) && req.Year?
    modifies f
    ensures f.Valid() && Operands(out) == Operands(req)
    ensures Next(old(f.Rest()), e, OpOf(req)) ==> Right(req, e, reply, out, f.cursor - old(f.cursor))
  {
    hide Flat, IntBytes, IntOf, Blank;
    var args := [Blank(ENC_TIMESTAMP_LENGTH, junk), Blank(ENC_LENGTH, junk), Blank(4, junk), Blank(8, junk)];
    Flat4(args[0], args[1], args[2], args[3]);
    ghost var good := Next(f.Rest(), e, OpOf(req));
    if good { SameShape(req, e.req); }
    ghost var p := if good then Pieces(e) else args;
    var parts := f.ReadParts(4 + ENC_TIMESTAMP_LENGTH + ENC_LENGTH + 8, args, junk, p);
    out := req;
    if parts[0] != req.input { reply := Ret(MISMATCH); }
    else {
      out := Year(req.input, parts[1]);
      reply := Ret(IntOf(parts[2]));
    }
    if good {
      FlatEmpty();
      IntRoundTrip(e.resp);
    }
  }

  /** The first piece comes first, and the others follow. */
  lemma {:induction false} Front(p: seq<Bytes>, rest: Bytes)
    requires p != [] && Flat(p) <= rest
    ensures p[0] <= rest && Flat(p[1..]) <= rest[|p[0]|..] && |Flat(p)| == |p[0]| + |Flat(p[1..])|
  {
  }

  function EncstrSize(b: Bytes): int
    requires |b| >= 8
  {
    8 + IntOf(b[4..8])
  }

  method ReplayStrCmp(f: File, req: Request, junk: Junk, ghost e: Entry) returns (reply: Reply, out: Request)
    requires f.Valid() && Asking(req) && req.StrCmp?
    modifies f
    ensures f.Valid() && Operands(out) == Operands(req)
    ensures Next(old(f.Rest()), e, OpOf(req)) ==> Right(req, e, reply, out, f.cursor - old(f.cursor))
  {
    hide Flat, IntBytes, IntOf, Blank;
    ghost var good := Next(f.Rest(), e, OpOf(req));
    ghost var p, x, y := [], 0, 0;
    if good {
      SameShape(req, e.req);
      FlatEmpty();
      p, x, y := Pieces(e), |e.req.left|, |e.req.right|;
      Front(p, f.Rest());
    }
    var leftLength := f.ReadInt(junk, x);
    if good { Front(p[1..], f.Rest()); }
    var rightLength := f.ReadInt(junk, y);
    out := req;
    if leftLength != EncstrSize(req.left) || rightLength != EncstrSize(req.right) { return Ret(MISMATCH), out; }
    var n, m: nat := leftLength, rightLength;
    var args := [Blank(n, junk), Blank(m, junk), Blank(4, junk), Blank(4, junk), Blank(8, junk)];
    Flat5(args[0], args[1], args[2], args[3], args[4]);
    var parts := f.ReadParts(n + m + 4 * 2 + 8, args, junk, if good then p[1..][1..] else args);
    out := StrCmp(req.op, req.left, req.right, IntOf(parts[2]));
    reply := Ret(IntOf(parts[3]));
    if good {
      IntRoundTrip(e.req.cmp);
      IntRoundTrip(e.resp);
    }
  }

  /** The rest of a substring entry, its two sizes having been read. */
  method ReplaySubstringBody(f: File, req: Request, strLength: nat, resultLength: nat, junk: Junk, ghost e: Entry)
    returns (reply: Reply, out: Request)
    requires f.Valid() && req.Substring?
    modifies f
    ensures f.Valid() && Operands(out) == Operands(req)
    ensures NextBody(old(f.Rest()), e, 2) && e.req.Substring?
            && strLength == |e.req.str| && resultLength == |e.req.res| ==>
      RightBody(req, e, 2, reply, out, f.cursor - old(f.cursor))
  {
    hide Flat, IntBytes, IntOf, IsStr, Blank;
    var enc := Blank(ENC_LENGTH, junk);
    var args := [Blank(strLength, junk), enc, enc, Blank(resultLength, junk), Blank(4, junk), Blank(8, junk)];
    Flat6(args[0], args[1], args[2], args[3], args[4], args[5]);
    var parts := f.ReadParts(strLength + resultLength + 4 + ENC_LENGTH * 2 + 8, args, junk,
                             if Recordable(e) && e.req.Substring? then Pieces(e)[2..] else args);
    out := req;
    if parts[0] != req.str || parts[1] != req.start || parts[2] != req.length { reply := Ret(MISMATCH); }
    else {
      out := Substring(req.str, req.start, req.length, parts[3]);
      reply := Ret(IntOf(parts[4]));
    }
    IntRoundTrip(e.resp);
  }

  method ReplaySubstring(f: File, req: Request, junk: Junk, ghost e: Entry) returns (reply: Reply, out: Request)
    requires f.Valid() && Asking(req) && req.Substring?
    modifies f
    ensures f.Valid() && Operands(out) == Operands(req)
    ensures Next(old(f.Rest()), e, OpOf(req)) ==> Right(req, e, reply, out, f.cursor - old(f.cursor))
  {
    hide Flat, IntBytes, IntOf, Blank;
    ghost var good := Next(f.Rest(), e, OpOf(req));
    ghost var p, x, y := [], 0, 0;
    if good {
      SameShape(req, e.req);
      FlatEmpty();
      p, x, y := Pieces(e), |e.req.str|, |e.req.res|;
      Front(p, f.Rest());
    }
    var strLength := f.ReadInt(junk, x);
    if good {
      Front(p[1..], f.Rest());
      assert p[1..][1..] == p[2..];
    }
    var resultLength := f.ReadInt(junk, y);
    if strLength != EncstrSize(req.str) { return Ret(MISMATCH), req; }
    if resultLength < 0 { return Undefined, req; }
    reply, out := ReplaySubstringBody(f, req, strLength, resultLength, junk, e);
  }

  /** The rest of a concatenation entry, its three sizes having been read. */
  method ReplayConcatBody(f: File, req: Request, leftLength: nat, rightLength: nat, resLength: nat, junk: Junk,
                          ghost e: Entry)
    returns (reply: Reply, out: Request)
    requires f.Valid() && req.Concat?
    modifies f
    ensures f.Valid() && Operands(out) == Operands(req)
    ensures NextBody(old(f.Rest()), e, 3) && e.req.Concat?
            && leftLength == |e.req.left| && rightLength == |e.req.right| && resLength == |e.req.res| ==>
      RightBody(req, e, 3, reply, out, f.cursor - old(f.cursor))
  {
    hide Flat, IntBytes, IntOf, IsStr, Blank;
    var args := [Blank(leftLength, junk), Blank(rightLength, junk), Blank(resLength, junk),
                 Blank(4, junk), Blank(8, junk)];
    Flat5(args[0], args[1], args[2], args[3], args[4]);
    var parts := f.ReadParts(4 + leftLength + rightLength + resLength + 8, args, junk,
                             if Recordable(e) && e.req.Concat? then Pieces(e)[3..] else args);
    out := req;
    if parts[0] != req.left || parts[1] != req.right { reply := Ret(MISMATCH); }
    else {
      out := Concat(req.left, req.right, parts[2]);
      reply := Ret(IntOf(parts[3]));
    }
    IntRoundTrip(e.resp);
  }

  method ReplayConcat(f: File, req: Request, junk: Junk, ghost e: Entry) returns (reply: Reply, out: Request)
    requires f.Valid() && Asking(req) && req.Concat?
    modifies f
    ensures f.Valid() && Operands(out) == Operands(req)
    ensures Next(old(f.Rest()), e, OpOf(req)) ==> Right(req, e, reply, out, f.cursor - old(f.cursor))
  {
    hide Flat, IntBytes, IntOf, Blank;
    ghost var good := Next(f.Rest(), e, OpOf(req));
    ghost var p, x, y, z := [], 0, 0, 0;
    if good {
      SameShape(req, e.req);
      FlatEmpty();
      p, x, y, z := Pieces(e), |e.req.left|, |e.req.right|, |e.req.res|;
      Front(p, f.Rest());
    }
    var leftLength := f.ReadInt(junk, x);
    if good {
      Front(p[1..], f.Rest());
      assert p[1..][1..] == p[2..];
    }
    var rightLength := f.ReadInt(junk, y);
    if good {
      Front(p[2..], f.Rest());
      assert p[2..][1..] == p[3..];
    }
    var resLength := f.ReadInt(junk, z);
    if leftLength != EncstrSize(req.left) || rightLength != EncstrSize(req.right) { return Ret(MISMATCH), req; }
    if resLength < 0 { return Undefined, req; }
    reply, out := ReplayConcatBody(f, req, leftLength, rightLength, resLength, junk, e);
  }

  /** Item `i` of equally long ones. */
  lemma {:induction false} ItemAt(items: seq<Bytes>, n: nat, i: nat)
    requires AllSized(items, n) && i < |items|
    ensures 0 <= i * n <= i * n + n <= |Flat(items)| && Flat(items)[i * n..i * n + n] == items[i]
  {
    FlatNext(items, i);
    ItemsLength(items[..i], n);
    assert items == items[..i + 1] + items[i + 1..];
    FlatAppend(items[..i + 1], items[i + 1..]);
  }

  method ReplayItems(f: File, items: seq<Bytes>, junk: Junk, ghost recorded: seq<Bytes>) returns (same: bool)
    requires f.Valid() && AllSized(items, ENC_LENGTH)
    modifies f
    ensures f.Valid()
    ensures AllSized(recorded, ENC_LENGTH) && |recorded| == |items| && Flat(recorded) <= old(f.Rest()) ==>
      (same <==> items == recorded) && f.cursor == old(f.cursor) + |Flat(recorded)|
  {
    hide Flat;
    var n := |items| * ENC_LENGTH;
    var buf, got := f.Fread(Blank(n, junk));
    ghost var good := AllSized(recorded, ENC_LENGTH) && |recorded| == |items| && Flat(recorded) <= old(f.Rest());
    if good { ItemsLength(recorded, ENC_LENGTH); }
    var src := 0;
    for i := 0 to |items|
      modifies {}
      invariant src == i * ENC_LENGTH && (good ==> forall k :: 0 <= k < i ==> items[k] == recorded[k])
    {
      if good { ItemAt(recorded, ENC_LENGTH, i); }
      var operand := buf[src..src + ENC_LENGTH];
      if operand != items[i] { return false; }
      src := src + ENC_LENGTH;
    }
    same := true;
  }

  method ReplayBulk(f: File, req: Request, junk: Junk, ghost e: Entry) returns (reply: Reply, out: Request)
    requires f.Valid() && Asking(req) && req.Bulk?
    modifies f
    ensures f.Valid() && Operands(out) == Operands(req)
    ensures Next(old(f.Rest()), e, OpOf(req)) ==> Right(req, e, reply, out, f.cursor - old(f.cursor))
  {
    hide Flat, IntBytes, IntOf, Blank, IsStr, OpOf;
    var args := [Blank(4, junk), Blank(ENC_LENGTH, junk), Blank(4, junk), Blank(8, junk)];
    Flat4(args[0], args[1], args[2], args[3]);
    ghost var good := Next(f.Rest(), e, OpOf(req));
    ghost var p, items := args, [];
    if good {
      SameShape(req, e.req);
      p, items := Pieces(e), Items(e);
      IntRoundTrip(|e.req.items|);
      IntRoundTrip(e.resp);
    }
    var parts := f.ReadParts(4 * 2 + ENC_LENGTH + 8, args, junk, p);
    out := req;
    if IntOf(parts[0]) != |req.items| { return Ret(MISMATCH), out; }
    var same := ReplayItems(f, req.items, junk, items);
    if !same { return Ret(MISMATCH), out; }
    out := Bulk(req.op, req.items, parts[1]);
    reply := Ret(IntOf(parts[2]));
  }

  // ---- replay_request, replay

  /** The entry comes next. */
  ghost predicate At(rest: Bytes, e: Entry) { Recordable(e) && Encode(e) <= rest }

  lemma {:induction false} AtNext(rest: Bytes, e: Entry)
    requires At(rest, e)
    ensures IntBytes(OpOf(e.req)) <= rest && Next(rest[4..], e, OpOf(e.req))
    ensures |Encode(e)| == 4 + |Flat(Pieces(e))| + |Flat(Items(e))|
  {
  }

  /** What `replay_request` makes of the entry at the cursor. */
  ghost predicate Replayed(req: Request, e: Entry, reply: Reply, out: Request, moved: int)
    requires Recordable(e)
  {
    if OpOf(req) != OpOf(e.req) then reply == Raised && out == req
    else if !Matches(req, e.req) then reply == Ret(MISMATCH) && out == req
    else reply == Ret(e.resp) && out == Answered(req, e.req) && moved == |Encode(e)|
  }

  method ReplayRequest(f: File, req: Request, junk: Junk, ghost e: Entry) returns (reply: Reply, out: Request)
    requires f.Valid() && Asking(req) && !req.EncDec?
    modifies f
    ensures f.Valid() && Operands(out) == Operands(req)
    ensures At(old(f.Rest()), e) ==> Replayed(req, e, reply, out, f.cursor - old(f.cursor))
    ensures At(old(f.Rest()), e) && OpOf(req) != OpOf(e.req) ==> reply == Raised && out == req
    ensures At(old(f.Rest()), e) && OpOf(req) == OpOf(e.req) && !Matches(req, e.req) ==>
      reply == Ret(10086) && out == req
    ensures At(old(f.Rest()), e) && OpOf(req) == OpOf(e.req) && Matches(req, e.req) ==>
      && reply == Ret(e.resp) && f.cursor == old(f.cursor) + |Encode(e)|
      && if req.StrCmp? then e.req.StrCmp? && out == StrCmp(req.op, req.left, req.right, e.req.cmp) else out == e.req
  {
    hide Flat, IntBytes, Pieces, Matches, Answered, WellFormed, Encode, Operands;
    if At(f.Rest(), e) { AtNext(f.Rest(), e); }
    if OpOf(req) == OpOf(e.req) && Matches(req, e.req) { AnsweredIs(req, e.req); }
    var op := f.ReadInt(junk, OpOf(e.req));
    if op != OpOf(req) { return Raised, req; }
    match req
    case Cmp(_, _, _, _) => reply, out := ReplayCmp(f, req, junk, e);
    case Calc(_, _, _, _) => reply, out := ReplayCalc(f, req, junk, e);
    case Bulk(_, _, _) => reply, out := ReplayBulk(f, req, junk, e);
    case StrCmp(_, _, _, _) => reply, out := ReplayStrCmp(f, req, junk, e);
    case Substring(_, _, _, _) => reply, out := ReplaySubstring(f, req, junk, e);
    case Concat(_, _, _) => reply, out := ReplayConcat(f, req, junk, e);
    case Year(_, _) => reply, out := ReplayYear(f, req, junk, e);
  }
}
