/** Packing and unpacking, and the recorder. */
module RrRecord {
  import opened Octets
  import opened RrFormat

  // ---- rr_utils.cpp

  /** Writing `a` at `pos`, after what has been packed. */
  lemma {:induction false} PackNext(done: Bytes, a: Bytes, fixBuf: Bytes)
    requires |done| + |a| <= |fixBuf|
    ensures var buf := done + fixBuf[|done|..];
            buf[..|done|] + a + buf[|done| + |a|..] == (done + a) + fixBuf[|done + a|..]
  {
  }

  lemma {:induction false} UnpackNext(parts: seq<Bytes>, k: nat, piece: Bytes, buf: Bytes, pos: nat)
    requires k < |parts| && pos + |piece| <= |buf| && piece == buf[pos..pos + |piece|]
    requires Flat(parts[..k]) == buf[..pos]
    ensures Flat(parts[k := piece][..k + 1]) == buf[..pos + |piece|]
  {
    FlatNext(parts[k := piece], k);
    assert parts[k := piece][..k] == parts[..k];
  }

  /** The pieces are written into, or read from, the buffer one after the other. */
  method Rrprintf(record: bool, fixBuf: Bytes, args: seq<Bytes>) returns (buf: Bytes, parts: seq<Bytes>)
    requires args != [] && |Flat(args)| <= |fixBuf|
    ensures record ==> parts == args && buf == Flat(args) + fixBuf[|Flat(args)|..]
    ensures !record ==> buf == fixBuf && SameSizes(parts, args) && Flat(parts) == fixBuf[..|Flat(args)|]
  {
    hide Flat;
    buf, parts := fixBuf, args;
    var number, count, length, pos, more := true, 0, 0, 0, true;
    assert Flat([]) == [] by { FlatEmpty(); }
    while more
      invariant more <==> count != |args|
      invariant 0 <= count <= |args| && (number || (more && length == |args[count]|))
      invariant pos == |Flat(args[..count])| <= |Flat(args)| && SameSizes(parts, args)
      invariant record ==> parts == args && buf == Flat(args[..count]) + fixBuf[pos..]
      invariant !record ==> buf == fixBuf && Flat(parts[..count]) == fixBuf[..pos]
      decreases |args| - count, number
    {
      if number {
        length := |args[count]|;
        number := false;
      } else {
        FlatNext(args, count);
        if record {
          PackNext(Flat(args[..count]), args[count], fixBuf);
          buf := buf[..pos] + args[count] + buf[pos + length..];
        } else {
          UnpackNext(parts, count, buf[pos..pos + length], buf, pos);
          parts := parts[count := buf[pos..pos + length]];
        }
        number := true;
        count := count + 1;
        pos := pos + length;
      }
      more := count != |args|;
    }
    assert args[..|args|] == args && parts[..|parts|] == parts;
  }

  lemma {:induction false} FlatEmpty()
    ensures Flat([]) == []
  {
  }

  // ---- recorder.cpp

  const DATA_LENGTH := 16 * 1024 * 1024

  lemma {:induction false} ZerosSplit(n: nat, k: nat)
    requires k <= n
    ensures Zeros(n)[k..] == Zeros(n - k)
  {
  }

  lemma {:induction false} ZerosAdd(a: nat, b: nat)
    ensures Zeros(a) + Zeros(b) == Zeros(a + b)
  {
  }

  /** Bytes past `cursor` are zero: they still are past a later cursor, and after growth. */
  lemma {:induction false} TailShrinks(file: Bytes, cursor: nat, next: nat)
    requires cursor <= next <= |file| && file[cursor..] == Zeros(|file| - cursor)
    ensures file[next..] == Zeros(|file| - next)
  {
    ZerosSplit(|file| - cursor, next - cursor);
    assert file[next..] == file[cursor..][next - cursor..];
  }

  lemma {:induction false} TailGrows(file: Bytes, cursor: nat, more: nat)
    requires cursor <= |file| && file[cursor..] == Zeros(|file| - cursor)
    ensures (file + Zeros(more))[cursor..] == Zeros(|file| + more - cursor)
    ensures (file + Zeros(more))[..cursor] == file[..cursor]
  {
    assert (file + Zeros(more))[cursor..] == file[cursor..] + Zeros(more);
    ZerosAdd(|file| - cursor, more);
  }

  /** The pieces of an entry's first part. */
  ghost function First(e: Entry): seq<Bytes>
    requires Recordable(e)
  {
    [IntBytes(OpOf(e.req))] + Pieces(e)
  }

  lemma {:induction false} FirstPart(e: Entry)
    requires Recordable(e)
    ensures |Flat(First(e))| == 4 + PartLength(e.req) && Encode(e) == Flat(First(e)) + Flat(Items(e))
  {
    hide Flat, IntOf, IntBytes, Pieces, WellFormed;
    PiecesLength(e);
    FlatCons(IntBytes(OpOf(e.req)), Pieces(e));
  }

  class Recorder {
    var file: Bytes
    var fileLength: nat
    var fileCursor: nat

    /** The file is whole chunks long, as few as hold what was written, and nothing follows the cursor. */
    ghost predicate Valid()
      reads this
    {
      && fileCursor <= fileLength == |file| < fileCursor + DATA_LENGTH && fileLength % DATA_LENGTH == 0
      && file[fileCursor..] == Zeros(fileLength - fileCursor)
    }

    ghost function Written(): Bytes
      requires Valid()
      reads this
    {
      file[..fileCursor]
    }

    /** A fresh log file. */
    constructor ()
      ensures Valid() && Written() == []
    {
      file, fileLength, fileCursor := [], 0, 0;
    }

    method GetWriteBuffer(length: nat) returns (start: nat)
      requires Valid() && length <= DATA_LENGTH
      modifies this
      ensures Valid() && start == old(fileCursor) && fileCursor == start + length
      ensures file[..start] == old(Written()) && old(fileLength) <= fileLength <= old(fileLength) + DATA_LENGTH
    {
      if fileCursor + length > fileLength {
        TailGrows(file, fileCursor, DATA_LENGTH);
        fileLength := fileLength + DATA_LENGTH;
        file := file + Zeros(DATA_LENGTH);
      }
      start := fileCursor;
      TailShrinks(file, fileCursor, fileCursor + length);
      fileCursor := fileCursor + length;
    }

    /** Storing at a place the cursor has passed. */
    method Store(start: nat, bytes: Bytes)
      requires Valid() && start + |bytes| == fileCursor
      modifies this`file
      ensures Valid() && Written() == old(file[..start]) + bytes
    {
      file := file[..start] + bytes + file[start + |bytes|..];
    }

    /** A part of an entry: room for `length` bytes, filled with the pieces. */
    method Put(length: nat, pieces: seq<Bytes>)
      requires Valid() && pieces != [] && |Flat(pieces)| == length <= DATA_LENGTH
      modifies this
      ensures Valid() && Written() == old(Written()) + Flat(pieces)
    {
      var start := GetWriteBuffer(length);
      var buf, _ := Rrprintf(true, file[start..start + length], pieces);
      Store(start, buf);
    }

    /** The items of a bulk sum, copied one by one into a part of their own. */
    method PutItems(items: seq<Bytes>)
      requires Valid() && AllSized(items, ENC_LENGTH) && |items| <= BULK_SIZE
      modifies this
      ensures Valid() && Written() == old(Written()) + Flat(items)
    {
      hide Flat;
      var dst := GetWriteBuffer(|items| * ENC_LENGTH);
      FlatEmpty();
      for i := 0 to |items|
        invariant Valid() && dst == |old(Written())| + i * ENC_LENGTH
        invariant fileCursor == |old(Written())| + |items| * ENC_LENGTH
        invariant file[..dst] == old(Written()) + Flat(items[..i])
      {
        FlatNext(items, i);
        file := file[..dst] + items[i] + file[dst + ENC_LENGTH..];
        dst := dst + ENC_LENGTH;
      }
      assert items[..|items|] == items;
    }

    method RecordString(req: Request, resp: Int32, stamp: Bytes)
      requires Valid() && WellFormed(req) && |stamp| == 8 && (req.StrCmp? || req.Substring? || req.Concat?)
      modifies this
      ensures Valid() && Written() == old(Written()) + Encode(Entry(req, resp, stamp))
    {
      hide Flat, IntOf, IntBytes, Encode;
      ghost var e := Entry(req, resp, stamp);
      FirstPart(e);
      FlatEmpty();
      match req
      case StrCmp(op, l, r, c) =>
        var length := 4 * 5 + |l| + |r| + 8;
        var pieces := [IntBytes(op), IntBytes(|l|), IntBytes(|r|), l, r, IntBytes(c), IntBytes(resp), stamp];
        assert pieces == First(e);
        Put(length, pieces);
      case Substring(str, st, ln, res) =>
        var length := 4 * 4 + |str| + |res| + 2 * ENC_LENGTH + 8;
        var pieces := [IntBytes(44), IntBytes(|str|), IntBytes(|res|), str, st, ln, res, IntBytes(resp), stamp];
        assert pieces == First(e);
        Put(length, pieces);
      case Concat(l, r, res) =>
        var length := 4 * 5 + |l| + |r| + |res| + 8;
        var pieces := [IntBytes(45), IntBytes(|l|), IntBytes(|r|), IntBytes(|res|), l, r, res, IntBytes(resp), stamp];
        assert pieces == First(e);
        Put(length, pieces);
    }

    /** Every answered request adds its entry, and encryptions and decryptions add nothing. */
    method Record(req: Request, resp: Int32, stamp: Bytes)
      requires Valid() && WellFormed(req) && |stamp| == 8
      modifies this
      ensures Valid()
      ensures Written() == old(Written()) + (if req.EncDec? then [] else Encode(Entry(req, resp, stamp)))
    {
      hide Flat, IntOf, IntBytes, Encode, IsStr;
      ghost var e := Entry(req, resp, stamp);
      if !req.EncDec? { FirstPart(e); }
      FlatEmpty();
      match req
      case Cmp(op, l, r, c) =>
        var length := 4 * 3 + CmpLength(op) * 2 + 8;
        var pieces := [IntBytes(op), l, r, IntBytes(c), IntBytes(resp), stamp];
        assert pieces == First(e);
        Put(length, pieces);
      case Bulk(op, items, res) =>
        var length := 4 * 3 + ENC_LENGTH + 8;
        var pieces := [IntBytes(op), IntBytes(|items|), res, IntBytes(resp), stamp];
        assert pieces == First(e);
        Put(length, pieces);
        PutItems(items);
      case Calc(op, l, r, res) =>
        var length := 4 * 2 + ENC_LENGTH * 3 + 8;
        var pieces := [IntBytes(op), l, r, res, IntBytes(resp), stamp];
        assert pieces == First(e);
        Put(length, pieces);
      case Year(i, res) =>
        var length := 4 * 2 + ENC_TIMESTAMP_LENGTH + ENC_LENGTH + 8;
        var pieces := [IntBytes(53), i, res, IntBytes(resp), stamp];
        assert pieces == First(e);
        Put(length, pieces);
      case StrCmp(_, _, _, _) => RecordString(req, resp, stamp);
      case Substring(_, _, _, _) => RecordString(req, resp, stamp);
      case Concat(_, _, _) => RecordString(req, resp, stamp);
      case EncDec(_) =>
    }
  }

  lemma {:induction false} FlatCons(a: Bytes, parts: seq<Bytes>)
    ensures Flat([a] + parts) == a + Flat(parts)
  {
    assert ([a] + parts)[1..] == parts;
  }
}
