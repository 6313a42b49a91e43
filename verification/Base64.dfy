/** Base64 as in section 4 of RFC 4648: the encoder, the tolerant decoder, and their round trip. */
module Base64 {
  import opened ModArith
  import opened Octets

  const PAD: Byte := 61 // '='
  const NEWLINE: Byte := 10

  // ---- The alphabet.

  type Digit = d: int | 0 <= d < 64

  function Numeral(d: Digit): Byte {
    if d < 26 then 65 + d else if d < 52 then 97 + (d - 26) else if d < 62 then 48 + (d - 52)
    else if d == 62 then 43 else 47
  }

  /** What the decoding table says of a character. */
  datatype Class = Value(digit: Digit) | Pad | Space | Other

  function ClassOf(c: Byte): Class {
    if 65 <= c <= 90 then Value(c - 65)
    else if 97 <= c <= 122 then Value(c - 97 + 26)
    else if 48 <= c <= 57 then Value(c - 48 + 52)
    else if c == 43 then Value(62)
    else if c == 47 then Value(63)
    else if c == PAD || c >= 128 then Pad
    else if 9 <= c <= 13 || c == 32 then Space
    else Other
  }

  lemma {:induction false} NumeralClass(d: Digit)
    ensures ClassOf(Numeral(d)) == Value(d) && Numeral(d) != PAD && Numeral(d) != NEWLINE && Numeral(d) != 0
  {
  }

  // ---- RFC 4648: 24 bits at a time, four digits of six bits, zero bits and pads at the end.

  /** Digit `i` of a 24-bit group. */
  function DigitAt(v: int, i: nat): Digit
    requires i < 4 && 0 <= v < 0x100_0000
  {
    if i == 0 then v / 64 / 64 / 64 else if i == 1 then v / 64 / 64 % 64 else if i == 2 then v / 64 % 64 else v % 64
  }

  /** The 24 bits of up to three bytes. */
  function Word(a: Byte, b: Byte, c: Byte): (v: int)
    ensures 0 <= v < 0x100_0000
  {
    a as int * 65536 + b as int * 256 + c as int
  }

  /** The first group of `x`. */
  function Group(x: Bytes): (g: Bytes)
    requires x != []
    ensures |g| == 4
  {
    var v := Word(x[0], if |x| > 1 then x[1] else 0, if |x| > 2 then x[2] else 0);
    [Numeral(DigitAt(v, 0)), Numeral(DigitAt(v, 1)),
     if |x| > 1 then Numeral(DigitAt(v, 2)) else PAD, if |x| > 2 then Numeral(DigitAt(v, 3)) else PAD]
  }

  function Rest(x: Bytes): Bytes { if |x| <= 3 then [] else x[3..] }

  function Encode(x: Bytes): Bytes
    decreases |x|
  {
    if x == [] then [] else Group(x) + Encode(Rest(x))
  }

  lemma {:induction false} EncodedLength(x: Bytes)
    ensures |Encode(x)| == 4 * ((|x| + 2) / 3)
    decreases |x|
  {
    hide Group;
    if |x| > 3 {
      EncodedLength(Rest(x));
      ShiftDown(|x| + 2, 1, 3);
    }
  }

  /** Four digits and the word they make up. */
  function FromDigits(d0: Digit, d1: Digit, d2: Digit, d3: Digit): (v: int)
    ensures 0 <= v < 0x100_0000
  {
    ((d0 as int * 64 + d1 as int) * 64 + d2 as int) * 64 + d3 as int
  }

  lemma {:induction false} DigitsUnique(d0: Digit, d1: Digit, d2: Digit, d3: Digit)
    ensures var v := FromDigits(d0, d1, d2, d3);
            DigitAt(v, 0) == d0 && DigitAt(v, 1) == d1 && DigitAt(v, 2) == d2 && DigitAt(v, 3) == d3
  {
    var v := FromDigits(d0, d1, d2, d3);
    QuotientUnique(v, (d0 * 64 + d1) * 64 + d2, d3, 64);
    QuotientUnique((d0 * 64 + d1) * 64 + d2, d0 * 64 + d1, d2, 64);
    QuotientUnique(d0 * 64 + d1, d0, d1, 64);
  }

  // ---- toBase64

  /** The shifts and masks cut the word into its digits. */
  lemma {:induction false} Shuffle(a: Byte, b: Byte, c: Byte)
    ensures Word(a, b, c) == FromDigits(a / 4, a % 4 * 16 + b / 16, b % 16 * 4 + c / 64, c % 64)
  {
    assert a == a / 4 * 4 + a % 4 && b == b / 16 * 16 + b % 16 && c == c / 64 * 64 + c % 64;
  }

  method FullGroup(a: Byte, b: Byte, c: Byte) returns (g: Bytes)
    ensures g == Group([a, b, c])
  {
    g := [Numeral(a / 4), Numeral(a % 4 * 16 + b / 16), Numeral(b % 16 * 4 + c / 64), Numeral(c % 64)];
    Shuffle(a, b, c);
    DigitsUnique(a / 4, a % 4 * 16 + b / 16, b % 16 * 4 + c / 64, c % 64);
  }

  /** The last one or two bytes: their bits, then the characters from the last to the first. */
  method LastGroup(x: Bytes) returns (g: Bytes)
    requires 1 <= |x| <= 2
    ensures g == Group(x)
  {
    hide Numeral;
    var qv: int := x[0];
    var nbe := 1;
    while nbe < 3
      invariant 1 <= nbe <= 3
      invariant qv == if nbe == 1 then x[0]
                      else if nbe == 2 then x[0] as int * 256 + Second(x)
                      else Word(x[0], Second(x), 0)
    {
      qv := qv * 256;
      if nbe < |x| { qv := qv + x[nbe]; }
      nbe := nbe + 1;
    }
    ghost var v := qv;
    g := [0, 0, 0, 0];
    nbe := 3;
    while nbe >= 0
      invariant -1 <= nbe <= 3 && |g| == 4 && 0 <= v < 0x100_0000 && v == Word(x[0], Second(x), 0)
      invariant qv == if nbe == 3 then v else if nbe == 2 then v / 64 else if nbe == 1 then v / 64 / 64
                      else if nbe == 0 then v / 64 / 64 / 64 else 0
      invariant forall i :: nbe < i < 4 ==> g[i] == if i < |x| + 1 then Numeral(DigitAt(v, i)) else PAD
    {
      g := g[nbe := if nbe < |x| + 1 then Numeral(qv % 64) else PAD];
      qv := qv / 64;
      nbe := nbe - 1;
    }
  }

  function Second(x: Bytes): Byte { if |x| > 1 then x[1] else 0 }

  method ToBase64(x: Bytes) returns (out: Bytes)
    ensures out == Encode(x)
  {
    out := [];
    var at := 0;
    while |x| - at >= 3
      invariant 0 <= at <= |x| && out + Encode(x[at..]) == Encode(x)
    {
      var g := FullGroup(x[at], x[at + 1], x[at + 2]);
      assert g == Group(x[at..]);
      assert Rest(x[at..]) == x[at + 3..];
      out := out + g;
      at := at + 3;
    }
    if |x| - at > 0 {
      var g := LastGroup(x[at..]);
      out := out + g;
    }
  }

  // ---- fromBase64: what it computes, for any text.

  /** A group being read: the characters consumed, the count that stops reading, the bytes it
      will give, the digits so far, and whether decoding ends with it. */
  datatype Reading = Reading(pos: nat, limit: nat, bytes: int, word: int, last: bool)

  /** The next of four characters. Blanks and dark characters end the group; the missing
      characters count as zero digits. */
  function ReadChar(rest: Bytes, r: Reading, k: nat): Reading {
    if k >= r.limit || r.pos >= |rest| then r.(word := r.word * 64)
    else
      var pos := r.pos + 1;
      match ClassOf(rest[r.pos])
      case Value(d) => r.(pos := pos, word := r.word * 64 + d)
      case Pad => r.(pos := pos, word := r.word * 64, bytes := r.bytes - 1)
      case Space => r.(pos := pos, word := r.word * 64, bytes := r.bytes - 1, limit := k)
      case Other => r.(pos := pos, word := r.word * 64, bytes := r.bytes - 1, limit := k, last := true)
  }

  /** The first `k` of the four characters. */
  function ReadUpTo(rest: Bytes, limit: nat, bytes: int, k: nat): (r: Reading)
    ensures r.pos <= k && r.pos <= limit && r.limit <= limit
  {
    if k == 0 then Reading(0, limit, bytes, 0, false) else ReadChar(rest, ReadUpTo(rest, limit, bytes, k - 1), k - 1)
  }

  /** The bytes of the word that are given out. */
  function Emit(word: int, bytes: int): Bytes {
    var b0, b1, b2 := word / 256 / 256 % 256, word / 256 % 256, word % 256;
    if bytes == 3 then [b0, b1, b2] else if bytes == 2 then [b0, b1] else if bytes == 1 then [b0] else []
  }

  /** Text before the first digit is passed over, up to a NUL. */
  function SkipTo(rest: Bytes, nc: nat): (n: nat)
    requires nc <= |rest|
    ensures n <= nc
  {
    if nc == 0 || rest[0] == 0 || ClassOf(rest[0]).Value? then 0 else 1 + SkipTo(rest[1..], nc - 1)
  }

  const GroupBytes: seq<nat> := [0, 0, 1, 2, 3]

  /** One turn of the decoder: the end, or some bytes, characters consumed and characters left. */
  datatype Turn = End | More(out: Bytes, pos: nat, left: nat)

  /** A group cut short by a blank leaves the text ahead of the count. */
  function OneTurn(rest: Bytes, nc: nat): (t: Turn)
    requires nc <= |rest|
    ensures t.More? ==> t.left < nc && t.pos + t.left <= |rest|
  {
    if nc == 0 || rest[0] == PAD then End
    else
      var n := SkipTo(rest, nc);
      var nti := if nc - n > 4 then 4 else nc - n;
      if GroupBytes[nti] == 0 then End
      else
        var r := ReadUpTo(rest[n..], nti, GroupBytes[nti], 4);
        More(Emit(r.word, r.bytes), n + r.pos, if r.last then 0 else nc - n - nti)
  }

  function DecodeFrom(rest: Bytes, nc: nat): Bytes
    requires nc <= |rest|
    decreases nc
  {
    match OneTurn(rest, nc)
    case End => []
    case More(out, pos, left) => out + DecodeFrom(rest[pos..], left)
  }

  function Decode(text: Bytes): Bytes {
    if text != [] && text[|text| - 1] == NEWLINE then DecodeFrom(text, |text| - 1) else DecodeFrom(text, |text|)
  }

  method SkipNonB64(text: Bytes, s: nat, nc: nat) returns (r: nat)
    requires s + nc <= |text|
    ensures r == s + SkipTo(text[s..], nc)
  {
    r := s;
    var left := nc;
    while left > 0 && text[r] != 0 && !ClassOf(text[r]).Value?
      invariant 0 <= left <= nc && r == s + (nc - left) && SkipTo(text[s..], nc) == r - s + SkipTo(text[r..], left)
    {
      assert text[r..][1..] == text[r + 1..];
      r, left := r + 1, left - 1;
    }
  }

  /** The inner loop of a group. */
  method DecodeGroup(text: Bytes, start: nat, limit: nat, bytes: int) returns (r: Reading)
    requires start + limit <= |text|
    ensures r == ReadUpTo(text[start..], limit, bytes, 4)
  {
    var pIn, nti, nbo, stop := start, limit, bytes, false;
    var qv: int := 0;
    var nac := 0;
    while nac < 4
      invariant 0 <= nac <= 4 && start <= pIn
      invariant Reading(pIn - start, nti, nbo, qv, stop) == ReadUpTo(text[start..], limit, bytes, nac)
    {
      var c := Numeral(0);
      if nac < nti {
        c := text[pIn];
        pIn := pIn + 1;
      }
      var digit: int := 0;
      match ClassOf(c) {
        case Value(d) => digit := d;
        case Pad => nbo := nbo - 1;
        case Space => nti, nbo := nac, nbo - 1;
        case Other => stop, nti, nbo := true, nac, nbo - 1;
      }
      qv := qv * 64 + digit;
      nac := nac + 1;
    }
    r := Reading(pIn - start, nti, nbo, qv, stop);
  }

  method DecodeTurn(text: Bytes, pIn: nat, ncIn: nat) returns (t: Turn)
    requires pIn + ncIn <= |text|
    ensures t == OneTurn(text[pIn..], ncIn)
  {
    hide ReadUpTo, Emit, SkipTo;
    if ncIn == 0 || text[pIn] == PAD { return End; }
    var use := SkipNonB64(text, pIn, ncIn);
    assert text[pIn..][use - pIn..] == text[use..];
    var nc := ncIn - (use - pIn);
    var nti := if nc > 4 then 4 else nc;
    var nbo := GroupBytes[nti];
    if nbo == 0 { return End; }
    var r := DecodeGroup(text, use, nti, nbo);
    t := More(Emit(r.word, r.bytes), use - pIn + r.pos, if r.last then 0 else nc - nti);
  }

  lemma {:induction false} NextTurn(text: Bytes, at: nat, nc: nat)
    requires at + nc <= |text|
    ensures var t := OneTurn(text[at..], nc);
            DecodeFrom(text[at..], nc) == if t.End? then [] else t.out + DecodeFrom(text[at + t.pos..], t.left)
  {
    hide OneTurn;
    var t := OneTurn(text[at..], nc);
    if t.More? { assert text[at..][t.pos..] == text[at + t.pos..]; }
  }

  method FromBase64(text: Bytes) returns (out: Bytes)
    ensures out == Decode(text)
  {
    hide OneTurn, DecodeFrom;
    out := [];
    var pIn: nat, ncIn: nat := 0, |text|;
    if ncIn > 0 && text[ncIn - 1] == NEWLINE { ncIn := ncIn - 1; }
    assert text[0..] == text;
    var turn := DecodeTurn(text, pIn, ncIn);
    while turn.More?
      invariant pIn + ncIn <= |text| && turn == OneTurn(text[pIn..], ncIn)
      invariant out + DecodeFrom(text[pIn..], ncIn) == Decode(text)
      decreases ncIn
    {
      NextTurn(text, pIn, ncIn);
      out, pIn, ncIn := out + turn.out, pIn + turn.pos, turn.left;
      turn := DecodeTurn(text, pIn, ncIn);
    }
    NextTurn(text, pIn, ncIn);
  }

  // ---- The round trip, with blanks between the groups.

  lemma {:induction false} DigitsMake(v: int)
    requires 0 <= v < 0x100_0000
    ensures FromDigits(DigitAt(v, 0), DigitAt(v, 1), DigitAt(v, 2), DigitAt(v, 3)) == v
  {
    assert v == v / 64 * 64 + v % 64;
    assert v / 64 == v / 64 / 64 * 64 + v / 64 % 64;
    assert v / 64 / 64 == v / 64 / 64 / 64 * 64 + v / 64 / 64 % 64;
  }

  lemma {:induction false} WordBytes(a: Byte, b: Byte, c: Byte)
    ensures Emit(Word(a, b, c), 3) == [a, b, c]
    ensures Emit(Word(a, b, c), 2) == [a, b] && Emit(Word(a, b, c), 1) == [a]
  {
    var v := Word(a, b, c);
    QuotientUnique(v, a * 256 + b, c, 256);
    RemainderUnique(v, a * 256 + b, c, 256);
    QuotientUnique(a * 256 + b, a, b, 256);
    RemainderUnique(a * 256 + b, a, b, 256);
  }

  /** A missing byte makes the digits after it zero. */
  lemma {:induction false} ZeroDigits(a: Byte, b: Byte)
    ensures DigitAt(Word(a, b, 0), 3) == 0 && DigitAt(Word(a, 0, 0), 2) == 0
  {
    Shuffle(a, b, 0);
    DigitsUnique(a / 4, a % 4 * 16 + b / 16, b % 16 * 4, 0);
    Shuffle(a, 0, 0);
    DigitsUnique(a / 4, a % 4 * 16, 0, 0);
  }

  /** Reading four characters, the last two of which may be pads. */
  lemma {:induction false} FourChars(t: Bytes, d0: Digit, d1: Digit, d2: Digit, d3: Digit, n: nat)
    requires |t| >= 4 && 1 <= n <= 3 && t[0] == Numeral(d0) && t[1] == Numeral(d1)
    requires t[2] == (if n > 1 then Numeral(d2) else PAD) && (n > 1 || d2 == 0)
    requires t[3] == (if n > 2 then Numeral(d3) else PAD) && (n > 2 || d3 == 0)
    ensures ReadUpTo(t, 4, 3, 4) == Reading(4, 4, n, FromDigits(d0, d1, d2, d3), false)
  {
    hide Numeral, ClassOf;
    NumeralClass(d0);
    NumeralClass(d1);
    NumeralClass(d2);
    NumeralClass(d3);
    PadClass();
    assert ReadUpTo(t, 4, 3, 0) == Reading(0, 4, 3, 0, false);
    assert ReadUpTo(t, 4, 3, 1) == Reading(1, 4, 3, d0, false);
    assert ReadUpTo(t, 4, 3, 2) == Reading(2, 4, 3, d0 as int * 64 + d1 as int, false);
    assert ReadUpTo(t, 4, 3, 3) == Reading(3, 4, if n > 1 then 3 else 2, (d0 as int * 64 + d1 as int) * 64 + d2 as int,
                                            false);
  }

  lemma {:induction false} PadClass()
    ensures ClassOf(PAD) == Pad
  {
  }

  /** A whole group gives its bytes back. */
  lemma {:induction false} GroupReads(x: Bytes, t: Bytes)
    requires x != [] && Group(x) <= t
    ensures var r := ReadUpTo(t, 4, 3, 4);
            r.pos == 4 && !r.last && Emit(r.word, r.bytes) == if |x| < 3 then x else x[..3]
  {
    hide Numeral, DigitAt, Word, Emit, FromDigits, ReadUpTo;
    var a, b, c := x[0], if |x| > 1 then x[1] else 0, if |x| > 2 then x[2] else 0;
    var v := Word(a, b, c);
    var n := if |x| < 3 then |x| else 3;
    DigitsMake(v);
    WordBytes(a, b, c);
    ZeroDigits(a, b);
    FourChars(t, DigitAt(v, 0), DigitAt(v, 1), DigitAt(v, 2), DigitAt(v, 3), n);
  }

  predicate Blanks(s: Bytes) { forall i :: 0 <= i < |s| ==> ClassOf(s[i]) == Space }

  function Gap(gaps: seq<Bytes>): Bytes { if gaps == [] then [] else gaps[0] }

  function LaterGaps(gaps: seq<Bytes>): seq<Bytes> { if gaps == [] then [] else gaps[1..] }

  predicate AllBlank(gaps: seq<Bytes>) { forall i :: 0 <= i < |gaps| ==> Blanks(gaps[i]) }

  /** The groups of `x` with blanks before each and after the last; where the gaps run out
      there are none. */
  function Spaced(x: Bytes, gaps: seq<Bytes>): Bytes
    decreases |x|
  {
    Gap(gaps) + (if x == [] then [] else Group(x) + Spaced(Rest(x), LaterGaps(gaps)))
  }

  /** The blanks after the last group. */
  function LastGap(x: Bytes, gaps: seq<Bytes>): Bytes
    decreases |x|
  {
    if x == [] then Gap(gaps) else LastGap(Rest(x), LaterGaps(gaps))
  }

  lemma {:induction false} EncodeIsUnspaced(x: Bytes)
    ensures Spaced(x, []) == Encode(x)
    decreases |x|
  {
    hide Group;
    if x != [] { EncodeIsUnspaced(Rest(x)); }
  }

  /** Blanks in front are passed over. */
  lemma {:induction false} SkipBlanks(gap: Bytes, t: Bytes, nc: nat)
    requires Blanks(gap) && |gap| <= nc <= |gap| + |t|
    ensures SkipTo(gap + t, nc) == |gap| + SkipTo(t, nc - |gap|)
    decreases gap
  {
    if gap == [] {
      assert gap + t == t;
    } else {
      assert (gap + t)[1..] == gap[1..] + t;
      SkipBlanks(gap[1..], t, nc - 1);
    }
  }

  lemma {:induction false} SkipNone(x: Bytes, t: Bytes, nc: nat)
    requires x != [] && Group(x) <= t && nc <= |t|
    ensures SkipTo(t, nc) == 0 && t[0] != PAD
  {
    NumeralClass(DigitAt(Word(x[0], if |x| > 1 then x[1] else 0, if |x| > 2 then x[2] else 0), 0));
  }

  lemma {:induction false} SkipAll(gap: Bytes, nc: nat)
    requires Blanks(gap) && nc <= |gap|
    ensures SkipTo(gap, nc) == nc
    decreases nc
  {
    if nc > 0 { SkipAll(gap[1..], nc - 1); }
  }

  /** One turn over a gap and a group. */
  lemma {:induction false} GroupTurn(gap: Bytes, x: Bytes, rest: Bytes, nc: nat)
    requires Blanks(gap) && x != [] && |gap| + 4 <= nc <= |gap| + 4 + |rest|
    ensures OneTurn(gap + (Group(x) + rest), nc)
         == More(if |x| < 3 then x else x[..3], |gap| + 4, nc - |gap| - 4)
  {
    hide Group, SkipTo, ReadUpTo, Emit;
    var t := gap + (Group(x) + rest);
    SkipBlanks(gap, Group(x) + rest, nc);
    SkipNone(x, Group(x) + rest, nc - |gap|);
    assert t[|gap|..] == Group(x) + rest;
    GroupReads(x, t[|gap|..]);
    if gap != [] { BlankIsNotPad(gap[0]); }
  }

  lemma {:induction false} BlankIsNotPad(c: Byte)
    ensures ClassOf(c) == Space ==> c != PAD
  {
  }

  /** Decoding passes over the blanks, and may stop anywhere in the last ones. */
  lemma {:induction false} SpacedDecodes(x: Bytes, gaps: seq<Bytes>, nc: nat)
    requires AllBlank(gaps) && nc <= |Spaced(x, gaps)| <= nc + |LastGap(x, gaps)|
    ensures DecodeFrom(Spaced(x, gaps), nc) == x
    decreases |x|
  {
    hide Group, OneTurn, Blanks;
    var gap := Gap(gaps);
    assert Blanks(gap) by { NoBlanks(); }
    if x == [] {
      assert Spaced(x, gaps) == gap;
      BlankTurn(gap, nc);
    } else {
      var rest := Spaced(Rest(x), LaterGaps(gaps));
      LastGapShort(Rest(x), LaterGaps(gaps));
      GroupTurn(gap, x, rest, nc);
      assert Spaced(x, gaps)[|gap| + 4..] == rest;
      SpacedDecodes(Rest(x), LaterGaps(gaps), nc - |gap| - 4);
    }
  }

  lemma {:induction false} NoBlanks()
    ensures Blanks([])
  {
  }

  lemma {:induction false} LastGapShort(x: Bytes, gaps: seq<Bytes>)
    ensures |LastGap(x, gaps)| <= |Spaced(x, gaps)|
    decreases |x|
  {
    hide Group;
    if x != [] { LastGapShort(Rest(x), LaterGaps(gaps)); }
  }

  lemma {:induction false} BlankTurn(gap: Bytes, nc: nat)
    requires Blanks(gap) && nc <= |gap|
    ensures OneTurn(gap, nc) == End
  {
    SkipAll(gap, nc);
  }

  /** A newline at the end belongs to the last gap. */
  lemma {:induction false} NewlineIsBlank(x: Bytes, gaps: seq<Bytes>)
    requires Spaced(x, gaps) != [] && LastGap(x, gaps) == []
    ensures Spaced(x, gaps)[|Spaced(x, gaps)| - 1] != NEWLINE
    decreases |x|
  {
    hide Group;
    var rest := Spaced(Rest(x), LaterGaps(gaps));
    if rest == [] {
      GroupEnd(x);
    } else {
      NewlineIsBlank(Rest(x), LaterGaps(gaps));
    }
  }

  lemma {:induction false} GroupEnd(x: Bytes)
    requires x != []
    ensures Group(x)[3] != NEWLINE
  {
    var v := Word(x[0], if |x| > 1 then x[1] else 0, if |x| > 2 then x[2] else 0);
    NumeralClass(DigitAt(v, 3));
  }

  /** For every byte sequence, however blanks are put between and around the groups. */
  lemma {:induction false} RoundTrip(x: Bytes, gaps: seq<Bytes>)
    requires AllBlank(gaps)
    ensures Decode(Spaced(x, gaps)) == x
  {
    hide Spaced, LastGap, DecodeFrom, AllBlank;
    var t := Spaced(x, gaps);
    if t != [] && t[|t| - 1] == NEWLINE {
      if LastGap(x, gaps) == [] { NewlineIsBlank(x, gaps); }
      SpacedDecodes(x, gaps, |t| - 1);
    } else {
      SpacedDecodes(x, gaps, |t|);
    }
  }

  lemma {:induction false} EncodeDecode(x: Bytes)
    ensures Decode(Encode(x)) == x
  {
    RoundTrip(x, []);
    EncodeIsUnspaced(x);
  }

  // ---- RFC 4648 in its own characters.

  /** Table 1 of RFC 4648. */
  const ALPHABET := "ABCDEFGHIJKLMNOPQRSTUVWXYZ" + "abcdefghijklmnopqrstuvwxyz" + "0123456789+/"

  lemma {:induction false} AlphabetIs(d: Digit)
    ensures |ALPHABET| == 64 && Numeral(d) == ALPHABET[d] as int
  {
    if d < 26 { Upper(d); } else if d < 52 { Lower(d - 26); }
  }

  lemma {:induction false} Upper(i: nat)
    requires i < 26
    ensures |"ABCDEFGHIJKLMNOPQRSTUVWXYZ"| == 26 && "ABCDEFGHIJKLMNOPQRSTUVWXYZ"[i] as int == 65 + i
  {
  }

  lemma {:induction false} Lower(i: nat)
    requires i < 26
    ensures |"abcdefghijklmnopqrstuvwxyz"| == 26 && "abcdefghijklmnopqrstuvwxyz"[i] as int == 97 + i
  {
  }

  /** The decoding table: digits, pads, blanks and the rest. */
  lemma {:induction false} ClassesAre(c: Byte, d: Digit)
    ensures ClassOf(c) == Value(d) <==> c == ALPHABET[d] as int
    ensures ClassOf(c) == Pad <==> c == '=' as int || c >= 128
    ensures ClassOf(c) == Space <==> c in {9, 10, 11, 12, 13, 32}
  {
    AlphabetIs(d);
    NumeralClass(d);
    if ClassOf(c).Value? { AlphabetIs(ClassOf(c).digit); }
  }

  lemma {:induction false} GroupOf(a: Byte, b: Byte, c: Byte)
    ensures Encode([a]) == [Numeral(a / 4), Numeral(a % 4 * 16), 61, 61]
    ensures Encode([a, b]) == [Numeral(a / 4), Numeral(a % 4 * 16 + b / 16), Numeral(b % 16 * 4), 61]
    ensures Encode([a, b, c]) ==
            [Numeral(a / 4), Numeral(a % 4 * 16 + b / 16), Numeral(b % 16 * 4 + c / 64), Numeral(c % 64)]
  {
    hide Numeral;
    Shuffle(a, 0, 0);
    DigitsUnique(a / 4, a % 4 * 16, 0, 0);
    Shuffle(a, b, 0);
    DigitsUnique(a / 4, a % 4 * 16 + b / 16, b % 16 * 4, 0);
    Shuffle(a, b, c);
    DigitsUnique(a / 4, a % 4 * 16 + b / 16, b % 16 * 4 + c / 64, c % 64);
  }

  /** Whole groups one after the other. */
  lemma {:induction false} EncodeGroups(a: Byte, b: Byte, c: Byte, x: Bytes)
    ensures Encode([]) == [] && Encode([a, b, c] + x) == Encode([a, b, c]) + Encode(x)
  {
    hide Group;
    assert Rest([a, b, c] + x) == x && Rest([a, b, c]) == [];
    assert Group([a, b, c] + x) == Group([a, b, c]) by { SameGroup(a, b, c, x); }
  }

  lemma {:induction false} SameGroup(a: Byte, b: Byte, c: Byte, x: Bytes)
    ensures Group([a, b, c] + x) == Group([a, b, c])
  {
  }

  /** The test vectors of section 10: `f`, `fo`, `foo`, `foobar`. */
  lemma {:induction false} TestVectors()
    ensures Encode([102]) == [90, 103, 61, 61] && Encode([102, 111]) == [90, 109, 56, 61]
    ensures Encode([102, 111, 111]) == [90, 109, 57, 118]
    ensures Encode([102, 111, 111, 98, 97, 114]) == [90, 109, 57, 118, 89, 109, 70, 121]
  {
    hide Encode;
    GroupOf(102, 111, 111);
    GroupOf(98, 97, 114);
    EncodeGroups(102, 111, 111, [98, 97, 114]);
    assert [102, 111, 111] + [98, 97, 114] == [102, 111, 111, 98, 97, 114];
  }

  // ---- Texts that no encoder writes.

  lemma {:induction false} PadEnds(rest: Bytes)
    ensures Decode([61] + rest) == []
  {
  }

  /** A group cut off at the end of the text: nothing from one digit, one byte from two, two from three. */
  lemma {:induction false} ShortGroup(d0: Digit, d1: Digit, d2: Digit)
    ensures Decode([Numeral(d0)]) == []
    ensures Decode([Numeral(d0), Numeral(d1)]) == [d0 * 4 + d1 / 16]
    ensures Decode([Numeral(d0), Numeral(d1), Numeral(d2)]) == [d0 * 4 + d1 / 16, d1 % 16 * 16 + d2 / 4]
  {
    hide Numeral, ClassOf, DecodeFrom, OneTurn;
    NumeralClass(d0);
    NumeralClass(d1);
    NumeralClass(d2);
    var one, two, three := [Numeral(d0)], [Numeral(d0), Numeral(d1)], [Numeral(d0), Numeral(d1), Numeral(d2)];
    OneDigit(one, d0);
    TwoDigits(two, d0, d1);
    ThreeDigits(three, d0, d1, d2);
    LastTurn(one);
    LastTurn(two);
    LastTurn(three);
  }

  lemma {:induction false} LastTurn(t: Bytes)
    requires OneTurn(t, |t|).More? ==> OneTurn(t, |t|).left == 0
    ensures DecodeFrom(t, |t|) == if OneTurn(t, |t|).End? then [] else OneTurn(t, |t|).out
  {
    if OneTurn(t, |t|).More? {
      var u := t[OneTurn(t, |t|).pos..];
      assert OneTurn(u, 0) == End;
      assert DecodeFrom(u, 0) == [];
    }
  }

  lemma {:induction false} OneDigit(t: Bytes, d0: Digit)
    requires t == [Numeral(d0)]
    ensures OneTurn(t, 1) == End
  {
    NumeralClass(d0);
  }

  lemma {:induction false} TwoDigits(t: Bytes, d0: Digit, d1: Digit)
    requires t == [Numeral(d0), Numeral(d1)]
    ensures OneTurn(t, 2) == More([d0 * 4 + d1 / 16], 2, 0)
  {
    hide Numeral, ClassOf, Emit;
    NumeralClass(d0);
    NumeralClass(d1);
    assert ReadUpTo(t, 2, 1, 0) == Reading(0, 2, 1, 0, false);
    assert ReadUpTo(t, 2, 1, 1) == Reading(1, 2, 1, d0, false);
    assert ReadUpTo(t, 2, 1, 2) == Reading(2, 2, 1, d0 as int * 64 + d1 as int, false);
    assert ReadUpTo(t, 2, 1, 3) == Reading(2, 2, 1, (d0 as int * 64 + d1 as int) * 64, false);
    assert ReadUpTo(t, 2, 1, 4) == Reading(2, 2, 1, FromDigits(d0, d1, 0, 0), false);
    EmitDigits(d0, d1, 0, 0);
    assert t[0..] == t;
  }

  lemma {:induction false} ThreeDigits(t: Bytes, d0: Digit, d1: Digit, d2: Digit)
    requires t == [Numeral(d0), Numeral(d1), Numeral(d2)]
    ensures OneTurn(t, 3) == More([d0 * 4 + d1 / 16, d1 % 16 * 16 + d2 / 4], 3, 0)
  {
    hide Numeral, ClassOf, Emit;
    NumeralClass(d0);
    NumeralClass(d1);
    NumeralClass(d2);
    var w := (d0 as int * 64 + d1 as int) * 64 + d2 as int;
    assert ReadUpTo(t, 3, 2, 0) == Reading(0, 3, 2, 0, false);
    assert ReadUpTo(t, 3, 2, 1) == Reading(1, 3, 2, d0, false);
    assert ReadUpTo(t, 3, 2, 2) == Reading(2, 3, 2, d0 as int * 64 + d1 as int, false);
    assert ReadUpTo(t, 3, 2, 3) == Reading(3, 3, 2, w, false);
    assert ReadUpTo(t, 3, 2, 4) == Reading(3, 3, 2, FromDigits(d0, d1, d2, 0), false);
    EmitDigits(d0, d1, d2, 0);
    assert t[0..] == t;
  }

  lemma {:induction false} EmitDigits(d0: Digit, d1: Digit, d2: Digit, d3: Digit)
    ensures var v, b0, b1 := FromDigits(d0, d1, d2, d3), d0 * 4 + d1 / 16, d1 % 16 * 16 + d2 / 4;
            Emit(v, 1) == [b0] && Emit(v, 2) == [b0, b1] && Emit(v, 3) == [b0, b1, d2 % 4 * 64 + d3]
  {
    var b0, b1, b2 := d0 * 4 + d1 / 16, d1 % 16 * 16 + d2 / 4, d2 % 4 * 64 + d3;
    assert d1 == d1 / 16 * 16 + d1 % 16 && d2 == d2 / 4 * 4 + d2 % 4;
    assert FromDigits(d0, d1, d2, d3) == Word(b0, b1, b2);
    WordBytes(b0, b1, b2);
  }

  /** A character that is no digit inside a group ends the group with the bytes begun: a dark one ends
      the text too, and after a blank the count is one character short. */
  lemma {:induction false} CutGroup(d0: Digit, d1: Digit, c: Byte, rest: Bytes)
    requires rest != [] && rest[|rest| - 1] != 10 && (ClassOf(c) == Other || ClassOf(c) == Space)
    ensures Decode([Numeral(d0), Numeral(d1), c] + rest) ==
            [d0 * 4 + d1 / 16, d1 % 16 * 16] + (if ClassOf(c) == Space then DecodeFrom(rest, |rest| - 1) else [])
  {
    hide Numeral, ClassOf, Emit;
    NumeralClass(d0);
    NumeralClass(d1);
    var t, dark := [Numeral(d0), Numeral(d1), c] + rest, ClassOf(c) == Other;
    assert ReadUpTo(t, 4, 3, 0) == Reading(0, 4, 3, 0, false);
    assert ReadUpTo(t, 4, 3, 1) == Reading(1, 4, 3, d0, false);
    assert ReadUpTo(t, 4, 3, 2) == Reading(2, 4, 3, d0 as int * 64 + d1 as int, false);
    assert ReadUpTo(t, 4, 3, 3) == Reading(3, 2, 2, (d0 as int * 64 + d1 as int) * 64, dark);
    assert ReadUpTo(t, 4, 3, 4) == Reading(3, 2, 2, FromDigits(d0, d1, 0, 0), dark);
    EmitDigits(d0, d1, 0, 0);
    assert t[0..] == t && t[3..] == rest;
    assert OneTurn(t, |t|) == More([d0 * 4 + d1 / 16, d1 % 16 * 16], 3, if dark then 0 else |t| - 4);
    assert dark ==> DecodeFrom(rest, 0) == [];
  }
}
