/** String operands in the request buffer: copying a string leaves the buffer's order word as it
    was, the recorder stores that word, and the replayer compares it. */
module RrStrings {
  import opened Octets
  import opened RrFormat
  import opened RrRecord
  import opened RrReplay
  import opened RrRoundTrip

  /** `COPY_ENC`: length and bytes are copied into the buffer. */
  function CopyEnc(word: Bytes, from: Bytes): (b: Bytes)
    requires IsStr(from) && |word| == 4
    ensures IsStr(b) && |b| == |from| && b[..4] == word && b[4..] == from[4..]
  {
    var b := word + from[4..];
    assert b[4..8] == from[4..8];
    b
  }

  predicate IsCopy(b: Bytes, word: Bytes, from: Bytes) { |b| == |from| >= 4 && b[..4] == word && b[4..] == from[4..] }

  /** The words that the buffer holds where the orders of the first and second string are. */
  datatype Held = Held(first: Bytes, second: Bytes)

  predicate AreWords(h: Held) { |h.first| == |h.second| == 4 }

  /** `serializeTo`: the buffer after the values of a call have been copied to it. */
  function Serialize(call: Request, h: Held): (r: Request)
    requires Asking(call) && AreWords(h)
    ensures Asking(r) && OpOf(r) == OpOf(call)
    ensures call.StrCmp? ==> r.StrCmp? && IsCopy(r.left, h.first, call.left) && IsCopy(r.right, h.second, call.right)
    ensures call.Substring? ==> r.Substring? && IsCopy(r.str, h.first, call.str) && r.(str := call.str) == call
    ensures call.Concat? ==> r.Concat? && IsCopy(r.left, h.first, call.left) && IsCopy(r.right, h.second, call.right)
    ensures !call.StrCmp? && !call.Substring? && !call.Concat? ==> r == call
  {
    match call
    case StrCmp(op, l, r, c) => StrCmp(op, CopyEnc(h.first, l), CopyEnc(h.second, r), c)
    case Substring(s, st, ln, res) => Substring(CopyEnc(h.first, s), st, ln, res)
    case Concat(l, r, res) => Concat(CopyEnc(h.first, l), CopyEnc(h.second, r), res)
    case Cmp(_, _, _, _) | Calc(_, _, _, _) | Bulk(_, _, _) | Year(_, _) | EncDec(_) => call
  }

  /** A request buffer with the operands of a call, and any results. */
  predicate Made(r: Request, call: Request, h: Held) {
    Asking(call) && AreWords(h) && Operands(r) == Operands(Serialize(call, h))
  }

  /** The words that are compared for this call are the same. */
  predicate SameWords(call: Request, h: Held, h': Held) {
    match call
    case Substring(_, _, _, _) => h.first == h'.first
    case Concat(_, _, _) => h == h'
    case Cmp(_, _, _, _) | Calc(_, _, _, _) | Bulk(_, _, _) | StrCmp(_, _, _, _) | Year(_, _) | EncDec(_) => true
  }

  lemma {:induction false} SameCopy(word: Bytes, word': Bytes, from: Bytes)
    requires IsStr(from) && |word| == |word'| == 4
    ensures CopyEnc(word, from) == CopyEnc(word', from) <==> word == word'
  {
  }

  lemma {:induction false} MadeShape(r: Request, call: Request, h: Held)
    requires Made(r, call, h)
    ensures Asking(r) && OpOf(r) == OpOf(call) && (r.EncDec? <==> call.EncDec?)
  {
    OperandsDecide(r, Serialize(call, h), r);
  }

  /** The same call made again asks the same exactly when those words are. */
  lemma {:induction false} MadeAgain(a: Request, b: Request, call: Request, h: Held, h': Held)
    requires Made(a, call, h) && Made(b, call, h') && !call.EncDec?
    ensures Matches(a, b) <==> SameWords(call, h, h')
  {
    hide IsStr, IsCalc, AllSized, CopyEnc;
    match call
    case StrCmp(_, l, r, _) =>
    case Substring(s, _, _, _) => SameCopy(h.first, h'.first, s);
    case Concat(l, r, _) =>
      SameCopy(h.first, h'.first, l);
      SameCopy(h.second, h'.second, r);
    case Cmp(_, _, _, _) =>
    case Calc(_, _, _, _) =>
    case Bulk(_, _, _) =>
    case Year(_, _) =>
  }

  // ---- Whole runs.

  /** The calls of a run, the words its region held at each, and what was recorded. */
  predicate RecordedCalls(calls: seq<Request>, words: seq<Held>, run: seq<Entry>) {
    |calls| == |words| == |run| && forall i :: 0 <= i < |run| ==> Made(run[i].req, calls[i], words[i])
  }

  /** The same calls made while replaying. */
  predicate ReplayedCalls(calls: seq<Request>, words: seq<Held>, reqs: seq<Request>) {
    |calls| == |words| == |reqs| && forall i :: 0 <= i < |reqs| ==> Made(reqs[i], calls[i], words[i])
  }

  predicate WordsAgree(calls: seq<Request>, words: seq<Held>, words': seq<Held>)
    requires |calls| == |words| == |words'|
  {
    forall i :: 0 <= i < |calls| ==> SameWords(calls[i], words[i], words'[i])
  }

  lemma {:induction false} RunsAgree(calls: seq<Request>, words: seq<Held>, run: seq<Entry>, words': seq<Held>,
                                     reqs: seq<Request>)
    requires RecordedCalls(calls, words, run) && ReplayedCalls(calls, words', reqs)
    ensures CallsAgain(reqs, run)
    ensures Repeats(reqs, run) <==> WordsAgree(calls, words, words')
  {
    hide Made, Asking, Matches, SameWords, OpOf;
    forall i | 0 <= i < |run|
      ensures Calls(reqs[i], run[i]) && (Asks(reqs[i], run[i]) <==> SameWords(calls[i], words[i], words'[i]))
    {
      MadeShape(reqs[i], calls[i], words'[i]);
      MadeShape(run[i].req, calls[i], words[i]);
      StepAgrees(reqs[i], run[i].req, calls[i], words[i], words'[i]);
    }
  }

  lemma {:induction false} StepAgrees(a: Request, b: Request, call: Request, h: Held, h': Held)
    requires Made(b, call, h) && Made(a, call, h') && (a.EncDec? <==> call.EncDec?)
    ensures a.EncDec? || Matches(a, b) <==> SameWords(call, h, h')
  {
    if !call.EncDec? { MadeAgain(a, b, call, h', h); }
  }

  /** Recording a run of calls and replaying the same calls answers all as recorded if and only if,
      at every substring and concatenation, the region of the recording and the buffer of the
      replay held the same order words. */
  method ReplaySameCalls(calls: seq<Request>, words: seq<Held>, run: seq<Entry>, words': seq<Held>, reqs: seq<Request>,
                         junk: Junk)
    returns (replies: seq<Reply>, outs: seq<Request>)
    requires IsRun(run) && NoCode(run) && RecordedCalls(calls, words, run) && ReplayedCalls(calls, words', reqs)
    ensures |replies| == |outs| == |run|
    ensures AllAsRecorded(reqs, run, replies, outs) <==> WordsAgree(calls, words, words')
  {
    hide AllAsRecorded, RecordedCalls, ReplayedCalls, WordsAgree, Repeats, CallsAgain;
    RunsAgree(calls, words, run, words', reqs);
    CodelessIsFound(run);
    replies, outs := RecordAndReplay(run, reqs, junk);
  }

  lemma {:induction false} CodelessIsFound(run: seq<Entry>)
    requires NoCode(run)
    ensures FirstFound(run)
  {
  }

  // ---- A region that is not blank.

  /** In the region, an addition has left its operation number where the order of a substring's
      operand is; the replay starts from a zeroed buffer. */
  const Stale := Held([1, 0, 0, 0], [0, 0, 0, 0])
  const Blanked := Held([0, 0, 0, 0], [0, 0, 0, 0])

  /** The substring is recorded with that word, and asking for the same substring finds no log. */
  method StaleWordIsRefused(junk: Junk) returns (reply: Reply, out: Request)
    ensures reply == Ret(-1)
  {
    hide Trace, Encode, Zeros, IsStr;
    var call := Substring(Str(36), Blank(ENC_LENGTH, junk), Blank(ENC_LENGTH, junk), Str(36));
    var recorded, asked := Serialize(call, Stale), Serialize(call, Blanked);
    var run := [Entry(recorded, 0, Blank(8, junk))];
    MadeAgain(asked, recorded, call, Blanked, Stale);
    var log := RecordRun(run);
    var r := new Replayer([log]);
    assert run[..0] == [];
    reply, out := ReplayStep(r, log, asked, junk, run, 0);
  }
}
