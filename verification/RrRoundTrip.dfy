/** Recording a run and replaying it. */
module RrRoundTrip {
  import opened Octets
  import opened RrFormat
  import opened RrRecord
  import opened RrReplay

  /** The request can be answered by this entry, and the answer is not the code for a mismatch. */
  predicate Usable(req: Request, e: Entry) { Matches(req, e.req) && e.resp != MISMATCH }

  /** The index of the first usable entry. */
  function FirstUsable(req: Request, firsts: seq<Entry>): (k: nat)
    ensures k <= |firsts| && forall i :: 0 <= i < k ==> !Matches(req, firsts[i].req) || firsts[i].resp == 10086
    ensures k < |firsts| ==> Matches(req, firsts[k].req) && firsts[k].resp != 10086
  {
    if firsts == [] || Usable(req, firsts[0]) then 0 else 1 + FirstUsable(req, firsts[1..])
  }

  /** The request after all these entries have been tried: the results of the last one that matched,
      which are copied before its response is seen to be the mismatch code. */
  function Tried(req: Request, firsts: seq<Entry>): Request {
    if firsts == [] then req
    else
      var last := firsts[|firsts| - 1];
      if Matches(req, last.req) then Answered(req, last.req) else Tried(req, firsts[..|firsts| - 1])
  }

  /** The last entry that matches has left its results, and without one nothing has changed. */
  lemma {:induction false} TriedIs(req: Request, firsts: seq<Entry>, k: nat)
    requires k < |firsts| && Matches(req, firsts[k].req)
    requires forall i :: k < i < |firsts| ==> !Matches(req, firsts[i].req)
    ensures Tried(req, firsts) == Answered(req, firsts[k].req)
    decreases firsts
  {
    hide Matches, Answered;
    if k < |firsts| - 1 { TriedIs(req, firsts[..|firsts| - 1], k); }
  }

  lemma {:induction false} TriedNone(req: Request, firsts: seq<Entry>)
    requires forall i :: 0 <= i < |firsts| ==> !Matches(req, firsts[i].req)
    ensures Tried(req, firsts) == req
    decreases firsts
  {
    hide Matches, Answered;
    if firsts != [] { TriedNone(req, firsts[..|firsts| - 1]); }
  }

  lemma {:induction false} TriedOperands(req: Request, firsts: seq<Entry>)
    ensures Operands(Tried(req, firsts)) == Operands(req)
    decreases firsts
  {
    hide Matches, Answered, Operands;
    if firsts != [] {
      OperandsDecide(req, req, firsts[|firsts| - 1].req);
      TriedOperands(req, firsts[..|firsts| - 1]);
    }
  }

  /** The logs begin with these entries, all of the request's operation. */
  ghost predicate Candidates(req: Request, logs: seq<Bytes>, firsts: seq<Entry>) {
    |logs| == |firsts| && forall i :: 0 <= i < |logs| ==> Candidate(req, logs[i], firsts[i])
  }

  ghost predicate Candidate(req: Request, log: Bytes, first: Entry) { At(log, first) && OpOf(first.req) == OpOf(req) }

  class Replayer {
    var replayFile: File?
    var logs: seq<Bytes>

    ghost predicate Valid()
      reads this, replayFile
    {
      replayFile != null ==> replayFile.Valid()
    }

    constructor (fileList: seq<Bytes>)
      ensures Valid() && replayFile == null && logs == fileList
    {
      replayFile, logs := null, fileList;
    }

    /** The first request opens the first log that can answer it, or none. */
    method Open(req: Request, junk: Junk, ghost firsts: seq<Entry>) returns (reply: Reply, out: Request)
      requires Valid() && replayFile == null && Asking(req) && !req.EncDec?
      modifies this
      ensures Valid() && logs == old(logs) && (replayFile != null ==> fresh(replayFile))
      ensures Candidates(req, logs, firsts) ==> Opened(req, firsts, reply, out)
    {
      hide Matches, Answered, WellFormed, Encode, At, OpOf, Operands, Asking;
      ghost var good := Candidates(req, logs, firsts);
      out := req;
      var i := 0;
      while i < |logs|
        modifies this
        invariant 0 <= i <= |logs| && replayFile == null && logs == old(logs) && Operands(out) == Operands(req)
        invariant good ==> FirstUsable(req, firsts) == i + FirstUsable(req, firsts[i..])
        invariant good ==> out == Tried(req, firsts[..i])
      {
        replayFile := new File(logs[i]);
        ghost var e := if good then firsts[i] else Entry(req, 0, []);
        OperandsDecide(out, req, e.req);
        if good {
          assert Candidate(req, logs[i], firsts[i]);
          assert replayFile.Rest() == logs[i];
          assert firsts[i..][0] == firsts[i] && firsts[i..][1..] == firsts[i + 1..];
          assert firsts[..i + 1][..i] == firsts[..i];
        }
        reply, out := ReplayRequest(replayFile, out, junk, e);
        if reply != Ret(MISMATCH) { return; }
        replayFile := null;
        i := i + 1;
      }
      assert good ==> firsts[..i] == firsts;
      reply := Ret(-1);
    }

    /** The first usable log is open and has answered, or every log has been tried and none is. */
    ghost predicate Opened(req: Request, firsts: seq<Entry>, reply: Reply, out: Request)
      requires Candidates(req, logs, firsts)
      reads this, replayFile
    {
      var k := FirstUsable(req, firsts);
      if k < |logs|
      then reply == Ret(firsts[k].resp) && out == Answered(req, firsts[k].req)
        && replayFile != null && replayFile.bytes == logs[k] && replayFile.cursor == |Encode(firsts[k])|
      else reply == Ret(-1) && out == Tried(req, firsts) && replayFile == null
    }

    /** Encryptions and decryptions pass by; every other request is answered from the log. */
    method Replay(req: Request, junk: Junk, ghost firsts: seq<Entry>, ghost e: Entry)
      returns (reply: Reply, out: Request)
      requires Valid() && Asking(req)
      modifies this, replayFile
      ensures Valid() && logs == old(logs)
      ensures replayFile == old(replayFile) || (old(replayFile) == null && fresh(replayFile))
      ensures req.EncDec? ==> reply == Ret(NOT_REPLAY) && out == req && replayFile == old(replayFile)
      ensures req.EncDec? && replayFile != null ==> replayFile.cursor == old(replayFile.cursor)
      ensures !req.EncDec? && old(replayFile) == null && Candidates(req, logs, firsts) ==>
        Opened(req, firsts, reply, out)
      ensures !req.EncDec? && old(replayFile) != null && At(old(replayFile.Rest()), e) ==>
        Replayed(req, e, reply, out, replayFile.cursor - old(replayFile.cursor))
    {
      hide Matches, Answered, WellFormed, Encode, At, Replayed, FirstUsable, Candidates, Asking, Opened;
      if req.EncDec? { return Ret(NOT_REPLAY), req; }
      if replayFile == null {
        reply, out := Open(req, junk, firsts);
      } else {
        reply, out := ReplayRequest(replayFile, req, junk, e);
      }
    }
  }

  // ---- Whole runs.

  /** What each step of a run adds to the log. */
  function Added(e: Entry): Bytes
    requires WellFormed(e.req) && |e.stamp| == 8
  {
    if e.req.EncDec? then [] else Encode(e)
  }

  predicate IsRun(run: seq<Entry>) { forall i :: 0 <= i < |run| ==> WellFormed(run[i].req) && |run[i].stamp| == 8 }

  function Trace(run: seq<Entry>): Bytes
    requires IsRun(run)
  {
    if run == [] then [] else Trace(run[..|run| - 1]) + Added(run[|run| - 1])
  }

  lemma {:induction false} TraceNext(run: seq<Entry>, i: nat)
    requires IsRun(run) && i < |run|
    ensures Trace(run[..i + 1]) == Trace(run[..i]) + Added(run[i])
  {
    assert run[..i + 1][..i] == run[..i];
  }

  lemma {:induction false} TracePrefix(run: seq<Entry>, i: nat)
    requires IsRun(run) && i <= |run|
    ensures Trace(run[..i]) <= Trace(run)
    decreases |run| - i
  {
    if i == |run| {
      assert run[..i] == run;
    } else {
      TracePrefix(run, i + 1);
      TraceNext(run, i);
    }
  }

  /** The bytes a log ends with: what the last chunk has left. */
  function Tail(run: seq<Entry>): nat
    requires IsRun(run)
  {
    (DATA_LENGTH - |Trace(run)| % DATA_LENGTH) % DATA_LENGTH
  }

  lemma {:induction false} LeastWhole(n: nat, t: nat)
    requires t < DATA_LENGTH && (n + t) % DATA_LENGTH == 0
    ensures t == (DATA_LENGTH - n % DATA_LENGTH) % DATA_LENGTH
  {
  }

  /** Recording a run leaves its trace and then zeros, to the end of the last chunk it reached. */
  method RecordRun(run: seq<Entry>) returns (log: Bytes)
    requires IsRun(run)
    ensures log == Trace(run) + Zeros(Tail(run)) && |log| % 0x100_0000 == 0 && |log| < |Trace(run)| + 0x100_0000
  {
    hide Encode, WellFormed, Zeros, Trace;
    var r := new Recorder();
    TraceEmpty();
    for i := 0 to |run|
      invariant r.Valid() && r.Written() == Trace(run[..i])
      invariant fresh(r)
    {
      TraceNext(run, i);
      r.Record(run[i].req, run[i].resp, run[i].stamp);
    }
    assert run[..|run|] == run;
    log := r.file;
    LeastWhole(|Trace(run)|, |log| - |Trace(run)|);
    assert log == log[..|Trace(run)|] + log[|Trace(run)|..];
  }

  lemma {:induction false} TraceEmpty()
    ensures Trace([]) == []
  {
  }

  /** A request of a second run that calls the same operation. */
  predicate Calls(req: Request, e: Entry) {
    Asking(req) && OpOf(req) == OpOf(e.req) && (req.EncDec? <==> e.req.EncDec?)
  }

  predicate CallsAgain(reqs: seq<Request>, run: seq<Entry>) {
    |reqs| == |run| && forall i :: 0 <= i < |run| ==> Calls(reqs[i], run[i])
  }

  /** It asks what the first one asked, whatever its result fields hold. */
  predicate Asks(req: Request, e: Entry) { Calls(req, e) && (req.EncDec? || Matches(req, e.req)) }

  predicate Repeats(reqs: seq<Request>, run: seq<Entry>) {
    |reqs| == |run| && forall i :: 0 <= i < |run| ==> Asks(reqs[i], run[i])
  }

  /** No recorded response is one of the two codes that the replayer gives by itself. */
  predicate NoCode(run: seq<Entry>) { forall i :: 0 <= i < |run| ==> run[i].resp != MISMATCH && run[i].resp != -1 }

  /** Nothing before step `i` was recorded. */
  predicate Unasked(run: seq<Entry>, i: nat)
    requires i <= |run|
  {
    forall k :: 0 <= k < i ==> run[k].req.EncDec?
  }

  /** The first recorded request, answered with the code that the search for a log takes for a mismatch. */
  predicate Lost(run: seq<Entry>, i: nat)
    requires i < |run|
  {
    Unasked(run, i) && !run[i].req.EncDec? && run[i].resp == MISMATCH
  }

  /** The first recorded response is not that code. */
  predicate FirstFound(run: seq<Entry>) { forall i :: 0 <= i < |run| ==> !Lost(run, i) }

  /** The answer of a run's step: its recorded response and results. */
  predicate AsRecorded(req: Request, e: Entry, reply: Reply, out: Request) {
    if req.EncDec? then reply == Ret(NOT_REPLAY) && out == req
    else reply == Ret(e.resp) && out == Answered(req, e.req)
  }

  ghost predicate AllAsRecorded(reqs: seq<Request>, run: seq<Entry>, replies: seq<Reply>, outs: seq<Request>)
    requires |reqs| == |run| && |replies| == |outs| <= |run|
  {
    forall i :: 0 <= i < |replies| ==> AsRecorded(reqs[i], run[i], replies[i], outs[i])
  }

  /** Before step `i`: no log open and nothing recorded yet, or the cursor on the entry's boundary. */
  ghost predicate Standing(r: Replayer, log: Bytes, run: seq<Entry>, i: nat)
    requires IsRun(run) && i <= |run|
    reads r, r.replayFile
  {
    && r.Valid() && r.logs == [log] && (r.replayFile == null <==> Unasked(run, i))
    && (r.replayFile != null ==> r.replayFile.bytes == log && r.replayFile.cursor == |Trace(run[..i])|)
  }

  lemma {:induction false} EntryAt(log: Bytes, run: seq<Entry>, i: nat)
    requires IsRun(run) && i < |run| && Trace(run) <= log && !run[i].req.EncDec?
    ensures |Trace(run[..i])| <= |log| && At(log[|Trace(run[..i])|..], run[i])
  {
    hide Encode, WellFormed, Trace;
    TraceNext(run, i);
    TracePrefix(run, i + 1);
    assert Trace(run[..i]) + Encode(run[i]) <= log;
  }

  lemma {:induction false} NothingTraced(run: seq<Entry>, i: nat)
    requires IsRun(run) && i <= |run| && Unasked(run, i)
    ensures Trace(run[..i]) == []
    decreases i
  {
    hide Encode, WellFormed;
    if i > 0 {
      NothingTraced(run, i - 1);
      TraceNext(run, i - 1);
    }
  }

  /** The step is not answered from the log. */
  predicate Fails(req: Request, run: seq<Entry>, i: nat)
    requires i < |run|
  {
    Lost(run, i) || !Asks(req, run[i])
  }

  /** A step of a run is answered as recorded, unless it asks something else, or no log is open
      yet and the recorded response is the mismatch code. */
  method ReplayStep(r: Replayer, log: Bytes, req: Request, junk: Junk, ghost run: seq<Entry>, ghost i: nat)
    returns (reply: Reply, out: Request)
    requires IsRun(run) && i < |run| && Trace(run) <= log && Calls(req, run[i]) && r.Valid() && r.logs == [log]
    modifies r, r.replayFile
    ensures r.Valid() && r.logs == [log]
    ensures r.replayFile == old(r.replayFile) || (old(r.replayFile) == null && fresh(r.replayFile))
    ensures old(Standing(r, log, run, i)) ==>
      if Fails(req, run, i) then reply == Ret(if Unasked(run, i) then -1 else MISMATCH)
      else Standing(r, log, run, i + 1) && AsRecorded(req, run[i], reply, out)
  {
    hide Encode, WellFormed, Trace, Matches, Answered, Asking, Tried;
    ghost var e := run[i];
    if !req.EncDec? { EntryAt(log, run, i); }
    TraceNext(run, i);
    if r.replayFile == null && Standing(r, log, run, i) {
      NothingTraced(run, i);
      assert log[0..] == log;
      if !req.EncDec? {
        assert Candidates(req, [log], [e]);
        assert FirstUsable(req, [e]) == if Usable(req, e) then 0 else 1;
      }
    }
    reply, out := r.Replay(req, junk, [e], e);
  }

  /** Replaying a run from its log answers every step as recorded exactly when every step asks
      what was recorded and the first recorded response is not the mismatch code; it then ends
      on the trace's last byte. */
  method ReplayRun(log: Bytes, reqs: seq<Request>, junk: Junk, ghost run: seq<Entry>)
    returns (replies: seq<Reply>, outs: seq<Request>, r: Replayer)
    requires IsRun(run) && Trace(run) <= log && CallsAgain(reqs, run)
    ensures |replies| == |outs| == |run|
    ensures NoCode(run) || Repeats(reqs, run) ==>
      (AllAsRecorded(reqs, run, replies, outs) <==> FirstFound(run) && Repeats(reqs, run))
    ensures FirstFound(run) && Repeats(reqs, run) ==> Standing(r, log, run, |run|)
    ensures FirstFound(run) && Repeats(reqs, run) ==> forall i :: 0 <= i < |run| ==>
      if reqs[i].EncDec? then replies[i] == Ret(-10087) && outs[i] == reqs[i]
      else
        && replies[i] == Ret(run[i].resp)
        && if reqs[i].StrCmp?
           then run[i].req.StrCmp? && outs[i] == StrCmp(reqs[i].op, reqs[i].left, reqs[i].right, run[i].req.cmp)
           else outs[i] == run[i].req
  {
    hide WellFormed, AsRecorded, Trace, Asking, Matches, Lost, Asks, Calls, NoCode;
    replies, outs := [], [];
    r := new Replayer([log]);
    ghost var failed: nat := |run|;
    for i := 0 to |reqs|
      invariant r.Valid() && r.logs == [log] && |replies| == |outs| == i <= |run|
      invariant fresh(r) && (r.replayFile != null ==> fresh(r.replayFile))
      invariant failed <= |run|
      invariant failed == |run| ==> Standing(r, log, run, i) && AllAsRecorded(reqs, run, replies, outs)
      invariant failed == |run| ==> forall k :: 0 <= k < i ==> !Lost(run, k) && Asks(reqs[k], run[k])
      invariant failed < |run| ==>
        && failed < i && Fails(reqs[failed], run, failed)
        && replies[failed] == Ret(if Unasked(run, failed) then -1 else MISMATCH)
    {
      var reply, out := ReplayStep(r, log, reqs[i], junk, run, i);
      if failed == |run| && Fails(reqs[i], run, i) { failed := i; }
      replies, outs := replies + [reply], outs + [out];
    }
    if failed < |run| && (NoCode(run) || Repeats(reqs, run)) {
      FailedAnswer(reqs, run, failed, replies[failed], outs[failed]);
    }
    if FirstFound(run) && Repeats(reqs, run) { AllAnswers(reqs, run, replies, outs); }
  }

  /** Answers as recorded, spelled out. */
  lemma {:induction false} AllAnswers(reqs: seq<Request>, run: seq<Entry>, replies: seq<Reply>, outs: seq<Request>)
    requires Repeats(reqs, run) && |replies| == |outs| == |run| && AllAsRecorded(reqs, run, replies, outs)
    ensures forall i :: 0 <= i < |run| ==>
      if reqs[i].EncDec? then replies[i] == Ret(-10087) && outs[i] == reqs[i]
      else
        && replies[i] == Ret(run[i].resp)
        && if reqs[i].StrCmp?
           then run[i].req.StrCmp? && outs[i] == StrCmp(reqs[i].op, reqs[i].left, reqs[i].right, run[i].req.cmp)
           else outs[i] == run[i].req
  {
    hide Asking, Matches, Answered;
    forall i | 0 <= i < |run| && !reqs[i].EncDec?
      ensures replies[i] == Ret(run[i].resp)
      ensures if reqs[i].StrCmp?
              then run[i].req.StrCmp? && outs[i] == StrCmp(reqs[i].op, reqs[i].left, reqs[i].right, run[i].req.cmp)
              else outs[i] == run[i].req
    {
      assert Asks(reqs[i], run[i]) && AsRecorded(reqs[i], run[i], replies[i], outs[i]);
      AnsweredIs(reqs[i], run[i].req);
    }
    forall i | 0 <= i < |run| && reqs[i].EncDec? ensures replies[i] == Ret(-10087) && outs[i] == reqs[i] {
      assert AsRecorded(reqs[i], run[i], replies[i], outs[i]);
    }
  }

  lemma {:induction false} FailedAnswer(reqs: seq<Request>, run: seq<Entry>, i: nat, reply: Reply, out: Request)
    requires CallsAgain(reqs, run) && i < |run| && Fails(reqs[i], run, i) && (NoCode(run) || Repeats(reqs, run))
    requires reply == Ret(if Unasked(run, i) then -1 else MISMATCH)
    ensures !AsRecorded(reqs[i], run[i], reply, out)
  {
    assert Calls(reqs[i], run[i]);
    if Repeats(reqs, run) { assert Asks(reqs[i], run[i]); }
  }

  /** Recording any run and replaying the same operations answers every request as the other zone
      did exactly when it asks the same, with that one exception. */
  method RecordAndReplay(run: seq<Entry>, reqs: seq<Request>, junk: Junk)
    returns (replies: seq<Reply>, outs: seq<Request>)
    requires IsRun(run) && CallsAgain(reqs, run)
    ensures |replies| == |outs| == |run|
    ensures NoCode(run) || Repeats(reqs, run) ==>
      (AllAsRecorded(reqs, run, replies, outs) <==> FirstFound(run) && Repeats(reqs, run))
    ensures FirstFound(run) && Repeats(reqs, run) ==> forall i :: 0 <= i < |run| ==>
      if reqs[i].EncDec? then replies[i] == Ret(-10087) && outs[i] == reqs[i]
      else
        && replies[i] == Ret(run[i].resp)
        && if reqs[i].StrCmp?
           then run[i].req.StrCmp? && outs[i] == StrCmp(reqs[i].op, reqs[i].left, reqs[i].right, run[i].req.cmp)
           else outs[i] == run[i].req
  {
    hide AllAsRecorded, FirstFound, Zeros, Repeats, NoCode;
    var log := RecordRun(run);
    var a, b, _ := ReplayRun(log, reqs, junk, run);
    replies, outs := a, b;
  }

  /** One comparison answered with the mismatch code. */
  lemma {:induction false} MismatchCodeIsLost()
    ensures var run := [Entry(Cmp(5, Zeros(ENC_LENGTH), Zeros(ENC_LENGTH), 0), MISMATCH, Zeros(8))];
            IsRun(run) && !FirstFound(run) && Repeats([run[0].req], run)
  {
    var run := [Entry(Cmp(5, Zeros(ENC_LENGTH), Zeros(ENC_LENGTH), 0), MISMATCH, Zeros(8))];
    assert Lost(run, 0);
  }
}
