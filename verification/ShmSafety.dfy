/** What the shared-memory protocol guarantees in every run, and the one situation in
    which it does not. */
module ShmSafety {
  import opened Options
  import opened ShmProtocol
  import opened ShmInvariant

  /** The three assertions of the program hold whenever they are reached. */
  lemma {:induction false} AssertsHold(h: Handler, t: seq<State>, i: nat)
    requires Run(h, t) && i < |t|
    ensures Shaped(t[i])
    ensures forall c :: 0 <= c < |t[i].clients| && (t[i].clients[c].pc.GetLocked? || t[i].clients[c].pc.FreeLocked?) ==>
              t[i].status == ShmNone
    ensures t[i].server.FreeExit? ==> ValidId(t[i].server.id) && t[i].bitmap[t[i].server.id]
  {
    var s := t[i];
    RunKeepsInv(h, t, i);
    forall c | 0 <= c < |s.clients| && (s.clients[c].pc.GetLocked? || s.clients[c].pc.FreeLocked?)
      ensures s.status == ShmNone
    {
      assert LockAt(s, c);
    }
    if s.server.FreeExit? {
      assert LockAt(s, s.lock.value) && BufferAt(s, s.lock.value);
      assert OwnerAt(s, s.server.id);
    }
  }

  /** No two clients work in the same region. */
  predicate Exclusive(s: State) {
    forall c, d :: 0 <= c < |s.clients| && 0 <= d < |s.clients| && c != d
                   && HasBuffer(s.clients[c].pc) && HasBuffer(s.clients[d].pc) ==>
                     s.clients[c].shmId != s.clients[d].shmId
  }

  lemma {:induction false} InvIsExclusive(h: Handler, s: State)
    requires Inv(h, s)
    ensures Exclusive(s)
  {
    forall c, d | 0 <= c < |s.clients| && 0 <= d < |s.clients| && c != d
                  && HasBuffer(s.clients[c].pc) && HasBuffer(s.clients[d].pc)
      ensures s.clients[c].shmId != s.clients[d].shmId
    {
      assert BufferAt(s, c) && BufferAt(s, d);
    }
  }

  lemma {:induction false} RegionsAreExclusive(h: Handler, t: seq<State>, i: nat)
    requires Run(h, t) && i < |t|
    ensures Exclusive(t[i])
  {
    RunKeepsInv(h, t, i);
    InvIsExclusive(h, t[i]);
  }

  /** The processes alive for a region. */
  function LiveChildren(s: State, r: int): set<nat> {
    set p | 0 <= p < |s.children| && s.children[p].region == r && s.children[p].pc != Dead
  }

  /** A set bit has exactly one live child, except between the server's setting the bit and
      its fork, and between its EXIT and its CLEAR; a clear bit has none once freed. */
  lemma {:induction false} OneChildPerBit(h: Handler, t: seq<State>, i: nat, r: int)
    requires Run(h, t) && i < |t| && ValidId(r)
    ensures Shaped(t[i])
    ensures t[i].bitmap[r] && !Forking(t[i].server, r) && t[i].server != FreeExit(r) ==>
              exists p :: LiveChildren(t[i], r) == {p}
    ensures !t[i].bitmap[r] && t[i].server != FreeCleared(r) ==> LiveChildren(t[i], r) == {}
  {
    var s := t[i];
    RunKeepsInv(h, t, i);
    assert OwnerAt(s, r) && RegionAt(h, s, r) && PidAt(s, r);
    forall p | p in LiveChildren(s, r) ensures s.childPid[r] == Some(p) && Kid(s, r) != Dead {
      assert ChildAt(s, p);
    }
    if s.bitmap[r] && !Forking(s.server, r) && s.server != FreeExit(r) {
      var p := s.childPid[r].value;
      assert LiveChildren(s, r) == {p};
    }
  }

  /** A child works on a request only while it is SENT and leaves only on EXIT. */
  lemma {:induction false} ChildActsOnlyWhenTold(h: Handler, t: seq<State>, i: nat, p: nat)
    requires Run(h, t) && i < |t| && p < |t[i].children|
    ensures Shaped(t[i]) && ValidId(t[i].children[p].region)
    ensures var s := t[i]; var g := s.regions[s.children[p].region];
            && (s.children[p].pc.Handles? || s.children[p].pc.Handled? ==> g.status == SENT)
            && (s.children[p].pc.Exits? ==> g.status == EXIT)
  {
    RunKeepsInv(h, t, i);
    assert ChildAt(t[i], p) && RegionAt(h, t[i], t[i].children[p].region);
  }

  /** Every posted request is served exactly once and in order: at any time all of them
      have been, or all but the one that is SENT now. */
  lemma {:induction false} ServedExactlyOnce(h: Handler, t: seq<State>, i: nat, r: int)
    requires Run(h, t) && i < |t| && ValidId(r)
    ensures Shaped(t[i])
    ensures var g := t[i].regions[r];
            g.served == g.sent || (g.status == SENT && g.sent == g.served + [g.buf.req])
  {
    RunKeepsInv(h, t, i);
    assert RegionAt(h, t[i], r) && OwnerAt(t[i], r);
  }

  /** Whatever `sendRequest` returned, and whatever the recorder was given, is the
      handler's answer to that very request. */
  lemma {:induction false} RepliesAreAnswers(h: Handler, t: seq<State>, i: nat, c: nat)
    requires Run(h, t) && i < |t| && c < |t[i].clients|
    ensures forall k :: 0 <= k < |t[i].clients[c].replies| && t[i].clients[c].replies[k].0.reqType > 0 ==>
              t[i].clients[c].replies[k].1 == h(t[i].clients[c].replies[k].0).ans
    ensures forall k :: 0 <= k < |t[i].clients[c].recorded| && t[i].clients[c].recorded[k].0.reqType > 0 ==>
              t[i].clients[c].recorded[k].1 == h(t[i].clients[c].recorded[k].0)
  {
    RunKeepsInv(h, t, i);
    var me := t[i].clients[c];
    assert HistoryOk(h, me);
    forall k | 0 <= k < |me.replies| && me.replies[k].0.reqType > 0 ensures me.replies[k].1 == h(me.replies[k].0).ans {
      assert Replies(h, me.replies[k].0, me.replies[k].1);
    }
    forall k | 0 <= k < |me.recorded| && me.recorded[k].0.reqType > 0
      ensures me.recorded[k].1 == h(me.recorded[k].0)
    {
      assert Fulfils(h, me.recorded[k].0, me.recorded[k].1);
    }
  }

  /** The buffer a client is about to record holds its answer, and the request it posted if and only
      if the handler has left that alone. */
  lemma {:induction false} RecordsOwnRequest(h: Handler, t: seq<State>, i: nat, c: nat)
    requires Run(h, t) && i < |t| && c < |t[i].clients| && t[i].clients[c].pc.Answered?
    ensures Shaped(t[i]) && ValidId(t[i].clients[c].shmId)
    ensures var buf, q := t[i].regions[t[i].clients[c].shmId].buf, t[i].clients[c].pc.q;
            && buf.ans == t[i].clients[c].pc.a && (q.reqType > 0 ==> buf == h(q))
            && (buf.req == q <==> q.reqType <= 0 || h(q).req == q)
  {
    RunKeepsInv(h, t, i);
    MailIsOwn(h, t[i], c);
  }

  // ---- The full bitmap.

  function Acts(h: Handler, s: State, acts: seq<Action>): Option<State>
    decreases |acts|
  {
    if acts == [] then Some(s)
    else if !Shaped(s) then None
    else
      var r := Apply(h, s, acts[0]);
      if r.None? then None else Acts(h, r.value, acts[1..])
  }

  lemma {:induction false} ActsCons(h: Handler, s: State, a: Action, rest: seq<Action>)
    requires Shaped(s) && Apply(h, s, a).Some?
    ensures Acts(h, s, [a] + rest) == Acts(h, Apply(h, s, a).value, rest)
  {
    assert ([a] + rest)[1..] == rest;
  }

  /** The rest of a GET from the moment the server scans the bitmap: its reply, and the
      client's reading of the region number. */
  function FinishGet(c: nat, full: bool): seq<Action> {
    var client := [ClientAct(c, Plain(false)), ClientAct(c, Plain(false))];
    if full then [ServerAct, ServerAct] + client else [ServerAct, ServerAct, ServerAct, ServerAct] + client
  }

  lemma {:induction false} FullGetShares(h: Handler, s: State, c: nat)
    requires Inv(h, s) && FullScan(s) && s.lock == Some(c) && s.clients[c].pc == GetWait
    ensures var e := Acts(h, s, FinishGet(c, true)); e.Some? && !Exclusive(e.value)
  {
    var x := ClientAct(c, Plain(false));
    var s1 := s.(server := GetReply);
    assert FirstFree(s.bitmap, 0) == MAX_REGION_NUM;
    var s2 := s1.(server := Poll, status := ShmDone);
    var s3 := SetPc(s2, c, GetDone);
    var s4 := SetClient(s3, c, s3.clients[c].(pc := GetRead, shmId := s.retId));
    assert FinishGet(c, true) == [ServerAct] + ([ServerAct] + ([x] + ([x] + [])));
    ActsCons(h, s, ServerAct, [ServerAct] + ([x] + ([x] + [])));
    ActsCons(h, s1, ServerAct, [x] + ([x] + []));
    ActsCons(h, s2, x, [x] + []);
    ActsCons(h, s3, x, []);
    assert Acts(h, s, FinishGet(c, true)) == Some(s4);
    assert OwnerAt(s, s.retId);
    var d := s.owner[s.retId].value;
    assert LockAt(s, c) && LockAt(s, d) && Owns(s, s.clients[d], s.retId);
    assert d != c && s4.clients[d] == s.clients[d];
    assert HasBuffer(s4.clients[c].pc) && HasBuffer(s4.clients[d].pc);
    assert s4.clients[c].shmId == s4.clients[d].shmId;
  }

  lemma {:induction false} FreshGetIsExclusive(h: Handler, s: State, c: nat)
    requires Inv(h, s) && s.server == GetScan && !Full(s) && s.lock == Some(c) && s.clients[c].pc == GetWait
    ensures var e := Acts(h, s, FinishGet(c, false)); e.Some? && Exclusive(e.value)
  {
    var x := ClientAct(c, Plain(false));
    ServerKeepsInv(h, s);
    var s1 := ServerStep(s).value;
    assert s1.server.GetSet?;
    ServerKeepsInv(h, s1);
    var s2 := ServerStep(s1).value;
    assert ValidId(s2.server.i);
    ServerKeepsInv(h, s2);
    var s3 := ServerStep(s2).value;
    ServerKeepsInv(h, s3);
    var s4 := ServerStep(s3).value;
    assert s4.status == ShmDone && s4.clients == s.clients;
    HandshakeKeepsInv(h, s4, c, Plain(false));
    var s5 := HandshakeStep(s4, c, Plain(false)).value;
    HandshakeKeepsInv(h, s5, c, Plain(false));
    var s6 := HandshakeStep(s5, c, Plain(false)).value;
    InvIsExclusive(h, s6);
    var tail := [x] + ([x] + []);
    assert FinishGet(c, false) == [ServerAct] + ([ServerAct] + ([ServerAct] + ([ServerAct] + tail)));
    ActsCons(h, s, ServerAct, [ServerAct] + ([ServerAct] + ([ServerAct] + tail)));
    ActsCons(h, s1, ServerAct, [ServerAct] + ([ServerAct] + tail));
    ActsCons(h, s2, ServerAct, [ServerAct] + tail);
    ActsCons(h, s3, ServerAct, tail);
    ActsCons(h, s4, x, [x] + []);
    ActsCons(h, s5, x, []);
  }

  /** A GET keeps the regions exclusive exactly when the scan finds a clear bit. */
  lemma {:induction false} ExclusiveIffNotFull(h: Handler, s: State, c: nat)
    requires Inv(h, s) && s.server == GetScan && s.lock == Some(c) && s.clients[c].pc == GetWait
    ensures var e := Acts(h, s, FinishGet(c, Full(s))); e.Some? && (Exclusive(e.value) <==> !Full(s))
  {
    if Full(s) { FullGetShares(h, s, c); } else { FreshGetIsExclusive(h, s, c); }
  }

  // ---- A run that gets there: seventeen clients ask for a region each.

  const Step0 := Plain(false)

  /** The first `k` clients have their regions, the rest have not started. */
  predicate Taken(h: Handler, s: State, k: nat) {
    && Inv(h, s) && |s.clients| == MAX_REGION_NUM + 1
    && s.lock.None? && s.status == ShmNone && s.server == Poll
    && (forall i :: 0 <= i < MAX_REGION_NUM ==> (s.bitmap[i] <==> i < k))
    && (forall c :: 0 <= c < |s.clients| ==> s.clients[c].pc == if c < k then GotBuffer else Start)
  }

  lemma {:induction false} ActsAppend(h: Handler, s: State, a: seq<Action>, b: seq<Action>)
    requires Acts(h, s, a).Some?
    ensures Acts(h, s, a + b) == Acts(h, Acts(h, s, a).value, b)
    decreases |a|
  {
    if a == [] {
      assert a + b == b;
    } else {
      assert (a + b)[1..] == a[1..] + b;
      ActsAppend(h, Apply(h, s, a[0]).value, a[1..], b);
    }
  }

  /** Client `k` takes the lock, posts GET, and the server starts scanning. */
  lemma {:induction false} AskForRegion(h: Handler, s: State, k: nat) returns (s': State, acts: seq<Action>)
    requires Inv(h, s) && s.lock.None? && s.status == ShmNone && s.server == Poll
    requires k < |s.clients| && s.clients[k].pc == Start
    ensures Acts(h, s, acts) == Some(s') && Inv(h, s')
    ensures s' == s.(server := GetScan, lock := Some(k), status := ShmGet,
                     clients := s.clients[k := s.clients[k].(pc := GetWait)])
  {
    var x := ClientAct(k, Step0);
    HandshakeKeepsInv(h, s, k, Step0);
    var s1 := HandshakeStep(s, k, Step0).value;
    HandshakeKeepsInv(h, s1, k, Step0);
    var s2 := HandshakeStep(s1, k, Step0).value;
    ServerKeepsInv(h, s2);
    s' := ServerStep(s2).value;
    acts := [x] + ([x] + ([ServerAct] + []));
    ActsCons(h, s, x, [x] + ([ServerAct] + []));
    ActsCons(h, s1, x, [ServerAct] + []);
    ActsCons(h, s2, ServerAct, []);
  }

  /** The server hands out the first free region and replies. */
  lemma {:induction false} GrantRegion(h: Handler, s: State, k: nat) returns (s': State, acts: seq<Action>)
    requires Inv(h, s) && s.server == GetScan && k < MAX_REGION_NUM
    requires !s.bitmap[k] && forall i :: 0 <= i < k ==> s.bitmap[i]
    ensures Acts(h, s, acts) == Some(s') && Inv(h, s')
    ensures s' == s.(server := Poll, status := ShmDone, retId := k, bitmap := s.bitmap[k := true],
                     owner := s.owner[k := s.lock], children := s.children + [Child(k, Waits)],
                     childPid := s.childPid[k := Some(|s.children|)])
  {
    assert !s.bitmap[k];
    assert FirstFree(s.bitmap, 0) == k;
    ServerKeepsInv(h, s);
    var s1 := ServerStep(s).value;
    ServerKeepsInv(h, s1);
    var s2 := ServerStep(s1).value;
    ServerKeepsInv(h, s2);
    var s3 := ServerStep(s2).value;
    ServerKeepsInv(h, s3);
    s' := ServerStep(s3).value;
    acts := [ServerAct] + ([ServerAct] + ([ServerAct] + ([ServerAct] + [])));
    ActsCons(h, s, ServerAct, [ServerAct] + ([ServerAct] + ([ServerAct] + [])));
    ActsCons(h, s1, ServerAct, [ServerAct] + ([ServerAct] + []));
    ActsCons(h, s2, ServerAct, [ServerAct] + []);
    ActsCons(h, s3, ServerAct, []);
  }

  /** The client reads the number, clears the meta status and releases the lock. */
  lemma {:induction false} CollectRegion(h: Handler, s: State, k: nat) returns (s': State, acts: seq<Action>)
    requires Inv(h, s) && s.server == Poll && s.status == ShmDone && s.lock == Some(k)
    requires k < |s.clients| && s.clients[k].pc == GetWait
    ensures Acts(h, s, acts) == Some(s') && Inv(h, s')
    ensures s' == s.(status := ShmNone, lock := None,
                     clients := s.clients[k := s.clients[k].(pc := GotBuffer, shmId := s.retId)])
  {
    var x := ClientAct(k, Step0);
    HandshakeKeepsInv(h, s, k, Step0);
    var s1 := HandshakeStep(s, k, Step0).value;
    HandshakeKeepsInv(h, s1, k, Step0);
    var s2 := HandshakeStep(s1, k, Step0).value;
    HandshakeKeepsInv(h, s2, k, Step0);
    var s3 := HandshakeStep(s2, k, Step0).value;
    HandshakeKeepsInv(h, s3, k, Step0);
    s' := HandshakeStep(s3, k, Step0).value;
    acts := [x] + ([x] + ([x] + ([x] + [])));
    ActsCons(h, s, x, [x] + ([x] + ([x] + [])));
    ActsCons(h, s1, x, [x] + ([x] + []));
    ActsCons(h, s2, x, [x] + []);
    ActsCons(h, s3, x, []);
  }

  lemma {:induction false} TakeRegions(h: Handler, s: State, k: nat) returns (s': State, acts: seq<Action>)
    requires Taken(h, s, k) && k <= MAX_REGION_NUM
    ensures Acts(h, s, acts) == Some(s') && Taken(h, s', MAX_REGION_NUM)
    decreases MAX_REGION_NUM - k
  {
    if k == MAX_REGION_NUM { return s, []; }
    var s1, a1 := AskForRegion(h, s, k);
    var s2, a2 := GrantRegion(h, s1, k);
    var s3, a3 := CollectRegion(h, s2, k);
    var a4: seq<Action>;
    s', a4 := TakeRegions(h, s3, k + 1);
    acts := a1 + (a2 + (a3 + a4));
    ActsAppend(h, s, a1, a2 + (a3 + a4));
    ActsAppend(h, s1, a2, a3 + a4);
    ActsAppend(h, s2, a3, a4);
  }

  /** Zeroed memory and `n` clients. */
  function FirstState(n: nat): (s: State)
    ensures Init(s) && |s.clients| == n
  {
    var g := Region(NONE, Buffer(Request(0, []), Answer(0, [])), [], []);
    State(None, ShmNone, 0, 0, seq(MAX_REGION_NUM, _ => false), seq(MAX_REGION_NUM, _ => None),
          seq(MAX_REGION_NUM, _ => g), seq(n, _ => Client(Start, 0, [], [])), Poll, [], seq(MAX_REGION_NUM, _ => None))
  }

  /** With seventeen clients the protocol can hand one region to two of them. */
  lemma {:induction false} SeventeenClientsCanShare(h: Handler) returns (s: State, acts: seq<Action>)
    ensures Init(s) && |s.clients| == 17
    ensures Acts(h, s, acts).Some? && !Exclusive(Acts(h, s, acts).value)
  {
    s := FirstState(MAX_REGION_NUM + 1);
    InitInv(h, s);
    var s1, a1 := TakeRegions(h, s, 0);
    var s2, a2 := AskForRegion(h, s1, MAX_REGION_NUM);
    FullGetShares(h, s2, MAX_REGION_NUM);
    var a3 := FinishGet(MAX_REGION_NUM, true);
    acts := a1 + (a2 + a3);
    ActsAppend(h, s, a1, a2 + a3);
    ActsAppend(h, s1, a2, a3);
  }
}
