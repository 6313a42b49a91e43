/** What the shared-memory protocol does for its clients: every region asked for can be given,
    every request posted answered, recorded and returned, and every region given back. */
module ShmService {
  import opened Options
  import opened ShmInvariant
  import opened ShmProtocol
  import opened ShmSafety

  // ---- What is recorded and returned, in every run.

  /** A run with the steps it took. */
  ghost predicate ActionRun(h: Handler, t: seq<State>, a: seq<Action>) {
    && |t| == |a| + 1 && Init(t[0])
    && forall i :: 0 <= i < |a| ==> Shaped(t[i]) && Apply(h, t[i], a[i]) == Some(t[i + 1])
  }

  /** The clients' number stays, and only a client's own steps change what it has. */
  lemma {:induction false} StepOfOther(h: Handler, s: State, a: Action, c: nat)
    requires Shaped(s) && Apply(h, s, a).Some? && c < |s.clients| && !(a.ClientAct? && a.c == c)
    ensures var s' := Apply(h, s, a).value; |s'.clients| == |s.clients| && s'.clients[c] == s.clients[c]
  {
  }

  /** A step gives the recorder the buffer exactly when it is the client's own, with the request
      answered and record mode on; and it returns an answer exactly after that. */
  lemma {:induction false} StepRecords(h: Handler, s: State, a: Action, c: nat)
    requires Shaped(s) && Apply(h, s, a).Some? && c < |s.clients|
    ensures var me, s' := s.clients[c], Apply(h, s, a).value;
            && |s'.clients| == |s.clients|
            && (a == ClientAct(c, Plain(true)) && me.pc.Answered? ==> 0 <= me.shmId < |s.regions|)
            && s'.clients[c].recorded ==
               me.recorded + (if a == ClientAct(c, Plain(true)) && me.pc.Answered?
                              then [(me.pc.q, s.regions[me.shmId].buf)] else [])
            && s'.clients[c].replies ==
               me.replies + (if a.ClientAct? && a.c == c && me.pc.Logged? then [(me.pc.q, me.pc.a)] else [])
  {
    if a.ClientAct? && a.c == c {
      var me := s.clients[c];
      if UsesMail(me.pc) {
        MailRecords(me, s.regions[me.shmId], a.choice);
      } else {
        HandshakeFrame(s, c, a.choice);
      }
    } else {
      StepOfOther(h, s, a, c);
    }
  }

  lemma {:induction false} MailRecords(me: Client, g: Region, choice: Choice)
    requires MailStep(me, g, choice).Some?
    ensures var me' := MailStep(me, g, choice).value.0;
            && me'.recorded ==
               me.recorded + (if choice == Plain(true) && me.pc.Answered? then [(me.pc.q, g.buf)] else [])
            && me'.replies == me.replies + (if me.pc.Logged? then [(me.pc.q, me.pc.a)] else [])
  {
  }

  /** What the first `n` steps hand to the recorder of client `c`. */
  ghost function Recordings(h: Handler, t: seq<State>, a: seq<Action>, c: nat, n: nat): seq<(Request, Buffer)>
    requires ActionRun(h, t, a) && n <= |a| && c < |t[0].clients|
  {
    if n == 0 then []
    else
      SameClients(h, t, a, n - 1);
      Recordings(h, t, a, c, n - 1) + RecordedBy(t[n - 1], a[n - 1], c)
  }

  function RecordedBy(s: State, a: Action, c: nat): seq<(Request, Buffer)>
    requires c < |s.clients|
  {
    var me := s.clients[c];
    if a == ClientAct(c, Plain(true)) && me.pc.Answered? && 0 <= me.shmId < |s.regions|
    then [(me.pc.q, s.regions[me.shmId].buf)] else []
  }

  /** The requests client `c` has posted in the first `n` steps. */
  ghost function Posted(h: Handler, t: seq<State>, a: seq<Action>, c: nat, n: nat): seq<Request>
    requires ActionRun(h, t, a) && n <= |a| && c < |t[0].clients|
  {
    if n == 0 then []
    else
      SameClients(h, t, a, n - 1);
      Posted(h, t, a, c, n - 1)
      + (if a[n - 1].ClientAct? && a[n - 1].c == c && a[n - 1].choice.Send? && t[n - 1].clients[c].pc == Idle
         then [a[n - 1].choice.q] else [])
  }

  lemma {:induction false} SameClients(h: Handler, t: seq<State>, a: seq<Action>, n: nat)
    requires ActionRun(h, t, a) && n <= |a|
    ensures |t[n].clients| == |t[0].clients|
    decreases n
  {
    hide Apply, Init;
    if n > 0 {
      SameClients(h, t, a, n - 1);
      if |t[0].clients| > 0 {
        StepRecords(h, t[n - 1], a[n - 1], 0);
      } else {
        NoClients(h, t[n - 1], a[n - 1]);
      }
    }
  }

  lemma {:induction false} NoClients(h: Handler, s: State, a: Action)
    requires Shaped(s) && Apply(h, s, a).Some? && s.clients == []
    ensures Apply(h, s, a).value.clients == []
  {
  }

  /** In every run, full bitmap or not: what the recorder has been given is, in order and once each,
      the buffers of the requests that were answered while record mode was on. */
  lemma {:induction false} RecordedExactly(h: Handler, t: seq<State>, a: seq<Action>, c: nat, n: nat)
    requires ActionRun(h, t, a) && n <= |a| && c < |t[0].clients|
    ensures c < |t[n].clients| && t[n].clients[c].recorded == Recordings(h, t, a, c, n)
    decreases n
  {
    hide Apply;
    SameClients(h, t, a, n);
    if n > 0 {
      RecordedExactly(h, t, a, c, n - 1);
      StepRecords(h, t[n - 1], a[n - 1], c);
    }
  }

  function Asked(replies: seq<(Request, Answer)>): seq<Request> {
    seq(|replies|, k requires 0 <= k < |replies| => replies[k].0)
  }

  /** The request a client is waiting with. */
  function Open(pc: ClientPc): seq<Request> {
    if pc.Ready? || pc.Waiting? || pc.Answered? || pc.Logged? then [pc.q] else []
  }

  lemma {:induction false} StepPosts(h: Handler, s: State, a: Action, c: nat)
    requires Shaped(s) && Apply(h, s, a).Some? && c < |s.clients|
    ensures var me, s' := s.clients[c], Apply(h, s, a).value;
            && |s'.clients| == |s.clients|
            && Asked(s'.clients[c].replies) + Open(s'.clients[c].pc) ==
               Asked(me.replies) + Open(me.pc)
               + (if a.ClientAct? && a.c == c && a.choice.Send? && me.pc == Idle then [a.choice.q] else [])
  {
    if a.ClientAct? && a.c == c {
      var me := s.clients[c];
      if UsesMail(me.pc) { MailPosts(me, s.regions[me.shmId], a.choice); } else { HandshakeFrame(s, c, a.choice); }
    } else {
      StepOfOther(h, s, a, c);
    }
  }

  lemma {:induction false} MailPosts(me: Client, g: Region, choice: Choice)
    requires UsesMail(me.pc) && MailStep(me, g, choice).Some?
    ensures var me' := MailStep(me, g, choice).value.0;
            Asked(me'.replies) + Open(me'.pc) ==
            Asked(me.replies) + Open(me.pc) + (if choice.Send? && me.pc == Idle then [choice.q] else [])
  {
    if me.pc.Logged? { assert Asked(me.replies + [(me.pc.q, me.pc.a)]) == Asked(me.replies) + [me.pc.q]; }
  }

  /** In every run: a client has one reply for each request it has posted, in that order, but for the
      one it is waiting with. */
  lemma {:induction false} RepliedExactly(h: Handler, t: seq<State>, a: seq<Action>, c: nat, n: nat)
    requires ActionRun(h, t, a) && n <= |a| && c < |t[0].clients|
    ensures c < |t[n].clients| && Asked(t[n].clients[c].replies) + Open(t[n].clients[c].pc) == Posted(h, t, a, c, n)
    decreases n
  {
    hide Apply, Asked;
    SameClients(h, t, a, n);
    if n == 0 {
      NothingAsked();
    } else {
      RepliedExactly(h, t, a, c, n - 1);
      StepPosts(h, t[n - 1], a[n - 1], c);
    }
  }

  lemma {:induction false} NothingAsked()
    ensures Asked([]) == []
  {
  }

  // ---- Asking for a region.

  lemma {:induction false} Then(h: Handler, s: State, acts: seq<Action>, m: State, a: Action)
    returns (acts': seq<Action>, s': State)
    requires Acts(h, s, acts) == Some(m) && Inv(h, m) && !FullScan(m) && Apply(h, m, a).Some?
    ensures Acts(h, s, acts') == Some(s') && Apply(h, m, a) == Some(s') && Inv(h, s')
  {
    hide Inv, Apply;
    LockFrame(h, m);
    acts', s' := acts + ([a] + []), Apply(h, m, a).value;
    ActsCons(h, m, a, []);
    ActsAppend(h, s, acts, [a] + []);
    assert Next(h, m, s');
    NextKeepsInv(h, m, s');
  }

  lemma {:induction false} LockFrame(h: Handler, s: State)
    requires Inv(h, s)
    ensures Shaped(s)
  {
  }

  /** With the lock free, a client can get the region of the first clear bit. */
  lemma {:induction false} RegionGiven(h: Handler, s: State, c: nat, k: nat) returns (s': State, acts: seq<Action>)
    requires Inv(h, s) && s.lock == None && c < |s.clients| && s.clients[c].pc == Start
    requires k < 16 && !s.bitmap[k] && forall i :: 0 <= i < k ==> s.bitmap[i]
    ensures Acts(h, s, acts) == Some(s') && Inv(h, s')
    ensures s'.lock == None && s'.status == ShmNone && s'.server == Poll && s'.regions == s.regions
    ensures s'.clients == s.clients[c := s.clients[c].(pc := GotBuffer, shmId := k)]
    ensures s'.bitmap == s.bitmap[k := true] && s'.owner == s.owner[k := Some(c)]
    ensures s'.children == s.children + [Child(k, Waits)] && s'.childPid == s.childPid[k := Some(|s.children|)]
  {
    hide Inv, Acts;
    LockFree(h, s);
    var s1, a1 := AskForRegion(h, s, c);
    var s2, a2 := GrantRegion(h, s1, k);
    var s3, a3 := CollectRegion(h, s2, c);
    s', acts := s3, a1 + (a2 + a3);
    ActsAppend(h, s, a1, a2 + a3);
    ActsAppend(h, s1, a2, a3);
  }

  lemma {:induction false} LockFree(h: Handler, s: State)
    requires Inv(h, s) && s.lock == None
    ensures Shaped(s) && s.status == ShmNone && s.server == Poll
  {
  }

  // ---- Posting a request.

  /** A client with a region can post a request, and is given the handler's answer to it; with record
      mode on, the recorder is given what the handler has made of the buffer. Nobody else moves. */
  lemma {:induction false} RequestServed(h: Handler, s: State, c: nat, q: Request, record: bool)
    returns (s': State, acts: seq<Action>)
    requires Inv(h, s) && s.server == Poll && c < |s.clients| && s.clients[c].pc == Idle
    ensures Acts(h, s, acts) == Some(s') && Inv(h, s')
    ensures 0 <= s.clients[c].shmId < |s.regions|
    ensures var me, g := s.clients[c], s.regions[s.clients[c].shmId];
            var b := if q.reqType > 0 then h(q) else Buffer(q, g.buf.ans);
            && s' == s.(clients := s.clients[c := Client(Idle, me.shmId, me.replies + [(q, b.ans)],
                                                         me.recorded + (if record then [(q, b)] else []))],
                        regions := s.regions[me.shmId := Region(NONE, b, g.sent + [q], g.served + [q])])
  {
    hide Inv, Acts;
    var s1, a1 := Post(h, s, c, q);
    var p := OwnChild(h, s, c);
    var s2, a2 := Serve(h, s1, p, q);
    var s3, a3 := Return(h, s2, c, q, s2.regions[s.clients[c].shmId].buf, record);
    s', acts := s3, a1 + (a2 + a3);
    ActsAppend(h, s, a1, a2 + a3);
    ActsAppend(h, s1, a2, a3);
  }

  lemma {:induction false} Post(h: Handler, s: State, c: nat, q: Request) returns (s': State, acts: seq<Action>)
    requires Inv(h, s) && s.server == Poll && c < |s.clients| && s.clients[c].pc == Idle
    ensures Acts(h, s, acts) == Some(s') && Inv(h, s') && 0 <= s.clients[c].shmId < |s.regions|
    ensures var r, g := s.clients[c].shmId, s.regions[s.clients[c].shmId];
            s' == s.(clients := s.clients[c := s.clients[c].(pc := Waiting(q))],
                     regions := s.regions[r := Region(SENT, Buffer(q, g.buf.ans), g.sent + [q], g.served)])
  {
    hide Inv, Acts;
    var _ := OwnChild(h, s, c);
    NothingDone(h, s);
    acts, s' := Then(h, s, [], s, ClientAct(c, Send(q)));
    acts, s' := Then(h, s, acts, s', ClientAct(c, Step0));
  }

  lemma {:induction false} NothingDone(h: Handler, s: State)
    ensures Acts(h, s, []) == Some(s)
  {
  }

  lemma {:induction false} Serve(h: Handler, s: State, p: nat, q: Request) returns (s': State, acts: seq<Action>)
    requires Inv(h, s) && s.server == Poll && p < |s.children| && s.children[p].pc == Waits
    requires ValidId(s.children[p].region) && s.regions[s.children[p].region].status == SENT
    requires s.regions[s.children[p].region].buf.req == q
    ensures Acts(h, s, acts) == Some(s') && Inv(h, s')
    ensures var r, g := s.children[p].region, s.regions[s.children[p].region];
            s' == s.(regions := s.regions[r := Region(DONE, if q.reqType > 0 then h(q) else g.buf, g.sent,
                                                      g.served + [q])])
  {
    hide Inv, Acts;
    NothingDone(h, s);
    LockFrame(h, s);
    var r, g := s.children[p].region, s.regions[s.children[p].region];
    var b := if q.reqType > 0 then h(q) else g.buf;
    acts, s' := Then(h, s, [], s, ChildAct(p));
    assert s' == s.(children := s.children[p := Child(r, Handles)]);
    acts, s' := Then(h, s, acts, s', ChildAct(p));
    assert s' == s.(children := s.children[p := Child(r, Handled)],
                    regions := s.regions[r := Region(SENT, b, g.sent, g.served + [q])]);
    acts, s' := Then(h, s, acts, s', ChildAct(p));
    assert s'.children == s.children;
  }

  lemma {:induction false} Return(h: Handler, s: State, c: nat, q: Request, b: Buffer, record: bool)
    returns (s': State, acts: seq<Action>)
    requires Inv(h, s) && s.server == Poll && c < |s.clients| && s.clients[c].pc == Waiting(q)
    requires ValidId(s.clients[c].shmId) && s.regions[s.clients[c].shmId].status == DONE
    requires s.regions[s.clients[c].shmId].buf == b
    ensures Acts(h, s, acts) == Some(s') && Inv(h, s')
    ensures var me, r := s.clients[c], s.clients[c].shmId;
            s' == s.(clients := s.clients[c := Client(Idle, r, me.replies + [(q, b.ans)],
                                                      me.recorded + (if record then [(q, b)] else []))],
                     regions := s.regions[r := s.regions[r].(status := NONE)])
  {
    hide Inv, Acts;
    NothingDone(h, s);
    LockFrame(h, s);
    var me, r := s.clients[c], s.clients[c].shmId;
    var log := me.recorded + (if record then [(q, b)] else []);
    assert me.recorded + [] == me.recorded;
    acts, s' := Then(h, s, [], s, ClientAct(c, Step0));
    assert s.regions[r := s.regions[r]] == s.regions;
    assert s' == s.(clients := s.clients[c := me.(pc := Answered(q, b.ans))]);
    acts, s' := Then(h, s, acts, s', ClientAct(c, Plain(record)));
    assert s' == s.(clients := s.clients[c := me.(pc := Logged(q, b.ans), recorded := log)]);
    acts, s' := Then(h, s, acts, s', ClientAct(c, Step0));
  }

  /** The child that serves a client between requests. */
  lemma {:induction false} OwnChild(h: Handler, s: State, c: nat) returns (p: nat)
    requires Inv(h, s) && c < |s.clients| && s.clients[c].pc == Idle
    ensures Shaped(s) && ValidId(s.clients[c].shmId) && p < |s.children|
    ensures s.childPid[s.clients[c].shmId] == Some(p) && s.children[p] == Child(s.clients[c].shmId, Waits)
    ensures s.regions[s.clients[c].shmId].status == NONE
  {
    MailIsOwn(h, s, c);
    var id := s.clients[c].shmId;
    assert PidAt(s, id);
    p := s.childPid[id].value;
  }

  // ---- Giving the region back.

  /** With the lock free, a client can give its region back: its bit is clear and its child gone. */
  lemma {:induction false} RegionTakenBack(h: Handler, s: State, c: nat) returns (s': State, acts: seq<Action>)
    requires Inv(h, s) && s.lock == None && c < |s.clients| && s.clients[c].pc == Idle
    ensures Acts(h, s, acts) == Some(s') && Inv(h, s')
    ensures 0 <= s.clients[c].shmId < 16
    ensures s'.lock == None && s'.status == ShmNone && s'.server == Poll
    ensures s'.clients == s.clients[c := s.clients[c].(pc := Finished)]
    ensures s'.bitmap == s.bitmap[s.clients[c].shmId := false] && s'.owner == s.owner[s.clients[c].shmId := None]
    ensures LiveChildren(s', s.clients[c].shmId) == {}
  {
    hide Inv, Acts;
    LockFree(h, s);
    var r := s.clients[c].shmId;
    var p := OwnChild(h, s, c);
    var s1, a1 := HandBack(h, s, c);
    var s2, a2 := TearDown(h, s1, r, p);
    var s3, a3 := Leave(h, s2, c, r, p);
    s', acts := s3, a1 + (a2 + a3);
    ActsAppend(h, s, a1, a2 + a3);
    ActsAppend(h, s1, a2, a3);
    NoneAlive(h, s', r);
  }

  lemma {:induction false} HandBack(h: Handler, s: State, c: nat) returns (s': State, acts: seq<Action>)
    requires Inv(h, s) && s.lock == None && s.server == Poll && c < |s.clients| && s.clients[c].pc == Idle
    ensures Acts(h, s, acts) == Some(s') && Inv(h, s') && ValidId(s.clients[c].shmId)
    ensures s' == s.(lock := Some(c), status := ShmFree, freeId := s.clients[c].shmId,
                     clients := s.clients[c := s.clients[c].(pc := FreeWait)])
  {
    hide Inv, Acts;
    var _ := OwnChild(h, s, c);
    NothingDone(h, s);
    acts, s' := Then(h, s, [], s, ClientAct(c, Release));
    assert s'.regions == s.regions;
    acts, s' := Then(h, s, acts, s', ClientAct(c, Step0));
    acts, s' := Then(h, s, acts, s', ClientAct(c, Step0));
    acts, s' := Then(h, s, acts, s', ClientAct(c, Step0));
  }

  lemma {:induction false} TearDown(h: Handler, s: State, r: int, p: nat) returns (s': State, acts: seq<Action>)
    requires Inv(h, s) && s.server == Poll && s.status == ShmFree && s.freeId == r && ValidId(r)
    requires p < |s.children| && s.children[p] == Child(r, Waits)
    ensures Acts(h, s, acts) == Some(s') && Inv(h, s')
    ensures s' == s.(server := FreeCleared(r), bitmap := s.bitmap[r := false], owner := s.owner[r := None],
                     regions := s.regions[r := s.regions[r].(status := NONE)],
                     children := s.children[p := Child(r, Dead)])
  {
    hide Inv, Acts;
    NothingDone(h, s);
    LockFrame(h, s);
    var s1 := s.(server := FreeCleared(r), bitmap := s.bitmap[r := false], owner := s.owner[r := None]);
    var g := s.regions[r];
    acts, s' := Then(h, s, [], s, ServerAct);
    acts, s' := Then(h, s, acts, s', ServerAct);
    acts, s' := Then(h, s, acts, s', ServerAct);
    assert s' == s1.(regions := s.regions[r := g.(status := EXIT)]);
    acts, s' := Then(h, s, acts, s', ChildAct(p));
    assert s' == s1.(regions := s.regions[r := g.(status := EXIT)], children := s.children[p := Child(r, Exits)]);
    acts, s' := Then(h, s, acts, s', ChildAct(p));
    assert s' == s1.(regions := s.regions[r := g.(status := NONE)], children := s.children[p := Child(r, Exiting)]);
    acts, s' := Then(h, s, acts, s', ChildAct(p));
  }

  lemma {:induction false} Leave(h: Handler, s: State, c: nat, r: int, p: nat) returns (s': State, acts: seq<Action>)
    requires Inv(h, s) && s.server == FreeCleared(r) && ValidId(r) && s.childPid[r] == Some(p)
    requires p < |s.children| && s.children[p].pc == Dead && c < |s.clients| && s.clients[c].pc == FreeWait
    ensures Acts(h, s, acts) == Some(s') && Inv(h, s')
    ensures s' == s.(server := Poll, status := ShmNone, lock := None,
                     clients := s.clients[c := s.clients[c].(pc := Finished)])
  {
    hide Inv, Acts;
    NothingDone(h, s);
    acts, s' := Then(h, s, [], s, ServerAct);
    acts, s' := Then(h, s, acts, s', ServerAct);
    acts, s' := Then(h, s, acts, s', ClientAct(c, Step0));
    acts, s' := Then(h, s, acts, s', ClientAct(c, Step0));
    acts, s' := Then(h, s, acts, s', ClientAct(c, Step0));
  }

  lemma {:induction false} NoneAlive(h: Handler, s: State, r: int)
    requires Inv(h, s) && s.server == Poll && ValidId(r) && s.owner[r] == None
    ensures LiveChildren(s, r) == {}
  {
    assert RegionAt(h, s, r) && OwnerAt(s, r) && PidAt(s, r);
    assert Kid(s, r) == Dead;
    forall p | 0 <= p < |s.children| && s.children[p].region == r ensures s.children[p].pc == Dead {
      assert ChildAt(s, p);
    }
  }
}
