/** The lock of the shared-memory protocol: who holds it, in every run, and when another client
    can still take it. */
module ShmLock {
  import opened Options
  import opened ShmInvariant
  import opened ShmProtocol
  import opened ShmSafety

  // ---- What every step keeps, whatever the bitmap.

  lemma {:induction false} MailKeepsLock(s: State, c: nat, choice: Choice)
    requires Shaped(s) && LockInv(s) && c < |s.clients| && UsesMail(s.clients[c].pc) && ClientStep(s, c, choice).Some?
    ensures Shaped(ClientStep(s, c, choice).value) && LockInv(ClientStep(s, c, choice).value)
  {
    var s' := ClientStep(s, c, choice).value;
    MailStepFrame(s.clients[c], s.regions[s.clients[c].shmId], choice);
    assert LockAt(s, c);
    forall d | 0 <= d < |s'.clients| ensures LockAt(s', d) { assert LockAt(s, d); }
  }

  lemma {:induction false} ChildKeepsLock(h: Handler, s: State, p: nat)
    requires Shaped(s) && LockInv(s) && p < |s.children| && ChildStep(h, s, p).Some?
    ensures Shaped(ChildStep(h, s, p).value) && LockInv(ChildStep(h, s, p).value)
  {
    var s' := ChildStep(h, s, p).value;
    assert s'.clients == s.clients && s'.lock == s.lock && s'.status == s.status && s'.server == s.server;
    forall d | 0 <= d < |s'.clients| ensures LockAt(s', d) { assert LockAt(s, d); }
  }

  lemma {:induction false} ApplyKeepsLock(h: Handler, s: State, a: Action)
    requires Shaped(s) && LockInv(s) && Apply(h, s, a).Some?
    ensures Shaped(Apply(h, s, a).value) && LockInv(Apply(h, s, a).value)
  {
    hide LockInv, ChildStep, ServerStep, MailStep;
    match a
    case ClientAct(c, choice) =>
      if UsesMail(s.clients[c].pc) { MailKeepsLock(s, c, choice); } else {
        HandshakeKeepsLock(s, c, choice);
        HandshakeFrame(s, c, choice);
      }
    case ServerAct => ServerKeepsLock(s);
    case ChildAct(p) => ChildKeepsLock(h, s, p);
  }

  lemma {:induction false} RunKeepsLock(h: Handler, t: seq<State>, i: nat)
    requires AnyRun(h, t) && i < |t|
    ensures Shaped(t[i]) && LockInv(t[i])
    decreases i
  {
    hide Apply, LockInv, Shaped;
    if i == 0 {
      InitInv(h, t[0]);
      assert Inv(h, t[0]);
    } else {
      RunKeepsLock(h, t, i - 1);
      assert Next(h, t[i - 1], t[i - 1 + 1]);
      var a :| Apply(h, t[i - 1], a) == Some(t[i]);
      ApplyKeepsLock(h, t[i - 1], a);
    }
  }

  /** At most one client is between taking and releasing the lock. */
  lemma {:induction false} MutualExclusion(h: Handler, t: seq<State>, i: nat, c: nat, d: nat)
    requires AnyRun(h, t) && i < |t| && c < |t[i].clients| && d < |t[i].clients|
    requires HoldsLock(t[i].clients[c].pc) && HoldsLock(t[i].clients[d].pc)
    ensures c == d
  {
    RunKeepsLock(h, t, i);
    assert LockAt(t[i], c) && LockAt(t[i], d);
  }

  // ---- Giving up.

  lemma {:induction false} StoppedStays(h: Handler, s: State, a: Action, c: nat)
    requires Shaped(s) && Apply(h, s, a).Some? && c < |s.clients| && s.clients[c].pc.Stopped?
    ensures var s' := Apply(h, s, a).value; |s'.clients| == |s.clients| && s'.clients[c] == s.clients[c]
  {
  }

  lemma {:induction false} StaysStopped(h: Handler, t: seq<State>, i: nat, j: nat, c: nat)
    requires AnyRun(h, t) && i <= j < |t| && c < |t[i].clients| && t[i].clients[c].pc.Stopped?
    ensures c < |t[j].clients| && t[j].clients[c].pc.Stopped?
    decreases j - i
  {
    hide Apply, Init, FullScan;
    if i < j {
      StaysStopped(h, t, i, j - 1, c);
      assert Next(h, t[j - 1], t[j - 1 + 1]);
      var a :| Apply(h, t[j - 1], a) == Some(t[j]);
      StoppedStays(h, t[j - 1], a, c);
    }
  }

  /** A client that gave up in the handshake never moves again and keeps the lock, so no other
      client takes it in any later state. */
  lemma {:induction false} AbandonedLock(h: Handler, t: seq<State>, i: nat, j: nat, c: nat)
    requires AnyRun(h, t) && i <= j < |t| && c < |t[i].clients| && t[i].clients[c].pc.Stopped?
    ensures c < |t[j].clients| && t[j].lock == Some(c)
    ensures forall d :: 0 <= d < |t[j].clients| && d != c ==> !HoldsLock(t[j].clients[d].pc)
  {
    StaysStopped(h, t, i, j, c);
    RunKeepsLock(h, t, j);
    assert LockAt(t[j], c);
    forall d | 0 <= d < |t[j].clients| && d != c ensures !HoldsLock(t[j].clients[d].pc) { assert LockAt(t[j], d); }
  }

  /** Two clients: one takes the lock, posts GET and gives up before the server has answered. */
  lemma {:induction false} GivingUp(h: Handler) returns (t: seq<State>)
    ensures Run(h, t) && |t| == 4 && |t[3].clients| == 2
    ensures t[3].clients[0].pc == Stopped && t[3].clients[1].pc == Start
  {
    hide Init, Next, FullScan;
    var s := FirstState(2);
    NotScanning(s);
    var s1 := Move(h, s, ClientAct(0, Step0));
    NotScanning(s1);
    var s2 := Move(h, s1, ClientAct(0, Step0));
    NotScanning(s2);
    var s3 := Move(h, s2, ClientAct(0, GiveUp));
    NotScanning(s3);
    t := [s, s1, s2, s3];
  }

  lemma {:induction false} NotScanning(s: State)
    requires s.server == Poll
    ensures !FullScan(s)
  {
  }

  lemma {:induction false} Move(h: Handler, s: State, a: Action) returns (s': State)
    requires Shaped(s) && Apply(h, s, a).Some?
    ensures Some(s') == Apply(h, s, a) && Next(h, s, s')
  {
    s' := Apply(h, s, a).value;
  }

  // ---- Letting go: the steps that take the holder to the release of the lock.

  function Holder(s: State): Client
    requires s.lock.Some? && s.lock.value < |s.clients|
  {
    s.clients[s.lock.value]
  }

  predicate Getting(pc: ClientPc) { pc.GetLocked? || pc.GetWait? || pc.GetDone? || pc.GetRead? || pc.GetUnlock? }

  /** The holder has not given up. In a release everything is as the invariant says; in a GET
      the bitmap may be full. */
  predicate Held(h: Handler, s: State) {
    && Shaped(s) && LockInv(s) && s.lock.Some? && !Holder(s).pc.Stopped?
    && (s.server.GetSet? || s.server.GetRet? ==> ValidId(s.server.i))
    && (Getting(Holder(s).pc) || Inv(h, s))
  }

  function KidRank(pc: ChildPc): nat {
    match pc
    case Waits => 3
    case Exits => 2
    case Exiting => 1
    case _ => 0
  }

  /** Steps the server and the child still need for the reply. */
  function Work(s: State): nat
    requires Shaped(s)
  {
    if s.status == ShmDone then 0
    else
      match s.server
      case GetScan => 4
      case GetSet(_) => 3
      case GetRet(_) => 2
      case GetReply => 1
      case FreeRead(_) => 7
      case FreeExit(_) => 6
      case FreeCleared(id) => 2 + (if ValidId(id) then KidRank(Kid(s, id)) else 0)
      case FreeReply => 1
      case Poll => 8
  }

  function Rank(s: State): nat
    requires Shaped(s) && s.lock.Some? && s.lock.value < |s.clients|
  {
    match Holder(s).pc
    case FreeLocked => 15
    case FreeIdSet => 14
    case GetLocked => 14
    case GetWait | FreeWait => 4 + Work(s)
    case GetDone => 3
    case GetRead | FreeDone => 2
    case _ => 1
  }

  /** Whose turn it is. */
  function Turn(s: State): Action
    requires Shaped(s) && s.lock.Some? && s.lock.value < |s.clients|
  {
    if s.status == ShmDone || !(Holder(s).pc.GetWait? || Holder(s).pc.FreeWait?) then ClientAct(s.lock.value, Step0)
    else if s.server.FreeCleared? && ValidId(s.server.id) && Kid(s, s.server.id) != Dead then
      ChildAct(s.childPid[s.server.id].value)
    else ServerAct
  }

  /** The lock is free again, or the holder is nearer to that; nobody else has moved. */
  predicate Nearer(h: Handler, s: State, s': State)
    requires Held(h, s)
  {
    && Shaped(s') && |s'.clients| == |s.clients|
    && (forall d :: 0 <= d < |s.clients| && d != s.lock.value ==> s'.clients[d] == s.clients[d])
    && (s'.lock.None? || (Held(h, s') && s'.lock == s.lock && Rank(s') < Rank(s)))
  }

  lemma {:induction false} GetMoves(h: Handler, s: State)
    requires Held(h, s) && Getting(Holder(s).pc)
    ensures Apply(h, s, Turn(s)).Some? && Nearer(h, s, Apply(h, s, Turn(s)).value)
  {
    hide Inv;
    assert LockAt(s, s.lock.value);
    ApplyKeepsLock(h, s, Turn(s));
  }

  /** A releasing client's region and child: the server, or the child it waits for, can move. */
  lemma {:induction false} FreeTurn(h: Handler, s: State)
    requires Held(h, s) && Holder(s).pc.FreeWait? && s.status != ShmDone
    ensures Apply(h, s, Turn(s)).Some? && !FullScan(s)
    ensures Turn(s).ChildAct? ==>
      var id := s.server.id;
      && s.server.FreeCleared? && ValidId(id) && s.childPid[id] == Some(Turn(s).p) && Turn(s).p < |s.children|
      && s.children[Turn(s).p].region == id && Leaving(s.regions[id], s.children[Turn(s).p].pc)
  {
    var c := s.lock.value;
    assert LockAt(s, c) && BufferAt(s, c);
    if s.server.FreeCleared? { assert RegionAt(h, s, s.server.id) && PidAt(s, s.server.id) && OwnerAt(s, s.server.id); }
  }

  lemma {:induction false} ChildNearer(h: Handler, s: State, p: nat)
    requires Shaped(s) && p < |s.children| && s.server.FreeCleared? && s.server.id == s.children[p].region
    requires ValidId(s.server.id) && s.childPid[s.server.id] == Some(p) && ChildStep(h, s, p).Some?
    requires Leaving(s.regions[s.server.id], s.children[p].pc)
    ensures var s' := ChildStep(h, s, p).value;
            && Shaped(s') && s'.server == s.server && s'.clients == s.clients && s'.lock == s.lock
            && s'.status == s.status && KidRank(Kid(s', s.server.id)) < KidRank(Kid(s, s.server.id))
  {
  }

  lemma {:induction false} FreeServed(h: Handler, s: State)
    requires Held(h, s) && Holder(s).pc.FreeWait? && s.status != ShmDone
    ensures Apply(h, s, Turn(s)).Some? && Nearer(h, s, Apply(h, s, Turn(s)).value)
  {
    FreeTurn(h, s);
    if Turn(s).ServerAct? {
      ServerKeepsInv(h, s);
    } else {
      ChildKeepsInv(h, s, Turn(s).p);
      ChildNearer(h, s, Turn(s).p);
    }
  }

  lemma {:induction false} FreeMoves(h: Handler, s: State)
    requires Held(h, s) && !Getting(Holder(s).pc) && (!Holder(s).pc.FreeWait? || s.status == ShmDone)
    ensures Apply(h, s, Turn(s)).Some? && Nearer(h, s, Apply(h, s, Turn(s)).value)
  {
    assert LockAt(s, s.lock.value);
    HandshakeKeepsInv(h, s, s.lock.value, Step0);
  }

  lemma {:induction false} LetGo(h: Handler, s: State) returns (s': State, acts: seq<Action>)
    requires Held(h, s)
    ensures Acts(h, s, acts) == Some(s') && Shaped(s') && s'.lock.None? && |s'.clients| == |s.clients|
    ensures forall d :: 0 <= d < |s.clients| && d != s.lock.value ==> s'.clients[d] == s.clients[d]
    decreases Rank(s)
  {
    hide Inv, Apply, Rank, Turn;
    if Getting(Holder(s).pc) { GetMoves(h, s); }
    else if Holder(s).pc.FreeWait? && s.status != ShmDone { FreeServed(h, s); }
    else { FreeMoves(h, s); }
    var s1 := Apply(h, s, Turn(s)).value;
    if s1.lock.None? {
      s', acts := s1, [Turn(s)] + [];
      ActsCons(h, s, Turn(s), []);
    } else {
      var rest;
      s', rest := LetGo(h, s1);
      acts := [Turn(s)] + rest;
      ActsCons(h, s, Turn(s), rest);
    }
  }

  // ---- When a waiting client can take the lock.

  predicate AwaitsLock(pc: ClientPc) { pc.Start? || pc.FreeStart? }

  ghost predicate CanTake(h: Handler, s: State, d: nat) {
    exists acts :: Acts(h, s, acts).Some? && Acts(h, s, acts).value.lock == Some(d)
  }

  lemma {:induction false} StoppedKeepsLock(h: Handler, s: State, acts: seq<Action>, c: nat)
    requires Shaped(s) && LockInv(s) && c < |s.clients| && s.clients[c].pc.Stopped? && Acts(h, s, acts).Some?
    ensures Acts(h, s, acts).value.lock == Some(c)
    decreases |acts|
  {
    hide Apply, LockInv;
    if acts == [] {
      HolderIs(s, c);
    } else {
      ApplyKeepsLock(h, s, acts[0]);
      StoppedStays(h, s, acts[0], c);
      StoppedKeepsLock(h, Apply(h, s, acts[0]).value, acts[1..], c);
    }
  }

  lemma {:induction false} HolderIs(s: State, c: nat)
    requires LockInv(s) && c < |s.clients| && HoldsLock(s.clients[c].pc)
    ensures s.lock == Some(c)
  {
    assert LockAt(s, c);
  }

  lemma {:induction false} WaiterCanTake(h: Handler, s: State, d: nat)
    requires Inv(h, s) && d < |s.clients| && AwaitsLock(s.clients[d].pc)
    requires forall c :: 0 <= c < |s.clients| ==> !s.clients[c].pc.Stopped?
    ensures CanTake(h, s, d)
  {
    var s1, acts := s, [];
    if s.lock.Some? {
      assert LockAt(s, d) && LockAt(s, s.lock.value);
      s1, acts := LetGo(h, s);
    }
    ActsCons(h, s1, ClientAct(d, Step0), []);
    ActsAppend(h, s, acts, [ClientAct(d, Step0)] + []);
    assert Acts(h, s, acts + ([ClientAct(d, Step0)] + [])).value.lock == Some(d);
  }

  /** In every run, a client waiting for the lock can still take it exactly when no client has
      given up. */
  lemma {:induction false} CanTakeExactly(h: Handler, t: seq<State>, i: nat, d: nat)
    requires Run(h, t) && i < |t| && d < |t[i].clients| && AwaitsLock(t[i].clients[d].pc)
    ensures CanTake(h, t[i], d) <==> forall c :: 0 <= c < |t[i].clients| ==> !t[i].clients[c].pc.Stopped?
  {
    hide Inv, Acts;
    var s := t[i];
    RunKeepsInv(h, t, i);
    RunKeepsLock(h, t, i);
    if c :| 0 <= c < |s.clients| && s.clients[c].pc.Stopped? {
      forall acts | Acts(h, s, acts).Some? ensures Acts(h, s, acts).value.lock != Some(d) {
        StoppedKeepsLock(h, s, acts, c);
      }
    } else {
      WaiterCanTake(h, s, d);
    }
  }
}
