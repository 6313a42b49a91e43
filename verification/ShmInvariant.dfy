/** What every step of the shared-memory protocol keeps. */
module ShmInvariant {
  import opened Options
  import opened ShmProtocol

  // ---- The lock and the meta handshake.

  predicate HoldsLock(pc: ClientPc) {
    || pc.GetLocked? || pc.GetWait? || pc.GetDone? || pc.GetRead? || pc.GetUnlock? || pc.Stopped?
    || pc.FreeLocked? || pc.FreeIdSet? || pc.FreeWait? || pc.FreeDone? || pc.FreeUnlock?
  }

  predicate Serving(server: ServerPc) { server.GetScan? || server.GetSet? || server.GetRet? || server.GetReply? }

  predicate Freeing(server: ServerPc, id: int) {
    || (server.FreeRead? && server.id == id) || (server.FreeExit? && server.id == id)
    || (server.FreeCleared? && server.id == id) || server.FreeReply?
  }

  /** The meta words and the server, for each place the lock holder may be in. */
  predicate Phase(s: State, me: Client) {
    match me.pc
    case GetLocked | GetUnlock | FreeLocked | FreeUnlock => s.status == ShmNone && s.server == Poll
    case FreeIdSet => s.status == ShmNone && s.server == Poll && s.freeId == me.shmId
    case GetWait | Stopped =>
      || (s.status == ShmGet && (s.server == Poll || Serving(s.server)))
      || (s.status == ShmDone && s.server == Poll)
    case GetDone | GetRead | FreeDone => s.status == ShmDone && s.server == Poll
    case FreeWait =>
      || (s.status == ShmFree && s.freeId == me.shmId && (s.server == Poll || Freeing(s.server, me.shmId)))
      || (s.status == ShmDone && s.server == Poll)
    case _ => false
  }

  predicate Handshake(s: State) {
    if s.lock.None? then s.status == ShmNone && s.server == Poll
    else s.lock.value < |s.clients| && Phase(s, s.clients[s.lock.value])
  }

  predicate LockAt(s: State, c: nat)
    requires c < |s.clients|
  {
    HoldsLock(s.clients[c].pc) <==> s.lock == Some(c)
  }

  predicate LockInv(s: State) {
    Handshake(s) && forall c :: 0 <= c < |s.clients| ==> LockAt(s, c)
  }

  // ---- Regions and their owners.

  /** The client works with the region number it has read. */
  predicate HasBuffer(pc: ClientPc) {
    || pc.GetRead? || pc.GetUnlock? || pc.GotBuffer?
    || pc.Idle? || pc.Ready? || pc.Waiting? || pc.Answered? || pc.Logged?
    || pc.FreeStart? || pc.FreeLocked? || pc.FreeIdSet?
  }

  predicate AwaitsBuffer(pc: ClientPc) { pc.GetWait? || pc.GetDone? || pc.Stopped? }

  /** A region is on its way to the lock holder: chosen by the server, not yet read. */
  predicate Granting(s: State, r: int) {
    || (s.server.GetSet? && s.server.i == r)
    || (s.server.GetRet? && s.server.i == r && s.retId == r)
    || ((s.server.GetReply? || s.status == ShmDone) && s.retId == r)
  }

  /** A region is on its way back, its bit still set. */
  predicate Returning(s: State) {
    s.status == ShmFree && !s.server.FreeCleared? && !s.server.FreeReply?
  }

  /** What owning region `r` means for a client. */
  predicate Owns(s: State, me: Client, r: int) {
    || (HasBuffer(me.pc) && me.shmId == r)
    || (AwaitsBuffer(me.pc) && Granting(s, r))
    || (me.pc.FreeWait? && me.shmId == r && Returning(s))
  }

  predicate OwnerAt(s: State, r: int)
    requires Shaped(s) && ValidId(r)
  {
    && (s.bitmap[r] <==> s.owner[r].Some?)
    && (s.owner[r].Some? ==> s.owner[r].value < |s.clients| && Owns(s, s.clients[s.owner[r].value], r))
  }

  predicate BufferAt(s: State, c: nat)
    requires Shaped(s) && c < |s.clients|
  {
    var me := s.clients[c];
    (HasBuffer(me.pc) || (me.pc.FreeWait? && Returning(s))) ==> ValidId(me.shmId) && s.owner[me.shmId] == Some(c)
  }

  /** The region being granted belongs to the lock holder. */
  predicate GrantInv(s: State)
    requires Shaped(s)
  {
    && ValidId(s.retId)
    && (s.server.GetSet? || s.server.GetRet? ==> ValidId(s.server.i) && s.owner[s.server.i] == s.lock)
    && (s.server.GetRet? ==> s.retId == s.server.i)
    && (s.server.GetReply? ==> s.owner[s.retId] == s.lock)
    && (s.lock.Some? && s.lock.value < |s.clients| && AwaitsBuffer(s.clients[s.lock.value].pc) && s.status == ShmDone
        ==> s.owner[s.retId] == s.lock)
  }

  predicate OwnerInv(s: State)
    requires Shaped(s)
  {
    && GrantInv(s)
    && (forall r :: 0 <= r < MAX_REGION_NUM ==> OwnerAt(s, r))
    && (forall c :: 0 <= c < |s.clients| ==> BufferAt(s, c))
  }

  // ---- Children.

  /** The state of the child recorded for a region. */
  function Kid(s: State, r: int): ChildPc
    requires Shaped(s) && ValidId(r)
  {
    if s.childPid[r].Some? && s.childPid[r].value < |s.children| then s.children[s.childPid[r].value].pc else Dead
  }

  predicate ChildAt(s: State, p: nat)
    requires Shaped(s) && p < |s.children|
  {
    ValidId(s.children[p].region) && (s.children[p].pc != Dead ==> s.childPid[s.children[p].region] == Some(p))
  }

  predicate PidAt(s: State, r: int)
    requires Shaped(s) && ValidId(r)
  {
    s.childPid[r].Some? ==> s.childPid[r].value < |s.children| && s.children[s.childPid[r].value].region == r
  }

  predicate ChildInv(s: State)
    requires Shaped(s)
  {
    && (forall p :: 0 <= p < |s.children| ==> ChildAt(s, p))
    && (forall r :: 0 <= r < MAX_REGION_NUM ==> PidAt(s, r))
  }

  /** The region being torn down had a child, and has no owner once its bit is cleared. */
  predicate FreeInv(s: State)
    requires Shaped(s)
  {
    && (s.server.FreeExit? || s.server.FreeCleared? ==> ValidId(s.server.id) && s.childPid[s.server.id].Some?)
    && (s.server.FreeCleared? ==> s.owner[s.server.id].None?)
  }

  // ---- The mailbox of a region.

  predicate Fulfils(h: Handler, q: Request, b: Buffer) { if q.reqType > 0 then b == h(q) else b.req == q }

  /** All posted requests but the last have been served, and that one is `q`. */
  predicate OnePending(g: Region, q: Request) { g.sent == g.served + [q] }

  predicate Leaving(g: Region, kid: ChildPc) {
    && g.served == g.sent
    && ((g.status == EXIT && (kid == Waits || kid == Exits)) || (g.status == NONE && (kid == Exiting || kid == Dead)))
  }

  predicate Quiet(g: Region) { g.status == NONE && g.served == g.sent }

  predicate Replied(h: Handler, q: Request, g: Region) {
    Fulfils(h, q, g.buf) && g.served == g.sent
  }

  /** The mailbox as its owner's position allows it. */
  predicate Mail(h: Handler, pc: ClientPc, g: Region, kid: ChildPc) {
    match pc
    case Ready(q) => Quiet(g) && kid == Waits && g.buf.req == q
    case Waiting(q) =>
      || (g.status == SENT && (kid == Waits || kid == Handles) && g.buf.req == q && OnePending(g, q))
      || (g.status == SENT && kid == Handled && Replied(h, q, g))
      || (g.status == DONE && kid == Waits && Replied(h, q, g))
    case Answered(q, a) => g.status == DONE && kid == Waits && Replied(h, q, g) && g.buf.ans == a
    case Logged(q, a) => g.status == DONE && kid == Waits && Replied(h, q, g) && g.buf.ans == a
    case _ => Quiet(g) && kid == Waits
  }

  predicate Forking(server: ServerPc, r: int) {
    (server.GetSet? && server.i == r) || (server.GetRet? && server.i == r)
  }

  /** One region: not handed out, between its bit and its child, being torn down, or in use. */
  predicate RegionOk(h: Handler, r: int, server: ServerPc, owner: Option<Client>, g: Region, kid: ChildPc) {
    if owner.None? then
      if server == FreeCleared(r) then Leaving(g, kid) else Quiet(g) && kid == Dead
    else if Forking(server, r) then Quiet(g) && kid == Dead
    else if server == FreeExit(r) then Leaving(g, kid)
    else Mail(h, owner.value.pc, g, kid)
  }

  function OwnerOf(s: State, r: int): Option<Client>
    requires Shaped(s) && ValidId(r)
  {
    if s.owner[r].Some? && s.owner[r].value < |s.clients| then Some(s.clients[s.owner[r].value]) else None
  }

  predicate RegionAt(h: Handler, s: State, r: int)
    requires Shaped(s) && ValidId(r)
  {
    RegionOk(h, r, s.server, OwnerOf(s, r), s.regions[r], Kid(s, r))
  }

  predicate MailInv(h: Handler, s: State)
    requires Shaped(s)
  {
    forall r :: 0 <= r < MAX_REGION_NUM ==> RegionAt(h, s, r)
  }

  predicate Replies(h: Handler, q: Request, a: Answer) { q.reqType > 0 ==> a == h(q).ans }

  /** What a client has returned to its callers and handed to the recorder. */
  predicate HistoryOk(h: Handler, me: Client) {
    && (forall k :: 0 <= k < |me.replies| ==> Replies(h, me.replies[k].0, me.replies[k].1))
    && (forall k :: 0 <= k < |me.recorded| ==> Fulfils(h, me.recorded[k].0, me.recorded[k].1))
  }

  predicate HistoryInv(h: Handler, s: State) {
    forall c :: 0 <= c < |s.clients| ==> HistoryOk(h, s.clients[c])
  }

  predicate Inv(h: Handler, s: State) {
    Shaped(s) && LockInv(s) && OwnerInv(s) && ChildInv(s) && FreeInv(s) && MailInv(h, s) && HistoryInv(h, s)
  }

  lemma {:induction false} InitInv(h: Handler, s: State)
    requires Init(s)
    ensures Inv(h, s)
  {
    forall c | 0 <= c < |s.clients| ensures LockAt(s, c) && BufferAt(s, c) && HistoryOk(h, s.clients[c]) {
    }
    forall r | 0 <= r < MAX_REGION_NUM ensures OwnerAt(s, r) && PidAt(s, r) && RegionAt(h, s, r) {
    }
  }

  // ---- A client's step in the handshake.

  lemma {:induction false} HandshakeKeepsPhase(s: State, c: nat, choice: Choice)
    requires LockInv(s) && c < |s.clients| && HandshakeStep(s, c, choice).Some?
    ensures Handshake(HandshakeStep(s, c, choice).value)
  {
    assert LockAt(s, c);
    if s.lock.Some? { assert LockAt(s, s.lock.value); }
  }

  lemma {:induction false} HandshakeKeepsLockAt(s: State, c: nat, choice: Choice, d: nat)
    requires LockInv(s) && c < |s.clients| && HandshakeStep(s, c, choice).Some? && d < |s.clients|
    ensures LockAt(HandshakeStep(s, c, choice).value, d)
  {
    assert LockAt(s, c) && LockAt(s, d);
  }

  /** Ownership moves only with the client's own position. */
  lemma {:induction false} HandshakeKeepsOwnerAt(s: State, c: nat, choice: Choice, r: int)
    requires Shaped(s) && LockInv(s) && c < |s.clients| && HandshakeStep(s, c, choice).Some? && ValidId(r)
    requires OwnerAt(s, r) && BufferAt(s, c)
    ensures OwnerAt(HandshakeStep(s, c, choice).value, r)
  {
    assert LockAt(s, c);
    if s.owner[r].Some? { assert LockAt(s, s.owner[r].value); }
  }

  lemma {:induction false} HandshakeKeepsBufferAt(s: State, c: nat, choice: Choice, d: nat)
    requires Shaped(s) && LockInv(s) && c < |s.clients| && HandshakeStep(s, c, choice).Some? && d < |s.clients|
    requires BufferAt(s, d) && GrantInv(s)
    ensures BufferAt(HandshakeStep(s, c, choice).value, d)
  {
    assert LockAt(s, c) && LockAt(s, d);
  }

  lemma {:induction false} HandshakeKeepsGrant(s: State, c: nat, choice: Choice)
    requires Shaped(s) && LockInv(s) && c < |s.clients| && HandshakeStep(s, c, choice).Some?
    requires GrantInv(s)
    ensures GrantInv(HandshakeStep(s, c, choice).value)
  {
    assert LockAt(s, c);
  }

  /** A handshake step leaves regions, owners and children alone, and the client's
      position and history mean the same to its mailbox. */
  lemma {:induction false} HandshakeFrame(s: State, c: nat, choice: Choice)
    requires c < |s.clients| && HandshakeStep(s, c, choice).Some?
    ensures var s' := HandshakeStep(s, c, choice).value;
            && s'.bitmap == s.bitmap && s'.owner == s.owner && s'.regions == s.regions
            && s'.children == s.children && s'.childPid == s.childPid && s'.server == s.server
            && |s'.clients| == |s.clients|
            && s'.clients[c].replies == s.clients[c].replies && s'.clients[c].recorded == s.clients[c].recorded
            && PlainPc(s.clients[c].pc) && PlainPc(s'.clients[c].pc)
            && (forall d :: 0 <= d < |s.clients| && d != c ==> s'.clients[d] == s.clients[d])
  {
  }

  predicate PlainPc(pc: ClientPc) { !pc.Ready? && !pc.Waiting? && !pc.Answered? && !pc.Logged? }

  /** Regions depend on their owner's position only through the request in progress. */
  lemma {:induction false} RegionFrame(h: Handler, s: State, s': State, c: nat, r: int)
    requires Shaped(s) && Shaped(s') && ValidId(r) && RegionAt(h, s, r)
    requires s'.owner == s.owner && s'.regions[r] == s.regions[r] && s'.server == s.server
    requires s'.children == s.children && s'.childPid == s.childPid
    requires |s'.clients| == |s.clients| && c < |s.clients|
    requires forall d :: 0 <= d < |s.clients| && d != c ==> s'.clients[d] == s.clients[d]
    requires s.owner[r] == Some(c) ==> PlainPc(s.clients[c].pc) && PlainPc(s'.clients[c].pc)
    ensures RegionAt(h, s', r)
  {
    assert Kid(s', r) == Kid(s, r);
  }

  lemma {:induction false} ChildFrame(s: State, s': State)
    requires Shaped(s) && Shaped(s') && ChildInv(s) && s'.children == s.children && s'.childPid == s.childPid
    ensures ChildInv(s')
  {
    forall p | 0 <= p < |s'.children| ensures ChildAt(s', p) { assert ChildAt(s, p); }
    forall r | 0 <= r < MAX_REGION_NUM ensures PidAt(s', r) { assert PidAt(s, r); }
  }

  lemma {:induction false} HandshakeKeepsHistory(h: Handler, s: State, c: nat, choice: Choice)
    requires HistoryInv(h, s) && c < |s.clients| && HandshakeStep(s, c, choice).Some?
    ensures HistoryInv(h, HandshakeStep(s, c, choice).value)
  {
    HandshakeFrame(s, c, choice);
    var s' := HandshakeStep(s, c, choice).value;
    forall d | 0 <= d < |s'.clients| ensures HistoryOk(h, s'.clients[d]) { assert HistoryOk(h, s.clients[d]); }
  }

  lemma {:induction false} HandshakeKeepsOwners(s: State, c: nat, choice: Choice)
    requires Shaped(s) && LockInv(s) && OwnerInv(s) && c < |s.clients| && HandshakeStep(s, c, choice).Some?
    ensures Shaped(HandshakeStep(s, c, choice).value) && OwnerInv(HandshakeStep(s, c, choice).value)
  {
    HandshakeFrame(s, c, choice);
    var s' := HandshakeStep(s, c, choice).value;
    HandshakeKeepsGrant(s, c, choice);
    forall d | 0 <= d < |s'.clients| ensures BufferAt(s', d) { HandshakeKeepsBufferAt(s, c, choice, d); }
    forall r | 0 <= r < MAX_REGION_NUM ensures OwnerAt(s', r) { HandshakeKeepsOwnerAt(s, c, choice, r); }
  }

  lemma {:induction false} HandshakeKeepsLock(s: State, c: nat, choice: Choice)
    requires LockInv(s) && c < |s.clients| && HandshakeStep(s, c, choice).Some?
    ensures LockInv(HandshakeStep(s, c, choice).value)
  {
    HandshakeFrame(s, c, choice);
    var s' := HandshakeStep(s, c, choice).value;
    HandshakeKeepsPhase(s, c, choice);
    forall d | 0 <= d < |s'.clients| ensures LockAt(s', d) { HandshakeKeepsLockAt(s, c, choice, d); }
  }

  lemma {:induction false} HandshakeKeepsInv(h: Handler, s: State, c: nat, choice: Choice)
    requires Inv(h, s) && c < |s.clients| && HandshakeStep(s, c, choice).Some?
    ensures Inv(h, HandshakeStep(s, c, choice).value)
  {
    var s' := HandshakeStep(s, c, choice).value;
    HandshakeKeepsLock(s, c, choice);
    HandshakeKeepsOwners(s, c, choice);
    HandshakeKeepsHistory(h, s, c, choice);
    HandshakeFrame(s, c, choice);
    ChildFrame(s, s');
    forall r | 0 <= r < MAX_REGION_NUM ensures RegionAt(h, s', r) {
      RegionFrame(h, s, s', c, r);
    }
  }

  // ---- A client's step in its region.

  /** The mailbox stays as the owner's new position allows, and what is recorded or
      returned is the handler's answer to that request. */
  lemma {:induction false} MailStepKeepsMail(h: Handler, me: Client, g: Region, kid: ChildPc, choice: Choice)
    requires Mail(h, me.pc, g, kid) && HistoryOk(h, me) && MailStep(me, g, choice).Some?
    ensures var (me', g') := MailStep(me, g, choice).value; Mail(h, me'.pc, g', kid) && HistoryOk(h, me')
  {
  }

  lemma {:induction false} MailStepFrame(me: Client, g: Region, choice: Choice)
    requires UsesMail(me.pc) && MailStep(me, g, choice).Some?
    ensures var me' := MailStep(me, g, choice).value.0;
            me'.shmId == me.shmId && HasBuffer(me.pc) && HasBuffer(me'.pc) && !HoldsLock(me.pc) && !HoldsLock(me'.pc)
  {
  }

  /** A client that uses its mailbox owns the region, and the server is not touching it. */
  lemma {:induction false} MailIsOwn(h: Handler, s: State, c: nat)
    requires Inv(h, s) && c < |s.clients| && UsesMail(s.clients[c].pc)
    ensures var id := s.clients[c].shmId;
            && ValidId(id) && s.owner[id] == Some(c)
            && !Forking(s.server, id) && s.server != FreeExit(id)
            && Mail(h, s.clients[c].pc, s.regions[id], Kid(s, id))
  {
    var id := s.clients[c].shmId;
    assert LockAt(s, c) && BufferAt(s, c) && OwnerAt(s, id) && RegionAt(h, s, id);
    if s.lock.Some? { assert LockAt(s, s.lock.value) && BufferAt(s, s.lock.value); }
  }

  lemma {:induction false} MailKeepsMeta(h: Handler, s: State, c: nat, choice: Choice)
    requires Inv(h, s) && c < |s.clients| && UsesMail(s.clients[c].pc) && ClientStep(s, c, choice).Some?
    ensures var s' := ClientStep(s, c, choice).value; Shaped(s') && LockInv(s') && OwnerInv(s')
  {
    var s' := ClientStep(s, c, choice).value;
    MailStepFrame(s.clients[c], s.regions[s.clients[c].shmId], choice);
    assert LockAt(s, c) && BufferAt(s, c);
    forall d | 0 <= d < |s'.clients| ensures LockAt(s', d) && BufferAt(s', d) { assert LockAt(s, d) && BufferAt(s, d); }
    forall r | 0 <= r < MAX_REGION_NUM ensures OwnerAt(s', r) { assert OwnerAt(s, r); }
  }

  lemma {:induction false} MailKeepsInv(h: Handler, s: State, c: nat, choice: Choice)
    requires Inv(h, s) && c < |s.clients| && UsesMail(s.clients[c].pc) && ClientStep(s, c, choice).Some?
    ensures Inv(h, ClientStep(s, c, choice).value)
  {
    var s' := ClientStep(s, c, choice).value;
    var id := s.clients[c].shmId;
    MailKeepsMeta(h, s, c, choice);
    MailIsOwn(h, s, c);
    assert HistoryOk(h, s.clients[c]);
    MailStepKeepsMail(h, s.clients[c], s.regions[id], Kid(s, id), choice);
    ChildFrame(s, s');
    forall r | 0 <= r < MAX_REGION_NUM ensures RegionAt(h, s', r) {
      assert RegionAt(h, s, r) && OwnerAt(s, r);
      if r != id {
        assert s.owner[r] != Some(c);
        RegionFrame(h, s, s', c, r);
      }
    }
  }

  // ---- The server's step.

  /** The server works for the lock holder, which waits in the matching place. */
  lemma {:induction false} ServerHasHolder(s: State)
    requires Shaped(s) && LockInv(s) && ServerStep(s).Some?
    ensures s.lock.Some? && s.lock.value < |s.clients|
    ensures var me := s.clients[s.lock.value];
            if s.status == ShmGet then (me.pc.GetWait? || me.pc.Stopped?) && (s.server == Poll || Serving(s.server))
            else
              && s.status == ShmFree && me.pc.FreeWait? && s.freeId == me.shmId
              && (s.server == Poll || Freeing(s.server, me.shmId))
  {
    if s.lock.Some? { assert LockAt(s, s.lock.value); }
  }

  lemma {:induction false} ServerWorksForHolder(s: State)
    requires Shaped(s) && LockInv(s) && OwnerInv(s) && ServerStep(s).Some?
    ensures s.lock.Some? && s.lock.value < |s.clients|
    ensures var me := s.clients[s.lock.value];
            if s.status == ShmGet then (me.pc.GetWait? || me.pc.Stopped?) && (s.server == Poll || Serving(s.server))
            else
              && s.status == ShmFree && me.pc.FreeWait? && s.freeId == me.shmId
              && (s.server == Poll || Freeing(s.server, me.shmId))
              && (Returning(s) ==> ValidId(me.shmId) && s.owner[me.shmId] == s.lock)
  {
    ServerHasHolder(s);
    assert BufferAt(s, s.lock.value);
  }

  lemma {:induction false} ServerKeepsLock(s: State)
    requires Shaped(s) && LockInv(s) && ServerStep(s).Some?
    ensures Shaped(ServerStep(s).value) && LockInv(ServerStep(s).value)
  {
    ServerHasHolder(s);
    var s' := ServerStep(s).value;
    forall d | 0 <= d < |s'.clients| ensures LockAt(s', d) { assert LockAt(s, d); }
  }

  lemma {:induction false} ServerKeepsGrant(s: State)
    requires Shaped(s) && LockInv(s) && OwnerInv(s) && !FullScan(s) && ServerStep(s).Some?
    ensures Shaped(ServerStep(s).value) && GrantInv(ServerStep(s).value)
  {
    ServerWorksForHolder(s);
  }

  lemma {:induction false} ServerKeepsOwnerAt(s: State, r: int)
    requires Shaped(s) && LockInv(s) && OwnerInv(s) && !FullScan(s) && ServerStep(s).Some? && ValidId(r)
    ensures Shaped(ServerStep(s).value) && OwnerAt(ServerStep(s).value, r)
  {
    ServerWorksForHolder(s);
    assert OwnerAt(s, r);
    if s.owner[r].Some? { assert LockAt(s, s.owner[r].value) && BufferAt(s, s.owner[r].value); }
  }

  lemma {:induction false} ServerKeepsBufferAt(s: State, d: nat)
    requires Shaped(s) && LockInv(s) && OwnerInv(s) && !FullScan(s) && ServerStep(s).Some? && d < |s.clients|
    ensures Shaped(ServerStep(s).value) && BufferAt(ServerStep(s).value, d)
  {
    ServerWorksForHolder(s);
    assert LockAt(s, d) && BufferAt(s, d);
    if ValidId(s.clients[d].shmId) { assert OwnerAt(s, s.clients[d].shmId); }
  }

  lemma {:induction false} ServerKeepsOwners(s: State)
    requires Shaped(s) && LockInv(s) && OwnerInv(s) && !FullScan(s) && ServerStep(s).Some?
    ensures Shaped(ServerStep(s).value) && OwnerInv(ServerStep(s).value)
  {
    var s' := ServerStep(s).value;
    ServerKeepsGrant(s);
    forall d | 0 <= d < |s'.clients| ensures BufferAt(s', d) { ServerKeepsBufferAt(s, d); }
    forall r | 0 <= r < MAX_REGION_NUM ensures OwnerAt(s', r) { ServerKeepsOwnerAt(s, r); }
  }

  /** Forking gives region `i` its child and leaves the children of the others. */
  lemma {:induction false} ForkKeepsChildren(h: Handler, s: State, i: nat)
    requires Inv(h, s) && s.server == GetRet(i) && ServerStep(s).Some?
    ensures ChildInv(ServerStep(s).value)
    ensures forall r :: 0 <= r < MAX_REGION_NUM ==> Kid(ServerStep(s).value, r) == if r == i then Waits else Kid(s, r)
  {
    var s' := ServerStep(s).value;
    assert RegionAt(h, s, i) && OwnerAt(s, i);
    forall p | 0 <= p < |s'.children| ensures ChildAt(s', p) {
      if p < |s.children| { assert ChildAt(s, p) && PidAt(s, s.children[p].region); }
    }
    forall r | 0 <= r < MAX_REGION_NUM
      ensures PidAt(s', r) && Kid(s', r) == if r == i then Waits else Kid(s, r)
    {
      assert PidAt(s, r);
    }
  }

  lemma {:induction false} ServerKeepsChildren(h: Handler, s: State)
    requires Inv(h, s) && !FullScan(s) && ServerStep(s).Some?
    ensures Shaped(ServerStep(s).value) && ChildInv(ServerStep(s).value)
  {
    if s.server.GetRet? { ForkKeepsChildren(h, s, s.server.i); } else { ChildFrame(s, ServerStep(s).value); }
  }

  lemma {:induction false} ServerKeepsFree(h: Handler, s: State)
    requires Inv(h, s) && !FullScan(s) && ServerStep(s).Some?
    ensures Shaped(ServerStep(s).value) && FreeInv(ServerStep(s).value)
  {
    ServerWorksForHolder(s);
    if s.server.FreeRead? { assert RegionAt(h, s, s.server.id) && OwnerAt(s, s.server.id); }
  }

  lemma {:induction false} ServerKeepsRegionAt(h: Handler, s: State, r: int)
    requires Inv(h, s) && !FullScan(s) && ServerStep(s).Some? && ValidId(r)
    ensures Shaped(ServerStep(s).value) && RegionAt(h, ServerStep(s).value, r)
  {
    var s' := ServerStep(s).value;
    ServerWorksForHolder(s);
    assert RegionAt(h, s, r) && OwnerAt(s, r);
    if s.server.GetRet? { ForkKeepsChildren(h, s, s.server.i); } else { assert Kid(s', r) == Kid(s, r); }
    if s.owner[r].Some? { assert LockAt(s, s.owner[r].value); }
  }

  lemma {:induction false} ServerKeepsInv(h: Handler, s: State)
    requires Inv(h, s) && !FullScan(s) && ServerStep(s).Some?
    ensures Inv(h, ServerStep(s).value)
  {
    var s' := ServerStep(s).value;
    ServerKeepsLock(s);
    ServerKeepsOwners(s);
    ServerKeepsChildren(h, s);
    ServerKeepsFree(h, s);
    forall r | 0 <= r < MAX_REGION_NUM ensures RegionAt(h, s', r) { ServerKeepsRegionAt(h, s, r); }
  }

  // ---- A child's step.

  /** What a step of a region's child makes of the mailbox and of itself. */
  predicate KidMoves(h: Handler, g: Region, kid: ChildPc, g': Region, kid': ChildPc) {
    match kid
    case Waits =>
      g' == g && ((g.status == EXIT && kid' == Exits) || (g.status == SENT && kid' == Handles))
    case Handles =>
      && kid' == Handled
      && g' == g.(buf := if g.buf.req.reqType > 0 then h(g.buf.req) else g.buf, served := g.served + [g.buf.req])
    case Handled => kid' == Waits && g' == g.(status := DONE)
    case Exits => kid' == Exiting && g' == g.(status := NONE)
    case Exiting => kid' == Dead && g' == g
    case Dead => false
  }

  lemma {:induction false} KidKeepsRegion(h: Handler, r: int, server: ServerPc, owner: Option<Client>,
                                          g: Region, kid: ChildPc, g': Region, kid': ChildPc)
    requires RegionOk(h, r, server, owner, g, kid) && KidMoves(h, g, kid, g', kid')
    ensures RegionOk(h, r, server, owner, g', kid')
  {
  }

  /** A live child is the one recorded for its region, and its mailbox says what it may do. */
  lemma {:induction false} ChildKeepsRegion(h: Handler, s: State, p: nat)
    requires Inv(h, s) && p < |s.children| && ChildStep(h, s, p).Some?
    ensures Shaped(ChildStep(h, s, p).value) && RegionAt(h, ChildStep(h, s, p).value, s.children[p].region)
  {
    hide RegionOk;
    var s', r := ChildStep(h, s, p).value, s.children[p].region;
    assert ChildAt(s, p) && RegionAt(h, s, r);
    KidKeepsRegion(h, r, s.server, OwnerOf(s, r), s.regions[r], Kid(s, r), s'.regions[r], Kid(s', r));
  }

  lemma {:induction false} ChildFrameOthers(h: Handler, s: State, p: nat)
    requires Inv(h, s) && p < |s.children| && ChildStep(h, s, p).Some?
    ensures var s' := ChildStep(h, s, p).value;
            && Shaped(s') && ChildInv(s')
            && s'.lock == s.lock && s'.status == s.status && s'.freeId == s.freeId && s'.retId == s.retId
            && s'.bitmap == s.bitmap && s'.owner == s.owner && s'.clients == s.clients && s'.server == s.server
            && (forall r :: 0 <= r < MAX_REGION_NUM && r != s.children[p].region ==>
                  s'.regions[r] == s.regions[r] && Kid(s', r) == Kid(s, r))
  {
    var s' := ChildStep(h, s, p).value;
    assert ChildAt(s, p);
    forall k | 0 <= k < |s'.children| ensures ChildAt(s', k) { assert ChildAt(s, k); }
    forall r | 0 <= r < MAX_REGION_NUM
      ensures PidAt(s', r) && (r != s.children[p].region ==> Kid(s', r) == Kid(s, r))
    {
      assert PidAt(s, r);
    }
  }

  lemma {:induction false} ChildKeepsInv(h: Handler, s: State, p: nat)
    requires Inv(h, s) && p < |s.children| && ChildStep(h, s, p).Some?
    ensures Inv(h, ChildStep(h, s, p).value)
  {
    var s' := ChildStep(h, s, p).value;
    ChildKeepsRegion(h, s, p);
    ChildFrameOthers(h, s, p);
    forall r | 0 <= r < MAX_REGION_NUM ensures RegionAt(h, s', r) && OwnerAt(s', r) {
      assert RegionAt(h, s, r) && OwnerAt(s, r);
    }
    forall c | 0 <= c < |s'.clients| ensures LockAt(s', c) && BufferAt(s', c) { assert LockAt(s, c) && BufferAt(s, c); }
  }

  // ---- Whole runs.

  lemma {:induction false} NextKeepsInv(h: Handler, s: State, s': State)
    requires Inv(h, s) && !FullScan(s) && Next(h, s, s')
    ensures Inv(h, s')
  {
    var a :| Apply(h, s, a) == Some(s');
    match a
    case ClientAct(c, choice) =>
      if UsesMail(s.clients[c].pc) { MailKeepsInv(h, s, c, choice); } else { HandshakeKeepsInv(h, s, c, choice); }
    case ServerAct => ServerKeepsInv(h, s);
    case ChildAct(p) => ChildKeepsInv(h, s, p);
  }

  lemma {:induction false} RunKeepsInv(h: Handler, t: seq<State>, i: nat)
    requires Run(h, t) && i < |t|
    ensures Inv(h, t[i])
    decreases i
  {
    if i == 0 {
      InitInv(h, t[0]);
    } else {
      RunKeepsInv(h, t, i - 1);
      assert Next(h, t[i - 1], t[i - 1 + 1]);
      NextKeepsInv(h, t[i - 1], t[i]);
    }
  }
}
