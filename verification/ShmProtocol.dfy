/** The shared-memory protocol between the database processes (clients), the operator
    server and the child it forks for each region, as atomic steps of a transition
    system with any number of clients. */
module ShmProtocol {
  import opened Options

  const MAX_REGION_NUM := 16

  /** `OpsServer.status`. */
  datatype ShmStatus = ShmNone | ShmGet | ShmFree | ShmDone

  /** `BaseRequest.status` of one region. */
  datatype ReqStatus = NONE | SENT | DONE | EXIT

  datatype Request = Request(reqType: int, operands: seq<int>)
  datatype Answer = Answer(resp: int, result: seq<int>)

  /** The request structure in a region: a request writes its own fields and leaves the
      answer fields of the previous one in place. */
  datatype Buffer = Buffer(req: Request, ans: Answer)

  /** `sent` and `served` record, per region, the requests posted and the requests the
      handler was called on; no step reads them. */
  datatype Region = Region(status: ReqStatus, buf: Buffer, sent: seq<Request>, served: seq<Request>)

  /** Where a client stands in `getSharedBuffer`, `sendRequest` and `freeBuffer`. */
  datatype ClientPc =
    | Start
    | GetLocked | GetWait | GetDone | GetRead | GetUnlock
    | GotBuffer
    | Idle | Ready(q: Request) | Waiting(q: Request) | Answered(q: Request, a: Answer) | Logged(q: Request, a: Answer)
    | FreeStart | FreeLocked | FreeIdSet | FreeWait | FreeDone | FreeUnlock
    | Finished
    | Stopped // gave up waiting for the server, still holding the lock

  /** `replies` and `recorded` are what was returned to callers and what was given to the recorder,
      each with the request it was for. */
  datatype Client = Client(
    pc: ClientPc, shmId: int, replies: seq<(Request, Answer)>, recorded: seq<(Request, Buffer)>)

  datatype ServerPc =
    | Poll
    | GetScan | GetSet(i: nat) | GetRet(i: nat) | GetReply
    | FreeRead(id: int) | FreeExit(id: int) | FreeCleared(id: int) | FreeReply

  datatype ChildPc = Waits | Handles | Handled | Exits | Exiting | Dead

  datatype Child = Child(region: int, pc: ChildPc)

  /** `lock` carries the client whose compare-and-swap set it, and `owner` the client a
      region was handed to; both only annotate the words the program uses. */
  datatype State = State(
    lock: Option<nat>,
    status: ShmStatus,
    freeId: int,
    retId: int,
    bitmap: seq<bool>,
    owner: seq<Option<nat>>,
    regions: seq<Region>,
    clients: seq<Client>,
    server: ServerPc,
    children: seq<Child>,
    childPid: seq<Option<nat>>)

  /** The operator handler of the server, for any behaviour it may have: it leaves an answer in the
      buffer, and may overwrite the request there. */
  type Handler = Request -> Buffer

  // ---- The steps.

  function SetClient(s: State, c: nat, x: Client): State
    requires c < |s.clients|
  {
    s.(clients := s.clients[c := x])
  }

  function SetPc(s: State, c: nat, pc: ClientPc): State
    requires c < |s.clients|
  {
    SetClient(s, c, s.clients[c].(pc := pc))
  }

  function SetRegion(s: State, r: nat, g: Region): State
    requires r < |s.regions|
  {
    s.(regions := s.regions[r := g])
  }

  function SetChild(s: State, p: nat, pc: ChildPc): State
    requires p < |s.children|
  {
    s.(children := s.children[p := s.children[p].(pc := pc)])
  }

  predicate ValidId(i: int) { 0 <= i < MAX_REGION_NUM }

  predicate Shaped(s: State) {
    |s.bitmap| == |s.owner| == |s.regions| == |s.childPid| == MAX_REGION_NUM
  }

  /** What a client may choose when it is between requests. */
  datatype Choice = Send(q: Request) | Release | GiveUp | Plain(record: bool)

  /** A step inside `getSharedBuffer` or `freeBuffer`: the lock and the meta words.
      `None` where the program spins. */
  function HandshakeStep(s: State, c: nat, choice: Choice): Option<State>
    requires c < |s.clients|
  {
    var me := s.clients[c];
    match me.pc
    case Start => if s.lock.None? then Some(SetPc(s, c, GetLocked).(lock := Some(c))) else None
    case GetLocked => Some(SetPc(s, c, GetWait).(status := ShmGet))
    case GetWait =>
      if s.status == ShmDone then Some(SetPc(s, c, GetDone))
      else if choice.GiveUp? then Some(SetPc(s, c, Stopped))
      else None
    case GetDone => Some(SetClient(s, c, me.(pc := GetRead, shmId := s.retId)))
    case GetRead => Some(SetPc(s, c, GetUnlock).(status := ShmNone))
    case GetUnlock => Some(SetPc(s, c, GotBuffer).(lock := None))
    case FreeStart => if s.lock.None? then Some(SetPc(s, c, FreeLocked).(lock := Some(c))) else None
    case FreeLocked => Some(SetPc(s, c, FreeIdSet).(freeId := me.shmId))
    case FreeIdSet => Some(SetPc(s, c, FreeWait).(status := ShmFree))
    case FreeWait => if s.status == ShmDone then Some(SetPc(s, c, FreeDone)) else None
    case FreeDone => Some(SetPc(s, c, FreeUnlock).(status := ShmNone))
    case FreeUnlock => Some(SetPc(s, c, Finished).(lock := None))
    case _ => None
  }

  /** What a step of the `TEEInvoker` does to the client and to the region it works in:
      the constructor clears the mailbox, `sendRequest` posts, waits, records and clears. */
  function MailStep(me: Client, g: Region, choice: Choice): Option<(Client, Region)> {
    match me.pc
    case GotBuffer => Some((me.(pc := Idle), g.(status := NONE)))
    case Idle =>
      if choice.Send? then Some((me.(pc := Ready(choice.q)), g.(buf := g.buf.(req := choice.q))))
      else if choice.Release? then Some((me.(pc := FreeStart), g))
      else None
    case Ready(q) => Some((me.(pc := Waiting(q)), g.(status := SENT, sent := g.sent + [q])))
    case Waiting(q) => if g.status == DONE then Some((me.(pc := Answered(q, g.buf.ans)), g)) else None
    case Answered(q, a) =>
      var log := if choice.Plain? && choice.record then me.recorded + [(q, g.buf)] else me.recorded;
      Some((me.(pc := Logged(q, a), recorded := log), g))
    case Logged(q, a) => Some((me.(pc := Idle, replies := me.replies + [(q, a)]), g.(status := NONE)))
    case _ => None
  }

  predicate UsesMail(pc: ClientPc) {
    pc.GotBuffer? || pc.Idle? || pc.Ready? || pc.Waiting? || pc.Answered? || pc.Logged?
  }

  function ClientStep(s: State, c: nat, choice: Choice): Option<State>
    requires Shaped(s) && c < |s.clients|
  {
    var me := s.clients[c];
    if !UsesMail(me.pc) then HandshakeStep(s, c, choice)
    else if !ValidId(me.shmId) then None
    else
      var r := MailStep(me, s.regions[me.shmId], choice);
      if r.None? then None else Some(SetRegion(SetClient(s, c, r.value.0), me.shmId, r.value.1))
  }

  predicate Full(s: State)
    requires Shaped(s)
  {
    forall i :: 0 <= i < MAX_REGION_NUM ==> s.bitmap[i]
  }

  /** The first clear bit, found by the scan over the bitmap. */
  function FirstFree(bitmap: seq<bool>, i: nat): (r: nat)
    requires i <= |bitmap|
    ensures i <= r <= |bitmap|
    ensures forall j :: i <= j < r ==> bitmap[j]
    ensures r < |bitmap| ==> !bitmap[r]
    decreases |bitmap| - i
  {
    if i == |bitmap| || !bitmap[i] then i else FirstFree(bitmap, i + 1)
  }

  /** One atomic step of the server's main loop. When every bit is set the scan falls
      through and the reply is sent without a new region. */
  function ServerStep(s: State): Option<State>
    requires Shaped(s)
  {
    match s.server
    case Poll =>
      if s.status == ShmGet then Some(s.(server := GetScan))
      else if s.status == ShmFree then Some(s.(server := FreeRead(s.freeId)))
      else None
    case GetScan =>
      var i := FirstFree(s.bitmap, 0);
      if i < MAX_REGION_NUM then
        Some(s.(server := GetSet(i), bitmap := s.bitmap[i := true], owner := s.owner[i := s.lock]))
      else Some(s.(server := GetReply))
    case GetSet(i) => Some(s.(server := GetRet(i), retId := i))
    case GetRet(i) =>
      if ValidId(i) then
        Some(s.(server := GetReply, children := s.children + [Child(i, Waits)],
                childPid := s.childPid[i := Some(|s.children|)]))
      else None
    case GetReply => Some(s.(server := Poll, status := ShmDone))
    case FreeRead(id) =>
      if ValidId(id) then Some(SetRegion(s, id, s.regions[id].(status := EXIT)).(server := FreeExit(id))) else None
    case FreeExit(id) =>
      if ValidId(id) then
        Some(s.(server := FreeCleared(id), bitmap := s.bitmap[id := false], owner := s.owner[id := None]))
      else None
    case FreeCleared(id) =>
      if ValidId(id) && s.childPid[id].Some? && s.childPid[id].value < |s.children|
         && s.children[s.childPid[id].value].pc == Dead
      then Some(s.(server := FreeReply)) else None
    case FreeReply => Some(s.(server := Poll, status := ShmDone))
  }

  /** One atomic step of the child with process number `p`. */
  function ChildStep(h: Handler, s: State, p: nat): Option<State>
    requires Shaped(s) && p < |s.children|
  {
    var r := s.children[p].region;
    if !ValidId(r) then None
    else
      var g := s.regions[r];
      match s.children[p].pc
      case Waits =>
        if g.status == EXIT then Some(SetChild(s, p, Exits))
        else if g.status == SENT then Some(SetChild(s, p, Handles))
        else None
      case Handles =>
        Some(SetRegion(SetChild(s, p, Handled), r,
                       g.(buf := if g.buf.req.reqType > 0 then h(g.buf.req) else g.buf,
                          served := g.served + [g.buf.req])))
      case Handled => Some(SetRegion(SetChild(s, p, Waits), r, g.(status := DONE)))
      case Exits => Some(SetRegion(SetChild(s, p, Exiting), r, g.(status := NONE)))
      case Exiting => Some(SetChild(s, p, Dead))
      case Dead => None
  }

  datatype Action = ClientAct(c: nat, choice: Choice) | ServerAct | ChildAct(p: nat)

  function Apply(h: Handler, s: State, a: Action): Option<State>
    requires Shaped(s)
  {
    match a
    case ClientAct(c, choice) => if c < |s.clients| then ClientStep(s, c, choice) else None
    case ServerAct => ServerStep(s)
    case ChildAct(p) => if p < |s.children| then ChildStep(h, s, p) else None
  }

  ghost predicate Next(h: Handler, s: State, s': State) {
    Shaped(s) && exists a :: Apply(h, s, a) == Some(s')
  }

  /** Zeroed shared memory, no child, every client before its first call. */
  predicate Init(s: State) {
    && Shaped(s)
    && s.lock.None? && s.status == ShmNone && s.server == Poll && s.children == [] && s.retId == 0
    && (forall r :: 0 <= r < MAX_REGION_NUM ==>
          && !s.bitmap[r] && s.owner[r].None? && s.childPid[r].None?
          && s.regions[r].status == NONE && s.regions[r].sent == s.regions[r].served == [])
    && (forall c :: 0 <= c < |s.clients| ==>
          s.clients[c].pc == Start && s.clients[c].replies == [] && s.clients[c].recorded == [])
  }

  /** The scan meets a bitmap without a clear bit. */
  predicate FullScan(s: State) { Shaped(s) && s.server == GetScan && Full(s) }

  /** A run from the start. */
  ghost predicate AnyRun(h: Handler, t: seq<State>) {
    t != [] && Init(t[0]) && forall i :: 0 <= i < |t| - 1 ==> Next(h, t[i], t[i + 1])
  }

  /** A run in which no GET is served while all regions are taken. */
  ghost predicate Run(h: Handler, t: seq<State>) {
    AnyRun(h, t) && forall i :: 0 <= i < |t| ==> !FullScan(t[i])
  }
}
