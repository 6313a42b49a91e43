/** The pool of decrypting threads: one dispatcher hands jobs to slots, one worker per slot
    runs them, and every interleaving gives the memory of the sequential build. A caller that
    returns without waiting leaves its jobs to the next wait. */
module DecryptPool {

  /** What `decrypt_bytes` writes and where; nothing if the source is too short. */
  datatype Job = Job(dst: nat, plain: seq<int>)

  datatype Status = NONE | SENT | DONE

  datatype Worker = Idle | Working(job: Job, done: nat)

  /** A slot of `args_array`; `index` tells which job of the batch it last got. */
  datatype Slot = Slot(inited: bool, status: Status, job: Job, index: nat, worker: Worker)

  /** Where the dispatcher is in `decrypt_bytes_para` and `decrypt_wait`. */
  datatype Phase = Scanning(i: nat) | Filling(i: nat) | Sending(i: nat) | Waiting(i: nat) | Returned

  /** `batch` is all that has been handed over since the last wait, from `mark` on by the caller
      that is there now; `strays` are the jobs of earlier callers that were pending when it came.
      `base` and `batches` are the memory before this batch and the batches before it; per job
      handed over, `owner` is its slot, `written` its bytes so far, `ran` its finished runs. */
  datatype State = State(
    slots: seq<Slot>, mem: seq<int>, phase: Phase, batch: seq<Job>, sent: nat,
    base: seq<int>, batches: seq<seq<Job>>, owner: seq<nat>, written: seq<nat>, ran: seq<nat>,
    mark: nat, strays: set<nat>)

  // ---- The sequential build.

  function WriteAll(mem: seq<int>, dst: nat, bytes: seq<int>): (r: seq<int>)
    requires dst + |bytes| <= |mem|
    ensures |r| == |mem|
  {
    mem[..dst] + bytes + mem[dst + |bytes|..]
  }

  predicate Fits(jobs: seq<Job>, size: nat) { forall k :: 0 <= k < |jobs| ==> jobs[k].dst + |jobs[k].plain| <= size }

  predicate Apart(a: Job, b: Job) { a.dst + |a.plain| <= b.dst || b.dst + |b.plain| <= a.dst }

  predicate Disjoint(jobs: seq<Job>) { forall k, l :: 0 <= k < l < |jobs| ==> Apart(jobs[k], jobs[l]) }

  function Sequential(mem: seq<int>, jobs: seq<Job>): (r: seq<int>)
    requires Fits(jobs, |mem|)
    ensures |r| == |mem|
  {
    if jobs == [] then mem
    else
      var n := |jobs| - 1;
      WriteAll(Sequential(mem, jobs[..n]), jobs[n].dst, jobs[n].plain)
  }

  // ---- Steps.

  datatype Action = Dispatch | Work(i: nat) | Begin(jobs: seq<Job>) | Again(jobs: seq<Job>)

  function DispatchStep(s: State): State {
    match s.phase
    case Scanning(i) =>
      if s.sent >= |s.batch| then s.(phase := Waiting(0))
      else if i >= |s.slots| then s.(phase := Scanning(0))
      else if s.slots[i].inited && s.slots[i].status == DONE then s.(phase := Filling(i))
      else if !s.slots[i].inited then s.(slots := s.slots[i := s.slots[i].(inited := true)], phase := Filling(i))
      else s.(phase := Scanning(i + 1))
    case Filling(i) =>
      if i < |s.slots| && s.sent < |s.batch|
      then s.(slots := s.slots[i := s.slots[i].(job := s.batch[s.sent], index := s.sent)], phase := Sending(i))
      else s
    case Sending(i) =>
      if i < |s.slots|
      then s.(slots := s.slots[i := s.slots[i].(status := SENT)], phase := Scanning(0), sent := s.sent + 1,
              owner := s.owner + [i], written := s.written + [0], ran := s.ran + [0])
      else s
    case Waiting(i) =>
      if i >= |s.slots| then s.(phase := Returned)
      else if s.slots[i].inited && s.slots[i].status != DONE then s.(phase := Waiting(0))
      else s.(phase := Waiting(i + 1))
    case Returned => s
  }

  function WorkStep(s: State, i: nat): State {
    if i >= |s.slots| || !s.slots[i].inited then s
    else
      var slot := s.slots[i];
      match slot.worker
      case Idle =>
        if slot.status == SENT then s.(slots := s.slots[i := slot.(worker := Working(slot.job, 0))]) else s
      case Working(job, n) =>
        if n < |job.plain| && job.dst + n < |s.mem| && slot.index < |s.written|
        then s.(slots := s.slots[i := slot.(worker := Working(job, n + 1))],
                mem := s.mem[job.dst + n := job.plain[n]], written := s.written[slot.index := n + 1])
        else if slot.index < |s.ran|
        then s.(slots := s.slots[i := slot.(status := DONE, worker := Idle)],
                ran := s.ran[slot.index := s.ran[slot.index] + 1])
        else s
  }

  /** The next batch, its destinations in memory and disjoint. */
  function BeginStep(s: State, jobs: seq<Job>): State {
    if s.phase == Returned && Fits(jobs, |s.mem|) && Disjoint(jobs)
    then s.(phase := Scanning(0), batch := jobs, sent := 0, base := s.mem, batches := s.batches + [s.batch],
            owner := [], written := [], ran := [], mark := 0, strays := {})
    else s
  }

  predicate Pending(s: State, i: nat) { i < |s.slots| && s.slots[i].status == SENT }

  /** The job is still in its slot. */
  predicate StillThere(s: State, k: nat) {
    k < |s.owner| && Pending(s, s.owner[k]) && s.slots[s.owner[k]].index == k
  }

  /** The caller, all its jobs handed over, returns without waiting, and another one comes. */
  function AgainStep(s: State, jobs: seq<Job>): State {
    if s.phase.Scanning? && s.sent == |s.batch| && Fits(jobs, |s.mem|) && Disjoint(jobs)
    then s.(phase := Scanning(0), batch := s.batch + jobs, mark := |s.batch|,
            strays := set k: nat | k < |s.owner| && StillThere(s, k))
    else s
  }

  function Step(s: State, a: Action): State {
    match a
    case Dispatch => DispatchStep(s)
    case Work(i) => WorkStep(s, i)
    case Begin(jobs) => BeginStep(s, jobs)
    case Again(jobs) => AgainStep(s, jobs)
  }

  function Run(s: State, actions: seq<Action>): State {
    if actions == [] then s else Step(Run(s, actions[..|actions| - 1]), actions[|actions| - 1])
  }

  /** A child process just after `fork`: no thread yet, and an empty batch behind it. */
  function Start(slots: nat, mem: seq<int>): State {
    State(seq(slots, _ => Slot(false, NONE, Job(0, []), 0, Idle)), mem, Returned, [], 0, mem, [], [], [], [], 0, {})
  }

  // ---- The invariant.

  ghost predicate Shape(s: State) {
    && |s.owner| == |s.written| == |s.ran| == s.sent <= |s.batch| && |s.mem| == |s.base|
    && Fits(s.batch, |s.mem|) && s.mark <= |s.batch| && Disjoint(s.batch[s.mark..])
  }

  /** A busy slot holds a job that is its own, and its worker is as far as the job is; a free
      slot's worker is idle. */
  ghost predicate SlotAt(s: State, i: nat)
    requires Shape(s)
  {
    i < |s.slots| ==>
      var slot := s.slots[i];
      && (!slot.inited ==> slot.status == NONE)
      && if slot.status != SENT then slot.worker == Idle
         else
           && slot.index < s.sent && s.owner[slot.index] == i && slot.job == s.batch[slot.index]
           && match slot.worker
              case Idle => s.written[slot.index] == 0
              case Working(job, n) => job == slot.job && n == s.written[slot.index] <= |job.plain|
  }

  /** A job handed over is pending in its slot, or it has run once and written everything. */
  ghost predicate JobAt(s: State, k: nat)
    requires Shape(s)
  {
    k < s.sent ==>
      if StillThere(s, k) then s.ran[k] == 0
      else s.ran[k] == 1 && s.written[k] == |s.batch[k].plain|
  }

  predicate WrittenAt(s: State, k: nat, a: nat) {
    && k < |s.written| && k < |s.batch|
    && s.batch[k].dst <= a < s.batch[k].dst + s.written[k] <= s.batch[k].dst + |s.batch[k].plain|
  }

  predicate InJob(job: Job, a: nat) { job.dst <= a < job.dst + |job.plain| }

  /** Jobs that may still write: the present caller's and the strays. */
  predicate MayWrite(s: State, k: nat) { k < |s.batch| && (s.mark <= k || k in s.strays) }

  /** The byte is in a job of the present caller and in no other that may still write. */
  ghost predicate Alone(s: State, j: nat, a: nat) {
    && s.mark <= j < |s.batch| && InJob(s.batch[j], a)
    && forall k: nat :: MayWrite(s, k) && k != j ==> !InJob(s.batch[k], a)
  }

  /** The byte is one that job `k` has written. */
  predicate From(s: State, k: nat, a: nat) {
    WrittenAt(s, k, a) && a < |s.mem| && s.mem[a] == s.batch[k].plain[a - s.batch[k].dst]
  }

  /** A byte is of a job that wrote it, and of the one job that is alone there; a byte that none
      wrote is as before the batch. */
  ghost predicate MemAt(s: State, a: nat)
    requires Shape(s)
  {
    a < |s.mem| ==>
      && (forall j: nat :: WrittenAt(s, j, a) && Alone(s, j, a) ==> From(s, j, a))
      && if exists k: nat :: WrittenAt(s, k, a) then exists k: nat :: From(s, k, a) else s.mem[a] == s.base[a]
  }

  /** Jobs of earlier callers that were not pending when the present one came are complete. */
  ghost predicate StrayAt(s: State, k: nat)
    requires Shape(s)
  {
    k < s.mark && k !in s.strays ==> k < s.sent && s.ran[k] == 1
  }

  /** The dispatcher's slot is free and its worker idle; behind a wait's scan every slot is done. */
  ghost predicate PhaseOk(s: State) {
    match s.phase
    case Scanning(_) => true
    case Filling(i) => i < |s.slots| && s.slots[i].inited && s.slots[i].status != SENT && s.sent < |s.batch|
    case Sending(i) =>
      && i < |s.slots| && s.slots[i].inited && s.slots[i].status != SENT && s.sent < |s.batch|
      && s.slots[i].job == s.batch[s.sent] && s.slots[i].index == s.sent
    case Waiting(i) => s.sent == |s.batch| && i <= |s.slots| && forall j: nat :: j < i ==> !Pending(s, j)
    case Returned => s.sent == |s.batch| && forall j: nat :: !Pending(s, j)
  }

  ghost predicate Inv(s: State) {
    && Shape(s) && PhaseOk(s)
    && (forall i: nat :: SlotAt(s, i)) && (forall k: nat :: JobAt(s, k)) && (forall k: nat :: StrayAt(s, k))
    && (forall a: nat :: MemAt(s, a))
  }

  lemma {:induction false} StartInv(slots: nat, mem: seq<int>)
    ensures Inv(Start(slots, mem))
  {
    var s := Start(slots, mem);
    forall a: nat ensures MemAt(s, a) { }
    forall i: nat ensures SlotAt(s, i) { }
  }

  lemma {:induction false} BeginInv(s: State, jobs: seq<Job>)
    requires Inv(s)
    ensures Inv(BeginStep(s, jobs))
  {
    var s' := BeginStep(s, jobs);
    if s.phase == Returned && Fits(jobs, |s.mem|) && Disjoint(jobs) {
      assert jobs[0..] == jobs;
      forall i: nat ensures SlotAt(s', i) { assert SlotAt(s, i) && !Pending(s, i); }
      forall a: nat ensures MemAt(s', a) { }
    }
  }

  lemma {:induction false} AgainInv(s: State, jobs: seq<Job>)
    requires Inv(s)
    ensures Inv(AgainStep(s, jobs))
  {
    var s' := AgainStep(s, jobs);
    if s.phase.Scanning? && s.sent == |s.batch| && Fits(jobs, |s.mem|) && Disjoint(jobs) {
      assert s'.batch[s'.mark..] == jobs;
      forall i: nat ensures SlotAt(s', i) { assert SlotAt(s, i); }
      forall k: nat ensures JobAt(s', k) && StrayAt(s', k) { assert JobAt(s, k); }
      forall a: nat ensures MemAt(s', a) { AgainMem(s, s', a); }
    }
  }

  /** The new caller has written nothing. */
  lemma {:induction false} AgainMem(s: State, s': State, a: nat)
    requires Shape(s) && Shape(s') && MemAt(s, a) && s'.mem == s.mem && s'.base == s.base && s'.written == s.written
    requires s.batch <= s'.batch && s'.mark == |s.batch| == |s.written|
    ensures MemAt(s', a)
  {
    forall k: nat ensures WrittenAt(s', k, a) <==> WrittenAt(s, k, a) { }
    if k: nat :| From(s, k, a) { assert From(s', k, a); }
  }

  /** Steps that touch no job: the slots keep status, job, index and worker. */
  lemma {:induction false} QuietInv(s: State, s': State)
    requires Inv(s) && PhaseOk(s') && s'.mem == s.mem && s'.batch == s.batch && s'.sent == s.sent && s'.base == s.base
    requires s'.owner == s.owner && s'.written == s.written && s'.ran == s.ran && |s'.slots| == |s.slots|
    requires s'.mark == s.mark && s'.strays == s.strays
    requires forall i :: 0 <= i < |s.slots| ==> s'.slots[i] == s.slots[i].(inited := s'.slots[i].inited)
    requires forall i :: 0 <= i < |s.slots| && s.slots[i].inited ==> s'.slots[i].inited
    ensures Inv(s')
  {
    forall i: nat ensures SlotAt(s', i) { assert SlotAt(s, i); }
    forall k: nat ensures JobAt(s', k) && StrayAt(s', k) { assert JobAt(s, k) && StrayAt(s, k); }
    forall a: nat ensures MemAt(s', a) { assert MemAt(s, a); MemFrame(s, s', a); }
  }

  lemma {:induction false} MemFrame(s: State, s': State, a: nat)
    requires Shape(s) && Shape(s') && MemAt(s, a) && s'.mem == s.mem && s'.batch == s.batch && s'.base == s.base
    requires s'.written == s.written || s'.written == s.written + [0]
    requires s'.mark == s.mark && s'.strays == s.strays
    ensures MemAt(s', a)
  {
    forall k: nat ensures WrittenAt(s', k, a) <==> WrittenAt(s, k, a) { }
    forall k: nat ensures (From(s', k, a) <==> From(s, k, a)) && (Alone(s', k, a) <==> Alone(s, k, a)) {
      SameAlone(s, s', k, a);
    }
  }

  lemma {:induction false} SameAlone(s: State, s': State, j: nat, a: nat)
    requires s'.batch == s.batch && s'.mark == s.mark && s'.strays == s.strays
    ensures Alone(s', j, a) <==> Alone(s, j, a)
  {
    forall k: nat ensures MayWrite(s', k) <==> MayWrite(s, k) { }
  }

  lemma {:induction false} ScanInv(s: State)
    requires Inv(s) && s.phase.Scanning?
    ensures Inv(DispatchStep(s))
  {
    if s.phase.i < |s.slots| { assert SlotAt(s, s.phase.i); }
    QuietInv(s, DispatchStep(s));
  }

  /** Nobody but the dispatcher makes a slot busy, so what a wait has passed stays done. */
  lemma {:induction false} WaitInv(s: State)
    requires Inv(s) && (s.phase.Waiting? || s.phase.Returned?)
    ensures Inv(DispatchStep(s))
  {
    var s' := DispatchStep(s);
    if s.phase.Waiting? && s.phase.i < |s.slots| { assert SlotAt(s, s.phase.i); }
    forall j: nat ensures Pending(s', j) <==> Pending(s, j) { }
    QuietInv(s, s');
  }

  /** A worker's step leaves the dispatcher's phase in order. */
  lemma {:induction false} PhaseKept(s: State, s': State, i: nat)
    requires Inv(s) && Pending(s, i) && s'.phase == s.phase && s'.batch == s.batch && s'.sent == s.sent
    requires |s'.slots| == |s.slots| && s'.slots == s.slots[i := s'.slots[i]]
    ensures PhaseOk(s')
  {
    assert SlotAt(s, i);
    forall j: nat | Pending(s', j) ensures Pending(s, j) { }
  }

  /** Filling: the slot's last job was complete, so overwriting the slot loses nothing. */
  lemma {:induction false} FillInv(s: State)
    requires Inv(s) && s.phase.Filling?
    ensures Inv(DispatchStep(s))
  {
    var s' := DispatchStep(s);
    forall i: nat ensures SlotAt(s', i) { assert SlotAt(s, i); }
    forall k: nat ensures JobAt(s', k) && StrayAt(s', k) { assert JobAt(s, k) && StrayAt(s, k); }
    forall a: nat ensures MemAt(s', a) { assert MemAt(s, a); MemFrame(s, s', a); }
  }

  lemma {:induction false} SendInv(s: State)
    requires Inv(s) && s.phase.Sending?
    ensures Inv(DispatchStep(s))
  {
    var s' := DispatchStep(s);
    forall i: nat ensures SlotAt(s', i) { assert SlotAt(s, i); }
    forall k: nat ensures JobAt(s', k) && StrayAt(s', k) { assert JobAt(s, k) && StrayAt(s, k); }
    forall a: nat ensures MemAt(s', a) { assert MemAt(s, a); MemFrame(s, s', a); }
  }

  /** Two busy slots hold different jobs. */
  lemma {:induction false} OwnJob(s: State, i: nat, j: nat)
    requires Inv(s) && Pending(s, i) && Pending(s, j) && i != j
    ensures s.slots[i].index != s.slots[j].index
  {
    assert SlotAt(s, i) && SlotAt(s, j);
  }

  lemma {:induction false} TakeInv(s: State, i: nat)
    requires Inv(s) && Pending(s, i) && s.slots[i].worker == Idle
    ensures Inv(WorkStep(s, i))
  {
    var s' := WorkStep(s, i);
    assert SlotAt(s, i);
    PhaseKept(s, s', i);
    forall j: nat ensures SlotAt(s', j) { assert SlotAt(s, j); }
    forall k: nat ensures JobAt(s', k) && StrayAt(s', k) { assert JobAt(s, k) && StrayAt(s, k); }
    forall a: nat ensures MemAt(s', a) { assert MemAt(s, a); MemFrame(s, s', a); }
  }

  /** A pending job may write. */
  lemma {:induction false} PendingMayWrite(s: State, i: nat)
    requires Inv(s) && Pending(s, i)
    ensures MayWrite(s, s.slots[i].index)
  {
    assert SlotAt(s, i) && JobAt(s, s.slots[i].index) && StrayAt(s, s.slots[i].index);
  }

  lemma {:induction false} WriteMem(s: State, i: nat, a: nat)
    requires Inv(s) && Pending(s, i) && s.slots[i].worker.Working?
    requires s.slots[i].worker.done < |s.slots[i].worker.job.plain|
    requires Shape(WorkStep(s, i))
    ensures MemAt(WorkStep(s, i), a)
  {
    var s', slot := WorkStep(s, i), s.slots[i];
    var k, n := slot.index, slot.worker.done;
    assert SlotAt(s, i) && MemAt(s, a);
    PendingMayWrite(s, i);
    if a < |s.mem| {
      if a == s.batch[k].dst + n {
        assert From(s', k, a);
        forall j: nat | WrittenAt(s', j, a) && Alone(s', j, a) ensures From(s', j, a) { assert MayWrite(s', k); }
      } else {
        forall j: nat ensures (WrittenAt(s', j, a) <==> WrittenAt(s, j, a)) && (From(s', j, a) <==> From(s, j, a)) { }
        forall j: nat ensures Alone(s', j, a) <==> Alone(s, j, a) { SameAlone(s, s', j, a); }
      }
    }
  }

  lemma {:induction false} WriteInv(s: State, i: nat)
    requires Inv(s) && Pending(s, i) && s.slots[i].worker.Working?
    requires s.slots[i].worker.done < |s.slots[i].worker.job.plain|
    ensures Inv(WorkStep(s, i))
  {
    var s' := WorkStep(s, i);
    assert SlotAt(s, i);
    PhaseKept(s, s', i);
    forall j: nat ensures SlotAt(s', j) {
      assert SlotAt(s, j);
      if j != i && Pending(s, j) { OwnJob(s, i, j); }
    }
    forall k: nat ensures JobAt(s', k) && StrayAt(s', k) { assert JobAt(s, k) && StrayAt(s, k); }
    forall a: nat ensures MemAt(s', a) { WriteMem(s, i, a); }
  }

  lemma {:induction false} FinishInv(s: State, i: nat)
    requires Inv(s) && Pending(s, i) && s.slots[i].worker.Working?
    requires s.slots[i].worker.done >= |s.slots[i].worker.job.plain|
    ensures Inv(WorkStep(s, i))
  {
    var s' := WorkStep(s, i);
    assert SlotAt(s, i) && JobAt(s, s.slots[i].index);
    PhaseKept(s, s', i);
    forall j: nat ensures SlotAt(s', j) {
      assert SlotAt(s, j);
      if j != i && Pending(s, j) { OwnJob(s, i, j); }
    }
    forall k: nat ensures JobAt(s', k) && StrayAt(s', k) { assert JobAt(s, k) && StrayAt(s, k); }
    forall a: nat ensures MemAt(s', a) { assert MemAt(s, a); MemFrame(s, s', a); }
  }

  lemma {:induction false} WorkInv(s: State, i: nat)
    requires Inv(s)
    ensures Inv(WorkStep(s, i))
  {
    if i < |s.slots| && s.slots[i].inited {
      assert SlotAt(s, i);
      if s.slots[i].worker.Working? {
        if s.slots[i].worker.done < |s.slots[i].worker.job.plain| { WriteInv(s, i); } else { FinishInv(s, i); }
      } else if Pending(s, i) {
        TakeInv(s, i);
      }
    }
  }

  lemma {:induction false} StepInv(s: State, a: Action)
    requires Inv(s)
    ensures Inv(Step(s, a))
  {
    match a
    case Dispatch =>
      match s.phase {
        case Scanning(_) => ScanInv(s);
        case Filling(_) => FillInv(s);
        case Sending(_) => SendInv(s);
        case _ => WaitInv(s);
      }
    case Work(i) => WorkInv(s, i);
    case Begin(jobs) => BeginInv(s, jobs);
    case Again(jobs) => AgainInv(s, jobs);
  }

  lemma {:induction false} RunInv(slots: nat, mem: seq<int>, actions: seq<Action>)
    ensures Inv(Run(Start(slots, mem), actions))
    decreases actions
  {
    if actions == [] {
      StartInv(slots, mem);
    } else {
      RunInv(slots, mem, actions[..|actions| - 1]);
      StepInv(Run(Start(slots, mem), actions[..|actions| - 1]), actions[|actions| - 1]);
    }
  }

  // ---- What it gives.

  lemma {:induction false} WriteAllAt(mem: seq<int>, job: Job, a: nat)
    requires job.dst + |job.plain| <= |mem| && a < |mem|
    ensures WriteAll(mem, job.dst, job.plain)[a] == if InJob(job, a) then job.plain[a - job.dst] else mem[a]
  {
  }

  /** A byte of the sequential memory: job `k`'s, or as it was. */
  lemma {:induction false} SequentialIn(mem: seq<int>, jobs: seq<Job>, a: nat, k: nat)
    requires Fits(jobs, |mem|) && Disjoint(jobs) && a < |mem| && k < |jobs| && InJob(jobs[k], a)
    ensures Sequential(mem, jobs)[a] == jobs[k].plain[a - jobs[k].dst]
    decreases jobs
  {
    hide WriteAll;
    var n := |jobs| - 1;
    WriteAllAt(Sequential(mem, jobs[..n]), jobs[n], a);
    if k < n {
      assert Apart(jobs[k], jobs[n]);
      SequentialIn(mem, jobs[..n], a, k);
    }
  }

  lemma {:induction false} SequentialOut(mem: seq<int>, jobs: seq<Job>, a: nat)
    requires Fits(jobs, |mem|) && a < |mem| && forall k :: 0 <= k < |jobs| ==> !InJob(jobs[k], a)
    ensures Sequential(mem, jobs)[a] == mem[a]
    decreases jobs
  {
    hide WriteAll;
    if jobs != [] {
      var n := |jobs| - 1;
      WriteAllAt(Sequential(mem, jobs[..n]), jobs[n], a);
      SequentialOut(mem, jobs[..n], a);
    }
  }

  /** The sequential build: job after job, each byte of a job over what was there. */
  lemma {:induction false} SequentialIs(mem: seq<int>, jobs: seq<Job>, dst: nat, plain: seq<int>, a: nat)
    requires Fits(jobs, |mem|) && dst + |plain| <= |mem| && a < |mem|
    ensures Sequential(mem, []) == mem && Fits(jobs + [Job(dst, plain)], |mem|)
    ensures Sequential(mem, jobs + [Job(dst, plain)])[a] ==
            if dst <= a < dst + |plain| then plain[a - dst] else Sequential(mem, jobs)[a]
  {
    hide WriteAll;
    var all := jobs + [Job(dst, plain)];
    assert all[..|jobs|] == jobs;
    WriteAllAt(Sequential(mem, jobs), Job(dst, plain), a);
  }

  lemma {:induction false} AllComplete(s: State, k: nat)
    requires Inv(s) && s.phase == Returned && k < |s.batch|
    ensures s.ran[k] == 1 && s.written[k] == |s.batch[k].plain|
  {
    assert JobAt(s, k) && !Pending(s, s.owner[k]);
  }

  lemma {:induction false} ByteIsSequential(s: State, a: nat)
    requires Inv(s) && s.phase == Returned && a < |s.mem| && Disjoint(s.batch)
    ensures s.mem[a] == Sequential(s.base, s.batch)[a]
  {
    hide Sequential;
    assert MemAt(s, a);
    if k: nat :| WrittenAt(s, k, a) {
      var l: nat :| From(s, l, a);
      SequentialIn(s.base, s.batch, a, l);
    } else {
      forall k: nat | k < |s.batch| ensures !InJob(s.batch[k], a) {
        AllComplete(s, k);
        assert !WrittenAt(s, k, a);
      }
      SequentialOut(s.base, s.batch, a);
    }
  }

  /** When `decrypt_wait` returns, every job since the last wait has run exactly once, also those
      of callers that did not wait, and if their destinations are disjoint the memory is what the
      sequential build leaves. */
  lemma {:induction false} WaitReturnsSequential(slots: nat, mem: seq<int>, actions: seq<Action>)
    requires Run(Start(slots, mem), actions).phase == Returned
    ensures var s := Run(Start(slots, mem), actions);
            && Shape(s) && (Disjoint(s.batch) ==> s.mem == Sequential(s.base, s.batch))
            && |s.ran| == |s.batch| && forall k :: 0 <= k < |s.batch| ==> s.ran[k] == 1
  {
    hide Run, Sequential, Start, Disjoint;
    var s := Run(Start(slots, mem), actions);
    RunInv(slots, mem, actions);
    forall k: nat | k < |s.batch| ensures s.ran[k] == 1 { AllComplete(s, k); }
    if Disjoint(s.batch) {
      forall a: nat | a < |s.mem| ensures s.mem[a] == Sequential(s.base, s.batch)[a] { ByteIsSequential(s, a); }
    }
  }

  // ---- Callers that return before the wait.

  /** The job of the present caller overlaps none that an earlier caller left pending. */
  predicate ApartFromStrays(s: State, j: nat)
    requires j < |s.batch|
  {
    forall k: nat :: k in s.strays && k < |s.batch| ==> Apart(s.batch[k], s.batch[j])
  }

  /** What the wait gives a caller whatever others left behind: a job that overlaps no stray has
      its bytes. */
  lemma {:induction false} CallerHasItsBytes(slots: nat, mem: seq<int>, actions: seq<Action>, j: nat, a: nat)
    requires var s := Run(Start(slots, mem), actions);
             && s.phase == Returned && s.mark <= j < |s.batch| && ApartFromStrays(s, j)
             && s.batch[j].dst <= a < s.batch[j].dst + |s.batch[j].plain|
    ensures var s := Run(Start(slots, mem), actions);
            a < |s.mem| && s.mem[a] == s.batch[j].plain[a - s.batch[j].dst]
  {
    hide Run, Start;
    var s := Run(Start(slots, mem), actions);
    RunInv(slots, mem, actions);
    AllComplete(s, j);
    assert MemAt(s, a) && WrittenAt(s, j, a);
    forall k: nat | MayWrite(s, k) && k != j ensures !InJob(s.batch[k], a) {
      if s.mark <= k { OwnApart(s, k, j); }
    }
    assert Alone(s, j, a);
  }

  lemma {:induction false} OwnApart(s: State, k: nat, j: nat)
    requires Shape(s) && s.mark <= k < |s.batch| && s.mark <= j < |s.batch| && k != j
    ensures Apart(s.batch[k], s.batch[j])
  {
    var own := s.batch[s.mark..];
    var lo, hi := if k < j then k else j, if k < j then j else k;
    assert Apart(own[lo - s.mark], own[hi - s.mark]);
  }

  /** A stray can only be a job that was pending when the present caller came. */
  lemma {:induction false} StraysWerePending(s: State, jobs: seq<Job>)
    requires Inv(s) && AgainStep(s, jobs) != s
    ensures forall k: nat :: k in AgainStep(s, jobs).strays <==> k < s.sent && s.ran[k] == 0
  {
    forall k: nat ensures StillThere(s, k) <==> k < s.sent && s.ran[k] == 0 { assert JobAt(s, k); }
  }

  /** One more step of a run. */
  lemma {:induction false} Then(start: State, actions: seq<Action>, s: State, a: Action)
    returns (actions': seq<Action>, s': State)
    requires Run(start, actions) == s
    ensures s' == Step(s, a) == Run(start, actions')
  {
    actions', s' := actions + [a], Step(s, a);
    assert actions'[..|actions|] == actions;
  }

  const First := Job(0, [1])
  const Second := Job(0, [2])

  /** A caller hands over its job. */
  lemma {:induction false} OneCaller() returns (actions: seq<Action>, s: State)
    ensures s == Run(Start(2, [0]), actions)
    ensures s == State([Slot(true, SENT, First, 0, Idle), Slot(false, NONE, Job(0, []), 0, Idle)], [0], Scanning(0),
                       [First], 1, [0], [[]], [0], [0], [0], 0, {})
  {
    hide Run;
    var start := Start(2, [0]);
    actions, s := [], start;
    NoSteps(start);
    actions, s := Then(start, actions, s, Begin([First]));
    actions, s := Then(start, actions, s, Dispatch);
    actions, s := Then(start, actions, s, Dispatch);
    actions, s := Then(start, actions, s, Dispatch);
  }

  /** It returns, and another one hands over its own. */
  lemma {:induction false} TwoCallers() returns (actions: seq<Action>, s: State)
    ensures s == Run(Start(2, [0]), actions)
    ensures s == State([Slot(true, SENT, First, 0, Idle), Slot(true, SENT, Second, 1, Idle)], [0], Scanning(0),
                       [First, Second], 2, [0], [[]], [0, 1], [0, 0], [0, 0], 1, {0})
  {
    hide Run;
    var start := Start(2, [0]);
    actions, s := OneCaller();
    assert StillThere(s, 0);
    actions, s := Then(start, actions, s, Again([Second]));
    assert s.strays == {0} && s.batch == [First, Second];
    actions, s := Then(start, actions, s, Dispatch);
    actions, s := Then(start, actions, s, Dispatch);
    actions, s := Then(start, actions, s, Dispatch);
    actions, s := Then(start, actions, s, Dispatch);
  }

  /** The second job runs, and then the first. */
  lemma {:induction false} BothRun() returns (actions: seq<Action>, s: State)
    ensures s == Run(Start(2, [0]), actions)
    ensures s == State([Slot(true, DONE, First, 0, Idle), Slot(true, DONE, Second, 1, Idle)], [1], Scanning(0),
                       [First, Second], 2, [0], [[]], [0, 1], [1, 1], [1, 1], 1, {0})
  {
    hide Run;
    var start := Start(2, [0]);
    actions, s := TwoCallers();
    actions, s := Then(start, actions, s, Work(1));
    actions, s := Then(start, actions, s, Work(1));
    actions, s := Then(start, actions, s, Work(1));
    assert s.mem == [2];
    actions, s := Then(start, actions, s, Work(0));
    actions, s := Then(start, actions, s, Work(0));
    actions, s := Then(start, actions, s, Work(0));
  }

  lemma {:induction false} NoSteps(s: State)
    ensures Run(s, []) == s
  {
  }

  /** Two callers with the same variable on their stacks: the second one's wait returns with the
      byte of the first. */
  lemma {:induction false} StrayOverwrites() returns (actions: seq<Action>)
    ensures var s := Run(Start(2, [0]), actions);
            s.phase == Returned && s.batch == [First, Second] && s.mark == 1 && s.mem == [1]
  {
    hide Run;
    var start := Start(2, [0]);
    var s: State;
    actions, s := BothRun();
    actions, s := Then(start, actions, s, Dispatch);
    actions, s := Then(start, actions, s, Dispatch);
    actions, s := Then(start, actions, s, Dispatch);
    actions, s := Then(start, actions, s, Dispatch);
  }

  predicate AllFit(batches: seq<seq<Job>>, size: nat) { forall b :: 0 <= b < |batches| ==> Fits(batches[b], size) }

  predicate AllDisjoint(batches: seq<seq<Job>>) { forall b :: 0 <= b < |batches| ==> Disjoint(batches[b]) }

  function SequentialAll(mem: seq<int>, batches: seq<seq<Job>>): (r: seq<int>)
    requires AllFit(batches, |mem|)
    ensures |r| == |mem|
  {
    if batches == [] then mem
    else Sequential(SequentialAll(mem, batches[..|batches| - 1]), batches[|batches| - 1])
  }

  lemma {:induction false} NoBatches(mem: seq<int>)
    ensures SequentialAll(mem, []) == mem
  {
  }

  lemma {:induction false} SameBatches(s: State, a: Action)
    requires !a.Begin? || s.phase != Returned
    ensures var s' := Step(s, a); s'.base == s.base && s'.batches == s.batches && |s'.mem| == |s.mem|
  {
  }

  /** The memory before this batch is that of the sequential build over the batches before it. */
  ghost predicate HistoryOk(s: State, mem: seq<int>) {
    && AllFit(s.batches, |mem|) && |s.mem| == |s.base| == |mem|
    && (AllDisjoint(s.batches) ==> s.base == SequentialAll(mem, s.batches))
  }

  lemma {:induction false} BeginHistory(s: State, jobs: seq<Job>, mem: seq<int>)
    requires s.phase == Returned && Shape(s) && (Disjoint(s.batch) ==> s.mem == Sequential(s.base, s.batch))
    requires HistoryOk(s, mem)
    ensures HistoryOk(Step(s, Begin(jobs)), mem)
  {
    hide Sequential, Disjoint;
    var all := s.batches + [s.batch];
    assert all[..|s.batches|] == s.batches;
    if AllDisjoint(all) {
      assert Disjoint(all[|s.batches|]);
      forall b | 0 <= b < |s.batches| ensures Disjoint(s.batches[b]) { assert Disjoint(all[b]); }
    }
  }

  /** Batches follow one another as in the sequential build, as long as no two jobs between two
      waits share a destination. */
  lemma {:induction false} BatchesInOrder(slots: nat, mem: seq<int>, actions: seq<Action>)
    ensures HistoryOk(Run(Start(slots, mem), actions), mem)
    decreases actions
  {
    hide Step, Sequential, SequentialAll, Shape, Disjoint;
    if actions == [] {
      NoBatches(mem);
    } else {
      var before, a := actions[..|actions| - 1], actions[|actions| - 1];
      var s := Run(Start(slots, mem), before);
      BatchesInOrder(slots, mem, before);
      if a.Begin? && s.phase == Returned {
        WaitReturnsSequential(slots, mem, before);
        BeginHistory(s, a.jobs, mem);
      } else {
        SameBatches(s, a);
      }
    }
  }

  /** No slot is filled while its job is pending or its worker busy. */
  lemma {:induction false} FilledSlotIsFree(slots: nat, mem: seq<int>, actions: seq<Action>)
    ensures var s := Run(Start(slots, mem), actions);
            (s.phase.Filling? || s.phase.Sending?) ==>
              s.phase.i < |s.slots| && !Pending(s, s.phase.i) && s.slots[s.phase.i].worker == Idle
  {
    var s := Run(Start(slots, mem), actions);
    RunInv(slots, mem, actions);
    if s.phase.Filling? || s.phase.Sending? { assert SlotAt(s, s.phase.i); }
  }
}
