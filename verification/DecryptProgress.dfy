/** The pool makes progress: from every state it can reach, the dispatcher and the workers alone
    can bring the wait to its return. */
module DecryptProgress {
  import opened DecryptPool

  /** A slot that has its thread and no job yet is the one being filled. */
  ghost predicate NewSlotAt(s: State, i: nat) {
    i < |s.slots| && s.slots[i].inited && s.slots[i].status == NONE ==> s.phase == Filling(i) || s.phase == Sending(i)
  }

  ghost predicate Ready(s: State, slots: nat) {
    Inv(s) && |s.slots| == slots && forall i: nat :: NewSlotAt(s, i)
  }

  lemma {:induction false} StepReady(s: State, a: Action, slots: nat)
    requires Ready(s, slots)
    ensures Ready(Step(s, a), slots)
  {
    hide Inv;
    StepInv(s, a);
    forall i: nat ensures NewSlotAt(Step(s, a), i) { StepNewSlot(s, a, i); }
  }

  lemma {:induction false} StepNewSlot(s: State, a: Action, i: nat)
    requires Inv(s) && forall j: nat :: NewSlotAt(s, j)
    ensures NewSlotAt(Step(s, a), i) && |Step(s, a).slots| == |s.slots|
  {
    assert NewSlotAt(s, i) && SlotAt(s, i);
  }

  lemma {:induction false} RunReady(slots: nat, mem: seq<int>, actions: seq<Action>)
    ensures Ready(Run(Start(slots, mem), actions), slots)
    decreases actions
  {
    if actions == [] {
      StartInv(slots, mem);
    } else {
      RunReady(slots, mem, actions[..|actions| - 1]);
      StepReady(Run(Start(slots, mem), actions[..|actions| - 1]), actions[|actions| - 1], slots);
    }
  }

  /** Steps of the dispatcher and the workers only. */
  predicate Internal(actions: seq<Action>) {
    forall k :: 0 <= k < |actions| ==> actions[k].Dispatch? || actions[k].Work?
  }

  ghost predicate Leads(s: State, more: seq<Action>, t: State) { Internal(more) && Run(s, more) == t }

  lemma {:induction false} Stay(s: State)
    ensures Leads(s, [], s)
  {
  }

  lemma {:induction false} Extend(s: State, more: seq<Action>, a: Action)
    ensures Run(s, more + [a]) == Step(Run(s, more), a)
  {
    assert (more + [a])[..|more|] == more;
  }

  lemma {:induction false} One(s: State, a: Action)
    requires a.Dispatch? || a.Work?
    ensures Leads(s, [a], Step(s, a))
  {
    hide Step;
    Stay(s);
    Extend(s, [], a);
    assert [] + [a] == [a];
  }

  lemma {:induction false} Chain(s: State, more: seq<Action>, t: State, rest: seq<Action>, u: State)
    requires Leads(s, more, t) && Leads(t, rest, u)
    ensures Leads(s, more + rest, u)
    decreases rest
  {
    hide Run, Step;
    if rest == [] {
      Stay(t);
      assert more + rest == more;
    } else {
      Chain(s, more, t, rest[..|rest| - 1], Run(t, rest[..|rest| - 1]));
      Extend(s, more + rest[..|rest| - 1], rest[|rest| - 1]);
      Extend(t, rest[..|rest| - 1], rest[|rest| - 1]);
      assert more + rest[..|rest| - 1] + [rest[|rest| - 1]] == more + rest;
      assert rest[..|rest| - 1] + [rest[|rest| - 1]] == rest;
    }
  }

  ghost function Busy(s: State): (r: set<nat>) {
    set i: nat | i < |s.slots| && Pending(s, i)
  }

  /** What neither the dispatcher nor a worker changes. */
  predicate SameWork(s: State, t: State) {
    t.batch == s.batch && t.base == s.base && t.batches == s.batches && t.mark == s.mark
  }

  ghost predicate OthersSame(s: State, t: State, i: nat) {
    && |t.slots| == |s.slots| && t.sent == s.sent && t.phase == s.phase && SameWork(s, t)
    && forall j: nat :: j < |s.slots| && j != i ==> t.slots[j] == s.slots[j]
  }

  /** A worker's turn takes its job, writes a byte of it, or ends it. */
  lemma {:induction false} WorkerMoves(s: State, i: nat)
    requires Inv(s) && Pending(s, i)
    ensures var t, slot := WorkStep(s, i), s.slots[i];
            && OthersSame(s, t, i) && slot.job.dst + |slot.job.plain| <= |s.mem|
            && t.slots[i] == match slot.worker
                             case Idle => slot.(worker := Working(slot.job, 0))
                             case Working(_, n) =>
                               if n < |slot.job.plain| then slot.(worker := Working(slot.job, n + 1))
                               else slot.(status := DONE, worker := Idle)
  {
    assert SlotAt(s, i);
  }

  /** What a busy worker still has to do. */
  function Left(slot: Slot): (r: nat) {
    match slot.worker
    case Idle => |slot.job.plain| + 2
    case Working(_, n) => if n <= |slot.job.plain| then |slot.job.plain| - n + 1 else 0
  }

  /** A busy worker can finish its job. */
  lemma {:induction false} SlotFinishes(s: State, i: nat, slots: nat) returns (more: seq<Action>, t: State)
    requires Ready(s, slots) && Pending(s, i)
    ensures Leads(s, more, t) && Ready(t, slots) && OthersSame(s, t, i) && t.slots[i].status == DONE
    decreases Left(s.slots[i])
  {
    hide Inv, Leads, WorkStep;
    WorkerMoves(s, i);
    WorkerBound(s, i);
    StepReady(s, Work(i), slots);
    One(s, Work(i));
    t := WorkStep(s, i);
    more := [Work(i)];
    if Pending(t, i) {
      var rest, u := SlotFinishes(t, i, slots);
      Chain(s, more, t, rest, u);
      more, t := more + rest, u;
    }
  }

  lemma {:induction false} WorkerBound(s: State, i: nat)
    requires Inv(s) && Pending(s, i)
    ensures s.slots[i].worker.Working? ==> s.slots[i].worker.done <= |s.slots[i].job.plain|
  {
    assert SlotAt(s, i);
  }

  /** How far the dispatcher is from the next job sent, or from the return. */
  function Rank(s: State): (r: nat) {
    match s.phase
    case Scanning(i) => |s.slots| + (if i >= |s.slots| then 4 else 3)
    case Filling(_) => 2
    case Sending(_) => 1
    case Waiting(i) => if i <= |s.slots| then |s.slots| - i + 1 else 1
    case Returned => 0
  }

  /** With no slot busy the dispatcher never waits in vain. */
  lemma {:induction false} DispatcherMoves(s: State, slots: nat)
    requires slots > 0 && Ready(s, slots) && Busy(s) == {} && s.phase != Returned
    ensures var t := DispatchStep(s);
            SameWork(s, t) && (t.sent > s.sent || (t.sent == s.sent && Busy(t) == {} && Rank(t) < Rank(s)))
  {
    var t := DispatchStep(s);
    forall i: nat ensures !Pending(s, i) { assert i !in Busy(s); }
    if (s.phase.Scanning? || s.phase.Waiting?) && s.phase.i < slots {
      assert NewSlotAt(s, s.phase.i) && !Pending(s, s.phase.i);
    }
    if t.sent == s.sent {
      forall i: nat ensures !Pending(t, i) { assert !Pending(s, i); }
      assert Busy(t) == {};
    }
  }

  /** From a reachable state to the return of the wait. */
  lemma {:induction false} Finishes(s: State, slots: nat) returns (more: seq<Action>, t: State)
    requires slots > 0 && Ready(s, slots)
    ensures Leads(s, more, t) && Ready(t, slots) && SameWork(s, t) && t.phase == Returned
    decreases |s.batch| - s.sent, Busy(s), Rank(s)
  {
    hide NewSlotAt, Leads, DispatchStep, Rank;
    if s.phase == Returned {
      Stay(s);
      more, t := [], s;
    } else {
      if i: nat :| i in Busy(s) {
        more, t := SlotFinishes(s, i, slots);
        assert i !in Busy(t) && Busy(t) < Busy(s) by { LessBusy(s, t, i); }
      } else {
        DispatcherMoves(s, slots);
        StepReady(s, Dispatch, slots);
        One(s, Dispatch);
        more, t := [Dispatch], DispatchStep(s);
      }
      var rest, u := Finishes(t, slots);
      Chain(s, more, t, rest, u);
      more, t := more + rest, u;
    }
  }

  lemma {:induction false} LessBusy(s: State, t: State, i: nat)
    requires Pending(s, i) && OthersSame(s, t, i) && t.slots[i].status == DONE
    ensures Busy(t) < Busy(s)
  {
    assert i in Busy(s) && i !in Busy(t);
    forall j: nat | j in Busy(t) ensures j in Busy(s) { }
  }

  /** Every wait can return, whatever has happened, without another caller's help; the memory is
      then what the sequential build of the same jobs leaves. */
  lemma {:induction false} WaitCanReturn(slots: nat, mem: seq<int>, actions: seq<Action>) returns (more: seq<Action>)
    requires slots > 0
    ensures forall k :: 0 <= k < |more| ==> more[k].Dispatch? || more[k].Work?
    ensures var s, t := Run(Start(slots, mem), actions), Run(Start(slots, mem), actions + more);
            && t.phase == Returned && t.batch == s.batch && t.base == s.base && t.batches == s.batches
            && Fits(t.batch, |t.base|) && (Disjoint(t.batch) ==> t.mem == Sequential(t.base, t.batch))
  {
    hide Run, Start, Disjoint, Sequential;
    var start := Start(slots, mem);
    var s, t := Run(start, actions), start;
    RunReady(slots, mem, actions);
    more, t := Finishes(s, slots);
    RunOn(start, actions, more);
    WaitReturnsSequential(slots, mem, actions + more);
  }

  lemma {:induction false} RunOn(s: State, a: seq<Action>, b: seq<Action>)
    ensures Run(s, a + b) == Run(Run(s, a), b)
    decreases b
  {
    if b == [] {
      assert a + b == a;
    } else {
      RunOn(s, a, b[..|b| - 1]);
      assert (a + b)[..|a + b| - 1] == a + b[..|b| - 1];
    }
  }
}
