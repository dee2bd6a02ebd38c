/** Owner-transfer mutexes (kernel/core/sync.c) on top of the scheduler.  Mutex m waits on
    queue m.  A lock call that blocks is split where it blocks: pcs records the call a
    thread resumes in once it is dispatched again. */
module Mutexes {
  import opened SeqTools
  import opened Scheduler
  import opened SchedulerInvariant
  import opened Wakeups
  import opened Switches
  import opened SchedulerRuns
  import opened TimedWaits

  type MutexId = nat

  datatype Pc = Idle | Locking(m: MutexId) | TimedLocking(m: MutexId)

  datatype System = System(k: Kernel, owners: seq<Option<Tid>>, pcs: seq<Pc>)

  /** What a completed or blocked call returned to its caller. */
  datatype Reply = Acquired | Refused | TimedOut | Released | StillBlocked | NoReply

  ghost predicate Shape(s: System) {
    |s.pcs| == |s.k.threads| && |s.owners| <= |s.k.waits| && s.k.started && HasCurrent(s.k)
  }

  function Me(s: System): Tid
    requires s.k.current.Some?
  {
    s.k.current.value
  }

  function Take(s: System, m: MutexId): System
    requires s.k.current.Some? && m < |s.owners|
  {
    s.(owners := s.owners[m := Some(Me(s))])
  }

  /** sync.c:29-56 up to the point where the call blocks */
  function Lock(s: System, m: MutexId, f: Frame): Outcome<(System, Reply)>
    requires Shape(s) && m < |s.owners|
  {
    if Me(s) == 0 || s.owners[m] == Some(Me(s)) then Panic
    else if s.owners[m].None? then Ok((Take(s, m), Acquired))
    else
      var k1 :- Wait(s.k, f, m);
      Ok((s.(k := k1, pcs := s.pcs[Me(s) := Locking(m)]), StillBlocked))
  }

  /** sync.c:58-105 up to the point where the call blocks */
  function LockFor(s: System, m: MutexId, ticks: nat, f: Frame): Outcome<(System, Reply)>
    requires Shape(s) && m < |s.owners|
  {
    if Me(s) == 0 || s.owners[m] == Some(Me(s)) then Panic
    else if s.owners[m].None? then Ok((Take(s, m), Acquired))
    else if ticks == 0 then Ok((s, TimedOut))
    else
      var k1 :- WaitFor(s.k, f, m, ticks);
      Ok((s.(k := k1, pcs := s.pcs[Me(s) := TimedLocking(m)]), StillBlocked))
  }

  /** The current thread goes on after wait_queue_sleep (sync.c:46-53) or after
      wait_queue_sleep_timeout (sync.c:85-98), whose result is the a0 of its frame. */
  function Resume(s: System, f: Frame): Outcome<(System, Reply)>
    requires Shape(s)
  {
    var t := Me(s);
    var done := s.(pcs := s.pcs[t := Idle]);
    match s.pcs[t]
    case Idle => Ok((s, NoReply))
    case Locking(m) =>
      if m >= |s.owners| then Panic
      else if s.owners[m] == Some(t) then Ok((done, Acquired))
      else if s.owners[m].None? then Ok((Take(done, m), Acquired))
      else
        var k1 :- Wait(s.k, f, m);
        Ok((s.(k := k1), StillBlocked))
    case TimedLocking(m) =>
      if m >= |s.owners| || s.k.threads[t].frame.None? then Panic
      else if s.k.threads[t].frame.value.a0 == Word(WaitTimeout) then Ok((done, TimedOut))
      else if s.owners[m] != Some(t) then Panic
      else Ok((done, Acquired))
  }

  /** sync.c:107-129 */
  function TryLock(s: System, m: MutexId): Outcome<(System, Reply)>
    requires Shape(s) && m < |s.owners|
  {
    if Me(s) == 0 || s.owners[m] == Some(Me(s)) then Panic
    else if s.owners[m].Some? then Ok((s, Refused))
    else Ok((Take(s, m), Acquired))
  }

  /** sync.c:131-149 */
  function Unlock(s: System, m: MutexId): Outcome<(System, Reply)>
    requires Shape(s) && m < |s.owners|
  {
    if Me(s) == 0 || s.owners[m] != Some(Me(s)) then Panic
    else
      var (k1, next) :- WakeOne(s.k, m);
      Ok((s.(k := k1, owners := s.owners[m := next]), Released))
  }

  // ---------------------------------------------------------------- invariant

  predicate Live(th: Thread) {
    th.state == Ready || th.state == Running || th.state == Blocked
  }

  /** An ownerless mutex has no waiters; an owner is a live real thread. */
  ghost predicate MutexOk(s: System, m: MutexId)
    requires m < |s.owners| <= |s.k.waits|
  {
    match s.owners[m]
    case None => s.k.waits[m] == []
    case Some(t) => 0 < t < |s.k.threads| && Live(s.k.threads[t])
  }

  /** Where a thread inside a lock call can be: still queued and not the owner, or awake
      and the owner, or (timed) awake with the timeout word and not the owner. */
  ghost predicate PcOk(s: System, t: Tid)
    requires t < |s.pcs| == |s.k.threads|
  {
    var th := s.k.threads[t];
    match s.pcs[t]
    case Idle => th.queue.Some? ==> th.queue.value >= |s.owners|
    case Locking(m) =>
      && m < |s.owners| && 0 < t
      && if th.state == Blocked
         then th.queue == Some(m) && th.reason == Waiting && s.owners[m] != Some(t)
         else Live(th) && s.owners[m] == Some(t)
    case TimedLocking(m) =>
      && m < |s.owners| && 0 < t
      && if th.state == Blocked
         then th.queue == Some(m) && th.reason == TimedWaiting && s.owners[m] != Some(t)
         else Live(th) && th.frame.Some? &&
              th.frame.value.a0 == (if s.owners[m] == Some(t) then Word(WaitOk) else Word(WaitTimeout))
  }

  ghost predicate MInv(s: System) {
    && Inv(s.k) && Shape(s)
    && (forall m :: 0 <= m < |s.owners| ==> MutexOk(s, m))
    && (forall t :: 0 <= t < |s.pcs| ==> PcOk(s, t))
  }

  // -------------------------------------------------------------------- steps

  datatype MOp =
    | MLock(m: MutexId, f: Frame)
    | MLockFor(m: MutexId, ticks: nat, f: Frame)
    | MTryLock(m: MutexId)
    | MUnlock(m: MutexId)
    | MResume(f: Frame)
    | MSched(op: Op)

  /** A scheduler operation on a queue that is not a mutex's own. */
  predicate OtherQueue(s: System, op: Op) {
    match op
    case OpWait(_, q) => q >= |s.owners|
    case OpWaitFor(_, q, _) => q >= |s.owners|
    case OpWakeOne(q) => q >= |s.owners|
    case OpWakeAll(q) => q >= |s.owners|
    case _ => true
  }

  /** What callers promise: a thread does not lock what it owns, unlocks only what it owns,
      exits owning nothing, and one inside a lock call runs that call on with interrupts
      masked before anything else happens. */
  ghost predicate MLegal(s: System, op: MOp)
    requires Shape(s)
  {
    match op
    case MLock(m, f) => m < |s.owners| && s.pcs[Me(s)] == Idle && RealTrap(s.k, f) && s.owners[m] != Some(Me(s))
    case MLockFor(m, ticks, f) =>
      m < |s.owners| && s.pcs[Me(s)] == Idle && RealTrap(s.k, f) && s.owners[m] != Some(Me(s))
    case MTryLock(m) => m < |s.owners| && s.pcs[Me(s)] == Idle && Me(s) != 0 && s.owners[m] != Some(Me(s))
    case MUnlock(m) => m < |s.owners| && s.pcs[Me(s)] == Idle && s.owners[m] == Some(Me(s))
    case MResume(f) => s.pcs[Me(s)] != Idle && RealTrap(s.k, f)
    case MSched(op) =>
      && Legal(s.k, op) && s.pcs[Me(s)] == Idle && OtherQueue(s, op)
      && (op.OpExit? ==> forall m :: 0 <= m < |s.owners| ==> s.owners[m] != Some(Me(s)))
  }

  ghost function MStep(s: System, op: MOp): Outcome<(System, Reply)>
    requires Shape(s) && MLegal(s, op)
  {
    match op
    case MLock(m, f) => Lock(s, m, f)
    case MLockFor(m, ticks, f) => LockFor(s, m, ticks, f)
    case MTryLock(m) => TryLock(s, m)
    case MUnlock(m) => Unlock(s, m)
    case MResume(f) => Resume(s, f)
    case MSched(op) => var k1 :- Step(s.k, op); Ok((s.(k := k1), NoReply))
  }

  // ------------------------------------------------- scheduler steps around us

  /** No scheduler operation on another queue ends a mutex wait with WAIT_OK. */
  lemma OnlyTheTimer(s: System, op: Op, t: Tid)
    requires MInv(s) && Legal(s.k, op) && OtherQueue(s, op) && t < |s.pcs|
    requires s.pcs[t] != Idle && s.k.threads[t].state == Blocked
    ensures EndedBy(s.k, op, t).Some? ==> s.pcs[t].TimedLocking? && EndedBy(s.k, op, t) == Some(WaitTimeout)
  {
    var k, th := s.k, s.k.threads[t];
    assert PcOk(s, t);
    assert Fit(th, t == 0);
    match op
    case OpWakeOne(q) =>
      assert QueueLinked(k.threads, k.waits[q], q);
      assert k.waits[q] != [] ==> k.waits[q][0] in k.waits[q];
    case OpWakeAll(q) => assert QueueLinked(k.threads, k.waits[q], q);
    case OpTick(f) => assert forall x :: x in DueNext(k) ==> x in k.sleepers;
    case _ =>
  }

  lemma SchedPcBlocked(s: System, op: Op, k1: Kernel, t: Tid)
    requires MInv(s) && Legal(s.k, op) && OtherQueue(s, op) && t < |s.pcs|
    requires s.k.threads[t].state == Blocked
    requires Step(s.k, op) == Ok(k1) && |k1.threads| == |s.k.threads|
    ensures PcOk(s.(k := k1), t)
  {
    RecordEffect(s.k, op, t);
    assert PcOk(s, t);
    if s.pcs[t] != Idle { OnlyTheTimer(s, op, t); }
    FrameSaved(s.k, t);
    hide Inv, Legal, Step, EndedBy, MInv;
  }

  lemma FrameSaved(k: Kernel, t: Tid)
    requires Inv(k) && Resting(k, t)
    ensures k.threads[t].frame.Some?
  {
    assert Fit(k.threads[t], t == 0);
  }

  lemma SchedPcReady(s: System, op: Op, k1: Kernel, t: Tid)
    requires MInv(s) && Legal(s.k, op) && t < |s.pcs| && s.k.threads[t].state == Ready
    requires Step(s.k, op) == Ok(k1) && |k1.threads| == |s.k.threads|
    ensures PcOk(s.(k := k1), t)
  {
    RecordEffect(s.k, op, t);
    ReadyUntouched(s.k, op, t);
    assert PcOk(s, t);
    hide Inv, Legal, Step, EndedBy, MInv;
  }

  lemma SchedPc(s: System, op: Op, k1: Kernel, t: Tid)
    requires MInv(s) && MLegal(s, MSched(op)) && t < |s.pcs|
    requires Step(s.k, op) == Ok(k1) && |k1.threads| == |s.k.threads|
    ensures PcOk(s.(k := k1), t)
  {
    if s.k.threads[t].state == Blocked {
      SchedPcBlocked(s, op, k1, t);
    } else if s.k.threads[t].state == Ready {
      SchedPcReady(s, op, k1, t);
    } else {
      OtherRecord(s.k, op, t);
      assert PcOk(s, t);
      assert s.k.threads[t].state == Running ==> t == Me(s);
      hide Inv, Legal, Step;
    }
  }

  lemma SchedOwnerLive(s: System, op: Op, k1: Kernel, t: Tid)
    requires MInv(s) && Legal(s.k, op) && Step(s.k, op) == Ok(k1) && |k1.threads| == |s.k.threads|
    requires t < |s.k.threads| && Live(s.k.threads[t]) && (op.OpExit? ==> t != Me(s))
    ensures Live(k1.threads[t])
  {
    if Resting(s.k, t) {
      RecordEffect(s.k, op, t);
    } else {
      assert s.k.threads[t].state == Running ==> t == Me(s);
      OtherRecord(s.k, op, t);
    }
  }

  /** Nobody joins a mutex queue through a scheduler operation on another queue. */
  lemma SchedNoJoin(s: System, op: Op, k1: Kernel, m: MutexId, t: Tid)
    requires MInv(s) && Legal(s.k, op) && OtherQueue(s, op) && Step(s.k, op) == Ok(k1) && Inv(k1)
    requires m < |s.owners| && m < |k1.waits| && |k1.threads| == |s.k.threads| && t in k1.waits[m]
    ensures t in s.k.waits[m]
  {
    WaiterQueue(k1, m, t);
    if Resting(s.k, t) {
      RecordEffect(s.k, op, t);
      assert QueueLinked(s.k.threads, s.k.waits[m], m);
    } else {
      OtherRecord(s.k, op, t);
    }
  }

  lemma SchedShape(s: System, op: Op)
    requires MInv(s) && MLegal(s, MSched(op))
    ensures Step(s.k, op).Ok? && Inv(Step(s.k, op).value)
    ensures var k1 := Step(s.k, op).value;
      |k1.threads| == |s.k.threads| && |k1.waits| >= |s.k.waits| && k1.started && HasCurrent(k1)
  {
    StepSafe(s.k, op);
    StepShape(s.k, op);
  }

  lemma SchedMInv(s: System, op: Op)
    requires MInv(s) && MLegal(s, MSched(op))
    ensures MStep(s, MSched(op)).Ok? && MInv(MStep(s, MSched(op)).value.0)
  {
    SchedShape(s, op);
    var k1 := Step(s.k, op).value;
    var s1 := s.(k := k1);
    forall t | 0 <= t < |s1.pcs| ensures PcOk(s1, t) {
      SchedPc(s, op, k1, t);
    }
    forall m | 0 <= m < |s1.owners| ensures MutexOk(s1, m) {
      assert MutexOk(s, m);
      if s.owners[m].Some? {
        SchedOwnerLive(s, op, k1, s.owners[m].value);
      } else if k1.waits[m] != [] {
        SchedNoJoin(s, op, k1, m, k1.waits[m][0]);
      }
    }
    hide Inv, Legal, Step, PcOk, MutexOk;
  }

  // -------------------------------------------------------- mutex operations

  /** Taking a free mutex: nobody waits for it and nobody else holds it. */
  lemma TakeMInv(s: System, m: MutexId)
    requires MInv(s) && m < |s.owners| && s.owners[m].None? && s.pcs[Me(s)] == Idle && Me(s) != 0
    ensures MInv(Take(s, m))
  {
    var s1, c := Take(s, m), Me(s);
    assert MutexOk(s, m);
    assert s.k.threads[c].state == Running;
    assert QueueLinked(s.k.threads, s.k.waits[m], m);
    forall t | 0 <= t < |s1.pcs| ensures PcOk(s1, t) {
      assert PcOk(s, t);
    }
    forall i | 0 <= i < |s1.owners| ensures MutexOk(s1, i) {
      assert MutexOk(s, i);
    }
    hide Inv, PcOk, MutexOk;
  }

  ghost predicate Blocks(s: System, m: MutexId, ticks: nat, f: Frame) {
    MInv(s) && m < |s.owners| && s.owners[m].Some? && s.owners[m] != Some(Me(s)) &&
    s.pcs[Me(s)] == Idle && RealTrap(s.k, f)
  }

  ghost function BlockOp(m: MutexId, ticks: nat, f: Frame): Op {
    if ticks == 0 then OpWait(f, m) else OpWaitFor(f, m, ticks)
  }

  /** The scheduler's part of a lock call that has to wait. */
  lemma BlockKernel(s: System, m: MutexId, ticks: nat, f: Frame)
    requires Blocks(s, m, ticks, f)
    ensures Legal(s.k, BlockOp(m, ticks, f)) && Step(s.k, BlockOp(m, ticks, f)).Ok?
    ensures var k1 := Step(s.k, BlockOp(m, ticks, f)).value;
      && Inv(k1) && k1.started && HasCurrent(k1) && |k1.threads| == |s.k.threads|
      && k1.waits == s.k.waits[m := s.k.waits[m] + [Me(s)]]
      && k1.threads[Me(s)] == Waiter(s.k, f, m, ticks)
  {
    var op := BlockOp(m, ticks, f);
    ParkingStep(s.k, op);
    var p := ParkWaiting(s.k, f, m, ticks);
    hide Inv, Step, Parked, MInv;
    DispatchedRecord(p, Me(s));
  }

  function BlockPc(m: MutexId, ticks: nat): Pc {
    if ticks == 0 then Locking(m) else TimedLocking(m)
  }

  lemma BlockPcs(s: System, m: MutexId, ticks: nat, f: Frame, k1: Kernel, t: Tid)
    requires Blocks(s, m, ticks, f) && t < |s.pcs| && t != Me(s)
    requires Legal(s.k, BlockOp(m, ticks, f)) && Step(s.k, BlockOp(m, ticks, f)) == Ok(k1)
    requires |k1.threads| == |s.k.threads|
    ensures PcOk(s.(k := k1, pcs := s.pcs[Me(s) := BlockPc(m, ticks)]), t)
  {
    var op := BlockOp(m, ticks, f);
    BlockedElsewhere(s, m, ticks, f, t);
    hide Inv, Legal, Step, MInv, Blocks, EndedBy, BlockOp;
    assert op == BlockOp(m, ticks, f);
    BlockOpWaits(m, ticks, f);
    if Resting(s.k, t) {
      RecordEffect(s.k, op, t);
      FrameSaved(s.k, t);
    } else {
      OtherRecord(s.k, op, t);
    }
  }

  lemma BlockOpWaits(m: MutexId, ticks: nat, f: Frame)
    ensures BlockOp(m, ticks, f) in {OpWait(f, m), OpWaitFor(f, m, ticks)}
  {
  }

  lemma BlockedElsewhere(s: System, m: MutexId, ticks: nat, f: Frame, t: Tid)
    requires Blocks(s, m, ticks, f) && t < |s.pcs| && t != Me(s)
    requires Legal(s.k, BlockOp(m, ticks, f))
    ensures Inv(s.k) && s.k.started && |s.pcs| == |s.k.threads| && PcOk(s, t)
    ensures s.k.threads[t].state != Running && EndedBy(s.k, BlockOp(m, ticks, f), t) == None
  {
    hide Linked, Fits, TasksLinked, Quiet;
  }

  lemma BlockMInv(s: System, m: MutexId, ticks: nat, f: Frame)
    requires Blocks(s, m, ticks, f)
    ensures Legal(s.k, BlockOp(m, ticks, f)) && Step(s.k, BlockOp(m, ticks, f)).Ok?
    ensures MInv(s.(k := Step(s.k, BlockOp(m, ticks, f)).value, pcs := s.pcs[Me(s) := BlockPc(m, ticks)]))
  {
    var op := BlockOp(m, ticks, f);
    BlockKernel(s, m, ticks, f);
    var k1 := Step(s.k, op).value;
    var s1 := s.(k := k1, pcs := s.pcs[Me(s) := BlockPc(m, ticks)]);
    forall t | 0 <= t < |s1.pcs| ensures PcOk(s1, t) {
      if t != Me(s) { BlockPcs(s, m, ticks, f, k1, t); }
    }
    forall i | 0 <= i < |s1.owners| ensures MutexOk(s1, i) {
      assert MutexOk(s, i);
      if s.owners[i].Some? { SchedOwnerLive(s, op, k1, s.owners[i].value); }
    }
    hide Inv, Legal, Step, PcOk, MutexOk;
  }

  // ------------------------------------------------------------------- unlock

  /** The state in which the oldest waiter has been made the owner. */
  function HandedOver(s: System, m: MutexId): System
    requires Shape(s) && m < |s.owners|
  {
    if s.k.waits[m] == [] then s.(owners := s.owners[m := None])
    else if s.k.waits[m][0] >= |s.k.threads| then s
    else s.(k := Wake(s.k, s.k.waits[m][0], WaitOk), owners := s.owners[m := Some(s.k.waits[m][0])])
  }

  lemma UnlockIsHandedOver(s: System, m: MutexId)
    requires MInv(s) && m < |s.owners| && s.owners[m] == Some(Me(s))
    ensures Unlock(s, m) == Ok((HandedOver(s, m), Released))
  {
    assert MutexOk(s, m);
    WakeOneIsWake(s.k, m);
    hide Inv;
  }

  lemma HandedOverPc(s: System, m: MutexId, t: Tid)
    requires MInv(s) && m < |s.owners| && s.owners[m] == Some(Me(s)) && s.pcs[Me(s)] == Idle
    requires t < |s.pcs|
    ensures |HandedOver(s, m).k.threads| == |s.k.threads| && PcOk(HandedOver(s, m), t)
  {
    assert PcOk(s, t);
    var k := s.k;
    assert k.threads[Me(s)].state == Running;
    if k.waits[m] != [] {
      QueueHead(k, m);
      var h := k.waits[m][0];
      assert PcOk(s, h);
      FrameSaved(k, h);
      hide Inv, MInv;
    }
  }

  lemma HandedOverMInv(s: System, m: MutexId)
    requires MInv(s) && m < |s.owners| && s.owners[m] == Some(Me(s)) && s.pcs[Me(s)] == Idle
    ensures MInv(HandedOver(s, m))
  {
    var s1 := HandedOver(s, m);
    HandedOverKernel(s, m);
    forall t | 0 <= t < |s1.pcs| ensures PcOk(s1, t) {
      HandedOverPc(s, m, t);
    }
    forall i | 0 <= i < |s1.owners| ensures MutexOk(s1, i) {
      assert MutexOk(s, i);
      if s.k.waits[m] != [] {
        QueueHead(s.k, m);
      }
    }
    hide Inv, PcOk, MutexOk;
  }

  lemma HandedOverKernel(s: System, m: MutexId)
    requires MInv(s) && m < |s.owners|
    ensures Inv(HandedOver(s, m).k) && Shape(HandedOver(s, m))
  {
    if s.k.waits[m] != [] {
      WakeInv(s.k, OpWakeOne(m));
      WakeOneIsWake(s.k, m);
      QueueHead(s.k, m);
      hide Inv, WakeOne;
    }
  }

  // ------------------------------------------------------------------- resume

  /** A dispatched locker owns the mutex; a timed one owns it unless it timed out. */
  lemma ResumeCases(s: System, f: Frame)
    requires MInv(s) && s.pcs[Me(s)] != Idle
    ensures s.pcs[Me(s)].m < |s.owners|
    ensures s.pcs[Me(s)].Locking? ==> s.owners[s.pcs[Me(s)].m] == Some(Me(s))
    ensures Resume(s, f).Ok?
    ensures Resume(s, f).value.0 == s.(pcs := s.pcs[Me(s) := Idle])
    ensures Resume(s, f).value.1 == if s.owners[s.pcs[Me(s)].m] == Some(Me(s)) then Acquired else TimedOut
  {
    assert PcOk(s, Me(s));
    assert s.k.threads[Me(s)].state == Running;
  }

  lemma ResumeMInv(s: System, f: Frame)
    requires MInv(s) && s.pcs[Me(s)] != Idle
    ensures Resume(s, f).Ok? && MInv(Resume(s, f).value.0)
  {
    ResumeCases(s, f);
    CurrentFits(s.k);
    var s1 := Resume(s, f).value.0;
    hide Inv, Resume;
    forall t | 0 <= t < |s1.pcs| ensures PcOk(s1, t) {
      assert PcOk(s, t);
    }
    forall i | 0 <= i < |s1.owners| ensures MutexOk(s1, i) {
      assert MutexOk(s, i);
    }
  }

  // --------------------------------------------------------------------- runs

  /** No legal step panics -- in particular a timed waiter woken with WAIT_OK always finds
      itself the owner -- and every step keeps the mutex invariant. */
  lemma MutexStepSafe(s: System, op: MOp)
    requires MInv(s) && MLegal(s, op)
    ensures MStep(s, op).Ok? && MInv(MStep(s, op).value.0)
  {
    match op
    case MLock(m, f) => LockMInv(s, op);
    case MLockFor(m, ticks, f) => LockMInv(s, op);
    case MTryLock(m) => if s.owners[m].None? { TakeMInv(s, m); }
    case MUnlock(m) => UnlockIsHandedOver(s, m); HandedOverMInv(s, m);
    case MResume(f) => ResumeMInv(s, f);
    case MSched(op) => SchedMInv(s, op);
  }

  function TicksOf(op: MOp): nat {
    if op.MLockFor? then op.ticks else 0
  }

  ghost predicate HasToWait(s: System, op: MOp)
    requires Shape(s) && MLegal(s, op)
  {
    (op.MLock? || (op.MLockFor? && op.ticks > 0)) && s.owners[op.m].Some?
  }

  /** A lock call that has to wait is one wait on the mutex's queue. */
  lemma LockIsBlock(s: System, op: MOp)
    requires MInv(s) && MLegal(s, op) && HasToWait(s, op)
    ensures Blocks(s, op.m, TicksOf(op), op.f)
    ensures Legal(s.k, BlockOp(op.m, TicksOf(op), op.f))
    ensures var k1 := Step(s.k, BlockOp(op.m, TicksOf(op), op.f));
      k1.Ok? && MStep(s, op) ==
        Ok((s.(k := k1.value, pcs := s.pcs[Me(s) := BlockPc(op.m, TicksOf(op))]), StillBlocked))
  {
    hide MInv, Inv;
    HasToBlock(s, op);
    BlockKernel(s, op.m, TicksOf(op), op.f);
    match op
    case MLock(m, f) => LockWaits(s, m, f); hide Lock, Blocks;
    case MLockFor(m, ticks, f) => LockForWaits(s, m, ticks, f); hide LockFor, Blocks;
  }

  lemma LockWaits(s: System, m: MutexId, f: Frame)
    requires Blocks(s, m, 0, f) && Me(s) != 0 && Wait(s.k, f, m).Ok?
    ensures Lock(s, m, f) ==
      Ok((s.(k := Wait(s.k, f, m).value, pcs := s.pcs[Me(s) := Locking(m)]), StillBlocked))
  {
    hide MInv, Wait;
  }

  lemma LockForWaits(s: System, m: MutexId, ticks: nat, f: Frame)
    requires Blocks(s, m, ticks, f) && Me(s) != 0 && ticks > 0 && WaitFor(s.k, f, m, ticks).Ok?
    ensures LockFor(s, m, ticks, f) ==
      Ok((s.(k := WaitFor(s.k, f, m, ticks).value, pcs := s.pcs[Me(s) := TimedLocking(m)]), StillBlocked))
  {
    hide MInv, WaitFor;
  }

  lemma HasToBlock(s: System, op: MOp)
    requires MInv(s) && MLegal(s, op) && HasToWait(s, op)
    ensures Blocks(s, op.m, TicksOf(op), op.f) && Me(s) != 0
    ensures s.owners[op.m].Some? && s.owners[op.m] != Some(Me(s))
    ensures op.MLock? || (op.MLockFor? && op.ticks > 0)
  {
    assert MutexOk(s, op.m);
  }

  lemma LockMInv(s: System, op: MOp)
    requires MInv(s) && MLegal(s, op) && (op.MLock? || op.MLockFor?)
    ensures MStep(s, op).Ok? && MInv(MStep(s, op).value.0)
  {
    if s.owners[op.m].None? {
      TakeMInv(s, op.m);
    } else if HasToWait(s, op) {
      LockIsBlock(s, op);
      hide MInv, MStep, MLegal, Step;
      BlockMInv(s, op.m, TicksOf(op), op.f);
    }
  }

  ghost predicate MLegalRun(s: System, ops: seq<MOp>)
    decreases |ops|
  {
    ops == [] ||
    (Shape(s) && MLegal(s, ops[0]) &&
     (MStep(s, ops[0]).Ok? ==> MLegalRun(MStep(s, ops[0]).value.0, ops[1..])))
  }

  ghost function MExecute(s: System, ops: seq<MOp>): Outcome<System>
    requires MLegalRun(s, ops)
    decreases |ops|
  {
    if ops == [] then Ok(s) else
    var (s1, _) :- MStep(s, ops[0]);
    MExecute(s1, ops[1..])
  }

  lemma {:induction false} MutexRunSafe(s: System, ops: seq<MOp>)
    requires MInv(s) && MLegalRun(s, ops)
    ensures MExecute(s, ops).Ok? && MInv(MExecute(s, ops).value)
    decreases |ops|
  {
    if ops != [] {
      MutexStepSafe(s, ops[0]);
      hide MInv, MLegal, MStep;
      MutexRunSafe(MStep(s, ops[0]).value.0, ops[1..]);
    }
  }
}
