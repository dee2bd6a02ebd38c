/** The trap frame a thread saves when it gives up the processor is the one it resumes from. */
module ThreadFrames {
  import opened SeqTools
  import opened Scheduler
  import opened SchedulerInvariant
  import opened Wakeups
  import opened Switches
  import opened SchedulerRuns
  import opened TimedWaits
  import Deadlines

  /** Operations that trap with a frame and may give the processor to another thread. */
  predicate Traps(op: Op) {
    op.OpYield? || op.OpSleep? || op.OpWait? || op.OpWaitFor? || op.OpTick?
  }

  /** A switch by yield, sleep, wait or preemption stores the trap's own frame with the thread it
      switches away from, which is then ready or blocked. */
  lemma SwitchSavesFrame(k: Kernel, op: Op)
    requires Inv(k) && Legal(k, op) && k.started && Traps(op)
    ensures Step(k, op).Ok? && HasCurrent(k) && |Step(k, op).value.threads| == |k.threads|
    ensures var c, k1 := k.current.value, Step(k, op).value;
      k1.current != k.current ==> Resting(k1, c) && k1.threads[c].frame == Some(op.f)
  {
    StepSafe(k, op);
    StepShape(k, op);
    if op.OpTick? {
      TickSaves(k, op.f);
    } else if Parks(k, op) {
      ParkSaves(k, op);
    } else {
      StayInv(k, op);
    }
  }

  lemma ParkSaves(k: Kernel, op: Op)
    requires Inv(k) && Legal(k, op) && k.started && Traps(op) && !op.OpTick? && Parks(k, op)
    ensures Step(k, op).Ok? && HasCurrent(k) && k.current.value < |Step(k, op).value.threads|
    ensures var c, k1 := k.current.value, Step(k, op).value;
      k1.current != k.current ==> Resting(k1, c) && k1.threads[c].frame == Some(op.f)
  {
    ParkingStep(k, op);
    ParkedFrame(k, op);
    hide Inv, Legal, Step, Parked;
    DispatchedRecord(ParkedBy(k, op), k.current.value);
  }

  lemma ParkedFrame(k: Kernel, op: Op)
    requires Inv(k) && Legal(k, op) && k.started && Traps(op) && !op.OpTick? && Parks(k, op)
    ensures HasCurrent(k) && |ParkedBy(k, op).threads| == |k.threads|
    ensures var th := ParkedBy(k, op).threads[k.current.value];
      (th.state == Ready || th.state == Blocked) && th.frame == Some(op.f)
  {
    hide Linked, Fits, TasksLinked, SleepInsert;
  }

  lemma TickSaves(k: Kernel, f: Frame)
    requires Inv(k) && k.started && FrameOfCurrent(k, f)
    ensures Tick(k, f).Ok? && HasCurrent(k) && k.current.value < |Tick(k, f).value.threads|
    ensures var c, k1 := k.current.value, Tick(k, f).value;
      k1.current != k.current ==> Resting(k1, c) && k1.threads[c].frame == Some(f)
  {
    TickStep(k, f);
    CurrentNotWoken(k);
    hide Inv, Awoken, Chargeable, AfterCharge;
    ChargeSaves(Awoken(k), f);
  }

  lemma ChargeSaves(k: Kernel, f: Frame)
    requires Chargeable(k, f)
    ensures HasCurrent(k) && k.current.value < |AfterCharge(k, f).threads|
    ensures var c, k1 := k.current.value, AfterCharge(k, f);
      k1.current != k.current ==> Resting(k1, c) && k1.threads[c].frame == Some(f)
  {
    if Preempts(k) {
      PreemptStep(k, f);
      hide Chargeable, AfterCharge, Parked;
      DispatchedRecord(ParkReady(Expired(k), f), k.current.value);
    }
  }

  /** What ends a blocked thread's wait: a wake of the head or of all of its queue, or a tick that
      reaches its deadline. */
  ghost predicate EndsWait(k: Kernel, op: Op, t: Tid)
    requires t < |k.threads|
  {
    match op
    case OpWakeOne(q) => q < |k.waits| && k.waits[q] != [] && k.waits[q][0] == t
    case OpWakeAll(q) => q < |k.waits| && t in k.waits[q]
    case OpTick(_) => k.started && t in k.sleepers && k.threads[t].wakeTick <= (k.now + 1) % 0x1_0000_0000_0000_0000
    case _ => false
  }

  /** Exactly those operations end a wait, from every queue at once, and leave in the frame's a0 the
      word 2^64 - 1 for a tick that ends a wait with a deadline and 0 in every other case. */
  lemma WaitEnds(k: Kernel, op: Op, t: Tid)
    requires Inv(k) && Legal(k, op) && t < |k.threads| && k.threads[t].state == Blocked
    ensures Step(k, op).Ok? && t < |Step(k, op).value.threads|
    ensures var th, after := k.threads[t], Step(k, op).value.threads[t];
      if !EndsWait(k, op, t) then after == th
      else
        && (after.state == Ready || after.state == Running) && !after.inSleep && !after.inWait && after.queue == None
        && th.frame.Some? && after.task == th.task
        && after.frame == Some(th.frame.value.(a0 := if op.OpTick? && th.reason == TimedWaiting then 0xFFFF_FFFF_FFFF_FFFF else 0))
  {
    RecordEffect(k, op, t);
    EndsWaitIff(k, op, t);
    BlockedFits(k, t);
    hide Inv, Legal, Step, DueNext, EndsWait;
  }

  lemma EndsWaitIff(k: Kernel, op: Op, t: Tid)
    requires Inv(k) && Legal(k, op) && t < |k.threads|
    ensures EndsWait(k, op, t) <==> EndedBy(k, op, t).Some?
  {
    if op.OpTick? && t in k.sleepers {
      Deadlines.DueIffPast(k, t);
    }
    hide Inv, Due;
  }

  lemma BlockedFits(k: Kernel, t: Tid)
    requires Inv(k) && t < |k.threads| && k.threads[t].state == Blocked
    ensures k.threads[t].frame.Some? && Resting(k, t)
  {
  }

  /** The frame with the word a wait's end leaves in it: 0 for an event, 2^64 - 1 for a timeout. */
  function Answered(f: Frame, r: Option<WaitResult>): Frame {
    match r
    case None => f
    case Some(WaitOk) => f.(a0 := 0)
    case Some(WaitTimeout) => f.(a0 := 0xFFFF_FFFF_FFFF_FFFF)
  }

  /** Over any run until it is dispatched, a ready thread keeps its frame, and a blocked one keeps
      its frame but for the result word that the first end of its wait leaves in a0. */
  lemma FrameKept(k: Kernel, ops: seq<Op>, t: Tid, f: Frame)
    requires Inv(k) && LegalRun(k, ops) && Resting(k, t) && Undispatched(k, ops, t) && k.threads[t].frame == Some(f)
    ensures Execute(k, ops).Ok? && t < |Execute(k, ops).value.threads|
    ensures Execute(k, ops).value.threads[t].frame ==
      Some(if k.threads[t].state == Ready then f else Answered(f, FirstEnd(k, ops, t)))
  {
    hide Inv, LegalRun, Execute, FirstEnd, Undispatched;
    if k.threads[t].state == Ready {
      ReadyRun(k, ops, t);
    } else {
      WaitEndsOnce(k, ops, t);
    }
  }

  /**
   * From the trap to the next dispatch: the thread that a trap switches away from resumes from
   * that trap's frame, changed in nothing but the result word of a wait that has ended.
   */
  lemma ResumesWhereItTrapped(k: Kernel, op: Op, ops: seq<Op>)
    requires Inv(k) && Legal(k, op) && k.started && Traps(op) && Step(k, op).Ok? && HasCurrent(k)
    requires var c, k1 := k.current.value, Step(k, op).value;
      k1.current != k.current && LegalRun(k1, ops) && Undispatched(k1, ops, c)
    ensures var c, k1 := k.current.value, Step(k, op).value;
      && Execute(k1, ops).Ok? && c < |Execute(k1, ops).value.threads| && c < |k1.threads|
      && Execute(k1, ops).value.threads[c].frame ==
           Some(if k1.threads[c].state == Ready then op.f else Answered(op.f, FirstEnd(k1, ops, c)))
  {
    StepSafe(k, op);
    SwitchSavesFrame(k, op);
    hide Inv, Legal, Step, LegalRun, Execute, FirstEnd, Undispatched;
    FrameKept(Step(k, op).value, ops, k.current.value, op.f);
  }

  // ------------------------------------------------------- what a call does

  /** The processor has gone from the caller to the head of the ready queue, or to the idle thread. */
  ghost predicate Handed(k: Kernel, k1: Kernel) {
    k1.current == Some(if k.ready == [] then 0 else k.ready[0])
  }

  /** thread_sleep: without ticks it is a yield; otherwise the caller is blocked until its deadline. */
  lemma SleepExact(k: Kernel, f: Frame, ticks: nat)
    requires Inv(k) && k.started && RealTrap(k, f)
    ensures SleepFor(k, f, ticks).Ok?
    ensures ticks == 0 ==> SleepFor(k, f, ticks) == Yield(k, f)
    ensures ticks != 0 ==>
      var c, k1 := k.current.value, SleepFor(k, f, ticks).value;
      && Handed(k, k1) && k1.waits == k.waits && k1.now == k.now && c < |k1.threads|
      && k1.threads[c].state == Blocked && k1.threads[c].reason == Sleeping && k1.threads[c].frame == Some(f)
      && k1.threads[c].wakeTick == (k.now + ticks) % 0x1_0000_0000_0000_0000
      && c in k1.sleepers && (forall x :: x in k1.sleepers <==> x in k.sleepers || x == c)
  {
    var op := OpSleep(f, ticks);
    StepSafe(k, op);
    if ticks != 0 {
      ParkingStep(k, op);
      AsleepIs(k, f, ticks);
      hide Inv, SleepFor, ParkAsleep, Parked;
      DispatchedRecord(ParkAsleep(k, f, ticks), k.current.value);
    }
  }

  lemma AsleepIs(k: Kernel, f: Frame, ticks: nat)
    requires Inv(k) && k.started && RealTrap(k, f) && ticks != 0
    ensures var c, p := k.current.value, ParkAsleep(k, f, ticks);
      && c < |p.threads| && p.ready == k.ready && p.waits == k.waits && p.now == k.now
      && p.threads[c].state == Blocked && p.threads[c].reason == Sleeping && p.threads[c].frame == Some(f)
      && p.threads[c].wakeTick == (k.now + ticks) % 0x1_0000_0000_0000_0000
      && forall x :: x in p.sleepers <==> x in k.sleepers || x == c
  {
    InsertHas(k.threads, k.sleepers, k.current.value, Add64(k.now, ticks));
    hide Linked, Fits, TasksLinked, SleepInsert;
  }

  lemma InsertHas(threads: Table, q: seq<Tid>, t: Tid, wake: nat)
    ensures forall x :: x in SleepInsert(threads, q, t, wake) <==> x in q || x == t
  {
    var i := SleepIndex(threads, q, wake);
    assert q == q[..i] + q[i..];
  }

  /** A wait without a deadline: the caller is last in the queue and nowhere else. */
  lemma WaitExact(k: Kernel, f: Frame, q: QueueId)
    requires Inv(k) && k.started && RealTrap(k, f) && q < |k.waits|
    ensures Wait(k, f, q).Ok?
    ensures var c, k1 := k.current.value, Wait(k, f, q).value;
      && Handed(k, k1) && k1.waits == k.waits[q := k.waits[q] + [c]] && k1.sleepers == k.sleepers && c < |k1.threads|
      && k1.threads[c].state == Blocked && k1.threads[c].queue == Some(q) && k1.threads[c].frame == Some(f)
  {
    ParkingStep(k, OpWait(f, q));
    hide Inv, Wait, Parked, Step;
    DispatchedRecord(ParkWaiting(k, f, q, 0), k.current.value);
  }

  /** A wait with a deadline: without ticks nothing happens; otherwise the caller is last in the
      queue and asleep until its deadline. */
  lemma WaitForExact(k: Kernel, f: Frame, q: QueueId, ticks: nat)
    requires Inv(k) && k.started && RealTrap(k, f) && q < |k.waits|
    ensures WaitFor(k, f, q, ticks).Ok?
    ensures ticks == 0 ==> WaitFor(k, f, q, ticks).value == k
    ensures ticks != 0 ==>
      var c, k1 := k.current.value, WaitFor(k, f, q, ticks).value;
      && Handed(k, k1) && k1.waits == k.waits[q := k.waits[q] + [c]] && c < |k1.threads|
      && k1.threads[c].state == Blocked && k1.threads[c].queue == Some(q) && k1.threads[c].frame == Some(f)
      && k1.threads[c].wakeTick == (k.now + ticks) % 0x1_0000_0000_0000_0000
      && forall x :: x in k1.sleepers <==> x in k.sleepers || x == c
  {
    StepSafe(k, OpWaitFor(f, q, ticks));
    if ticks != 0 {
      ParkingStep(k, OpWaitFor(f, q, ticks));
      WaiterIs(k, f, q, ticks);
      hide Inv, WaitFor, ParkWaiting, Parked, Step;
      DispatchedRecord(ParkWaiting(k, f, q, ticks), k.current.value);
    }
  }

  lemma WaiterIs(k: Kernel, f: Frame, q: QueueId, ticks: nat)
    requires HasCurrent(k) && q < |k.waits| && ticks != 0
    ensures var c, p := k.current.value, ParkWaiting(k, f, q, ticks);
      && c < |p.threads| && p.ready == k.ready && p.waits == k.waits[q := k.waits[q] + [c]]
      && p.threads[c].state == Blocked && p.threads[c].queue == Some(q) && p.threads[c].frame == Some(f)
      && p.threads[c].wakeTick == (k.now + ticks) % 0x1_0000_0000_0000_0000
      && forall x :: x in p.sleepers <==> x in k.sleepers || x == c
  {
    hide SleepInsert, SleepIndex;
    WaiterRecord(k, f, q, ticks);
    hide Waiter;
    InsertHas(k.threads, k.sleepers, k.current.value, Waiter(k, f, q, ticks).wakeTick);
  }

  lemma WaiterRecord(k: Kernel, f: Frame, q: QueueId, ticks: nat)
    requires HasCurrent(k) && ticks != 0
    ensures var th := Waiter(k, f, q, ticks);
      && th.state == Blocked && th.queue == Some(q) && th.frame == Some(f)
      && th.wakeTick == (k.now + ticks) % 0x1_0000_0000_0000_0000
  {
  }

  /** A yield: alone, the caller goes on with a fresh quantum; otherwise the head runs and a real
      caller goes to the back. */
  lemma YieldExact(k: Kernel, f: Frame)
    requires Inv(k) && k.started && FrameOfCurrent(k, f)
    ensures Yield(k, f).Ok? && HasCurrent(k)
    ensures var c, k1 := k.current.value, Yield(k, f).value;
      if k.ready == [] then k1 == k.(threads := k.threads[c := k.threads[c].(quantum := 0)])
      else
        && k1.current == Some(k.ready[0]) && k1.ready == k.ready[1..] + (if c == 0 then [] else [c])
        && k1.sleepers == k.sleepers && k1.waits == k.waits
  {
    var op := OpYield(f);
    StepSafe(k, op);
    if k.ready != [] {
      ParkingStep(k, op);
      hide Inv, Yield, Parked, Step;
    }
  }
}
