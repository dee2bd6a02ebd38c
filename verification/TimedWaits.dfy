/** How a wait ends: once, by the event or by the timer, whichever comes first, with the
    winner's result in the saved frame. */
module TimedWaits {
  import opened SeqTools
  import opened Scheduler
  import opened SchedulerInvariant
  import opened Wakeups
  import opened Switches
  import opened SchedulerRuns

  /** Whether op ends the wait of the blocked thread t, and with which result. */
  ghost function EndedBy(k: Kernel, op: Op, t: Tid): Option<WaitResult>
    requires Legal(k, op) && t < |k.threads|
  {
    match op
    case OpWakeOne(q) => if k.waits[q] != [] && k.waits[q][0] == t then Some(WaitOk) else None
    case OpWakeAll(q) => if t in k.waits[q] then Some(WaitOk) else None
    case OpTick(f) => if k.started && t in DueNext(k) then Some(ResultOf(k.threads[t], Timer)) else None
    case _ => None
  }

  /** b, or b just given the processor. */
  predicate Resumed(a: Thread, b: Thread) {
    a == b || (b.state == Ready && a == b.(inReady := false, state := Running, quantum := 0))
  }

  ghost predicate Resting(k: Kernel, t: Tid) {
    t < |k.threads| && (k.threads[t].state == Blocked || k.threads[t].state == Ready)
  }

  lemma DispatchedRecord(p: Kernel, t: Tid)
    requires Parked(p) && t < |p.threads|
    ensures Next(p) < |p.threads| && |Dispatched(p).threads| == |p.threads|
    ensures Resumed(Dispatched(p).threads[t], p.threads[t])
    ensures t != Next(p) ==> Dispatched(p).threads[t] == p.threads[t]
  {
    NextFits(p);
  }

  /** Parking changes only the record of the thread that gives up the processor. */
  lemma ParkedRecord(k: Kernel, op: Op, t: Tid)
    requires Inv(k) && Legal(k, op) && Parks(k, op) && t < |k.threads| && k.current != Some(t)
    ensures |ParkedBy(k, op).threads| == |k.threads|
    ensures ParkedBy(k, op).threads[t] == k.threads[t]
  {
    hide Linked, Fits, TasksLinked;
  }

  lemma ParkingRecord(k: Kernel, op: Op, t: Tid)
    requires Inv(k) && Legal(k, op) && Parks(k, op) && Resting(k, t)
    ensures Step(k, op).Ok? && t < |Step(k, op).value.threads|
    ensures Resumed(Step(k, op).value.threads[t], k.threads[t])
  {
    ParkingStep(k, op);
    assert k.current != Some(t);
    ParkedRecord(k, op, t);
    hide Inv, Legal, Parked, Step;
    DispatchedRecord(ParkedBy(k, op), t);
  }

  lemma ChargeRecord(k: Kernel, f: Frame, t: Tid)
    requires Chargeable(k, f) && t < |k.threads| && k.current != Some(t)
    ensures |AfterCharge(k, f).threads| == |k.threads|
    ensures Resumed(AfterCharge(k, f).threads[t], k.threads[t])
  {
    if Preempts(k) {
      PreemptStep(k, f);
      hide Chargeable, Parked, AfterCharge;
      DispatchedRecord(ParkReady(Expired(k), f), t);
    }
  }

  lemma TickRecord(k: Kernel, f: Frame, t: Tid)
    requires Inv(k) && k.started && FrameOfCurrent(k, f) && Resting(k, t)
    ensures Tick(k, f).Ok? && t < |Tick(k, f).value.threads|
    ensures Resumed(Tick(k, f).value.threads[t],
                    if t in DueNext(k) then Woken(k.threads[t], ResultOf(k.threads[t], Timer)) else k.threads[t])
  {
    TickStep(k, f);
    AwokenOk(k);
    CurrentNotWoken(k);
    hide Sound, Linked, Fits, TasksLinked, Awoken, DueNext, Chargeable;
    ChargeRecord(Awoken(k), f, t);
  }

  lemma WakeRecord(k: Kernel, op: Op, t: Tid)
    requires Inv(k) && Legal(k, op) && (op.OpWakeOne? || op.OpWakeAll?) && Resting(k, t)
    ensures Step(k, op).Ok? && t < |Step(k, op).value.threads|
    ensures Step(k, op).value.threads[t] ==
      if EndedBy(k, op, t).Some? then Woken(k.threads[t], WaitOk) else k.threads[t]
  {
    if op.OpWakeOne? {
      WakeOneIsWake(k, op.q);
    } else {
      WakeAllIsWakeList(k, op.q);
      hide Inv, Linked, Fits, TasksLinked, Sound;
      WakeListEffect(k, k.waits[op.q], Event);
    }
  }

  lemma InstallRecord(k: Kernel, op: Op, t: Tid)
    requires Inv(k) && Legal(k, op) && (op.OpCreate? || op.OpCreateUser?) && Resting(k, t)
    requires Step(k, op).Ok?
    ensures t < |Step(k, op).value.threads| && Step(k, op).value.threads[t] == k.threads[t]
  {
    hide Inv, FreeSlot;
  }

  /** What one step does to a thread that is blocked or ready: the wait ends exactly when
      EndedBy says so, and otherwise the record is frozen until it is dispatched. */
  lemma RecordEffect(k: Kernel, op: Op, t: Tid)
    requires Inv(k) && Legal(k, op) && Resting(k, t)
    ensures Step(k, op).Ok? && t < |Step(k, op).value.threads|
    ensures var th, after := k.threads[t], Step(k, op).value.threads[t];
      match EndedBy(k, op, t)
      case None => Resumed(after, th)
      case Some(r) => Resumed(after, Woken(th, r))
  {
    StepSafe(k, op);
    match op
    case OpStart => StartInv(k); StartRecord(k, t);
    case OpCreate => InstallRecord(k, op, t);
    case OpCreateUser(_) => InstallRecord(k, op, t);
    case OpWakeOne(_) => WakeRecord(k, op, t);
    case OpWakeAll(_) => WakeRecord(k, op, t);
    case OpTick(f) => if k.started { TickRecord(k, f, t); }
    case OpInitQueue =>
    case OpInitTask(_) =>
    case _ =>
      if Parks(k, op) {
        ParkingRecord(k, op, t);
      } else {
        StayRecord(k, op, t);
      }
  }

  lemma StayRecord(k: Kernel, op: Op, t: Tid)
    requires Inv(k) && Legal(k, op) && !Parks(k, op) && Resting(k, t)
    requires op.OpYield? || op.OpSleep? || op.OpWait? || op.OpWaitFor? || op.OpExit?
    ensures Step(k, op).Ok? && t < |Step(k, op).value.threads|
    ensures Step(k, op).value.threads[t] == k.threads[t]
  {
    StayInv(k, op);
    assert k.current != Some(t);
  }

  lemma StartRecord(k: Kernel, t: Tid)
    requires Inv(k) && !k.started && Resting(k, t) && Next(k) < |k.threads|
    ensures Resumed(Dispatched(k).threads[t], k.threads[t])
  {
    hide Linked, TasksLinked;
    DispatchedRecord(k, t);
  }

  /** A queue entry names a thread that is waiting on that very queue. */
  lemma WaiterQueue(k: Kernel, q: QueueId, t: Tid)
    requires Inv(k) && q < |k.waits| && t in k.waits[q]
    ensures 0 < t < |k.threads| && k.threads[t].state == Blocked && k.threads[t].queue == Some(q)
  {
    assert QueueLinked(k.threads, k.waits[q], q);
    assert Fit(k.threads[t], t == 0);
  }

  /** Ready threads are in no wait or sleep queue, so nothing wakes them again. */
  lemma ReadyUntouched(k: Kernel, op: Op, t: Tid)
    requires Inv(k) && Legal(k, op) && t < |k.threads| && k.threads[t].state == Ready
    ensures EndedBy(k, op, t).None?
  {
    assert Fit(k.threads[t], t == 0);
    match op
    case OpWakeOne(q) => if k.waits[q] != [] { assert k.waits[q][0] in k.waits[q]; } assert QueueLinked(k.threads, k.waits[q], q);
    case OpWakeAll(q) => assert QueueLinked(k.threads, k.waits[q], q);
    case OpTick(f) => assert forall x :: x in DueNext(k) ==> x in k.sleepers;
    case _ =>
  }

  /** Steps keep the table size and the queues; once started, the kernel stays started. */
  lemma StepShape(k: Kernel, op: Op)
    requires Inv(k) && Legal(k, op)
    ensures Step(k, op).Ok?
    ensures var k1 := Step(k, op).value;
      |k1.threads| == |k.threads| && |k1.waits| >= |k.waits| && (k.started ==> k1.started)
  {
    StepSafe(k, op);
    match op
    case OpStart => StartInv(k);
    case OpWakeOne(q) => WakeOneIsWake(k, q);
    case OpWakeAll(q) =>
      WakeAllIsWakeList(k, q);
      hide Inv, Linked, Fits, TasksLinked, Sound;
      WakeListEffect(k, k.waits[q], Event);
    case OpTick(f) => if k.started { TickShape(k, f); }
    case OpCreate =>
    case OpCreateUser(_) =>
    case OpInitQueue =>
    case OpInitTask(_) =>
    case _ => if Parks(k, op) { ParkingShape(k, op); } else { StayInv(k, op); }
  }

  lemma TickShape(k: Kernel, f: Frame)
    requires Inv(k) && k.started && FrameOfCurrent(k, f)
    ensures Tick(k, f).Ok?
    ensures var k1 := Tick(k, f).value;
      |k1.threads| == |k.threads| && |k1.waits| >= |k.waits| && k1.started
  {
    TickStep(k, f);
    AwokenOk(k);
    hide Inv, Sound, Chargeable, Awoken, AfterCharge;
    ChargeShape(Awoken(k), f);
  }

  lemma ChargeShape(k: Kernel, f: Frame)
    requires Chargeable(k, f)
    ensures var k1 := AfterCharge(k, f);
      |k1.threads| == |k.threads| && k1.waits == k.waits && k1.started == k.started
  {
    if Preempts(k) {
      PreemptStep(k, f);
      hide Chargeable, AfterCharge, Parked;
    }
  }

  lemma ParkingShape(k: Kernel, op: Op)
    requires Inv(k) && Legal(k, op) && Parks(k, op)
    ensures Step(k, op).Ok?
    ensures var k1 := Step(k, op).value;
      |k1.threads| == |k.threads| && |k1.waits| == |k.waits| && k1.started
  {
    ParkingStep(k, op);
    hide Inv, Step, Parked, SleepInsert;
  }

  // ------------------------------------------- threads that are not waiting

  /** After a step by or around a thread that was running, unused or exited: it is in no
      wait queue unless it just waited, and it is still alive unless it just exited. */
  ghost predicate OtherEffect(k: Kernel, k1: Kernel, op: Op, t: Tid) {
    && t < |k.threads| == |k1.threads|
    && (k1.threads[t].queue.Some? ==>
          (op.OpWait? || op.OpWaitFor?) && k.current == Some(t) && k1.threads[t].queue == Some(op.q))
    && (k.threads[t].state == Running && !op.OpExit? ==>
          k1.threads[t].state in {Running, Ready, Blocked})
  }

  lemma ParkingOther(k: Kernel, op: Op, t: Tid)
    requires Inv(k) && Legal(k, op) && Parks(k, op) && t < |k.threads| && !Resting(k, t)
    ensures Step(k, op).Ok? && OtherEffect(k, Step(k, op).value, op, t)
  {
    ParkingStep(k, op);
    ParkedOther(k, op, t);
    hide Inv, Legal, Step, Parked;
    DispatchedRecord(ParkedBy(k, op), t);
  }

  lemma ParkedOther(k: Kernel, op: Op, t: Tid)
    requires Inv(k) && Legal(k, op) && Parks(k, op) && t < |k.threads| && !Resting(k, t)
    ensures OtherEffect(k, ParkedBy(k, op), op, t)
  {
    assert Fit(k.threads[t], t == 0);
    hide Linked, TasksLinked, SleepInsert;
  }

  lemma ChargeCurrent(k: Kernel, f: Frame)
    requires Chargeable(k, f)
    ensures |AfterCharge(k, f).threads| == |k.threads|
    ensures var th := AfterCharge(k, f).threads[k.current.value];
      th.queue == k.threads[k.current.value].queue && th.state in {Running, Ready}
  {
    CurrentFits(k);
    if Preempts(k) {
      PreemptStep(k, f);
      hide Chargeable, Parked, AfterCharge;
      DispatchedRecord(ParkReady(Expired(k), f), k.current.value);
    }
  }

  lemma TickOther(k: Kernel, f: Frame, t: Tid)
    requires Inv(k) && k.started && FrameOfCurrent(k, f) && t < |k.threads| && !Resting(k, t)
    ensures Tick(k, f).Ok? && OtherEffect(k, Tick(k, f).value, OpTick(f), t)
  {
    assert Fit(k.threads[t], t == 0);
    TickStep(k, f);
    AwokenOk(k);
    CurrentNotWoken(k);
    NotDue(k, t);
    hide Sound, Linked, Fits, TasksLinked, Awoken, DueNext, Chargeable;
    if k.current == Some(t) {
      ChargeCurrent(Awoken(k), f);
    } else {
      ChargeRecord(Awoken(k), f, t);
    }
  }

  lemma NotDue(k: Kernel, t: Tid)
    requires Inv(k) && t < |k.threads| && k.threads[t].state != Blocked
    ensures t !in DueNext(k)
  {
    assert Fit(k.threads[t], t == 0);
    assert forall x :: x in DueNext(k) ==> x in k.sleepers;
  }

  lemma WakeOther(k: Kernel, op: Op, t: Tid)
    requires Inv(k) && Legal(k, op) && (op.OpWakeOne? || op.OpWakeAll?)
    requires t < |k.threads| && !Resting(k, t)
    ensures Step(k, op).Ok? && OtherEffect(k, Step(k, op).value, op, t)
  {
    assert QueueLinked(k.threads, k.waits[op.q], op.q);
    assert Fit(k.threads[t], t == 0);
    if op.OpWakeOne? {
      WakeOneIsWake(k, op.q);
      assert k.waits[op.q] != [] ==> k.waits[op.q][0] in k.waits[op.q];
    } else {
      WakeAllIsWakeList(k, op.q);
      hide Inv, Linked, Fits, TasksLinked, Sound;
      WakeListEffect(k, k.waits[op.q], Event);
    }
  }

  lemma InstallOther(k: Kernel, op: Op, t: Tid)
    requires Inv(k) && Legal(k, op) && (op.OpCreate? || op.OpCreateUser?)
    requires t < |k.threads| && !Resting(k, t) && Step(k, op).Ok?
    ensures OtherEffect(k, Step(k, op).value, op, t)
  {
    assert Fit(k.threads[t], t == 0);
    hide Inv, FreeSlot;
  }

  lemma OtherRecord(k: Kernel, op: Op, t: Tid)
    requires Inv(k) && Legal(k, op) && t < |k.threads| && !Resting(k, t)
    ensures Step(k, op).Ok? && OtherEffect(k, Step(k, op).value, op, t)
  {
    StepSafe(k, op);
    hide Linked, Fits, TasksLinked;
    match op
    case OpStart => StartInv(k); StartOther(k, t);
    case OpCreate => InstallOther(k, op, t);
    case OpCreateUser(_) => InstallOther(k, op, t);
    case OpWakeOne(_) => WakeOther(k, op, t);
    case OpWakeAll(_) => WakeOther(k, op, t);
    case OpTick(f) => if k.started { TickOther(k, f, t); } else { NoQueueOther(k, t); }
    case OpInitQueue => NoQueueOther(k, t);
    case OpInitTask(_) => NoQueueOther(k, t);
    case _ => if Parks(k, op) { ParkingOther(k, op, t); } else { StayInv(k, op); NoQueueOther(k, t); }
  }

  lemma NoQueueOther(k: Kernel, t: Tid)
    requires Inv(k) && t < |k.threads| && !Resting(k, t)
    ensures k.threads[t].queue.None?
  {
    assert Fit(k.threads[t], t == 0);
  }

  lemma StartOther(k: Kernel, t: Tid)
    requires Inv(k) && !k.started && t < |k.threads| && Next(k) < |k.threads| && !Resting(k, t)
    ensures OtherEffect(k, Dispatched(k).(started := true), OpStart, t)
  {
    NoQueueOther(k, t);
    DispatchedRecord(k, t);
  }

  // --------------------------------------------------------------------- runs

  /** The first operation of the run that ends t's wait. */
  ghost function FirstEnd(k: Kernel, ops: seq<Op>, t: Tid): Option<WaitResult>
    requires LegalRun(k, ops)
    decreases |ops|
  {
    if ops == [] || t >= |k.threads| then None
    else if EndedBy(k, ops[0], t).Some? then EndedBy(k, ops[0], t)
    else if Step(k, ops[0]).Panic? then None
    else FirstEnd(Step(k, ops[0]).value, ops[1..], t)
  }

  /** t has not been dispatched before the last state of the run. */
  ghost predicate Undispatched(k: Kernel, ops: seq<Op>, t: Tid)
    requires LegalRun(k, ops)
    decreases |ops|
  {
    ops == [] ||
    (t < |k.threads| && k.threads[t].state != Running &&
     (Step(k, ops[0]).Ok? ==> Undispatched(Step(k, ops[0]).value, ops[1..], t)))
  }

  lemma {:induction false} ReadyRun(k: Kernel, ops: seq<Op>, t: Tid)
    requires Inv(k) && LegalRun(k, ops) && t < |k.threads|
    requires k.threads[t].state == Ready && Undispatched(k, ops, t)
    ensures Execute(k, ops).Ok? && t < |Execute(k, ops).value.threads|
    ensures Resumed(Execute(k, ops).value.threads[t], k.threads[t])
    decreases |ops|
  {
    if ops != [] {
      StepSafe(k, ops[0]);
      RecordEffect(k, ops[0], t);
      ReadyUntouched(k, ops[0], t);
      var k1 := Step(k, ops[0]).value;
      hide Inv, Legal, Step, EndedBy;
      if k1.threads[t].state == Ready {
        ReadyRun(k1, ops[1..], t);
      } else {
        assert ops[1..] == [];
      }
    }
  }

  /** From any blocked wait, over any run, until the thread is dispatched: its record is
      untouched up to the first ending operation, that operation alone decides the result
      and the word in the saved frame, and nothing afterwards changes either. */
  lemma {:induction false} WaitEndsOnce(k: Kernel, ops: seq<Op>, t: Tid)
    requires Inv(k) && LegalRun(k, ops) && t < |k.threads|
    requires k.threads[t].state == Blocked && Undispatched(k, ops, t)
    ensures Execute(k, ops).Ok? && t < |Execute(k, ops).value.threads|
    ensures var th, after := k.threads[t], Execute(k, ops).value.threads[t];
      match FirstEnd(k, ops, t)
      case None => after == th
      case Some(r) => Resumed(after, Woken(th, r)) && after.frame == WithResult(th.frame, r)
    decreases |ops|
  {
    if ops != [] {
      StepSafe(k, ops[0]);
      RecordEffect(k, ops[0], t);
      var k1 := Step(k, ops[0]).value;
      hide Inv, Legal, Step, EndedBy;
      if EndedBy(k, ops[0], t).None? {
        WaitEndsOnce(k1, ops[1..], t);
      } else if k1.threads[t].state == Ready {
        ReadyRun(k1, ops[1..], t);
      } else {
        assert ops[1..] == [];
      }
    }
  }
}
