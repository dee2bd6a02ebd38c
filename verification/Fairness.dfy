/** Round-robin fairness: how long a ready thread can wait for the processor. */
module Fairness {
  import opened SeqTools
  import opened Scheduler
  import opened SchedulerInvariant
  import opened Wakeups
  import opened Switches
  import opened SchedulerRuns

  /** Ticks already charged to the running real thread. */
  function Used(k: Kernel): nat
    requires HasCurrent(k)
  {
    if k.current.value == 0 then 0 else k.threads[k.current.value].quantum
  }

  ghost predicate RealTick(k: Kernel, op: Op) {
    op.OpTick? && k.started && k.current != Some(0)
  }

  /** No switch: the queue only grows at its tail and the quantum only runs down. */
  ghost predicate Stays(k: Kernel, k1: Kernel, op: Op)
    requires HasCurrent(k)
  {
    && k.ready <= k1.ready && HasCurrent(k1) && k1.current == k.current
    && Used(k1) >= Used(k) + if RealTick(k, op) then 1 else 0
  }

  /** A switch: the head runs with a fresh quantum, the others move up. */
  ghost predicate Rotates(k: Kernel, k1: Kernel)
    requires k.ready != []
  {
    k.ready[1..] <= k1.ready && HasCurrent(k1) && k1.current == Some(k.ready[0]) && Used(k1) == 0
  }

  lemma DispatchedQueue(k: Kernel, p: Kernel)
    requires Parked(p) && Next(p) < |p.threads| && k.ready != [] && k.ready <= p.ready
    ensures Rotates(k, Dispatched(p))
  {
    NextFits(p);
    hide Parked;
    assert p.ready[0] == k.ready[0];
  }

  lemma ParkedQueue(k: Kernel, op: Op)
    requires Inv(k) && Legal(k, op) && Parks(k, op)
    ensures k.ready <= ParkedBy(k, op).ready
  {
    hide Linked, Fits, TasksLinked;
  }

  lemma ParkingQueue(k: Kernel, op: Op)
    requires Inv(k) && Legal(k, op) && Parks(k, op) && k.ready != []
    ensures Step(k, op).Ok? && Rotates(k, Step(k, op).value)
  {
    ParkingStep(k, op);
    ParkedQueue(k, op);
    hide Inv, Legal, Step, Parked;
    DispatchedQueue(k, ParkedBy(k, op));
  }

  lemma TickQueue(k: Kernel, f: Frame)
    requires Inv(k) && k.started && FrameOfCurrent(k, f) && k.ready != []
    ensures Tick(k, f).Ok? && HasCurrent(k)
    ensures Stays(k, Tick(k, f).value, OpTick(f)) || Rotates(k, Tick(k, f).value)
  {
    TickStep(k, f);
    CurrentNotWoken(k);
    AwokenReady(k);
    hide Inv, Awoken, Chargeable, Stays, Rotates, AfterCharge, Tick;
    ChargeQueue(k, Awoken(k), f);
  }

  lemma AwokenReady(k: Kernel)
    requires Inv(k) && k.started
    ensures k.ready <= Awoken(k).ready
  {
    AwokenOk(k);
    hide Linked, Fits, TasksLinked, OneRunning, DueNext;
  }

  /** After the wakes of a tick: the quantum is charged, and the thread switched away from if it is used up. */
  lemma ChargeQueue(k: Kernel, k1: Kernel, f: Frame)
    requires HasCurrent(k) && k.ready != [] && k.ready <= k1.ready && k.started && Chargeable(k1, f)
    requires k1.current == k.current && |k1.threads| == |k.threads| && !k1.resched
    requires k1.threads[k.current.value] == k.threads[k.current.value]
    requires k.threads[k.current.value].state == Running && k.threads[k.current.value].quantum < QUANTUM
    ensures Stays(k, AfterCharge(k1, f), OpTick(f)) || Rotates(k, AfterCharge(k1, f))
  {
    if Preempts(k1) {
      PreemptStep(k1, f);
      hide Chargeable, AfterCharge, Parked;
      DispatchedQueue(k, ParkReady(Expired(k1), f));
    }
  }

  lemma WakeQueue(k: Kernel, op: Op)
    requires Inv(k) && Legal(k, op) && (op.OpWakeOne? || op.OpWakeAll?) && k.started
    ensures Step(k, op).Ok? && HasCurrent(k) && Stays(k, Step(k, op).value, op)
  {
    CurrentFits(k);
    if op.OpWakeAll? {
      WakeAllQueue(k, op.q);
    } else {
      WakeOneQueue(k, op.q);
    }
    hide Inv, WakeOne, WakeAll, Used;
  }

  lemma WakeAllQueue(k: Kernel, q: QueueId)
    requires Inv(k) && k.started && q < |k.waits|
    ensures WakeAll(k, q).Ok? && HasCurrent(k) && Stays(k, WakeAll(k, q).value, OpWakeAll(q))
  {
    CurrentFits(k);
    WakeAllIsWakeList(k, q);
    QueueInTable(k, q);
    hide Inv, Linked, Fits, TasksLinked, OneRunning, WakeAll;
    WakeListEffect(k, k.waits[q], Event);
  }

  lemma WakeOneQueue(k: Kernel, q: QueueId)
    requires Inv(k) && k.started && q < |k.waits|
    ensures WakeOne(k, q).Ok? && HasCurrent(k) && Stays(k, WakeOne(k, q).value.0, OpWakeOne(q))
  {
    CurrentFits(k);
    WakeOneIsWake(k, q);
    if k.waits[q] != [] { QueueHead(k, q); }
    hide Inv, Linked, Fits, TasksLinked, OneRunning, WakeOne;
  }

  lemma InstallQueue(k: Kernel, op: Op)
    requires Inv(k) && Legal(k, op) && (op.OpCreate? || op.OpCreateUser?) && k.started
    requires Step(k, op).Ok?
    ensures HasCurrent(k) && Stays(k, Step(k, op).value, op)
  {
    CurrentFits(k);
    hide Inv, FreeSlot;
  }

  lemma QueueEffect(k: Kernel, op: Op)
    requires Inv(k) && Legal(k, op) && k.started && k.ready != []
    ensures Step(k, op).Ok? && HasCurrent(k)
    ensures Stays(k, Step(k, op).value, op) || Rotates(k, Step(k, op).value)
  {
    StepSafe(k, op);
    match op
    case OpStart =>
    case OpCreate => InstallQueue(k, op);
    case OpCreateUser(_) => InstallQueue(k, op);
    case OpWakeOne(_) => WakeQueue(k, op);
    case OpWakeAll(_) => WakeQueue(k, op);
    case OpTick(f) => TickQueue(k, f);
    case OpInitQueue =>
    case OpInitTask(_) =>
    case _ => if Parks(k, op) { ParkingQueue(k, op); } else { StayInv(k, op); }
  }

  /** While a real thread is ready the null thread is never chosen. */
  lemma NullNeverChosen(k: Kernel, op: Op)
    requires Inv(k) && Legal(k, op) && k.started && k.ready != [] && k.current != Some(0)
    ensures Step(k, op).Ok? && Step(k, op).value.current != Some(0)
  {
    QueueEffect(k, op);
    assert k.ready[0] in k.ready;
  }

  // ------------------------------------------------------------------ measure

  /** Ticks that can still pass before t is dispatched: ten for each thread ahead of it
      and what is left of the running thread's quantum. */
  function Delay(k: Kernel, t: Tid): int
    requires HasCurrent(k) && t in k.ready
  {
    QUANTUM * IndexOf(k.ready, t) + QUANTUM - Used(k)
  }

  lemma IndexPrefix(a: seq<Tid>, b: seq<Tid>, t: Tid)
    requires a <= b && t in a
    ensures t in b && IndexOf(b, t) == IndexOf(a, t)
  {
    var i := IndexOf(a, t);
    assert b[i] == t;
    assert forall j :: 0 <= j < i ==> b[j] != t;
  }

  lemma DelayStep(k: Kernel, op: Op, t: Tid)
    requires Inv(k) && Legal(k, op) && k.started && t in k.ready
    ensures Step(k, op).Ok? && HasCurrent(k) && HasCurrent(Step(k, op).value)
    ensures var k1 := Step(k, op).value;
      if t in k1.ready then Delay(k1, t) <= Delay(k, t) - (if RealTick(k, op) then 1 else 0)
      else k1.current == Some(t)
  {
    QueueEffect(k, op);
    StepSafe(k, op);
    var k1 := Step(k, op).value;
    UsedBounded(k);
    hide Inv, Legal, Step;
    if Stays(k, k1, op) {
      IndexPrefix(k.ready, k1.ready, t);
    } else if t != k.ready[0] {
      IndexTail(k.ready, t);
      IndexPrefix(k.ready[1..], k1.ready, t);
    } else {
      DispatchedGone(k1, t);
    }
  }

  lemma UsedBounded(k: Kernel)
    requires Inv(k) && k.started
    ensures HasCurrent(k) && Used(k) < QUANTUM
  {
  }

  lemma IndexTail(q: seq<Tid>, t: Tid)
    requires t in q && q[0] != t
    ensures t in q[1..] && IndexOf(q[1..], t) == IndexOf(q, t) - 1
  {
  }

  lemma DispatchedGone(k: Kernel, t: Tid)
    requires Inv(k) && HasCurrent(k) && k.current == Some(t)
    ensures t !in k.ready
  {
    assert k.started;
    CurrentFits(k);
  }

  // --------------------------------------------------------------------- runs

  /** t stays in the ready queue at every state of the run. */
  ghost predicate StaysReady(k: Kernel, ops: seq<Op>, t: Tid)
    requires LegalRun(k, ops)
    decreases |ops|
  {
    t in k.ready &&
    (ops != [] && Step(k, ops[0]).Ok? ==> StaysReady(Step(k, ops[0]).value, ops[1..], t))
  }

  /** Timer interrupts of the run delivered while a real thread was running. */
  ghost function RealTicks(k: Kernel, ops: seq<Op>): nat
    requires LegalRun(k, ops)
    decreases |ops|
  {
    if ops == [] then 0
    else (if RealTick(k, ops[0]) then 1 else 0) +
         if Step(k, ops[0]).Ok? then RealTicks(Step(k, ops[0]).value, ops[1..]) else 0
  }

  lemma {:induction false} DelayRun(k: Kernel, ops: seq<Op>, t: Tid)
    requires Inv(k) && k.started && LegalRun(k, ops) && StaysReady(k, ops, t)
    ensures HasCurrent(k) && RealTicks(k, ops) < Delay(k, t)
    decreases |ops|
  {
    UsedBounded(k);
    if ops != [] {
      StepSafe(k, ops[0]);
      DelayStep(k, ops[0], t);
      assert Step(k, ops[0]).value.started;
      hide Inv, Legal, Step, Delay;
      DelayRun(Step(k, ops[0]).value, ops[1..], t);
    }
  }

  /** A thread at index i of the ready queue is dispatched within 10 * (i + 1) ticks
      delivered to running threads, whatever else happens in the run. */
  lemma BoundedDispatch(k: Kernel, ops: seq<Op>, t: Tid)
    requires Inv(k) && k.started && LegalRun(k, ops) && StaysReady(k, ops, t)
    ensures RealTicks(k, ops) < 10 * (IndexOf(k.ready, t) + 1)
  {
    DelayRun(k, ops, t);
  }

  /** A tick takes the processor away exactly from a real thread that has used ten ticks while
      another is ready; otherwise it charges the tick, and an unrivalled full quantum starts afresh. */
  lemma QuantumIsTen(k: Kernel, f: Frame)
    requires Inv(k) && k.started && FrameOfCurrent(k, f)
    ensures Tick(k, f).Ok? && HasCurrent(k) && k.current.value < |Tick(k, f).value.threads|
    ensures var c, k1 := k.current.value, Tick(k, f).value;
      var used := k.threads[c].quantum;
      && used < 10
      && (k1.current != k.current <==> c != 0 && used == 9 && k.ready + DueNext(k) != [])
      && (k1.current == k.current && c != 0 ==> k1.threads[c].quantum == if used == 9 then 0 else used + 1)
  {
    TickStep(k, f);
    AwokenOk(k);
    CurrentNotWoken(k);
    CurrentNotReady(k);
    hide Inv, Awoken, Chargeable, Due, Linked, Fits, TasksLinked;
    ChargeTen(Awoken(k), f);
  }

  lemma CurrentNotReady(k: Kernel)
    requires Inv(k) && k.started
    ensures HasCurrent(k) && k.current.value !in k.ready && k.current.value !in k.sleepers
  {
    CurrentFits(k);
  }

  lemma ChargeTen(k: Kernel, f: Frame)
    requires Chargeable(k, f)
    ensures var c, k1 := k.current.value, AfterCharge(k, f);
      && c < |k1.threads| == |k.threads|
      && (k1.current != k.current <==> c != 0 && k.threads[c].quantum == 9 && k.ready != [])
      && (k1.current == k.current && c != 0 ==> k1.threads[c].quantum == if k.threads[c].quantum == 9 then 0 else k.threads[c].quantum + 1)
  {
    CurrentFits(k);
    if Preempts(k) {
      PreemptStep(k, f);
      hide Chargeable, Parked;
      NextFits(ParkReady(Expired(k), f));
    }
  }
}
