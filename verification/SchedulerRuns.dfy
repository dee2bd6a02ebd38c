/** Every scheduler entry point as one atomic step, and the safety of every run. */
module SchedulerRuns {
  import opened SeqTools
  import opened TaskStates
  import opened Scheduler
  import opened SchedulerInvariant
  import opened Wakeups
  import opened Switches

  /** One interrupt-masked kernel operation.  f is the frame the trap entry saved. */
  datatype Op =
    | OpStart
    | OpCreate
    | OpCreateUser(task: TaskId)
    | OpYield(f: Frame)
    | OpSleep(f: Frame, ticks: nat)
    | OpWait(f: Frame, q: QueueId)
    | OpWaitFor(f: Frame, q: QueueId, ticks: nat)
    | OpExit(f: Frame)
    | OpWakeOne(q: QueueId)
    | OpWakeAll(q: QueueId)
    | OpTick(f: Frame)
    | OpInitQueue
    | OpInitTask(task: TaskId)

  ghost predicate FrameOfCurrent(k: Kernel, f: Frame) {
    k.started ==> HasCurrent(k) && OwnPlace(k.threads[k.current.value], k.current.value, f.place)
  }

  /** A trap by a real thread; the null thread only waits for interrupts and yields. */
  ghost predicate RealTrap(k: Kernel, f: Frame) {
    FrameOfCurrent(k, f) && (k.started ==> k.current.value != 0)
  }

  /** What the kernel's callers promise. */
  ghost predicate Legal(k: Kernel, op: Op) {
    match op
    case OpStart => !k.started
    case OpCreate => true
    case OpCreateUser(task) => forall t :: 0 <= t < |k.threads| ==> k.threads[t].task != Some(task)
    case OpYield(f) => FrameOfCurrent(k, f)
    case OpSleep(f, ticks) => RealTrap(k, f)
    case OpWait(f, q) => RealTrap(k, f) && q < |k.waits|
    case OpWaitFor(f, q, ticks) => RealTrap(k, f) && q < |k.waits|
    case OpExit(f) => RealTrap(k, f) &&
      (k.started && k.threads[k.current.value].task.Some? ==> f.user)
    case OpWakeOne(q) => q < |k.waits|
    case OpWakeAll(q) => q < |k.waits|
    case OpTick(f) => FrameOfCurrent(k, f)
    case OpInitQueue => true
    case OpInitTask(task) => task !in k.tasks || k.tasks[task] == TaskUnused || k.tasks[task] == TaskDestroyed
  }

  ghost function Step(k: Kernel, op: Op): Outcome<Kernel>
    requires |k.threads| > 0 && Legal(k, op)
  {
    match op
    case OpStart => Start(k)
    case OpCreate => var (k1, _) :- Create(k); Ok(k1)
    case OpCreateUser(task) => var (k1, _) :- CreateUser(k, task); Ok(k1)
    case OpYield(f) => Yield(k, f)
    case OpSleep(f, ticks) => SleepFor(k, f, ticks)
    case OpWait(f, q) => Wait(k, f, q)
    case OpWaitFor(f, q, ticks) => WaitFor(k, f, q, ticks)
    case OpExit(f) => Exit(k, f)
    case OpWakeOne(q) => var (k1, _) :- WakeOne(k, q); Ok(k1)
    case OpWakeAll(q) => WakeAll(k, q)
    case OpTick(f) => Tick(k, f)
    case OpInitQueue => Ok(k.(waits := k.waits + [[]]))
    case OpInitTask(task) => Ok(k.(tasks := k.tasks[task := TaskReady]))
  }

  // ---------------------------------------------------------- switching steps

  /** The parked state behind a step that gives up the processor voluntarily. */
  ghost predicate Parks(k: Kernel, op: Op)
    requires Inv(k) && Legal(k, op)
  {
    k.started && match op
                 case OpYield(f) => k.ready != []
                 case OpSleep(f, ticks) => ticks != 0 || k.ready != []
                 case OpWait(f, q) => true
                 case OpWaitFor(f, q, ticks) => ticks != 0
                 case OpExit(f) => true
                 case _ => false
  }

  ghost function ParkedBy(k: Kernel, op: Op): Kernel
    requires Inv(k) && Legal(k, op) && Parks(k, op)
  {
    match op
    case OpYield(f) => if k.current.value == 0 then ParkNull(k, f) else ParkReady(k, f)
    case OpSleep(f, ticks) => if ticks == 0 then ParkReady(k, f) else ParkAsleep(k, f, ticks)
    case OpWait(f, q) => ParkWaiting(k, f, q, 0)
    case OpWaitFor(f, q, ticks) => ParkWaiting(k, f, q, ticks)
    case OpExit(f) => ParkExited(k)
  }

  lemma ParkedByOk(k: Kernel, op: Op)
    requires Inv(k) && Legal(k, op) && Parks(k, op)
    ensures Parked(ParkedBy(k, op)) && ParkedBy(k, op).started
    ensures !op.OpExit? ==> Step(k, op) == DispatchNext(ParkedBy(k, op))
  {
    CurrentFits(k);
    match op
    case OpYield(f) =>
      if k.current.value == 0 { ParkNullOk(k, f); } else { ParkReadyOk(k, f); }
    case OpSleep(f, ticks) =>
      if ticks == 0 { ParkReadyOk(k, f); } else { ParkAsleepOk(k, f, ticks); }
    case OpWait(f, q) => BlockIsParkWaiting(k, f, q, 0); ParkWaitingOk(k, f, q, 0);
    case OpWaitFor(f, q, ticks) => BlockIsParkWaiting(k, f, q, ticks); ParkWaitingOk(k, f, q, ticks);
    case OpExit(f) => ParkExitedOk(k, f);
  }

  /** A parking step dispatches the next ready thread; an exit also destroys the task. */
  lemma ParkingStep(k: Kernel, op: Op)
    requires Inv(k) && Legal(k, op) && Parks(k, op)
    ensures var p := ParkedBy(k, op);
      && Parked(p) && Next(p) < |p.threads|
      && Step(k, op).Ok?
      && Step(k, op).value == Dispatched(p).(tasks := Step(k, op).value.tasks)
      && (!op.OpExit? ==> Step(k, op).value.tasks == p.tasks)
    ensures Inv(Step(k, op).value)
  {
    ParkedByOk(k, op);
    var p := ParkedBy(k, op);
    DispatchNextIsDispatched(p);
    DispatchedSound(p);
    if op.OpExit? {
      ParkExitedOk(k, op.f);
      ExitTasks(k, p);
    }
    hide Linked, Fits, TasksLinked, Parked;
  }

  lemma ExitTasks(k: Kernel, p: Kernel)
    requires Inv(k) && k.started && HasCurrent(k) && p == ParkExited(k)
    requires Parked(p) && Next(p) < |p.threads|
    requires TasksLinked(Dispatched(p).threads, p.tasks)
    ensures k.threads[k.current.value].task.Some? ==>
      TasksLinked(Dispatched(p).threads, p.tasks[k.threads[k.current.value].task.value := TaskDestroyed])
  {
    var task := k.threads[k.current.value].task;
    var after := Dispatched(p).threads;
    forall t | 0 <= t < |after| && after[t].task.Some?
      ensures task.Some? ==> after[t].task != task
    {
    }
  }

  // -------------------------------------------------------------- timer steps

  function Ticked(k: Kernel): Kernel {
    k.(now := Add64(k.now, 1))
  }

  /** The sleepers the next tick finds due. */
  function DueNext(k: Kernel): seq<Tid> {
    k.sleepers[..Due(Ticked(k))]
  }

  /** The state after a tick's wakeups. */
  function Awoken(k: Kernel): Kernel {
    match WakeSleepers(Ticked(k))
    case Ok(k1) => k1
    case Panic => k
  }

  lemma AwokenOk(k: Kernel)
    requires Inv(k)
    ensures WakeSleepers(Ticked(k)) == Ok(Awoken(k))
    ensures Sound(Awoken(k))
    ensures Woke(Ticked(k), Awoken(k), DueNext(k), Timer)
    ensures Awoken(k).sleepers == k.sleepers[|DueNext(k)|..]
  {
    LinkedParts(k, Ticked(k));
    hide Linked, Fits, TasksLinked, Due, Woke;
    assert Fits(k) == Fits(Ticked(k)) by { FitsParts(k, Ticked(k)); }
    WakeSleepersIsWakeList(Ticked(k));
    WakeListEffect(Ticked(k), DueNext(k), Timer);
  }

  lemma LinkedParts(a: Kernel, b: Kernel)
    requires a.threads == b.threads && a.ready == b.ready && a.sleepers == b.sleepers && a.waits == b.waits
    ensures Linked(a) == Linked(b)
  {
  }

  lemma FitsParts(a: Kernel, b: Kernel)
    requires a.threads == b.threads
    ensures Fits(a) == Fits(b)
  {
  }

  /** The running thread does not sleep, so a tick's wakeups leave it alone. */
  lemma CurrentNotWoken(k: Kernel)
    requires Inv(k) && k.started
    ensures HasCurrent(k) && Awoken(k).current == k.current && Awoken(k).started && !Awoken(k).resched
    ensures |Awoken(k).threads| == |k.threads|
    ensures Awoken(k).threads[k.current.value] == k.threads[k.current.value]
    ensures k.threads[k.current.value].state == Running && k.threads[k.current.value].quantum < QUANTUM
  {
    AwokenOk(k);
    CurrentFits(k);
    hide Awoken, Linked, Fits, TasksLinked, Due;
    assert forall x :: x in DueNext(k) ==> x in k.sleepers;
  }

  /** Only the current thread's quantum and the pending flag differ. */
  lemma RequantumSound(k: Kernel, n: nat, resched: bool)
    requires Sound(k) && k.started
    ensures HasCurrent(k)
    ensures Sound(Set(k, k.current.value, k.threads[k.current.value].(quantum := n)).(resched := resched))
  {
    var c := k.current.value;
    var th := k.threads[c].(quantum := n);
    LinksKept(k, c, th);
    LinkedParts(Set(k, c, th), Set(k, c, th).(resched := resched));
    TasksSame(k.threads, k.tasks, c, th);
    hide Linked, TasksLinked;
  }

  /** thread_on_timer_tick then thread_maybe_preempt_from_trap, on a state whose running
      thread still has quantum left. */
  function AfterCharge(k: Kernel, f: Frame): Kernel
    requires HasCurrent(k)
  {
    var c := k.current.value;
    var n := k.threads[c].quantum + 1;
    if c == 0 then k
    else if n < QUANTUM then Set(k, c, k.threads[c].(quantum := n))
    else if k.ready == [] then Set(k, c, k.threads[c].(quantum := 0))
    else
      var p := ParkReady(Set(k, c, k.threads[c].(quantum := n)), f);
      if Next(p) < |p.threads| then Dispatched(p) else k
  }

  ghost predicate Chargeable(k: Kernel, f: Frame) {
    Sound(k) && k.started && !k.resched && FrameOfCurrent(k, f) &&
    k.threads[k.current.value].quantum < QUANTUM
  }

  /** The state a full quantum leaves when another thread is ready. */
  function Expired(k: Kernel): Kernel
    requires HasCurrent(k)
  {
    Set(k, k.current.value, k.threads[k.current.value].(quantum := QUANTUM)).(resched := true)
  }

  lemma ExpiredParks(k: Kernel, f: Frame)
    requires Chargeable(k, f) && k.current.value != 0
    ensures Parked(ParkReady(Expired(k), f)) && ParkReady(Expired(k), f).started
    ensures Next(ParkReady(Expired(k), f)) < |k.threads|
    ensures SwitchRequeue(Expired(k), f) == Ok(Dispatched(ParkReady(Expired(k), f)))
  {
    RequantumSound(k, QUANTUM, true);
    ParkReadyOk(Expired(k), f);
    DispatchNextIsDispatched(ParkReady(Expired(k), f));
    hide Sound, Parked;
  }

  lemma ChargeStep(k: Kernel, f: Frame)
    requires Chargeable(k, f)
    ensures MaybePreempt(ChargeQuantum(k), f) == Ok(AfterCharge(k, f))
  {
    CurrentFits(k);
    var c := k.current.value;
    if c != 0 && k.threads[c].quantum + 1 == QUANTUM {
      ExpiredParks(k, f);
      hide Sound, Parked, SwitchRequeue;
      assert ChargeQuantum(k) == Expired(k);
      if k.ready != [] {
        assert Dispatched(ParkReady(Expired(k), f)) == AfterCharge(k, f);
      } else {
        assert k.threads[c := Expired(k).threads[c]][c := k.threads[c].(quantum := 0)] ==
               k.threads[c := k.threads[c].(quantum := 0)];
      }
    }
  }

  lemma RequantumInv(k: Kernel, f: Frame, n: nat)
    requires Chargeable(k, f) && n < QUANTUM
    ensures Inv(Set(k, k.current.value, k.threads[k.current.value].(quantum := n)))
  {
    RequantumSound(k, n, false);
    hide Linked, Fits, TasksLinked;
  }

  /** The tick that uses up the quantum while another thread is ready. */
  ghost predicate Preempts(k: Kernel)
    requires HasCurrent(k)
  {
    k.current.value != 0 && k.threads[k.current.value].quantum == QUANTUM - 1 && k.ready != []
  }

  lemma PreemptStep(k: Kernel, f: Frame)
    requires Chargeable(k, f) && Preempts(k)
    ensures var p := ParkReady(Expired(k), f);
      Parked(p) && p.started && Next(p) < |p.threads| && AfterCharge(k, f) == Dispatched(p)
  {
    ExpiredParks(k, f);
    hide Chargeable, Parked;
  }

  lemma PreemptInv(k: Kernel, f: Frame)
    requires Chargeable(k, f) && Preempts(k)
    ensures Inv(AfterCharge(k, f))
  {
    PreemptStep(k, f);
    hide Chargeable, Linked, Fits, TasksLinked, AfterCharge;
    DispatchedSound(ParkReady(Expired(k), f));
  }

  lemma ChargeInv(k: Kernel, f: Frame)
    requires Chargeable(k, f)
    ensures Inv(AfterCharge(k, f))
  {
    hide Inv, Linked, Fits, TasksLinked, OneRunning;
    var c := k.current.value;
    var n := k.threads[c].quantum + 1;
    if Preempts(k) {
      PreemptInv(k, f);
    } else {
      RequantumInv(k, f, if c == 0 then n - 1 else if n < QUANTUM then n else 0);
      assert k.threads[c := k.threads[c]] == k.threads;
    }
  }

  lemma TickStep(k: Kernel, f: Frame)
    requires Inv(k) && k.started && FrameOfCurrent(k, f)
    ensures Chargeable(Awoken(k), f)
    ensures Tick(k, f) == Ok(AfterCharge(Awoken(k), f))
  {
    AwokenOk(k);
    CurrentNotWoken(k);
    hide Inv, Awoken, Linked, Fits, TasksLinked, OneRunning, Woke, WakeSleepers;
    ChargeStep(Awoken(k), f);
  }

  lemma TickInv(k: Kernel, f: Frame)
    requires Inv(k) && FrameOfCurrent(k, f)
    ensures Tick(k, f).Ok? && Inv(Tick(k, f).value)
  {
    if k.started {
      TickStep(k, f);
      hide Inv, Chargeable;
      ChargeInv(Awoken(k), f);
    } else {
      LinkedParts(k, Tick(k, f).value);
    }
  }

  // -------------------------------------------------------------- other steps

  lemma WakeInv(k: Kernel, op: Op)
    requires Inv(k) && Legal(k, op) && (op.OpWakeOne? || op.OpWakeAll?)
    ensures Step(k, op).Ok? && Inv(Step(k, op).value)
  {
    var q := op.q;
    if op.OpWakeOne? {
      WakeOneIsWake(k, q);
      if k.waits[q] != [] {
        QueueHead(k, q);
        WakeSound(k, k.waits[q][0], WaitOk);
        hide Linked, Fits, TasksLinked;
      }
    } else {
      WakeAllIsWakeList(k, q);
      hide Linked, Fits, TasksLinked;
      WakeListEffect(k, k.waits[q], Event);
    }
  }

  /** A yield or zero-tick sleep with nobody else ready only restarts the quantum. */
  lemma StayInv(k: Kernel, op: Op)
    requires Inv(k) && Legal(k, op) && !Parks(k, op)
    requires op.OpYield? || op.OpSleep? || op.OpWait? || op.OpWaitFor? || op.OpExit?
    ensures Step(k, op).Ok? && Inv(Step(k, op).value)
    ensures Step(k, op).value == k ||
      (k.started && k.ready == [] &&
       Step(k, op).value == Set(k, k.current.value, k.threads[k.current.value].(quantum := 0)))
  {
    if k.started {
      CurrentFits(k);
      RequantumSound(k, 0, false);
      hide Linked, Fits, TasksLinked;
    }
  }

  function Installed(k: Kernel, t: Tid, th: Thread): Kernel
    requires t < |k.threads|
  {
    Set(k, t, th.(inReady := true)).(ready := k.ready + [t])
  }

  lemma InstallOk(k: Kernel, t: Tid, th: Thread)
    requires Inv(k) && 0 < t < |k.threads| && k.threads[t].state in {Unused, Exited}
    requires exists f, task :: th == Fresh(f, task) && OwnPlace(th, t, f.place)
    requires th.task.Some? ==>
      th.task.value in k.tasks && k.tasks[th.task.value] == TaskReady &&
      forall u :: 0 <= u < |k.threads| ==> k.threads[u].task != th.task
    ensures ReadyEnqueue(Set(k, t, th), t) == Ok(Installed(k, t, th))
    ensures Inv(Installed(k, t, th))
  {
    assert Fit(k.threads[t], false);
    var r := th.(inReady := true);
    Room(k.ready, t, |k.threads|);
    assert k.threads[t := th][t := r] == k.threads[t := r];
    ReadyAppend(k.threads, k.ready, t, r);
    var u := r.(inReady := false);
    ExitLinked(k, t, u);
    SleepView(k.threads[t := u], k.threads[t := r], k.sleepers);
    WaitView(k.threads[t := u], k.threads[t := r], k.waits);
    assert TasksLinked(k.threads[t := r], k.tasks);
    hide Linked, ReadyLinked, SleepLinked, WaitLinked, Sorted, TasksLinked;
  }

  lemma CreateInv(k: Kernel, op: Op)
    requires Inv(k) && Legal(k, op) && (op.OpCreate? || op.OpCreateUser?)
    ensures Step(k, op).Ok? && Inv(Step(k, op).value)
  {
    var slot := FreeSlot(k.threads, 1);
    hide FreeSlot;
    if slot.Some? {
      var t := slot.value;
      if op.OpCreate? {
        var f := Frame(KernelStack(t), false, 0);
        assert OwnPlace(Fresh(f, None), t, f.place);
        InstallOk(k, t, Fresh(f, None));
      } else if op.task in k.tasks && k.tasks[op.task] == TaskReady {
        var f := Frame(TaskContext(op.task), true, 0);
        assert OwnPlace(Fresh(f, Some(op.task)), t, f.place);
        InstallOk(k, t, Fresh(f, Some(op.task)));
      }
    }
  }

  lemma StartInv(k: Kernel)
    requires Inv(k) && !k.started
    ensures Start(k).Ok? && Inv(Start(k).value)
    ensures Next(k) < |k.threads| && Start(k).value == Dispatched(k).(started := true)
  {
    DispatchNextIsDispatched(k);
    DispatchedSound(k);
    LinkedParts(Dispatched(k), Dispatched(k).(started := true));
    hide Linked, TasksLinked, Parked;
  }

  lemma InitInv(k: Kernel, op: Op)
    requires Inv(k) && Legal(k, op) && (op.OpInitQueue? || op.OpInitTask?)
    ensures Step(k, op).Ok? && Inv(Step(k, op).value)
  {
    if op.OpInitQueue? {
      var waits := k.waits + [[]];
      forall id | 0 <= id < |waits| ensures QueueLinked(k.threads, waits[id], id) {
        assert id < |k.waits| ==> QueueLinked(k.threads, k.waits[id], id);
      }
    }
  }

  // --------------------------------------------------------------------- runs

  /** No legal step of a sound kernel panics, and every one keeps the invariant. */
  lemma StepSafe(k: Kernel, op: Op)
    requires Inv(k) && Legal(k, op)
    ensures Step(k, op).Ok? && Inv(Step(k, op).value)
  {
    match op
    case OpStart => StartInv(k);
    case OpCreate => CreateInv(k, op);
    case OpCreateUser(_) => CreateInv(k, op);
    case OpWakeOne(_) => WakeInv(k, op);
    case OpWakeAll(_) => WakeInv(k, op);
    case OpTick(f) => TickInv(k, f);
    case OpInitQueue => InitInv(k, op);
    case OpInitTask(_) => InitInv(k, op);
    case _ => if Parks(k, op) { ParkingStep(k, op); } else { StayInv(k, op); }
  }

  /** Every operation of the run is legal in the state it meets. */
  ghost predicate LegalRun(k: Kernel, ops: seq<Op>)
    decreases |ops|
  {
    ops == [] ||
    (|k.threads| > 0 && Legal(k, ops[0]) &&
     (Step(k, ops[0]).Ok? ==> LegalRun(Step(k, ops[0]).value, ops[1..])))
  }

  ghost function Execute(k: Kernel, ops: seq<Op>): Outcome<Kernel>
    requires LegalRun(k, ops)
    decreases |ops|
  {
    if ops == [] then Ok(k) else
    var k1 :- Step(k, ops[0]);
    Execute(k1, ops[1..])
  }

  lemma {:induction false} RunSafe(k: Kernel, ops: seq<Op>)
    requires Inv(k) && LegalRun(k, ops)
    ensures Execute(k, ops).Ok? && Inv(Execute(k, ops).value)
    decreases |ops|
  {
    if ops != [] {
      StepSafe(k, ops[0]);
      hide Inv;
      RunSafe(Step(k, ops[0]).value, ops[1..]);
    }
  }

  /** When a user thread exits, its task is destroyed, and the frame the trap returns to is
      not in the destroyed task's trap-context page. */
  lemma ExitFrameSafe(k: Kernel, f: Frame)
    requires Inv(k) && k.started && Legal(k, OpExit(f))
    requires k.threads[k.current.value].task.Some?
    ensures Exit(k, f).Ok? && Inv(Exit(k, f).value) && HasCurrent(Exit(k, f).value)
    ensures var k1 := Exit(k, f).value; var task := k.threads[k.current.value].task.value;
      && task in k1.tasks && k1.tasks[task] == TaskDestroyed
      && k1.threads[k1.current.value].frame.Some?
      && k1.threads[k1.current.value].frame.value.place != TaskContext(task)
  {
    ParkingStep(k, OpExit(f));
    ParkExitedOk(k, f);
    DispatchNextIsDispatched(ParkExited(k));
    var k1 := Exit(k, f).value;
    CurrentFits(k1);
    assert OwnFrame(k1.threads[k1.current.value], k1.current.value);
  }

  lemma InitialInv(n: nat)
    requires n >= 2
    ensures Inv(Initial(n))
  {
  }

  /** From boot, whatever the table size, no legal run reaches a scheduler panic. */
  lemma BootSafe(n: nat, ops: seq<Op>)
    requires n >= 2 && LegalRun(Initial(n), ops)
    ensures Execute(Initial(n), ops).Ok? && Inv(Execute(Initial(n), ops).value)
  {
    InitialInv(n);
    RunSafe(Initial(n), ops);
  }
}
