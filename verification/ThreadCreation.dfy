/** What thread creation installs, and what becomes of a user thread's task. */
module ThreadCreation {
  import opened SeqTools
  import opened TaskStates
  import opened Scheduler
  import opened SchedulerInvariant
  import opened Wakeups
  import opened Switches
  import opened SchedulerRuns
  import opened TimedWaits
  import Deadlines

  /** A slot a new thread may take; slot 0 is the idle thread's. */
  predicate Vacant(threads: seq<Thread>, t: Tid) {
    1 <= t < |threads| && (threads[t].state == Unused || threads[t].state == Exited)
  }

  ghost predicate LowestVacant(threads: seq<Thread>, t: Tid) {
    Vacant(threads, t) && forall u :: 1 <= u < t ==> !Vacant(threads, u)
  }

  /** The scan for a slot finds the lowest vacant one. */
  lemma {:induction false} SlotIsLowest(threads: seq<Thread>, i: nat)
    requires 1 <= i && forall u :: 1 <= u < i ==> !Vacant(threads, u)
    ensures match FreeSlot(threads, i)
      case Some(t) => LowestVacant(threads, t)
      case None => forall u :: !Vacant(threads, u)
    decreases |threads| - i
  {
    if i < |threads| && !Vacant(threads, i) {
      SlotIsLowest(threads, i + 1);
    }
  }

  /** Slot t has become a ready thread entering with frame f, queued last; nothing else has changed. */
  ghost predicate Enters(k: Kernel, k1: Kernel, t: Tid, f: Frame, task: Option<TaskId>) {
    && |k1.threads| == |k.threads| && t < |k.threads| && (forall u :: 0 <= u < |k.threads| && u != t ==> k1.threads[u] == k.threads[u])
    && k1 == k.(threads := k1.threads, ready := k.ready + [t])
    && var th := k1.threads[t];
    && th.state == Ready && th.inReady && !th.inSleep && !th.inWait && th.queue == None && th.quantum == 0
    && th.frame == Some(f) && th.task == task
  }

  /** thread_create: the lowest vacant slot, or none and no change when there is none. */
  lemma CreateExact(k: Kernel)
    requires Inv(k)
    ensures Create(k).Ok?
    ensures var (k1, r) := Create(k).value;
      && (r.None? <==> forall u :: !Vacant(k.threads, u)) && (r.None? ==> k1 == k)
      && (r.Some? ==>
           && LowestVacant(k.threads, r.value)
           && Enters(k, k1, r.value, Frame(KernelStack(r.value), false, 0), None))
  {
    StepSafe(k, OpCreate);
    SlotIsLowest(k.threads, 1);
    hide Inv, FreeSlot, LowestVacant, Linked, Fits, TasksLinked;
  }

  /** thread_create_user: the same, in user mode in the task's own context, for a ready task only. */
  lemma CreateUserExact(k: Kernel, task: TaskId)
    requires Inv(k) && Legal(k, OpCreateUser(task))
    ensures CreateUser(k, task).Ok?
    ensures var (k1, r) := CreateUser(k, task).value;
      && (r.None? <==> task !in k.tasks || k.tasks[task] != TaskReady || forall u :: !Vacant(k.threads, u))
      && (r.None? ==> k1 == k)
      && (r.Some? ==>
           && LowestVacant(k.threads, r.value)
           && Enters(k, k1, r.value, Frame(TaskContext(task), true, 0), Some(task)))
  {
    StepSafe(k, OpCreateUser(task));
    SlotIsLowest(k.threads, 1);
    hide Inv, FreeSlot, LowestVacant;
  }

  // --------------------------------------------------------- a task's thread

  /** A thread that holds its slot. */
  predicate Alive(th: Thread) {
    th.state == Ready || th.state == Running || th.state == Blocked
  }

  predicate Leaves(k: Kernel, op: Op, t: Tid) {
    op.OpExit? && k.started && k.current == Some(t)
  }

  /** Parking and dispatching keep the task of the thread that gives up the processor. */
  lemma ParkingTask(k: Kernel, op: Op, t: Tid)
    requires Inv(k) && Legal(k, op) && Parks(k, op) && k.current == Some(t) && !op.OpExit?
    ensures Step(k, op).Ok? && t < |k.threads| == |Step(k, op).value.threads|
    ensures Step(k, op).value.threads[t].task == k.threads[t].task && Alive(Step(k, op).value.threads[t])
  {
    ParkingStep(k, op);
    ParkedTask(k, op, t);
    hide Inv, Legal, Step, Parked;
    DispatchedRecord(ParkedBy(k, op), t);
  }

  lemma ParkedTask(k: Kernel, op: Op, t: Tid)
    requires Inv(k) && Legal(k, op) && Parks(k, op) && k.current == Some(t) && !op.OpExit?
    ensures t < |k.threads| == |ParkedBy(k, op).threads|
    ensures ParkedBy(k, op).threads[t].task == k.threads[t].task && Alive(ParkedBy(k, op).threads[t])
  {
    hide Linked, Fits, TasksLinked, SleepInsert;
  }

  lemma ChargeTask(k: Kernel, f: Frame, t: Tid)
    requires Chargeable(k, f) && k.current == Some(t)
    ensures t < |k.threads| == |AfterCharge(k, f).threads|
    ensures AfterCharge(k, f).threads[t].task == k.threads[t].task
    ensures Alive(k.threads[t]) ==> Alive(AfterCharge(k, f).threads[t])
  {
    if Preempts(k) {
      PreemptStep(k, f);
      hide Chargeable, AfterCharge, Parked;
      DispatchedRecord(ParkReady(Expired(k), f), t);
    }
  }

  lemma TickTask(k: Kernel, f: Frame, t: Tid)
    requires Inv(k) && k.started && FrameOfCurrent(k, f) && k.current == Some(t)
    ensures Tick(k, f).Ok? && t < |k.threads| == |Tick(k, f).value.threads|
    ensures Tick(k, f).value.threads[t].task == k.threads[t].task && Alive(Tick(k, f).value.threads[t])
  {
    TickStep(k, f);
    CurrentNotWoken(k);
    hide Inv, Awoken, Chargeable, AfterCharge;
    ChargeTask(Awoken(k), f, t);
  }

  lemma WakeTask(k: Kernel, op: Op, t: Tid)
    requires Inv(k) && Legal(k, op) && (op.OpWakeOne? || op.OpWakeAll?) && t < |k.threads| && Alive(k.threads[t])
    ensures Step(k, op).Ok? && |Step(k, op).value.threads| == |k.threads|
    ensures Step(k, op).value.threads[t].task == k.threads[t].task && Alive(Step(k, op).value.threads[t])
  {
    if op.OpWakeOne? {
      WakeOneIsWake(k, op.q);
    } else {
      WakeAllIsWakeList(k, op.q);
      QueueInTable(k, op.q);
      hide Inv, Linked, Fits, TasksLinked, Sound;
      WakeListEffect(k, k.waits[op.q], Event);
    }
  }

  lemma OnlyCurrentRuns(k: Kernel, t: Tid)
    requires Inv(k) && t < |k.threads| && k.threads[t].state == Running
    ensures k.started && k.current == Some(t)
  {
  }

  /** A thread keeps its slot and its task through every operation but its own exit. */
  lemma TaskStep(k: Kernel, op: Op, t: Tid)
    requires Inv(k) && Legal(k, op) && t < |k.threads| && Alive(k.threads[t]) && !Leaves(k, op, t)
    ensures Step(k, op).Ok? && t < |Step(k, op).value.threads|
    ensures Step(k, op).value.threads[t].task == k.threads[t].task && Alive(Step(k, op).value.threads[t])
  {
    if Resting(k, t) {
      RecordEffect(k, op, t);
      hide Inv, Legal, Step, EndedBy;
    } else {
      OnlyCurrentRuns(k, t);
      RunningTask(k, op, t);
    }
  }

  lemma RunningTask(k: Kernel, op: Op, t: Tid)
    requires Inv(k) && Legal(k, op) && t < |k.threads| && k.started && k.current == Some(t)
    requires k.threads[t].state == Running && !op.OpExit?
    ensures Step(k, op).Ok? && t < |Step(k, op).value.threads|
    ensures Step(k, op).value.threads[t].task == k.threads[t].task && Alive(Step(k, op).value.threads[t])
  {
    StepSafe(k, op);
    match op
    case OpTick(f) => TickTask(k, f, t);
    case OpWakeOne(_) => WakeTask(k, op, t);
    case OpWakeAll(_) => WakeTask(k, op, t);
    case OpCreate => CreateExact(k); hide Inv;
    case OpCreateUser(task) => CreateUserExact(k, task); hide Inv;
    case OpInitQueue =>
    case OpInitTask(_) =>
    case OpStart =>
    case OpExit(_) =>
    case _ => if Parks(k, op) { ParkingTask(k, op, t); } else { StayInv(k, op); }
  }

  /** t does not exit during the run. */
  ghost predicate Remains(k: Kernel, ops: seq<Op>, t: Tid)
    requires LegalRun(k, ops)
    decreases |ops|
  {
    ops == [] || (!Leaves(k, ops[0], t) && (Step(k, ops[0]).Ok? ==> Remains(Step(k, ops[0]).value, ops[1..], t)))
  }

  lemma {:induction false} TaskRun(k: Kernel, ops: seq<Op>, t: Tid)
    requires Inv(k) && LegalRun(k, ops) && Remains(k, ops, t) && t < |k.threads| && Alive(k.threads[t])
    ensures Execute(k, ops).Ok? && Inv(Execute(k, ops).value) && t < |Execute(k, ops).value.threads|
    ensures Execute(k, ops).value.threads[t].task == k.threads[t].task && Alive(Execute(k, ops).value.threads[t])
    decreases |ops|
  {
    if ops != [] {
      StepSafe(k, ops[0]);
      TaskStep(k, ops[0], t);
      hide Inv, Legal, Step, Alive;
      TaskRun(Step(k, ops[0]).value, ops[1..], t);
    }
  }

  /** What an exit does to the thread and its task: the slot is given up, that very task ends
      destroyed, and every other task is as it was. */
  lemma ExitEndsTask(k: Kernel, f: Frame, t: Tid, task: TaskId)
    requires Inv(k) && k.started && k.current == Some(t) && Legal(k, OpExit(f))
    requires t < |k.threads| && k.threads[t].task == Some(task)
    ensures task in k.tasks && k.tasks[task] == TaskReady
    ensures Exit(k, f).Ok? && Inv(Exit(k, f).value) && t < |Exit(k, f).value.threads|
    ensures var k1 := Exit(k, f).value;
      && k1.tasks == k.tasks[task := TaskDestroyed] && k1.threads[t].state == Exited && k1.threads[t].task == None
      && k1.current != Some(t)
  {
    ParkingStep(k, OpExit(f));
    ParkExitedOk(k, f);
    ExitTasksExact(k, f, task);
    var p := ParkExited(k);
    hide Inv, Exit, Linked, Fits, TasksLinked;
    NextFits(p);
  }

  lemma ExitTasksExact(k: Kernel, f: Frame, task: TaskId)
    requires Inv(k) && k.started && HasCurrent(k) && Legal(k, OpExit(f)) && k.threads[k.current.value].task == Some(task)
    requires Exit(k, f).Ok?
    ensures task in k.tasks && k.tasks[task] == TaskReady
    ensures Exit(k, f).value.tasks == k.tasks[task := TaskDestroyed]
  {
    ParkExitedOk(k, f);
    DispatchNextIsDispatched(ParkExited(k));
    hide Inv, Linked, Fits, Parked;
  }

  /**
   * The life of a user thread.  A ready task that is not attached and a vacant slot give a
   * thread that carries the task, and no other, over every run; when it exits, that task is
   * destroyed.
   */
  lemma UserThreadLife(k: Kernel, task: TaskId, ops: seq<Op>, f: Frame)
    requires Inv(k) && Legal(k, OpCreateUser(task)) && task in k.tasks && k.tasks[task] == TaskReady
    requires exists u :: Vacant(k.threads, u)
    requires CreateUser(k, task).Ok? && CreateUser(k, task).value.1.Some? ==>
      var (k1, t) := CreateUser(k, task).value;
      && LegalRun(k1, ops) && Remains(k1, ops, t.value)
      && (Execute(k1, ops).Ok? ==> Execute(k1, ops).value.started && Execute(k1, ops).value.current == t && Legal(Execute(k1, ops).value, OpExit(f)))
    ensures CreateUser(k, task).Ok? && CreateUser(k, task).value.1.Some?
    ensures var (k1, t) := CreateUser(k, task).value;
      && Execute(k1, ops).Ok?
      && var k2 := Execute(k1, ops).value;
      && t.value < |k2.threads| && k2.threads[t.value].task == Some(task) && task in k2.tasks && k2.tasks[task] == TaskReady
      && Exit(k2, f).Ok? && Exit(k2, f).value.tasks == k2.tasks[task := TaskDestroyed]
  {
    CreateUserExact(k, task);
    StepSafe(k, OpCreateUser(task));
    var (k1, t) := CreateUser(k, task).value;
    hide Inv, Legal, CreateUser, LegalRun, Execute, Exit, Remains, LowestVacant;
    TaskRun(k1, ops, t.value);
    ExitEndsTask(Execute(k1, ops).value, f, t.value, task);
  }

  /** Such lives happen: the first task of a two-slot kernel, from its creation to its end. */
  lemma UserThreadHappens(task: TaskId)
    ensures var f := Frame(TaskContext(task), true, 0);
      var ops := [OpInitTask(task), OpCreateUser(task), OpStart, OpExit(f)];
      && LegalRun(Initial(2), ops) && Execute(Initial(2), ops).Ok?
      && Execute(Initial(2), ops).value.tasks == map[task := TaskDestroyed]
  {
    var f := Frame(TaskContext(task), true, 0);
    var k0, k1 := Initial(2), Initial(2).(tasks := map[task := TaskReady]);
    FirstTask(task);
    hide Inv, Step, Initial, Legal, LegalRun, Execute;
    var k2, k3, k4 := LifeSteps(k1, task);
    OneByOne(k0, k1, k2, k3, k4, OpInitTask(task), OpCreateUser(task), OpStart, OpExit(f));
  }

  lemma LifeSteps(k1: Kernel, task: TaskId) returns (k2: Kernel, k3: Kernel, k4: Kernel)
    requires Inv(k1) && k1 == Initial(2).(tasks := map[task := TaskReady])
    ensures var f := Frame(TaskContext(task), true, 0);
      && |k1.threads| > 0 && |k2.threads| > 0 && |k3.threads| > 0
      && Legal(k1, OpCreateUser(task)) && Step(k1, OpCreateUser(task)) == Ok(k2)
      && Legal(k2, OpStart) && Step(k2, OpStart) == Ok(k3)
      && Legal(k3, OpExit(f)) && Step(k3, OpExit(f)) == Ok(k4)
      && k4.tasks == map[task := TaskDestroyed]
  {
    var f := Frame(TaskContext(task), true, 0);
    FirstUser(k1, task);
    hide Inv, Step, CreateUser, Start, Exit, Legal;
    k2 := CreateUser(k1, task).value.0;
    k3 := Start(k2).value;
    ExitEndsTask(k3, f, 1, task);
    k4 := Exit(k3, f).value;
    assert map[task := TaskReady][task := TaskDestroyed] == map[task := TaskDestroyed];
    StepNames(k1, k2, k3, k4, task, f);
  }

  lemma FirstTask(task: TaskId)
    ensures var k1 := Initial(2).(tasks := map[task := TaskReady]);
      && Inv(k1) && |k1.threads| == 2 && |Initial(2).threads| == 2
      && Legal(Initial(2), OpInitTask(task)) && Step(Initial(2), OpInitTask(task)) == Ok(k1)
  {
    InitialInv(2);
    StepSafe(Initial(2), OpInitTask(task));
    hide Inv;
    var none: map<TaskId, TaskState> := map[];
    assert none[task := TaskReady] == map[task := TaskReady];
  }

  lemma StepNames(k1: Kernel, k2: Kernel, k3: Kernel, k4: Kernel, task: TaskId, f: Frame)
    requires |k1.threads| > 0 && |k2.threads| > 0 && |k3.threads| > 0
    requires Legal(k1, OpCreateUser(task)) && CreateUser(k1, task).Ok? && CreateUser(k1, task).value.0 == k2
    requires Legal(k2, OpStart) && Start(k2) == Ok(k3)
    requires Legal(k3, OpExit(f)) && Exit(k3, f) == Ok(k4)
    ensures Step(k1, OpCreateUser(task)) == Ok(k2) && Step(k2, OpStart) == Ok(k3) && Step(k3, OpExit(f)) == Ok(k4)
  {
    hide CreateUser, Start, Exit;
  }

  lemma FirstUser(k: Kernel, task: TaskId)
    requires Inv(k) && k == Initial(2).(tasks := map[task := TaskReady])
    ensures Legal(k, OpCreateUser(task)) && CreateUser(k, task).Ok? && CreateUser(k, task).value.1 == Some(1)
    ensures var k2 := CreateUser(k, task).value.0;
      && |k2.threads| == 2 && Legal(k2, OpStart) && Start(k2).Ok? && Inv(Start(k2).value)
      && var k3 := Start(k2).value;
      && k3.started && k3.current == Some(1) && 1 < |k3.threads| == 2 && k3.threads[1].task == Some(task)
      && k3.tasks == k.tasks && Legal(k3, OpExit(Frame(TaskContext(task), true, 0)))
  {
    CreateUserExact(k, task);
    StepSafe(k, OpCreateUser(task));
    assert Vacant(k.threads, 1);
    hide Inv, CreateUser, Start, FreeSlot;
    StartUser(CreateUser(k, task).value.0, task);
  }

  lemma StartUser(k: Kernel, task: TaskId)
    requires Inv(k) && !k.started && k.ready == [1] && |k.threads| == 2 && k.threads[1].task == Some(task)
    ensures Legal(k, OpStart) && Start(k).Ok? && Inv(Start(k).value)
    ensures var k1 := Start(k).value;
      && k1.started && k1.current == Some(1) && |k1.threads| == 2 && k1.threads[1].task == Some(task)
      && k1.tasks == k.tasks && Legal(k1, OpExit(Frame(TaskContext(task), true, 0)))
  {
    StartInv(k);
    hide Inv, Start;
  }

  lemma OneByOne(k0: Kernel, k1: Kernel, k2: Kernel, k3: Kernel, k4: Kernel, a: Op, b: Op, c: Op, d: Op)
    requires |k0.threads| > 0 && |k1.threads| > 0 && |k2.threads| > 0 && |k3.threads| > 0
    requires Legal(k0, a) && Step(k0, a) == Ok(k1) && Legal(k1, b) && Step(k1, b) == Ok(k2)
    requires Legal(k2, c) && Step(k2, c) == Ok(k3) && Legal(k3, d) && Step(k3, d) == Ok(k4)
    ensures LegalRun(k0, [a, b, c, d]) && Execute(k0, [a, b, c, d]) == Ok(k4)
  {
    hide Legal, Step;
    assert LegalRun(k4, []) && Execute(k4, []) == Ok(k4);
    hide LegalRun, Execute;
    Deadlines.RunOne(k3, d, []);
    Deadlines.RunOne(k2, c, [d]);
    Deadlines.RunOne(k1, b, [c, d]);
    Deadlines.RunOne(k0, a, [b, c, d]);
    assert [d] + [] == [d] && [c] + [d] == [c, d] && [b] + [c, d] == [b, c, d] && [a] + [b, c, d] == [a, b, c, d];
  }
}
