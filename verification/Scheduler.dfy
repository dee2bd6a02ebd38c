/** The thread table, its queues and every scheduler entry point of kernel/core/thread.c,
    as functions from one kernel state to the next.  A call that reaches PANIC has the
    outcome Panic.  The table size is |threads|; the source fixes it at 8. */
module Scheduler {
  import opened SeqTools
  import opened TaskStates

  const QUANTUM := 10
  const U64: nat := 0x1_0000_0000_0000_0000

  type Tid = nat
  type QueueId = nat
  type TaskId = nat

  datatype ThreadState = Unused | Ready | Running | Blocked | Exited
  datatype Reason = NoWait | Sleeping | Waiting | TimedWaiting
  datatype WaitResult = WaitOk | WaitTimeout

  /** Where a saved trap frame lives: a kernel stack, or a user task's trap-context page. */
  datatype Place = KernelStack(tid: Tid) | TaskContext(task: TaskId)
  datatype Frame = Frame(place: Place, user: bool, a0: nat)

  datatype Thread = Thread(
    state: ThreadState,
    reason: Reason,
    queue: Option<QueueId>,
    frame: Option<Frame>,
    task: Option<TaskId>,
    quantum: nat,
    inReady: bool,
    inSleep: bool,
    inWait: bool,
    wakeTick: nat,
    result: WaitResult)

  datatype Kernel = Kernel(
    threads: seq<Thread>,
    ready: seq<Tid>,
    sleepers: seq<Tid>,
    waits: seq<seq<Tid>>,
    current: Option<Tid>,
    started: bool,
    resched: bool,
    now: nat,
    tasks: map<TaskId, TaskState>)

  datatype Outcome<+T> = Ok(value: T) | Panic {
    predicate IsFailure() { Panic? }
    function PropagateFailure<U>(): Outcome<U> requires Panic? { Panic }
    function Extract(): T requires Ok? { value }
  }

  /** uint64_t addition. */
  function Add64(a: nat, b: nat): (r: nat)
    ensures r < U64
    ensures a + b < U64 ==> r == a + b
    ensures U64 <= a + b < 2 * U64 ==> r == a + b - U64
  {
    (a + b) % 0x1_0000_0000_0000_0000
  }

  /** The 64-bit word a wake leaves in the saved frame's a0: 0 or -1. */
  function Word(r: WaitResult): nat {
    if r == WaitOk then 0 else U64 - 1
  }

  predicate Real(k: Kernel, t: Tid) {
    0 < t < |k.threads|
  }

  function Set(k: Kernel, t: Tid, th: Thread): Kernel
    requires t < |k.threads|
  {
    k.(threads := k.threads[t := th])
  }

  /** Queue and wake operations never change the table size or the running thread. */
  ghost predicate SameShape(k: Kernel, k1: Kernel) {
    |k1.threads| == |k.threads| && k1.current == k.current
  }

  // ---------------------------------------------------------------- queues

  /** thread.c:284-303 */
  function ReadyEnqueue(k: Kernel, t: Tid): (r: Outcome<Kernel>)
    ensures r.Ok? ==> SameShape(k, r.value)
    ensures r.Ok? ==> r.value.sleepers == k.sleepers && r.value.waits == k.waits
  {
    if !Real(k, t) then Panic else
    var th := k.threads[t];
    if th.state != Ready || th.inReady || th.inSleep || th.inWait then Panic
    else if |k.ready| >= |k.threads| - 1 then Panic
    else Ok(Set(k, t, th.(inReady := true)).(ready := k.ready + [t]))
  }

  /** thread.c:305-323 together with pick_next_thread, thread.c:561-569 */
  function PickNext(k: Kernel): (r: Outcome<(Kernel, Tid)>)
    ensures r.Ok? ==> |r.value.0.threads| == |k.threads|
    ensures r.Ok? && |k.threads| > 0 ==> r.value.1 < |k.threads|
  {
    if k.ready == [] then Ok((k, 0)) else
    var t := k.ready[0];
    if !Real(k, t) then Panic else
    var th := k.threads[t];
    if th.state != Ready || !th.inReady then Panic
    else Ok((Set(k, t, th.(inReady := false)).(ready := k.ready[1..]), t))
  }

  function WakeTick(threads: seq<Thread>, t: Tid): nat {
    if t < |threads| then threads[t].wakeTick else 0
  }

  /** First position whose deadline is later than wake (thread.c:238-243). */
  function SleepIndex(threads: seq<Thread>, q: seq<Tid>, wake: nat): (i: nat)
    ensures i <= |q|
    ensures forall j :: 0 <= j < i ==> WakeTick(threads, q[j]) <= wake
    ensures i < |q| ==> WakeTick(threads, q[i]) > wake
  {
    if q == [] || WakeTick(threads, q[0]) > wake then 0
    else 1 + SleepIndex(threads, q[1..], wake)
  }

  function SleepInsert(threads: seq<Thread>, q: seq<Tid>, t: Tid, wake: nat): seq<Tid> {
    var i := SleepIndex(threads, q, wake);
    q[..i] + [t] + q[i..]
  }

  /** thread.c:325-343 */
  function SleepEnqueue(k: Kernel, t: Tid, wake: nat): (r: Outcome<Kernel>)
    ensures r.Ok? ==> SameShape(k, r.value)
  {
    if !Real(k, t) then Panic else
    var th := k.threads[t];
    if th.state != Blocked || th.inReady || th.inSleep ||
       (th.reason != Sleeping && th.reason != TimedWaiting) then Panic
    else if |k.sleepers| >= |k.threads| - 1 then Panic
    else Ok(Set(k, t, th.(wakeTick := wake, inSleep := true)).(
              sleepers := SleepInsert(k.threads, k.sleepers, t, wake)))
  }

  /** thread.c:345-368 */
  function WaitEnqueue(k: Kernel, q: QueueId, t: Tid): (r: Outcome<Kernel>)
    requires q < |k.waits|
    ensures r.Ok? ==> SameShape(k, r.value)
  {
    if !Real(k, t) then Panic else
    var th := k.threads[t];
    if th.state != Blocked || th.inReady || th.inWait ||
       (th.reason != Waiting && th.reason != TimedWaiting) || th.queue.Some? then Panic
    else if |k.waits[q]| >= |k.threads| - 1 then Panic
    else Ok(Set(k, t, th.(inWait := true, queue := Some(q))).(
              waits := k.waits[q := k.waits[q] + [t]]))
  }

  /** thread.c:370-391; None when the queue is empty */
  function WaitDequeue(k: Kernel, q: QueueId): (r: Outcome<(Kernel, Option<Tid>)>)
    requires q < |k.waits|
    ensures r.Ok? && r.value.1.Some? ==>
      var (k1, head) := r.value;
      && SameShape(k, k1) && head.value < |k.threads| && !k1.threads[head.value].inWait
      && k.waits[q] != [] && k1.waits == k.waits[q := k.waits[q][1..]]
  {
    if k.waits[q] == [] then Ok((k, None)) else
    var t := k.waits[q][0];
    if !Real(k, t) then Panic else
    var th := k.threads[t];
    if th.state != Blocked || !th.inWait || th.queue != Some(q) then Panic
    else Ok((Set(k, t, th.(inWait := false, queue := None)).(
               waits := k.waits[q := k.waits[q][1..]]), Some(t)))
  }

  /** thread.c:393-407 */
  function WaitRemove(k: Kernel, t: Tid): (r: Outcome<Kernel>)
    requires t < |k.threads|
    ensures r.Ok? ==> SameShape(k, r.value)
    ensures r.Ok? ==> r.value.sleepers == k.sleepers
  {
    var th := k.threads[t];
    if th.queue.None? || !th.inWait then Panic else
    var q := th.queue.value;
    if q >= |k.waits| || t !in k.waits[q] then Panic
    else Ok(Set(k, t, th.(inWait := false, queue := None)).(
              waits := k.waits[q := Without(k.waits[q], t)]))
  }

  /** thread.c:409-422 */
  function TimeoutRemove(k: Kernel, t: Tid): (r: Outcome<Kernel>)
    requires t < |k.threads|
    ensures r.Ok? ==> SameShape(k, r.value)
    ensures r.Ok? ==> |r.value.sleepers| <= |k.sleepers| && r.value.waits == k.waits
    ensures r.Ok? ==> r.value.threads[t].inWait == k.threads[t].inWait
  {
    var th := k.threads[t];
    if !th.inSleep || t !in k.sleepers then Panic
    else Ok(Set(k, t, th.(inSleep := false, wakeTick := 0)).(
              sleepers := Without(k.sleepers, t)))
  }

  // ----------------------------------------------------------------- wakes

  function WithResult(f: Option<Frame>, r: WaitResult): Option<Frame> {
    if f.Some? then Some(f.value.(a0 := Word(r))) else None
  }

  /** thread.c:431-437: cancel the deadline, then the queue membership. */
  function LeaveQueues(k: Kernel, t: Tid): (o: Outcome<Kernel>)
    requires t < |k.threads|
    ensures o.Ok? ==> SameShape(k, o.value) && |o.value.sleepers| <= |k.sleepers|
    ensures o.Ok? && !k.threads[t].inWait ==> o.value.waits == k.waits
  {
    var k1 :- if k.threads[t].inSleep then TimeoutRemove(k, t) else Ok(k);
    if k1.threads[t].inWait then WaitRemove(k1, t) else Ok(k1)
  }

  /** thread.c:424-455 */
  function WakeBlocked(k: Kernel, t: Tid, r: WaitResult): (o: Outcome<Kernel>)
    requires t < |k.threads|
    ensures o.Ok? ==> SameShape(k, o.value) && |o.value.sleepers| <= |k.sleepers|
    ensures o.Ok? && !k.threads[t].inWait ==> o.value.waits == k.waits
  {
    if k.threads[t].state != Blocked || k.threads[t].inReady then Panic else
    var k1 :- LeaveQueues(k, t);
    var th := k1.threads[t];
    ReadyEnqueue(
      Set(k1, t, th.(reason := NoWait, wakeTick := 0, result := r,
                     frame := WithResult(th.frame, r), state := Ready)), t)
  }

  /** thread.c:457-479; None when no deadline has passed */
  function SleepDequeueExpired(k: Kernel): (r: Outcome<(Kernel, Option<Tid>)>)
    ensures r.Ok? && r.value.1.Some? ==>
      var (k1, head) := r.value;
      && SameShape(k, k1) && head.value < |k.threads|
      && |k1.sleepers| < |k.sleepers|
    ensures r.Ok? && r.value.1.None? ==> r.value.0 == k
  {
    if k.sleepers == [] then Ok((k, None)) else
    var t := k.sleepers[0];
    if t >= |k.threads| then Panic else
    var th := k.threads[t];
    if th.state != Blocked || !th.inSleep ||
       (th.reason != Sleeping && th.reason != TimedWaiting) then Panic
    else if th.wakeTick > k.now then Ok((k, None))
    else Ok((Set(k, t, th.(inSleep := false)).(sleepers := k.sleepers[1..]), Some(t)))
  }

  /** One turn of the loop at thread.c:483-517. */
  function WakeExpired(k: Kernel, t: Tid): (r: Outcome<Kernel>)
    requires t < |k.threads|
    ensures r.Ok? ==> SameShape(k, r.value) && |r.value.sleepers| <= |k.sleepers|
  {
    var th := k.threads[t];
    match th.reason
    case TimedWaiting =>
      if !th.inWait then Panic else
      var k1 :- WaitRemove(k, t);
      WakeBlocked(k1, t, WaitTimeout)
    case Sleeping => WakeBlocked(Set(k, t, th.(wakeTick := 0)), t, WaitOk)
    case _ => Panic
  }

  /** thread.c:481-518.  Each turn takes at least the head off the sleep queue. */
  function WakeSleepers(k: Kernel): (r: Outcome<Kernel>)
    ensures r.Ok? ==> SameShape(k, r.value)
    decreases |k.sleepers|
  {
    var (k1, head) :- SleepDequeueExpired(k);
    if head.None? then Ok(k1) else
    var k2 :- WakeExpired(k1, head.value);
    WakeSleepers(k2)
  }

  /** thread.c:520-537 */
  function WakeOne(k: Kernel, q: QueueId): (r: Outcome<(Kernel, Option<Tid>)>)
    requires q < |k.waits|
    ensures r.Ok? && r.value.1.Some? ==>
      k.waits[q] != [] && r.value.0.waits == k.waits[q := k.waits[q][1..]]
  {
    var (k1, head) :- WaitDequeue(k, q);
    if head.None? then Ok((k1, None)) else
    var k2 :- WakeBlocked(k1, head.value, WaitOk);
    Ok((k2, head))
  }

  /** thread.c:539-559 */
  function WakeAll(k: Kernel, q: QueueId): Outcome<Kernel>
    requires q < |k.waits|
    decreases |k.waits[q]|
  {
    var (k1, head) :- WakeOne(k, q);
    if head.None? then Ok(k1) else WakeAll(k1, q)
  }

  // -------------------------------------------------------------- switches

  /** The tail shared by every switch: pick the next thread and run it. */
  function DispatchNext(k: Kernel): Outcome<Kernel>
    requires |k.threads| > 0
  {
    var (k1, t) :- PickNext(k);
    if k1.threads[t].frame.None? then Panic else Ok(Run(k1, t))
  }

  function Run(k: Kernel, t: Tid): Kernel
    requires t < |k.threads|
  {
    Set(k, t, k.threads[t].(state := Running, quantum := 0)).(
      current := Some(t), resched := false)
  }

  ghost predicate HasCurrent(k: Kernel) {
    k.current.Some? && k.current.value < |k.threads|
  }

  /** thread.c:978-1056 with requeue_current set */
  function SwitchRequeue(k: Kernel, f: Frame): Outcome<Kernel>
    requires HasCurrent(k)
  {
    var c := k.current.value;
    if k.threads[c].state != Running || c == 0 then Panic else
    var k1 :- ReadyEnqueue(Set(k, c, k.threads[c].(frame := Some(f), state := Ready)), c);
    DispatchNext(k1)
  }

  /** The record an exiting thread leaves in its slot (thread.c:1011-1023). */
  function Retired(th: Thread): Thread {
    Thread(Exited, NoWait, None, None, None, 0, false, false, false, 0, WaitOk)
  }

  /** thread.c:978-1056 with requeue_current clear.  The exiting user task is marked
      exited before the next thread is picked and destroyed after. */
  function SwitchExit(k: Kernel, f: Frame): Outcome<Kernel>
    requires HasCurrent(k)
  {
    var c := k.current.value;
    var task := k.threads[c].task;
    if k.threads[c].state != Running || c == 0 then Panic
    else if task.Some? &&
            (!f.user || task.value !in k.tasks || k.tasks[task.value] != TaskReady) then Panic
    else
      var k1 := Set(k, c, Retired(k.threads[c]));
      var k2 := if task.Some? then k1.(tasks := k1.tasks[task.value := TaskExited]) else k1;
      var k3 :- DispatchNext(k2);
      Ok(if task.Some? then k3.(tasks := k3.tasks[task.value := TaskDestroyed]) else k3)
  }

  /** thread.c:1081-1113 */
  function SwitchFromNull(k: Kernel, f: Frame): Outcome<Kernel>
    requires HasCurrent(k)
  {
    var c := k.current.value;
    if c != 0 || k.threads[0].state != Running then Panic else
    var k1 :- DispatchNext(Set(k, 0, k.threads[0].(frame := Some(f), state := Ready)));
    if k1.current == Some(0) then Panic else Ok(k1)
  }

  /** thread.c:1115-1161 */
  function SleepCurrent(k: Kernel, f: Frame, ticks: nat): Outcome<Kernel>
    requires HasCurrent(k)
  {
    var c := k.current.value;
    if k.threads[c].state != Running || c == 0 then Panic else
    var th := k.threads[c].(frame := Some(f), quantum := 0, reason := Sleeping,
                            result := WaitOk, state := Blocked);
    var k1 :- SleepEnqueue(Set(k, c, th), c, Add64(k.now, ticks));
    DispatchNext(k1)
  }

  /** thread.c:1184-1238; ticks == 0 is a wait without a deadline */
  function BlockCurrent(k: Kernel, f: Frame, q: QueueId, ticks: nat): Outcome<Kernel>
    requires HasCurrent(k) && q < |k.waits|
  {
    var c := k.current.value;
    if k.threads[c].state != Running || c == 0 then Panic else
    var th := k.threads[c].(frame := Some(f), quantum := 0,
                            reason := if ticks == 0 then Waiting else TimedWaiting,
                            result := WaitOk, state := Blocked);
    var k1 :- WaitEnqueue(Set(k, c, th), q, c);
    var k2 :- if ticks == 0 then Ok(k1) else SleepEnqueue(k1, c, Add64(k.now, ticks));
    DispatchNext(k2)
  }

  // ---------------------------------------------------------- entry points

  /** thread.c:1063-1079 */
  function Yield(k: Kernel, f: Frame): Outcome<Kernel>
    requires k.started ==> HasCurrent(k)
  {
    if !k.started then Ok(k) else
    var c := k.current.value;
    if k.ready == [] then Ok(Set(k, c, k.threads[c].(quantum := 0)))
    else if c == 0 then SwitchFromNull(k, f)
    else SwitchRequeue(k, f)
  }

  /** thread.c:1163-1182 */
  function SleepFor(k: Kernel, f: Frame, ticks: nat): Outcome<Kernel>
    requires k.started ==> HasCurrent(k)
  {
    if !k.started then Ok(k)
    else if k.current.value == 0 then Panic
    else if ticks == 0 then Yield(k, f)
    else SleepCurrent(k, f, ticks)
  }

  /** thread.c:1263-1278 */
  function Wait(k: Kernel, f: Frame, q: QueueId): Outcome<Kernel>
    requires k.started ==> HasCurrent(k)
    requires q < |k.waits|
  {
    if !k.started then Ok(k)
    else if k.current.value == 0 then Panic
    else BlockCurrent(k, f, q, 0)
  }

  /** thread.c:1280-1302; with ticks == 0 the caller gets WAIT_TIMEOUT at once */
  function WaitFor(k: Kernel, f: Frame, q: QueueId, ticks: nat): Outcome<Kernel>
    requires k.started ==> HasCurrent(k)
    requires q < |k.waits|
  {
    if !k.started then Ok(k)
    else if k.current.value == 0 then Panic
    else if ticks == 0 then Ok(k)
    else BlockCurrent(k, f, q, ticks)
  }

  function Exit(k: Kernel, f: Frame): Outcome<Kernel>
    requires k.started ==> HasCurrent(k)
  {
    if !k.started then Ok(k) else SwitchExit(k, f)
  }

  /** thread.c:969-975 */
  function ChargeQuantum(k: Kernel): Kernel
    requires HasCurrent(k)
  {
    var c := k.current.value;
    var th := k.threads[c];
    if c == 0 || th.state != Running then k else
    var n := if th.quantum < QUANTUM then th.quantum + 1 else th.quantum;
    Set(k, c, th.(quantum := n)).(resched := k.resched || n >= QUANTUM)
  }

  /** thread.c:1307-1326 */
  function MaybePreempt(k: Kernel, f: Frame): Outcome<Kernel>
    requires HasCurrent(k)
  {
    var c := k.current.value;
    if !k.resched then Ok(k)
    else if k.ready == [] || c == 0 || k.threads[c].state != Running then
      Ok(if k.ready == [] && c != 0
         then Set(k, c, k.threads[c].(quantum := 0)).(resched := false) else k)
    else SwitchRequeue(k, f)
  }

  /** One timer interrupt: the tick counter (timer.c:37-50), thread_on_timer_tick
      (thread.c:955-976) and the preemption check on trap return. */
  function Tick(k: Kernel, f: Frame): Outcome<Kernel>
    requires k.started ==> HasCurrent(k)
  {
    var k0 := k.(now := Add64(k.now, 1));
    if !k.started then Ok(k0) else
    var k1 :- WakeSleepers(k0);
    MaybePreempt(ChargeQuantum(k1), f)
  }

  /** First slot from i on that a new thread may take (thread.c:744-745). */
  function FreeSlot(threads: seq<Thread>, i: nat): (r: Option<Tid>)
    ensures r.Some? ==> i <= r.value < |threads| && threads[r.value].state in {Unused, Exited}
    ensures r.None? ==> forall j :: i <= j < |threads| ==> threads[j].state !in {Unused, Exited}
    decreases |threads| - i
  {
    if i >= |threads| then None
    else if threads[i].state == Unused || threads[i].state == Exited then Some(i)
    else FreeSlot(threads, i + 1)
  }

  /** A freshly installed thread (thread.c:629-692). */
  function Fresh(frame: Frame, task: Option<TaskId>): Thread {
    Thread(Ready, NoWait, None, Some(frame), task, 0, false, false, false, 0, WaitOk)
  }

  /** thread.c:736-756; None is the source's -1 */
  function Create(k: Kernel): Outcome<(Kernel, Option<Tid>)> {
    match FreeSlot(k.threads, 1)
    case None => Ok((k, None))
    case Some(t) =>
      var k1 :- ReadyEnqueue(Set(k, t, Fresh(Frame(KernelStack(t), false, 0), None)), t);
      Ok((k1, Some(t)))
  }

  /** thread.c:758-778 */
  function CreateUser(k: Kernel, task: TaskId): Outcome<(Kernel, Option<Tid>)> {
    if task !in k.tasks || k.tasks[task] != TaskReady then Ok((k, None)) else
    match FreeSlot(k.threads, 1)
    case None => Ok((k, None))
    case Some(t) =>
      var k1 :- ReadyEnqueue(Set(k, t, Fresh(Frame(TaskContext(task), true, 0), Some(task))), t);
      Ok((k1, Some(t)))
  }

  /** thread.c:780-799 */
  function Start(k: Kernel): Outcome<Kernel>
    requires |k.threads| > 0
  {
    if k.started then Panic else
    var (k1, t) :- PickNext(k);
    Ok(Run(k1, t).(started := true, resched := k.resched))
  }

  function InitialThread(t: Tid): Thread {
    if t == 0 then Fresh(Frame(KernelStack(0), false, 0), None)
    else Thread(Unused, NoWait, None, None, None, 0, false, false, false, 0, WaitOk)
  }

  /** The state thread_init leaves behind (thread.c:694-734). */
  function Initial(n: nat): Kernel
    requires n >= 2
  {
    Kernel(seq(n, (t: nat) => InitialThread(t)), [], [], [], None, false, false, 0, map[])
  }
}
