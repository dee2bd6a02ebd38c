/** The scheduler's global invariant: what the "invariant violation" panics of
    kernel/core/thread.c take for granted. */
module SchedulerInvariant {
  import opened SeqTools
  import opened TaskStates
  import opened Scheduler

  type Table = seq<Thread>

  /** q lists without repeats exactly the real threads flagged as ready. */
  ghost predicate ReadyLinked(threads: Table, q: seq<Tid>) {
    && Distinct(q)
    && (forall t :: t in q ==> 0 < t < |threads|)
    && (forall t :: 0 <= t < |threads| ==> (threads[t].inReady <==> t in q))
  }

  ghost predicate SleepLinked(threads: Table, q: seq<Tid>) {
    && Distinct(q)
    && (forall t :: t in q ==> 0 < t < |threads|)
    && (forall t :: 0 <= t < |threads| ==> (threads[t].inSleep <==> t in q))
  }

  /** Deadlines never decrease along the sleep queue. */
  ghost predicate Sorted(threads: Table, q: seq<Tid>) {
    forall i, j :: 0 <= i < j < |q| ==> WakeTick(threads, q[i]) <= WakeTick(threads, q[j])
  }

  ghost predicate QueueLinked(threads: Table, q: seq<Tid>, id: QueueId) {
    && Distinct(q)
    && (forall t :: t in q ==> 0 < t < |threads|)
    && (forall t :: 0 <= t < |threads| ==> (threads[t].queue == Some(id) <==> t in q))
  }

  ghost predicate WaitLinked(threads: Table, waits: seq<seq<Tid>>) {
    && (forall id :: 0 <= id < |waits| ==> QueueLinked(threads, waits[id], id))
    && (forall t :: 0 <= t < |threads| ==>
          && (threads[t].inWait <==> threads[t].queue.Some?)
          && (threads[t].queue.Some? ==> threads[t].queue.value < |waits|))
  }

  /** Membership flags and queues agree. */
  ghost predicate Linked(k: Kernel) {
    && ReadyLinked(k.threads, k.ready)
    && SleepLinked(k.threads, k.sleepers)
    && WaitLinked(k.threads, k.waits)
    && Sorted(k.threads, k.sleepers)
  }

  predicate NoQueue(th: Thread) {
    !th.inReady && !th.inSleep && !th.inWait && th.queue.None? && th.reason == NoWait
  }

  /** The flags a thread may carry in each state: a blocked thread sits in exactly the
      queues its wait reason names, the null thread sits in none. */
  predicate Fit(th: Thread, idle: bool) {
    match th.state
    case Unused => !idle && NoQueue(th) && th.task.None?
    case Exited => !idle && NoQueue(th) && th.task.None?
    case Running => NoQueue(th) && th.frame.Some?
    case Ready =>
      && th.inReady == !idle && NoQueue(th.(inReady := false)) && th.frame.Some?
    case Blocked =>
      && !idle && !th.inReady && th.frame.Some?
      && th.reason != NoWait
      && th.inSleep == (th.reason == Sleeping || th.reason == TimedWaiting)
      && th.inWait == (th.reason == Waiting || th.reason == TimedWaiting)
  }

  ghost predicate Fits(k: Kernel) {
    |k.threads| >= 2 && forall t :: 0 <= t < |k.threads| ==> Fit(k.threads[t], t == 0)
  }

  /** Exactly one running thread once started: the current one.  Before that, none. */
  ghost predicate OneRunning(k: Kernel) {
    && (k.started ==> HasCurrent(k))
    && (forall t :: 0 <= t < |k.threads| ==>
          (k.threads[t].state == Running <==> k.started && k.current == Some(t)))
    && (!k.started ==> k.current.None? && forall t :: 0 <= t < |k.threads| ==> k.threads[t].state != Blocked)
  }

  /** A thread's saved frame lies on its own kernel stack or in its own task. */
  predicate OwnFrame(th: Thread, t: Tid) {
    && (th.frame.Some? ==> OwnPlace(th, t, th.frame.value.place))
    && (t == 0 ==> th.task.None?)
  }

  predicate OwnPlace(th: Thread, t: Tid, p: Place) {
    p == KernelStack(t) || (th.task.Some? && p == TaskContext(th.task.value))
  }

  /** Attached user tasks are ready and attached to one thread only. */
  ghost predicate TasksLinked(threads: Table, tasks: map<TaskId, TaskState>) {
    && (forall t :: 0 <= t < |threads| ==>
          && OwnFrame(threads[t], t)
          && (threads[t].task.Some? ==>
                threads[t].task.value in tasks && tasks[threads[t].task.value] == TaskReady))
    && (forall t, u :: 0 <= t < u < |threads| && threads[t].task.Some? ==>
          threads[u].task != threads[t].task)
  }

  /** Between steps no reschedule is pending and the running thread has quantum left. */
  ghost predicate Quiet(k: Kernel) {
    && !k.resched
    && (forall t :: 0 <= t < |k.threads| && k.threads[t].state == Running ==>
          k.threads[t].quantum < QUANTUM)
  }

  ghost predicate Inv(k: Kernel) {
    Linked(k) && Fits(k) && OneRunning(k) && TasksLinked(k.threads, k.tasks) && Quiet(k)
  }

  // ------------------------------------------------------------ queue room

  lemma Room(q: seq<Tid>, t: Tid, n: nat)
    requires Distinct(q) && t !in q && 0 < t < n
    requires forall x :: x in q ==> 0 < x < n
    ensures |q| < n - 1
  {
    Pigeonhole(q + [t], n - 1);
  }

  // ------------------------------------------------------------------ wake

  function Woken(th: Thread, r: WaitResult): Thread {
    th.(state := Ready, reason := NoWait, queue := None, inReady := true, inSleep := false,
        inWait := false, wakeTick := 0, result := r, frame := WithResult(th.frame, r))
  }

  function Dropped(k: Kernel, t: Tid): seq<seq<Tid>>
    requires t < |k.threads|
  {
    var q := k.threads[t].queue;
    if q.Some? && q.value < |k.waits| then k.waits[q.value := Without(k.waits[q.value], t)] else k.waits
  }

  /** What waking t means: it leaves both queues at once and joins the ready tail. */
  function Wake(k: Kernel, t: Tid, r: WaitResult): Kernel
    requires t < |k.threads|
  {
    Set(k, t, Woken(k.threads[t], r)).(
      ready := k.ready + [t],
      sleepers := Without(k.sleepers, t),
      waits := Dropped(k, t))
  }

  function Detached(k: Kernel, t: Tid): Kernel
    requires t < |k.threads|
  {
    var th := k.threads[t];
    Set(k, t, th.(queue := None, inSleep := false, inWait := false,
                  wakeTick := if th.inSleep then 0 else th.wakeTick)).(
      sleepers := Without(k.sleepers, t), waits := Dropped(k, t))
  }

  lemma LeaveQueuesIsDetached(k: Kernel, t: Tid)
    requires Linked(k) && t < |k.threads|
    ensures LeaveQueues(k, t) == Ok(Detached(k, t))
  {
    var th := k.threads[t];
    var k1 := if th.inSleep then TimeoutRemove(k, t).value else k;
    assert k1 == Set(k, t, k1.threads[t]).(sleepers := Without(k.sleepers, t));
    if th.inWait {
      assert QueueLinked(k.threads, k.waits[th.queue.value], th.queue.value);
    }
    var d := Detached(k, t).threads[t];
    assert k1.threads[t := d] == k.threads[t := d];
  }

  lemma WakeBlockedIsWake(k: Kernel, t: Tid, r: WaitResult)
    requires Linked(k) && 0 < t < |k.threads|
    requires k.threads[t].state == Blocked && !k.threads[t].inReady
    ensures WakeBlocked(k, t, r) == Ok(Wake(k, t, r))
  {
    LeaveQueuesIsDetached(k, t);
    Room(k.ready, t, |k.threads|);
    var k1 := Detached(k, t);
    var w := Woken(k.threads[t], r);
    assert k1.threads[t := w.(inReady := false)][t := w] == k.threads[t := w];
  }

  // -------------------------------------- one record and one queue at a time

  lemma ReadyAppend(threads: Table, q: seq<Tid>, t: Tid, th: Thread)
    requires ReadyLinked(threads, q) && 0 < t < |threads| && t !in q && th.inReady
    ensures ReadyLinked(threads[t := th], q + [t])
  {
  }

  lemma SleepDrop(threads: Table, q: seq<Tid>, t: Tid, th: Thread)
    requires SleepLinked(threads, q) && Sorted(threads, q) && t < |threads| && !th.inSleep
    ensures SleepLinked(threads[t := th], Without(q, t))
    ensures Sorted(threads[t := th], Without(q, t))
  {
    WithoutMembers(q, t);
    SortedDrop(threads, q, t, th);
  }

  lemma SortedDrop(threads: Table, q: seq<Tid>, t: Tid, th: Thread)
    requires Distinct(q) && Sorted(threads, q) && t < |threads|
    ensures Sorted(threads[t := th], Without(q, t))
  {
    var r := Without(q, t);
    WithoutMembers(q, t);
    forall i, j | 0 <= i < j < |r|
      ensures WakeTick(threads[t := th], r[i]) <= WakeTick(threads[t := th], r[j])
    {
      assert r[i] in r && r[j] in r;
      if t in q {
        WithoutAt(q, t, i);
        WithoutAt(q, t, j);
      }
    }
  }

  lemma QueueDrop(threads: Table, q: seq<Tid>, id: QueueId, t: Tid, th: Thread)
    requires QueueLinked(threads, q, id) && t < |threads| && th.queue.None?
    ensures QueueLinked(threads[t := th], if threads[t].queue == Some(id) then Without(q, t) else q, id)
  {
    WithoutMembers(q, t);
  }

  lemma WaitDrop(k: Kernel, t: Tid, th: Thread)
    requires WaitLinked(k.threads, k.waits) && t < |k.threads| && th.queue.None? && !th.inWait
    ensures WaitLinked(k.threads[t := th], Dropped(k, t))
  {
    forall id | 0 <= id < |k.waits|
      ensures QueueLinked(k.threads[t := th], Dropped(k, t)[id], id)
    {
      QueueDrop(k.threads, k.waits[id], id, t, th);
    }
  }

  lemma WakeLinked(k: Kernel, t: Tid, r: WaitResult)
    requires Linked(k) && 0 < t < |k.threads| && !k.threads[t].inReady
    ensures Linked(Wake(k, t, r))
  {
    var th := Woken(k.threads[t], r);
    ReadyAppend(k.threads, k.ready, t, th);
    SleepDrop(k.threads, k.sleepers, t, th);
    WaitDrop(k, t, th);
  }

  /** Everything of Inv that holds at every point of a tick, before the quantum is charged. */
  ghost predicate Sound(k: Kernel) {
    Linked(k) && Fits(k) && OneRunning(k) && TasksLinked(k.threads, k.tasks)
  }

  /** Replacing one record by one that owns the same task and an own frame. */
  lemma TasksSame(threads: Table, tasks: map<TaskId, TaskState>, t: Tid, th: Thread)
    requires TasksLinked(threads, tasks) && t < |threads|
    requires th.task == threads[t].task && OwnFrame(th, t)
    ensures TasksLinked(threads[t := th], tasks)
  {
  }

  lemma WakeSound(k: Kernel, t: Tid, r: WaitResult)
    requires Sound(k) && t < |k.threads| && k.threads[t].state == Blocked
    ensures Sound(Wake(k, t, r))
  {
    WakeLinked(k, t, r);
    TasksSame(k.threads, k.tasks, t, Woken(k.threads[t], r));
  }
}
