/** Every way the running thread can give up the processor: the state in which it has
    been parked, and the dispatch that follows. */
module Switches {
  import opened SeqTools
  import opened TaskStates
  import opened Scheduler
  import opened SchedulerInvariant
  import opened Wakeups

  /** The running thread has been parked and no successor chosen yet. */
  ghost predicate Parked(k: Kernel) {
    && Linked(k) && Fits(k) && TasksLinked(k.threads, k.tasks)
    && forall t :: 0 <= t < |k.threads| ==> k.threads[t].state != Running
  }

  /** The thread that runs next: the ready head, the null thread only if there is none. */
  function Next(k: Kernel): Tid {
    if k.ready == [] then 0 else k.ready[0]
  }

  function Dispatched(k: Kernel): Kernel
    requires Next(k) < |k.threads|
  {
    var t := Next(k);
    Set(k, t, k.threads[t].(inReady := false, state := Running, quantum := 0)).(
      ready := if k.ready == [] then [] else k.ready[1..],
      current := Some(t), resched := false)
  }

  lemma NextFits(k: Kernel)
    requires Parked(k)
    ensures Next(k) < |k.threads| && k.threads[Next(k)].state == Ready
    ensures k.threads[Next(k)].frame.Some?
    ensures k.ready != [] ==> Next(k) > 0 && k.threads[Next(k)].inReady
    ensures k.ready == [] ==> !k.threads[0].inReady
  {
    var t := Next(k);
    assert k.ready != [] ==> t in k.ready;
    assert Fit(k.threads[t], t == 0);
  }

  lemma DispatchNextIsDispatched(k: Kernel)
    requires Parked(k)
    ensures Next(k) < |k.threads|
    ensures PickNext(k).Ok? && PickNext(k).value.1 == Next(k)
    ensures Run(PickNext(k).value.0, Next(k)) == Dispatched(k)
    ensures DispatchNext(k) == Ok(Dispatched(k))
  {
    NextFits(k);
    hide Parked;
    var t := Next(k);
    var r := k.threads[t].(inReady := false, state := Running, quantum := 0);
    assert k.ready != [] ==> k.threads[t := k.threads[t].(inReady := false)][t := r] == k.threads[t := r];
  }

  lemma ReadyPop(threads: Table, q: seq<Tid>, th: Thread)
    requires ReadyLinked(threads, q) && q != [] && q[0] < |threads| && !th.inReady
    ensures ReadyLinked(threads[q[0] := th], q[1..])
  {
    assert q[0] !in q[1..];
    assert forall x :: x in q <==> x == q[0] || x in q[1..];
  }

  /** Changing the fields no queue looks at keeps every link. */
  lemma LinksKept(k: Kernel, t: Tid, th: Thread)
    requires Linked(k) && t < |k.threads|
    requires th.inReady == k.threads[t].inReady && th.inSleep == k.threads[t].inSleep
    requires th.inWait == k.threads[t].inWait && th.queue == k.threads[t].queue
    requires th.wakeTick == k.threads[t].wakeTick
    ensures Linked(Set(k, t, th))
  {
    FlagsKept(k, t, th);
    WaitFlagsKept(k, t, th);
  }

  /** Dispatch ends in a state with one running thread, the chosen one, and a full quantum. */
  lemma DispatchedSound(k: Kernel)
    requires Parked(k)
    ensures Next(k) < |k.threads|
    ensures Linked(Dispatched(k)) && Fits(Dispatched(k)) && Quiet(Dispatched(k))
    ensures TasksLinked(Dispatched(k).threads, k.tasks)
    ensures k.started ==> OneRunning(Dispatched(k))
    ensures forall t :: 0 <= t < |k.threads| ==>
      (Dispatched(k).threads[t].state == Running <==> t == Next(k))
  {
    NextFits(k);
    DispatchedLinked(k);
    var t := Next(k);
    TasksSame(k.threads, k.tasks, t, Dispatched(k).threads[t]);
    hide Linked;
    assert Fit(k.threads[t], t == 0);
  }

  lemma DispatchedLinked(k: Kernel)
    requires Parked(k)
    ensures Next(k) < |k.threads| && Linked(Dispatched(k))
  {
    NextFits(k);
    var t := Next(k);
    var th := Dispatched(k).threads[t];
    if k.ready == [] {
      LinksKept(k, t, th);
    } else {
      ReadyPop(k.threads, k.ready, th);
      ReadyFlagOnly(k, t, th);
    }
  }

  lemma ReadyFlagOnly(k: Kernel, t: Tid, th: Thread)
    requires Linked(k) && t < |k.threads|
    requires th.inSleep == k.threads[t].inSleep && th.wakeTick == k.threads[t].wakeTick
    requires th.inWait == k.threads[t].inWait && th.queue == k.threads[t].queue
    ensures SleepLinked(k.threads[t := th], k.sleepers) && Sorted(k.threads[t := th], k.sleepers)
    ensures WaitLinked(k.threads[t := th], k.waits)
  {
    LinksKept(k, t, th.(inReady := k.threads[t].inReady));
    var u := k.threads[t := th.(inReady := k.threads[t].inReady)];
    hide Linked;
    assert u[t := th] == k.threads[t := th];
    SleepView(u, k.threads[t := th], k.sleepers);
    WaitView(u, k.threads[t := th], k.waits);
  }

  /** The sleep links read only these fields. */
  lemma SleepView(a: Table, b: Table, q: seq<Tid>)
    requires |a| == |b| && SleepLinked(a, q) && Sorted(a, q)
    requires forall x :: 0 <= x < |a| ==> a[x].inSleep == b[x].inSleep && a[x].wakeTick == b[x].wakeTick
    ensures SleepLinked(b, q) && Sorted(b, q)
  {
    assert forall x :: WakeTick(a, x) == WakeTick(b, x);
  }

  lemma WaitView(a: Table, b: Table, waits: seq<seq<Tid>>)
    requires |a| == |b| && WaitLinked(a, waits)
    requires forall x :: 0 <= x < |a| ==> a[x].inWait == b[x].inWait && a[x].queue == b[x].queue
    ensures WaitLinked(b, waits)
  {
    forall id | 0 <= id < |waits| ensures QueueLinked(b, waits[id], id) {
      assert QueueLinked(a, waits[id], id);
    }
  }

  // -------------------------------------------------- parking the current thread

  /** A started kernel whose current thread is real, trapping with frame f. */
  ghost predicate Trapping(k: Kernel, f: Frame) {
    Sound(k) && k.started && k.current.value != 0 &&
    OwnPlace(k.threads[k.current.value], k.current.value, f.place)
  }

  function ParkReady(k: Kernel, f: Frame): Kernel
    requires HasCurrent(k)
  {
    var c := k.current.value;
    Set(k, c, k.threads[c].(frame := Some(f), state := Ready, inReady := true)).(ready := k.ready + [c])
  }

  lemma CurrentFits(k: Kernel)
    requires Sound(k) && k.started
    ensures HasCurrent(k) && k.threads[k.current.value].state == Running
    ensures NoQueue(k.threads[k.current.value]) && k.threads[k.current.value].frame.Some?
    ensures k.current.value !in k.ready && k.current.value !in k.sleepers
    ensures forall q :: 0 <= q < |k.waits| ==> k.current.value !in k.waits[q]
  {
    var c := k.current.value;
    assert Fit(k.threads[c], c == 0);
    forall q | 0 <= q < |k.waits| ensures c !in k.waits[q] {
      assert QueueLinked(k.threads, k.waits[q], q);
    }
  }

  lemma ParkReadyOk(k: Kernel, f: Frame)
    requires Trapping(k, f)
    ensures SwitchRequeue(k, f) == DispatchNext(ParkReady(k, f))
    ensures Parked(ParkReady(k, f))
  {
    CurrentFits(k);
    var c := k.current.value;
    Room(k.ready, c, |k.threads|);
    var th := k.threads[c].(frame := Some(f), state := Ready);
    assert k.threads[c := th][c := th.(inReady := true)] == k.threads[c := th.(inReady := true)];
    ReadyAppend(k.threads, k.ready, c, th.(inReady := true));
    ReadyFlagOnly(k, c, th.(inReady := true));
    TasksSame(k.threads, k.tasks, c, th.(inReady := true));
    hide Linked, ReadyLinked, SleepLinked, WaitLinked, Sorted, TasksLinked;
  }

  // ------------------------------------------------------------------- sleep

  lemma SleepInsertLinked(threads: Table, q: seq<Tid>, t: Tid, th: Thread)
    requires SleepLinked(threads, q) && Sorted(threads, q) && 0 < t < |threads| && t !in q
    requires th.inSleep
    ensures SleepLinked(threads[t := th], SleepInsert(threads, q, t, th.wakeTick))
    ensures Sorted(threads[t := th], SleepInsert(threads, q, t, th.wakeTick))
  {
    InsertMembers(q, SleepIndex(threads, q, th.wakeTick), t);
    InsertStaysSorted(threads, q, t, th);
    hide SleepIndex;
  }

  lemma InsertMembers(q: seq<Tid>, i: nat, t: Tid)
    requires Distinct(q) && t !in q && i <= |q|
    ensures Distinct(q[..i] + [t] + q[i..])
    ensures forall x :: x in q[..i] + [t] + q[i..] <==> x in q || x == t
  {
    assert q == q[..i] + q[i..];
  }

  /** In a sorted queue the insert position separates the deadlines that are not later from the later ones. */
  lemma SleepIndexIff(threads: Table, q: seq<Tid>, wake: nat, j: nat)
    requires Sorted(threads, q) && j < |q|
    ensures j < SleepIndex(threads, q, wake) <==> WakeTick(threads, q[j]) <= wake
  {
    var i := SleepIndex(threads, q, wake);
    hide SleepIndex, WakeTick;
    if i < j {
      assert WakeTick(threads, q[i]) <= WakeTick(threads, q[j]);
    }
  }

  /** The insert keeps the queue sorted, and t goes behind exactly the sleepers whose deadline
      is not later than its own: ties keep arrival order. */
  lemma InsertSorted(threads: Table, q: seq<Tid>, t: Tid, th: Thread)
    requires Sorted(threads, q) && t < |threads| && t !in q
    ensures Sorted(threads[t := th], SleepInsert(threads, q, t, th.wakeTick))
    ensures var i := SleepIndex(threads, q, th.wakeTick);
      && SleepInsert(threads, q, t, th.wakeTick) == q[..i] + [t] + q[i..]
      && forall j :: 0 <= j < |q| ==> (j < i <==> WakeTick(threads, q[j]) <= th.wakeTick)
  {
    hide SleepIndex, WakeTick, Sorted;
    InsertStaysSorted(threads, q, t, th);
    forall j | 0 <= j < |q|
      ensures j < SleepIndex(threads, q, th.wakeTick) <==> WakeTick(threads, q[j]) <= th.wakeTick
    {
      SleepIndexIff(threads, q, th.wakeTick, j);
    }
  }

  lemma InsertStaysSorted(threads: Table, q: seq<Tid>, t: Tid, th: Thread)
    requires Sorted(threads, q) && t < |threads| && t !in q
    ensures Sorted(threads[t := th], SleepInsert(threads, q, t, th.wakeTick))
  {
    var i, r := SleepIndex(threads, q, th.wakeTick), SleepInsert(threads, q, t, th.wakeTick);
    var u := threads[t := th];
    assert forall j :: 0 <= j < |q| ==> WakeTick(u, q[j]) == WakeTick(threads, q[j]);
    hide SleepIndex;
    forall a, b | 0 <= a < b < |r| ensures WakeTick(u, r[a]) <= WakeTick(u, r[b]) {
      if b < i {
        assert r[a] == q[a] && r[b] == q[b];
      } else if b == i {
        assert r[a] == q[a] && r[b] == t;
      } else if a < i {
        assert r[a] == q[a] && r[b] == q[b - 1];
      } else {
        assert r[b] == q[b - 1];
        assert a > i ==> r[a] == q[a - 1];
        assert WakeTick(threads, q[i]) <= WakeTick(threads, q[b - 1]);
      }
    }
  }

  function Asleep(k: Kernel, f: Frame, ticks: nat): Thread
    requires HasCurrent(k)
  {
    k.threads[k.current.value].(frame := Some(f), quantum := 0, reason := Sleeping, result := WaitOk,
                                state := Blocked, wakeTick := Add64(k.now, ticks), inSleep := true)
  }

  function ParkAsleep(k: Kernel, f: Frame, ticks: nat): Kernel
    requires HasCurrent(k)
  {
    var c, th := k.current.value, Asleep(k, f, ticks);
    Set(k, c, th).(sleepers := SleepInsert(k.threads, k.sleepers, c, th.wakeTick))
  }

  /** The insert position does not depend on the record of a thread outside the queue. */
  lemma InsertSame(threads: Table, q: seq<Tid>, t: Tid, th: Thread, wake: nat)
    requires t < |threads| && t !in q
    ensures SleepInsert(threads[t := th], q, t, wake) == SleepInsert(threads, q, t, wake)
  {
    IndexUnique(threads[t := th], threads, q, wake);
  }

  lemma IndexUnique(a: Table, b: Table, q: seq<Tid>, wake: nat)
    requires forall i :: 0 <= i < |q| ==> WakeTick(a, q[i]) == WakeTick(b, q[i])
    ensures SleepIndex(a, q, wake) == SleepIndex(b, q, wake)
  {
    hide SleepIndex, WakeTick;
  }

  lemma ParkAsleepOk(k: Kernel, f: Frame, ticks: nat)
    requires Trapping(k, f)
    ensures SleepCurrent(k, f, ticks) == DispatchNext(ParkAsleep(k, f, ticks))
    ensures Parked(ParkAsleep(k, f, ticks))
  {
    CurrentFits(k);
    var c, th := k.current.value, Asleep(k, f, ticks);
    var half := th.(inSleep := false, wakeTick := k.threads[c].wakeTick);
    Room(k.sleepers, c, |k.threads|);
    InsertSame(k.threads, k.sleepers, c, half, th.wakeTick);
    assert k.threads[c := half][c := th] == k.threads[c := th];
    SleepInsertLinked(k.threads, k.sleepers, c, th);
    WaitFlagsKept(k, c, th);
    TasksSame(k.threads, k.tasks, c, th);
    hide Linked, ReadyLinked, SleepLinked, WaitLinked, Sorted, TasksLinked, SleepInsert;
  }

  // -------------------------------------------------------------------- wait

  function Waiter(k: Kernel, f: Frame, q: QueueId, ticks: nat): Thread
    requires HasCurrent(k)
  {
    var th := k.threads[k.current.value];
    th.(frame := Some(f), quantum := 0, result := WaitOk, state := Blocked,
        reason := if ticks == 0 then Waiting else TimedWaiting,
        inWait := true, queue := Some(q), inSleep := ticks != 0,
        wakeTick := if ticks == 0 then th.wakeTick else Add64(k.now, ticks))
  }

  function ParkWaiting(k: Kernel, f: Frame, q: QueueId, ticks: nat): Kernel
    requires HasCurrent(k) && q < |k.waits|
  {
    var c, th := k.current.value, Waiter(k, f, q, ticks);
    Set(k, c, th).(
      waits := k.waits[q := k.waits[q] + [c]],
      sleepers := if ticks == 0 then k.sleepers else SleepInsert(k.threads, k.sleepers, c, th.wakeTick))
  }

  lemma WaitAppend(threads: Table, waits: seq<seq<Tid>>, q: QueueId, t: Tid, th: Thread)
    requires WaitLinked(threads, waits) && q < |waits| && 0 < t < |threads|
    requires threads[t].queue.None? && th.queue == Some(q) && th.inWait
    ensures WaitLinked(threads[t := th], waits[q := waits[q] + [t]])
  {
    var after := waits[q := waits[q] + [t]];
    forall id | 0 <= id < |waits| ensures QueueLinked(threads[t := th], after[id], id) {
      assert QueueLinked(threads, waits[id], id);
    }
  }

  /** wait_enqueue followed, for a timed wait, by sleep_enqueue. */
  lemma BlockIsParkWaiting(k: Kernel, f: Frame, q: QueueId, ticks: nat)
    requires Trapping(k, f) && q < |k.waits|
    ensures BlockCurrent(k, f, q, ticks) == DispatchNext(ParkWaiting(k, f, q, ticks))
  {
    CurrentFits(k);
    var c, th := k.current.value, Waiter(k, f, q, ticks);
    assert QueueLinked(k.threads, k.waits[q], q);
    Room(k.waits[q], c, |k.threads|);
    Room(k.sleepers, c, |k.threads|);
    hide Sound;
    var t0 := th.(inSleep := false, wakeTick := k.threads[c].wakeTick, inWait := false, queue := None);
    var t1 := t0.(inWait := true, queue := Some(q));
    assert k.threads[c := t0][c := t1] == k.threads[c := t1];
    assert k.threads[c := t1][c := th] == k.threads[c := th];
    InsertSame(k.threads, k.sleepers, c, t1, th.wakeTick);
    hide SleepInsert;
    var k1 := Set(k, c, t1).(waits := k.waits[q := k.waits[q] + [c]]);
    assert WaitEnqueue(Set(k, c, t0), q, c) == Ok(k1);
  }

  lemma ParkWaitingLinked(k: Kernel, f: Frame, q: QueueId, ticks: nat)
    requires Trapping(k, f) && q < |k.waits|
    ensures Linked(ParkWaiting(k, f, q, ticks))
  {
    CurrentFits(k);
    var c, th := k.current.value, Waiter(k, f, q, ticks);
    WaitAppend(k.threads, k.waits, q, c, th);
    hide WaitLinked;
    if ticks == 0 {
      FlagsKept(k, c, th);
    } else {
      SleepInsertLinked(k.threads, k.sleepers, c, th);
      hide SleepLinked, Sorted, SleepInsert;
      assert ReadyLinked(k.threads[c := th], k.ready);
    }
  }

  lemma ParkWaitingOk(k: Kernel, f: Frame, q: QueueId, ticks: nat)
    requires Trapping(k, f) && q < |k.waits|
    ensures Parked(ParkWaiting(k, f, q, ticks))
  {
    CurrentFits(k);
    ParkWaitingLinked(k, f, q, ticks);
    TasksSame(k.threads, k.tasks, k.current.value, Waiter(k, f, q, ticks));
    hide Linked, TasksLinked, SleepInsert;
  }

  // --------------------------------------------------------------- null, exit

  function ParkNull(k: Kernel, f: Frame): Kernel
    requires |k.threads| > 0
  {
    Set(k, 0, k.threads[0].(frame := Some(f), state := Ready))
  }

  lemma ParkNullOk(k: Kernel, f: Frame)
    requires Sound(k) && k.started && k.current == Some(0) && k.ready != []
    requires f.place == KernelStack(0)
    ensures Parked(ParkNull(k, f))
    ensures SwitchFromNull(k, f) == DispatchNext(ParkNull(k, f))
  {
    CurrentFits(k);
    var th := k.threads[0].(frame := Some(f), state := Ready);
    LinksKept(k, 0, th);
    TasksSame(k.threads, k.tasks, 0, th);
    DispatchNextIsDispatched(ParkNull(k, f));
    NextFits(ParkNull(k, f));
    hide Linked, TasksLinked;
  }

  function ParkExited(k: Kernel): Kernel
    requires HasCurrent(k)
  {
    var c := k.current.value;
    var task := k.threads[c].task;
    Set(k, c, Retired(k.threads[c])).(
      tasks := if task.Some? then k.tasks[task.value := TaskExited] else k.tasks)
  }

  lemma RetireTasks(threads: Table, tasks: map<TaskId, TaskState>, t: Tid, s: TaskState)
    requires TasksLinked(threads, tasks) && t < |threads|
    ensures TasksLinked(threads[t := Retired(threads[t])],
                        if threads[t].task.Some? then tasks[threads[t].task.value := s] else tasks)
  {
    var after := threads[t := Retired(threads[t])];
    forall u | 0 <= u < |threads| && after[u].task.Some?
      ensures u != t && after[u].task != threads[t].task
    {
    }
  }

  lemma ParkExitedOk(k: Kernel, f: Frame)
    requires Trapping(k, f)
    requires k.threads[k.current.value].task.Some? ==> f.user
    ensures Parked(ParkExited(k))
    ensures var task := k.threads[k.current.value].task; var o := DispatchNext(ParkExited(k));
      o.Ok? ==> SwitchExit(k, f) == Ok(
        if task.Some? then o.value.(tasks := o.value.tasks[task.value := TaskDestroyed]) else o.value)
  {
    CurrentFits(k);
    var c := k.current.value;
    var th := Retired(k.threads[c]);
    RetireTasks(k.threads, k.tasks, c, TaskExited);
    ExitLinked(k, c, th);
    hide Linked;
  }

  lemma ExitLinked(k: Kernel, t: Tid, th: Thread)
    requires Linked(k) && t < |k.threads| && t !in k.sleepers
    requires !k.threads[t].inReady && !k.threads[t].inSleep && k.threads[t].queue.None?
    requires !th.inReady && !th.inSleep && !th.inWait && th.queue.None?
    ensures Linked(Set(k, t, th))
  {
    WaitFlagsKept(k, t, th);
    assert forall i :: 0 <= i < |k.sleepers| ==> k.sleepers[i] in k.sleepers;
  }
}
