/** The scheduler as the source runs it: a thread table, rings and a sorted array updated in
    place.  The ghost field st is the state of module Scheduler the heap stands for; every
    method takes it exactly where the function of the same name takes it.  A PANIC in the
    source is an assert false here, so a verified method never reaches one. */
module KernelMachine {
  import opened SeqTools
  import opened TaskStates
  import opened Scheduler
  import opened RingQueue
  import opened SleepArray
  import opened SchedulerInvariant
  import opened Switches
  import opened SchedulerRuns

  class Machine {
    const threads: array<Thread>
    const ready: TidRing
    const sleepers: SleepQueue
    const waits: seq<TidRing>
    var current: Option<Tid>
    var started: bool
    var resched: bool
    var now: nat
    var tasks: map<TaskId, TaskState>

    ghost var st: Kernel
    ghost const Repr: set<object>

    /** All queues are separate objects with one slot per real thread. */
    ghost predicate Layout() {
      && {this, threads, ready, ready.tids, sleepers, sleepers.tids} <= Repr
      && threads.Length >= 2 && ready.tids.Length == sleepers.tids.Length == threads.Length - 1
      && ready.tids != sleepers.tids
      && (forall i :: 0 <= i < |waits| ==>
            && waits[i] in Repr && waits[i].tids in Repr && waits[i].tids.Length == threads.Length - 1
            && waits[i] != ready && waits[i].tids != ready.tids && waits[i].tids != sleepers.tids)
      && (forall i, j :: 0 <= i < j < |waits| ==> waits[i] != waits[j] && waits[i].tids != waits[j].tids)
    }

    ghost predicate ScalarsAgree()
      reads this
    {
      && st.current == current && st.started == started && st.resched == resched
      && st.now == now && st.tasks == tasks
    }

    ghost predicate WaitsAgree()
      requires Layout()
      reads Repr
    {
      && |st.waits| == |waits|
      && forall i :: 0 <= i < |waits| ==> waits[i].Valid() && waits[i].Contents() == st.waits[i]
    }

    ghost predicate Valid()
      reads Repr
    {
      && Layout() && ScalarsAgree() && WaitsAgree()
      && threads[..] == st.threads
      && ready.Valid() && ready.Contents() == st.ready
      && sleepers.Valid() && sleepers.Contents() == st.sleepers
      && (forall i :: 0 <= i < |st.sleepers| ==> st.sleepers[i] < threads.Length)
    }

    /** thread_init, with the kernel's wait queues initialised empty */
    constructor (n: nat, queues: nat)
      requires n >= 2
      ensures Valid() && fresh(Repr) && threads.Length == n && |waits| == queues
      ensures st == Initial(n).(waits := seq(queues, _ => []))
    {
      var table := new Thread[n](t => InitialThread(t));
      var r := new TidRing(n - 1);
      var s := new SleepQueue(n - 1);
      var qs, repr := NewQueues(n - 1, queues);
      threads, ready, sleepers, waits := table, r, s, qs;
      current, started, resched, now, tasks := None, false, false, 0, map[];
      st := Initial(n).(waits := seq(queues, _ => []));
      Repr := repr + {this, table, r, r.tids, s, s.tids};
    }

    static method NewQueues(slots: nat, queues: nat) returns (qs: seq<TidRing>, ghost repr: set<object>)
      requires slots > 0
      ensures |qs| == queues && fresh(repr)
      ensures forall i :: 0 <= i < |qs| ==>
        && qs[i] in repr && qs[i].tids in repr && qs[i].tids.Length == slots
        && qs[i].Valid() && qs[i].Contents() == []
      ensures forall i, j :: 0 <= i < j < |qs| ==> qs[i] != qs[j] && qs[i].tids != qs[j].tids
    {
      qs, repr := [], {};
      while |qs| < queues
        invariant |qs| <= queues && fresh(repr)
        invariant forall i :: 0 <= i < |qs| ==>
          && qs[i] in repr && qs[i].tids in repr && qs[i].tids.Length == slots
          && qs[i].Valid() && qs[i].Contents() == []
        invariant forall i, j :: 0 <= i < j < |qs| ==> qs[i] != qs[j] && qs[i].tids != qs[j].tids
      {
        var q := new TidRing(slots);
        qs := qs + [q];
        repr := repr + {q, q.tids};
      }
    }

    // ------------------------------------------------------------- queues

    /** Write one record of the thread table. */
    method Store(t: Tid, th: Thread)
      requires Valid() && t < threads.Length
      modifies Repr
      ensures Valid() && st == Set(old(st), t, th)
    {
      threads[t] := th;
      st := Set(st, t, th);
    }

    method SetCurrent(t: Tid)
      requires Valid()
      modifies Repr
      ensures Valid() && st == old(st).(current := Some(t), resched := false)
    {
      current, resched := Some(t), false;
      st := st.(current := Some(t), resched := false);
    }

    method SetTask(task: TaskId, s: TaskState)
      requires Valid()
      modifies Repr
      ensures Valid() && st == old(st).(tasks := old(st).tasks[task := s])
    {
      tasks := tasks[task := s];
      st := st.(tasks := tasks);
    }

    method ReadyEnqueue(t: Tid)
      requires Valid() && Scheduler.ReadyEnqueue(st, t).Ok?
      modifies Repr
      ensures Valid() && Scheduler.ReadyEnqueue(old(st), t) == Ok(st)
    {
      if t == 0 || t >= threads.Length { assert false; }
      var th := threads[t];
      if th.state != Ready || th.inReady || th.inSleep || th.inWait { assert false; }
      var ok := ready.Push(t);
      if !ok { assert false; }
      threads[t] := th.(inReady := true);
      st := Set(st, t, th.(inReady := true)).(ready := st.ready + [t]);
    }

    /** ready_dequeue and pick_next_thread */
    method PickNext() returns (t: Tid)
      requires Valid() && Scheduler.PickNext(st).Ok?
      modifies Repr
      ensures Valid() && Scheduler.PickNext(old(st)) == Ok((st, t))
    {
      var head := ready.Pop();
      if head.None? {
        return 0;
      }
      t := head.value;
      if t == 0 || t >= threads.Length { assert false; }
      var th := threads[t];
      if th.state != Ready || !th.inReady { assert false; }
      threads[t] := th.(inReady := false);
      st := Set(st, t, th.(inReady := false)).(ready := st.ready[1..]);
    }

    method SleepEnqueue(t: Tid, wake: nat)
      requires Valid() && Scheduler.SleepEnqueue(st, t, wake).Ok? && t !in st.sleepers
      modifies Repr
      ensures Valid() && Scheduler.SleepEnqueue(old(st), t, wake) == Ok(st)
    {
      if t == 0 || t >= threads.Length { assert false; }
      var th := threads[t];
      if th.state != Blocked || th.inReady || th.inSleep ||
         (th.reason != Sleeping && th.reason != TimedWaiting) { assert false; }
      ghost var before := threads[..];
      threads[t] := th.(wakeTick := wake);
      if sleepers.count == sleepers.tids.Length { assert false; }
      InsertIgnores(before, st.sleepers, t, th.(wakeTick := wake), wake);
      sleepers.Insert(threads, t);
      threads[t] := th.(wakeTick := wake, inSleep := true);
      st := Scheduler.SleepEnqueue(st, t, wake).value;
      InsertBounded(before, old(st).sleepers, t, wake);
    }

    method WaitEnqueue(q: QueueId, t: Tid)
      requires Valid() && q < |waits| && Scheduler.WaitEnqueue(st, q, t).Ok?
      modifies Repr
      ensures Valid() && Scheduler.WaitEnqueue(old(st), q, t) == Ok(st)
    {
      if t == 0 || t >= threads.Length { assert false; }
      var th := threads[t];
      if th.state != Blocked || th.inReady || th.inWait ||
         (th.reason != Waiting && th.reason != TimedWaiting) || th.queue.Some? { assert false; }
      var ok := waits[q].Push(t);
      if !ok { assert false; }
      threads[t] := th.(inWait := true, queue := Some(q));
      st := Scheduler.WaitEnqueue(st, q, t).value;
    }

    method WaitDequeue(q: QueueId) returns (t: Option<Tid>)
      requires Valid() && q < |waits| && Scheduler.WaitDequeue(st, q).Ok?
      modifies Repr
      ensures Valid() && Scheduler.WaitDequeue(old(st), q) == Ok((st, t))
    {
      t := waits[q].Pop();
      if t.None? {
        return;
      }
      if t.value == 0 || t.value >= threads.Length { assert false; }
      var th := threads[t.value];
      if th.state != Blocked || !th.inWait || th.queue != Some(q) { assert false; }
      threads[t.value] := th.(inWait := false, queue := None);
      st := Scheduler.WaitDequeue(st, q).value.0;
    }

    method WaitRemove(t: Tid)
      requires Valid() && t < threads.Length && Scheduler.WaitRemove(st, t).Ok?
      modifies Repr
      ensures Valid() && Scheduler.WaitRemove(old(st), t) == Ok(st)
    {
      var th := threads[t];
      if th.queue.None? || !th.inWait { assert false; }
      var q := th.queue.value;
      var ok := waits[q].Remove(t);
      if !ok { assert false; }
      threads[t] := th.(inWait := false, queue := None);
      st := Scheduler.WaitRemove(st, t).value;
    }

    method TimeoutRemove(t: Tid)
      requires Valid() && t < threads.Length && Scheduler.TimeoutRemove(st, t).Ok?
      modifies Repr
      ensures Valid() && Scheduler.TimeoutRemove(old(st), t) == Ok(st)
    {
      var th := threads[t];
      if !th.inSleep { assert false; }
      ghost var before := st.sleepers;
      var ok := sleepers.Remove(t);
      if !ok { assert false; }
      threads[t] := th.(inSleep := false, wakeTick := 0);
      st := Scheduler.TimeoutRemove(st, t).value;
      WithoutBounded(before, t, threads.Length);
    }

    // -------------------------------------------------------------- wakes

    method WakeBlocked(t: Tid, r: WaitResult)
      requires Valid() && t < threads.Length && Scheduler.WakeBlocked(st, t, r).Ok?
      modifies Repr
      ensures Valid() && Scheduler.WakeBlocked(old(st), t, r) == Ok(st)
    {
      if threads[t].state != Blocked || threads[t].inReady { assert false; }
      if threads[t].inSleep { TimeoutRemove(t); }
      if threads[t].inWait { WaitRemove(t); }
      var th := threads[t];
      Store(t, th.(reason := NoWait, wakeTick := 0, result := r, frame := WithResult(th.frame, r), state := Ready));
      ReadyEnqueue(t);
    }

    method SleepDequeueExpired() returns (t: Option<Tid>)
      requires Valid() && Scheduler.SleepDequeueExpired(st).Ok?
      modifies Repr
      ensures Valid() && Scheduler.SleepDequeueExpired(old(st)) == Ok((st, t))
    {
      if sleepers.count == 0 {
        return None;
      }
      var th := threads[sleepers.tids[0]];
      if th.state != Blocked || !th.inSleep || (th.reason != Sleeping && th.reason != TimedWaiting) { assert false; }
      if th.wakeTick > now {
        return None;
      }
      t := sleepers.PopHead();
      threads[t.value] := th.(inSleep := false);
      st := Scheduler.SleepDequeueExpired(st).value.0;
    }

    method WakeExpired(t: Tid)
      requires Valid() && t < threads.Length && Scheduler.WakeExpired(st, t).Ok?
      modifies Repr
      ensures Valid() && Scheduler.WakeExpired(old(st), t) == Ok(st)
    {
      var th := threads[t];
      if th.reason == TimedWaiting {
        if !th.inWait { assert false; }
        WaitRemove(t);
        WakeBlocked(t, WaitTimeout);
      } else if th.reason == Sleeping {
        Store(t, th.(wakeTick := 0));
        WakeBlocked(t, WaitOk);
      } else {
        assert false;
      }
    }

    method WakeSleepers()
      requires Valid() && Scheduler.WakeSleepers(st).Ok?
      modifies Repr
      ensures Valid() && Scheduler.WakeSleepers(old(st)) == Ok(st)
    {
      hide Scheduler.SleepDequeueExpired, Scheduler.WakeExpired;
      while true
        invariant Valid() && Scheduler.WakeSleepers(st) == Scheduler.WakeSleepers(old(st))
        decreases |st.sleepers|
      {
        var head := SleepDequeueExpired();
        if head.None? {
          return;
        }
        WakeExpired(head.value);
      }
    }

    /** wait_queue_wake_one */
    method WakeOne(q: QueueId) returns (t: Option<Tid>)
      requires Valid() && q < |waits| && Scheduler.WakeOne(st, q).Ok?
      modifies Repr
      ensures Valid() && Scheduler.WakeOne(old(st), q) == Ok((st, t))
    {
      hide Scheduler.WaitDequeue, Scheduler.WakeBlocked;
      t := WaitDequeue(q);
      if t.Some? {
        WakeBlocked(t.value, WaitOk);
      }
    }

    /** wait_queue_wake_all */
    method WakeAll(q: QueueId)
      requires Valid() && q < |waits| && Scheduler.WakeAll(st, q).Ok?
      modifies Repr
      ensures Valid() && Scheduler.WakeAll(old(st), q) == Ok(st)
    {
      hide Scheduler.WakeOne;
      while true
        invariant Valid() && Scheduler.WakeAll(st, q) == Scheduler.WakeAll(old(st), q)
        decreases |st.waits[q]|
      {
        var head := WakeOne(q);
        if head.None? {
          return;
        }
      }
    }

    // ----------------------------------------------------------- switches

    method DispatchNext()
      requires Valid() && Scheduler.DispatchNext(st).Ok?
      modifies Repr
      ensures Valid() && Scheduler.DispatchNext(old(st)) == Ok(st)
    {
      hide Scheduler.PickNext;
      var t := PickNext();
      if threads[t].frame.None? { assert false; }
      Store(t, threads[t].(state := Running, quantum := 0));
      SetCurrent(t);
    }

    method SwitchRequeue(f: Frame)
      requires Valid() && HasCurrent(st) && Scheduler.SwitchRequeue(st, f).Ok?
      modifies Repr
      ensures Valid() && Scheduler.SwitchRequeue(old(st), f) == Ok(st)
    {
      hide Scheduler.ReadyEnqueue, Scheduler.DispatchNext;
      var c := current.value;
      if threads[c].state != Running || c == 0 { assert false; }
      Store(c, threads[c].(frame := Some(f), state := Ready));
      ReadyEnqueue(c);
      DispatchNext();
    }

    method SwitchExit(f: Frame)
      requires Valid() && HasCurrent(st) && Scheduler.SwitchExit(st, f).Ok?
      modifies Repr
      ensures Valid() && Scheduler.SwitchExit(old(st), f) == Ok(st)
    {
      hide Scheduler.DispatchNext;
      var c := current.value;
      var task := threads[c].task;
      if threads[c].state != Running || c == 0 { assert false; }
      if task.Some? && (!f.user || task.value !in tasks || tasks[task.value] != TaskReady) { assert false; }
      Store(c, Retired(threads[c]));
      if task.Some? {
        SetTask(task.value, TaskExited);
      }
      DispatchNext();
      if task.Some? {
        SetTask(task.value, TaskDestroyed);
      }
    }

    method SwitchFromNull(f: Frame)
      requires Valid() && HasCurrent(st) && Scheduler.SwitchFromNull(st, f).Ok?
      modifies Repr
      ensures Valid() && Scheduler.SwitchFromNull(old(st), f) == Ok(st)
    {
      hide Scheduler.DispatchNext;
      if current.value != 0 || threads[0].state != Running { assert false; }
      Store(0, threads[0].(frame := Some(f), state := Ready));
      DispatchNext();
      if current == Some(0) { assert false; }
    }

    method SleepCurrent(f: Frame, ticks: nat)
      requires Valid() && HasCurrent(st) && Scheduler.SleepCurrent(st, f, ticks).Ok?
      requires st.current.value !in st.sleepers
      modifies Repr
      ensures Valid() && Scheduler.SleepCurrent(old(st), f, ticks) == Ok(st)
    {
      hide Scheduler.SleepEnqueue, Scheduler.DispatchNext;
      var c := current.value;
      if threads[c].state != Running || c == 0 { assert false; }
      Store(c, threads[c].(frame := Some(f), quantum := 0, reason := Sleeping, result := WaitOk, state := Blocked));
      SleepEnqueue(c, Add64(now, ticks));
      DispatchNext();
    }

    method BlockCurrent(f: Frame, q: QueueId, ticks: nat)
      requires Valid() && HasCurrent(st) && q < |waits| && Scheduler.BlockCurrent(st, f, q, ticks).Ok?
      requires st.current.value !in st.sleepers
      modifies Repr
      ensures Valid() && Scheduler.BlockCurrent(old(st), f, q, ticks) == Ok(st)
    {
      var c := current.value;
      if threads[c].state != Running || c == 0 { assert false; }
      Store(c, threads[c].(frame := Some(f), quantum := 0, result := WaitOk, state := Blocked,
                           reason := if ticks == 0 then Waiting else TimedWaiting));
      WaitEnqueue(q, c);
      hide Scheduler.SleepEnqueue, Scheduler.DispatchNext;
      if ticks != 0 {
        SleepEnqueue(c, Add64(now, ticks));
      }
      DispatchNext();
    }

    // ------------------------------------------------------- entry points

    /** thread_current_tid */
    method CurrentTid() returns (t: Tid)
      requires Valid() && HasCurrent(st)
      ensures st.current == Some(t)
    {
      t := current.value;
    }

    /** the word a resumed thread finds in a0 */
    method SavedWord(t: Tid) returns (a0: nat)
      requires Valid() && t < |st.threads| && st.threads[t].frame.Some?
      ensures a0 == st.threads[t].frame.value.a0
    {
      a0 := threads[t].frame.value.a0;
    }

    /** thread_yield_current_from_trap */
    method Yield(f: Frame)
      requires Valid() && Inv(st) && Legal(st, OpYield(f))
      modifies Repr
      ensures Valid() && Inv(st) && Scheduler.Yield(old(st), f) == Ok(st)
    {
      StepSafe(st, OpYield(f));
      hide Inv, Scheduler.SwitchFromNull, Scheduler.SwitchRequeue;
      if !started {
        return;
      }
      if ready.count == 0 {
        Store(current.value, threads[current.value].(quantum := 0));
      } else if current == Some(0) {
        SwitchFromNull(f);
      } else {
        SwitchRequeue(f);
      }
    }

    /** thread_sleep_current_from_trap */
    method Sleep(f: Frame, ticks: nat)
      requires Valid() && Inv(st) && Legal(st, OpSleep(f, ticks))
      modifies Repr
      ensures Valid() && Inv(st) && SleepFor(old(st), f, ticks) == Ok(st)
    {
      StepSafe(st, OpSleep(f, ticks));
      CurrentNotQueued(st);
      if !started {
        return;
      }
      if current.value == 0 { assert false; }
      hide Inv, Scheduler.SleepCurrent, Scheduler.Yield;
      if ticks == 0 {
        Yield(f);
      } else {
        SleepCurrent(f, ticks);
      }
    }

    /** the wait control trap */
    method Wait(f: Frame, q: QueueId)
      requires Valid() && Inv(st) && Legal(st, OpWait(f, q))
      modifies Repr
      ensures Valid() && Inv(st) && Scheduler.Wait(old(st), f, q) == Ok(st)
    {
      StepSafe(st, OpWait(f, q));
      CurrentNotQueued(st);
      if !started {
        return;
      }
      if current.value == 0 { assert false; }
      hide Inv, Scheduler.BlockCurrent;
      BlockCurrent(f, q, 0);
    }

    /** the timed-wait control trap; the result is what the caller sees at once, None if it
        blocked and will find its result in its frame when it runs again */
    method WaitFor(f: Frame, q: QueueId, ticks: nat) returns (r: Option<WaitResult>)
      requires Valid() && Inv(st) && Legal(st, OpWaitFor(f, q, ticks))
      modifies Repr
      ensures Valid() && Inv(st) && Scheduler.WaitFor(old(st), f, q, ticks) == Ok(st)
      ensures r == if old(st).started && ticks != 0 then None else Some(WaitTimeout)
    {
      StepSafe(st, OpWaitFor(f, q, ticks));
      CurrentNotQueued(st);
      if !started {
        return Some(WaitTimeout);
      }
      if current.value == 0 { assert false; }
      hide Inv, Scheduler.BlockCurrent;
      if ticks == 0 {
        return Some(WaitTimeout);
      }
      BlockCurrent(f, q, ticks);
      return None;
    }

    /** thread_exit_current_from_trap */
    method Exit(f: Frame)
      requires Valid() && Inv(st) && Legal(st, OpExit(f))
      modifies Repr
      ensures Valid() && Inv(st) && Scheduler.Exit(old(st), f) == Ok(st)
    {
      StepSafe(st, OpExit(f));
      hide Inv, Scheduler.SwitchExit;
      if started {
        SwitchExit(f);
      }
    }

    /** wait_queue_wake_one as called by an event source */
    method Notify(q: QueueId) returns (t: Option<Tid>)
      requires Valid() && Inv(st) && q < |waits|
      modifies Repr
      ensures Valid() && Inv(st) && Scheduler.WakeOne(old(st), q) == Ok((st, t))
    {
      StepSafe(st, OpWakeOne(q));
      hide Inv, Scheduler.WakeOne;
      t := WakeOne(q);
    }

    /** wait_queue_wake_all as called by an event source */
    method NotifyAll(q: QueueId)
      requires Valid() && Inv(st) && q < |waits|
      modifies Repr
      ensures Valid() && Inv(st) && Scheduler.WakeAll(old(st), q) == Ok(st)
    {
      StepSafe(st, OpWakeAll(q));
      hide Inv, Scheduler.WakeAll;
      WakeAll(q);
    }

    method Charge()
      requires Valid() && HasCurrent(st)
      modifies Repr
      ensures Valid() && st == ChargeQuantum(old(st))
    {
      var c := current.value;
      var th := threads[c];
      if c == 0 || th.state != Running {
        return;
      }
      var n := if th.quantum < QUANTUM then th.quantum + 1 else th.quantum;
      Store(c, th.(quantum := n));
      SetPending(resched || n >= QUANTUM);
    }

    method SetPending(pending: bool)
      requires Valid()
      modifies Repr
      ensures Valid() && st == old(st).(resched := pending)
    {
      resched := pending;
      st := st.(resched := pending);
    }

    /** thread_maybe_preempt_from_trap */
    method MaybePreempt(f: Frame)
      requires Valid() && HasCurrent(st) && Scheduler.MaybePreempt(st, f).Ok?
      modifies Repr
      ensures Valid() && Scheduler.MaybePreempt(old(st), f) == Ok(st)
    {
      hide Scheduler.SwitchRequeue;
      var c := current.value;
      if !resched {
        return;
      }
      if ready.count == 0 || c == 0 || threads[c].state != Running {
        if ready.count == 0 && c != 0 {
          Store(c, threads[c].(quantum := 0));
          SetPending(false);
        }
        return;
      }
      SwitchRequeue(f);
    }

    method Advance()
      requires Valid()
      modifies Repr
      ensures Valid() && st == old(st).(now := Add64(old(st).now, 1))
    {
      now := Add64(now, 1);
      st := st.(now := now);
    }

    /** the timer interrupt */
    method Tick(f: Frame)
      requires Valid() && Inv(st) && Legal(st, OpTick(f))
      modifies Repr
      ensures Valid() && Inv(st) && Scheduler.Tick(old(st), f) == Ok(st)
    {
      StepSafe(st, OpTick(f));
      hide Inv, Scheduler.WakeSleepers, Scheduler.MaybePreempt, ChargeQuantum;
      Advance();
      if started {
        WakeSleepers();
        Charge();
        MaybePreempt(f);
      }
    }

    method FindSlot() returns (t: Option<Tid>)
      requires Valid()
      ensures t == FreeSlot(st.threads, 1)
    {
      var i := 1;
      while i < threads.Length
        invariant 1 <= i <= threads.Length && FreeSlot(st.threads, 1) == FreeSlot(st.threads, i)
      {
        if threads[i].state == Unused || threads[i].state == Exited {
          return Some(i);
        }
        i := i + 1;
      }
      return None;
    }

    /** thread_create */
    method Create() returns (t: Option<Tid>)
      requires Valid() && Inv(st)
      modifies Repr
      ensures Valid() && Inv(st) && Scheduler.Create(old(st)) == Ok((st, t))
    {
      StepSafe(st, OpCreate);
      hide Inv, Scheduler.ReadyEnqueue, FreeSlot;
      t := FindSlot();
      if t.Some? {
        Store(t.value, Fresh(Frame(KernelStack(t.value), false, 0), None));
        ReadyEnqueue(t.value);
      }
    }

    /** thread_create_user */
    method CreateUser(task: TaskId) returns (t: Option<Tid>)
      requires Valid() && Inv(st) && Legal(st, OpCreateUser(task))
      modifies Repr
      ensures Valid() && Inv(st) && Scheduler.CreateUser(old(st), task) == Ok((st, t))
    {
      StepSafe(st, OpCreateUser(task));
      hide Inv, Scheduler.ReadyEnqueue, FreeSlot;
      if task !in tasks || tasks[task] != TaskReady {
        return None;
      }
      t := FindSlot();
      if t.Some? {
        Store(t.value, Fresh(Frame(TaskContext(task), true, 0), Some(task)));
        ReadyEnqueue(t.value);
      }
    }

    /** thread_start */
    method Start()
      requires Valid() && Inv(st) && !st.started
      modifies Repr
      ensures Valid() && Inv(st) && Scheduler.Start(old(st)) == Ok(st)
    {
      StepSafe(st, OpStart);
      StartQuiet(st);
      hide Inv, Scheduler.PickNext;
      if started { assert false; }
      var t := PickNext();
      Store(t, threads[t].(state := Running, quantum := 0));
      SetCurrent(t);
      SetStarted();
    }

    method SetStarted()
      requires Valid()
      modifies Repr
      ensures Valid() && st == old(st).(started := true)
    {
      started := true;
      st := st.(started := true);
    }
  }

  lemma CurrentNotQueued(k: Kernel)
    requires Inv(k)
    ensures k.started ==> HasCurrent(k) && k.current.value !in k.sleepers
  {
    if k.started { CurrentFits(k); }
  }

  lemma StartQuiet(k: Kernel)
    requires Inv(k)
    ensures !k.resched
  {
  }

  lemma InsertIgnores(threads: seq<Thread>, q: seq<Tid>, t: Tid, th: Thread, wake: nat)
    requires t < |threads| && t !in q
    ensures SleepInsert(threads[t := th], q, t, wake) == SleepInsert(threads, q, t, wake)
  {
    IndexIs(threads[t := th], q, wake, SleepIndex(threads, q, wake));
  }

  lemma InsertBounded(threads: seq<Thread>, q: seq<Tid>, t: Tid, wake: nat)
    requires t < |threads| && forall i :: 0 <= i < |q| ==> q[i] < |threads|
    ensures forall i :: 0 <= i <= |q| ==> SleepInsert(threads, q, t, wake)[i] < |threads|
    ensures |SleepInsert(threads, q, t, wake)| == |q| + 1
  {
  }

  lemma WithoutBounded(q: seq<Tid>, t: Tid, n: nat)
    requires forall i :: 0 <= i < |q| ==> q[i] < n
    ensures forall i :: 0 <= i < |Without(q, t)| ==> Without(q, t)[i] < n
  {
  }
}
