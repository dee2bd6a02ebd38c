/** The three wake paths of kernel/core/thread.c reduced to Wake, and what a whole
    timer tick or a broadcast does to the table and to every queue. */
module Wakeups {
  import opened SeqTools
  import opened Scheduler
  import opened SchedulerInvariant

  lemma QueueHead(k: Kernel, q: QueueId)
    requires Linked(k) && Fits(k) && q < |k.waits| && k.waits[q] != []
    ensures 0 < k.waits[q][0] < |k.threads|
    ensures k.threads[k.waits[q][0]].state == Blocked
    ensures k.threads[k.waits[q][0]].queue == Some(q) && k.threads[k.waits[q][0]].inWait
  {
    var t := k.waits[q][0];
    assert QueueLinked(k.threads, k.waits[q], q) && t in k.waits[q];
    assert Fit(k.threads[t], t == 0);
  }

  /** wait_queue_wake_one wakes the oldest waiter with WAIT_OK and cancels its deadline. */
  lemma WakeOneIsWake(k: Kernel, q: QueueId)
    requires Linked(k) && Fits(k) && q < |k.waits|
    ensures k.waits[q] == [] ==> WakeOne(k, q) == Ok((k, None))
    ensures k.waits[q] != [] ==>
      && k.waits[q][0] < |k.threads|
      && WakeOne(k, q) == Ok((Wake(k, k.waits[q][0], WaitOk), Some(k.waits[q][0])))
  {
    if k.waits[q] != [] {
      QueueHead(k, q);
      var t := k.waits[q][0];
      var th := k.threads[t].(inWait := false, queue := None);
      var k1 := Set(k, t, th).(waits := k.waits[q := k.waits[q][1..]]);
      assert WaitDequeue(k, q) == Ok((k1, Some(t)));
      WithoutHead(k.waits[q]);
      assert k1.waits == Dropped(k, t);
      WaitDrop(k, t, th);
      FlagsKept(k, t, th);
      WakeBlockedIsWake(k1, t, WaitOk);
      WakeAfterDrop(k, k1, t, WaitOk);
    }
  }

  /** A record change that leaves the ready and sleep flags and the deadline alone. */
  lemma FlagsKept(k: Kernel, t: Tid, th: Thread)
    requires ReadyLinked(k.threads, k.ready) && SleepLinked(k.threads, k.sleepers)
    requires Sorted(k.threads, k.sleepers) && t < |k.threads|
    requires th.inReady == k.threads[t].inReady && th.inSleep == k.threads[t].inSleep
    requires th.wakeTick == k.threads[t].wakeTick
    ensures ReadyLinked(k.threads[t := th], k.ready)
    ensures SleepLinked(k.threads[t := th], k.sleepers)
    ensures Sorted(k.threads[t := th], k.sleepers)
  {
    assert forall x :: WakeTick(k.threads[t := th], x) == WakeTick(k.threads, x);
  }

  lemma WakeAfterDrop(k: Kernel, k1: Kernel, t: Tid, r: WaitResult)
    requires t < |k.threads|
    requires k1 == Set(k, t, k.threads[t].(inWait := false, queue := None)).(waits := Dropped(k, t))
    ensures Wake(k1, t, r) == Wake(k, t, r)
  {
    assert k1.threads[t := Woken(k1.threads[t], r)] == k.threads[t := Woken(k.threads[t], r)];
  }

  // ----------------------------------------------------------- wake causes

  /** Who ends a wait: an event on the queue, or the timer. */
  datatype Cause = Event | Timer

  function ResultOf(th: Thread, c: Cause): WaitResult {
    if c == Timer && th.reason == TimedWaiting then WaitTimeout else WaitOk
  }

  ghost predicate InTable(k: Kernel, ts: seq<Tid>) {
    forall i :: 0 <= i < |ts| ==> ts[i] < |k.threads|
  }

  /** Wake the listed threads in order. */
  ghost function WakeList(k: Kernel, ts: seq<Tid>, c: Cause): Kernel
    requires InTable(k, ts)
    decreases |ts|
  {
    if ts == [] then k
    else WakeList(Wake(k, ts[0], ResultOf(k.threads[ts[0]], c)), ts[1..], c)
  }

  /** From k to k1 the threads ts were woken in order: their records and the ready tail
      changed, they left their queues, and nothing else happened. */
  ghost predicate Woke(k: Kernel, k1: Kernel, ts: seq<Tid>, c: Cause) {
    && |k1.threads| == |k.threads| && |k1.waits| == |k.waits|
    && k1 == k.(threads := k1.threads, ready := k.ready + ts, sleepers := k1.sleepers, waits := k1.waits)
    && forall x :: 0 <= x < |k.threads| ==>
         k1.threads[x] == if x in ts then Woken(k.threads[x], ResultOf(k.threads[x], c)) else k.threads[x]
  }

  lemma {:induction false} WakeListEffect(k: Kernel, ts: seq<Tid>, c: Cause)
    requires InTable(k, ts) && Distinct(ts)
    ensures Woke(k, WakeList(k, ts, c), ts, c)
    decreases |ts|
  {
    if ts != [] {
      var t := ts[0];
      var k1 := Wake(k, t, ResultOf(k.threads[t], c));
      assert t !in ts[1..];
      WakeListEffect(k1, ts[1..], c);
      assert k.ready + [t] + ts[1..] == k.ready + ts;
      assert forall x :: x in ts <==> x == t || x in ts[1..];
    } else {
      assert k.ready + ts == k.ready;
    }
  }

  // ------------------------------------------------------------- broadcast

  lemma QueueInTable(k: Kernel, q: QueueId)
    requires Linked(k) && q < |k.waits|
    ensures InTable(k, k.waits[q]) && Distinct(k.waits[q])
  {
    assert QueueLinked(k.threads, k.waits[q], q);
    assert forall i :: 0 <= i < |k.waits[q]| ==> k.waits[q][i] in k.waits[q];
  }

  lemma {:induction false} WakeAllIsWakeList(k: Kernel, q: QueueId)
    requires Sound(k) && q < |k.waits|
    ensures InTable(k, k.waits[q]) && Distinct(k.waits[q])
    ensures WakeAll(k, q) == Ok(WakeList(k, k.waits[q], Event))
    ensures Sound(WakeList(k, k.waits[q], Event))
    decreases |k.waits[q]|
  {
    QueueInTable(k, q);
    hide Linked, Fits, OneRunning, TasksLinked, InTable;
    WakeOneIsWake(k, q);
    if k.waits[q] != [] {
      QueueHead(k, q);
      var t := k.waits[q][0];
      WakeSound(k, t, WaitOk);
      WithoutHead(k.waits[q]);
      WakeAllIsWakeList(Wake(k, t, WaitOk), q);
    }
  }

  // ------------------------------------------------------------ timer path

  lemma SleepHead(k: Kernel)
    requires Linked(k) && Fits(k) && k.sleepers != []
    ensures 0 < k.sleepers[0] < |k.threads|
    ensures k.threads[k.sleepers[0]].state == Blocked && k.threads[k.sleepers[0]].inSleep
    ensures k.threads[k.sleepers[0]].reason in {Sleeping, TimedWaiting}
    ensures k.threads[k.sleepers[0]].inWait <==> k.threads[k.sleepers[0]].reason == TimedWaiting
    ensures !k.threads[k.sleepers[0]].inReady
  {
    var t := k.sleepers[0];
    assert t in k.sleepers;
    assert Fit(k.threads[t], t == 0);
  }

  /** The state after the head has been taken off the sleep queue, its wait still linked. */
  function HeadTaken(k: Kernel): Kernel
    requires k.sleepers != [] && k.sleepers[0] < |k.threads|
  {
    var t := k.sleepers[0];
    Set(k, t, k.threads[t].(inSleep := false)).(sleepers := k.sleepers[1..])
  }

  lemma HeadTakenLinked(k: Kernel)
    requires Linked(k) && k.sleepers != [] && k.sleepers[0] < |k.threads|
    ensures Linked(HeadTaken(k))
  {
    var t := k.sleepers[0];
    var th := k.threads[t].(inSleep := false);
    WithoutHead(k.sleepers);
    SleepDrop(k.threads, k.sleepers, t, th);
    WaitFlagsKept(k, t, th);
  }

  lemma ExpiredSleeper(k: Kernel)
    requires Linked(k) && Fits(k) && k.sleepers != [] && k.sleepers[0] < |k.threads|
    requires k.threads[k.sleepers[0]].reason == Sleeping
    ensures WakeExpired(HeadTaken(k), k.sleepers[0]) == Ok(Wake(k, k.sleepers[0], WaitOk))
  {
    SleepHead(k);
    HeadTakenLinked(k);
    var t, k1 := k.sleepers[0], HeadTaken(k);
    var k2 := Set(k1, t, k1.threads[t].(wakeTick := 0));
    LinkedDeadline(k1, t);
    hide Linked, Fits;
    WakeBlockedIsWake(k2, t, WaitOk);
    WithoutHead(k.sleepers);
    WithoutGone(k);
    assert k2.threads[t := Woken(k2.threads[t], WaitOk)] == k.threads[t := Woken(k.threads[t], WaitOk)];
  }

  lemma WithoutGone(k: Kernel)
    requires Linked(k) && k.sleepers != []
    ensures k.sleepers[0] !in k.sleepers[1..]
    ensures Without(k.sleepers[1..], k.sleepers[0]) == k.sleepers[1..]
  {
    assert k.sleepers[0] !in k.sleepers[1..];
  }

  lemma ExpiredTimedWait(k: Kernel)
    requires Linked(k) && Fits(k) && k.sleepers != [] && k.sleepers[0] < |k.threads|
    requires k.threads[k.sleepers[0]].reason == TimedWaiting
    ensures WakeExpired(HeadTaken(k), k.sleepers[0]) == Ok(Wake(k, k.sleepers[0], WaitTimeout))
  {
    SleepHead(k);
    HeadTakenLinked(k);
    var t, k1 := k.sleepers[0], HeadTaken(k);
    var th := k1.threads[t].(inWait := false, queue := None);
    var k2 := Set(k1, t, th).(waits := Dropped(k1, t));
    RemoveIsDropped(k1, t);
    WaitDrop(k1, t, th);
    FlagsKept(k1, t, th);
    assert Linked(k2);
    hide Linked, Fits;
    WakeBlockedIsWake(k2, t, WaitTimeout);
    WakeAfterDrop(k1, k2, t, WaitTimeout);
    WithoutHead(k.sleepers);
    WithoutGone(k);
    assert k1.threads[t := Woken(k1.threads[t], WaitTimeout)] == k.threads[t := Woken(k.threads[t], WaitTimeout)];
  }

  lemma RemoveIsDropped(k: Kernel, t: Tid)
    requires Linked(k) && t < |k.threads| && k.threads[t].inWait
    ensures WaitRemove(k, t) ==
      Ok(Set(k, t, k.threads[t].(inWait := false, queue := None)).(waits := Dropped(k, t)))
  {
    var q := k.threads[t].queue.value;
    assert QueueLinked(k.threads, k.waits[q], q);
  }

  lemma WaitFlagsKept(k: Kernel, t: Tid, th: Thread)
    requires WaitLinked(k.threads, k.waits) && ReadyLinked(k.threads, k.ready) && t < |k.threads|
    requires th.inReady == k.threads[t].inReady && th.inWait == k.threads[t].inWait
    requires th.queue == k.threads[t].queue
    ensures WaitLinked(k.threads[t := th], k.waits)
    ensures ReadyLinked(k.threads[t := th], k.ready)
  {
    forall id | 0 <= id < |k.waits|
      ensures QueueLinked(k.threads[t := th], k.waits[id], id)
    {
      assert QueueLinked(k.threads, k.waits[id], id);
    }
  }

  /** The deadline of a thread outside the sleep queue is irrelevant. */
  lemma LinkedDeadline(k: Kernel, t: Tid)
    requires Linked(k) && t < |k.threads| && !k.threads[t].inSleep
    ensures Linked(Set(k, t, k.threads[t].(wakeTick := 0)))
  {
    var th := k.threads[t].(wakeTick := 0);
    WaitFlagsKept(k, t, th);
    assert forall i :: 0 <= i < |k.sleepers| ==> k.sleepers[i] in k.sleepers;
  }

  // -------------------------------------------------------- a whole expiry

  /** How many sleepers the timer finds due. */
  function Due(k: Kernel): (n: nat)
    ensures n <= |k.sleepers|
  {
    SleepIndex(k.threads, k.sleepers, k.now)
  }

  /** Dropping an expired head moves the boundary down by one. */
  lemma SleepIndexTail(a: Table, b: Table, q: seq<Tid>, wake: nat)
    requires SleepIndex(a, q, wake) > 0
    requires forall i :: 0 < i < |q| ==> WakeTick(a, q[i]) == WakeTick(b, q[i])
    ensures SleepIndex(b, q[1..], wake) == SleepIndex(a, q, wake) - 1
  {
    var n, m, r := SleepIndex(a, q, wake), SleepIndex(b, q[1..], wake), q[1..];
    hide SleepIndex, WakeTick;
    assert forall i :: 0 <= i < |r| ==> WakeTick(b, r[i]) == WakeTick(a, q[i + 1]);
    assert forall i :: 0 < i < |q| ==> WakeTick(b, r[i - 1]) == WakeTick(a, q[i]);
  }

  lemma DueAfterWake(k: Kernel, r: WaitResult)
    requires Linked(k) && Due(k) > 0 && k.sleepers[0] < |k.threads|
    ensures Wake(k, k.sleepers[0], r).sleepers == k.sleepers[1..]
    ensures Due(Wake(k, k.sleepers[0], r)) == Due(k) - 1
  {
    var k1 := Wake(k, k.sleepers[0], r);
    WithoutHead(k.sleepers);
    hide SleepIndex;
    forall i | 0 < i < |k.sleepers|
      ensures WakeTick(k.threads, k.sleepers[i]) == WakeTick(k1.threads, k.sleepers[i])
    {
    }
    SleepIndexTail(k.threads, k1.threads, k.sleepers, k.now);
  }

  lemma SleepersInTable(k: Kernel)
    requires Linked(k)
    ensures InTable(k, k.sleepers) && Distinct(k.sleepers[..Due(k)]) && InTable(k, k.sleepers[..Due(k)])
  {
    assert forall i :: 0 <= i < |k.sleepers| ==> k.sleepers[i] in k.sleepers;
  }

  /** One turn of the wake_sleepers loop. */
  lemma ExpiredTurn(k: Kernel)
    requires Linked(k) && Fits(k)
    ensures Due(k) == 0 ==> SleepDequeueExpired(k) == Ok((k, None))
    ensures Due(k) > 0 ==>
      && k.sleepers[0] < |k.threads| && k.threads[k.sleepers[0]].state == Blocked
      && SleepDequeueExpired(k) == Ok((HeadTaken(k), Some(k.sleepers[0])))
      && WakeExpired(HeadTaken(k), k.sleepers[0]) ==
           Ok(Wake(k, k.sleepers[0], ResultOf(k.threads[k.sleepers[0]], Timer)))
  {
    if k.sleepers != [] {
      SleepHead(k);
      if Due(k) > 0 {
        if k.threads[k.sleepers[0]].reason == Sleeping { ExpiredSleeper(k); } else { ExpiredTimedWait(k); }
      }
    }
  }

  lemma WakeSleepersTurn(k: Kernel)
    requires Linked(k) && Fits(k) && Due(k) > 0
    ensures k.sleepers[0] < |k.threads|
    ensures WakeSleepers(k) == WakeSleepers(Wake(k, k.sleepers[0], ResultOf(k.threads[k.sleepers[0]], Timer)))
  {
    ExpiredTurn(k);
    hide Linked, Fits, Due, WakeExpired, SleepDequeueExpired, HeadTaken, Wake;
  }

  /** wake_sleepers wakes exactly the due prefix of the sleep queue, in order. */
  lemma {:induction false} WakeSleepersIsWakeList(k: Kernel)
    requires Sound(k)
    ensures InTable(k, k.sleepers[..Due(k)]) && Distinct(k.sleepers[..Due(k)])
    ensures WakeSleepers(k) == Ok(WakeList(k, k.sleepers[..Due(k)], Timer))
    ensures Sound(WakeList(k, k.sleepers[..Due(k)], Timer))
    ensures WakeList(k, k.sleepers[..Due(k)], Timer).sleepers == k.sleepers[Due(k)..]
    decreases |k.sleepers|
  {
    hide Linked, Fits, OneRunning, TasksLinked, InTable, Due, Wake, ResultOf, WakeExpired, SleepDequeueExpired;
    SleepersInTable(k);
    ExpiredTurn(k);
    if Due(k) > 0 {
      var t := k.sleepers[0];
      var r := ResultOf(k.threads[t], Timer);
      DueAfterWake(k, r);
      WakeSound(k, t, r);
      WakeSleepersTurn(k);
      WakeSleepersIsWakeList(Wake(k, t, r));
      assert k.sleepers[..Due(k)][1..] == k.sleepers[1..][..Due(k) - 1];
    }
  }
}
