/** Deadlines: as long as the 64-bit tick arithmetic does not wrap, every sleeper and every
    timed waiter is made ready by exactly the tick that equals its deadline. */
module Deadlines {
  import opened SeqTools
  import opened Scheduler
  import opened SchedulerInvariant
  import opened Wakeups
  import opened Switches
  import opened SchedulerRuns
  import opened TimedWaits

  /** Every queued deadline lies in the future. */
  ghost predicate Punctual(k: Kernel) {
    k.now < U64 &&
    forall x :: x in k.sleepers ==> k.now < WakeTick(k.threads, x) < U64
  }

  /** The ticks an operation adds to the clock to form a deadline, 0 for none. */
  function Delta(op: Op): nat {
    match op
    case OpSleep(_, ticks) => ticks
    case OpWaitFor(_, _, ticks) => ticks
    case _ => 0
  }

  ghost predicate NoWrap(k: Kernel, op: Op) {
    k.now + Delta(op) < U64 && (op.OpTick? ==> k.now + 1 < U64)
  }

  /** Who may be in the sleep queue after the step, and with which deadline. */
  ghost predicate SleepEffect(k: Kernel, k1: Kernel, op: Op) {
    && k1.now == (if op.OpTick? then Add64(k.now, 1) else k.now)
    && forall x :: x in k1.sleepers ==>
         || (x in k.sleepers && WakeTick(k1.threads, x) == WakeTick(k.threads, x) &&
             (op.OpTick? && k.started ==> x !in DueNext(k)))
         || (k.current == Some(x) && Delta(op) > 0 && WakeTick(k1.threads, x) == Add64(k.now, Delta(op)))
  }

  lemma DispatchedSleepers(p: Kernel)
    requires Parked(p)
    ensures Next(p) < |p.threads| && Dispatched(p).sleepers == p.sleepers && Dispatched(p).now == p.now
    ensures forall x :: WakeTick(Dispatched(p).threads, x) == WakeTick(p.threads, x)
  {
    NextFits(p);
  }

  lemma ParkedSleepers(k: Kernel, op: Op)
    requires Inv(k) && Legal(k, op) && Parks(k, op)
    ensures SleepEffect(k, ParkedBy(k, op), op)
  {
    hide Linked, Fits, TasksLinked, OneRunning, SleepInsert;
    match op
    case OpSleep(f, ticks) => if ticks > 0 { AsleepEffect(k, f, ticks); }
    case OpWaitFor(f, q, ticks) => WaitingEffect(k, f, q, ticks);
    case OpExit(f) => CurrentFits(k);
    case _ =>
  }

  lemma AsleepEffect(k: Kernel, f: Frame, ticks: nat)
    requires HasCurrent(k) && ticks > 0
    ensures SleepEffect(k, ParkAsleep(k, f, ticks), OpSleep(f, ticks))
  {
    InsertKeeps(k.threads, k.sleepers, k.current.value, Add64(k.now, ticks));
    hide SleepInsert;
  }

  lemma WaitingEffect(k: Kernel, f: Frame, q: QueueId, ticks: nat)
    requires HasCurrent(k) && q < |k.waits| && ticks > 0
    ensures SleepEffect(k, ParkWaiting(k, f, q, ticks), OpWaitFor(f, q, ticks))
  {
    InsertKeeps(k.threads, k.sleepers, k.current.value, Add64(k.now, ticks));
    hide SleepInsert;
  }

  lemma InsertKeeps(threads: Table, q: seq<Tid>, t: Tid, wake: nat)
    ensures forall x :: x in SleepInsert(threads, q, t, wake) <==> x in q || x == t
  {
    var i := SleepIndex(threads, q, wake);
    assert q == q[..i] + q[i..];
  }

  lemma ParkingSleepers(k: Kernel, op: Op)
    requires Inv(k) && Legal(k, op) && Parks(k, op)
    ensures Step(k, op).Ok? && SleepEffect(k, Step(k, op).value, op)
  {
    ParkingStep(k, op);
    ParkedSleepers(k, op);
    hide Inv, Legal, Step, Parked;
    DispatchedSleepers(ParkedBy(k, op));
  }

  lemma WakeSleepersSubset(k: Kernel, t: Tid, r: WaitResult)
    requires Linked(k) && t < |k.threads|
    ensures forall x :: x in Wake(k, t, r).sleepers ==>
      x in k.sleepers && WakeTick(Wake(k, t, r).threads, x) == WakeTick(k.threads, x)
  {
    WithoutMembers(k.sleepers, t);
  }

  lemma {:induction false} WakeListSleepers(k: Kernel, ts: seq<Tid>, c: Cause)
    requires Linked(k) && InTable(k, ts) && Distinct(ts)
    requires forall t :: t in ts ==> 0 < t && !k.threads[t].inReady
    ensures forall x :: x in WakeList(k, ts, c).sleepers ==>
      x in k.sleepers && WakeTick(WakeList(k, ts, c).threads, x) == WakeTick(k.threads, x)
    decreases |ts|
  {
    if ts != [] {
      var t := ts[0];
      var r := ResultOf(k.threads[t], c);
      assert t in ts && forall x :: x in ts[1..] ==> x in ts && x != t;
      WakeSleepersSubset(k, t, r);
      WakeLinked(k, t, r);
      hide Linked;
      WakeListSleepers(Wake(k, t, r), ts[1..], c);
    }
  }

  lemma WakeOpSleepers(k: Kernel, op: Op)
    requires Inv(k) && Legal(k, op) && (op.OpWakeOne? || op.OpWakeAll?)
    ensures Step(k, op).Ok? && SleepEffect(k, Step(k, op).value, op)
  {
    if op.OpWakeAll? {
      WakeAllIsWakeList(k, op.q);
      WaitersNotReady(k, op.q);
      hide Fits, TasksLinked, OneRunning;
      WakeListEffect(k, k.waits[op.q], Event);
      WakeListSleepers(k, k.waits[op.q], Event);
    } else {
      WakeOneIsWake(k, op.q);
      if k.waits[op.q] != [] {
        WakeSleepersSubset(k, k.waits[op.q][0], WaitOk);
        hide Inv, WakeOne;
      }
    }
  }

  lemma WaitersNotReady(k: Kernel, q: QueueId)
    requires Linked(k) && Fits(k) && q < |k.waits|
    ensures forall t :: t in k.waits[q] ==> 0 < t < |k.threads| && !k.threads[t].inReady
  {
    assert QueueLinked(k.threads, k.waits[q], q);
    forall t | t in k.waits[q] ensures !k.threads[t].inReady {
      assert Fit(k.threads[t], t == 0);
    }
  }

  lemma ChargeSleepers(k: Kernel, f: Frame)
    requires Chargeable(k, f)
    ensures AfterCharge(k, f).sleepers == k.sleepers && AfterCharge(k, f).now == k.now
    ensures forall x :: WakeTick(AfterCharge(k, f).threads, x) == WakeTick(k.threads, x)
  {
    if Preempts(k) {
      PreemptStep(k, f);
      hide Chargeable, AfterCharge, Parked;
      DispatchedSleepers(ParkReady(Expired(k), f));
    }
  }

  lemma TickSleepers(k: Kernel, f: Frame)
    requires Inv(k) && k.started && FrameOfCurrent(k, f)
    ensures Tick(k, f).Ok? && SleepEffect(k, Tick(k, f).value, OpTick(f))
  {
    TickStep(k, f);
    AwokenOk(k);
    SplitDistinct(k.sleepers, |DueNext(k)|);
    hide Inv, Chargeable, Awoken, Due, AfterCharge, Linked, Fits, TasksLinked, OneRunning;
    ChargeSleepers(Awoken(k), f);
  }

  lemma SplitDistinct(q: seq<Tid>, n: nat)
    requires Distinct(q) && n <= |q|
    ensures forall x :: x in q[n..] ==> x in q && x !in q[..n]
  {
  }

  lemma StepSleepers(k: Kernel, op: Op)
    requires Inv(k) && Legal(k, op)
    ensures Step(k, op).Ok? && SleepEffect(k, Step(k, op).value, op)
  {
    StepSafe(k, op);
    match op
    case OpStart => StartInv(k); StartSleepers(k);
    case OpCreate => InstallSleepers(k, op);
    case OpCreateUser(_) => InstallSleepers(k, op);
    case OpWakeOne(_) => WakeOpSleepers(k, op);
    case OpWakeAll(_) => WakeOpSleepers(k, op);
    case OpTick(f) => if k.started { TickSleepers(k, f); }
    case OpInitQueue =>
    case OpInitTask(_) =>
    case _ => if Parks(k, op) { ParkingSleepers(k, op); } else { StayInv(k, op); }
  }

  lemma StartSleepers(k: Kernel)
    requires Inv(k) && !k.started && Next(k) < |k.threads|
    ensures SleepEffect(k, Dispatched(k).(started := true), OpStart)
  {
    DispatchedSleepers(k);
    hide Inv;
  }

  lemma InstallSleepers(k: Kernel, op: Op)
    requires Inv(k) && Legal(k, op) && (op.OpCreate? || op.OpCreateUser?)
    requires Step(k, op).Ok?
    ensures SleepEffect(k, Step(k, op).value, op)
  {
    var slot := FreeSlot(k.threads, 1);
    hide FreeSlot;
    if slot.Some? {
      assert Fit(k.threads[slot.value], false);
      hide Inv;
    }
  }

  /** In a sorted queue the due prefix is everything whose deadline has come. */
  lemma DuePrefix(threads: Table, q: seq<Tid>, wake: nat, t: Tid)
    requires Sorted(threads, q) && Distinct(q) && t in q
    ensures t in q[..SleepIndex(threads, q, wake)] <==> WakeTick(threads, t) <= wake
  {
    var n, i := SleepIndex(threads, q, wake), IndexOf(q, t);
    hide SleepIndex, WakeTick;
    SplitDistinct(q, n);
    if i < n {
      assert q[..n][i] == t;
    } else {
      assert q[n..][i - n] == t;
      assert i == n || WakeTick(threads, q[n]) <= WakeTick(threads, q[i]);
    }
  }

  lemma DueIffPast(k: Kernel, t: Tid)
    requires Inv(k) && t in k.sleepers
    ensures t in DueNext(k) <==> WakeTick(k.threads, t) <= Add64(k.now, 1)
  {
    SleepersSorted(k);
    hide Inv, SleepIndex, WakeTick, Sorted, Distinct;
    DuePrefix(k.threads, k.sleepers, Add64(k.now, 1), t);
    assert Due(Ticked(k)) == SleepIndex(k.threads, k.sleepers, Add64(k.now, 1));
  }

  lemma SleepersSorted(k: Kernel)
    requires Inv(k)
    ensures Sorted(k.threads, k.sleepers) && Distinct(k.sleepers)
  {
  }

  /** With the clock not wrapping, a due sleeper is one whose deadline is the new tick. */
  lemma DueExactly(k: Kernel, t: Tid)
    requires Inv(k) && Punctual(k) && k.now + 1 < U64 && t in k.sleepers
    ensures t in DueNext(k) <==> WakeTick(k.threads, t) == k.now + 1
  {
    DueIffPast(k, t);
    hide Inv, DueNext;
  }

  /** Deadlines stay in the future as long as nothing wraps. */
  lemma PunctualStep(k: Kernel, op: Op)
    requires Inv(k) && Legal(k, op) && Punctual(k) && NoWrap(k, op)
    ensures Step(k, op).Ok? && Punctual(Step(k, op).value)
  {
    StepSleepers(k, op);
    if !k.started { NoSleepersBeforeStart(k); }
    hide Inv, Legal, Step, DueNext, WakeTick;
    PunctualEffect(k, Step(k, op).value, op);
  }

  lemma PunctualEffect(k: Kernel, k1: Kernel, op: Op)
    requires Inv(k) && Punctual(k) && NoWrap(k, op) && SleepEffect(k, k1, op)
    requires !k.started ==> k.sleepers == []
    ensures Punctual(k1)
  {
    hide Inv, DueNext, WakeTick;
    forall x | x in k1.sleepers ensures k1.now < WakeTick(k1.threads, x) < U64 {
      if op.OpTick? && x in k.sleepers {
        DueExactly(k, x);
      }
    }
  }

  lemma NoSleepersBeforeStart(k: Kernel)
    requires Inv(k) && !k.started
    ensures k.sleepers == []
  {
    if k.sleepers != [] { SleepHead(k); }
  }

  ghost predicate NoWrapRun(k: Kernel, ops: seq<Op>)
    requires LegalRun(k, ops)
    decreases |ops|
  {
    ops == [] || (NoWrap(k, ops[0]) && (Step(k, ops[0]).Ok? ==> NoWrapRun(Step(k, ops[0]).value, ops[1..])))
  }

  lemma {:induction false} PunctualRun(k: Kernel, ops: seq<Op>)
    requires Inv(k) && Punctual(k) && LegalRun(k, ops) && NoWrapRun(k, ops)
    ensures Execute(k, ops).Ok? && Inv(Execute(k, ops).value) && Punctual(Execute(k, ops).value)
    decreases |ops|
  {
    if ops != [] {
      StepSafe(k, ops[0]);
      PunctualStep(k, ops[0]);
      hide Inv, Punctual, Legal, Step, NoWrap;
      PunctualRun(Step(k, ops[0]).value, ops[1..]);
    }
  }

  /** What a tick does to a queued sleeper: it is made ready with its timer result if it is due,
      and otherwise keeps its record. */
  lemma TickWakes(k: Kernel, f: Frame, t: Tid)
    requires Inv(k) && k.started && FrameOfCurrent(k, f) && t in k.sleepers
    ensures t < |k.threads| && k.threads[t].state == Blocked
    ensures Tick(k, f).Ok? && t < |Tick(k, f).value.threads|
    ensures var th, after := k.threads[t], Tick(k, f).value.threads[t];
      && (t in DueNext(k) ==> Resumed(after, Woken(th, ResultOf(th, Timer))))
      && (t !in DueNext(k) ==> after == th)
      && (after.state != Blocked <==> t in DueNext(k))
  {
    SleeperBlocked(k, t);
    hide Inv, DueNext, Tick;
    TickRecord(k, f, t);
  }

  lemma SleeperBlocked(k: Kernel, t: Tid)
    requires Inv(k) && t in k.sleepers
    ensures t < |k.threads| && k.threads[t].state == Blocked && Resting(k, t)
  {
    assert Fit(k.threads[t], t == 0);
  }

  /** After any run from boot without wrap-around, the next timer interrupt makes a sleeper
      ready, with the result its kind of wait calls for, if and only if its deadline is that
      tick: never early, never late. */
  lemma WokenExactlyAtDeadline(n: nat, ops: seq<Op>, f: Frame, t: Tid)
    requires n >= 2 && LegalRun(Initial(n), ops) && NoWrapRun(Initial(n), ops)
    ensures Execute(Initial(n), ops).Ok?
    ensures var k := Execute(Initial(n), ops).value;
      t in k.sleepers && k.started && FrameOfCurrent(k, f) && k.now + 1 < U64 ==>
        && t < |k.threads| && k.threads[t].state == Blocked && k.now < k.threads[t].wakeTick
        && Tick(k, f).Ok? && t < |Tick(k, f).value.threads|
        && var th, after := k.threads[t], Tick(k, f).value.threads[t];
        && (after.state != Blocked <==> th.wakeTick == k.now + 1)
        && (if th.wakeTick == k.now + 1 then Resumed(after, Woken(th, ResultOf(th, Timer))) else after == th)
  {
    InitialInv(n);
    PunctualRun(Initial(n), ops);
    var k := Execute(Initial(n), ops).value;
    if t in k.sleepers && k.started && FrameOfCurrent(k, f) && k.now + 1 < U64 {
      DueExactly(k, t);
      hide Inv, DueNext, Tick, Execute;
      TickWakes(k, f, t);
    }
  }

  // ------------------------------------------------------------- wrap-around

  /** A sleeper is made ready by the very next tick if and only if it asked for one tick or its
      deadline does not fit in 64 bits. */
  lemma SleepDueAtOnceIff(k: Kernel, f: Frame, ticks: nat, g: Frame)
    requires Inv(k) && k.started && RealTrap(k, f)
    requires 0 < ticks < U64 && k.now + 1 < U64
    ensures SleepFor(k, f, ticks).Ok? && Inv(SleepFor(k, f, ticks).value)
    ensures DueAtOnce(k.current.value, SleepFor(k, f, ticks).value, g) <==> ticks == 1 || k.now + ticks >= U64
  {
    var op := OpSleep(f, ticks);
    ParkingStep(k, op);
    SleeperQueued(k, f, ticks);
    hide Inv, SleepFor;
    NextTickIff(k, SleepFor(k, f, ticks).value, k.current.value, ticks, g);
  }

  /** A timed waiter, on a wait queue, a mutex or the accelerator, is timed out by the very next
      tick if and only if it asked for one tick or its deadline does not fit in 64 bits. */
  lemma WaitDueAtOnceIff(k: Kernel, f: Frame, q: QueueId, ticks: nat, g: Frame)
    requires Inv(k) && k.started && RealTrap(k, f) && q < |k.waits|
    requires 0 < ticks < U64 && k.now + 1 < U64
    ensures WaitFor(k, f, q, ticks).Ok? && Inv(WaitFor(k, f, q, ticks).value)
    ensures DueAtOnce(k.current.value, WaitFor(k, f, q, ticks).value, g) <==> ticks == 1 || k.now + ticks >= U64
  {
    var op := OpWaitFor(f, q, ticks);
    ParkingStep(k, op);
    WaiterQueued(k, f, q, ticks);
    hide Inv, WaitFor;
    NextTickIff(k, WaitFor(k, f, q, ticks).value, k.current.value, ticks, g);
  }

  /** Thread t is queued as a sleeper, and the next tick would find it due; when the current
      thread traps for that tick with frame g, the tick does make it ready. */
  ghost predicate DueAtOnce(t: Tid, k: Kernel, g: Frame) {
    t in DueNext(k) && (k.started && FrameOfCurrent(k, g) ==>
      Tick(k, g).Ok? && t < |Tick(k, g).value.threads| && Tick(k, g).value.threads[t].state != Blocked)
  }

  lemma NextTickIff(k: Kernel, k1: Kernel, t: Tid, ticks: nat, g: Frame)
    requires Inv(k1) && k1.now == k.now && k.now + 1 < U64 && 0 < ticks < U64
    requires t in k1.sleepers && WakeTick(k1.threads, t) == Add64(k.now, ticks)
    ensures DueAtOnce(t, k1, g) <==> ticks == 1 || k.now + ticks >= U64
  {
    DueIffPast(k1, t);
    hide Inv, DueNext, Tick;
    if k1.started && FrameOfCurrent(k1, g) {
      TickWakes(k1, g, t);
    }
  }

  lemma SleeperQueued(k: Kernel, f: Frame, ticks: nat)
    requires Inv(k) && k.started && RealTrap(k, f) && ticks > 0
    ensures SleepFor(k, f, ticks).Ok?
    ensures var k1 := SleepFor(k, f, ticks).value; var c := k.current.value;
      c in k1.sleepers && WakeTick(k1.threads, c) == Add64(k.now, ticks) && k1.now == k.now
  {
    ParkingStep(k, OpSleep(f, ticks));
    var p := ParkAsleep(k, f, ticks);
    hide Inv, SleepInsert, SleepFor, Parked;
    DispatchedSleepers(p);
    InsertKeeps(k.threads, k.sleepers, k.current.value, Add64(k.now, ticks));
  }

  lemma WaiterQueued(k: Kernel, f: Frame, q: QueueId, ticks: nat)
    requires Inv(k) && k.started && RealTrap(k, f) && q < |k.waits| && ticks > 0
    ensures WaitFor(k, f, q, ticks).Ok?
    ensures var k1 := WaitFor(k, f, q, ticks).value; var c := k.current.value;
      c in k1.sleepers && WakeTick(k1.threads, c) == Add64(k.now, ticks) && k1.now == k.now
  {
    ParkingStep(k, OpWaitFor(f, q, ticks));
    var p := ParkWaiting(k, f, q, ticks);
    hide Inv, SleepInsert, WaitFor, Parked;
    DispatchedSleepers(p);
    InsertKeeps(k.threads, k.sleepers, k.current.value, Add64(k.now, ticks));
  }

  // ---------------------------------------------------- a wait that wraps

  /** The table of two threads after boot: the idle thread, and thread 1 as given. */
  function Pair(one: Thread): seq<Thread> {
    [InitialThread(0), one]
  }

  /** Thread 1 alone, running, at the given time and quantum. */
  function Alone(now: nat, quantum: nat): Kernel {
    Kernel(Pair(Fresh(Frame(KernelStack(1), false, 0), None).(state := Running, quantum := quantum)),
           [], [], [[]], Some(1), true, false, now, map[])
  }

  function BootFrame(): Frame {
    Frame(KernelStack(1), false, 0)
  }

  function BootOps(): seq<Op> {
    [OpInitQueue, OpCreate, OpStart, OpTick(BootFrame())]
  }

  function Queued(): Kernel {
    Initial(2).(waits := [[]])
  }

  function Created(): Kernel {
    Queued().(threads := Pair(Fresh(BootFrame(), None).(inReady := true)), ready := [1])
  }

  lemma FirstSteps()
    ensures |Initial(2).threads| > 0 && |Queued().threads| > 0
    ensures Legal(Initial(2), OpInitQueue) && Step(Initial(2), OpInitQueue) == Ok(Queued())
    ensures Legal(Queued(), OpCreate) && Step(Queued(), OpCreate) == Ok(Created())
  {
    var none: seq<seq<Tid>> := [];
    assert none + [[]] == [[]];
    var k := Queued();
    assert k.threads == Pair(InitialThread(1));
    assert FreeSlot(k.threads, 1) == Some(1);
    var half := Set(k, 1, Fresh(BootFrame(), None));
    assert half.threads == Pair(Fresh(BootFrame(), None));
    assert half.threads[1 := Fresh(BootFrame(), None).(inReady := true)] == Created().threads;
    assert k.ready + [1] == [1];
    assert ReadyEnqueue(half, 1) == Ok(Created());
  }

  lemma StartsAlone()
    ensures |Created().threads| > 0 && Legal(Created(), OpStart) && Step(Created(), OpStart) == Ok(Alone(0, 0))
  {
    var k := Created();
    var t := Fresh(BootFrame(), None);
    assert k.ready[1..] == [];
    assert k.threads[1 := t] == Pair(t);
    assert PickNext(k) == Ok((k.(threads := Pair(t), ready := []), 1));
    assert Pair(t)[1 := t.(state := Running, quantum := 0)] == Alone(0, 0).threads;
  }

  lemma TicksAlone()
    ensures |Alone(0, 0).threads| > 0 && Legal(Alone(0, 0), OpTick(BootFrame()))
    ensures Step(Alone(0, 0), OpTick(BootFrame())) == Ok(Alone(1, 1))
  {
    var k := Alone(0, 0).(now := 1);
    assert Add64(0, 1) == 1;
    assert SleepDequeueExpired(k) == Ok((k, None));
    assert WakeSleepers(k) == Ok(k);
    assert ChargeQuantum(k).threads == Alone(1, 1).threads;
  }

  lemma RunOne(k: Kernel, op: Op, rest: seq<Op>)
    requires |k.threads| > 0 && Legal(k, op) && Step(k, op).Ok? && LegalRun(Step(k, op).value, rest)
    ensures LegalRun(k, [op] + rest) && Execute(k, [op] + rest) == Execute(Step(k, op).value, rest)
  {
    hide Legal, Step;
    assert ([op] + rest)[1..] == rest;
  }

  lemma BootedRun()
    ensures LegalRun(Initial(2), BootOps()) && Execute(Initial(2), BootOps()) == Ok(Alone(1, 1))
  {
    FirstSteps();
    StartsAlone();
    TicksAlone();
    var tick := OpTick(BootFrame());
    assert LegalRun(Alone(1, 1), []) && Execute(Alone(1, 1), []) == Ok(Alone(1, 1)) by { hide Step, Alone, Legal; }
    hide Step, Alone, LegalRun, Execute, Legal, Initial, Queued, Created;
    RunOne(Alone(0, 0), tick, []);
    RunOne(Created(), OpStart, [tick]);
    RunOne(Queued(), OpCreate, [OpStart, tick]);
    RunOne(Initial(2), OpInitQueue, [OpCreate, OpStart, tick]);
    assert [tick] + [] == [tick];
    assert [OpStart] + [tick] == [OpStart, tick];
    assert [OpCreate] + [OpStart, tick] == [OpCreate, OpStart, tick];
    assert [OpInitQueue] + [OpCreate, OpStart, tick] == BootOps();
  }

  /** A concrete run: after one tick from boot, a wait with the longest finite deadline is timed
      out by the very next tick. */
  lemma WrappedWaitHappens()
    ensures LegalRun(Initial(2), BootOps()) && Execute(Initial(2), BootOps()) == Ok(Alone(1, 1))
    ensures RealTrap(Alone(1, 1), BootFrame()) && |Alone(1, 1).waits| == 1
    ensures var k := WaitFor(Alone(1, 1), BootFrame(), 0, U64 - 1);
      k.Ok? && DueAtOnce(1, k.value, Frame(KernelStack(0), false, 0))
  {
    BootedRun();
    InitialInv(2);
    RunSafe(Initial(2), BootOps());
    var k := Alone(1, 1);
    hide Inv, Execute, LegalRun, WaitFor, DueAtOnce;
    WaitDueAtOnceIff(k, BootFrame(), 0, U64 - 1, Frame(KernelStack(0), false, 0));
  }
}
