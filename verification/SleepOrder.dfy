/** Sleepers keep their order: whoever is ahead in the sleep queue stays ahead, and is made ready first. */
module SleepOrder {
  import opened SeqTools
  import opened Scheduler
  import opened SchedulerInvariant
  import opened Wakeups
  import opened Switches
  import opened SchedulerRuns

  /** x stands in front of y. */
  ghost predicate Before(q: seq<Tid>, x: Tid, y: Tid) {
    exists i, j :: 0 <= i < j < |q| && q[i] == x && q[j] == y
  }

  /** b has whoever is left of a in the order of a. */
  ghost predicate OrderKept(a: seq<Tid>, b: seq<Tid>, x: Tid, y: Tid) {
    Before(a, x, y) && x in b && y in b ==> Before(b, x, y)
  }

  lemma InsertKeepsOrder(q: seq<Tid>, i: nat, t: Tid, x: Tid, y: Tid)
    requires i <= |q|
    ensures OrderKept(q, q[..i] + [t] + q[i..], x, y)
  {
    var r := q[..i] + [t] + q[i..];
    if a, b :| 0 <= a < b < |q| && q[a] == x && q[b] == y {
      var c, d := if a < i then a else a + 1, if b < i then b else b + 1;
      assert r[c] == x && r[d] == y;
    }
  }

  lemma DropKeepsOrder(q: seq<Tid>, t: Tid, x: Tid, y: Tid)
    requires Distinct(q)
    ensures OrderKept(q, Without(q, t), x, y)
  {
    var r := Without(q, t);
    WithoutMembers(q, t);
    if t in q && Before(q, x, y) && x in r && y in r {
      var a, b :| 0 <= a < b < |q| && q[a] == x && q[b] == y;
      var n := IndexOf(q, t);
      var c, d := if a < n then a else a - 1, if b < n then b else b - 1;
      WithoutAt(q, t, c);
      WithoutAt(q, t, d);
    }
  }

  lemma SuffixKeepsOrder(q: seq<Tid>, n: nat, x: Tid, y: Tid)
    requires Distinct(q) && n <= |q|
    ensures OrderKept(q, q[n..], x, y)
  {
    if Before(q, x, y) && x in q[n..] && y in q[n..] {
      var a, b :| 0 <= a < b < |q| && q[a] == x && q[b] == y;
      var c :| 0 <= c < |q[n..]| && q[n..][c] == x;
      assert q[c + n] == x;
      assert q[n..][a - n] == x && q[n..][b - n] == y;
    }
  }

  // -------------------------------------------------------------------- steps

  lemma ParkingOrder(k: Kernel, op: Op, x: Tid, y: Tid)
    requires Inv(k) && Legal(k, op) && Parks(k, op)
    ensures Step(k, op).Ok? && OrderKept(k.sleepers, Step(k, op).value.sleepers, x, y)
  {
    ParkingStep(k, op);
    ParkedOrder(k, op, x, y);
    hide Inv, Legal, Step, Parked, OrderKept;
  }

  lemma ParkedOrder(k: Kernel, op: Op, x: Tid, y: Tid)
    requires Inv(k) && Legal(k, op) && Parks(k, op)
    ensures OrderKept(k.sleepers, ParkedBy(k, op).sleepers, x, y)
  {
    hide Linked, Fits, TasksLinked, OneRunning, SleepIndex, OrderKept;
    SameOrder(k.sleepers, x, y);
    match op
    case OpSleep(f, ticks) =>
      if ticks > 0 { InsertKeepsOrder(k.sleepers, SleepIndex(k.threads, k.sleepers, Add64(k.now, ticks)), k.current.value, x, y); }
    case OpWaitFor(f, q, ticks) =>
      InsertKeepsOrder(k.sleepers, SleepIndex(k.threads, k.sleepers, Add64(k.now, ticks)), k.current.value, x, y);
    case _ =>
  }

  lemma SameOrder(q: seq<Tid>, x: Tid, y: Tid)
    ensures OrderKept(q, q, x, y)
  {
  }

  lemma {:induction false} WakeListOrder(k: Kernel, ts: seq<Tid>, c: Cause, x: Tid, y: Tid)
    requires Linked(k) && InTable(k, ts) && Distinct(ts)
    requires forall t :: t in ts ==> 0 < t && !k.threads[t].inReady
    ensures forall z :: z in WakeList(k, ts, c).sleepers ==> z in k.sleepers
    ensures OrderKept(k.sleepers, WakeList(k, ts, c).sleepers, x, y)
    decreases |ts|
  {
    SameOrder(k.sleepers, x, y);
    if ts != [] {
      var t := ts[0];
      var r := ResultOf(k.threads[t], c);
      assert t in ts && forall z :: z in ts[1..] ==> z in ts && z != t;
      SleepersDistinct(k);
      DropKeepsOrder(k.sleepers, t, x, y);
      WithoutMembers(k.sleepers, t);
      WakeLinked(k, t, r);
      hide Linked, Before;
      WakeListOrder(Wake(k, t, r), ts[1..], c, x, y);
    }
  }

  lemma SleepersDistinct(k: Kernel)
    requires Linked(k)
    ensures Distinct(k.sleepers)
  {
  }

  lemma WakeOrder(k: Kernel, op: Op, x: Tid, y: Tid)
    requires Inv(k) && Legal(k, op) && (op.OpWakeOne? || op.OpWakeAll?)
    ensures Step(k, op).Ok? && OrderKept(k.sleepers, Step(k, op).value.sleepers, x, y)
  {
    if op.OpWakeAll? {
      WakeAllOrder(k, op.q, x, y);
    } else {
      WakeOneOrder(k, op.q, x, y);
    }
    hide Inv;
  }

  lemma WakeAllOrder(k: Kernel, q: QueueId, x: Tid, y: Tid)
    requires Inv(k) && q < |k.waits|
    ensures WakeAll(k, q).Ok? && OrderKept(k.sleepers, WakeAll(k, q).value.sleepers, x, y)
  {
    WakeAllIsWakeList(k, q);
    WaitersAsleep(k, q);
    hide Fits, TasksLinked, OneRunning, OrderKept, Linked, WakeAll;
    WakeListOrder(k, k.waits[q], Event, x, y);
  }

  lemma WakeOneOrder(k: Kernel, q: QueueId, x: Tid, y: Tid)
    requires Inv(k) && q < |k.waits|
    ensures WakeOne(k, q).Ok? && OrderKept(k.sleepers, WakeOne(k, q).value.0.sleepers, x, y)
  {
    SleepersDistinct(k);
    SameOrder(k.sleepers, x, y);
    WakeOneIsWake(k, q);
    hide Inv, WakeOne, OrderKept;
    if k.waits[q] != [] {
      DropKeepsOrder(k.sleepers, k.waits[q][0], x, y);
    }
  }

  lemma WaitersAsleep(k: Kernel, q: QueueId)
    requires Linked(k) && Fits(k) && q < |k.waits|
    ensures InTable(k, k.waits[q]) && Distinct(k.waits[q])
    ensures forall t :: t in k.waits[q] ==> 0 < t < |k.threads| && !k.threads[t].inReady
  {
    assert QueueLinked(k.threads, k.waits[q], q);
    QueueInTable(k, q);
    forall t | t in k.waits[q]
      ensures !k.threads[t].inReady
    {
      assert Fit(k.threads[t], t == 0);
    }
  }

  lemma TickOrder(k: Kernel, f: Frame, x: Tid, y: Tid)
    requires Inv(k) && k.started && FrameOfCurrent(k, f)
    ensures Tick(k, f).Ok? && OrderKept(k.sleepers, Tick(k, f).value.sleepers, x, y)
  {
    TickStep(k, f);
    AwokenOk(k);
    SleepersDistinct(k);
    SuffixKeepsOrder(k.sleepers, |DueNext(k)|, x, y);
    hide Inv, Chargeable, Awoken, Due, AfterCharge, Linked, Fits, TasksLinked, OneRunning, OrderKept;
    ChargeKeeps(Awoken(k), f);
  }

  lemma ChargeKeeps(k: Kernel, f: Frame)
    requires Chargeable(k, f)
    ensures AfterCharge(k, f).sleepers == k.sleepers
  {
    if Preempts(k) {
      PreemptStep(k, f);
    }
  }

  /** Two sleepers that are both still queued after an operation stand in the same order. */
  lemma OrderStep(k: Kernel, op: Op, x: Tid, y: Tid)
    requires Inv(k) && Legal(k, op)
    ensures Step(k, op).Ok? && OrderKept(k.sleepers, Step(k, op).value.sleepers, x, y)
  {
    StepSafe(k, op);
    SameOrder(k.sleepers, x, y);
    hide OrderKept;
    match op
    case OpStart => StartInv(k);
    case OpWakeOne(_) => WakeOrder(k, op, x, y);
    case OpWakeAll(_) => WakeOrder(k, op, x, y);
    case OpTick(f) => if k.started { TickOrder(k, f, x, y); }
    case OpCreate =>
    case OpCreateUser(_) =>
    case OpInitQueue =>
    case OpInitTask(_) =>
    case _ => if Parks(k, op) { ParkingOrder(k, op, x, y); } else { StayInv(k, op); }
  }

  /** Both are asleep in every state of the run. */
  ghost predicate BothAsleep(k: Kernel, ops: seq<Op>, x: Tid, y: Tid)
    requires LegalRun(k, ops)
    decreases |ops|
  {
    && x in k.sleepers && y in k.sleepers
    && (ops != [] && Step(k, ops[0]).Ok? ==> BothAsleep(Step(k, ops[0]).value, ops[1..], x, y))
  }

  /** Over any run during which two sleepers stay queued, the one in front stays in front. */
  lemma {:induction false} OrderRun(k: Kernel, ops: seq<Op>, x: Tid, y: Tid)
    requires Inv(k) && LegalRun(k, ops) && BothAsleep(k, ops, x, y) && Before(k.sleepers, x, y)
    ensures Execute(k, ops).Ok? && Before(Execute(k, ops).value.sleepers, x, y)
    decreases |ops|
  {
    if ops != [] {
      StepSafe(k, ops[0]);
      OrderStep(k, ops[0], x, y);
      hide Inv, Legal, Step, Before;
      OrderRun(Step(k, ops[0]).value, ops[1..], x, y);
    }
  }

  /** When a tick makes the one behind ready, it makes the one in front ready too, and first. */
  lemma FrontWakesFirst(k: Kernel, x: Tid, y: Tid)
    requires Inv(k) && Before(k.sleepers, x, y) && y in DueNext(k)
    ensures x in DueNext(k) && Before(Awoken(k).ready, x, y)
  {
    AwokenOk(k);
    SleepersDistinct(k);
    hide Inv, Linked, Fits, TasksLinked, Awoken, Due, Before;
    PrefixOrder(k.ready, k.sleepers, |DueNext(k)|, x, y);
  }

  lemma PrefixOrder(front: seq<Tid>, q: seq<Tid>, n: nat, x: Tid, y: Tid)
    requires Distinct(q) && n <= |q| && Before(q, x, y) && y in q[..n]
    ensures x in q[..n] && Before(front + q[..n], x, y)
  {
    var a, b :| 0 <= a < b < |q| && q[a] == x && q[b] == y;
    var c :| 0 <= c < n && q[..n][c] == y;
    assert c == b && q[..n][a] == x;
    var r, m := front + q[..n], |front|;
    assert r[m + a] == x && r[m + b] == y;
  }
}
