/** Arrival order: while a thread waits for a mutex, only the present owner and the
    waiters that were ahead of it can hold that mutex. */
module MutexOrder {
  import opened SeqTools
  import opened Scheduler
  import opened SchedulerInvariant
  import opened Wakeups
  import opened Switches
  import opened SchedulerRuns
  import opened TimedWaits
  import opened Mutexes

  /** The waiters in front of t. */
  function Ahead(q: seq<Tid>, t: Tid): set<Tid> {
    if t in q then set x | x in q[..IndexOf(q, t)] else {}
  }

  /** b is a with some waiters gone: whoever is left has no new waiter in front. */
  ghost predicate Shrunk(a: seq<Tid>, b: seq<Tid>) {
    forall t :: t in b ==> t in a && Ahead(b, t) <= Ahead(a, t)
  }

  lemma ShrunkTrans(a: seq<Tid>, b: seq<Tid>, c: seq<Tid>)
    requires Shrunk(a, b) && Shrunk(b, c)
    ensures Shrunk(a, c)
  {
    hide Ahead;
    forall t | t in c ensures t in a && Ahead(c, t) <= Ahead(a, t) {
      assert t in b;
    }
  }

  lemma WithoutShrunk(q: seq<Tid>, x: Tid)
    requires Distinct(q)
    ensures Shrunk(q, Without(q, x))
  {
    var r := Without(q, x);
    WithoutMembers(q, x);
    forall t | t in r ensures t in q && Ahead(r, t) <= Ahead(q, t) {
      if x in q {
        WithoutAhead(q, x, t);
      }
    }
  }

  /** Deleting x keeps the order of the others. */
  lemma WithoutAhead(q: seq<Tid>, x: Tid, t: Tid)
    requires Distinct(q) && x in q && t in Without(q, x) && t in q
    ensures Ahead(Without(q, x), t) <= Ahead(q, t)
  {
    var r := Without(q, x);
    var i, j, n := IndexOf(r, t), IndexOf(q, t), IndexOf(q, x);
    WithoutAt(q, x, i);
    assert j == if i < n then i else i + 1;
    forall y | y in r[..i] ensures y in q[..j] {
      var a := IndexOf(r[..i], y);
      WithoutAt(q, x, a);
      assert q[..j][if a < n then a else a + 1] == y;
    }
  }

  lemma WakeShrunk(k: Kernel, t: Tid, r: WaitResult, m: QueueId)
    requires Linked(k) && t < |k.threads| && m < |k.waits|
    ensures Shrunk(k.waits[m], Wake(k, t, r).waits[m])
  {
    assert QueueLinked(k.threads, k.waits[m], m);
    hide Linked, Ahead;
    WithoutShrunk(k.waits[m], t);
  }

  lemma {:induction false} WakeListShrunk(k: Kernel, ts: seq<Tid>, c: Cause, m: QueueId)
    requires Linked(k) && InTable(k, ts) && Distinct(ts) && m < |k.waits|
    requires forall t :: t in ts ==> 0 < t && !k.threads[t].inReady
    ensures m < |WakeList(k, ts, c).waits|
    ensures Shrunk(k.waits[m], WakeList(k, ts, c).waits[m])
    decreases |ts|
  {
    if ts != [] {
      var t := ts[0];
      var r := ResultOf(k.threads[t], c);
      assert t in ts && forall x :: x in ts[1..] ==> x in ts && x != t;
      WakeShrunk(k, t, r, m);
      WakeLinked(k, t, r);
      hide Linked, Shrunk;
      WakeListShrunk(Wake(k, t, r), ts[1..], c, m);
      ShrunkTrans(k.waits[m], Wake(k, t, r).waits[m], WakeList(k, ts, c).waits[m]);
    }
  }

  lemma TickShrunk(k: Kernel, f: Frame, m: QueueId)
    requires Inv(k) && k.started && FrameOfCurrent(k, f) && m < |k.waits|
    ensures Tick(k, f).Ok? && m < |Tick(k, f).value.waits|
    ensures Shrunk(k.waits[m], Tick(k, f).value.waits[m])
  {
    TickStep(k, f);
    AwokenOk(k);
    AwokenShrunk(k, m);
    hide Inv, Sound, Chargeable, Awoken, AfterCharge, Shrunk;
    ChargeShape(Awoken(k), f);
  }

  lemma AwokenShrunk(k: Kernel, m: QueueId)
    requires Inv(k) && m < |k.waits|
    ensures m < |Awoken(k).waits| && Shrunk(k.waits[m], Awoken(k).waits[m])
  {
    LinkedParts(k, Ticked(k));
    FitsParts(k, Ticked(k));
    SleepersNotReady(k);
    hide Linked, Fits, TasksLinked, Due, Shrunk;
    WakeSleepersIsWakeList(Ticked(k));
    WakeListShrunk(Ticked(k), DueNext(k), Timer, m);
  }

  lemma SleepersNotReady(k: Kernel)
    requires Linked(k) && Fits(k)
    ensures forall t :: t in DueNext(k) ==> 0 < t < |k.threads| && !k.threads[t].inReady
  {
    forall t | t in DueNext(k) ensures 0 < t < |k.threads| && !k.threads[t].inReady {
      assert t in k.sleepers;
      assert Fit(k.threads[t], t == 0);
    }
  }

  predicate Names(op: Op, m: QueueId) {
    match op
    case OpWait(_, q) => q == m
    case OpWaitFor(_, q, _) => q == m
    case OpWakeOne(q) => q == m
    case OpWakeAll(q) => q == m
    case _ => false
  }

  /** A scheduler step that does not name queue m can only take waiters out of it. */
  lemma StepShrunk(k: Kernel, op: Op, m: QueueId)
    requires Inv(k) && Legal(k, op) && m < |k.waits| && !Names(op, m)
    ensures Step(k, op).Ok? && m < |Step(k, op).value.waits|
    ensures Shrunk(k.waits[m], Step(k, op).value.waits[m])
  {
    StepSafe(k, op);
    StepShape(k, op);
    hide Shrunk;
    SameShrunk(k.waits[m]);
    match op
    case OpStart => StartInv(k);
    case OpWakeOne(q) => WakeOpShrunk(k, op, m);
    case OpWakeAll(q) => WakeOpShrunk(k, op, m);
    case OpTick(f) => if k.started { TickShrunk(k, f, m); }
    case OpCreate =>
    case OpCreateUser(_) =>
    case OpInitQueue =>
    case OpInitTask(_) =>
    case _ => if Parks(k, op) { ParkingShrunk(k, op, m); } else { StayInv(k, op); }
  }

  lemma SameShrunk(q: seq<Tid>)
    ensures Shrunk(q, q)
  {
  }

  lemma ParkingShrunk(k: Kernel, op: Op, m: QueueId)
    requires Inv(k) && Legal(k, op) && Parks(k, op) && m < |k.waits| && !Names(op, m)
    ensures Step(k, op).Ok? && m < |Step(k, op).value.waits|
    ensures Step(k, op).value.waits[m] == k.waits[m]
  {
    ParkingStep(k, op);
    hide Inv, Step, Parked, SleepInsert;
  }

  lemma WakeOpShrunk(k: Kernel, op: Op, m: QueueId)
    requires Inv(k) && Legal(k, op) && (op.OpWakeOne? || op.OpWakeAll?) && m < |k.waits|
    ensures Step(k, op).Ok? && m < |Step(k, op).value.waits|
    ensures Shrunk(k.waits[m], Step(k, op).value.waits[m])
  {
    if op.OpWakeOne? {
      WakeOneShrunk(k, op.q, m);
    } else {
      WakeAllShrunk(k, op.q, m);
    }
    hide Inv, WakeOne, WakeAll, Shrunk;
  }

  lemma WakeOneShrunk(k: Kernel, q: QueueId, m: QueueId)
    requires Inv(k) && q < |k.waits| && m < |k.waits|
    ensures WakeOne(k, q).Ok? && m < |WakeOne(k, q).value.0.waits|
    ensures Shrunk(k.waits[m], WakeOne(k, q).value.0.waits[m])
  {
    WakeOneIsWake(k, q);
    SameShrunk(k.waits[m]);
    if k.waits[q] != [] { WakeShrunk(k, k.waits[q][0], WaitOk, m); }
    hide Inv, WakeOne, Shrunk;
  }

  lemma WakeAllShrunk(k: Kernel, q: QueueId, m: QueueId)
    requires Inv(k) && q < |k.waits| && m < |k.waits|
    ensures WakeAll(k, q).Ok? && m < |WakeAll(k, q).value.waits|
    ensures Shrunk(k.waits[m], WakeAll(k, q).value.waits[m])
  {
    WakeAllIsWakeList(k, q);
    WaitersAwake(k, q);
    hide Fits, TasksLinked, OneRunning, Shrunk, WakeAll;
    WakeListShrunk(k, k.waits[q], Event, m);
  }

  lemma WaitersAwake(k: Kernel, q: QueueId)
    requires Inv(k) && q < |k.waits|
    ensures forall t :: t in k.waits[q] ==> 0 < t < |k.threads| && !k.threads[t].inReady
  {
    forall t | t in k.waits[q] ensures 0 < t < |k.threads| && !k.threads[t].inReady {
      WaiterQueue(k, q, t);
      assert Fit(k.threads[t], t == 0);
    }
  }

  // -------------------------------------------------------------- mutex steps

  /** From s to s1 nobody overtook t on mutex m. */
  ghost predicate InTurn(s: System, s1: System, m: MutexId, t: Tid) {
    && m < |s.owners| == |s1.owners| && m < |s.k.waits| && m < |s1.k.waits|
    && Ahead(s1.k.waits[m], t) <= Ahead(s.k.waits[m], t)
    && (s1.owners[m] == s.owners[m] ||
        (s1.owners[m].Some? && s1.owners[m].value in Ahead(s.k.waits[m], t)))
  }

  lemma InTurnTrans(a: System, b: System, c: System, m: MutexId, t: Tid)
    requires InTurn(a, b, m, t) && InTurn(b, c, m, t)
    ensures InTurn(a, c, m, t)
  {
    hide Ahead;
  }

  lemma AppendAhead(q: seq<Tid>, x: Tid, t: Tid)
    requires t in q
    ensures Ahead(q + [x], t) == Ahead(q, t)
  {
    var i := IndexOf(q, t);
    assert (q + [x])[i] == t && forall j :: 0 <= j < i ==> (q + [x])[j] == q[j];
    assert IndexOf(q + [x], t) == i;
    assert (q + [x])[..i] == q[..i];
  }

  lemma LockInTurn(s: System, op: MOp, m: MutexId, t: Tid)
    requires MInv(s) && MLegal(s, op) && (op.MLock? || op.MLockFor? || op.MTryLock?)
    requires m < |s.owners| && t in s.k.waits[m] && MStep(s, op).Ok?
    ensures InTurn(s, MStep(s, op).value.0, m, t)
  {
    assert MutexOk(s, m);
    hide Ahead;
    if !op.MTryLock? && HasToWait(s, op) {
      LockIsBlock(s, op);
      BlockKernel(s, op.m, TicksOf(op), op.f);
      hide MInv, MStep, MLegal, Inv, Step;
      AppendAhead(s.k.waits[m], Me(s), t);
    } else {
      hide Inv;
    }
  }

  lemma UnlockInTurn(s: System, i: MutexId, m: MutexId, t: Tid)
    requires MInv(s) && MLegal(s, MUnlock(i)) && m < |s.owners| && t in s.k.waits[m]
    requires MStep(s, MUnlock(i)).Ok? && t in MStep(s, MUnlock(i)).value.0.k.waits[m]
    ensures InTurn(s, MStep(s, MUnlock(i)).value.0, m, t)
  {
    UnlockIsHandedOver(s, i);
    var q := s.k.waits[i];
    if q != [] {
      QueueHead(s.k, i);
      WakeShrunk(s.k, q[0], WaitOk, m);
      assert QueueLinked(s.k.threads, q, i);
      if i == m {
        WithoutMembers(q, q[0]);
        HeadAhead(q, t);
      }
    }
    hide Inv, MInv, Ahead, MStep;
  }

  lemma HeadAhead(q: seq<Tid>, t: Tid)
    requires t in q && q[0] != t
    ensures q[0] in Ahead(q, t)
  {
    assert q[..IndexOf(q, t)][0] == q[0];
  }

  /** One step, whatever it is, while t keeps waiting for m. */
  lemma StepInTurn(s: System, op: MOp, m: MutexId, t: Tid)
    requires MInv(s) && MLegal(s, op) && m < |s.owners| && t in s.k.waits[m]
    requires MStep(s, op).Ok? && m < |MStep(s, op).value.0.k.waits|
    requires t in MStep(s, op).value.0.k.waits[m]
    ensures InTurn(s, MStep(s, op).value.0, m, t)
  {
    match op
    case MUnlock(i) => UnlockInTurn(s, i, m, t);
    case MResume(f) => ResumeCases(s, f);
    case MSched(o) => StepShrunk(s.k, o, m); hide Ahead;
    case _ => LockInTurn(s, op, m, t);
  }

  ghost predicate KeepsWaiting(s: System, ops: seq<MOp>, m: MutexId, t: Tid)
    requires MLegalRun(s, ops)
    decreases |ops|
  {
    m < |s.k.waits| && t in s.k.waits[m] &&
    (ops != [] && MStep(s, ops[0]).Ok? ==> KeepsWaiting(MStep(s, ops[0]).value.0, ops[1..], m, t))
  }

  /** Over any run during which t waits for m, the mutex is held by its first owner or by
      one of the waiters that were ahead of t at the start: no barging, and the set ahead
      of t never gains a member. */
  lemma {:induction false} NoBarging(s: System, ops: seq<MOp>, m: MutexId, t: Tid)
    requires MInv(s) && MLegalRun(s, ops) && m < |s.owners| && KeepsWaiting(s, ops, m, t)
    ensures MExecute(s, ops).Ok? && InTurn(s, MExecute(s, ops).value, m, t)
    decreases |ops|
  {
    if ops != [] {
      MutexStepSafe(s, ops[0]);
      var s1 := MStep(s, ops[0]).value.0;
      StepInTurn(s, ops[0], m, t);
      hide MInv, MLegal, MStep, InTurn;
      assert m < |s1.owners| by { SameMutexes(s, s1, m, t); }
      NoBarging(s1, ops[1..], m, t);
      InTurnTrans(s, s1, MExecute(s, ops).value, m, t);
    }
  }

  lemma SameMutexes(s: System, s1: System, m: MutexId, t: Tid)
    requires InTurn(s, s1, m, t)
    ensures m < |s1.owners|
  {
  }

  /** Unlocking hands the mutex to the longest waiter, or frees it when there is none. */
  lemma HandoverInOrder(s: System, m: MutexId)
    requires MInv(s) && MLegal(s, MUnlock(m))
    ensures MStep(s, MUnlock(m)).Ok?
    ensures var s1 := MStep(s, MUnlock(m)).value.0; var q := s.k.waits[m];
      if q == [] then s1 == s.(owners := s.owners[m := None])
      else
        && s1.owners == s.owners[m := Some(q[0])]
        && m < |s1.k.waits| && s1.k.waits[m] == q[1..]
        && q[0] < |s.k.threads| && q[0] < |s1.k.threads|
        && s1.k.threads[q[0]] == Woken(s.k.threads[q[0]], WaitOk)
  {
    UnlockIsHandedOver(s, m);
    if s.k.waits[m] != [] {
      QueueHead(s.k, m);
      WithoutHead(s.k.waits[m]);
      hide Inv, Unlock;
    }
  }
}
