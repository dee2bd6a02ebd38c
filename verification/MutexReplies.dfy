/** What a mutex call tells its caller: the reply is Acquired exactly when the caller is the owner. */
module MutexReplies {
  import opened SeqTools
  import opened Scheduler
  import opened SchedulerInvariant
  import opened Wakeups
  import opened Switches
  import opened SchedulerRuns
  import opened TimedWaits
  import opened Mutexes
  import ThreadFrames

  /** A call that asks for mutex m. */
  predicate Tries(op: MOp, m: MutexId) {
    match op
    case MLock(i, _) => i == m
    case MLockFor(i, _, _) => i == m
    case MTryLock(i) => i == m
    case _ => false
  }

  /** A call that asks for mutex m, or the rest of one that had to wait for it. */
  ghost predicate Asks(s: System, op: MOp, m: MutexId)
    requires Shape(s)
  {
    Tries(op, m) || (op.MResume? && s.pcs[Me(s)] != Idle && s.pcs[Me(s)].m == m)
  }

  /** The caller's wait for m has begun: it is last in the queue and the owner is who it was. */
  ghost predicate Queued(s: System, s1: System, m: MutexId)
    requires Shape(s)
  {
    && m < |s.k.waits| && s1.owners == s.owners && s1.k.waits == s.k.waits[m := s.k.waits[m] + [Me(s)]]
    && Me(s) < |s1.k.threads| && s1.k.threads[Me(s)].state == Blocked
  }

  /**
   * Every legal lock, timed lock, trylock and resumption.  On a free mutex the call succeeds;
   * on one that another thread owns, trylock and a timed lock without ticks refuse and the
   * others wait; a resumed lock has succeeded or timed out.
   */
  lemma ReplyTellsOwner(s: System, op: MOp, m: MutexId)
    requires MInv(s) && MLegal(s, op) && Asks(s, op, m)
    ensures MStep(s, op).Ok? && m < |s.owners|
    ensures var (s1, r) := MStep(s, op).value;
      && m < |s1.owners| && (r == Acquired <==> s1.owners[m] == Some(Me(s)))
      && (Tries(op, m) ==> r == if s.owners[m].None? then Acquired
                                else if op.MTryLock? then Refused
                                else if op.MLockFor? && op.ticks == 0 then TimedOut
                                else StillBlocked)
      && (op.MResume? ==> r == Acquired || (r == TimedOut && s.pcs[Me(s)].TimedLocking?))
      && (r == Acquired ==> s1 == s.(owners := s.owners[m := Some(Me(s))], pcs := s.pcs[Me(s) := Idle]))
      && (r == Refused || r == TimedOut ==> s1 == s.(pcs := s.pcs[Me(s) := Idle]))
      && (r == StillBlocked ==> Queued(s, s1, m))
  {
    MutexStepSafe(s, op);
    if op.MResume? {
      ResumeCases(s, op.f);
      OwnSlot(s, m);
    } else {
      TryReply(s, op, m);
    }
  }

  lemma OwnSlot(s: System, m: MutexId)
    requires Shape(s) && m < |s.owners|
    ensures s.owners[m] == Some(Me(s)) ==> s.owners[m := Some(Me(s))] == s.owners
    ensures s.pcs[Me(s)] == Idle ==> s.pcs[Me(s) := Idle] == s.pcs
  {
  }

  lemma TryReply(s: System, op: MOp, m: MutexId)
    requires MInv(s) && MLegal(s, op) && Tries(op, m)
    ensures MStep(s, op).Ok? && m < |s.owners|
    ensures var (s1, r) := MStep(s, op).value;
      && r == (if s.owners[m].None? then Acquired
               else if op.MTryLock? then Refused
               else if op.MLockFor? && op.ticks == 0 then TimedOut
               else StillBlocked)
      && (r == Acquired ==> s1 == s.(owners := s.owners[m := Some(Me(s))], pcs := s.pcs[Me(s) := Idle]))
      && (r == Refused || r == TimedOut ==> s1 == s.(pcs := s.pcs[Me(s) := Idle]))
      && (r == StillBlocked ==> Queued(s, s1, m))
  {
    if s.owners[m].Some? && (op.MLock? || (op.MLockFor? && op.ticks != 0)) {
      WaitReply(s, op, m);
    } else {
      MutexStepSafe(s, op);
      hide Inv, Scheduler.Wait, Scheduler.WaitFor, PcOk, MutexOk;
      OwnSlot(s, m);
    }
  }

  lemma WaitReply(s: System, op: MOp, m: MutexId)
    requires MInv(s) && MLegal(s, op) && Tries(op, m) && s.owners[m].Some?
    requires op.MLock? || (op.MLockFor? && op.ticks != 0)
    ensures MStep(s, op).Ok? && m < |s.owners|
    ensures MStep(s, op).value.1 == StillBlocked && Queued(s, MStep(s, op).value.0, m)
  {
    LockIsBlock(s, op);
    hide Inv, MInv, MStep, MLegal, Step;
    BlockKernel(s, m, TicksOf(op), op.f);
  }

  /** c is blocked in the queue of m with frame f, and the processor is the next thread's.  With
      ticks c is also asleep, until now + ticks modulo 2^64. */
  ghost predicate WaitsIn(k: Kernel, k1: Kernel, c: Tid, m: MutexId, ticks: nat, f: Frame) {
    && c < |k1.threads| && k1.threads[c].state == Blocked && k1.threads[c].queue == Some(m) && k1.threads[c].frame == Some(f)
    && k1.current == Some(if k.ready == [] then 0 else k.ready[0])
    && (ticks == 0 <==> c !in k1.sleepers)
    && (ticks != 0 ==> k1.threads[c].wakeTick == (k.now + ticks) % 0x1_0000_0000_0000_0000)
  }

  /** How a lock call waits: with a deadline exactly when it was given one. */
  lemma WaitsUntil(s: System, op: MOp, m: MutexId)
    requires MInv(s) && MLegal(s, op) && Tries(op, m) && m < |s.owners| && s.owners[m].Some?
    requires op.MLock? || (op.MLockFor? && op.ticks != 0)
    ensures MStep(s, op).Ok?
    ensures WaitsIn(s.k, MStep(s, op).value.0.k, Me(s), m, if op.MLock? then 0 else op.ticks, op.f)
  {
    LockIsBlock(s, op);
    hide MInv, MStep, MLegal, Step, WaitsIn, Legal, Inv;
    BlockWaits(s.k, m, TicksOf(op), op.f);
  }

  lemma BlockWaits(k: Kernel, m: MutexId, ticks: nat, f: Frame)
    requires Inv(k) && k.started && HasCurrent(k) && Legal(k, BlockOp(m, ticks, f))
    ensures Step(k, BlockOp(m, ticks, f)).Ok?
    ensures WaitsIn(k, Step(k, BlockOp(m, ticks, f)).value, k.current.value, m, ticks, f)
  {
    if ticks == 0 {
      PlainWait(k, f, m);
    } else {
      TimedWait(k, f, m, ticks);
    }
    hide Inv, WaitsIn, Scheduler.Wait, Scheduler.WaitFor;
  }

  lemma PlainWait(k: Kernel, f: Frame, m: MutexId)
    requires Inv(k) && k.started && RealTrap(k, f) && m < |k.waits|
    ensures Wait(k, f, m).Ok? && HasCurrent(k) && WaitsIn(k, Wait(k, f, m).value, k.current.value, m, 0, f)
  {
    CurrentFits(k);
    ThreadFrames.WaitExact(k, f, m);
    hide Inv, Scheduler.Wait;
  }

  lemma TimedWait(k: Kernel, f: Frame, m: MutexId, ticks: nat)
    requires Inv(k) && k.started && RealTrap(k, f) && m < |k.waits| && ticks != 0
    ensures WaitFor(k, f, m, ticks).Ok? && HasCurrent(k) && WaitsIn(k, WaitFor(k, f, m, ticks).value, k.current.value, m, ticks, f)
  {
    hide Inv, Scheduler.WaitFor, OwnPlace;
    ThreadFrames.WaitForExact(k, f, m, ticks);
  }

  /** A mutex changes hands only when its owner unlocks it. */
  lemma OwnerStays(s: System, op: MOp, m: MutexId, t: Tid)
    requires MInv(s) && MLegal(s, op) && m < |s.owners| && s.owners[m] == Some(t) && op != MUnlock(m)
    ensures MStep(s, op).Ok? && m < |MStep(s, op).value.0.owners|
    ensures MStep(s, op).value.0.owners[m] == Some(t)
  {
    MutexStepSafe(s, op);
    match op
    case MLock(i, f) => TryReply(s, op, i);
    case MLockFor(i, ticks, f) => TryReply(s, op, i);
    case MTryLock(i) => TryReply(s, op, i);
    case MUnlock(i) => UnlockIsHandedOver(s, i);
    case MResume(f) => ResumeCases(s, f);
    case MSched(_) =>
  }

  /** Unlocking replies that it has, and ends the caller's ownership. */
  lemma UnlockReply(s: System, m: MutexId)
    requires MInv(s) && MLegal(s, MUnlock(m))
    ensures MStep(s, MUnlock(m)).Ok? && MStep(s, MUnlock(m)).value.1 == Released
    ensures var s1 := MStep(s, MUnlock(m)).value.0; m < |s1.owners| && s1.owners[m] != Some(Me(s))
  {
    UnlockIsHandedOver(s, m);
    NotWaiting(s, m);
  }

  lemma NotWaiting(s: System, m: MutexId)
    requires MInv(s) && m < |s.k.waits|
    ensures Me(s) !in s.k.waits[m]
  {
    CurrentFits(s.k);
  }

  // -------------------------------------------------------- mutual exclusion

  /** The threads that believe they are inside m after one call: told so, and not left since. */
  ghost function Told(s: System, op: MOp, m: MutexId, inside: set<Tid>): set<Tid>
    requires Shape(s) && MLegal(s, op)
  {
    if MStep(s, op).Panic? then inside
    else if op == MUnlock(m) then inside - {Me(s)}
    else if Asks(s, op, m) && MStep(s, op).value.1 == Acquired then inside + {Me(s)}
    else inside
  }

  ghost function Inside(s: System, ops: seq<MOp>, m: MutexId, inside: set<Tid>): set<Tid>
    requires MInv(s) && MLegalRun(s, ops)
    decreases |ops|
  {
    if ops == [] then inside
    else
      MutexStepSafe(s, ops[0]);
      Inside(MStep(s, ops[0]).value.0, ops[1..], m, Told(s, ops[0], m, inside))
  }

  /** Whoever believes to be inside m is the owner of m. */
  ghost predicate Believed(s: System, m: MutexId, inside: set<Tid>) {
    forall t :: t in inside ==> m < |s.owners| && s.owners[m] == Some(t)
  }

  lemma ToldOwner(s: System, op: MOp, m: MutexId, inside: set<Tid>)
    requires MInv(s) && MLegal(s, op) && Believed(s, m, inside) && m < |s.owners|
    ensures MStep(s, op).Ok? && Believed(MStep(s, op).value.0, m, Told(s, op, m, inside))
    ensures m < |MStep(s, op).value.0.owners|
  {
    MutexStepSafe(s, op);
    SameCount(s, op);
    if op != MUnlock(m) {
      if Asks(s, op, m) {
        ReplyTellsOwner(s, op, m);
      }
      forall t | t in inside
        ensures MStep(s, op).value.0.owners[m] == Some(t)
      {
        OwnerStays(s, op, m, t);
      }
    }
  }

  lemma SameCount(s: System, op: MOp)
    requires MInv(s) && MLegal(s, op)
    ensures MStep(s, op).Ok? && |MStep(s, op).value.0.owners| == |s.owners|
  {
    MutexStepSafe(s, op);
    hide Inv, Step, MInv, Scheduler.Wait, Scheduler.WaitFor, Scheduler.WakeOne;
  }

  /**
   * Mutual exclusion.  Over any run of mutex and scheduler operations, two threads that were
   * told they have m and have not unlocked it since are the same thread, and it owns m.
   */
  lemma {:induction false} MutualExclusion(s: System, ops: seq<MOp>, m: MutexId, inside: set<Tid>, t: Tid, u: Tid)
    requires MInv(s) && MLegalRun(s, ops) && m < |s.owners| && Believed(s, m, inside)
    requires t in Inside(s, ops, m, inside) && u in Inside(s, ops, m, inside)
    ensures t == u && MExecute(s, ops).Ok?
    ensures m < |MExecute(s, ops).value.owners| && MExecute(s, ops).value.owners[m] == Some(t)
    decreases |ops|
  {
    if ops != [] {
      MutexStepSafe(s, ops[0]);
      ToldOwner(s, ops[0], m, inside);
      var next := Told(s, ops[0], m, inside);
      hide MInv, MLegal, MStep, Told;
      MutualExclusion(MStep(s, ops[0]).value.0, ops[1..], m, next, t, u);
    }
  }
}
