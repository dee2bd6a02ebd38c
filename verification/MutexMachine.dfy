/** The mutexes of kernel/core/sync.c over the in-place kernel.  A PANIC is an assert false. */
module MutexMachine {
  import opened SeqTools
  import opened Scheduler
  import opened SchedulerInvariant
  import opened SchedulerRuns
  import opened Mutexes
  import opened KernelMachine

  class MutexTable {
    const kernel: Machine
    var owners: seq<Option<Tid>>
    var pcs: seq<Pc>

    ghost predicate Valid()
      reads this, kernel.Repr
    {
      this !in kernel.Repr && kernel.Valid()
    }

    ghost function Sys(): System
      reads this, kernel
    {
      System(kernel.st, owners, pcs)
    }

    /** Mutexes over a kernel that has just started; mutex m uses the empty queue m. */
    constructor (kernel: Machine, mutexes: nat)
      requires kernel.Valid() && Inv(kernel.st) && kernel.st.started && mutexes <= |kernel.waits|
      requires forall q :: 0 <= q < |kernel.st.waits| ==> kernel.st.waits[q] == []
      ensures this.kernel == kernel && Valid() && MInv(Sys()) && |owners| == mutexes
    {
      this.kernel := kernel;
      owners := seq(mutexes, _ => None);
      pcs := seq(kernel.threads.Length, _ => Idle);
      new;
      FreshMutexes(kernel.st, mutexes);
    }

    lemma QueueExists(m: MutexId)
      requires Valid() && m < |kernel.st.waits|
      ensures m < |kernel.waits|
    {
    }

    /** mutex_lock, up to the point where it blocks */
    method Lock(m: MutexId, f: Frame) returns (r: Reply)
      requires Valid() && MInv(Sys()) && MLegal(Sys(), MLock(m, f))
      modifies this, kernel.Repr
      ensures Valid() && MInv(Sys()) && Mutexes.Lock(old(Sys()), m, f) == Ok((Sys(), r))
    {
      hide MInv, MLegal, Inv, Legal, Scheduler.Wait, Machine.Valid;
      LockFacts(Sys(), MLock(m, f));
      var t := kernel.CurrentTid();
      if t == 0 || owners[m] == Some(t) { assert false; }
      if owners[m].None? {
        owners := owners[m := Some(t)];
        return Acquired;
      }
      kernel.Wait(f, m);
      pcs := pcs[t := Locking(m)];
      return StillBlocked;
    }

    /** mutex_lock_timeout, up to the point where it blocks */
    method LockFor(m: MutexId, ticks: nat, f: Frame) returns (r: Reply)
      requires Valid() && MInv(Sys()) && MLegal(Sys(), MLockFor(m, ticks, f))
      modifies this, kernel.Repr
      ensures Valid() && MInv(Sys()) && Mutexes.LockFor(old(Sys()), m, ticks, f) == Ok((Sys(), r))
    {
      hide MInv, MLegal, Inv, Legal, Scheduler.WaitFor, Machine.Valid;
      LockFacts(Sys(), MLockFor(m, ticks, f));
      var t := kernel.CurrentTid();
      if t == 0 || owners[m] == Some(t) { assert false; }
      if owners[m].None? {
        owners := owners[m := Some(t)];
        return Acquired;
      }
      if ticks == 0 {
        return TimedOut;
      }
      var _ := kernel.WaitFor(f, m, ticks);
      pcs := pcs[t := TimedLocking(m)];
      return StillBlocked;
    }

    /** The rest of a lock call, run when the thread is dispatched again.  A plain locker
        comes back as the owner, so the source's loop never goes round a second time; a
        timed one has given up, or is the owner. */
    method Resume(f: Frame) returns (r: Reply)
      requires Valid() && MInv(Sys()) && MLegal(Sys(), MResume(f))
      modifies this, kernel.Repr
      ensures Valid() && MInv(Sys()) && Mutexes.Resume(old(Sys()), f) == Ok((Sys(), r))
    {
      MutexStepSafe(Sys(), MResume(f));
      ResumeCases(Sys(), f);
      hide MInv, Machine.Valid;
      var t := kernel.CurrentTid();
      match pcs[t]
      case Idle => assert false;
      case Locking(m) =>
        if owners[m] != Some(t) { assert false; }
        pcs := pcs[t := Idle];
        r := Acquired;
      case TimedLocking(m) =>
        var a0 := kernel.SavedWord(t);
        if a0 == Word(WaitTimeout) {
          pcs := pcs[t := Idle];
          return TimedOut;
        }
        if owners[m] != Some(t) { assert false; }
        pcs := pcs[t := Idle];
        r := Acquired;
    }

    /** mutex_trylock */
    method TryLock(m: MutexId) returns (r: Reply)
      requires Valid() && MInv(Sys()) && MLegal(Sys(), MTryLock(m))
      modifies this
      ensures Valid() && MInv(Sys()) && Mutexes.TryLock(old(Sys()), m) == Ok((Sys(), r))
    {
      MutexStepSafe(Sys(), MTryLock(m));
      hide MInv, Machine.Valid;
      var t := kernel.CurrentTid();
      if t == 0 || owners[m] == Some(t) { assert false; }
      if owners[m].Some? {
        return Refused;
      }
      owners := owners[m := Some(t)];
      return Acquired;
    }

    /** mutex_unlock */
    method Unlock(m: MutexId) returns (r: Reply)
      requires Valid() && MInv(Sys()) && MLegal(Sys(), MUnlock(m))
      modifies this, kernel.Repr
      ensures Valid() && MInv(Sys()) && Mutexes.Unlock(old(Sys()), m) == Ok((Sys(), r))
    {
      hide MInv, MLegal, Inv, Scheduler.WakeOne, Machine.Valid;
      UnlockFacts(Sys(), m);
      QueueExists(m);
      var t := kernel.CurrentTid();
      if t == 0 || owners[m] != Some(t) { assert false; }
      var next := kernel.Notify(m);
      owners := owners[m := next];
      return Released;
    }
  }

  /** What a lock call knows on entry, and that it will neither panic nor break anything. */
  lemma LockFacts(s: System, op: MOp)
    requires MInv(s) && MLegal(s, op) && (op.MLock? || op.MLockFor?)
    ensures Inv(s.k) && Shape(s) && op.m < |s.owners| && Me(s) != 0 && s.owners[op.m] != Some(Me(s))
    ensures Legal(s.k, OpWait(op.f, op.m))
    ensures op.MLock? ==>
      Mutexes.Lock(s, op.m, op.f).Ok? && MInv(Mutexes.Lock(s, op.m, op.f).value.0)
    ensures op.MLockFor? ==>
      && Legal(s.k, OpWaitFor(op.f, op.m, op.ticks))
      && Mutexes.LockFor(s, op.m, op.ticks, op.f).Ok?
      && MInv(Mutexes.LockFor(s, op.m, op.ticks, op.f).value.0)
  {
    MutexStepSafe(s, op);
    hide Inv, Mutexes.Lock, Mutexes.LockFor;
  }

  lemma UnlockFacts(s: System, m: MutexId)
    requires MInv(s) && MLegal(s, MUnlock(m))
    ensures Inv(s.k) && Shape(s) && m < |s.owners| && Me(s) != 0 && s.owners[m] == Some(Me(s))
    ensures Mutexes.Unlock(s, m).Ok? && MInv(Mutexes.Unlock(s, m).value.0)
  {
    MutexStepSafe(s, MUnlock(m));
    assert MutexOk(s, m);
    hide Inv, Mutexes.Unlock;
  }

  /** Unowned mutexes over empty queues satisfy the mutex invariant. */
  lemma FreshMutexes(k: Kernel, n: nat)
    requires Inv(k) && k.started && n <= |k.waits|
    requires forall q :: 0 <= q < |k.waits| ==> k.waits[q] == []
    ensures MInv(System(k, seq(n, _ => None), seq(|k.threads|, _ => Idle)))
  {
    var s := System(k, seq(n, _ => None), seq(|k.threads|, _ => Idle));
    forall t | 0 <= t < |s.pcs| ensures PcOk(s, t) {
      var q := k.threads[t].queue;
      assert q.Some? ==> QueueLinked(k.threads, k.waits[q.value], q.value);
    }
    forall m | 0 <= m < |s.owners| ensures MutexOk(s, m) {
    }
    hide Inv, PcOk, MutexOk;
  }
}
