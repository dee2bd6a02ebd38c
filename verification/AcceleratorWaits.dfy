/**
 * The accelerator's view of its submitter is the scheduler's: the phase of the driver's
 * wait loop is read off the submitting thread's record, and moves as the driver assumes.
 */
module AcceleratorWaits {
  import opened SeqTools
  import opened Scheduler
  import opened SchedulerInvariant
  import opened SchedulerRuns
  import opened TimedWaits
  import Accelerator

  /** The phase of a submitter with this record; finite says whether its wait has a deadline. */
  function PhaseOf(th: Thread, finite: bool): Accelerator.Phase {
    if th.state == Blocked then Accelerator.Waiting(finite)
    else if th.result == WaitTimeout then Accelerator.WokenTimeout
    else Accelerator.WokenOk(finite)
  }

  /** A thread asleep in the driver, on wait queue q. */
  ghost predicate AsleepOn(k: Kernel, t: Tid, q: QueueId) {
    t < |k.threads| && k.threads[t].state == Blocked && k.threads[t].queue == Some(q)
  }

  function Timed(th: Thread): bool {
    th.reason == TimedWaiting
  }

  lemma Deadlined(k: Kernel, t: Tid, q: QueueId)
    requires Inv(k) && AsleepOn(k, t, q)
    ensures k.threads[t].reason == Waiting || k.threads[t].reason == TimedWaiting
    ensures q < |k.waits| && forall p :: 0 <= p < |k.waits| && t in k.waits[p] ==> p == q
  {
    assert Fit(k.threads[t], t == 0);
    forall p | 0 <= p < |k.waits| && t in k.waits[p]
      ensures p == q
    {
      assert QueueLinked(k.threads, k.waits[p], p);
    }
  }

  /**
   * One scheduler operation.  A wake on the driver's queue moves the phase as the interrupt
   * handler does, a tick past the deadline moves it as an expiry does, and only if the wait
   * has a deadline; every other operation leaves it alone.
   */
  lemma PhaseStep(k: Kernel, op: Op, t: Tid, q: QueueId, s: Accelerator.State)
    requires Inv(k) && Legal(k, op) && AsleepOn(k, t, q)
    requires s.req.phase == PhaseOf(k.threads[t], Timed(k.threads[t]))
    ensures Step(k, op).Ok? && t < |Step(k, op).value.threads|
    ensures var th, after := k.threads[t], Step(k, op).value.threads[t];
      match EndedBy(k, op, t)
      case None => PhaseOf(after, Timed(th)) == s.req.phase
      case Some(WaitOk) => op in {OpWakeOne(q), OpWakeAll(q)} && PhaseOf(after, Timed(th)) == Accelerator.Wake(s.req.phase)
      case Some(WaitTimeout) =>
        op.OpTick? && s.req.phase == Accelerator.Waiting(true) && PhaseOf(after, Timed(th)) == Accelerator.Expire(s).req.phase
  {
    Deadlined(k, t, q);
    WakeNamesQueue(k, op, t, q);
    hide Inv, Legal, Step;
    RecordEffect(k, op, t);
  }

  lemma WakeNamesQueue(k: Kernel, op: Op, t: Tid, q: QueueId)
    requires Inv(k) && Legal(k, op) && AsleepOn(k, t, q)
    ensures EndedBy(k, op, t) == Some(WaitOk) ==> op in {OpWakeOne(q), OpWakeAll(q)}
    ensures EndedBy(k, op, t) == Some(WaitTimeout) ==> op.OpTick? && Timed(k.threads[t])
  {
    Deadlined(k, t, q);
    hide Inv, DueNext;
    if op.OpWakeOne? && k.waits[op.q] != [] && k.waits[op.q][0] == t {
      assert t in k.waits[op.q];
    }
  }

  /** Over any run until the submitter is dispatched, its phase is decided once, by the first
      operation that ends the wait. */
  lemma PhaseRun(k: Kernel, ops: seq<Op>, t: Tid, q: QueueId)
    requires Inv(k) && LegalRun(k, ops) && AsleepOn(k, t, q) && Undispatched(k, ops, t)
    ensures Execute(k, ops).Ok? && t < |Execute(k, ops).value.threads|
    ensures var th, after := k.threads[t], Execute(k, ops).value.threads[t];
      var before := PhaseOf(th, Timed(th));
      PhaseOf(after, Timed(th)) == match FirstEnd(k, ops, t)
        case None => before
        case Some(WaitOk) => Accelerator.Wake(before)
        case Some(WaitTimeout) => Accelerator.WokenTimeout
  {
    hide Inv, LegalRun, Execute, FirstEnd, Undispatched;
    WaitEndsOnce(k, ops, t);
  }
}
