/** What every interleaving of driver, device, interrupt, timer and clients keeps. */
module AcceleratorRuns {
  import opened SeqTools
  import opened Pages
  import opened UserCopy
  import opened Accelerator

  datatype Op =
    | SubmitOp(a: nat, ticks: nat)
    | DeviceOp
    | IrqOp
    | ExpireOp
    | ResumeOp
    | ControlOp(start: bool, reset: bool, unknown: bool)
    | AckOp(done: bool, error: bool, unknown: bool)
    | ProbeOp
    | WriteDesc(a: nat, cmd: Cmd)
    | WriteByte(a: nat, v: nat)

  predicate InRange(c: Cmd, a: nat) {
    c.dst <= a < c.dst + c.len
  }

  /** The device has been told to start on the descriptor at a and has not done so. */
  predicate PendingAt(s: State, a: nat) {
    s.dev.start && s.dev.cmdBase == a
  }

  /**
   * Submitters do not share a descriptor, and clients leave alone a descriptor in use or
   * pending at the device and the bytes a request in use is to fill; a driver is probed once.
   */
  predicate Legal(s: State, op: Op) {
    match op
    case SubmitOp(a, _) => !(s.req.inUse && s.req.cmd == a)
    case ResumeOp => s.req.phase.WokenOk? || s.req.phase.WokenTimeout?
    case ProbeOp => !s.bound
    case WriteDesc(a, _) => !(s.req.inUse && s.req.cmd == a) && !PendingAt(s, a)
    case WriteByte(a, _) => !(s.req.inUse && InRange(DescAt(s, s.req.cmd), a))
    case _ => true
  }

  function Next(s: State, op: Op): State
    requires Legal(s, op)
  {
    match op
    case SubmitOp(a, ticks) => Submit(s, a, ticks).0
    case DeviceOp => DeviceStep(s)
    case IrqOp => Irq(s)
    case ExpireOp => Expire(s)
    case ResumeOp => Resume(s).0
    case ControlOp(start, reset, unknown) => WriteControl(s, start, reset, unknown).0
    case AckOp(done, error, unknown) => AckIrq(s, done, error, unknown).0
    case ProbeOp => Probe(s)
    case WriteDesc(a, cmd) => s.(desc := s.desc[a := cmd])
    case WriteByte(a, v) => s.(ram := s.ram[a := v])
  }

  // --------------------------------------------------------------- invariant

  ghost predicate HoldsFill(ram: Bytes, c: Cmd) {
    forall a :: c.dst <= a < c.dst + c.len ==> Load(ram, a) == c.value % 256
  }

  /** A claimed slot: its descriptor is either still pending or has been carried out once. */
  ghost predicate Claimed(s: State) {
    var c := DescAt(s, s.req.cmd);
    && s.req.cmd != 0 && s.dev.cmdBase == s.req.cmd && !s.req.resetRequired
    && PointerSafe(s.lo, s.hi, s.req.cmd) && PayloadValid(s.lo, s.hi, c) && s.req.phase != NoWait
    && (s.req.phase.Waiting? ==> !s.req.completed)
    && (s.req.phase.WokenOk? ==> s.req.completed)
    && (if s.dev.start then c.status == Pending && s.fills == 0 && !s.req.completed
        else
          && s.dev.status == Done && c.status == CmdOk && s.fills == 1 && HoldsFill(s.ram, c) && !s.dev.irqError
          && (if s.req.completed then s.req.result == AccelOk else s.dev.irqDone))
  }

  /** A free slot. */
  ghost predicate Free(s: State) {
    && s.req.cmd == 0 && !s.req.completed && s.req.phase == NoWait && s.fills <= 1
    && (s.dev.start ==> s.req.resetRequired && DescAt(s, s.dev.cmdBase).status != Pending)
  }

  ghost predicate Inv(s: State) {
    && !s.dev.reset && !s.dev.ackDone && !s.dev.ackError && s.dev.status != Busy
    && (s.dev.start ==> s.dev.status == Idle && s.dev.cmdBase != 0)
    && (s.dev.status == Idle ==> !IrqPending(s) && (s.dev.cmdBase != 0 ==> s.dev.start))
    && (s.req.inUse || s.req.resetRequired ==> s.bound)
    && (if s.req.inUse then Claimed(s) else Free(s))
  }

  // ------------------------------------------------------------- device steps

  lemma {:induction false} FilledAt(ram: Bytes, dst: nat, n: nat, value: nat, a: nat)
    ensures Load(Filled(ram, dst, n, value), a) == if dst <= a < dst + n then value else Load(ram, a)
    decreases n
  {
    if n > 0 {
      FilledAt(ram, dst, n - 1, value, a);
    }
  }

  /** The one step that writes: a claimed, pending request is carried out in full. */
  lemma FillStep(s: State)
    requires Inv(s) && s.dev.start && s.req.inUse
    ensures var c, t := DescAt(s, s.req.cmd), DeviceStep(s);
      && t == s.(dev := s.dev.(status := Done, start := false, irqDone := true, irqError := false),
                 desc := s.desc[s.req.cmd := c.(status := CmdOk)],
                 ram := Filled(s.ram, c.dst, c.len, c.value % 256), fills := 1)
      && HoldsFill(t.ram, c)
  {
    hide Filled, RangeContained;
    var c := DescAt(s, s.req.cmd);
    forall a | c.dst <= a < c.dst + c.len
      ensures Load(Filled(s.ram, c.dst, c.len, c.value % 256), a) == c.value % 256
    {
      FilledAt(s.ram, c.dst, c.len, c.value % 256, a);
    }
  }

  /** A start left pending by a timeout writes no byte and ends in the error state. */
  lemma StaleStep(s: State)
    requires Inv(s) && s.dev.start && !s.req.inUse
    ensures var t := DeviceStep(s);
      && t.dev == s.dev.(status := Faulty, start := false, irqDone := false, irqError := true)
      && (DescAt(s, s.dev.cmdBase).status == TimedOut ==> t.desc == s.desc)
      && t.ram == s.ram && t.fills == s.fills && t.req == s.req && t.lo == s.lo && t.hi == s.hi && t.bound == s.bound
  {
    hide Filled, Contained, PayloadValid;
  }

  /** Without a start the step only takes acknowledgements. */
  lemma QuietStep(s: State)
    requires !s.dev.start && !s.dev.reset
    ensures DeviceStep(s) == s.(dev := s.dev.(irqDone := s.dev.irqDone && !s.dev.ackDone,
                                              irqError := s.dev.irqError && !s.dev.ackError, ackDone := false, ackError := false))
  {
  }

  lemma DeviceSafe(s: State)
    requires Inv(s)
    ensures Inv(DeviceStep(s))
  {
    hide Filled, Contained, HoldsFill, DeviceStep, PayloadValid;
    if !s.dev.start {
      QuietStep(s);
    } else if s.req.inUse {
      FillStep(s);
      StillValid(s, DeviceStep(s), s.req.cmd, DescAt(s, s.req.cmd), CmdOk);
    } else {
      StaleStep(s);
    }
  }

  /** What a claimed descriptor says does not depend on its status word. */
  lemma StillValid(s: State, t: State, a: nat, c: Cmd, st: CmdStatus)
    requires s.lo == t.lo && s.hi == t.hi
    ensures PointerSafe(t.lo, t.hi, a) == PointerSafe(s.lo, s.hi, a)
    ensures PayloadValid(t.lo, t.hi, c.(status := st)) == PayloadValid(s.lo, s.hi, c)
    ensures HoldsFill(t.ram, c.(status := st)) == HoldsFill(t.ram, c)
  {
  }

  // ---------------------------------------------------------------- each step

  lemma SubmitSafe(s: State, a: nat, ticks: nat)
    requires Inv(s) && Legal(s, SubmitOp(a, ticks))
    ensures Inv(Submit(s, a, ticks).0)
  {
    hide Contained, HoldsFill;
    var t := Submit(s, a, ticks).0;
    StillValid(s, t, a, DescAt(s, a), Pending);
    StillValid(s, t, s.req.cmd, DescAt(s, s.req.cmd), DescAt(s, s.req.cmd).status);
    hide PointerSafe, PayloadValid;
  }

  lemma IrqSafe(s: State)
    requires Inv(s)
    ensures Inv(Irq(s))
  {
    hide Contained, HoldsFill, DeviceStep, PointerSafe, PayloadValid;
    if IrqPending(s) {
      assert !s.dev.start;
      var acked := s.(dev := s.dev.(ackDone := s.dev.irqDone, ackError := s.dev.irqError));
      QuietStep(acked);
      if s.req.inUse {
        QuietStep(acked.(req := s.req.(result := AccelOk, completed := true)));
        StillValid(s, Irq(s), s.req.cmd, DescAt(s, s.req.cmd), CmdOk);
      }
    }
  }

  lemma ResumeSafe(s: State)
    requires Inv(s) && Legal(s, ResumeOp)
    ensures Inv(Resume(s).0)
  {
    hide Contained, HoldsFill, PointerSafe, PayloadValid;
  }

  lemma ControlSafe(s: State, start: bool, reset: bool, unknown: bool)
    requires Inv(s)
    ensures Inv(WriteControl(s, start, reset, unknown).0)
  {
    hide StartDescriptor, HoldsFill, PointerSafe, PayloadValid, Contained;
  }

  lemma AckSafe(s: State, done: bool, error: bool, unknown: bool)
    requires Inv(s)
    ensures Inv(AckIrq(s, done, error, unknown).0)
  {
    hide DeviceStep, HoldsFill, PointerSafe, PayloadValid, Contained;
    if !s.req.inUse && !s.req.resetRequired {
      QuietStep(s.(dev := s.dev.(ackDone := done, ackError := error)));
    }
  }

  lemma ClientSafe(s: State, op: Op)
    requires Inv(s) && Legal(s, op) && (op.WriteDesc? || op.WriteByte?)
    ensures Inv(Next(s, op))
  {
    hide PayloadValid, PointerSafe;
    var c := DescAt(s, s.req.cmd);
    var t := Next(s, op);
    StillValid(s, t, s.req.cmd, c, c.status);
    assert c.(status := c.status) == c;
    if s.req.inUse {
      assert DescAt(t, s.req.cmd) == c;
      if HoldsFill(s.ram, c) {
        forall a | c.dst <= a < c.dst + c.len
          ensures Load(t.ram, a) == c.value % 256
        {
          assert InRange(c, a);
          assert Load(t.ram, a) == Load(s.ram, a);
        }
      }
    }
  }

  /** Every legal step keeps the invariant. */
  lemma StepSafe(s: State, op: Op)
    requires Inv(s) && Legal(s, op)
    ensures Inv(Next(s, op))
  {
    match op
    case SubmitOp(a, ticks) => SubmitSafe(s, a, ticks);
    case DeviceOp => DeviceSafe(s);
    case IrqOp => IrqSafe(s);
    case ExpireOp =>
      if s.req.inUse { StillValid(s, Expire(s), s.req.cmd, DescAt(s, s.req.cmd), CmdOk); }
    case ResumeOp => ResumeSafe(s);
    case ControlOp(start, reset, unknown) => ControlSafe(s, start, reset, unknown);
    case AckOp(done, error, unknown) => AckSafe(s, done, error, unknown);
    case ProbeOp =>
    case WriteDesc(_, _) => ClientSafe(s, op);
    case WriteByte(_, _) => ClientSafe(s, op);
    hide *;
  }

  lemma PowerOnInv(lo: nat, hi: nat, desc: map<nat, Cmd>, ram: Bytes)
    ensures Inv(PowerOn(lo, hi, desc, ram))
  {
  }

  // ------------------------------------------------------------------- runs

  function Execute(s: State, ops: seq<Op>): State
    requires LegalRun(s, ops)
    decreases |ops|
  {
    if ops == [] then s else Execute(Next(s, ops[0]), ops[1..])
  }

  predicate LegalRun(s: State, ops: seq<Op>)
    decreases |ops|
  {
    ops == [] || (Legal(s, ops[0]) && LegalRun(Next(s, ops[0]), ops[1..]))
  }

  /** Every reachable state satisfies the invariant. */
  lemma {:induction false} RunSafe(s: State, ops: seq<Op>)
    requires Inv(s) && LegalRun(s, ops)
    ensures Inv(Execute(s, ops))
    decreases |ops|
  {
    hide Next, Inv, Legal;
    if ops != [] {
      StepSafe(s, ops[0]);
      RunSafe(Next(s, ops[0]), ops[1..]);
    }
  }

  /** The memory the driver and the device are responsible for. */
  predicate ClientStep(op: Op) {
    op.WriteByte?
  }

  lemma NoFill(s: State, op: Op)
    requires Inv(s) && Legal(s, op) && !ClientStep(op) && !(op.DeviceOp? && s.dev.start && s.req.inUse)
    ensures Next(s, op).ram == s.ram
    ensures Next(s, op).fills == s.fills || (op.SubmitOp? && !s.req.inUse && Next(s, op).req.inUse && Next(s, op).fills == 0)
  {
    hide StartDescriptor, HoldsFill, PointerSafe, PayloadValid, Contained;
    match op
    case DeviceOp =>
      if s.dev.start { StaleStep(s); }
    case IrqOp => assert IrqPending(s) ==> !s.dev.start;
    case ControlOp(start, reset, unknown) =>
      if start && !reset && !s.req.inUse && !s.req.resetRequired { assert !s.dev.start; }
    case _ =>
  }

  /**
   * The only step that writes a byte on the device's behalf is a device step for a request
   * in use; it writes inside that request's destination and nowhere else, and since the
   * slot was claimed it is the first.
   */
  lemma FillsOnlyItsRange(s: State, op: Op)
    requires Inv(s) && Legal(s, op) && !ClientStep(op)
    ensures Next(s, op).fills > s.fills || Next(s, op).ram != s.ram ==>
      && op == DeviceOp && s.req.inUse && s.fills == 0 && Next(s, op).fills == 1
      && DescAt(s, s.req.cmd).status == Pending
    ensures forall a :: Load(Next(s, op).ram, a) != Load(s.ram, a) ==> s.req.inUse && InRange(DescAt(s, s.req.cmd), a)
  {
    hide HoldsFill, PointerSafe, PayloadValid, Filled, DeviceStep;
    if op.DeviceOp? && s.dev.start && s.req.inUse {
      FillStep(s);
      var c := DescAt(s, s.req.cmd);
      forall a
        ensures Load(Next(s, op).ram, a) != Load(s.ram, a) ==> InRange(c, a)
      {
        FilledAt(s.ram, c.dst, c.len, c.value % 256, a);
      }
    } else {
      NoFill(s, op);
    }
  }

  // ---------------------------------------------------------------- outcomes

  /**
   * Every way a claimed submission ends.  The reply is OK exactly when the interrupt was
   * handled before the submitter ran again, and then the range is filled; it is a timeout
   * exactly when the deadline won and no interrupt was handled; nothing else is possible.
   */
  lemma Outcome(s: State)
    requires Inv(s) && s.req.inUse && Legal(s, ResumeOp)
    ensures var (t, r) := Resume(s);
      && (r == Some(AccelOk) <==> s.req.completed)
      && (r == Some(AccelTimeout) <==> s.req.phase == WokenTimeout && !s.req.completed)
      && (r == Some(AccelOk) || r == Some(AccelTimeout))
      && (r == Some(AccelOk) ==> s.fills == 1 && HoldsFill(t.ram, DescAt(s, s.req.cmd)) && DescAt(s, s.req.cmd).status == CmdOk)
      && (t.req.resetRequired <==> s.req.phase == WokenTimeout)
      && DescAt(t, s.req.cmd).status == (if s.req.phase == WokenTimeout then TimedOut else CmdOk)
      && !t.req.inUse && t == s.(desc := t.desc, req := t.req) && forall b :: b != s.req.cmd ==> DescAt(t, b) == DescAt(s, b)
  {
    hide PointerSafe, PayloadValid, Contained;
  }

  /**
   * A reply of OK comes with a descriptor marked timed out, and with the reset flag set,
   * exactly when the deadline won the wait and the interrupt was handled before the
   * submitter ran: a submitter that is told OK may still find the device refusing work.
   */
  lemma LateCompletionIff(s: State)
    requires Inv(s) && s.req.inUse && Legal(s, ResumeOp)
    ensures var (t, r) := Resume(s);
      (r == Some(AccelOk) && DescAt(t, s.req.cmd).status == TimedOut && t.req.resetRequired) <==>
      (s.req.phase == WokenTimeout && s.req.completed)
  {
    Outcome(s);
  }

  /** Such a run exists: probe, submit, device step, deadline, interrupt, resume. */
  lemma LateCompletionHappens() returns (s: State, ops: seq<Op>)
    ensures Inv(s) && LegalRun(s, ops)
    ensures Execute(s, ops).req.phase == WokenTimeout && Execute(s, ops).req.completed && Execute(s, ops).req.inUse
  {
    var c := Cmd(OpMemset, 0, 2 * PageSize, 16, 7, Pending, 0);
    s := PowerOn(1, 4, map[PageSize := c], map[]);
    PowerOnInv(1, 4, map[PageSize := c], map[]);
    ops := [ProbeOp, SubmitOp(PageSize, 5), DeviceOp, ExpireOp, IrqOp];
    LateRun(s, c);
  }

  lemma LateRun(s: State, c: Cmd)
    requires c == Cmd(OpMemset, 0, 2 * PageSize, 16, 7, Pending, 0)
    requires s == PowerOn(1, 4, map[PageSize := c], map[])
    ensures var ops := [ProbeOp, SubmitOp(PageSize, 5), DeviceOp, ExpireOp, IrqOp];
      && LegalRun(s, ops) && Execute(s, ops).req.phase == WokenTimeout && Execute(s, ops).req.completed && Execute(s, ops).req.inUse
  {
    hide Execute, LegalRun, Next, Inv;
    var s0 := Next(s, ProbeOp);
    Probing(s);
    Claims(s0, c);
    var s1 := Next(s0, SubmitOp(PageSize, 5));
    Finishes(s1);
    var s2 := Next(s1, DeviceOp);
    var s3 := Next(s2, ExpireOp);
    RunOne(s3, IrqOp, []);
    RunOne(s2, ExpireOp, [IrqOp]);
    RunOne(s1, DeviceOp, [ExpireOp, IrqOp]);
    RunOne(s0, SubmitOp(PageSize, 5), [DeviceOp, ExpireOp, IrqOp]);
    RunOne(s, ProbeOp, [SubmitOp(PageSize, 5), DeviceOp, ExpireOp, IrqOp]);
    RunNone(Next(s3, IrqOp));
    assert [IrqOp] + [] == [IrqOp];
    assert [ExpireOp] + [IrqOp] == [ExpireOp, IrqOp];
    assert [DeviceOp] + [ExpireOp, IrqOp] == [DeviceOp, ExpireOp, IrqOp];
    assert [SubmitOp(PageSize, 5)] + [DeviceOp, ExpireOp, IrqOp] == [SubmitOp(PageSize, 5), DeviceOp, ExpireOp, IrqOp];
    assert [ProbeOp] + [SubmitOp(PageSize, 5), DeviceOp, ExpireOp, IrqOp]
      == [ProbeOp, SubmitOp(PageSize, 5), DeviceOp, ExpireOp, IrqOp];
  }

  lemma Probing(s: State)
    requires !s.bound
    ensures Next(s, ProbeOp) == Probe(s)
  {
  }

  lemma Claims(s: State, c: Cmd)
    requires c == Cmd(OpMemset, 0, 2 * PageSize, 16, 7, Pending, 0)
    requires s == Probe(PowerOn(1, 4, map[PageSize := c], map[]))
    ensures Legal(s, SubmitOp(PageSize, 5))
    ensures var t := Next(s, SubmitOp(PageSize, 5)); Inv(t) && t.req.inUse && t.dev.start && t.req.phase == Waiting(true)
  {
    hide Filled;
    assert PointerSafe(s.lo, s.hi, PageSize) && PayloadValid(s.lo, s.hi, c);
    SubmitSafe(s, PageSize, 5);
  }

  lemma Finishes(s: State)
    requires Inv(s) && s.req.inUse && s.dev.start && s.req.phase == Waiting(true)
    ensures var t := Next(Next(Next(s, DeviceOp), ExpireOp), IrqOp);
      t.req.phase == WokenTimeout && t.req.completed && t.req.inUse
  {
    hide HoldsFill, PointerSafe, PayloadValid, DeviceStep;
    FillStep(s);
    var e := Next(Next(s, DeviceOp), ExpireOp);
    QuietStep(e.(dev := e.dev.(ackDone := true), req := e.req.(result := AccelOk, completed := true)));
  }

  lemma RunOne(s: State, op: Op, rest: seq<Op>)
    requires Legal(s, op)
    ensures LegalRun(s, [op] + rest) <==> LegalRun(Next(s, op), rest)
    ensures LegalRun(Next(s, op), rest) ==> Execute(s, [op] + rest) == Execute(Next(s, op), rest)
  {
    hide Next, Legal;
    assert ([op] + rest)[1..] == rest;
  }

  lemma RunNone(s: State)
    ensures LegalRun(s, []) && Execute(s, []) == s
  {
  }

  // -------------------------------------------------------------------- gating

  /** While a reset is required, no submission, start or acknowledgement is accepted. */
  lemma ResetGate(s: State, a: nat, ticks: nat)
    requires Inv(s) && s.req.resetRequired
    ensures !s.req.inUse
    ensures PointerSafe(s.lo, s.hi, a) && ticks != 0 && PayloadValid(s.lo, s.hi, DescAt(s, a)) ==>
      Submit(s, a, ticks) == (SetStatus(s, a, Rejected), Some(AccelBusy))
    ensures Submit(s, a, ticks).1.Some?
    ensures forall start :: WriteControl(s, start, false, false) == (s, AccelBusy)
    ensures forall done, error :: AckIrq(s, done, error, false) == (s, AccelBusy)
    ensures forall x, y :: WriteControl(s, x, y, true) == (s, AccelInvalid) && AckIrq(s, x, y, true) == (s, AccelInvalid)
  {
    hide PointerSafe, PayloadValid;
  }

  /** A control write with the reset bit and no unknown one. */
  predicate Resets(op: Op) {
    op.ControlOp? && op.reset && !op.unknown
  }

  /** And only a reset lifts the requirement; a reset leaves the device idle with nothing pending. */
  lemma OnlyResetLifts(s: State, op: Op)
    requires Inv(s) && Legal(s, op) && s.req.resetRequired
    ensures Resets(op) ==>
      var t := Next(s, op);
      !t.req.resetRequired && t.dev.status == Idle && !IrqPending(t) && t.dev.cmdBase == 0 && !t.dev.start
    ensures !(Resets(op)) ==> Next(s, op).req.resetRequired && !Next(s, op).req.inUse
  {
    hide StartDescriptor, HoldsFill, PointerSafe, PayloadValid, Contained;
    if op.DeviceOp? && s.dev.start {
      StaleStep(s);
    }
  }

  /** Over every run without a reset the requirement stays, and the slot stays free. */
  lemma {:induction false} GatedUntilReset(s: State, ops: seq<Op>)
    requires Inv(s) && LegalRun(s, ops) && s.req.resetRequired
    requires forall op :: op in ops ==> !(Resets(op))
    ensures Execute(s, ops).req.resetRequired && !Execute(s, ops).req.inUse
    decreases |ops|
  {
    hide Next, Legal;
    if ops != [] {
      assert ops[0] in ops;
      StepSafe(s, ops[0]);
      OnlyResetLifts(s, ops[0]);
      hide Inv;
      GatedUntilReset(Next(s, ops[0]), ops[1..]);
    }
  }

  /** The device takes one request per reset: until a reset, a device that has left idle refuses the next. */
  lemma OneRequestPerReset(s: State, op: Op)
    requires Inv(s) && Legal(s, op) && s.dev.status != Idle && !(Resets(op) && !s.req.inUse)
    ensures Next(s, op).dev.status != Idle
    ensures op.SubmitOp? ==> Submit(s, op.a, op.ticks).1.Some? && Submit(s, op.a, op.ticks).1 != Some(AccelOk)
  {
    hide HoldsFill, PointerSafe, PayloadValid, DeviceStep;
    match op
    case DeviceOp => StaysOut(s);
    case IrqOp =>
      StaysOut(s.(dev := s.dev.(ackDone := s.dev.irqDone, ackError := s.dev.irqError)));
      var ok := s.dev.irqDone && s.dev.status == Done && DescAt(s, s.req.cmd).status == CmdOk;
      StaysOut(s.(dev := s.dev.(ackDone := s.dev.irqDone, ackError := s.dev.irqError),
                  req := s.req.(result := if ok then AccelOk else AccelIo, completed := true)));
    case ControlOp(start, reset, unknown) => StaysOut(s.(dev := s.dev.(start := start, reset := reset)));
    case AckOp(done, error, unknown) => StaysOut(s.(dev := s.dev.(ackDone := done, ackError := error)));
    case _ =>
  }

  lemma StaysOut(s: State)
    requires s.dev.status != Idle
    ensures !s.dev.reset ==> DeviceStep(s).dev.status != Idle
  {
    hide StartDescriptor;
  }

  // ---------------------------------------------------- one request's lifetime

  /** The device may still look at the descriptor at a. */
  predicate Visible(s: State, a: nat) {
    (s.req.inUse && s.req.cmd == a) || PendingAt(s, a)
  }

  /** A descriptor the device can no longer see stays unseen until it is submitted again. */
  lemma UnseenStep(s: State, op: Op, a: nat)
    requires Inv(s) && Legal(s, op) && !Visible(s, a) && a != 0 && !(op.SubmitOp? && op.a == a)
    ensures !Visible(Next(s, op), a)
  {
    hide HoldsFill, PointerSafe, PayloadValid, DeviceStep;
    match op
    case DeviceOp => StepClears(s);
    case IrqOp =>
      StepClears(s.(dev := s.dev.(ackDone := s.dev.irqDone, ackError := s.dev.irqError)));
      var ok := s.dev.irqDone && s.dev.status == Done && DescAt(s, s.req.cmd).status == CmdOk;
      StepClears(s.(dev := s.dev.(ackDone := s.dev.irqDone, ackError := s.dev.irqError),
                    req := s.req.(result := if ok then AccelOk else AccelIo, completed := true)));
    case ControlOp(start, reset, unknown) => StepClears(s.(dev := s.dev.(start := start, reset := reset)));
    case AckOp(done, error, unknown) => StepClears(s.(dev := s.dev.(ackDone := done, ackError := error)));
    case _ =>
  }

  /** A device step leaves no start pending and touches no driver state. */
  lemma StepClears(s: State)
    ensures !DeviceStep(s).dev.start && DeviceStep(s).req == s.req
  {
    hide Start;
    StartKeeps(s.(dev := s.dev.(start := false, reset := false, ackDone := false, ackError := false)));
  }

  lemma StartKeeps(s: State)
    ensures Start(s).dev.start == s.dev.start && Start(s).req == s.req
  {
    hide PointerSafe, PayloadValid, Filled;
  }

  lemma {:induction false} NeverSeenAgain(s: State, ops: seq<Op>, a: nat)
    requires Inv(s) && LegalRun(s, ops) && !Visible(s, a) && a != 0
    requires forall op :: op in ops ==> !(op.SubmitOp? && op.a == a)
    ensures !Visible(Execute(s, ops), a)
    decreases |ops|
  {
    hide Next, Inv, Legal, Visible;
    if ops != [] {
      assert ops[0] in ops;
      StepSafe(s, ops[0]);
      UnseenStep(s, ops[0], a);
      NeverSeenAgain(Next(s, ops[0]), ops[1..], a);
    }
  }

  /** The state with other contents at descriptor address a. */
  function WithDesc(s: State, a: nat, c: Cmd): State {
    s.(desc := s.desc[a := c])
  }

  /** The operations that name the descriptor at a: its submission and its owner's writes. */
  predicate Touches(op: Op, a: nat) {
    (op.SubmitOp? || op.WriteDesc?) && op.a == a
  }

  /**
   * Driver and device never look at a descriptor they cannot see: whatever is put in its
   * place, every step but those that name it does the same to everything else.
   */
  lemma UnseenIgnored(s: State, op: Op, a: nat, c: Cmd)
    requires Inv(s) && Legal(s, op) && !Visible(s, a) && a != 0 && !Touches(op, a)
    ensures Legal(WithDesc(s, a, c), op)
    ensures Next(WithDesc(s, a, c), op) == WithDesc(Next(s, op), a, c)
  {
    hide HoldsFill, PointerSafe, PayloadValid, DeviceStep;
    match op
    case SubmitOp(b, ticks) => SubmitIgnores(s, b, ticks, a, c);
    case DeviceOp => StepIgnores(s, a, c);
    case IrqOp => IrqIgnores(s, a, c);
    case ResumeOp => StatusIgnored(s, s.req.cmd, TimedOut, a, c);
    case ControlOp(start, reset, _) =>
      if s.bound && !s.req.inUse && (reset || !s.req.resetRequired) {
        StepIgnores(s.(dev := s.dev.(start := start, reset := reset)), a, c);
      }
    case AckOp(done, error, _) =>
      if s.bound && !s.req.inUse && !s.req.resetRequired {
        StepIgnores(s.(dev := s.dev.(ackDone := done, ackError := error)), a, c);
      }
    case WriteDesc(b, d) => Commute(s.desc, a, c, b, d);
    case _ =>
  }

  lemma Commute(m: map<nat, Cmd>, a: nat, c: Cmd, b: nat, d: Cmd)
    requires a != b
    ensures m[a := c][b := d] == m[b := d][a := c]
  {
  }

  lemma StatusIgnored(s: State, b: nat, st: CmdStatus, a: nat, c: Cmd)
    requires a != b
    ensures SetStatus(WithDesc(s, a, c), b, st) == WithDesc(SetStatus(s, b, st), a, c)
    ensures DescAt(WithDesc(s, a, c), b) == DescAt(s, b)
  {
    Commute(s.desc, a, c, b, DescAt(s, b).(status := st));
  }

  lemma SubmitIgnores(s: State, b: nat, ticks: nat, a: nat, c: Cmd)
    requires a != b
    ensures Submit(WithDesc(s, a, c), b, ticks).0 == WithDesc(Submit(s, b, ticks).0, a, c)
  {
    hide PointerSafe, PayloadValid, SetStatus, DescAt;
    StatusIgnored(s, b, TimedOut, a, c);
    StatusIgnored(s, b, CmdInvalid, a, c);
    StatusIgnored(s, b, Rejected, a, c);
    var claimed := s.(
      req := s.req.(cmd := b, inUse := true, completed := false, result := AccelIo, phase := Waiting(ticks != Forever)),
      dev := s.dev.(cmdBase := b, start := true, reset := false),
      fills := 0);
    StatusIgnored(claimed, b, Pending, a, c);
  }

  lemma IrqIgnores(s: State, a: nat, c: Cmd)
    requires Inv(s) && !Visible(s, a) && a != 0
    ensures Irq(WithDesc(s, a, c)) == WithDesc(Irq(s), a, c)
  {
    hide HoldsFill, PointerSafe, PayloadValid, DeviceStep;
    var d := s.dev.(ackDone := s.dev.irqDone, ackError := s.dev.irqError);
    StepIgnores(s.(dev := d), a, c);
    var ok := s.dev.irqDone && s.dev.status == Done && DescAt(s, s.req.cmd).status == CmdOk;
    StepIgnores(s.(dev := d, req := s.req.(result := if ok then AccelOk else AccelIo, completed := true)), a, c);
  }

  /** A device step reads one descriptor at most: the one at its base register, and only when told to start from idle. */
  lemma StepIgnores(s: State, a: nat, c: Cmd)
    requires s.dev.start && !s.dev.reset && s.dev.status == Idle && s.dev.cmdBase != 0 ==> s.dev.cmdBase != a
    ensures DeviceStep(WithDesc(s, a, c)) == WithDesc(DeviceStep(s), a, c)
  {
    hide StartDescriptor;
    var busy := s.(dev := s.dev.(status := Busy, start := false, reset := false, ackDone := false, ackError := false));
    if s.dev.cmdBase != a {
      DescriptorIgnores(busy, s.dev.cmdBase, a, c);
    }
  }

  lemma DescriptorIgnores(s: State, b: nat, a: nat, c: Cmd)
    requires a != b
    ensures StartDescriptor(WithDesc(s, a, c), b) == WithDesc(StartDescriptor(s, b), a, c)
  {
    hide PointerSafe, PayloadValid, Filled, SetStatus;
    StatusIgnored(s, b, CmdInvalid, a, c);
    var d := DescAt(s, b);
    StatusIgnored(s.(ram := Filled(s.ram, d.dst, d.len, d.value % 256), fills := s.fills + 1), b, CmdOk, a, c);
  }

  /**
   * The same over whole runs: once a descriptor is out of sight, what its page holds, freed
   * and reused or not, makes no difference to any run that does not name it again.
   */
  lemma {:induction false} UnseenForever(s: State, ops: seq<Op>, a: nat, c: Cmd)
    requires Inv(s) && LegalRun(s, ops) && !Visible(s, a) && a != 0
    requires forall op :: op in ops ==> !Touches(op, a)
    ensures LegalRun(WithDesc(s, a, c), ops)
    ensures Execute(WithDesc(s, a, c), ops) == WithDesc(Execute(s, ops), a, c)
    decreases |ops|
  {
    hide Next, Inv, Legal, Visible;
    if ops != [] {
      assert ops[0] in ops;
      StepSafe(s, ops[0]);
      UnseenStep(s, ops[0], a);
      UnseenIgnored(s, ops[0], a, c);
      UnseenForever(Next(s, ops[0]), ops[1..], a, c);
    }
  }

  /** After a reset the device has forgotten every descriptor: what clients do with their memory is invisible. */
  lemma ForgottenAfterReset(s: State, start: bool, ops: seq<Op>, a: nat, c: Cmd)
    requires Inv(s) && s.bound && !s.req.inUse && a != 0
    requires LegalRun(WriteControl(s, start, true, false).0, ops) && forall op :: op in ops ==> !Touches(op, a)
    ensures var t := WriteControl(s, start, true, false).0;
      && t.dev.cmdBase == 0 && !Visible(t, a) && LegalRun(WithDesc(t, a, c), ops)
      && Execute(WithDesc(t, a, c), ops) == WithDesc(Execute(t, ops), a, c)
  {
    hide StartDescriptor, HoldsFill, PointerSafe, PayloadValid, Execute, LegalRun;
    ControlSafe(s, start, true, false);
    UnseenForever(WriteControl(s, start, true, false).0, ops, a, c);
  }

  /** What the descriptor asks for, whatever its status. */
  predicate SameRequest(c: Cmd, d: Cmd) {
    c.(status := Pending) == d.(status := Pending)
  }

  /** A byte outside the request's range that no client writes. */
  predicate Untouched(op: Op, p: nat) {
    !(op.WriteByte? && op.a == p)
  }

  /** While a request waits, nobody else takes its slot, edits its descriptor or writes outside its range for it. */
  lemma HeldStep(s: State, op: Op, a: nat, p: nat)
    requires Inv(s) && Legal(s, op) && s.req.inUse && s.req.cmd == a && !op.ResumeOp?
    ensures var t := Next(s, op); t.req.inUse && t.req.cmd == a && SameRequest(DescAt(t, a), DescAt(s, a))
    ensures Untouched(op, p) && !InRange(DescAt(s, a), p) ==> Load(Next(s, op).ram, p) == Load(s.ram, p)
  {
    hide HoldsFill, PointerSafe, PayloadValid, DeviceStep, Filled;
    StepSafe(s, op);
    if op.DeviceOp? && s.dev.start {
      FillStep(s);
      var c := DescAt(s, a);
      FilledAt(s.ram, c.dst, c.len, c.value % 256, p);
    } else if op.DeviceOp? {
      QuietStep(s);
    } else if op.IrqOp? && IrqPending(s) {
      var ok := s.dev.irqDone && s.dev.status == Done && DescAt(s, s.req.cmd).status == CmdOk;
      QuietStep(s.(dev := s.dev.(ackDone := s.dev.irqDone, ackError := s.dev.irqError),
                   req := s.req.(result := if ok then AccelOk else AccelIo, completed := true)));
    }
  }

  lemma {:induction false} HeldRun(s: State, ops: seq<Op>, a: nat, p: nat)
    requires Inv(s) && LegalRun(s, ops) && s.req.inUse && s.req.cmd == a
    requires forall op :: op in ops ==> !op.ResumeOp?
    ensures var t := Execute(s, ops); Inv(t) && t.req.inUse && t.req.cmd == a && SameRequest(DescAt(t, a), DescAt(s, a))
    ensures (forall op :: op in ops ==> Untouched(op, p)) && !InRange(DescAt(s, a), p) ==>
      Load(Execute(s, ops).ram, p) == Load(s.ram, p)
    decreases |ops|
  {
    hide Next, Inv, Legal, Untouched;
    if ops != [] {
      assert ops[0] in ops;
      StepSafe(s, ops[0]);
      HeldStep(s, ops[0], a, p);
      HeldRun(Next(s, ops[0]), ops[1..], a, p);
    }
  }
}
