/** What the accelerator's callers are told, each reply exactly when its own cause holds, and that good requests succeed. */
module AcceleratorReplies {
  import opened SeqTools
  import opened Pages
  import opened UserCopy
  import opened Accelerator
  import opened AcceleratorRuns

  /** Every one of the len bytes from a on lies in one and the same managed page. */
  ghost predicate OnOnePage(s: State, a: nat, len: nat) {
    0 < len && exists p :: s.lo <= p < s.hi && p * 4096 <= a && a + len <= (p + 1) * 4096 && AllInPage(a, len, p)
  }

  /** A place for a descriptor: not null, 8-aligned, 32 bytes of one managed page. */
  ghost predicate GoodPlace(s: State, a: nat) {
    a != 0 && a % 8 == 0 && OnOnePage(s, a, 32)
  }

  /** A request the device can carry out: a memset of at least one byte inside one managed page. */
  ghost predicate GoodRequest(s: State, c: Cmd) {
    c.op == 1 && c.flags == 0 && c.reserved == 0 && OnOnePage(s, c.dst, c.len)
  }

  /** Managed memory ends below 2^64. */
  ghost predicate Addressable(s: State) {
    s.lo <= s.hi && s.hi * 4096 < 0x1_0000_0000_0000_0000
  }

  lemma ContainedIff(s: State, a: nat, len: nat)
    requires Addressable(s)
    ensures Contained(s.lo, s.hi, a, len) <==> OnOnePage(s, a, len)
  {
    hide RangeContained;
    if a < WordSpan && len < WordSpan {
      RangeContainedIff(Pool(s.lo, s.hi, {}), a, len);
      PageEnds(s, a, len);
    } else {
      TooFar(s, a, len);
    }
  }

  lemma PageEnds(s: State, a: nat, len: nat)
    ensures OnOnePage(s, a, len) <==> 0 < len && exists p :: s.lo <= p < s.hi && AllInPage(a, len, p)
  {
    if 0 < len {
      forall p | s.lo <= p < s.hi && AllInPage(a, len, p)
        ensures p * 4096 <= a && a + len <= (p + 1) * 4096
      {
        assert InPage(a, p) && InPage(a + len - 1, p);
      }
    }
  }

  lemma TooFar(s: State, a: nat, len: nat)
    requires Addressable(s) && (a >= WordSpan || len >= WordSpan)
    ensures !OnOnePage(s, a, len)
  {
  }

  lemma GoodIff(s: State, a: nat, c: Cmd)
    requires Addressable(s)
    ensures PointerSafe(s.lo, s.hi, a) <==> GoodPlace(s, a)
    ensures PayloadValid(s.lo, s.hi, c) <==> GoodRequest(s, c)
  {
    hide Contained, OnOnePage;
    ContainedIff(s, a, 32);
    ContainedIff(s, c.dst, c.len);
    EmptyRange(s, c.dst);
  }

  lemma EmptyRange(s: State, a: nat)
    ensures !OnOnePage(s, a, 0)
  {
  }

  /** A good request by a caller who is ready to wait, on a probed device. */
  ghost predicate Serious(s: State, a: nat, ticks: nat) {
    GoodPlace(s, a) && ticks != 0 && s.bound && GoodRequest(s, DescAt(s, a))
  }

  /** The device can take a request. */
  predicate Unoccupied(s: State) {
    !s.req.inUse && !s.req.resetRequired && s.dev.status == Idle
  }

  /**
   * The reply of a submission, for every caller and state: INVALID for a bad place, or a bad
   * request that gets as far as being looked at; TIMEOUT for zero ticks; NO_DEVICE without a
   * probed device; BUSY while the slot is taken, a reset is due or the device is not idle; and
   * otherwise the request is claimed.
   */
  lemma SubmitReply(s: State, a: nat, ticks: nat)
    requires Inv(s) && Addressable(s)
    ensures var c, r := DescAt(s, a), Submit(s, a, ticks).1;
      && (r == Some(AccelInvalid) <==> !GoodPlace(s, a) || (ticks != 0 && s.bound && !GoodRequest(s, c)))
      && (r == Some(AccelTimeout) <==> GoodPlace(s, a) && ticks == 0)
      && (r == Some(AccelNoDevice) <==> GoodPlace(s, a) && ticks != 0 && !s.bound)
      && (r == Some(AccelBusy) <==> Serious(s, a, ticks) && !Unoccupied(s))
      && (r == None <==> Serious(s, a, ticks) && Unoccupied(s))
  {
    hide PointerSafe, PayloadValid, GoodPlace, GoodRequest, Claimed, Free;
    GoodIff(s, a, DescAt(s, a));
  }

  /** What a submission leaves: a claimed request pending at the device, or the refusal in the caller's descriptor. */
  lemma SubmitEffect(s: State, a: nat, ticks: nat)
    requires Inv(s) && Addressable(s)
    ensures var (t, r) := Submit(s, a, ticks);
      && (r == None ==>
           && t.bound && t.req.inUse && t.req.cmd == a && !t.req.completed && t.dev.start && !t.dev.reset && t.dev.cmdBase == a
           && t.req.phase == Waiting(ticks != 0xFFFF_FFFF_FFFF_FFFF) && DescAt(t, a) == DescAt(s, a).(status := Pending))
      && (r != None ==> t == s.(desc := t.desc))
      && (r == Some(AccelBusy) ==> DescAt(t, a) == DescAt(s, a).(status := Rejected))
      && (r == Some(AccelTimeout) ==> DescAt(t, a) == DescAt(s, a).(status := TimedOut))
      && (r == Some(AccelInvalid) ==> if GoodPlace(s, a) then DescAt(t, a) == DescAt(s, a).(status := CmdInvalid) else t == s)
      && (r == Some(AccelNoDevice) ==> t == s)
      && t.ram == s.ram && forall b :: b != a ==> DescAt(t, b) == DescAt(s, b)
  {
    hide PointerSafe, PayloadValid, Claimed, Free, GoodPlace, GoodRequest;
    GoodIff(s, a, DescAt(s, a));
  }

  /** accel_write_control_raw: accepted exactly without unknown bits, on a probed device whose slot
      is free, and for a reset or while none is due; a refusal changes nothing. */
  lemma ControlReply(s: State, start: bool, reset: bool, unknown: bool)
    requires Inv(s)
    ensures var (t, r) := WriteControl(s, start, reset, unknown);
      && (r == AccelOk <==> !unknown && s.bound && !s.req.inUse && (reset || !s.req.resetRequired))
      && (r == AccelInvalid <==> unknown) && (r == AccelNoDevice <==> !unknown && !s.bound)
      && (r == AccelBusy <==> !unknown && s.bound && (s.req.inUse || (s.req.resetRequired && !reset)))
      && (r != AccelOk ==> t == s)
      && (r == AccelOk && reset ==> t.dev.status == Idle && !IrqPending(t) && t.dev.cmdBase == 0 && !t.req.resetRequired)
      && (r == AccelOk && start && !reset ==>
           if s.dev.status == Idle then t.dev.status == Done && t.dev.irqDone else t.dev.status == Faulty && t.dev.irqError)
      && t.ram == s.ram
  {
    hide StartDescriptor, HoldsFill, PointerSafe, PayloadValid;
  }

  /** accel_irq_handler: without a bound device or a pending interrupt it does nothing; otherwise no
      interrupt is left pending, and a request in use is completed and its submitter woken. */
  lemma IrqReply(s: State)
    requires Inv(s)
    ensures var t := Irq(s);
      && (!s.bound || !IrqPending(s) ==> t == s)
      && (s.bound && IrqPending(s) ==>
           && t == s.(dev := s.dev.(irqDone := false, irqError := false), req := t.req)
           && (!s.req.inUse ==> t.req == s.req)
           && (s.req.inUse ==>
                && t.req == s.req.(completed := true, result := AccelOk, phase := t.req.phase)
                && t.req.phase == match s.req.phase case Waiting(finite) => WokenOk(finite) case other => other))
  {
    hide HoldsFill, PointerSafe, PayloadValid, DeviceStep;
    if IrqPending(s) {
      var acked := s.(dev := s.dev.(ackDone := s.dev.irqDone, ackError := s.dev.irqError));
      QuietStep(acked);
      QuietStep(acked.(req := s.req.(result := AccelOk, completed := true)));
    }
  }

  /** accel_ack_irq: accepted exactly without unknown bits, on a probed device with a free slot and
      no reset due; it then clears the named interrupts and no other, and a refusal changes nothing. */
  lemma AckReply(s: State, done: bool, error: bool, unknown: bool)
    requires Inv(s)
    ensures var (t, r) := AckIrq(s, done, error, unknown);
      && (r == AccelOk <==> !unknown && s.bound && !s.req.inUse && !s.req.resetRequired)
      && (r == AccelInvalid <==> unknown) && (r == AccelNoDevice <==> !unknown && !s.bound)
      && (r == AccelBusy <==> !unknown && s.bound && (s.req.inUse || s.req.resetRequired))
      && (r != AccelOk ==> t == s)
      && (r == AccelOk ==> t == s.(dev := s.dev.(irqDone := s.dev.irqDone && !done, irqError := s.dev.irqError && !error)))
  {
    hide HoldsFill, PointerSafe, PayloadValid, DeviceStep;
    if !unknown && s.bound && !s.req.inUse && !s.req.resetRequired {
      QuietStep(s.(dev := s.dev.(ackDone := done, ackError := error)));
    }
  }

  // ---------------------------------------------------------------- progress

  /** A device free for work. */
  ghost predicate Available(s: State) {
    Inv(s) && s.bound && Unoccupied(s)
  }

  /**
   * Every good request on a free device succeeds: it is claimed, carried out by the next device
   * step, completed by the interrupt, and answered OK, with exactly its range filled.
   */
  lemma GoodRequestSucceeds(s: State, a: nat, ticks: nat)
    requires Available(s) && Addressable(s) && ticks != 0 && GoodPlace(s, a) && GoodRequest(s, DescAt(s, a))
    ensures Submit(s, a, ticks).1 == None
    ensures var c, s1 := DescAt(s, a), Submit(s, a, ticks).0;
      var s3 := Irq(DeviceStep(s1));
      && s3.req.phase.WokenOk? && s3.req.completed
      && var (end, r) := Resume(s3);
      && r == Some(AccelOk) && !end.req.inUse && !end.req.resetRequired && DescAt(end, a).status == CmdOk
      && forall x: nat :: Load(end.ram, x) == if c.dst <= x < c.dst + c.len then c.value % 256 else Load(s.ram, x)
  {
    hide GoodPlace, GoodRequest, PointerSafe, PayloadValid, Submit, Inv;
    SubmitReply(s, a, ticks);
    SubmitEffect(s, a, ticks);
    SubmitSafe(s, a, ticks);
    var c, s1 := DescAt(s, a), Submit(s, a, ticks).0;
    CarriedOut(s1);
    forall x: nat
      ensures Load(DeviceStep(s1).ram, x) == if c.dst <= x < c.dst + c.len then c.value % 256 else Load(s.ram, x)
    {
      FilledAt(s1.ram, c.dst, c.len, c.value % 256, x);
    }
  }

  /** A claimed, pending request runs to completion. */
  lemma CarriedOut(s: State)
    requires Inv(s) && s.bound && s.req.inUse && s.dev.start && s.req.phase.Waiting?
    ensures var c, s2 := DescAt(s, s.req.cmd), DeviceStep(s);
      && s2.ram == Filled(s.ram, c.dst, c.len, c.value % 256)
      && var s3 := Irq(s2);
      && s3.req.phase.WokenOk? && s3.req.completed && s3.ram == s2.ram && s3.lo == s.lo && s3.hi == s.hi
      && s3.req.inUse && s3.req.cmd == s.req.cmd && SameRequest(DescAt(s3, s.req.cmd), c)
      && var (end, r) := Resume(s3);
      && r == Some(AccelOk) && !end.req.inUse && !end.req.resetRequired && DescAt(end, s.req.cmd).status == CmdOk
      && end.ram == s2.ram
  {
    hide HoldsFill, PointerSafe, PayloadValid, DeviceStep;
    FillStep(s);
    var s2 := DeviceStep(s);
    QuietStep(s2.(dev := s2.dev.(ackDone := true), req := s2.req.(result := AccelOk, completed := true)));
  }
}
