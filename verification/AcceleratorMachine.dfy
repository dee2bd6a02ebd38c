/** The accelerator and its driver over mutable registers: each method refines its step. */
module AcceleratorMachine {
  import opened SeqTools
  import opened Pages
  import opened UserCopy
  import opened Accelerator
  import opened AcceleratorRuns

  class AccelMachine {
    const lo: nat
    const hi: nat
    /** accel_mmio: the device's register block. */
    var dev: Device
    /** accel_request: the driver's one slot. */
    var req: Request
    var desc: map<nat, Cmd>
    /** The bytes the device can fill. */
    const mem: PhysicalBytes
    /** Whether the driver has found its device. */
    var bound: bool
    ghost var fills: nat

    ghost function Now(): State
      reads this, mem
    {
      State(lo, hi, dev, req, desc, mem.bytes, fills, bound)
    }

    /** The device at power-on, before the probe. */
    constructor (managedLo: nat, managedHi: nat, descriptors: map<nat, Cmd>, memory: PhysicalBytes)
      ensures Now() == PowerOn(managedLo, managedHi, descriptors, memory.bytes) && Inv(Now()) && mem == memory
    {
      lo, hi := managedLo, managedHi;
      dev := Device(Idle, false, false, false, false, false, false, 0);
      req := Request(0, false, false, AccelIo, false, NoWait);
      desc, mem, fills, bound := descriptors, memory, 0, false;
      new;
      PowerOnInv(managedLo, managedHi, descriptors, memory.bytes);
    }

    /** accel_probe */
    method ProbeDevice()
      modifies this
      ensures Now() == Probe(old(Now()))
    {
      req := Request(0, false, false, AccelIo, false, NoWait);
      bound := true;
    }

    function At(a: nat): Cmd
      reads this
    {
      if a in desc then desc[a] else NoCmd
    }

    method SetDescStatus(a: nat, st: CmdStatus)
      modifies this`desc
      ensures Now() == SetStatus(old(Now()), a, st)
    {
      desc := desc[a := At(a).(status := st)];
    }

    /** accel_enter_error */
    method EnterErrorState()
      modifies this`dev
      ensures Now() == EnterError(old(Now()))
    {
      dev := dev.(status := Faulty);
      dev := dev.(irqDone := false, irqError := true);
    }

    /** accel_execute_memset */
    method ExecuteMemset(a: nat)
      modifies this, mem
      ensures var c := DescAt(old(Now()), a);
        Now() == EnterDone(SetStatus(old(Now()).(ram := Filled(old(mem.bytes), c.dst, c.len, c.value % 256), fills := old(fills) + 1), a, CmdOk))
    {
      FillBytes(At(a));
      fills := fills + 1;
      SetDescStatus(a, CmdOk);
      dev := dev.(status := Done);
      dev := dev.(irqDone := true, irqError := false);
    }

    /** The byte loop of accel_execute_memset. */
    method FillBytes(c: Cmd)
      modifies mem
      ensures mem.bytes == Filled(old(mem.bytes), c.dst, c.len, c.value % 256)
    {
      for i := 0 to c.len
        invariant mem.bytes == Filled(old(mem.bytes), c.dst, i, c.value % 256)
      {
        mem.bytes := mem.bytes[c.dst + i := c.value % 256];
      }
    }

    /** accel_start_descriptor */
    method StartDescriptorAt(a: nat)
      modifies this, mem
      ensures Now() == StartDescriptor(old(Now()), a)
    {
      hide Filled, PointerSafe, PayloadValid;
      if !PointerSafe(lo, hi, a) {
        EnterErrorState();
      } else if At(a).status == TimedOut {
        EnterErrorState();
      } else if !(PayloadValid(lo, hi, At(a)) && At(a).status == Pending) {
        SetDescStatus(a, CmdInvalid);
        EnterErrorState();
      } else {
        ExecuteMemset(a);
      }
    }

    /** accel_start */
    method StartDevice()
      modifies this, mem
      ensures Now() == Start(old(Now()))
    {
      hide StartDescriptor;
      if dev.status != Idle {
        EnterErrorState();
        return;
      }
      dev := dev.(status := Busy);
      if dev.cmdBase == 0 {
        dev := dev.(status := Done);
        dev := dev.(irqDone := true, irqError := false);
        return;
      }
      StartDescriptorAt(dev.cmdBase);
    }

    /** accel_reset_state */
    method ResetState()
      modifies this`dev
      ensures Now() == old(Now()).(dev := old(dev).(status := Idle, irqDone := false, irqError := false,
                                                    ackDone := false, ackError := false, cmdBase := 0))
    {
      dev := dev.(status := Idle, irqDone := false, irqError := false, ackDone := false, ackError := false, cmdBase := 0);
    }

    /** platform_accel_step */
    method Step()
      modifies this, mem
      ensures Now() == DeviceStep(old(Now()))
    {
      hide Start;
      var d := dev;
      dev := dev.(start := false, reset := false, ackDone := false, ackError := false);
      if d.reset {
        ResetState();
        return;
      }
      if d.start {
        StartDevice();
      }
      dev := dev.(irqDone := dev.irqDone && !d.ackDone, irqError := dev.irqError && !d.ackError);
    }

    /** accel_irq_handler */
    method Isr()
      modifies this, mem
      ensures Now() == Irq(old(Now()))
      ensures Inv(old(Now())) ==> Inv(Now())
    {
      hide DeviceStep, Inv;
      ghost var before := Now();
      if Inv(before) {
        IrqSafe(before);
      }
      if !bound || (!dev.irqDone && !dev.irqError) {
        return;
      }
      if !req.inUse || req.cmd == 0 {
        dev := dev.(ackDone := dev.irqDone, ackError := dev.irqError);
        Step();
        return;
      }
      var ok := dev.irqDone && dev.status == Done && At(req.cmd).status == CmdOk;
      req := req.(result := if ok then AccelOk else AccelIo);
      req := req.(completed := true);
      dev := dev.(ackDone := dev.irqDone, ackError := dev.irqError);
      StepClears(Now());
      Step();
      req := req.(phase := Wake(req.phase));
    }

    /** accel_submit_sync_timeout up to its first sleep. */
    method SubmitBegin(a: nat, ticks: nat) returns (reply: Option<AccelResult>)
      modifies this, mem
      ensures (Now(), reply) == Submit(old(Now()), a, ticks)
      ensures Inv(old(Now())) && Legal(old(Now()), SubmitOp(a, ticks)) ==> Inv(Now())
    {
      hide Inv, PointerSafe, PayloadValid;
      ghost var before := Now();
      if Inv(before) && Legal(before, SubmitOp(a, ticks)) {
        SubmitSafe(before, a, ticks);
      }
      if !PointerSafe(lo, hi, a) {
        return Some(AccelInvalid);
      }
      if ticks == 0 {
        SetDescStatus(a, TimedOut);
        return Some(AccelTimeout);
      }
      if !bound {
        return Some(AccelNoDevice);
      }
      if !PayloadValid(lo, hi, At(a)) {
        SetDescStatus(a, CmdInvalid);
        return Some(AccelInvalid);
      }
      if req.inUse {
        SetDescStatus(a, Rejected);
        return Some(AccelBusy);
      }
      if req.resetRequired || dev.status != Idle || dev.irqDone || dev.irqError {
        SetDescStatus(a, Rejected);
        return Some(AccelBusy);
      }
      req := req.(cmd := a, inUse := true, completed := false, result := AccelIo, phase := Waiting(ticks != Forever));
      SetDescStatus(a, Pending);
      dev := dev.(cmdBase := a);
      dev := dev.(start := true, reset := false);
      fills := 0;
      reply := None;
    }

    /** The submitter's turn after a wake: its wait loop, then the release of the slot. */
    method SubmitResume() returns (reply: Option<AccelResult>)
      requires req.phase.WokenOk? || req.phase.WokenTimeout?
      modifies this, mem
      ensures (Now(), reply) == Resume(old(Now()))
      ensures Inv(old(Now())) ==> Inv(Now())
    {
      hide Inv;
      ghost var before := Now();
      if Inv(before) {
        ResumeSafe(before);
      }
      var r := AccelIo;
      if req.phase == WokenTimeout {
        SetDescStatus(req.cmd, TimedOut);
        req := req.(resetRequired := true);
        r := AccelTimeout;
      } else if !req.completed {
        req := req.(phase := Waiting(req.phase.finite));
        return None;
      }
      if req.completed {
        r := req.result;
      }
      req := Released(req);
      reply := Some(r);
    }

    /** accel_write_control_raw: bit 0 starts, bit 1 resets, every other bit is refused. */
    method WriteControlRaw(control: nat) returns (r: AccelResult)
      modifies this, mem
      ensures (Now(), r) == WriteControl(old(Now()), control % 2 == 1, control / 2 % 2 == 1, control > 3)
      ensures Inv(old(Now())) ==> Inv(Now())
    {
      hide Inv, DeviceStep;
      ghost var before := Now();
      var startBit, resetBit := control % 2 == 1, control / 2 % 2 == 1;
      if Inv(before) {
        ControlSafe(before, startBit, resetBit, control > 3);
      }
      if control > 3 {
        return AccelInvalid;
      }
      if !bound {
        return AccelNoDevice;
      }
      if req.inUse {
        return AccelBusy;
      }
      if req.resetRequired && !resetBit {
        return AccelBusy;
      }
      dev := dev.(start := startBit, reset := resetBit);
      Step();
      if resetBit {
        req := req.(resetRequired := false);
      }
      r := AccelOk;
    }

    /** accel_ack_irq: bit 0 is the done interrupt, bit 1 the error, every other bit is refused. */
    method AckIrqRaw(mask: nat) returns (r: AccelResult)
      modifies this, mem
      ensures (Now(), r) == AckIrq(old(Now()), mask % 2 == 1, mask / 2 % 2 == 1, mask > 3)
      ensures Inv(old(Now())) ==> Inv(Now())
    {
      hide Inv, DeviceStep;
      ghost var before := Now();
      var done, error := mask % 2 == 1, mask / 2 % 2 == 1;
      if Inv(before) {
        AckSafe(before, done, error, mask > 3);
      }
      if mask > 3 {
        return AccelInvalid;
      }
      if !bound {
        return AccelNoDevice;
      }
      if req.inUse || req.resetRequired {
        return AccelBusy;
      }
      dev := dev.(ackDone := done, ackError := error);
      Step();
      r := AccelOk;
    }
  }
}
