/**
 * The simulated accelerator (kernel/arch/riscv64/accel_platform.c) and its driver
 * (kernel/drivers/accel.c) as one state machine.  Every step is atomic; the blocking wait
 * inside a submission is the gap between Submit and Resume.
 */
module Accelerator {
  import opened SeqTools
  import opened Pages
  import opened UserCopy

  datatype CmdStatus = Pending | CmdOk | CmdInvalid | CmdError | Rejected | TimedOut

  /** accel_cmd_t */
  datatype Cmd = Cmd(op: nat, flags: nat, dst: nat, len: nat, value: nat, status: CmdStatus, reserved: nat)

  datatype DeviceStatus = Idle | Busy | Done | Faulty

  /** accel_mmio_region_t; the control and interrupt bits as booleans. */
  datatype Device = Device(
    status: DeviceStatus,
    start: bool, reset: bool,
    irqDone: bool, irqError: bool,
    ackDone: bool, ackError: bool,
    cmdBase: nat)

  datatype AccelResult = AccelOk | AccelNoDevice | AccelInvalid | AccelBusy | AccelIo | AccelTimeout

  /** Where the thread that owns the request slot stands in its wait loop. */
  datatype Phase = NoWait | Waiting(finite: bool) | WokenOk(finite: bool) | WokenTimeout

  /** accel_request_state_t */
  datatype Request = Request(cmd: nat, inUse: bool, completed: bool, result: AccelResult, resetRequired: bool, phase: Phase)

  /**
   * Everything the steps touch.  Descriptors live apart from the bytes the device fills.
   * fills counts the memsets executed since the slot was last claimed; bound says that the
   * driver has been probed.
   */
  datatype State = State(lo: nat, hi: nat, dev: Device, req: Request, desc: map<nat, Cmd>, ram: Bytes, fills: nat, bound: bool)

  const OpMemset: nat := 1
  const CmdSize: nat := 32
  const CmdAlignment: nat := 8
  const Forever: nat := WordSpan - 1

  /** What an address that holds no descriptor yet reads as. */
  const NoCmd: Cmd := Cmd(0, 0, 0, 0, 0, CmdInvalid, 0)

  function DescAt(s: State, a: nat): Cmd {
    if a in s.desc then s.desc[a] else NoCmd
  }

  function SetStatus(s: State, a: nat, status: CmdStatus): State {
    s.(desc := s.desc[a := DescAt(s, a).(status := status)])
  }

  /** page_range_is_managed_page_contained over the managed pages. */
  predicate Contained(lo: nat, hi: nat, addr: nat, len: nat) {
    addr < WordSpan && len < WordSpan && RangeContained(Pool(lo, hi, {}), addr, len)
  }

  /** accel_cmd_pointer_is_safe and accel_descriptor_location_is_valid */
  predicate PointerSafe(lo: nat, hi: nat, a: nat) {
    a != 0 && a % CmdAlignment == 0 && Contained(lo, hi, a, CmdSize)
  }

  /** accel_cmd_payload_is_valid */
  predicate PayloadValid(lo: nat, hi: nat, c: Cmd) {
    c.op == OpMemset && c.flags == 0 && c.reserved == 0 && c.len != 0 && Contained(lo, hi, c.dst, c.len)
  }

  // ------------------------------------------------------------------ device

  /** The bytes after the device's memset loop has written the first n. */
  function Filled(ram: Bytes, dst: nat, n: nat, value: nat): Bytes {
    if n == 0 then ram else Filled(ram, dst, n - 1, value)[dst + n - 1 := value]
  }

  function EnterError(s: State): State {
    s.(dev := s.dev.(status := Faulty, irqDone := false, irqError := true))
  }

  function EnterDone(s: State): State {
    s.(dev := s.dev.(status := Done, irqDone := true, irqError := false))
  }

  /** accel_start_descriptor */
  function StartDescriptor(s: State, a: nat): State {
    if !PointerSafe(s.lo, s.hi, a) then EnterError(s)
    else
      var c := DescAt(s, a);
      if c.status == TimedOut then EnterError(s)
      else if !(PayloadValid(s.lo, s.hi, c) && c.status == Pending) then EnterError(SetStatus(s, a, CmdInvalid))
      else
        var filled := s.(ram := Filled(s.ram, c.dst, c.len, c.value % 256), fills := s.fills + 1);
        EnterDone(SetStatus(filled, a, CmdOk))
  }

  /** accel_start */
  function Start(s: State): State {
    if s.dev.status != Idle then EnterError(s)
    else
      var busy := s.(dev := s.dev.(status := Busy));
      if s.dev.cmdBase == 0 then EnterDone(busy) else StartDescriptor(busy, s.dev.cmdBase)
  }

  /** platform_accel_step */
  function DeviceStep(s: State): State {
    var d := s.dev;
    var taken := s.(dev := d.(start := false, reset := false, ackDone := false, ackError := false));
    if d.reset then
      taken.(dev := taken.dev.(status := Idle, irqDone := false, irqError := false, cmdBase := 0))
    else
      var after := if d.start then Start(taken) else taken;
      after.(dev := after.dev.(irqDone := after.dev.irqDone && !d.ackDone, irqError := after.dev.irqError && !d.ackError))
  }

  // ------------------------------------------------------------------ driver

  /** platform_accel_irq_pending */
  predicate IrqPending(s: State) {
    s.dev.irqDone || s.dev.irqError
  }

  /** The slot after accel_submit_sync_timeout lets go of it. */
  function Released(q: Request): Request {
    q.(cmd := 0, inUse := false, completed := false, result := AccelIo, phase := NoWait)
  }

  /** accel_submit_sync_timeout up to its first sleep: a reply, or none while the caller waits. */
  function Submit(s: State, a: nat, ticks: nat): (State, Option<AccelResult>) {
    if !PointerSafe(s.lo, s.hi, a) then (s, Some(AccelInvalid))
    else if ticks == 0 then (SetStatus(s, a, TimedOut), Some(AccelTimeout))
    else if !s.bound then (s, Some(AccelNoDevice))
    else if !PayloadValid(s.lo, s.hi, DescAt(s, a)) then (SetStatus(s, a, CmdInvalid), Some(AccelInvalid))
    else if s.req.inUse then (SetStatus(s, a, Rejected), Some(AccelBusy))
    else if s.req.resetRequired || s.dev.status != Idle || IrqPending(s) then (SetStatus(s, a, Rejected), Some(AccelBusy))
    else
      var claimed := s.(
        req := s.req.(cmd := a, inUse := true, completed := false, result := AccelIo, phase := Waiting(ticks != Forever)),
        dev := s.dev.(cmdBase := a, start := true, reset := false),
        fills := 0);
      (SetStatus(claimed, a, Pending), None)
  }

  /** wait_queue_wake_all on the one queue the driver uses. */
  function Wake(p: Phase): Phase {
    if p.Waiting? then WokenOk(p.finite) else p
  }

  /** accel_irq_handler */
  function Irq(s: State): State {
    if !s.bound || !IrqPending(s) then s
    else
      var acked := s.(dev := s.dev.(ackDone := s.dev.irqDone, ackError := s.dev.irqError));
      if !s.req.inUse || s.req.cmd == 0 then DeviceStep(acked)
      else
        var result :=
          if s.dev.irqDone && s.dev.status == Done && DescAt(s, s.req.cmd).status == CmdOk then AccelOk else AccelIo;
        var completed := acked.(req := s.req.(result := result, completed := true));
        var stepped := DeviceStep(completed);
        stepped.(req := stepped.req.(phase := Wake(s.req.phase)))
  }

  /** The deadline of the submitter's wait passes while it is still queued. */
  function Expire(s: State): State {
    if s.req.phase == Waiting(true) then s.(req := s.req.(phase := WokenTimeout)) else s
  }

  /** The submitter runs again: one turn of its wait loop, and the release of the slot. */
  function Resume(s: State): (State, Option<AccelResult>)
    requires s.req.phase.WokenOk? || s.req.phase.WokenTimeout?
  {
    if s.req.phase == WokenTimeout then
      var late := SetStatus(s, s.req.cmd, TimedOut);
      (late.(req := Released(s.req).(resetRequired := true)), Some(if s.req.completed then s.req.result else AccelTimeout))
    else if s.req.completed then (s.(req := Released(s.req)), Some(s.req.result))
    else (s.(req := s.req.(phase := Waiting(s.req.phase.finite))), None)
  }

  /** accel_write_control_raw; unknown says that some bit beyond the two known ones is set. */
  function WriteControl(s: State, start: bool, reset: bool, unknown: bool): (State, AccelResult) {
    if unknown then (s, AccelInvalid)
    else if !s.bound then (s, AccelNoDevice)
    else if s.req.inUse then (s, AccelBusy)
    else if s.req.resetRequired && !reset then (s, AccelBusy)
    else
      var stepped := DeviceStep(s.(dev := s.dev.(start := start, reset := reset)));
      (if reset then stepped.(req := stepped.req.(resetRequired := false)) else stepped, AccelOk)
  }

  /** accel_ack_irq, likewise. */
  function AckIrq(s: State, done: bool, error: bool, unknown: bool): (State, AccelResult) {
    if unknown then (s, AccelInvalid)
    else if !s.bound then (s, AccelNoDevice)
    else if s.req.inUse || s.req.resetRequired then (s, AccelBusy)
    else (DeviceStep(s.(dev := s.dev.(ackDone := done, ackError := error))), AccelOk)
  }

  /** The device and the driver's memory before the probe. */
  function PowerOn(lo: nat, hi: nat, desc: map<nat, Cmd>, ram: Bytes): State {
    State(lo, hi, Device(Idle, false, false, false, false, false, false, 0),
          Request(0, false, false, AccelIo, false, NoWait), desc, ram, 0, false)
  }

  /** accel_probe, which finds the one device and binds it. */
  function Probe(s: State): State {
    s.(req := Request(0, false, false, AccelIo, false, NoWait), bound := true)
  }
}
