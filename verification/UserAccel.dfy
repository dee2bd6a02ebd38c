/**
 * The user accelerator memset of kernel/user/accel_syscall.c from end to end: what one
 * call leaves in user memory, in the page pool and in view of the device.
 */
module UserAccel {
  import opened SeqTools
  import opened Pages
  import opened Sv39
  import opened PageMaps
  import opened UserCopy
  import opened Accelerator
  import opened AcceleratorRuns

  const MaxLen: nat := 4096
  const WordValues: nat := 0x1_0000_0000

  datatype Reply = UserOk | UserInvalid | UserBusy | UserIo | UserTimeout | UserNoMemory | UserNoDevice

  /** The arguments of one call, and the caller's task as the copies see it. */
  datatype Call = Call(ready: bool, view: View, va: nat, len: nat, value: nat, ticks: nat)

  /** The two temporary pages of a call. */
  datatype Held = Held(cmd: nat, bounce: nat)

  /** The accelerator with the kernel memory, and the page pool. */
  datatype World = World(accel: State, pool: Pool)

  datatype Progress = Returned(w: World, reply: Reply) | Asleep(w: World, held: Held) | Panicked

  function CmdAddr(h: Held): nat {
    h.cmd * PageSize
  }

  /** usercopy_task_validate for the copy back. */
  predicate MayStore(c: Call) {
    c.va < WordSpan && c.len < WordSpan && c.ready && Validate(c.view, c.va, c.len, true)
  }

  function ReplyFor(r: AccelResult): Reply {
    match r
    case AccelOk => UserOk
    case AccelNoDevice => UserNoDevice
    case AccelInvalid => UserInvalid
    case AccelBusy => UserBusy
    case AccelIo => UserIo
    case AccelTimeout => UserTimeout
  }

  /** user_accel_memset_impl up to the point where it sleeps in the driver, if it does. */
  function Begin(w: World, c: Call): Progress {
    if c.len == 0 || c.len > MaxLen || !MayStore(c) then Returned(w, UserInvalid)
    else
      var (p1, cmd) := AllocPage(w.pool);
      var (p2, bounce) := AllocPage(p1);
      if cmd.None? then Returned(w.(pool := if bounce.Some? then GiveBack(p2, bounce.value) else p2), UserNoMemory)
      else if bounce.None? then Returned(w.(pool := GiveBack(p2, cmd.value)), UserNoMemory)
      else
        var h := Held(cmd.value, bounce.value);
        var d := Cmd(OpMemset, 0, h.bounce * PageSize, c.len, c.value % WordValues, Pending, 0);
        var (s, r) := Submit(w.accel.(desc := w.accel.desc[CmdAddr(h) := d]), CmdAddr(h), c.ticks);
        if r.None? then Asleep(World(s, p2), h) else Finish(World(s, p2), c, h, r.value)
  }

  /** The rest of it, once the driver has replied. */
  function Finish(w: World, c: Call, h: Held, r: AccelResult): Progress {
    var (s, reset) := if r == AccelTimeout && c.ticks != 0 then WriteControl(w.accel, false, true, false) else (w.accel, AccelOk);
    if reset != AccelOk then Panicked
    else
      var (ram, reply) :=
        if r != AccelOk then (s.ram, ReplyFor(r))
        else if MayStore(c) then (Copied(c.view, s.ram, c.va, h.bounce * PageSize, c.len, true), UserOk)
        else (s.ram, UserInvalid);
      Returned(World(s.(ram := ram), GiveBack(GiveBack(w.pool, h.bounce), h.cmd)), reply)
  }

  // -------------------------------------------------------------- the promise

  /** User pages are backed by frames that are in use, each by its own. */
  ghost predicate Backed(view: View, pool: Pool) {
    && ViewOk(view) && FramesDistinct(view)
    && forall p :: p in view && p <= UserTop ==> view[p].pa / PageSize in pool.used
  }

  /** Exactly the bytes of the call's range hold the value; every other byte is as before. */
  ghost predicate FilledUser(c: Call, before: Bytes, after: Bytes) {
    && (forall a :: c.va <= a < c.va + c.len ==> Load(after, PhysOf(c.view, a)) == c.value % 256)
    && (forall p :: (forall a :: c.va <= a < c.va + c.len ==> PhysOf(c.view, a) != p) ==> Load(after, p) == Load(before, p))
  }

  ghost predicate WorldOk(w: World) {
    Inv(w.accel) && PoolOk(w.pool) && NullFree(w.pool) && w.accel.lo == w.pool.lo && w.accel.hi == w.pool.hi && w.pool.hi * PageSize < WordSpan
  }

  /** A user byte lies in a page that was in use before the call, so never in the bounce page. */
  lemma UserByteElsewhere(c: Call, pool: Pool, a: nat, bounce: nat)
    requires Backed(c.view, pool) && MayStore(c) && c.va <= a < c.va + c.len && bounce !in pool.used
    ensures !(bounce * PageSize <= PhysOf(c.view, a) < (bounce + 1) * PageSize)
  {
    hide Validate, HasFlag, FlagsValid;
    ValidateIff(c.view, c.va, c.len, true);
    assert ByteOk(c.view, a, true);
    var m := c.view[AlignDown(a)];
    assert PhysOf(c.view, a) == m.pa + a % PageSize;
    FrameOfByte(m.pa, a);
  }

  lemma FrameOfByte(pa: nat, a: nat)
    requires pa % PageSize == 0
    ensures (pa + a % PageSize) / PageSize == pa / PageSize
    ensures forall b: nat :: b * PageSize <= pa + a % PageSize < (b + 1) * PageSize ==> b == pa / PageSize
  {
  }

  /** The device cannot see a page that is not in use. */
  ghost predicate FreePagesUnseen(w: World) {
    forall p: nat :: p !in w.pool.used ==> !Visible(w.accel, p * PageSize)
  }

  /** A call asleep in the driver owns the slot with its own descriptor. */
  ghost predicate Sleeping(s: State, c: Call, h: Held) {
    && s.req.inUse && s.req.cmd == CmdAddr(h)
    && SameRequest(DescAt(s, CmdAddr(h)), Cmd(OpMemset, 0, h.bounce * PageSize, c.len, c.value % WordValues, Pending, 0))
  }

  lemma TwoPages(m: Pool)
    requires PoolOk(m) && NullFree(m)
    ensures var (p1, a) := AllocPage(m); var (p2, b) := AllocPage(p1);
      && PoolOk(p2) && (a.None? ==> b.None? && p2 == m)
      && (a.Some? ==> m.lo <= a.value < m.hi && a.value !in m.used && a.value > 0)
      && (a.Some? ==> a.value in p2.used) && (a.Some? && b.None? ==> GiveBack(p2, a.value) == m)
      && (a.Some? && b.Some? ==>
           && a.value != b.value && b.value !in m.used && m.lo <= b.value < m.hi && a.value in p2.used && b.value in p2.used
           && p2.lo == m.lo && p2.hi == m.hi && p2.used == m.used + {a.value, b.value}
           && GiveBack(GiveBack(p2, b.value), a.value) == m)
  {
    hide FirstFree;
    AllocPageFails(m);
    var (p1, a) := AllocPage(m);
    AllocPageFails(p1);
    if a.Some? {
      TakeGiveBack(m, a.value);
      if AllocPage(p1).1.Some? {
        TakeGiveBack(p1, AllocPage(p1).1.value);
      }
    }
  }

  /**
   * The first half of a call.  Either it returns, with every byte and the page pool as they
   * were and without success, or it sleeps owning the slot and two fresh pages.
   */
  lemma BeginSafe(w: World, c: Call)
    requires WorldOk(w) && FreePagesUnseen(w)
    ensures match Begin(w, c)
      case Returned(t, reply) =>
        && WorldOk(t) && FreePagesUnseen(t)
        && reply != UserOk && t.accel.ram == w.accel.ram && t.pool == w.pool
      case Asleep(t, h) =>
        && WorldOk(t) && Sleeping(t.accel, c, h) && c.ticks != 0 && t.accel.ram == w.accel.ram && MayStore(c) && 0 < c.len <= MaxLen
        && h.cmd != h.bounce && h.cmd !in w.pool.used && h.bounce !in w.pool.used && t.pool.used == w.pool.used + {h.cmd, h.bounce}
      case Panicked => false
  {
    hide FirstFree, MayStore, Submit, Inv, Visible;
    TwoPages(w.pool);
    var (p1, cmd) := AllocPage(w.pool);
    var (p2, bounce) := AllocPage(p1);
    if cmd.Some? && bounce.Some? && 0 < c.len <= MaxLen && MayStore(c) {
      var h := Held(cmd.value, bounce.value);
      SubmitFresh(w, c, h);
      var d := Cmd(OpMemset, 0, h.bounce * PageSize, c.len, c.value % WordValues, Pending, 0);
      var (s, r) := Submit(w.accel.(desc := w.accel.desc[CmdAddr(h) := d]), CmdAddr(h), c.ticks);
      if r.Some? {
        FinishEarly(World(s, p2), c, h, r.value);
        SameVisible(w.accel, s);
      }
    }
  }

  /** A reply without success and without a timeout of the device just gives the pages back. */
  lemma FinishEarly(w: World, c: Call, h: Held, r: AccelResult)
    requires r != AccelOk && (r == AccelTimeout ==> c.ticks == 0)
    ensures Finish(w, c, h, r) == Returned(World(w.accel, GiveBack(GiveBack(w.pool, h.bounce), h.cmd)), ReplyFor(r))
    ensures ReplyFor(r) != UserOk
  {
  }

  lemma SameVisible(s: State, t: State)
    requires t.req == s.req && t.dev == s.dev
    ensures forall a :: Visible(t, a) == Visible(s, a)
  {
  }

  lemma SubmitFresh(w: World, c: Call, h: Held)
    requires WorldOk(w) && FreePagesUnseen(w)
    requires h.cmd !in w.pool.used && h.cmd > 0
    ensures var d := Cmd(OpMemset, 0, h.bounce * PageSize, c.len, c.value % WordValues, Pending, 0);
      var (s, r) := Submit(w.accel.(desc := w.accel.desc[CmdAddr(h) := d]), CmdAddr(h), c.ticks);
      && Inv(s) && s.ram == w.accel.ram && s.lo == w.accel.lo && s.hi == w.accel.hi
      && (r.None? ==> Sleeping(s, c, h) && c.ticks != 0)
      && (r.Some? ==> r.value != AccelOk && (r.value == AccelTimeout ==> c.ticks == 0) && s.req == w.accel.req && s.dev == w.accel.dev)
  {
    hide Inv, PointerSafe, PayloadValid;
    var d := Cmd(OpMemset, 0, h.bounce * PageSize, c.len, c.value % WordValues, Pending, 0);
    assert !Visible(w.accel, CmdAddr(h));
    StepSafe(w.accel, WriteDesc(CmdAddr(h), d));
    var made := w.accel.(desc := w.accel.desc[CmdAddr(h) := d]);
    assert made == Next(w.accel, WriteDesc(CmdAddr(h), d));
    SubmitSafe(made, CmdAddr(h), c.ticks);
  }

  /**
   * The second half of a call, after any legal steps of everyone else.  Success means that
   * exactly the user's range has been filled; a timeout leaves user memory alone.  Both
   * temporary pages are given back, and the device sees no descriptor any more.  The
   * driver is left waiting for a reset exactly when the call succeeded after its deadline.
   */
  lemma FinishSafe(s: State, c: Call, h: Held, pool: Pool)
    requires WorldOk(World(s, pool)) && Sleeping(s, c, h) && c.ticks != 0 && Legal(s, ResumeOp) && MayStore(c) && c.len <= MaxLen
    requires h.cmd != h.bounce && h.cmd in pool.used && h.bounce in pool.used && Backed(c.view, GiveBack(pool, h.bounce))
    ensures var (t, r) := Resume(s);
      r.Some? && Finish(World(t, pool), c, h, r.value).Returned? &&
      var Returned(end, reply) := Finish(World(t, pool), c, h, r.value);
      && (reply == UserOk || reply == UserTimeout)
      && (reply == UserOk <==> s.req.completed)
      && (reply == UserOk ==> FilledUser(c, s.ram, end.accel.ram))
      && (reply == UserTimeout ==> end.accel.ram == s.ram)
      && (end.accel.req.resetRequired <==> reply == UserOk && s.req.phase == WokenTimeout)
      && end.pool.used == pool.used - {h.cmd, h.bounce}
      && WorldOk(end) && FreePagesUnseen(end) && forall x :: !Visible(end.accel, x)
  {
    hide Inv, PointerSafe, PayloadValid, HoldsFill, Copied, MayStore, Backed, FilledUser, BytesAt;
    Outcome(s);
    ResumeSafe(s);
    var (t, r) := Resume(s);
    NothingStarted(s, h);
    if s.req.completed {
      BounceHolds(s, c, h);
      CopyBack(c, s.ram, h, pool);
      RamOnly(t, Copied(c.view, s.ram, c.va, h.bounce * PageSize, c.len, true));
    } else {
      ControlSafe(t, false, true, false);
      AfterReset(t);
    }
  }

  /** Replacing bytes while the slot is free disturbs nothing. */
  lemma RamOnly(s: State, ram: Bytes)
    requires Inv(s) && !s.req.inUse
    ensures Inv(s.(ram := ram))
  {
  }

  /** A start still pending when the submitter resumes belongs to a timeout. */
  lemma NothingStarted(s: State, h: Held)
    requires Inv(s) && s.req.inUse
    ensures s.bound && (s.req.completed ==> !s.dev.start)
    ensures Legal(s, ResumeOp) && !s.req.completed ==> s.req.phase == WokenTimeout
  {
    hide PointerSafe, PayloadValid, HoldsFill;
  }

  lemma AfterReset(s: State)
    requires s.bound && !s.req.inUse
    ensures var (t, r) := WriteControl(s, false, true, false);
      r == AccelOk && t.lo == s.lo && t.hi == s.hi && t.ram == s.ram && !t.req.inUse && !t.req.resetRequired && !t.dev.start
  {
  }

  /** What the device left in the bounce page. */
  lemma BounceHolds(s: State, c: Call, h: Held)
    requires Inv(s) && Sleeping(s, c, h) && s.req.completed
    ensures forall i :: 0 <= i < c.len ==> BytesAt(s.ram, h.bounce * PageSize, c.len)[i] == c.value % 256
  {
    hide PointerSafe, PayloadValid;
    LowByte(c.value);
    var d := DescAt(s, CmdAddr(h));
    assert HoldsFill(s.ram, d) && d.dst == h.bounce * PageSize && d.len == c.len && d.value == c.value % WordValues;
  }

  lemma LowByte(v: nat)
    ensures v % WordValues % 256 == v % 256
  {
    var q := v / WordValues;
    assert v == q * WordValues + v % WordValues;
    assert v == q * 0x100_0000 * 256 + v % WordValues;
  }

  lemma CopyBack(c: Call, ram: Bytes, h: Held, pool: Pool)
    requires MayStore(c) && c.len <= PageSize && Backed(c.view, GiveBack(pool, h.bounce))
    requires forall i :: 0 <= i < c.len ==> BytesAt(ram, h.bounce * PageSize, c.len)[i] == c.value % 256
    ensures FilledUser(c, ram, Copied(c.view, ram, c.va, h.bounce * PageSize, c.len, true))
  {
    hide Validate, Stored, PhysOf, Looked, BytesAt, Copied;
    BounceApart(c, h, pool);
    CopyOutStores(c.view, ram, c.va, h.bounce * PageSize, c.len);
    StoresFill(c, ram, BytesAt(ram, h.bounce * PageSize, c.len));
  }

  lemma BounceApart(c: Call, h: Held, pool: Pool)
    requires MayStore(c) && Backed(c.view, GiveBack(pool, h.bounce)) && c.len <= PageSize
    ensures Disjoint(c.view, c.va, h.bounce * PageSize, c.len)
  {
    hide MayStore, Backed, PhysOf;
    forall a | c.va <= a < c.va + c.len
      ensures !(h.bounce * PageSize <= PhysOf(c.view, a) < h.bounce * PageSize + c.len)
    {
      UserByteElsewhere(c, GiveBack(pool, h.bounce), a, h.bounce);
    }
  }

  lemma StoresFill(c: Call, ram: Bytes, data: seq<nat>)
    requires MayStore(c) && ViewOk(c.view) && FramesDistinct(c.view)
    requires |data| == c.len && forall i :: 0 <= i < c.len ==> data[i] == c.value % 256
    ensures FilledUser(c, ram, Stored(c.view, ram, c.va, data))
  {
    hide Validate, Stored, PhysOf, Looked;
    ValidateIff(c.view, c.va, c.len, true);
    AllMapped(c.view, c.va, c.len, true);
    var after := Stored(c.view, ram, c.va, data);
    forall a | c.va <= a < c.va + c.len
      ensures Load(after, PhysOf(c.view, a)) == c.value % 256
    {
      StoredAt(c.view, ram, c.va, data, a - c.va);
    }
    forall p | forall a :: c.va <= a < c.va + c.len ==> PhysOf(c.view, a) != p
      ensures Load(after, p) == Load(ram, p)
    {
      StoredElsewhere(c.view, ram, c.va, data, p);
    }
  }

  /** Physical byte p backs a byte of the call's range. */
  ghost predicate Target(c: Call, p: nat) {
    exists a :: c.va <= a < c.va + c.len && PhysOf(c.view, a) == p
  }

  predicate InBounce(h: Held, p: nat) {
    h.bounce * PageSize <= p < (h.bounce + 1) * PageSize
  }

  /**
   * One call from end to end, with anything legal in between, seen at any byte p of memory:
   * success leaves the value in p if p backs a byte of the user's range; otherwise, and in
   * every other byte but the freed bounce page's, nothing changes.  However the call ends,
   * both temporary pages come back once, the next call finds the same promises kept, and no
   * later run that does not name a descriptor at x again depends on what memory holds at x.
   */
  lemma MemsetEndToEnd(w: World, c: Call, ops: seq<Op>, pool: Pool, p: nat, later: seq<Op>, x: nat, d: Cmd)
    requires WorldOk(w) && FreePagesUnseen(w) && Begin(w, c).Asleep? && Backed(c.view, w.pool)
    requires var Asleep(mid, h) := Begin(w, c);
      && LegalRun(mid.accel, ops) && (forall op :: op in ops ==> !op.ResumeOp? && Untouched(op, p))
      && var s := Execute(mid.accel, ops);
      && Legal(s, ResumeOp) && WorldOk(World(s, pool))
      && h.cmd in pool.used && h.bounce in pool.used && Backed(c.view, GiveBack(pool, h.bounce))
      && (Target(c, p) || !InBounce(h, p))
    ensures var Asleep(mid, h) := Begin(w, c);
      var (t, r) := Resume(Execute(mid.accel, ops));
      r.Some? && Finish(World(t, pool), c, h, r.value).Returned? &&
      var Returned(end, reply) := Finish(World(t, pool), c, h, r.value);
      && (reply == UserOk || reply == UserTimeout)
      && Load(end.accel.ram, p) == (if reply == UserOk && Target(c, p) then c.value % 256 else Load(w.accel.ram, p))
      && end.pool.used == pool.used - {h.cmd, h.bounce}
      && WorldOk(end) && FreePagesUnseen(end)
      && (x != 0 && LegalRun(end.accel, later) && (forall op :: op in later ==> !Touches(op, x)) ==>
           && LegalRun(WithDesc(end.accel, x, d), later)
           && Execute(WithDesc(end.accel, x, d), later) == WithDesc(Execute(end.accel, later), x, d))
  {
    hide Begin, Finish, Inv, Execute, LegalRun, MayStore, Backed, Visible, Resume, PhysOf, Untouched, Touches;
    BeginSafe(w, c);
    var Asleep(mid, h) := Begin(w, c);
    HeldRun(mid.accel, ops, CmdAddr(h), p);
    TargetElsewhere(c, w.pool, h, p);
    var s := Execute(mid.accel, ops);
    FinishSafe(s, c, h, pool);
    var (t, r) := Resume(s);
    var Returned(end, reply) := Finish(World(t, pool), c, h, r.value);
    FilledAtByte(c, s.ram, end.accel.ram, p);
    if x != 0 && LegalRun(end.accel, later) && forall op :: op in later ==> !Touches(op, x) {
      UnseenForever(end.accel, later, x, d);
    }
  }

  lemma TargetElsewhere(c: Call, pool: Pool, h: Held, p: nat)
    requires Backed(c.view, pool) && MayStore(c) && h.bounce !in pool.used
    ensures Target(c, p) ==> !InBounce(h, p)
  {
    hide Backed, MayStore, PhysOf;
    if a :| c.va <= a < c.va + c.len && PhysOf(c.view, a) == p {
      UserByteElsewhere(c, pool, a, h.bounce);
    }
  }

  lemma FilledAtByte(c: Call, before: Bytes, after: Bytes, p: nat)
    requires FilledUser(c, before, after) || after == before
    ensures FilledUser(c, before, after) ==> Load(after, p) == if Target(c, p) then c.value % 256 else Load(before, p)
  {
    hide PhysOf, Load;
  }
}
