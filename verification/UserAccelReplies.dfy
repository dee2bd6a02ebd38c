/** What a user memset is told, each reply exactly when its own cause holds, and that good calls succeed. */
module UserAccelReplies {
  import opened SeqTools
  import opened Pages
  import opened PageMaps
  import opened UserCopy
  import opened Accelerator
  import opened AcceleratorRuns
  import opened AcceleratorReplies
  import opened UserAccel

  /** A call worth carrying out: 1 to 4096 bytes, each of which the caller's ready task may write. */
  ghost predicate GoodCall(c: Call) {
    0 < c.len <= 4096 && c.ready && forall a :: c.va <= a < c.va + c.len ==> ByteOk(c.view, a, true)
  }

  lemma MayStoreIff(c: Call)
    requires 0 < c.len <= 4096
    ensures MayStore(c) <==> GoodCall(c)
  {
    hide Permits, Looked, Validate;
    if c.va < WordSpan {
      ValidateIff(c.view, c.va, c.len, true);
    } else {
      assert !ByteOk(c.view, c.va, true);
    }
  }

  /** Two free pages are to be had exactly when two are counted. */
  lemma PairIff(m: Pool)
    requires PoolOk(m)
    ensures AllocPage(m).1.Some? && AllocPage(AllocPage(m).0).1.Some? <==> FreeCount(m) >= 2
  {
    hide FirstFree, FreeCount;
    AllocPageFails(m);
    AllocPageFails(AllocPage(m).0);
  }

  /** The descriptor a call writes. */
  function Request(c: Call, h: Held): Cmd {
    Cmd(1, 0, h.bounce * 4096, c.len, c.value % 0x1_0000_0000, Pending, 0)
  }

  function Prepared(w: World, c: Call, h: Held): State {
    w.accel.(desc := w.accel.desc[h.cmd * 4096 := Request(c, h)])
  }

  /** Two pages of the pool make a good request for any length up to a page. */
  lemma PagesServe(w: World, c: Call, h: Held)
    requires WorldOk(w) && 0 < c.len <= 4096 && w.pool.lo <= h.cmd < w.pool.hi && w.pool.lo <= h.bounce < w.pool.hi
    ensures var s := Prepared(w, c, h);
      && Addressable(s) && GoodPlace(s, h.cmd * 4096) && DescAt(s, h.cmd * 4096) == Request(c, h) && GoodRequest(s, Request(c, h))
  {
    hide Inv, OnOnePage;
    PageServes(Prepared(w, c, h), h.cmd, 32);
    PageServes(Prepared(w, c, h), h.bounce, c.len);
  }

  lemma PageServes(s: State, p: nat, len: nat)
    requires s.lo <= p < s.hi && 0 < len <= 4096
    ensures OnOnePage(s, p * 4096, len) && p * 4096 % 8 == 0
  {
    InsidePage(p, len);
    assert p * 4096 == p * 512 * 8;
  }

  lemma InsidePage(p: nat, len: nat)
    requires len <= 4096
    ensures AllInPage(p * 4096, len, p)
  {
  }

  /** The reply of the first half of a call: its cause and nothing else. */
  lemma BeginReply(w: World, c: Call)
    requires WorldOk(w) && FreePagesUnseen(w)
    ensures var b := Begin(w, c);
      var served := GoodCall(c) && FreeCount(w.pool) >= 2;
      && ((b.Returned? && b.reply == UserInvalid) <==> !GoodCall(c))
      && ((b.Returned? && b.reply == UserNoMemory) <==> GoodCall(c) && FreeCount(w.pool) < 2)
      && ((b.Returned? && b.reply == UserTimeout) <==> served && c.ticks == 0)
      && ((b.Returned? && b.reply == UserNoDevice) <==> served && c.ticks != 0 && !w.accel.bound)
      && ((b.Returned? && b.reply == UserBusy) <==> served && c.ticks != 0 && w.accel.bound && !Unoccupied(w.accel))
      && (b.Asleep? <==> served && c.ticks != 0 && w.accel.bound && Unoccupied(w.accel))
  {
    hide FirstFree, FreeCount, MayStore, GoodCall, Submit, Inv, Visible, Unoccupied;
    if 0 < c.len <= 4096 {
      MayStoreIff(c);
    } else {
      BadLength(c);
    }
    PairIff(w.pool);
    TwoPages(w.pool);
    var (p1, cmd) := AllocPage(w.pool);
    var (p2, bounce) := AllocPage(p1);
    if GoodCall(c) && cmd.Some? && bounce.Some? {
      ServedReply(w, c, Held(cmd.value, bounce.value), p2);
    }
  }

  lemma BadLength(c: Call)
    requires !(0 < c.len <= 4096)
    ensures !GoodCall(c)
  {
  }

  lemma GoodLength(c: Call)
    requires GoodCall(c)
    ensures 0 < c.len <= 4096 && MayStore(c)
  {
    MayStoreIff(c);
  }

  /** A call that has its pages gets the driver's reply. */
  lemma ServedReply(w: World, c: Call, h: Held, pool: Pool)
    requires WorldOk(w) && FreePagesUnseen(w) && GoodCall(c)
    requires h.cmd !in w.pool.used && h.cmd > 0 && w.pool.lo <= h.cmd < w.pool.hi && w.pool.lo <= h.bounce < w.pool.hi
    ensures var (s, r) := Submit(Prepared(w, c, h), h.cmd * 4096, c.ticks);
      && (r == None <==> c.ticks != 0 && w.accel.bound && Unoccupied(w.accel))
      && (r.Some? ==>
           && Finish(World(s, pool), c, h, r.value).Returned?
           && var reply := Finish(World(s, pool), c, h, r.value).reply;
           && (reply == UserTimeout <==> c.ticks == 0)
           && (reply == UserNoDevice <==> c.ticks != 0 && !w.accel.bound)
           && (reply == UserBusy <==> c.ticks != 0 && w.accel.bound && !Unoccupied(w.accel))
           && reply != UserInvalid && reply != UserNoMemory)
  {
    hide Inv, Visible, GoodPlace, GoodRequest, Submit, GoodCall;
    GoodLength(c);
    PagesServe(w, c, h);
    SubmitFresh(w, c, h);
    var s := Prepared(w, c, h);
    assert !Visible(w.accel, h.cmd * 4096);
    WriteSafe(w.accel, h.cmd * 4096, Request(c, h));
    SubmitReply(s, h.cmd * 4096, c.ticks);
    var (t, r) := Submit(s, h.cmd * 4096, c.ticks);
    if r.Some? {
      FinishEarly(World(t, pool), c, h, r.value);
    }
  }

  lemma WriteSafe(s: State, a: nat, c: Cmd)
    requires Inv(s) && !Visible(s, a)
    ensures Inv(s.(desc := s.desc[a := c]))
  {
    StepSafe(s, WriteDesc(a, c));
    hide Inv;
  }

  /**
   * Every good call on a free device succeeds: with two free pages and a deadline that does not
   * pass first, the device step and the interrupt end it with OK.  Exactly the user's bytes hold
   * the low byte of the value, every other byte outside the freed bounce page is as it was, and
   * the page pool is what it was.
   */
  lemma GoodCallSucceeds(w: World, c: Call, p: nat)
    requires WorldOk(w) && FreePagesUnseen(w) && Backed(c.view, w.pool) && GoodCall(c) && FreeCount(w.pool) >= 2
    requires c.ticks != 0 && w.accel.bound && Unoccupied(w.accel)
    ensures Begin(w, c).Asleep?
    ensures var Asleep(mid, h) := Begin(w, c);
      var s := Irq(DeviceStep(mid.accel));
      && s.req.phase.WokenOk?
      && var (t, r) := Resume(s);
      && r == Some(AccelOk) && Finish(World(t, mid.pool), c, h, AccelOk).Returned?
      && var Returned(end, reply) := Finish(World(t, mid.pool), c, h, AccelOk);
      && reply == UserOk && end.pool == w.pool
      && (Target(c, p) ==> Load(end.accel.ram, p) == c.value % 256)
      && (!Target(c, p) && !InBounce(h, p) ==> Load(end.accel.ram, p) == Load(w.accel.ram, p))
  {
    hide Begin, Finish, Inv, FreeCount, MayStore, Backed, GoodCall, Visible, PhysOf, Unoccupied, FilledUser, Filled;
    BeginReply(w, c);
    BeginSafe(w, c);
    BeginPending(w, c);
    GoodLength(c);
    var Asleep(mid, h) := Begin(w, c);
    CarriedOut(mid.accel);
    DeviceSafe(mid.accel);
    IrqSafe(DeviceStep(mid.accel));
    var s := Irq(DeviceStep(mid.accel));
    TwoBack(w.pool, mid.pool, h);
    BackedStill(c, w.pool, GiveBack(mid.pool, h.bounce));
    FinishSafe(s, c, h, mid.pool);
    var (t, r) := Resume(s);
    var Returned(end, reply) := Finish(World(t, mid.pool), c, h, AccelOk);
    FilledAtByte(c, s.ram, end.accel.ram, p);
    FilledAt(mid.accel.ram, h.bounce * 4096, c.len, c.value % WordValues % 256, p);
    FinishPool(World(t, mid.pool), c, h, AccelOk);
  }

  /** A call asleep in the driver has its request pending at the device, and the deadline it asked for. */
  lemma BeginPending(w: World, c: Call)
    requires WorldOk(w) && FreePagesUnseen(w) && Begin(w, c).Asleep?
    ensures var Asleep(mid, h) := Begin(w, c);
      && mid.accel.dev.start && mid.accel.bound && mid.accel.req.phase == Waiting(c.ticks != 0xFFFF_FFFF_FFFF_FFFF)
      && mid.pool.lo == w.pool.lo && mid.pool.hi == w.pool.hi
      && DescAt(mid.accel, mid.accel.req.cmd) == Request(c, h)
  {
    hide FirstFree, MayStore, Inv, Visible, Submit, Finish;
    TwoPages(w.pool);
    var h := Held(AllocPage(w.pool).1.value, AllocPage(AllocPage(w.pool).0).1.value);
    assert !Visible(w.accel, h.cmd * 4096);
    WriteSafe(w.accel, h.cmd * 4096, Request(c, h));
    PagesServe(w, c, h);
    SubmitEffect(Prepared(w, c, h), h.cmd * 4096, c.ticks);
    var (s, r) := Submit(Prepared(w, c, h), h.cmd * 4096, c.ticks);
    if r.Some? {
      FinishEnds(World(s, AllocPage(AllocPage(w.pool).0).0), c, h, r.value);
    }
  }

  lemma FinishEnds(w: World, c: Call, h: Held, r: AccelResult)
    ensures !Finish(w, c, h, r).Asleep?
  {
    hide Copied, MayStore, WriteControl;
  }

  lemma TwoBack(m: Pool, held: Pool, h: Held)
    requires held.lo == m.lo && held.hi == m.hi && held.used == m.used + {h.cmd, h.bounce}
    requires h.cmd != h.bounce && h.cmd !in m.used && h.bounce !in m.used
    ensures GiveBack(GiveBack(held, h.bounce), h.cmd) == m && m.used <= GiveBack(held, h.bounce).used
    ensures h.cmd in held.used && h.bounce in held.used
  {
    assert m.used + {h.cmd, h.bounce} - {h.bounce} - {h.cmd} == m.used;
  }

  lemma BackedStill(c: Call, m: Pool, more: Pool)
    requires Backed(c.view, m) && m.used <= more.used
    ensures Backed(c.view, more)
  {
  }

  lemma FinishPool(w: World, c: Call, h: Held, r: AccelResult)
    requires Finish(w, c, h, r).Returned?
    ensures Finish(w, c, h, r).w.pool == GiveBack(GiveBack(w.pool, h.bounce), h.cmd)
  {
    hide Copied, MayStore, WriteControl;
  }

  /** The reply at the end of a call: the driver's, with INVALID in place of OK when the range may no
      longer be written; without OK no byte is touched. */
  lemma FinishReply(w: World, c: Call, h: Held, r: AccelResult)
    requires 0 < c.len <= 4096 && Finish(w, c, h, r).Returned?
    ensures var Returned(end, reply) := Finish(w, c, h, r);
      && (reply == UserOk <==> r == AccelOk && GoodCall(c))
      && (reply == UserInvalid <==> r == AccelInvalid || (r == AccelOk && !GoodCall(c)))
      && (reply == UserBusy <==> r == AccelBusy) && (reply == UserTimeout <==> r == AccelTimeout)
      && (reply == UserIo <==> r == AccelIo) && (reply == UserNoDevice <==> r == AccelNoDevice) && reply != UserNoMemory
      && (reply != UserOk ==> end.accel.ram == w.accel.ram)
  {
    MayStoreIff(c);
    hide Start, Copied, MayStore, GoodCall;
  }
}
