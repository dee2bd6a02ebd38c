/** kernel/user/accel_syscall.c in place, over the page allocator, the device and user memory. */
module UserAccelMachine {
  import opened SeqTools
  import opened Pages
  import opened PageBitmap
  import opened Sv39
  import opened PageTables
  import opened PageTree
  import opened PageMaps
  import opened VmMachine
  import opened UserCopy
  import opened UserTasks
  import opened Accelerator
  import opened AcceleratorRuns
  import opened AcceleratorMachine
  import opened UserAccel
  import TaskLife

  class UserAccelerator {
    const vm: Vm
    const memory: UserMemory
    const accel: AccelMachine

    constructor (user: UserMemory, device: AccelMachine)
      requires user.mem == device.mem
      ensures vm == user.vm && memory == user && accel == device && Wired()
    {
      vm := user.vm;
      memory := user;
      accel := device;
    }

    ghost predicate Wired() {
      memory.vm == vm && memory.mem == accel.mem
    }

    ghost function Now(): World
      reads accel, accel.mem, vm.pages
    {
      World(accel.Now(), vm.pages.pool)
    }

    /** page_alloc, as a page number. */
    method TakePage() returns (page: Option<nat>)
      requires vm.Valid()
      modifies vm, vm.pages, vm.pages.bitmap
      ensures vm.Valid() && vm.mem == old(vm.mem)
      ensures (vm.pages.pool, page) == AllocPage(old(vm.pages.pool))
      ensures page.Some? ==> page.value in vm.pages.pool.used
    {
      hide FirstFree;
      var addr := vm.pages.Alloc();
      page := if addr.Some? then Some(addr.value / PageSize) else None;
    }

    method FreePage(p: nat)
      requires vm.Valid() && p in vm.pages.pool.used
      modifies vm, vm.pages, vm.pages.bitmap
      ensures vm.Valid() && vm.mem == old(vm.mem) && vm.pages.pool == GiveBack(old(vm.pages.pool), p)
    {
      hide FirstFree;
      assert p * PageSize / PageSize == p && p * PageSize % PageSize == 0;
      vm.pages.Free(p * PageSize);
    }

    method FreeIfAny(page: Option<nat>)
      requires vm.Valid() && (page.Some? ==> page.value in vm.pages.pool.used)
      modifies vm, vm.pages, vm.pages.bitmap
      ensures vm.Valid() && vm.mem == old(vm.mem)
      ensures vm.pages.pool == if page.Some? then GiveBack(old(vm.pages.pool), page.value) else old(vm.pages.pool)
    {
      if page.Some? {
        FreePage(page.value);
      }
    }

    /** The two temporary pages, or neither. */
    method TakeTwo(space: VmSpace) returns (held: Option<Held>)
      requires vm.Valid() && vm.Rooted(space)
      modifies vm, vm.pages, vm.pages.bitmap
      ensures vm.Valid() && vm.Rooted(space)
      ensures var (p1, cmd) := AllocPage(old(vm.pages.pool)); var (p2, bounce) := AllocPage(p1);
        && (held.Some? <==> cmd.Some? && bounce.Some?)
        && (held.Some? ==>
             && held.value == Held(cmd.value, bounce.value) && vm.pages.pool == p2
             && cmd.value != bounce.value && {cmd.value, bounce.value} <= p2.used)
      ensures held.None? ==> vm.pages.pool == old(vm.pages.pool)
    {
      hide FirstFree, AllocPage, TreeOk, Agrees, PhysOk;
      ghost var before := vm.Now();
      NoNullPage(vm.Now());
      TwoPages(vm.pages.pool);
      var cmd := TakePage();
      var bounce := TakePage();
      if space.root.Some? {
        MoreInUse(before, vm.Now(), space.tab, space.view);
      }
      if cmd.None? || bounce.None? {
        FreeIfAny(cmd);
        FreeIfAny(bounce);
        return None;
      }
      held := Some(Held(cmd.value, bounce.value));
    }

    /** user_accel_memset_impl up to its sleep in the driver: a reply, or the pages it holds while asleep. */
    method BeginMemset(task: UserTask, va: nat, len: nat, value: nat, ticks: nat) returns (reply: Option<Reply>, held: Held)
      requires Wired() && vm.Valid() && vm.Rooted(task.space) && va < WordSpan && len < WordSpan
      modifies vm, vm.pages, vm.pages.bitmap, accel, accel.mem
      ensures vm.Valid()
      ensures var c := Call(task.IsReady(), task.space.view, va, len, value, ticks);
        Begin(old(Now()), c) == if reply.Some? then Returned(Now(), reply.value) else Asleep(Now(), held)
    {
      hide FirstFree, AllocPage, TreeOk, Agrees, PhysOk, Validate, Submit, Finish;
      ghost var c := Call(task.IsReady(), task.space.view, va, len, value, ticks);
      held := Held(0, 0);
      reply := Some(UserInvalid);
      if len == 0 || len > MaxLen {
        return;
      }
      var valid := memory.TaskValidate(task, va, len, true);
      if !valid {
        return;
      }
      NoNullPage(vm.Now());
      ghost var was := Now();
      var pages := TakeTwo(task.space);
      if pages.None? {
        NoPages(was, c);
        assert Now() == was;
        reply := Some(UserNoMemory);
        return;
      }
      held := pages.value;
      reply := SubmitMemset(task, c, va, len, value, ticks, held);
    }

    /** The descriptor, its submission, and the rest of the call if the driver replies at once. */
    method SubmitMemset(task: UserTask, ghost c: Call, va: nat, len: nat, value: nat, ticks: nat, h: Held)
      returns (reply: Option<Reply>)
      requires Wired() && vm.Valid() && vm.Rooted(task.space) && va < WordSpan && 0 < len < WordSpan
      requires c == Call(task.IsReady(), task.space.view, va, len, value, ticks)
      requires h.cmd != h.bounce && h.cmd in vm.pages.pool.used && h.bounce in vm.pages.pool.used
      modifies vm, vm.pages, vm.pages.bitmap, accel, accel.mem
      ensures vm.Valid()
      ensures var d := Cmd(OpMemset, 0, h.bounce * PageSize, len, value % WordValues, Pending, 0);
        var was := old(Now());
        var (s, r) := Submit(was.accel.(desc := was.accel.desc[CmdAddr(h) := d]), CmdAddr(h), ticks);
        if r.None? then reply == None && Now() == World(s, was.pool)
        else reply.Some? && Finish(World(s, was.pool), c, h, r.value) == Returned(Now(), reply.value)
    {
      hide FirstFree, TreeOk, Agrees, PhysOk, Validate, Finish, Inv, Legal, PointerSafe, PayloadValid;
      ghost var was := Now();
      var d := Cmd(OpMemset, 0, h.bounce * PageSize, len, value % WordValues, Pending, 0);
      accel.desc := accel.desc[h.cmd * PageSize := d];
      var r := accel.SubmitBegin(h.cmd * PageSize, ticks);
      if r.None? {
        return None;
      }
      EarlyReply(was.accel.(desc := was.accel.desc[CmdAddr(h) := d]), CmdAddr(h), ticks);
      var done := FinishMemset(task, c, va, len, ticks, h, r.value);
      reply := Some(done);
    }

    /** The rest of a call once the driver has replied; the slot is free again by then if a reset is due. */
    method FinishMemset(task: UserTask, ghost c: Call, va: nat, len: nat, ticks: nat, h: Held, r: AccelResult) returns (reply: Reply)
      requires Wired() && vm.Valid() && vm.Rooted(task.space) && va < WordSpan && 0 < len < WordSpan
      requires c.ready == task.IsReady() && c.view == task.space.view && c.va == va && c.len == len && c.ticks == ticks
      requires h.cmd != h.bounce && h.cmd in vm.pages.pool.used && h.bounce in vm.pages.pool.used
      requires r == AccelTimeout && ticks != 0 ==> accel.bound && !accel.req.inUse
      modifies vm, vm.pages, vm.pages.bitmap, accel, accel.mem
      ensures vm.Valid()
      ensures Finish(old(Now()), c, h, r) == Returned(Now(), reply)
    {
      hide FirstFree, TreeOk, Agrees, PhysOk, Validate, Inv, DeviceStep, Copied;
      NoNullPage(vm.Now());
      reply := ReplyFor(r);
      if r == AccelTimeout && ticks != 0 {
        ResetAccepted(accel.Now());
        var reset := accel.WriteControlRaw(2);
        if reset != AccelOk {
          assert false;
        }
      }
      if r == AccelOk {
        var ok := memory.CopyToTask(task, va, h.bounce * PageSize, len);
        reply := if ok then UserOk else UserInvalid;
      }
      FreePage(h.bounce);
      FreePage(h.cmd);
    }
  }

  /** The address space user_task_init builds is one the copy back may rely on: its user pages
      are frames of its own, all in use.  The trampoline's frame is the kernel's, outside the pool. */
  lemma WholeTaskBacked(code: nat, stack: nat, context: nat, trampoline: nat, pool: Pool)
    requires code != stack && code != context && stack != context && {code, stack, context} <= pool.used
    requires trampoline % PageSize == 0 && trampoline / PageSize !in pool.used
    ensures Backed(TaskLife.WholeView(code, stack, context, trampoline), pool)
  {
    hide Path, Canonical, FlagsValid;
    TaskLife.TaskPages();
    TaskLife.TaskFlags();
    TaskLife.PageSpan(code);
    TaskLife.PageSpan(stack);
    TaskLife.PageSpan(context);
    assert trampoline == trampoline / PageSize * PageSize;
  }

  /** A tree does not depend on what else is in use. */
  lemma MoreInUse(a: Phys, b: Phys, tab: Tables, view: View)
    requires TreeOk(a, tab) && Agrees(a, tab, view) && PhysOk(b) && b.mem == a.mem && a.pool.used <= b.pool.used
    ensures TreeOk(b, tab) && Agrees(b, tab, view)
  {
    hide Path, Canonical, PteValid, PteLeaf, EntryFor, Encoded, PhysOk;
    assert forall n, i :: n in tab ==> Word(b, tab[n], i) == Word(a, tab[n], i);
    assert Linked(b, tab);
    assert Leaves(b, tab);
    forall va | PageVa(va)
      ensures KeyEntry(b, tab, va) == KeyEntry(a, tab, va)
    {
    }
  }

  lemma NoNullPage(ph: Phys)
    requires PhysOk(ph)
    ensures PoolOk(ph.pool) && NullFree(ph.pool) && 0 !in ph.pool.used
  {
  }

  /** Without two free pages a call gives back what it took. */
  lemma NoPages(w: World, c: Call)
    requires PoolOk(w.pool) && NullFree(w.pool) && 0 < c.len <= MaxLen && MayStore(c)
    requires AllocPage(w.pool).1.None? || AllocPage(AllocPage(w.pool).0).1.None?
    ensures Begin(w, c) == Returned(w, UserNoMemory)
  {
    hide FirstFree, AllocPage, MayStore;
    TwoPages(w.pool);
  }

  lemma EarlyReply(s: State, a: nat, ticks: nat)
    ensures Submit(s, a, ticks).1 == Some(AccelTimeout) ==> ticks == 0
  {
    hide PointerSafe, PayloadValid;
  }

  lemma ResetAccepted(s: State)
    requires s.bound && !s.req.inUse
    ensures WriteControl(s, false, true, false).1 == AccelOk
  {
    hide DeviceStep;
  }
}
