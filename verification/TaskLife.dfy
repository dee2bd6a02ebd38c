/** The life of a user task: what user_task_init takes, and what cleanup and destroy give back. */
module TaskLife {
  import opened SeqTools
  import opened TaskStates
  import opened Pages
  import opened PageBitmap
  import opened Sv39
  import opened PageTables
  import opened PageTree
  import opened PageWalks
  import opened PageMaps
  import opened PageTeardown
  import opened VmMachine
  import opened UserCopy
  import opened UserTasks
  import opened TaskFrames

  const CodeVa: nat := PageSize
  const StackTop: nat := 0x4000_0000
  const StackVa: nat := StackTop - PageSize
  const TrampolineVa: nat := Half - PageSize
  const ContextVa: nat := Half - 2 * PageSize

  const CodeFlags: nat := FlagV + FlagR + FlagX + FlagU + FlagA
  const StackFlags: nat := FlagV + FlagR + FlagW + FlagU + FlagA + FlagD
  const TrampolineFlags: nat := FlagV + FlagR + FlagX + FlagA
  const ContextFlags: nat := FlagV + FlagR + FlagW + FlagA + FlagD

  const TaskVas: set<nat> := {CodeVa, StackVa, TrampolineVa, ContextVa}
  /** The six tables of a whole task. */
  const TaskTables: set<seq<nat>> := {[], [0], [0, 0], [0, 511], [255], [255, 511]}
  /** satp.MODE for Sv39. */
  const SatpSv39: nat := 0x8000_0000_0000_0000

  lemma TaskPaths()
    ensures Path(CodeVa) == [0, 0, 1] && Path(StackVa) == [0, 511, 511]
    ensures Path(TrampolineVa) == [255, 511, 511] && Path(ContextVa) == [255, 511, 510]
    ensures forall va :: va in TaskVas ==> PageVa(va)
  {
  }

  lemma TaskPrefixes()
    ensures Path(CodeVa)[..1] == [0] && Path(CodeVa)[..2] == [0, 0]
    ensures Path(StackVa)[..1] == [0] && Path(StackVa)[..2] == [0, 511]
    ensures Path(TrampolineVa)[..1] == [255] && Path(TrampolineVa)[..2] == [255, 511]
    ensures Path(ContextVa)[..1] == [255] && Path(ContextVa)[..2] == [255, 511]
  {
    TaskPaths();
  }

  lemma TaskFlags()
    ensures FlagsValid(CodeFlags) && FlagsValid(StackFlags) && FlagsValid(TrampolineFlags) && FlagsValid(ContextFlags)
    ensures HasFlag(CodeFlags, FlagU) && !HasFlag(CodeFlags, FlagG) && HasFlag(StackFlags, FlagU) && !HasFlag(StackFlags, FlagG)
  {
  }

  /** user_pa_range_is_valid for one page. */
  predicate PaRangeValid(managedStart: nat, managedEnd: nat, pa: nat, size: nat) {
    var end := (pa + size) % WordSpan;
    if size == 0 || end < pa then false else pa >= managedStart && end <= managedEnd
  }

  function PageOf(page: Option<nat>): set<nat> {
    if page.Some? then {page.value} else {}
  }

  /** The physical pages of the frames a task holds. */
  function Frames(task: UserTask): set<nat>
    reads task
  {
    PageOf(task.codePage) + PageOf(task.stackPage) + PageOf(task.trapContext)
  }

  ghost function TablePages(space: VmSpace): set<nat>
    reads space
  {
    if space.root.Some? then space.tab.Values else {}
  }

  ghost function Owned(task: UserTask): set<nat>
    reads task, task.space
  {
    TablePages(task.space) + Frames(task)
  }

  /** No two of the frames are the same page. */
  predicate FramesApart(task: UserTask)
    reads task
  {
    && (task.codePage.Some? ==> task.codePage != task.stackPage && task.codePage != task.trapContext)
    && (task.stackPage.Some? ==> task.stackPage != task.trapContext)
  }

  /** What a task may hold at any point of its construction. */
  ghost predicate Held(vm: Vm, task: UserTask)
    reads vm, vm.pages, task, task.space
  {
    && vm.Rooted(task.space)
    && (task.space.root.Some? ==> task.space.view.Keys <= TaskVas)
    && Frames(task) !! TablePages(task.space)
    && FramesApart(task) && Frames(task) <= vm.pages.pool.used
  }

  /** The allocator without the given pages, everything still in use unwritten. */
  ghost predicate GivenBack(before: Phys, after: Phys, pages: set<nat>) {
    && after.pool == before.pool.(used := before.pool.used - pages)
    && forall q :: q in after.pool.used ==> q in before.mem && q in after.mem && after.mem[q] == before.mem[q]
  }

  /** The allocator with the given pages taken, everything in use before unwritten. */
  ghost predicate Grew(before: Phys, after: Phys, pages: set<nat>) {
    && after.pool == before.pool.(used := before.pool.used + pages) && before.pool.used !! pages
    && forall q :: q in before.pool.used ==> q in before.mem && q in after.mem && after.mem[q] == before.mem[q]
  }

  /** The address space of a whole task. */
  function WholeView(code: nat, stack: nat, context: nat, trampoline: nat): View {
    map[CodeVa := Mapping(code * PageSize, CodeFlags),
        StackVa := Mapping(stack * PageSize, StackFlags),
        TrampolineVa := Mapping(trampoline, TrampolineFlags),
        ContextVa := Mapping(context * PageSize, ContextFlags)]
  }

  class TaskManager {
    const vm: Vm
    const trampolineStart: nat
    const trampolineEnd: nat
    const mem: PhysicalBytes
    /** What new trap contexts point to: the kernel's satp, the trap handler and the trap entry. */
    const kernelSatp: nat
    const trapHandler: nat
    const trapEntry: nat
    /** The trap contexts, by the page that holds them. */
    var contexts: map<nat, UserContext>

    constructor (machine: Vm, bytes: PhysicalBytes, start: nat, end: nat, satp: nat, handler: nat, entry: nat)
      ensures vm == machine && mem == bytes && trampolineStart == start && trampolineEnd == end
      ensures kernelSatp == satp && trapHandler == handler && trapEntry == entry
    {
      vm, mem := machine, bytes;
      trampolineStart, trampolineEnd := start, end;
      kernelSatp, trapHandler, trapEntry := satp, handler, entry;
      contexts := map[];
    }

    /** The trap context of a new task. */
    function NewContext(satp: nat, page: nat): UserContext {
      UserContext(kernelSatp, satp, trapHandler, page * PageSize, trapEntry, 0, StackTop, CodeVa, StatusSpie)
    }

    /** The frames of a new task: the program, an empty stack, and the context that enters it. */
    ghost predicate LaidOut(task: UserTask, program: seq<nat>)
      reads this, mem, task, task.space
    {
      && task.codePage.Some? && task.stackPage.Some? && task.trapContext.Some? && task.space.root.Some?
      && FrameHolds(mem.bytes, task.codePage.value, program) && FrameHolds(mem.bytes, task.stackPage.value, [])
      && FrameHolds(mem.bytes, task.trapContext.value, [])
      && task.userSatp == SatpSv39 + task.space.root.value
      && task.trapContext.value in contexts
      && contexts[task.trapContext.value] == NewContext(task.userSatp, task.trapContext.value)
    }

    predicate TrampolineOk()
    {
      && trampolineStart != trampolineEnd
      && (trampolineEnd - trampolineStart) % WordSpan <= PageSize
      && trampolineStart % PageSize == 0
    }

    /** A ready or exited task holds its six tables and three frames, mapped as they should be. */
    ghost predicate Whole(task: UserTask)
      reads vm, vm.pages, task, task.space
    {
      && Held(vm, task) && task.space.root.Some? && task.userSatp != 0
      && task.codePage.Some? && task.stackPage.Some? && task.trapContext.Some?
      && task.space.tab.Keys == TaskTables
      && task.space.view ==
           WholeView(task.codePage.value, task.stackPage.value, task.trapContext.value, trampolineStart)
    }

    /** What every operation keeps. */
    ghost predicate TaskOk(task: UserTask)
      reads vm, vm.pages, task, task.space
    {
      && (task.state == TaskReady || task.state == TaskExited ==> Whole(task))
      && (task.state == TaskDestroyed ==> task.Cleared())
    }

    method FreeFrame(page: Option<nat>)
      requires vm.Valid() && PageOf(page) <= vm.pages.pool.used
      modifies vm, vm.pages, vm.pages.bitmap
      ensures vm.Valid() && GivenBack(old(vm.Now()), vm.Now(), PageOf(page)) && vm.mem == old(vm.mem)
    {
      hide FirstFree;
      ghost var before := vm.Now();
      if page.Some? {
        assert page.value * PageSize / PageSize == page.value && page.value * PageSize % PageSize == 0;
        vm.pages.Free(page.value * PageSize);
      }
      assert vm.pages.pool.used == before.pool.used - PageOf(page);
      UsedPages(before);
    }

    /** user_task_release_resources: everything held comes back, each page exactly once. */
    method Release(task: UserTask)
      requires vm.Valid() && Held(vm, task)
      modifies vm, vm.pages, vm.pages.bitmap, task, task.space
      ensures vm.Valid() && task.Cleared()
      ensures GivenBack(old(vm.Now()), vm.Now(), old(Owned(task)))
      ensures task.state == old(task.state) && task.exitCode == old(task.exitCode)
    {
      hide FirstFree, TreeOk, Agrees, PhysOk, GivenBack, Frames, TablePages, TaskVas, FramesApart;
      ghost var before, tables, frames := vm.Now(), TablePages(task.space), Frames(task);
      ReleaseTables(task.space);
      ghost var unmapped := vm.Now();
      StillUsed(before, unmapped, tables, frames);
      FreeFrames(task);
      BackTwice(before, unmapped, vm.Now(), tables, frames);
      task.space.root := None;
      task.userSatp := 0;
      task.codePage, task.stackPage, task.trapContext := None, None, None;
    }

    method ReleaseTables(space: VmSpace)
      requires vm.Valid() && vm.Rooted(space) && (space.root.Some? ==> space.view.Keys <= TaskVas)
      modifies vm, vm.pages, vm.pages.bitmap, space
      ensures vm.Valid() && GivenBack(old(vm.Now()), vm.Now(), old(TablePages(space)))
    {
      hide FirstFree, TreeOk, Agrees, GivenBack, TaskVas;
      NothingBack(vm.Now());
      if space.root.Some? {
        ReleaseSpace(space);
      }
    }

    method FreeFrames(task: UserTask)
      requires vm.Valid() && FramesApart(task) && Frames(task) <= vm.pages.pool.used
      modifies vm, vm.pages, vm.pages.bitmap
      ensures vm.Valid() && GivenBack(old(vm.Now()), vm.Now(), Frames(task))
    {
      hide FirstFree, PhysOk, GivenBack;
      ghost var a := vm.Now();
      FreeFrame(task.codePage);
      ghost var b := vm.Now();
      StillUsed(a, b, PageOf(task.codePage), PageOf(task.stackPage) + PageOf(task.trapContext));
      FreeFrame(task.stackPage);
      ghost var c := vm.Now();
      BackTwice(a, b, c, PageOf(task.codePage), PageOf(task.stackPage));
      StillUsed(b, c, PageOf(task.stackPage), PageOf(task.trapContext));
      FreeFrame(task.trapContext);
      BackTwice(a, c, vm.Now(), PageOf(task.codePage) + PageOf(task.stackPage), PageOf(task.trapContext));
    }

    /** The page tables of a task: its four mappings removed, then the space destroyed. */
    method ReleaseSpace(space: VmSpace)
      requires vm.Valid() && vm.Rooted(space) && space.root.Some? && space.view.Keys <= TaskVas
      modifies vm, vm.pages, vm.pages.bitmap, space
      ensures vm.Valid() && GivenBack(old(vm.Now()), vm.Now(), old(space.tab).Values)
      ensures space.root == None
    {
      hide FirstFree, TreeOk, Agrees, Framed, PhysOk, Canonical, TaskVas, GivenBack;
      TaskVasAre();
      ghost var before, tab := vm.Now(), space.tab;
      Unmap(space, CodeVa);
      ghost var one := vm.Now();
      Unmap(space, StackVa);
      ghost var two := vm.Now();
      FramedTrans(before, tab, one, tab, two, tab);
      Unmap(space, TrampolineVa);
      ghost var three := vm.Now();
      FramedTrans(before, tab, two, tab, three, tab);
      Unmap(space, ContextVa);
      ghost var four := vm.Now();
      FramedTrans(before, tab, three, tab, four, tab);
      assert space.view == map[];
      var st := vm.SpaceDestroy(space);
      FramedTrans(before, tab, four, tab, vm.Now(), map[]);
      SameForeign(before, tab, four);
      FramedBack(before, tab, vm.Now());
    }

    /** One mapping removed if it is there. */
    method Unmap(space: VmSpace, va: nat)
      requires vm.Valid() && vm.Rooted(space) && space.root.Some? && va in TaskVas
      modifies vm, vm.pages, vm.pages.bitmap, space
      ensures vm.Valid() && vm.Rooted(space) && space.root == old(space.root) && space.tab == old(space.tab)
      ensures space.view.Keys == old(space.view).Keys - {va}
      ensures Framed(old(vm.Now()), space.tab, vm.Now(), space.tab) && vm.pages.pool == old(vm.pages.pool)
    {
      hide FirstFree, TreeOk, Agrees, Framed, PhysOk, Canonical;
      TaskPaths();
      var _ := vm.UnmapPage(space, va);
    }

    /** user_space_map_page */
    method MapUserPage(space: VmSpace, va: nat, pa: nat, flags: nat) returns (st: VmStatus)
      requires vm.Valid() && vm.Rooted(space) && space.root.Some?
      modifies vm, vm.pages, vm.pages.bitmap, space
      ensures vm.Valid() && MapResult(space, old(vm.Now()), old(space.tab), old(space.view), old(space.root), va, pa, flags, st)
      ensures st == VmInvalid <==> !old(UserMapOk(va, pa, flags))
      ensures st == VmExists ==> va in old(space.view)
    {
      hide FirstFree, TreeOk, Agrees, Framed, MapCost, FlagsValid, HasFlag, VaRangeValid, PaRangeValid, Canonical;
      if !VaRangeValid(va, PageSize) || !PaRangeValid(vm.pages.managedStart, vm.pages.managedEnd, pa, PageSize)
        || !HasFlag(flags, FlagU) || HasFlag(flags, FlagG)
      {
        RootTable(vm.Now(), space.tab);
        return VmInvalid;
      }
      st := vm.MapPage(space, va, pa, flags);
    }

    /** The policy of user_space_map_page on top of what vm_map_page asks. */
    predicate UserMapOk(va: nat, pa: nat, flags: nat)
      reads vm, vm.pages
    {
      && VaRangeValid(va, PageSize) && PaRangeValid(vm.pages.managedStart, vm.pages.managedEnd, pa, PageSize)
      && HasFlag(flags, FlagU) && !HasFlag(flags, FlagG)
      && PageVa(va) && pa % PageSize == 0 && FlagsValid(flags)
    }

    /** Policy and map checks together: a page of user bytes, backed by a whole managed page, with
        bits 0 and 4 set, bit 5 clear, and bits 3, 2, 1 one of 001, 011, 100, 101, 111. */
    lemma UserMapOkIff(va: nat, pa: nat, flags: nat)
      requires vm.Valid() && va < WordSpan && pa < WordSpan
      ensures UserMapOk(va, pa, flags) <==>
        && va % 4096 == 0 && (forall a :: va <= a < va + 4096 ==> UserByte(a))
        && pa % 4096 == 0 && vm.pages.pool.lo <= pa / 4096 < vm.pages.pool.hi
        && flags < 256 && flags % 2 == 1 && flags / 16 % 2 == 1 && flags / 32 % 2 == 0 && flags / 2 % 8 in {1, 3, 4, 5, 7}
    {
      hide FlagsValid, Canonical, VaRangeValid, FirstFree, PhysOk;
      FlagsByBits(flags);
      CanonicalIff(va);
      VaRangeValidIff(va, PageSize);
      assert VaRangeValid(va, PageSize) ==> UserByte(va);
      WholeManagedPage(pa);
    }

    lemma WholeManagedPage(pa: nat)
      requires vm.Valid() && pa < WordSpan
      ensures pa % PageSize == 0 ==>
        (PaRangeValid(vm.pages.managedStart, vm.pages.managedEnd, pa, PageSize) <==> vm.pages.pool.lo <= pa / PageSize < vm.pages.pool.hi)
    {
      hide FirstFree, PhysOk;
    }

    /** The trampoline is accepted when it begins a page and ends in the same one. */
    lemma TrampolineOnePage()
      requires trampolineStart < WordSpan && trampolineEnd < WordSpan
      ensures TrampolineOk() <==>
        && trampolineStart % 4096 == 0
        && (trampolineStart < trampolineEnd <= trampolineStart + 4096
            || (trampolineEnd == 0 && trampolineStart == 0xFFFF_FFFF_FFFF_F000))
    {
    }

    /** user_space_map_trap_support; a failure after the first mapping undoes it. */
    method MapTrapSupport(space: VmSpace, pa: nat) returns (st: VmStatus)
      requires vm.Valid() && vm.Rooted(space) && space.root.Some?
      requires pa % PageSize == 0 && vm.pages.pool.lo <= pa / PageSize < vm.pages.pool.hi
      requires TrampolineVa !in space.view && ContextVa !in space.view
      modifies vm, vm.pages, vm.pages.bitmap, space
      ensures vm.Valid() && vm.Rooted(space) && space.root == old(space.root)
      ensures Framed(old(vm.Now()), old(space.tab), vm.Now(), space.tab)
      ensures st == VmOk ==>
        && TrampolineOk()
        && space.view == old(space.view)[TrampolineVa := Mapping(trampolineStart, TrampolineFlags)][ContextVa := Mapping(pa, ContextFlags)]
        && Costs(old(vm.Now()), old(space.tab), [255], [255, 511], vm.Now(), space.tab)
      ensures st != VmOk ==> space.view == old(space.view)
      ensures st != VmOk ==> !TrampolineOk() || FreeCount(old(vm.pages.pool)) < Need(old(space.tab), [255], [255, 511])
    {
      hide FirstFree, TreeOk, Agrees, Framed, MapCost, FlagsValid, Canonical, FreeCount, TaskVas, Path, Costs, Need, PaRangeValid;
      TaskFlags();
      TaskPages();
      TaskPrefixes();
      ghost var before, tab := vm.Now(), space.tab;
      PoolPa(vm.pages.pool, pa);
      if !TrampolineOk() || !PaRangeValid(vm.pages.managedStart, vm.pages.managedEnd, pa, PageSize) {
        RootTable(before, tab);
        return VmInvalid;
      }
      st := vm.MapPage(space, TrampolineVa, trampolineStart, TrampolineFlags);
      ghost var one, mid := vm.Now(), space.tab;
      Cost(before, tab, TrampolineVa, st, one, mid);
      if st != VmOk {
        return st;
      }
      st := MapContext(space, pa);
      FramedTrans(before, tab, one, mid, vm.Now(), space.tab);
      BothCost(before, tab, one, mid, vm.Now(), space.tab);
    }

    /** The second mapping of the trap support, or the first one undone. */
    method MapContext(space: VmSpace, pa: nat) returns (st: VmStatus)
      requires vm.Valid() && vm.Rooted(space) && space.root.Some?
      requires pa % PageSize == 0 && ContextVa !in space.view
      modifies vm, vm.pages, vm.pages.bitmap, space
      ensures vm.Valid() && vm.Rooted(space) && space.root == old(space.root)
      ensures Framed(old(vm.Now()), old(space.tab), vm.Now(), space.tab)
      ensures st == VmOk || st == VmNoMemory
      ensures st == VmOk ==> space.view == old(space.view)[ContextVa := Mapping(pa, ContextFlags)]
      ensures st == VmOk ==> Costs(old(vm.Now()), old(space.tab), [255], [255, 511], vm.Now(), space.tab)
      ensures st != VmOk ==> space.view.Keys == old(space.view).Keys - {TrampolineVa} && space.view == old(space.view) - {TrampolineVa}
      ensures st != VmOk ==> FreeCount(old(vm.pages.pool)) < Need(old(space.tab), [255], [255, 511])
    {
      hide FirstFree, TreeOk, Agrees, Framed, MapCost, FlagsValid, Canonical, FreeCount, TaskVas, Costs, Need, Path;
      TaskFlags();
      TaskPages();
      TaskPrefixes();
      ghost var one, mid := vm.Now(), space.tab;
      st := vm.MapPage(space, ContextVa, pa, ContextFlags);
      ghost var two, more := vm.Now(), space.tab;
      Cost(one, mid, ContextVa, st, two, more);
      if st != VmOk {
        var undone := vm.UnmapPage(space, TrampolineVa);
        FramedTrans(one, mid, two, more, vm.Now(), more);
      }
    }

    /** The four mappings of a new task, in order, up to the first that fails. */
    method MapAll(space: VmSpace, code: nat, stack: nat, context: nat) returns (ok: bool)
      requires vm.Valid() && vm.Rooted(space) && space.root.Some? && space.view == map[] && space.tab.Keys == {[]}
      requires {code, stack, context} <= Foreign(vm.Now(), space.tab)
      modifies vm, vm.pages, vm.pages.bitmap, space
      ensures vm.Valid() && vm.Rooted(space) && space.root == old(space.root)
      ensures Framed(old(vm.Now()), old(space.tab), vm.Now(), space.tab)
      ensures space.view.Keys <= TaskVas
      ensures ok ==> space.view == WholeView(code, stack, context, trampolineStart) && space.tab.Keys == TaskTables
      ensures ok ==> FreeCount(vm.pages.pool) == FreeCount(old(vm.pages.pool)) - 5
      ensures ok <==> TrampolineOk() && FreeCount(old(vm.pages.pool)) >= 5
    {
      hide FirstFree, TreeOk, Agrees, Framed, Foreign, Canonical, FreeCount, Path, Costs, Need, MapCost, TaskTables, TaskVas, UserMapOk;
      TaskPrefixes();
      TaskVasAre();
      ghost var before, tab := vm.Now(), space.tab;
      RootTable(before, tab);
      StillForeign(before, tab, before, tab);
      MayMap(code, CodeVa, CodeFlags);
      var st := MapUserPage(space, CodeVa, code * PageSize, CodeFlags);
      ghost var one, t1 := vm.Now(), space.tab;
      if st != VmOk {
        CodeCost(before, tab, st, one, t1);
        return false;
      }
      CodeCost(before, tab, st, one, t1);
      StillForeign(before, tab, one, t1);
      MayMap(stack, StackVa, StackFlags);
      st := MapUserPage(space, StackVa, stack * PageSize, StackFlags);
      ghost var two, t2 := vm.Now(), space.tab;
      FramedTrans(before, tab, one, t1, two, t2);
      StackCost(one, t1, st, two, t2);
      StillForeign(before, tab, two, t2);
      if st != VmOk {
        return false;
      }
      PageSpan(context);
      st := MapTrapSupport(space, context * PageSize);
      FramedTrans(before, tab, two, t2, vm.Now(), space.tab);
      TrapCost(two, t2, vm.Now(), space.tab);
      FreeNonNegative(vm.Now());
      ok := st == VmOk;
    }

    lemma MayMap(p: nat, va: nat, flags: nat)
      requires vm.Valid() && p in vm.pages.pool.used
      requires (va == CodeVa && flags == CodeFlags) || (va == StackVa && flags == StackFlags)
      ensures UserMapOk(va, p * PageSize, flags)
    {
      hide FirstFree, Canonical, VaRangeValid, PaRangeValid;
      TaskFlags();
      TaskPages();
      WindowPages();
      PageSpan(p);
      PoolPa(vm.pages.pool, p * PageSize);
    }

    /** page_alloc, as a page number. */
    method AllocFrame() returns (page: Option<nat>)
      requires vm.Valid()
      modifies vm, vm.pages, vm.pages.bitmap
      ensures vm.Valid() && Grew(old(vm.Now()), vm.Now(), PageOf(page))
      ensures page.None? <==> FreeCount(old(vm.pages.pool)) == 0
      ensures FreeCount(vm.pages.pool) == FreeCount(old(vm.pages.pool)) - if page.Some? then 1 else 0
      ensures vm.mem == old(vm.mem)
    {
      hide FirstFree;
      ghost var before := vm.Now();
      AllocPageFails(vm.pages.pool);
      var addr := vm.pages.Alloc();
      page := if addr.Some? then Some(addr.value / PageSize) else None;
      assert before.pool.used + {} == before.pool.used;
      UsedPages(before);
    }

    /** The three frames of a new task; a shortage leaves the last ones absent. */
    method TakeFrames() returns (code: Option<nat>, stack: Option<nat>, context: Option<nat>)
      requires vm.Valid()
      modifies vm, vm.pages, vm.pages.bitmap
      ensures vm.Valid() && Grew(old(vm.Now()), vm.Now(), PageOf(code) + PageOf(stack) + PageOf(context))
      ensures vm.mem == old(vm.mem)
      ensures PageOf(code) !! PageOf(stack) && PageOf(code) + PageOf(stack) !! PageOf(context)
      ensures code.Some? && stack.Some? && context.Some? <==> FreeCount(old(vm.pages.pool)) >= 3
      ensures FreeCount(old(vm.pages.pool)) >= 3 ==> FreeCount(vm.pages.pool) == FreeCount(old(vm.pages.pool)) - 3
    {
      hide FirstFree, PhysOk, Grew, FreeCount, PageOf;
      ghost var a := vm.Now();
      FreeNonNegative(a);
      code := AllocFrame();
      ghost var b := vm.Now();
      FreeNonNegative(b);
      stack := AllocFrame();
      ghost var c := vm.Now();
      FreeNonNegative(c);
      GrewTwice(a, b, c, PageOf(code), PageOf(stack));
      context := AllocFrame();
      GrewTwice(a, c, vm.Now(), PageOf(code) + PageOf(stack), PageOf(context));
    }

    /** user_task_can_init */
    predicate CanInit(task: UserTask)
      reads task, task.space
    {
      task.state == TaskUnused || (task.state == TaskDestroyed && task.Cleared())
    }

    /** user_task_reset */
    method Reset(task: UserTask)
      modifies task, task.space
      ensures task.state == TaskUnused && task.Cleared() && task.exitCode == 0
    {
      task.state := TaskUnused;
      task.space.root := None;
      task.userSatp, task.exitCode := 0, 0;
      task.codePage, task.stackPage, task.trapContext := None, None, None;
    }

    /**
     * user_task_init; no program stands for a null pointer.  It succeeds exactly when nine
     * pages are free, takes exactly nine and fills the task's frames, and otherwise takes none.
     */
    method Init(task: UserTask, program: Option<seq<nat>>) returns (r: int)
      requires vm.Valid() && TaskOk(task)
      modifies vm, vm.pages, vm.pages.bitmap, task, task.space, mem, this`contexts
      ensures vm.Valid() && TaskOk(task) && (r == 0 || r == -1)
      ensures r == 0 <==>
        && program.Some? && 0 < |program.value| <= 4096 && old(task.state == TaskUnused || task.state == TaskDestroyed)
        && TrampolineOk() && FreeCount(old(vm.pages.pool)) >= 9
      ensures r == 0 ==> task.state == TaskReady && task.exitCode == 0 && Grew(old(vm.Now()), vm.Now(), Owned(task))
      ensures r == 0 ==> FreeCount(vm.pages.pool) == FreeCount(old(vm.pages.pool)) - 9
      ensures r == 0 ==> LaidOut(task, program.value) && StartsProgram(task, program.value)
      ensures r != 0 ==> GivenBack(old(vm.Now()), vm.Now(), {}) && contexts == old(contexts)
      ensures r != 0 ==> task.state == old(task.state) || task.state == TaskUnused
      ensures BytesKept(old(vm.Now()), old(mem.bytes), mem.bytes)
    {
      hide FirstFree, TreeOk, Agrees, Framed, PhysOk, Grew, GivenBack, FreeCount, Held, LaidOut, StartsProgram, Whole;
      NothingBack(vm.Now());
      FreeNonNegative(vm.Now());
      if program.None? || |program.value| == 0 || |program.value| > PageSize || !CanInit(task) {
        return -1;
      }
      Reset(task);
      ghost var before := vm.Now();
      var st := vm.SpaceInit(task.space);
      if st != VmOk {
        Reset(task);
        return -1;
      }
      RootTaken(before, vm.Now(), task.space.tab);
      r := Populate(task, program.value, before);
      if r == 0 {
        InitStartsProgram(task, program.value);
      }
    }

    /** The frames and mappings of a task whose root table has just been made. */
    method Populate(task: UserTask, program: seq<nat>, ghost before: Phys) returns (r: int)
      requires vm.Valid() && vm.Rooted(task.space) && task.space.root.Some? && task.space.view == map[]
      requires task.space.tab.Keys == {[]} && Grew(before, vm.Now(), task.space.tab.Values)
      requires task.state == TaskUnused && task.exitCode == 0 && |program| <= PageSize
      modifies vm, vm.pages, vm.pages.bitmap, task, task.space, mem, this`contexts
      ensures vm.Valid() && (r == 0 || r == -1)
      ensures r == 0 <==> TrampolineOk() && FreeCount(old(vm.pages.pool)) >= 8
      ensures r == 0 ==> Whole(task) && task.state == TaskReady && task.exitCode == 0 && Grew(before, vm.Now(), Owned(task))
      ensures r == 0 ==> FreeCount(vm.pages.pool) == FreeCount(old(vm.pages.pool)) - 8
      ensures r == 0 ==> LaidOut(task, program)
      ensures r != 0 ==> GivenBack(before, vm.Now(), {}) && task.state == TaskUnused && task.Cleared() && contexts == old(contexts)
      ensures BytesKept(before, old(mem.bytes), mem.bytes)
    {
      hide FirstFree, TreeOk, Agrees, Framed, PhysOk, Grew, GivenBack, FreeCount, TaskVas, TaskTables, WholeView, PageOf, FrameHolds, WrittenIn;
      ghost var a, tab := vm.Now(), task.space.tab;
      task.codePage, task.stackPage, task.trapContext := TakeFrames();
      ThreeApart(task.codePage, task.stackPage, task.trapContext);
      ghost var b := vm.Now();
      FramesTaken(before, a, b, Frames(task), tab, task.space.view);
      if task.codePage.None? || task.stackPage.None? || task.trapContext.None? {
        NothingWritten(before, mem.bytes);
        AbandonTask(task, before);
        return -1;
      }
      FramesAre(task);
      r := FillAndMap(task, program, before, b);
    }

    /** The second half: the frames' contents, the mappings, and the entry into the ready state. */
    method FillAndMap(task: UserTask, program: seq<nat>, ghost before: Phys, ghost b: Phys) returns (r: int)
      requires vm.Valid() && vm.Rooted(task.space) && task.space.root.Some? && task.space.view == map[] && b == vm.Now()
      requires task.space.tab.Keys == {[]} && Grew(before, vm.Now(), task.space.tab.Values + Frames(task))
      requires task.codePage.Some? && task.stackPage.Some? && task.trapContext.Some? && FramesApart(task)
      requires Frames(task) !! task.space.tab.Values && Frames(task) <= Foreign(b, task.space.tab) && Frames(task) <= b.pool.used
      requires task.state == TaskUnused && task.exitCode == 0 && |program| <= PageSize
      modifies vm, vm.pages, vm.pages.bitmap, task, task.space, mem, this`contexts
      ensures vm.Valid() && (r == 0 || r == -1)
      ensures r == 0 <==> TrampolineOk() && FreeCount(b.pool) >= 5
      ensures r == 0 ==> Whole(task) && task.state == TaskReady && task.exitCode == 0 && Grew(before, vm.Now(), Owned(task))
      ensures r == 0 ==> FreeCount(vm.pages.pool) == FreeCount(b.pool) - 5
      ensures r == 0 ==> LaidOut(task, program)
      ensures r != 0 ==> GivenBack(before, vm.Now(), {}) && task.state == TaskUnused && task.Cleared() && contexts == old(contexts)
      ensures BytesKept(before, old(mem.bytes), mem.bytes)
    {
      hide FirstFree, TreeOk, Agrees, Framed, PhysOk, Grew, GivenBack, FreeCount, TaskVas, TaskTables, WholeView, PageOf, FrameHolds, WrittenIn, Foreign;
      FramesAre(task);
      ghost var tab := task.space.tab;
      FillFrames(mem, task.codePage.value, task.stackPage.value, task.trapContext.value, program);
      FramesOnly(before, b, tab.Values + Frames(task), old(mem.bytes), mem.bytes, Frames(task));
      var ok := MapAll(task.space, task.codePage.value, task.stackPage.value, task.trapContext.value);
      TreeGrown(before, b, tab, vm.Now(), task.space.tab, Frames(task));
      if !ok {
        AbandonTask(task, before);
        return -1;
      }
      task.userSatp := SatpSv39 + task.space.root.value;
      contexts := contexts[task.trapContext.value := NewContext(task.userSatp, task.trapContext.value)];
      task.state := TaskReady;
      r := 0;
    }

    /** A new task starts with its program: where, on what stack, and what its traps will find. */
    ghost predicate StartsProgram(task: UserTask, program: seq<nat>)
      reads this, mem, task, task.space
    {
      && task.trapContext.Some? && task.stackPage.Some? && task.space.root.Some? && task.trapContext.value in contexts
      && var c, view := contexts[task.trapContext.value], task.space.view;
      // The first instruction is the program's first byte, in a user page that can be executed and not written.
      && Looked(view, c.mepc).Some? && var flags := Looked(view, c.mepc).value.1;
      && flags / 16 % 2 == 1 && flags / 8 % 2 == 1 && flags / 4 % 2 == 0
      && (forall i :: 0 <= i < |program| ==> Load(mem.bytes, PhysOf(view, c.mepc + i)) == program[i])
      // The stack pointer is one past a page of bytes the user may write, in the stack frame.
      && c.sp % 16 == 0 && !ByteOk(view, c.sp, false)
      && (forall a: nat :: c.sp - 4096 <= a < c.sp ==> ByteOk(view, a, true) && PhysOf(view, a) / 4096 == task.stackPage.value)
      // The kernel finds its own entry points, its context through the task's tables, and both roots.
      && c.kernelTrapHandler == trapHandler && c.kernelStvec == trapEntry && c.kernelSatp == kernelSatp && c.kernelSp == 0
      && Looked(view, 0x3F_FFFF_E000).Some? && c.kernelTrapContext == PhysOf(view, 0x3F_FFFF_E000)
      && c.kernelTrapContext == task.trapContext.value * 4096
      && c.userSatp == task.userSatp == 8 * 0x1000_0000_0000_0000 + task.space.root.value
      && c.mstatus == 0x20
    }

    /** Every successful user_task_init leaves a task that starts its program. */
    lemma InitStartsProgram(task: UserTask, program: seq<nat>)
      requires Whole(task) && LaidOut(task, program) && 0 < |program| <= PageSize
      ensures StartsProgram(task, program)
    {
      hide Held, WholeView, FrameHolds, PhysOf, Looked, ByteOk;
      var code, stack, context := task.codePage.value, task.stackPage.value, task.trapContext.value;
      EntryPage(code, stack, context, trampolineStart);
      StackBytes(code, stack, context, trampolineStart);
      forall i | 0 <= i < |program|
        ensures Load(mem.bytes, PhysOf(task.space.view, CodeVa + i)) == program[i]
      {
        CodeByte(code, stack, context, trampolineStart, i);
        HeldByte(mem.bytes, code, program, i);
      }
    }

    /** user_task_set_kernel_sp */
    method SetKernelSp(task: UserTask, kernelSp: nat) returns (r: int)
      requires TaskOk(task) && (task.IsReady() ==> task.trapContext.value in contexts)
      modifies this`contexts
      ensures (r == 0 || r == -1) && (r == 0 <==> task.IsReady() && kernelSp != 0)
      ensures r != 0 ==> contexts == old(contexts)
      ensures r == 0 ==>
        && task.trapContext.Some? && task.trapContext.value in old(contexts)
        && contexts == old(contexts)[task.trapContext.value := old(contexts)[task.trapContext.value].(kernelSp := kernelSp)]
    {
      hide TreeOk, Agrees;
      if !task.IsReady() || kernelSp == 0 {
        return -1;
      }
      contexts := contexts[task.trapContext.value := contexts[task.trapContext.value].(kernelSp := kernelSp)];
      r := 0;
    }

    /** user_task_cleanup_partial */
    method AbandonTask(task: UserTask, ghost before: Phys)
      requires vm.Valid() && Held(vm, task) && Grew(before, vm.Now(), Owned(task))
      modifies vm, vm.pages, vm.pages.bitmap, task, task.space
      ensures vm.Valid() && GivenBack(before, vm.Now(), {})
      ensures task.state == TaskUnused && task.Cleared()
    {
      hide FirstFree, TreeOk, Agrees, PhysOk, Grew, GivenBack, Held, Owned;
      ghost var mid, owned := vm.Now(), Owned(task);
      Release(task);
      AllBack(before, mid, vm.Now(), owned);
      Reset(task);
    }

    /** user_task_mark_exited */
    method MarkExited(task: UserTask, code: nat) returns (r: int)
      requires TaskOk(task)
      modifies task
      ensures TaskOk(task) && (r == 0 <==> old(task.state) == TaskReady) && (r == 0 || r == -1)
      ensures r == 0 ==> task.state == TaskExited && task.exitCode == code && Owned(task) == old(Owned(task))
      ensures r != 0 ==> task.state == old(task.state) && task.exitCode == old(task.exitCode)
    {
      hide TreeOk, Agrees;
      if !task.IsReady() {
        return -1;
      }
      task.state := TaskExited;
      task.exitCode := code;
      r := 0;
    }

    /** user_task_destroy: an exited task gives back all nine pages it owns, once each. */
    method Destroy(task: UserTask) returns (r: int)
      requires vm.Valid() && TaskOk(task)
      modifies vm, vm.pages, vm.pages.bitmap, task, task.space
      ensures vm.Valid() && TaskOk(task) && (r == 0 <==> old(task.state) == TaskExited) && (r == 0 || r == -1)
      ensures r == 0 ==> task.state == TaskDestroyed && task.exitCode == old(task.exitCode)
      ensures r == 0 ==> GivenBack(old(vm.Now()), vm.Now(), old(Owned(task))) && |old(Owned(task))| == 9
      ensures r != 0 ==> vm.Now() == old(vm.Now()) && task.state == old(task.state)
    {
      hide FirstFree, TreeOk, Agrees, PhysOk, GivenBack, Owned;
      if task.state != TaskExited {
        return -1;
      }
      NinePages(task);
      Release(task);
      task.state := TaskDestroyed;
      r := 0;
    }

    lemma NinePages(task: UserTask)
      requires Whole(task)
      ensures |Owned(task)| == 9
    {
      hide WholeView, TaskVas, Agrees, Linked, Leaves, PhysOk;
      SeparateValues(task.space.tab);
      SixTables();
      assert Frames(task) == {task.codePage.value, task.stackPage.value, task.trapContext.value};
      assert |Owned(task)| == |TablePages(task.space)| + |Frames(task)|;
    }

    /** What a map leaves, whatever its status. */
    ghost predicate MapResult(space: VmSpace, before: Phys, tab: Tables, view: View, root: Option<nat>, va: nat, pa: nat, flags: nat, st: VmStatus)
      reads vm, vm.pages, space
    {
      && vm.Rooted(space) && space.root == root && Framed(before, tab, vm.Now(), space.tab)
      && space.view == (if st == VmOk then view[va := Mapping(pa, flags)] else view)
      && (st == VmOk || st == VmNoMemory ==> MapCost(before, tab, va, st, vm.Now(), space.tab))
      && st in {VmOk, VmInvalid, VmExists, VmNoMemory}
    }
  }

  /** No byte of a page that was in use before has changed. */
  ghost predicate BytesKept(before: Phys, was: Bytes, now: Bytes) {
    forall a: nat :: a / PageSize in before.pool.used ==> Load(now, a) == Load(was, a)
  }

  lemma NothingWritten(before: Phys, bytes: Bytes)
    ensures BytesKept(before, bytes, bytes)
  {
  }

  lemma FramesOnly(before: Phys, b: Phys, taken: set<nat>, was: Bytes, now: Bytes, frames: set<nat>)
    requires Grew(before, b, taken) && frames <= taken && WrittenIn(was, now, frames)
    ensures BytesKept(before, was, now)
  {
    hide Load;
  }

  function Need(tab: Tables, upper: seq<nat>, lower: seq<nat>): nat {
    (if upper in tab then 0 else 1) + if lower in tab then 0 else 1
  }

  /** The tree has the two tables named, and the pool has paid for those that were missing. */
  ghost predicate Costs(ph: Phys, tab: Tables, upper: seq<nat>, lower: seq<nat>, after: Phys, more: Tables) {
    more.Keys == tab.Keys + {upper, lower} && FreeCount(after.pool) == FreeCount(ph.pool) - Need(tab, upper, lower)
  }

  /** What one of the task's maps costs, in tables. */
  lemma Cost(ph: Phys, tab: Tables, va: nat, st: VmStatus, after: Phys, more: Tables)
    requires MapCost(ph, tab, va, st, after, more)
    ensures var k := Path(va);
      && (st == VmOk ==> Costs(ph, tab, k[..1], k[..2], after, more))
      && (st == VmNoMemory ==> FreeCount(ph.pool) < Need(tab, k[..1], k[..2]))
  {
    hide FreeCount, Path;
    var k := Path(va);
    assert Steps(k, 2) == {k[..1]} + Steps(k, 1) && Steps(k, 1) == {k[..2]} + Steps(k, 0);
    assert Missing(tab, k, 1) == (if k[..2] in tab then 0 else 1) + Missing(tab, k, 0);
  }

  /** Two maps through the same tables cost what the first one does. */
  lemma BothCost(a: Phys, ta: Tables, b: Phys, tb: Tables, c: Phys, tc: Tables)
    requires PhysOk(b) && Costs(a, ta, [255], [255, 511], b, tb)
    ensures Costs(b, tb, [255], [255, 511], c, tc) ==> Costs(a, ta, [255], [255, 511], c, tc)
    ensures FreeCount(b.pool) >= Need(tb, [255], [255, 511])
  {
    FreeNonNegative(b);
    hide FreeCount;
    assert [255] in tb && [255, 511] in tb;
    assert tb.Keys + {[255], [255, 511]} == tb.Keys;
  }

  lemma GrewTwice(a: Phys, b: Phys, c: Phys, first: set<nat>, later: set<nat>)
    requires Grew(a, b, first) && Grew(b, c, later)
    ensures Grew(a, c, first + later) && first !! later
  {
    assert a.pool.used + first + later == a.pool.used + (first + later);
  }

  /** The bytes a whole task can reach: its code page to read, its stack page to read and write, and no other. */
  lemma WholeWindow(code: nat, stack: nat, context: nat, trampoline: nat, a: nat, write: bool)
    ensures ByteOk(WholeView(code, stack, context, trampoline), a, write) <==>
      (CodeVa <= a < CodeVa + PageSize && !write) || StackVa <= a < StackTop
  {
    hide Canonical;
    CanonicalIff(a);
    UserFlags();
  }

  lemma UserFlags()
    ensures HasFlag(CodeFlags, FlagU) && HasFlag(CodeFlags, FlagR) && !HasFlag(CodeFlags, FlagW)
    ensures HasFlag(StackFlags, FlagU) && HasFlag(StackFlags, FlagR) && HasFlag(StackFlags, FlagW)
  {
  }

  /** The task reads its program at the bottom of its window. */
  lemma ProgramVisible(bytes: Bytes, code: nat, stack: nat, context: nat, trampoline: nat, program: seq<nat>)
    requires |program| <= PageSize && FrameHolds(bytes, code, program)
    ensures Validate(WholeView(code, stack, context, trampoline), CodeVa, |program|, false)
    ensures Fetched(WholeView(code, stack, context, trampoline), bytes, CodeVa, |program|) == program
  {
    hide WholeView, Validate, ByteOk, PhysOf, Looked, Fetched;
    var view := WholeView(code, stack, context, trampoline);
    ValidateIff(view, CodeVa, |program|, false);
    forall a | CodeVa <= a < CodeVa + |program|
      ensures ByteOk(view, a, false)
    {
      WholeWindow(code, stack, context, trampoline, a, false);
    }
    forall i | 0 <= i < |program|
      ensures Fetched(view, bytes, CodeVa, |program|)[i] == program[i]
    {
      FetchedAt(view, bytes, CodeVa, |program|, i);
      CodeByte(code, stack, context, trampoline, i);
      assert Load(bytes, code * PageSize + i) == DataAt(program, i);
    }
  }

  lemma CodeByte(code: nat, stack: nat, context: nat, trampoline: nat, i: nat)
    requires i < PageSize
    ensures PhysOf(WholeView(code, stack, context, trampoline), CodeVa + i) == code * PageSize + i
  {
    hide Canonical;
    CanonicalIff(CodeVa + i);
    assert AlignDown(CodeVa + i) == CodeVa && (CodeVa + i) % PageSize == i;
  }

  lemma HeldByte(bytes: Bytes, p: nat, data: seq<nat>, i: nat)
    requires FrameHolds(bytes, p, data) && i < |data| <= PageSize
    ensures Load(bytes, p * PageSize + i) == data[i]
  {
    hide Load;
    assert Load(bytes, p * PageSize + i) == DataAt(data, i);
  }

  /** How the code page and the context page of a whole task are mapped. */
  lemma EntryPage(code: nat, stack: nat, context: nat, trampoline: nat)
    ensures var view := WholeView(code, stack, context, trampoline);
      && Looked(view, CodeVa) == Some((code * PageSize, 91)) && Looked(view, ContextVa) == Some((context * PageSize, 199))
      && PhysOf(view, ContextVa) == context * PageSize && !ByteOk(view, StackTop, false)
  {
    hide Canonical;
    CanonicalIff(CodeVa);
    CanonicalIff(ContextVa);
  }

  lemma StackBytes(code: nat, stack: nat, context: nat, trampoline: nat)
    ensures forall a :: StackTop - 4096 <= a < StackTop ==>
      && ByteOk(WholeView(code, stack, context, trampoline), a, true)
      && PhysOf(WholeView(code, stack, context, trampoline), a) / 4096 == stack
  {
    forall a: nat | StackTop - 4096 <= a < StackTop
      ensures ByteOk(WholeView(code, stack, context, trampoline), a, true)
      ensures PhysOf(WholeView(code, stack, context, trampoline), a) / 4096 == stack
    {
      WholeWindow(code, stack, context, trampoline, a, true);
      StackByte(code, stack, context, trampoline, a);
    }
  }

  lemma StackByte(code: nat, stack: nat, context: nat, trampoline: nat, a: nat)
    requires StackTop - 4096 <= a < StackTop
    ensures PhysOf(WholeView(code, stack, context, trampoline), a) / 4096 == stack
  {
    hide Canonical;
    CanonicalIff(a);
    assert AlignDown(a) == StackVa;
    assert PhysOf(WholeView(code, stack, context, trampoline), a) == stack * PageSize + a % PageSize;
  }

  /** The pages the user cannot reach: the trampoline executable and read-only, the context neither, both the kernel's. */
  lemma KernelPages(code: nat, stack: nat, context: nat, trampoline: nat)
    ensures var view := WholeView(code, stack, context, trampoline);
      && Looked(view, 0x3F_FFFF_F000) == Some((trampoline, 75)) && Looked(view, 0x3F_FFFF_E000) == Some((context * PageSize, 199))
      && 75 / 16 % 2 == 0 && 75 / 8 % 2 == 1 && 75 / 4 % 2 == 0
      && 199 / 16 % 2 == 0 && 199 / 8 % 2 == 0 && 199 / 4 % 2 == 1
  {
    hide Canonical;
    CanonicalIff(TrampolineVa);
    CanonicalIff(ContextVa);
  }

  lemma SixTables()
    ensures |TaskTables| == 6
  {
  }

  lemma SeparateValues(tab: Tables)
    requires Separate(tab)
    ensures |tab.Values| == |tab|
    decreases |tab|
  {
    if tab != map[] {
      var n :| n in tab;
      DroppedValues(tab, n);
      assert Drop(tab, n).Keys == tab.Keys - {n};
      assert |Drop(tab, n)| == |Drop(tab, n).Keys|;
      SeparateValues(Drop(tab, n));
    }
  }

  lemma RootTaken(before: Phys, after: Phys, tab: Tables)
    requires Framed(before, map[], after, tab) && TreeOk(after, tab)
    ensures Grew(before, after, tab.Values)
  {
    var none: Tables := map[];
    assert none.Values == {};
    assert Foreign(before, none) == before.pool.used;
    TablesInUse(after, tab);
    assert after.pool.used == Foreign(after, tab) + tab.Values;
  }

  lemma TablesInUse(ph: Phys, tab: Tables)
    requires TreeOk(ph, tab)
    ensures tab.Values <= ph.pool.used
  {
  }

  lemma ThreeApart(code: Option<nat>, stack: Option<nat>, context: Option<nat>)
    requires PageOf(code) !! PageOf(stack) && PageOf(code) + PageOf(stack) !! PageOf(context)
    ensures code.Some? ==> code != stack && code != context
    ensures stack.Some? ==> stack != context
  {
    if code.Some? {
      assert code.value in PageOf(code);
    }
    if stack.Some? {
      assert stack.value in PageOf(stack);
    }
  }

  lemma FramesAre(task: UserTask)
    requires task.codePage.Some? && task.stackPage.Some? && task.trapContext.Some?
    ensures Frames(task) == {task.codePage.value, task.stackPage.value, task.trapContext.value}
  {
  }

  /** Taking free pages leaves a tree alone. */
  lemma FramesTaken(before: Phys, a: Phys, b: Phys, frames: set<nat>, tab: Tables, view: View)
    requires TreeOk(a, tab) && Agrees(a, tab, view) && Grew(before, a, tab.Values)
    requires Grew(a, b, frames) && b.mem == a.mem && PhysOk(b)
    ensures TreeOk(b, tab) && Agrees(b, tab, view) && Grew(before, b, tab.Values + frames)
    ensures frames !! tab.Values && frames <= Foreign(b, tab) && frames <= b.pool.used
  {
    hide Path, Canonical, PteValid, PteLeaf, EntryFor, Encoded, PhysOk;
    TablesInUse(a, tab);
    assert forall n, i :: n in tab ==> Word(a, tab[n], i) == Word(b, tab[n], i);
    assert Linked(b, tab);
    assert Leaves(b, tab);
    GrewTwice(before, a, b, tab.Values, frames);
    forall va | PageVa(va)
      ensures KeyEntry(b, tab, va) == KeyEntry(a, tab, va)
    {
    }
  }

  /** A tree that has grown beside its frames. */
  lemma TreeGrown(before: Phys, b: Phys, tab: Tables, c: Phys, more: Tables, frames: set<nat>)
    requires Grew(before, b, tab.Values + frames) && frames !! tab.Values && frames <= b.pool.used
    requires Framed(b, tab, c, more) && TreeOk(c, more)
    ensures Grew(before, c, more.Values + frames) && frames !! more.Values && frames <= c.pool.used
  {
    hide Linked, Leaves, Separate, PhysOk;
    TablesInUse(c, more);
    assert Foreign(b, tab) == before.pool.used + frames;
    assert c.pool.used == Foreign(c, more) + more.Values;
    assert c.pool.used == before.pool.used + (more.Values + frames);
  }

  lemma AllBack(before: Phys, mid: Phys, after: Phys, owned: set<nat>)
    requires Grew(before, mid, owned) && GivenBack(mid, after, owned)
    ensures GivenBack(before, after, {})
  {
    assert before.pool.used + owned - owned == before.pool.used == before.pool.used - {};
  }

  lemma StillForeign(a: Phys, ta: Tables, b: Phys, tb: Tables)
    requires Framed(a, ta, b, tb)
    ensures Foreign(a, ta) <= b.pool.used && Foreign(a, ta) == Foreign(b, tb)
  {
  }

  lemma PageSpan(p: nat)
    ensures p * PageSize % PageSize == 0 && p * PageSize / PageSize == p
  {
  }

  lemma CodeCost(ph: Phys, tab: Tables, st: VmStatus, after: Phys, more: Tables)
    requires tab.Keys == {[]} && (st == VmOk || st == VmNoMemory ==> MapCost(ph, tab, CodeVa, st, after, more))
    ensures st == VmOk ==> more.Keys == {[], [0], [0, 0]} && FreeCount(after.pool) == FreeCount(ph.pool) - 2
    ensures st == VmNoMemory ==> FreeCount(ph.pool) < 2
  {
    hide FreeCount, Path, MapCost;
    TaskPrefixes();
    assert tab.Keys + {[0], [0, 0]} == {[], [0], [0, 0]};
    if st == VmOk || st == VmNoMemory {
      Cost(ph, tab, CodeVa, st, after, more);
    }
  }

  lemma StackCost(ph: Phys, tab: Tables, st: VmStatus, after: Phys, more: Tables)
    requires tab.Keys == {[], [0], [0, 0]} && (st == VmOk || st == VmNoMemory ==> MapCost(ph, tab, StackVa, st, after, more))
    ensures st == VmOk ==> more.Keys == {[], [0], [0, 0], [0, 511]} && FreeCount(after.pool) == FreeCount(ph.pool) - 1
    ensures st == VmNoMemory ==> FreeCount(ph.pool) < 1
  {
    hide FreeCount, Path, MapCost;
    TaskPrefixes();
    assert tab.Keys + {[0], [0, 511]} == {[], [0], [0, 0], [0, 511]};
    if st == VmOk || st == VmNoMemory {
      Cost(ph, tab, StackVa, st, after, more);
    }
  }

  lemma TrapCost(ph: Phys, tab: Tables, after: Phys, more: Tables)
    requires tab.Keys == {[], [0], [0, 0], [0, 511]}
    ensures Costs(ph, tab, [255], [255, 511], after, more) ==>
      more.Keys == TaskTables && FreeCount(after.pool) == FreeCount(ph.pool) - 2
    ensures Need(tab, [255], [255, 511]) == 2
  {
    hide FreeCount;
    assert tab.Keys + {[255], [255, 511]} == TaskTables;
  }

  lemma TaskPages()
    ensures PageVa(CodeVa) && PageVa(StackVa) && PageVa(TrampolineVa) && PageVa(ContextVa)
    ensures |{CodeVa, StackVa, TrampolineVa, ContextVa}| == 4
  {
    TaskPaths();
  }

  lemma FreeNonNegative(ph: Phys)
    requires PhysOk(ph)
    ensures FreeCount(ph.pool) >= 0
  {
    AllocPageFails(ph.pool);
  }

  lemma WindowPages()
    ensures VaRangeValid(CodeVa, PageSize) && VaRangeValid(StackVa, PageSize)
  {
  }

  lemma PoolPa(m: Pool, pa: nat)
    requires m.hi * PageSize < WordSpan
    ensures pa % PageSize == 0 && m.lo <= pa / PageSize < m.hi ==>
      PaRangeValid(m.lo * PageSize, m.hi * PageSize, pa, PageSize)
  {
    if pa % PageSize == 0 && m.lo <= pa / PageSize < m.hi {
      assert pa + PageSize <= m.hi * PageSize;
      assert (pa + PageSize) % WordSpan == pa + PageSize;
    }
  }

  lemma TaskVasAre()
    ensures TaskVas == {CodeVa, StackVa, TrampolineVa, ContextVa}
  {
  }

  lemma SameForeign(a: Phys, tab: Tables, b: Phys)
    requires a.pool == b.pool
    ensures Foreign(a, tab) == Foreign(b, tab)
  {
  }

  /** Pages outside what was given back are still in use. */
  lemma StillUsed(a: Phys, b: Phys, back: set<nat>, kept: set<nat>)
    requires GivenBack(a, b, back) && kept <= a.pool.used && kept !! back
    ensures kept <= b.pool.used
  {
  }

  lemma BackTwice(a: Phys, b: Phys, c: Phys, first: set<nat>, later: set<nat>)
    requires GivenBack(a, b, first) && GivenBack(b, c, later)
    ensures GivenBack(a, c, first + later)
  {
    assert a.pool.used - first - later == a.pool.used - (first + later);
  }

  lemma UsedPages(ph: Phys)
    requires PhysOk(ph)
    ensures forall q :: q in ph.pool.used ==> q in ph.mem
  {
  }

  lemma NothingBack(ph: Phys)
    requires PhysOk(ph)
    ensures GivenBack(ph, ph, {})
  {
    assert ph.pool.used - {} == ph.pool.used;
  }

  lemma FramedBack(before: Phys, tab: Tables, after: Phys)
    requires Framed(before, tab, after, map[]) && after.pool == before.pool.(used := Foreign(before, tab))
    ensures GivenBack(before, after, tab.Values)
  {
  }
}
