/** The task structure of kernel/user/task.c and the task-aware copies of kernel/memory/usercopy.c in place. */
module UserTasks {
  import opened TaskStates
  import opened SeqTools
  import opened Pages
  import opened PageBitmap
  import opened Sv39
  import opened PageTables
  import opened PageTree
  import opened PageWalks
  import opened PageMaps
  import opened PageTeardown
  import opened VmMachine
  import opened UserCopy

  /** user_task_t; pages are named by page number. */
  class UserTask {
    var state: TaskState
    const space: VmSpace
    var userSatp: nat
    var exitCode: nat
    var codePage: Option<nat>
    var stackPage: Option<nat>
    var trapContext: Option<nat>

    constructor ()
      ensures state == TaskUnused && Cleared() && exitCode == 0 && fresh(space)
    {
      state := TaskUnused;
      space := new VmSpace();
      userSatp, exitCode := 0, 0;
      codePage, stackPage, trapContext := None, None, None;
    }

    /** No resources are held. */
    predicate Cleared()
      reads this, space
    {
      space.root == None && userSatp == 0 && codePage == None && stackPage == None && trapContext == None
    }

    /** user_task_is_ready */
    predicate IsReady()
      reads this, space
    {
      state == TaskReady && space.root.Some? && userSatp != 0 && trapContext.Some?
    }
  }

  /** A task's memory, and the kernel's view of it by bytes. */
  class UserMemory {
    const vm: Vm
    const mem: PhysicalBytes

    constructor (machine: Vm, bytes: PhysicalBytes)
      ensures vm == machine && mem == bytes
    {
      vm := machine;
      mem := bytes;
    }

    /** usercopy_task_validate */
    method TaskValidate(task: UserTask, va: nat, len: nat, write: bool) returns (ok: bool)
      requires vm.Valid() && vm.Rooted(task.space) && va < WordSpan && len < WordSpan
      modifies vm, vm.pages, vm.pages.bitmap
      ensures vm.Valid() && vm.Now() == old(vm.Now())
      ensures ok <==> task.IsReady() && Validate(task.space.view, va, len, write)
    {
      hide TreeOk, Agrees, PhysOk, Looked, PagesPermit, VaRangeValid, FreeCount, FirstFree;
      if !task.IsReady() {
        return false;
      }
      if len == 0 {
        return true;
      }
      if (va + len) % WordSpan < va {
        return false;
      }
      if !VaRangeValid(va, len) {
        return false;
      }
      ValidSpan(va, len);
      ok := PagesAllow(task, AlignDown(va), AlignDown(va + len - 1), write);
    }

    /** The page loop of usercopy_validate_range_in_space. */
    method PagesAllow(task: UserTask, first: nat, last: nat, write: bool) returns (ok: bool)
      requires vm.Valid() && vm.Rooted(task.space) && task.space.root.Some?
      requires first <= last && first % PageSize == last % PageSize
      modifies vm, vm.pages, vm.pages.bitmap
      ensures vm.Valid() && vm.Now() == old(vm.Now())
      ensures ok == PagesPermit(task.space.view, first, last, write)
    {
      hide TreeOk, Agrees, PhysOk, Looked, Permits, FreeCount, FirstFree;
      var page := first;
      ghost var view := task.space.view;
      while true
        invariant vm.Valid() && vm.Now() == old(vm.Now()) && vm.Rooted(task.space)
        invariant page <= last && page % PageSize == last % PageSize
        invariant PagesPermit(view, page, last, write) == PagesPermit(view, first, last, write)
        decreases last - page
      {
        var at := vm.GetMapping(task.space, page);
        if !Permits(at, write) {
          return false;
        }
        if page == last {
          break;
        }
        NextPage(page, last);
        page := page + PageSize;
      }
      ok := true;
    }

    /** copy_to_user_task, from the kernel buffer at the physical address source. */
    method CopyToTask(task: UserTask, va: nat, source: nat, len: nat) returns (ok: bool)
      requires vm.Valid() && vm.Rooted(task.space) && va < WordSpan && len < WordSpan
      modifies vm, vm.pages, vm.pages.bitmap, mem
      ensures vm.Valid() && vm.Now() == old(vm.Now())
      ensures ok <==> len == 0 || (source != 0 && task.IsReady() && Validate(task.space.view, va, len, true))
      ensures mem.bytes == if ok then Copied(task.space.view, old(mem.bytes), va, source, len, true) else old(mem.bytes)
    {
      hide TreeOk, Agrees, PhysOk, Looked, Validate, PhysOf, HasFlag;
      if len == 0 {
        return true;
      }
      if va == 0 || source == 0 {
        NullIsInvalid(task.space.view, len, true);
        return false;
      }
      ok := CopyTaskBytes(task, source, va, len, true);
    }

    /** copy_from_user_task, to the kernel buffer at the physical address target. */
    method CopyFromTask(task: UserTask, target: nat, va: nat, len: nat) returns (ok: bool)
      requires vm.Valid() && vm.Rooted(task.space) && va < WordSpan && len < WordSpan
      modifies vm, vm.pages, vm.pages.bitmap, mem
      ensures vm.Valid() && vm.Now() == old(vm.Now())
      ensures ok <==> len == 0 || (target != 0 && task.IsReady() && Validate(task.space.view, va, len, false))
      ensures mem.bytes == if ok then Copied(task.space.view, old(mem.bytes), va, target, len, false) else old(mem.bytes)
    {
      hide TreeOk, Agrees, PhysOk, Looked, Validate, PhysOf, HasFlag;
      if len == 0 {
        return true;
      }
      if va == 0 || target == 0 {
        NullIsInvalid(task.space.view, len, false);
        return false;
      }
      ok := CopyTaskBytes(task, target, va, len, false);
    }

    /** copy_user_task_bytes: the chunked copy is the byte-by-byte copy, or nothing. */
    method CopyTaskBytes(task: UserTask, kernel: nat, va: nat, len: nat, writeUser: bool) returns (ok: bool)
      requires vm.Valid() && vm.Rooted(task.space) && va < WordSpan && len < WordSpan
      modifies vm, vm.pages, vm.pages.bitmap, mem
      ensures vm.Valid() && vm.Now() == old(vm.Now())
      ensures ok <==> len == 0 || (task.IsReady() && Validate(task.space.view, va, len, writeUser))
      ensures mem.bytes == if ok then Copied(task.space.view, old(mem.bytes), va, kernel, len, writeUser) else old(mem.bytes)
    {
      hide TreeOk, Agrees, PhysOk, Looked, Validate, Copied, PhysOf, HasFlag;
      ghost var view, was := task.space.view, mem.bytes;
      CopiedNothing(view, was, va, kernel, writeUser);
      if len == 0 {
        return true;
      }
      var valid := TaskValidate(task, va, len, writeUser);
      if !valid {
        return false;
      }
      ValidateIff(view, va, len, writeUser);
      AllMapped(view, va, len, writeUser);
      var copied := 0;
      while copied < len
        invariant 0 <= copied <= len
        invariant vm.Valid() && vm.Now() == old(vm.Now()) && vm.Rooted(task.space)
        invariant mem.bytes == Copied(view, was, va, kernel, copied, writeUser)
      {
        var chunk := if len - copied > PageSize - (va + copied) % PageSize
          then PageSize - (va + copied) % PageSize else len - copied;
        var at := vm.GetMapping(task.space, va + copied);
        if at.None? {
          assert false;
        }
        CopyChunk(view, was, kernel, va, len, copied, chunk, at.value.0, writeUser);
        copied := copied + chunk;
      }
      ok := true;
    }

    /** The inner loop of the copy: one chunk, inside one page. */
    method CopyChunk(ghost view: View, ghost was: Bytes, kernel: nat, ghost va: nat, ghost len: nat,
                     copied: nat, chunk: nat, pa: nat, writeUser: bool)
      requires copied + chunk <= len && (va + copied) % PageSize + chunk <= PageSize
      requires forall a :: va <= a < va + len ==> Looked(view, a).Some? && a <= UserTop
      requires copied < len && Looked(view, va + copied).Some? && Looked(view, va + copied).value.0 == pa
      requires mem.bytes == Copied(view, was, va, kernel, copied, writeUser)
      modifies mem
      ensures mem.bytes == Copied(view, was, va, kernel, copied + chunk, writeUser)
    {
      hide Looked, Copied, PhysOf, Load;
      for i := 0 to chunk
        invariant mem.bytes == Copied(view, was, va, kernel, copied + i, writeUser)
      {
        ChunkAddress(view, va + copied, i);
        CopiedOneMore(view, was, va, kernel, copied + i, writeUser);
        if writeUser {
          mem.bytes := mem.bytes[pa + i := Load(mem.bytes, kernel + copied + i)];
        } else {
          mem.bytes := mem.bytes[kernel + copied + i := Load(mem.bytes, pa + i)];
        }
      }
    }
  }

  lemma CopiedNothing(view: View, ram: Bytes, va: nat, kernel: nat, writeUser: bool)
    ensures Copied(view, ram, va, kernel, 0, writeUser) == ram
  {
  }

  lemma CopiedOneMore(view: View, ram: Bytes, va: nat, kernel: nat, n: nat, writeUser: bool)
    ensures var before := Copied(view, ram, va, kernel, n, writeUser);
      Copied(view, ram, va, kernel, n + 1, writeUser) ==
        if writeUser then before[PhysOf(view, va + n) := Load(before, kernel + n)]
        else before[kernel + n := Load(before, PhysOf(view, va + n))]
  {
    hide PhysOf, Load;
  }

  /** A null user pointer fails validation too. */
  lemma NullIsInvalid(view: View, len: nat, write: bool)
    requires 0 < len < WordSpan
    ensures !Validate(view, 0, len, write)
  {
    hide PagesPermit;
    ValidateIff(view, 0, len, write);
    assert !ByteOk(view, 0, write);
  }
}
