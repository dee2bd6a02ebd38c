/** The page-table operations of kernel/memory/vm.c on physical memory as a value. */
module PageTables {
  import opened SeqTools
  import opened Pages
  import opened Sv39

  /** The pool, and the 512 words of every managed page. */
  datatype Phys = Phys(pool: Pool, mem: map<nat, seq<nat>>)

  datatype VmStatus = VmOk | VmInvalid | VmNoMemory | VmExists | VmNotMapped | VmBusy

  /** One branch entry written and one table taken by a walk that allocates. */
  datatype Grown = Grown(table: nat, index: nat, page: nat)

  ghost predicate PhysOk(ph: Phys) {
    PoolOk(ph.pool) && NullFree(ph.pool) && forall p :: ph.pool.lo <= p < ph.pool.hi ==> p in ph.mem && |ph.mem[p]| == Entries
  }

  /** Word i of page t.  The tables a walk follows are managed pages, so the default is never read. */
  function Word(ph: Phys, t: nat, i: nat): nat {
    if t in ph.mem && i < |ph.mem[t]| then ph.mem[t][i] else 0
  }

  function Write(ph: Phys, t: nat, i: nat, w: nat): Phys {
    if t in ph.mem && i < |ph.mem[t]| then ph.(mem := ph.mem[t := SetWord(ph.mem[t], i, w)]) else ph
  }

  function SetWord(words: seq<nat>, i: nat, w: nat): seq<nat>
    requires i < |words|
  {
    words[i := w]
  }

  /** memory_zero over one page. */
  function ZeroPage(ph: Phys, p: nat): Phys {
    ph.(mem := ph.mem[p := seq(Entries, _ => 0)])
  }

  /** A zeroed page p becomes the table behind entry i of table t. */
  function Grow(ph: Phys, t: nat, i: nat, p: nat): Phys {
    Write(ZeroPage(ph.(pool := Take(ph.pool, p)), p), t, i, BranchTo(p))
  }

  /** Entry i of table t is cleared and the page behind it freed. */
  function Prune(ph: Phys, t: nat, i: nat, p: nat): Phys {
    Write(ph.(pool := GiveBack(ph.pool, p)), t, i, 0)
  }

  /** rollback_allocated_tables: the last table grown goes first. */
  function Rollback(ph: Phys, log: seq<Grown>): Phys
    decreases |log|
  {
    if log == [] then ph else
      var last := log[|log| - 1];
      Rollback(Prune(ph, last.table, last.index, last.page), log[..|log| - 1])
  }

  /** vm_walk from a table at the given level: the page of the level-0 table, or nothing. */
  function WalkFrom(ph: Phys, t: nat, k: seq<nat>, level: nat, alloc: bool, log: seq<Grown>): (Phys, Option<nat>)
    requires |k| == 3 && level < 3
    decreases level
  {
    if level == 0 then (ph, Some(t)) else
      var pte := Word(ph, t, k[2 - level]);
      if PteValid(pte) then
        if PteLeaf(pte) then (ph, None)
        else WalkFrom(ph, PteToPa(pte) / PageSize, k, level - 1, alloc, log)
      else if !alloc then (ph, None)
      else
        var page := AllocPage(ph.pool).1;
        if page.None? then (Rollback(ph, log), None)
        else
          WalkFrom(Grow(ph, t, k[2 - level], page.value), page.value, k, level - 1, alloc,
                   log + [Grown(t, k[2 - level], page.value)])
  }

  /** vm_walk; root is the page of the root table, if there is one. */
  function Walk(ph: Phys, root: Option<nat>, va: nat, alloc: bool): (Phys, Option<nat>) {
    if root.None? || !Canonical(va) then (ph, None)
    else WalkFrom(ph, root.value, Path(va), 2, alloc, [])
  }

  /** vm_map_page */
  function MapPage(ph: Phys, root: Option<nat>, va: nat, pa: nat, flags: nat): (Phys, VmStatus) {
    if root.None? || !Canonical(va) || va % PageSize != 0 || pa % PageSize != 0 || !FlagsValid(flags) then
      (ph, VmInvalid)
    else
      var (after, table) := Walk(ph, root, va, true);
      if table.None? then (after, VmNoMemory)
      else if PteValid(Word(after, table.value, Vpn(va, 0))) then (after, VmExists)
      else (Write(after, table.value, Vpn(va, 0), PaToPte(pa, flags)), VmOk)
  }

  /** The entry a walk without allocation ends at, when it is a valid leaf. */
  function LeafAt(ph: Phys, root: Option<nat>, va: nat): Option<nat> {
    var table := Walk(ph, root, va, false).1;
    if table.None? then None else
      var pte := Word(ph, table.value, Vpn(va, 0));
      if PteValid(pte) && PteLeaf(pte) then Some(pte) else None
  }

  /** vm_unmap_page */
  function UnmapPage(ph: Phys, root: Option<nat>, va: nat): (Phys, VmStatus) {
    if root.None? || !Canonical(va) || va % PageSize != 0 then (ph, VmInvalid)
    else if LeafAt(ph, root, va).None? then (ph, VmNotMapped)
    else (Write(ph, Walk(ph, root, va, false).1.value, Vpn(va, 0), 0), VmOk)
  }

  /** VM_TRANSLATE_INVALID */
  const TranslateInvalid: nat := WordSpan - 1

  /** vm_translate */
  function Translate(ph: Phys, root: Option<nat>, va: nat): nat {
    var pte := LeafAt(ph, root, va);
    if pte.None? then TranslateInvalid else PteToPa(pte.value) + va % PageSize
  }

  /** vm_get_mapping: the byte's physical address and the entry's flags. */
  function GetMapping(ph: Phys, root: Option<nat>, va: nat): Option<(nat, nat)> {
    var pte := LeafAt(ph, root, va);
    if pte.None? then None else Some((PteToPa(pte.value) + va % PageSize, PteFlags(pte.value)))
  }

  /** table_contains_leaf, from entry i on. */
  function ContainsLeaf(ph: Phys, t: nat, level: nat, i: nat): bool
    requires i <= Entries
    decreases level, Entries - i
  {
    if i == Entries then false else
      var pte := Word(ph, t, i);
      if !PteValid(pte) then ContainsLeaf(ph, t, level, i + 1)
      else if PteLeaf(pte) || level == 0 then true
      else ContainsLeaf(ph, PteToPa(pte) / PageSize, level - 1, 0) || ContainsLeaf(ph, t, level, i + 1)
  }

  /** free_empty_table_children, from entry i on. */
  function FreeChildren(ph: Phys, t: nat, level: nat, i: nat): Phys
    requires i <= Entries
    decreases level, Entries - i
  {
    if level == 0 || i == Entries then ph else
      var pte := Word(ph, t, i);
      if !PteValid(pte) then FreeChildren(ph, t, level, i + 1) else
        var child := PteToPa(pte) / PageSize;
        FreeChildren(Prune(FreeChildren(ph, child, level - 1, 0), t, i, child), t, level, i + 1)
  }

  /** vm_space_init: a zeroed root table, or VM_ERR_NO_MEMORY. */
  function SpaceInit(ph: Phys): (Phys, Option<nat>) {
    var (pool, page) := AllocPage(ph.pool);
    if page.None? then (ph, None) else (ZeroPage(ph.(pool := pool), page.value), page)
  }

  /** vm_space_destroy: the memory afterwards, the new root and the status. */
  function SpaceDestroy(ph: Phys, root: Option<nat>): (Phys, Option<nat>, VmStatus) {
    if root.None? then (ph, root, VmInvalid)
    else if ContainsLeaf(ph, root.value, 2, 0) then (ph, root, VmBusy)
    else
      var after := FreeChildren(ph, root.value, 2, 0);
      (after.(pool := GiveBack(after.pool, root.value)), None, VmOk)
  }
}
