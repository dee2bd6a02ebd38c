/** kernel/memory/vm.c over mutable memory: every operation refines its value-level twin. */
module VmMachine {
  import opened SeqTools
  import opened Pages
  import opened PageBitmap
  import opened Sv39
  import opened PageTables
  import opened PageTree
  import opened PageWalks
  import opened PageMaps
  import opened PageTeardown

  /** vm_space_t, with the tree it roots and the finite map it stands for. */
  class VmSpace {
    var root: Option<nat>
    ghost var tab: Tables
    ghost var view: View

    constructor ()
      ensures root == None
    {
      root := None;
      tab := map[];
      view := map[];
    }
  }

  class Vm {
    const pages: PageAllocator
    /** The words of every managed page, by page number. */
    var mem: map<nat, seq<nat>>

    /** Memory as the allocator finds it: contents holds arbitrary words for every managed page. */
    constructor (allocator: PageAllocator, contents: map<nat, seq<nat>>)
      requires allocator.Valid() && PhysOk(Phys(allocator.pool, contents))
      ensures pages == allocator && mem == contents && Valid()
    {
      pages := allocator;
      mem := contents;
    }

    ghost function Now(): Phys
      reads this, pages
    {
      Phys(pages.pool, mem)
    }

    ghost predicate Valid()
      reads this, pages, pages.bitmap
    {
      pages.Valid() && PhysOk(Now())
    }

    ghost predicate Rooted(space: VmSpace)
      reads this, pages, space
    {
      space.root.Some? ==>
        && TreeOk(Now(), space.tab) && Agrees(Now(), space.tab, space.view)
        && [] in space.tab && space.tab[[]] == space.root.value
    }

    /** vm_walk, for a space with a root and a canonical address. */
    method Walk(root: nat, va: nat, alloc: bool, ghost tab: Tables) returns (table: Option<nat>)
      requires Valid() && TreeOk(Now(), tab) && [] in tab && tab[[]] == root && Canonical(va)
      modifies this, pages, pages.bitmap
      ensures Valid()
      ensures (Now(), table) == PageTables.Walk(old(Now()), Some(root), va, alloc)
      ensures !alloc ==> Now() == old(Now())
    {
      hide FirstFree, Path, Canonical, Vpn, TreeOk, PteValid, PteLeaf, PteToPa, WalkFrom, Word, Rollback, Grow, AllocPage;
      ghost var k := Path(va);
      PathDeterminesPage(va);
      assert k[..0] == [];
      ghost var now := tab;
      var t, level, log := root, 2, [];
      while level > 0
        invariant 0 <= level <= 2 && Valid() && TreeOk(Now(), now)
        invariant k[..2 - level] in now && now[k[..2 - level]] == t
        invariant Revocable(log, pages.pool)
        invariant WalkFrom(Now(), t, k, level, alloc, log) == WalkFrom(old(Now()), root, k, 2, alloc, [])
        invariant !alloc ==> Now() == old(Now())
      {
        var i := Vpn(va, level);
        WalkStep(Now(), now, k, level, alloc, log);
        assert t in mem && |mem[t]| == Entries by { TablesUsed(Now(), now, k[..2 - level]); }
        var pte := mem[t][i];
        assert pte == Word(Now(), t, i) by { ReadWord(Now(), t, i); }
        if PteValid(pte) {
          if PteLeaf(pte) {
            return None;
          }
          t := PteToPa(pte) / PageSize;
        } else {
          if !alloc {
            return None;
          }
          ghost var was := Now();
          var page := GrowTable(t, i);
          if page.None? {
            RollbackTables(log);
            return None;
          }
          GrowWalk(was, now, k, level, page.value, log);
          log := log + [Grown(t, i, page.value)];
          now := now[k[..3 - level] := page.value];
          t := page.value;
        }
        level := level - 1;
      }
      WalkDone(Now(), t, k, alloc, log);
      table := Some(t);
    }

    /** vm_space_init */
    method SpaceInit(space: VmSpace) returns (st: VmStatus)
      requires Valid()
      modifies this, pages, pages.bitmap, space
      ensures Valid() && (st == VmOk || st == VmNoMemory)
      ensures st == VmNoMemory <==> FreeCount(old(pages.pool)) == 0
      ensures st == VmNoMemory ==> Now() == old(Now()) && space.root == old(space.root)
      ensures st == VmOk ==>
        && (Now(), space.root) == PageTables.SpaceInit(old(Now())) && space.root.Some?
        && Rooted(space) && space.view == map[] && Framed(old(Now()), map[], Now(), space.tab)
        && space.tab == map[[] := space.root.value] && FreeCount(pages.pool) == FreeCount(old(pages.pool)) - 1
    {
      hide FirstFree, TreeOk, Agrees, Framed;
      InitTree(Now());
      AllocPageFails(pages.pool);
      var page := pages.Alloc();
      if page.None? {
        return VmNoMemory;
      }
      var p := page.value / PageSize;
      mem := mem[p := seq(Entries, _ => 0)];
      space.root := Some(p);
      space.tab := map[[] := p];
      space.view := map[];
      RootTable(Now(), space.tab);
      assert PhysOk(Now()) by { TreePhys(Now(), space.tab); }
      st := VmOk;
    }

    /** vm_map_page */
    method MapPage(space: VmSpace, va: nat, pa: nat, flags: nat) returns (st: VmStatus)
      requires Valid() && Rooted(space)
      modifies this, pages, pages.bitmap, space
      ensures Valid() && Rooted(space) && space.root == old(space.root)
      ensures (Now(), st) == PageTables.MapPage(old(Now()), space.root, va, pa, flags)
      ensures space.view == if st == VmOk then old(space.view)[va := Mapping(pa, flags)] else old(space.view)
      ensures space.root.Some? ==>
        && Framed(old(Now()), old(space.tab), Now(), space.tab)
        && MapCost(old(Now()), old(space.tab), va, st, Now(), space.tab)
        && (st == VmInvalid <==> !(PageVa(va) && MappingOk(Mapping(pa, flags))))
        && (st == VmExists <==> PageVa(va) && MappingOk(Mapping(pa, flags)) && va in old(space.view))
    {
      hide FirstFree, TreeOk, Agrees, Framed, MapCost, Canonical, FlagsValid, PteValid, PteLeaf, WalkFrom, Write, Word, Vpn;
      if space.root.None? {
        return VmInvalid;
      }
      ghost var before := Now();
      ghost var more := MapRefines(before, space.tab, space.view, va, pa, flags);
      RootTable(before, space.tab);
      RootTable(PageTables.MapPage(before, space.root, va, pa, flags).0, more);
      if !Canonical(va) || va % PageSize != 0 || pa % PageSize != 0 || !FlagsValid(flags) {
        space.tab := more;
        return VmInvalid;
      }
      var table := Walk(space.root.value, va, true, space.tab);
      if table.None? {
        space.tab := more;
        return VmNoMemory;
      }
      ghost var inUse := WalkedTable(before, space.tab, va);
      assert pages.pool.lo <= table.value < pages.pool.hi;
      var pte := mem[table.value][Vpn(va, 0)];
      assert pte == Word(Now(), table.value, Vpn(va, 0)) by { ReadWord(Now(), table.value, Vpn(va, 0)); }
      if PteValid(pte) {
        space.tab := more;
        return VmExists;
      }
      assert flags < 1024 by { FlagsBound(flags); }
      WriteEffect(Now(), table.value, Vpn(va, 0), PaToPte(pa, flags));
      WriteIs(Now(), table.value, Vpn(va, 0), PaToPte(pa, flags));
      mem := mem[table.value := SetWord(mem[table.value], Vpn(va, 0), PaToPte(pa, flags))];
      space.tab := more;
      space.view := space.view[va := Mapping(pa, flags)];
      st := VmOk;
    }

    /** vm_unmap_page */
    method UnmapPage(space: VmSpace, va: nat) returns (st: VmStatus)
      requires Valid() && Rooted(space)
      modifies this, pages, pages.bitmap, space
      ensures Valid() && Rooted(space) && space.root == old(space.root) && space.tab == old(space.tab)
      ensures (Now(), st) == PageTables.UnmapPage(old(Now()), space.root, va)
      ensures space.view == if st == VmOk then old(space.view) - {va} else old(space.view)
      ensures space.root.Some? ==>
        && Framed(old(Now()), old(space.tab), Now(), space.tab) && pages.pool == old(pages.pool)
        && (PageVa(va) ==> va !in space.view)
    {
      hide FirstFree, TreeOk, Agrees, Framed, Canonical, PteValid, PteLeaf, WalkFrom, Write, Word, Vpn;
      if space.root.None? {
        return VmInvalid;
      }
      ghost var before := Now();
      UnmapRefines(before, space.tab, space.view, va);
      RootTable(before, space.tab);
      if !Canonical(va) || va % PageSize != 0 {
        return VmInvalid;
      }
      var at := FindLeaf(space, va);
      if at.None? {
        return VmNotMapped;
      }
      var (table, pte) := at.value;
      WriteEffect(before, table, Vpn(va, 0), 0);
      WriteIs(before, table, Vpn(va, 0), 0);
      mem := mem[table := mem[table][Vpn(va, 0) := 0]];
      space.view := space.view - {va};
      st := VmOk;
    }

    /** The level-0 table and the valid leaf a walk without allocation ends at. */
    method FindLeaf(space: VmSpace, va: nat) returns (at: Option<(nat, nat)>)
      requires Valid() && Rooted(space)
      modifies this, pages, pages.bitmap
      ensures Valid() && Now() == old(Now())
      ensures at.None? <==> LeafAt(Now(), space.root, va).None?
      ensures at.Some? ==>
        && LeafAt(Now(), space.root, va) == Some(at.value.1)
        && PageTables.Walk(Now(), space.root, va, false).1 == Some(at.value.0) && at.value.0 in pages.pool.used
    {
      hide FirstFree, TreeOk, Agrees, Canonical, PteValid, PteLeaf, WalkFrom, Word, Vpn;
      if space.root.None? || !Canonical(va) {
        return None;
      }
      var table := Walk(space.root.value, va, false, space.tab);
      if table.None? {
        return None;
      }
      FoundTable(Now(), space.tab, va);
      ReadWord(Now(), table.value, Vpn(va, 0));
      var pte := mem[table.value][Vpn(va, 0)];
      if !PteValid(pte) || !PteLeaf(pte) {
        return None;
      }
      at := Some((table.value, pte));
    }

    /** vm_translate */
    method Translate(space: VmSpace, va: nat) returns (pa: nat)
      requires Valid() && Rooted(space)
      modifies this, pages, pages.bitmap
      ensures Valid() && Now() == old(Now())
      ensures pa == PageTables.Translate(Now(), space.root, va)
      ensures space.root.Some? ==> pa == if Looked(space.view, va).Some? then Looked(space.view, va).value.0 else TranslateInvalid
    {
      hide FirstFree, TreeOk, Agrees, Canonical, PteToPa, LeafAt;
      var at := FindLeaf(space, va);
      if space.root.Some? {
        TranslateRefines(Now(), space.tab, space.view, va);
      }
      pa := if at.None? then TranslateInvalid else PteToPa(at.value.1) + va % PageSize;
    }

    /** vm_get_mapping */
    method GetMapping(space: VmSpace, va: nat) returns (r: Option<(nat, nat)>)
      requires Valid() && Rooted(space)
      modifies this, pages, pages.bitmap
      ensures Valid() && Now() == old(Now())
      ensures r == PageTables.GetMapping(Now(), space.root, va)
      ensures space.root.Some? ==> r == Looked(space.view, va)
    {
      hide FirstFree, TreeOk, Agrees, Canonical, PteToPa, LeafAt;
      var at := FindLeaf(space, va);
      if space.root.Some? {
        GetMappingRefines(Now(), space.tab, space.view, va);
      }
      r := if at.None? then None else Some((PteToPa(at.value.1) + va % PageSize, PteFlags(at.value.1)));
    }

    /** table_contains_leaf */
    method ContainsLeaf(t: nat, level: nat, ghost tab: Tables, ghost n: seq<nat>) returns (found: bool)
      requires Valid() && TreeOk(Now(), tab) && n in tab && tab[n] == t && |n| + level == 2
      ensures found == PageTables.ContainsLeaf(Now(), t, level, 0)
      decreases level
    {
      hide FirstFree, TreeOk, PteValid, PteLeaf, PteToPa, Word, PageTables.ContainsLeaf;
      assert t in pages.pool.used by { TablesUsed(Now(), tab, n); }
      for i := 0 to Entries
        invariant PageTables.ContainsLeaf(Now(), t, level, 0) == PageTables.ContainsLeaf(Now(), t, level, i)
      {
        ReadWord(Now(), t, i);
        TableEntry(Now(), tab, n, i);
        LookStep(Now(), t, level, i);
        var pte := mem[t][i];
        if PteValid(pte) {
          if PteLeaf(pte) || level == 0 {
            return true;
          }
          ChildParent(n, i);
          var inside := ContainsLeaf(PteToPa(pte) / PageSize, level - 1, tab, Child(n, i));
          if inside {
            return true;
          }
        }
      }
      LookEnd(Now(), t, level);
      found := false;
    }

    /** free_empty_table_children; no table is freed twice. */
    method FreeChildren(t: nat, level: nat, ghost tab: Tables, ghost n: seq<nat>)
      requires Valid() && TreeOk(Now(), tab) && n in tab && tab[n] == t && |n| + level == 2
      modifies this, pages, pages.bitmap
      ensures Valid() && Now() == PageTables.FreeChildren(old(Now()), t, level, 0)
      decreases level
    {
      hide FirstFree, TreeOk, PteValid, PteLeaf, PteToPa, Word, Prune, Cut, Drop, Framed, PageTables.FreeChildren;
      if level == 0 {
        FreeEnd(Now(), t, level, 0);
        return;
      }
      ghost var now := tab;
      for i := 0 to Entries
        invariant Valid() && TreeOk(Now(), now) && n in now && now[n] == t
        invariant PageTables.FreeChildren(Now(), t, level, i) == PageTables.FreeChildren(old(Now()), t, level, 0)
      {
        TablesUsed(Now(), now, n);
        ReadWord(Now(), t, i);
        TableEntry(Now(), now, n, i);
        FreeStep(Now(), t, level, i);
        var pte := mem[t][i];
        if PteValid(pte) {
          var child := PteToPa(pte) / PageSize;
          ghost var c := Child(n, i);
          ChildParent(n, i);
          FreeTree(Now(), now, c, 0);
          CutLeaves(now, n, i);
          FreeChildren(child, level - 1, now, c);
          now := Cut(now, c, 0);
          TablesUsed(Now(), now, c);
          TablesUsed(Now(), now, n);
          PruneTree(Now(), now, n, i);
          DropKeeps(now, n, i);
          ClearAndFree(t, i, child);
          now := Drop(now, c);
        }
      }
      FreeEnd(Now(), t, level, Entries);
    }

    /** vm_space_destroy */
    method SpaceDestroy(space: VmSpace) returns (st: VmStatus)
      requires Valid() && Rooted(space)
      modifies this, pages, pages.bitmap, space
      ensures Valid() && Rooted(space)
      ensures (Now(), space.root, st) == PageTables.SpaceDestroy(old(Now()), old(space.root))
      ensures st == VmBusy <==> old(space.root).Some? && old(space.view) != map[]
      ensures st == VmOk ==>
        && pages.pool == old(pages.pool).(used := Foreign(old(Now()), old(space.tab)))
        && Framed(old(Now()), old(space.tab), Now(), map[])
      ensures st != VmOk ==> Now() == old(Now()) && space.tab == old(space.tab) && space.view == old(space.view)
    {
      hide FirstFree, TreeOk, Agrees, Framed, PageTables.ContainsLeaf, PageTables.FreeChildren, Cut, Foreign;
      if space.root.None? {
        return VmInvalid;
      }
      var root := space.root.value;
      DestroyTree(Now(), space.tab, space.view);
      var busy := ContainsLeaf(root, 2, space.tab, []);
      if busy {
        return VmBusy;
      }
      FreeTree(Now(), space.tab, [], 0);
      CutAll(Now(), space.tab);
      FreeChildren(root, 2, space.tab, []);
      assert root in pages.pool.used by { TablesUsed(Now(), map[[] := root], []); }
      assert root * PageSize / PageSize == root && root * PageSize % PageSize == 0;
      pages.Free(root * PageSize);
      space.root := None;
      st := VmOk;
    }

    /** A new zeroed table behind entry i of table t. */
    method GrowTable(t: nat, i: nat) returns (page: Option<nat>)
      requires Valid() && t in pages.pool.used && i < Entries
      modifies this, pages, pages.bitmap
      ensures Valid() && page == AllocPage(old(pages.pool)).1
      ensures page.None? ==> Now() == old(Now())
      ensures page.Some? ==> Now() == Grow(old(Now()), t, i, page.value)
    {
      hide BranchTo, FirstFree;
      ghost var before := Now();
      var addr := pages.Alloc();
      if addr.None? {
        return None;
      }
      var p := addr.value / PageSize;
      page := Some(p);
      mem := mem[p := seq(Entries, _ => 0)];
      mem := mem[t := SetWord(mem[t], i, BranchTo(p))];
      GrowEffect(before, t, i, p);
    }

    /** rollback_allocated_tables; no page in the log is freed twice. */
    method RollbackTables(log: seq<Grown>)
      requires Valid() && Revocable(log, pages.pool)
      modifies this, pages, pages.bitmap
      ensures Valid() && Now() == Rollback(old(Now()), log)
    {
      hide FirstFree;
      var count := |log|;
      assert log[..count] == log;
      while count > 0
        invariant 0 <= count <= |log| && Valid()
        invariant Revocable(log[..count], pages.pool)
        invariant Rollback(Now(), log[..count]) == Rollback(old(Now()), log)
      {
        count := count - 1;
        var e := log[count];
        assert log[..count + 1][count] == e && log[..count + 1][..count] == log[..count];
        ClearAndFree(e.table, e.index, e.page);
      }
      assert log[..0] == [];
    }

    /** Clears entry i of table t and frees the page behind it. */
    method ClearAndFree(t: nat, i: nat, p: nat)
      requires Valid() && pages.pool.lo <= t < pages.pool.hi && i < Entries && p in pages.pool.used
      modifies this, pages, pages.bitmap
      ensures Valid() && Now() == Prune(old(Now()), t, i, p)
    {
      hide FirstFree;
      mem := mem[t := mem[t][i := 0]];
      assert p * PageSize / PageSize == p && p * PageSize % PageSize == 0;
      pages.Free(p * PageSize);
    }
  }

  /** Every page of the log is in use, none occurs twice, and every entry can be written. */
  ghost predicate Revocable(log: seq<Grown>, pool: Pool) {
    && (forall j :: 0 <= j < |log| ==> Writable(log[j], pool))
    && (forall j, l :: 0 <= j < l < |log| ==> log[j].page != log[l].page)
  }

  ghost predicate Writable(e: Grown, pool: Pool) {
    pool.lo <= e.table < pool.hi && e.index < Entries && e.page in pool.used
  }

  lemma ReadWord(ph: Phys, t: nat, i: nat)
    requires PhysOk(ph) && t in ph.pool.used && i < Entries
    ensures t in ph.mem && i < |ph.mem[t]| && Word(ph, t, i) == ph.mem[t][i]
  {
    PageWords(ph, t);
  }

  /** One turn of the walk's loop. */
  lemma WalkStep(ph: Phys, tab: Tables, k: seq<nat>, level: nat, alloc: bool, log: seq<Grown>)
    requires TreeOk(ph, tab) && IsKey(k) && 0 < level < 3 && k[..2 - level] in tab
    ensures var t, i := tab[k[..2 - level]], k[2 - level];
      var pte, walk := Word(ph, t, i), WalkFrom(ph, t, k, level, alloc, log);
      && t in ph.pool.used && i < Entries
      && (PteValid(pte) && PteLeaf(pte) ==> walk == (ph, None))
      && (PteValid(pte) && !PteLeaf(pte) ==>
           && k[..3 - level] in tab && PteToPa(pte) / PageSize == tab[k[..3 - level]]
           && walk == WalkFrom(ph, tab[k[..3 - level]], k, level - 1, alloc, log))
      && (!PteValid(pte) ==>
           var page := AllocPage(ph.pool).1;
           && k[..3 - level] !in tab
           && (!alloc ==> walk == (ph, None))
           && (alloc && page.None? ==> walk == (Rollback(ph, log), None))
           && (alloc && page.Some? ==>
                walk == WalkFrom(Grow(ph, t, i, page.value), page.value, k, level - 1, alloc, log + [Grown(t, i, page.value)])))
  {
    hide TreeOk, Word, PteValid, PteLeaf, PteToPa, Rollback, Grow, AllocPage;
    EntryAt(ph, tab, k, level);
    TablesUsed(ph, tab, k[..2 - level]);
  }

  /** The tree and the log after one more table. */
  lemma GrowWalk(ph: Phys, tab: Tables, k: seq<nat>, level: nat, p: nat, log: seq<Grown>)
    requires TreeOk(ph, tab) && IsKey(k) && 0 < level < 3 && k[..2 - level] in tab && k[..3 - level] !in tab
    requires AllocPage(ph.pool).1 == Some(p) && Revocable(log, ph.pool)
    ensures var t, i := tab[k[..2 - level]], k[2 - level];
      && TreeOk(Grow(ph, t, i, p), tab[k[..3 - level] := p])
      && Revocable(log + [Grown(t, i, p)], Grow(ph, t, i, p).pool)
  {
    hide Linked, Leaves, Separate, Closed, Grow, FirstFree, Framed, SameEntries;
    PrefixIsChild(k, level);
    GrowTree(ph, tab, k[..2 - level], k[2 - level], p);
    GrowEffect(ph, tab[k[..2 - level]], k[2 - level], p);
  }

  lemma LookStep(ph: Phys, t: nat, level: nat, i: nat)
    requires i < Entries
    ensures var pte := Word(ph, t, i);
      PageTables.ContainsLeaf(ph, t, level, i) ==
        if !PteValid(pte) then PageTables.ContainsLeaf(ph, t, level, i + 1)
        else if PteLeaf(pte) || level == 0 then true
        else PageTables.ContainsLeaf(ph, PteToPa(pte) / PageSize, level - 1, 0) || PageTables.ContainsLeaf(ph, t, level, i + 1)
  {
    hide Word, PteValid, PteLeaf, PteToPa;
  }

  lemma LookEnd(ph: Phys, t: nat, level: nat)
    ensures !PageTables.ContainsLeaf(ph, t, level, Entries)
  {
    hide Word, PteValid, PteLeaf, PteToPa;
  }

  lemma FreeStep(ph: Phys, t: nat, level: nat, i: nat)
    requires i < Entries && level > 0
    ensures var pte := Word(ph, t, i);
      PageTables.FreeChildren(ph, t, level, i) ==
        if !PteValid(pte) then PageTables.FreeChildren(ph, t, level, i + 1) else
          var child := PteToPa(pte) / PageSize;
          PageTables.FreeChildren(Prune(PageTables.FreeChildren(ph, child, level - 1, 0), t, i, child), t, level, i + 1)
  {
    hide Word, PteValid, PteLeaf, PteToPa, Prune;
  }

  lemma FreeEnd(ph: Phys, t: nat, level: nat, i: nat)
    requires i <= Entries && (level == 0 || i == Entries)
    ensures PageTables.FreeChildren(ph, t, level, i) == ph
  {
    hide Word, PteValid, PteLeaf, PteToPa;
  }

  lemma WalkDone(ph: Phys, t: nat, k: seq<nat>, alloc: bool, log: seq<Grown>)
    requires |k| == 3
    ensures WalkFrom(ph, t, k, 0, alloc, log) == (ph, Some(t))
  {
  }

  lemma TreePhys(ph: Phys, tab: Tables)
    requires TreeOk(ph, tab)
    ensures PhysOk(ph)
  {
  }

  lemma FlagsBound(flags: nat)
    requires FlagsValid(flags)
    ensures flags < 1024
  {
  }

  lemma WriteIs(ph: Phys, t: nat, i: nat, w: nat)
    requires PhysOk(ph) && t in ph.pool.used && i < Entries
    ensures t in ph.mem && |ph.mem[t]| == Entries
    ensures Write(ph, t, i, w) == Phys(ph.pool, ph.mem[t := SetWord(ph.mem[t], i, w)])
  {
    PageWords(ph, t);
  }

  /** The table a walk without allocation ends at is in use. */
  lemma FoundTable(ph: Phys, tab: Tables, va: nat)
    requires TreeOk(ph, tab) && [] in tab && Canonical(va)
    ensures var t := PageTables.Walk(ph, Some(tab[[]]), va, false).1; t.Some? ==> t.value in ph.pool.used
  {
    hide Path, WalkFrom, TreeOk, Canonical;
    PathDeterminesPage(va);
    var k := Path(va);
    assert k[..0] == [];
    if k[..2] in tab {
      WalkPresent(ph, tab, k, 2, false, []);
      TablesUsed(ph, tab, k[..2]);
    } else {
      WalkAbsent(ph, tab, k, 2, []);
    }
  }

  /** And so is the table a walk with allocation ends at. */
  lemma WalkedTable(ph: Phys, tab: Tables, va: nat) returns (more: Tables)
    requires TreeOk(ph, tab) && [] in tab && Canonical(va)
    ensures var (after, t) := PageTables.Walk(ph, Some(tab[[]]), va, true);
      t.Some? ==> t.value in after.pool.used
  {
    hide Path, WalkFrom, TreeOk, Canonical, SameUsed, Framed, SameEntries;
    PathDeterminesPage(va);
    var k := Path(va);
    assert k[..0] == [];
    SelfSame(ph, tab);
    more := WalkGrows(ph, tab, k, 2, [], ph);
    var (after, t) := WalkFrom(ph, tab[[]], k, 2, true, []);
    if t.Some? {
      TablesUsed(after, more, k[..2]);
    }
  }
}
