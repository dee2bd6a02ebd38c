/**
 * The three-level table refines a finite map from canonical page addresses to frames and
 * flags, over every sequence of operations.
 */
module PageMaps {
  import opened SeqTools
  import opened Pages
  import opened Sv39
  import opened PageTables
  import opened PageTree
  import opened PageWalks

  datatype Mapping = Mapping(pa: nat, flags: nat)

  ghost predicate MappingOk(m: Mapping) {
    m.pa % PageSize == 0 && FlagsValid(m.flags)
  }

  type View = map<nat, Mapping>

  ghost predicate ViewOk(view: View) {
    forall va :: va in view ==> PageVa(va) && MappingOk(view[va])
  }

  function Encoded(view: View, va: nat): nat {
    if va in view && view[va].flags < 1024 then PaToPte(view[va].pa, view[va].flags) else 0
  }

  /** The tree holds exactly the mappings of view. */
  ghost predicate Agrees(ph: Phys, tab: Tables, view: View) {
    ViewOk(view) && forall va | PageVa(va) :: KeyEntry(ph, tab, va) == Encoded(view, va)
  }

  ghost function KeyEntry(ph: Phys, tab: Tables, va: nat): nat
    requires PageVa(va)
  {
    PathDeterminesPage(va);
    Entry(ph, tab, Path(va))
  }

  // ------------------------------------------------------------ one mapping

  /** A failed vm_walk or an occupied entry leaves no trace; success writes one leaf. */
  lemma MapTree(ph: Phys, tab: Tables, va: nat, pa: nat, flags: nat) returns (more: Tables)
    requires TreeOk(ph, tab) && PageVa(va) && pa % PageSize == 0 && FlagsValid(flags)
    ensures var (after, st) := MapPage(ph, Some(tab[[]]), va, pa, flags);
      && (st == VmExists <==> KeyEntry(ph, tab, va) != 0)
      && (st == VmNoMemory <==> Missing(tab, Path(va), 2) > FreeCount(ph.pool))
      && (st == VmExists ==> after == ph && more == tab)
      && (st == VmNoMemory ==> SameUsed(ph, after) && more == tab)
      && (st != VmExists && st != VmNoMemory ==> st == VmOk && MapDone(ph, tab, va, PaToPte(pa, flags), after, more))
  {
    hide Path, Word, Canonical, PteValid, PteLeaf, PaToPte, TreeOk, WalkFrom, Write, HasFlag, Extended, SameUsed;
    PathDeterminesPage(va);
    var k := Path(va);
    assert k[..0] == [];
    SelfSame(ph, tab);
    more := WalkGrows(ph, tab, k, 2, [], ph);
    var (walked, t) := WalkFrom(ph, tab[[]], k, 2, true, []);
    if t.None? {
      more := tab;
      NoRoomMeansAbsent(ph, tab, k);
      SameUsedSym(walked, ph);
    } else {
      FoundEntry(ph, tab, k, walked, more);
      if PteValid(Word(walked, t.value, k[2])) {
        PresentWalk(ph, tab, k);
        more := tab;
      } else {
        LeafEntry(pa, flags);
        MapWrites(ph, tab, k, va, PaToPte(pa, flags), walked, more);
      }
    }
  }

  /** The tree after a successful map: one key has changed, from absent to the new entry. */
  ghost predicate MapDone(ph: Phys, tab: Tables, va: nat, pte: nat, after: Phys, more: Tables)
    requires PageVa(va)
  {
    PathDeterminesPage(va);
    && TreeOk(after, more) && Framed(ph, tab, after, more)
    && more.Keys == tab.Keys + Steps(Path(va), 2)
    && [] in tab && [] in more && more[[]] == tab[[]]
    && (forall j | IsKey(j) :: Entry(after, more, j) == if j == Path(va) then pte else Entry(ph, tab, j))
    && FreeCount(after.pool) == FreeCount(ph.pool) - Missing(tab, Path(va), 2)
  }

  lemma SelfSame(ph: Phys, tab: Tables)
    requires TreeOk(ph, tab)
    ensures SameUsed(Rollback(ph, []), ph) && [] in tab && FreeCount(ph.pool) >= 0
  {
    AllocPageFails(ph.pool);
  }

  lemma SameUsedSym(a: Phys, b: Phys)
    requires SameUsed(a, b)
    ensures SameUsed(b, a)
  {
  }

  lemma NoRoomMeansAbsent(ph: Phys, tab: Tables, k: seq<nat>)
    requires TreeOk(ph, tab) && IsKey(k) && Missing(tab, k, 2) > FreeCount(ph.pool)
    ensures Entry(ph, tab, k) == 0
  {
    AllocPageFails(ph.pool);
    if k[..2] in tab {
      NoneMissing(tab, k);
    }
  }

  lemma NoneMissing(tab: Tables, k: seq<nat>)
    requires Closed(tab) && IsKey(k) && k[..2] in tab
    ensures Missing(tab, k, 2) == 0
  {
    PrefixesPresent(tab, k, 1);
    assert Missing(tab, k, 1) == Missing(tab, k, 0);
  }

  lemma FoundEntry(ph: Phys, tab: Tables, k: seq<nat>, walked: Phys, more: Tables)
    requires IsKey(k) && Extended(ph, tab, k, 2, walked, more)
    ensures k[..2] in more && Word(walked, more[k[..2]], k[2]) == Entry(ph, tab, k)
    ensures LeafOrEmpty(Entry(ph, tab, k)) && (PteValid(Entry(ph, tab, k)) <==> Entry(ph, tab, k) != 0)
    ensures Missing(tab, k, 2) <= FreeCount(ph.pool)
  {
    hide Word, PteLeaf, Linked, Separate, Placed, Closed;
    assert Entry(ph, tab, k) == Entry(walked, more, k);
    BranchEntry(0);
    assert |k[..2]| == 2;
    AllocPageFails(walked.pool);
  }

  lemma PresentWalk(ph: Phys, tab: Tables, k: seq<nat>)
    requires TreeOk(ph, tab) && IsKey(k) && Entry(ph, tab, k) != 0
    ensures k[..0] == [] && [] in tab && WalkFrom(ph, tab[[]], k, 2, true, []) == (ph, Some(tab[k[..2]]))
  {
    hide Word, WalkFrom;
    assert k[..0] == [];
    WalkPresent(ph, tab, k, 2, true, []);
  }

  lemma MapWrites(ph: Phys, tab: Tables, k: seq<nat>, va: nat, pte: nat, walked: Phys, more: Tables)
    requires TreeOk(ph, tab) && PageVa(va) && k == Path(va) && IsKey(k) && Extended(ph, tab, k, 2, walked, more) && k[..2] in more
    requires PteValid(pte) && PteLeaf(pte)
    ensures MapDone(ph, tab, va, pte, Write(walked, more[k[..2]], k[2], pte), more)
  {
    hide Path, Word, Canonical, PteValid, PteLeaf, Write, Linked, Separate, Closed, Leaves;
    WriteLeaf(walked, more, k, pte);
    FramedTrans(ph, tab, walked, more, Write(walked, more[k[..2]], k[2], pte), more);
    WriteEffect(walked, more[k[..2]], k[2], pte);
  }

  /** What a walk without allocation finds for any canonical address. */
  lemma LeafFound(ph: Phys, tab: Tables, va: nat)
    requires TreeOk(ph, tab) && Canonical(va)
    ensures IsKey(Path(va))
    ensures var e := Entry(ph, tab, Path(va)); LeafAt(ph, Some(tab[[]]), va) == if e != 0 then Some(e) else None
  {
    hide Path, Word, Canonical, PteValid, PteLeaf, WalkFrom, Linked, Separate, Placed;
    PathDeterminesPage(va);
    var k := Path(va);
    assert k[..0] == [];
    assert [] in tab by { SelfSame(ph, tab); }
    BranchEntry(0);
    if k[..2] in tab {
      assert |k[..2]| == 2;
      WalkPresent(ph, tab, k, 2, false, []);
    } else {
      WalkAbsent(ph, tab, k, 2, []);
    }
  }

  /** vm_unmap_page clears one key, or finds it empty and changes nothing. */
  lemma UnmapTree(ph: Phys, tab: Tables, va: nat)
    requires TreeOk(ph, tab) && PageVa(va)
    ensures var (after, st) := UnmapPage(ph, Some(tab[[]]), va);
      && (st == VmNotMapped <==> KeyEntry(ph, tab, va) == 0)
      && (st == VmNotMapped ==> after == ph)
      && (st != VmNotMapped ==> st == VmOk && UnmapDone(ph, tab, va, after))
  {
    hide Path, Word, Canonical, PteValid, PteLeaf, WalkFrom, Linked, Separate, Placed, Write, Leaves;
    LeafFound(ph, tab, va);
    var k := Path(va);
    if Entry(ph, tab, k) != 0 {
      assert k[..0] == [];
      assert [] in tab by { SelfSame(ph, tab); }
      WalkPresent(ph, tab, k, 2, false, []);
      WriteLeaf(ph, tab, k, 0);
      assert tab[k[..2]] in ph.pool.used by { TablesUsed(ph, tab, k[..2]); }
      WriteEffect(ph, tab[k[..2]], k[2], 0);
    }
  }

  lemma TablesUsed(ph: Phys, tab: Tables, n: seq<nat>)
    requires TreeOk(ph, tab) && n in tab
    ensures tab[n] in ph.pool.used
  {
  }

  ghost predicate UnmapDone(ph: Phys, tab: Tables, va: nat, after: Phys)
    requires PageVa(va)
  {
    PathDeterminesPage(va);
    && TreeOk(after, tab) && Framed(ph, tab, after, tab) && after.pool == ph.pool
    && (forall j | IsKey(j) :: Entry(after, tab, j) == if j == Path(va) then 0 else Entry(ph, tab, j))
  }

  // --------------------------------------------------------- the finite map

  lemma SamePath(a: nat, b: nat)
    requires PageVa(a) && PageVa(b)
    ensures Path(a) == Path(b) <==> a == b
  {
    hide Path, VaOf, Canonical;
    PathDeterminesPage(a);
    PathDeterminesPage(b);
  }

  lemma EncodedNonZero(view: View, va: nat)
    requires ViewOk(view)
    ensures Encoded(view, va) != 0 <==> va in view
  {
    hide PaToPte, PteLeaf, HasFlag;
    if va in view {
      LeafEntry(view[va].pa, view[va].flags);
      BranchEntry(0);
    }
  }

  /** vm_map_page against the finite map. */
  lemma MapRefines(ph: Phys, tab: Tables, view: View, va: nat, pa: nat, flags: nat) returns (more: Tables)
    requires TreeOk(ph, tab) && Agrees(ph, tab, view)
    ensures var (after, st) := MapPage(ph, Some(tab[[]]), va, pa, flags);
      && TreeOk(after, more) && Framed(ph, tab, after, more) && more[[]] == tab[[]]
      && (st == VmInvalid <==> !(PageVa(va) && MappingOk(Mapping(pa, flags))))
      && (st == VmExists <==> PageVa(va) && MappingOk(Mapping(pa, flags)) && va in view)
      && (st == VmNoMemory <==>
            PageVa(va) && MappingOk(Mapping(pa, flags)) && va !in view && Missing(tab, Path(va), 2) > FreeCount(ph.pool))
      && (st == VmOk ==> Agrees(after, more, view[va := Mapping(pa, flags)]))
      && (st == VmNoMemory ==> SameUsed(ph, after))
      && (st != VmOk ==> Agrees(after, more, view))
      && (st == VmInvalid || st == VmExists ==> after == ph)
      && st in {VmOk, VmInvalid, VmExists, VmNoMemory}
      && MapCost(ph, tab, va, st, after, more)
  {
    hide Path, Canonical, TreeOk, Walk, Missing, Framed, HasFlag, PaToPte;
    more := tab;
    RootTable(ph, tab);
    if PageVa(va) && MappingOk(Mapping(pa, flags)) {
      more := MapTree(ph, tab, va, pa, flags);
      EncodedNonZero(view, va);
      var (after, st) := MapPage(ph, Some(tab[[]]), va, pa, flags);
      if st == VmNoMemory {
        SameUsedTree(ph, after, tab, view);
        NoMemoryMeansAbsent(ph, tab, va);
      } else if st == VmOk {
        MapView(ph, tab, view, va, Mapping(pa, flags), after, more);
      }
    }
  }

  /** What a map costs: the tables that were missing, and it fails only for want of them. */
  ghost predicate MapCost(ph: Phys, tab: Tables, va: nat, st: VmStatus, after: Phys, more: Tables) {
    && (st == VmOk ==>
         && more.Keys == tab.Keys + Steps(Path(va), 2)
         && FreeCount(after.pool) == FreeCount(ph.pool) - Missing(tab, Path(va), 2))
    && (st == VmNoMemory ==> Missing(tab, Path(va), 2) > FreeCount(ph.pool))
  }

  lemma RootTable(ph: Phys, tab: Tables)
    requires TreeOk(ph, tab)
    ensures [] in tab && Framed(ph, tab, ph, tab)
  {
    SameTree(ph, tab);
  }

  lemma NoMemoryMeansAbsent(ph: Phys, tab: Tables, va: nat)
    requires TreeOk(ph, tab) && PageVa(va) && Missing(tab, Path(va), 2) > FreeCount(ph.pool)
    ensures KeyEntry(ph, tab, va) == 0
  {
    hide Path, Canonical;
    PathDeterminesPage(va);
    NoRoomMeansAbsent(ph, tab, Path(va));
  }

  lemma SameUsedTree(a: Phys, b: Phys, tab: Tables, view: View)
    requires TreeOk(a, tab) && Agrees(a, tab, view) && SameUsed(a, b)
    ensures TreeOk(b, tab) && Agrees(b, tab, view) && Framed(a, tab, b, tab)
  {
    hide Path, Canonical, PteValid, PteLeaf, EntryFor, Encoded;
    assert forall n, i :: n in tab ==> Word(a, tab[n], i) == Word(b, tab[n], i);
    assert Linked(b, tab);
    assert Leaves(b, tab);
    forall va | PageVa(va)
      ensures KeyEntry(b, tab, va) == KeyEntry(a, tab, va)
    {
    }
  }

  lemma MapView(ph: Phys, tab: Tables, view: View, va: nat, m: Mapping, after: Phys, more: Tables)
    requires PageVa(va) && MappingOk(m) && Agrees(ph, tab, view)
    requires MapDone(ph, tab, va, PaToPte(m.pa, m.flags), after, more)
    ensures Agrees(after, more, view[va := m])
  {
    hide Path, Canonical, TreeOk, Framed, Missing, HasFlag, PaToPte, Entry;
    forall w | PageVa(w)
      ensures KeyEntry(after, more, w) == Encoded(view[va := m], w)
    {
      PathDeterminesPage(w);
      SamePath(w, va);
      assert KeyEntry(ph, tab, w) == Encoded(view, w);
    }
  }

  /** vm_map_page refuses its arguments exactly for a missing root, an address that is not canonical
      or not page-aligned, a frame that is not page-aligned, or a flag word that is not acceptable. */
  lemma MapInvalidIff(ph: Phys, root: Option<nat>, va: nat, pa: nat, flags: nat)
    ensures MapPage(ph, root, va, pa, flags).1 == VmInvalid <==>
      || root.None?
      || !(va < 0x40_0000_0000 || 0xFFFF_FFC0_0000_0000 <= va < 0x1_0000_0000_0000_0000)
      || va % 4096 != 0 || pa % 4096 != 0
      || !(flags < 256 && flags % 2 == 1 && flags / 2 % 8 in {1, 3, 4, 5, 7})
  {
    hide Walk, FlagsValid, Canonical, PteValid;
    CanonicalIff(va);
    FlagsByBits(flags);
  }

  /** INVALID from vm_unmap_page, in numbers. */
  lemma UnmapInvalidIff(ph: Phys, root: Option<nat>, va: nat)
    ensures UnmapPage(ph, root, va).1 == VmInvalid <==>
      || root.None?
      || !(va < 0x40_0000_0000 || 0xFFFF_FFC0_0000_0000 <= va < 0x1_0000_0000_0000_0000)
      || va % 4096 != 0
  {
    hide Walk, LeafAt, Canonical;
    CanonicalIff(va);
  }

  /** A space without a root has no mapping and takes none, and no call on it changes anything. */
  lemma WithoutRoot(ph: Phys, va: nat, pa: nat, flags: nat)
    ensures MapPage(ph, None, va, pa, flags) == (ph, VmInvalid) && UnmapPage(ph, None, va) == (ph, VmInvalid)
    ensures Translate(ph, None, va) == 0xFFFF_FFFF_FFFF_FFFF && GetMapping(ph, None, va) == None
    ensures SpaceDestroy(ph, None) == (ph, None, VmInvalid)
  {
  }

  /** vm_unmap_page against the finite map. */
  lemma UnmapRefines(ph: Phys, tab: Tables, view: View, va: nat)
    requires TreeOk(ph, tab) && Agrees(ph, tab, view)
    ensures var (after, st) := UnmapPage(ph, Some(tab[[]]), va);
      && TreeOk(after, tab) && Framed(ph, tab, after, tab) && after.pool == ph.pool
      && st == (if !PageVa(va) then VmInvalid else if va in view then VmOk else VmNotMapped)
      && (st == VmOk ==> Agrees(after, tab, view - {va}))
      && (st != VmOk ==> after == ph)
  {
    hide Path, Canonical, TreeOk, Walk, Framed, HasFlag, PaToPte, Entry;
    RootTable(ph, tab);
    if PageVa(va) {
      UnmapTree(ph, tab, va);
      EncodedNonZero(view, va);
      var (after, st) := UnmapPage(ph, Some(tab[[]]), va);
      if st == VmOk {
        UnmapView(ph, tab, view, va, after);
      }
    }
  }

  lemma UnmapView(ph: Phys, tab: Tables, view: View, va: nat, after: Phys)
    requires PageVa(va) && Agrees(ph, tab, view) && UnmapDone(ph, tab, va, after)
    ensures Agrees(after, tab, view - {va})
  {
    hide Path, Canonical, TreeOk, Framed, HasFlag, PaToPte, Entry;
    forall w | PageVa(w)
      ensures KeyEntry(after, tab, w) == Encoded(view - {va}, w)
    {
      PathDeterminesPage(w);
      SamePath(w, va);
      assert KeyEntry(ph, tab, w) == Encoded(view, w);
    }
  }

  /** What the finite map says about one byte address. */
  function Looked(view: View, va: nat): Option<(nat, nat)> {
    if Canonical(va) && AlignDown(va) in view
    then Some((view[AlignDown(va)].pa + va % PageSize, view[AlignDown(va)].flags))
    else None
  }

  lemma SamePageVa(va: nat)
    requires Canonical(va)
    ensures PageVa(AlignDown(va)) && Path(AlignDown(va)) == Path(va)
  {
    hide Path;
    PathDeterminesPage(va);
    PathOfVaOf(Path(va));
    assert AlignDown(va) == va - va % PageSize;
  }

  /** vm_get_mapping answers from the finite map, for every address. */
  lemma GetMappingRefines(ph: Phys, tab: Tables, view: View, va: nat)
    requires TreeOk(ph, tab) && Agrees(ph, tab, view)
    ensures GetMapping(ph, Some(tab[[]]), va) == Looked(view, va)
  {
    hide Path, Canonical, TreeOk, WalkFrom, HasFlag, PaToPte, PteToPa, PteFlags, Entry;
    RootTable(ph, tab);
    if Canonical(va) {
      LeafFound(ph, tab, va);
      SamePageVa(va);
      var page := AlignDown(va);
      assert KeyEntry(ph, tab, page) == Encoded(view, page);
      EncodedNonZero(view, page);
      if page in view {
        PteRoundTrip(view[page].pa, view[page].flags);
      }
    }
  }

  /**
   * vm_translate answers from the finite map, and its failure value is unambiguous except
   * for the last byte of a page mapped to the last frame of the 64-bit space.
   */
  lemma TranslateRefines(ph: Phys, tab: Tables, view: View, va: nat)
    requires TreeOk(ph, tab) && Agrees(ph, tab, view)
    ensures var at := Looked(view, va);
      && Translate(ph, Some(tab[[]]), va) == (if at.Some? then at.value.0 else TranslateInvalid)
      && (Translate(ph, Some(tab[[]]), va) == TranslateInvalid <==>
            at.None? || (va % PageSize == PageSize - 1 && view[AlignDown(va)].pa == WordSpan - PageSize))
  {
    hide Path, Canonical, TreeOk, WalkFrom, HasFlag, PaToPte, PteToPa, PteFlags, LeafAt;
    GetMappingRefines(ph, tab, view, va);
    if Looked(view, va).Some? {
      LastByte(view[AlignDown(va)].pa, va);
    }
  }

  lemma LastByte(pa: nat, va: nat)
    requires pa % PageSize == 0
    ensures pa + va % PageSize == WordSpan - 1 <==> va % PageSize == PageSize - 1 && pa == WordSpan - PageSize
  {
  }
}
