/** What vm_walk does to a well-formed tree, with and without allocation. */
module PageWalks {
  import opened SeqTools
  import opened Pages
  import opened Sv39
  import opened PageTables
  import opened PageTree

  /** The allocator is the same and so is every page in use. */
  ghost predicate SameUsed(a: Phys, b: Phys) {
    && PhysOk(a) && PhysOk(b) && a.pool == b.pool
    && forall q :: q in a.pool.used ==> q in a.mem && q in b.mem && a.mem[q] == b.mem[q]
  }

  /** The tables a walk for k passes below the given level, from the root table's child down. */
  function Steps(k: seq<nat>, level: nat): set<seq<nat>>
    requires |k| == 3 && level < 3
  {
    if level == 0 then {} else {k[..3 - level]} + Steps(k, level - 1)
  }

  /** How many of them do not exist yet. */
  function Missing(tab: Tables, k: seq<nat>, level: nat): nat
    requires |k| == 3 && level < 3
  {
    if level == 0 then 0
    else (if k[..3 - level] in tab then 0 else 1) + Missing(tab, k, level - 1)
  }

  lemma PrefixIsChild(k: seq<nat>, level: nat)
    requires IsKey(k) && 0 < level < 3
    ensures Child(k[..2 - level], k[2 - level]) == k[..3 - level] && k[2 - level] < Entries
  {
  }

  lemma PrefixesPresent(tab: Tables, k: seq<nat>, level: nat)
    requires Closed(tab) && IsKey(k) && k[..2] in tab && level < 3
    ensures k[..2 - level] in tab
  {
    assert Parent(k[..2]) == k[..1];
    if k[..1] in tab {
      assert Parent(k[..1]) == k[..0];
    }
  }

  lemma EntryAt(ph: Phys, tab: Tables, k: seq<nat>, level: nat)
    requires TreeOk(ph, tab) && IsKey(k) && 0 < level < 3 && k[..2 - level] in tab
    ensures var pte := Word(ph, tab[k[..2 - level]], k[2 - level]);
      if k[..3 - level] in tab
      then PteValid(pte) && !PteLeaf(pte) && PteToPa(pte) / PageSize == tab[k[..3 - level]]
      else pte == 0 && !PteValid(pte)
  {
    hide Word, PteValid, PteLeaf, PteToPa, BranchTo, Leaves;
    PrefixIsChild(k, level);
    var n := k[..2 - level];
    assert Word(ph, tab[n], k[2 - level]) == EntryFor(tab, n, k[2 - level]);
    if k[..3 - level] in tab {
      BranchEntry(tab[k[..3 - level]]);
    } else {
      BranchEntry(0);
    }
  }

  /** Where the tables exist a walk finds the last of them and changes nothing. */
  lemma {:induction false} WalkPresent(ph: Phys, tab: Tables, k: seq<nat>, level: nat, alloc: bool, log: seq<Grown>)
    requires TreeOk(ph, tab) && IsKey(k) && level < 3 && k[..2] in tab && k[..2 - level] in tab
    ensures WalkFrom(ph, tab[k[..2 - level]], k, level, alloc, log) == (ph, Some(tab[k[..2]]))
    decreases level
  {
    hide Word, PteValid, PteLeaf, PteToPa, Linked, Leaves, Placed, Separate;
    if level > 0 {
      EntryAt(ph, tab, k, level);
      PrefixesPresent(tab, k, level - 1);
      WalkPresent(ph, tab, k, level - 1, alloc, log);
    }
  }

  /** Where some table is absent a walk without allocation finds nothing. */
  lemma {:induction false} WalkAbsent(ph: Phys, tab: Tables, k: seq<nat>, level: nat, log: seq<Grown>)
    requires TreeOk(ph, tab) && IsKey(k) && level < 3 && k[..2] !in tab && k[..2 - level] in tab
    ensures WalkFrom(ph, tab[k[..2 - level]], k, level, false, log) == (ph, None)
    decreases level
  {
    hide Word, PteValid, PteLeaf, PteToPa, Linked, Leaves, Placed, Separate;
    if level > 0 {
      EntryAt(ph, tab, k, level);
      if k[..3 - level] in tab {
        WalkAbsent(ph, tab, k, level - 1, log);
      }
    }
  }

  // ---------------------------------------------------------------- rollback

  lemma WriteKeepsShape(ph: Phys, t: nat, i: nat, w: nat)
    requires PhysOk(ph)
    ensures PhysOk(Write(ph, t, i, w))
  {
  }

  lemma PruneSame(a: Phys, b: Phys, t: nat, i: nat, p: nat)
    requires SameUsed(a, b)
    ensures SameUsed(Prune(a, t, i, p), Prune(b, t, i, p))
  {
    WriteKeepsShape(a.(pool := GiveBack(a.pool, p)), t, i, 0);
    WriteKeepsShape(b.(pool := GiveBack(b.pool, p)), t, i, 0);
  }

  lemma {:induction false} RollbackSame(a: Phys, b: Phys, log: seq<Grown>)
    requires SameUsed(a, b)
    ensures SameUsed(Rollback(a, log), Rollback(b, log))
    decreases |log|
  {
    hide Prune, SameUsed;
    if log != [] {
      var e := log[|log| - 1];
      PruneSame(a, b, e.table, e.index, e.page);
      RollbackSame(Prune(a, e.table, e.index, e.page), Prune(b, e.table, e.index, e.page), log[..|log| - 1]);
    }
  }

  /** Pruning what was just grown gives the old memory back, up to the contents of a free page. */
  lemma PruneGrown(ph: Phys, t: nat, i: nat, p: nat)
    requires PhysOk(ph) && t in ph.pool.used && i < Entries && Word(ph, t, i) == 0
    requires ph.pool.lo <= p < ph.pool.hi && p !in ph.pool.used
    ensures SameUsed(Prune(Grow(ph, t, i, p), t, i, p), ph)
  {
    hide Grow, Prune, BranchTo;
    GrowEffect(ph, t, i, p);
    var g := Grow(ph, t, i, p);
    PruneEffect(g, t, i, p);
    var r := Prune(g, t, i, p);
    TakeGiveBack(ph.pool, p);
    PageWords(ph, t);
    PageWords(r, t);
    assert r.mem[t] == ph.mem[t] by {
      forall j | 0 <= j < Entries
        ensures r.mem[t][j] == ph.mem[t][j]
      {
        assert Word(r, t, j) == r.mem[t][j] && Word(ph, t, j) == ph.mem[t][j];
      }
    }
  }

  /** The log of a walk that has grown one more table undoes to the same memory. */
  lemma RollbackGrown(ph: Phys, ph0: Phys, log: seq<Grown>, e: Grown)
    requires PhysOk(ph) && e.table in ph.pool.used && e.index < Entries && Word(ph, e.table, e.index) == 0
    requires ph.pool.lo <= e.page < ph.pool.hi && e.page !in ph.pool.used
    requires SameUsed(Rollback(ph, log), ph0)
    ensures SameUsed(Rollback(Grow(ph, e.table, e.index, e.page), log + [e]), ph0)
  {
    hide Grow, Prune;
    PruneGrown(ph, e.table, e.index, e.page);
    var undone := Prune(Grow(ph, e.table, e.index, e.page), e.table, e.index, e.page);
    assert (log + [e])[..|log|] == log;
    RollbackSame(undone, ph, log);
  }

  // ------------------------------------------------------- growing a walk

  lemma {:induction false} MissingLonger(tab: Tables, k: seq<nat>, level: nat, n: seq<nat>, p: nat)
    requires |k| == 3 && level < 3 && |n| <= 2 - level
    ensures Missing(tab[n := p], k, level) == Missing(tab, k, level)
  {
    if level > 0 {
      assert |k[..3 - level]| != |n|;
      MissingLonger(tab, k, level - 1, n, p);
    }
  }

  /** The tree (after, more) is (ph, tab) with the tables for k added below the given level. */
  ghost predicate Extended(ph: Phys, tab: Tables, k: seq<nat>, level: nat, after: Phys, more: Tables)
    requires IsKey(k) && level < 3
  {
    && TreeOk(after, more) && SameEntries(ph, tab, after, more) && Framed(ph, tab, after, more)
    && k[..2] in more && more.Keys == tab.Keys + Steps(k, level)
    && (forall n :: n in tab ==> more[n] == tab[n])
    && FreeCount(after.pool) == FreeCount(ph.pool) - Missing(tab, k, level)
  }

  lemma ExtendedTrans(ph: Phys, tab: Tables, k: seq<nat>, level: nat, mid: Phys, p: nat, after: Phys, more: Tables)
    requires IsKey(k) && 0 < level < 3 && k[..3 - level] !in tab
    requires SameEntries(ph, tab, mid, tab[k[..3 - level] := p]) && Framed(ph, tab, mid, tab[k[..3 - level] := p])
    requires FreeCount(mid.pool) == FreeCount(ph.pool) - 1
    requires Extended(mid, tab[k[..3 - level] := p], k, level - 1, after, more)
    ensures Extended(ph, tab, k, level, after, more)
  {
    hide TreeOk, Entry, Framed, FreeCount;
    var c := k[..3 - level];
    MissingLonger(tab, k, level - 1, c, p);
    FramedTrans(ph, tab, mid, tab[c := p], after, more);
    assert tab[c := p].Keys == tab.Keys + {c};
  }

  /**
   * A walk with allocation: it fails exactly when more tables are missing than pages are
   * free, and then everything in use is as it was; otherwise the tree has grown by just
   * the missing tables and no leaf has changed.
   */
  lemma {:induction false} WalkGrows(ph: Phys, tab: Tables, k: seq<nat>, level: nat, log: seq<Grown>, ph0: Phys)
    returns (more: Tables)
    requires TreeOk(ph, tab) && IsKey(k) && level < 3 && k[..2 - level] in tab
    requires SameUsed(Rollback(ph, log), ph0)
    ensures var (after, t) := WalkFrom(ph, tab[k[..2 - level]], k, level, true, log);
      && (t.None? <==> Missing(tab, k, level) > FreeCount(ph.pool))
      && (t.None? ==> SameUsed(after, ph0))
      && (t.Some? ==> Extended(ph, tab, k, level, after, more) && t.value == more[k[..2]])
    decreases level
  {
    hide Word, PteValid, PteLeaf, PteToPa, Linked, Leaves, Separate, Grow, Rollback, FirstFree, SameEntries, Framed, SameUsed;
    more := tab;
    AllocPageFails(ph.pool);
    if level == 0 {
      SameTree(ph, tab);
    } else {
      EntryAt(ph, tab, k, level);
      var n, i, c := k[..2 - level], k[2 - level], k[..3 - level];
      if c in tab {
        more := WalkGrows(ph, tab, k, level - 1, log, ph0);
      } else {
        var page := AllocPage(ph.pool).1;
        if page.Some? {
          more := WalkGrowsOne(ph, tab, k, level, log, ph0, page.value);
        }
      }
    }
  }

  lemma SameTree(ph: Phys, tab: Tables)
    requires TreeOk(ph, tab)
    ensures SameEntries(ph, tab, ph, tab) && Framed(ph, tab, ph, tab)
  {
  }

  lemma {:induction false} WalkGrowsOne(ph: Phys, tab: Tables, k: seq<nat>, level: nat, log: seq<Grown>, ph0: Phys, p: nat)
    returns (more: Tables)
    requires TreeOk(ph, tab) && IsKey(k) && 0 < level < 3 && k[..2 - level] in tab && k[..3 - level] !in tab
    requires SameUsed(Rollback(ph, log), ph0) && AllocPage(ph.pool).1 == Some(p)
    ensures var (after, t) := WalkFrom(ph, tab[k[..2 - level]], k, level, true, log);
      && (t.None? <==> Missing(tab, k, level) > FreeCount(ph.pool))
      && (t.None? ==> SameUsed(after, ph0))
      && (t.Some? ==> Extended(ph, tab, k, level, after, more) && t.value == more[k[..2]])
    decreases level, 0
  {
    hide Word, PteValid, PteLeaf, PteToPa, Linked, Leaves, Separate, Grow, Rollback, FirstFree, SameUsed, SameEntries, Framed, Extended;
    EntryAt(ph, tab, k, level);
    PrefixIsChild(k, level);
    AllocPageFails(ph.pool);
    var n, i, c := k[..2 - level], k[2 - level], k[..3 - level];
    var grown, bigger := Grow(ph, tab[n], i, p), tab[c := p];
    GrowTree(ph, tab, n, i, p);
    GrowEffect(ph, tab[n], i, p);
    RollbackGrown(ph, ph0, log, Grown(tab[n], i, p));
    MissingLonger(tab, k, level - 1, c, p);
    more := WalkGrows(grown, bigger, k, level - 1, log + [Grown(tab[n], i, p)], ph0);
    var (after, t) := WalkFrom(grown, p, k, level - 1, true, log + [Grown(tab[n], i, p)]);
    if t.Some? {
      ExtendedTrans(ph, tab, k, level, grown, p, after, more);
      assert Extended(ph, tab, k, level, after, more);
    }
  }
}
