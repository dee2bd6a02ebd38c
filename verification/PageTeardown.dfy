/** Creating and destroying an address space, and whole lives of one. */
module PageTeardown {
  import opened SeqTools
  import opened Pages
  import opened Sv39
  import opened PageTables
  import opened PageTree
  import opened PageWalks
  import opened PageMaps

  /** m lies below n, behind an index of at least i. */
  predicate Under(m: seq<nat>, n: seq<nat>, i: nat) {
    |n| < |m| && m[..|n|] == n && m[|n|] >= i
  }

  lemma UnderSplit(m: seq<nat>, n: seq<nat>, i: nat)
    ensures Under(m, n, i) <==> Under(m, n, i + 1) || m == Child(n, i) || Under(m, Child(n, i), 0)
  {
    if |n| < |m| {
      assert m[..|n| + 1] == m[..|n|] + [m[|n|]];
      if m[..|n|] == n && m[|n|] == i {
        assert |m| == |n| + 1 ==> m == Child(n, i);
      }
      if Under(m, Child(n, i), 0) {
        assert Child(n, i)[..|n|] == n && Child(n, i)[|n|] == i;
      }
    }
  }

  // ------------------------------------------------------- looking for leaves

  ghost predicate HasLeaf(ph: Phys, tab: Tables, n: seq<nat>, i: nat) {
    exists k :: IsKey(k) && Under(k, n, i) && Entry(ph, tab, k) != 0
  }

  lemma LeafNeedsTables(ph: Phys, tab: Tables, k: seq<nat>, n: seq<nat>, i: nat)
    requires TreeOk(ph, tab) && IsKey(k) && Entry(ph, tab, k) != 0 && |n| < 2
    requires Under(k, Child(n, i), 0)
    ensures Child(n, i) in tab
  {
    hide Word, Linked, Leaves;
    PrefixesPresent(tab, k, 2 - |Child(n, i)|);
    assert k[..|n| + 1] == Child(n, i);
  }

  lemma HasLeafSplit(ph: Phys, tab: Tables, n: seq<nat>, i: nat)
    requires TreeOk(ph, tab) && n in tab && i < Entries && |n| < 2
    ensures HasLeaf(ph, tab, n, i) <==>
      HasLeaf(ph, tab, n, i + 1) || (Child(n, i) in tab && HasLeaf(ph, tab, Child(n, i), 0))
  {
    hide TreeOk, Under, Entry;
    if k :| IsKey(k) && Under(k, n, i) && Entry(ph, tab, k) != 0 {
      UnderSplit(k, n, i);
      assert |Child(n, i)| < 3;
      if Under(k, Child(n, i), 0) {
        LeafNeedsTables(ph, tab, k, n, i);
      }
    }
    if k :| IsKey(k) && (Under(k, n, i + 1) || Under(k, Child(n, i), 0)) && Entry(ph, tab, k) != 0 {
      UnderSplit(k, n, i);
    }
  }

  lemma HasLeafLast(ph: Phys, tab: Tables, n: seq<nat>, i: nat)
    requires TreeOk(ph, tab) && n in tab && i < Entries && |n| == 2
    ensures HasLeaf(ph, tab, n, i) <==> HasLeaf(ph, tab, n, i + 1) || Word(ph, tab[n], i) != 0
  {
    hide Word, Linked, Leaves, Separate, Placed;
    var c := Child(n, i);
    PathBounds(tab, n);
    assert IsKey(c) && c[..2] == n && c[2] == i;
    assert Entry(ph, tab, c) == Word(ph, tab[n], i);
    if k :| IsKey(k) && Under(k, n, i) && Entry(ph, tab, k) != 0 {
      UnderSplit(k, n, i);
    }
    if k :| IsKey(k) && Under(k, n, i + 1) && Entry(ph, tab, k) != 0 {
      UnderSplit(k, n, i);
    }
    assert Under(c, n, i);
  }

  /** Every index on the way to a table is a table index. */
  lemma PathBounds(tab: Tables, n: seq<nat>)
    requires Closed(tab) && n in tab && |n| <= 2
    ensures forall j :: 0 <= j < |n| ==> n[j] < Entries
  {
    if |n| == 2 {
      assert Parent(n) == n[..1] && n[..1][0] == n[0];
    }
  }

  /** table_contains_leaf finds a leaf exactly when some key below has an entry. */
  lemma {:induction false} ContainsLeafIff(ph: Phys, tab: Tables, n: seq<nat>, i: nat)
    requires TreeOk(ph, tab) && n in tab && |n| <= 2 && i <= Entries
    ensures ContainsLeaf(ph, tab[n], 2 - |n|, i) <==> HasLeaf(ph, tab, n, i)
    decreases 2 - |n|, Entries - i
  {
    hide Word, PteValid, PteLeaf, PteToPa, HasLeaf, Linked, Separate, Closed, Placed;
    if i == Entries {
      NoneBeyond(ph, tab, n);
    } else {
      ContainsLeafIff(ph, tab, n, i + 1);
      TableEntry(ph, tab, n, i);
      if |n| == 2 {
        HasLeafLast(ph, tab, n, i);
      } else {
        HasLeafSplit(ph, tab, n, i);
        if Child(n, i) in tab {
          ContainsLeafIff(ph, tab, Child(n, i), 0);
        }
      }
    }
  }

  lemma NoneBeyond(ph: Phys, tab: Tables, n: seq<nat>)
    requires |n| <= 2
    ensures !HasLeaf(ph, tab, n, Entries)
  {
  }

  /** How an entry of a table reads. */
  lemma TableEntry(ph: Phys, tab: Tables, n: seq<nat>, i: nat)
    requires TreeOk(ph, tab) && n in tab && i < Entries
    ensures var pte := Word(ph, tab[n], i);
      if |n| == 2 then PteValid(pte) <==> pte != 0
      else if Child(n, i) in tab
      then PteValid(pte) && !PteLeaf(pte) && PteToPa(pte) / PageSize == tab[Child(n, i)]
      else !PteValid(pte)
  {
    hide Word, PteValid, PteLeaf, PteToPa, BranchTo;
    BranchEntry(0);
    if |n| < 2 {
      assert Word(ph, tab[n], i) == EntryFor(tab, n, i);
      if Child(n, i) in tab {
        BranchEntry(tab[Child(n, i)]);
      }
    }
  }

  // ------------------------------------------------------------- freeing tables

  /** The tables without those below n behind an index of at least i. */
  function Cut(tab: Tables, n: seq<nat>, i: nat): Tables {
    map m | m in tab && !Under(m, n, i) :: tab[m]
  }

  lemma CutNothing(ph: Phys, tab: Tables, n: seq<nat>, i: nat)
    requires TreeOk(ph, tab) && n in tab && (|n| == 2 || i == Entries)
    ensures Cut(tab, n, i) == tab
  {
    forall m | m in tab
      ensures !Under(m, n, i)
    {
      PathBounds(tab, m);
    }
  }

  lemma CutAbsent(ph: Phys, tab: Tables, n: seq<nat>, i: nat)
    requires TreeOk(ph, tab) && n in tab && |n| < 2 && Child(n, i) !in tab
    ensures Cut(tab, n, i) == Cut(tab, n, i + 1)
  {
    hide Under, Linked, Leaves, Separate;
    forall m | m in tab
      ensures Under(m, n, i) <==> Under(m, n, i + 1)
    {
      UnderSplit(m, n, i);
      if Under(m, Child(n, i), 0) {
        BelowPresent(ph, tab, m, Child(n, i));
      }
    }
  }

  lemma BelowPresent(ph: Phys, tab: Tables, m: seq<nat>, c: seq<nat>)
    requires TreeOk(ph, tab) && m in tab && c != [] && Under(m, c, 0)
    ensures c in tab
  {
    assert |m| == 2 && |c| == 1;
    assert Parent(m) == m[..1] == c;
  }

  lemma CutStep(tab: Tables, n: seq<nat>, i: nat)
    ensures Cut(Drop(Cut(tab, Child(n, i), 0), Child(n, i)), n, i + 1) == Cut(tab, n, i)
  {
    hide Under;
    forall m | m in tab
      ensures Under(m, n, i) <==> Under(m, n, i + 1) || m == Child(n, i) || Under(m, Child(n, i), 0)
    {
      UnderSplit(m, n, i);
    }
  }

  /**
   * free_empty_table_children frees every table below n from index i on, each exactly
   * once, and leaves a well-formed tree of the others.
   */
  lemma {:induction false} FreeTree(ph: Phys, tab: Tables, n: seq<nat>, i: nat)
    requires TreeOk(ph, tab) && n in tab && |n| <= 2 && i <= Entries
    ensures var after := FreeChildren(ph, tab[n], 2 - |n|, i);
      TreeOk(after, Cut(tab, n, i)) && Framed(ph, tab, after, Cut(tab, n, i))
    decreases 2 - |n|, Entries - i
  {
    hide Word, PteValid, PteLeaf, PteToPa, TreeOk, Prune, Framed, Cut;
    if |n| == 2 || i == Entries {
      CutNothing(ph, tab, n, i);
      RootTable(ph, tab);
    } else {
      TableEntry(ph, tab, n, i);
      if Child(n, i) !in tab {
        CutAbsent(ph, tab, n, i);
        FreeTree(ph, tab, n, i + 1);
      } else {
        FreeOne(ph, tab, n, i);
      }
    }
  }

  lemma {:induction false} FreeOne(ph: Phys, tab: Tables, n: seq<nat>, i: nat)
    requires TreeOk(ph, tab) && n in tab && |n| < 2 && i < Entries && Child(n, i) in tab
    ensures var after := FreeChildren(ph, tab[n], 2 - |n|, i);
      TreeOk(after, Cut(tab, n, i)) && Framed(ph, tab, after, Cut(tab, n, i))
    decreases 2 - |n|, Entries - i, 0
  {
    hide Word, PteValid, PteLeaf, PteToPa, TreeOk, Prune, Framed, Cut, Drop;
    var c := Child(n, i);
    TableEntry(ph, tab, n, i);
    FreeTree(ph, tab, c, 0);
    var inner := FreeChildren(ph, tab[c], 1 - |n|, 0);
    var less := Cut(tab, c, 0);
    CutLeaves(tab, n, i);
    PruneTree(inner, less, n, i);
    var pruned := Prune(inner, tab[n], i, tab[c]);
    var rest := Drop(less, c);
    DropKeeps(less, n, i);
    FramedTrans(ph, tab, inner, less, pruned, rest);
    FreeTree(pruned, rest, n, i + 1);
    CutStep(tab, n, i);
    FramedTrans(ph, tab, pruned, rest, FreeChildren(pruned, tab[n], 2 - |n|, i + 1), Cut(rest, n, i + 1));
  }

  /** After the tables below a child are gone, the child is there without children. */
  lemma CutLeaves(tab: Tables, n: seq<nat>, i: nat)
    requires n in tab && Child(n, i) in tab
    ensures var c, less := Child(n, i), Cut(tab, Child(n, i), 0);
      && n in less && c in less && less[n] == tab[n] && less[c] == tab[c]
      && forall j :: Child(c, j) !in less
  {
    var c := Child(n, i);
    forall j
      ensures Under(Child(c, j), c, 0)
    {
      assert Child(c, j)[..|c|] == c;
    }
  }

  lemma DropKeeps(tab: Tables, n: seq<nat>, i: nat)
    requires n in tab
    ensures n in Drop(tab, Child(n, i)) && Drop(tab, Child(n, i))[n] == tab[n]
  {
    ChildParent(n, i);
  }

  // ------------------------------------------------------------ a whole space

  lemma CutAll(ph: Phys, tab: Tables)
    requires TreeOk(ph, tab)
    ensures Cut(tab, [], 0) == map[[] := tab[[]]]
  {
    forall m | m in tab && m != []
      ensures Under(m, [], 0)
    {
      assert m[..0] == [];
    }
  }

  /** vm_space_init makes a tree of one page that maps nothing, unless no page is free. */
  lemma InitTree(ph: Phys)
    requires PhysOk(ph)
    ensures var (after, root) := SpaceInit(ph);
      && (root.None? <==> FreeCount(ph.pool) == 0) && (root.None? ==> after == ph)
      && (root.Some? ==>
           && TreeOk(after, map[[] := root.value]) && Agrees(after, map[[] := root.value], map[])
           && Framed(ph, map[], after, map[[] := root.value]))
  {
    hide FirstFree, TreeOk, Agrees, Framed;
    AllocPageFails(ph.pool);
    var page := AllocPage(ph.pool).1;
    if page.Some? {
      OneTable(ph, page.value);
    }
  }

  lemma OneTable(ph: Phys, p: nat)
    requires PhysOk(ph) && ph.pool.lo <= p < ph.pool.hi && p !in ph.pool.used
    ensures var after, tab := ZeroPage(ph.(pool := Take(ph.pool, p)), p), map[[] := p];
      TreeOk(after, tab) && Agrees(after, tab, map[]) && Framed(ph, map[], after, tab)
  {
    hide PteValid, PteLeaf, Path, Canonical, Word;
    ZeroEffect(ph, p);
    var after := ZeroPage(ph.(pool := Take(ph.pool, p)), p);
    var tab: Tables := map[[] := p];
    assert Linked(after, tab) by { assert forall i :: |Child([], i)| == 1; }
    assert TreeOk(after, tab);
    assert Foreign(after, tab) == ph.pool.used;
    forall va | PageVa(va)
      ensures KeyEntry(after, tab, va) == 0
    {
      assert |Path(va)[..2]| == 2;
    }
  }

  /** vm_space_destroy is refused exactly when something is mapped; otherwise every table page comes back. */
  lemma DestroyTree(ph: Phys, tab: Tables, view: View)
    requires TreeOk(ph, tab) && Agrees(ph, tab, view)
    ensures var (after, root, st) := SpaceDestroy(ph, Some(tab[[]]));
      && (st == VmBusy <==> view != map[])
      && (st == VmBusy ==> after == ph && root == Some(tab[[]]))
      && (st != VmBusy ==>
           && st == VmOk && root == None && PhysOk(after)
           && after.pool == ph.pool.(used := Foreign(ph, tab))
           && Framed(ph, tab, after, map[]))
  {
    hide TreeOk, ContainsLeaf, FreeChildren, Agrees, HasLeaf, Framed;
    RootTable(ph, tab);
    ContainsLeafIff(ph, tab, [], 0);
    HasLeafIffMapped(ph, tab, view);
    if view == map[] {
      FreeTree(ph, tab, [], 0);
      CutAll(ph, tab);
      FreeRoot(ph, tab, FreeChildren(ph, tab[[]], 2, 0));
    }
  }

  lemma FreeRoot(ph: Phys, tab: Tables, cut: Phys)
    requires [] in tab && TreeOk(cut, map[[] := tab[[]]]) && Framed(ph, tab, cut, map[[] := tab[[]]])
    ensures var after := cut.(pool := GiveBack(cut.pool, tab[[]]));
      PhysOk(after) && after.pool == ph.pool.(used := Foreign(ph, tab)) && Framed(ph, tab, after, map[])
  {
    hide Linked, Leaves;
    var one: Tables := map[[] := tab[[]]];
    assert one.Values == {tab[[]]};
    assert Foreign(cut, one) == cut.pool.used - {tab[[]]};
  }

  lemma HasLeafIffMapped(ph: Phys, tab: Tables, view: View)
    requires TreeOk(ph, tab) && Agrees(ph, tab, view)
    ensures HasLeaf(ph, tab, [], 0) <==> view != map[]
  {
    hide TreeOk, Entry, Path, VaOf, PaToPte, Canonical, FlagsValid;
    if k :| IsKey(k) && Under(k, [], 0) && Entry(ph, tab, k) != 0 {
      PathOfVaOf(k);
      assert KeyEntry(ph, tab, VaOf(k)) == Encoded(view, VaOf(k));
    }
    if view != map[] {
      var va :| va in view;
      EncodedNonZero(view, va);
      PathDeterminesPage(va);
      assert KeyEntry(ph, tab, va) == Encoded(view, va);
      assert Under(Path(va), [], 0);
    }
  }
}
