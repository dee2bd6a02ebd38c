/**
 * The shape every address space keeps: its tables are a tree of distinct pages in use,
 * named by the indices that lead to them from the root, with V-only branches above and
 * valid leaves below.
 */
module PageTree {
  import opened SeqTools
  import opened Pages
  import opened Sv39
  import opened PageTables

  /** The page of the table reached by each sequence of indices; the root is at []. */
  type Tables = map<seq<nat>, nat>

  ghost predicate Placed(ph: Phys, tab: Tables) {
    && [] in tab
    && forall n :: n in tab ==> |n| <= 2 && tab[n] in ph.pool.used
  }

  ghost predicate Separate(tab: Tables) {
    forall n, m :: n in tab && m in tab && tab[n] == tab[m] ==> n == m
  }

  function Parent(n: seq<nat>): seq<nat>
    requires n != []
  {
    n[..|n| - 1]
  }

  function Child(n: seq<nat>, i: nat): seq<nat> {
    n + [i]
  }

  lemma ChildParent(n: seq<nat>, i: nat)
    ensures |Child(n, i)| == |n| + 1 && Parent(Child(n, i)) == n
    ensures forall j :: Child(n, i) == Child(n, j) ==> i == j
  {
    forall j | Child(n, i) == Child(n, j)
      ensures i == j
    {
      assert Child(n, i)[|n|] == i && Child(n, j)[|n|] == j;
    }
  }

  ghost predicate Closed(tab: Tables) {
    forall n :: n in tab && n != [] ==> n[|n| - 1] < Entries && Parent(n) in tab
  }

  function EntryFor(tab: Tables, n: seq<nat>, i: nat): nat {
    if Child(n, i) in tab then BranchTo(tab[Child(n, i)]) else 0
  }

  ghost predicate Linked(ph: Phys, tab: Tables) {
    forall n, i :: n in tab && |n| < 2 && 0 <= i < Entries ==> Word(ph, tab[n], i) == EntryFor(tab, n, i)
  }

  ghost predicate LeafOrEmpty(pte: nat) {
    pte == 0 || (PteValid(pte) && PteLeaf(pte))
  }

  ghost predicate Leaves(ph: Phys, tab: Tables) {
    forall n, i :: n in tab && |n| == 2 && 0 <= i < Entries ==> LeafOrEmpty(Word(ph, tab[n], i))
  }

  ghost predicate TreeOk(ph: Phys, tab: Tables) {
    PhysOk(ph) && Placed(ph, tab) && Separate(tab) && Closed(tab) && Linked(ph, tab) && Leaves(ph, tab)
  }

  /** The leaf entry for key k, or zero. */
  function Entry(ph: Phys, tab: Tables, k: seq<nat>): nat
    requires IsKey(k)
  {
    if k[..2] in tab then Word(ph, tab[k[..2]], k[2]) else 0
  }

  ghost predicate SameEntries(a: Phys, ta: Tables, b: Phys, tb: Tables) {
    forall k | IsKey(k) :: Entry(a, ta, k) == Entry(b, tb, k)
  }

  /** Pages in use by anyone but these tables. */
  ghost function Foreign(ph: Phys, tab: Tables): set<nat> {
    ph.pool.used - tab.Values
  }

  /** An operation on one tree gives and takes no page of anyone else's, and writes none. */
  ghost predicate Framed(a: Phys, ta: Tables, b: Phys, tb: Tables) {
    && a.pool.lo == b.pool.lo && a.pool.hi == b.pool.hi
    && Foreign(a, ta) == Foreign(b, tb)
    && forall q :: q in Foreign(a, ta) ==> q in a.mem && q in b.mem && a.mem[q] == b.mem[q]
  }

  lemma FramedTrans(a: Phys, ta: Tables, b: Phys, tb: Tables, c: Phys, tc: Tables)
    requires Framed(a, ta, b, tb) && Framed(b, tb, c, tc)
    ensures Framed(a, ta, c, tc)
  {
  }

  // -------------------------------------------------------- words and pages

  lemma PageWords(ph: Phys, p: nat)
    requires PhysOk(ph) && p in ph.pool.used
    ensures p in ph.mem && |ph.mem[p]| == Entries
  {
  }

  lemma WriteEffect(ph: Phys, t: nat, i: nat, w: nat)
    requires PhysOk(ph) && t in ph.pool.used && i < Entries
    ensures PhysOk(Write(ph, t, i, w)) && Write(ph, t, i, w).pool == ph.pool
    ensures forall u, j :: Word(Write(ph, t, i, w), u, j) == if u == t && j == i then w else Word(ph, u, j)
    ensures forall q :: q != t && q in ph.mem ==> q in Write(ph, t, i, w).mem && Write(ph, t, i, w).mem[q] == ph.mem[q]
  {
    PageWords(ph, t);
  }

  lemma GrowEffect(ph: Phys, t: nat, i: nat, p: nat)
    requires PhysOk(ph) && t in ph.pool.used && i < Entries
    requires ph.pool.lo <= p < ph.pool.hi && p !in ph.pool.used
    ensures PhysOk(Grow(ph, t, i, p)) && Grow(ph, t, i, p).pool == Take(ph.pool, p)
    ensures forall u, j :: Word(Grow(ph, t, i, p), u, j) == if u == p then 0 else if u == t && j == i then BranchTo(p) else Word(ph, u, j)
    ensures forall q :: q != t && q != p && q in ph.mem ==> q in Grow(ph, t, i, p).mem && Grow(ph, t, i, p).mem[q] == ph.mem[q]
  {
    hide BranchTo, Write, Word;
    var z := ZeroPage(ph.(pool := Take(ph.pool, p)), p);
    ZeroEffect(ph, p);
    WriteEffect(z, t, i, BranchTo(p));
  }

  lemma ZeroEffect(ph: Phys, p: nat)
    requires PhysOk(ph) && ph.pool.lo <= p < ph.pool.hi
    ensures var z := ZeroPage(ph.(pool := Take(ph.pool, p)), p);
      PhysOk(z) && z.pool == Take(ph.pool, p) && forall u, j :: Word(z, u, j) == if u == p then 0 else Word(ph, u, j)
  {
  }

  lemma PruneEffect(ph: Phys, t: nat, i: nat, p: nat)
    requires PhysOk(ph) && t in ph.pool.used && i < Entries && p != t
    ensures PhysOk(Prune(ph, t, i, p)) && Prune(ph, t, i, p).pool == GiveBack(ph.pool, p)
    ensures forall u, j :: Word(Prune(ph, t, i, p), u, j) == if u == t && j == i then 0 else Word(ph, u, j)
    ensures forall q :: q != t && q in ph.mem ==> q in Prune(ph, t, i, p).mem && Prune(ph, t, i, p).mem[q] == ph.mem[q]
  {
    hide Write;
    WriteEffect(ph.(pool := GiveBack(ph.pool, p)), t, i, 0);
  }

  // ------------------------------------------------------ growing and pruning

  /** A zeroed page hung under entry i of table n extends the tree and changes no leaf. */
  lemma GrowTree(ph: Phys, tab: Tables, n: seq<nat>, i: nat, p: nat)
    requires TreeOk(ph, tab) && n in tab && |n| < 2 && i < Entries && Child(n, i) !in tab
    requires ph.pool.lo <= p < ph.pool.hi && p !in ph.pool.used
    ensures TreeOk(Grow(ph, tab[n], i, p), tab[Child(n, i) := p])
    ensures SameEntries(ph, tab, Grow(ph, tab[n], i, p), tab[Child(n, i) := p])
    ensures Framed(ph, tab, Grow(ph, tab[n], i, p), tab[Child(n, i) := p])
  {
    hide BranchTo, Grow, Word, PteValid, PteLeaf;
    var next := Grow(ph, tab[n], i, p);
    var more := tab[Child(n, i) := p];
    GrowEffect(ph, tab[n], i, p);
    ChildParent(n, i);
    assert Placed(next, more);
    assert Closed(more);
    GrowLinked(ph, tab, n, i, p);
    assert Leaves(next, more);
    assert more.Values == tab.Values + {p} by { GrownValues(tab, Child(n, i), p); }
    assert Foreign(next, more) == Foreign(ph, tab);
  }

  lemma GrownValues(tab: Tables, c: seq<nat>, p: nat)
    requires c !in tab
    ensures tab[c := p].Values == tab.Values + {p}
  {
    assert forall m :: m in tab ==> tab[c := p][m] == tab[m];
    assert tab[c := p][c] == p;
  }

  lemma GrowLinked(ph: Phys, tab: Tables, n: seq<nat>, i: nat, p: nat)
    requires TreeOk(ph, tab) && n in tab && |n| < 2 && i < Entries && Child(n, i) !in tab
    requires ph.pool.lo <= p < ph.pool.hi && p !in ph.pool.used
    ensures Linked(Grow(ph, tab[n], i, p), tab[Child(n, i) := p])
  {
    hide BranchTo, Grow, Word, Leaves;
    var next := Grow(ph, tab[n], i, p);
    var c := Child(n, i);
    var more := tab[c := p];
    GrowEffect(ph, tab[n], i, p);
    ChildParent(n, i);
    forall m, j | m in more && |m| < 2 && 0 <= j < Entries
      ensures Word(next, more[m], j) == EntryFor(more, m, j)
    {
      ChildParent(m, j);
      if m == c {
        assert Child(m, j) !in tab;
      } else {
        assert Word(ph, tab[m], j) == EntryFor(tab, m, j);
        if m != n {
          assert tab[m] != tab[n];
          assert Child(m, j) != c;
        }
      }
    }
  }

  function Drop(tab: Tables, c: seq<nat>): Tables {
    map m | m in tab && m != c :: tab[m]
  }

  /** A table without children is cut off and its page freed. */
  lemma PruneTree(ph: Phys, tab: Tables, n: seq<nat>, i: nat)
    requires TreeOk(ph, tab) && n in tab && |n| < 2 && i < Entries && Child(n, i) in tab
    requires forall j :: Child(Child(n, i), j) !in tab
    ensures var next := Prune(ph, tab[n], i, tab[Child(n, i)]);
      TreeOk(next, Drop(tab, Child(n, i))) && Framed(ph, tab, next, Drop(tab, Child(n, i)))
  {
    hide BranchTo, Prune, Word, PteValid, PteLeaf;
    var c := Child(n, i);
    var p := tab[c];
    var next := Prune(ph, tab[n], i, p);
    var less := Drop(tab, c);
    ChildParent(n, i);
    assert p != tab[n];
    PruneEffect(ph, tab[n], i, p);
    assert Placed(next, less);
    DropClosed(tab, c);
    PruneLinked(ph, tab, n, i);
    assert Leaves(next, less);
    assert less.Values == tab.Values - {p} by { DroppedValues(tab, c); }
    assert Foreign(next, less) == Foreign(ph, tab);
  }

  lemma DropClosed(tab: Tables, c: seq<nat>)
    requires Closed(tab) && forall j :: Child(c, j) !in tab
    ensures Closed(Drop(tab, c))
  {
    forall m | m in Drop(tab, c) && m != []
      ensures Parent(m) != c
    {
      assert m == Child(Parent(m), m[|m| - 1]);
    }
  }

  lemma DroppedValues(tab: Tables, c: seq<nat>)
    requires Separate(tab) && c in tab
    ensures Drop(tab, c).Values == tab.Values - {tab[c]}
  {
    var less := Drop(tab, c);
    forall v | v in tab.Values && v != tab[c]
      ensures v in less.Values
    {
      var m :| m in tab && tab[m] == v;
      assert less[m] == v;
    }
  }

  lemma PruneLinked(ph: Phys, tab: Tables, n: seq<nat>, i: nat)
    requires TreeOk(ph, tab) && n in tab && |n| < 2 && i < Entries && Child(n, i) in tab
    ensures Linked(Prune(ph, tab[n], i, tab[Child(n, i)]), Drop(tab, Child(n, i)))
  {
    hide BranchTo, Prune, Word, Leaves;
    var c := Child(n, i);
    var next := Prune(ph, tab[n], i, tab[c]);
    var less := Drop(tab, c);
    ChildParent(n, i);
    PruneEffect(ph, tab[n], i, tab[c]);
    forall m, j | m in less && |m| < 2 && 0 <= j < Entries
      ensures Word(next, less[m], j) == EntryFor(less, m, j)
    {
      ChildParent(m, j);
      assert Word(ph, tab[m], j) == EntryFor(tab, m, j);
      if m != n {
        assert tab[m] != tab[n];
        assert Child(m, j) != c;
      }
    }
  }

  /** Writing one leaf entry changes that key and nothing else. */
  lemma WriteLeaf(ph: Phys, tab: Tables, k: seq<nat>, w: nat)
    requires TreeOk(ph, tab) && IsKey(k) && k[..2] in tab && LeafOrEmpty(w)
    ensures var next := Write(ph, tab[k[..2]], k[2], w);
      && TreeOk(next, tab) && Framed(ph, tab, next, tab)
      && forall j | IsKey(j) :: Entry(next, tab, j) == if j == k then w else Entry(ph, tab, j)
  {
    hide BranchTo, Write, Word, PteValid, PteLeaf;
    WriteEffect(ph, tab[k[..2]], k[2], w);
    var next := Write(ph, tab[k[..2]], k[2], w);
    assert Linked(next, tab);
    forall j | IsKey(j)
      ensures Entry(next, tab, j) == if j == k then w else Entry(ph, tab, j)
    {
      if j[..2] == k[..2] && j[2] == k[2] {
        assert j == j[..2] + [j[2]] && k == k[..2] + [k[2]];
      }
    }
  }
}
