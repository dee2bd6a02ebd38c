/** Sequences of page-table operations, on one address space and on several. */
module PageRuns {
  import opened SeqTools
  import opened Pages
  import opened Sv39
  import opened PageTables
  import opened PageTree
  import opened PageWalks
  import opened PageMaps
  import opened PageTeardown

  datatype VmOp =
    | MapOp(va: nat, pa: nat, flags: nat)
    | UnmapOp(va: nat)
    | TranslateOp(va: nat)
    | GetMappingOp(va: nat)

  datatype VmReply =
    | Status(st: VmStatus)
    | Address(pa: nat)
    | Found(mapping: Option<(nat, nat)>)

  function Perform(ph: Phys, root: nat, op: VmOp): (Phys, VmReply) {
    match op
    case MapOp(va, pa, flags) =>
      var (after, st) := MapPage(ph, Some(root), va, pa, flags);
      (after, Status(st))
    case UnmapOp(va) =>
      var (after, st) := UnmapPage(ph, Some(root), va);
      (after, Status(st))
    case TranslateOp(va) => (ph, Address(Translate(ph, Some(root), va)))
    case GetMappingOp(va) => (ph, Found(GetMapping(ph, Some(root), va)))
  }

  /** The replies a finite map may give; only the shortage of pages is left open. */
  ghost predicate Allowed(view: View, op: VmOp, reply: VmReply) {
    match op
    case MapOp(va, pa, flags) =>
      if !(PageVa(va) && MappingOk(Mapping(pa, flags))) then reply == Status(VmInvalid)
      else if va in view then reply == Status(VmExists)
      else reply == Status(VmOk) || reply == Status(VmNoMemory)
    case UnmapOp(va) =>
      reply == Status(if !PageVa(va) then VmInvalid else if va in view then VmOk else VmNotMapped)
    case TranslateOp(va) =>
      var at := Looked(view, va);
      reply == Address(if at.Some? then at.value.0 else TranslateInvalid)
    case GetMappingOp(va) => reply == Found(Looked(view, va))
  }

  /** The finite map after a reply: a success changes one key. */
  function Updated(view: View, op: VmOp, reply: VmReply): View {
    if reply != Status(VmOk) then view
    else match op
      case MapOp(va, pa, flags) => view[va := Mapping(pa, flags)]
      case UnmapOp(va) => view - {va}
      case _ => view
  }

  lemma StepRefines(ph: Phys, tab: Tables, view: View, op: VmOp) returns (more: Tables)
    requires TreeOk(ph, tab) && Agrees(ph, tab, view)
    ensures var (after, reply) := Perform(ph, tab[[]], op);
      && TreeOk(after, more) && Framed(ph, tab, after, more) && more[[]] == tab[[]]
      && Allowed(view, op, reply) && Agrees(after, more, Updated(view, op, reply))
      && (reply == Status(VmNoMemory) ==> SameUsed(ph, after) && FreeCount(ph.pool) < 2)
  {
    hide TreeOk, Agrees, Framed, SameUsed, MapPage, UnmapPage, Translate, GetMapping, Canonical, FlagsValid;
    RootTable(ph, tab);
    more := tab;
    match op
    case MapOp(va, pa, flags) =>
      more := MapRefines(ph, tab, view, va, pa, flags);
      AtMostTwo(tab, Path(va));
    case UnmapOp(va) => UnmapRefines(ph, tab, view, va);
    case TranslateOp(va) => TranslateRefines(ph, tab, view, va);
    case GetMappingOp(va) => GetMappingRefines(ph, tab, view, va);
  }

  lemma AtMostTwo(tab: Tables, k: seq<nat>)
    requires |k| == 3
    ensures Missing(tab, k, 2) <= 2
  {
    assert Missing(tab, k, 1) <= 1;
  }

  // ------------------------------------------------------------ one space

  function Performed(ph: Phys, root: nat, ops: seq<VmOp>): (Phys, seq<VmReply>)
    decreases |ops|
  {
    if ops == [] then (ph, []) else
      var (mid, reply) := Perform(ph, root, ops[0]);
      var (after, replies) := Performed(mid, root, ops[1..]);
      (after, [reply] + replies)
  }

  /** The finite map run on the same operations, given the replies. */
  ghost predicate Explains(view: View, ops: seq<VmOp>, replies: seq<VmReply>, end: View)
    decreases |ops|
  {
    if ops == [] then replies == [] && end == view
    else
      && replies != [] && Allowed(view, ops[0], replies[0])
      && Explains(Updated(view, ops[0], replies[0]), ops[1..], replies[1..], end)
  }

  /** Every sequence of operations on a tree is a sequence of operations on a finite map. */
  lemma {:induction false} RunRefines(ph: Phys, tab: Tables, view: View, ops: seq<VmOp>) returns (more: Tables, end: View)
    requires TreeOk(ph, tab) && Agrees(ph, tab, view)
    ensures var (after, replies) := Performed(ph, tab[[]], ops);
      && TreeOk(after, more) && Framed(ph, tab, after, more) && more[[]] == tab[[]]
      && Agrees(after, more, end) && Explains(view, ops, replies, end)
    decreases |ops|
  {
    hide TreeOk, Agrees, Framed, Perform, Allowed, Updated;
    RootTable(ph, tab);
    more, end := tab, view;
    if ops != [] {
      var (mid, reply) := Perform(ph, tab[[]], ops[0]);
      var tables := StepRefines(ph, tab, view, ops[0]);
      more, end := RunRefines(mid, tables, Updated(view, ops[0], reply), ops[1..]);
      var (after, replies) := Performed(mid, tab[[]], ops[1..]);
      FramedTrans(ph, tab, mid, tables, after, more);
      assert ([reply] + replies)[1..] == replies;
    }
  }

  /** Whatever has been done to a space since it was empty, every mapping it reports is of a whole
      frame, valid, readable or executable, and readable if it is writable. */
  lemma MappingsAcceptable(ph: Phys, tab: Tables, ops: seq<VmOp>, va: nat)
    requires TreeOk(ph, tab) && Agrees(ph, tab, map[])
    ensures [] in tab
    ensures var at := GetMapping(Performed(ph, tab[[]], ops).0, Some(tab[[]]), va);
      at.Some? ==>
        && at.value.0 % 4096 == va % 4096
        && at.value.1 < 256 && at.value.1 % 2 == 1 && at.value.1 / 2 % 8 in {1, 3, 4, 5, 7}
  {
    hide TreeOk, Framed, Performed, GetMapping, FlagsValid, Canonical, KeyEntry;
    RootTable(ph, tab);
    var more, end := RunRefines(ph, tab, map[], ops);
    GetMappingRefines(Performed(ph, tab[[]], ops).0, more, end, va);
    if Looked(end, va).Some? {
      FlagsByBits(end[AlignDown(va)].flags);
    }
  }

  /**
   * The whole life of a space: created, operated on in any way, destroyed.  Destruction is
   * refused exactly when a mapping is left, and once it succeeds the allocator and every
   * page in use before the creation are as they were.
   */
  lemma LifeConserves(ph: Phys, ops: seq<VmOp>) returns (end: View)
    requires PhysOk(ph) && FreeCount(ph.pool) > 0
    ensures var (made, root) := SpaceInit(ph);
      root.Some? &&
      var (used, replies) := Performed(made, root.value, ops);
      var (after, _, st) := SpaceDestroy(used, root);
      && Explains(map[], ops, replies, end)
      && (st == VmBusy <==> end != map[])
      && (st != VmBusy ==> st == VmOk && SameUsed(ph, after))
  {
    hide TreeOk, Agrees, SpaceInit, SpaceDestroy, Performed, Explains;
    InitTree(ph);
    var (made, root) := SpaceInit(ph);
    var tab: Tables := map[[] := root.value];
    var more;
    more, end := RunRefines(made, tab, map[], ops);
    var used := Performed(made, root.value, ops).0;
    DestroyTree(used, more, end);
    var (after, _, st) := SpaceDestroy(used, root);
    if st != VmBusy {
      FramedTrans(ph, map[], made, tab, used, more);
      FramedTrans(ph, map[], used, more, after, map[]);
      BackWhereItWas(ph, after);
    }
  }

  lemma BackWhereItWas(ph: Phys, after: Phys)
    requires PhysOk(ph) && PhysOk(after) && Framed(ph, map[], after, map[])
    ensures SameUsed(ph, after)
  {
    var none: Tables := map[];
    assert none.Values == {};
    assert Foreign(ph, none) == ph.pool.used && Foreign(after, none) == after.pool.used;
  }

  // --------------------------------------------------------- several spaces

  /** The tables of other live in pages in use that do not belong to tab. */
  ghost predicate Apart(ph: Phys, tab: Tables, other: Tables) {
    forall n :: n in other ==> other[n] in Foreign(ph, tab)
  }

  /** An operation on one tree leaves every other tree and its mappings alone. */
  lemma OtherSpaceKept(a: Phys, ta: Tables, b: Phys, tb: Tables, other: Tables, view: View)
    requires TreeOk(a, ta) && TreeOk(b, tb) && Framed(a, ta, b, tb)
    requires TreeOk(a, other) && Agrees(a, other, view) && Apart(a, ta, other)
    ensures TreeOk(b, other) && Agrees(b, other, view) && Apart(b, tb, other) && Apart(b, other, tb)
  {
    hide Path, Canonical, PteValid, PteLeaf, EntryFor, Encoded;
    assert forall n, i :: n in other ==> Word(a, other[n], i) == Word(b, other[n], i);
    assert Placed(b, other);
    assert Linked(b, other);
    assert Leaves(b, other);
    forall va | PageVa(va)
      ensures KeyEntry(b, other, va) == KeyEntry(a, other, va)
    {
    }
  }

  datatype SpaceOp = SpaceOp(space: nat, op: VmOp)

  ghost predicate SpacesOk(ph: Phys, tabs: seq<Tables>, views: seq<View>) {
    && |tabs| == |views|
    && (forall s :: 0 <= s < |tabs| ==> TreeOk(ph, tabs[s]) && Agrees(ph, tabs[s], views[s]))
    && (forall s, r :: 0 <= s < |tabs| && 0 <= r < |tabs| && s != r ==> Apart(ph, tabs[s], tabs[r]))
  }

  function PerformedIn(ph: Phys, roots: seq<nat>, ops: seq<SpaceOp>): (Phys, seq<VmReply>)
    requires forall o :: o in ops ==> o.space < |roots|
    decreases |ops|
  {
    if ops == [] then (ph, []) else
      assert ops[0] in ops;
      var (mid, reply) := Perform(ph, roots[ops[0].space], ops[0].op);
      var (after, replies) := PerformedIn(mid, roots, ops[1..]);
      (after, [reply] + replies)
  }

  ghost predicate ExplainsIn(views: seq<View>, ops: seq<SpaceOp>, replies: seq<VmReply>, end: seq<View>)
    decreases |ops|
  {
    if ops == [] then replies == [] && end == views
    else
      var s := ops[0].space;
      && replies != [] && s < |views| && Allowed(views[s], ops[0].op, replies[0])
      && ExplainsIn(views[s := Updated(views[s], ops[0].op, replies[0])], ops[1..], replies[1..], end)
  }

  lemma SpacesStep(ph: Phys, tabs: seq<Tables>, views: seq<View>, o: SpaceOp) returns (more: Tables)
    requires SpacesOk(ph, tabs, views) && o.space < |tabs|
    ensures [] in tabs[o.space]
    ensures var (after, reply) := Perform(ph, tabs[o.space][[]], o.op);
      && Allowed(views[o.space], o.op, reply) && [] in more && more[[]] == tabs[o.space][[]]
      && SpacesOk(after, tabs[o.space := more], views[o.space := Updated(views[o.space], o.op, reply)])
  {
    hide TreeOk, Agrees, Framed, Perform, Allowed, Updated, Apart;
    var s := o.space;
    RootTable(ph, tabs[s]);
    more := StepRefines(ph, tabs[s], views[s], o.op);
    var (after, reply) := Perform(ph, tabs[s][[]], o.op);
    RootTable(after, more);
    forall r | 0 <= r < |tabs| && r != s
      ensures TreeOk(after, tabs[r]) && Agrees(after, tabs[r], views[r])
      ensures Apart(after, more, tabs[r]) && Apart(after, tabs[r], more)
    {
      OtherSpaceKept(ph, tabs[s], after, more, tabs[r], views[r]);
    }
    forall r, u | 0 <= r < |tabs| && 0 <= u < |tabs| && r != u && r != s && u != s
      ensures Apart(after, tabs[r], tabs[u])
    {
      StillApart(ph, after, tabs[r], tabs[u]);
    }
  }

  lemma StillApart(a: Phys, b: Phys, r: Tables, u: Tables)
    requires Apart(a, r, u) && TreeOk(b, u)
    ensures Apart(b, r, u)
  {
  }

  ghost function Root(tab: Tables): nat {
    if [] in tab then tab[[]] else 0
  }

  /**
   * Interleaved operations on any number of live spaces: each space behaves as its own
   * finite map, whatever happens in the others.
   */
  lemma {:induction false} SpacesRefine(ph: Phys, tabs: seq<Tables>, views: seq<View>, roots: seq<nat>, ops: seq<SpaceOp>)
    returns (more: seq<Tables>, end: seq<View>)
    requires SpacesOk(ph, tabs, views) && |roots| == |tabs|
    requires forall s :: 0 <= s < |tabs| ==> Root(tabs[s]) == roots[s]
    requires forall o :: o in ops ==> o.space < |roots|
    ensures var (after, replies) := PerformedIn(ph, roots, ops);
      SpacesOk(after, more, end) && ExplainsIn(views, ops, replies, end)
    decreases |ops|
  {
    hide SpacesOk, Perform, Allowed, Updated;
    more, end := tabs, views;
    if ops != [] {
      var o := ops[0];
      assert o in ops;
      assert |tabs| == |views| by { SpacesLength(ph, tabs, views); }
      var one := SpacesStep(ph, tabs, views, o);
      var (mid, reply) := Perform(ph, roots[o.space], o.op);
      var tables := tabs[o.space := one];
      var seen := views[o.space := Updated(views[o.space], o.op, reply)];
      more, end := SpacesRefine(mid, tables, seen, roots, ops[1..]);
      var (after, replies) := PerformedIn(mid, roots, ops[1..]);
      assert ([reply] + replies)[1..] == replies;
    }
  }

  lemma SpacesLength(ph: Phys, tabs: seq<Tables>, views: seq<View>)
    requires SpacesOk(ph, tabs, views)
    ensures |tabs| == |views|
  {
  }
}
