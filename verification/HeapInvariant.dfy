/** What the whole heap keeps: every page in order, every pool's chain, and the byte counters. */
module HeapInvariant {
  import opened SeqTools
  import opened Bitmaps
  import opened Pages
  import opened HeapPages

  type Heads = map<nat, HeapPage>
  type Lists = map<nat, seq<nat>>

  ghost predicate PagesOk(heads: Heads, link: map<nat, nat>, lists: Lists) {
    && lists.Keys == heads.Keys
    && forall p :: p in heads ==> PageOk(p, heads[p], link, lists[p])
  }

  /** The pages of a pool, from the address of its first page on. */
  ghost predicate Chain(heads: Heads, at: nat, list: seq<nat>)
    decreases |list|
  {
    if list == [] then at == 0
    else at == list[0] * PageSize && at > 0 && list[0] in heads && Chain(heads, heads[list[0]].next, list[1..])
  }

  /** Each pool chains exactly the pages of its class. */
  ghost predicate ChainsOk(heads: Heads, pools: seq<nat>, chains: seq<seq<nat>>) {
    && |pools| == ClassCount && |chains| == ClassCount
    && (forall c :: 0 <= c < ClassCount ==> Chain(heads, pools[c], chains[c]))
    && (forall c, p :: 0 <= c < ClassCount && p in chains[c] ==> p in heads && heads[p].classIndex == c)
    && forall p :: p in heads ==> heads[p].classIndex < ClassCount && p in chains[heads[p].classIndex]
  }

  function FreeIn(heads: Heads, p: nat): nat {
    if p in heads then heads[p].freeCount * heads[p].blockSize else 0
  }

  function UsedIn(heads: Heads, p: nat): int {
    if p in heads then (heads[p].blockCount - heads[p].freeCount) * heads[p].blockSize else 0
  }

  function SumFree(heads: Heads, order: seq<nat>): int
    decreases |order|
  {
    if order == [] then 0 else FreeIn(heads, order[0]) + SumFree(heads, order[1..])
  }

  function SumUsed(heads: Heads, order: seq<nat>): int
    decreases |order|
  {
    if order == [] then 0 else UsedIn(heads, order[0]) + SumUsed(heads, order[1..])
  }

  /** All block bytes of the heap. */
  function Total(heads: Heads, order: seq<nat>): int
    decreases |order|
  {
    if order == [] then 0
    else (if order[0] in heads then heads[order[0]].blockCount * heads[order[0]].blockSize else 0) + Total(heads, order[1..])
  }

  /** The counters count the pages in order, each page once. */
  ghost predicate CountsOk(heads: Heads, order: seq<nat>, pageCount: nat, freeBytes: int, allocatedBytes: int) {
    && Distinct(order) && (forall p :: p in order <==> p in heads)
    && pageCount == |order| && freeBytes == SumFree(heads, order) && allocatedBytes == SumUsed(heads, order)
  }

  /** Free bytes and allocated bytes make up all block bytes. */
  lemma {:induction false} BytesConserved(heads: Heads, order: seq<nat>)
    ensures SumFree(heads, order) + SumUsed(heads, order) == Total(heads, order)
    decreases |order|
  {
    if order != [] {
      BytesConserved(heads, order[1..]);
      if order[0] in heads {
        var h := heads[order[0]];
        assert h.freeCount * h.blockSize + (h.blockCount - h.freeCount) * h.blockSize == h.blockCount * h.blockSize;
      }
    }
  }

  // ------------------------------------------------------ changing one page

  lemma {:induction false} SumsAbsent(heads: Heads, p: nat, h: HeapPage, order: seq<nat>)
    requires p !in order
    ensures SumFree(heads[p := h], order) == SumFree(heads, order)
    ensures SumUsed(heads[p := h], order) == SumUsed(heads, order)
    decreases |order|
  {
    if order != [] {
      assert order[0] in order;
      SumsAbsent(heads, p, h, order[1..]);
    }
  }

  lemma {:induction false} SumsChange(heads: Heads, p: nat, h: HeapPage, order: seq<nat>)
    requires Distinct(order) && p in order
    ensures SumFree(heads[p := h], order) == SumFree(heads, order) - FreeIn(heads, p) + FreeIn(heads[p := h], p)
    ensures SumUsed(heads[p := h], order) == SumUsed(heads, order) - UsedIn(heads, p) + UsedIn(heads[p := h], p)
    decreases |order|
  {
    hide FreeIn, UsedIn;
    TailMembers(order);
    if order[0] == p {
      SumsAbsent(heads, p, h, order[1..]);
    } else {
      assert FreeIn(heads[p := h], order[0]) == FreeIn(heads, order[0]) by { SamePage(heads, p, h, order[0]); }
      assert UsedIn(heads[p := h], order[0]) == UsedIn(heads, order[0]) by { SamePage(heads, p, h, order[0]); }
      SumsChange(heads, p, h, order[1..]);
    }
  }

  lemma SamePage(heads: Heads, p: nat, h: HeapPage, q: nat)
    requires p != q
    ensures FreeIn(heads[p := h], q) == FreeIn(heads, q) && UsedIn(heads[p := h], q) == UsedIn(heads, q)
  {
  }

  lemma {:induction false} ChainKept(heads: Heads, p: nat, h: HeapPage, at: nat, list: seq<nat>)
    requires Chain(heads, at, list) && (p in heads ==> h.next == heads[p].next)
    requires p !in heads ==> p !in list
    ensures Chain(heads[p := h], at, list)
    decreases |list|
  {
    if list != [] {
      assert list[0] in list;
      ChainKept(heads, p, h, heads[list[0]].next, list[1..]);
    }
  }

  /** A page whose class and successor stay the same leaves every chain as it is. */
  lemma ChainsKept(heads: Heads, pools: seq<nat>, chains: seq<seq<nat>>, p: nat, h: HeapPage)
    requires ChainsOk(heads, pools, chains) && p in heads && h.next == heads[p].next && h.classIndex == heads[p].classIndex
    ensures ChainsOk(heads[p := h], pools, chains)
  {
    hide Chain;
    forall c | 0 <= c < ClassCount
      ensures Chain(heads[p := h], pools[c], chains[c])
    {
      ChainKept(heads, p, h, pools[c], chains[c]);
    }
  }

  /** A new page goes in front of its pool. */
  lemma ChainsGrown(heads: Heads, pools: seq<nat>, chains: seq<seq<nat>>, p: nat, h: HeapPage)
    requires ChainsOk(heads, pools, chains) && p !in heads && p > 0
    requires h.classIndex < ClassCount && h.next == pools[h.classIndex]
    ensures |pools| == ClassCount && |chains| == ClassCount
    ensures ChainsOk(heads[p := h], pools[h.classIndex := p * PageSize], chains[h.classIndex := [p] + chains[h.classIndex]])
  {
    hide Chain;
    var c := h.classIndex;
    forall d | 0 <= d < ClassCount
      ensures Chain(heads[p := h], pools[d], chains[d])
    {
      ChainKept(heads, p, h, pools[d], chains[d]);
    }
    ChainFront(heads[p := h], p, chains[c]);
  }

  lemma ChainFront(heads: Heads, p: nat, list: seq<nat>)
    requires p > 0 && p in heads && Chain(heads, heads[p].next, list)
    ensures Chain(heads, p * PageSize, [p] + list)
  {
    assert ([p] + list)[1..] == list;
  }

  /** After a change to page p and to link a inside it, every page is in order if p is. */
  lemma PagesKept(heads: Heads, link: map<nat, nat>, lists: Lists, p: nat, h: HeapPage, list: seq<nat>, a: nat, v: nat)
    requires PagesOk(heads, link, lists) && a / PageSize == p && PageOk(p, h, link[a := v], list)
    ensures PagesOk(heads[p := h], link[a := v], lists[p := list])
  {
    hide PageOk;
    forall q | q in heads && q != p
      ensures PageOk(q, heads[q], link[a := v], lists[q])
    {
      OtherPageOk(q, heads[q], link, lists[q], a, v);
    }
  }

  // ------------------------------------------------------------ heap steps

  datatype HeapState = HeapState(pools: seq<nat>, heads: Heads, link: map<nat, nat>,
                                 pageCount: nat, freeBytes: int, allocatedBytes: int)

  /** What the proof tracks: each page's free list, each pool's chain, and all pages once. */
  datatype Trace = Trace(lists: Lists, chains: seq<seq<nat>>, order: seq<nat>)

  ghost predicate HeapInv(s: HeapState, t: Trace) {
    && PagesOk(s.heads, s.link, t.lists) && ChainsOk(s.heads, s.pools, t.chains)
    && CountsOk(s.heads, t.order, s.pageCount, s.freeBytes, s.allocatedBytes)
  }

  /** In every reachable heap, free and allocated bytes make up all block bytes. */
  lemma HeapBytes(s: HeapState, t: Trace)
    requires HeapInv(s, t)
    ensures s.freeBytes + s.allocatedBytes == Total(s.heads, t.order) && s.pageCount == |t.order|
  {
    hide PagesOk, ChainsOk;
    BytesConserved(s.heads, t.order);
  }

  function IndexIn(p: nat, h: HeapPage, a: nat): int {
    if h.blockSize > 0 then (a - (p * PageSize + HeaderSize)) / h.blockSize else 0
  }

  /** heap_alloc_block on page p. */
  function TakeBlock(s: HeapState, p: nat): HeapState
    requires p in s.heads && s.heads[p].freeCount > 0 && s.heads[p].freeList in s.link
    requires 0 <= IndexIn(p, s.heads[p], s.heads[p].freeList) < 64 * |s.heads[p].words|
  {
    var h := s.heads[p];
    s.(heads := s.heads[p := Allocated(h, s.link[h.freeList], IndexIn(p, h, h.freeList))],
       freeBytes := s.freeBytes - h.blockSize, allocatedBytes := s.allocatedBytes + h.blockSize)
  }

  /** kfree of block i of page p. */
  function GiveBlock(s: HeapState, p: nat, i: nat): HeapState
    requires p in s.heads && i < 64 * |s.heads[p].words|
  {
    var h := s.heads[p];
    var a := BlockAddr(p, h.blockSize, i);
    s.(heads := s.heads[p := Freed(h, a, i)], link := s.link[a := h.freeList],
       freeBytes := s.freeBytes + h.blockSize, allocatedBytes := s.allocatedBytes - h.blockSize)
  }

  /** A page with a free block passes the checks of heap_alloc_block. */
  lemma MayTake(s: HeapState, t: Trace, p: nat)
    requires HeapInv(s, t) && p in s.heads && s.heads[p].freeCount > 0
    ensures var h := s.heads[p];
      && h.freeList > 0 && h.freeList in s.link && h.freeList / PageSize == p && h.blockSize > 0
      && 0 <= IndexIn(p, h, h.freeList) < h.blockCount < 64 * |h.words| && !Taken(h, IndexIn(p, h, h.freeList))
      && h.freeList == BlockAddr(p, h.blockSize, IndexIn(p, h, h.freeList))
      && t.lists[p] != [] && t.lists[p][0] == IndexIn(p, h, h.freeList)
  {
    hide Bit, Threads;
    var h := s.heads[p];
    HeadBlock(p, h, s.link, t.lists[p]);
    CountBound(h);
    BlockPlace(p, h.classIndex, t.lists[p][0]);
  }

  /** Taking the head block keeps the heap in order, and makes just that block live. */
  lemma TakeKeeps(s: HeapState, t: Trace, p: nat) returns (u: Trace)
    requires HeapInv(s, t) && p in s.heads && s.heads[p].freeCount > 0
    requires s.heads[p].freeList in s.link && 0 <= IndexIn(p, s.heads[p], s.heads[p].freeList) < 64 * |s.heads[p].words|
    ensures HeapInv(TakeBlock(s, p), u)
    ensures var a, n := s.heads[p].freeList, TakeBlock(s, p).heads;
      && !LiveAt(s.heads, a) && (forall b :: LiveAt(n, b) <==> b == a || LiveAt(s.heads, b))
      && forall b :: SizeAt(n, b) == SizeAt(s.heads, b)
  {
    hide PageOk, Chain, SumFree, SumUsed, Bit, SetBit, LiveAt, BlockAddr;
    MayTake(s, t, p);
    var h, list := s.heads[p], t.lists[p];
    AllocatedOk(p, h, s.link, list);
    var n := Allocated(h, s.link[h.freeList], list[0]);
    u := t.(lists := t.lists[p := list[1..]]);
    SameLink(s.link, h.freeList);
    PagesKept(s.heads, s.link, t.lists, p, n, list[1..], h.freeList, s.link[h.freeList]);
    ChainsKept(s.heads, s.pools, t.chains, p, n);
    SumsChange(s.heads, p, n, t.order);
    Shifted(s.heads, p, n);
    OneMoreLive(s, t, p, n, list[0]);
  }

  lemma SameLink(link: map<nat, nat>, a: nat)
    requires a in link
    ensures link[a := link[a]] == link
  {
  }

  /** The sums of one page when its free count moves by one. */
  lemma Shifted(heads: Heads, p: nat, n: HeapPage)
    requires p in heads && n.blockSize == heads[p].blockSize && n.blockCount == heads[p].blockCount
    ensures n.freeCount == heads[p].freeCount - 1 ==>
      FreeIn(heads[p := n], p) == FreeIn(heads, p) - n.blockSize && UsedIn(heads[p := n], p) == UsedIn(heads, p) + n.blockSize
    ensures n.freeCount == heads[p].freeCount + 1 ==>
      FreeIn(heads[p := n], p) == FreeIn(heads, p) + n.blockSize && UsedIn(heads[p := n], p) == UsedIn(heads, p) - n.blockSize
  {
  }

  lemma ShapedPage(s: HeapState, t: Trace, p: nat)
    requires HeapInv(s, t) && p in s.heads
    ensures Shaped(s.heads[p])
  {
  }

  lemma OneMoreLive(s: HeapState, t: Trace, p: nat, n: HeapPage, i: nat)
    requires HeapInv(s, t) && p in s.heads && i < s.heads[p].blockCount && !Taken(s.heads[p], i)
    requires n.blockSize == s.heads[p].blockSize && n.blockCount == s.heads[p].blockCount
    requires forall j :: 0 <= j < n.blockCount ==> (Taken(n, j) <==> j == i || Taken(s.heads[p], j))
    ensures var a, m := BlockAddr(p, n.blockSize, i), s.heads[p := n];
      && !LiveAt(s.heads, a) && (forall b :: LiveAt(m, b) <==> b == a || LiveAt(s.heads, b))
      && forall b :: SizeAt(m, b) == SizeAt(s.heads, b)
  {
    hide PagesOk, ChainsOk, CountsOk, Taken, BlockAddr, ClassSize;
    ShapedPage(s, t, p);
    var a, m := BlockAddr(p, n.blockSize, i), s.heads[p := n];
    BlockPlace(p, s.heads[p].classIndex, i);
    forall b: nat
      ensures LiveAt(m, b) <==> b == a || LiveAt(s.heads, b)
    {
      if b / PageSize == p && b != a && b % PageSize >= HeaderSize {
        OtherIndex(p, s.heads[p], b, i);
      }
    }
  }

  /** A block start of the page other than block i has another index. */
  lemma OtherIndex(p: nat, h: HeapPage, b: nat, i: nat)
    requires Shaped(h) && i < h.blockCount && b / PageSize == p && b != BlockAddr(p, h.blockSize, i)
    requires b % PageSize >= HeaderSize
    ensures (b % PageSize - HeaderSize) % h.blockSize == 0 ==> (b % PageSize - HeaderSize) / h.blockSize != i
  {
    hide ClassSize;
    var off := b % PageSize - HeaderSize;
    assert off == off / h.blockSize * h.blockSize + off % h.blockSize;
  }

  /** Giving a live block back keeps the heap in order, and ends just that block's life. */
  lemma GiveKeeps(s: HeapState, t: Trace, p: nat, i: nat) returns (u: Trace)
    requires HeapInv(s, t) && p in s.heads && i < s.heads[p].blockCount && Taken(s.heads[p], i) && i < 64 * |s.heads[p].words|
    ensures HeapInv(GiveBlock(s, p, i), u)
    ensures var a, n := BlockAddr(p, s.heads[p].blockSize, i), GiveBlock(s, p, i).heads;
      && (forall b :: LiveAt(n, b) <==> b != a && LiveAt(s.heads, b))
      && forall b :: SizeAt(n, b) == SizeAt(s.heads, b)
  {
    hide PageOk, Chain, SumFree, SumUsed, FreeIn, UsedIn, Bit, ClearBit, LiveAt, BlockAddr, Taken, ClassSize, Shaped, SizeAt;
    ShapedPage(s, t, p);
    CountBound(s.heads[p]);
    var h, list := s.heads[p], t.lists[p];
    var a := BlockAddr(p, h.blockSize, i);
    FreedOk(p, h, s.link, list, i);
    BlockPlace(p, h.classIndex, i);
    var n := Freed(h, a, i);
    u := t.(lists := t.lists[p := [i] + list]);
    PagesKept(s.heads, s.link, t.lists, p, n, [i] + list, a, h.freeList);
    ChainsKept(s.heads, s.pools, t.chains, p, n);
    SumsChange(s.heads, p, n, t.order);
    Shifted(s.heads, p, n);
    OneLessLive(s, t, p, n, i);
  }

  lemma OneLessLive(s: HeapState, t: Trace, p: nat, n: HeapPage, i: nat)
    requires HeapInv(s, t) && p in s.heads && i < s.heads[p].blockCount
    requires n.blockSize == s.heads[p].blockSize && n.blockCount == s.heads[p].blockCount
    requires forall j :: 0 <= j < n.blockCount ==> (Taken(n, j) <==> j != i && Taken(s.heads[p], j))
    ensures var a, m := BlockAddr(p, n.blockSize, i), s.heads[p := n];
      && (forall b :: LiveAt(m, b) <==> b != a && LiveAt(s.heads, b))
      && forall b :: SizeAt(m, b) == SizeAt(s.heads, b)
  {
    hide PagesOk, ChainsOk, CountsOk, Taken, BlockAddr, ClassSize;
    ShapedPage(s, t, p);
    var a, m := BlockAddr(p, n.blockSize, i), s.heads[p := n];
    BlockPlace(p, s.heads[p].classIndex, i);
    forall b: nat
      ensures LiveAt(m, b) <==> b != a && LiveAt(s.heads, b)
    {
      if b / PageSize == p && b != a && b % PageSize >= HeaderSize {
        OtherIndex(p, s.heads[p], b, i);
      }
    }
  }

  /** A client may write what it likes anywhere into a live block. */
  lemma ClientKeeps(s: HeapState, t: Trace, a: nat, x: nat, v: nat)
    requires HeapInv(s, t) && LiveAt(s.heads, a) && a <= x < a + SizeAt(s.heads, a)
    ensures HeapInv(s.(link := s.link[x := v]), t)
  {
    hide PageOk, ChainsOk, CountsOk, Taken, BlockAddr;
    var p := a / PageSize;
    assert p in s.heads by { LiveHasPage(s.heads, a); }
    ShapedPage(s, t, p);
    LiveIsBlock(s.heads, a);
    LiveBlockOk(p, s.heads[p], s.link, t.lists[p], (a % PageSize - HeaderSize) / s.heads[p].blockSize, x, v);
    PagesKept(s.heads, s.link, t.lists, p, s.heads[p], t.lists[p], x, v);
    assert s.heads[p := s.heads[p]] == s.heads && t.lists[p := t.lists[p]] == t.lists;
  }

  lemma LiveHasPage(heads: Heads, a: nat)
    requires LiveAt(heads, a)
    ensures a / PageSize in heads
  {
  }

  // ---------------------------------------------------------------- growing

  /** heap_grow_pool's loop: the links after the first n blocks have been threaded. */
  function Threaded(link: map<nat, nat>, p: nat, size: nat, n: nat): map<nat, nat> {
    if n == 0 then link
    else Threaded(link, p, size, n - 1)[BlockAddr(p, size, n - 1) := if n == 1 then 0 else BlockAddr(p, size, n - 2)]
  }

  /** The free list those links make: the last block first. */
  function Descending(n: nat): seq<nat> {
    if n == 0 then [] else [n - 1] + Descending(n - 1)
  }

  lemma {:induction false} DescendingMembers(n: nat)
    ensures |Descending(n)| == n && forall j :: 0 <= j < n ==> Descending(n)[j] == n - 1 - j
    ensures Distinct(Descending(n)) && forall i: nat :: i in Descending(n) <==> i < n
  {
    if n > 0 {
      DescendingMembers(n - 1);
    }
    forall i: nat | i < n
      ensures i in Descending(n)
    {
      assert Descending(n)[n - 1 - i] == i;
    }
  }

  lemma {:induction false} ThreadedOk(link: map<nat, nat>, p: nat, c: nat, n: nat)
    requires c < ClassCount && n <= BlockCount(ClassSize(c)) && p > 0
    ensures Threads(Threaded(link, p, ClassSize(c), n), if n == 0 then 0 else BlockAddr(p, ClassSize(c), n - 1), p, ClassSize(c), Descending(n))
    decreases n
  {
    hide ClassSize, BlockAddr, BlockCount, Threads, Threaded, Descending;
    var size := ClassSize(c);
    if n > 0 {
      ThreadedOk(link, p, c, n - 1);
      DescendingMembers(n - 1);
      var a := BlockAddr(p, size, n - 1);
      forall i | i in Descending(n - 1)
        ensures BlockAddr(p, size, i) != a
      {
        BlockPlace(p, c, i);
        BlockPlace(p, c, n - 1);
      }
      var at := if n == 1 then 0 else BlockAddr(p, size, n - 2);
      ThreadsKept(Threaded(link, p, size, n - 1), a, at, at, p, size, Descending(n - 1));
      OneMoreThread(link, p, size, n, at);
    } else {
      NoThreads(link, p, size);
    }
  }

  lemma NoThreads(link: map<nat, nat>, p: nat, size: nat)
    ensures Threads(Threaded(link, p, size, 0), 0, p, size, Descending(0))
  {
  }

  lemma OneMoreThread(link: map<nat, nat>, p: nat, size: nat, n: nat, at: nat)
    requires n > 0 && at == if n == 1 then 0 else BlockAddr(p, size, n - 2)
    requires Threads(Threaded(link, p, size, n - 1)[BlockAddr(p, size, n - 1) := at], at, p, size, Descending(n - 1))
    ensures Threads(Threaded(link, p, size, n), BlockAddr(p, size, n - 1), p, size, Descending(n))
  {
    hide BlockAddr;
    assert Descending(n)[1..] == Descending(n - 1);
  }

  /** Threading a page writes into that page only. */
  lemma {:induction false} ThreadedElsewhere(link: map<nat, nat>, p: nat, c: nat, n: nat, b: nat)
    requires c < ClassCount && n <= BlockCount(ClassSize(c)) && b / PageSize != p
    ensures b in Threaded(link, p, ClassSize(c), n) <==> b in link
    ensures b in link ==> Threaded(link, p, ClassSize(c), n)[b] == link[b]
    decreases n
  {
    hide ClassSize, BlockAddr, BlockCount;
    if n > 0 {
      ThreadedElsewhere(link, p, c, n - 1, b);
      BlockPlace(p, c, n - 1);
    }
  }

  lemma {:induction false} OtherPageThreaded(q: nat, h: HeapPage, link: map<nat, nat>, list: seq<nat>, p: nat, c: nat, n: nat)
    requires c < ClassCount && n <= BlockCount(ClassSize(c)) && PageOk(q, h, link, list) && q != p
    ensures PageOk(q, h, Threaded(link, p, ClassSize(c), n), list)
    decreases n
  {
    hide ClassSize, BlockAddr, BlockCount, PageOk;
    if n > 0 {
      OtherPageThreaded(q, h, link, list, p, c, n - 1);
      BlockPlace(p, c, n - 1);
      var a := BlockAddr(p, ClassSize(c), n - 1);
      OtherPageOk(q, h, Threaded(link, p, ClassSize(c), n - 1), list, a, if n == 1 then 0 else BlockAddr(p, ClassSize(c), n - 2));
    }
  }

  /** The header heap_grow_pool writes. */
  function NewPage(p: nat, c: nat, next: nat): HeapPage
    requires c < ClassCount
  {
    var size := ClassSize(c);
    var n := BlockCount(size);
    HeapPage(HeapMagic, size, n, n, c, if n == 0 then 0 else BlockAddr(p, size, n - 1), next, [0, 0])
  }

  /** heap_grow_pool with page p. */
  function Grown(s: HeapState, c: nat, p: nat): HeapState
    requires c < ClassCount && |s.pools| == ClassCount
  {
    var h := NewPage(p, c, s.pools[c]);
    HeapState(s.pools[c := p * PageSize], s.heads[p := h], Threaded(s.link, p, h.blockSize, h.blockCount),
              s.pageCount + 1, s.freeBytes + h.blockCount * h.blockSize, s.allocatedBytes)
  }

  lemma NewPageOk(link: map<nat, nat>, p: nat, c: nat, next: nat)
    requires c < ClassCount && p > 0
    ensures var h := NewPage(p, c, next);
      && h.freeCount > 0 && PageOk(p, h, Threaded(link, p, h.blockSize, h.blockCount), Descending(h.blockCount))
      && forall i :: !Taken(h, i)
  {
    hide Threads, Bit, BlockAddr, ClassSize;
    var h := NewPage(p, c, next);
    assert BlockCount(h.blockSize) > 0 by { SomeBlocks(c); }
    assert Shaped(h);
    CountBound(h);
    ThreadedOk(link, p, c, h.blockCount);
    DescendingMembers(h.blockCount);
    forall i: nat
      ensures !Taken(h, i)
    {
      if i < 128 {
        ZeroBits(h.words, i);
      }
    }
  }

  lemma SomeBlocks(c: nat)
    requires c < ClassCount
    ensures BlockCount(ClassSize(c)) > 0
  {
  }

  /** A new page keeps the heap in order and makes nothing live. */
  lemma GrowKeeps(s: HeapState, t: Trace, c: nat, p: nat) returns (u: Trace)
    requires HeapInv(s, t) && c < ClassCount && p !in s.heads && p > 0
    ensures |s.pools| == ClassCount && HeapInv(Grown(s, c, p), u)
    ensures p in Grown(s, c, p).heads && Grown(s, c, p).heads[p].freeCount > 0
    ensures forall b :: LiveAt(Grown(s, c, p).heads, b) <==> LiveAt(s.heads, b)
    ensures forall b :: LiveAt(s.heads, b) ==> SizeAt(Grown(s, c, p).heads, b) == SizeAt(s.heads, b)
  {
    hide PageOk, Chain, SumFree, SumUsed, ClassSize, BlockCount, Threaded, Descending, NewPage, Taken, LiveAt, SizeAt;
    var h := NewPage(p, c, s.pools[c]);
    NewFields(p, c, s.pools[c]);
    NewPageOk(s.link, p, c, s.pools[c]);
    u := Trace(t.lists[p := Descending(h.blockCount)], t.chains[c := [p] + t.chains[c]], [p] + t.order);
    PagesGrown(s.heads, s.link, t.lists, c, p, h, Descending(h.blockCount));
    ChainsGrown(s.heads, s.pools, t.chains, p, h);
    CountsGrown(s.heads, t.order, p, h);
    NothingNewLive(s.heads, p, h);
  }

  lemma PagesGrown(heads: Heads, link: map<nat, nat>, lists: Lists, c: nat, p: nat, h: HeapPage, list: seq<nat>)
    requires PagesOk(heads, link, lists) && c < ClassCount && p !in heads
    requires h.blockSize == ClassSize(c) && h.blockCount == BlockCount(h.blockSize)
    requires PageOk(p, h, Threaded(link, p, h.blockSize, h.blockCount), list)
    ensures PagesOk(heads[p := h], Threaded(link, p, h.blockSize, h.blockCount), lists[p := list])
  {
    hide PageOk, ClassSize, BlockCount, Threaded;
    forall q | q in heads
      ensures PageOk(q, heads[q], Threaded(link, p, h.blockSize, h.blockCount), lists[q])
    {
      OtherPageThreaded(q, heads[q], link, lists[q], p, c, h.blockCount);
    }
  }

  lemma NothingNewLive(heads: Heads, p: nat, h: HeapPage)
    requires p !in heads && forall i :: !Taken(h, i)
    ensures forall b :: LiveAt(heads[p := h], b) <==> LiveAt(heads, b)
    ensures forall b :: LiveAt(heads, b) ==> SizeAt(heads[p := h], b) == SizeAt(heads, b)
  {
    hide Taken;
  }

  lemma NewFields(p: nat, c: nat, next: nat)
    requires c < ClassCount
    ensures var h := NewPage(p, c, next);
      h.magic == HeapMagic && h.blockSize == ClassSize(c) && h.blockCount == BlockCount(h.blockSize) == h.freeCount && h.classIndex == c && h.next == next
  {
  }

  lemma CountsGrown(heads: Heads, order: seq<nat>, p: nat, h: HeapPage)
    requires Distinct(order) && (forall q :: q in order <==> q in heads) && p !in heads && h.freeCount == h.blockCount
    ensures Distinct([p] + order) && (forall q :: q in [p] + order <==> q in heads[p := h])
    ensures SumFree(heads[p := h], [p] + order) == SumFree(heads, order) + h.blockCount * h.blockSize
    ensures SumUsed(heads[p := h], [p] + order) == SumUsed(heads, order)
  {
    SumsAbsent(heads, p, h, order);
    assert ([p] + order)[1..] == order;
  }
}
