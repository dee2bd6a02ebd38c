/** kernel/memory/heap.c in place: pools, page headers, threaded free lists and counters. */
module HeapMachine {
  import opened SeqTools
  import opened Bitmaps
  import opened Pages
  import opened PageBitmap
  import opened HeapPages
  import opened HeapInvariant

  class Heap {
    const pages: PageAllocator
    /** The address of the first page of each class, zero for none. */
    const pools: array<nat>
    /** The headers in heap pages, by page number. */
    var heads: Heads
    /** The words of the blocks, by address: the first word of a free block is the next free block. */
    var link: map<nat, nat>
    var pageCount: nat
    var freeBytes: int
    var allocatedBytes: int
    ghost var trace: Trace

    ghost function Now(): HeapState
      reads this, pools
    {
      HeapState(pools[..], heads, link, pageCount, freeBytes, allocatedBytes)
    }

    ghost predicate Valid()
      reads this, pools, pages, pages.bitmap
    {
      && pages.Valid() && NullFree(pages.pool) && pools as object != pages.bitmap as object
      && heads.Keys <= pages.pool.used && HeapInv(Now(), trace)
    }

    /** heap_init */
    constructor (allocator: PageAllocator)
      requires allocator.Valid() && NullFree(allocator.pool)
      ensures Valid() && fresh(pools) && pages == allocator && heads == map[] && allocatedBytes == 0 && freeBytes == 0
    {
      pages := allocator;
      var firsts := new nat[ClassCount];
      for i := 0 to ClassCount
        invariant forall k :: 0 <= k < i ==> firsts[k] == 0
      {
        firsts[i] := 0;
      }
      pools := firsts;
      heads, link := map[], map[];
      pageCount, freeBytes, allocatedBytes := 0, 0, 0;
      trace := Trace(map[], [[], [], [], [], [], [], []], []);
    }

    /** class_index_for_size: the smallest class that holds size bytes. */
    method ClassIndexForSize(size: nat) returns (c: Option<nat>)
      ensures c.None? <==> size == 0 || size > MaxClass
      ensures c.Some? ==> c.value < ClassCount && size <= ClassSize(c.value)
      ensures c.Some? ==> forall d :: 0 <= d < c.value ==> ClassSize(d) < size
    {
      if size == 0 || size > MaxClass {
        return None;
      }
      var i := 0;
      while size > ClassSize(i)
        invariant i < ClassCount && forall d :: 0 <= d < i ==> ClassSize(d) < size
        decreases ClassCount - i
      {
        i := i + 1;
      }
      c := Some(i);
    }

    /** heap_alloc_block: the head of the page's free list; neither panic can happen. */
    method AllocBlock(p: nat) returns (a: nat)
      requires Valid() && p in heads && heads[p].freeCount > 0
      modifies this
      ensures Valid() && pages.pool == old(pages.pool) && a > 0 && a == old(heads)[p].freeList && a / PageSize == p
      ensures BecomesLive(old(heads), heads, a) && SizeAt(heads, a) == old(heads)[p].blockSize
      ensures link == old(link) && pageCount == old(pageCount)
      ensures freeBytes == old(freeBytes) - SizeAt(heads, a) && allocatedBytes == old(allocatedBytes) + SizeAt(heads, a)
    {
      hide PagesOk, ChainsOk, CountsOk, Bit, SetBit, LiveAt;
      MayTake(Now(), trace, p);
      ghost var was := Now();
      ghost var next := TakeKeeps(was, trace, p);
      var h := heads[p];
      if h.freeList == 0 || h.freeCount == 0 {
        assert false;
      }
      a := h.freeList;
      var index := (a - (p * PageSize + HeaderSize)) / h.blockSize;
      if index >= h.blockCount || Bit(h.words, index) {
        assert false;
      }
      heads := heads[p := Allocated(h, link[a], index)];
      freeBytes := freeBytes - h.blockSize;
      allocatedBytes := allocatedBytes + h.blockSize;
      trace := next;
    }

    /** heap_grow_pool: a new page at the head of the pool, or none. */
    method GrowPool(c: nat) returns (page: Option<nat>)
      requires Valid() && c < ClassCount
      modifies this, pools, pages, pages.bitmap
      ensures Valid() && (page.None? <==> FreeCount(old(pages.pool)) == 0)
      ensures page.None? ==> Now() == old(Now()) && pages.pool == old(pages.pool)
      ensures page.Some? ==>
        && page.value in heads && page.value !in old(heads) && heads[page.value].freeCount > 0
        && heads[page.value].blockSize == ClassSize(c)
        && Now() == Grown(old(Now()), c, page.value) && Same(old(heads), heads)
        && FirstFree(old(pages.pool), old(pages.pool).lo) == page
    {
      hide PagesOk, ChainsOk, CountsOk, LiveAt, FirstFree, ClassSize, BlockCount, Threaded, BlockAddr;
      AllocPageFails(pages.pool);
      var raw := pages.Alloc();
      if raw.None? {
        return None;
      }
      var p := raw.value / PageSize;
      page := Some(p);
      ghost var was := Now();
      ghost var next := GrowKeeps(was, trace, c, p);
      NewFields(p, c, pools[c]);
      SomeBlocks(c);
      var size := ClassSize(c);
      var count := (PageSize - HeaderSize) / size;
      CountIs(c);
      if count == 0 || count > 128 {
        assert false;
      }
      var list := ThreadBlocks(p, c, count);
      heads := heads[p := HeapPage(HeapMagic, size, count, count, c, list, pools[c], [0, 0])];
      pools[c] := p * PageSize;
      pageCount := pageCount + 1;
      freeBytes := freeBytes + count * size;
      trace := next;
    }

    /** The loop of heap_grow_pool that threads the blocks of a new page. */
    method ThreadBlocks(p: nat, c: nat, count: nat) returns (list: nat)
      requires c < ClassCount && 0 < count
      modifies this`link
      ensures link == Threaded(old(link), p, ClassSize(c), count) && list == BlockAddr(p, ClassSize(c), count - 1)
    {
      hide ClassSize;
      var size := ClassSize(c);
      list := 0;
      for i := 0 to count
        invariant link == Threaded(old(link), p, size, i)
        invariant list == if i == 0 then 0 else BlockAddr(p, size, i - 1)
      {
        var block := p * PageSize + HeaderSize + i * size;
        link := link[block := list];
        list := block;
      }
    }

    /** kmalloc; zero stands for NULL. */
    method Kmalloc(size: nat) returns (a: nat)
      requires Valid()
      modifies this, pools, pages, pages.bitmap
      ensures Valid()
      ensures a == 0 <==> size == 0 || size > MaxClass || (Exhausted(old(heads), size) && FreeCount(old(pages.pool)) == 0)
      ensures a == 0 ==> Now() == old(Now()) && pages.pool == old(pages.pool)
      ensures a != 0 ==> BecomesLive(old(heads), heads, a) && Fits(size, SizeAt(heads, a))
      ensures a != 0 ==> allocatedBytes == old(allocatedBytes) + SizeAt(heads, a)
      ensures WordsKept(old(heads), old(link), link)
    {
      hide PagesOk, ChainsOk, CountsOk, LiveAt, FirstFree, ClassSize, Fits, SizeAt;
      var class_ := ClassIndexForSize(size);
      if class_.None? {
        return 0;
      }
      var p := PageWithRoom(size, class_.value);
      if p.None? {
        return 0;
      }
      a := AllocBlock(p.value);
    }

    /** kzalloc: a block from kmalloc, every word of it zero. */
    method Kzalloc(size: nat) returns (a: nat)
      requires Valid()
      modifies this, pools, pages, pages.bitmap
      ensures Valid()
      ensures a == 0 <==> size == 0 || size > MaxClass || (Exhausted(old(heads), size) && FreeCount(old(pages.pool)) == 0)
      ensures a != 0 ==> BecomesLive(old(heads), heads, a) && Fits(size, SizeAt(heads, a))
      ensures a != 0 ==> forall k :: 0 <= k < SizeAt(heads, a) / 8 ==> WordAt(link, a + 8 * k) == 0
      ensures WordsKept(old(heads), old(link), link)
    {
      hide PagesOk, ChainsOk, CountsOk, LiveAt, FirstFree, ClassSize, Fits, SizeAt;
      a := Kmalloc(size);
      if a == 0 {
        return;
      }
      assert LiveAt(heads, a);
      MayFree(Now(), trace, a);
      var p := a / PageSize;
      if p !in heads || heads[p].magic != HeapMagic {
        assert false;
      }
      ghost var mid := link;
      ZeroBlock(a, heads[p].blockSize);
      OthersKept(Now(), trace, old(heads), a, old(link), mid, link);
    }

    /** memory_zero over one live block, word by word. */
    method ZeroBlock(a: nat, size: nat)
      requires Valid() && LiveAt(heads, a) && size == SizeAt(heads, a)
      modifies this`link
      ensures Valid()
      ensures forall k :: 0 <= k < size / 8 ==> WordAt(link, a + 8 * k) == 0
      ensures forall x :: !(a <= x < a + size) && x in old(link) ==> x in link && link[x] == old(link)[x]
    {
      hide PagesOk, ChainsOk, CountsOk, LiveAt, SizeAt, FreeCount, FirstFree;
      for i := 0 to size / 8
        invariant Valid()
        invariant forall k :: 0 <= k < i ==> WordAt(link, a + 8 * k) == 0
        invariant forall x :: !(a <= x < a + size) && x in old(link) ==> x in link && link[x] == old(link)[x]
      {
        ClientKeeps(Now(), trace, a, a + 8 * i, 0);
        link := link[a + 8 * i := 0];
      }
    }

    /** A page with a free block of the given class, grown if need be. */
    method PageWithRoom(ghost size: nat, c: nat) returns (page: Option<nat>)
      requires Valid() && c < ClassCount && size <= ClassSize(c) && forall d :: 0 <= d < c ==> ClassSize(d) < size
      modifies this, pools, pages, pages.bitmap
      ensures Valid() && Same(old(heads), heads) && allocatedBytes == old(allocatedBytes)
      ensures page.None? <==> Exhausted(old(heads), size) && FreeCount(old(pages.pool)) == 0
      ensures page.None? ==> Now() == old(Now()) && pages.pool == old(pages.pool)
      ensures page.Some? ==> page.value in heads && heads[page.value].freeCount > 0 && Fits(size, heads[page.value].blockSize)
      ensures WordsKept(old(heads), old(link), link)
    {
      hide PagesOk, ChainsOk, CountsOk, LiveAt, FirstFree, ClassSize, Threaded, Fits, SizeAt, BlockCount;
      ghost var before, aux := Now(), trace;
      SmallestFits(size, c);
      AllShaped(before, trace);
      FoundOrNot(heads, size, c);
      var found := FindPage(c);
      if found != 0 {
        return Some(found / PageSize);
      }
      page := GrowPool(c);
      if page.Some? {
        LiveLinksKept(before, aux, c, page.value);
      }
    }

    /** kmalloc's search: the first page of the class with a free block. */
    method FindPage(c: nat) returns (at: nat)
      requires Valid() && c < ClassCount
      ensures at == 0 <==> forall p :: p in heads && heads[p].classIndex == c ==> heads[p].freeCount == 0
      ensures at != 0 ==> at / PageSize in heads && heads[at / PageSize].freeCount > 0 && heads[at / PageSize].classIndex == c
    {
      hide PagesOk, CountsOk, ChainsOk, Chain;
      ghost var rest := PoolChain(Now(), trace, c);
      at := pools[c];
      while at != 0 && heads[at / PageSize].freeCount == 0
        invariant Chain(heads, at, rest)
        invariant at != 0 ==> at / PageSize in heads && heads[at / PageSize].classIndex == c
        invariant forall p :: p in rest ==> p in heads && heads[p].classIndex == c
        invariant forall p :: p in heads && heads[p].classIndex == c && p !in rest ==> heads[p].freeCount == 0
        decreases |rest|
      {
        ChainStep(heads, at, rest);
        at := heads[at / PageSize].next;
        rest := rest[1..];
        ChainStep(heads, at, rest);
      }
      ChainStep(heads, at, rest);
    }

    /** kfree of a live block; zero is ignored. */
    method Kfree(a: nat)
      requires Valid() && (a != 0 ==> LiveAt(heads, a))
      modifies this
      ensures Valid() && pages.pool == old(pages.pool)
      ensures a != 0 ==> BecomesLive(heads, old(heads), a)
      ensures a != 0 ==> allocatedBytes == old(allocatedBytes) - SizeAt(heads, a) && freeBytes == old(freeBytes) + SizeAt(heads, a)
      ensures a == 0 ==> Now() == old(Now())
      ensures forall x :: x != a && x in old(link) ==> x in link && link[x] == old(link)[x]
    {
      hide PagesOk, ChainsOk, CountsOk, Bit, ClearBit, LiveAt, SizeAt, Shaped, FreeCount, FirstFree;
      if a == 0 {
        return;
      }
      var p := a / PageSize;
      MayFree(Now(), trace, a);
      var h := heads[p];
      PageManaged(pages.pool, p);
      if p * PageSize < pages.managedStart || p * PageSize >= pages.managedEnd {
        assert false;
      }
      if p !in heads || h.magic != HeapMagic {
        assert false;
      }
      if a % PageSize < HeaderSize {
        assert false;
      }
      var offset := a % PageSize - HeaderSize;
      if offset % h.blockSize != 0 {
        assert false;
      }
      var index := offset / h.blockSize;
      if index >= h.blockCount || !Bit(h.words, index) {
        assert false;
      }
      PutBack(p, a, index);
    }

    /** The second half of kfree, once its checks have passed. */
    method PutBack(p: nat, a: nat, index: nat)
      requires Valid() && p in heads && index < heads[p].blockCount && Taken(heads[p], index) && index < 64 * |heads[p].words|
      requires a == BlockAddr(p, heads[p].blockSize, index) && SizeAt(heads, a) == heads[p].blockSize && LiveAt(heads, a)
      modifies this
      ensures Valid() && pages.pool == old(pages.pool) && BecomesLive(heads, old(heads), a)
      ensures allocatedBytes == old(allocatedBytes) - SizeAt(heads, a) && freeBytes == old(freeBytes) + SizeAt(heads, a)
      ensures link == old(link)[a := old(heads)[p].freeList]
    {
      hide PagesOk, ChainsOk, CountsOk, Bit, ClearBit, LiveAt, SizeAt, Taken, FreeCount, FirstFree;
      ghost var next := GiveKeeps(Now(), trace, p, index);
      var h := heads[p];
      heads := heads[p := Freed(h, a, index)];
      link := link[a := h.freeList];
      freeBytes := freeBytes + h.blockSize;
      allocatedBytes := allocatedBytes - h.blockSize;
      trace := next;
    }
  }

  /** A live block passes every check of kfree. */
  lemma MayFree(s: HeapState, t: Trace, a: nat)
    requires HeapInv(s, t) && LiveAt(s.heads, a)
    ensures a / PageSize in s.heads
    ensures var h := s.heads[a / PageSize];
      && h.magic == HeapMagic && h.blockSize > 0 && a % PageSize >= HeaderSize && SizeAt(s.heads, a) == h.blockSize
      && (a % PageSize - HeaderSize) % h.blockSize == 0
      && BlockIndex(h, a) < h.blockCount < 64 * |h.words| && Taken(h, BlockIndex(h, a)) && Bit(h.words, BlockIndex(h, a))
      && a == BlockAddr(a / PageSize, h.blockSize, BlockIndex(h, a))
  {
    hide PagesOk, ChainsOk, CountsOk, Bit;
    LiveHasPage(s.heads, a);
    ShapedPage(s, t, a / PageSize);
    LiveIsBlock(s.heads, a);
    CountBound(s.heads[a / PageSize]);
  }

  /** The index kfree computes. */
  function BlockIndex(h: HeapPage, a: nat): nat {
    if h.blockSize > 0 && a % PageSize >= HeaderSize then (a % PageSize - HeaderSize) / h.blockSize else 0
  }

  lemma AllShaped(s: HeapState, t: Trace)
    requires HeapInv(s, t)
    ensures forall p :: p in s.heads ==> Shaped(s.heads[p])
  {
    forall p | p in s.heads
      ensures Shaped(s.heads[p])
    {
      ShapedPage(s, t, p);
    }
  }

  /** The pages of one pool. */
  lemma PoolChain(s: HeapState, t: Trace, c: nat) returns (list: seq<nat>)
    requires HeapInv(s, t) && c < ClassCount
    ensures |s.pools| == ClassCount && Chain(s.heads, s.pools[c], list)
    ensures forall p :: p in list <==> p in s.heads && s.heads[p].classIndex == c
    ensures s.pools[c] != 0 ==> s.pools[c] / PageSize in s.heads && s.heads[s.pools[c] / PageSize].classIndex == c
  {
    hide PagesOk, CountsOk;
    list := t.chains[c];
    ChainStep(s.heads, s.pools[c], list);
  }

  lemma ChainStep(heads: Heads, at: nat, list: seq<nat>)
    requires Chain(heads, at, list)
    ensures at == 0 <==> list == []
    ensures at != 0 ==>
      && at / PageSize == list[0] && list[0] in list && list[0] in heads && Chain(heads, heads[list[0]].next, list[1..])
      && forall p :: p in list ==> p == list[0] || p in list[1..]
  {
    if list != [] {
      assert list[0] * PageSize / PageSize == list[0];
    }
  }

  /** Between the two heaps, exactly block a has become live, and no size has changed. */
  ghost predicate BecomesLive(before: Heads, after: Heads, a: nat) {
    && !LiveAt(before, a) && (forall b :: LiveAt(after, b) <==> b == a || LiveAt(before, b))
    && forall b :: LiveAt(before, b) ==> SizeAt(after, b) == SizeAt(before, b)
  }

  /** The same blocks are live, with the same sizes. */
  ghost predicate Same(before: Heads, after: Heads) {
    && (forall b :: LiveAt(after, b) <==> LiveAt(before, b))
    && forall b :: LiveAt(before, b) ==> SizeAt(after, b) == SizeAt(before, b)
  }

  /** A block of n bytes serves a request of size bytes, and no smaller class would. */
  ghost predicate Fits(size: nat, n: nat) {
    size <= n && (exists c :: 0 <= c < ClassCount && ClassSize(c) == n) && forall c :: 0 <= c < ClassCount && ClassSize(c) < n ==> ClassSize(c) < size
  }

  /** In numbers: the least power of two from 32 to 2048 that holds the request. */
  lemma FitsInNumbers(size: nat, n: nat)
    requires 0 < size
    ensures Fits(size, n) <==> size <= n && n in {32, 64, 128, 256, 512, 1024, 2048} && (n == 32 || size > n / 2)
  {
    forall c | 0 <= c < ClassCount
      ensures ClassSize(c) in {32, 64, 128, 256, 512, 1024, 2048}
    {
    }
    assert ClassSize(0) == 32 && ClassSize(1) == 64 && ClassSize(2) == 128 && ClassSize(3) == 256;
    assert ClassSize(4) == 512 && ClassSize(5) == 1024 && ClassSize(6) == 2048;
  }

  /** No page of the class that serves size bytes has a free block. */
  ghost predicate Exhausted(heads: Heads, size: nat) {
    forall p :: p in heads && Fits(size, heads[p].blockSize) ==> heads[p].freeCount == 0
  }

  lemma SmallestFits(size: nat, c: nat)
    requires c < ClassCount && size <= ClassSize(c) && forall d :: 0 <= d < c ==> ClassSize(d) < size
    ensures forall d :: 0 <= d < ClassCount ==> (Fits(size, ClassSize(d)) <==> d == c)
  {
  }

  lemma FoundOrNot(heads: Heads, size: nat, c: nat)
    requires c < ClassCount && forall d :: 0 <= d < ClassCount ==> (Fits(size, ClassSize(d)) <==> d == c)
    requires forall p :: p in heads ==> Shaped(heads[p])
    ensures Exhausted(heads, size) <==> forall p :: p in heads && heads[p].classIndex == c ==> heads[p].freeCount == 0
  {
    hide Fits, ClassSize;
  }

  lemma CountIs(c: nat)
    requires c < ClassCount
    ensures 0 < (PageSize - HeaderSize) / ClassSize(c) == BlockCount(ClassSize(c)) <= 128
  {
  }

  function WordAt(link: map<nat, nat>, x: nat): nat {
    if x in link then link[x] else 0
  }

  /** Writing inside a new block leaves the words of every older one. */
  lemma OthersKept(s: HeapState, t: Trace, before: Heads, a: nat, first: map<nat, nat>, mid: map<nat, nat>, last: map<nat, nat>)
    requires HeapInv(s, t) && BecomesLive(before, s.heads, a) && WordsKept(before, first, mid)
    requires forall x :: !(a <= x < a + SizeAt(s.heads, a)) && x in mid ==> x in last && last[x] == mid[x]
    ensures WordsKept(before, first, last)
  {
    hide LiveAt, SizeAt, HeapInv;
    AllShaped(s, t);
    forall b: nat, x: nat | LiveAt(before, b) && b <= x < b + SizeAt(before, b) && x in first
      ensures x in last && last[x] == first[x]
    {
      LiveBlocksApart(s.heads, a, b);
    }
  }

  /** No word of a live block has changed. */
  ghost predicate WordsKept(heads: Heads, before: map<nat, nat>, after: map<nat, nat>) {
    forall b: nat, x: nat :: LiveAt(heads, b) && b <= x < b + SizeAt(heads, b) && x in before ==> x in after && after[x] == before[x]
  }

  lemma LiveLinksKept(s: HeapState, t: Trace, c: nat, p: nat)
    requires HeapInv(s, t) && c < ClassCount && p !in s.heads
    ensures WordsKept(s.heads, s.link, Threaded(s.link, p, ClassSize(c), BlockCount(ClassSize(c))))
  {
    hide ClassSize, BlockCount, Threaded, LiveAt, SizeAt, HeapInv;
    var n := BlockCount(ClassSize(c));
    forall b: nat, x: nat | LiveAt(s.heads, b) && b <= x < b + SizeAt(s.heads, b) && x in s.link
      ensures x in Threaded(s.link, p, ClassSize(c), n) && Threaded(s.link, p, ClassSize(c), n)[x] == s.link[x]
    {
      LiveInPage(s, t, b, x);
      ThreadedElsewhere(s.link, p, c, n, x);
    }
  }

  /** A live block lies in its heap page. */
  lemma LiveInPage(s: HeapState, t: Trace, b: nat, x: nat)
    requires HeapInv(s, t) && LiveAt(s.heads, b) && b <= x < b + SizeAt(s.heads, b)
    ensures x / PageSize == b / PageSize && b / PageSize in s.heads
  {
    hide PagesOk, ChainsOk, CountsOk, Taken;
    var p := b / PageSize;
    LiveHasPage(s.heads, b);
    ShapedPage(s, t, p);
    LiveIsBlock(s.heads, b);
    BlockPlace(p, s.heads[p].classIndex, (b % PageSize - HeaderSize) / s.heads[p].blockSize);
  }

  lemma PageManaged(m: Pool, p: nat)
    requires PoolOk(m) && p in m.used
    ensures m.lo * PageSize <= p * PageSize < m.hi * PageSize
  {
  }
}
