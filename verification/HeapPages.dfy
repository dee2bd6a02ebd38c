/**
 * One page of the size-class heap (kernel/memory/heap.c): a header, a bitmap, and free
 * blocks threaded by addresses stored in the blocks themselves.
 */
module HeapPages {
  import opened SeqTools
  import opened Bitmaps
  import opened Pages

  const ClassCount: nat := 7
  const MaxClass: nat := 2048
  /** sizeof(heap_page_t), already a multiple of the 16-byte alignment. */
  const HeaderSize: nat := 48
  const HeapAlignment: nat := 16

  /** HEAP_PAGE_MAGIC */
  const HeapMagic: nat := 0x5148_5254_4845_4150

  /** heap_page_t; addresses in freeList and next, zero for NULL. */
  datatype HeapPage = HeapPage(magic: nat, blockSize: nat, blockCount: nat, freeCount: nat, classIndex: nat,
                               freeList: nat, next: nat, words: seq<bv64>)

  /** heap_class_sizes */
  function ClassSize(c: nat): (r: nat)
    requires c < ClassCount
    ensures 32 <= r <= MaxClass && r % HeapAlignment == 0
  {
    [32, 64, 128, 256, 512, 1024, 2048][c]
  }

  function BlockCount(size: nat): nat
    requires size > 0
  {
    (PageSize - HeaderSize) / size
  }

  function BlockAddr(p: nat, size: nat, i: nat): nat {
    p * PageSize + HeaderSize + i * size
  }

  predicate Shaped(h: HeapPage) {
    && h.magic == HeapMagic && h.classIndex < ClassCount && h.blockSize == ClassSize(h.classIndex)
    && h.blockCount == BlockCount(h.blockSize) && |h.words| == 2
  }

  lemma CountBound(h: HeapPage)
    requires Shaped(h)
    ensures 0 < h.blockCount < 128 && h.blockCount * h.blockSize <= PageSize - HeaderSize
  {
  }

  /** Where block i of a page of class c lies, and how kfree finds i again. */
  lemma BlockPlace(p: nat, c: nat, i: nat)
    requires c < ClassCount && i < BlockCount(ClassSize(c))
    ensures var a, size := BlockAddr(p, ClassSize(c), i), ClassSize(c);
      && a / PageSize == p && a % PageSize == HeaderSize + i * size
      && (a % PageSize - HeaderSize) / size == i && (a % PageSize - HeaderSize) % size == 0
      && a % HeapAlignment == 0 && a + size <= (p + 1) * PageSize
  {
    hide ClassSize;
    var size := ClassSize(c);
    BlockFits(c, i);
    Multiple(i, size);
    InPagePlace(p, HeaderSize + i * size);
    AlignedBlock(p, c, i);
  }

  /** In numbers: the blocks of a page follow one another from byte 48 on, as many as fit. */
  lemma PageInNumbers(p: nat, c: nat, i: nat)
    requires c < ClassCount && i < BlockCount(ClassSize(c))
    ensures ClassSize(c) == [32, 64, 128, 256, 512, 1024, 2048][c]
    ensures BlockCount(ClassSize(c)) == [126, 63, 31, 15, 7, 3, 1][c]
    ensures BlockAddr(p, ClassSize(c), i) == 4096 * p + 48 + i * ClassSize(c) <= 4096 * p + 4096 - ClassSize(c)
  {
    BlockFits(c, i);
  }

  lemma BlockFits(c: nat, i: nat)
    requires c < ClassCount && i < BlockCount(ClassSize(c))
    ensures HeaderSize + i * ClassSize(c) + ClassSize(c) <= PageSize
  {
    hide ClassSize;
    var size := ClassSize(c);
    var n := BlockCount(size);
    assert n * size <= PageSize - HeaderSize;
    Steps(size, i, n);
  }

  lemma Multiple(i: nat, size: nat)
    requires size > 0
    ensures i * size / size == i && i * size % size == 0
  {
    var q, r := i * size / size, i * size % size;
    assert i * size == q * size + r;
    if q < i {
      Steps(size, q, i);
    } else if i < q {
      Steps(size, i, q);
    }
  }

  lemma InPagePlace(p: nat, off: nat)
    requires off < PageSize
    ensures (p * PageSize + off) / PageSize == p && (p * PageSize + off) % PageSize == off
  {
  }

  lemma AlignedBlock(p: nat, c: nat, i: nat)
    requires c < ClassCount
    ensures BlockAddr(p, ClassSize(c), i) % HeapAlignment == 0
  {
    var k := ClassSize(c) / HeapAlignment;
    assert i * ClassSize(c) == i * k * HeapAlignment;
    assert BlockAddr(p, ClassSize(c), i) == (p * 256 + 3 + i * k) * HeapAlignment;
  }

  /** The free list from address at visits the blocks of list, in order. */
  ghost predicate Threads(link: map<nat, nat>, at: nat, p: nat, size: nat, list: seq<nat>)
    decreases |list|
  {
    if list == [] then at == 0
    else at == BlockAddr(p, size, list[0]) && at in link && Threads(link, link[at], p, size, list[1..])
  }

  /** The free list enumerates, without repeats, exactly the blocks whose bitmap bit is clear. */
  ghost predicate PageOk(p: nat, h: HeapPage, link: map<nat, nat>, list: seq<nat>) {
    && Shaped(h) && p > 0 && Distinct(list) && h.freeCount == |list|
    && Threads(link, h.freeList, p, h.blockSize, list)
    && (forall i :: i in list ==> i < h.blockCount)
    && forall i :: 0 <= i < h.blockCount ==> (i in list <==> !Taken(h, i))
  }

  /** bitmap_test */
  predicate Taken(h: HeapPage, i: nat) {
    i < 64 * |h.words| && Bit(h.words, i)
  }

  lemma {:induction false} ThreadsKept(link: map<nat, nat>, a: nat, v: nat, at: nat, p: nat, size: nat, list: seq<nat>)
    requires Threads(link, at, p, size, list)
    requires forall i :: i in list ==> BlockAddr(p, size, i) != a
    ensures Threads(link[a := v], at, p, size, list)
    decreases |list|
  {
    hide BlockAddr;
    if list != [] {
      assert list[0] in list;
      ThreadsKept(link, a, v, link[at], p, size, list[1..]);
    }
  }

  // ------------------------------------------------------------- one block

  /** The page after heap_alloc_block took block i, whose list continues at nextFree. */
  function Allocated(h: HeapPage, nextFree: nat, i: nat): HeapPage
    requires i < 64 * |h.words| && h.freeCount > 0
  {
    h.(freeList := nextFree, words := SetBit(h.words, i), freeCount := h.freeCount - 1)
  }

  /** The page after kfree put block i, at address a, back. */
  function Freed(h: HeapPage, a: nat, i: nat): HeapPage
    requires i < 64 * |h.words|
  {
    h.(freeList := a, words := ClearBit(h.words, i), freeCount := h.freeCount + 1)
  }

  /** A page with a free block has it at the head of its list, marked clear. */
  lemma HeadBlock(p: nat, h: HeapPage, link: map<nat, nat>, list: seq<nat>)
    requires PageOk(p, h, link, list)
    ensures h.freeCount == 0 <==> h.freeList == 0
    ensures h.freeCount > 0 ==>
      && list != [] && list[0] < h.blockCount && h.freeList == BlockAddr(p, h.blockSize, list[0]) && h.freeList in link
      && !Taken(h, list[0])
      && (h.freeList - (p * PageSize + HeaderSize)) / h.blockSize == list[0]
  {
    if list != [] {
      assert list[0] in list;
      BlockPlace(p, h.classIndex, list[0]);
    }
  }

  /** Taking the head block keeps the page's agreement between list, bitmap and count. */
  lemma AllocatedOk(p: nat, h: HeapPage, link: map<nat, nat>, list: seq<nat>)
    requires PageOk(p, h, link, list) && h.freeCount > 0
    ensures list != [] && h.freeList in link && list[0] < h.blockCount < 128
    ensures PageOk(p, Allocated(h, link[h.freeList], list[0]), link, list[1..])
    ensures forall i :: 0 <= i < h.blockCount ==>
      (Taken(Allocated(h, link[h.freeList], list[0]), i) <==> i == list[0] || Taken(h, i))
  {
    hide Bit, SetBit, BlockAddr, Threads;
    HeadBlock(p, h, link, list);
    CountBound(h);
    ThreadsTail(p, h, link, list);
    forall i | 0 <= i < h.blockCount
      ensures Taken(Allocated(h, link[h.freeList], list[0]), i) <==> i == list[0] || Taken(h, i)
    {
      SetBitEffect(h.words, list[0], i);
    }
    TailMembers(list);
  }

  lemma ThreadsTail(p: nat, h: HeapPage, link: map<nat, nat>, list: seq<nat>)
    requires Threads(link, h.freeList, p, h.blockSize, list) && list != []
    ensures h.freeList in link && Threads(link, link[h.freeList], p, h.blockSize, list[1..])
  {
  }

  lemma TailMembers(list: seq<nat>)
    requires Distinct(list) && list != []
    ensures Distinct(list[1..]) && forall i :: i in list[1..] <==> i in list && i != list[0]
  {
    forall i | i in list && i != list[0]
      ensures i in list[1..]
    {
      var j :| 0 <= j < |list| && list[j] == i;
      assert list[1..][j - 1] == i;
    }
  }

  /** Putting a taken block back keeps it too. */
  lemma FreedOk(p: nat, h: HeapPage, link: map<nat, nat>, list: seq<nat>, i: nat)
    requires PageOk(p, h, link, list) && i < h.blockCount && Taken(h, i)
    ensures i < 64 * |h.words| && h.blockCount < 128
    ensures var a := BlockAddr(p, h.blockSize, i); PageOk(p, Freed(h, a, i), link[a := h.freeList], [i] + list)
    ensures forall j :: 0 <= j < h.blockCount ==> (Taken(Freed(h, BlockAddr(p, h.blockSize, i), i), j) <==> j != i && Taken(h, j))
  {
    hide Bit, ClearBit, BlockAddr;
    var a := BlockAddr(p, h.blockSize, i);
    CountBound(h);
    forall j | j in list
      ensures BlockAddr(p, h.blockSize, j) != a
    {
      BlockPlace(p, h.classIndex, i);
      BlockPlace(p, h.classIndex, j);
    }
    ThreadsKept(link, a, h.freeList, h.freeList, p, h.blockSize, list);
    assert ([i] + list)[1..] == list;
    forall j | 0 <= j < h.blockCount
      ensures Taken(Freed(h, a, i), j) <==> j != i && Taken(h, j)
    {
      ClearBitEffect(h.words, i, j);
    }
  }

  /** A page does not notice a link written in another page. */
  lemma OtherPageOk(q: nat, h: HeapPage, link: map<nat, nat>, list: seq<nat>, a: nat, v: nat)
    requires PageOk(q, h, link, list) && a / PageSize != q
    ensures PageOk(q, h, link[a := v], list)
  {
    hide BlockAddr, Bit;
    forall i | i in list
      ensures BlockAddr(q, h.blockSize, i) != a
    {
      BlockPlace(q, h.classIndex, i);
    }
    ThreadsKept(link, a, v, h.freeList, q, h.blockSize, list);
  }

  /** Nor a word written anywhere in one of its own blocks that is not free. */
  lemma LiveBlockOk(p: nat, h: HeapPage, link: map<nat, nat>, list: seq<nat>, i: nat, x: nat, v: nat)
    requires PageOk(p, h, link, list) && i < h.blockCount && Taken(h, i)
    requires BlockAddr(p, h.blockSize, i) <= x < BlockAddr(p, h.blockSize, i) + h.blockSize
    ensures PageOk(p, h, link[x := v], list) && x / PageSize == p
  {
    hide Bit, Threads;
    BlockPlace(p, h.classIndex, i);
    forall j | j in list
      ensures BlockAddr(p, h.blockSize, j) != x
    {
      if j < i {
        Steps(h.blockSize, j, i);
      } else {
        Steps(h.blockSize, i, j);
      }
    }
    ThreadsKept(link, x, v, h.freeList, p, h.blockSize, list);
  }

  // -------------------------------------------------------------- live blocks

  /** What kfree checks before it accepts a: a block of a heap page, taken. */
  predicate LiveAt(heads: map<nat, HeapPage>, a: nat) {
    var p := a / PageSize;
    && p in heads && heads[p].blockSize > 0 && a % PageSize >= HeaderSize
    && (a % PageSize - HeaderSize) % heads[p].blockSize == 0
    && (a % PageSize - HeaderSize) / heads[p].blockSize < heads[p].blockCount
    && Taken(heads[p], (a % PageSize - HeaderSize) / heads[p].blockSize)
  }

  /** The size of the block at a. */
  function SizeAt(heads: map<nat, HeapPage>, a: nat): nat {
    if a / PageSize in heads then heads[a / PageSize].blockSize else 0
  }

  lemma LiveIsBlock(heads: map<nat, HeapPage>, a: nat)
    requires LiveAt(heads, a) && Shaped(heads[a / PageSize])
    ensures var h := heads[a / PageSize];
      var i := (a % PageSize - HeaderSize) / h.blockSize;
      i < h.blockCount && Taken(h, i) && a == BlockAddr(a / PageSize, h.blockSize, i)
  {
    hide Taken;
    var h := heads[a / PageSize];
    var off := a % PageSize - HeaderSize;
    assert off == off / h.blockSize * h.blockSize;
  }

  /** A live block is 16-aligned, clear of the header, inside its page, and apart from every other live block. */
  lemma LiveBlocksApart(heads: map<nat, HeapPage>, a: nat, b: nat)
    requires forall p :: p in heads ==> Shaped(heads[p])
    requires LiveAt(heads, a) && LiveAt(heads, b) && a != b
    ensures a % HeapAlignment == 0 && a % PageSize >= HeaderSize
    ensures a + SizeAt(heads, a) <= (a / PageSize + 1) * PageSize
    ensures a + SizeAt(heads, a) <= b || b + SizeAt(heads, b) <= a
  {
    hide Taken;
    LiveIsBlock(heads, a);
    LiveIsBlock(heads, b);
    var p, q := a / PageSize, b / PageSize;
    BlockPlace(p, heads[p].classIndex, (a % PageSize - HeaderSize) / heads[p].blockSize);
    BlockPlace(q, heads[q].classIndex, (b % PageSize - HeaderSize) / heads[q].blockSize);
    if p == q {
      var i, j := (a % PageSize - HeaderSize) / heads[p].blockSize, (b % PageSize - HeaderSize) / heads[p].blockSize;
      if i < j {
        Steps(heads[p].blockSize, i, j);
      } else if j < i {
        Steps(heads[p].blockSize, j, i);
      }
    } else {
      PagesApart(p, q, a + SizeAt(heads, a), b + SizeAt(heads, b), a, b);
    }
  }

  /** A later block starts where an earlier one has ended. */
  lemma {:induction false} Steps(size: nat, i: nat, j: nat)
    requires i < j
    ensures i * size + size <= j * size
    decreases j
  {
    assert j * size == (j - 1) * size + size;
    if i < j - 1 {
      Steps(size, i, j - 1);
    }
  }

  lemma PagesApart(p: nat, q: nat, aEnd: nat, bEnd: nat, a: nat, b: nat)
    requires p != q && a / PageSize == p && b / PageSize == q
    requires aEnd <= (p + 1) * PageSize && bEnd <= (q + 1) * PageSize
    ensures aEnd <= b || bEnd <= a
  {
  }
}
