/** The physical page allocator of kernel/memory/page_alloc.c: a bitmap and a search hint. */
module PageBitmap {
  import opened SeqTools
  import opened Bitmaps
  import opened RingQueue
  import opened Pages

  class PageAllocator {
    const bitmap: array<bv64>
    var managedStart: nat
    var managedEnd: nat
    var totalPages: nat
    var freePages: nat
    var nextFreeHint: nat
    ghost var pool: Pool

    ghost predicate Shape()
      reads this
    {
      && PoolOk(pool)
      && managedStart == pool.lo * PageSize && managedEnd == pool.hi * PageSize < WordSpan
      && totalPages == pool.hi - pool.lo <= 64 * bitmap.Length
      && freePages == FreeCount(pool)
      && (nextFreeHint < totalPages || nextFreeHint == 0)
      // Every page below the hint is in use.
      && (forall i :: pool.lo <= i < pool.lo + nextFreeHint ==> i in pool.used)
    }

    ghost predicate Mirrors()
      reads this, bitmap
    {
      && totalPages <= 64 * bitmap.Length
      && forall i :: 0 <= i < totalPages ==> (Bit(bitmap[..], i) <==> pool.lo + i in pool.used)
    }

    ghost predicate Valid()
      reads this, bitmap
    {
      Shape() && Mirrors()
    }

    /** page_init; bitmapWords is the linker-reserved bitmap. */
    constructor (memStart: nat, memEnd: nat, bitmapWords: nat)
      requires memStart < WordSpan && memEnd < WordSpan && AlignUp(memStart) <= AlignDown(memEnd)
      requires AlignDown(memEnd) - AlignUp(memStart) <= 64 * bitmapWords * PageSize
      ensures Valid() && pool.used == {} && fresh(bitmap)
      ensures managedStart == AlignUp(memStart) && managedEnd == AlignDown(memEnd)
    {
      var start, end := AlignUp(memStart), AlignDown(memEnd);
      Spans(start, end);
      var words := new bv64[bitmapWords];
      for i := 0 to bitmapWords
        invariant forall k :: 0 <= k < i ==> words[k] == 0
      {
        words[i] := 0;
      }
      bitmap := words;
      managedStart, managedEnd := start, end;
      totalPages, freePages := (end - start) / PageSize, (end - start) / PageSize;
      nextFreeHint := 0;
      pool := Pool(start / PageSize, end / PageSize, {});
      new;
      AllClear(bitmap[..]);
    }

    /**
     * page_alloc.  The scan starts at the hint and wraps, yet what it returns is what a
     * scan from the first managed page returns.
     */
    method Alloc() returns (page: Option<nat>)
      requires Valid()
      modifies this, bitmap
      ensures Valid() && managedStart == old(managedStart) && managedEnd == old(managedEnd)
      ensures page.None? <==> FirstFree(old(pool), old(pool).lo).None?
      ensures page.Some? ==> page.value == FirstFree(old(pool), old(pool).lo).value * PageSize
      ensures page.None? <==> old(freePages) == 0
      ensures pool == AllocPage(old(pool)).0
    {
      hide Bit, FirstFree, Slot;
      AllocPageFails(pool);
      var offset := 0;
      while offset < totalPages
        invariant offset <= totalPages
        invariant forall k :: 0 <= k < offset ==> Scanned(pool, nextFreeHint, totalPages, k)
        invariant unchanged(this, bitmap)
      {
        var i := Slot(nextFreeHint + offset, totalPages);
        if !Bit(bitmap[..], i) {
          HintFindsLowest(pool, nextFreeHint, totalPages, offset);
          Claim(i);
          return Some(managedStart + i * PageSize);
        }
        assert Scanned(pool, nextFreeHint, totalPages, offset);
        offset := offset + 1;
      }
      NoneFree(pool, nextFreeHint, totalPages);
      page := None;
    }

    /** Marks page i, the lowest free one, as in use. */
    method Claim(i: nat)
      requires Valid() && i < totalPages && FirstFree(pool, pool.lo) == Some(pool.lo + i)
      requires freePages > 0
      modifies this, bitmap
      ensures Valid() && pool == Take(old(pool), pool.lo + i)
      ensures managedStart == old(managedStart) && managedEnd == old(managedEnd)
    {
      hide Bit, FirstFree, Slot, FreeCount, SetBit;
      ghost var was := bitmap[..];
      TakeOne(pool, pool.lo + i);
      MarkBit(i);
      Marked(was, i, totalPages);
      freePages := freePages - 1;
      nextFreeHint := Slot(i + 1, totalPages);
      pool := Take(pool, pool.lo + i);
    }

    /** page_free, on the addresses its panics let through. */
    method Free(addr: nat)
      requires Valid()
      requires addr % PageSize == 0 && addr / PageSize in pool.used
      modifies this, bitmap
      ensures Valid() && managedStart == old(managedStart) && managedEnd == old(managedEnd)
      ensures pool == GiveBack(old(pool), addr / PageSize)
      ensures freePages == old(freePages) + 1
    {
      hide Bit, FirstFree, FreeCount, ClearBit;
      ghost var p := addr / PageSize;
      GiveBackOne(pool, p);
      if addr % PageSize != 0 || addr < managedStart || addr >= managedEnd {
        assert false;
      }
      var index := (addr - managedStart) / PageSize;
      assert index == p - pool.lo;
      if !Bit(bitmap[..], index) {
        assert false;
      }
      ghost var was := bitmap[..];
      UnmarkBit(index);
      Cleared(was, index, totalPages);
      freePages := freePages + 1;
      if index < nextFreeHint {
        nextFreeHint := index;
      }
      pool := GiveBack(pool, p);
    }

    /** page_free_count */
    method FreePages() returns (n: nat)
      requires Valid()
      ensures n == FreeCount(pool) && (n == 0 <==> FirstFree(pool, pool.lo).None?)
    {
      AllocPageFails(pool);
      n := freePages;
    }

    method MarkBit(i: nat)
      requires i < 64 * bitmap.Length
      modifies bitmap
      ensures bitmap[..] == SetBit(old(bitmap[..]), i)
    {
      hide BitNo, With;
      bitmap[i / 64] := With(bitmap[i / 64], BitNo(i % 64));
    }

    method UnmarkBit(i: nat)
      requires i < 64 * bitmap.Length
      modifies bitmap
      ensures bitmap[..] == ClearBit(old(bitmap[..]), i)
    {
      hide BitNo, Less;
      bitmap[i / 64] := Less(bitmap[i / 64], BitNo(i % 64));
    }
  }

  lemma AllClear(words: seq<bv64>)
    requires forall k :: 0 <= k < |words| ==> words[k] == 0
    ensures forall i :: 0 <= i < 64 * |words| ==> !Bit(words, i)
  {
    hide Bit;
    forall i | 0 <= i < 64 * |words|
      ensures !Bit(words, i)
    {
      ZeroBits(words, i);
    }
  }

  lemma Marked(words: seq<bv64>, i: nat, n: nat)
    requires i < n <= 64 * |words|
    ensures forall j :: 0 <= j < n ==> (Bit(SetBit(words, i), j) <==> j == i || Bit(words, j))
  {
    hide Bit, SetBit;
    forall j | 0 <= j < n
      ensures Bit(SetBit(words, i), j) <==> j == i || Bit(words, j)
    {
      SetBitEffect(words, i, j);
    }
  }

  lemma Cleared(words: seq<bv64>, i: nat, n: nat)
    requires i < n <= 64 * |words|
    ensures forall j :: 0 <= j < n ==> (Bit(ClearBit(words, i), j) <==> j != i && Bit(words, j))
  {
    hide Bit, ClearBit;
    forall j | 0 <= j < n
      ensures Bit(ClearBit(words, i), j) <==> j != i && Bit(words, j)
    {
      ClearBitEffect(words, i, j);
    }
  }

  /** The k-th page the scan looks at is in use. */
  ghost predicate Scanned(m: Pool, hint: nat, n: nat, k: nat) {
    m.lo + Wrap(hint + k, n) in m.used
  }

  /** The first free slot of the wrapped scan is the lowest free page. */
  lemma HintFindsLowest(m: Pool, hint: nat, n: nat, offset: nat)
    requires PoolOk(m) && n == m.hi - m.lo && hint < n && offset < n
    requires forall i :: m.lo <= i < m.lo + hint ==> i in m.used
    requires forall k :: 0 <= k < offset ==> Scanned(m, hint, n, k)
    requires m.lo + Wrap(hint + offset, n) !in m.used
    ensures FirstFree(m, m.lo) == Some(m.lo + Wrap(hint + offset, n))
    ensures forall i :: m.lo <= i < m.lo + Wrap(hint + offset, n) ==> i in m.used
  {
    forall i | m.lo <= i < m.lo + Wrap(hint + offset, n)
      ensures i in m.used
    {
      if m.lo + hint <= i {
        assert Scanned(m, hint, n, i - m.lo - hint);
      }
    }
  }

  lemma NoneFree(m: Pool, hint: nat, n: nat)
    requires PoolOk(m) && n == m.hi - m.lo && (hint < n || hint == 0)
    requires forall i :: m.lo <= i < m.lo + hint ==> i in m.used
    requires forall k :: 0 <= k < n ==> Scanned(m, hint, n, k)
    ensures FirstFree(m, m.lo).None?
  {
    forall p | m.lo <= p < m.hi
      ensures p in m.used
    {
      if m.lo + hint <= p {
        assert Scanned(m, hint, n, p - m.lo - hint);
      }
    }
  }
}
