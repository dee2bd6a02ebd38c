/** Pools of physical pages: the abstract page allocator and its address arithmetic. */
module Pages {
  import opened SeqTools

  const PageSize: nat := 4096
  const WordSpan: nat := 0x1_0000_0000_0000_0000

  /** Pages lo, .., hi-1 are managed; page p spans the bytes from p * PageSize. */
  datatype Pool = Pool(lo: nat, hi: nat, used: set<nat>)

  ghost predicate Managed(lo: nat, hi: nat, used: set<nat>) {
    lo <= hi && forall p :: p in used ==> lo <= p < hi
  }

  ghost predicate PoolOk(m: Pool) {
    Managed(m.lo, m.hi, m.used)
  }

  /** Page zero is not managed, so no allocated page is mistaken for the kernel's NULL. */
  predicate NullFree(m: Pool) {
    0 < m.lo
  }

  function FreeCount(m: Pool): int {
    m.hi - m.lo - |m.used|
  }

  /** The first page from p on that is not in use: the scan from page zero when p is lo. */
  function FirstFree(m: Pool, p: nat): (r: Option<nat>)
    ensures r.Some? ==> p <= r.value < m.hi && r.value !in m.used
    ensures r.Some? ==> forall q :: p <= q < r.value ==> q in m.used
    ensures r.None? ==> forall q :: p <= q < m.hi ==> q in m.used
    decreases m.hi - p
  {
    if p >= m.hi then None
    else if p !in m.used then Some(p)
    else FirstFree(m, p + 1)
  }

  function Take(m: Pool, p: nat): Pool {
    m.(used := m.used + {p})
  }

  function GiveBack(m: Pool, p: nat): Pool {
    m.(used := m.used - {p})
  }

  /** page_alloc on pools: the lowest free page. */
  function AllocPage(m: Pool): (Pool, Option<nat>) {
    var p := FirstFree(m, m.lo);
    (if p.Some? then Take(m, p.value) else m, p)
  }

  /** A set of page numbers in [lo, hi) has at most hi - lo members, and has that many only if full. */
  lemma {:induction false} UsedCount(lo: nat, hi: nat, used: set<nat>)
    requires Managed(lo, hi, used)
    ensures |used| <= hi - lo
    ensures |used| == hi - lo <==> forall p :: lo <= p < hi ==> p in used
    decreases hi
  {
    if lo < hi {
      UsedCount(lo, hi - 1, used - {hi - 1});
      if hi - 1 in used {
        assert |used - {hi - 1}| == |used| - 1;
        forall p | lo <= p < hi - 1
          ensures p in used - {hi - 1} <==> p in used
        {
        }
      } else {
        assert used - {hi - 1} == used;
      }
    } else {
      assert used == {} by {
        if p :| p in used { assert false; }
      }
    }
  }

  /** Allocation fails exactly when no page is free. */
  lemma AllocPageFails(m: Pool)
    requires PoolOk(m)
    ensures AllocPage(m).1.None? <==> FreeCount(m) == 0
    ensures FreeCount(m) >= 0 && PoolOk(AllocPage(m).0)
    ensures AllocPage(m).1.Some? ==> FreeCount(AllocPage(m).0) == FreeCount(m) - 1
  {
    UsedCount(m.lo, m.hi, m.used);
  }

  lemma TakeOne(m: Pool, p: nat)
    requires PoolOk(m) && m.lo <= p < m.hi && p !in m.used
    ensures PoolOk(Take(m, p)) && FreeCount(Take(m, p)) == FreeCount(m) - 1
  {
  }

  lemma GiveBackOne(m: Pool, p: nat)
    requires PoolOk(m) && p in m.used
    ensures PoolOk(GiveBack(m, p)) && FreeCount(GiveBack(m, p)) == FreeCount(m) + 1
  {
  }

  /** Giving the page just taken back restores the pool. */
  lemma TakeGiveBack(m: Pool, p: nat)
    requires p !in m.used
    ensures GiveBack(Take(m, p), p) == m
  {
    assert m.used + {p} - {p} == m.used;
  }

  /** align_up, with the 64-bit wrap of its addition. */
  function AlignUp(a: nat): nat {
    (a + PageSize - 1) % WordSpan / PageSize * PageSize
  }

  function AlignDown(a: nat): nat {
    a / PageSize * PageSize
  }

  /** Away from the top of the address space, align_up gives the least page boundary not below a. */
  lemma AlignUpLeast(a: nat, p: nat)
    requires a + PageSize <= WordSpan
    ensures a <= AlignUp(a) && AlignUp(a) % PageSize == 0
    ensures p * PageSize >= a ==> p * PageSize >= AlignUp(a)
  {
    assert (a + PageSize - 1) % WordSpan == a + PageSize - 1;
  }

  /** A range between page boundaries, counted in pages. */
  lemma Spans(start: nat, end: nat)
    requires start <= end && start % PageSize == 0 && end % PageSize == 0
    ensures start == start / PageSize * PageSize && end == end / PageSize * PageSize
    ensures (end - start) / PageSize == end / PageSize - start / PageSize
  {
  }

  /** page_range_is_managed_page_contained, with the 64-bit wrap of its end computation. */
  function RangeContained(m: Pool, addr: nat, len: nat): bool
    requires addr < WordSpan && len < WordSpan
  {
    if len == 0 then false else
      var end := (addr + len - 1) % WordSpan;
      if end < addr then false
      else if addr < m.lo * PageSize || end >= m.hi * PageSize then false
      else AlignDown(addr) == AlignDown(end)
  }

  /** It holds exactly when the range is not empty and every byte of it lies in one managed page. */
  lemma RangeContainedIff(m: Pool, addr: nat, len: nat)
    requires PoolOk(m) && m.hi * PageSize <= WordSpan && addr < WordSpan && len < WordSpan
    ensures RangeContained(m, addr, len) <==>
      0 < len && exists p :: m.lo <= p < m.hi && AllInPage(addr, len, p)
  {
    if RangeContained(m, addr, len) {
      NoWrap(addr, len);
      SamePage(addr, len);
      assert m.lo <= addr / PageSize < m.hi;
    }
    if p :| m.lo <= p < m.hi && AllInPage(addr, len, p) && 0 < len {
      OnePage(addr, p);
      OnePage(addr + len - 1, p);
      Below(addr + len - 1, p, m.hi);
    }
  }

  lemma SamePage(addr: nat, len: nat)
    requires 0 < len && AlignDown(addr) == AlignDown(addr + len - 1)
    ensures AllInPage(addr, len, addr / PageSize)
  {
  }

  lemma NoWrap(addr: nat, len: nat)
    requires addr < WordSpan && 0 < len < WordSpan && (addr + len - 1) % WordSpan >= addr
    ensures addr + len - 1 < WordSpan && (addr + len - 1) % WordSpan == addr + len - 1
  {
  }

  lemma Below(a: nat, p: nat, hi: nat)
    requires InPage(a, p) && p < hi && hi * PageSize <= WordSpan
    ensures a < hi * PageSize && a % WordSpan == a
  {
  }

  lemma OnePage(a: nat, p: nat)
    requires InPage(a, p)
    ensures AlignDown(a) == p * PageSize
  {
  }

  ghost predicate AllInPage(addr: nat, len: nat, p: nat) {
    forall a :: addr <= a < addr + len ==> InPage(a, p)
  }

  predicate InPage(a: nat, p: nat) {
    p * PageSize <= a < (p + 1) * PageSize
  }
}
