/**
 * The user window of kernel/memory/user_space.c and the task-aware copies of
 * kernel/memory/usercopy.c, over the finite map a task's tables stand for.
 */
module UserCopy {
  import opened SeqTools
  import opened Pages
  import opened Sv39
  import opened PageMaps

  const UserBase: nat := PageSize
  const UserTop: nat := 0x3FFF_FFFF
  const ClintBase: nat := 0x0200_0000
  const ClintEnd: nat := 0x0201_0000
  const UartBase: nat := 0x1000_0000
  const UartEnd: nat := UartBase + PageSize

  predicate Overlap(aStart: nat, aEnd: nat, bStart: nat, bEnd: nat) {
    aStart < bEnd && bStart < aEnd
  }

  /** user_space_va_range_is_valid */
  function VaRangeValid(va: nat, size: nat): bool {
    var end := (va + size) % WordSpan;
    if size == 0 || end < va then false
    else if va < UserBase || end - 1 > UserTop then false
    else !Overlap(va, end, ClintBase, ClintEnd) && !Overlap(va, end, UartBase, UartEnd)
  }

  /** A byte the user may own: inside the window, outside both device holes. */
  predicate UserByte(a: nat) {
    UserBase <= a <= UserTop && !(ClintBase <= a < ClintEnd) && !(UartBase <= a < UartEnd)
  }

  lemma EndOfRange(va: nat, size: nat)
    requires va < WordSpan && size < WordSpan
    ensures va + size < WordSpan ==> (va + size) % WordSpan == va + size
    ensures va + size >= WordSpan ==> (va + size) % WordSpan == va + size - WordSpan
  {
  }

  /** The range check accepts exactly the non-empty ranges made of user bytes, overflow included. */
  lemma VaRangeValidIff(va: nat, size: nat)
    requires va < WordSpan && size < WordSpan
    ensures VaRangeValid(va, size) <==> 0 < size && forall a :: va <= a < va + size ==> UserByte(a)
  {
    EndOfRange(va, size);
    if 0 < size && forall a :: va <= a < va + size ==> UserByte(a) {
      assert UserByte(va) && UserByte(va + size - 1);
      assert va <= ClintBase < va + size ==> UserByte(ClintBase);
      assert va <= UartBase < va + size ==> UserByte(UartBase);
    }
  }

  // -------------------------------------------------------------- validation

  /** The permission a copy needs: U, and W or R. */
  predicate Permits(at: Option<(nat, nat)>, write: bool) {
    at.Some? && HasFlag(at.value.1, FlagU) && HasFlag(at.value.1, if write then FlagW else FlagR)
  }

  /** Bit 4 is the user's, bit 2 allows writing and bit 1 reading. */
  lemma PermitsByBits(at: Option<(nat, nat)>, write: bool)
    ensures Permits(at, write) <==>
      at.Some? && at.value.1 / 16 % 2 == 1 && (if write then at.value.1 / 4 % 2 == 1 else at.value.1 / 2 % 2 == 1)
  {
  }

  /** The window in numbers: from 4 KiB up to 1 GiB, without the CLINT and the UART. */
  lemma WindowInNumbers(a: nat)
    ensures UserByte(a) <==>
      0x1000 <= a < 0x4000_0000 && !(0x200_0000 <= a < 0x201_0000) && !(0x1000_0000 <= a < 0x1000_1000)
  {
  }

  /** The loop of usercopy_validate_range_in_space over the pages from page to last. */
  function PagesPermit(view: View, page: nat, last: nat, write: bool): bool
    requires page <= last && page % PageSize == last % PageSize
    decreases last - page
  {
    if !Permits(Looked(view, page), write) then false
    else if page == last then true
    else
      NextPage(page, last);
      PagesPermit(view, page + PageSize, last, write)
  }

  lemma NextPage(page: nat, last: nat)
    requires page < last && page % PageSize == last % PageSize
    ensures page + PageSize <= last
  {
  }

  /** usercopy_validate_range_in_space */
  function Validate(view: View, va: nat, len: nat, write: bool): bool
    requires va < WordSpan && len < WordSpan
  {
    if len == 0 then true
    else if (va + len) % WordSpan < va then false
    else if !VaRangeValid(va, len) then false
    else
      ValidSpan(va, len);
      PagesPermit(view, AlignDown(va), AlignDown(va + len - 1), write)
  }

  lemma ValidSpan(va: nat, len: nat)
    requires va < WordSpan && len < WordSpan && VaRangeValid(va, len)
    ensures va + len <= UserTop + 1 && 0 < len && (va + len) % WordSpan == va + len
    ensures AlignDown(va) <= AlignDown(va + len - 1)
    ensures AlignDown(va) % PageSize == AlignDown(va + len - 1) % PageSize
  {
    EndOfRange(va, len);
    Aligned(va);
    Aligned(va + len - 1);
  }

  lemma Aligned(a: nat)
    ensures AlignDown(a) % PageSize == 0
  {
  }

  /** Byte a may be copied. */
  predicate ByteOk(view: View, a: nat, write: bool) {
    UserByte(a) && Permits(Looked(view, a), write)
  }

  lemma SamePageLook(view: View, a: nat, write: bool)
    requires a <= UserTop
    ensures Permits(Looked(view, a), write) == Permits(Looked(view, AlignDown(a)), write)
  {
    hide HasFlag;
    CanonicalIff(a);
    CanonicalIff(AlignDown(a));
    assert AlignDown(AlignDown(a)) == AlignDown(a);
  }

  /** The page loop accepts exactly when every byte from the first page to the last is permitted. */
  lemma {:induction false} PagesPermitIff(view: View, page: nat, last: nat, write: bool)
    requires page <= last && page % PageSize == 0 && last % PageSize == 0 && last <= UserTop
    ensures PagesPermit(view, page, last, write) <==>
      forall a :: page <= a < last + PageSize && a <= UserTop ==> Permits(Looked(view, a), write)
    decreases last - page
  {
    hide Permits, Looked;
    forall a | page <= a < page + PageSize && a <= UserTop
      ensures Permits(Looked(view, a), write) == Permits(Looked(view, page), write)
    {
      assert AlignDown(a) == page;
      SamePageLook(view, a, write);
    }
    if page < last {
      NextPage(page, last);
      PagesPermitIff(view, page + PageSize, last, write);
    }
  }

  /**
   * Validation succeeds exactly when every byte of the range is in the user window, outside
   * the device holes, and mapped with U and the permission needed.
   */
  lemma ValidateIff(view: View, va: nat, len: nat, write: bool)
    requires va < WordSpan && len < WordSpan
    ensures Validate(view, va, len, write) <==> forall a :: va <= a < va + len ==> ByteOk(view, a, write)
  {
    hide PagesPermit, Permits, Looked, VaRangeValid, UserByte;
    if len > 0 {
      VaRangeValidIff(va, len);
      if forall a :: va <= a < va + len ==> ByteOk(view, a, write) {
        forall a | va <= a < va + len
          ensures UserByte(a) && Permits(Looked(view, a), write)
        {
          assert ByteOk(view, a, write);
        }
      }
      if VaRangeValid(va, len) {
        ValidSpan(va, len);
        WholePages(view, va, len, write);
      }
      EndOfRange(va, len);
    }
  }

  lemma WholePages(view: View, va: nat, len: nat, write: bool)
    requires 0 < len && va + len <= UserTop + 1
    ensures AlignDown(va) <= AlignDown(va + len - 1)
    ensures PagesPermit(view, AlignDown(va), AlignDown(va + len - 1), write) <==>
      forall a :: va <= a < va + len ==> Permits(Looked(view, a), write)
  {
    hide PagesPermit, Permits, Looked;
    var first, last := AlignDown(va), AlignDown(va + len - 1);
    PagesPermitIff(view, first, last, write);
    if forall a :: va <= a < va + len ==> Permits(Looked(view, a), write) {
      forall a | first <= a < last + PageSize && a <= UserTop
        ensures Permits(Looked(view, a), write)
      {
        SamePageLook(view, a, write);
        if a < va {
          assert AlignDown(a) == first;
          SamePageLook(view, va, write);
        } else if a >= va + len {
          assert AlignDown(a) == last;
          SamePageLook(view, va + len - 1, write);
        }
      }
    }
  }

  // ------------------------------------------------------------------ copies

  /** Physical memory by bytes, where only user frames matter. */
  type Bytes = map<nat, nat>

  /** The bytes of physical memory, as the kernel and the device share them. */
  class PhysicalBytes {
    var bytes: Bytes

    constructor (contents: Bytes)
      ensures bytes == contents
    {
      bytes := contents;
    }
  }

  function Load(ram: Bytes, a: nat): nat {
    if a in ram then ram[a] else 0
  }

  /** Where byte a of the task lives. */
  function PhysOf(view: View, a: nat): nat {
    var at := Looked(view, a);
    if at.Some? then at.value.0 else 0
  }

  /** Copying to a task, byte by byte through translation. */
  function Stored(view: View, ram: Bytes, va: nat, data: seq<nat>): Bytes
    decreases |data|
  {
    if data == [] then ram
    else Stored(view, ram, va, data[..|data| - 1])[PhysOf(view, va + |data| - 1) := data[|data| - 1]]
  }

  /** Copying from a task, byte by byte through translation. */
  function Fetched(view: View, ram: Bytes, va: nat, len: nat): (r: seq<nat>)
    ensures |r| == len
    decreases len
  {
    if len == 0 then [] else Fetched(view, ram, va, len - 1) + [Load(ram, PhysOf(view, va + len - 1))]
  }

  /** The first n bytes of physical memory from a on. */
  function BytesAt(ram: Bytes, a: nat, n: nat): (r: seq<nat>)
    ensures |r| == n && forall i :: 0 <= i < n ==> r[i] == Load(ram, a + i)
  {
    if n == 0 then [] else BytesAt(ram, a, n - 1) + [Load(ram, a + n - 1)]
  }

  /**
   * Memory after the first n bytes of a copy between the task's range at va and the kernel
   * buffer at the physical address kernel: one byte at a time, so that an overlap counts.
   */
  function Copied(view: View, ram: Bytes, va: nat, kernel: nat, n: nat, writeUser: bool): Bytes {
    if n == 0 then ram else
      var before := Copied(view, ram, va, kernel, n - 1, writeUser);
      var user, buffer := PhysOf(view, va + n - 1), kernel + n - 1;
      if writeUser then before[user := Load(before, buffer)] else before[buffer := Load(before, user)]
  }

  /** No byte of the task's range lies in the kernel buffer. */
  ghost predicate Disjoint(view: View, va: nat, kernel: nat, n: nat) {
    forall a :: va <= a < va + n ==> !(kernel <= PhysOf(view, a) < kernel + n)
  }

  /** Inside one page, physical addresses advance with virtual ones. */
  lemma ChunkAddress(view: View, va: nat, i: nat)
    requires va % PageSize + i < PageSize && va + i <= UserTop && Looked(view, va).Some?
    ensures PhysOf(view, va + i) == Looked(view, va).value.0 + i
  {
    CanonicalIff(va);
    CanonicalIff(va + i);
    assert AlignDown(va + i) == AlignDown(va) && (va + i) % PageSize == va % PageSize + i;
  }

  /** No frame backs two pages of the view. */
  ghost predicate FramesDistinct(view: View) {
    forall a, b :: a in view && b in view && a != b ==> view[a].pa != view[b].pa
  }

  lemma DistinctBytes(view: View, a: nat, b: nat)
    requires ViewOk(view) && FramesDistinct(view) && Looked(view, a).Some? && Looked(view, b).Some? && a != b
    ensures PhysOf(view, a) != PhysOf(view, b)
  {
    hide Canonical, FlagsValid;
    if AlignDown(a) == AlignDown(b) {
      SplitByte(a);
      SplitByte(b);
    } else {
      DistinctFrames(view[AlignDown(a)].pa, view[AlignDown(b)].pa, a, b);
    }
  }

  lemma SplitByte(a: nat)
    ensures a == AlignDown(a) + a % PageSize
  {
  }

  lemma DistinctFrames(p: nat, q: nat, a: nat, b: nat)
    requires p % PageSize == 0 && q % PageSize == 0 && p != q
    ensures p + a % PageSize != q + b % PageSize
  {
  }

  /** A copy to a task leaves the data at its bytes. */
  lemma {:induction false} StoredAt(view: View, ram: Bytes, va: nat, data: seq<nat>, i: nat)
    requires ViewOk(view) && FramesDistinct(view) && i < |data|
    requires forall a :: va <= a < va + |data| ==> Looked(view, a).Some?
    ensures Load(Stored(view, ram, va, data), PhysOf(view, va + i)) == data[i]
    decreases |data|
  {
    hide Looked, PhysOf;
    var n := |data| - 1;
    if i < n {
      StoredAt(view, ram, va, data[..n], i);
      DistinctBytes(view, va + i, va + n);
    }
  }

  /** And nothing else changed. */
  lemma {:induction false} StoredElsewhere(view: View, ram: Bytes, va: nat, data: seq<nat>, p: nat)
    requires forall a :: va <= a < va + |data| ==> PhysOf(view, a) != p
    ensures Load(Stored(view, ram, va, data), p) == Load(ram, p)
    decreases |data|
  {
    hide Looked, PhysOf;
    if data != [] {
      StoredElsewhere(view, ram, va, data[..|data| - 1], p);
    }
  }

  lemma {:induction false} FetchedAt(view: View, ram: Bytes, va: nat, len: nat, i: nat)
    requires i < len
    ensures Fetched(view, ram, va, len)[i] == Load(ram, PhysOf(view, va + i))
    decreases len
  {
    if i < len - 1 {
      FetchedAt(view, ram, va, len - 1, i);
    }
  }

  /** Without overlap, a copy to a task stores what the kernel buffer held. */
  lemma {:induction false} CopyOutStores(view: View, ram: Bytes, va: nat, kernel: nat, n: nat)
    requires Disjoint(view, va, kernel, n)
    ensures Copied(view, ram, va, kernel, n, true) == Stored(view, ram, va, BytesAt(ram, kernel, n))
    decreases n
  {
    hide PhysOf, Load, Stored;
    StoredStep(view, ram, va, BytesAt(ram, kernel, n));
    if n > 0 {
      CopyOutStores(view, ram, va, kernel, n - 1);
      assert BytesAt(ram, kernel, n)[..n - 1] == BytesAt(ram, kernel, n - 1);
      StoredElsewhere(view, ram, va, BytesAt(ram, kernel, n - 1), kernel + n - 1);
    }
  }

  lemma StoredStep(view: View, ram: Bytes, va: nat, data: seq<nat>)
    ensures Stored(view, ram, va, data) ==
      if data == [] then ram
      else Stored(view, ram, va, data[..|data| - 1])[PhysOf(view, va + |data| - 1) := data[|data| - 1]]
  {
    hide PhysOf;
  }

  /** Without overlap, a copy from a task leaves its bytes in the kernel buffer and nothing else changed. */
  lemma {:induction false} CopyInFetches(view: View, ram: Bytes, va: nat, kernel: nat, n: nat, p: nat)
    requires Disjoint(view, va, kernel, n)
    ensures Load(Copied(view, ram, va, kernel, n, false), p) ==
      if kernel <= p < kernel + n then Fetched(view, ram, va, n)[p - kernel] else Load(ram, p)
    decreases n
  {
    hide PhysOf;
    if n > 0 {
      CopyInFetches(view, ram, va, kernel, n - 1, p);
      CopyInFetches(view, ram, va, kernel, n - 1, PhysOf(view, va + n - 1));
    }
  }

  /** What was copied to a task is what a copy from it returns. */
  lemma StoreThenFetch(view: View, ram: Bytes, va: nat, data: seq<nat>)
    requires ViewOk(view) && FramesDistinct(view)
    requires va < WordSpan && |data| < WordSpan && Validate(view, va, |data|, true)
    ensures Fetched(view, Stored(view, ram, va, data), va, |data|) == data
  {
    hide Looked, PhysOf, Stored, Fetched, Validate;
    ValidateIff(view, va, |data|, true);
    AllMapped(view, va, |data|, true);
    var after := Stored(view, ram, va, data);
    forall i | 0 <= i < |data|
      ensures Fetched(view, after, va, |data|)[i] == data[i]
    {
      FetchedAt(view, after, va, |data|, i);
      StoredAt(view, ram, va, data, i);
    }
  }

  lemma AllMapped(view: View, va: nat, len: nat, write: bool)
    requires forall a :: va <= a < va + len ==> ByteOk(view, a, write)
    ensures forall a :: va <= a < va + len ==> Looked(view, a).Some? && a <= UserTop
  {
    hide Looked;
    forall a | va <= a < va + len
      ensures Looked(view, a).Some? && a <= UserTop
    {
      assert ByteOk(view, a, write);
    }
  }
}
