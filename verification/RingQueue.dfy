/** The fixed-size queues of kernel/core/thread.c, updated in place: the ring used for the
    ready queue and for every wait queue, and the sorted array used for the sleep queue. */
module RingQueue {
  import opened SeqTools

  /** Index arithmetic of a ring of n slots. */
  function Wrap(x: nat, n: nat): nat {
    if x < n then x else x - n
  }

  lemma ModIsWrap(x: nat, n: nat)
    requires 0 < n && x < 2 * n
    ensures x % n == Wrap(x, n)
  {
    var q, r := x / n, x % n;
    assert q * n + r == x;
    assert q < 2 by { assert q >= 2 ==> q * n >= 2 * n; }
    assert q == 0 || q == 1;
  }

  /** The slot (x) % n the source computes, for the x it can reach. */
  function Slot(x: nat, n: nat): (r: nat)
    requires 0 < n && x < 2 * n
    ensures r == Wrap(x, n) && r < n
  {
    ModIsWrap(x, n);
    x % n
  }

  /** The count entries of ring a that start at slot head, in ring order. */
  function RingSeq(a: seq<nat>, head: nat, count: nat): (s: seq<nat>)
    requires head < |a| && count <= |a|
    ensures |s| == count
  {
    if head + count <= |a| then a[head..head + count] else a[head..] + a[..head + count - |a|]
  }

  lemma RingAt(a: seq<nat>, head: nat, count: nat, i: nat)
    requires head < |a| && i < count <= |a|
    ensures RingSeq(a, head, count)[i] == a[Wrap(head + i, |a|)]
  {
  }

  lemma RingSet(a: seq<nat>, head: nat, count: nat, i: nat, x: nat)
    requires head < |a| && i < count <= |a|
    ensures RingSeq(a[Wrap(head + i, |a|) := x], head, count) == RingSeq(a, head, count)[i := x]
  {
    var b := a[Wrap(head + i, |a|) := x];
    forall j | 0 <= j < count
      ensures RingSeq(b, head, count)[j] == RingSeq(a, head, count)[i := x][j]
    {
      RingAt(a, head, count, j);
      RingAt(b, head, count, j);
    }
  }

  lemma RingPush(a: seq<nat>, head: nat, count: nat, x: nat)
    requires head < |a| && count < |a|
    ensures RingSeq(a[Wrap(head + count, |a|) := x], head, count + 1) == RingSeq(a, head, count) + [x]
  {
    RingSet(a, head, count + 1, count, x);
    assert RingSeq(a, head, count + 1)[..count] == RingSeq(a, head, count);
  }

  lemma RingPop(a: seq<nat>, head: nat, count: nat)
    requires head < |a| && 0 < count <= |a|
    ensures RingSeq(a, head, count)[0] == a[head]
    ensures RingSeq(a, Wrap(head + 1, |a|), count - 1) == RingSeq(a, head, count)[1..]
  {
    forall i | 0 <= i < count - 1
      ensures RingSeq(a, Wrap(head + 1, |a|), count - 1)[i] == RingSeq(a, head, count)[1..][i]
    {
      RingAt(a, Wrap(head + 1, |a|), count - 1, i);
      RingAt(a, head, count, i + 1);
    }
  }

  /** s after positions at..i have each taken the value of their right neighbour. */
  function Shifted(s: seq<nat>, at: nat, i: nat): (r: seq<nat>)
    requires at <= i < |s|
    ensures |r| == |s|
  {
    s[..at] + s[at + 1..i + 1] + s[i..]
  }

  lemma ShiftStep(s: seq<nat>, at: nat, i: nat)
    requires at <= i && i + 1 < |s|
    ensures Shifted(s, at, i)[i := Shifted(s, at, i)[i + 1]] == Shifted(s, at, i + 1)
  {
  }

  lemma ShiftNone(s: seq<nat>, at: nat)
    requires at < |s|
    ensures Shifted(s, at, at) == s
  {
  }

  lemma ShiftedPrefix(s: seq<nat>, t: nat)
    requires t in s
    ensures Shifted(s, IndexOf(s, t), |s| - 1)[..|s| - 1] == Without(s, t)
  {
  }

  class TidRing {
    const tids: array<nat>
    var head: nat
    var tail: nat
    var count: nat

    ghost predicate Valid()
      reads this, tids
    {
      && head < tids.Length && count <= tids.Length
      && tail == Wrap(head + count, tids.Length)
    }

    /** The queued ids, oldest first. */
    ghost function Contents(): (s: seq<nat>)
      reads this, tids
      requires Valid()
      ensures |s| == count
    {
      RingSeq(tids[..], head, count)
    }

    constructor (slots: nat)
      requires slots > 0
      ensures Valid() && Contents() == [] && tids.Length == slots && fresh(tids)
    {
      tids := new nat[slots];
      head, tail, count := 0, 0, 0;
    }

    /** tid_queue_push and wait_queue_push; false when the ring is full */
    method Push(tid: nat) returns (ok: bool)
      requires Valid()
      modifies this, tids
      ensures Valid() && ok == (|old(Contents())| < tids.Length)
      ensures Contents() == if ok then old(Contents()) + [tid] else old(Contents())
    {
      if count == tids.Length {
        return false;
      }
      hide Slot;
      RingPush(tids[..], head, count, tid);
      tids[tail] := tid;
      tail := Slot(tail + 1, tids.Length);
      count := count + 1;
      ok := true;
    }

    /** tid_queue_pop and wait_queue_pop; None when the ring is empty */
    method Pop() returns (tid: Option<nat>)
      requires Valid()
      modifies this
      ensures Valid()
      ensures old(Contents()) == [] ==> tid.None? && Contents() == []
      ensures old(Contents()) != [] ==> tid == Some(old(Contents())[0]) && Contents() == old(Contents())[1..]
    {
      if count == 0 {
        return None;
      }
      hide Slot;
      RingPop(tids[..], head, count);
      tid := Some(tids[head]);
      head := Slot(head + 1, tids.Length);
      count := count - 1;
    }

    /** Position of tid in ring order, or count when it is absent (thread.c:184-190). */
    method Find(tid: nat) returns (found: nat)
      requires Valid()
      ensures found <= count
      ensures tid in Contents() ==> found == IndexOf(Contents(), tid)
      ensures tid !in Contents() ==> found == count
    {
      hide Slot;
      found := 0;
      while found < count
        invariant found <= count
        invariant forall i :: 0 <= i < found ==> Contents()[i] != tid
      {
        RingAt(tids[..], head, count, found);
        if tids[Slot(head + found, tids.Length)] == tid {
          return;
        }
        found := found + 1;
      }
    }

    /** Move every entry after position at one place towards the head (thread.c:197-201). */
    method CloseGap(at: nat)
      requires Valid() && at < count
      modifies tids
      ensures Contents() == Shifted(old(Contents()), at, count - 1)
    {
      hide Slot, RingSeq, Shifted;
      var n, i := tids.Length, at;
      ghost var s := Contents();
      ShiftNone(s, at);
      while i + 1 < count
        invariant at <= i < count && |s| == count
        invariant Contents() == Shifted(s, at, i)
      {
        ghost var a := tids[..];
        RingAt(a, head, count, i + 1);
        RingSet(a, head, count, i, a[Wrap(head + i + 1, n)]);
        ShiftStep(s, at, i);
        tids[Slot(head + i, n)] := tids[Slot(head + i + 1, n)];
        assert tids[..] == a[Wrap(head + i, n) := a[Wrap(head + i + 1, n)]];
        i := i + 1;
      }
    }

    /** wait_queue_remove (thread.c:180-206) */
    method Remove(tid: nat) returns (ok: bool)
      requires Valid()
      modifies this, tids
      ensures Valid() && ok == (tid in old(Contents()))
      ensures Contents() == Without(old(Contents()), tid)
    {
      hide Slot, RingSeq, Shifted;
      var found := Find(tid);
      if found == count {
        return false;
      }
      ShiftedPrefix(Contents(), tid);
      CloseGap(found);
      RingPrefix(tids[..], head, count);
      count := count - 1;
      tail := Slot(head + count, tids.Length);
      ok := true;
    }
  }

  lemma RingPrefix(a: seq<nat>, head: nat, count: nat)
    requires head < |a| && 0 < count <= |a|
    ensures RingSeq(a, head, count - 1) == RingSeq(a, head, count)[..count - 1]
  {
  }
}
