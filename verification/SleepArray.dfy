/** The sleep queue of kernel/core/thread.c: a fixed array kept sorted by deadline. */
module SleepArray {
  import opened SeqTools
  import opened Scheduler

  class SleepQueue {
    const tids: array<Tid>
    var count: nat

    ghost predicate Valid()
      reads this
    {
      count <= tids.Length
    }

    ghost function Contents(): (s: seq<Tid>)
      reads this, tids
      requires Valid()
    {
      tids[..count]
    }

    constructor (slots: nat)
      ensures Valid() && Contents() == [] && tids.Length == slots && fresh(tids)
    {
      tids := new nat[slots];
      count := 0;
    }

    /** Shift the entries from position at on one place up (thread.c:245-247). */
    method OpenGap(at: nat)
      requires Valid() && at <= count < tids.Length
      modifies tids
      ensures tids[..at] == old(tids[..at])
      ensures tids[at + 1..count + 1] == old(tids[at..count])
    {
      ghost var s := tids[..count];
      var i := count;
      while i > at
        invariant at <= i <= count
        invariant tids[..i] == s[..i] && tids[i + 1..count + 1] == s[i..]
      {
        tids[i] := tids[i - 1];
        assert tids[i..count + 1] == [s[i - 1]] + s[i..];
        i := i - 1;
      }
    }

    /** sleep_queue_insert (thread.c:232-251), on a queue that is not full */
    method Insert(threads: array<Thread>, tid: Tid)
      requires Valid() && count < tids.Length && tid < threads.Length
      requires forall i :: 0 <= i < count ==> tids[i] < threads.Length
      modifies this, tids
      ensures Valid() && Contents() ==
        SleepInsert(threads[..], old(Contents()), tid, threads[tid].wakeTick)
    {
      var wake := threads[tid].wakeTick;
      ghost var s := Contents();
      ghost var table := threads[..];
      var index := 0;
      while index < count && threads[tids[index]].wakeTick <= wake
        invariant index <= count
        invariant forall j :: 0 <= j < index ==> WakeTick(table, s[j]) <= wake
      {
        index := index + 1;
      }
      IndexIs(table, s, wake, index);
      hide SleepIndex;
      Place(index, tid);
    }

    /** Put tid at position index, moving the later entries up (thread.c:245-250). */
    method Place(index: nat, tid: Tid)
      requires Valid() && index <= count < tids.Length
      modifies this, tids
      ensures Valid() && Contents() == old(Contents()[..index] + [tid] + Contents()[index..])
    {
      ghost var s := Contents();
      OpenGap(index);
      tids[index] := tid;
      count := count + 1;
      assert tids[..index] == s[..index] && tids[index + 1..count] == s[index..];
      assert tids[..count] == tids[..index] + [tids[index]] + tids[index + 1..count];
    }

    /** Shift the entries after position at one place down (thread.c:274-276). */
    method CloseGap(at: nat)
      requires Valid() && at < count
      modifies this, tids
      ensures Valid() && Contents() == old(Contents()[..at] + Contents()[at + 1..])
    {
      ghost var s := tids[..count];
      var j := at + 1;
      while j < count
        invariant at < j <= count && |s| == count
        invariant tids[..j - 1] == s[..at] + s[at + 1..j]
        invariant tids[j..count] == s[j..]
      {
        tids[j - 1] := tids[j];
        assert tids[..j] == s[..at] + s[at + 1..j] + [s[j]];
        j := j + 1;
      }
      count := count - 1;
    }

    /** sleep_queue_pop_head (thread.c:253-265) */
    method PopHead() returns (tid: Option<Tid>)
      requires Valid()
      modifies this, tids
      ensures Valid()
      ensures old(Contents()) == [] ==> tid.None? && Contents() == []
      ensures old(Contents()) != [] ==> tid == Some(old(Contents())[0]) && Contents() == old(Contents())[1..]
    {
      if count == 0 {
        return None;
      }
      tid := Some(tids[0]);
      CloseGap(0);
    }

    method Find(tid: Tid) returns (i: nat)
      requires Valid()
      ensures i <= count
      ensures tid in Contents() ==> i == IndexOf(Contents(), tid)
      ensures tid !in Contents() ==> i == count
    {
      i := 0;
      while i < count
        invariant i <= count
        invariant forall j :: 0 <= j < i ==> Contents()[j] != tid
      {
        if tids[i] == tid {
          assert Contents()[i] == tid;
          return;
        }
        i := i + 1;
      }
    }

    /** sleep_queue_remove (thread.c:267-282) */
    method Remove(tid: Tid) returns (ok: bool)
      requires Valid()
      modifies this, tids
      ensures Valid() && ok == (tid in old(Contents()))
      ensures Contents() == Without(old(Contents()), tid)
    {
      var i := Find(tid);
      if i == count {
        return false;
      }
      CloseGap(i);
      return true;
    }
  }

  /** The scan stops at the specified position. */
  lemma IndexIs(threads: seq<Thread>, q: seq<Tid>, wake: nat, i: nat)
    requires i <= |q| && forall j :: 0 <= j < i ==> WakeTick(threads, q[j]) <= wake
    requires i < |q| ==> WakeTick(threads, q[i]) > wake
    ensures SleepIndex(threads, q, wake) == i
  {
    hide SleepIndex, WakeTick;
  }
}
