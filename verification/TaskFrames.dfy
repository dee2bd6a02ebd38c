/** What user_task_init writes into the frames of a new task, and what the task then sees. */
module TaskFrames {
  import opened SeqTools
  import opened Pages
  import opened Sv39
  import opened PageMaps
  import opened UserCopy

  /** The named fields of user_trap_context_t; the other registers are the zeroed bytes of its page. */
  datatype UserContext = UserContext(kernelSatp: nat, userSatp: nat, kernelTrapHandler: nat, kernelTrapContext: nat,
                                     kernelStvec: nat, kernelSp: nat, sp: nat, mepc: nat, mstatus: nat)

  /** SSTATUS_SPIE */
  const StatusSpie: nat := 32

  /** Byte k of a page that starts with data and is zero behind it. */
  function DataAt(data: seq<nat>, k: int): nat {
    if 0 <= k < |data| then data[k] else 0
  }

  /** Page p holds data, and zeros behind it. */
  ghost predicate FrameHolds(bytes: Bytes, p: nat, data: seq<nat>) {
    forall a: nat :: p * PageSize <= a < (p + 1) * PageSize ==> Load(bytes, a) == DataAt(data, a - p * PageSize)
  }

  /** Only bytes of the given pages have changed. */
  ghost predicate WrittenIn(before: Bytes, after: Bytes, pages: set<nat>) {
    forall a: nat :: a / PageSize !in pages ==> Load(after, a) == Load(before, a)
  }

  lemma ByteOfPage(p: nat, a: nat)
    requires p * PageSize <= a < (p + 1) * PageSize
    ensures a / PageSize == p
  {
  }

  method StoreByte(mem: PhysicalBytes, x: nat, v: nat)
    modifies mem
    ensures forall a: nat :: Load(mem.bytes, a) == if a == x then v else Load(old(mem.bytes), a)
  {
    ghost var was := mem.bytes;
    mem.bytes := mem.bytes[x := v];
    forall a: nat
      ensures Load(mem.bytes, a) == if a == x then v else Load(was, a)
    {
      assert a in mem.bytes <==> a == x || a in was;
    }
  }

  /** memory_zero over a page, then memory_copy of data to its start. */
  method FillFrame(mem: PhysicalBytes, p: nat, data: seq<nat>)
    requires |data| <= PageSize
    modifies mem
    ensures FrameHolds(mem.bytes, p, data) && WrittenIn(old(mem.bytes), mem.bytes, {p})
  {
    hide Load;
    var base := p * PageSize;
    for i := 0 to PageSize
      invariant forall a: nat :: base <= a < base + i ==> Load(mem.bytes, a) == 0
      invariant WrittenIn(old(mem.bytes), mem.bytes, {p})
    {
      ByteOfPage(p, base + i);
      StoreByte(mem, base + i, 0);
    }
    for i := 0 to |data|
      invariant FrameHolds(mem.bytes, p, data[..i])
      invariant WrittenIn(old(mem.bytes), mem.bytes, {p})
    {
      ByteOfPage(p, base + i);
      StoreByte(mem, base + i, data[i]);
    }
    assert data[..|data|] == data;
  }

  lemma OtherFrame(before: Bytes, after: Bytes, p: nat, q: nat, data: seq<nat>)
    requires FrameHolds(before, p, data) && WrittenIn(before, after, {q}) && p != q
    ensures FrameHolds(after, p, data)
  {
    hide DataAt;
    forall a: nat | p * PageSize <= a < (p + 1) * PageSize
      ensures Load(after, a) == Load(before, a)
    {
      ByteOfPage(p, a);
    }
  }

  lemma WrittenTrans(a: Bytes, b: Bytes, c: Bytes, ps: set<nat>, qs: set<nat>)
    requires WrittenIn(a, b, ps) && WrittenIn(b, c, qs)
    ensures WrittenIn(a, c, ps + qs)
  {
  }

  /** The three frames of a new task: the program, an empty stack, an empty context page. */
  method FillFrames(mem: PhysicalBytes, code: nat, stack: nat, context: nat, program: seq<nat>)
    requires |program| <= PageSize && code != stack && code != context && stack != context
    modifies mem
    ensures FrameHolds(mem.bytes, code, program) && FrameHolds(mem.bytes, stack, []) && FrameHolds(mem.bytes, context, [])
    ensures WrittenIn(old(mem.bytes), mem.bytes, {code, stack, context})
  {
    hide FrameHolds, WrittenIn;
    ghost var a := mem.bytes;
    FillFrame(mem, stack, []);
    ghost var b := mem.bytes;
    FillFrame(mem, context, []);
    ghost var c := mem.bytes;
    OtherFrame(b, c, stack, context, []);
    WrittenTrans(a, b, c, {stack}, {context});
    FillFrame(mem, code, program);
    OtherFrame(c, mem.bytes, stack, code, []);
    OtherFrame(c, mem.bytes, context, code, []);
    WrittenTrans(a, c, mem.bytes, {stack} + {context}, {code});
    assert {stack} + {context} + {code} == {code, stack, context};
  }
}
