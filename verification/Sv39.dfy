/**
 * The Sv39 encodings of kernel/memory/vm.c, section 4.4 of the RISC-V Privileged
 * Architecture, version 20211203.  Words and addresses are numbers below 2^64; shifts and
 * masks are written as divisions and remainders.
 */
module Sv39 {
  import opened Pages

  const FlagV: nat := 1
  const FlagR: nat := 2
  const FlagW: nat := 4
  const FlagX: nat := 8
  const FlagU: nat := 16
  const FlagG: nat := 32
  const FlagA: nat := 64
  const FlagD: nat := 128

  const Entries: nat := 512
  const Gib: nat := 0x4000_0000
  const Mib2: nat := 0x20_0000
  /** Half of the canonical address space: 2^38 bytes. */
  const Half: nat := 0x40_0000_0000

  predicate HasFlag(word: nat, flag: nat)
    requires flag > 0
  {
    word / flag % 2 == 1
  }

  predicate PteValid(pte: nat) {
    HasFlag(pte, FlagV)
  }

  predicate PteLeaf(pte: nat) {
    HasFlag(pte, FlagR) || HasFlag(pte, FlagW) || HasFlag(pte, FlagX)
  }

  /** pte_to_pa */
  function PteToPa(pte: nat): nat {
    pte / 1024 * PageSize
  }

  /** pa_to_pte; the flags occupy the ten low bits, so the OR is a sum. */
  function PaToPte(pa: nat, flags: nat): nat
    requires flags < 1024
  {
    pa / PageSize * 1024 + flags
  }

  function PteFlags(pte: nat): nat {
    pte % 1024
  }

  /** flags_are_valid */
  predicate FlagsValid(flags: nat) {
    && flags < 256
    && HasFlag(flags, FlagV)
    && (HasFlag(flags, FlagR) || HasFlag(flags, FlagX))
    && (HasFlag(flags, FlagW) ==> HasFlag(flags, FlagR))
  }

  /** Which flag words are accepted, bit by bit: below 256, V set, and X, W, R one of 001, 011, 100,
      101, 111; a writable page that cannot be read is not among them. */
  predicate FlagBitsOk(flags: nat) {
    flags < 256 && flags % 2 == 1 && flags / 2 % 8 in {1, 3, 4, 5, 7}
  }

  /** va_is_canonical: bits 39 to 63 repeat bit 38. */
  predicate Canonical(va: nat) {
    && va < WordSpan
    && if va / Half % 2 == 0 then va / (2 * Half) == 0 else va / (2 * Half) == WordSpan / (2 * Half) - 1
  }

  /** vpn_index */
  function Vpn(va: nat, level: nat): (i: nat)
    requires level < 3
    ensures i < Entries
  {
    (if level == 0 then va / PageSize else if level == 1 then va / Mib2 else va / Gib) % Entries
  }

  /** The indices a walk for va uses, from the root table down. */
  function Path(va: nat): (k: seq<nat>)
    ensures |k| == 3 && k[0] == Vpn(va, 2) && k[1] == Vpn(va, 1) && k[2] == Vpn(va, 0)
  {
    [Vpn(va, 2), Vpn(va, 1), Vpn(va, 0)]
  }

  predicate IsKey(k: seq<nat>) {
    |k| == 3 && k[0] < Entries && k[1] < Entries && k[2] < Entries
  }

  /** The page address whose walk uses the indices k. */
  function VaOf(k: seq<nat>): nat
    requires IsKey(k)
  {
    (if k[0] < 256 then 0 else HighBase) + k[0] * Gib + k[1] * Mib2 + k[2] * PageSize
  }

  predicate PageVa(va: nat) {
    Canonical(va) && va % PageSize == 0
  }

  // ---------------------------------------------------------------- entries

  /** What pa_to_pte packs, pte_to_pa and the flag mask unpack, for every 64-bit frame address. */
  lemma PteRoundTrip(pa: nat, flags: nat)
    requires pa % PageSize == 0 && flags < 1024
    ensures PteToPa(PaToPte(pa, flags)) == pa && PteFlags(PaToPte(pa, flags)) == flags
  {
  }

  lemma PteUnpack(pte: nat)
    ensures PaToPte(PteToPa(pte), PteFlags(pte)) == pte
  {
  }

  /** Packing keeps each flag. */
  lemma FlagKept(pa: nat, flags: nat, flag: nat)
    requires flags < 1024 && flag in {FlagV, FlagR, FlagW, FlagX, FlagU}
    ensures HasFlag(PaToPte(pa, flags), flag) == HasFlag(flags, flag)
  {
    hide HasFlag;
    var ppn := pa / PageSize;
    KeptV(ppn, flags);
    KeptR(ppn, flags);
    KeptW(ppn, flags);
    KeptX(ppn, flags);
    KeptU(ppn, flags);
  }

  lemma KeptV(n: nat, flags: nat)
    ensures HasFlag(n * 1024 + flags, FlagV) == HasFlag(flags, FlagV)
  {
  }

  lemma KeptR(n: nat, flags: nat)
    ensures HasFlag(n * 1024 + flags, FlagR) == HasFlag(flags, FlagR)
  {
    assert (n * 1024 + flags) / 2 == n * 512 + flags / 2;
  }

  lemma KeptW(n: nat, flags: nat)
    ensures HasFlag(n * 1024 + flags, FlagW) == HasFlag(flags, FlagW)
  {
    assert (n * 1024 + flags) / 4 == n * 256 + flags / 4;
  }

  lemma KeptX(n: nat, flags: nat)
    ensures HasFlag(n * 1024 + flags, FlagX) == HasFlag(flags, FlagX)
  {
    assert (n * 1024 + flags) / 8 == n * 128 + flags / 8;
  }

  lemma KeptU(n: nat, flags: nat)
    ensures HasFlag(n * 1024 + flags, FlagU) == HasFlag(flags, FlagU)
  {
    assert (n * 1024 + flags) / 16 == n * 64 + flags / 16;
  }

  /** flags_are_valid accepts exactly those words. */
  lemma FlagsByBits(flags: nat)
    ensures FlagsValid(flags) <==> FlagBitsOk(flags)
  {
    PermissionBits(flags);
  }

  lemma PermissionBits(flags: nat)
    ensures flags / 2 % 8 == flags / 2 % 2 + 2 * (flags / 4 % 2) + 4 * (flags / 8 % 2)
  {
    Halves(flags);
    Octal(flags / 2);
  }

  lemma Halves(flags: nat)
    ensures flags / 4 == flags / 2 / 2 && flags / 8 == flags / 2 / 4
  {
  }

  lemma Octal(x: nat)
    ensures x % 8 == x % 2 + 2 * (x / 2 % 2) + 4 * (x / 4 % 2)
  {
    var q, r := x / 8, x % 8;
    assert x == 8 * q + r;
    assert x % 2 == r % 2;
    assert x / 2 == 4 * q + r / 2;
    assert x / 4 == 2 * q + r / 4;
  }

  /** An entry built by vm_map_page is a valid leaf. */
  lemma LeafEntry(pa: nat, flags: nat)
    requires FlagsValid(flags)
    ensures PteValid(PaToPte(pa, flags)) && PteLeaf(PaToPte(pa, flags))
  {
    hide PaToPte, HasFlag;
    FlagKept(pa, flags, FlagV);
    FlagKept(pa, flags, FlagR);
    FlagKept(pa, flags, FlagX);
  }

  /** The entry that points to the table in page p carries V alone. */
  function BranchTo(p: nat): nat {
    PaToPte(p * PageSize, FlagV)
  }

  lemma BranchEntry(p: nat)
    ensures PteValid(BranchTo(p)) && !PteLeaf(BranchTo(p)) && PteToPa(BranchTo(p)) / PageSize == p
    ensures !PteValid(0)
  {
    hide HasFlag;
    FlagKept(p * PageSize, FlagV, FlagV);
    FlagKept(p * PageSize, FlagV, FlagR);
    FlagKept(p * PageSize, FlagV, FlagW);
    FlagKept(p * PageSize, FlagV, FlagX);
    OnlyV();
    PteRoundTrip(p * PageSize, FlagV);
  }

  lemma OnlyV()
    ensures HasFlag(FlagV, FlagV) && !HasFlag(FlagV, FlagR) && !HasFlag(FlagV, FlagW) && !HasFlag(FlagV, FlagX)
    ensures !HasFlag(0, FlagV)
  {
  }

  /** The encoding leaves the ten reserved top bits of an entry clear exactly for frames below 2^56. */
  lemma ReservedBitsClearIff(pa: nat, flags: nat)
    requires pa % PageSize == 0 && pa < WordSpan && flags < 1024
    ensures PaToPte(pa, flags) < WordSpan
    ensures PaToPte(pa, flags) / 0x40_0000_0000_0000 == 0 <==> pa < 0x100_0000_0000_0000
  {
  }

  // -------------------------------------------------------------- addresses

  lemma CanonicalIff(va: nat)
    ensures Canonical(va) <==> va < Half || WordSpan - Half <= va < WordSpan
  {
  }

  lemma Digits(v: nat)
    requires v < 2 * Half
    ensures v / Gib < Entries
    ensures v == v / Gib * Gib + v / Mib2 % Entries * Mib2 + v / PageSize % Entries * PageSize + v % PageSize
  {
    assert v / Gib == v / Mib2 / Entries;
    assert v / Mib2 == v / PageSize / Entries;
  }

  lemma DigitsOf(a: nat, b: nat, c: nat)
    requires a < Entries && b < Entries && c < Entries
    ensures var v := a * Gib + b * Mib2 + c * PageSize;
      v < 2 * Half && v % PageSize == 0 && v / Gib == a && v / Mib2 % Entries == b && v / PageSize % Entries == c
  {
    var v := a * Gib + b * Mib2 + c * PageSize;
    assert v / PageSize == (a * Entries + b) * Entries + c;
    assert v / Mib2 == a * Entries + b;
  }

  const HighBase: nat := WordSpan - 2 * Half

  /** The high half walks like its low 39 bits. */
  lemma HighHalf(w: nat)
    ensures (w + HighBase) / PageSize % Entries == w / PageSize % Entries
    ensures (w + HighBase) / Mib2 % Entries == w / Mib2 % Entries
    ensures (w + HighBase) / Gib % Entries == w / Gib % Entries
    ensures (w + HighBase) % PageSize == w % PageSize
  {
    HighVpn0(w);
    HighVpn1(w);
    HighVpn2(w);
  }

  lemma HighVpn0(w: nat)
    ensures (w + HighBase) / PageSize % Entries == w / PageSize % Entries
  {
    assert (w + HighBase) / PageSize == w / PageSize + HighBase / PageSize;
  }

  lemma HighVpn1(w: nat)
    ensures (w + HighBase) / Mib2 % Entries == w / Mib2 % Entries
  {
    assert (w + HighBase) / Mib2 == w / Mib2 + HighBase / Mib2;
  }

  lemma HighVpn2(w: nat)
    ensures (w + HighBase) / Gib % Entries == w / Gib % Entries
  {
    assert (w + HighBase) / Gib == w / Gib + HighBase / Gib;
  }

  /** Distinct canonical pages take distinct paths: the path determines the page. */
  lemma PathDeterminesPage(va: nat)
    requires Canonical(va)
    ensures IsKey(Path(va)) && VaOf(Path(va)) == va - va % PageSize
  {
    CanonicalIff(va);
    var w := if va < Half then va else va - HighBase;
    if va >= Half {
      HighHalf(w);
    }
    Digits(w);
  }

  /** Every path belongs to a canonical page address. */
  lemma PathOfVaOf(k: seq<nat>)
    requires IsKey(k)
    ensures PageVa(VaOf(k)) && Path(VaOf(k)) == k
  {
    DigitsOf(k[0], k[1], k[2]);
    CanonicalIff(VaOf(k));
    if k[0] >= 256 {
      HighHalf(VaOf(k) - HighBase);
    }
  }
}
