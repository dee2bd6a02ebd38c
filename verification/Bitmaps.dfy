/** Bitmaps packed into 64-bit words, as the page allocator and the heap keep them. */
module Bitmaps {

  /** The number of a bit inside its word. */
  function BitNo(i: nat): (r: bv8)
    requires i < 64
    ensures r < 64
  {
    i as bv8
  }

  lemma BitNoValue(i: nat)
    requires i < 64
    ensures BitNo(i) as nat == i
  {
  }

  lemma SameBit(i: nat, j: nat)
    requires i < 64 && j < 64
    ensures BitNo(i) == BitNo(j) <==> i == j
  {
    hide BitNo;
    BitNoValue(i);
    BitNoValue(j);
  }

  function Mask(b: bv8): bv64
    requires b < 64
  {
    1 << b
  }

  lemma SetMask(w: bv64, a: bv8, b: bv8)
    requires a < 64 && b < 64
    ensures ((w | Mask(a)) & Mask(b) != 0) == (a == b || w & Mask(b) != 0)
  {
  }

  lemma ClearMask(w: bv64, a: bv8, b: bv8)
    requires a < 64 && b < 64
    ensures ((w & !Mask(a)) & Mask(b) != 0) == (a != b && w & Mask(b) != 0)
  {
  }

  predicate Has(w: bv64, b: bv8)
    requires b < 64
  {
    w & Mask(b) != 0
  }

  lemma HasOr(w: bv64, a: bv8, b: bv8)
    requires a < 64 && b < 64
    ensures Has(w | Mask(a), b) == (a == b || Has(w, b))
  {
    hide Mask;
    SetMask(w, a, b);
  }

  lemma HasAndNot(w: bv64, a: bv8, b: bv8)
    requires a < 64 && b < 64
    ensures Has(w & !Mask(a), b) == (a != b && Has(w, b))
  {
    hide Mask;
    ClearMask(w, a, b);
  }

  function With(w: bv64, b: bv8): bv64
    requires b < 64
  {
    w | Mask(b)
  }

  function Less(w: bv64, b: bv8): bv64
    requires b < 64
  {
    w & !Mask(b)
  }

  lemma HasWith(w: bv64, a: bv8, b: bv8)
    requires a < 64 && b < 64
    ensures Has(With(w, a), b) == (a == b || Has(w, b))
  {
    hide Mask, Has;
    HasOr(w, a, b);
  }

  lemma HasLess(w: bv64, a: bv8, b: bv8)
    requires a < 64 && b < 64
    ensures Has(Less(w, a), b) == (a != b && Has(w, b))
  {
    hide Mask, Has;
    HasAndNot(w, a, b);
  }

  lemma HasZero(b: bv8)
    requires b < 64
    ensures !Has(0, b)
  {
  }

  /** bitmap_test */
  predicate Bit(words: seq<bv64>, i: nat)
    requires i < 64 * |words|
  {
    Has(words[i / 64], BitNo(i % 64))
  }

  /** bitmap_set */
  function SetBit(words: seq<bv64>, i: nat): (r: seq<bv64>)
    requires i < 64 * |words|
    ensures |r| == |words|
  {
    words[i / 64 := With(words[i / 64], BitNo(i % 64))]
  }

  /** bitmap_clear */
  function ClearBit(words: seq<bv64>, i: nat): (r: seq<bv64>)
    requires i < 64 * |words|
    ensures |r| == |words|
  {
    words[i / 64 := Less(words[i / 64], BitNo(i % 64))]
  }

  lemma SameIndex(i: nat, j: nat)
    ensures i == j <==> i / 64 == j / 64 && i % 64 == j % 64
  {
  }

  /** Setting a bit changes that bit and no other, in that word and in every other. */
  lemma SetBitEffect(words: seq<bv64>, i: nat, j: nat)
    requires i < 64 * |words| && j < 64 * |words|
    ensures Bit(SetBit(words, i), j) == (i == j || Bit(words, j))
  {
    hide BitNo, Has, With;
    SameIndex(i, j);
    SameBit(i % 64, j % 64);
    HasWith(words[i / 64], BitNo(i % 64), BitNo(j % 64));
  }

  lemma ClearBitEffect(words: seq<bv64>, i: nat, j: nat)
    requires i < 64 * |words| && j < 64 * |words|
    ensures Bit(ClearBit(words, i), j) == (i != j && Bit(words, j))
  {
    hide BitNo, Has, Less;
    SameIndex(i, j);
    SameBit(i % 64, j % 64);
    HasLess(words[i / 64], BitNo(i % 64), BitNo(j % 64));
  }

  lemma ZeroBits(words: seq<bv64>, i: nat)
    requires i < 64 * |words| && forall k :: 0 <= k < |words| ==> words[k] == 0
    ensures !Bit(words, i)
  {
    hide BitNo, Has;
    HasZero(BitNo(i % 64));
  }
}
