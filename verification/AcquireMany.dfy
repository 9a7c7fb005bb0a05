/** aws_mem_acquire_many of src/aws/common/allocator.c: several regions in one block. A size_t is a
    natural number below 2^w for a word of w bits, and its operations wrap around. */
module AcquireMany {

  function Pow2(w: nat): (p: nat)
    ensures p > 0
  {
    if w == 0 then 1 else 2 * Pow2(w - 1)
  }

  /** The low w bits of a sum of two words. */
  function Wrap(x: nat, w: nat): (r: nat)
    requires x < 2 * Pow2(w)
    ensures r < Pow2(w)
  {
    if x < Pow2(w) then x else x - Pow2(w)
  }

  /** Bitwise and of the low w bits. */
  function And(a: nat, b: nat, w: nat): (r: nat)
    ensures r < Pow2(w)
    decreases w
  {
    if w == 0 then 0 else (if a % 2 == 1 && b % 2 == 1 then 1 else 0) + 2 * And(a / 2, b / 2, w - 1)
  }

  /** Bitwise complement. */
  function Not(a: nat, w: nat): nat
    requires a < Pow2(w)
  {
    Pow2(w) - 1 - a
  }

  lemma {:induction false} AndOnes(a: nat, w: nat)
    requires a < Pow2(w)
    ensures And(a, Pow2(w) - 1, w) == a
    decreases w
  {
    hide And;
    if w == 0 {
      AndNone(a, 0);
    } else {
      AndOnes(a / 2, w - 1);
      AndLow(a, Pow2(w - 1) - 1, w);
    }
  }

  lemma AndNone(a: nat, b: nat)
    ensures And(a, b, 0) == 0
  {}

  lemma AndLow(a: nat, b: nat, w: nat)
    requires w > 0
    ensures And(a, 2 * b + 1, w) == a % 2 + 2 * And(a / 2, b, w - 1)
  {}

  lemma EightAtLeast(w: nat)
    requires w >= 3
    ensures Pow2(w) == 8 * Pow2(w - 3)
  {
    assert Pow2(w) == 2 * Pow2(w - 1) && Pow2(w - 1) == 2 * Pow2(w - 2);
  }

  /** AWS_ALIGN_ROUND_UP(value, sizeof(intmax_t)): add 7, clear the low three bits. */
  function AlignRoundUp(value: nat, w: nat): (r: nat)
    requires w >= 3 && value < Pow2(w)
    ensures r < Pow2(w)
  {
    EightAtLeast(w);
    And(Wrap(value + 7, w), Not(7, w), w)
  }

  lemma ClearLowBits(a: nat, w: nat)
    requires w >= 3 && a < Pow2(w)
    ensures 7 < Pow2(w) && And(a, Not(7, w), w) == 8 * (a / 8)
  {
    hide And;
    EightAtLeast(w);
    var p := Pow2(w - 3);
    var m := Not(7, w);
    assert m == 8 * (p - 1);
    AndEven(a, 4 * (p - 1), w);
    AndEven(a / 2, 2 * (p - 1), w - 1);
    AndEven(a / 2 / 2, p - 1, w - 2);
    assert a / 2 / 2 / 2 == a / 8;
    AndOnes(a / 8, w - 3);
  }

  lemma AndEven(a: nat, b: nat, w: nat)
    requires w > 0
    ensures And(a, 2 * b, w) == 2 * And(a / 2, b, w - 1)
  {}

  /** The mask formula is the least multiple of 8 that is not below its argument, unless adding 7 wraps
      around: then it is below. */
  lemma RoundUpIsLeast(value: nat, w: nat)
    requires w >= 3 && value < Pow2(w)
    ensures var r := AlignRoundUp(value, w);
            && r % 8 == 0
            && (r >= value <==> value + 7 < Pow2(w))
            && (value + 7 < Pow2(w) ==> r < value + 8 && forall m: nat :: m % 8 == 0 && m >= value ==> m >= r)
  {
    hide And;
    EightAtLeast(w);
    ClearLowBits(Wrap(value + 7, w), w);
    hide Pow2;
  }

  /** Every size is a word. */
  ghost predicate Words(sizes: seq<nat>, w: nat) {
    forall i :: 0 <= i < |sizes| ==> sizes[i] < Pow2(w)
  }

  // ---------- the two passes ----------

  /** The first pass: the sum of the rounded sizes. */
  function Total(sizes: seq<nat>, w: nat): (r: nat)
    requires w >= 3 && Words(sizes, w)
    ensures r < Pow2(w)
  {
    if sizes == [] then 0 else Wrap(Total(sizes[..|sizes| - 1], w) + AlignRoundUp(sizes[|sizes| - 1], w), w)
  }

  /** No size_t operation of the first pass wraps around. */
  ghost predicate NoOverflow(sizes: seq<nat>, w: nat)
    requires w >= 3
  {
    && Words(sizes, w)
    && forall i :: 0 <= i < |sizes| ==>
         sizes[i] + 7 < Pow2(w) && Total(sizes[..i], w) + AlignRoundUp(sizes[i], w) < Pow2(w)
  }

  lemma TotalStep(sizes: seq<nat>, i: nat, w: nat)
    requires w >= 3 && Words(sizes, w) && i < |sizes|
    ensures Total(sizes[..i + 1], w) == Wrap(Total(sizes[..i], w) + AlignRoundUp(sizes[i], w), w)
  {
    assert sizes[..i + 1][..i] == sizes[..i];
  }

  lemma NextStart(sizes: seq<nat>, i: nat, w: nat)
    requires w >= 3 && NoOverflow(sizes, w) && i < |sizes|
    ensures Total(sizes[..i + 1], w) == Total(sizes[..i], w) + AlignRoundUp(sizes[i], w)
  {
    hide AlignRoundUp, Pow2;
    TotalStep(sizes, i, w);
  }

  lemma {:induction false} OffsetsGrow(sizes: seq<nat>, i: nat, j: nat, w: nat)
    requires w >= 3 && NoOverflow(sizes, w) && i <= j <= |sizes|
    ensures Total(sizes[..i], w) <= Total(sizes[..j], w)
    decreases j - i
  {
    hide AlignRoundUp, Pow2, Total;
    if i < j {
      OffsetsGrow(sizes, i, j - 1, w);
      NextStart(sizes, j - 1, w);
    }
  }

  lemma {:induction false} OffsetsAligned(sizes: seq<nat>, i: nat, w: nat)
    requires w >= 3 && NoOverflow(sizes, w) && i <= |sizes|
    ensures Total(sizes[..i], w) % 8 == 0
    decreases i
  {
    hide AlignRoundUp, Pow2, Total;
    if i == 0 {
      NothingTotal(sizes, w);
    } else {
      OffsetsAligned(sizes, i - 1, w);
      NextStart(sizes, i - 1, w);
      RoundUpIsLeast(sizes[i - 1], w);
    }
  }

  /** Region i starts aligned, holds its size and at most 7 bytes more, and ends where the next one
      starts; the last one ends where the block does. */
  lemma RegionsTile(sizes: seq<nat>, i: nat, w: nat)
    requires w >= 3 && NoOverflow(sizes, w) && i < |sizes|
    ensures var start, end := Total(sizes[..i], w), Total(sizes[..i + 1], w);
            && start % 8 == 0 && start + sizes[i] <= end <= start + sizes[i] + 7
            && end <= Total(sizes, w) && (i + 1 == |sizes| ==> end == Total(sizes, w))
  {
    hide AlignRoundUp, Pow2, Total;
    OffsetsAligned(sizes, i, w);
    NextStart(sizes, i, w);
    RoundUpIsLeast(sizes[i], w);
    OffsetsGrow(sizes, i + 1, |sizes|, w);
    assert sizes[..|sizes|] == sizes;
  }

  lemma RegionsDisjoint(sizes: seq<nat>, i: nat, j: nat, w: nat)
    requires w >= 3 && NoOverflow(sizes, w) && i < j < |sizes|
    ensures Total(sizes[..i], w) + sizes[i] <= Total(sizes[..j], w)
  {
    RegionsTile(sizes, i, w);
    OffsetsGrow(sizes, i + 1, j, w);
  }

  /** Region i is at least as long as asked. */
  ghost predicate Holds(sizes: seq<nat>, i: nat, w: nat)
    requires w >= 3 && Words(sizes, w) && i < |sizes|
  {
    Total(sizes[..i], w) + sizes[i] <= Total(sizes[..i + 1], w)
  }

  lemma RegionHolds(sizes: seq<nat>, i: nat, w: nat)
    requires w >= 3 && Words(sizes, w) && i < |sizes|
    ensures Holds(sizes, i, w)
       <==> sizes[i] + 7 < Pow2(w) && Total(sizes[..i], w) + AlignRoundUp(sizes[i], w) < Pow2(w)
  {
    hide AlignRoundUp, Pow2, Total;
    TotalStep(sizes, i, w);
    RoundUpIsLeast(sizes[i], w);
  }

  /** Every region is at least as long as asked if and only if nothing wraps around. */
  lemma RegionsHoldExactly(sizes: seq<nat>, w: nat)
    requires w >= 3 && Words(sizes, w)
    ensures (forall i :: 0 <= i < |sizes| ==> Holds(sizes, i, w)) <==> NoOverflow(sizes, w)
  {
    hide AlignRoundUp, Pow2, Total, Holds;
    forall i | 0 <= i < |sizes|
      ensures Holds(sizes, i, w)
         <==> sizes[i] + 7 < Pow2(w) && Total(sizes[..i], w) + AlignRoundUp(sizes[i], w) < Pow2(w)
    {
      RegionHolds(sizes, i, w);
    }
    assert (forall i :: 0 <= i < |sizes| ==> Holds(sizes, i, w)) ==>
      forall i :: 0 <= i < |sizes| ==>
        sizes[i] + 7 < Pow2(w) && Total(sizes[..i], w) + AlignRoundUp(sizes[i], w) < Pow2(w);
  }

  lemma NothingTotal(sizes: seq<nat>, w: nat)
    requires w >= 3 && Words(sizes, w)
    ensures Total(sizes[..0], w) == 0 && sizes[..|sizes|] == sizes
  {}

  /** The first loop. */
  method TotalSize(sizes: seq<nat>, w: nat) returns (totalSize: nat)
    requires w >= 3 && Words(sizes, w)
    ensures totalSize == Total(sizes, w)
  {
    hide AlignRoundUp, Pow2, Total;
    NothingTotal(sizes, w);
    totalSize := 0;
    for i := 0 to |sizes|
      invariant totalSize == Total(sizes[..i], w)
    {
      TotalStep(sizes, i, w);
      totalSize := Wrap(totalSize + AlignRoundUp(sizes[i], w), w);
    }
  }

  lemma WrapAssoc(a: nat, b: nat, c: nat, w: nat)
    requires a < Pow2(w) && b < Pow2(w) && c < Pow2(w)
    ensures Wrap(Wrap(a + b, w) + c, w) == Wrap(a + Wrap(b + c, w), w)
  {
    hide Pow2;
  }

  lemma WrapNone(a: nat, w: nat)
    requires a < Pow2(w)
    ensures Wrap(a + 0, w) == a
  {}

  /** The second loop: it ends where the total of the first one says. */
  method SetPointers(sizes: seq<nat>, outPtrs: array<nat>, base: nat, w: nat) returns (end: nat)
    requires w >= 3 && outPtrs.Length == |sizes| && Words(sizes, w) && base < Pow2(w)
    modifies outPtrs
    ensures end == Wrap(base + Total(sizes, w), w)
    ensures forall i :: 0 <= i < |sizes| ==> outPtrs[i] == Wrap(base + Total(sizes[..i], w), w)
  {
    hide AlignRoundUp, Pow2, Total, Wrap;
    NothingTotal(sizes, w);
    WrapNone(base, w);
    end := base;
    for i := 0 to |sizes|
      invariant end == Wrap(base + Total(sizes[..i], w), w)
      invariant forall k :: 0 <= k < i ==> outPtrs[k] == Wrap(base + Total(sizes[..k], w), w)
    {
      TotalStep(sizes, i, w);
      WrapAssoc(base, Total(sizes[..i], w), AlignRoundUp(sizes[i], w), w);
      outPtrs[i] := end;
      end := Wrap(end + AlignRoundUp(sizes[i], w), w);
    }
  }

  /** base is what the allocator returns for a block of the total size. With a total of 0 there is no
      block and no pointer is written. */
  method AcquireMany(sizes: seq<nat>, outPtrs: array<nat>, base: nat, w: nat) returns (found: bool, totalSize: nat)
    requires w >= 3 && outPtrs.Length == |sizes| && Words(sizes, w) && base < Pow2(w)
    modifies outPtrs
    ensures totalSize == Total(sizes, w) && found == (totalSize != 0)
    ensures forall i :: 0 <= i < |sizes| ==>
              outPtrs[i] == if found then Wrap(base + Total(sizes[..i], w), w) else old(outPtrs[i])
  {
    hide Total, Pow2, Wrap;
    totalSize := TotalSize(sizes, w);
    found := totalSize > 0;
    if found {
      var end := SetPointers(sizes, outPtrs, base, w);
    }
  }
}
