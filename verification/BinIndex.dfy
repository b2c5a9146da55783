/** Which bin holds a free chunk of a given size. */
module BinIndex {
  import opened Words

  const NSMALLBINS := 32
  const NTREEBINS := 32
  const MIN_LARGE_SIZE := 256

  /** Chunk sizes up to here are indexed correctly; see `TreeIndexExact`. */
  const TREE_INDEX_LIMIT: nat := 0x100_0000_0000

  predicate IsSmall(s: nat) {
    s / 8 < NSMALLBINS
  }

  function SmallIndex(s: nat): (i: nat) {
    s / 8
  }

  /** `31 - clz(x)`: the place of the highest set bit. */
  function Log2(x: nat): (k: nat)
    requires x > 0
    ensures Pow2(k) <= x < Pow2(k + 1)
  {
    if x == 1 then 0 else 1 + Log2(x / 2)
  }

  /** The bin of a tree chunk. `X` is an `unsigned int`, so the shifted size loses its upper bits. */
  function TreeIndex(s: nat): (i: nat) {
    var x := (s / 256) % 0x1_0000_0000;
    if x == 0 then 0
    else if x > 0xFFFF then NTREEBINS - 1
    else
      var k := Log2(x);
      2 * k + Bit(s, k + 7)
  }

  /** The smallest chunk size meant for bin `i`. */
  function MinSize(i: nat): (s: nat) {
    Pow2(i / 2 + 8) + (if i % 2 == 1 then Pow2(i / 2 + 7) else 0)
  }

  /** The left shift that puts the first undetermined size bit of bin `i` at the sign position. */
  function LeftShift(i: nat): (r: nat)
    requires i < NTREEBINS
  {
    if i == NTREEBINS - 1 then 0 else 63 - (i / 2 + 6)
  }

  /** The sizes the design assigns to bin `i`. */
  predicate InBin(i: nat, s: nat) {
    && i < NTREEBINS
    && MinSize(i) <= s
    && (i == NTREEBINS - 1 || s < MinSize(i + 1))
  }

  /** The number of low size bits that bin `i` leaves open. */
  function OpenBits(i: nat): (n: nat)
    requires i < NTREEBINS
  {
    64 - LeftShift(i)
  }

  /** Where the aligned block of sizes of bin `i` starts. */
  function BlockStart(i: nat): (s: nat)
    requires i < NTREEBINS
  {
    if i == NTREEBINS - 1 then 0 else MinSize(i)
  }

  lemma MinSizeStep(i: nat)
    ensures MinSize(i + 1) == MinSize(i) + Pow2(i / 2 + 7)
  {
    var k := i / 2;
    assert Pow2(k + 8) == 2 * Pow2(k + 7);
    if i % 2 == 0 {
      assert (i + 1) / 2 == k && (i + 1) % 2 == 1;
    } else {
      assert (i + 1) / 2 == k + 1 && (i + 1) % 2 == 0;
      assert Pow2(k + 9) == 2 * Pow2(k + 8);
    }
  }

  lemma {:induction false} MinSizeMono(i: nat, j: nat)
    requires i <= j
    ensures MinSize(i) <= MinSize(j)
    ensures i < j ==> MinSize(i) < MinSize(j)
    decreases j - i
  {
    if i < j {
      MinSizeStep(i);
      MinSizeMono(i + 1, j);
    }
  }

  /** Bins do not overlap. */
  lemma InBinUnique(i: nat, j: nat, s: nat)
    requires InBin(i, s) && InBin(j, s)
    ensures i == j
  {
    if i < j {
      MinSizeMono(i + 1, j);
    } else if j < i {
      MinSizeMono(j + 1, i);
    }
  }

  lemma Log2Small(x: nat)
    requires 0 < x <= 0xFFFF
    ensures Log2(x) < 16
  {
    if Log2(x) >= 16 {
      Pow2Mono(16, Log2(x));
      Pow2Values();
    }
  }

  /** Four quarters of a power of two: the two highest bits pick the bin. */
  lemma QuarterBit(s: nat, p: nat)
    requires p > 0 && 2 * p <= s < 4 * p
    ensures (s / p) % 2 == if s < 3 * p then 0 else 1
  {
    if s < 3 * p {
      DivModUnique(s, p, 2, s - 2 * p);
    } else {
      DivModUnique(s, p, 3, s - 3 * p);
    }
  }

  lemma BitAtQuarter(s: nat, b: nat)
    requires 2 * Pow2(b) <= s < 4 * Pow2(b)
    ensures Bit(s, b) == if s < 3 * Pow2(b) then 0 else 1
  {
    QuarterBit(s, Pow2(b));
  }

  lemma Log2Scaled(s: nat, k: nat)
    requires Pow2(k) <= s / 256 < Pow2(k + 1)
    ensures 2 * Pow2(k + 7) <= s < 4 * Pow2(k + 7)
    ensures Pow2(k + 8) == 2 * Pow2(k + 7) && Pow2(k + 9) == 4 * Pow2(k + 7)
  {
    Pow2Add(k, 7);
    Pow2Values();
    DivMod(s, 256);
  }

  lemma TreeIndexFormula(s: nat)
    requires 256 <= s && s / 256 <= 0xFFFF
    ensures TreeIndex(s) == 2 * Log2(s / 256) + Bit(s, Log2(s / 256) + 7)
  {
    hide Pow2, Bit;
    DivModUnique(s / 256, 0x1_0000_0000, 0, s / 256);
  }

  /** The index before truncation: every size has its bin below 2^24. */
  lemma TreeIndexBelow24(s: nat)
    requires 256 <= s && s / 256 <= 0xFFFF
    ensures InBin(TreeIndex(s), s)
  {
    hide Pow2, TreeIndex, Bit, InBin, Log2;
    var k := Log2(s / 256);
    Log2Scaled(s, k);
    Log2Small(s / 256);
    assert Bit(s, k + 7) == if s < 3 * Pow2(k + 7) then 0 else 1 by {
      BitAtQuarter(s, k + 7);
    }
    TreeIndexFormula(s);
    BinAtQuarter(k, s);
  }

  lemma BinAtQuarter(k: nat, s: nat)
    requires k < 16 && 2 * Pow2(k + 7) <= s < 4 * Pow2(k + 7)
    ensures InBin(if s < 3 * Pow2(k + 7) then 2 * k else 2 * k + 1, s)
  {
    hide Pow2;
    MinSizeStep(2 * k);
    MinSizeStep(2 * k + 1);
    Pow2Double(k + 7);
    assert (2 * k) / 2 == k && (2 * k + 1) / 2 == k && (2 * k + 1) % 2 == 1;
  }

  lemma LastBin()
    ensures MinSize(31) == 0xC0_0000
  {
    hide Pow2;
    Pow2Values();
  }

  /** No bin but the last holds a size of 2^24 - 2^22 or more. */
  lemma LargeSizeBin(i: nat, s: nat)
    requires s >= 0xC0_0000
    ensures InBin(i, s) <==> i == 31
  {
    hide Pow2;
    LastBin();
    if i < 31 {
      MinSizeMono(i + 1, 31);
    }
  }

  lemma TreeIndexEnds(t: nat)
    requires t < TREE_INDEX_LIMIT
    ensures t < 256 ==> TreeIndex(t) == 0
    ensures t / 256 > 0xFFFF ==> TreeIndex(t) == 31
  {
    hide Pow2, Bit, Log2;
    DivModUnique(t / 256, 0x1_0000_0000, 0, t / 256);
  }

  /** Index 31 is computed exactly from the last bin's minimum on. */
  lemma IndexIsLast(t: nat)
    requires t < TREE_INDEX_LIMIT
    ensures TreeIndex(t) == 31 <==> t >= 0xC0_0000
  {
    hide Pow2, Bit, Log2, TreeIndex, MinSize;
    TreeIndexEnds(t);
    if 256 <= t && t / 256 <= 0xFFFF {
      TreeIndexBelow24(t);
      LastBin();
      if t >= 0xC0_0000 {
        LargeSizeBin(TreeIndex(t), t);
      }
    }
  }

  /**
   * The code's index is the design's bin exactly when the size is below 2^40 or the bits that
   * survive the truncation already reach the last bin's minimum.
   */
  lemma TreeIndexExact(s: nat)
    requires 256 <= s < WORD_RANGE
    ensures InBin(TreeIndex(s), s) <==> s < TREE_INDEX_LIMIT || s % TREE_INDEX_LIMIT >= 0xC0_0000
  {
    hide Pow2, TreeIndex;
    if s / 256 <= 0xFFFF {
      TreeIndexBelow24(s);
    } else {
      LargeSizeBin(TreeIndex(s), s);
      TreeIndexTruncated(s);
      IndexIsLast(s % TREE_INDEX_LIMIT);
    }
  }

  /** The index only sees the low forty bits of the size. */
  lemma TreeIndexTruncated(s: nat)
    ensures TreeIndex(s) == TreeIndex(s % TREE_INDEX_LIMIT)
  {
    hide Pow2, Bit;
    var h, t := s / TREE_INDEX_LIMIT, s % TREE_INDEX_LIMIT;
    DivMod(s, TREE_INDEX_LIMIT);
    var x := t / 256;
    ShiftOfLowPart(s, h, t);
    if 0 < x <= 0xFFFF {
      Log2Small(x);
      BitOfLowPart(s, h, t, Log2(x) + 7);
    }
  }

  lemma ShiftOfLowPart(s: nat, h: nat, t: nat)
    requires s == h * TREE_INDEX_LIMIT + t && t < TREE_INDEX_LIMIT
    ensures (s / 256) % 0x1_0000_0000 == t / 256 == (t / 256) % 0x1_0000_0000
  {
    DivMod(t, 256);
    DivModUnique(s, 256, h * 0x1_0000_0000 + t / 256, t % 256);
    DivModUnique(s / 256, 0x1_0000_0000, h, t / 256);
    DivModUnique(t / 256, 0x1_0000_0000, 0, t / 256);
  }

  lemma BitOfLowPart(s: nat, h: nat, t: nat, b: nat)
    requires s == h * TREE_INDEX_LIMIT + t && b < 40
    ensures Bit(s, b) == Bit(t, b)
  {
    var p, m := Pow2(b), Pow2(39 - b);
    assert (2 * p) * m == TREE_INDEX_LIMIT by {
      Pow2Add(b + 1, 39 - b);
      Pow2Values();
    }
    hide Pow2;
    BitUnderMultiple(s, h, t, p, m);
  }

  lemma BitUnderMultiple(s: nat, h: nat, t: nat, p: nat, m: nat)
    requires p > 0 && s == h * ((2 * p) * m) + t
    ensures (s / p) % 2 == (t / p) % 2
  {
    var k, q := h * m, t / p;
    DivMod(t, p);
    MultipleRegrouped(h, p, m);
    Distributed(2 * k, q, p);
    DivModUnique(s, p, 2 * k + q, t % p);
  }

  lemma MultipleRegrouped(h: nat, p: nat, m: nat)
    ensures h * ((2 * p) * m) == (2 * (h * m)) * p
  {
  }

  lemma Distributed(a: nat, b: nat, p: nat)
    ensures (a + b) * p == a * p + b * p
  {
  }

  /** Every multiple of 2^40 lands in bin 0, which is meant for sizes below 384. */
  lemma TreeIndexOverflow(h: nat, s: nat)
    requires h > 0 && s == h * TREE_INDEX_LIMIT < WORD_RANGE
    ensures TreeIndex(s) == 0 && !InBin(0, s)
  {
    hide Pow2, Bit, Log2;
    MultipleMod(h, TREE_INDEX_LIMIT);
    MulAtLeast(h, TREE_INDEX_LIMIT);
    TreeIndexExact(s);
    TreeIndexTruncated(s);
  }

  /** Below the limit, the index is the unique bin of the size. */
  lemma TreeIndexUnique(s: nat, i: nat)
    requires 256 <= s < TREE_INDEX_LIMIT
    ensures InBin(i, s) <==> i == TreeIndex(s)
  {
    TreeIndexExact(s);
    if InBin(i, s) {
      InBinUnique(i, TreeIndex(s), s);
    }
  }

  lemma TreeIndexMonotone(s: nat, t: nat)
    requires 256 <= s <= t < TREE_INDEX_LIMIT
    ensures TreeIndex(s) <= TreeIndex(t)
  {
    TreeIndexExact(s);
    TreeIndexExact(t);
    var i, j := TreeIndex(s), TreeIndex(t);
    if j < i {
      MinSizeMono(j + 1, i);
    }
  }

  /** The multiplier that places the block of bin `i`. */
  function BlockNumber(i: nat): (q: nat)
    requires i < NTREEBINS
  {
    if i == NTREEBINS - 1 then 0 else 2 + i % 2
  }

  /** Each bin is an aligned block of 2^OpenBits sizes, and the next bin starts where it ends. */
  lemma BinIsAlignedBlock(i: nat)
    requires i < NTREEBINS
    ensures BlockStart(i) == BlockNumber(i) * Pow2(OpenBits(i))
    ensures i < NTREEBINS - 1 ==> BlockStart(i) + Pow2(OpenBits(i)) == MinSize(i + 1)
  {
    hide Pow2;
    if i < NTREEBINS - 1 {
      MinSizeStep(i);
      assert OpenBits(i) == i / 2 + 7;
      Pow2Double(i / 2 + 7);
    }
  }

  lemma BinInBlock(i: nat, s: nat)
    requires InBin(i, s) && s < WORD_RANGE
    ensures BlockStart(i) <= s < BlockStart(i) + Pow2(OpenBits(i))
  {
    hide Pow2;
    BinIsAlignedBlock(i);
    Pow2Values();
  }

  /** The shift of bin `i` puts the first undetermined bit of any size at the sign position. */
  lemma LeftShiftFirstOpenBit(s: nat, i: nat)
    requires i < NTREEBINS
    ensures TopBit(Shl64(s, LeftShift(i))) == Bit(s, OpenBits(i) - 1)
  {
    TopBitOfShift(s, OpenBits(i) - 1);
  }

  lemma TreeIndexBound(s: nat)
    ensures TreeIndex(s) < NTREEBINS
  {
    hide Pow2, Bit, Log2;
    var x := (s / 256) % 0x1_0000_0000;
    if 0 < x <= 0xFFFF {
      Log2Small(x);
      BitBound(s, Log2(x) + 7);
    }
  }

  lemma BitBound(s: nat, b: nat)
    ensures Bit(s, b) < 2
  {
  }

  /** Later bins hold larger sizes. */
  lemma BinsAscend(i: nat, j: nat, s: nat, t: nat)
    requires i < j && InBin(i, s) && InBin(j, t)
    ensures s < t
  {
    hide Pow2, MinSize;
    MinSizeMono(i + 1, j);
  }
}
