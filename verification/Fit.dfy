/** What the searches of `malloc` have in common: the smallest binned chunk that fits. */
module Fit {
  import opened Words
  import opened BinIndex
  import opened BinMaps
  import opened Memory
  import opened Trie
  import opened BinStore
  import opened Bins
  import opened BestFit

  /** No binned chunk of at least `nb` bytes is smaller than `s`. */
  ghost predicate Smallest(v: BinView, h: Heads, nb: nat, s: nat) {
    forall a :: a in v.members && a in h && nb <= h[a].size ==> s <= h[a].size
  }

  /** No binned chunk has `nb` bytes. */
  ghost predicate NoneFits(v: BinView, h: Heads, nb: nat) {
    forall a :: a in v.members && a in h ==> h[a].size < nb
  }

  // ----- which memory serves a request

  /** The free memory of the heap: bins with the heads of their chunks, designated victim and top. */
  datatype Stock = Stock(bins: BinView, head: Heads, dv: int, dvsize: nat, top: int, topsize: int)

  /** The first chunk of a small bin. */
  predicate FirstIn(v: BinView, i: nat, p: int) {
    i < |v.small| && v.small[i] != [] && p == v.small[i][0]
  }

  predicate Marked(v: BinView, i: nat) {
    i < NSMALLBINS && v.smallmap[i]
  }

  /** A small request finds a chunk in a small bin that it uses up. */
  predicate ExactBin(v: BinView, nb: nat) {
    IsSmall(nb) && (Marked(v, SmallIndex(nb)) || Marked(v, SmallIndex(nb) + 1))
  }

  /** Some binned chunk fits, and better than the designated victim if that fits too. */
  ghost predicate BetterFit(f: Stock, nb: nat) {
    exists a :: a in f.bins.members && a in f.head && nb <= f.head[a].size && (f.dvsize < nb || f.head[a].size < f.dvsize)
  }

  /** The smallest binned chunk that fits. */
  ghost predicate BestFitting(v: BinView, h: Heads, nb: nat, p: int) {
    p in v.members && p in h && nb <= h[p].size && Smallest(v, h, nb, h[p].size)
  }

  /**
   * The free memory that serves `nb` bytes. For a small request first a chunk that is used up, from the bin of that size
   * or the next, then the designated victim. Otherwise the smallest binned chunk that fits, unless the victim fits as
   * well; then the victim, and only then top. Nothing is left when none of them has room.
   */
  ghost predicate Chosen(f: Stock, nb: nat, p: int) {
    if ExactBin(f.bins, nb) then
      FirstIn(f.bins, if Marked(f.bins, SmallIndex(nb)) then SmallIndex(nb) else SmallIndex(nb) + 1, p)
    else if IsSmall(nb) && nb <= f.dvsize then p == f.dv
    else if BetterFit(f, nb) then BestFitting(f.bins, f.head, nb, p)
    else if nb <= f.dvsize then p == f.dv
    else if nb < f.topsize then p == f.top
    else p == 0
  }

  /** No free memory has `nb` bytes. */
  ghost predicate Exhausted(f: Stock, nb: nat) {
    NoneFits(f.bins, f.head, nb) && f.dvsize < nb && f.topsize <= nb
  }

  lemma FitsSome(v: BinView, h: Heads, nb: nat, p: int)
    requires BestFitting(v, h, nb, p)
    ensures !NoneFits(v, h, nb) && v.members != {}
  {
    hide Smallest;
  }

  lemma ChosenExact(f: Stock, nb: nat, p: int, i: nat)
    requires IsSmall(nb) && Marked(f.bins, i) && FirstIn(f.bins, i, p)
    requires i == SmallIndex(nb) || (i == SmallIndex(nb) + 1 && !Marked(f.bins, SmallIndex(nb)))
    ensures Chosen(f, nb, p)
  {
    hide BetterFit, BestFitting;
  }

  lemma ChosenFit(f: Stock, nb: nat, p: int)
    requires BestFitting(f.bins, f.head, nb, p) && (f.dvsize < nb || f.head[p].size < f.dvsize)
    requires !ExactBin(f.bins, nb) && (IsSmall(nb) ==> f.dvsize < nb)
    ensures Chosen(f, nb, p)
  {
    hide Smallest, ExactBin;
  }

  lemma ChosenVictim(f: Stock, nb: nat)
    requires nb <= f.dvsize && !ExactBin(f.bins, nb)
    requires !IsSmall(nb) ==> NoneFits(f.bins, f.head, nb) || Smallest(f.bins, f.head, nb, f.dvsize)
    ensures Chosen(f, nb, f.dv)
  {
    hide BestFitting, ExactBin;
  }

  lemma ChosenLast(f: Stock, nb: nat)
    requires f.dvsize < nb && !ExactBin(f.bins, nb) && NoneFits(f.bins, f.head, nb)
    ensures Chosen(f, nb, if nb < f.topsize then f.top else 0)
  {
    hide BestFitting, ExactBin;
  }

  /**
   * What the order means: top is used only when no other free chunk fits, the victim only when no binned chunk fits better
   * or a small request has no chunk to use up, a binned chunk only when it is the smallest that fits.
   */
  lemma ChosenMeans(f: Stock, nb: nat, p: int)
    requires Chosen(f, nb, p) && p != 0 && nb % 16 == 0 && BinsOK(f.bins, f.head)
    requires f.top != f.dv && f.top !in f.bins.members && f.dv !in f.bins.members
    ensures p == f.top ==> NoneFits(f.bins, f.head, nb) && f.dvsize < nb < f.topsize
    ensures p == f.dv ==> nb <= f.dvsize && !ExactBin(f.bins, nb) && (!IsSmall(nb) ==> Smallest(f.bins, f.head, nb, f.dvsize))
    ensures p == f.top || p == f.dv || BestFitting(f.bins, f.head, nb, p)
    ensures p in f.bins.members && !IsSmall(nb) ==> p in f.head && (f.dvsize < nb || f.head[p].size < f.dvsize)
    ensures p in f.bins.members && IsSmall(nb) && nb <= f.dvsize ==> p in f.head && f.head[p].size < nb + 16
  {
    hide BinsOK;
    var v, h := f.bins, f.head;
    if ExactBin(v, nb) {
      FirstFits(v, h, nb, if Marked(v, SmallIndex(nb)) then SmallIndex(nb) else SmallIndex(nb) + 1, p);
    } else if BetterFit(f, nb) {
      var a :| a in v.members && a in h && nb <= h[a].size && (f.dvsize < nb || h[a].size < f.dvsize);
    }
  }

  /** The first chunk of the first marked bin fits best. */
  lemma FirstFits(v: BinView, h: Heads, nb: nat, i: nat, p: int)
    requires BinsOK(v, h) && nb % 16 == 0 && FirstIn(v, i, p) && SmallIndex(nb) <= i < NSMALLBINS
    requires forall j :: SmallIndex(nb) <= j < i ==> !v.smallmap[j]
    ensures p in v.members && p in h && h[p].size == 8 * i && BestFitting(v, h, nb, p)
  {
    SmallBinSmallest(v, h, nb, i);
    hide TreeOK, TreeIndex;
    assert SmallOK(i, v.small[i], v.smallmap[i], v.cell, h);
    assert p in v.small[i];
  }

  lemma {:induction false} HoldsInSizes(t: Tree, s: nat, a: int)
    requires Holds(t, s, a)
    ensures s in Sizes(t)
  {
    if t.size == s && a in t.ring {
    } else if Holds(t.left, s, a) {
      HoldsInSizes(t.left, s, a);
    } else {
      HoldsInSizes(t.right, s, a);
    }
  }

  /** A binned chunk marks the bin of its size. */
  lemma MemberBin(v: BinView, h: Heads, a: int)
    requires BinsOK(v, h) && a in v.members
    ensures a in h && BinnedSize(h[a].size) && Shaped(v)
    ensures IsSmall(h[a].size) ==> v.smallmap[SmallIndex(h[a].size)]
    ensures !IsSmall(h[a].size) ==>
              var k := TreeIndex(h[a].size); k < NTREEBINS && h[a].size in Sizes(v.trees[k]) && v.treemap[k]
  {
    hide SmallOK, TreeOK, TreeIndex, Sizes, Addrs;
    assert Has(v, a, h[a].size);
    if IsSmall(h[a].size) {
      SmallMarked(v, h, SmallIndex(h[a].size), a);
    } else {
      TreeMember(v, h, TreeIndex(h[a].size), a);
      HoldsInSizes(v.trees[TreeIndex(h[a].size)], h[a].size, a);
      TreeSizes(v, h, TreeIndex(h[a].size), h[a].size);
    }
  }

  lemma SmallMarked(v: BinView, h: Heads, i: nat, a: int)
    requires BinsOK(v, h) && i < NSMALLBINS && a in v.small[i]
    ensures v.smallmap[i]
  {
    hide TreeOK;
    assert SmallOK(i, v.small[i], v.smallmap[i], v.cell, h);
  }

  /** The first marked small bin that is large enough holds the smallest fitting chunks. */
  lemma SmallBinSmallest(v: BinView, h: Heads, nb: nat, i: nat)
    requires BinsOK(v, h) && nb % 16 == 0 && i < NSMALLBINS
    requires forall j :: SmallIndex(nb) <= j < i ==> !v.smallmap[j]
    ensures Smallest(v, h, nb, 8 * i)
  {
    hide BinsOK, TreeIndex;
    forall a | a in v.members && a in h && nb <= h[a].size
      ensures 8 * i <= h[a].size
    {
      MemberBin(v, h, a);
    }
  }

  /** The best tree chunk is the smallest of all, if no small bin can serve. */
  lemma TreeSmallest(v: BinView, h: Heads, nb: nat, x: int, rsize: nat)
    requires BinsOK(v, h) && BestChunk(v, h, nb, x, rsize) && nb % 16 == 0
    requires forall j :: SmallIndex(nb) <= j < NSMALLBINS ==> !v.smallmap[j]
    ensures x != 0 ==> Smallest(v, h, nb, nb + rsize)
    ensures x == 0 ==> NoneFits(v, h, nb)
  {
    hide BinsOK, TreeIndex, Sizes;
    forall a | a in v.members && a in h && nb <= h[a].size
      ensures x != 0 && nb + rsize <= h[a].size
    {
      MemberBin(v, h, a);
    }
  }

  /** Without marks from the bin of `nb` on, nothing fits. */
  lemma NoMarks(v: BinView, h: Heads, nb: nat)
    requires BinsOK(v, h) && nb % 16 == 0 && v.treemap == ZERO
    requires forall j :: SmallIndex(nb) <= j < NSMALLBINS ==> !v.smallmap[j]
    ensures NoneFits(v, h, nb)
  {
    hide BinsOK, TreeIndex, Sizes;
    forall a | a in v.members && a in h
      ensures h[a].size < nb
    {
      MemberBin(v, h, a);
    }
  }

  /**
   * The unsigned test `rsize < dvsize - nb`, which wraps around when the designated victim is too small, means that
   * the victim is too small or strictly worse.
   */
  lemma WrappedTest(dvsize: nat, nb: nat, rsize: nat)
    requires nb < WORD_RANGE && nb + rsize < TREE_INDEX_LIMIT && dvsize < TREE_INDEX_LIMIT
    ensures rsize < Sub64(dvsize, nb) <==> dvsize < nb || nb + rsize < dvsize
  {
  }
}
