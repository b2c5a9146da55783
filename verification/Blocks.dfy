/** The blocks handed out to callers, and what an operation spares of them. */
module Blocks {
  import opened Memory
  import opened BinStore
  import opened Layout
  import opened Segments
  import opened Growth
  import opened NewSegment
  import opened Payload
  import opened Books

  const MMAP_FOOT_PAD := 32

  /** The chunks in use that belong to callers, with their sizes. */
  ghost function Used(l: Lay): (m: map<int, int>) {
    map p | p in l.chunks && p !in l.records && p in l.head && l.head[p].cinuse :: l.head[p].size
  }

  /** The same for chunks mapped directly, given the sizes of their mappings. */
  ghost function Direct(mapped: map<int, int>): (m: map<int, int>) {
    map p | p in mapped :: mapped[p] - MMAP_FOOT_PAD
  }

  // ----- effect of the transforms on the blocks

  lemma UsedUse(l: Lay, v: BinView, dv: int, dvsize: nat, loose: set<int>, p: int)
    requires HeapOK(l, v, dv, dvsize, loose) && p in loose
    ensures p in l.head && End(l, p) in l.head && p !in Used(l) && Used(Use(l, p)) == Used(l)[p := l.head[p].size]
  {
    hide LayoutOK, BinsOK;
    HeapParts(l, v, dv, dvsize, loose);
    AllMapped(l);
    UseListed(l, v, dv, dvsize, loose, p);
  }

  lemma UsedSplit(l: Lay, v: BinView, dv: int, dvsize: nat, loose: set<int>, p: int, nb: nat)
    requires HeapOK(l, v, dv, dvsize, loose) && p in loose
    requires p in l.head && 32 <= nb && nb % 16 == 0 && nb + 32 <= l.head[p].size
    ensures p !in Used(l) && Used(Split(l, p, nb)) == Used(l)[p := nb]
  {
    hide LayoutOK, BinsOK;
    HeapParts(l, v, dv, dvsize, loose);
    AllMapped(l);
    SplitNew(l, p, nb);
  }

  lemma UsedTakeTop(l: Lay, v: BinView, dv: int, dvsize: nat, loose: set<int>, nb: nat)
    requires HeapOK(l, v, dv, dvsize, loose) && nb % 16 == 0 && 32 <= nb < l.topsize
    ensures |l.stops| > 0 && l.top !in Used(l) && Used(TakeTop(l, nb)) == Used(l)[l.top := nb]
  {
    hide LayoutOK, BinsOK;
    HeapParts(l, v, dv, dvsize, loose);
    AllMapped(l);
    TopNoChunk(l);
    TopUnmarked(l, l.top + nb);
  }

  lemma UsedCoalesce(l: Lay, v: BinView, dv: int, dvsize: nat, loose: set<int>, a: int, b: int, p: int)
    requires HeapOK(l, v, dv, dvsize, loose) && Gathered(l, dv, loose, a, b, p) && a <= p < b && a < b && b in l.head
    ensures Used(Coalesce(l, a, b)) == Used(l) - {p}
  {
    hide LayoutOK, BinsOK, Gathered, Listed;
    HeapParts(l, v, dv, dvsize, loose);
    AllMapped(l);
    GatheredMembers(l, v, dv, dvsize, loose, a, b, p);
    forall q | q in Used(l) && a <= q < b
      ensures q == p
    {
      GatheredUse(l, v, dv, dvsize, loose, a, b, p);
      assert InUse(l, q);
    }
  }

  lemma UsedJoinTop(l: Lay, v: BinView, dv: int, dvsize: nat, loose: set<int>, a: int, p: int)
    requires HeapOK(l, v, dv, dvsize, loose) && Gathered(l, dv, loose, a, l.top, p) && a <= p < l.top
    requires |l.stops| > 0 && l.topsize > 0
    ensures Used(JoinTop(l, a)) == Used(l) - {p}
  {
    hide LayoutOK, BinsOK, Gathered, Listed;
    HeapParts(l, v, dv, dvsize, loose);
    AllMapped(l);
    GatheredMembers(l, v, dv, dvsize, loose, a, l.top, p);
    forall q | q in Used(l) && a <= q < l.top
      ensures q == p
    {
      GatheredUse(l, v, dv, dvsize, loose, a, l.top, p);
      assert InUse(l, q);
    }
  }

  lemma UsedSplitUsed(l: Lay, v: BinView, dv: int, dvsize: nat, loose: set<int>, p: int, nb: nat)
    requires HeapOK(l, v, dv, dvsize, loose) && InUse(l, p) && p !in l.records
    requires 32 <= nb && nb % 16 == 0 && nb + 32 <= l.head[p].size
    ensures p + nb !in Used(l) && Used(SplitUsed(l, p, nb)) == Used(l)[p := nb][p + nb := l.head[p].size - nb]
    ensures p + nb !in l.records
  {
    hide LayoutOK, BinsOK;
    HeapParts(l, v, dv, dvsize, loose);
    AllMapped(l);
    SplitNew(l, p, nb);
  }

  lemma UsedAbsorb(l: Lay, v: BinView, dv: int, dvsize: nat, loose: set<int>, p: int)
    requires HeapOK(l, v, dv, dvsize, loose) && InUse(l, p) && p !in l.records && End(l, p) in loose
    ensures End(l, p) in l.head && End(l, End(l, p)) in l.head
    ensures Used(Absorb(l, p)) == Used(l)[p := l.head[p].size + l.head[End(l, p)].size]
  {
    hide LayoutOK, BinsOK;
    HeapParts(l, v, dv, dvsize, loose);
    AllMapped(l);
    AbsorbListed(l, v, dv, dvsize, loose, p);
  }

  lemma UsedGrowIntoTop(l: Lay, v: BinView, dv: int, dvsize: nat, loose: set<int>, p: int, nb: nat)
    requires HeapOK(l, v, dv, dvsize, loose) && InUse(l, p) && p !in l.records && End(l, p) == l.top
    requires nb % 16 == 0 && l.head[p].size < nb < l.head[p].size + l.topsize
    ensures |l.stops| > 0 && Used(GrowIntoTop(l, p, nb)) == Used(l)[p := nb]
  {
    hide LayoutOK, BinsOK;
    HeapParts(l, v, dv, dvsize, loose);
    AllMapped(l);
    TopNoChunk(l);
    TopUnmarked(l, p + nb);
  }

  lemma UsedAppend(l: Lay, v: BinView, dv: int, dvsize: nat, n: nat)
    requires HeapOK(l, v, dv, dvsize, {}) && Fresh(l.segs, l.top + l.topsize + TOP_FOOT_SIZE, n)
    requires |l.segs| > 0 && l.topsize > 0
    ensures Used(Append(l, n)) == Used(l)
  {
    hide LayoutOK, BinsOK, Fresh;
    HeapParts(l, v, dv, dvsize, {});
    AllMapped(l);
    TopNoChunk(l);
    FreshSize(l.segs, l.top + l.topsize + TOP_FOOT_SIZE, n);
    NotFresh(l, l.top + l.topsize + TOP_FOOT_SIZE, n, l.top + l.topsize + n);
  }

  lemma UsedPrepend(l: Lay, v: BinView, dv: int, dvsize: nat, i: nat, n: nat)
    requires HeapOK(l, v, dv, dvsize, {}) && i < |l.segs| && Fresh(l.segs, l.segs[i].base - n, n)
    ensures l.segs[i].base - n !in Used(l) && Used(Prepend(l, i, n)) == Used(l)[l.segs[i].base - n := n]
  {
    hide LayoutOK, BinsOK, Fresh;
    HeapParts(l, v, dv, dvsize, {});
    AllMapped(l);
    FreshSize(l.segs, l.segs[i].base - n, n);
    NotFresh(l, l.segs[i].base - n, n, l.segs[i].base - n);
  }

  lemma UsedCloseTop(l: Lay, v: BinView, dv: int, dvsize: nat, b: int, n: int)
    requires HeapOK(l, v, dv, dvsize, {}) && Fresh(l.segs, b, n) && n < SEGMENT_LIMIT
    ensures l.topsize > 0 && n >= TOP_FOOT_SIZE && |l.stops| > 0
    ensures Used(CloseTop(l, b, n)) == Used(l)
  {
    hide LayoutOK, BinsOK, Fresh, FencesOf, ClosedHeads, Listed;
    HeapParts(l, v, dv, dvsize, {});
    CloseTopKeeps(l, b, n);
    AllMapped(l);
    ClosedTopChunks(l, b, n);
    var l' := CloseTop(l, b, n);
    forall q | q in l.chunks
      ensures q in l'.head && l'.head[q] == l.head[q]
    {
      ChunkInSegment(l, q);
      TopApart(l, q);
      ClosedFrame(l, b, n, q);
    }
    forall q | q in Used(l')
      ensures q in Used(l)
    {
      assert q in l.chunks;
    }
  }

  // ----- what an operation spares

  ghost predicate SameCell(c: Cells, c': Cells, a: int) {
    (a in c' <==> a in c) && (a in c ==> c'[a] == c[a])
  }

  ghost predicate CellRange(c: Cells, c': Cells, p: int, e: int) {
    forall a :: p <= a < e ==> SameCell(c, c', a)
  }

  /** The link fields inside chunks in use and outside the segments were not written. */
  ghost predicate CellsSpared(l: Lay, c: Cells, l': Lay, c': Cells, x: set<int>) {
    && (forall p :: p !in x && InUse(l, p) ==> CellRange(c, c', p, End(l, p)))
    && (forall a :: a > 0 && !InSegment(l'.segs, a) ==> SameCell(c, c', a))
  }

  /** No word of a chunk in use was written, chunks of `x` excepted, and no word outside the segments. */
  ghost predicate Spared(l: Lay, c: Cells, l': Lay, c': Cells, x: set<int>) {
    AllKept(l, l', x) && CellsSpared(l, c, l', c', x)
  }

  lemma LayoutSpared(l: Lay, l': Lay, c: Cells, x: set<int>)
    requires AllKept(l, l', x)
    ensures Spared(l, c, l', c, x)
  {
    hide AllKept, InSegment;
  }

  /** A free chunk's link fields are inside no chunk in use. */
  lemma FreeCellsOutside(l: Lay, q: int, p: int)
    requires LayoutOK(l) && q in l.chunks && q in l.head && !l.head[q].cinuse && InUse(l, p)
    ensures !(p <= q < End(l, p))
  {
    hide LayoutOK, ChunkOK;
    if p < q {
      ChunksApart(l, p, q);
    }
  }

  lemma BinsSpared(l: Lay, v: BinView, dv: int, dvsize: nat, loose: set<int>, c': Cells, s: set<int>)
    requires HeapOK(l, v, dv, dvsize, loose) && CellsKept(v.cell, c', s) && s <= v.members + loose
    ensures Spared(l, v.cell, l, c', {})
  {
    hide LayoutOK, BinsOK, InSegment, AllKept;
    HeapParts(l, v, dv, dvsize, loose);
    AllMapped(l);
    KeptSame(l);
    forall p | InUse(l, p)
      ensures CellRange(v.cell, c', p, End(l, p))
    {
      forall a | p <= a < End(l, p)
        ensures SameCell(v.cell, c', a)
      {
        if a in s {
          FreeCellsOutside(l, a, p);
        }
      }
    }
    forall a | a > 0 && !InSegment(l.segs, a)
      ensures SameCell(v.cell, c', a)
    {
      if a in s {
        ChunkInSegment(l, a);
      }
    }
  }

  lemma KeptSame(l: Lay)
    ensures AllKept(l, l, {})
  {
    hide InSegment;
  }

  lemma SparedTrans(l: Lay, c: Cells, l1: Lay, c1: Cells, l2: Lay, c2: Cells, x: set<int>, y: set<int>)
    requires Spared(l, c, l1, c1, x) && Spared(l1, c1, l2, c2, y)
    ensures Spared(l, c, l2, c2, x + y)
  {
    hide InSegment, PayloadKept, SameCell;
    KeptTrans(l, l1, l2, x, y);
    forall p | p !in x + y && InUse(l, p)
      ensures CellRange(c, c2, p, End(l, p))
    {
      assert Kept(l, l1, p);
      CellRangeTrans(c, c1, c2, p, End(l, p));
    }
    forall a | a > 0 && !InSegment(l2.segs, a)
      ensures SameCell(c, c2, a)
    {
      OutsideCell(l1, l2, c, c1, c2, a);
    }
  }

  lemma OutsideCell(l1: Lay, l2: Lay, c: Cells, c1: Cells, c2: Cells, a: int)
    requires OutsideKept(l1, l2) && !InSegment(l2.segs, a)
    requires !InSegment(l1.segs, a) ==> SameCell(c, c1, a)
    requires SameCell(c1, c2, a)
    ensures SameCell(c, c2, a)
  {
    hide InSegment;
  }

  lemma CellRangeTrans(c: Cells, c1: Cells, c2: Cells, p: int, e: int)
    requires CellRange(c, c1, p, e) && CellRange(c1, c2, p, e)
    ensures CellRange(c, c2, p, e)
  {
    forall a | p <= a < e
      ensures SameCell(c, c2, a)
    {
      assert SameCell(c, c1, a) && SameCell(c1, c2, a);
    }
  }

  // ----- chunks mapped directly

  /** A direct mapping: a head without in-use bits, an offset word of 0, and pages of its own. */
  ghost predicate MapOK(l: Lay, p: int, n: int) {
    && n >= PAGE && Fresh(l.segs, p, n)
    && p in l.head && l.head[p] == Head(n - MMAP_FOOT_PAD, false, false)
    && p in l.foot && l.foot[p] == 0
  }

  ghost predicate MapsApart(mapped: map<int, int>) {
    forall p, q :: p in mapped && q in mapped && p < q ==> p + mapped[p] <= q
  }

  ghost predicate MappedOK(l: Lay, mapped: map<int, int>) {
    MapsApart(mapped) && forall p :: p in mapped ==> MapOK(l, p, mapped[p])
  }

  /** A change inside segments that do not meet the mappings leaves the mappings right. */
  lemma MappedKept(l: Lay, l': Lay, mapped: map<int, int>)
    requires MappedOK(l, mapped) && OutsideKept(l, l')
    requires forall p :: p in mapped ==> Fresh(l'.segs, p, mapped[p])
    ensures MappedOK(l', mapped)
  {
    hide InSegment, Fresh;
    forall p | p in mapped
      ensures MapOK(l', p, mapped[p])
    {
      assert MapOK(l, p, mapped[p]);
      FreshOutside(l'.segs, p, mapped[p], p);
    }
  }

  lemma MappedStays(l: Lay, l': Lay, mapped: map<int, int>, x: set<int>)
    requires MappedOK(l, mapped) && AllKept(l, l', x) && l'.segs == l.segs
    ensures MappedOK(l', mapped)
  {
    hide InSegment, Fresh, Kept;
    forall p | p in mapped
      ensures Fresh(l'.segs, p, mapped[p])
    {
      assert MapOK(l, p, mapped[p]);
    }
    MappedKept(l, l', mapped);
  }

  /** The layout reads only words inside the segments. */
  ghost predicate SegmentWordsSame(l: Lay, l': Lay) {
    && l' == l.(head := l'.head, foot := l'.foot)
    && forall a :: InSegment(l.segs, a) ==> SameHead(l, l', a) && SameFoot(l, l', a)
  }

  lemma OutsideChunk(l: Lay, l': Lay, q: int)
    requires LayoutOK(l) && SegmentWordsSame(l, l') && q in l.chunks
    ensures ChunkOK(l', q)
  {
    hide LayoutOK, InSegment, Clear, Housed;
    ChunkAt(l, q);
    ChunkInSegment(l, q);
    assert Marks(l') == Marks(l);
    if !l.head[q].pinuse {
      ChunkInSegment(l, q - l.foot[q]);
    }
    assert !l.head[q].pinuse ==> PrevOK(l', q);
    hide PrevOK;
    ChunkFrame(l, l', q);
  }

  lemma OutsideTop(l: Lay, l': Lay)
    requires LayoutOK(l) && SegmentWordsSame(l, l')
    ensures TopOK(l')
  {
    hide LayoutOK, InSegment, Clear;
    LayoutParts(l);
    TopInSegment(l, l.top);
    TopInSegment(l, l.top + l.topsize);
    assert Marks(l') == Marks(l);
  }

  lemma OutsideSegment(l: Lay, l': Lay, i: nat)
    requires LayoutOK(l) && SegmentWordsSame(l, l') && i < |l.segs|
    ensures |l.stops| == |l.segs| && SegmentOK(l', i)
  {
    hide LayoutOK, Clear;
    SegmentAt(l, i);
    assert InSegment(l.segs, l.segs[i].base);
  }

  lemma OutsideLayout(l: Lay, l': Lay)
    requires LayoutOK(l) && SegmentWordsSame(l, l')
    ensures LayoutOK(l')
  {
    hide LayoutOK, ChunkOK, SegmentOK, TopOK, InSegment;
    LayoutParts(l);
    OutsideTop(l, l');
    forall q | q in l'.chunks
      ensures ChunkOK(l', q)
    {
      OutsideChunk(l, l', q);
    }
    forall f | f in l'.fences
      ensures FenceOK(l', f)
    {
      FenceAt(l, f);
    }
    forall i | 0 <= i < |l'.segs|
      ensures SegmentOK(l', i)
    {
      OutsideSegment(l, l', i);
    }
    LayoutIntro(l');
  }

  lemma OutsideHeap(l: Lay, l': Lay, v: BinView, dv: int, dvsize: nat)
    requires HeapOK(l, v, dv, dvsize, {}) && SegmentWordsSame(l, l')
    ensures HeapOK(l', v, dv, dvsize, {}) && Used(l') == Used(l)
  {
    hide LayoutOK, BinsOK, InSegment, HeapOK;
    HeapParts(l, v, dv, dvsize, {});
    OutsideLayout(l, l');
    AllMapped(l);
    forall q | q in l.chunks
      ensures q in l.head && q in l'.head && l'.head[q] == l.head[q]
    {
      ChunkInSegment(l, q);
      assert SameHead(l, l', q);
    }
    HeapIntro(l, l', v, dv, dvsize, {});
  }

  // ----- blocks left alone

  /** No word of the given blocks was written. */
  ghost predicate LeftAlone(l: Lay, c: Cells, l': Lay, c': Cells, blocks: map<int, int>) {
    forall p :: p in blocks ==> PayloadKept(l, l', p, p + blocks[p]) && CellRange(c, c', p, p + blocks[p])
  }

  lemma LeftAloneSame(l: Lay, c: Cells, blocks: map<int, int>)
    ensures LeftAlone(l, c, l, c, blocks)
  {
  }

  /** What is spared includes the payload of every block, other than those of `x`. */
  lemma SparedBlocks(l: Lay, c: Cells, l': Lay, c': Cells, x: set<int>, mapped: map<int, int>)
    requires Spared(l, c, l', c', x) && MappedOK(l', mapped)
    ensures LeftAlone(l, c, l', c', (Used(l) + Direct(mapped)) - x)
  {
    hide InSegment, PayloadKept, CellRange;
    var blocks := (Used(l) + Direct(mapped)) - x;
    forall p | p in blocks
      ensures PayloadKept(l, l', p, p + blocks[p]) && CellRange(c, c', p, p + blocks[p])
    {
      if p in mapped {
        SparedMapping(l, c, l', c', x, mapped, p);
      } else {
        assert InUse(l, p) && Kept(l, l', p);
      }
    }
  }

  lemma SparedMapping(l: Lay, c: Cells, l': Lay, c': Cells, x: set<int>, mapped: map<int, int>, p: int)
    requires Spared(l, c, l', c', x) && MappedOK(l', mapped) && p in mapped
    ensures PayloadKept(l, l', p, p + mapped[p] - MMAP_FOOT_PAD)
    ensures CellRange(c, c', p, p + mapped[p] - MMAP_FOOT_PAD)
  {
    hide InSegment, SameHead, SameFoot, SameCell, Fresh, Kept;
    var e := p + mapped[p] - MMAP_FOOT_PAD;
    assert MapOK(l', p, mapped[p]);
    FreshSize(l'.segs, p, mapped[p]);
    forall a | p <= a <= e
      ensures SameHead(l, l', a) && SameFoot(l, l', a) && SameCell(c, c', a)
    {
      FreshOutside(l'.segs, p, mapped[p], a);
    }
  }

  // ----- adding a direct mapping

  /** The words that `mmap_alloc` writes in the `n` bytes at `p`. */
  function MapPages(l: Lay, p: int, n: nat): (l': Lay)
    requires n >= PAGE
  {
    var e := p + n - MMAP_FOOT_PAD;
    l.(head := l.head[p := Head(n - MMAP_FOOT_PAD, false, false)][e := FENCEPOST][e + 8 := Head(0, false, false)],
       foot := l.foot[p := 0])
  }

  ghost predicate ApartFrom(mapped: map<int, int>, p: int, n: int) {
    forall q :: q in mapped ==> q + mapped[q] <= p || p + n <= q
  }

  lemma MapPagesHeap(l: Lay, v: BinView, dv: int, dvsize: nat, mapped: map<int, int>, p: int, n: nat)
    requires HeapOK(l, v, dv, dvsize, {}) && MappedOK(l, mapped) && Fresh(l.segs, p, n) && ApartFrom(mapped, p, n)
    ensures n >= PAGE && HeapOK(MapPages(l, p, n), v, dv, dvsize, {}) && MappedOK(MapPages(l, p, n), mapped[p := n])
    ensures p !in mapped && p !in Used(l) && Used(MapPages(l, p, n)) == Used(l)
    ensures LeftAlone(l, v.cell, MapPages(l, p, n), v.cell, Used(l) + Direct(mapped))
  {
    hide HeapOK, MappedOK, Fresh, InSegment, LeftAlone, Used;
    FreshSize(l.segs, p, n);
    var l' := MapPages(l, p, n);
    MapPagesWords(l, p, n);
    OutsideHeap(l, l', v, dv, dvsize);
    MapPagesMapped(l, mapped, p, n);
    MapPagesAlone(l, v, dv, dvsize, mapped, p, n);
    HeapParts(l, v, dv, dvsize, {});
    if p in Used(l) {
      UsedChunk(l, p);
      FreshOutside(l.segs, p, n, p);
      ChunkInSegment(l, p);
    }
  }

  lemma UsedChunk(l: Lay, p: int)
    requires p in Used(l)
    ensures InUse(l, p) && p !in l.records
  {
  }

  lemma MapPagesWords(l: Lay, p: int, n: nat)
    requires Fresh(l.segs, p, n)
    ensures n >= PAGE && SegmentWordsSame(l, MapPages(l, p, n))
  {
    hide Fresh, InSegment;
    FreshSize(l.segs, p, n);
    var e := p + n - MMAP_FOOT_PAD;
    FreshOutside(l.segs, p, n, p);
    FreshOutside(l.segs, p, n, e);
    FreshOutside(l.segs, p, n, e + 8);
  }

  lemma MapPagesMapped(l: Lay, mapped: map<int, int>, p: int, n: nat)
    requires MappedOK(l, mapped) && Fresh(l.segs, p, n) && ApartFrom(mapped, p, n)
    ensures n >= PAGE && p !in mapped && MappedOK(MapPages(l, p, n), mapped[p := n])
  {
    hide Fresh;
    FreshSize(l.segs, p, n);
    var l', mapped' := MapPages(l, p, n), mapped[p := n];
    forall q | q in mapped
      ensures q != p && MapOK(l, q, mapped[q]) && (q + mapped[q] <= p || p + n <= q) && q > 0 && mapped[q] >= PAGE
    {
      FreshSize(l.segs, q, mapped[q]);
    }
    forall q | q in mapped'
      ensures MapOK(l', q, mapped'[q])
    {
    }
  }

  lemma MapPagesAlone(l: Lay, v: BinView, dv: int, dvsize: nat, mapped: map<int, int>, p: int, n: nat)
    requires HeapOK(l, v, dv, dvsize, {}) && MappedOK(l, mapped) && Fresh(l.segs, p, n) && ApartFrom(mapped, p, n)
    ensures n >= PAGE && LeftAlone(l, v.cell, MapPages(l, p, n), v.cell, Used(l) + Direct(mapped))
  {
    hide HeapOK, Fresh, InSegment, LayoutOK, BinsOK, Listed, MappedOK, ApartFrom;
    FreshSize(l.segs, p, n);
    HeapParts(l, v, dv, dvsize, {});
    var l', blocks := MapPages(l, p, n), Used(l) + Direct(mapped);
    forall q | q in blocks
      ensures PayloadKept(l, l', q, q + blocks[q])
    {
      forall a | q < a <= q + blocks[q]
        ensures SameHead(l, l', a) && SameFoot(l, l', a)
      {
        if q in mapped {
          MappedApart(l, mapped, q, p, n, a);
        } else {
          UsedApart(l, q, p, n, a);
        }
      }
    }
  }

  lemma MappedApart(l: Lay, mapped: map<int, int>, q: int, p: int, n: int, a: int)
    requires MappedOK(l, mapped) && q in mapped && ApartFrom(mapped, p, n) && q < a <= q + mapped[q] - MMAP_FOOT_PAD
    ensures !(p <= a < p + n)
  {
    hide Fresh;
    assert MapOK(l, q, mapped[q]);
  }

  lemma UsedApart(l: Lay, q: int, p: int, n: int, a: int)
    requires LayoutOK(l) && q in Used(l) && Fresh(l.segs, p, n) && q < a <= q + Used(l)[q]
    ensures !(p <= a < p + n)
  {
    hide LayoutOK, InSegment, Fresh, ChunkOK;
    if p <= a < p + n {
      FreshOutside(l.segs, p, n, a);
      ChunkInSegment(l, q);
      if a < End(l, q) {
        BetweenInSegment(l, q, a);
      }
    }
  }
}
