/** Callers may store anything in their blocks: no word of a payload matters to the allocator. */
module UserWrites {
  import opened BinIndex
  import opened Memory
  import opened Trie
  import opened TreeLinks
  import opened BinStore
  import opened Layout
  import opened Segments
  import opened Growth
  import opened NewSegment
  import opened Payload
  import opened Books
  import opened Blocks

  /** Words were written only in the payload [p + 16, e + 8) of the block that ends at `e`. */
  ghost predicate Scribbled(l: Lay, c: Cells, l': Lay, c': Cells, p: int, e: int) {
    && l' == l.(head := l'.head, foot := l'.foot)
    && (forall a :: !(p < a < e) ==> SameHead(l, l', a))
    && (forall a :: !(p < a <= e) ==> SameFoot(l, l', a))
    && (forall a :: !(p <= a < e) ==> SameCell(c, c', a))
  }

  /** A live block: a chunk in use that is no segment record, or a mapping; with its end. */
  ghost predicate BlockEnds(l: Lay, mapped: map<int, int>, p: int, e: int) {
    p in Used(l) + Direct(mapped) && e == p + (Used(l) + Direct(mapped))[p]
  }

  // ----- no word that matters to the allocator is in a live block

  lemma HeadShielded(l: Lay, mapped: map<int, int>, p: int, e: int, a: int)
    requires LayoutOK(l) && MappedOK(l, mapped) && BlockEnds(l, mapped, p, e) && HeadPlace(l, a)
    ensures !(p < a < e)
  {
    hide LayoutOK, Fresh, InSegment;
    if p in mapped {
      assert MapOK(l, p, mapped[p]);
      HeadInSegment(l, a);
      if p < a < e {
        FreshOutside(l.segs, p, mapped[p], a);
      }
    } else {
      HeadPlaceOutside(l, a, p);
    }
  }

  lemma HeadInSegment(l: Lay, a: int)
    requires LayoutOK(l) && HeadPlace(l, a)
    ensures InSegment(l.segs, a)
  {
    hide LayoutOK;
    if a in Marks(l) {
      MarkInSegment(l, a);
    } else {
      LayoutParts(l);
      SegmentAt(l, 0);
    }
  }

  lemma FootShielded(l: Lay, mapped: map<int, int>, p: int, e: int, q: int)
    requires LayoutOK(l) && MappedOK(l, mapped) && BlockEnds(l, mapped, p, e)
    requires q in l.chunks && q in l.head && !l.head[q].cinuse
    ensures !(p < End(l, q) <= e) && !(p <= q < e)
  {
    hide LayoutOK, Fresh, InSegment;
    assert FootPlace(l, End(l, q));
    if p in mapped {
      assert MapOK(l, p, mapped[p]);
      ChunkInSegment(l, q);
      if p < End(l, q) <= e {
        FreshOutside(l.segs, p, mapped[p], End(l, q));
      }
      if p <= q < e {
        FreshOutside(l.segs, p, mapped[p], q);
      }
    } else {
      FootPlaceOutside(l, End(l, q), p);
      FreeCellsOutside(l, q, p);
    }
  }

  // ----- so the layout, the mappings and the bins stay

  lemma ScribbledPrev(l: Lay, c: Cells, mapped: map<int, int>, l': Lay, c': Cells, p: int, e: int, q: int)
    requires LayoutOK(l) && MappedOK(l, mapped) && BlockEnds(l, mapped, p, e) && Scribbled(l, c, l', c', p, e)
    requires q in l.chunks && q in l.head && !l.head[q].pinuse
    ensures PrevOK(l', q)
  {
    hide LayoutOK, Housed, SameCell, MappedOK, BlockEnds;
    ChunkAt(l, q);
    var f := q - l.foot[q];
    HeadShielded(l, mapped, p, e, f);
    FootShielded(l, mapped, p, e, f);
    assert SameHead(l, l', f) && SameFoot(l, l', q);
  }

  lemma ScribbledChunk(l: Lay, c: Cells, mapped: map<int, int>, l': Lay, c': Cells, p: int, e: int, q: int)
    requires LayoutOK(l) && MappedOK(l, mapped) && BlockEnds(l, mapped, p, e) && Scribbled(l, c, l', c', p, e)
    requires q in l.chunks
    ensures ChunkOK(l', q)
  {
    hide LayoutOK, Housed, Clear, PrevOK, SameCell, MappedOK, BlockEnds;
    ChunkAt(l, q);
    assert Marks(l') == Marks(l);
    HeadShielded(l, mapped, p, e, q);
    HeadShielded(l, mapped, p, e, End(l, q));
    assert SameHead(l, l', q) && SameHead(l, l', End(l, q));
    if !l.head[q].pinuse {
      ScribbledPrev(l, c, mapped, l', c', p, e, q);
    }
    if !l.head[q].cinuse {
      FootShielded(l, mapped, p, e, q);
      assert SameFoot(l, l', End(l, q));
    }
    ChunkFrame(l, l', q);
  }

  lemma ScribbledLayout(l: Lay, c: Cells, mapped: map<int, int>, l': Lay, c': Cells, p: int, e: int)
    requires LayoutOK(l) && MappedOK(l, mapped) && BlockEnds(l, mapped, p, e) && Scribbled(l, c, l', c', p, e)
    ensures LayoutOK(l')
  {
    hide LayoutOK, ChunkOK, InSegment, Clear, SameCell, NoFence, MappedOK, BlockEnds;
    LayoutParts(l);
    assert Marks(l') == Marks(l);
    forall q | q in l'.chunks
      ensures ChunkOK(l', q)
    {
      ScribbledChunk(l, c, mapped, l', c', p, e, q);
    }
    forall f | f in l'.fences
      ensures FenceOK(l', f)
    {
      FenceAt(l, f);
      HeadShielded(l, mapped, p, e, f);
      assert SameHead(l, l', f);
    }
    forall i | 0 <= i < |l'.segs|
      ensures SegmentOK(l', i)
    {
      SegmentAt(l, i);
      HeadShielded(l, mapped, p, e, l.segs[i].base);
      assert SameHead(l, l', l.segs[i].base);
    }
    assert TopOK(l') by {
      HeadShielded(l, mapped, p, e, l.top);
      HeadShielded(l, mapped, p, e, l.top + l.topsize);
      assert SameHead(l, l', l.top) && SameHead(l, l', l.top + l.topsize);
    }
    LayoutIntro(l');
  }

  /** The first words of every mapping stay, also of the one written to. */
  lemma ScribbledMapped(l: Lay, c: Cells, mapped: map<int, int>, l': Lay, c': Cells, p: int, e: int)
    requires LayoutOK(l) && MappedOK(l, mapped) && BlockEnds(l, mapped, p, e) && Scribbled(l, c, l', c', p, e)
    ensures MappedOK(l', mapped)
  {
    hide LayoutOK, Fresh, InSegment, SameCell;
    forall q | q in mapped
      ensures MapOK(l', q, mapped[q])
    {
      assert MapOK(l, q, mapped[q]);
      assert !(p < q <= e) by {
        if p in mapped {
          assert MapOK(l, p, mapped[p]);
        } else if p < q <= e {
          FreshOutside(l.segs, q, mapped[q], q);
          BlockInSegment(l, p, q);
        }
      }
      assert SameHead(l, l', q) && SameFoot(l, l', q);
    }
  }

  /** Whatever lies in a chunk, its end included, is in a segment. */
  lemma BlockInSegment(l: Lay, p: int, a: int)
    requires LayoutOK(l) && p in l.chunks && p in l.head && p <= a <= End(l, p)
    ensures InSegment(l.segs, a)
  {
    hide LayoutOK, Clear, PrevOK;
    ChunkAt(l, p);
    var i: nat :| Within(l.segs, l.stops, i, p, End(l, p));
    SegmentAt(l, i);
  }

  /** The bins depend only on the words of their members and headers. */
  lemma BinsFrame(v: BinView, h: Heads, c': Cells, h': Heads)
    requires BinsOK(v, h) && Memory.SameCells(v.cell, c', v.members) && SameHeads(h, h', v.members)
    requires forall a :: a < 0 && a in v.cell ==> a in c' && c'[a] == v.cell[a]
    ensures BinsOK(v.(cell := c'), h')
  {
    hide SmallOK, TreeOK, Addrs;
    forall i | 0 <= i < NSMALLBINS
      ensures SmallOK(i, v.small[i], v.smallmap[i], c', h')
    {
      SmallMapped(i, v.small[i], v.smallmap[i], v.cell, h);
      assert forall a :: a in RingSet(v.small[i]) ==> a in v.members;
      SmallFrame(i, v.small[i], v.smallmap[i], v.cell, h, c', h');
    }
    forall i | 0 <= i < NTREEBINS
      ensures TreeOK(i, v.trees[i], v.treebins[i], v.treemap[i], c', h')
    {
      TreeMapped(i, v.trees[i], v.treebins[i], v.treemap[i], v.cell, h);
      TreeFrame(i, v.trees[i], v.treebins[i], v.treemap[i], v.cell, h, c', h');
    }
  }

  lemma ScribbledMember(l: Lay, v: BinView, dv: int, dvsize: nat, mapped: map<int, int>, l': Lay, c': Cells, p: int, e: int,
                        a: int)
    requires HeapOK(l, v, dv, dvsize, {}) && MappedOK(l, mapped) && BlockEnds(l, mapped, p, e)
    requires Scribbled(l, v.cell, l', c', p, e) && a in v.members
    ensures a in l.head && SameHead(l, l', a) && a in v.cell && SameCell(v.cell, c', a)
  {
    hide LayoutOK, BinsOK, SameHead, SameCell, SameFoot, MappedOK, BlockEnds;
    HeapParts(l, v, dv, dvsize, {});
    ChunkHead(l, a);
    FootShielded(l, mapped, p, e, a);
    MemberMapped(v, l.head, a);
  }

  lemma BlockPlace(l: Lay, mapped: map<int, int>, p: int, e: int)
    requires LayoutOK(l) && MappedOK(l, mapped) && BlockEnds(l, mapped, p, e)
    ensures p > 0
  {
    hide LayoutOK;
    if p in mapped {
      assert MapOK(l, p, mapped[p]);
    } else {
      ChunkHead(l, p);
    }
  }

  /** Whatever is stored in a live block, mapped or not, the heap stays well formed with the same blocks. */
  lemma ScribbleKeeps(l: Lay, v: BinView, dv: int, dvsize: nat, mapped: map<int, int>, l': Lay, c': Cells, p: int, e: int)
    requires HeapOK(l, v, dv, dvsize, {}) && MappedOK(l, mapped) && BlockEnds(l, mapped, p, e)
    requires Scribbled(l, v.cell, l', c', p, e)
    ensures HeapOK(l', v.(cell := c'), dv, dvsize, {}) && MappedOK(l', mapped) && Used(l') == Used(l)
  {
    hide LayoutOK, BinsOK, MappedOK, BlockEnds;
    HeapParts(l, v, dv, dvsize, {});
    ScribbledLayout(l, v.cell, mapped, l', c', p, e);
    ScribbledMapped(l, v.cell, mapped, l', c', p, e);
    BlockPlace(l, mapped, p, e);
    forall a | a in v.members
      ensures a in l.head && SameHead(l, l', a) && a in v.cell && SameCell(v.cell, c', a)
    {
      ScribbledMember(l, v, dv, dvsize, mapped, l', c', p, e, a);
    }
    forall q | q in l.chunks
      ensures q in l.head && q in l'.head && l'.head[q] == l.head[q]
    {
      ChunkHead(l, q);
      HeadShielded(l, mapped, p, e, q);
      assert SameHead(l, l', q);
    }
    forall a | a < 0 && a in v.cell
      ensures a in c' && c'[a] == v.cell[a]
    {
      assert SameCell(v.cell, c', a);
    }
    BinsFrame(v, l.head, c', l'.head);
  }
}
