/** How the layout changes at top, and when the system supplies more memory. */
module Segments {
  import opened Memory
  import opened Layout

  // ----- edits that move the start of top

  /** `l'` differs from `l` only from `a` up to the end of top, which stays where it is. */
  ghost predicate TopEdit(l: Lay, l': Lay, a: int) {
    var e := l.top + l.topsize;
    && l'.segs == l.segs && |l.stops| > 0 && l'.stops == l.stops[0 := l'.top] && l'.fences == l.fences
    && l'.records == l.records
    && a <= l'.top && l'.top + l'.topsize == e && l'.topsize > 0 && l'.top % 16 == 0
    && a <= l.top && (a in l.chunks || a == l.top) && (a in l'.chunks || a == l'.top) && Solid(l, a, l.top) && |l.segs| > 0 && l.segs[0].base <= a
    && (forall p :: !(a <= p < e) ==> (p in l'.chunks <==> p in l.chunks))
    && (forall p :: p in l'.chunks && a <= p < e ==> p < l'.top)
    && (forall p :: p in l.head && !(a <= p < e) ==> p in l'.head && l'.head[p] == l.head[p])
    && (forall f :: f in l.foot && !(a < f <= e) ==> f in l'.foot && l'.foot[f] == l.foot[f])
    && a in l.head && a in l'.head && l'.head[a].pinuse == l.head[a].pinuse
    && (!l.head[a].pinuse ==> l'.head[a].cinuse)
    && l'.top in l'.head && l'.head[l'.top] == Head(l'.topsize, true, false)
  }

  lemma TopMarks(l: Lay, l': Lay, a: int, q: int)
    requires TopEdit(l, l', a) && LayoutOK(l) && q in l.chunks && !(a <= q < l.top + l.topsize)
    ensures q in l.head && ((q < a && End(l, q) <= a) || l.top + l.topsize < q)
    ensures End(l, q) in Marks(l') && Clear(Marks(l'), q, End(l, q))
    ensures End(l, q) != l'.top || End(l, q) == a
  {
    hide LayoutOK, Housed, PrevOK, Solid;
    ChunkAt(l, q);
    LayoutParts(l);
    var e := l.top + l.topsize;
    assert q in Marks(l);
    forall m | m in Marks(l')
      ensures m <= q || End(l, q) <= m
    {
      if !(a <= m < e) {
        assert m in Marks(l);
      }
    }
  }

  lemma TopPrev(l: Lay, l': Lay, a: int, q: int)
    requires TopEdit(l, l', a) && LayoutOK(l) && q in l.chunks && !(a <= q < l.top + l.topsize)
    requires q in l.head && !l.head[q].pinuse
    ensures PrevOK(l', q)
  {
    hide LayoutOK, Housed, Solid;
    ChunkAt(l, q);
    var f := q - l.foot[q];
    ChunkAt(l, f);
    LayoutParts(l);
    assert q in Marks(l) && l.top in Marks(l);
  }

  lemma TopHoused(l: Lay, l': Lay, a: int, q: int)
    requires TopEdit(l, l', a) && LayoutOK(l) && q in l.chunks && !(a <= q < l.top + l.topsize)
    ensures q in l.head && Housed(l'.segs, l'.stops, q, End(l, q))
  {
    hide LayoutOK, PrevOK, Clear, Solid;
    ChunkAt(l, q);
    LayoutParts(l);
    TopMarks(l, l', a, q);
    var i: nat :| Within(l.segs, l.stops, i, q, End(l, q));
    assert Within(l'.segs, l'.stops, i, q, End(l, q));
  }

  lemma TopOutside(l: Lay, l': Lay, a: int, q: int)
    requires TopEdit(l, l', a) && LayoutOK(l) && q in l.chunks && !(a <= q < l.top + l.topsize)
    ensures ChunkOK(l', q)
  {
    hide LayoutOK, Housed, Clear, PrevOK, Solid;
    ChunkAt(l, q);
    LayoutParts(l);
    TopMarks(l, l', a, q);
    TopHoused(l, l', a, q);
    if !l.head[q].pinuse {
      TopPrev(l, l', a, q);
    }
    ChunkFrame(l, l', q);
  }

  lemma TopSegment(l: Lay, l': Lay, a: int, i: nat)
    requires TopEdit(l, l', a) && LayoutOK(l) && i < |l.segs|
    ensures |l'.stops| == |l'.segs| && SegmentOK(l', i)
  {
    hide LayoutOK, Clear, Solid, NoFence;
    LayoutParts(l);
    SegmentAt(l, i);
    SegmentAt(l, 0);
    var b := l.segs[i].base;
    assert i > 0 ==> !(a <= b < l.top + l.topsize);
    assert b in l'.head && l'.head[b].pinuse;
    TopNoFence(l, l', a);
  }

  /** No fencepost lies in top. */
  lemma TopNoFence(l: Lay, l': Lay, a: int)
    requires TopEdit(l, l', a) && LayoutOK(l)
    ensures |l.segs| > 0 && NoFence(l'.fences, l.segs[0].base, l'.top)
  {
    hide LayoutOK, Solid;
    LayoutParts(l);
    SegmentAt(l, 0);
    forall f | f in l'.fences
      ensures f < l.segs[0].base || l'.top <= f
    {
      assert f in Marks(l);
    }
  }

  /** No mark of the new layout lies inside the new top, and no fencepost is at its start. */
  lemma TopClear(l: Lay, l': Lay, a: int, m: int)
    requires TopEdit(l, l', a) && LayoutOK(l) && m in Marks(l')
    ensures m <= l'.top || l'.top + l'.topsize + TOP_FOOT_SIZE <= m
    ensures m in l.fences ==> m != l'.top
  {
    hide LayoutOK;
    LayoutParts(l);
    if !(a <= m < l.top + l.topsize) || m in l.fences {
      assert m in Marks(l);
    }
  }

  lemma TopClearAll(l: Lay, l': Lay, a: int)
    requires TopEdit(l, l', a) && LayoutOK(l)
    ensures Clear(Marks(l'), l'.top, l'.top + l'.topsize + TOP_FOOT_SIZE) && l'.top !in l'.fences
  {
    hide LayoutOK, TopEdit;
    forall m | m in Marks(l')
      ensures m <= l'.top || l'.top + l'.topsize + TOP_FOOT_SIZE <= m
    {
      TopClear(l, l', a, m);
    }
    if l'.top in l'.fences {
      SameFences(l, l', a);
      TopClear(l, l', a, l'.top);
    }
  }

  lemma SameFences(l: Lay, l': Lay, a: int)
    requires TopEdit(l, l', a)
    ensures l'.fences == l.fences
  {
    hide Solid;
  }

  lemma Aligned16(x: int, y: int, z: int)
    requires x % 16 == 0 && y % 16 == 0 && z % 16 == 0
    ensures (x + y - z) % 16 == 0
  {
  }

  lemma TopTop(l: Lay, l': Lay, a: int)
    requires TopEdit(l, l', a) && LayoutOK(l)
    ensures TopOK(l')
  {
    TopClearAll(l, l', a);
    hide LayoutOK, Solid, Marks, Clear, NoFence;
    LayoutParts(l);
    SegmentBase(l);
    Aligned16(l.top, l.topsize, l'.top);
  }

  lemma SegmentBase(l: Lay)
    requires LayoutOK(l)
    ensures |l.segs| > 0 && l.segs[0].base > 0
  {
    hide LayoutOK, NoFence;
    LayoutParts(l);
    SegmentAt(l, 0);
  }

  lemma TopEditKeeps(l: Lay, l': Lay, a: int)
    requires TopEdit(l, l', a) && LayoutOK(l)
    requires forall q :: q in l'.chunks && a <= q < l'.top ==> ChunkOK(l', q)
    ensures LayoutOK(l')
  {
    hide LayoutOK, ChunkOK, SegmentOK, InSegment;
    LayoutParts(l);
    forall q | q in l'.chunks
      ensures ChunkOK(l', q)
    {
      if !(a <= q < l.top + l.topsize) {
        TopOutside(l, l', a, q);
      }
    }
    forall f | f in l'.fences
      ensures FenceOK(l', f)
    {
      FenceAt(l, f);
      assert f in Marks(l);
    }
    forall i | 0 <= i < |l'.segs|
      ensures SegmentOK(l', i)
    {
      TopSegment(l, l', a, i);
    }
    TopTop(l, l', a);
    LayoutIntro(l');
  }

  lemma TopFacts(l: Lay)
    requires LayoutOK(l)
    ensures |l.segs| > 0 && |l.stops| == |l.segs| && l.segs[0].base <= l.top && l.top !in l.chunks
    ensures l.top % 16 == 0 && l.topsize % 16 == 0 && l.top in l.head && l.head[l.top] == Head(l.topsize, true, false)
  {
    hide LayoutOK, SegmentsApart, Clear, NoFence;
    LayoutParts(l);
    SegmentAt(l, 0);
  }

  lemma TakeTopEdit(l: Lay, nb: nat)
    requires LayoutOK(l) && nb % 16 == 0 && 32 <= nb < l.topsize
    ensures |l.stops| > 0 && TopEdit(l, TakeTop(l, nb), l.top)
  {
    hide LayoutOK, Solid;
    TopFacts(l);
    SolidEmpty(l, l.top);
    var l' := TakeTop(l, nb);
    forall p | p in l'.chunks && l.top <= p < l.top + l.topsize
      ensures p < l'.top
    {
      if p != l.top {
        ChunkBeyond(l, p);
      }
    }
  }

  lemma ChunkBeyond(l: Lay, p: int)
    requires LayoutOK(l) && p in l.chunks
    ensures p < l.top || l.top + l.topsize <= p
  {
    hide LayoutOK;
    LayoutParts(l);
    ChunkAt(l, p);
    TopApart(l, p);
  }

  lemma SolidEmpty(l: Lay, a: int)
    ensures Solid(l, a, a)
  {
  }

  lemma TakeTopChunk(l: Lay, nb: nat)
    requires LayoutOK(l) && nb % 16 == 0 && 32 <= nb < l.topsize
    ensures |l.stops| > 0 && ChunkOK(TakeTop(l, nb), l.top)
  {
    hide LayoutOK, PrevOK;
    LayoutParts(l);
    SegmentAt(l, 0);
    var l' := TakeTop(l, nb);
    assert Within(l'.segs, l'.stops, 0, l.top, l'.top);
    forall m | m in Marks(l')
      ensures m <= l.top || l'.top <= m
      ensures m in l.fences ==> m != l'.top
    {
      if m != l'.top || m in l.fences {
        assert m in Marks(l);
      }
    }
  }

  /** Handing out the low end of top. */
  lemma TakeTopKeeps(l: Lay, nb: nat)
    requires LayoutOK(l) && nb % 16 == 0 && 32 <= nb < l.topsize
    ensures |l.stops| > 0 && LayoutOK(TakeTop(l, nb)) && l.top !in l.chunks
  {
    hide LayoutOK, ChunkOK, TopEdit, Clear;
    LayoutParts(l);
    TakeTopEdit(l, nb);
    TakeTopChunk(l, nb);
    var l' := TakeTop(l, nb);
    forall q | q in l'.chunks && l.top <= q < l'.top
      ensures ChunkOK(l', q)
    {
      if q in l.chunks {
        TopApart(l, q);
      }
    }
    TopEditKeeps(l, l', l.top);
  }

  lemma GrowIntoTopShape(l: Lay, p: int, nb: nat)
    requires p in l.head && End(l, p) == l.top && |l.stops| > 0 && l.head[p].size < nb < l.head[p].size + l.topsize
    ensures var l', e := GrowIntoTop(l, p, nb), l.top + l.topsize;
      && l'.segs == l.segs && l'.stops == l.stops[0 := l'.top] && l'.fences == l.fences && l'.records == l.records
      && l'.chunks == l.chunks && l'.foot == l.foot
      && l'.top == p + nb && l'.top + l'.topsize == e && l'.topsize > 0
      && (forall q :: q in l.head && !(p <= q < e) ==> q in l'.head && l'.head[q] == l.head[q])
      && p in l'.head && l'.head[p] == Head(nb, l.head[p].pinuse, true)
      && l'.top in l'.head && l'.head[l'.top] == Head(l'.topsize, true, false)
  {
  }

  /** A chunk in use grows into top. */
  lemma GrowIntoTopEdit(l: Lay, p: int, nb: nat)
    requires LayoutOK(l) && p in l.chunks && p in l.head && l.head[p].cinuse && End(l, p) == l.top
    requires nb % 16 == 0 && l.head[p].size < nb < l.head[p].size + l.topsize
    ensures |l.stops| > 0 && TopEdit(l, GrowIntoTop(l, p, nb), p)
  {
    hide LayoutOK, Solid, Housed;
    TopFacts(l);
    ChunkFacts(l, p);
    ChunkSolid(l, p);
    TopSegmentOf(l, p);
    GrowIntoTopShape(l, p, nb);
    Aligned16(p, nb, 0);
    hide GrowIntoTop;
    var l' := GrowIntoTop(l, p, nb);
    forall q | q in l'.chunks && p <= q < l.top + l.topsize
      ensures q < l'.top
    {
      ChunkBeyond(l, q);
    }
  }

  lemma ChunkFacts(l: Lay, p: int)
    requires LayoutOK(l) && p in l.chunks
    ensures p > 0 && p % 16 == 0 && p in l.head && l.head[p].size > 0 && Housed(l.segs, l.stops, p, End(l, p))
  {
    hide LayoutOK, PrevOK, Clear, Housed;
    ChunkAt(l, p);
  }

  /** A chunk that ends at top lies in the first segment. */
  lemma TopSegmentOf(l: Lay, p: int)
    requires LayoutOK(l) && p in l.chunks && p in l.head && p < l.top && Housed(l.segs, l.stops, p, l.top)
    ensures |l.segs| > 0 && l.segs[0].base <= p
  {
    hide LayoutOK, PrevOK, Clear;
    LayoutParts(l);
    var i: nat :| Within(l.segs, l.stops, i, p, l.top);
    SegmentAt(l, i);
    SegmentAt(l, 0);
  }

  lemma GrowIntoTopChunk(l: Lay, p: int, nb: nat)
    requires LayoutOK(l) && p in l.chunks && p in l.head && l.head[p].cinuse && End(l, p) == l.top
    requires nb % 16 == 0 && l.head[p].size < nb < l.head[p].size + l.topsize
    ensures |l.stops| > 0 && ChunkOK(GrowIntoTop(l, p, nb), p)
  {
    hide LayoutOK, Solid;
    LayoutParts(l);
    ChunkAt(l, p);
    TopSegmentOf(l, p);
    var l' := GrowIntoTop(l, p, nb);
    assert Within(l'.segs, l'.stops, 0, p, l'.top);
    forall m | m in Marks(l')
      ensures m <= p || l'.top <= m
      ensures m in l.fences ==> m != l'.top
    {
      if m != l'.top || m in l.fences {
        assert m in Marks(l);
      }
    }
  }

  lemma GrowIntoTopKeeps(l: Lay, p: int, nb: nat)
    requires LayoutOK(l) && p in l.chunks && p in l.head && l.head[p].cinuse && End(l, p) == l.top
    requires nb % 16 == 0 && l.head[p].size < nb < l.head[p].size + l.topsize
    ensures |l.stops| > 0 && LayoutOK(GrowIntoTop(l, p, nb))
  {
    hide LayoutOK, ChunkOK, TopEdit, Clear;
    LayoutParts(l);
    GrowIntoTopEdit(l, p, nb);
    GrowIntoTopChunk(l, p, nb);
    var l' := GrowIntoTop(l, p, nb);
    forall q | q in l'.chunks && p <= q < l'.top
      ensures ChunkOK(l', q)
    {
      TopApart(l, q);
      if q != p {
        ChunksApart(l, p, q);
      }
    }
    TopEditKeeps(l, l', p);
  }

  /** The chunks below top become part of it. */
  lemma JoinTopKeeps(l: Lay, a: int)
    requires LayoutOK(l) && Region(l, a, l.top) && a in l.head && l.head[a].pinuse
    ensures |l.stops| > 0 && l.topsize >= 0 && LayoutOK(JoinTop(l, a))
  {
    hide LayoutOK, PrevOK, ChunkOK, Clear;
    LayoutParts(l);
    JoinTopEdit(l, a);
    TopEditKeeps(l, JoinTop(l, a), a);
  }

  lemma JoinTopEdit(l: Lay, a: int)
    requires LayoutOK(l) && Region(l, a, l.top) && a in l.head && l.head[a].pinuse
    ensures |l.stops| > 0 && l.topsize >= 0 && TopEdit(l, JoinTop(l, a), a)
  {
    hide LayoutOK, PrevOK, Housed, Solid;
    LayoutParts(l);
    TopSegmentOf(l, a);
    ChunkAt(l, a);
    var l' := JoinTop(l, a);
    forall q | q in l'.chunks
      ensures !(a <= q < l.top + l.topsize)
    {
      assert q in Marks(l);
    }
  }
}
