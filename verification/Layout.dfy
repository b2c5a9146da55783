/**
 * The boundary-tag layout of the heap: which addresses start chunks, what their heads and feet
 * hold, where top and the fenceposts are, and how segments are tiled by chunks.
 */
module Layout {
  import opened Memory

  const MIN_CHUNK_SIZE := 32
  const TOP_FOOT_SIZE := 80
  const SEGMENT_LIMIT := 0x100_0000_0000

  datatype Segment = Segment(base: int, size: int)

  /**
   * `records` are the chunks that hold segment records. `stops[i]` is where the chunks of segment `i` end: top,
   * or the first fencepost.
   */
  datatype Lay = Lay(head: Heads, foot: Feet, chunks: set<int>, records: set<int>, fences: set<int>, top: int,
                     topsize: int, segs: seq<Segment>, stops: seq<int>)

  /** The head word of a fencepost: size 8 with both in-use bits. */
  const FENCEPOST := Head(8, true, true)

  /** The addresses the allocator treats as starts of chunks. */
  function Marks(l: Lay): (m: set<int>) {
    l.chunks + l.fences + {l.top}
  }

  function End(l: Lay, p: int): (e: int)
    requires p in l.head
  {
    p + l.head[p].size
  }

  /** No chunk, top or fencepost starts strictly inside [p, e). */
  ghost predicate Clear(m: set<int>, p: int, e: int) {
    forall b :: b in m ==> b <= p || e <= b
  }

  /** [p, e) lies in the tiled part of segment `i`. */
  predicate Within(segs: seq<Segment>, stops: seq<int>, i: nat, p: int, e: int) {
    i < |segs| && i < |stops| && segs[i].base <= p && e <= stops[i]
  }

  ghost predicate Housed(segs: seq<Segment>, stops: seq<int>, p: int, e: int) {
    exists i :: Within(segs, stops, i, p, e)
  }

  /** What every ordinary chunk satisfies. */
  ghost predicate ChunkOK(l: Lay, p: int) {
    && p > 0 && p % 16 == 0 && p in l.head
    && MIN_CHUNK_SIZE <= l.head[p].size && l.head[p].size % 16 == 0
    && End(l, p) in Marks(l) && End(l, p) in l.head
    && Clear(Marks(l), p, End(l, p))
    && Housed(l.segs, l.stops, p, End(l, p))
    && l.head[End(l, p)].pinuse == l.head[p].cinuse
    && (!l.head[p].cinuse ==> FreeOK(l, p))
    && (!l.head[p].pinuse ==> PrevOK(l, p))
    && (End(l, p) in l.fences ==> p in l.records)
  }

  /** A free chunk: its predecessor and successor are in use, and its foot holds its size. */
  ghost predicate FreeOK(l: Lay, p: int)
    requires p in l.head && End(l, p) in l.head
  {
    && l.head[p].pinuse
    && End(l, p) != l.top && l.head[End(l, p)].cinuse
    && End(l, p) in l.foot && l.foot[End(l, p)] == l.head[p].size
  }

  /** A clear PINUSE bit: the foot leads back to the free chunk before. */
  ghost predicate PrevOK(l: Lay, p: int) {
    && p in l.foot
    && p - l.foot[p] in l.chunks
    && p - l.foot[p] in l.head
    && l.head[p - l.foot[p]].size == l.foot[p]
    && !l.head[p - l.foot[p]].cinuse
  }

  ghost predicate TopOK(l: Lay) {
    && l.top > 0 && l.top % 16 == 0 && l.topsize > 0 && l.topsize % 16 == 0
    && l.top !in l.chunks && l.top !in l.fences
    && l.top in l.head && l.head[l.top] == Head(l.topsize, true, false)
    && l.top + l.topsize in l.head && l.head[l.top + l.topsize] == Head(TOP_FOOT_SIZE, false, false)
    && Clear(Marks(l), l.top, l.top + l.topsize + TOP_FOOT_SIZE)
    && |l.segs| > 0 && |l.stops| > 0 && l.stops[0] == l.top
    && l.top + l.topsize + TOP_FOOT_SIZE == l.segs[0].base + l.segs[0].size
  }

  ghost predicate FenceOK(l: Lay, f: int) {
    f !in l.chunks && f in l.head && l.head[f] == FENCEPOST && InSegment(l.segs, f)
  }

  ghost predicate InSegment(segs: seq<Segment>, a: int) {
    exists i :: 0 <= i < |segs| && segs[i].base <= a < segs[i].base + segs[i].size
  }

  /** A segment is a block of whole pages; its first chunk counts as following one in use. */
  ghost predicate SegmentOK(l: Lay, i: nat)
    requires i < |l.segs| && i < |l.stops|
  {
    var s := l.segs[i];
    && 0 < s.base && s.base % 4096 == 0 && s.size % 4096 == 0 && 0 < s.size < SEGMENT_LIMIT
    && s.base <= l.stops[i] && l.stops[i] + 16 <= s.base + s.size
    && (s.base in l.chunks || s.base == l.top)
    && s.base in l.head && l.head[s.base].pinuse
    && (i > 0 ==> l.stops[i] in l.fences)
    && NoFence(l.fences, s.base, l.stops[i])
  }

  ghost predicate NoFence(fences: set<int>, a: int, b: int) {
    forall f :: f in fences ==> f < a || b <= f
  }

  ghost predicate SegmentsApart(l: Lay) {
    forall i, j :: 0 <= i < j < |l.segs| ==>
      l.segs[i].base + l.segs[i].size <= l.segs[j].base || l.segs[j].base + l.segs[j].size <= l.segs[i].base
  }

  /** The whole layout. The triggers keep the facts about one chunk from leading to those about the next. */
  ghost predicate LayoutOK(l: Lay) {
    && |l.segs| > 0 && |l.stops| == |l.segs|
    && (forall p {:trigger ChunkOK(l, p)} :: p in l.chunks ==> ChunkOK(l, p))
    && (forall f {:trigger FenceOK(l, f)} :: f in l.fences ==> FenceOK(l, f))
    && (forall i {:trigger SegmentOK(l, i)} :: 0 <= i < |l.segs| ==> SegmentOK(l, i))
    && SegmentsApart(l)
    && TopOK(l)
  }

  // ----- transforms

  /** The whole free chunk `p` is handed out. */
  function Use(l: Lay, p: int): (l': Lay)
    requires p in l.head && End(l, p) in l.head
  {
    var e := End(l, p);
    var h := l.head[p := Head(l.head[p].size, true, true)];
    l.(head := h[e := h[e].(pinuse := true)])
  }

  /** The first `nb` bytes of the free chunk `p` are handed out; the rest stays free. */
  function Split(l: Lay, p: int, nb: nat): (l': Lay)
    requires p in l.head && nb <= l.head[p].size
  {
    var s, r := l.head[p].size, p + nb;
    l.(head := l.head[p := Head(nb, true, true)][r := Head(s - nb, true, false)],
       foot := l.foot[p + s := s - nb],
       chunks := l.chunks + {r})
  }

  /** `nb` bytes are handed out from the low end of top. */
  function TakeTop(l: Lay, nb: nat): (l': Lay)
    requires nb <= l.topsize && |l.stops| > 0
  {
    l.(head := l.head[l.top + nb := Head(l.topsize - nb, true, false)][l.top := Head(nb, true, true)],
       chunks := l.chunks + {l.top},
       top := l.top + nb, topsize := l.topsize - nb,
       stops := l.stops[0 := l.top + nb])
  }

  /** All chunks of [a, b) become one free chunk. */
  function Coalesce(l: Lay, a: int, b: int): (l': Lay)
    requires a <= b && b in l.head
  {
    var h := l.head[a := Head(b - a, true, false)];
    l.(head := h[b := h[b].(pinuse := false)],
       foot := l.foot[b := b - a],
       chunks := (set p | p in l.chunks && !(a <= p < b)) + {a})
  }

  /** All chunks of [a, top) join top. */
  function JoinTop(l: Lay, a: int): (l': Lay)
    requires a <= l.top && l.topsize >= 0 && |l.stops| > 0
  {
    var t := l.topsize + (l.top - a);
    l.(head := l.head[a := Head(t, true, false)],
       chunks := (set p | p in l.chunks && !(a <= p < l.top)),
       top := a, topsize := t,
       stops := l.stops[0 := a])
  }

  /** The chunk `p` in use is cut in two chunks in use. */
  function SplitUsed(l: Lay, p: int, nb: nat): (l': Lay)
    requires p in l.head && nb <= l.head[p].size
  {
    var s, r := l.head[p].size, p + nb;
    l.(head := l.head[p := Head(nb, l.head[p].pinuse, true)][r := Head(s - nb, true, true)],
       chunks := l.chunks + {r})
  }

  /** The chunk `p` in use swallows the chunk after it. */
  function Absorb(l: Lay, p: int): (l': Lay)
    requires p in l.head && End(l, p) in l.head && End(l, End(l, p)) in l.head
  {
    var n := End(l, p);
    var e := End(l, n);
    var h := l.head[p := Head(l.head[p].size + l.head[n].size, l.head[p].pinuse, true)];
    l.(head := h[e := h[e].(pinuse := true)],
       chunks := l.chunks - {n})
  }

  /** The chunk `p` in use, which ends at top, grows to `nb` bytes. */
  function GrowIntoTop(l: Lay, p: int, nb: nat): (l': Lay)
    requires p in l.head && l.head[p].size <= nb <= l.head[p].size + l.topsize && |l.stops| > 0
  {
    var t := l.head[p].size + l.topsize - nb;
    l.(head := l.head[p := Head(nb, l.head[p].pinuse, true)][p + nb := Head(t, true, false)],
       top := p + nb, topsize := t,
       stops := l.stops[0 := p + nb])
  }

  // ----- consequences

  lemma ChunkAt(l: Lay, p: int)
    requires LayoutOK(l) && p in l.chunks
    ensures ChunkOK(l, p)
  {
    hide ChunkOK, FenceOK, SegmentOK, SegmentsApart, TopOK;
  }

  lemma FenceAt(l: Lay, f: int)
    requires LayoutOK(l) && f in l.fences
    ensures FenceOK(l, f)
  {
    hide ChunkOK, FenceOK, SegmentOK, SegmentsApart, TopOK;
  }

  lemma SegmentAt(l: Lay, i: nat)
    requires LayoutOK(l) && i < |l.segs|
    ensures |l.stops| == |l.segs| && SegmentOK(l, i)
  {
    hide ChunkOK, FenceOK, SegmentOK, SegmentsApart, TopOK;
  }

  lemma LayoutParts(l: Lay)
    requires LayoutOK(l)
    ensures |l.segs| > 0 && |l.stops| == |l.segs| && SegmentsApart(l) && TopOK(l)
  {
    hide ChunkOK, FenceOK, SegmentOK, SegmentsApart, TopOK;
  }

  lemma LayoutIntro(l: Lay)
    requires |l.segs| > 0 && |l.stops| == |l.segs|
    requires forall p :: p in l.chunks ==> ChunkOK(l, p)
    requires forall f :: f in l.fences ==> FenceOK(l, f)
    requires forall i :: 0 <= i < |l.segs| ==> SegmentOK(l, i)
    requires SegmentsApart(l) && TopOK(l)
    ensures LayoutOK(l)
  {
    hide ChunkOK, FenceOK, SegmentOK, SegmentsApart, TopOK;
  }

  /** Chunks do not overlap. */
  lemma ChunksApart(l: Lay, p: int, q: int)
    requires LayoutOK(l) && p in l.chunks && q in l.chunks && p < q
    ensures p in l.head && End(l, p) <= q
  {
    hide LayoutOK, Housed;
    ChunkAt(l, p);
    assert q in Marks(l);
  }

  /** Different chunks end at different places. */
  lemma EndsDistinct(l: Lay, p: int, q: int)
    requires LayoutOK(l) && p in l.chunks && q in l.chunks && p != q
    ensures p in l.head && q in l.head && End(l, p) != End(l, q)
  {
    hide LayoutOK, Housed, Clear;
    ChunkAt(l, p);
    ChunkAt(l, q);
    if p < q {
      ChunksApart(l, p, q);
    } else {
      ChunksApart(l, q, p);
    }
  }

  /** Chunks lie clear of top. */
  lemma TopApart(l: Lay, p: int)
    requires LayoutOK(l) && p in l.chunks
    ensures p in l.head && p != l.top && (End(l, p) <= l.top || l.top + l.topsize + TOP_FOOT_SIZE <= p)
    ensures p != l.top + l.topsize && End(l, p) != l.top + l.topsize
  {
    hide LayoutOK, Housed;
    ChunkAt(l, p);
    LayoutParts(l);
    assert p in Marks(l) && l.top in Marks(l);
  }

  /** The chunk after a free one is in use and is no fencepost. */
  lemma AfterFree(l: Lay, p: int)
    requires LayoutOK(l) && p in l.chunks && p in l.head && !l.head[p].cinuse
    ensures End(l, p) in l.chunks && End(l, p) in l.head && l.head[End(l, p)].cinuse && !l.head[End(l, p)].pinuse
    ensures l.head[p].pinuse && End(l, p) in l.foot && l.foot[End(l, p)] == l.head[p].size
  {
    hide LayoutOK, Clear, Housed;
    ChunkAt(l, p);
    if End(l, p) in l.fences {
      FenceAt(l, End(l, p));
    }
  }

  /** A chunk whose surroundings did not change is still right. */
  lemma ChunkFrame(l: Lay, l': Lay, q: int)
    requires ChunkOK(l, q)
    requires q in l'.head && l'.head[q] == l.head[q]
    requires End(l, q) in l'.head && l'.head[End(l, q)].pinuse == l.head[q].cinuse
    requires End(l, q) in Marks(l') && Clear(Marks(l'), q, End(l, q)) && Housed(l'.segs, l'.stops, q, End(l, q))
    requires !l.head[q].cinuse ==>
               && End(l, q) != l'.top && l'.head[End(l, q)].cinuse
               && End(l, q) in l'.foot && l'.foot[End(l, q)] == l.head[q].size
    requires !l.head[q].pinuse ==> PrevOK(l', q)
    requires End(l, q) in l'.fences ==> q in l'.records
    ensures ChunkOK(l', q)
  {
    hide Clear, Housed, PrevOK, Marks;
  }

  // ----- edits between two boundaries

  /** Neither top nor a fencepost starts in [a, b). */
  ghost predicate Solid(l: Lay, a: int, b: int) {
    forall m :: m in l.fences || m == l.top ==> m < a || b <= m
  }

  lemma ChunkSolid(l: Lay, p: int)
    requires LayoutOK(l) && p in l.chunks
    ensures p in l.head && Solid(l, p, End(l, p))
  {
    hide LayoutOK, Housed, PrevOK;
    ChunkAt(l, p);
    LayoutParts(l);
    forall m | m in l.fences || m == l.top
      ensures m < p || End(l, p) <= m
    {
      assert m in Marks(l);
      if m in l.fences {
        FenceAt(l, m);
      }
    }
  }

  /**
   * `l'` differs from `l` only in the chunks of [a, b), where a chunk starts at `a` and at `b` something
   * starts. The PINUSE bit at `b` may change too.
   */
  ghost predicate Edit(l: Lay, l': Lay, a: int, b: int) {
    && l'.segs == l.segs && l'.stops == l.stops && l'.fences == l.fences && l'.records == l.records
    && l'.top == l.top && l'.topsize == l.topsize
    && a in l.chunks && a < b && b in Marks(l) && a in l'.chunks
    && Solid(l, a, b) && Housed(l.segs, l.stops, a, b)
    && (forall p :: !(a <= p < b) ==> (p in l'.chunks <==> p in l.chunks))
    && (forall p :: p in l.head && !(a <= p <= b) ==> p in l'.head && l'.head[p] == l.head[p])
    && (forall e :: e in l.foot && !(a < e <= b) ==> e in l'.foot && l'.foot[e] == l.foot[e])
    && EditEnds(l, l', a, b)
  }

  /** What the neighbours of [a, b) rely on. */
  ghost predicate EditEnds(l: Lay, l': Lay, a: int, b: int) {
    && a in l.head && a in l'.head && l'.head[a].pinuse == l.head[a].pinuse
    && (!l.head[a].pinuse ==> l'.head[a].cinuse)
    && b in l.head && b in l'.head && l'.head[b].size == l.head[b].size && l'.head[b].cinuse == l.head[b].cinuse
    && (b in l.chunks && !l'.head[b].pinuse ==> PrevOK(l', b) && l.head[b].cinuse)
    && (b !in l.chunks ==> l'.head[b].pinuse == l.head[b].pinuse)
  }

  lemma EditMarks(l: Lay, l': Lay, a: int, b: int, q: int)
    requires Edit(l, l', a, b) && LayoutOK(l) && q in l.chunks && !(a <= q < b)
    ensures q in l.head && !(a < End(l, q) < b) && End(l, q) in Marks(l') && Clear(Marks(l'), q, End(l, q))
    ensures q < a ==> End(l, q) <= a
  {
    hide LayoutOK, Housed, EditEnds;
    ChunkAt(l, q);
    assert a in Marks(l);
    forall m | m in Marks(l')
      ensures m <= q || End(l, q) <= m
    {
      if !(a <= m < b) {
        assert m in Marks(l);
      }
    }
  }

  lemma EditPrev(l: Lay, l': Lay, a: int, b: int, q: int)
    requires Edit(l, l', a, b) && LayoutOK(l) && q in l.chunks && !(a <= q <= b) && q in l.head && !l.head[q].pinuse
    ensures PrevOK(l', q)
  {
    hide LayoutOK, Housed;
    ChunkAt(l, q);
    var f := q - l.foot[q];
    ChunkAt(l, f);
    assert a in Marks(l) && b in Marks(l);
  }

  /** The chunks outside [a, b) stay right. */
  lemma EditOutside(l: Lay, l': Lay, a: int, b: int, q: int)
    requires Edit(l, l', a, b) && LayoutOK(l) && q in l.chunks && !(a <= q < b)
    ensures ChunkOK(l', q)
  {
    hide LayoutOK, Housed, Clear, PrevOK;
    ChunkAt(l, q);
    EditMarks(l, l', a, b, q);
    if q != b && !l.head[q].pinuse {
      EditPrev(l, l', a, b, q);
    }
    if q != b {
      ChunkFrame(l, l', q);
    }
  }

  lemma EditTop(l: Lay, l': Lay, a: int, b: int)
    requires Edit(l, l', a, b) && LayoutOK(l)
    ensures TopOK(l')
  {
    hide LayoutOK, Housed, PrevOK;
    LayoutParts(l);
    TopApart(l, a);
    assert l.top in Marks(l);
    var e := l.top + l.topsize;
    assert !(a <= e <= b) by {
      assert a in Marks(l) && b in Marks(l);
    }
    forall m | m in Marks(l')
      ensures m <= l.top || e + TOP_FOOT_SIZE <= m
    {
      if !(a <= m < b) {
        assert m in Marks(l);
      }
    }
  }

  lemma EditFence(l: Lay, l': Lay, a: int, b: int, f: int)
    requires Edit(l, l', a, b) && LayoutOK(l) && f in l.fences
    ensures FenceOK(l', f)
  {
    hide LayoutOK, Housed, PrevOK, InSegment;
    FenceAt(l, f);
  }

  lemma EditSegment(l: Lay, l': Lay, a: int, b: int, i: nat)
    requires Edit(l, l', a, b) && LayoutOK(l) && i < |l.segs|
    ensures |l'.stops| == |l'.segs| && SegmentOK(l', i)
  {
    hide LayoutOK, PrevOK;
    LayoutParts(l);
    SegmentAt(l, i);
    assert !(a < l.segs[i].base <= b) by {
      var j :| Within(l.segs, l.stops, j, a, b);
      SegmentAt(l, j);
    }
  }

  lemma EditKeeps(l: Lay, l': Lay, a: int, b: int)
    requires Edit(l, l', a, b) && LayoutOK(l)
    requires forall q :: q in l'.chunks && a <= q < b ==> ChunkOK(l', q)
    ensures LayoutOK(l')
  {
    hide LayoutOK, ChunkOK, FenceOK, SegmentOK, TopOK, EditEnds, Housed, Solid;
    LayoutParts(l);
    EditTop(l, l', a, b);
    forall q | q in l'.chunks
      ensures ChunkOK(l', q)
    {
      if !(a <= q < b) {
        EditOutside(l, l', a, b, q);
      }
    }
    forall f | f in l'.fences
      ensures FenceOK(l', f)
    {
      EditFence(l, l', a, b, f);
    }
    forall i | 0 <= i < |l'.segs|
      ensures SegmentOK(l', i)
    {
      EditSegment(l, l', a, b, i);
    }
    LayoutIntro(l');
  }

  // ----- regions of chunks

  /** [a, b) is tiled by chunks of one segment. */
  ghost predicate Region(l: Lay, a: int, b: int) {
    && a in l.chunks && a < b && b in Marks(l) && b in l.head
    && Solid(l, a, b) && Housed(l.segs, l.stops, a, b)
  }

  lemma ChunkRegion(l: Lay, p: int)
    requires LayoutOK(l) && p in l.chunks
    ensures p in l.head && Region(l, p, End(l, p))
  {
    hide LayoutOK, Housed, Clear, PrevOK, Solid;
    ChunkAt(l, p);
    ChunkSolid(l, p);
  }

  lemma RegionExtend(l: Lay, a: int, m: int)
    requires LayoutOK(l) && Region(l, a, m) && m in l.chunks
    ensures Region(l, a, End(l, m))
  {
    hide LayoutOK, PrevOK;
    ChunkAt(l, m);
    ChunkSolid(l, m);
    var i: nat :| Within(l.segs, l.stops, i, a, m);
    SegmentAt(l, i);
    LayoutParts(l);
    assert l.stops[i] in Marks(l);
    assert Within(l.segs, l.stops, i, a, End(l, m));
  }

  // ----- the transforms keep the layout

  /** Handing out a whole free chunk. */
  lemma UseKeeps(l: Lay, p: int)
    requires LayoutOK(l) && p in l.chunks && p in l.head && !l.head[p].cinuse
    ensures End(l, p) in l.head && LayoutOK(Use(l, p))
  {
    hide LayoutOK, Clear, Housed, Solid, PrevOK;
    AfterFree(l, p);
    ChunkRegion(l, p);
    ChunkAt(l, p);
    var l' := Use(l, p);
    assert Marks(l') == Marks(l);
    forall q | q in l'.chunks && p <= q < End(l, p)
      ensures ChunkOK(l', q)
    {
      if q != p {
        ChunksApart(l, p, q);
      }
    }
    EditKeeps(l, l', p, End(l, p));
  }

  lemma SplitEnds(l: Lay, p: int, nb: nat)
    requires LayoutOK(l) && p in l.chunks && p in l.head && !l.head[p].cinuse
    requires 32 <= nb && nb % 16 == 0 && nb + 32 <= l.head[p].size
    ensures Edit(l, Split(l, p, nb), p, End(l, p)) && p + nb !in Marks(l)
  {
    hide LayoutOK, Clear, Housed, Solid;
    AfterFree(l, p);
    ChunkRegion(l, p);
    ChunkAt(l, p);
    SplitNew(l, p, nb);
  }

  lemma SplitNew(l: Lay, p: int, nb: nat)
    requires LayoutOK(l) && p in l.chunks && p in l.head && 0 < nb < l.head[p].size
    ensures p + nb !in Marks(l)
  {
    hide LayoutOK, Housed;
    ChunkAt(l, p);
  }

  /** Housed and clear pieces of a chunk. */
  lemma Pieces(l: Lay, p: int, m: int)
    requires LayoutOK(l) && p in l.chunks && p in l.head && p < m < End(l, p)
    ensures Housed(l.segs, l.stops, p, m) && Housed(l.segs, l.stops, m, End(l, p))
    ensures Clear(Marks(l) + {m}, p, m) && Clear(Marks(l) + {m}, m, End(l, p))
  {
    hide LayoutOK, PrevOK;
    ChunkAt(l, p);
    var i :| Within(l.segs, l.stops, i, p, End(l, p));
    assert Within(l.segs, l.stops, i, p, m) && Within(l.segs, l.stops, i, m, End(l, p));
  }

  /** Handing out the low part of a free chunk. */
  lemma SplitKeeps(l: Lay, p: int, nb: nat)
    requires LayoutOK(l) && p in l.chunks && p in l.head && !l.head[p].cinuse
    requires 32 <= nb && nb % 16 == 0 && nb + 32 <= l.head[p].size
    ensures LayoutOK(Split(l, p, nb)) && p + nb !in Marks(l)
  {
    hide LayoutOK, Clear, Housed, Solid, Edit;
    AfterFree(l, p);
    ChunkAt(l, p);
    var l', r := Split(l, p, nb), p + nb;
    SplitEnds(l, p, nb);
    FenceNoChunk(l, End(l, p));
    Pieces(l, p, r);
    assert Marks(l') == Marks(l) + {r};
    forall q | q in l'.chunks && p <= q < End(l, p)
      ensures ChunkOK(l', q)
    {
      if q != p && q != r {
        ChunksApart(l, p, q);
      }
    }
    EditKeeps(l, l', p, End(l, p));
  }

  lemma SplitUsedKeeps(l: Lay, p: int, nb: nat)
    requires LayoutOK(l) && p in l.chunks && p !in l.records && p in l.head && l.head[p].cinuse
    requires 32 <= nb && nb % 16 == 0 && nb + 32 <= l.head[p].size
    ensures LayoutOK(SplitUsed(l, p, nb)) && p + nb !in Marks(l)
  {
    hide LayoutOK, Clear, Housed, Solid;
    ChunkAt(l, p);
    ChunkRegion(l, p);
    SplitNew(l, p, nb);
    var l', r := SplitUsed(l, p, nb), p + nb;
    Pieces(l, p, r);
    assert Marks(l') == Marks(l) + {r};
    forall q | q in l'.chunks && p <= q < End(l, p)
      ensures ChunkOK(l', q)
    {
      if q != p && q != r {
        ChunksApart(l, p, q);
      }
    }
    EditKeeps(l, l', p, End(l, p));
  }

  /** Nothing starts strictly between two adjoining chunks. */
  lemma PairClear(l: Lay, p: int)
    requires LayoutOK(l) && p in l.chunks && p in l.head && End(l, p) in l.chunks
    ensures End(l, p) in l.head && Clear(Marks(l) - {End(l, p)}, p, End(l, End(l, p)))
    ensures forall q :: q in l.chunks && p <= q < End(l, End(l, p)) ==> q == p || q == End(l, p)
  {
    hide LayoutOK, Housed, PrevOK;
    var n := End(l, p);
    ChunkAt(l, p);
    ChunkAt(l, n);
    forall q | q in l.chunks && p <= q < End(l, n)
      ensures q == p || q == n
    {
      assert q in Marks(l);
    }
  }

  lemma AbsorbEdit(l: Lay, p: int)
    requires LayoutOK(l) && p in l.chunks && p in l.head && l.head[p].cinuse
    requires End(l, p) in l.chunks && End(l, p) in l.head && !l.head[End(l, p)].cinuse
    ensures End(l, End(l, p)) in l.head && Edit(l, Absorb(l, p), p, End(l, End(l, p)))
  {
    hide LayoutOK, Clear, Housed, Solid, PrevOK;
    var n := End(l, p);
    ChunkAt(l, p);
    ChunkAt(l, n);
    AfterFree(l, n);
    ChunkRegion(l, p);
    RegionExtend(l, p, n);
  }

  lemma AbsorbChunk(l: Lay, p: int)
    requires LayoutOK(l) && p in l.chunks && p in l.head && l.head[p].cinuse
    requires End(l, p) in l.chunks && End(l, p) in l.head && !l.head[End(l, p)].cinuse
    ensures End(l, End(l, p)) in l.head && ChunkOK(Absorb(l, p), p)
  {
    hide LayoutOK, Clear, Housed, Solid;
    var n := End(l, p);
    ChunkAt(l, p);
    ChunkAt(l, n);
    AfterFree(l, n);
    FenceNoChunk(l, n);
    FenceNoChunk(l, End(l, n));
    ChunkRegion(l, p);
    RegionExtend(l, p, n);
    PairClear(l, p);
    assert Marks(Absorb(l, p)) == Marks(l) - {n};
  }

  /** A chunk in use swallows the free chunk after it. */
  lemma AbsorbKeeps(l: Lay, p: int)
    requires LayoutOK(l) && p in l.chunks && p in l.head && l.head[p].cinuse
    requires End(l, p) in l.chunks && End(l, p) in l.head && !l.head[End(l, p)].cinuse
    ensures End(l, End(l, p)) in l.head && LayoutOK(Absorb(l, p))
  {
    hide LayoutOK, Clear, Housed, Solid, Edit, ChunkOK;
    AbsorbEdit(l, p);
    AbsorbChunk(l, p);
    PairClear(l, p);
    EditKeeps(l, Absorb(l, p), p, End(l, End(l, p)));
  }

  lemma FenceNoChunk(l: Lay, p: int)
    requires LayoutOK(l) && p in l.chunks
    ensures p !in l.fences && p != l.top
  {
    hide LayoutOK, ChunkOK;
    LayoutParts(l);
    if p in l.fences {
      FenceAt(l, p);
    }
  }

  /** Making the chunks of a region one free chunk. */
  lemma CoalesceKeeps(l: Lay, a: int, b: int)
    requires LayoutOK(l) && Region(l, a, b) && b in l.chunks && a in l.head && l.head[a].pinuse && l.head[b].cinuse
    ensures LayoutOK(Coalesce(l, a, b))
  {
    hide LayoutOK, Housed;
    ChunkAt(l, a);
    ChunkAt(l, b);
    FenceNoChunk(l, b);
    var l' := Coalesce(l, a, b);
    forall m | m in Marks(l')
      ensures m <= a || b <= m
    {
      assert m in Marks(l);
    }
    EditKeeps(l, l', a, b);
  }
}
