/** How the layout changes when the system supplies memory: the four ways of `sys_alloc`. */
module Growth {
  import opened Memory
  import opened Layout
  import opened Segments

  const PAGE := 4096
  const RECORD_SIZE := 48

  /** [b, b + n) is whole pages outside every segment. */
  ghost predicate Fresh(segs: seq<Segment>, b: int, n: int) {
    && 0 < b && b % PAGE == 0 && 0 < n && n % PAGE == 0
    && forall i :: 0 <= i < |segs| ==> b + n <= segs[i].base || segs[i].base + segs[i].size <= b
  }

  lemma ChunkInSegment(l: Lay, p: int)
    requires LayoutOK(l) && p in l.chunks
    ensures p in l.head && InSegment(l.segs, p) && InSegment(l.segs, End(l, p))
  {
    hide LayoutOK, Clear, PrevOK;
    ChunkAt(l, p);
    var i: nat :| Within(l.segs, l.stops, i, p, End(l, p));
    SegmentAt(l, i);
  }

  lemma MarkInSegment(l: Lay, m: int)
    requires LayoutOK(l) && m in Marks(l)
    ensures InSegment(l.segs, m)
  {
    hide LayoutOK, Clear, PrevOK, ChunkOK;
    if m in l.chunks {
      ChunkInSegment(l, m);
    } else if m in l.fences {
      FenceAt(l, m);
    } else {
      LayoutParts(l);
      SegmentAt(l, 0);
    }
  }

  lemma FreshOutside(segs: seq<Segment>, b: int, n: int, a: int)
    requires Fresh(segs, b, n) && b <= a < b + n
    ensures !InSegment(segs, a)
  {
  }

  // ----- first memory

  function InitLay(head: Heads, foot: Feet, b: int, n: int): (l: Lay)
    requires n >= TOP_FOOT_SIZE
  {
    Lay(head[b := Head(n - TOP_FOOT_SIZE, true, false)][b + n - TOP_FOOT_SIZE := Head(TOP_FOOT_SIZE, false, false)],
        foot, {}, {}, {}, b, n - TOP_FOOT_SIZE, [Segment(b, n)], [b])
  }

  lemma InitKeeps(head: Heads, foot: Feet, b: int, n: int)
    requires Fresh([], b, n) && n < SEGMENT_LIMIT
    ensures LayoutOK(InitLay(head, foot, b, n))
  {
    hide LayoutOK, Fresh;
    FreshSize([], b, n);
    PagesAligned(0, b);
    PagesAligned(-TOP_FOOT_SIZE, n);
    var l := InitLay(head, foot, b, n);
    assert SegmentOK(l, 0);
    assert TopOK(l);
    LayoutIntro(l);
  }

  // ----- memory right after the segment of top

  function Append(l: Lay, n: nat): (l': Lay)
    requires |l.segs| > 0 && l.topsize >= 0
  {
    var t := l.topsize + n;
    l.(head := l.head[l.top := Head(t, true, false)][l.top + t := Head(TOP_FOOT_SIZE, false, false)],
       topsize := t,
       segs := l.segs[0 := Segment(l.segs[0].base, l.segs[0].size + n)])
  }

  lemma GrownInSegment(segs: seq<Segment>, n: nat, a: int)
    requires |segs| > 0 && InSegment(segs, a)
    ensures InSegment(segs[0 := Segment(segs[0].base, segs[0].size + n)], a)
  {
    var i :| 0 <= i < |segs| && segs[i].base <= a < segs[i].base + segs[i].size;
    var segs' := segs[0 := Segment(segs[0].base, segs[0].size + n)];
    assert segs'[i].base <= a < segs'[i].base + segs'[i].size;
  }

  lemma AppendChunk(l: Lay, n: nat, q: int)
    requires LayoutOK(l) && Fresh(l.segs, l.top + l.topsize + TOP_FOOT_SIZE, n) && q in l.chunks
    ensures |l.segs| > 0 && l.topsize > 0 && ChunkOK(Append(l, n), q)
  {
    hide LayoutOK, Clear, InSegment, Fresh;
    LayoutParts(l);
    ChunkAt(l, q);
    ChunkInSegment(l, q);
    var l' := Append(l, n);
    FreshOutside(l.segs, l.top + l.topsize + TOP_FOOT_SIZE, n, l.top + l'.topsize) by {
      FreshSize(l.segs, l.top + l.topsize + TOP_FOOT_SIZE, n);
    }
    assert Marks(l') == Marks(l);
    var i: nat :| Within(l.segs, l.stops, i, q, End(l, q));
    assert Within(l'.segs, l'.stops, i, q, End(l, q));
    if !l.head[q].pinuse {
      ChunkInSegment(l, q - l.foot[q]);
      assert PrevOK(l', q);
    }
    hide PrevOK, Housed;
    ChunkFrame(l, l', q);
  }

  lemma FreshSize(segs: seq<Segment>, b: int, n: int)
    requires Fresh(segs, b, n)
    ensures n >= PAGE && n % PAGE == 0 && b > 0 && b % PAGE == 0
  {
  }

  lemma AppendKeeps(l: Lay, n: nat)
    requires LayoutOK(l) && Fresh(l.segs, l.top + l.topsize + TOP_FOOT_SIZE, n)
    requires |l.segs| > 0 && l.segs[0].size + n < SEGMENT_LIMIT
    ensures l.topsize > 0 && LayoutOK(Append(l, n))
  {
    hide LayoutOK, ChunkOK, InSegment, Clear, Fresh;
    LayoutParts(l);
    SegmentAt(l, 0);
    var l' := Append(l, n);
    forall q | q in l'.chunks
      ensures ChunkOK(l', q)
    {
      AppendChunk(l, n, q);
    }
    forall f | f in l'.fences
      ensures FenceOK(l', f)
    {
      AppendFence(l, n, f);
    }
    forall i | 0 <= i < |l'.segs|
      ensures SegmentOK(l', i)
    {
      AppendSegment(l, n, i);
    }
    AppendTop(l, n);
    assert SegmentsApart(l') by {
      AppendApart(l, n);
    }
    LayoutIntro(l');
  }

  lemma AppendFence(l: Lay, n: nat, f: int)
    requires LayoutOK(l) && Fresh(l.segs, l.top + l.topsize + TOP_FOOT_SIZE, n) && f in l.fences
    ensures |l.segs| > 0 && l.topsize > 0 && FenceOK(Append(l, n), f)
  {
    hide LayoutOK, InSegment, Clear, Fresh;
    LayoutParts(l);
    FenceAt(l, f);
    GrownInSegment(l.segs, n, f);
    FreshSize(l.segs, l.top + l.topsize + TOP_FOOT_SIZE, n);
    FreshOutside(l.segs, l.top + l.topsize + TOP_FOOT_SIZE, n, l.top + l.topsize + n);
  }

  lemma AppendBase(l: Lay, n: nat, i: nat)
    requires Fresh(l.segs, l.top + l.topsize + TOP_FOOT_SIZE, n) && i < |l.segs| && l.segs[i].size > 0
    ensures l.segs[i].base != l.top + l.topsize + n
  {
    hide Fresh;
    var e, b := l.top + l.topsize + TOP_FOOT_SIZE, l.segs[i].base;
    FreshSize(l.segs, e, n);
    assert InSegment(l.segs, b);
    if b == l.top + l.topsize + n {
      FreshOutside(l.segs, e, n, b);
      assert false;
    }
  }

  lemma PagesAdd(a: int, n: int)
    requires a % PAGE == 0 && n % PAGE == 0
    ensures (a + n) % PAGE == 0
  {
  }

  lemma AppendSegment(l: Lay, n: nat, i: nat)
    requires LayoutOK(l) && Fresh(l.segs, l.top + l.topsize + TOP_FOOT_SIZE, n) && i < |l.segs|
    requires l.segs[0].size + n < SEGMENT_LIMIT
    ensures |l.stops| == |l.segs| && l.topsize > 0 && SegmentOK(Append(l, n), i)
  {
    hide LayoutOK, Clear, Fresh, NoFence;
    LayoutParts(l);
    SegmentAt(l, i);
    SegmentAt(l, 0);
    FreshSize(l.segs, l.top + l.topsize + TOP_FOOT_SIZE, n);
    PagesAdd(l.segs[0].size, n);
    AppendBase(l, n, i);
  }

  lemma AppendApart(l: Lay, n: nat)
    requires LayoutOK(l) && Fresh(l.segs, l.top + l.topsize + TOP_FOOT_SIZE, n) && |l.segs| > 0 && l.topsize > 0
    ensures SegmentsApart(Append(l, n))
  {
    hide LayoutOK, Clear;
    LayoutParts(l);
    var segs' := Append(l, n).segs;
    forall i, j | 0 <= i < j < |segs'|
      ensures segs'[i].base + segs'[i].size <= segs'[j].base || segs'[j].base + segs'[j].size <= segs'[i].base
    {
      assert segs'[j] == l.segs[j];
      if i == 0 {
        SegmentAt(l, j);
      }
    }
  }

  lemma PagesAligned(a: int, n: int)
    requires a % 16 == 0 && n % PAGE == 0
    ensures (a + n) % 16 == 0
  {
    assert n == 16 * (256 * (n / PAGE));
  }

  lemma AppendTop(l: Lay, n: nat)
    requires LayoutOK(l) && Fresh(l.segs, l.top + l.topsize + TOP_FOOT_SIZE, n)
    ensures |l.segs| > 0 && l.topsize > 0 && TopOK(Append(l, n))
  {
    hide LayoutOK, InSegment;
    hide Fresh;
    LayoutParts(l);
    var l' := Append(l, n);
    var e := l.top + l.topsize + TOP_FOOT_SIZE;
    FreshSize(l.segs, e, n);
    PagesAligned(l.topsize, n);
    forall m | m in Marks(l')
      ensures m <= l.top || e + n <= m
    {
      assert m in Marks(l);
      MarkInSegment(l, m);
      if e <= m < e + n {
        FreshOutside(l.segs, e, n, m);
      }
    }
  }

  // ----- memory right before a segment

  /** The new memory becomes one chunk in use in front of segment `i`. */
  function Prepend(l: Lay, i: nat, n: nat): (l': Lay)
    requires i < |l.segs|
  {
    var b := l.segs[i].base - n;
    l.(head := l.head[b := Head(n, true, true)],
       chunks := l.chunks + {b},
       segs := l.segs[i := Segment(b, l.segs[i].size + n)])
  }

  lemma PrependInSegment(segs: seq<Segment>, i: nat, n: nat, a: int)
    requires i < |segs| && InSegment(segs, a)
    ensures InSegment(segs[i := Segment(segs[i].base - n, segs[i].size + n)], a)
  {
    var j :| 0 <= j < |segs| && segs[j].base <= a < segs[j].base + segs[j].size;
    var segs' := segs[i := Segment(segs[i].base - n, segs[i].size + n)];
    assert segs'[j].base <= a < segs'[j].base + segs'[j].size;
  }

  lemma PrependOld(l: Lay, i: nat, n: nat, q: int)
    requires LayoutOK(l) && i < |l.segs| && Fresh(l.segs, l.segs[i].base - n, n) && q in l.chunks
    ensures ChunkOK(Prepend(l, i, n), q)
  {
    hide LayoutOK, InSegment, Fresh;
    LayoutParts(l);
    ChunkAt(l, q);
    ChunkInSegment(l, q);
    var l', b := Prepend(l, i, n), l.segs[i].base - n;
    FreshSize(l.segs, b, n);
    FreshOutside(l.segs, b, n, b);
    var j: nat :| Within(l.segs, l.stops, j, q, End(l, q));
    assert Within(l'.segs, l'.stops, j, q, End(l, q));
    forall m | m in Marks(l')
      ensures m <= q || End(l, q) <= m
    {
      if m == b && q < b < End(l, q) {
        BetweenInSegment(l, q, b);
      } else if m != b {
        assert m in Marks(l);
      }
    }
    if !l.head[q].pinuse {
      ChunkInSegment(l, q - l.foot[q]);
      assert PrevOK(l', q);
    }
    hide PrevOK, Housed, Clear;
    assert Clear(Marks(l'), q, End(l, q));
    ChunkFrame(l, l', q);
  }

  lemma BetweenInSegment(l: Lay, q: int, b: int)
    requires LayoutOK(l) && q in l.chunks && q in l.head && q <= b < End(l, q)
    ensures InSegment(l.segs, b)
  {
    hide LayoutOK, Clear, PrevOK;
    ChunkAt(l, q);
    var i: nat :| Within(l.segs, l.stops, i, q, End(l, q));
    SegmentAt(l, i);
  }

  lemma PrependNew(l: Lay, i: nat, n: nat)
    requires LayoutOK(l) && i < |l.segs| && Fresh(l.segs, l.segs[i].base - n, n)
    ensures l.segs[i].base - n !in Marks(l) && ChunkOK(Prepend(l, i, n), l.segs[i].base - n)
  {
    hide LayoutOK, InSegment, Fresh, PrevOK;
    LayoutParts(l);
    SegmentAt(l, i);
    var l', b := Prepend(l, i, n), l.segs[i].base - n;
    FreshSize(l.segs, b, n);
    PagesAligned(0, n);
    PagesAligned(0, b);
    assert Within(l'.segs, l'.stops, i, b, b + n);
    forall m | m in Marks(l) && b <= m < b + n
      ensures false
    {
      MarkInSegment(l, m);
      FreshOutside(l.segs, b, n, m);
    }
    if b + n in l.fences {
      BaseNoFence(l, i);
    }
  }

  lemma BaseNoFence(l: Lay, i: nat)
    requires LayoutOK(l) && i < |l.segs|
    ensures l.segs[i].base !in l.fences
  {
    hide LayoutOK, InSegment, ChunkOK;
    LayoutParts(l);
    SegmentAt(l, i);
    if l.segs[i].base in l.fences {
      FenceAt(l, l.segs[i].base);
    }
  }

  lemma PrependSegment(l: Lay, i: nat, n: nat, j: nat)
    requires LayoutOK(l) && i < |l.segs| && Fresh(l.segs, l.segs[i].base - n, n) && j < |l.segs|
    requires l.segs[i].size + n < SEGMENT_LIMIT
    ensures |l.stops| == |l.segs| && SegmentOK(Prepend(l, i, n), j)
  {
    hide LayoutOK, Clear, Fresh, NoFence;
    LayoutParts(l);
    SegmentAt(l, j);
    SegmentAt(l, i);
    FreshSize(l.segs, l.segs[i].base - n, n);
    PrependNoFence(l, i, n);
    assert InSegment(l.segs, l.segs[j].base);
    if l.segs[j].base == l.segs[i].base - n {
      FreshOutside(l.segs, l.segs[i].base - n, n, l.segs[j].base);
    }
  }

  lemma PrependNoFence(l: Lay, i: nat, n: nat)
    requires LayoutOK(l) && i < |l.segs| && Fresh(l.segs, l.segs[i].base - n, n)
    ensures |l.stops| == |l.segs| && NoFence(l.fences, l.segs[i].base - n, l.stops[i])
  {
    hide LayoutOK, Clear, Fresh, InSegment;
    SegmentAt(l, i);
    var b := l.segs[i].base - n;
    forall f | f in l.fences
      ensures f < b || l.stops[i] <= f
    {
      MarkInSegment(l, f);
      if b <= f < b + n {
        FreshOutside(l.segs, b, n, f);
      }
    }
  }

  lemma PrependApart(l: Lay, i: nat, n: nat)
    requires LayoutOK(l) && i < |l.segs| && Fresh(l.segs, l.segs[i].base - n, n)
    ensures SegmentsApart(Prepend(l, i, n))
  {
    hide LayoutOK, Clear;
    LayoutParts(l);
    var segs, segs' := l.segs, Prepend(l, i, n).segs;
    forall j, k | 0 <= j < k < |segs'|
      ensures segs'[j].base + segs'[j].size <= segs'[k].base || segs'[k].base + segs'[k].size <= segs'[j].base
    {
      SegmentAt(l, j);
      SegmentAt(l, k);
      assert segs[j].base + segs[j].size <= segs[k].base || segs[k].base + segs[k].size <= segs[j].base;
    }
  }

  lemma PrependKeeps(l: Lay, i: nat, n: nat)
    requires LayoutOK(l) && i < |l.segs| && Fresh(l.segs, l.segs[i].base - n, n)
    requires l.segs[i].size + n < SEGMENT_LIMIT
    ensures LayoutOK(Prepend(l, i, n)) && l.segs[i].base - n !in Marks(l)
  {
    hide LayoutOK, ChunkOK, SegmentOK, InSegment, Fresh;
    LayoutParts(l);
    var l', b := Prepend(l, i, n), l.segs[i].base - n;
    PrependNew(l, i, n);
    FreshSize(l.segs, b, n);
    FreshOutside(l.segs, b, n, b);
    forall q | q in l'.chunks
      ensures ChunkOK(l', q)
    {
      if q != b {
        PrependOld(l, i, n, q);
      }
    }
    forall f | f in l'.fences
      ensures FenceOK(l', f)
    {
      FenceAt(l, f);
      PrependInSegment(l.segs, i, n, f);
    }
    forall j | 0 <= j < |l'.segs|
      ensures SegmentOK(l', j)
    {
      PrependSegment(l, i, n, j);
    }
    PrependApart(l, i, n);
    PrependTop(l, i, n);
    LayoutIntro(l');
  }

  lemma PrependTop(l: Lay, i: nat, n: nat)
    requires LayoutOK(l) && i < |l.segs| && Fresh(l.segs, l.segs[i].base - n, n)
    ensures TopOK(Prepend(l, i, n))
  {
    hide LayoutOK, InSegment, Fresh;
    LayoutParts(l);
    SegmentAt(l, 0);
    var l', b := Prepend(l, i, n), l.segs[i].base - n;
    FreshSize(l.segs, b, n);
    FreshOutside(l.segs, b, n, b);
    forall a | l.top <= a < l.top + l.topsize + TOP_FOOT_SIZE
      ensures InSegment(l.segs, a)
    {
      TopInSegment(l, a);
    }
    forall m | m in Marks(l')
      ensures m <= l.top || l.top + l.topsize + TOP_FOOT_SIZE <= m
    {
      if m != b {
        assert m in Marks(l);
      }
    }
  }

  lemma TopInSegment(l: Lay, a: int)
    requires LayoutOK(l) && l.top <= a < l.top + l.topsize + TOP_FOOT_SIZE
    ensures InSegment(l.segs, a)
  {
    hide LayoutOK, Clear;
    LayoutParts(l);
    SegmentAt(l, 0);
  }
}
