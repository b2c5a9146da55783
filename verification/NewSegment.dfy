/** How the layout changes when `add_segment` opens a new segment and closes the old top. */
module NewSegment {
  import opened Memory
  import opened Layout
  import opened Segments
  import opened Growth

  /** Where the record of the old segment goes: at the end of the old top, or in its place when it is too small. */
  function RecordPlace(l: Lay): (c: int) {
    if l.topsize < MIN_CHUNK_SIZE then l.top else l.top + l.topsize
  }

  /** One fencepost every 8 bytes from `t` on, while its head word fits below `e`. */
  function FencesOf(t: int, e: int): (s: set<int>)
    ensures forall f :: f in s ==> t <= f && f + 16 <= e
    ensures t + 16 <= e ==> t in s
    decreases e - t
  {
    if t + 16 <= e then {t} + FencesOf(t + 8, e) else {}
  }

  function Fenceposts(s: set<int>): (h: Heads) {
    map f | f in s :: FENCEPOST
  }

  /** The head words after the new top, the record and the fenceposts are written. */
  function ClosedHeads(l: Lay, b: int, n: int): (h: Heads)
    requires n >= TOP_FOOT_SIZE
  {
    var c, e := RecordPlace(l), l.top + l.topsize + TOP_FOOT_SIZE;
    l.head[b := Head(n - TOP_FOOT_SIZE, true, false)]
          [b + n - TOP_FOOT_SIZE := Head(TOP_FOOT_SIZE, false, false)]
          [c := Head(RECORD_SIZE, true, true)] + Fenceposts(FencesOf(c + RECORD_SIZE, e))
  }

  /** Top moves to the new segment; the old top becomes a record, fenceposts and perhaps a free chunk. */
  function CloseTop(l: Lay, b: int, n: int): (l': Lay)
    requires n >= TOP_FOOT_SIZE && l.topsize >= 0 && |l.stops| > 0
  {
    var c, e := RecordPlace(l), l.top + l.topsize + TOP_FOOT_SIZE;
    var t, h := c + RECORD_SIZE, ClosedHeads(l, b, n);
    var l1 := l.(head := h, chunks := l.chunks + {c}, records := l.records + {c},
                 fences := l.fences + FencesOf(t, e), top := b, topsize := n - TOP_FOOT_SIZE,
                 segs := [Segment(b, n)] + l.segs, stops := [b] + l.stops[0 := t]);
    if c == l.top then l1
    else
      l1.(head := h[l.top := Head(l.topsize, true, false)][c := Head(RECORD_SIZE, false, true)],
          foot := l.foot[c := l.topsize],
          chunks := l.chunks + {c} + {l.top})
  }

  /** What changes lies in the old top or in the new memory. */
  lemma ClosedFrame(l: Lay, b: int, n: int, a: int)
    requires LayoutOK(l) && Fresh(l.segs, b, n) && InSegment(l.segs, a)
    requires !(l.top <= a < l.top + l.topsize + TOP_FOOT_SIZE)
    ensures |l.stops| > 0 && l.topsize > 0
    ensures var l' := CloseTop(l, b, n);
      && (a in l.head ==> a in l'.head && l'.head[a] == l.head[a])
      && (a in l.foot ==> a in l'.foot && l'.foot[a] == l.foot[a])
      && (a in l'.chunks <==> a in l.chunks)
      && (a in l'.fences <==> a in l.fences)
      && a != b
  {
    hide LayoutOK, InSegment, Fresh;
    LayoutParts(l);
    FreshSize(l.segs, b, n);
    FreshOutside(l.segs, b, n, b);
    FreshOutside(l.segs, b, n, b + n - TOP_FOOT_SIZE);
  }

  lemma ClosedMarks(l: Lay, b: int, n: int, m: int)
    requires n >= TOP_FOOT_SIZE && l.topsize > 0 && |l.stops| > 0 && m in Marks(CloseTop(l, b, n)) && m !in Marks(l)
    ensures m == b || l.top <= m < l.top + l.topsize + TOP_FOOT_SIZE
  {
  }

  lemma ClosedOld(l: Lay, b: int, n: int, q: int)
    requires LayoutOK(l) && Fresh(l.segs, b, n) && q in l.chunks
    ensures |l.stops| > 0 && l.topsize > 0 && n >= TOP_FOOT_SIZE && ChunkOK(CloseTop(l, b, n), q)
  {
    hide LayoutOK, InSegment, Fresh, RecordPlace, FencesOf, ClosedHeads, CloseTop;
    LayoutParts(l);
    FreshSize(l.segs, b, n);
    ChunkAt(l, q);
    ChunkInSegment(l, q);
    TopApart(l, q);
    var l' := CloseTop(l, b, n);
    ClosedFrame(l, b, n, q);
    ClosedEnd(l, b, n, q);
    ClosedClear(l, b, n, q);
    ClosedHoused(l, b, n, q);
    if !l.head[q].pinuse {
      var f := q - l.foot[q];
      ChunkInSegment(l, f);
      TopApart(l, f);
      ClosedFrame(l, b, n, f);
      assert PrevOK(l', q);
    }
    hide PrevOK, Housed, Clear;
    ClosedRecords(l, b, n);
    ChunkFrame(l, l', q);
  }

  lemma ClosedRecords(l: Lay, b: int, n: int)
    requires n >= TOP_FOOT_SIZE && l.topsize > 0 && |l.stops| > 0
    ensures l.records <= CloseTop(l, b, n).records
    ensures CloseTop(l, b, n).top == b
  {
  }

  lemma ClosedEnd(l: Lay, b: int, n: int, q: int)
    requires LayoutOK(l) && Fresh(l.segs, b, n) && q in l.chunks
    ensures |l.stops| > 0 && l.topsize > 0 && n >= TOP_FOOT_SIZE && q in l.head
    ensures var l', e := CloseTop(l, b, n), End(l, q);
      && e in l.head && e in l'.head && e != b && e in Marks(l')
      && l'.head[e].pinuse == l.head[e].pinuse
      && (e in l'.fences ==> e in l.fences)
      && (e != l.top ==> l'.head[e] == l.head[e] && (e in l.foot ==> e in l'.foot && l'.foot[e] == l.foot[e]))
  {
    hide LayoutOK, InSegment, Fresh, Clear, Housed, PrevOK;
    LayoutParts(l);
    FreshSize(l.segs, b, n);
    ChunkAt(l, q);
    ChunkInSegment(l, q);
    var e := End(l, q);
    if e == l.top {
      FreshOutside(l.segs, b, n, b);
    } else {
      EndClearOfTop(l, q);
      ClosedFrame(l, b, n, e);
    }
  }

  lemma EndClearOfTop(l: Lay, q: int)
    requires LayoutOK(l) && q in l.chunks
    ensures q in l.head
    ensures End(l, q) <= l.top || l.top + l.topsize + TOP_FOOT_SIZE <= End(l, q)
  {
    hide LayoutOK, Housed, PrevOK;
    LayoutParts(l);
    ChunkAt(l, q);
  }

  lemma ClosedClear(l: Lay, b: int, n: int, q: int)
    requires LayoutOK(l) && Fresh(l.segs, b, n) && q in l.chunks
    ensures |l.stops| > 0 && l.topsize > 0 && n >= TOP_FOOT_SIZE && q in l.head
    ensures Clear(Marks(CloseTop(l, b, n)), q, End(l, q))
  {
    hide LayoutOK, InSegment, Fresh, Housed, PrevOK, CloseTop, Marks;
    LayoutParts(l);
    FreshSize(l.segs, b, n);
    FreshOutside(l.segs, b, n, b);
    ChunkAt(l, q);
    TopApart(l, q);
    forall m | m in Marks(CloseTop(l, b, n))
      ensures m <= q || End(l, q) <= m
    {
      if m !in Marks(l) {
        ClosedMarks(l, b, n, m);
        if m == b && q < b < End(l, q) {
          BetweenInSegment(l, q, b);
        }
      }
    }
  }

  lemma ClosedHoused(l: Lay, b: int, n: int, q: int)
    requires LayoutOK(l) && Fresh(l.segs, b, n) && q in l.chunks
    ensures |l.stops| > 0 && l.topsize > 0 && n >= TOP_FOOT_SIZE && q in l.head
    ensures Housed(CloseTop(l, b, n).segs, CloseTop(l, b, n).stops, q, End(l, q))
  {
    hide LayoutOK, InSegment, Fresh, PrevOK, Marks, Clear;
    LayoutParts(l);
    FreshSize(l.segs, b, n);
    ChunkAt(l, q);
    var l' := CloseTop(l, b, n);
    var i: nat :| Within(l.segs, l.stops, i, q, End(l, q));
    assert l'.segs[i + 1] == l.segs[i];
    assert Within(l'.segs, l'.stops, i + 1, q, End(l, q));
  }

  lemma ClosedRecordApart(l: Lay, b: int, n: int, m: int)
    requires LayoutOK(l) && Fresh(l.segs, b, n)
    ensures |l.stops| > 0 && l.topsize > 0 && n >= TOP_FOOT_SIZE
    ensures m in Marks(CloseTop(l, b, n)) ==> m <= RecordPlace(l) || RecordPlace(l) + RECORD_SIZE <= m
    ensures RecordPlace(l) !in l.chunks
  {
    hide LayoutOK, InSegment, Fresh, FencesOf, ChunkOK;
    LayoutParts(l);
    SegmentAt(l, 0);
    FreshSize(l.segs, b, n);
    FreshOutside(l.segs, b, n, b);
    var c := RecordPlace(l);
    if m == b && c < b < c + RECORD_SIZE {
      TopInSegment(l, b);
    } else if m in Marks(l) {
    }
    assert c in l.chunks ==> c in Marks(l);
  }

  lemma ClosedRecordClear(l: Lay, b: int, n: int)
    requires LayoutOK(l) && Fresh(l.segs, b, n)
    ensures |l.stops| > 0 && l.topsize > 0 && n >= TOP_FOOT_SIZE
    ensures RecordPlace(l) !in l.chunks
    ensures Clear(Marks(CloseTop(l, b, n)), RecordPlace(l), RecordPlace(l) + RECORD_SIZE)
  {
    ClosedRecordApart(l, b, n, RecordPlace(l));
    hide LayoutOK, Fresh, CloseTop, Marks;
    var c := RecordPlace(l);
    forall m | m in Marks(CloseTop(l, b, n))
      ensures m <= c || c + RECORD_SIZE <= m
    {
      ClosedRecordApart(l, b, n, m);
    }
  }

  lemma ClosedRecordHoused(l: Lay, b: int, n: int)
    requires LayoutOK(l) && Fresh(l.segs, b, n)
    ensures |l.stops| > 0 && l.topsize > 0 && n >= TOP_FOOT_SIZE
    ensures Housed(CloseTop(l, b, n).segs, CloseTop(l, b, n).stops, RecordPlace(l), RecordPlace(l) + RECORD_SIZE)
  {
    hide LayoutOK, InSegment, Fresh, FencesOf, Clear, ClosedHeads;
    LayoutParts(l);
    SegmentAt(l, 0);
    FreshSize(l.segs, b, n);
    var l', c := CloseTop(l, b, n), RecordPlace(l);
    assert l'.segs[1] == l.segs[0];
    assert Within(l'.segs, l'.stops, 1, c, c + RECORD_SIZE);
  }

  lemma ClosedRecord(l: Lay, b: int, n: int)
    requires LayoutOK(l) && Fresh(l.segs, b, n)
    ensures |l.stops| > 0 && l.topsize > 0 && n >= TOP_FOOT_SIZE
    ensures RecordPlace(l) !in l.chunks && ChunkOK(CloseTop(l, b, n), RecordPlace(l))
  {
    hide LayoutOK, InSegment, Fresh, FencesOf, Clear, Housed;
    ClosedRecordClear(l, b, n);
    ClosedRecordHoused(l, b, n);
    LayoutParts(l);
    SegmentAt(l, 0);
    FreshSize(l.segs, b, n);
    FreshOutside(l.segs, b, n, b);
  }

  lemma ClosedRest(l: Lay, b: int, n: int)
    requires LayoutOK(l) && Fresh(l.segs, b, n) && RecordPlace(l) != l.top
    ensures |l.stops| > 0 && l.topsize > 0 && n >= TOP_FOOT_SIZE
    ensures ChunkOK(CloseTop(l, b, n), l.top)
  {
    hide LayoutOK, InSegment, Fresh, FencesOf;
    LayoutParts(l);
    SegmentAt(l, 0);
    FreshSize(l.segs, b, n);
    FreshOutside(l.segs, b, n, b);
    var l', c := CloseTop(l, b, n), RecordPlace(l);
    assert l'.segs[1] == l.segs[0];
    assert Within(l'.segs, l'.stops, 1, l.top, c);
    TopInSegment(l, c);
    forall m | m in Marks(l')
      ensures m <= l.top || c <= m
    {
      if m == b && l.top < b < c {
        TopInSegment(l, b);
      } else if m in Marks(l) {
      }
    }
    assert c !in l.fences by {
      assert c in l.fences ==> c in Marks(l);
    }
  }

  lemma ClosedFence(l: Lay, b: int, n: int, f: int)
    requires LayoutOK(l) && Fresh(l.segs, b, n)
    requires f in l.fences || f in FencesOf(RecordPlace(l) + RECORD_SIZE, l.top + l.topsize + TOP_FOOT_SIZE)
    ensures |l.stops| > 0 && l.topsize > 0 && n >= TOP_FOOT_SIZE
    ensures FenceOK(CloseTop(l, b, n), f)
  {
    hide LayoutOK, InSegment, Fresh, FencesOf;
    LayoutParts(l);
    FreshSize(l.segs, b, n);
    var l' := CloseTop(l, b, n);
    if f in l.fences {
      FenceAt(l, f);
      assert f in Marks(l);
      ClosedFrame(l, b, n, f);
      OlderInSegment(l.segs, Segment(b, n), f);
    } else {
      TopInSegment(l, f);
      OlderInSegment(l.segs, Segment(b, n), f);
      assert f in l.chunks ==> f in Marks(l);
    }
  }

  lemma OlderInSegment(segs: seq<Segment>, s: Segment, a: int)
    requires InSegment(segs, a)
    ensures InSegment([s] + segs, a)
  {
    var i :| 0 <= i < |segs| && segs[i].base <= a < segs[i].base + segs[i].size;
    assert ([s] + segs)[i + 1] == segs[i];
  }

  lemma ClosedSegment(l: Lay, b: int, n: int, i: nat)
    requires LayoutOK(l) && Fresh(l.segs, b, n) && n < SEGMENT_LIMIT && i <= |l.segs|
    ensures |l.stops| == |l.segs| > 0 && l.topsize > 0 && n >= TOP_FOOT_SIZE
    ensures SegmentOK(CloseTop(l, b, n), i)
  {
    hide LayoutOK, InSegment, Fresh, FencesOf, NoFence;
    LayoutParts(l);
    FreshSize(l.segs, b, n);
    var l' := CloseTop(l, b, n);
    ClosedTopHeads(l, b, n);
    if i > 0 {
      SegmentAt(l, i - 1);
      assert l'.segs[i] == l.segs[i - 1];
      BaseKept(l, b, n, i - 1);
    }
    ClosedNoFence(l, b, n, i);
  }

  lemma ClosedNoFence(l: Lay, b: int, n: int, i: nat)
    requires LayoutOK(l) && Fresh(l.segs, b, n) && i <= |l.segs|
    ensures |l.stops| == |l.segs| > 0 && l.topsize > 0 && n >= TOP_FOOT_SIZE
    ensures var l' := CloseTop(l, b, n); NoFence(l'.fences, l'.segs[i].base, l'.stops[i])
  {
    hide LayoutOK, InSegment, Fresh, FencesOf, ClosedHeads;
    LayoutParts(l);
    FreshSize(l.segs, b, n);
    var l' := CloseTop(l, b, n);
    if i > 0 {
      SegmentAt(l, i - 1);
      SegmentAt(l, 0);
      assert l'.segs[i] == l.segs[i - 1];
      forall f | f in l'.fences
        ensures f < l'.segs[i].base || l'.stops[i] <= f
      {
        if f in l.fences {
          assert f in Marks(l);
        }
      }
    }
  }

  lemma BaseKept(l: Lay, b: int, n: int, i: nat)
    requires LayoutOK(l) && Fresh(l.segs, b, n) && i < |l.segs|
    ensures |l.stops| > 0 && l.topsize > 0 && n >= TOP_FOOT_SIZE
    ensures var l', s := CloseTop(l, b, n), l.segs[i];
      s.base in l'.chunks && s.base in l'.head && l'.head[s.base].pinuse
  {
    hide LayoutOK, Fresh, FencesOf;
    LayoutParts(l);
    FreshSize(l.segs, b, n);
    SegmentAt(l, i);
    var s := l.segs[i].base;
    assert InSegment(l.segs, s);
    if s in l.chunks {
      TopApart(l, s);
      ClosedFrame(l, b, n, s);
    } else {
      FreshOutside(l.segs, b, n, b);
    }
  }

  lemma ClosedTop(l: Lay, b: int, n: int)
    requires LayoutOK(l) && Fresh(l.segs, b, n)
    ensures |l.stops| > 0 && l.topsize > 0 && n >= TOP_FOOT_SIZE
    ensures TopOK(CloseTop(l, b, n))
  {
    hide LayoutOK, Fresh, FencesOf, InSegment;
    LayoutParts(l);
    FreshSize(l.segs, b, n);
    PagesAligned(0, b);
    PagesAligned(-TOP_FOOT_SIZE, n);
    var l' := CloseTop(l, b, n);
    forall m | m in Marks(l') && m != b
      ensures m < b || b + n <= m
    {
      if m in Marks(l) {
        MarkInSegment(l, m);
      } else {
        ClosedMarks(l, b, n, m);
        TopInSegment(l, m);
      }
      if b <= m < b + n {
        FreshOutside(l.segs, b, n, m);
      }
    }
    ClosedTopHeads(l, b, n);
    assert b !in l'.chunks && b !in l'.fences by {
      ClosedNew(l, b, n);
    }
  }

  lemma ClosedTopHeads(l: Lay, b: int, n: int)
    requires LayoutOK(l) && Fresh(l.segs, b, n)
    ensures |l.stops| > 0 && l.topsize > 0 && n >= TOP_FOOT_SIZE
    ensures var l' := CloseTop(l, b, n);
      && b in l'.head && l'.head[b] == Head(n - TOP_FOOT_SIZE, true, false)
      && b + n - TOP_FOOT_SIZE in l'.head && l'.head[b + n - TOP_FOOT_SIZE] == Head(TOP_FOOT_SIZE, false, false)
  {
    hide LayoutOK, Fresh, FencesOf, InSegment;
    LayoutParts(l);
    FreshSize(l.segs, b, n);
    AwayFromTop(l, b, n, b);
    AwayFromTop(l, b, n, b + n - TOP_FOOT_SIZE);
  }

  lemma AwayFromTop(l: Lay, b: int, n: int, a: int)
    requires LayoutOK(l) && Fresh(l.segs, b, n) && b <= a < b + n
    ensures !(l.top <= a < l.top + l.topsize + TOP_FOOT_SIZE)
  {
    hide LayoutOK, Fresh, InSegment;
    FreshOutside(l.segs, b, n, a);
    if l.top <= a < l.top + l.topsize + TOP_FOOT_SIZE {
      TopInSegment(l, a);
    }
  }

  lemma ClosedNew(l: Lay, b: int, n: int)
    requires LayoutOK(l) && Fresh(l.segs, b, n)
    ensures |l.stops| > 0 && l.topsize > 0 && n >= TOP_FOOT_SIZE
    ensures b !in CloseTop(l, b, n).chunks && b !in CloseTop(l, b, n).fences
  {
    hide LayoutOK, Fresh, FencesOf, InSegment;
    LayoutParts(l);
    FreshSize(l.segs, b, n);
    FreshOutside(l.segs, b, n, b);
    if b in Marks(l) {
      MarkInSegment(l, b);
    }
    if l.top <= b < l.top + l.topsize + TOP_FOOT_SIZE {
      TopInSegment(l, b);
    }
  }

  lemma ClosedApart(l: Lay, b: int, n: int)
    requires LayoutOK(l) && Fresh(l.segs, b, n)
    ensures |l.stops| > 0 && l.topsize > 0 && n >= TOP_FOOT_SIZE
    ensures SegmentsApart(CloseTop(l, b, n))
  {
    hide LayoutOK, Clear;
    LayoutParts(l);
    var segs, segs' := l.segs, CloseTop(l, b, n).segs;
    forall j, k | 0 <= j < k < |segs'|
      ensures segs'[j].base + segs'[j].size <= segs'[k].base || segs'[k].base + segs'[k].size <= segs'[j].base
    {
      assert segs'[k] == segs[k - 1];
      if j > 0 {
        assert segs'[j] == segs[j - 1];
      }
    }
  }

  /** Opening a new segment keeps the layout. */
  lemma CloseTopKeeps(l: Lay, b: int, n: int)
    requires LayoutOK(l) && Fresh(l.segs, b, n) && n < SEGMENT_LIMIT
    ensures |l.stops| > 0 && l.topsize > 0 && n >= TOP_FOOT_SIZE
    ensures LayoutOK(CloseTop(l, b, n)) && RecordPlace(l) !in l.chunks && l.top !in l.chunks
  {
    hide LayoutOK, ChunkOK, SegmentOK, FenceOK, TopOK, Fresh, SegmentsApart, FencesOf, ClosedHeads;
    ClosedRecord(l, b, n);
    ClosedApart(l, b, n);
    ClosedTop(l, b, n);
    TopNoChunk(l);
    var l' := CloseTop(l, b, n);
    forall q | q in l'.chunks
      ensures ChunkOK(l', q)
    {
      if q in l.chunks {
        ClosedOld(l, b, n, q);
      } else if q != RecordPlace(l) {
        ClosedRest(l, b, n);
      }
    }
    forall f | f in l'.fences
      ensures FenceOK(l', f)
    {
      ClosedFence(l, b, n, f);
    }
    forall i | 0 <= i < |l'.segs|
      ensures SegmentOK(l', i)
    {
      ClosedSegment(l, b, n, i);
    }
    LayoutIntro(l');
  }

  lemma TopNoChunk(l: Lay)
    requires LayoutOK(l)
    ensures l.top !in l.chunks && l.top > 0 && |l.stops| == |l.segs| > 0
  {
    hide LayoutOK;
    LayoutParts(l);
  }
}
