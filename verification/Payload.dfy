/** What a change of the layout leaves alone: the chunks in use and the words inside them. */
module Payload {
  import opened Memory
  import opened Layout
  import opened Segments
  import opened Growth
  import opened NewSegment

  ghost predicate SameHead(l: Lay, l': Lay, a: int) {
    (a in l'.head <==> a in l.head) && (a in l.head ==> l'.head[a] == l.head[a])
  }

  ghost predicate SameFoot(l: Lay, l': Lay, a: int) {
    (a in l'.foot <==> a in l.foot) && (a in l.foot ==> l'.foot[a] == l.foot[a])
  }

  /**
   * No head or foot word that lies in the payload bytes [p + 16, e + 8) was written. The head word of
   * address `a` is at `a + 8` and its foot word at `a`.
   */
  ghost predicate PayloadKept(l: Lay, l': Lay, p: int, e: int) {
    && (forall a :: p < a < e ==> SameHead(l, l', a))
    && (forall a :: p < a <= e ==> SameFoot(l, l', a))
  }

  predicate InUse(l: Lay, p: int) {
    p in l.chunks && p in l.head && l.head[p].cinuse
  }

  /** A chunk that was in use still is, with its size and its payload. */
  ghost predicate Kept(l: Lay, l': Lay, p: int) {
    InUse(l, p) ==> InUse(l', p) && l'.head[p].size == l.head[p].size && PayloadKept(l, l', p, End(l, p))
  }

  /** No word outside the segments was written, and segments only grow. */
  ghost predicate OutsideKept(l: Lay, l': Lay) {
    && (forall a :: InSegment(l.segs, a) ==> InSegment(l'.segs, a))
    && (forall a :: !InSegment(l'.segs, a) ==> SameHead(l, l', a) && SameFoot(l, l', a))
  }

  /** Apart from the chunks of `x`, all chunks in use and all memory outside the segments are left alone. */
  ghost predicate AllKept(l: Lay, l': Lay, x: set<int>) {
    (forall p :: p !in x ==> Kept(l, l', p)) && OutsideKept(l, l')
  }

  lemma OutsideTrans(l: Lay, l1: Lay, l2: Lay)
    requires OutsideKept(l, l1) && OutsideKept(l1, l2)
    ensures OutsideKept(l, l2)
  {
    hide InSegment;
  }

  lemma KeptTrans(l: Lay, l1: Lay, l2: Lay, x: set<int>, y: set<int>)
    requires AllKept(l, l1, x) && AllKept(l1, l2, y)
    ensures AllKept(l, l2, x + y)
  {
    hide InSegment, PayloadKept, OutsideKept;
    OutsideTrans(l, l1, l2);
    forall p | p !in x + y
      ensures Kept(l, l2, p)
    {
      assert Kept(l, l1, p) && Kept(l1, l2, p);
      if InUse(l, p) {
        PayloadTrans(l, l1, l2, p, End(l, p));
      }
    }
  }

  lemma PayloadTrans(l: Lay, l1: Lay, l2: Lay, p: int, e: int)
    requires PayloadKept(l, l1, p, e) && PayloadKept(l1, l2, p, e)
    ensures PayloadKept(l, l2, p, e)
  {
    forall a | p < a < e
      ensures SameHead(l, l2, a)
    {
      assert SameHead(l, l1, a) && SameHead(l1, l2, a);
    }
    forall a | p < a <= e
      ensures SameFoot(l, l2, a)
    {
      assert SameFoot(l, l1, a) && SameFoot(l1, l2, a);
    }
  }

  /** Heads were written only at `hs`, feet only at `fs`. */
  ghost predicate Written(l: Lay, l': Lay, hs: set<int>, fs: set<int>) {
    && (forall a :: a !in hs ==> SameHead(l, l', a))
    && (forall a :: a !in fs ==> SameFoot(l, l', a))
  }

  /** A head word that the allocator may write is at no chunk's inside. */
  predicate HeadPlace(l: Lay, a: int) {
    a in Marks(l) || a == l.top + l.topsize
  }

  predicate FootPlace(l: Lay, a: int) {
    exists c :: c in l.chunks && c in l.head && !l.head[c].cinuse && End(l, c) == a
  }

  lemma HeadPlaceOutside(l: Lay, a: int, p: int)
    requires LayoutOK(l) && HeadPlace(l, a) && p in l.chunks
    ensures p in l.head && !(p < a < End(l, p))
  {
    hide LayoutOK, Housed, PrevOK;
    ChunkAt(l, p);
    LayoutParts(l);
    TopApart(l, p);
  }

  lemma FootPlaceOutside(l: Lay, a: int, p: int)
    requires LayoutOK(l) && FootPlace(l, a) && InUse(l, p)
    ensures !(p < a <= End(l, p))
  {
    hide LayoutOK, Housed, PrevOK;
    var c :| c in l.chunks && c in l.head && !l.head[c].cinuse && End(l, c) == a;
    ChunkAt(l, c);
    ChunkAt(l, p);
    EndsDistinct(l, c, p);
  }

  lemma WrittenKept(l: Lay, l': Lay, hs: set<int>, fs: set<int>, p: int)
    requires LayoutOK(l) && LayoutOK(l') && Written(l, l', hs, fs)
    requires InUse(l, p) && InUse(l', p) && l'.head[p].size == l.head[p].size
    requires forall a :: a in hs ==> HeadPlace(l, a) || HeadPlace(l', a)
    requires forall a :: a in fs ==> FootPlace(l', a)
    ensures Kept(l, l', p)
  {
    hide LayoutOK, HeadPlace, FootPlace, SameHead, SameFoot;
    forall a | p < a < End(l, p)
      ensures SameHead(l, l', a)
    {
      if a in hs {
        if HeadPlace(l, a) {
          HeadPlaceOutside(l, a, p);
        } else {
          HeadPlaceOutside(l', a, p);
        }
      }
    }
    forall a | p < a <= End(l, p)
      ensures SameFoot(l, l', a)
    {
      if a in fs {
        FootPlaceOutside(l', a, p);
      }
    }
  }

  ghost predicate SegmentsGrow(l: Lay, l': Lay) {
    forall a :: InSegment(l.segs, a) ==> InSegment(l'.segs, a)
  }

  lemma HeadPlaceInSegment(l: Lay, a: int)
    requires LayoutOK(l) && HeadPlace(l, a)
    ensures InSegment(l.segs, a)
  {
    hide LayoutOK, InSegment, Clear;
    if a in Marks(l) {
      MarkInSegment(l, a);
    } else {
      LayoutParts(l);
      TopInSegment(l, a);
    }
  }

  lemma WrittenOutside(l: Lay, l': Lay, hs: set<int>, fs: set<int>)
    requires LayoutOK(l) && LayoutOK(l') && Written(l, l', hs, fs) && SegmentsGrow(l, l')
    requires forall a :: a in hs ==> HeadPlace(l, a) || HeadPlace(l', a)
    requires forall a :: a in fs ==> FootPlace(l', a)
    ensures OutsideKept(l, l')
  {
    hide LayoutOK, HeadPlace, SameHead, SameFoot, InSegment;
    forall a | !InSegment(l'.segs, a)
      ensures SameHead(l, l', a) && SameFoot(l, l', a)
    {
      if a in hs {
        if HeadPlace(l, a) {
          HeadPlaceInSegment(l, a);
        } else {
          HeadPlaceInSegment(l', a);
        }
      }
      if a in fs {
        var c :| c in l'.chunks && c in l'.head && !l'.head[c].cinuse && End(l', c) == a;
        ChunkInSegment(l', c);
      }
    }
  }

  lemma WrittenAllKept(l: Lay, l': Lay, hs: set<int>, fs: set<int>, x: set<int>)
    requires LayoutOK(l) && LayoutOK(l') && Written(l, l', hs, fs)
    requires forall p :: p !in x && InUse(l, p) ==> InUse(l', p) && l'.head[p].size == l.head[p].size
    requires forall a :: a in hs ==> HeadPlace(l, a) || HeadPlace(l', a)
    requires forall a :: a in fs ==> FootPlace(l', a)
    requires SegmentsGrow(l, l')
    ensures AllKept(l, l', x)
  {
    hide LayoutOK, HeadPlace, FootPlace, SameHead, SameFoot, Written, PayloadKept, SegmentsGrow, OutsideKept;
    WrittenOutside(l, l', hs, fs);
    forall p | p !in x
      ensures Kept(l, l', p)
    {
      if InUse(l, p) {
        WrittenKept(l, l', hs, fs, p);
      }
    }
  }

  // ----- the transforms

  lemma UseAllKept(l: Lay, p: int)
    requires LayoutOK(l) && p in l.chunks && p in l.head && !l.head[p].cinuse
    ensures End(l, p) in l.head && AllKept(l, Use(l, p), {})
  {
    hide LayoutOK, AllKept, InSegment;
    AfterFree(l, p);
    UseKeeps(l, p);
    WrittenAllKept(l, Use(l, p), {p, End(l, p)}, {}, {});
  }

  lemma SplitAllKept(l: Lay, p: int, nb: nat)
    requires LayoutOK(l) && p in l.chunks && p in l.head && !l.head[p].cinuse
    requires 32 <= nb && nb % 16 == 0 && nb + 32 <= l.head[p].size
    ensures AllKept(l, Split(l, p, nb), {})
  {
    hide LayoutOK, AllKept, InSegment;
    SplitKeeps(l, p, nb);
    var l' := Split(l, p, nb);
    assert FootPlace(l', End(l, p)) by {
      assert End(l', p + nb) == End(l, p);
    }
    WrittenAllKept(l, l', {p, p + nb}, {End(l, p)}, {});
  }

  lemma TakeTopAllKept(l: Lay, nb: nat)
    requires LayoutOK(l) && nb % 16 == 0 && 32 <= nb < l.topsize
    ensures |l.stops| > 0 && AllKept(l, TakeTop(l, nb), {})
  {
    hide LayoutOK, AllKept, InSegment;
    TakeTopKeeps(l, nb);
    TopUnmarked(l, l.top + nb);
    WrittenAllKept(l, TakeTop(l, nb), {l.top, l.top + nb}, {}, {});
  }

  lemma TopUnmarked(l: Lay, a: int)
    requires LayoutOK(l) && l.top < a < l.top + l.topsize
    ensures a !in l.chunks
  {
    hide LayoutOK, ChunkOK;
    if a in l.chunks {
      TopApart(l, a);
    }
  }

  lemma CoalesceAllKept(l: Lay, a: int, b: int, x: set<int>)
    requires LayoutOK(l) && Region(l, a, b) && b in l.chunks && a in l.head && l.head[a].pinuse && l.head[b].cinuse
    requires forall p :: InUse(l, p) && a <= p < b ==> p in x
    ensures AllKept(l, Coalesce(l, a, b), x)
  {
    hide LayoutOK, AllKept, Region, InSegment;
    CoalesceKeeps(l, a, b);
    RegionParts(l, a, b);
    var l' := Coalesce(l, a, b);
    assert FootPlace(l', b) by {
      assert End(l', a) == b;
    }
    WrittenAllKept(l, l', {a, b}, {b}, x);
  }

  lemma RegionParts(l: Lay, a: int, b: int)
    requires Region(l, a, b)
    ensures a in l.chunks && a < b && b in Marks(l) && b in l.head
  {
  }

  lemma JoinTopAllKept(l: Lay, a: int, x: set<int>)
    requires LayoutOK(l) && Region(l, a, l.top) && a in l.head && l.head[a].pinuse
    requires forall p :: InUse(l, p) && a <= p < l.top ==> p in x
    ensures |l.stops| > 0 && l.topsize >= 0 && AllKept(l, JoinTop(l, a), x)
  {
    hide LayoutOK, AllKept, Region, InSegment;
    JoinTopKeeps(l, a);
    RegionParts(l, a, l.top);
    WrittenAllKept(l, JoinTop(l, a), {a}, {}, x);
  }

  lemma SplitUsedAllKept(l: Lay, p: int, nb: nat)
    requires LayoutOK(l) && p in l.chunks && p !in l.records && p in l.head && l.head[p].cinuse
    requires 32 <= nb && nb % 16 == 0 && nb + 32 <= l.head[p].size
    ensures AllKept(l, SplitUsed(l, p, nb), {p})
    ensures PayloadKept(l, SplitUsed(l, p, nb), p, p + nb)
  {
    hide LayoutOK, AllKept, InSegment;
    SplitUsedKeeps(l, p, nb);
    WrittenAllKept(l, SplitUsed(l, p, nb), {p, p + nb}, {}, {p});
  }

  lemma AbsorbAllKept(l: Lay, p: int)
    requires LayoutOK(l) && p in l.chunks && p in l.head && l.head[p].cinuse
    requires End(l, p) in l.chunks && End(l, p) in l.head && !l.head[End(l, p)].cinuse
    ensures End(l, End(l, p)) in l.head && AllKept(l, Absorb(l, p), {p})
    ensures PayloadKept(l, Absorb(l, p), p, End(l, p))
  {
    hide LayoutOK, AllKept, InSegment;
    AbsorbKeeps(l, p);
    AfterFree(l, End(l, p));
    WrittenAllKept(l, Absorb(l, p), {p, End(l, End(l, p))}, {}, {p});
  }

  lemma GrowIntoTopAllKept(l: Lay, p: int, nb: nat)
    requires LayoutOK(l) && p in l.chunks && p in l.head && l.head[p].cinuse && End(l, p) == l.top
    requires nb % 16 == 0 && l.head[p].size < nb < l.head[p].size + l.topsize
    ensures |l.stops| > 0 && AllKept(l, GrowIntoTop(l, p, nb), {p})
    ensures PayloadKept(l, GrowIntoTop(l, p, nb), p, End(l, p))
  {
    hide LayoutOK, AllKept, InSegment;
    GrowIntoTopKeeps(l, p, nb);
    TopUnmarked(l, p + nb);
    WrittenAllKept(l, GrowIntoTop(l, p, nb), {p, p + nb}, {}, {p});
  }

  lemma AppendAllKept(l: Lay, n: nat)
    requires LayoutOK(l) && Fresh(l.segs, l.top + l.topsize + TOP_FOOT_SIZE, n)
    requires |l.segs| > 0 && l.segs[0].size + n < SEGMENT_LIMIT
    ensures l.topsize > 0 && AllKept(l, Append(l, n), {})
  {
    hide LayoutOK, AllKept, Fresh, InSegment;
    AppendKeeps(l, n);
    TopNoChunk(l);
    NotFresh(l, l.top + l.topsize + TOP_FOOT_SIZE, n, l.top + l.topsize + n);
    forall a | InSegment(l.segs, a)
      ensures InSegment(Append(l, n).segs, a)
    {
      GrownInSegment(l.segs, n, a);
    }
    WrittenAllKept(l, Append(l, n), {l.top, l.top + l.topsize + n}, {}, {});
  }

  lemma NotFresh(l: Lay, b: int, n: int, a: int)
    requires LayoutOK(l) && Fresh(l.segs, b, n) && (b <= a < b + n || (a == b + n - TOP_FOOT_SIZE))
    ensures a !in l.chunks
  {
    hide LayoutOK, Fresh, InSegment, ChunkOK;
    FreshSize(l.segs, b, n);
    FreshOutside(l.segs, b, n, a);
    if a in l.chunks {
      ChunkInSegment(l, a);
    }
  }

  lemma PrependAllKept(l: Lay, i: nat, n: nat)
    requires LayoutOK(l) && i < |l.segs| && Fresh(l.segs, l.segs[i].base - n, n)
    requires l.segs[i].size + n < SEGMENT_LIMIT
    ensures AllKept(l, Prepend(l, i, n), {})
  {
    hide LayoutOK, AllKept, Fresh, InSegment;
    PrependKeeps(l, i, n);
    forall a | InSegment(l.segs, a)
      ensures InSegment(Prepend(l, i, n).segs, a)
    {
      PrependInSegment(l.segs, i, n, a);
    }
    WrittenAllKept(l, Prepend(l, i, n), {l.segs[i].base - n}, {}, {});
  }

  lemma CloseTopWritten(l: Lay, b: int, n: int)
    requires LayoutOK(l) && Fresh(l.segs, b, n) && n < SEGMENT_LIMIT
    ensures |l.stops| > 0 && l.topsize > 0 && n >= TOP_FOOT_SIZE
    ensures var e, c := l.top + l.topsize + TOP_FOOT_SIZE, RecordPlace(l);
            Written(l, CloseTop(l, b, n), {b, b + n - TOP_FOOT_SIZE, c, l.top} + FencesOf(c + RECORD_SIZE, e),
                    if c == l.top then {} else {c})
  {
    hide LayoutOK, Fresh, FencesOf;
    CloseTopKeeps(l, b, n);
  }

  lemma CloseTopAllKept(l: Lay, b: int, n: int)
    requires LayoutOK(l) && Fresh(l.segs, b, n) && n < SEGMENT_LIMIT
    ensures |l.stops| > 0 && l.topsize > 0 && n >= TOP_FOOT_SIZE
    ensures AllKept(l, CloseTop(l, b, n), {})
  {
    hide LayoutOK, AllKept, Fresh, InSegment, FencesOf, Written, ClosedHeads;
    CloseTopKeeps(l, b, n);
    CloseTopWritten(l, b, n);
    var e, c, l' := l.top + l.topsize + TOP_FOOT_SIZE, RecordPlace(l), CloseTop(l, b, n);
    forall p | InUse(l, p)
      ensures InUse(l', p) && l'.head[p].size == l.head[p].size
    {
      ChunkInSegment(l, p);
      TopApart(l, p);
      ClosedFrame(l, b, n, p);
    }
    forall a | InSegment(l.segs, a)
      ensures InSegment(l'.segs, a)
    {
      OlderInSegment(l.segs, Segment(b, n), a);
    }
    if c != l.top {
      assert FootPlace(l', c) by {
        assert End(l', l.top) == c;
      }
    }
    WrittenAllKept(l, l', {b, b + n - TOP_FOOT_SIZE, c, l.top} + FencesOf(c + RECORD_SIZE, e),
                   if c == l.top then {} else {c}, {});
  }
}
