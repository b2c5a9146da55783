/** Which chunks are free, where each free chunk is listed, and what the allocator's steps do to that. */
module Books {
  import opened Memory
  import opened BinStore
  import opened Layout
  import opened Segments
  import opened Growth
  import opened NewSegment
  import opened Payload

  /**
   * Every free chunk is exactly one of: the designated victim, a member of a bin, or `loose`, which means
   * in the hands of the operation that is running. Segment records are in use, and there are none before the
   * second segment.
   */
  ghost predicate Listed(l: Lay, members: set<int>, dv: int, dvsize: nat, loose: set<int>) {
    && members <= l.chunks && loose <= l.chunks && members !! loose
    && dv !in members && dv !in loose
    && (dv == 0 <==> dvsize == 0)
    && (dv != 0 ==> dv in l.chunks && dv in l.head && l.head[dv].size == dvsize)
    && (forall p :: p in l.chunks && p in l.head ==> (!l.head[p].cinuse <==> p == dv || p in members || p in loose))
    && (forall p :: p in l.records ==> InUse(l, p))
    && (|l.segs| == 1 ==> l.records == {})
  }

  ghost predicate HeapOK(l: Lay, v: BinView, dv: int, dvsize: nat, loose: set<int>) {
    LayoutOK(l) && BinsOK(v, l.head) && Listed(l, v.members, dv, dvsize, loose)
  }

  lemma HeapIntro(l: Lay, l': Lay, v: BinView, dv: int, dvsize: nat, loose: set<int>)
    requires BinsOK(v, l.head) && LayoutOK(l') && SameHeads(l.head, l'.head, v.members)
    requires Listed(l', v.members, dv, dvsize, loose)
    ensures HeapOK(l', v, dv, dvsize, loose)
  {
    hide LayoutOK, BinsOK, Listed, SameHeads;
    HeadsFrame(v, l.head, l'.head);
  }

  lemma HeapParts(l: Lay, v: BinView, dv: int, dvsize: nat, loose: set<int>)
    requires HeapOK(l, v, dv, dvsize, loose)
    ensures LayoutOK(l) && BinsOK(v, l.head) && Listed(l, v.members, dv, dvsize, loose)
  {
    hide LayoutOK, BinsOK, Listed;
  }

  /** A chunk of the layout has a head word and a legal size. */
  lemma ChunkHead(l: Lay, p: int)
    requires LayoutOK(l) && p in l.chunks
    ensures p > 0 && p % 16 == 0 && p in l.head && l.head[p].size % 16 == 0 && End(l, p) in l.head
    ensures 32 <= l.head[p].size < SEGMENT_LIMIT
  {
    hide LayoutOK, Clear, PrevOK;
    ChunkAt(l, p);
    var i: nat :| Within(l.segs, l.stops, i, p, End(l, p));
    SegmentAt(l, i);
  }

  // ----- handing out free chunks

  lemma UseListed(l: Lay, v: BinView, dv: int, dvsize: nat, loose: set<int>, p: int)
    requires HeapOK(l, v, dv, dvsize, loose) && p in loose
    ensures p in l.chunks && p in l.head && !l.head[p].cinuse && End(l, p) in l.head
    ensures Listed(Use(l, p), v.members, dv, dvsize, loose - {p}) && SameHeads(l.head, Use(l, p).head, v.members)
  {
    hide LayoutOK, BinsOK;
    HeapParts(l, v, dv, dvsize, loose);
    ChunkHead(l, p);
    forall q | q in v.members
      ensures q in l.head
    {
      ChunkHead(l, q);
    }
  }

  lemma UseHeap(l: Lay, v: BinView, dv: int, dvsize: nat, loose: set<int>, p: int)
    requires HeapOK(l, v, dv, dvsize, loose) && p in loose
    ensures p in l.chunks && p in l.head && End(l, p) in l.head
    ensures HeapOK(Use(l, p), v, dv, dvsize, loose - {p}) && AllKept(l, Use(l, p), {}) && InUse(Use(l, p), p)
  {
    hide LayoutOK, BinsOK, Listed, AllKept, SameHeads, HeapOK;
    HeapParts(l, v, dv, dvsize, loose);
    UseListed(l, v, dv, dvsize, loose, p);
    UseKeeps(l, p);
    UseAllKept(l, p);
    HeapIntro(l, Use(l, p), v, dv, dvsize, loose - {p});
  }

  lemma SplitListed(l: Lay, v: BinView, dv: int, dvsize: nat, loose: set<int>, p: int, nb: nat)
    requires HeapOK(l, v, dv, dvsize, loose) && p in loose
    requires p in l.head && 32 <= nb && nb % 16 == 0 && nb + 32 <= l.head[p].size
    ensures p in l.chunks && !l.head[p].cinuse
    ensures Listed(Split(l, p, nb), v.members, dv, dvsize, loose - {p} + {p + nb})
    ensures SameHeads(l.head, Split(l, p, nb).head, v.members)
  {
    hide LayoutOK, BinsOK;
    HeapParts(l, v, dv, dvsize, loose);
    ChunkHead(l, p);
    SplitNew(l, p, nb);
    forall q | q in v.members
      ensures q in l.head
    {
      ChunkHead(l, q);
    }
  }

  lemma SplitHeap(l: Lay, v: BinView, dv: int, dvsize: nat, loose: set<int>, p: int, nb: nat)
    requires HeapOK(l, v, dv, dvsize, loose) && p in loose
    requires p in l.head && 32 <= nb && nb % 16 == 0 && nb + 32 <= l.head[p].size
    ensures HeapOK(Split(l, p, nb), v, dv, dvsize, loose - {p} + {p + nb}) && AllKept(l, Split(l, p, nb), {})
    ensures p in l.chunks && InUse(Split(l, p, nb), p) && p + nb !in l.chunks
  {
    hide LayoutOK, BinsOK, Listed, AllKept, SameHeads, HeapOK;
    HeapParts(l, v, dv, dvsize, loose);
    SplitListed(l, v, dv, dvsize, loose, p, nb);
    SplitKeeps(l, p, nb);
    SplitAllKept(l, p, nb);
    HeapIntro(l, Split(l, p, nb), v, dv, dvsize, loose - {p} + {p + nb});
  }

  lemma TakeTopListed(l: Lay, v: BinView, dv: int, dvsize: nat, loose: set<int>, nb: nat)
    requires HeapOK(l, v, dv, dvsize, loose) && nb % 16 == 0 && 32 <= nb < l.topsize
    ensures |l.stops| > 0 && l.top !in l.chunks
    ensures Listed(TakeTop(l, nb), v.members, dv, dvsize, loose) && SameHeads(l.head, TakeTop(l, nb).head, v.members)
  {
    hide LayoutOK, BinsOK;
    HeapParts(l, v, dv, dvsize, loose);
    TopNoChunk(l);
    TopUnmarked(l, l.top + nb);
    forall q | q in v.members
      ensures q in l.head
    {
      ChunkHead(l, q);
    }
  }

  lemma TakeTopHeap(l: Lay, v: BinView, dv: int, dvsize: nat, loose: set<int>, nb: nat)
    requires HeapOK(l, v, dv, dvsize, loose) && nb % 16 == 0 && 32 <= nb < l.topsize
    ensures |l.stops| > 0 && l.top !in l.chunks
    ensures HeapOK(TakeTop(l, nb), v, dv, dvsize, loose) && AllKept(l, TakeTop(l, nb), {})
    ensures InUse(TakeTop(l, nb), l.top)
  {
    hide LayoutOK, BinsOK, Listed, AllKept, SameHeads, HeapOK;
    HeapParts(l, v, dv, dvsize, loose);
    TakeTopListed(l, v, dv, dvsize, loose, nb);
    TakeTopKeeps(l, nb);
    TakeTopAllKept(l, nb);
    HeapIntro(l, TakeTop(l, nb), v, dv, dvsize, loose);
  }

  // ----- freeing

  /** [a, b) holds the chunk `p` in use, and otherwise only loose chunks and perhaps the designated victim. */
  ghost predicate Gathered(l: Lay, dv: int, loose: set<int>, a: int, b: int, p: int) {
    && Region(l, a, b) && a in l.head && l.head[a].pinuse
    && InUse(l, p) && p !in l.records
    && (forall q :: q in l.chunks && a <= q < b ==> q == p || q in loose || q == dv)
    && (forall q :: q in loose ==> a <= q < b)
  }

  /** [a, b) is tiled by chunks of `s` and follows a chunk in use. */
  ghost predicate Run(l: Lay, a: int, b: int, s: set<int>) {
    && Region(l, a, b) && a in l.head && l.head[a].pinuse
    && (forall q :: q in l.chunks && a <= q < b ==> q in s)
  }

  lemma RunStart(l: Lay, p: int)
    requires LayoutOK(l) && InUse(l, p) && l.head[p].pinuse
    ensures Run(l, p, End(l, p), {p})
  {
    hide LayoutOK, Region;
    ChunkRegion(l, p);
    forall q | q in l.chunks && p <= q < End(l, p)
      ensures q == p
    {
      if p < q {
        ChunksApart(l, p, q);
      }
    }
  }

  /** The foot below the chunk `p` leads to a free chunk that ends there. */
  ghost predicate FollowsFree(l: Lay, p: int) {
    && p in l.foot && 0 < l.foot[p]
    && var a := p - l.foot[p];
    && a in l.chunks && a in l.head && !l.head[a].cinuse && l.head[a].size == l.foot[p] && l.head[a].pinuse
    && End(l, a) == p
  }

  lemma ChunkBefore(l: Lay, p: int)
    requires LayoutOK(l) && InUse(l, p) && !l.head[p].pinuse
    ensures FollowsFree(l, p)
  {
    hide LayoutOK, Clear, Housed;
    ChunkAt(l, p);
    ChunkAt(l, p - l.foot[p]);
  }

  lemma RunBack(l: Lay, a: int, p: int)
    requires LayoutOK(l) && InUse(l, p) && FollowsFree(l, p) && a == p - l.foot[p]
    ensures Run(l, a, End(l, p), {a, p})
  {
    hide LayoutOK, Region, Clear, Marks;
    ChunkRegion(l, a);
    RegionExtend(l, a, p);
    PairClear(l, a);
  }

  lemma RunForward(l: Lay, a: int, b: int, s: set<int>)
    requires LayoutOK(l) && Run(l, a, b, s) && b in l.chunks
    ensures b in l.head && Run(l, a, End(l, b), s + {b})
  {
    hide LayoutOK, Region;
    RegionParts(l, a, b);
    RegionExtend(l, a, b);
    forall q | q in l.chunks && a <= q < End(l, b)
      ensures q in s + {b}
    {
      if b < q {
        ChunksApart(l, b, q);
      }
    }
  }

  lemma GatheredRun(l: Lay, dv: int, loose: set<int>, a: int, b: int, p: int, s: set<int>)
    requires Run(l, a, b, s) && InUse(l, p) && p !in l.records
    requires forall q :: q in s ==> q == p || q in loose || q == dv
    requires forall q :: q in loose ==> a <= q < b
    ensures Gathered(l, dv, loose, a, b, p)
  {
    hide Region;
  }

  function DvAfter(dv: int, a: int, b: int, d: int): (dv': int) {
    if a <= dv < b then d else dv
  }

  function LooseAfter(dv: int, a: int, b: int): (loose: set<int>) {
    if a <= dv < b then {} else {a}
  }

  /** No binned chunk lies in a gathered region. */
  lemma GatheredMembers(l: Lay, v: BinView, dv: int, dvsize: nat, loose: set<int>, a: int, b: int, p: int)
    requires HeapOK(l, v, dv, dvsize, loose) && Gathered(l, dv, loose, a, b, p)
    ensures a in l.chunks && a < b && b in l.head
    ensures forall q :: q in v.members ==> q > 0 && q in l.head && !(a <= q < b)
    ensures forall q :: q in l.chunks ==> q > 0 && q in l.head
    ensures forall q :: q in l.records ==> InUse(l, q) && !(a <= q < b)
  {
    hide LayoutOK, BinsOK, Solid, Housed;
    HeapParts(l, v, dv, dvsize, loose);
    forall q | q in l.chunks
      ensures q > 0 && q in l.head
    {
      ChunkHead(l, q);
    }
  }

  lemma CoalesceStatus(l: Lay, v: BinView, dv: int, dvsize: nat, loose: set<int>, a: int, b: int, p: int, q: int)
    requires HeapOK(l, v, dv, dvsize, loose) && Gathered(l, dv, loose, a, b, p) && a < b && b in l.head
    requires q in Coalesce(l, a, b).chunks && q in Coalesce(l, a, b).head
    ensures !Coalesce(l, a, b).head[q].cinuse <==>
            q == DvAfter(dv, a, b, a) || q in v.members || q in LooseAfter(dv, a, b)
  {
    hide LayoutOK, BinsOK, Region;
    HeapParts(l, v, dv, dvsize, loose);
    GatheredMembers(l, v, dv, dvsize, loose, a, b, p);
  }

  lemma CoalesceListed(l: Lay, v: BinView, dv: int, dvsize: nat, loose: set<int>, a: int, b: int, p: int)
    requires HeapOK(l, v, dv, dvsize, loose) && Gathered(l, dv, loose, a, b, p)
    requires b in l.chunks && b in l.head && l.head[b].cinuse && a < b
    ensures Listed(Coalesce(l, a, b), v.members, DvAfter(dv, a, b, a), if a <= dv < b then b - a else dvsize,
                   LooseAfter(dv, a, b))
    ensures SameHeads(l.head, Coalesce(l, a, b).head, v.members)
  {
    hide LayoutOK, BinsOK, Gathered;
    HeapParts(l, v, dv, dvsize, loose);
    GatheredMembers(l, v, dv, dvsize, loose, a, b, p);
    var l' := Coalesce(l, a, b);
    forall q | q in l'.chunks && q in l'.head
      ensures !l'.head[q].cinuse <==> q == DvAfter(dv, a, b, a) || q in v.members || q in LooseAfter(dv, a, b)
    {
      CoalesceStatus(l, v, dv, dvsize, loose, a, b, p, q);
    }
  }

  lemma CoalesceHeap(l: Lay, v: BinView, dv: int, dvsize: nat, loose: set<int>, a: int, b: int, p: int)
    requires HeapOK(l, v, dv, dvsize, loose) && Gathered(l, dv, loose, a, b, p)
    requires b in l.chunks && b in l.head && l.head[b].cinuse && a < b
    ensures HeapOK(Coalesce(l, a, b), v, DvAfter(dv, a, b, a), if a <= dv < b then b - a else dvsize,
                   LooseAfter(dv, a, b))
    ensures AllKept(l, Coalesce(l, a, b), {p})
  {
    hide LayoutOK, BinsOK, Listed, AllKept, SameHeads, HeapOK, Region;
    HeapParts(l, v, dv, dvsize, loose);
    CoalesceListed(l, v, dv, dvsize, loose, a, b, p);
    CoalesceKeeps(l, a, b);
    assert forall q :: InUse(l, q) && a <= q < b ==> q in {p} by {
      GatheredUse(l, v, dv, dvsize, loose, a, b, p);
    }
    CoalesceAllKept(l, a, b, {p});
    HeapIntro(l, Coalesce(l, a, b), v, DvAfter(dv, a, b, a), if a <= dv < b then b - a else dvsize,
              LooseAfter(dv, a, b));
  }

  lemma GatheredUse(l: Lay, v: BinView, dv: int, dvsize: nat, loose: set<int>, a: int, b: int, p: int)
    requires HeapOK(l, v, dv, dvsize, loose) && Gathered(l, dv, loose, a, b, p)
    ensures forall q :: InUse(l, q) && a <= q < b ==> q == p
  {
    hide LayoutOK, BinsOK, Region;
    HeapParts(l, v, dv, dvsize, loose);
  }

  lemma JoinTopListed(l: Lay, v: BinView, dv: int, dvsize: nat, loose: set<int>, a: int, p: int)
    requires HeapOK(l, v, dv, dvsize, loose) && Gathered(l, dv, loose, a, l.top, p)
    requires |l.stops| > 0 && l.topsize > 0 && a < l.top
    ensures Listed(JoinTop(l, a), v.members, DvAfter(dv, a, l.top, 0), if a <= dv < l.top then 0 else dvsize, {})
    ensures SameHeads(l.head, JoinTop(l, a).head, v.members)
  {
    hide LayoutOK, BinsOK, Region;
    HeapParts(l, v, dv, dvsize, loose);
    GatheredMembers(l, v, dv, dvsize, loose, a, l.top, p);
  }

  lemma JoinTopHeap(l: Lay, v: BinView, dv: int, dvsize: nat, loose: set<int>, a: int, p: int)
    requires HeapOK(l, v, dv, dvsize, loose) && Gathered(l, dv, loose, a, l.top, p)
    ensures |l.stops| > 0 && l.topsize > 0 && a < l.top
    ensures HeapOK(JoinTop(l, a), v, DvAfter(dv, a, l.top, 0), if a <= dv < l.top then 0 else dvsize, {})
    ensures AllKept(l, JoinTop(l, a), {p})
  {
    hide LayoutOK, BinsOK, Listed, AllKept, SameHeads, HeapOK, Region, Clear;
    HeapParts(l, v, dv, dvsize, loose);
    LayoutParts(l);
    RegionParts(l, a, l.top);
    JoinTopListed(l, v, dv, dvsize, loose, a, p);
    JoinTopKeeps(l, a);
    GatheredUse(l, v, dv, dvsize, loose, a, l.top, p);
    JoinTopAllKept(l, a, {p});
    HeapIntro(l, JoinTop(l, a), v, DvAfter(dv, a, l.top, 0), if a <= dv < l.top then 0 else dvsize, {});
  }

  // ----- resizing chunks in use

  lemma SplitUsedListed(l: Lay, v: BinView, dv: int, dvsize: nat, loose: set<int>, p: int, nb: nat)
    requires HeapOK(l, v, dv, dvsize, loose) && InUse(l, p) && p !in l.records
    requires 32 <= nb && nb % 16 == 0 && nb + 32 <= l.head[p].size
    ensures Listed(SplitUsed(l, p, nb), v.members, dv, dvsize, loose)
    ensures SameHeads(l.head, SplitUsed(l, p, nb).head, v.members)
  {
    hide LayoutOK, BinsOK;
    HeapParts(l, v, dv, dvsize, loose);
    SplitNew(l, p, nb);
    AllMapped(l);
  }

  lemma AllMapped(l: Lay)
    requires LayoutOK(l)
    ensures forall q :: q in l.chunks ==> q > 0 && q in l.head
  {
    hide LayoutOK;
    forall q | q in l.chunks
      ensures q > 0 && q in l.head
    {
      ChunkHead(l, q);
    }
  }

  lemma SplitUsedHeap(l: Lay, v: BinView, dv: int, dvsize: nat, loose: set<int>, p: int, nb: nat)
    requires HeapOK(l, v, dv, dvsize, loose) && InUse(l, p) && p !in l.records
    requires 32 <= nb && nb % 16 == 0 && nb + 32 <= l.head[p].size
    ensures HeapOK(SplitUsed(l, p, nb), v, dv, dvsize, loose) && AllKept(l, SplitUsed(l, p, nb), {p})
    ensures PayloadKept(l, SplitUsed(l, p, nb), p, p + nb) && p + nb !in l.chunks
  {
    hide LayoutOK, BinsOK, Listed, AllKept, SameHeads, HeapOK, PayloadKept;
    HeapParts(l, v, dv, dvsize, loose);
    SplitUsedListed(l, v, dv, dvsize, loose, p, nb);
    SplitUsedKeeps(l, p, nb);
    SplitUsedAllKept(l, p, nb);
    HeapIntro(l, SplitUsed(l, p, nb), v, dv, dvsize, loose);
  }

  lemma AbsorbListed(l: Lay, v: BinView, dv: int, dvsize: nat, loose: set<int>, p: int)
    requires HeapOK(l, v, dv, dvsize, loose) && InUse(l, p) && End(l, p) in loose
    ensures End(l, p) in l.chunks && End(l, p) in l.head && !l.head[End(l, p)].cinuse && End(l, End(l, p)) in l.head
    ensures Listed(Absorb(l, p), v.members, dv, dvsize, loose - {End(l, p)})
    ensures SameHeads(l.head, Absorb(l, p).head, v.members)
  {
    hide LayoutOK, BinsOK;
    HeapParts(l, v, dv, dvsize, loose);
    ChunkHead(l, End(l, p));
    AllMapped(l);
  }

  lemma AbsorbHeap(l: Lay, v: BinView, dv: int, dvsize: nat, loose: set<int>, p: int)
    requires HeapOK(l, v, dv, dvsize, loose) && InUse(l, p) && End(l, p) in loose
    ensures End(l, p) in l.head && End(l, End(l, p)) in l.head
    ensures HeapOK(Absorb(l, p), v, dv, dvsize, loose - {End(l, p)}) && AllKept(l, Absorb(l, p), {p})
    ensures PayloadKept(l, Absorb(l, p), p, End(l, p))
  {
    hide LayoutOK, BinsOK, Listed, AllKept, SameHeads, HeapOK, PayloadKept;
    HeapParts(l, v, dv, dvsize, loose);
    AbsorbListed(l, v, dv, dvsize, loose, p);
    AbsorbKeeps(l, p);
    AbsorbAllKept(l, p);
    HeapIntro(l, Absorb(l, p), v, dv, dvsize, loose - {End(l, p)});
  }

  lemma GrowIntoTopListed(l: Lay, v: BinView, dv: int, dvsize: nat, loose: set<int>, p: int, nb: nat)
    requires HeapOK(l, v, dv, dvsize, loose) && InUse(l, p) && End(l, p) == l.top
    requires nb % 16 == 0 && l.head[p].size < nb < l.head[p].size + l.topsize && |l.stops| > 0
    ensures Listed(GrowIntoTop(l, p, nb), v.members, dv, dvsize, loose)
    ensures SameHeads(l.head, GrowIntoTop(l, p, nb).head, v.members)
  {
    hide LayoutOK, BinsOK;
    HeapParts(l, v, dv, dvsize, loose);
    TopUnmarked(l, p + nb);
    AllMapped(l);
  }

  lemma GrowIntoTopHeap(l: Lay, v: BinView, dv: int, dvsize: nat, loose: set<int>, p: int, nb: nat)
    requires HeapOK(l, v, dv, dvsize, loose) && InUse(l, p) && End(l, p) == l.top
    requires nb % 16 == 0 && l.head[p].size < nb < l.head[p].size + l.topsize
    ensures |l.stops| > 0
    ensures HeapOK(GrowIntoTop(l, p, nb), v, dv, dvsize, loose) && AllKept(l, GrowIntoTop(l, p, nb), {p})
    ensures PayloadKept(l, GrowIntoTop(l, p, nb), p, End(l, p))
  {
    hide LayoutOK, BinsOK, Listed, AllKept, SameHeads, HeapOK, PayloadKept;
    HeapParts(l, v, dv, dvsize, loose);
    GrowIntoTopKeeps(l, p, nb);
    GrowIntoTopListed(l, v, dv, dvsize, loose, p, nb);
    GrowIntoTopAllKept(l, p, nb);
    HeapIntro(l, GrowIntoTop(l, p, nb), v, dv, dvsize, loose);
  }

  // ----- memory from the system

  lemma AppendListed(l: Lay, v: BinView, dv: int, dvsize: nat, n: nat)
    requires HeapOK(l, v, dv, dvsize, {}) && Fresh(l.segs, l.top + l.topsize + TOP_FOOT_SIZE, n)
    requires |l.segs| > 0 && l.topsize > 0
    ensures Listed(Append(l, n), v.members, dv, dvsize, {}) && SameHeads(l.head, Append(l, n).head, v.members)
  {
    hide LayoutOK, BinsOK, Fresh;
    HeapParts(l, v, dv, dvsize, {});
    AllMapped(l);
    TopNoChunk(l);
    FreshSize(l.segs, l.top + l.topsize + TOP_FOOT_SIZE, n);
    NotFresh(l, l.top + l.topsize + TOP_FOOT_SIZE, n, l.top + l.topsize + n);
  }

  lemma AppendHeap(l: Lay, v: BinView, dv: int, dvsize: nat, n: nat)
    requires HeapOK(l, v, dv, dvsize, {}) && Fresh(l.segs, l.top + l.topsize + TOP_FOOT_SIZE, n)
    requires |l.segs| > 0 && l.segs[0].size + n < SEGMENT_LIMIT
    ensures l.topsize > 0
    ensures HeapOK(Append(l, n), v, dv, dvsize, {}) && AllKept(l, Append(l, n), {})
  {
    hide LayoutOK, BinsOK, Listed, AllKept, SameHeads, HeapOK, Fresh;
    HeapParts(l, v, dv, dvsize, {});
    AppendKeeps(l, n);
    AppendAllKept(l, n);
    AppendListed(l, v, dv, dvsize, n);
    HeapIntro(l, Append(l, n), v, dv, dvsize, {});
  }

  lemma PrependListed(l: Lay, v: BinView, dv: int, dvsize: nat, i: nat, n: nat)
    requires HeapOK(l, v, dv, dvsize, {}) && i < |l.segs| && Fresh(l.segs, l.segs[i].base - n, n)
    ensures Listed(Prepend(l, i, n), v.members, dv, dvsize, {})
    ensures SameHeads(l.head, Prepend(l, i, n).head, v.members)
  {
    hide LayoutOK, BinsOK, Fresh;
    HeapParts(l, v, dv, dvsize, {});
    AllMapped(l);
    FreshSize(l.segs, l.segs[i].base - n, n);
    NotFresh(l, l.segs[i].base - n, n, l.segs[i].base - n);
  }

  lemma PrependHeap(l: Lay, v: BinView, dv: int, dvsize: nat, i: nat, n: nat)
    requires HeapOK(l, v, dv, dvsize, {}) && i < |l.segs| && Fresh(l.segs, l.segs[i].base - n, n)
    requires l.segs[i].size + n < SEGMENT_LIMIT
    ensures HeapOK(Prepend(l, i, n), v, dv, dvsize, {}) && AllKept(l, Prepend(l, i, n), {})
    ensures l.segs[i].base - n !in l.chunks && InUse(Prepend(l, i, n), l.segs[i].base - n)
    ensures l.segs[i].base - n !in l.records
  {
    hide LayoutOK, BinsOK, Listed, AllKept, SameHeads, HeapOK, Fresh;
    HeapParts(l, v, dv, dvsize, {});
    PrependKeeps(l, i, n);
    PrependAllKept(l, i, n);
    PrependListed(l, v, dv, dvsize, i, n);
    RecordsUsed(l, v.members, dv, dvsize, {});
    HeapIntro(l, Prepend(l, i, n), v, dv, dvsize, {});
  }

  lemma RecordsUsed(l: Lay, members: set<int>, dv: int, dvsize: nat, loose: set<int>)
    requires Listed(l, members, dv, dvsize, loose)
    ensures forall p :: p in l.records ==> InUse(l, p)
  {
  }

  lemma CloseTopListed(l: Lay, v: BinView, dv: int, dvsize: nat, b: int, n: int)
    requires HeapOK(l, v, dv, dvsize, {}) && Fresh(l.segs, b, n) && n < SEGMENT_LIMIT
    requires l.topsize > 0 && n >= TOP_FOOT_SIZE && |l.stops| > 0
    ensures Listed(CloseTop(l, b, n), v.members, dv, dvsize, if RecordPlace(l) == l.top then {} else {l.top})
    ensures SameHeads(l.head, CloseTop(l, b, n).head, v.members)
  {
    hide LayoutOK, BinsOK, Fresh, FencesOf, ClosedHeads;
    HeapParts(l, v, dv, dvsize, {});
    CloseTopKeeps(l, b, n);
    AllMapped(l);
    TopNoChunk(l);
    ClosedTopChunks(l, b, n);
    forall q | q in l.chunks
      ensures var l' := CloseTop(l, b, n); q in l'.head && l'.head[q] == l.head[q]
    {
      ChunkInSegment(l, q);
      TopApart(l, q);
      ClosedFrame(l, b, n, q);
    }
  }

  /** The record is in use, the rest of the old top is free. */
  lemma ClosedTopChunks(l: Lay, b: int, n: int)
    requires LayoutOK(l) && Fresh(l.segs, b, n) && n < SEGMENT_LIMIT
    ensures l.topsize > 0 && n >= TOP_FOOT_SIZE && |l.stops| > 0
    ensures InUse(CloseTop(l, b, n), RecordPlace(l))
    ensures RecordPlace(l) != l.top ==>
              l.top in CloseTop(l, b, n).head && CloseTop(l, b, n).head[l.top] == Head(l.topsize, true, false)
  {
    hide LayoutOK, Fresh, FencesOf;
    CloseTopKeeps(l, b, n);
  }

  lemma CloseTopHeap(l: Lay, v: BinView, dv: int, dvsize: nat, b: int, n: int)
    requires HeapOK(l, v, dv, dvsize, {}) && Fresh(l.segs, b, n) && n < SEGMENT_LIMIT
    ensures l.topsize > 0 && n >= TOP_FOOT_SIZE && |l.stops| > 0
    ensures HeapOK(CloseTop(l, b, n), v, dv, dvsize, if RecordPlace(l) == l.top then {} else {l.top})
    ensures AllKept(l, CloseTop(l, b, n), {})
    ensures RecordPlace(l) !in l.chunks && l.top !in l.chunks
  {
    hide LayoutOK, BinsOK, Listed, AllKept, SameHeads, HeapOK, Fresh, CloseTop;
    HeapParts(l, v, dv, dvsize, {});
    CloseTopKeeps(l, b, n);
    CloseTopAllKept(l, b, n);
    CloseTopListed(l, v, dv, dvsize, b, n);
    HeapIntro(l, CloseTop(l, b, n), v, dv, dvsize, if RecordPlace(l) == l.top then {} else {l.top});
  }
}
