/** Walking the heap chunk by chunk, and what is left when every block is freed. */
module HeapWalk {
  import opened Words
  import opened BinIndex
  import BinMaps
  import opened Memory
  import opened BinStore
  import opened Bins
  import opened Layout
  import opened Segments
  import opened Growth
  import opened NewSegment
  import opened Payload
  import opened Books
  import opened Blocks
  import opened Fit
  import opened Requests
  import opened HeapSteps
  import opened Contents

  /** `cs` are chunks that tile [a, b). */
  ghost predicate Tiling(l: Lay, a: int, b: int, cs: seq<int>) {
    && (forall k :: 0 <= k < |cs| ==> cs[k] in l.chunks && cs[k] in l.head)
    && (forall k :: 0 <= k < |cs| ==> cs[k] == if k == 0 then a else End(l, cs[k - 1]))
    && (if |cs| == 0 then a == b else End(l, cs[|cs| - 1]) == b)
  }

  /** Progress of a walk through segment `i`: what lies before `q` is tiled, and `q` is a chunk or the end. */
  ghost predicate Walking(l: Lay, i: nat, q: int, cs: seq<int>) {
    && i < |l.segs| && i < |l.stops| && Tiling(l, l.segs[i].base, q, cs)
    && l.segs[i].base <= q <= l.stops[i] && q in Marks(l) && q in l.head
    && (forall p :: p in cs <==> p in l.chunks && l.segs[i].base <= p < q)
  }

  lemma WalkStart(l: Lay, v: BinView, dv: int, dvsize: nat, i: nat)
    requires HeapOK(l, v, dv, dvsize, {}) && i < |l.segs|
    ensures |l.stops| == |l.segs| && Walking(l, i, l.segs[i].base, [])
  {
    hide LayoutOK, BinsOK, Listed;
    HeapParts(l, v, dv, dvsize, {});
    SegmentAt(l, i);
  }

  /** Before the stop of a segment there is neither top nor a fencepost. */
  lemma StopFirst(l: Lay, i: nat, q: int)
    requires LayoutOK(l) && i < |l.segs| && i < |l.stops| && l.segs[i].base <= q < l.stops[i] && q in Marks(l)
    ensures q in l.chunks
  {
    hide LayoutOK, Clear;
    SegmentAt(l, i);
    LayoutParts(l);
    SegmentAt(l, 0);
  }

  /** The walk stops exactly at top in the first segment and at a fencepost in the others. */
  lemma WalkPlace(l: Lay, v: BinView, dv: int, dvsize: nat, i: nat, q: int)
    requires HeapOK(l, v, dv, dvsize, {}) && i < |l.segs| && i < |l.stops| && q in Marks(l) && q in l.head
    requires l.segs[i].base <= q <= l.stops[i]
    ensures q < l.segs[i].base + l.segs[i].size
    ensures q < l.stops[i] <==> q != l.top && l.head[q] != FENCEPOST
    ensures q < l.stops[i] ==> q in l.chunks
  {
    hide LayoutOK, BinsOK, Listed, Clear, NoFence;
    HeapParts(l, v, dv, dvsize, {});
    LayoutParts(l);
    SegmentAt(l, i);
    if q < l.stops[i] {
      StopFirst(l, i, q);
      FenceNoChunk(l, q);
      ChunkHead(l, q);
    } else if i > 0 {
      FenceAt(l, q);
    }
  }

  lemma WalkStep(l: Lay, v: BinView, dv: int, dvsize: nat, i: nat, q: int, cs: seq<int>)
    requires HeapOK(l, v, dv, dvsize, {}) && Walking(l, i, q, cs) && q < l.stops[i]
    ensures q in l.chunks && l.head[q].size > 0 && Walking(l, i, End(l, q), cs + [q])
  {
    hide LayoutOK, BinsOK, Listed, Housed, PrevOK;
    HeapParts(l, v, dv, dvsize, {});
    StopFirst(l, i, q);
    ChunkAt(l, q);
    SegmentAt(l, i);
    LayoutParts(l);
    assert l.stops[i] in Marks(l);
    var e, cs' := End(l, q), cs + [q];
    forall p
      ensures p in cs' <==> p in l.chunks && l.segs[i].base <= p < e
    {
      assert p in l.chunks ==> p in Marks(l);
      assert p in cs' <==> p in cs || p == q;
    }
  }

  lemma WalkDone(l: Lay, v: BinView, dv: int, dvsize: nat, i: nat, cs: seq<int>)
    requires HeapOK(l, v, dv, dvsize, {}) && i < |l.stops| && Walking(l, i, l.stops[i], cs)
    ensures |l.stops| == |l.segs|
    ensures i == 0 ==> l.stops[0] == l.top && l.top + l.topsize + TOP_FOOT_SIZE == l.segs[0].base + l.segs[0].size
    ensures forall p :: p in cs <==> p in l.chunks && l.segs[i].base <= p < l.segs[i].base + l.segs[i].size
  {
    hide LayoutOK, BinsOK, Listed, Clear, PrevOK;
    HeapParts(l, v, dv, dvsize, {});
    SegmentAt(l, i);
    LayoutParts(l);
    forall p | p in l.chunks && l.segs[i].base <= p < l.segs[i].base + l.segs[i].size
      ensures p < l.stops[i]
    {
      ChunkAt(l, p);
      var j: nat :| Within(l.segs, l.stops, j, p, End(l, p));
      SegmentAt(l, j);
    }
  }

  // ----- conservation

  /** The chunk sizes of a set, added up. */
  ghost function SumSizes(l: Lay, s: set<int>): (n: int)
    requires s <= l.head.Keys
  {
    if exists p :: p in s then
      var p :| p in s;
      l.head[p].size + SumSizes(l, s - {p})
    else 0
  }

  /** The sum can be taken in any order. */
  lemma {:induction false} SumStep(l: Lay, s: set<int>, p: int)
    requires s <= l.head.Keys && p in s
    ensures SumSizes(l, s) == l.head[p].size + SumSizes(l, s - {p})
    decreases |s|
  {
    var q :| q in s && SumSizes(l, s) == l.head[q].size + SumSizes(l, s - {q});
    if q != p {
      SumStep(l, s - {q}, p);
      SumStep(l, s - {p}, q);
      assert s - {q} - {p} == s - {p} - {q};
    }
  }

  ghost function Elements(cs: seq<int>): (s: set<int>) {
    set p | p in cs
  }

  /** Chunks that tile a stretch have its length together. */
  lemma {:induction false} TilingSum(l: Lay, a: int, b: int, cs: seq<int>)
    requires Tiling(l, a, b, cs) && forall p :: p in cs ==> p in l.head && l.head[p].size > 0
    ensures Elements(cs) <= l.head.Keys && SumSizes(l, Elements(cs)) == b - a
    ensures a <= b && forall p :: p in cs ==> a <= p < b
    decreases |cs|
  {
    if |cs| > 0 {
      var n := |cs| - 1;
      var q, cs' := cs[n], cs[..n];
      forall k | 0 <= k < n
        ensures cs'[k] == if k == 0 then a else End(l, cs'[k - 1])
      {
        assert cs[k] == if k == 0 then a else End(l, cs[k - 1]);
      }
      assert cs[n] == if n == 0 then a else End(l, cs[n - 1]);
      assert Tiling(l, a, q, cs');
      TilingSum(l, a, q, cs');
      assert q !in cs';
      assert cs == cs' + [q];
      assert Elements(cs) - {q} == Elements(cs');
      SumStep(l, Elements(cs), q);
    }
  }

  /** The chunks of segment `i`. */
  ghost function SegmentChunks(l: Lay, i: nat): (s: set<int>)
    requires i < |l.segs|
  {
    set p | p in l.chunks && l.segs[i].base <= p < l.segs[i].base + l.segs[i].size && p in l.head
  }

  /** The bytes of segment `i` that chunks account for, top and its foot included. */
  ghost function SegmentBytes(l: Lay, i: nat): (n: int)
    requires i < |l.segs|
  {
    SumSizes(l, SegmentChunks(l, i)) + if i == 0 then l.topsize + TOP_FOOT_SIZE else 0
  }

  /** A walk from `q` on reaches the end of the segment. */
  lemma {:induction false} WalkOn(l: Lay, v: BinView, dv: int, dvsize: nat, i: nat, q: int, cs: seq<int>) returns (all: seq<int>)
    requires HeapOK(l, v, dv, dvsize, {}) && Walking(l, i, q, cs)
    ensures Walking(l, i, l.stops[i], all)
    decreases l.stops[i] - q
  {
    WalkBound(l, i, q, cs);
    hide HeapOK, Walking;
    if q == l.stops[i] {
      all := cs;
    } else {
      WalkStep(l, v, dv, dvsize, i, q, cs);
      all := WalkOn(l, v, dv, dvsize, i, End(l, q), cs + [q]);
    }
  }

  lemma WalkBound(l: Lay, i: nat, q: int, cs: seq<int>)
    requires Walking(l, i, q, cs)
    ensures i < |l.stops| && q <= l.stops[i] && q in l.head
  {
  }

  /** A finished walk adds up to the segment before its stop. */
  lemma WalkSum(l: Lay, v: BinView, dv: int, dvsize: nat, i: nat, cs: seq<int>)
    requires HeapOK(l, v, dv, dvsize, {}) && i < |l.stops| && i < |l.segs| && Walking(l, i, l.stops[i], cs)
    ensures SumSizes(l, SegmentChunks(l, i)) == l.stops[i] - l.segs[i].base
  {
    hide HeapOK, SumSizes;
    WalkDone(l, v, dv, dvsize, i, cs);
    forall p | p in cs
      ensures p in l.head && l.head[p].size > 0
    {
      OpenParts(l, v, dv, dvsize, {}, p);
    }
    TilingSum(l, l.segs[i].base, l.stops[i], cs);
    assert Elements(cs) == SegmentChunks(l, i);
  }

  /** What chunks account for in a segment is fixed by where it stops. */
  lemma SegmentSum(l: Lay, v: BinView, dv: int, dvsize: nat, i: nat)
    requires HeapOK(l, v, dv, dvsize, {}) && i < |l.segs|
    ensures |l.stops| == |l.segs|
    ensures SegmentBytes(l, i) == if i == 0 then l.segs[0].size else l.stops[i] - l.segs[i].base
  {
    hide HeapOK, Walking, SumSizes;
    WalkStart(l, v, dv, dvsize, i);
    var cs := WalkOn(l, v, dv, dvsize, i, l.segs[i].base, []);
    WalkSum(l, v, dv, dvsize, i, cs);
    WalkDone(l, v, dv, dvsize, i, cs);
  }

  /** Where a closed segment stops is fixed by its fenceposts. */
  lemma StopFixed(l: Lay, l': Lay, i: nat)
    requires LayoutOK(l) && LayoutOK(l') && l'.segs == l.segs && l'.fences == l.fences && 0 < i < |l.segs|
    ensures |l.stops| == |l'.stops| == |l.segs| && l'.stops[i] == l.stops[i]
  {
    hide LayoutOK;
    SegmentAt(l, i);
    SegmentAt(l', i);
  }

  /** The segments are the same, and in each of them chunks account for as many bytes as before. */
  ghost predicate Conserved(l: Lay, l': Lay) {
    l'.segs == l.segs && forall i :: 0 <= i < |l.segs| ==> SegmentBytes(l', i) == SegmentBytes(l, i)
  }

  /** Operations that neither gain a segment nor move fenceposts conserve the bytes of every segment. */
  lemma SegmentsConserved(l: Lay, v: BinView, dv: int, dvsize: nat, l': Lay, v': BinView, dv': int, dvsize': nat)
    requires HeapOK(l, v, dv, dvsize, {}) && HeapOK(l', v', dv', dvsize', {})
    requires l'.segs == l.segs && l'.fences == l.fences
    ensures Conserved(l, l')
  {
    hide HeapOK, SegmentBytes, LayoutOK;
    forall i | 0 <= i < |l.segs|
      ensures SegmentBytes(l', i) == SegmentBytes(l, i)
    {
      SegmentSum(l, v, dv, dvsize, i);
      SegmentSum(l', v', dv', dvsize', i);
      if i > 0 {
        HeapParts(l, v, dv, dvsize, {});
        HeapParts(l', v', dv', dvsize', {});
        StopFixed(l, l', i);
      }
    }
  }

  // ----- full coalescing

  /** With one segment and no block in use, top is all there is. */
  lemma Coalesced(l: Lay, v: BinView, dv: int, dvsize: nat, mapped: map<int, int>)
    requires HeapOK(l, v, dv, dvsize, {}) && |l.segs| == 1 && Used(l) + Direct(mapped) == map[]
    ensures l.chunks == {} && l.top == l.segs[0].base && l.topsize + TOP_FOOT_SIZE == l.segs[0].size
    ensures dv == 0 && dvsize == 0 && v.members == {}
    ensures v.smallmap == BinMaps.ZERO && v.treemap == BinMaps.ZERO
  {
    hide LayoutOK, BinsOK;
    HeapParts(l, v, dv, dvsize, {});
    forall p | p in l.chunks
      ensures p in l.head && !l.head[p].cinuse
    {
      ChunkHead(l, p);
      assert p !in Used(l) + Direct(mapped);
    }
    BaseIsTop(l);
    NoChunks(l);
    EmptyMaps(v, l.head);
  }

  lemma BaseIsTop(l: Lay)
    requires LayoutOK(l) && |l.segs| > 0 && forall p :: p in l.chunks ==> p in l.head && !l.head[p].cinuse
    ensures l.top == l.segs[0].base && l.topsize + TOP_FOOT_SIZE == l.segs[0].size
  {
    hide LayoutOK, Clear;
    SegmentAt(l, 0);
    LayoutParts(l);
    if l.segs[0].base in l.chunks {
      AfterFree(l, l.segs[0].base);
    }
  }

  lemma NoChunks(l: Lay)
    requires LayoutOK(l) && |l.segs| == 1 && l.top == l.segs[0].base
    ensures l.chunks == {}
  {
    hide LayoutOK, Clear;
    LayoutParts(l);
    forall p | p in l.chunks
      ensures false
    {
      InOnlySegment(l, p);
    }
  }

  lemma InOnlySegment(l: Lay, p: int)
    requires LayoutOK(l) && |l.segs| == 1 && p in l.chunks
    ensures |l.stops| == 1 && l.segs[0].base <= p && p + 32 <= l.stops[0]
  {
    hide LayoutOK, Clear, PrevOK;
    LayoutParts(l);
    ChunkAt(l, p);
    var j: nat :| Within(l.segs, l.stops, j, p, End(l, p));
  }

  lemma EmptyMaps(v: BinView, h: Heads)
    requires BinsOK(v, h) && v.members == {}
    ensures v.smallmap == BinMaps.ZERO && v.treemap == BinMaps.ZERO
  {
    hide BinsOK;
    forall i | 0 <= i < NSMALLBINS
      ensures !v.smallmap[i]
    {
      if v.smallmap[i] {
        UnlinkFirstStart(v, h, i);
      }
    }
    forall i | 0 <= i < NTREEBINS
      ensures !v.treemap[i]
    {
      if v.treemap[i] {
        RootMember(v, h, i);
      }
    }
  }

  lemma RootMember(v: BinView, h: Heads, i: nat)
    requires BinsOK(v, h) && i < NTREEBINS && v.treemap[i]
    ensures v.members != {}
  {
    hide BinsOK;
    SpotRoot(v, h, i);
    SpotReads(v, h, i, v.treebins[i], []);
    MemberFound(v, h, i, v.treebins[i], h[v.treebins[i]].size);
  }

  lemma LiveNonzero(l: Lay, v: BinView, dv: int, dvsize: nat, mapped: map<int, int>, p: int)
    requires HeapOK(l, v, dv, dvsize, {}) && MappedOK(l, mapped) && p in Used(l) + Direct(mapped)
    ensures p > 0
  {
    hide HeapOK, MappedOK, Used, Direct;
    UsableRoom(l, v, dv, dvsize, mapped, p);
  }

  ghost function From(order: seq<int>, i: nat): (s: set<int>)
    requires i <= |order|
  {
    set p | p in order[i..]
  }

  lemma FromStep(order: seq<int>, i: nat)
    requires i < |order| && forall i, j :: 0 <= i < j < |order| ==> order[i] != order[j]
    ensures From(order, i + 1) == From(order, i) - {order[i]} && order[i] in From(order, i)
  {
    assert order[i..] == [order[i]] + order[i + 1..];
  }

  lemma FromEnd(order: seq<int>)
    ensures From(order, |order|) == {}
  {
  }
}
