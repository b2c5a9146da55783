/** Facts about the heap between the steps of an operation. */
module HeapSteps {
  import opened Words
  import opened BinIndex
  import BinMaps
  import opened Memory
  import opened BinStore
  import opened Bins
  import opened Layout
  import opened Segments
  import opened Growth
  import opened NewSegment
  import opened Payload
  import opened Books
  import opened Blocks
  import opened Fit
  import opened Requests

  function Smaller(a: int, b: int): (m: int)
    ensures a >= 0 && b >= 0 ==> m >= 0
  {
    if a < b then a else b
  }

  lemma TopPlace(l: Lay, v: BinView, dv: int, dvsize: nat)
    requires HeapOK(l, v, dv, dvsize, {})
    ensures l.top > 0 && l.top % 16 == 0 && l.topsize > 0 && l.topsize % 16 == 0 && |l.stops| == |l.segs| > 0
    ensures l.segs[0].base <= l.top && l.segs[0].base + l.segs[0].size == l.top + l.topsize + TOP_FOOT_SIZE
  {
    hide LayoutOK, BinsOK, Listed;
    HeapParts(l, v, dv, dvsize, {});
    LayoutParts(l);
    SegmentAt(l, 0);
  }

  lemma UnlinkDone(l: Lay, v: BinView, v': BinView, dv: int, dvsize: nat, loose: set<int>, p: int)
    requires HeapOK(l, v, dv, dvsize, loose) && p in v.members && BinsOK(v', l.head)
    requires v'.members == v.members - {p} && CellsKept(v.cell, v'.cell, v.members)
    ensures HeapOK(l, v', dv, dvsize, loose + {p}) && Spared(l, v.cell, l, v'.cell, {})
  {
    hide LayoutOK, BinsOK, Spared;
    BinsSpared(l, v, dv, dvsize, loose, v'.cell, v.members);
  }

  lemma InsertReady(l: Lay, v: BinView, dv: int, dvsize: nat, loose: set<int>, p: int)
    requires HeapOK(l, v, dv, dvsize, loose) && p in loose
    ensures p > 0 && p !in v.members && p in l.head && BinnedSize(l.head[p].size)
  {
    hide LayoutOK, BinsOK;
    HeapParts(l, v, dv, dvsize, loose);
    ChunkHead(l, p);
  }

  lemma InsertDone(l: Lay, v: BinView, v': BinView, dv: int, dvsize: nat, loose: set<int>, p: int)
    requires HeapOK(l, v, dv, dvsize, loose) && p in loose && BinsOK(v', l.head)
    requires v'.members == v.members + {p} && CellsKept(v.cell, v'.cell, v.members + {p})
    ensures HeapOK(l, v', dv, dvsize, loose - {p}) && Spared(l, v.cell, l, v'.cell, {})
  {
    hide LayoutOK, BinsOK, Spared;
    BinsSpared(l, v, dv, dvsize, loose, v'.cell, v.members + {p});
  }

  lemma OpenParts(l: Lay, v: BinView, dv: int, dvsize: nat, loose: set<int>, p: int)
    requires HeapOK(l, v, dv, dvsize, loose) && p in l.chunks
    ensures LayoutOK(l) && p > 0 && p in l.head && End(l, p) in l.head && l.head[p].size >= 32 && p % 16 == 0
  {
    hide LayoutOK, BinsOK, Listed;
    HeapParts(l, v, dv, dvsize, loose);
    ChunkHead(l, p);
  }

  lemma SparedSame(l: Lay, c: Cells)
    ensures Spared(l, c, l, c, {})
  {
    hide AllKept;
    KeptSame(l);
    LayoutSpared(l, l, c, {});
  }

  /** A free chunk is the designated victim, a binned chunk, or loose. */
  lemma FreeWhere(l: Lay, v: BinView, dv: int, dvsize: nat, loose: set<int>, p: int)
    requires HeapOK(l, v, dv, dvsize, loose) && p in l.chunks && p in l.head && !l.head[p].cinuse
    ensures p > 0 && (p == dv || p in v.members || p in loose)
    ensures p == dv ==> dvsize == l.head[p].size
  {
    hide LayoutOK, BinsOK;
    HeapParts(l, v, dv, dvsize, loose);
    ChunkHead(l, p);
  }

  /** What follows a chunk that is in use and no record: a chunk or top. */
  lemma NextChunk(l: Lay, v: BinView, dv: int, dvsize: nat, loose: set<int>, p: int)
    requires HeapOK(l, v, dv, dvsize, loose) && InUse(l, p) && p !in l.records
    ensures End(l, p) in l.head && l.head[End(l, p)].pinuse
    ensures End(l, p) in l.chunks || (End(l, p) == l.top && !l.head[End(l, p)].cinuse)
  {
    hide LayoutOK, BinsOK, Listed, Clear, Housed, PrevOK;
    HeapParts(l, v, dv, dvsize, loose);
    ChunkAt(l, p);
    LayoutParts(l);
  }

  /** Top and the designated victim are not in use. */
  lemma NextInUse(l: Lay, v: BinView, dv: int, dvsize: nat, loose: set<int>, p: int)
    requires HeapOK(l, v, dv, dvsize, loose) && p > 0 && p in l.head && l.head[p].cinuse
    ensures p != l.top && p != dv
  {
    hide LayoutOK, BinsOK, Clear;
    HeapParts(l, v, dv, dvsize, loose);
    LayoutParts(l);
  }

  /**
   * The chunk `p` in use can have `nb` bytes where it is: it has them already, or gets them from top, which keeps at least a
   * byte, or from a free chunk right behind it.
   */
  ghost predicate RoomInPlace(l: Lay, p: int, nb: nat) {
    p in l.head &&
    var e, s := End(l, p), l.head[p].size;
    || nb <= s
    || (e == l.top && nb < s + l.topsize)
    || (e in l.chunks && e in l.head && !l.head[e].cinuse && nb <= s + l.head[e].size)
  }

  /** The order of the tests of `try_realloc_chunk` does not matter. */
  lemma RoomTests(l: Lay, v: BinView, dv: int, dvsize: nat, p: int, nb: nat)
    requires HeapOK(l, v, dv, dvsize, {}) && InUse(l, p) && p !in l.records
    ensures var e, s := End(l, p), l.head[p].size;
      && e in l.head
      && (RoomInPlace(l, p, nb) <==>
            nb <= s || (if e == l.top then nb < s + l.topsize
                        else if e == dv then nb <= s + dvsize
                        else !l.head[e].cinuse && nb <= s + l.head[e].size))
  {
    hide LayoutOK, BinsOK, Clear, Housed, PrevOK;
    NextChunk(l, v, dv, dvsize, {}, p);
    HeapParts(l, v, dv, dvsize, {});
    OpenParts(l, v, dv, dvsize, {}, p);
    LayoutParts(l);
  }

  /** What the order in which free memory is used means for a heap. */
  lemma ChoiceOrder(l: Lay, v: BinView, dv: int, dvsize: nat, nb: nat, p: int)
    requires HeapOK(l, v, dv, dvsize, {}) && nb % 16 == 0 && p != 0
    requires Chosen(Stock(v, l.head, dv, dvsize, l.top, l.topsize), nb, p)
    ensures p == l.top ==> NoneFits(v, l.head, nb) && dvsize < nb < l.topsize
    ensures p == dv ==> nb <= dvsize && !ExactBin(v, nb) && (!IsSmall(nb) ==> Smallest(v, l.head, nb, dvsize))
    ensures p == l.top || p == dv || BestFitting(v, l.head, nb, p)
    ensures p in v.members && !IsSmall(nb) ==> p in l.head && (dvsize < nb || l.head[p].size < dvsize)
    ensures p in v.members && IsSmall(nb) && nb <= dvsize ==> p in l.head && l.head[p].size < nb + 16
  {
    hide LayoutOK, BinsOK, Chosen, Clear, ExactBin, BestFitting, Smallest, NoneFits;
    HeapParts(l, v, dv, dvsize, {});
    LayoutParts(l);
    ChosenMeans(Stock(v, l.head, dv, dvsize, l.top, l.topsize), nb, p);
  }

  /**
   * What is free after the chunk `p` was used for `nb` bytes. A rest of 32 bytes or more stays free: that of a binned chunk
   * is binned, or for a small request becomes the designated victim in place of the old one, which is binned; that of the
   * victim or of top stays what it was.
   */
  ghost predicate Leaves(f: Stock, nb: nat, p: int, f': Stock) {
    if p in f.bins.members then
      p in f.head && f'.top == f.top && f'.topsize == f.topsize &&
      var rest, others := f.head[p].size - nb, f.bins.members - {p};
      if rest < MIN_CHUNK_SIZE then f'.bins.members == others && f'.dv == f.dv && f'.dvsize == f.dvsize
      else if IsSmall(nb) then
        f'.dv == p + nb && f'.dvsize == rest && f'.bins.members == others + (if f.dvsize == 0 then {} else {f.dv})
      else f'.bins.members == others + {p + nb} && f'.dv == f.dv && f'.dvsize == f.dvsize
    else
      f'.bins == f.bins &&
      if p == f.dv then
        && f'.top == f.top && f'.topsize == f.topsize
        && (if f.dvsize < nb + MIN_CHUNK_SIZE then f'.dv == 0 && f'.dvsize == 0 else f'.dv == p + nb && f'.dvsize == f.dvsize - nb)
      else f'.top == p + nb && f'.topsize == f.topsize - nb && f'.dv == f.dv && f'.dvsize == f.dvsize
  }

  lemma LeavesTop(f: Stock, nb: nat, f': Stock)
    requires f.top !in f.bins.members && f.top != f.dv && f'.bins == f.bins && f'.dv == f.dv && f'.dvsize == f.dvsize
    requires f'.top == f.top + nb && f'.topsize == f.topsize - nb
    ensures Leaves(f, nb, f.top, f')
  {
  }

  /** Top is neither binned nor the designated victim, and the victim is not binned. */
  lemma PlacesApart(l: Lay, v: BinView, dv: int, dvsize: nat)
    requires HeapOK(l, v, dv, dvsize, {})
    ensures l.top !in v.members && l.top != dv && dv !in v.members
  {
    hide LayoutOK, BinsOK, Clear;
    HeapParts(l, v, dv, dvsize, {});
    LayoutParts(l);
  }

  /** Where a chunk in use begins together with the free chunk before it, if there is one. */
  function StartOf(l: Lay, p: int): (a: int)
    requires p in l.head
  {
    if !l.head[p].pinuse && p in l.foot then p - l.foot[p] else p
  }

  /**
   * What is free after [a, next) became free: it goes to top if that comes next. Otherwise it takes in a free chunk behind
   * it, and is the designated victim if the victim was part of it, or else binned.
   */
  ghost predicate Freed(l: Lay, dv: int, dvsize: nat, members: set<int>, a: int, next: int,
                        l': Lay, dv': int, dvsize': nat, members': set<int>) {
    next in l.head &&
    if next == l.top then
      && l'.top == a && l'.topsize == l.topsize + (next - a) && members' == members
      && (if a == dv then dv' == 0 && dvsize' == 0 else dv' == dv && dvsize' == dvsize)
    else
      var e := if l.head[next].cinuse then next else End(l, next);
      var others := if l.head[next].cinuse || next == dv then members else members - {next};
      && l'.top == l.top && l'.topsize == l.topsize && a in l'.head && l'.head[a].size == e - a
      && (if a == dv || next == dv then dv' == a && dvsize' == e - a && members' == others
          else dv' == dv && dvsize' == dvsize && members' == others + {a})
  }

  lemma DvInRun(l: Lay, v: BinView, dv: int, dvsize: nat, loose: set<int>, a: int, b: int, s: set<int>, p: int)
    requires HeapOK(l, v, dv, dvsize, loose) && Run(l, a, b, s) && InUse(l, p)
    ensures a <= dv < b ==> dv in s
    ensures dv != p && p !in loose && p > 0 && a > 0
    ensures dv == a ==> a !in loose
  {
    hide LayoutOK, BinsOK, Region;
    HeapParts(l, v, dv, dvsize, loose);
    ChunkHead(l, p);
    if dv != 0 {
      ChunkHead(l, dv);
    }
    RegionParts(l, a, b);
    ChunkHead(l, a);
  }

  lemma SparedAfter(l: Lay, c: Cells, l1: Lay, c1: Cells, l2: Lay, c2: Cells, x: set<int>)
    requires Spared(l, c, l1, c1, {}) && Spared(l1, c1, l2, c2, x)
    ensures Spared(l, c, l2, c2, x)
  {
    hide Spared;
    SparedTrans(l, c, l1, c1, l2, c2, {}, x);
    assert {} + x == x;
  }

  lemma SparedThen(l: Lay, c: Cells, l1: Lay, c1: Cells, l2: Lay, c2: Cells, x: set<int>)
    requires Spared(l, c, l1, c1, x) && Spared(l1, c1, l2, c2, {})
    ensures Spared(l, c, l2, c2, x)
  {
    hide Spared;
    SparedTrans(l, c, l1, c1, l2, c2, x, {});
    assert x + {} == x;
  }

  lemma UsedNotDv(l: Lay, v: BinView, dv: int, dvsize: nat, p: int)
    requires HeapOK(l, v, dv, dvsize, {}) && InUse(l, p)
    ensures p != dv && p !in v.members
  {
    hide LayoutOK, BinsOK;
    HeapParts(l, v, dv, dvsize, {});
  }

  lemma MemberNotDv(l: Lay, v: BinView, dv: int, dvsize: nat, loose: set<int>, p: int)
    requires HeapOK(l, v, dv, dvsize, loose) && p in v.members
    ensures p != dv && p !in loose
  {
    hide LayoutOK, BinsOK;
    HeapParts(l, v, dv, dvsize, loose);
  }

  lemma MemberChunk(l: Lay, v: BinView, dv: int, dvsize: nat, loose: set<int>, p: int)
    requires HeapOK(l, v, dv, dvsize, loose) && p in v.members
    ensures p in l.chunks && p > 0
  {
    hide LayoutOK, BinsOK;
    HeapParts(l, v, dv, dvsize, loose);
    ChunkHead(l, p);
  }

  lemma DvReady(l: Lay, v: BinView, dv: int, dvsize: nat, loose: set<int>)
    requires HeapOK(l, v, dv, dvsize, loose) && dvsize != 0
    ensures dv > 0 && dv !in v.members && dv in l.chunks && dv in l.head && l.head[dv].size == dvsize
    ensures BinnedSize(dvsize)
  {
    hide LayoutOK, BinsOK;
    HeapParts(l, v, dv, dvsize, loose);
    ChunkHead(l, dv);
  }

  lemma DvReplaced(l: Lay, v: BinView, v': BinView, dv: int, dvsize: nat, r: int)
    requires HeapOK(l, v, dv, dvsize, {r}) && BinsOK(v', l.head)
    requires dvsize == 0 ==> v' == v
    requires dvsize != 0 ==> v'.members == v.members + {dv} && CellsKept(v.cell, v'.cell, v.members + {dv})
    ensures r in l.head && HeapOK(l, v', r, l.head[r].size, {})
    ensures Spared(l, v.cell, l, v'.cell, {})
  {
    hide LayoutOK, BinsOK, Spared;
    HeapParts(l, v, dv, dvsize, {r});
    ChunkHead(l, r);
    AllMapped(l);
    if dvsize == 0 {
      SparedSame(l, v.cell);
    } else {
      DvDropped(l, v, dv, dvsize, {r});
      BinsSpared(l, v, 0, 0, {r} + {dv}, v'.cell, v.members + {dv});
    }
  }

  /** The designated victim can be treated as a loose chunk. */
  lemma DvDropped(l: Lay, v: BinView, dv: int, dvsize: nat, loose: set<int>)
    requires HeapOK(l, v, dv, dvsize, loose) && dvsize != 0
    ensures HeapOK(l, v, 0, 0, loose + {dv}) && dv > 0 && dv in l.head && l.head[dv].size == dvsize
  {
    hide LayoutOK, BinsOK;
    HeapParts(l, v, dv, dvsize, loose);
    AllMapped(l);
  }

  lemma DvSet(l: Lay, v: BinView, loose: set<int>, r: int)
    requires HeapOK(l, v, 0, 0, loose) && r in loose
    ensures r in l.head && HeapOK(l, v, r, l.head[r].size, loose - {r})
  {
    hide LayoutOK, BinsOK;
    HeapParts(l, v, 0, 0, loose);
    ChunkHead(l, r);
    AllMapped(l);
  }

  lemma BestParts(w: BinView, h: Heads, nb: nat, v: int, rsize: nat)
    requires BestChunk(w, h, nb, v, rsize) && v != 0
    ensures v in w.members && v in h && h[v].size == nb + rsize
  {
    hide TreeIndex;
  }

  lemma BestLarge(w: BinView, h: Heads, nb: nat, v: int, rsize: nat)
    requires BinsOK(w, h) && BestChunk(w, h, nb, v, rsize) && 256 <= nb && nb % 16 == 0
    ensures v != 0 ==> Smallest(w, h, nb, nb + rsize) && v in w.members && v in h && h[v].size == nb + rsize
    ensures v != 0 ==> nb + rsize < TREE_INDEX_LIMIT
    ensures v == 0 ==> NoneFits(w, h, nb)
  {
    hide BinsOK, BestChunk, Smallest, NoneFits, TreeIndex;
    TreeSmallest(w, h, nb, v, rsize);
    if v != 0 {
      BestParts(w, h, nb, v, rsize);
      MemberBin(w, h, v);
    }
  }

  lemma DvBelow(l: Lay, v: BinView, dv: int, dvsize: nat, loose: set<int>)
    requires HeapOK(l, v, dv, dvsize, loose)
    ensures dvsize < TREE_INDEX_LIMIT
  {
    hide HeapOK;
    if dvsize != 0 {
      DvReady(l, v, dv, dvsize, loose);
    }
  }

  lemma SmallestMono(w: BinView, h: Heads, nb: nat, s: nat, s': nat)
    requires Smallest(w, h, nb, s) && s' <= s
    ensures Smallest(w, h, nb, s')
  {
  }

  lemma SmallIndexOf(nb: nat)
    requires 32 <= nb <= 240 && nb % 16 == 0
    ensures 4 <= SmallIndex(nb) <= 30 && 8 * SmallIndex(nb) == nb
  {
  }

  lemma AppendMapped(l: Lay, mapped: map<int, int>, n: nat)
    requires MappedOK(l, mapped) && |l.segs| > 0 && l.topsize > 0 && AllKept(l, Append(l, n), {})
    requires l.segs[0].base + l.segs[0].size == l.top + l.topsize + TOP_FOOT_SIZE
    requires ApartFrom(mapped, l.top + l.topsize + TOP_FOOT_SIZE, n)
    ensures MappedOK(Append(l, n), mapped)
  {
    hide InSegment, Kept;
    forall p | p in mapped
      ensures Fresh(Append(l, n).segs, p, mapped[p])
    {
      assert MapOK(l, p, mapped[p]);
    }
    MappedKept(l, Append(l, n), mapped);
  }

  /** New pages before segment `i`, cut into two chunks in use. */
  function PrependCut(l: Lay, i: nat, n: nat, nb: nat): (l': Lay)
    requires i < |l.segs| && nb <= n
  {
    SplitUsed(Prepend(l, i, n), l.segs[i].base - n, nb)
  }

  lemma PrependSplit(l: Lay, v: BinView, dv: int, dvsize: nat, mapped: map<int, int>, i: nat, n: nat, nb: nat)
    requires HeapOK(l, v, dv, dvsize, {}) && MappedOK(l, mapped)
    requires i < |l.segs| && Fresh(l.segs, l.segs[i].base - n, n) && ApartFrom(mapped, l.segs[i].base - n, n)
    requires l.segs[i].size + n < SEGMENT_LIMIT && 32 <= nb && nb + 32 <= n && nb % 16 == 0
    ensures var p, l2 := l.segs[i].base - n, PrependCut(l, i, n, nb);
      && HeapOK(l2, v, dv, dvsize, {}) && MappedOK(l2, mapped)
      && InUse(l2, p) && InUse(l2, p + nb) && p + nb !in l2.records && p !in l2.records
      && !InUse(l, p) && !InUse(l, p + nb) && p > 0 && p % 16 == 0
      && Used(l2) == Used(l)[p := nb][p + nb := n - nb]
      && Spared(l, v.cell, l2, v.cell, {p})
  {
    hide HeapOK, MappedOK, LayoutOK, Spared, Used, AllKept, Fresh, ApartFrom;
    var p, l1 := l.segs[i].base - n, Prepend(l, i, n);
    FreshSize(l.segs, p, n);
    PagesAligned(0, p);
    PrependHeap(l, v, dv, dvsize, i, n);
    UsedPrepend(l, v, dv, dvsize, i, n);
    SplitUsedHeap(l1, v, dv, dvsize, {}, p, nb);
    UsedSplitUsed(l1, v, dv, dvsize, {}, p, nb);
    PrependMapped(l, mapped, i, n);
    var l2 := SplitUsed(l1, p, nb);
    MappedStays(l1, l2, mapped, {p});
    LayoutSpared(l, l1, v.cell, {});
    LayoutSpared(l1, l2, v.cell, {p});
    SparedAfter(l, v.cell, l1, v.cell, l2, v.cell, {p});
    assert Used(l)[p := n][p := nb] == Used(l)[p := nb];
  }

  lemma PrependMapped(l: Lay, mapped: map<int, int>, i: nat, n: nat)
    requires MappedOK(l, mapped) && i < |l.segs| && AllKept(l, Prepend(l, i, n), {})
    requires ApartFrom(mapped, l.segs[i].base - n, n)
    ensures MappedOK(Prepend(l, i, n), mapped)
  {
    hide InSegment, Kept;
    forall p | p in mapped
      ensures Fresh(Prepend(l, i, n).segs, p, mapped[p])
    {
      assert MapOK(l, p, mapped[p]);
    }
    MappedKept(l, Prepend(l, i, n), mapped);
  }

  lemma PrependGave(l: Lay, c: Cells, l': Lay, c': Cells, p: int, q: int, nb: nat, n: nat)
    requires Spared(l, c, l', c', {p} + {q}) && !InUse(l, p) && !InUse(l, q)
    requires Used(l') == Used(l)[p := nb][q := n - nb] - {q} && q == p + nb && nb > 0
    ensures Spared(l, c, l', c', {}) && p !in Used(l)
    ensures Used(l') == Used(l)[p := nb] && InUse(l', p) && l'.head[p].size == nb
  {
    hide InSegment, PayloadKept, OutsideKept;
    assert p in Used(l');
    forall a
      ensures Kept(l, l', a)
    {
    }
  }

  lemma FencesStep(h: Heads, p: int, e: int)
    requires p + 16 <= e
    ensures h[p := FENCEPOST] + Fenceposts(FencesOf(p + 8, e)) == h + Fenceposts(FencesOf(p, e))
  {
  }

  lemma FencesEnd(p: int, e: int)
    requires p + 16 > e
    ensures FencesOf(p, e) == {}
  {
  }

  lemma RecordAligned(e: int, rawsp: int)
    requires e % 16 == 0 && rawsp == e - 95
    ensures rawsp + (16 - (rawsp + 16) % 16) % 16 == e - 80
  {
  }

  lemma CloseTopMapped(l: Lay, mapped: map<int, int>, b: int, n: int)
    requires MappedOK(l, mapped) && |l.stops| > 0 && l.topsize > 0 && n >= TOP_FOOT_SIZE
    requires AllKept(l, CloseTop(l, b, n), {}) && ApartFrom(mapped, b, n)
    ensures MappedOK(CloseTop(l, b, n), mapped)
  {
    hide InSegment, Kept, CloseTop;
    CloseTopSegs(l, b, n);
    forall p | p in mapped
      ensures Fresh(CloseTop(l, b, n).segs, p, mapped[p])
    {
      assert MapOK(l, p, mapped[p]);
      FreshPushed(l.segs, Segment(b, n), p, mapped[p]);
    }
    MappedKept(l, CloseTop(l, b, n), mapped);
  }

  lemma CloseTopSegs(l: Lay, b: int, n: int)
    requires |l.stops| > 0 && l.topsize > 0 && n >= TOP_FOOT_SIZE
    ensures CloseTop(l, b, n).segs == [Segment(b, n)] + l.segs
  {
  }

  lemma FreshPushed(segs: seq<Segment>, s: Segment, p: int, n: int)
    requires Fresh(segs, p, n) && (p + n <= s.base || s.base + s.size <= p)
    ensures Fresh([s] + segs, p, n)
  {
    var segs' := [s] + segs;
    forall i | 0 <= i < |segs'|
      ensures p + n <= segs'[i].base || segs'[i].base + segs'[i].size <= p
    {
      if i > 0 {
        assert segs'[i] == segs[i - 1];
      }
    }
  }

  lemma ClosedRecordHead(l: Lay, b: int, n: int)
    requires n >= TOP_FOOT_SIZE && l.topsize >= MIN_CHUNK_SIZE
    ensures RecordPlace(l) in ClosedHeads(l, b, n)
    ensures ClosedHeads(l, b, n)[RecordPlace(l)] == Head(RECORD_SIZE, true, true)
  {
    hide FencesOf;
  }

  lemma ClosedRestHead(l: Lay, b: int, n: int)
    requires n >= TOP_FOOT_SIZE && l.topsize > 0 && |l.stops| > 0
    ensures CloseTop(l, b, n).topsize == n - TOP_FOOT_SIZE
    ensures RecordPlace(l) != l.top ==>
              l.top in CloseTop(l, b, n).head && CloseTop(l, b, n).head[l.top].size == RecordPlace(l) - l.top
  {
    hide FencesOf;
  }

  lemma CloseTopParts(l: Lay, b: int, n: int)
    requires n >= TOP_FOOT_SIZE && l.topsize > 0 && |l.stops| > 0
    ensures var l', c, h := CloseTop(l, b, n), RecordPlace(l), ClosedHeads(l, b, n);
      && l'.top == b && l'.topsize == n - TOP_FOOT_SIZE && l'.segs == [Segment(b, n)] + l.segs
      && (c == l.top ==> l'.head == h && l'.foot == l.foot)
      && (c != l.top ==>
            && l'.head == h[l.top := Head(l.topsize, true, false)][c := Head(RECORD_SIZE, false, true)]
            && l'.foot == l.foot[c := l.topsize])
  {
    hide FencesOf, ClosedHeads;
  }

  /** Only the first segment holds top. */
  /** Segment `i` begins where the pages at `base` end. */
  predicate Follows(segs: seq<Segment>, i: nat, base: int, n: nat) {
    i < |segs| && segs[i].base == base + n
  }

  /**
   * How `n` new bytes of pages at `base` become heap, and where a request is served from them. Right after the segment of
   * top they enlarge top; right before a segment they are put before it; otherwise they are a segment of their own, which
   * becomes the first one and whose start becomes top.
   */
  ghost predicate PagesJoin(segs: seq<Segment>, top: int, base: int, n: nat, segs': seq<Segment>, p: int) {
    if |segs| > 0 && base == segs[0].base + segs[0].size then
      p == top && segs' == segs[0 := Segment(segs[0].base, segs[0].size + n)]
    else if exists i: nat :: Follows(segs, i, base, n) then
      p == base && exists i: nat :: Follows(segs, i, base, n) && segs' == segs[i := Segment(base, segs[i].size + n)]
    else p == base && segs' == [Segment(base, n)] + segs
  }

  lemma TopFirst(l: Lay, v: BinView, dv: int, dvsize: nat, i: nat)
    requires HeapOK(l, v, dv, dvsize, {}) && i < |l.segs| && l.segs[i].base <= l.top < l.segs[i].base + l.segs[i].size
    ensures i == 0
  {
    hide LayoutOK, BinsOK, Listed;
    HeapParts(l, v, dv, dvsize, {});
    LayoutParts(l);
    SegmentAt(l, 0);
  }

  lemma MapServed(mapped: map<int, int>, p: int, n: int, used: map<int, int>)
    requires p !in used && p !in mapped
    ensures used + Direct(mapped[p := n]) == (used + Direct(mapped))[p := n - MMAP_FOOT_PAD]
    ensures p !in used + Direct(mapped)
  {
  }

  lemma FreshNone(segs: seq<Segment>, b: int, n: int)
    requires Fresh(segs, b, n)
    ensures Fresh([], b, n)
  {
  }

  lemma InitLayIs(l: Lay, b: int, n: int)
    requires n >= TOP_FOOT_SIZE
    ensures InitLay(l.head, l.foot, b, n) ==
            Lay(l.head[b := Head(n - TOP_FOOT_SIZE, true, false)]
                      [b + (n - TOP_FOOT_SIZE) := Head(TOP_FOOT_SIZE, false, false)],
                l.foot, {}, {}, {}, b, n - TOP_FOOT_SIZE, [Segment(b, n)], [b])
  {
  }

  lemma InitHeapOK(l: Lay, v: BinView, b: int, n: int)
    requires BinsOK(v, l.head) && v.members == {} && l.chunks == {} && Fresh([], b, n) && n < SEGMENT_LIMIT
    ensures n >= TOP_FOOT_SIZE && HeapOK(InitLay(l.head, l.foot, b, n), v, 0, 0, {})
    ensures Used(InitLay(l.head, l.foot, b, n)) == Used(l)
  {
    hide Fresh, LayoutOK, BinsOK;
    FreshSize([], b, n);
    InitKeeps(l.head, l.foot, b, n);
    HeadsFrame(v, l.head, InitLay(l.head, l.foot, b, n).head);
  }

  /** Setting up the heap writes only the new pages and the bin headers. */
  lemma InitSpared(l: Lay, c: Cells, c': Cells, b: int, n: int)
    requires l.chunks == {} && l.segs == [] && Fresh([], b, n) && CellsKept(c, c', {})
    ensures n >= TOP_FOOT_SIZE && Spared(l, c, InitLay(l.head, l.foot, b, n), c', {})
  {
    hide Fresh, PayloadKept;
    FreshSize([], b, n);
    var l' := InitLay(l.head, l.foot, b, n);
    forall a | !InSegment(l'.segs, a)
      ensures SameHead(l, l', a)
    {
      assert l'.segs[0].base == b && l'.segs[0].size == n;
    }
  }

  /** A chunk handed out from a segment is a new block. */
  lemma GaveServed(l: Lay, c: Cells, l': Lay, v': BinView, dv: int, dvsize: nat, mapped: map<int, int>, p: int)
    requires HeapOK(l', v', dv, dvsize, {}) && MappedOK(l', mapped)
    requires InUse(l', p) && p !in Used(l) && Used(l') == Used(l)[p := l'.head[p].size] && Spared(l, c, l', v'.cell, {})
    ensures LeftAlone(l, c, l', v'.cell, Used(l) + Direct(mapped))
    ensures p !in mapped && p !in Used(l) + Direct(mapped)
    ensures Used(l') + Direct(mapped) == (Used(l) + Direct(mapped))[p := l'.head[p].size]
  {
    hide HeapOK, MappedOK, LayoutOK, Spared, Used, LeftAlone;
    SparedBlocks(l, c, l', v'.cell, {}, mapped);
    var live := Used(l) + Direct(mapped);
    assert live - {} == live;
    HeapParts(l', v', dv, dvsize, {});
    ChunkNotMapped(l', mapped, p);
  }

  lemma ChunkNotMapped(l: Lay, mapped: map<int, int>, p: int)
    requires LayoutOK(l) && MappedOK(l, mapped) && p in l.chunks
    ensures p !in mapped
  {
    hide LayoutOK, InSegment, Fresh;
    ChunkInSegment(l, p);
    if p in mapped {
      assert MapOK(l, p, mapped[p]);
      FreshSize(l.segs, p, mapped[p]);
      FreshOutside(l.segs, p, mapped[p], p);
    }
  }

  lemma NoMembers(v: BinView, h: Heads, nb: nat)
    requires v.members == {}
    ensures NoneFits(v, h, nb)
  {
  }

  /** Every free chunk and top are smaller than the size limit of segments. */
  lemma FreeBelow(l: Lay, v: BinView, dv: int, dvsize: nat)
    requires HeapOK(l, v, dv, dvsize, {})
    ensures dvsize < SEGMENT_LIMIT && l.topsize < SEGMENT_LIMIT && NoneFits(v, l.head, MAX_SIZE_T)
  {
    hide LayoutOK, BinsOK;
    HeapParts(l, v, dv, dvsize, {});
    LayoutParts(l);
    SegmentAt(l, 0);
    forall a | a in v.members && a in l.head
      ensures l.head[a].size < MAX_SIZE_T
    {
      ChunkHead(l, a);
    }
    if dv != 0 {
      ChunkHead(l, dv);
    }
  }

  lemma PaddedRange(bytes: nat)
    requires bytes < WORD_RANGE
    ensures var nb := PaddedSize(bytes); (32 <= nb < WORD_RANGE && nb % 16 == 0) || nb == MAX_SIZE_T
    ensures bytes >= MAX_REQUEST ==>
              MapSize(PaddedSize(bytes)) <= PaddedSize(bytes) && SegmentSize(PaddedSize(bytes)) <= PaddedSize(bytes)
  {
    if bytes < MAX_REQUEST {
      PaddedFits(bytes);
    } else {
      TooLargeFails(bytes);
    }
  }

  /** A block is a chunk in use or a mapping, and its head tells which. */
  lemma LiveKind(l: Lay, mapped: map<int, int>, p: int)
    requires p in Used(l) + Direct(mapped) && MappedOK(l, mapped)
    ensures p in l.head && (p in mapped <==> !l.head[p].pinuse && !l.head[p].cinuse)
    ensures p !in mapped ==> InUse(l, p) && p !in l.records
    ensures p in mapped ==> p in l.foot && l.foot[p] == 0 && l.head[p].size + MMAP_FOOT_PAD == mapped[p]
  {
    hide Fresh;
    if p in mapped {
      assert MapOK(l, p, mapped[p]);
    }
  }

  lemma Unmapped(l: Lay, mapped: map<int, int>, p: int)
    requires MappedOK(l, mapped)
    ensures MappedOK(l, mapped - {p})
  {
    hide MapOK;
  }

  lemma UnmappedLive(l: Lay, mapped: map<int, int>, p: int)
    requires p in mapped && MappedOK(l, mapped)
    ensures Used(l) + Direct(mapped - {p}) == (Used(l) + Direct(mapped)) - {p}
  {
    hide Fresh;
    assert MapOK(l, p, mapped[p]);
  }

  lemma FreedLive(l: Lay, l': Lay, mapped: map<int, int>, p: int)
    requires Used(l') == Used(l) - {p} && p !in mapped
    ensures Used(l') + Direct(mapped) == (Used(l) + Direct(mapped)) - {p}
  {
    hide Used;
  }

  /** No word of the first `n` bytes of the chunk `p` was written, its own head word excepted. */
  ghost predicate PrefixKept(l: Lay, c: Cells, l': Lay, c': Cells, p: int, n: nat) {
    PayloadKept(l, l', p, p + n) && CellRange(c, c', p, p + n)
  }

  lemma CellRangeSame(c: Cells, p: int, e: int)
    ensures CellRange(c, c, p, e)
  {
  }

  lemma AbsorbEnd(l: Lay, v: BinView, dv: int, dvsize: nat, loose: set<int>, p: int)
    requires HeapOK(l, v, dv, dvsize, loose) && InUse(l, p) && End(l, p) in loose
    ensures End(l, p) in l.head && End(l, End(l, p)) in l.chunks && End(l, End(l, p)) in l.head
    ensures l.head[End(l, End(l, p))].cinuse && l.head[p].size > 0 && l.head[End(l, p)].size > 0
  {
    hide LayoutOK, BinsOK;
    HeapParts(l, v, dv, dvsize, loose);
    ChunkHead(l, p);
    ChunkHead(l, End(l, p));
    AfterFree(l, End(l, p));
  }

  lemma SameDone(l: Lay, c: Cells, p: int)
    requires InUse(l, p) && p !in l.records
    ensures Used(l) == Used(l)[p := l.head[p].size] && Spared(l, c, l, c, {p})
    ensures PrefixKept(l, c, l, c, p, l.head[p].size)
  {
    hide Spared;
    SparedSame(l, c);
    SparedThenAny(l, c, l, c, {p});
  }

  lemma SparedThenAny(l: Lay, c: Cells, l': Lay, c': Cells, x: set<int>)
    requires Spared(l, c, l', c', {})
    ensures Spared(l, c, l', c', x)
  {
    hide InSegment, PayloadKept, CellRange, OutsideKept;
  }

  /** Cutting a chunk and disposing of the rest leaves the first part alone. */
  lemma ShrinkDone(l: Lay, c: Cells, l1: Lay, c1: Cells, l2: Lay, c2: Cells, p: int, r: int, nb: nat, rsize: nat)
    requires InUse(l, p) && InUse(l1, p) && l1.head[p].size == nb && r == p + nb && nb > 0 && !InUse(l, r)
    requires Used(l1) == Used(l)[p := nb][r := rsize] && Used(l2) == Used(l1) - {r}
    requires Spared(l, c, l1, c1, {p}) && Spared(l1, c1, l2, c2, {r}) && PrefixKept(l, c, l1, c1, p, nb)
    ensures InUse(l2, p) && l2.head[p].size == nb && Used(l2) == Used(l)[p := nb]
    ensures Spared(l, c, l2, c2, {p}) && PrefixKept(l, c, l2, c2, p, nb)
  {
    hide InSegment, OutsideKept, PayloadKept, CellRange, SameCell;
    SparedTrans(l, c, l1, c1, l2, c2, {p}, {r});
    assert Kept(l1, l2, p);
    PayloadTrans(l, l1, l2, p, p + nb);
    CellRangeTrans(c, c1, c2, p, p + nb);
    assert r !in Used(l);
    forall q | q != p
      ensures Kept(l, l2, q)
    {
      assert Kept(l, l2, q) || q == r;
    }
  }

  lemma DvNonzero(l: Lay, v: BinView, dv: int, dvsize: nat)
    requires HeapOK(l, v, dv, dvsize, {}) && dv != 0
    ensures dvsize != 0
  {
    hide LayoutOK, BinsOK;
  }

  /** After a cut, the rest ends where the chunk ended. */
  lemma RestEnd(l: Lay, l': Lay, p: int, nb: nat)
    requires InUse(l, p) && 0 < nb < l.head[p].size && l' == SplitUsed(l, p, nb)
    requires End(l, p) in l.chunks && End(l, p) in l.head && l.head[End(l, p)].cinuse
    ensures p + nb in l'.head && l'.head[p + nb].pinuse && End(l', p + nb) == End(l, p)
    ensures End(l, p) in l'.chunks && End(l, p) in l'.head && l'.head[End(l, p)].cinuse
  {
  }

  lemma RestFree(r: int, b: int)
    requires r > 0 && r < b
    ensures DvAfter(0, r, b, r) == 0 && LooseAfter(0, r, b) == {r}
  {
  }

  /** A prefix that two steps keep. */
  lemma GrowDone(l: Lay, c: Cells, l1: Lay, c1: Cells, l2: Lay, c2: Cells, p: int)
    requires InUse(l, p) && InUse(l1, p) && InUse(l2, p)
    requires l.head[p].size <= l1.head[p].size && l.head[p].size <= l2.head[p].size
    requires Used(l1) == Used(l)[p := l1.head[p].size] && Used(l2) == Used(l1)[p := l2.head[p].size]
    requires Spared(l, c, l1, c1, {p}) && Spared(l1, c1, l2, c2, {p})
    requires PrefixKept(l, c, l1, c1, p, l.head[p].size)
    requires PrefixKept(l1, c1, l2, c2, p, Smaller(l1.head[p].size, l2.head[p].size))
    ensures Used(l2) == Used(l)[p := l2.head[p].size]
    ensures Spared(l, c, l2, c2, {p}) && PrefixKept(l, c, l2, c2, p, Smaller(l.head[p].size, l2.head[p].size))
  {
    hide Spared, Used, SameHead, SameFoot, SameCell;
    SparedTrans(l, c, l1, c1, l2, c2, {p}, {p});
    assert {p} + {p} == {p};
    var e := p + l.head[p].size;
    assert PayloadKept(l1, l2, p, e) && CellRange(c1, c2, p, e);
    PayloadTrans(l, l1, l2, p, e);
    CellRangeTrans(c, c1, c2, p, e);
  }

  lemma GrowBinned(l: Lay, c: Cells, c1: Cells, l2: Lay, l3: Lay, c3: Cells, p: int)
    requires InUse(l, p) && InUse(l2, p) && InUse(l3, p)
    requires l.head[p].size <= l2.head[p].size && l.head[p].size <= l3.head[p].size
    requires Spared(l, c, l, c1, {})
    requires Used(l2) == Used(l)[p := l2.head[p].size] && Used(l3) == Used(l2)[p := l3.head[p].size]
    requires Spared(l, c1, l2, c1, {p}) && Spared(l2, c1, l3, c3, {p})
    requires PrefixKept(l, c1, l2, c1, p, l.head[p].size)
    requires PrefixKept(l2, c1, l3, c3, p, Smaller(l2.head[p].size, l3.head[p].size))
    ensures Used(l3) == Used(l)[p := l3.head[p].size]
    ensures Spared(l, c, l3, c3, {p}) && PrefixKept(l, c, l3, c3, p, Smaller(l.head[p].size, l3.head[p].size))
  {
    hide Used, SameHead, SameFoot, SameCell, InSegment, OutsideKept, PayloadKept;
    SparedAfter(l, c, l, c1, l2, c1, {p});
    assert CellRange(c, c1, p, End(l, p)) && PayloadKept(l, l2, p, End(l, p));
    CellRangeTrans(c, c1, c1, p, End(l, p)) by {
      CellRangeSame(c1, p, End(l, p));
    }
    hide Spared, PrefixKept, CellRange;
    assert PrefixKept(l, c, l2, c1, p, l.head[p].size);
    GrowDone(l, c, l2, c1, l3, c3, p);
  }
}
