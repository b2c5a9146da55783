/** The allocator: `malloc_state` with the heap words it manages, and its operations in place. */
module Heap {
  import opened Words
  import opened BinIndex
  import BinMaps
  import opened Memory
  import opened BinStore
  import opened Bins
  import opened Layout
  import opened Segments
  import opened Growth
  import opened NewSegment
  import opened Payload
  import opened Books
  import opened Blocks
  import opened Fit
  import opened Requests
  import opened HeapSteps
  import opened Bytes
  import opened Contents
  import opened HeapWalk

  /** What the system answers to a request for pages. */
  datatype Reply = Refused | Pages(base: int)

  /** `sys_alloc` serves the request with a mapping of its own. */
  predicate MapsDirectly(topsize: int, nb: nat, mm: Reply)
    requires nb < WORD_RANGE
  {
    nb >= MMAP_THRESHOLD && topsize != 0 && MapSize(nb) > nb && mm.Pages?
  }

  /** A mapping of `n` bytes is kept for `nb` bytes: it has room, and not too much of it. */
  predicate KeepsMapping(n: int, nb: nat) {
    nb + 8 <= n - MMAP_FOOT_PAD <= nb + 2 * GRANULARITY
  }

  /** Where the block `p` is after it was resized for `nb` bytes without copying; 0 if that cannot be done. */
  ghost function ResizedAt(l: Lay, mapped: map<int, int>, p: int, nb: nat, mr: Reply): (q: int) {
    if p !in mapped then (if RoomInPlace(l, p, nb) then p else 0)
    else if IsSmall(nb) then 0
    else if KeepsMapping(mapped[p], nb) then p
    else if mr.Pages? then mr.base
    else 0
  }

  /** Neither free memory nor the system has `nb` bytes. */
  ghost predicate Starved(f: Stock, nb: nat, mm: Reply, tb: Reply)
    requires nb < WORD_RANGE
  {
    Exhausted(f, nb) && !MapsDirectly(f.topsize, nb, mm) && (SegmentSize(nb) <= nb || tb.Refused?)
  }

  /**
   * Where a request of `nb` bytes is served: from the free memory that is chosen, and only when there is none, from a
   * mapping of its own or from new pages. The segments change only for the last.
   */
  ghost predicate Placed(f: Stock, segs: seq<Segment>, nb: nat, mm: Reply, tb: Reply, segs': seq<Segment>, p: int)
    requires nb < WORD_RANGE
  {
    if !Exhausted(f, nb) then Chosen(f, nb, p) && segs' == segs
    else if MapsDirectly(f.topsize, nb, mm) then p == mm.base && segs' == segs
    else tb.Pages? && PagesJoin(segs, f.top, tb.base, SegmentSize(nb), segs', p)
  }

  class MallocState {
    const bins: FreeBins
    var head: Heads
    var foot: Feet
    var dv: int
    var dvsize: nat
    var top: int
    var topsize: int
    var segs: seq<Segment>
    var bytes: map<int, int>
    ghost var chunks: set<int>
    ghost var records: set<int>
    ghost var fences: set<int>
    ghost var stops: seq<int>
    ghost var mapped: map<int, int>

    /** The zeroed state before the first allocation. */
    ghost predicate Blank()
      reads this, bins
    {
      && bins.Blank() && segs == [] && stops == [] && chunks == {} && records == {} && fences == {} && mapped == map[]
      && top == 0 && topsize == 0 && dv == 0 && dvsize == 0
    }

    constructor ()
      ensures Blank() && fresh(bins)
    {
      bins := new FreeBins();
      head, foot, dv, dvsize, top, topsize, segs, bytes := map[], map[], 0, 0, 0, 0, [], map[];
      chunks, records, fences, stops, mapped := {}, {}, {}, [], map[];
    }

    ghost function Now(): (l: Lay)
      reads this
    {
      Lay(head, foot, chunks, records, fences, top, topsize, segs, stops)
    }

    ghost function FreeMemory(): (f: Stock)
      reads this, bins
    {
      Stock(bins.View(), head, dv, dvsize, top, topsize)
    }

    /** The invariant of an initialised heap while an operation holds the free chunks of `loose`. */
    ghost predicate Open(loose: set<int>)
      reads this, bins
    {
      HeapOK(Now(), bins.View(), dv, dvsize, loose) && MappedOK(Now(), mapped)
    }

    /** From the state with layout `l` and link fields `c`, `p` was handed out for a padded request of `nb` bytes. */
    ghost predicate Gave(l: Lay, c: Cells, p: int, nb: nat)
      reads this, bins
    {
      && Open({}) && InUse(Now(), p) && p !in Used(l) && p > 0 && p % 16 == 0
      && nb <= head[p].size < nb + MIN_CHUNK_SIZE
      && Used(Now()) == Used(l)[p := head[p].size]
      && Spared(l, c, Now(), bins.cell, {})
    }

    /** From the state with layout `l`, victim and members given, the chunk `p` in use was freed. */
    ghost predicate Disposed(l: Lay, dv0: int, dvsize0: nat, members: set<int>, p: int)
      reads this, bins
    {
      p in l.head &&
      var a := StartOf(l, p);
      Freed(l, dv0, dvsize0, if a == p || a == dv0 then members else members - {a}, a, End(l, p), Now(), dv, dvsize, bins.members)
    }

    /** The invariant between operations. */
    ghost predicate Valid()
      reads this, bins
    {
      Blank() || Open({})
    }

    /** The blocks handed out: chunk addresses with chunk sizes. */
    ghost function Live(): (m: map<int, int>)
      reads this
    {
      Used(Now()) + Direct(mapped)
    }

    /** `p` is a new block of at least `nb` bytes, and the older blocks `live` are as they were. */
    ghost predicate Served(l: Lay, c: Cells, live: map<int, int>, p: int, nb: nat)
      reads this, bins
    {
      && Open({}) && p > 0 && p % 16 == 0
      && p !in live && p in Live() && Live() == live[p := Live()[p]]
      && nb <= Live()[p] && (p !in mapped ==> Live()[p] < nb + MIN_CHUNK_SIZE)
      && LeftAlone(l, c, Now(), bins.cell, live)
    }

    // ----- steps

    /** `unlink_chunk`: takes a free chunk out of its bin. */
    method Unlink(p: int, s: nat, ghost loose: set<int>)
      requires Open(loose) && p in bins.members && p in head && head[p].size == s
      modifies bins
      ensures Open(loose + {p}) && bins.members == old(bins.members) - {p}
      ensures Spared(Now(), old(bins.cell), Now(), bins.cell, {})
    {
      hide HeapOK, BinsOK, Listed, MappedOK, LayoutOK, Spared;
      ghost var l, v := Now(), bins.View();
      HeapParts(l, v, dv, dvsize, loose);
      if IsSmall(s) {
        bins.UnlinkSmall(head, p, s);
      } else {
        bins.UnlinkLarge(head, p);
      }
      UnlinkDone(l, v, bins.View(), dv, dvsize, loose, p);
    }

    /** `insert_chunk`: puts a free chunk into its bin. */
    method Insert(p: int, s: nat, ghost loose: set<int>)
      requires Open(loose) && p in loose && p in head && head[p].size == s
      modifies bins
      ensures Open(loose - {p}) && bins.members == old(bins.members) + {p}
      ensures Spared(Now(), old(bins.cell), Now(), bins.cell, {})
    {
      hide HeapOK, BinsOK, Listed, MappedOK, LayoutOK, Spared, TreeIndex, Pow2, OpenBits, BlockStart;
      ghost var l, v := Now(), bins.View();
      HeapParts(l, v, dv, dvsize, loose);
      InsertReady(l, v, dv, dvsize, loose, p);
      if IsSmall(s) {
        bins.InsertSmall(head, p, s);
      } else {
        bins.InsertLarge(head, p, s);
      }
      InsertDone(l, v, bins.View(), dv, dvsize, loose, p);
    }

    /** `set_inuse_and_pinuse`: hands out a whole free chunk. */
    method HandOut(p: int, ghost loose: set<int>)
      requires Open(loose) && p in loose
      modifies this`head
      ensures p in old(head) && p + old(head[p].size) in old(head) && Now() == Use(old(Now()), p)
      ensures Open(loose - {p}) && InUse(Now(), p)
      ensures p !in Used(old(Now())) && Used(Now()) == Used(old(Now()))[p := head[p].size]
      ensures Spared(old(Now()), bins.cell, Now(), bins.cell, {})
    {
      hide HeapOK, MappedOK, LayoutOK, Spared, Used, AllKept;
      ghost var l, v := Now(), bins.View();
      UseHeap(l, v, dv, dvsize, loose, p);
      UsedUse(l, v, dv, dvsize, loose, p);
      var e := p + head[p].size;
      head := head[p := Head(head[p].size, true, true)];
      head := head[e := head[e].(pinuse := true)];
      assert Now() == Use(l, p);
      LayoutSpared(l, Now(), bins.cell, {});
      MappedStays(l, Now(), mapped, {});
    }

    /** Hands out the first `nb` bytes of a free chunk; the rest is a free chunk. */
    method HandOutPart(p: int, nb: nat, ghost loose: set<int>) returns (r: int)
      requires Open(loose) && p in loose
      requires p in head && 32 <= nb && nb % 16 == 0 && nb + 32 <= head[p].size
      modifies this`head, this`foot, this`chunks
      ensures r == p + nb && Now() == Split(old(Now()), p, nb)
      ensures Open(loose - {p} + {r}) && InUse(Now(), p)
      ensures p !in Used(old(Now())) && Used(Now()) == Used(old(Now()))[p := nb]
      ensures Spared(old(Now()), bins.cell, Now(), bins.cell, {})
    {
      hide HeapOK, MappedOK, LayoutOK, Spared, Used, AllKept;
      ghost var l, v := Now(), bins.View();
      SplitHeap(l, v, dv, dvsize, loose, p, nb);
      UsedSplit(l, v, dv, dvsize, loose, p, nb);
      var rsize := head[p].size - nb;
      r := p + nb;
      head := head[p := Head(nb, true, true)];
      head := head[r := Head(rsize, true, false)];
      foot := foot[r + rsize := rsize];
      chunks := chunks + {r};
      assert Now() == Split(l, p, nb);
      LayoutSpared(l, Now(), bins.cell, {});
      MappedStays(l, Now(), mapped, {});
    }

    /** Hands out the low end of top. */
    method TakeFromTop(nb: nat) returns (p: int)
      requires Open({}) && nb % 16 == 0 && 32 <= nb < topsize
      modifies this`head, this`chunks, this`top, this`topsize, this`stops
      ensures p == old(top) && p > 0 && Gave(old(Now()), bins.cell, p, nb)
      ensures bins.View() == old(bins.View()) && top == p + nb && topsize == old(topsize) - nb
    {
      hide HeapOK, MappedOK, LayoutOK, Spared, Used, AllKept;
      ghost var l, v := Now(), bins.View();
      TakeTopHeap(l, v, dv, dvsize, {}, nb);
      UsedTakeTop(l, v, dv, dvsize, {}, nb);
      TopPlace(l, v, dv, dvsize);
      topsize := topsize - nb;
      p := top;
      var r := p + nb;
      top := r;
      head := head[r := Head(topsize, true, false)];
      head := head[p := Head(nb, true, true)];
      chunks := chunks + {p};
      stops := stops[0 := top];
      assert Now() == TakeTop(l, nb);
      LayoutSpared(l, Now(), bins.cell, {});
      MappedStays(l, Now(), mapped, {});
    }

    /**
     * `set_free_with_pinuse`: the chunks of [a, b) become one free chunk. Where the code leaves out clearing the
     * PINUSE bit at `b`, that bit is clear already.
     */
    method SetFree(a: int, b: int, ghost loose: set<int>, ghost p: int)
      requires Open(loose) && Gathered(Now(), dv, loose, a, b, p) && a <= p < b
      requires b in chunks && b in head && head[b].cinuse && a < b
      modifies this`head, this`foot, this`chunks
      ensures HeapOK(Now(), bins.View(), DvAfter(dv, a, b, a), if a <= dv < b then b - a else dvsize,
                     LooseAfter(dv, a, b))
      ensures MappedOK(Now(), mapped) && a in head && head[a].size == b - a
      ensures Used(Now()) == Used(old(Now())) - {p}
      ensures Spared(old(Now()), bins.cell, Now(), bins.cell, {p})
    {
      hide HeapOK, MappedOK, LayoutOK, Spared, Used, AllKept, Gathered;
      ghost var l, v := Now(), bins.View();
      CoalesceHeap(l, v, dv, dvsize, loose, a, b, p);
      UsedCoalesce(l, v, dv, dvsize, loose, a, b, p);
      head := head[a := Head(b - a, true, false)];
      head := head[b := head[b].(pinuse := false)];
      foot := foot[b := b - a];
      chunks := Coalesce(l, a, b).chunks;
      assert Now() == Coalesce(l, a, b);
      LayoutSpared(l, Now(), bins.cell, {p});
      MappedStays(l, Now(), mapped, {p});
    }

    /** Top takes in the chunks of [a, top). */
    method ExtendTopDown(a: int, psize: nat, ghost loose: set<int>, ghost p: int)
      requires Open(loose) && Gathered(Now(), dv, loose, a, top, p) && a <= p < top && psize == top - a
      requires a <= dv < top ==> dv == a
      modifies this`head, this`chunks, this`top, this`topsize, this`stops, this`dv, this`dvsize
      ensures Open({}) && Used(Now()) == Used(old(Now())) - {p}
      ensures top == a && topsize == old(topsize) + psize
      ensures if a == old(dv) then dv == 0 && dvsize == 0 else dv == old(dv) && dvsize == old(dvsize)
      ensures Spared(old(Now()), bins.cell, Now(), bins.cell, {p})
    {
      hide HeapOK, MappedOK, LayoutOK, Spared, Used, AllKept, Gathered;
      ghost var l, v := Now(), bins.View();
      JoinTopHeap(l, v, dv, dvsize, loose, a, p);
      UsedJoinTop(l, v, dv, dvsize, loose, a, p);
      topsize := topsize + psize;
      chunks := JoinTop(l, a).chunks;
      top := a;
      head := head[a := Head(topsize, true, false)];
      stops := stops[0 := a];
      assert Now() == JoinTop(l, a);
      LayoutSpared(l, Now(), bins.cell, {p});
      MappedStays(l, Now(), mapped, {p});
      if a == dv {
        dv := 0;
        dvsize := 0;
      }
    }

    /** Unlinks the binned chunk at `next` and merges it with [a, next). */
    method MergeNext(a: int, size: nat, next: int, ghost p: int, ghost loose: set<int>)
      requires Open(loose) && InUse(Now(), p) && p !in records && a <= p < next && size == next - a
      requires Run(Now(), a, next, {a, p}) && (loose == {} || loose == {a}) && (a == p || a == dv || a in loose)
      requires next in bins.members && next in head && next in chunks && !head[next].cinuse
      modifies this`head, this`foot, this`chunks, bins
      ensures next in old(head) && a in head && head[a].size == size + old(head[next].size)
      ensures if a == dv then HeapOK(Now(), bins.View(), dv, head[a].size, {})
              else HeapOK(Now(), bins.View(), dv, dvsize, {a})
      ensures MappedOK(Now(), mapped) && Used(Now()) == Used(old(Now())) - {p} && bins.members == old(bins.members) - {next}
      ensures Spared(old(Now()), old(bins.cell), Now(), bins.cell, {p})
    {
      hide HeapOK, MappedOK, LayoutOK, Spared, Used, Gathered, Run, Listed, BinsOK, Coalesce;
      ghost var l, c, s := Now(), bins.cell, {a, p, next};
      OpenParts(l, bins.View(), dv, dvsize, loose, next);
      RunForward(l, a, next, {a, p});
      assert {a, p} + {next} == s;
      AfterFree(l, next);
      var nsize := head[next].size;
      DvInRun(l, bins.View(), dv, dvsize, loose, a, next + nsize, s, p);
      MemberNotDv(l, bins.View(), dv, dvsize, loose, next);
      Unlink(next, nsize, loose);
      ghost var c1 := bins.cell;
      GatheredRun(l, dv, loose + {next}, a, next + nsize, p, s);
      SetFree(a, next + nsize, loose + {next}, p);
      SparedAfter(l, c, l, c1, Now(), bins.cell, {p});
    }

    /**
     * Second half of `dispose_chunk`: the chunk `p` in use and the free chunk before it, if any, fill [a, next). The
     * free chunk is the designated victim or loose.
     */
    method FreeForward(a: int, size: nat, next: int, ghost p: int, ghost loose: set<int>)
      requires Open(loose) && InUse(Now(), p) && p !in records && next == End(Now(), p) && size == next - a
      requires Run(Now(), a, next, {a, p}) && a <= p
      requires (loose == {} || loose == {a}) && (a == p || a == dv || a in loose)
      requires a == dv ==> next in head && !head[next].cinuse
      modifies this`head, this`foot, this`chunks, this`top, this`topsize, this`stops, this`dv, this`dvsize, bins
      ensures Open({}) && Used(Now()) == Used(old(Now())) - {p}
      ensures Freed(old(Now()), old(dv), old(dvsize), old(bins.members), a, next, Now(), dv, dvsize, bins.members)
      ensures Spared(old(Now()), old(bins.cell), Now(), bins.cell, {p})
    {
      hide HeapOK, MappedOK, LayoutOK, Spared, Used, Gathered, Run, Listed, BinsOK, Coalesce;
      ghost var l, c := Now(), bins.cell;
      OpenParts(l, bins.View(), dv, dvsize, loose, p);
      NextChunk(l, bins.View(), dv, dvsize, loose, p);
      DvInRun(l, bins.View(), dv, dvsize, loose, a, next, {a, p}, p);
      var psize := size;
      if !head[next].cinuse {
        if next == top {
          GatheredRun(l, dv, loose, a, next, p, {a, p});
          ExtendTopDown(a, psize, loose, p);
          return;
        }
        FreeWhere(l, bins.View(), dv, dvsize, loose, next);
        if next == dv {
          GrowDvDown(a, psize, next, p, loose);
          return;
        }
        psize := psize + head[next].size;
        MergeNext(a, size, next, p, loose);
        if a == dv {
          dvsize := psize;
          return;
        }
      } else {
        NextInUse(l, bins.View(), dv, dvsize, loose, next);
        GatheredRun(l, dv, loose, a, next, p, {a, p});
        SetFree(a, next, loose, p);
      }
      ghost var l2, c2 := Now(), bins.cell;
      Insert(a, psize, {a});
      assert {a} - {a} == {};
      SparedThen(l, c, l2, c2, Now(), bins.cell, {p});
    }

    /** The designated victim at `next` takes in [a, next). */
    method GrowDvDown(a: int, psize: nat, next: int, ghost p: int, ghost loose: set<int>)
      requires Open(loose) && InUse(Now(), p) && p !in records && a <= p < next && psize == next - a
      requires Run(Now(), a, next, {a, p}) && (loose == {} || loose == {a}) && (a == p || a in loose)
      requires next == dv && next in chunks && next in head && !head[next].cinuse
      modifies this`head, this`foot, this`chunks, this`dv, this`dvsize
      ensures Open({}) && Used(Now()) == Used(old(Now())) - {p}
      ensures dv == a && a in head && head[a].size == dvsize == psize + old(head[next].size)
      ensures Spared(old(Now()), bins.cell, Now(), bins.cell, {p})
    {
      hide HeapOK, MappedOK, LayoutOK, Spared, Used, Gathered, Run, Listed, BinsOK, Coalesce;
      ghost var l, s := Now(), {a, p, next};
      OpenParts(l, bins.View(), dv, dvsize, loose, next);
      RunForward(l, a, next, {a, p});
      assert {a, p} + {next} == s;
      AfterFree(l, next);
      FreeWhere(l, bins.View(), dv, dvsize, loose, next);
      var dsize := dvsize + psize;
      DvInRun(l, bins.View(), dv, dvsize, loose, a, next + dvsize, s, p);
      GatheredRun(l, dv, loose, a, a + dsize, p, s);
      SetFree(a, a + dsize, loose, p);
      dvsize := dsize;
      dv := a;
    }

    /**
     * `dispose_chunk`, and the part of `dlfree` that does the same: a chunk in use becomes free, merged with its free
     * neighbours, and goes into top, the designated victim or a bin.
     */
    method Dispose(p: int)
      requires Open({}) && InUse(Now(), p) && p !in records
      modifies this`head, this`foot, this`chunks, this`top, this`topsize, this`stops, this`dv, this`dvsize, bins
      ensures Open({}) && Used(Now()) == Used(old(Now())) - {p}
      ensures Disposed(old(Now()), old(dv), old(dvsize), old(bins.members), p)
      ensures Spared(old(Now()), old(bins.cell), Now(), bins.cell, {p})
    {
      hide HeapOK, MappedOK, LayoutOK, Spared, Used, Gathered, Run, Listed, BinsOK, Coalesce;
      ghost var l, c := Now(), bins.cell;
      OpenParts(l, bins.View(), dv, dvsize, {}, p);
      NextChunk(l, bins.View(), dv, dvsize, {}, p);
      var psize := head[p].size;
      var next := p + psize;
      if head[p].pinuse {
        UsedNotDv(l, bins.View(), dv, dvsize, p);
        RunStart(l, p);
        assert {p, p} == {p};
        FreeForward(p, psize, next, p, {});
        return;
      }
      ChunkBefore(l, p);
      var prevsize := foot[p];
      var a := p - prevsize;
      RunBack(l, a, p);
      psize := psize + prevsize;
      FreeWhere(l, bins.View(), dv, dvsize, {}, a);
      if a != dv {
        Unlink(a, prevsize, {});
        assert {} + {a} == {a};
        ghost var c1 := bins.cell;
        FreeForward(a, psize, next, p, {a});
        SparedAfter(l, c, l, c1, Now(), bins.cell, {p});
      } else if head[next].cinuse && head[next].pinuse {
        NextInUse(l, bins.View(), dv, dvsize, {}, next);
        GatheredRun(l, dv, {}, a, next, p, {a, p});
        SetFree(a, next, {}, p);
        dvsize := psize;
      } else {
        FreeForward(a, psize, next, p, {});
      }
    }

    // ----- malloc from free chunks

    /** Uses the first chunk of small bin `i` whole. */
    method FromSmallBin(i: nat, nb: nat) returns (p: int)
      requires Open({}) && i < NSMALLBINS && bins.smallmap[i] && nb <= 8 * i < nb + MIN_CHUNK_SIZE
      modifies this`head, bins
      ensures Gave(old(Now()), old(bins.cell), p, nb) && Leaves(old(FreeMemory()), nb, p, FreeMemory())
      ensures p > 0 && FirstIn(old(bins.View()), i, p) && p in old(bins.members) && p in old(head) && old(head[p].size) == 8 * i
    {
      hide HeapOK, MappedOK, LayoutOK, Spared, Used, Listed, BinsOK, AllKept;
      ghost var l, v := Now(), bins.View();
      p := TakeFirst(i);
      ghost var c1 := bins.cell;
      OpenParts(l, bins.View(), dv, dvsize, {p}, p);
      HandOut(p, {p});
      assert {p} - {p} == {};
      SparedAfter(l, v.cell, l, c1, Now(), bins.cell, {});
    }

    method TakeFirst(i: nat) returns (p: int)
      requires Open({}) && i < NSMALLBINS && bins.smallmap[i]
      modifies bins
      ensures Open({p}) && p in chunks && p in head && head[p].size == 8 * i && p in old(bins.members)
      ensures |old(bins.small)| == NSMALLBINS && old(bins.small[i]) != [] && p == old(bins.small[i][0])
      ensures bins.members == old(bins.members) - {p}
      ensures Spared(Now(), old(bins.cell), Now(), bins.cell, {})
    {
      hide HeapOK, MappedOK, LayoutOK, Spared, Listed, BinsOK;
      ghost var l, v := Now(), bins.View();
      HeapParts(l, v, dv, dvsize, {});
      p := bins.UnlinkFirstSmall(head, i);
      UnlinkDone(l, v, bins.View(), dv, dvsize, {}, p);
      assert {} + {p} == {p};
      MemberChunk(l, v, dv, dvsize, {}, p);
    }

    /** `replace_dv`: makes the loose chunk `r` the designated victim, binning the old one. */
    method ReplaceDv(r: int, s: nat)
      requires Open({r}) && r in head && head[r].size == s && IsSmall(dvsize)
      modifies this`dv, this`dvsize, bins
      ensures Open({}) && dv == r && dvsize == s
      ensures bins.members == old(bins.members) + (if old(dvsize) == 0 then {} else {old(dv)})
      ensures Spared(Now(), old(bins.cell), Now(), bins.cell, {})
    {
      hide HeapOK, MappedOK, LayoutOK, Spared, Listed, BinsOK, AllKept;
      ghost var l, v := Now(), bins.View();
      HeapParts(l, v, dv, dvsize, {r});
      SparedSame(l, v.cell);
      if dvsize != 0 {
        DvReady(l, v, dv, dvsize, {r});
        bins.InsertSmall(head, dv, dvsize);
      }
      DvReplaced(l, v, bins.View(), dv, dvsize, r);
      dvsize := s;
      dv := r;
    }

    /** Hands out `nb` bytes of the loose chunk `p`, whole if the rest is too small, and keeps the rest as victim. */
    method CutIntoDv(p: int, nb: nat)
      requires Open({p}) && p in head && p in chunks && 32 <= nb <= head[p].size && nb % 16 == 0 && IsSmall(dvsize)
      modifies this`head, this`foot, this`chunks, this`dv, this`dvsize, bins
      ensures Gave(old(Now()), old(bins.cell), p, nb)
      ensures if old(head[p].size) < nb + MIN_CHUNK_SIZE
              then bins.View() == old(bins.View()) && dv == old(dv) && dvsize == old(dvsize)
              else
                && dv == p + nb && dvsize == old(head[p].size) - nb
                && bins.members == old(bins.members) + (if old(dvsize) == 0 then {} else {old(dv)})
    {
      hide HeapOK, MappedOK, LayoutOK, Spared, Used, Listed, BinsOK, AllKept;
      ghost var l, v := Now(), bins.View();
      OpenParts(l, v, dv, dvsize, {p}, p);
      var rsize := head[p].size - nb;
      if rsize < MIN_CHUNK_SIZE {
        HandOut(p, {p});
        assert {p} - {p} == {};
      } else {
        var r := HandOutPart(p, nb, {p});
        assert {p} - {p} + {r} == {r};
        ghost var l1 := Now();
        ReplaceDv(r, rsize);
        SparedAfter(l, v.cell, l1, v.cell, l1, bins.cell, {});
      }
    }

    /** Uses the designated victim, whole or in part. */
    method FromDv(nb: nat) returns (p: int)
      requires Open({}) && 32 <= nb <= dvsize && nb % 16 == 0
      modifies this`head, this`foot, this`chunks, this`dv, this`dvsize
      ensures p == old(dv) && p > 0 && Gave(old(Now()), bins.cell, p, nb) && bins.View() == old(bins.View())
      ensures Leaves(old(FreeMemory()), nb, p, FreeMemory())
    {
      hide HeapOK, MappedOK, LayoutOK, Spared, Used, Listed, BinsOK, AllKept;
      ghost var l, v := Now(), bins.View();
      DvDropped(l, v, dv, dvsize, {});
      DvReady(l, v, dv, dvsize, {});
      OpenParts(l, v, dv, dvsize, {}, dv);
      assert {} + {dv} == {dv};
      var rsize := dvsize - nb;
      p := dv;
      if rsize >= MIN_CHUNK_SIZE {
        dv := 0;
        dvsize := 0;
        var r := HandOutPart(p, nb, {p});
        assert {p} - {p} + {r} == {r};
        DvSet(Now(), v, {r}, r);
        assert {r} - {r} == {};
        dv := r;
        dvsize := rsize;
      } else {
        dvsize := 0;
        dv := 0;
        HandOut(p, {p});
        assert {p} - {p} == {};
      }
    }

    /** `tmalloc_large`: the best tree chunk, unless the designated victim fits at least as well. */
    method TmallocLarge(nb: nat) returns (p: int)
      requires Open({}) && 256 <= nb < WORD_RANGE && nb % 16 == 0
      modifies this`head, this`foot, this`chunks, bins
      ensures p != 0 ==>
                && p > 0 && Gave(old(Now()), old(bins.cell), p, nb)
                && BestFitting(old(bins.View()), old(head), nb, p) && (dvsize < nb || old(head[p].size) < dvsize)
                && Leaves(old(FreeMemory()), nb, p, FreeMemory())
      ensures p == 0 ==>
                && Open({}) && Now() == old(Now()) && bins.View() == old(bins.View())
                && (NoneFits(bins.View(), head, nb) || (nb <= dvsize && Smallest(bins.View(), head, nb, dvsize)))
    {
      hide HeapOK, MappedOK, LayoutOK, Spared, Used, Listed, BinsOK, AllKept, BestChunk, Smallest, NoneFits;
      ghost var l, w := Now(), bins.View();
      HeapParts(l, w, dv, dvsize, {});
      var v, rsize := bins.FindFit(head, nb);
      BestLarge(w, head, nb, v, rsize);
      DvBelow(l, w, dv, dvsize, {});
      if v != 0 {
        WrappedTest(dvsize, nb, rsize);
      }
      if v != 0 && rsize < Sub64(dvsize, nb) {
        p := v;
        Unlink(p, nb + rsize, {});
        assert {} + {p} == {p};
        ghost var c1 := bins.cell;
        OpenParts(l, bins.View(), dv, dvsize, {p}, p) by {
          MemberChunk(l, w, dv, dvsize, {}, p);
        }
        if rsize < MIN_CHUNK_SIZE {
          HandOut(p, {p});
          assert {p} - {p} == {};
          SparedAfter(l, w.cell, l, c1, Now(), bins.cell, {});
        } else {
          var r := HandOutPart(p, nb, {p});
          assert {p} - {p} + {r} == {r};
          SparedAfter(l, w.cell, l, c1, Now(), bins.cell, {});
          ghost var l2, c2 := Now(), bins.cell;
          Insert(r, rsize, {r});
          assert {r} - {r} == {};
          SparedAfter(l, w.cell, l2, c2, Now(), bins.cell, {});
        }
        return;
      }
      if v != 0 {
        SmallestMono(w, head, nb, nb + rsize, dvsize);
      }
      p := 0;
    }

    /** `tmalloc_small`: cuts the smallest tree chunk. */
    method TmallocSmall(nb: nat) returns (p: int)
      requires Open({}) && 32 <= nb < 256 && nb % 16 == 0 && bins.treemap != BinMaps.ZERO && dvsize < nb
      requires forall j :: SmallIndex(nb) <= j < NSMALLBINS ==> !bins.smallmap[j]
      modifies this`head, this`foot, this`chunks, this`dv, this`dvsize, bins
      ensures Gave(old(Now()), old(bins.cell), p, nb)
      ensures p > 0 && BestFitting(old(bins.View()), old(head), nb, p) && Leaves(old(FreeMemory()), nb, p, FreeMemory())
    {
      hide HeapOK, MappedOK, LayoutOK, Spared, Used, Listed, BinsOK, AllKept, BestChunk, Smallest;
      ghost var l, w := Now(), bins.View();
      HeapParts(l, w, dv, dvsize, {});
      var v, rsize := bins.FindSmallest(head, nb);
      TreeSmallest(w, head, nb, v, rsize);
      BestParts(w, head, nb, v, rsize);
      p := v;
      Unlink(p, nb + rsize, {});
      assert {} + {p} == {p};
      MemberChunk(l, w, dv, dvsize, {}, p);
      ghost var c1 := bins.cell;
      CutIntoDv(p, nb);
      SparedAfter(l, w.cell, l, c1, Now(), bins.cell, {});
    }

    /** Cuts the first chunk of small bin `i` and keeps the rest as designated victim. */
    method CutFirst(i: nat, nb: nat) returns (p: int)
      requires Open({}) && i < NSMALLBINS && bins.smallmap[i] && 32 <= nb <= 8 * i && nb % 16 == 0 && dvsize < nb < 256
      modifies this`head, this`foot, this`chunks, this`dv, this`dvsize, bins
      ensures Gave(old(Now()), old(bins.cell), p, nb) && Leaves(old(FreeMemory()), nb, p, FreeMemory())
      ensures p > 0 && FirstIn(old(bins.View()), i, p) && p in old(bins.members) && p in old(head) && old(head[p].size) == 8 * i
    {
      hide HeapOK, MappedOK, LayoutOK, Spared, Used, Listed, BinsOK, AllKept;
      ghost var l, v := Now(), bins.View();
      p := TakeFirst(i);
      ghost var c1 := bins.cell;
      CutIntoDv(p, nb);
      SparedAfter(l, v.cell, l, c1, Now(), bins.cell, {});
    }

    /** The first marked small bin above bin `idx`, given the bit map moved down to `idx`. */
    method NextSmallBin(idx: nat, smallbits: BinMaps.Word) returns (i: nat)
      requires idx < NSMALLBINS && smallbits == BinMaps.Shr(bins.smallmap, idx) && smallbits != BinMaps.ZERO
      requires !bins.smallmap[idx]
      ensures idx < i < NSMALLBINS && bins.smallmap[i] && forall j :: idx <= j < i ==> !bins.smallmap[j]
    {
      hide BinMaps.And, BinMaps.LeftBits, BinMaps.LeastBit, BinMaps.Shl, BinMaps.Shr, BinMaps.IdxBit, BinMaps.BitToIdx;
      BinMaps.ShrZero(bins.smallmap, idx);
      BinMaps.NextSmall(bins.smallmap, idx);
      BinMaps.NextMarked(bins.smallmap, idx);
      var leftbits := BinMaps.And(BinMaps.Shl(smallbits, idx), BinMaps.LeftBits(BinMaps.IdxBit(idx)));
      i := BinMaps.BitToIdx(BinMaps.LeastBit(leftbits));
    }

    /** What `dlmalloc` tries first for a small request: the small bins, then the tree bins. */
    method FromBins(nb: nat) returns (p: int)
      requires Valid() && 32 <= nb <= 240 && nb % 16 == 0
      modifies this`head, this`foot, this`chunks, this`dv, this`dvsize, bins
      ensures p != 0 ==>
                && p > 0 && Gave(old(Now()), old(bins.cell), p, nb)
                && Chosen(old(FreeMemory()), nb, p)
                && BestFitting(old(bins.View()), old(head), nb, p) && Leaves(old(FreeMemory()), nb, p, FreeMemory())
      ensures p == 0 ==>
                && Now() == old(Now()) && bins.View() == old(bins.View())
                && dv == old(dv) && dvsize == old(dvsize)
                && !ExactBin(bins.View(), nb) && (nb <= dvsize || NoneFits(bins.View(), head, nb))
    {
      hide HeapOK, MappedOK, LayoutOK, Spared, Used, Listed, BinsOK, AllKept, Smallest, NoneFits, BinMaps.Shr, SmallIndex,
           Gave, Chosen, FirstIn, BestFitting, Leaves;
      ghost var l, w, f := Now(), bins.View(), FreeMemory();
      if Open({}) {
        HeapParts(l, w, dv, dvsize, {});
      }
      SmallIndexOf(nb);
      var idx := SmallIndex(nb);
      var smallbits := BinMaps.Shr(bins.smallmap, idx);
      BinMaps.ShrZero(bins.smallmap, idx);
      BinMaps.ShrLow(bins.smallmap, idx);
      p := 0;
      if smallbits[0] || smallbits[1] {
        if !smallbits[0] {
          idx := idx + 1;
        }
        p := FromSmallBin(idx, nb);
        FirstFits(w, l.head, nb, idx, p);
        ChosenExact(f, nb, p, idx);
      } else if nb > dvsize {
        if smallbits != BinMaps.ZERO {
          var i := NextSmallBin(idx, smallbits);
          p := CutFirst(i, nb);
          FirstFits(w, l.head, nb, i, p);
          ChosenFit(f, nb, p);
        } else if bins.treemap != BinMaps.ZERO {
          p := TmallocSmall(nb);
          ChosenFit(f, nb, p);
        } else if Open({}) {
          NoMarks(w, head, nb);
        } else {
          NoMembers(w, head, nb);
        }
      }
    }

    // ----- memory from the system

    /** The system's promise: pages are new to the heap and read as zero. */
    ghost predicate Offers(r: Reply, n: nat)
      reads this
    {
      r.Pages? ==> Fresh(segs, r.base, n) && ApartFrom(mapped, r.base, n) && Zero(bytes, r.base, r.base + n)
    }

    /** The same for pages that may extend a segment: segments stay below the size limit of the tree bins. */
    ghost predicate Supplies(r: Reply, n: nat)
      reads this
    {
      Offers(r, n) && (r.Pages? ==> n < SEGMENT_LIMIT && forall i :: 0 <= i < |segs| ==> segs[i].size + n < SEGMENT_LIMIT)
    }

    /** The answers to the two requests that `sys_alloc` may make for `nb` bytes. */
    ghost predicate Answers(nb: nat, mm: Reply, tb: Reply)
      requires nb < WORD_RANGE
      reads this
    {
      && (MapSize(nb) > nb ==> Offers(mm, MapSize(nb)))
      && (SegmentSize(nb) > nb ==> Supplies(tb, SegmentSize(nb)))
    }

    /** `mmap_alloc`: a mapping of its own for one chunk. */
    method MmapAlloc(nb: nat, mm: Reply) returns (p: int)
      requires Open({}) && 0 < nb < WORD_RANGE && (MapSize(nb) > nb ==> Offers(mm, MapSize(nb)))
      modifies this`head, this`foot, this`mapped
      ensures p == 0 <==> MapSize(nb) <= nb || mm.Refused?
      ensures p == 0 ==> Now() == old(Now()) && mapped == old(mapped)
      ensures p != 0 ==> p == mm.base
      ensures p != 0 ==> Served(old(Now()), bins.cell, old(Live()), p, nb) && p in mapped && Zero(bytes, p, p + mapped[p])
                         && mapped - {p} == old(mapped)
    {
      hide HeapOK, MappedOK, Used, LeftAlone, Fresh, ApartFrom, MapSize, Direct, Zero;
      ghost var l, v := Now(), bins.View();
      MapSizeWraps(nb);
      p := 0;
      var mmsize := MapSize(nb);
      if mmsize > nb && mm.Pages? {
        MapPagesHeap(l, v, dv, dvsize, mapped, mm.base, mmsize);
        FreshSize(segs, mm.base, mmsize);
        PagesAligned(0, mm.base);
        MapServed(mapped, mm.base, mmsize, Used(l));
        p := mm.base;
        var psize := mmsize - MMAP_FOOT_PAD;
        foot := foot[p := 0];
        head := head[p := Head(psize, false, false)];
        head := head[p + psize := FENCEPOST];
        head := head[p + psize + 8 := Head(0, false, false)];
        mapped := mapped[p := mmsize];
        assert Now() == MapPages(l, p, mmsize);
      }
    }

    /** First memory: bins are set up and everything is top. */
    method InitHeap(base: int, n: nat)
      requires Blank() && Fresh([], base, n) && n < SEGMENT_LIMIT
      modifies this`head, this`top, this`topsize, this`segs, this`stops, bins
      ensures Open({}) && Used(Now()) == Used(old(Now()))
      ensures top == base && topsize == n - TOP_FOOT_SIZE && segs == [Segment(base, n)]
      ensures Spared(old(Now()), old(bins.cell), Now(), bins.cell, {})
    {
      hide Fresh, LayoutOK, BinsOK, Spared, HeapOK, InitLay, Used;
      ghost var l, c := Now(), bins.cell;
      FreshSize([], base, n);
      segs := [Segment(base, n)];
      bins.InitBins(head);
      InitHeapOK(l, bins.View(), base, n);
      InitSpared(l, c, bins.cell, base, n);
      top := base;
      topsize := n - TOP_FOOT_SIZE;
      head := head[top := Head(topsize, true, false)][top + topsize := Head(TOP_FOOT_SIZE, false, false)];
      stops := [base];
      InitLayIs(l, base, n);
    }

    /** New pages right after the segment of top. */
    method AppendPages(n: nat)
      requires Open({}) && Fresh(segs, top + topsize + TOP_FOOT_SIZE, n) && |segs| > 0
      requires segs[0].size + n < SEGMENT_LIMIT && ApartFrom(mapped, top + topsize + TOP_FOOT_SIZE, n)
      modifies this`head, this`topsize, this`segs
      ensures Open({}) && Used(Now()) == Used(old(Now())) && topsize == old(topsize) + n
      ensures segs == old(segs)[0 := Segment(old(segs[0].base), old(segs[0].size) + n)]
      ensures Spared(old(Now()), bins.cell, Now(), bins.cell, {})
    {
      hide HeapOK, MappedOK, LayoutOK, Spared, Used, AllKept, Fresh;
      ghost var l, v := Now(), bins.View();
      TopPlace(l, v, dv, dvsize);
      AppendHeap(l, v, dv, dvsize, n);
      UsedAppend(l, v, dv, dvsize, n);
      segs := segs[0 := Segment(segs[0].base, segs[0].size + n)];
      topsize := topsize + n;
      head := head[top := Head(topsize, true, false)];
      head := head[top + topsize := Head(TOP_FOOT_SIZE, false, false)];
      assert Now() == Append(l, n);
      LayoutSpared(l, Now(), bins.cell, {});
      AppendMapped(l, mapped, n);
    }

    /**
     * `prepend_alloc`: new pages right before segment `i`. The request comes first; the rest joins what the segment
     * starts with. The rest is given a head in use first, which every way of joining overwrites.
     */
    method PrependAlloc(i: nat, n: nat, nb: nat) returns (p: int)
      requires Open({}) && i < |segs| && Fresh(segs, segs[i].base - n, n) && ApartFrom(mapped, segs[i].base - n, n)
      requires segs[i].size + n < SEGMENT_LIMIT && 32 <= nb && nb + 32 <= n && nb % 16 == 0
      modifies this`head, this`foot, this`chunks, this`top, this`topsize, this`stops, this`dv, this`dvsize, this`segs, bins
      ensures Gave(old(Now()), old(bins.cell), p, nb)
      ensures p == old(segs[i].base) - n && segs == old(segs)[i := Segment(p, old(segs[i].size) + n)]
    {
      hide HeapOK, MappedOK, LayoutOK, Spared, Used, AllKept, Fresh, Run, Listed, BinsOK, Gathered, ApartFrom;
      ghost var l, v := Now(), bins.View();
      p := segs[i].base - n;
      PrependSplit(l, v, dv, dvsize, mapped, i, n, nb);
      var q, qsize := p + nb, n - nb;
      segs := segs[i := Segment(p, segs[i].size + n)];
      head := head[p := Head(nb, true, true)];
      head := head[q := Head(qsize, true, true)];
      chunks := chunks + {p} + {q};
      ghost var l2 := Now();
      assert l2 == PrependCut(l, i, n, nb);
      OpenParts(l2, v, dv, dvsize, {}, q);
      RunStart(l2, q);
      assert {q, q} == {q};
      UsedNotDv(l2, v, dv, dvsize, q);
      FreeForward(q, qsize, q + qsize, q, {});
      SparedTrans(l, v.cell, l2, v.cell, Now(), bins.cell, {p}, {q});
      PrependGave(l, v.cell, Now(), bins.cell, p, q, nb, n);
    }

    /** Writes fenceposts from `t` on, while the head word of the next one lies below `e`. */
    static method WriteFenceposts(h: Heads, t: int, e: int) returns (h': Heads)
      requires t + 16 <= e && (e - t) % 8 == 0
      ensures h' == h + Fenceposts(FencesOf(t, e))
    {
      hide FencesOf;
      h' := h;
      var p := t;
      while true
        invariant t <= p && p + 16 <= e && (e - p) % 8 == 0
        invariant h' + Fenceposts(FencesOf(p, e)) == h + Fenceposts(FencesOf(t, e))
        decreases e - p
      {
        var nextp := p + 8;
        FencesStep(h', p, e);
        h' := h'[p := FENCEPOST];
        if nextp + 8 >= e {
          FencesEnd(nextp, e);
          break;
        }
        p := nextp;
      }
    }

    /** Where `add_segment` puts the record of the old segment. */
    method RecordSpot(oldTop: int, oldEnd: int) returns (csp: int)
      requires oldEnd % 16 == 0
      ensures csp == if oldEnd - TOP_FOOT_SIZE < oldTop + MIN_CHUNK_SIZE then oldTop else oldEnd - TOP_FOOT_SIZE
    {
      var rawsp := oldEnd - (RECORD_SIZE + 32 + 15);
      var asp := rawsp + (16 - (rawsp + 16) % 16) % 16;
      RecordAligned(oldEnd, rawsp);
      csp := if asp < oldTop + MIN_CHUNK_SIZE then oldTop else asp;
    }

    /** The head words of `add_segment`: new top, record and fenceposts. */
    method ClosingHeads(base: int, n: nat) returns (csp: int, h: Heads)
      requires topsize > 0 && top % 16 == 0 && topsize % 16 == 0 && |segs| > 0 && n >= TOP_FOOT_SIZE
      requires segs[0].base + segs[0].size == top + topsize + TOP_FOOT_SIZE
      ensures csp == RecordPlace(Now()) && h == ClosedHeads(Now(), base, n)
    {
      hide FencesOf, Fenceposts;
      var oldEnd := segs[0].base + segs[0].size;
      csp := RecordSpot(top, oldEnd);
      h := head[base := Head(n - TOP_FOOT_SIZE, true, false)];
      h := h[base + n - TOP_FOOT_SIZE := Head(TOP_FOOT_SIZE, false, false)];
      h := h[csp := Head(RECORD_SIZE, true, true)];
      h := WriteFenceposts(h, csp + RECORD_SIZE, oldEnd);
    }

    /** The writes of `add_segment`, with the head and foot of what is left of the old top. */
    method CloseOldTop(base: int, n: nat) returns (rest: int, psize: nat)
      requires topsize > 0 && top % 16 == 0 && topsize % 16 == 0 && |segs| > 0 && |stops| > 0 && n >= TOP_FOOT_SIZE
      requires segs[0].base + segs[0].size == top + topsize + TOP_FOOT_SIZE
      modifies this`head, this`foot, this`chunks, this`records, this`fences, this`top, this`topsize, this`stops, this`segs
      ensures Now() == CloseTop(old(Now()), base, n)
      ensures rest == old(top) && psize == RecordPlace(old(Now())) - old(top)
    {
      hide FencesOf, CloseTop, ClosedHeads;
      ghost var l := Now();
      ghost var l' := CloseTop(l, base, n);
      CloseTopParts(l, base, n);
      var csp, h := ClosingHeads(base, n);
      rest := top;
      psize := csp - rest;
      if csp != rest {
        ClosedRecordHead(l, base, n);
        h := h[csp := h[csp].(pinuse := false)];
        h := h[rest := Head(psize, true, false)];
        foot := foot[csp := psize];
      }
      head := h;
      top := base;
      topsize := n - TOP_FOOT_SIZE;
      segs := [Segment(base, n)] + segs;
      chunks, records, fences, stops := l'.chunks, l'.records, l'.fences, l'.stops;
    }

    /** `add_segment`: pages apart from every segment become the new top; the old top is closed off. */
    method AddSegment(base: int, n: nat)
      requires Open({}) && Fresh(segs, base, n) && n < SEGMENT_LIMIT && ApartFrom(mapped, base, n)
      modifies this`head, this`foot, this`chunks, this`records, this`fences, this`top, this`topsize, this`stops, this`segs, bins
      ensures Open({}) && Used(Now()) == Used(old(Now()))
      ensures top == base && topsize == n - TOP_FOOT_SIZE && segs == [Segment(base, n)] + old(segs)
      ensures Spared(old(Now()), old(bins.cell), Now(), bins.cell, {})
    {
      hide HeapOK, MappedOK, LayoutOK, Spared, Used, AllKept, Fresh, Listed, BinsOK, FencesOf, ApartFrom, CloseTop;
      ghost var l, v := Now(), bins.View();
      TopPlace(l, v, dv, dvsize);
      FreshSize(segs, base, n);
      CloseTopParts(l, base, n);
      CloseTopHeap(l, v, dv, dvsize, base, n);
      UsedCloseTop(l, v, dv, dvsize, base, n);
      CloseTopMapped(l, mapped, base, n);
      ClosedRestHead(l, base, n);
      var rest, psize := CloseOldTop(base, n);
      ghost var l' := Now();
      LayoutSpared(l, l', bins.cell, {});
      if psize != 0 {
        Insert(rest, psize, {rest});
        assert {rest} - {rest} == {};
        SparedAfter(l, v.cell, l', v.cell, l', bins.cell, {});
      }
    }

    /** Pages that may adjoin a segment become heap: appended to the segment of top, put before a segment, or apart. */
    method Extend(base: int, n: nat, nb: nat) returns (p: int)
      requires Open({}) && Supplies(Pages(base), n) && 32 <= nb && nb % 16 == 0 && nb + SYS_ALLOC_PADDING <= n
      modifies this`head, this`foot, this`chunks, this`records, this`fences, this`top, this`topsize, this`stops
      modifies this`dv, this`dvsize, this`segs, bins
      ensures Gave(old(Now()), old(bins.cell), p, nb) && PagesJoin(old(segs), old(top), base, n, segs, p)
    {
      hide HeapOK, MappedOK, LayoutOK, Spared, Used, AllKept, Fresh, Listed, BinsOK, ApartFrom;
      ghost var l, c := Now(), bins.cell;
      TopPlace(l, bins.View(), dv, dvsize);
      var i := 0;
      while i < |segs| && base != segs[i].base + segs[i].size
        invariant 0 <= i <= |segs| && (i > 0 ==> base != segs[0].base + segs[0].size)
      {
        i := i + 1;
      }
      if i < |segs| && segs[i].base <= top < segs[i].base + segs[i].size {
        TopFirst(l, bins.View(), dv, dvsize, i);
        AppendPages(n);
      } else {
        i := 0;
        while i < |segs| && segs[i].base != base + n
          invariant 0 <= i <= |segs| && forall j: nat :: j < i ==> !Follows(segs, j, base, n)
        {
          i := i + 1;
        }
        if i < |segs| {
          assert Follows(segs, i, base, n);
          p := PrependAlloc(i, n, nb);
          return;
        }
        AddSegment(base, n);
      }
      ghost var l1, c1 := Now(), bins.cell;
      p := TakeFromTop(nb);
      SparedAfter(l, c, l1, c1, Now(), bins.cell, {});
    }

    /** The pages at `base` become heap, and the request is served from them. */
    method FromPages(base: int, n: nat, nb: nat) returns (p: int)
      requires Valid() && Supplies(Pages(base), n) && 32 <= nb && nb % 16 == 0 && nb + SYS_ALLOC_PADDING <= n
      modifies this`head, this`foot, this`chunks, this`records, this`fences, this`top, this`topsize, this`stops
      modifies this`dv, this`dvsize, this`segs, bins
      ensures p > 0 && p !in mapped && Served(old(Now()), old(bins.cell), old(Live()), p, nb)
      ensures PagesJoin(old(segs), old(top), base, n, segs, p)
    {
      hide HeapOK, MappedOK, LayoutOK, Spared, Used, AllKept, Fresh, Listed, BinsOK, ApartFrom, Direct, LeftAlone, Zero;
      ghost var l, c := Now(), bins.cell;
      if Open({}) {
        TopPlace(l, bins.View(), dv, dvsize);
      }
      if top == 0 {
        FreshNone(segs, base, n);
        InitHeap(base, n);
        ghost var l1, c1 := Now(), bins.cell;
        p := TakeFromTop(nb);
        SparedAfter(l, c, l1, c1, Now(), bins.cell, {});
      } else {
        p := Extend(base, n, nb);
      }
      GaveServed(l, c, Now(), bins.View(), dv, dvsize, mapped, p);
    }

    /** `sys_alloc`: asks the system, for a mapping of its own if the request is large, or for more heap. */
    method SysAlloc(nb: nat, mm: Reply, tb: Reply) returns (p: int)
      requires Valid() && ((32 <= nb < WORD_RANGE && nb % 16 == 0) || nb == MAX_SIZE_T)
      requires Answers(nb, mm, tb)
      modifies this, bins
      ensures p != 0 ==> p > 0 && Served(old(Now()), old(bins.cell), old(Live()), p, nb) && mapped - {p} == old(mapped)
      ensures p == 0 ==> Valid() && Now() == old(Now()) && bins.View() == old(bins.View()) && mapped == old(mapped)
                         && dv == old(dv) && dvsize == old(dvsize)
      ensures bytes == old(bytes) && (p != 0 && p in mapped ==> Zero(bytes, p, p + mapped[p]))
      ensures p == 0 || p in mapped ==> segs == old(segs) && fences == old(fences)
      ensures p == 0 <==> !MapsDirectly(old(topsize), nb, mm) && (SegmentSize(nb) <= nb || tb.Refused?)
      ensures p != 0 ==> (p in mapped <==> MapsDirectly(old(topsize), nb, mm))
      ensures p != 0 ==> if p in mapped then p == mm.base
                         else tb.Pages? && PagesJoin(old(segs), old(top), tb.base, SegmentSize(nb), segs, p)
    {
      hide HeapOK, MappedOK, Fresh, ApartFrom, MapSize, SegmentSize, Zero, PagesJoin;
      p := 0;
      if nb >= MMAP_THRESHOLD && topsize != 0 {
        p := MmapAlloc(nb, mm);
        if p != 0 {
          return;
        }
      }
      var asize := SegmentSize(nb);
      SegmentSizeWraps(nb);
      if asize <= nb || tb.Refused? {
        return;
      }
      p := FromPages(tb.base, asize, nb);
    }

    /** Free chunks that could serve `nb` bytes, in the order `dlmalloc` tries them; 0 if it has to ask the system. */
    method FromFree(request: nat) returns (p: int, nb: nat)
      requires Valid() && request < WORD_RANGE
      modifies this`head, this`foot, this`chunks, this`top, this`topsize, this`stops, this`dv, this`dvsize, bins
      ensures nb == PaddedSize(request)
      ensures p != 0 ==> p > 0 && old(Open({})) && Gave(old(Now()), old(bins.cell), p, nb) && request < MAX_REQUEST
      ensures p == 0 ==> Now() == old(Now()) && bins.View() == old(bins.View()) && dv == old(dv) && dvsize == old(dvsize)
      ensures (p == 0 <==> Exhausted(old(FreeMemory()), nb)) && Chosen(old(FreeMemory()), nb, p)
      ensures p != 0 ==> Leaves(old(FreeMemory()), nb, p, FreeMemory())
    {
      hide HeapOK, MappedOK, LayoutOK, Spared, Used, AllKept, Listed, BinsOK, NoneFits, Smallest, RequestSize, Gave, Chosen,
           BestFitting, Leaves;
      ghost var l, v, f := Now(), bins.View(), FreeMemory();
      p := 0;
      if Open({}) {
        FreeBelow(l, v, dv, dvsize);
      } else {
        NoMembers(v, head, MAX_SIZE_T);
      }
      if request < MAX_REQUEST {
        PaddedFits(request);
      }
      if request <= MAX_SMALL_REQUEST {
        nb := RequestSize(request);
        p := FromBins(nb);
      } else if request >= MAX_REQUEST {
        nb := MAX_SIZE_T;
      } else {
        nb := RequestSize(request);
        if bins.treemap != BinMaps.ZERO {
          p := TmallocLarge(nb);
          if p != 0 {
            ChosenFit(f, nb, p);
          }
        } else if Open({}) {
          HeapParts(l, v, dv, dvsize, {});
          NoMarks(v, head, nb);
        } else {
          NoMembers(v, head, nb);
        }
      }
      if p != 0 {
        FitsSome(v, l.head, nb, p);
        return;
      }
      if nb <= dvsize {
        ChosenVictim(f, nb);
        p := FromDv(nb);
      } else {
        ChosenLast(f, nb);
        if nb < topsize {
          PlacesApart(l, v, dv, dvsize);
          p := TakeFromTop(nb);
          LeavesTop(f, nb, FreeMemory());
        }
      }
    }

    /** `dlmalloc`. */
    method Malloc(request: nat, mm: Reply, tb: Reply) returns (mem: int)
      requires Valid() && request < WORD_RANGE
      requires Answers(PaddedSize(request), mm, tb)
      modifies this, bins
      ensures mem != 0 ==> Served(old(Now()), old(bins.cell), old(Live()), mem - 16, PaddedSize(request))
      ensures mem != 0 ==> mapped - {mem - 16} == old(mapped)
      ensures mem == 0 ==> Valid() && Now() == old(Now()) && bins.View() == old(bins.View()) && Live() == old(Live())
      ensures mem == 0 <==> Starved(old(FreeMemory()), PaddedSize(request), mm, tb)
      ensures mem != 0 ==> Placed(old(FreeMemory()), old(segs), PaddedSize(request), mm, tb, segs, mem - 16)
      ensures !Exhausted(old(FreeMemory()), PaddedSize(request)) ==>
                mem != 0 && Leaves(old(FreeMemory()), PaddedSize(request), mem - 16, FreeMemory())
      ensures request >= MAX_REQUEST ==> mem == 0
      ensures bytes == old(bytes) && (mem != 0 && mem - 16 in mapped ==> Zero(bytes, mem - 16, mem - 16 + mapped[mem - 16]))
      ensures Conserved(old(Now()), Now()) || (tb.Pages? && mem != 0 && Exhausted(old(FreeMemory()), PaddedSize(request)))
    {
      hide HeapOK, MappedOK, LayoutOK, Spared, Used, AllKept, Listed, BinsOK, Exhausted, Direct, LeftAlone, PaddedSize,
           MapSize, SegmentSize, SegmentBytes, Chosen, PagesJoin, Leaves;
      ghost var l, v, dv0, dvsize0, c := Now(), bins.View(), dv, dvsize, bins.cell;
      PaddedRange(request);
      var p, nb := FromFree(request);
      if p != 0 {
        GaveServed(l, c, Now(), bins.View(), dv, dvsize, mapped, p);
        SegmentsConserved(l, v, dv0, dvsize0, Now(), bins.View(), dv, dvsize);
      } else {
        p := SysAlloc(nb, mm, tb);
        if p in mapped && l.segs != [] {
          SegmentsConserved(l, v, dv0, dvsize0, Now(), bins.View(), dv, dvsize);
        }
      }
      mem := if p == 0 then 0 else p + 16;
    }

    /** `dlfree`, below the trim threshold. */
    method Free(mem: int)
      requires Valid() && (mem != 0 ==> mem - 16 in Live())
      modifies this, bins
      ensures Valid()
      ensures mem == 0 ==> Now() == old(Now()) && bins.View() == old(bins.View()) && Live() == old(Live())
      ensures mem == 0 || mem - 16 !in old(mapped) ==> bytes == old(bytes)
      ensures mem != 0 && mem - 16 in old(mapped) ==>
                bytes == Cleared(old(bytes), mem - 16, mem - 16 + old(mapped[mem - 16]))
      ensures mem != 0 ==>
                && Live() == old(Live()) - {mem - 16}
                && LeftAlone(old(Now()), old(bins.cell), Now(), bins.cell, old(Live()) - {mem - 16})
      ensures if mem == 0 || mem - 16 in old(mapped) then FreeMemory() == old(FreeMemory())
              else Disposed(old(Now()), old(dv), old(dvsize), old(bins.members), mem - 16)
      ensures Conserved(old(Now()), Now())
    {
      hide HeapOK, MappedOK, LayoutOK, Spared, AllKept, Listed, BinsOK, LeftAlone, SegmentBytes, Disposed;
      ghost var v, dv0, dvsize0 := bins.View(), dv, dvsize;
      if mem != 0 {
        var p := mem - 16;
        ghost var l, c := Now(), bins.cell;
        LiveKind(l, mapped, p);
        if !head[p].pinuse && !head[p].cinuse {
          var psize := head[p].size + foot[p] + MMAP_FOOT_PAD;
          bytes := Cleared(bytes, p - foot[p], p - foot[p] + psize);
          mapped := mapped - {p};
          Unmapped(l, old(mapped), p);
          LeftAloneSame(l, c, old(Live()) - {p});
          UnmappedLive(l, old(mapped), p);
        } else {
          Dispose(p);
          SparedBlocks(l, c, Now(), bins.cell, {p}, mapped);
          FreedLive(l, Now(), mapped, p);
          SegmentsConserved(l, v, dv0, dvsize0, Now(), bins.View(), dv, dvsize);
        }
      }
    }

    // ----- resizing

    /** From the state with layout `l` and link fields `c`, the chunk `p` was resized in place for `nb` bytes. */
    ghost predicate Resized(l: Lay, c: Cells, p: int, nb: nat)
      reads this, bins
    {
      && Open({}) && InUse(l, p) && InUse(Now(), p) && nb <= head[p].size < nb + MIN_CHUNK_SIZE
      && Used(Now()) == Used(l)[p := head[p].size]
      && Spared(l, c, Now(), bins.cell, {p})
      && PrefixKept(l, c, Now(), bins.cell, p, Smaller(l.head[p].size, head[p].size))
    }

    /** What is free after the chunk `p` in use was cut down to `nb` bytes: a rest that makes a chunk was freed. */
    ghost predicate RestFreed(l: Lay, dv0: int, dvsize0: nat, members: set<int>, p: int, nb: nat)
      reads this, bins
    {
      p in l.head &&
      if l.head[p].size < nb + MIN_CHUNK_SIZE then
        dv == dv0 && dvsize == dvsize0 && bins.members == members && top == l.top && topsize == l.topsize
      else Disposed(SplitUsed(l, p, nb), dv0, dvsize0, members, p + nb)
    }

    /** What is free after the chunk `p` in use was resized in place: it grew into top, the designated victim or a binned chunk. */
    ghost predicate ResizedStock(l: Lay, dv0: int, dvsize0: nat, members: set<int>, p: int, nb: nat)
      reads this, bins
    {
      p in l.head && End(l, p) in l.head &&
      var s, next := l.head[p].size, End(l, p);
      if nb <= s then RestFreed(l, dv0, dvsize0, members, p, nb)
      else if next == l.top then
        top == p + nb && topsize == s + l.topsize - nb && dv == dv0 && dvsize == dvsize0 && bins.members == members
      else if next == dv0 then
        && top == l.top && topsize == l.topsize && bins.members == members
        && (if s + dvsize0 < nb + MIN_CHUNK_SIZE then dv == 0 && dvsize == 0 else dv == p + nb && dvsize == s + dvsize0 - nb)
      else End(l, next) in l.head && RestFreed(Absorb(l, p), dv0, dvsize0, members - {next}, p, nb)
    }

    /** `set_inuse` twice: cuts the chunk `p` in use in two. */
    method CutUsed(p: int, nb: nat, ghost loose: set<int>) returns (r: int)
      requires Open(loose) && InUse(Now(), p) && p !in records && 32 <= nb && nb + 32 <= head[p].size && nb % 16 == 0
      modifies this`head, this`chunks
      ensures r == p + nb && Now() == SplitUsed(old(Now()), p, nb) && Open(loose)
      ensures InUse(Now(), r) && r !in records && !InUse(old(Now()), r)
      ensures Used(Now()) == Used(old(Now()))[p := nb][r := old(head[p].size) - nb]
      ensures Spared(old(Now()), bins.cell, Now(), bins.cell, {p})
      ensures PrefixKept(old(Now()), bins.cell, Now(), bins.cell, p, nb)
    {
      hide HeapOK, MappedOK, LayoutOK, Spared, Used, AllKept, PayloadKept, CellRange;
      ghost var l, v := Now(), bins.View();
      SplitUsedHeap(l, v, dv, dvsize, loose, p, nb);
      UsedSplitUsed(l, v, dv, dvsize, loose, p, nb);
      var rsize := head[p].size - nb;
      r := p + nb;
      head := head[p := Head(nb, head[p].pinuse, true)];
      head := head[r := Head(rsize, true, true)];
      chunks := chunks + {r};
      assert Now() == SplitUsed(l, p, nb);
      LayoutSpared(l, Now(), bins.cell, {p});
      MappedStays(l, Now(), mapped, {p});
      CellRangeSame(bins.cell, p, p + nb);
    }

    /** `set_inuse`: the chunk `p` in use swallows the loose chunk after it. */
    method AbsorbNext(p: int, ghost loose: set<int>)
      requires Open(loose) && InUse(Now(), p) && p !in records && End(Now(), p) in loose
      modifies this`head, this`chunks
      ensures Open(loose - {old(End(Now(), p))}) && InUse(Now(), p)
      ensures old(End(Now(), p)) in old(head) && End(old(Now()), old(End(Now(), p))) in old(head) && Now() == Absorb(old(Now()), p)
      ensures old(End(Now(), p)) in old(head) && head[p].size == old(head[p].size) + old(head[End(Now(), p)].size)
      ensures Used(Now()) == Used(old(Now()))[p := head[p].size]
      ensures Spared(old(Now()), bins.cell, Now(), bins.cell, {p})
      ensures PrefixKept(old(Now()), bins.cell, Now(), bins.cell, p, old(head[p].size))
      ensures End(Now(), p) in chunks && End(Now(), p) in head && head[End(Now(), p)].cinuse
    {
      hide HeapOK, MappedOK, LayoutOK, Spared, Used, AllKept, PayloadKept, CellRange;
      ghost var l, v := Now(), bins.View();
      AbsorbHeap(l, v, dv, dvsize, loose, p);
      UsedAbsorb(l, v, dv, dvsize, loose, p);
      AbsorbEnd(l, v, dv, dvsize, loose, p);
      var n := p + head[p].size;
      var e := n + head[n].size;
      head := head[p := Head(head[p].size + head[n].size, head[p].pinuse, true)];
      head := head[e := head[e].(pinuse := true)];
      chunks := chunks - {n};
      assert Now() == Absorb(l, p);
      LayoutSpared(l, Now(), bins.cell, {p});
      MappedStays(l, Now(), mapped, {p});
      CellRangeSame(bins.cell, p, n);
    }

    /** Shrinks the chunk `p` in use to `nb` bytes, if the rest makes a chunk. */
    method Shrink(p: int, nb: nat)
      requires Open({}) && InUse(Now(), p) && p !in records && 32 <= nb <= head[p].size && nb % 16 == 0
      modifies this`head, this`foot, this`chunks, this`top, this`topsize, this`stops, this`dv, this`dvsize, bins
      ensures Resized(old(Now()), old(bins.cell), p, nb)
      ensures RestFreed(old(Now()), old(dv), old(dvsize), old(bins.members), p, nb)
    {
      hide HeapOK, MappedOK, LayoutOK, Spared, Used, AllKept, PrefixKept, Disposed;
      ghost var l, c := Now(), bins.cell;
      var rsize := head[p].size - nb;
      if rsize >= MIN_CHUNK_SIZE {
        var r := CutUsed(p, nb, {});
        ghost var l1 := Now();
        Dispose(r);
        ShrinkDone(l, c, l1, c, Now(), bins.cell, p, r, nb, rsize);
      } else {
        SameDone(l, c, p);
      }
    }

    /** Grows the chunk `p` in use into top. */
    method GrowIntoTopOf(p: int, nb: nat)
      requires Open({}) && InUse(Now(), p) && p !in records && End(Now(), p) == top
      requires nb % 16 == 0 && head[p].size < nb < head[p].size + topsize
      modifies this`head, this`top, this`topsize, this`stops
      ensures Resized(old(Now()), bins.cell, p, nb)
      ensures top == p + nb && topsize == old(head[p].size) + old(topsize) - nb
    {
      hide HeapOK, MappedOK, LayoutOK, Spared, Used, AllKept, PayloadKept, CellRange;
      ghost var l, v := Now(), bins.View();
      GrowIntoTopHeap(l, v, dv, dvsize, {}, p, nb);
      UsedGrowIntoTop(l, v, dv, dvsize, {}, p, nb);
      CellRangeSame(bins.cell, p, top);
      var newsize := head[p].size + topsize;
      var newtopsize := newsize - nb;
      var newtop := p + nb;
      head := head[p := Head(nb, head[p].pinuse, true)][newtop := Head(newtopsize, true, false)];
      top := newtop;
      topsize := newtopsize;
      stops := stops[0 := newtop];
      assert Now() == GrowIntoTop(l, p, nb);
      LayoutSpared(l, Now(), bins.cell, {p});
      MappedStays(l, Now(), mapped, {p});
    }

    /** Cuts the end of the chunk `p` in use off and makes it the designated victim. */
    method RestToDv(p: int, nb: nat, dsize: nat)
      requires Open({}) && InUse(Now(), p) && p !in records && dv == 0 && dvsize == 0
      requires 32 <= nb && nb % 16 == 0 && head[p].size == nb + dsize && dsize >= MIN_CHUNK_SIZE
      requires End(Now(), p) in chunks && End(Now(), p) in head && head[End(Now(), p)].cinuse
      modifies this`head, this`foot, this`chunks, this`dv, this`dvsize
      ensures Resized(old(Now()), bins.cell, p, nb) && dv == p + nb && dvsize == dsize
    {
      hide HeapOK, MappedOK, LayoutOK, Spared, Used, AllKept, PrefixKept, Gathered, Run;
      ghost var l, v, c := Now(), bins.View(), bins.cell;
      var r := CutUsed(p, nb, {});
      ghost var l1 := Now();
      RestEnd(l, l1, p, nb);
      OpenParts(l1, v, 0, 0, {}, r);
      RunStart(l1, r);
      GatheredRun(l1, 0, {}, r, r + dsize, r, {r});
      SetFree(r, r + dsize, {}, r);
      ShrinkDone(l, c, l1, c, Now(), c, p, r, nb, dsize);
      RestFree(r, r + dsize);
      DvSet(Now(), v, {r}, r);
      assert {r} - {r} == {};
      dv := r;
      dvsize := dsize;
    }

    /** Grows the chunk `p` in use into the designated victim after it; a rest stays the victim. */
    method GrowIntoDv(p: int, nb: nat)
      requires Open({}) && InUse(Now(), p) && p !in records && End(Now(), p) == dv && dv != 0
      requires nb % 16 == 0 && head[p].size < nb <= head[p].size + dvsize && 32 <= nb
      modifies this`head, this`foot, this`chunks, this`dv, this`dvsize
      ensures Resized(old(Now()), bins.cell, p, nb)
      ensures var rest := old(head[p].size) + old(dvsize) - nb;
              if rest < MIN_CHUNK_SIZE then dv == 0 && dvsize == 0 else dv == p + nb && dvsize == rest
    {
      hide HeapOK, MappedOK, LayoutOK, Spared, Used, AllKept, PrefixKept;
      ghost var l, v, c := Now(), bins.View(), bins.cell;
      DvNonzero(l, v, dv, dvsize);
      DvDropped(l, v, dv, dvsize, {});
      assert {} + {dv} == {dv};
      var dsize := head[p].size + dvsize - nb;
      ghost var n := dv;
      dv := 0;
      dvsize := 0;
      AbsorbNext(p, {n});
      assert {n} - {n} == {};
      ghost var l1 := Now();
      if dsize >= MIN_CHUNK_SIZE {
        RestToDv(p, nb, dsize);
      } else {
        SameDone(l1, c, p);
      }
      GrowDone(l, c, l1, c, Now(), c, p);
    }

    /** `try_realloc_chunk` for a chunk of a segment. */
    method TryRealloc(p: int, nb: nat) returns (ok: bool)
      requires Open({}) && InUse(Now(), p) && p !in records && 32 <= nb < WORD_RANGE && nb % 16 == 0
      modifies this`head, this`foot, this`chunks, this`top, this`topsize, this`stops, this`dv, this`dvsize, bins
      ensures ok <==> RoomInPlace(old(Now()), p, nb)
      ensures ok ==> Resized(old(Now()), old(bins.cell), p, nb)
      ensures ok ==> ResizedStock(old(Now()), old(dv), old(dvsize), old(bins.members), p, nb)
      ensures !ok ==> Now() == old(Now()) && bins.View() == old(bins.View()) && dv == old(dv) && dvsize == old(dvsize)
    {
      hide HeapOK, MappedOK, LayoutOK, Spared, Used, AllKept, PrefixKept, Listed, BinsOK, RoomInPlace, Disposed,
           SplitUsed, Absorb;
      ghost var l, v, c := Now(), bins.View(), bins.cell;
      OpenParts(l, v, dv, dvsize, {}, p);
      NextChunk(l, v, dv, dvsize, {}, p);
      RoomTests(l, v, dv, dvsize, p, nb);
      ok := false;
      var oldsize := head[p].size;
      var next := p + oldsize;
      if oldsize >= nb {
        Shrink(p, nb);
        ok := true;
      } else if next == top {
        if oldsize + topsize > nb {
          GrowIntoTopOf(p, nb);
          ok := true;
        }
      } else if next == dv {
        if oldsize + dvsize >= nb {
          GrowIntoDv(p, nb);
          ok := true;
        }
      } else if !head[next].cinuse {
        FreeWhere(l, v, dv, dvsize, {}, next);
        var nextsize := head[next].size;
        if oldsize + nextsize >= nb {
          Unlink(next, nextsize, {});
          assert {} + {next} == {next};
          ghost var c1 := bins.cell;
          AbsorbNext(p, {next});
          assert {next} - {next} == {};
          ghost var l2 := Now();
          Shrink(p, nb);
          GrowBinned(l, c, c1, l2, Now(), bins.cell, p);
          ok := true;
        }
      }
    }

    // ----- calloc and realloc

    /** `dlcalloc`. */
    method Calloc(n: nat, size: nat, mm: Reply, tb: Reply) returns (mem: int)
      requires Valid() && n < WORD_RANGE && size < WORD_RANGE && Answers(PaddedSize(CallocRequest(n, size)), mm, tb)
      modifies this, bins
      ensures mem == 0 <==> Product(n, size) >= MAX_REQUEST || Starved(old(FreeMemory()), PaddedSize(Product(n, size)), mm, tb)
      ensures mem == 0 ==> Valid() && Now() == old(Now()) && Live() == old(Live()) && bytes == old(bytes)
      ensures mem != 0 ==>
                && Placed(old(FreeMemory()), old(segs), PaddedSize(Product(n, size)), mm, tb, segs, mem - 16)
                && Served(old(Now()), old(bins.cell), old(Live()), mem - 16, PaddedSize(Product(n, size)))
                && (forall a :: mem <= a < mem + Product(n, size) ==> ByteAt(bytes, a) == 0)
                && ContentsKept(old(bytes), bytes, old(Live()))
    {
      hide HeapOK, MappedOK, Used, Direct, LeftAlone, PaddedSize, MapSize, SegmentSize, CallocRequest, NoneFits, Product,
           ContentsKept, ByteAt, Cleared, Zero, Answers, Starved, Placed, Exhausted, Leaves;
      CallocExact(n, size);
      var req := CallocRequest(n, size);
      mem := Malloc(req, mm, tb);
      if mem != 0 {
        PaddedFits(req);
        var p := mem - 16;
        LiveKind(Now(), mapped, p);
        if head[p].pinuse || head[p].cinuse {
          bytes := Cleared(bytes, mem, mem + req);
        }
        ClearedKept(Now(), bins.View(), dv, dvsize, mapped, old(Live()), old(bytes), bytes, p, req);
      }
    }

    /** The system's promise for a mapping that it resizes, and perhaps moves: room that is free but for the mapping. */
    ghost predicate Remaps(r: Reply, p: int, n: nat)
      reads this
    {
      r.Pages? ==> Fresh(segs, r.base, n) && ApartFrom(mapped - {p}, r.base, n)
    }

    /** The mapping of the block `p` became that of `newp`, with its contents; other blocks are as they were. */
    ghost predicate Remapped(l: Lay, live: map<int, int>, mapped0: map<int, int>, bytes0: map<int, int>, p: int, newp: int)
      reads this, bins
    {
      && Open({}) && newp > 0 && newp % 16 == 0 && newp !in live - {p} && p in mapped0 && newp in mapped
      && Live() == (live - {p})[newp := mapped[newp] - MMAP_FOOT_PAD]
      && LeftAlone(l, bins.cell, Now(), bins.cell, live - {p})
      && ContentsKept(bytes0, bytes, live - {p})
      && SameBytes(bytes0, p, bytes, newp, Smaller(mapped0[p], mapped[newp]))
    }

    /** The system moved the mapping of `p` to `n` bytes at `newp`. */
    method FinishRemap(p: int, newp: int, n: nat)
      requires Open({}) && p in mapped && Fresh(segs, newp, n) && ApartFrom(mapped - {p}, newp, n)
      modifies this`head, this`foot, this`mapped, this`bytes
      ensures Remapped(old(Now()), old(Live()), old(mapped), old(bytes), p, newp) && mapped[newp] == n
    {
      hide HeapOK, MappedOK, Used, LeftAlone, Fresh, ApartFrom, Direct, ContentsKept, Moved, ByteAt, SameBytes;
      ghost var l, v := Now(), bins.View();
      MappedAt(l, mapped, p);
      FreshSize(segs, newp, n);
      PagesAligned(0, newp);
      Unmapped(l, mapped, p);
      MapPagesHeap(l, v, dv, dvsize, mapped - {p}, newp, n);
      MapServed(mapped - {p}, newp, n, Used(l));
      UnmappedLive(l, mapped, p);
      MovedKept(l, v, dv, dvsize, mapped, bytes, p, newp, n);
      MovedPrefix(bytes, p, mapped[p], newp, n);
      bytes := Moved(bytes, p, head[p].size + MMAP_FOOT_PAD, newp, n);
      var psize := n - MMAP_FOOT_PAD;
      foot := foot[newp := foot[p]];
      head := head[newp := Head(psize, false, false)][newp + psize := FENCEPOST]
                  [newp + psize + 8 := Head(0, false, false)];
      mapped := (mapped - {p})[newp := n];
      assert Now() == MapPages(l, newp, n);
    }

    /** `mmap_resize`: keeps a mapping that fits well enough, or has the system resize it. */
    method MmapResize(p: int, nb: nat, mr: Reply) returns (newp: int)
      requires Open({}) && p in mapped && 32 <= nb && nb + 112 <= WORD_RANGE && Remaps(mr, p, MapSize(nb))
      modifies this`head, this`foot, this`mapped, this`bytes
      ensures newp == if IsSmall(nb) then 0 else if KeepsMapping(old(mapped[p]), nb) then p
                      else if mr.Pages? then mr.base else 0
      ensures newp == 0 ==> Now() == old(Now()) && mapped == old(mapped) && bytes == old(bytes)
      ensures newp != 0 ==>
                && Remapped(old(Now()), old(Live()), old(mapped), old(bytes), p, newp)
                && nb + MMAP_FOOT_PAD <= mapped[newp]
    {
      hide HeapOK, MappedOK, Used, LeftAlone, Fresh, ApartFrom, MapSize, Direct, ContentsKept;
      ghost var l, v := Now(), bins.View();
      MappedAt(l, mapped, p);
      newp := 0;
      if IsSmall(nb) {
        return;
      }
      var oldsize := head[p].size;
      FreshSize(segs, p, mapped[p]);
      PagesAligned(0, p);
      MapResized(nb);
      if oldsize >= nb + 8 && oldsize - nb <= 2 * GRANULARITY {
        KeptMapping(l, v, mapped, bytes, p);
        newp := p;
        return;
      }
      var newsize := MapSize(nb);
      if mr.Pages? {
        FreshSize(segs, mr.base, newsize);
        newp := mr.base;
        FinishRemap(p, newp, newsize);
      }
    }

    /**
     * The block `p` of the state given by the first four arguments became the block `q` of at least `nb` bytes. It holds
     * the first `n` bytes of `p`, and no other block was touched.
     */
    ghost predicate Replaced(l: Lay, c: Cells, live: map<int, int>, bytes0: map<int, int>, p: int, q: int, nb: nat, n: int)
      reads this, bins
    {
      && Open({}) && q > 0 && q % 16 == 0 && q !in live - {p} && q in Live() && nb <= Live()[q]
      && Live() == (live - {p})[q := Live()[q]]
      && LeftAlone(l, c, Now(), bins.cell, live - {p})
      && ContentsKept(bytes0, bytes, live - {p})
      && SameBytes(bytes0, p + 16, bytes, q + 16, n)
    }

    /** The bytes a caller may use of the block `p`. */
    ghost function Usable(p: int): (n: int)
      requires p in Live()
      reads this
    {
      Live()[p] - (if p in mapped then 16 else 8)
    }

    /** `try_realloc_chunk`. */
    method Resize(p: int, nb: nat, mr: Reply, ghost request: nat) returns (newp: int)
      requires Open({}) && p in Live() && 32 <= nb && nb % 16 == 0 && nb + 112 <= WORD_RANGE && request + 8 <= nb
      requires p in mapped ==> Remaps(mr, p, MapSize(nb))
      modifies this`head, this`foot, this`chunks, this`top, this`topsize, this`stops, this`dv, this`dvsize
      modifies this`mapped, this`bytes, bins
      ensures newp == ResizedAt(old(Now()), old(mapped), p, nb, mr)
      ensures newp == 0 ==>
                && Now() == old(Now()) && bins.View() == old(bins.View()) && dv == old(dv) && dvsize == old(dvsize)
                && mapped == old(mapped) && bytes == old(bytes)
      ensures newp != 0 ==>
                && newp > 0
                && Replaced(old(Now()), old(bins.cell), old(Live()), old(bytes), p, newp, nb, Smaller(old(Usable(p)), request))
                && (p !in old(mapped) ==>
                      && newp == p && bytes == old(bytes) && p in old(head) && p in head
                      && ResizedStock(old(Now()), old(dv), old(dvsize), old(bins.members), p, nb)
                      && PrefixKept(old(Now()), old(bins.cell), Now(), bins.cell, p, Smaller(old(head[p].size), head[p].size)))
    {
      hide HeapOK, MappedOK, LayoutOK, Used, Direct, LeftAlone, Fresh, ApartFrom, MapSize, Spared, PrefixKept, RoomInPlace,
           ResizedStock;
      ghost var l, c, live := Now(), bins.cell, Live();
      LiveKind(l, mapped, p);
      LiveSizes(l, mapped, p);
      if !head[p].pinuse && !head[p].cinuse {
        newp := MmapResize(p, nb, mr);
        if newp != 0 {
          RemappedPrefix(old(bytes), p, old(mapped[p]), bytes, newp, mapped[newp], nb, request);
          LiveSizes(Now(), mapped, newp);
        }
      } else {
        var ok := TryRealloc(p, nb);
        newp := if ok then p else 0;
        if ok {
          OpenParts(l, old(bins.View()), old(dv), old(dvsize), {}, p);
          SparedBlocks(l, c, Now(), bins.cell, {p}, mapped);
          ResizedLive(l, Now(), mapped, p);
          SameContents(bytes, live - {p}, p + 16, Smaller(old(Usable(p)), request));
        }
      }
    }

    /** Copies the contents of the block `p` to the block `q` and frees `p`. */
    method CopyAndFree(p: int, q: int, request: nat)
      requires Open({}) && p in Live() && q in Live() && p != q && request + 8 <= Live()[q]
      modifies this, bins
      ensures Open({}) && Live() == old(Live()) - {p}
      ensures LeftAlone(old(Now()), old(bins.cell), Now(), bins.cell, old(Live()) - {p})
      ensures ContentsKept(old(bytes), bytes, old(Live()) - {p} - {q})
      ensures SameBytes(old(bytes), p + 16, bytes, q + 16, Smaller(old(Usable(p)), request))
    {
      hide HeapOK, MappedOK, LayoutOK, Used, Direct, LeftAlone, Copied, Cleared, ContentsKept, SameBytes;
      ghost var l, v, live, bytes0, mapped0, dv0, dvsize0 := Now(), bins.View(), Live(), bytes, mapped, dv, dvsize;
      LiveKind(l, mapped, p);
      LiveSizes(l, mapped, p);
      UsableRoom(l, v, dv, dvsize, mapped, p);
      var oc := head[p].size - (if !head[p].pinuse && !head[p].cinuse then 16 else 8);
      var n := if oc < request then oc else request;
      bytes := Copied(bytes, bytes, q + 16, p + 16, n);
      CopyDone(l, v, dv, dvsize, mapped, bytes0, p, q, n);
      ghost var bytes1 := bytes;
      assert Now() == l && Live() == live;
      var mem := p + 16;
      assert mem - 16 == p;
      Free(mem);
      FreeContents(l, v, dv0, dvsize0, mapped0, bytes1, bytes, p);
      NotBlank(Now(), mapped, q);
      CopyThenFree(live, bytes0, bytes1, bytes, p, q, n);
    }

    /**
     * Moves the block `p` to a new one: allocate, copy, free. From the state given by `l1` and `c1`, in which the copy is
     * made, to the end no word of the new block or of another one is written, and none of an old block before that.
     */
    method MoveBlock(p: int, request: nat, mm: Reply, tb: Reply) returns (mem: int, ghost l1: Lay, ghost c1: Cells)
      requires Open({}) && p in Live() && request < MAX_REQUEST
      requires Answers(PaddedSize(request), mm, tb)
      modifies this, bins
      ensures mem == 0 ==> Valid() && Now() == old(Now()) && Live() == old(Live()) && bytes == old(bytes)
      ensures mem == 0 <==> Starved(old(FreeMemory()), PaddedSize(request), mm, tb)
      ensures mem != 0 ==> Placed(old(FreeMemory()), old(segs), PaddedSize(request), mm, tb, l1.segs, mem - 16)
      ensures mem != 0 ==>
                && Replaced(old(Now()), old(bins.cell), old(Live()), old(bytes), p, mem - 16, PaddedSize(request),
                            Smaller(old(Usable(p)), request))
                && mem - 16 != p
                && LeftAlone(old(Now()), old(bins.cell), l1, c1, old(Live()))
                && LeftAlone(l1, c1, Now(), bins.cell, Live())
    {
      hide HeapOK, MappedOK, LayoutOK, Used, Direct, LeftAlone, Fresh, ApartFrom, MapSize, SegmentSize, PaddedSize, NoneFits,
           ContentsKept, SameBytes, Zero, Starved, Placed, Exhausted, Leaves;
      ghost var l, c, live := Now(), bins.cell, Live();
      mem := Malloc(request, mm, tb);
      l1, c1 := Now(), bins.cell;
      if mem != 0 {
        ghost var q := mem - 16;
        PaddedFits(request);
        assert p in mapped <==> p in old(mapped);
        CopyAndFree(p, mem - 16, request);
        LeftAloneTrans(l, c, l1, c1, Now(), bins.cell, live, live[q := Live()[q]] - {p}, live - {p});
        MovedLive(live, p, q, Live()[q]);
      }
    }

    /** `dlrealloc`. When it moves a block, it copies its contents in the state given by `l1` and `c1`. */
    method Realloc(oldmem: int, request: nat, mm: Reply, tb: Reply, mr: Reply)
      returns (mem: int, ghost l1: Lay, ghost c1: Cells)
      requires Valid() && request < WORD_RANGE && Answers(PaddedSize(request), mm, tb)
      requires oldmem != 0 ==> oldmem - 16 in Live()
      requires oldmem != 0 && oldmem - 16 in mapped ==> Remaps(mr, oldmem - 16, MapSize(PaddedSize(request)))
      modifies this, bins
      ensures mem == 0 ==> Valid() && Now() == old(Now()) && Live() == old(Live()) && bytes == old(bytes)
      ensures oldmem == 0 && mem != 0 ==>
                Served(old(Now()), old(bins.cell), old(Live()), mem - 16, PaddedSize(request)) && bytes == old(bytes)
      ensures oldmem != 0 && mem != 0 ==>
                Replaced(old(Now()), old(bins.cell), old(Live()), old(bytes), oldmem - 16, mem - 16, PaddedSize(request),
                         Smaller(old(Usable(oldmem - 16)), request))
      ensures oldmem != 0 && mem == oldmem && oldmem - 16 !in old(mapped) ==>
                && bytes == old(bytes) && oldmem - 16 in old(head) && oldmem - 16 in head
                && ResizedStock(old(Now()), old(dv), old(dvsize), old(bins.members), oldmem - 16, PaddedSize(request))
                && PrefixKept(old(Now()), old(bins.cell), Now(), bins.cell, oldmem - 16,
                              Smaller(old(head[oldmem - 16].size), head[oldmem - 16].size))
      ensures oldmem != 0 && mem != 0 && mem != oldmem && oldmem - 16 !in old(mapped) ==>
                && LeftAlone(old(Now()), old(bins.cell), l1, c1, old(Live()))
                && LeftAlone(l1, c1, Now(), bins.cell, Live())
      ensures oldmem == 0 || ResizedAt(old(Now()), old(mapped), oldmem - 16, PaddedSize(request), mr) == 0 ==>
                && (mem == 0 <==> request >= MAX_REQUEST || Starved(old(FreeMemory()), PaddedSize(request), mm, tb))
                && (oldmem != 0 ==> mem != oldmem)
                && (mem != 0 ==> Placed(old(FreeMemory()), old(segs), PaddedSize(request), mm, tb, l1.segs, mem - 16))
      ensures oldmem != 0 && ResizedAt(old(Now()), old(mapped), oldmem - 16, PaddedSize(request), mr) != 0 ==>
                mem == if request >= MAX_REQUEST then 0
                       else ResizedAt(old(Now()), old(mapped), oldmem - 16, PaddedSize(request), mr) + 16
    {
      hide HeapOK, MappedOK, Used, Direct, NoneFits, RequestSize, MapSize, Answers, Remaps, Served, Replaced, PrefixKept,
           LeftAlone, ResizedAt, Starved, Placed, Exhausted, ResizedStock, Leaves;
      mem, l1, c1 := 0, Now(), bins.cell;
      if oldmem == 0 {
        mem := Malloc(request, mm, tb);
        l1, c1 := Now(), bins.cell;
      } else if request < MAX_REQUEST {
        PaddedRoom(request);
        var nb := RequestSize(request);
        var oldp := oldmem - 16;
        NotBlank(Now(), mapped, oldp);
        ghost var live := Live();
        var newp := Resize(oldp, nb, mr, request);
        if newp != 0 {
          mem := newp + 16;
        } else {
          mem, l1, c1 := MoveBlock(oldp, request, mm, tb);
        }
      }
    }

    // ----- walking and emptying the heap

    /**
     * The inner loop of `traverse_and_check`: walks segment `i` chunk by chunk. The chunks found are all the chunks of the
     * segment, each starts where the one before ends, and their sizes add up to the segment up to top or the fenceposts.
     */
    method TraverseSegment(i: nat) returns (sum: nat, ghost cs: seq<int>)
      requires Open({}) && i < |segs|
      ensures |stops| == |segs| && Tiling(Now(), segs[i].base, stops[i], cs)
      ensures sum == stops[i] - segs[i].base == SumSizes(Now(), SegmentChunks(Now(), i))
      ensures i == 0 ==> sum + topsize + TOP_FOOT_SIZE == segs[0].size
      ensures forall p :: p in cs <==> p in chunks && segs[i].base <= p < segs[i].base + segs[i].size
    {
      hide HeapOK, MappedOK, LayoutOK, Used, SumSizes;
      ghost var l := Now();
      WalkStart(l, bins.View(), dv, dvsize, i);
      var q := segs[i].base;
      sum, cs := 0, [];
      while segs[i].base <= q < segs[i].base + segs[i].size && q != top && head[q] != FENCEPOST
        invariant Walking(l, i, q, cs) && sum == q - segs[i].base
        decreases stops[i] - q
      {
        WalkPlace(l, bins.View(), dv, dvsize, i, q);
        WalkStep(l, bins.View(), dv, dvsize, i, q, cs);
        sum := sum + head[q].size;
        cs := cs + [q];
        q := q + head[q].size;
      }
      WalkPlace(l, bins.View(), dv, dvsize, i, q);
      WalkDone(l, bins.View(), dv, dvsize, i, cs);
      WalkSum(l, bins.View(), dv, dvsize, i, cs);
    }

    /** Frees every block, in the order given. */
    method FreeAll(order: seq<int>)
      requires Valid() && (forall i, j :: 0 <= i < j < |order| ==> order[i] != order[j])
      requires Live().Keys == From(order, 0)
      modifies this, bins
      ensures Valid() && Live() == map[] && Conserved(old(Now()), Now())
      ensures |old(segs)| == 1 ==>
                && chunks == {} && top == segs[0].base && topsize + TOP_FOOT_SIZE == segs[0].size
                && dv == 0 && dvsize == 0 && bins.members == {}
                && bins.smallmap == BinMaps.ZERO && bins.treemap == BinMaps.ZERO
    {
      hide HeapOK, MappedOK, Used, Direct, LeftAlone, Cleared, From, SegmentBytes;
      var i := 0;
      while i < |order|
        invariant 0 <= i <= |order| && Valid() && Live().Keys == From(order, i) && Conserved(old(Now()), Now())
      {
        ghost var p := order[i];
        FromStep(order, i);
        NotBlank(Now(), mapped, p);
        LiveNonzero(Now(), bins.View(), dv, dvsize, mapped, p);
        var mem := order[i] + 16;
        assert mem - 16 == p;
        Free(mem);
        i := i + 1;
      }
      FromEnd(order);
      assert Live() == map[];
      if |segs| == 1 {
        Coalesced(Now(), bins.View(), dv, dvsize, mapped);
      }
    }
  }
}
