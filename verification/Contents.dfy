/** The bytes that callers keep in their blocks. */
module Contents {
  import opened Words
  import opened Bytes
  import opened BinIndex
  import BinMaps
  import opened Memory
  import opened BinStore
  import opened Bins
  import opened Layout
  import opened Segments
  import opened Growth
  import opened NewSegment
  import opened Payload
  import opened Books
  import opened Blocks
  import opened Fit
  import opened Requests
  import opened HeapSteps

  ghost predicate Zero(bytes: map<int, int>, lo: int, hi: int) {
    forall a :: lo <= a < hi ==> a !in bytes
  }

  /** The bytes of [lo, hi) set to zero. */
  function Cleared(bytes: map<int, int>, lo: int, hi: int): (m: map<int, int>) {
    map a | a in bytes && !(lo <= a < hi) :: bytes[a]
  }

  /** `n` bytes copied from `src` in `from` to `dst`. */
  function Copied(bytes: map<int, int>, from: map<int, int>, dst: int, src: int, n: nat): (m: map<int, int>) {
    if n == 0 then bytes else Copied(bytes, from, dst, src, n - 1)[dst + n - 1 := ByteAt(from, src + n - 1)]
  }

  lemma {:induction false} CopiedAt(bytes: map<int, int>, from: map<int, int>, dst: int, src: int, n: nat, a: int)
    ensures ByteAt(Copied(bytes, from, dst, src, n), a) ==
            if dst <= a < dst + n then ByteAt(from, src + (a - dst)) else ByteAt(bytes, a)
  {
    if n > 0 {
      CopiedAt(bytes, from, dst, src, n - 1, a);
    }
  }

  /** The payload of the given blocks reads as before. */
  ghost predicate ContentsKept(bytes: map<int, int>, bytes': map<int, int>, blocks: map<int, int>) {
    forall p, a :: p in blocks && p + 16 <= a < p + blocks[p] + 8 ==> ByteAt(bytes', a) == ByteAt(bytes, a)
  }

  /** Blocks do not overlap. */
  lemma BlocksApart(l: Lay, v: BinView, dv: int, dvsize: nat, mapped: map<int, int>, p: int, q: int)
    requires HeapOK(l, v, dv, dvsize, {}) && MappedOK(l, mapped) && p < q
    requires p in Used(l) + Direct(mapped) && q in Used(l) + Direct(mapped)
    ensures p + (Used(l) + Direct(mapped))[p] <= q
  {
    hide HeapOK, LayoutOK, BinsOK, Listed, Fresh, InSegment;
    HeapParts(l, v, dv, dvsize, {});
    LiveKind(l, mapped, p);
    LiveKind(l, mapped, q);
    if p in mapped {
      assert MapOK(l, p, mapped[p]);
      if q !in mapped {
        ChunkInSegment(l, q);
        FreshSize(l.segs, p, mapped[p]);
        if q < p + mapped[p] {
          FreshOutside(l.segs, p, mapped[p], q);
        }
      }
    } else if q in mapped {
      assert MapOK(l, q, mapped[q]);
      if q < End(l, p) {
        BetweenInSegment(l, p, q);
        FreshSize(l.segs, q, mapped[q]);
        FreshOutside(l.segs, q, mapped[q], q);
      }
    } else {
      ChunksApart(l, p, q);
    }
  }

  /** An address is in the payload of one block only. */
  lemma PayloadsApart(l: Lay, v: BinView, dv: int, dvsize: nat, mapped: map<int, int>, p: int, q: int, a: int)
    requires HeapOK(l, v, dv, dvsize, {}) && MappedOK(l, mapped) && p != q
    requires p in Used(l) + Direct(mapped) && q in Used(l) + Direct(mapped)
    requires p + 16 <= a < p + (Used(l) + Direct(mapped))[p] + 8
    ensures !(q + 16 <= a < q + (Used(l) + Direct(mapped))[q] + 8)
  {
    hide HeapOK, MappedOK, Used, Direct;
    if p < q {
      BlocksApart(l, v, dv, dvsize, mapped, p, q);
    } else {
      BlocksApart(l, v, dv, dvsize, mapped, q, p);
    }
  }

  /** Bytes changed only in the payload of one block leave the other blocks as they were. */
  lemma InsideKept(l: Lay, v: BinView, dv: int, dvsize: nat, mapped: map<int, int>, live: map<int, int>,
                   bytes: map<int, int>, bytes': map<int, int>, p: int, n: nat)
    requires HeapOK(l, v, dv, dvsize, {}) && MappedOK(l, mapped)
    requires p in Used(l) + Direct(mapped) && p !in live && n + 8 <= (Used(l) + Direct(mapped))[p]
    requires forall q :: q in live ==> q in Used(l) + Direct(mapped) && (Used(l) + Direct(mapped))[q] == live[q]
    requires forall a :: !(p + 16 <= a < p + 16 + n) ==> ByteAt(bytes', a) == ByteAt(bytes, a)
    ensures ContentsKept(bytes, bytes', live)
  {
    hide HeapOK, MappedOK, Used, Direct, ByteAt;
    forall q, a | q in live && q + 16 <= a < q + live[q] + 8
      ensures ByteAt(bytes', a) == ByteAt(bytes, a)
    {
      if p + 16 <= a < p + 16 + n {
        PayloadsApart(l, v, dv, dvsize, mapped, p, q, a);
      }
    }
  }

  lemma ClearedKept(l: Lay, v: BinView, dv: int, dvsize: nat, mapped: map<int, int>, live: map<int, int>,
                    bytes: map<int, int>, bytes': map<int, int>, p: int, req: nat)
    requires HeapOK(l, v, dv, dvsize, {}) && MappedOK(l, mapped)
    requires p in Used(l) + Direct(mapped) && p !in live && req + 8 <= (Used(l) + Direct(mapped))[p]
    requires Used(l) + Direct(mapped) == live[p := (Used(l) + Direct(mapped))[p]]
    requires bytes' == (if p in mapped then bytes else Cleared(bytes, p + 16, p + 16 + req))
    requires p in mapped ==> Zero(bytes, p, p + mapped[p])
    ensures forall a :: p + 16 <= a < p + 16 + req ==> ByteAt(bytes', a) == 0
    ensures ContentsKept(bytes, bytes', live)
  {
    hide HeapOK, MappedOK, Used, ContentsKept;
    InsideKept(l, v, dv, dvsize, mapped, live, bytes, bytes', p, req);
  }

  /** The contents of a mapping of `n` bytes at `src`, moved to `n'` bytes at `dst`. */
  function Moved(bytes: map<int, int>, src: int, n: nat, dst: int, n': nat): (m: map<int, int>) {
    Copied(Cleared(Cleared(bytes, src, src + n), dst, dst + n'), bytes, dst, src, Smaller(n, n'))
  }

  lemma MovedAt(bytes: map<int, int>, src: int, n: nat, dst: int, n': nat, a: int)
    ensures dst <= a < dst + Smaller(n, n') ==>
              ByteAt(Moved(bytes, src, n, dst, n'), a) == ByteAt(bytes, src + (a - dst))
    ensures !(dst <= a < dst + n') && !(src <= a < src + n) ==> ByteAt(Moved(bytes, src, n, dst, n'), a) == ByteAt(bytes, a)
  {
    CopiedAt(Cleared(Cleared(bytes, src, src + n), dst, dst + n'), bytes, dst, src, Smaller(n, n'), a);
  }

  predicate SameByte(from: map<int, int>, src: int, to: map<int, int>, dst: int, i: int) {
    ByteAt(to, dst + i) == ByteAt(from, src + i)
  }

  /** The first `n` bytes at `dst` are those that were at `src`. */
  ghost predicate SameBytes(from: map<int, int>, src: int, to: map<int, int>, dst: int, n: int) {
    forall i :: 0 <= i < n ==> SameByte(from, src, to, dst, i)
  }

  lemma MovedPrefix(bytes: map<int, int>, src: int, n: nat, dst: int, n': nat)
    ensures SameBytes(bytes, src, Moved(bytes, src, n, dst, n'), dst, Smaller(n, n'))
  {
    hide Moved, ByteAt;
    forall i | 0 <= i < Smaller(n, n')
      ensures SameByte(bytes, src, Moved(bytes, src, n, dst, n'), dst, i)
    {
      MovedAt(bytes, src, n, dst, n', dst + i);
    }
  }

  lemma MappedAt(l: Lay, mapped: map<int, int>, p: int)
    requires MappedOK(l, mapped) && p in mapped
    ensures MapOK(l, p, mapped[p])
  {
    hide MapOK;
  }

  /** A resized mapping has room, and a size that wraps is never mapped. */
  lemma MapResized(nb: nat)
    requires 32 <= nb && nb + 112 <= WORD_RANGE
    ensures MapSize(nb) == 0 || nb + MMAP_PADDING <= MapSize(nb)
  {
    MapSizeWraps(nb);
    if nb + MMAP_PADDING + PAGE_SIZE > WORD_RANGE {
      AlignUpWrapped(nb + MMAP_PADDING, PAGE_SIZE);
    }
  }

  lemma KeptMapping(l: Lay, v: BinView, mapped: map<int, int>, bytes: map<int, int>, p: int)
    requires p in mapped
    ensures var live := Used(l) + Direct(mapped);
      && live == (live - {p})[p := mapped[p] - MMAP_FOOT_PAD]
      && LeftAlone(l, v.cell, l, v.cell, live - {p})
      && ContentsKept(bytes, bytes, live - {p})
  {
    hide Used, LeftAlone;
    LeftAloneSame(l, v.cell, (Used(l) + Direct(mapped)) - {p});
  }

  lemma MovedKept(l: Lay, v: BinView, dv: int, dvsize: nat, mapped: map<int, int>, bytes: map<int, int>,
                  p: int, dst: int, n: nat)
    requires HeapOK(l, v, dv, dvsize, {}) && MappedOK(l, mapped) && p in mapped && mapped[p] >= 0
    requires Fresh(l.segs, dst, n) && ApartFrom(mapped - {p}, dst, n)
    ensures ContentsKept(bytes, Moved(bytes, p, mapped[p], dst, n), (Used(l) + Direct(mapped)) - {p})
  {
    hide HeapOK, LayoutOK, BinsOK, Listed, MappedOK, Used, Fresh, Moved, ByteAt;
    HeapParts(l, v, dv, dvsize, {});
    var live := Used(l) + Direct(mapped);
    forall q, a | q in live - {p} && q + 16 <= a < q + (live - {p})[q] + 8
      ensures ByteAt(Moved(bytes, p, mapped[p], dst, n), a) == ByteAt(bytes, a)
    {
      MovedAt(bytes, p, mapped[p], dst, n, a);
      MovedApart(l, v, dv, dvsize, mapped, p, dst, n, q, a);
    }
  }

  lemma MovedApart(l: Lay, v: BinView, dv: int, dvsize: nat, mapped: map<int, int>, p: int, dst: int, n: nat, q: int, a: int)
    requires HeapOK(l, v, dv, dvsize, {}) && MappedOK(l, mapped) && p in mapped && q != p
    requires Fresh(l.segs, dst, n) && ApartFrom(mapped - {p}, dst, n)
    requires q in Used(l) + Direct(mapped) && q + 16 <= a < q + (Used(l) + Direct(mapped))[q] + 8
    ensures !(dst <= a < dst + n) && !(p <= a < p + mapped[p])
  {
    hide HeapOK, LayoutOK, BinsOK, Listed, Fresh;
    HeapParts(l, v, dv, dvsize, {});
    assert MapOK(l, p, mapped[p]);
    if q in mapped {
      assert MapOK(l, q, mapped[q]);
      assert q in mapped - {p};
    } else {
      UsedPayloadApart(l, q, dst, n, a);
      UsedPayloadApart(l, q, p, mapped[p], a);
    }
  }

  lemma UsedPayloadApart(l: Lay, q: int, p: int, n: int, a: int)
    requires LayoutOK(l) && q in Used(l) && Fresh(l.segs, p, n) && q + 16 <= a < q + Used(l)[q] + 8
    ensures !(p <= a < p + n)
  {
    hide LayoutOK, Clear, PrevOK;
    ChunkAt(l, q);
    var i: nat :| Within(l.segs, l.stops, i, q, End(l, q));
    SegmentAt(l, i);
  }

  lemma LiveSizes(l: Lay, mapped: map<int, int>, p: int)
    requires p in Used(l) + Direct(mapped) && MappedOK(l, mapped)
    ensures p in l.head && (Used(l) + Direct(mapped))[p] == l.head[p].size
    ensures p in mapped ==> l.head[p].size == mapped[p] - MMAP_FOOT_PAD
  {
    hide Fresh;
    LiveKind(l, mapped, p);
    if p in mapped {
      assert MapOK(l, p, mapped[p]);
    }
  }

  lemma RemappedPrefix(bytes: map<int, int>, p: int, n: int, bytes': map<int, int>, q: int, n': int, nb: nat, request: nat)
    requires SameBytes(bytes, p, bytes', q, Smaller(n, n')) && request + 8 <= nb && nb + MMAP_FOOT_PAD <= n'
    ensures SameBytes(bytes, p + 16, bytes', q + 16, Smaller(n - MMAP_FOOT_PAD - 16, request))
  {
    var src, dst := p + 16, q + 16;
    forall i | 0 <= i < Smaller(n - MMAP_FOOT_PAD - 16, request)
      ensures SameByte(bytes, src, bytes', dst, i)
    {
      assert SameByte(bytes, p, bytes', q, i + 16);
    }
  }

  lemma ResizedLive(l: Lay, l': Lay, mapped: map<int, int>, p: int)
    requires InUse(l', p) && Used(l') == Used(l)[p := l'.head[p].size] && p !in mapped
    ensures var live, live' := Used(l) + Direct(mapped), Used(l') + Direct(mapped);
      p in live' && live' == (live - {p})[p := live'[p]] && live'[p] == l'.head[p].size
  {
    hide Used;
  }

  lemma SameContents(bytes: map<int, int>, blocks: map<int, int>, p: int, n: int)
    ensures ContentsKept(bytes, bytes, blocks) && SameBytes(bytes, p, bytes, p, n)
  {
  }

  lemma UsableRoom(l: Lay, v: BinView, dv: int, dvsize: nat, mapped: map<int, int>, p: int)
    requires HeapOK(l, v, dv, dvsize, {}) && MappedOK(l, mapped) && p in Used(l) + Direct(mapped)
    ensures p in l.head && l.head[p].size >= 32 && p > 0
  {
    hide HeapOK, LayoutOK, BinsOK, Listed, Fresh;
    LiveKind(l, mapped, p);
    if p in mapped {
      assert MapOK(l, p, mapped[p]);
      FreshSize(l.segs, p, mapped[p]);
    } else {
      HeapParts(l, v, dv, dvsize, {});
      ChunkHead(l, p);
    }
  }

  lemma CopyDone(l: Lay, v: BinView, dv: int, dvsize: nat, mapped: map<int, int>, bytes: map<int, int>, p: int, q: int, n: nat)
    requires HeapOK(l, v, dv, dvsize, {}) && MappedOK(l, mapped)
    requires q in Used(l) + Direct(mapped) && n + 8 <= (Used(l) + Direct(mapped))[q]
    ensures ContentsKept(bytes, Copied(bytes, bytes, q + 16, p + 16, n), (Used(l) + Direct(mapped)) - {q})
    ensures SameBytes(bytes, p + 16, Copied(bytes, bytes, q + 16, p + 16, n), q + 16, n)
  {
    hide HeapOK, MappedOK, Used, Direct, Copied, ByteAt, ContentsKept;
    var src, dst := p + 16, q + 16;
    var bytes' := Copied(bytes, bytes, dst, src, n);
    forall a | !(q + 16 <= a < q + 16 + n)
      ensures ByteAt(bytes', a) == ByteAt(bytes, a)
    {
      CopiedAt(bytes, bytes, dst, src, n, a);
    }
    forall i | 0 <= i < n
      ensures SameByte(bytes, src, bytes', dst, i)
    {
      CopiedAt(bytes, bytes, dst, src, n, dst + i);
    }
    InsideKept(l, v, dv, dvsize, mapped, (Used(l) + Direct(mapped)) - {q}, bytes, bytes', q, n);
  }

  lemma FreeContents(l: Lay, v: BinView, dv: int, dvsize: nat, mapped: map<int, int>, bytes: map<int, int>,
                     bytes': map<int, int>, p: int)
    requires HeapOK(l, v, dv, dvsize, {}) && MappedOK(l, mapped) && p in Used(l) + Direct(mapped)
    requires bytes' == if p in mapped then Cleared(bytes, p, p + mapped[p]) else bytes
    ensures ContentsKept(bytes, bytes', (Used(l) + Direct(mapped)) - {p})
  {
    hide HeapOK, LayoutOK, BinsOK, Listed, Fresh, Used;
    var live := Used(l) + Direct(mapped);
    forall q, a | q in live - {p} && q + 16 <= a < q + (live - {p})[q] + 8
      ensures ByteAt(bytes', a) == ByteAt(bytes, a)
    {
      if p in mapped && p <= a < p + mapped[p] {
        InMapping(l, v, dv, dvsize, mapped, p, q, a);
      }
    }
  }

  lemma InMapping(l: Lay, v: BinView, dv: int, dvsize: nat, mapped: map<int, int>, p: int, q: int, a: int)
    requires HeapOK(l, v, dv, dvsize, {}) && MappedOK(l, mapped) && p in mapped && p <= a < p + mapped[p]
    requires q in Used(l) + Direct(mapped) && q != p
    ensures !(q + 16 <= a < q + (Used(l) + Direct(mapped))[q] + 8)
  {
    hide HeapOK, LayoutOK, BinsOK, Listed, Fresh;
    HeapParts(l, v, dv, dvsize, {});
    assert MapOK(l, p, mapped[p]);
    if q in mapped {
      assert MapOK(l, q, mapped[q]);
    } else if q + 16 <= a < q + Used(l)[q] + 8 {
      UsedPayloadApart(l, q, p, mapped[p], a);
    }
  }

  lemma NotBlank(l: Lay, mapped: map<int, int>, q: int)
    requires q in Used(l) + Direct(mapped)
    ensures l.chunks != {} || mapped != map[]
  {
  }

  lemma CopyThenFree(live: map<int, int>, bytes0: map<int, int>, bytes1: map<int, int>, bytes2: map<int, int>,
                     p: int, q: int, n: nat)
    requires p != q && q in live && n + 8 <= live[q]
    requires ContentsKept(bytes0, bytes1, live - {q}) && SameBytes(bytes0, p + 16, bytes1, q + 16, n)
    requires ContentsKept(bytes1, bytes2, live - {p})
    ensures ContentsKept(bytes0, bytes2, live - {p} - {q}) && SameBytes(bytes0, p + 16, bytes2, q + 16, n)
  {
    hide ByteAt;
    var src, dst := p + 16, q + 16;
    forall i | 0 <= i < n
      ensures SameByte(bytes0, src, bytes2, dst, i)
    {
      assert SameByte(bytes0, src, bytes1, dst, i);
      assert q in live - {p} && q + 16 <= dst + i < q + live[q] + 8;
    }
    forall x, a | x in live - {p} - {q} && x + 16 <= a < x + live[x] + 8
      ensures ByteAt(bytes2, a) == ByteAt(bytes0, a)
    {
      assert x in live - {p} && x in live - {q};
    }
  }

  lemma LeftAloneTrans(l: Lay, c: Cells, l1: Lay, c1: Cells, l2: Lay, c2: Cells, blocks: map<int, int>,
                       blocks1: map<int, int>, b: map<int, int>)
    requires LeftAlone(l, c, l1, c1, blocks) && LeftAlone(l1, c1, l2, c2, blocks1)
    requires forall p :: p in b ==> p in blocks && p in blocks1 && blocks[p] == b[p] && blocks1[p] == b[p]
    ensures LeftAlone(l, c, l2, c2, b)
  {
    hide PayloadKept, CellRange;
    forall p | p in b
      ensures PayloadKept(l, l2, p, p + b[p]) && CellRange(c, c2, p, p + b[p])
    {
      PayloadTrans(l, l1, l2, p, p + b[p]);
      CellRangeTrans(c, c1, c2, p, p + b[p]);
    }
  }

  lemma MovedLive(live: map<int, int>, p: int, q: int, s: int)
    requires p in live && q !in live
    ensures live[q := s] - {p} == (live - {p})[q := s] && q !in live - {p}
    ensures live[q := s] - {p} - {q} == live - {p}
  {
  }

  lemma PaddedRoom(request: nat)
    requires request < MAX_REQUEST
    ensures PaddedSize(request) == RequestSize(request)
    ensures var nb := RequestSize(request); 32 <= nb && nb % 16 == 0 && nb + 112 <= WORD_RANGE && request + 8 <= nb
  {
    PaddedFits(request);
  }
}
