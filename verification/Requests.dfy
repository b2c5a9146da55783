/** Sizes of requests: padding, the sizes asked of the system, and where they would wrap around. */
module Requests {
  import opened Words

  const MIN_REQUEST := 23
  const MAX_SMALL_REQUEST := 232
  const MAX_REQUEST: nat := WORD_RANGE - 128
  const MMAP_THRESHOLD := 0x40000
  const GRANULARITY := 0x10000
  const PAGE_SIZE := 4096
  const SYS_ALLOC_PADDING := 96
  const MMAP_PADDING := 63

  /** `request2size`: room for one word of overhead, rounded up to 16 bytes. */
  function RequestSize(bytes: nat): (nb: nat)
    requires bytes < WORD_RANGE
  {
    if bytes < MIN_REQUEST then 32 else AlignUp(Add64(bytes, 8), 16)
  }

  /** The padded size `dlmalloc` works with; requests that are too large get one that nothing can serve. */
  function PaddedSize(bytes: nat): (nb: nat)
    requires bytes < WORD_RANGE
    ensures nb < WORD_RANGE
  {
    if bytes >= MAX_REQUEST then MAX_SIZE_T else RequestSize(bytes)
  }

  /** What `sys_alloc` asks of the system for a new piece of heap. */
  function SegmentSize(nb: nat): (n: nat)
    requires nb < WORD_RANGE
  {
    AlignUp(Add64(nb, SYS_ALLOC_PADDING), GRANULARITY)
  }

  /** What `mmap_alloc` asks of the system for a chunk of its own. */
  function MapSize(nb: nat): (n: nat)
    requires nb < WORD_RANGE
  {
    AlignUp(Add64(nb, MMAP_PADDING), PAGE_SIZE)
  }

  /** Rounding up without wrapping. */
  lemma AlignUpExact(x: nat, a: nat)
    requires 0 < a < WORD_RANGE && x < WORD_RANGE && x + a <= WORD_RANGE
    ensures x <= AlignUp(x, a) < x + a
  {
    DivMod(x + a - 1, a);
  }

  /** Rounding up that wraps leaves nothing. */
  lemma AlignUpWrapped(x: nat, a: nat)
    requires 0 < a < WORD_RANGE && x < WORD_RANGE && x + a > WORD_RANGE
    ensures AlignUp(x, a) == 0
  {
    var y := Add64(x, a - 1);
    assert y == x + a - 1 - WORD_RANGE < a;
    DivModUnique(y, a, 0, y);
  }

  /** A padded request has room for the bytes asked for and one word, wastes less than 32, and is aligned. */
  lemma PaddedFits(bytes: nat)
    requires bytes < MAX_REQUEST
    ensures bytes + 8 <= PaddedSize(bytes) && 32 <= PaddedSize(bytes) < WORD_RANGE && PaddedSize(bytes) % 16 == 0
    ensures PaddedSize(bytes) < bytes + 24 || PaddedSize(bytes) == 32
    ensures bytes <= MAX_SMALL_REQUEST <==> PaddedSize(bytes) <= 240
    ensures bytes > MAX_SMALL_REQUEST <==> PaddedSize(bytes) >= 256
  {
    if bytes >= MIN_REQUEST {
      AlignUpExact(bytes + 8, 16);
      PaddedSteps(bytes, AlignUp(bytes + 8, 16));
    }
  }

  lemma PaddedSteps(bytes: nat, nb: nat)
    requires bytes + 8 <= nb < bytes + 24 && nb % 16 == 0
    ensures bytes <= 232 ==> nb <= 240
    ensures bytes >= 233 ==> nb >= 256
    ensures bytes >= 23 ==> nb >= 32
  {
  }

  /** The test `asize <= nb` of `sys_alloc` catches exactly the sizes that wrapped. */
  lemma SegmentSizeWraps(nb: nat)
    requires 0 < nb < WORD_RANGE
    ensures SegmentSize(nb) <= nb <==> nb + SYS_ALLOC_PADDING + GRANULARITY > WORD_RANGE
    ensures SegmentSize(nb) > nb ==> nb + SYS_ALLOC_PADDING <= SegmentSize(nb) < nb + SYS_ALLOC_PADDING + GRANULARITY
  {
    var x := Add64(nb, SYS_ALLOC_PADDING);
    if nb + SYS_ALLOC_PADDING + GRANULARITY <= WORD_RANGE {
      AlignUpExact(x, GRANULARITY);
    } else if nb + SYS_ALLOC_PADDING < WORD_RANGE {
      AlignUpWrapped(x, GRANULARITY);
    } else {
      assert x < SYS_ALLOC_PADDING;
      AlignUpExact(x, GRANULARITY);
    }
  }

  /** The test `mmsize > nb` of `mmap_alloc` lets through exactly the sizes that did not wrap. */
  lemma MapSizeWraps(nb: nat)
    requires 0 < nb < WORD_RANGE
    ensures MapSize(nb) > nb <==> nb + MMAP_PADDING + PAGE_SIZE <= WORD_RANGE
    ensures MapSize(nb) > nb ==> nb + MMAP_PADDING <= MapSize(nb) < nb + MMAP_PADDING + PAGE_SIZE
  {
    var x := Add64(nb, MMAP_PADDING);
    if nb + MMAP_PADDING + PAGE_SIZE <= WORD_RANGE {
      AlignUpExact(x, PAGE_SIZE);
    } else if nb + MMAP_PADDING < WORD_RANGE {
      AlignUpWrapped(x, PAGE_SIZE);
    } else {
      assert x < MMAP_PADDING;
      AlignUpExact(x, PAGE_SIZE);
    }
  }

  /** A request of at least MAX_REQUEST bytes gets nothing from the system. */
  lemma TooLargeFails(bytes: nat)
    requires MAX_REQUEST <= bytes < WORD_RANGE
    ensures MapSize(PaddedSize(bytes)) <= PaddedSize(bytes)
    ensures SegmentSize(PaddedSize(bytes)) <= PaddedSize(bytes)
  {
    SegmentSizeWraps(MAX_SIZE_T);
    MapSizeWraps(MAX_SIZE_T);
  }

  /** `dlcalloc`: the request for `n` elements of `size` bytes, with the overflow test on the wrapped product. */
  function CallocRequest(n: nat, size: nat): (req: nat)
    requires n < WORD_RANGE && size < WORD_RANGE
    ensures req < WORD_RANGE
  {
    if n == 0 then 0
    else
      var req := (n * size) % WORD_RANGE;
      if (n >= 0x10000 || size >= 0x10000) && req / n != size then MAX_SIZE_T else req
  }

  /** The size of `n` elements of `size` bytes, unbounded. */
  function Product(n: nat, size: nat): (p: nat) {
    n * size
  }

  lemma ProductBound(n: nat, size: nat, a: nat, b: nat)
    requires n <= a && size <= b
    ensures n * size <= a * b
  {
    MulMono(size, b, n);
    MulMono(n, a, b);
  }

  /** The request is the exact product, or the size that always fails when the product does not fit. */
  lemma CallocExact(n: nat, size: nat)
    requires n < WORD_RANGE && size < WORD_RANGE
    ensures CallocRequest(n, size) == if Product(n, size) < WORD_RANGE then Product(n, size) else MAX_SIZE_T
  {
    if n == 0 {
    } else if n * size < WORD_RANGE {
      var p := n * size;
      DivModUnique(p, WORD_RANGE, 0, p);
      DivModUnique(p, n, size, 0);
    } else {
      if n < 0x10000 && size < 0x10000 {
        ProductBound(n, size, 0xffff, 0xffff);
        assert false;
      }
      WrappedQuotient(n, size);
    }
  }

  /** When the product wraps, dividing what is left by one factor does not give the other. */
  lemma WrappedQuotient(n: nat, size: nat)
    requires 0 < n < WORD_RANGE && n * size >= WORD_RANGE
    ensures (n * size) % WORD_RANGE / n != size
  {
    var p := n * size;
    var req := p % WORD_RANGE;
    DivMod(p, WORD_RANGE);
    DivMod(req, n);
  }
}
