/**
 * The words of heap memory that the allocator reads and writes: one map per group of fields of
 * `struct malloc_chunk` and `struct malloc_tree_chunk`, keyed by the chunk address. Entries of
 * addresses that are no longer chunks stay behind, as stale words do.
 */
module Memory {
  /** A head word: the chunk size with its two in-use bits. */
  datatype Head = Head(size: nat, pinuse: bool, cinuse: bool)

  /** The link fields, which overlay the payload of a free chunk. */
  datatype Cell = Cell(fd: int, bk: int, left: int, right: int, parent: int, index: int)

  type Heads = map<int, Head>
  type Feet = map<int, int>
  type Cells = map<int, Cell>

  /** What the link fields hold before they are written: stale words, or zero in fresh pages. */
  function Stale(m: Cells, a: int): (c: Cell) {
    if a in m then m[a] else Cell(0, 0, 0, 0, 0, 0)
  }

  /** The maps agree on `s`, and `s` is mapped. */
  ghost predicate SameCells(m: Cells, m': Cells, s: set<int>) {
    forall a :: a in s ==> a in m && a in m' && m'[a] == m[a]
  }

  ghost predicate SameHeads(h: Heads, h': Heads, s: set<int>) {
    forall a :: a in s ==> a in h && a in h' && h'[a].size == h[a].size
  }

  /** Only link fields of chunks in `s`, and of bin headers, were written. */
  ghost predicate CellsKept(m: Cells, m': Cells, s: set<int>) {
    && (forall a :: a in m' && a > 0 && a !in s ==> a in m)
    && forall a :: a in m && a > 0 && a !in s ==> a in m' && m'[a] == m[a]
  }
}
