/** The invariant of the bins: rings, tries, their roots and their bit maps. */
module BinStore {
  import opened Words
  import opened BinIndex
  import opened BinMaps
  import opened Memory
  import opened Rings
  import opened Trie
  import opened TreeLinks

  /** Address of the header of small bin `i`, used as a chunk. It is no heap address. */
  function SmallHeader(i: nat): (a: int)
    ensures a < 0
  {
    -1 - i
  }

  /** Address of the root slot of tree bin `i`, named as parent by the root. It is no heap address. */
  function TreeSlot(i: nat): (a: int)
    ensures a < 0
  {
    -1000 - i
  }

  /** Everything the bins consist of: memory, maps and roots, and what they stand for. */
  datatype BinView = BinView(cell: Cells, smallmap: Word, treemap: Word, treebins: seq<int>,
                             small: seq<seq<int>>, trees: seq<Tree>, members: set<int>)

  /** The ring of a small bin starts at its header. An empty bin may hold stale header links. */
  ghost predicate SmallOK(i: nat, ring: seq<int>, bit: bool, m: Cells, h: Heads) {
    && bit == (ring != [])
    && SmallHeader(i) in m
    && (ring != [] ==> Circ([SmallHeader(i)] + ring, m))
    && (forall a :: a in ring ==> a > 0 && a in h && h[a].size == 8 * i)
  }

  ghost predicate TreeOK(i: nat, t: Tree, root: int, bit: bool, m: Cells, h: Heads)
    requires i < NTREEBINS
  {
    && bit == t.Node?
    && WF(t, OpenBits(i), BlockStart(i))
    && Distinct(t)
    && Linked(t, root, TreeSlot(i), i, m, h)
    && (forall s :: s in Sizes(t) ==> InBin(i, s) && s < TREE_INDEX_LIMIT)
    && (forall a :: a in Addrs(t) ==> a > 0)
  }

  predicate Shaped(v: BinView) {
    |v.treebins| == NTREEBINS && |v.small| == NSMALLBINS && |v.trees| == NTREEBINS
  }

  /** The bin of its size holds the address. */
  ghost predicate Has(v: BinView, a: int, s: nat)
    requires Shaped(v)
  {
    if IsSmall(s) then a in v.small[SmallIndex(s)]
    else TreeIndex(s) < NTREEBINS && a in Addrs(v.trees[TreeIndex(s)])
  }

  predicate BinnedSize(s: nat) {
    32 <= s < TREE_INDEX_LIMIT && s % 16 == 0
  }

  /** The members are exactly the addresses in bins, each in the single bin its size selects. */
  ghost predicate MembersOK(v: BinView, h: Heads)
    requires Shaped(v)
  {
    && (forall a :: a in v.members ==> a > 0 && a in h && BinnedSize(h[a].size) && Has(v, a, h[a].size))
    && (forall i, a :: 0 <= i < NSMALLBINS && a in v.small[i] ==> a in v.members)
    && (forall i, a :: 0 <= i < NTREEBINS && a in Addrs(v.trees[i]) ==> a in v.members)
  }

  ghost predicate BinsOK(v: BinView, h: Heads) {
    && Shaped(v)
    && (forall i :: 0 <= i < NSMALLBINS ==> SmallOK(i, v.small[i], v.smallmap[i], v.cell, h))
    && (forall i :: 0 <= i < NTREEBINS ==> TreeOK(i, v.trees[i], v.treebins[i], v.treemap[i], v.cell, h))
    && MembersOK(v, h)
  }

  lemma SmallFrame(i: nat, ring: seq<int>, bit: bool, m: Cells, h: Heads, m': Cells, h': Heads)
    requires SmallOK(i, ring, bit, m, h)
    requires SameCells(m, m', RingSet(ring) + {SmallHeader(i)}) && SameHeads(h, h', RingSet(ring))
    ensures SmallOK(i, ring, bit, m', h')
  {
    hide Circ;
    forall a | a in ring
      ensures a in h' && h'[a].size == 8 * i
    {
      assert a in RingSet(ring);
    }
    if ring != [] {
      assert forall a :: a in [SmallHeader(i)] + ring ==> a in RingSet(ring) + {SmallHeader(i)};
      CircRing([SmallHeader(i)] + ring, m);
      CircFrame([SmallHeader(i)] + ring, m, m');
    }
  }

  lemma TreeFrame(i: nat, t: Tree, root: int, bit: bool, m: Cells, h: Heads, m': Cells, h': Heads)
    requires i < NTREEBINS && TreeOK(i, t, root, bit, m, h)
    requires SameCells(m, m', Addrs(t)) && SameHeads(h, h', Addrs(t))
    ensures TreeOK(i, t, root, bit, m', h')
  {
    hide Linked, WF, Distinct, Addrs, InBin;
    LinkedFrame(t, root, TreeSlot(i), i, m, h, m', h');
  }

  /** Writing heads of chunks outside the bins does not disturb them. */
  lemma HeadsFrame(v: BinView, h: Heads, h': Heads)
    requires BinsOK(v, h) && SameHeads(h, h', v.members)
    ensures BinsOK(v, h')
  {
    hide SmallOK, TreeOK, Addrs;
    forall i | 0 <= i < NSMALLBINS
      ensures SmallOK(i, v.small[i], v.smallmap[i], v.cell, h')
    {
      SmallMapped(i, v.small[i], v.smallmap[i], v.cell, h);
      assert forall a :: a in RingSet(v.small[i]) ==> a in v.members;
      SmallFrame(i, v.small[i], v.smallmap[i], v.cell, h, v.cell, h');
    }
    forall i | 0 <= i < NTREEBINS
      ensures TreeOK(i, v.trees[i], v.treebins[i], v.treemap[i], v.cell, h')
    {
      TreeMapped(i, v.trees[i], v.treebins[i], v.treemap[i], v.cell, h);
      TreeFrame(i, v.trees[i], v.treebins[i], v.treemap[i], v.cell, h, v.cell, h');
    }
  }

  lemma SmallMapped(i: nat, ring: seq<int>, bit: bool, m: Cells, h: Heads)
    requires SmallOK(i, ring, bit, m, h)
    ensures SameCells(m, m, RingSet(ring) + {SmallHeader(i)}) && SameHeads(h, h, RingSet(ring))
  {
    if ring != [] {
      assert forall a :: a in ring ==> a in [SmallHeader(i)] + ring;
      CircRing([SmallHeader(i)] + ring, m);
    }
  }

  lemma TreeMapped(i: nat, t: Tree, root: int, bit: bool, m: Cells, h: Heads)
    requires i < NTREEBINS && TreeOK(i, t, root, bit, m, h)
    ensures SameCells(m, m, Addrs(t)) && SameHeads(h, h, Addrs(t))
  {
    LinkedMapped(t, root, TreeSlot(i), i, m, h);
  }

  /** A chunk of a small bin has that bin's size, so it is in no other bin. */
  lemma SmallMember(v: BinView, h: Heads, i: nat, a: int)
    requires BinsOK(v, h) && i < NSMALLBINS && a in v.small[i]
    ensures a > 0 && a in h && h[a].size == 8 * i && a in v.members
  {
    hide TreeOK, Circ, Has;
    assert SmallOK(i, v.small[i], v.smallmap[i], v.cell, h);
  }

  /** A chunk of a tree bin has a size of that bin, so it is in no other bin. */
  lemma TreeMember(v: BinView, h: Heads, i: nat, a: int)
    requires BinsOK(v, h) && i < NTREEBINS && a in Addrs(v.trees[i])
    ensures a > 0 && a in h && a in v.members
    ensures InBin(i, h[a].size) && 256 <= h[a].size < TREE_INDEX_LIMIT && TreeIndex(h[a].size) == i
    ensures Holds(v.trees[i], h[a].size, a)
  {
    hide Linked, Circ, WF, Distinct, Addrs, InBin, TreeIndex;
    SizeOfMember(v.trees[i], v.treebins[i], TreeSlot(i), i, v.cell, h, a);
    HoldsSize(v.trees[i], h[a].size, a);
    InBinLarge(i, h[a].size);
    TreeIndexUnique(h[a].size, i);
  }

  lemma InBinLarge(i: nat, s: nat)
    requires InBin(i, s)
    ensures s >= 256
  {
    hide Pow2;
    MinSizeMono(0, i);
    Pow2Values();
  }

  /** A change confined to small bin `i`. */
  ghost predicate SmallChange(v: BinView, v': BinView, i: nat)
    requires Shaped(v) && Shaped(v') && i < NSMALLBINS
  {
    && v'.treemap == v.treemap && v'.treebins == v.treebins && v'.trees == v.trees
    && v'.smallmap == v.smallmap[i := v'.smallmap[i]]
    && v'.small == v.small[i := v'.small[i]]
    && v'.members == v.members - RingSet(v.small[i]) + RingSet(v'.small[i])
    && SameCells(v.cell, v'.cell, v.members - RingSet(v.small[i]))
    && (forall j :: 0 <= j < NSMALLBINS && j != i ==>
          SmallHeader(j) in v.cell && SmallHeader(j) in v'.cell
          && v'.cell[SmallHeader(j)] == v.cell[SmallHeader(j)])
  }

  lemma SmallBinChanged(v: BinView, v': BinView, i: nat, h: Heads)
    requires BinsOK(v, h) && Shaped(v') && 4 <= i < NSMALLBINS && i % 2 == 0
    requires SmallChange(v, v', i)
    requires SmallOK(i, v'.small[i], v'.smallmap[i], v'.cell, h)
    ensures BinsOK(v', h)
  {
    hide Circ, SmallOK, TreeOK, Addrs, TreeIndex;
    forall j | 0 <= j < NSMALLBINS && j != i
      ensures SmallOK(j, v'.small[j], v'.smallmap[j], v'.cell, h)
    {
      SmallMapped(j, v.small[j], v.smallmap[j], v.cell, h);
      forall a | a in RingSet(v.small[j])
        ensures a in v.members - RingSet(v.small[i])
      {
        SmallMember(v, h, j, a);
        if a in v.small[i] {
          SmallMember(v, h, i, a);
        }
      }
      SmallFrame(j, v.small[j], v.smallmap[j], v.cell, h, v'.cell, h);
    }
    forall j | 0 <= j < NTREEBINS
      ensures TreeOK(j, v'.trees[j], v'.treebins[j], v'.treemap[j], v'.cell, h)
    {
      TreeMapped(j, v.trees[j], v.treebins[j], v.treemap[j], v.cell, h);
      forall a | a in Addrs(v.trees[j])
        ensures a in v.members - RingSet(v.small[i])
      {
        TreeMember(v, h, j, a);
        if a in v.small[i] {
          SmallMember(v, h, i, a);
        }
      }
      TreeFrame(j, v.trees[j], v.treebins[j], v.treemap[j], v.cell, h, v'.cell, h);
    }
    SmallMembers(v, v', i, h);
  }

  lemma SmallMembers(v: BinView, v': BinView, i: nat, h: Heads)
    requires BinsOK(v, h) && Shaped(v') && 4 <= i < NSMALLBINS && i % 2 == 0
    requires SmallChange(v, v', i)
    requires SmallOK(i, v'.small[i], v'.smallmap[i], v'.cell, h)
    ensures MembersOK(v', h)
  {
    hide Circ, TreeOK, TreeIndex, BinsOK, SameCells;
    BinsMembers(v, h);
    forall a | a in v'.members
      ensures a > 0 && a in h && BinnedSize(h[a].size) && Has(v', a, h[a].size)
    {
      if a in v'.small[i] {
        assert h[a].size == 8 * i;
        assert SmallIndex(8 * i) == i;
      } else {
        assert a in v.members && Has(v, a, h[a].size);
      }
    }
    forall j, a | 0 <= j < NSMALLBINS && a in v'.small[j]
      ensures a in v'.members
    {
      if j != i {
        SmallMember(v, h, j, a);
        if a in v.small[i] {
          SmallMember(v, h, i, a);
        }
      }
    }
    forall j, a | 0 <= j < NTREEBINS && a in Addrs(v'.trees[j])
      ensures a in v'.members
    {
      TreeMember(v, h, j, a);
      if a in v.small[i] {
        SmallMember(v, h, i, a);
      }
    }
  }

  lemma BinsMembers(v: BinView, h: Heads)
    requires BinsOK(v, h)
    ensures Shaped(v) && MembersOK(v, h)
  {
    hide MembersOK, SmallOK, TreeOK;
  }

  /** A change confined to tree bin `i`. */
  ghost predicate TreeChange(v: BinView, v': BinView, i: nat)
    requires Shaped(v) && Shaped(v') && i < NTREEBINS
  {
    && v'.smallmap == v.smallmap && v'.small == v.small
    && v'.treemap == v.treemap[i := v'.treemap[i]]
    && v'.treebins == v.treebins[i := v'.treebins[i]]
    && v'.trees == v.trees[i := v'.trees[i]]
    && v'.members == v.members - Addrs(v.trees[i]) + Addrs(v'.trees[i])
    && SameCells(v.cell, v'.cell, v.members - Addrs(v.trees[i]))
    && (forall j :: 0 <= j < NSMALLBINS ==>
          SmallHeader(j) in v.cell && SmallHeader(j) in v'.cell
          && v'.cell[SmallHeader(j)] == v.cell[SmallHeader(j)])
  }

  lemma TreeBinChanged(v: BinView, v': BinView, i: nat, h: Heads)
    requires BinsOK(v, h) && Shaped(v') && i < NTREEBINS
    requires TreeChange(v, v', i)
    requires TreeOK(i, v'.trees[i], v'.treebins[i], v'.treemap[i], v'.cell, h)
    requires forall a :: a in Addrs(v'.trees[i]) ==> a in h && BinnedSize(h[a].size)
    ensures BinsOK(v', h)
  {
    hide Circ, SmallOK, TreeOK, Addrs, TreeIndex, BinnedSize;
    forall j | 0 <= j < NSMALLBINS
      ensures SmallOK(j, v'.small[j], v'.smallmap[j], v'.cell, h)
    {
      SmallMapped(j, v.small[j], v.smallmap[j], v.cell, h);
      forall a | a in RingSet(v.small[j])
        ensures a in v.members - Addrs(v.trees[i])
      {
        SmallMember(v, h, j, a);
        if a in Addrs(v.trees[i]) {
          TreeMember(v, h, i, a);
        }
      }
      SmallFrame(j, v.small[j], v.smallmap[j], v.cell, h, v'.cell, h);
    }
    forall j | 0 <= j < NTREEBINS && j != i
      ensures TreeOK(j, v'.trees[j], v'.treebins[j], v'.treemap[j], v'.cell, h)
    {
      TreeMapped(j, v.trees[j], v.treebins[j], v.treemap[j], v.cell, h);
      forall a | a in Addrs(v.trees[j])
        ensures a in v.members - Addrs(v.trees[i])
      {
        TreeMember(v, h, j, a);
        if a in Addrs(v.trees[i]) {
          TreeMember(v, h, i, a);
        }
      }
      TreeFrame(j, v.trees[j], v.treebins[j], v.treemap[j], v.cell, h, v'.cell, h);
    }
    TreeMembers(v, v', i, h);
  }

  lemma TreeMembers(v: BinView, v': BinView, i: nat, h: Heads)
    requires BinsOK(v, h) && Shaped(v') && i < NTREEBINS
    requires TreeChange(v, v', i)
    requires TreeOK(i, v'.trees[i], v'.treebins[i], v'.treemap[i], v'.cell, h)
    requires forall a :: a in Addrs(v'.trees[i]) ==> a in h && BinnedSize(h[a].size)
    ensures MembersOK(v', h)
  {
    hide Circ, SmallOK, TreeOK, TreeIndex, BinsOK, SameCells, Addrs, BinnedSize;
    BinsMembers(v, h);
    forall a | a in v'.members
      ensures a > 0 && a in h && BinnedSize(h[a].size) && Has(v', a, h[a].size)
    {
      if a in Addrs(v'.trees[i]) {
        TreeMemberSize(i, v'.trees[i], v'.treebins[i], v'.treemap[i], v'.cell, h, a);
      } else {
        assert a in v.members && Has(v, a, h[a].size);
      }
    }
    forall j, a | 0 <= j < NTREEBINS && a in Addrs(v'.trees[j])
      ensures a in v'.members
    {
      if j != i {
        TreeMember(v, h, j, a);
        if a in Addrs(v.trees[i]) {
          TreeMember(v, h, i, a);
        }
      }
    }
    forall j, a | 0 <= j < NSMALLBINS && a in v'.small[j]
      ensures a in v'.members
    {
      SmallMember(v, h, j, a);
      if a in Addrs(v.trees[i]) {
        TreeMember(v, h, i, a);
      }
    }
  }

  lemma TreeMemberSize(i: nat, t: Tree, root: int, bit: bool, m: Cells, h: Heads, a: int)
    requires i < NTREEBINS && TreeOK(i, t, root, bit, m, h) && a in Addrs(t)
    ensures a > 0 && a in h && !IsSmall(h[a].size) && TreeIndex(h[a].size) == i
  {
    hide Linked, Circ, WF, Distinct, Addrs, InBin, TreeIndex;
    SizeOfMember(t, root, TreeSlot(i), i, m, h, a);
    HoldsSize(t, h[a].size, a);
    InBinLarge(i, h[a].size);
    TreeIndexUnique(h[a].size, i);
  }

  /** Every member has its link fields in memory. */
  lemma MemberMapped(v: BinView, h: Heads, a: int)
    requires BinsOK(v, h) && a in v.members
    ensures a > 0 && a in v.cell && a in h
  {
    hide Circ, TreeIndex, Addrs, Linked, WF, Distinct;
    var s := h[a].size;
    assert Has(v, a, s);
    if IsSmall(s) {
      var i := SmallIndex(s);
      SmallMapped(i, v.small[i], v.smallmap[i], v.cell, h);
      assert a in RingSet(v.small[i]);
    } else {
      var i := TreeIndex(s);
      TreeMapped(i, v.trees[i], v.treebins[i], v.treemap[i], v.cell, h);
    }
  }
}
