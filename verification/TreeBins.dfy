/** Insertion into and unlinking from a tree bin, as changes of the whole bin store. */
module TreeBins {
  import opened Words
  import opened BinIndex
  import opened BinMaps
  import opened Memory
  import opened Rings
  import opened Trie
  import opened TreeLinks
  import opened TreeEdits
  import opened TreeUnlink
  import opened BinStore

  /** The walk for size `s` stands at the node at the end of `path`, before reading bit n - 1. */
  ghost predicate Walk(root: Tree, i: nat, s: nat, x: int, path: seq<bool>, n: nat, lo: nat, q: nat)
    requires i < NTREEBINS
  {
    && WF(root, OpenBits(i), BlockStart(i)) && BlockStart(i) <= s < BlockStart(i) + Pow2(OpenBits(i))
    && OnPath(root, path) && At(root, path).Node?
    && n <= 64 && lo == q * Pow2(n)
    && WF(At(root, path), n, lo) && lo <= s < lo + Pow2(n)
    && Insert(root, OpenBits(i), BlockStart(i), s, x) == Put(root, path, Insert(At(root, path), n, lo, s, x))
  }

  lemma WalkStart(root: Tree, i: nat, s: nat, x: int)
    requires i < NTREEBINS && WF(root, OpenBits(i), BlockStart(i)) && root.Node?
    requires InBin(i, s) && s < WORD_RANGE
    ensures Walk(root, i, s, x, [], OpenBits(i), BlockStart(i), BlockNumber(i))
  {
    hide Pow2, WF, Insert, InBin;
    BinIsAlignedBlock(i);
    BinInBlock(i, s);
  }

  /** The bit at the sign position of the shifted size picks the half that holds the size. */
  lemma WalkBit(root: Tree, i: nat, s: nat, x: int, path: seq<bool>, n: nat, lo: nat, q: nat, k: nat)
    requires i < NTREEBINS && Walk(root, i, s, x, path, n, lo, q) && At(root, path).size != s
    requires k == Shl64(s, 64 - n)
    ensures n > 0
    ensures TopBit(k) == if s < lo + Pow2(n - 1) then 0 else 1
    ensures Shl64(k, 1) == Shl64(s, 64 - (n - 1))
  {
    hide Insert, Put, At, OnPath, Shl64, TopBit, Bit;
    assert n > 0 by { WFParts(At(root, path), n, lo); Pow2Half(n); }
    hide Pow2, WF;
    TopBitOfShift(s, n - 1);
    BitSelectsHalf(s, n - 1, q);
    ShlStep(s, 64 - n);
  }

  /** Inserting into a node of another size goes on in the half that holds the size. */
  lemma InsertBelow(c: Tree, n: nat, lo: nat, s: nat, x: int)
    requires WF(c, n, lo) && lo <= s < lo + Pow2(n) && c.Node? && c.size != s && n > 0
    ensures Pow2(n) == 2 * Pow2(n - 1)
    ensures var d := s >= lo + Pow2(n - 1);
            var lo' := if d then lo + Pow2(n - 1) else lo;
            && WF(Child(c, d), n - 1, lo') && lo' <= s < lo' + Pow2(n - 1)
            && Insert(c, n, lo, s, x) == WithChild(c, d, Insert(Child(c, d), n - 1, lo', s, x))
            && (Child(c, d).Empty? ==> Insert(Child(c, d), n - 1, lo', s, x) == Node(s, [x], Empty, Empty))
  {
    WFParts(c, n, lo);
    hide Pow2, WF, Sizes;
  }

  lemma WalkStep(root: Tree, i: nat, s: nat, x: int, path: seq<bool>, n: nat, lo: nat, q: nat)
    requires i < NTREEBINS && Walk(root, i, s, x, path, n, lo, q) && At(root, path).size != s && n > 0
    ensures var d := s >= lo + Pow2(n - 1);
            Child(At(root, path), d).Node? ==>
              Walk(root, i, s, x, path + [d], n - 1, if d then lo + Pow2(n - 1) else lo, if d then 2 * q + 1 else 2 * q)
    ensures var d := s >= lo + Pow2(n - 1);
            Child(At(root, path), d).Empty? ==>
              Insert(root, OpenBits(i), BlockStart(i), s, x)
              == Put(root, path, WithChild(At(root, path), d, Node(s, [x], Empty, Empty)))
  {
    hide Pow2, WF, OnPath, At, Put, InBin, Insert, OpenBits, BlockStart;
    var c := At(root, path);
    var d := s >= lo + Pow2(n - 1);
    var lo' := if d then lo + Pow2(n - 1) else lo;
    InsertBelow(c, n, lo, s, x);
    AtSnoc(root, path, d, Insert(Child(c, d), n - 1, lo', s, x));
    BlockHalves(n, lo, q);
  }

  lemma BlockHalves(n: nat, lo: nat, q: nat)
    requires n > 0 && lo == q * Pow2(n)
    ensures lo == (2 * q) * Pow2(n - 1)
    ensures lo + Pow2(n - 1) == (2 * q + 1) * Pow2(n - 1)
  {
    Pow2Half(n);
    var p := Pow2(n - 1);
    assert q * (2 * p) == (2 * q) * p;
    assert (2 * q + 1) * p == (2 * q) * p + p;
  }

  /** What the walk reads at its node. */
  lemma WalkReads(v: BinView, h: Heads, i: nat, path: seq<bool>)
    requires BinsOK(v, h) && i < NTREEBINS && OnPath(v.trees[i], path) && At(v.trees[i], path).Node?
    ensures var c := At(v.trees[i], path);
            && |c.ring| > 0
            && var t := c.ring[0];
            && t > 0 && t in v.cell && t in h && h[t].size == c.size && t in Addrs(v.trees[i])
            && Linked(c, t, v.cell[t].parent, i, v.cell, h)
            && Distinct(c) && Addrs(c) <= Addrs(v.trees[i])
            && (forall d :: GetChild(v.cell[t], d) != 0 <==> Child(c, d).Node?)
            && (forall d :: Child(c, d).Node? ==>
                  |Child(c, d).ring| > 0 && Child(c, d).ring[0] == GetChild(v.cell[t], d))
            && v.cell[t].fd in v.cell && v.cell[t].fd in Addrs(v.trees[i])
  {
    hide SmallOK, Linked, Circ, WF, Chunks, InBin;
    assert TreeOK(i, v.trees[i], v.treebins[i], v.treemap[i], v.cell, h);
    var c := At(v.trees[i], path);
    AtLinked(v.trees[i], path, v.treebins[i], TreeSlot(i), i, v.cell, h);
    AtDistinct(v.trees[i], path);
    var t := c.ring[0];
    LinkedParts(c, t, v.cell[t].parent, i, v.cell, h);
    ChunkCount(c, t);
    CircAt(c.ring, v.cell, 0);
    CircRing(c.ring, v.cell);
    ChunkCount(c, v.cell[t].fd);
    forall d: bool
      ensures GetChild(v.cell[t], d) != 0 <==> Child(c, d).Node?
      ensures Child(c, d).Node? ==>
                |Child(c, d).ring| > 0 && Child(c, d).ring[0] == GetChild(v.cell[t], d)
    {
      ChildRoot(Child(c, d), GetChild(v.cell[t], d), t, i, v.cell, h);
      if Child(c, d).Node? {
        LinkedParts(Child(c, d), GetChild(v.cell[t], d), t, i, v.cell, h);
      }
    }
  }

  /** The root slot holds the root. */
  lemma RootReads(v: BinView, h: Heads, i: nat)
    requires BinsOK(v, h) && i < NTREEBINS
    ensures Shaped(v) && WF(v.trees[i], OpenBits(i), BlockStart(i))
    ensures v.treemap[i] == v.trees[i].Node? && (v.treebins[i] != 0 <==> v.trees[i].Node?)
    ensures v.trees[i].Node? ==> |v.trees[i].ring| > 0 && v.trees[i].ring[0] == v.treebins[i]
  {
    hide SmallOK, Linked, WF, Distinct, InBin;
    assert TreeOK(i, v.trees[i], v.treebins[i], v.treemap[i], v.cell, h);
    ChildRoot(v.trees[i], v.treebins[i], TreeSlot(i), i, v.cell, h);
    if v.trees[i].Node? {
      LinkedParts(v.trees[i], v.treebins[i], TreeSlot(i), i, v.cell, h);
    }
  }

  /** Link fields of a chunk outside the bins may hold anything. */
  lemma OutsideWrite(v: BinView, h: Heads, x: int, c: Cell)
    requires BinsOK(v, h) && x > 0 && x !in v.members
    ensures BinsOK(v.(cell := v.cell[x := c]), h)
  {
    hide SmallOK, TreeOK, Addrs;
    var v' := v.(cell := v.cell[x := c]);
    forall i | 0 <= i < NSMALLBINS
      ensures SmallOK(i, v'.small[i], v'.smallmap[i], v'.cell, h)
    {
      SmallMapped(i, v.small[i], v.smallmap[i], v.cell, h);
      forall a | a in RingSet(v.small[i])
        ensures a != x
      {
        SmallMember(v, h, i, a);
      }
      SmallFrame(i, v.small[i], v.smallmap[i], v.cell, h, v'.cell, h);
    }
    forall i | 0 <= i < NTREEBINS
      ensures TreeOK(i, v'.trees[i], v'.treebins[i], v'.treemap[i], v'.cell, h)
    {
      TreeMapped(i, v.trees[i], v.treebins[i], v.treemap[i], v.cell, h);
      forall a | a in Addrs(v.trees[i])
        ensures a != x
      {
        TreeMember(v, h, i, a);
      }
      TreeFrame(i, v.trees[i], v.treebins[i], v.treemap[i], v.cell, h, v'.cell, h);
    }
    assert MembersOK(v, h);
  }

  lemma AddOne(m: multiset<int>, r: multiset<int>, x: int)
    requires r == m + multiset{x} && x !in m && forall a :: a in m ==> m[a] == 1
    ensures forall a :: a in r ==> r[a] == 1
    ensures forall a :: a in r <==> a in m || a == x
  {
    forall a
      ensures r[a] == m[a] + (if a == x then 1 else 0)
    {
    }
    forall a | a in r
      ensures r[a] == 1 && (a in m || a == x)
    {
      assert a != x ==> a in m;
    }
    forall a | a in m || a == x
      ensures a in r
    {
      assert r[a] > 0;
    }
  }

  lemma InsertedAddrs(t: Tree, i: nat, s: nat, x: int)
    requires i < NTREEBINS && WF(t, OpenBits(i), BlockStart(i)) && Distinct(t) && x !in Addrs(t)
    requires BlockStart(i) <= s < BlockStart(i) + Pow2(OpenBits(i))
    ensures var r := Insert(t, OpenBits(i), BlockStart(i), s, x);
            && WF(r, OpenBits(i), BlockStart(i)) && r.Node?
            && Distinct(r) && Addrs(r) == Addrs(t) + {x} && Sizes(r) == Sizes(t) + {s}
  {
    hide Pow2, WF, Chunks, OpenBits, BlockStart;
    InsertKeepsTrie(t, OpenBits(i), BlockStart(i), s, x);
    InsertAdds(t, OpenBits(i), BlockStart(i), s, x);
    AddOne(Chunks(t), Chunks(Insert(t, OpenBits(i), BlockStart(i), s, x)), x);
  }

  /** The tree of one bin, after the writes that store chunk `x` in it. */
  lemma InsertLargeDone(v: BinView, v': BinView, h: Heads, i: nat, s: nat, x: int)
    requires BinsOK(v, h) && i < NTREEBINS && InBin(i, s) && BinnedSize(s)
    requires x > 0 && x !in v.members && x in h && h[x].size == s
    requires Shaped(v') && WF(v.trees[i], OpenBits(i), BlockStart(i))
    requires BlockStart(i) <= s < BlockStart(i) + Pow2(OpenBits(i))
    requires v'.smallmap == v.smallmap && v'.small == v.small
    requires v'.treemap == v.treemap[i := true]
    requires v'.treebins == v.treebins[i := v'.treebins[i]]
    requires v'.trees == v.trees[i := Insert(v.trees[i], OpenBits(i), BlockStart(i), s, x)]
    requires v'.members == v.members + {x}
    requires Linked(v'.trees[i], v'.treebins[i], TreeSlot(i), i, v'.cell, h)
    requires forall a :: a in v.cell && a !in Addrs(v.trees[i]) && a != x ==> a in v'.cell && v'.cell[a] == v.cell[a]
    ensures BinsOK(v', h)
  {
    hide SmallOK, Linked, WF, Addrs, InBin, Insert, OpenBits, BlockStart, Pow2;
    var t := v.trees[i];
    assert TreeOK(i, t, v.treebins[i], v.treemap[i], v.cell, h);
    assert x !in Addrs(t) by {
      if x in Addrs(t) {
        TreeMember(v, h, i, x);
      }
    }
    InsertedAddrs(t, i, s, x);
    assert TreeOK(i, v'.trees[i], v'.treebins[i], v'.treemap[i], v'.cell, h);
    InsertLargeChange(v, v', h, i, x);
    forall a | a in Addrs(v'.trees[i])
      ensures a in h && BinnedSize(h[a].size)
    {
      if a != x {
        TreeMember(v, h, i, a);
      }
    }
    TreeBinChanged(v, v', i, h);
  }

  lemma InsertLargeChange(v: BinView, v': BinView, h: Heads, i: nat, x: int)
    requires BinsOK(v, h) && i < NTREEBINS && x > 0 && x !in v.members && Shaped(v')
    requires v'.smallmap == v.smallmap && v'.small == v.small
    requires v'.treemap == v.treemap[i := true]
    requires v'.treebins == v.treebins[i := v'.treebins[i]]
    requires v'.trees == v.trees[i := v'.trees[i]]
    requires Addrs(v'.trees[i]) == Addrs(v.trees[i]) + {x}
    requires v'.members == v.members + {x}
    requires forall a :: a in v.cell && a !in Addrs(v.trees[i]) && a != x ==> a in v'.cell && v'.cell[a] == v.cell[a]
    ensures TreeChange(v, v', i)
  {
    hide TreeOK, Addrs, Circ;
    forall a | a in v.members - Addrs(v.trees[i])
      ensures a in v.cell && a in v'.cell && v'.cell[a] == v.cell[a]
    {
      MemberMapped(v, h, a);
    }
    forall a | a in Addrs(v.trees[i])
      ensures a in v.members && a > 0
    {
      TreeMember(v, h, i, a);
    }
    forall j | 0 <= j < NSMALLBINS
      ensures SmallHeader(j) in v.cell && SmallHeader(j) in v'.cell
      ensures v'.cell[SmallHeader(j)] == v.cell[SmallHeader(j)]
    {
      assert SmallOK(j, v.small[j], v.smallmap[j], v.cell, h);
    }
  }

  lemma InsertIntoEmpty(n: nat, lo: nat, s: nat, x: int)
    requires lo <= s < lo + Pow2(n)
    ensures WF(Empty, n, lo) && Insert(Empty, n, lo, s, x) == Node(s, [x], Empty, Empty)
  {
  }

  /** The walk has ended at its node: there is the size, or the half with the size has no subtree. */
  ghost predicate Landed(root: Tree, i: nat, s: nat, x: int, path: seq<bool>, d: bool)
    requires i < NTREEBINS
  {
    && WF(root, OpenBits(i), BlockStart(i)) && BlockStart(i) <= s < BlockStart(i) + Pow2(OpenBits(i))
    && OnPath(root, path) && At(root, path).Node?
    && var c := At(root, path);
    && (c.size == s ==>
          |c.ring| > 0
          && Insert(root, OpenBits(i), BlockStart(i), s, x) == Put(root, path, c.(ring := RingAdded(c.ring, x))))
    && (c.size != s ==>
          Child(c, d).Empty?
          && Insert(root, OpenBits(i), BlockStart(i), s, x)
             == Put(root, path, WithChild(c, d, Node(s, [x], Empty, Empty))))
  }

  lemma LandedHere(root: Tree, i: nat, s: nat, x: int, path: seq<bool>, n: nat, lo: nat, q: nat, d: bool)
    requires i < NTREEBINS && Walk(root, i, s, x, path, n, lo, q) && At(root, path).size == s
    ensures Landed(root, i, s, x, path, d)
  {
    hide OnPath, At, Put, Pow2, OpenBits, BlockStart;
    var c := At(root, path);
    WFParts(c, n, lo);
  }

  /** Chaining behind the landing node stores the tree with the chunk inserted. */
  lemma ChainedInTree(v: BinView, h: Heads, i: nat, s: nat, x: int, path: seq<bool>, d: bool, m: Cells)
    requires BinsOK(v, h) && i < NTREEBINS && Landed(v.trees[i], i, s, x, path, d)
    requires At(v.trees[i], path).size == s
    requires x > 0 && x !in Addrs(v.trees[i]) && x in h && h[x].size == s
    requires var t := At(v.trees[i], path).ring[0];
             && t in v.cell && v.cell[t].fd in v.cell
             && x in v.cell && Bare(v.cell[x]) && v.cell[x].index == i
             && m == RingInsert(v.cell, t, v.cell[t].fd, x)
    ensures Linked(Insert(v.trees[i], OpenBits(i), BlockStart(i), s, x), v.treebins[i], TreeSlot(i), i, m, h)
    ensures forall a :: a in v.cell && a !in Addrs(v.trees[i]) && a != x ==> a in m && m[a] == v.cell[a]
  {
    hide SmallOK, Linked, WF, Chunks, InBin, Insert, Put, At, OnPath, RingInsert, Circ, OpenBits, BlockStart;
    WalkReads(v, h, i, path);
    var c := At(v.trees[i], path);
    var t := c.ring[0];
    var f := v.cell[t].fd;
    ChainedFd(c, t, v.cell[t].parent, i, v.cell, h);
    InsertChainedLinked(c, x, t, v.cell[t].parent, i, v.cell, h, m);
    forall a | a in v.cell && a !in Addrs(c) && a != x
      ensures a in m && m[a] == v.cell[a]
    {
      InsertRingFrame(v.cell, t, f, x, a);
    }
    assert TreeOK(i, v.trees[i], v.treebins[i], v.treemap[i], v.cell, h);
    LinkedMapped(v.trees[i], v.treebins[i], TreeSlot(i), i, v.cell, h);
    PutLinked(v.trees[i], path, c.(ring := RingAdded(c.ring, x)), v.treebins[i], TreeSlot(i), i, v.cell, h, m, h);
  }

  lemma ChainedFd(c: Tree, t: int, par: int, i: int, m: Cells, h: Heads)
    requires c.Node? && Linked(c, t, par, i, m, h)
    ensures t in m && m[t].fd in Addrs(c) && t in Addrs(c)
  {
    hide Linked, Circ;
    LinkedParts(c, t, par, i, m, h);
    CircAt(c.ring, m, 0);
    ChunkCount(c, t);
    ChunkCount(c, m[t].fd);
  }

  /** Hanging a leaf below the landing node stores the tree with the chunk inserted. */
  lemma LeafInTree(v: BinView, h: Heads, i: nat, s: nat, x: int, path: seq<bool>, d: bool, m: Cells)
    requires BinsOK(v, h) && i < NTREEBINS && Landed(v.trees[i], i, s, x, path, d)
    requires At(v.trees[i], path).size != s
    requires x > 0 && x !in Addrs(v.trees[i]) && x in h && h[x].size == s
    requires |At(v.trees[i], path).ring| > 0
    requires var t := At(v.trees[i], path).ring[0];
             && t in v.cell && t != x
             && m == SetChild(v.cell, t, d, x)[x := Cell(x, x, 0, 0, t, i)]
    ensures Linked(Insert(v.trees[i], OpenBits(i), BlockStart(i), s, x), v.treebins[i], TreeSlot(i), i, m, h)
    ensures forall a :: a in v.cell && a !in Addrs(v.trees[i]) && a != x ==> a in m && m[a] == v.cell[a]
  {
    hide SmallOK, Linked, WF, Chunks, InBin, Insert, Put, At, OnPath, Circ, OpenBits, BlockStart;
    WalkReads(v, h, i, path);
    var c := At(v.trees[i], path);
    var t := c.ring[0];
    ChainedFd(c, t, v.cell[t].parent, i, v.cell, h);
    LinkedMapped(c, t, v.cell[t].parent, i, v.cell, h);
    InsertLeafLinked(c, d, s, x, t, v.cell[t].parent, i, v.cell, h, m);
    assert TreeOK(i, v.trees[i], v.treebins[i], v.treemap[i], v.cell, h);
    LinkedMapped(v.trees[i], v.treebins[i], TreeSlot(i), i, v.cell, h);
    PutLinked(v.trees[i], path, WithChild(c, d, Node(s, [x], Empty, Empty)),
              v.treebins[i], TreeSlot(i), i, v.cell, h, m, h);
  }

  // ----- unlinking

  /** The path of the size bits ends at the node of the chunk. */
  lemma {:induction false} NodeOf(t: Tree, n: nat, lo: nat, s: nat, x: int) returns (path: seq<bool>)
    requires WF(t, n, lo) && Holds(t, s, x)
    ensures OnPath(t, path) && At(t, path).Node? && At(t, path).size == s && x in At(t, path).ring
    ensures Remove(t, n, lo, s, x) == Put(t, path, RemoveHere(At(t, path), x))
    decreases t
  {
    hide WF, Pow2, Holds;
    HoldsWhere(t, n, lo, s, x);
    WFParts(t, n, lo);
    if t.size == s {
      path := [];
    } else {
      var d := s >= lo + Pow2(n - 1);
      var p := NodeOf(Child(t, d), n - 1, if d then lo + Pow2(n - 1) else lo, s, x);
      path := [d] + p;
      assert path[1..] == p;
    }
  }

  /** The parent field of a node names the node above it, or the slot. */
  lemma {:induction false} ParentOf(t: Tree, path: seq<bool>, root: int, par: int, idx: int, m: Cells, h: Heads)
    requires OnPath(t, path) && Linked(t, root, par, idx, m, h) && At(t, path).Node? && Distinct(t)
    ensures |At(t, path).ring| > 0 && At(t, path).ring[0] in m
    ensures path == [] ==> At(t, path).ring[0] == root && m[root].parent == par
    ensures path != [] ==>
              && OnPath(t, Front(path)) && At(t, Front(path)).Node? && |At(t, Front(path)).ring| > 0
              && var xp := At(t, Front(path)).ring[0];
              && m[At(t, path).ring[0]].parent == xp && xp in m && xp != 0
              && xp !in Addrs(At(t, path))
              && GetChild(m[xp], path[|path| - 1]) == At(t, path).ring[0]
              && GetChild(m[xp], !path[|path| - 1]) != At(t, path).ring[0]
              && At(t, path).ring[0] != root
  {
    hide Linked, Circ, Members, Chunks, OnPath, At, Put;
    AtLinked(t, path, root, par, idx, m, h);
    if path != [] {
      FrontPath(t, path);
      var p, d := At(t, Front(path)), path[|path| - 1];
      AtLinked(t, Front(path), root, par, idx, m, h);
      AtDistinct(t, Front(path));
      var xp := p.ring[0];
      LinkedParts(p, xp, m[xp].parent, idx, m, h);
      DistinctParts(p);
      ChildRoot(Child(p, d), GetChild(m[xp], d), xp, idx, m, h);
      LinkedParts(Child(p, d), GetChild(m[xp], d), xp, idx, m, h);
      ChildRoot(Child(p, !d), GetChild(m[xp], !d), xp, idx, m, h);
      assert xp in RingSet(p.ring);
      BelowRoot(t, path, root, par, idx, m, h);
    }
  }

  /** A node below the root is not the root. */
  lemma BelowRoot(t: Tree, path: seq<bool>, root: int, par: int, idx: int, m: Cells, h: Heads)
    requires path != [] && OnPath(t, path) && Linked(t, root, par, idx, m, h) && At(t, path).Node? && Distinct(t)
    requires |At(t, path).ring| > 0
    ensures At(t, path).ring[0] != root
  {
    hide Linked, Circ, Members, Chunks;
    LinkedRoot(t, path, root, par, idx, m, h);
    LinkedParts(t, root, par, idx, m, h);
    DistinctParts(t);
    AtDistinct(Child(t, path[0]), path[1..]);
    ChunkCount(At(t, path), At(t, path).ring[0]);
    assert root in RingSet(t.ring);
  }

  /** The node at the end of the path is replaced, and the field above it redirected. */
  lemma NodeReplaced(t: Tree, path: seq<bool>, s': Tree, r: int, root: int, par: int, idx: int,
                     m: Cells, h: Heads, m': Cells)
    requires OnPath(t, path) && Linked(t, root, par, idx, m, h) && At(t, path).Node? && Distinct(t)
    requires |At(t, path).ring| > 0 && At(t, path).ring[0] in m
    requires Linked(s', r, m[At(t, path).ring[0]].parent, idx, m', h)
    requires var xp := m[At(t, path).ring[0]].parent;
             && SameCells(m, m', Addrs(t) - Addrs(At(t, path)) - {xp})
             && (path != [] ==> xp in m && xp in m' && m'[xp] == SetChild(m, xp, path[|path| - 1], r)[xp])
    ensures Linked(Put(t, path, s'), if path == [] then r else root, par, idx, m', h)
  {
    hide Linked, Circ, Members, Chunks;
    ParentOf(t, path, root, par, idx, m, h);
    if path != [] {
      FrontPath(t, path);
      var p, d := At(t, Front(path)), path[|path| - 1];
      var xp := p.ring[0];
      AtLinked(t, Front(path), root, par, idx, m, h);
      AtDistinct(t, Front(path));
      hide At, OnPath, Put;
      LinkedMapped(t, root, par, idx, m, h);
      ChildAddrs(p);
      NewChildLinked(p, d, s', r, xp, m[xp].parent, idx, m, h, m');
      LinkedParts(p, xp, m[xp].parent, idx, m, h);
      assert xp in RingSet(p.ring);
      PutLinked(t, Front(path), WithChild(p, d, s'), root, par, idx, m, h, m', h);
    }
  }

  lemma RemovedAddrs(t: Tree, i: nat, s: nat, x: int)
    requires i < NTREEBINS && WF(t, OpenBits(i), BlockStart(i)) && Distinct(t) && Holds(t, s, x)
    ensures var r := Remove(t, OpenBits(i), BlockStart(i), s, x);
            && WF(r, OpenBits(i), BlockStart(i))
            && Distinct(r) && Addrs(r) == Addrs(t) - {x} && Sizes(r) <= Sizes(t)
  {
    hide Pow2, WF, Chunks, OpenBits, BlockStart, Holds;
    RemoveKeepsTrie(t, OpenBits(i), BlockStart(i), s, x);
    RemoveTakes(t, OpenBits(i), BlockStart(i), s, x);
    DropOne(Chunks(t), Chunks(Remove(t, OpenBits(i), BlockStart(i), s, x)), x);
  }

  lemma UnlinkLargeDone(v: BinView, v': BinView, h: Heads, i: nat, s: nat, x: int)
    requires BinsOK(v, h) && i < NTREEBINS && Holds(v.trees[i], s, x)
    requires Shaped(v') && WF(v.trees[i], OpenBits(i), BlockStart(i))
    requires v'.smallmap == v.smallmap && v'.small == v.small
    requires v'.trees == v.trees[i := Remove(v.trees[i], OpenBits(i), BlockStart(i), s, x)]
    requires v'.treemap == v.treemap[i := v'.trees[i].Node?]
    requires v'.treebins == v.treebins[i := v'.treebins[i]]
    requires v'.members == v.members - {x}
    requires Linked(v'.trees[i], v'.treebins[i], TreeSlot(i), i, v'.cell, h)
    requires forall a :: a in v.cell && a !in Addrs(v.trees[i]) ==> a in v'.cell && v'.cell[a] == v.cell[a]
    ensures BinsOK(v', h)
  {
    hide SmallOK, Linked, WF, Addrs, InBin, Remove, OpenBits, BlockStart, Pow2, Holds;
    var t := v.trees[i];
    assert TreeOK(i, t, v.treebins[i], v.treemap[i], v.cell, h);
    RemovedAddrs(t, i, s, x);
    HoldsSize(t, s, x);
    assert TreeOK(i, v'.trees[i], v'.treebins[i], v'.treemap[i], v'.cell, h);
    UnlinkLargeChange(v, v', h, i, x);
    forall a | a in Addrs(v'.trees[i])
      ensures a in h && BinnedSize(h[a].size)
    {
      TreeMember(v, h, i, a);
    }
    TreeBinChanged(v, v', i, h);
  }

  lemma UnlinkLargeChange(v: BinView, v': BinView, h: Heads, i: nat, x: int)
    requires BinsOK(v, h) && i < NTREEBINS && Shaped(v') && x in Addrs(v.trees[i])
    requires v'.smallmap == v.smallmap && v'.small == v.small
    requires v'.treemap == v.treemap[i := v'.treemap[i]]
    requires v'.treebins == v.treebins[i := v'.treebins[i]]
    requires v'.trees == v.trees[i := v'.trees[i]]
    requires Addrs(v'.trees[i]) == Addrs(v.trees[i]) - {x}
    requires v'.members == v.members - {x}
    requires forall a :: a in v.cell && a !in Addrs(v.trees[i]) ==> a in v'.cell && v'.cell[a] == v.cell[a]
    ensures TreeChange(v, v', i)
  {
    hide TreeOK, Addrs, Circ;
    forall a | a in v.members - Addrs(v.trees[i])
      ensures a in v.cell && a in v'.cell && v'.cell[a] == v.cell[a]
    {
      MemberMapped(v, h, a);
    }
    forall a | a in Addrs(v.trees[i])
      ensures a in v.members && a > 0
    {
      TreeMember(v, h, i, a);
    }
    forall j | 0 <= j < NSMALLBINS
      ensures SmallHeader(j) in v.cell && SmallHeader(j) in v'.cell
      ensures v'.cell[SmallHeader(j)] == v.cell[SmallHeader(j)]
    {
      assert SmallOK(j, v.small[j], v.smallmap[j], v.cell, h);
    }
  }

  /** The search for the leaf stands at the node at the end of `path`, pointed to from `rp`. */
  ghost predicate LeafWalk(t: Tree, x: int, path: seq<bool>, r: int, rp: int, rd: bool) {
    && t.Node? && Child(t, LeafSide(t)).Node?
    && var c := Child(t, LeafSide(t));
    && OnPath(c, path) && At(c, path).Node?
    && |At(c, path).ring| > 0 && r == At(c, path).ring[0]
    && MovedLeaf(At(c, path)) == MovedLeaf(c)
    && Put(c, path, DropLeaf(At(c, path))) == DropLeaf(c)
    && (path == [] ==> rp == x && rd == LeafSide(t))
    && (path != [] ==>
          && OnPath(c, Front(path)) && At(c, Front(path)).Node? && |At(c, Front(path)).ring| > 0
          && rp == At(c, Front(path)).ring[0] && rd == path[|path| - 1])
  }

  lemma LeafWalkStart(t: Tree, x: int, par: int, idx: int, m: Cells, h: Heads)
    requires t.Node? && Linked(t, x, par, idx, m, h)
    ensures x in m && (m[x].right != 0 <==> t.right.Node?) && (m[x].left != 0 <==> t.left.Node?)
    ensures var d := LeafSide(t);
            Child(t, d).Node? ==> LeafWalk(t, x, [], GetChild(m[x], d), x, d)
  {
    hide Linked, Circ, Members;
    LinkedParts(t, x, par, idx, m, h);
    ChildRoot(t.left, m[x].left, x, idx, m, h);
    ChildRoot(t.right, m[x].right, x, idx, m, h);
    var d := LeafSide(t);
    if Child(t, d).Node? {
      LinkedParts(Child(t, d), GetChild(m[x], d), x, idx, m, h);
    }
  }

  lemma LeafWalkReads(t: Tree, x: int, par: int, idx: int, m: Cells, h: Heads, path: seq<bool>, r: int, rp: int, rd: bool)
    requires LeafWalk(t, x, path, r, rp, rd) && Linked(t, x, par, idx, m, h)
    ensures r in m && r != 0
    ensures var c := At(Child(t, LeafSide(t)), path);
            && (m[r].right != 0 <==> c.right.Node?) && (m[r].left != 0 <==> c.left.Node?)
            && (c.right.Node? ==> |c.right.ring| > 0 && c.right.ring[0] == m[r].right)
            && (c.left.Node? ==> |c.left.ring| > 0 && c.left.ring[0] == m[r].left)
  {
    hide Linked, Circ, Members;
    LinkedParts(t, x, par, idx, m, h);
    var d := LeafSide(t);
    AtLinked(Child(t, d), path, GetChild(m[x], d), x, idx, m, h);
    var c := At(Child(t, d), path);
    LinkedParts(c, r, m[r].parent, idx, m, h);
    ChildRoot(c.left, m[r].left, r, idx, m, h);
    ChildRoot(c.right, m[r].right, r, idx, m, h);
    if c.right.Node? {
      LinkedParts(c.right, m[r].right, r, idx, m, h);
    }
    if c.left.Node? {
      LinkedParts(c.left, m[r].left, r, idx, m, h);
    }
  }

  lemma LeafWalkStep(t: Tree, x: int, path: seq<bool>, r: int, rp: int, rd: bool, d: bool)
    requires LeafWalk(t, x, path, r, rp, rd)
    requires var c := At(Child(t, LeafSide(t)), path);
             Child(c, d).Node? && d == c.right.Node? && |Child(c, d).ring| > 0
    ensures LeafWalk(t, x, path + [d], Child(At(Child(t, LeafSide(t)), path), d).ring[0], r, d)
    ensures At(Child(t, LeafSide(t)), path + [d]) == Child(At(Child(t, LeafSide(t)), path), d)
  {
    var c := Child(t, LeafSide(t));
    var n := At(c, path);
    AtSnoc(c, path, d, DropLeaf(Child(n, d)));
    hide At, OnPath, Put;
    assert DropLeaf(n) == WithChild(n, d, DropLeaf(Child(n, d)));
    assert MovedLeaf(n) == MovedLeaf(Child(n, d));
    assert Front(path + [d]) == path;
  }

  lemma LeafWalkEnd(t: Tree, x: int, path: seq<bool>, r: int, rp: int, rd: bool)
    requires LeafWalk(t, x, path, r, rp, rd)
    requires var c := At(Child(t, LeafSide(t)), path); c.left.Empty? && c.right.Empty?
    ensures LeafSpot(t, x, path, rp, rd)
    ensures var l := MovedLeaf(Child(t, LeafSide(t))); |l.ring| > 0 && l.ring[0] == r
  {
    hide At, OnPath, Put;
  }

  // ----- the three ways a tree chunk is unlinked

  /** Nothing outside the subtree at `path` and the field above it differs. */
  ghost predicate OnlyBelow(t: Tree, path: seq<bool>, m: Cells, m': Cells)
    requires OnPath(t, path)
  {
    forall a :: a in m && a !in Addrs(At(t, path)) ==> a in m' && m'[a] == m[a]
  }

  lemma UnlinkChained(t: Tree, path: seq<bool>, x: int, root: int, par: int, idx: int, m: Cells, h: Heads)
    requires OnPath(t, path) && Linked(t, root, par, idx, m, h) && Distinct(t) && At(t, path).Node?
    requires x in At(t, path).ring && x != At(t, path).ring[0]
    ensures x in m && m[x].parent == 0 && m[x].bk != x && m[x].fd in m && m[x].bk in m
    ensures Linked(Put(t, path, RemoveHere(At(t, path), x)), root, par, idx, RingRemove(m, x), h)
    ensures OnlyBelow(t, path, m, RingRemove(m, x))
  {
    hide Linked, Circ, Chunks, RingRemove, Put, At, OnPath, Members;
    var c := At(t, path);
    AtLinked(t, path, root, par, idx, m, h);
    AtDistinct(t, path);
    var cr := c.ring[0];
    LinkedParts(c, cr, m[cr].parent, idx, m, h);
    var k := IndexOf(c.ring, x);
    ChainedFields(c, k, idx, m, h);
    UnlinkChainedLinked(c, k, cr, m[cr].parent, idx, m, h);
    forall a | a in m && a !in Addrs(c)
      ensures a in RingRemove(m, x) && RingRemove(m, x)[a] == m[a]
    {
      RemoveRingFrame(m, x, a);
      ChunkCount(c, m[x].fd);
      ChunkCount(c, m[x].bk);
    }
    LinkedMapped(t, root, par, idx, m, h);
    PutLinked(t, path, c.(ring := RingWithout(c.ring, k)), root, par, idx, m, h, RingRemove(m, x), h);
  }

  lemma ChainedFields(c: Tree, k: nat, idx: int, m: Cells, h: Heads)
    requires c.Node? && Circ(c.ring, m) && Members(c, idx, m, h) && 1 <= k < |c.ring|
    ensures var x := c.ring[k];
            && x in m && m[x].parent == 0 && m[x].bk != x
            && m[x].fd in c.ring && m[x].bk in c.ring && m[x].fd in m && m[x].bk in m
  {
    hide Circ;
    CircAt(c.ring, m, k);
    CircDistinct(c.ring, m, k, Prv(k, |c.ring|));
    CircRing(c.ring, m);
    assert Bare(m[c.ring[k]]);
  }

  /** The tree member leaves and `r` takes its place, bringing the remaining subtree. */
  lemma UnlinkReplaced(t: Tree, path: seq<bool>, s': Tree, r: int, x: int, root: int, par: int, idx: int,
                       m: Cells, h: Heads, m1: Cells, m2: Cells)
    requires OnPath(t, path) && Linked(t, root, par, idx, m, h) && Distinct(t) && At(t, path).Node?
    requires |At(t, path).ring| > 0 && x == At(t, path).ring[0] && x in m
    requires Ready(s', r, x, idx, m1, h) && Addrs(s') <= Addrs(At(t, path))
    requires OnlyBelow(t, path, m, m1)
    requires path == [] ==> m2 == m1
    requires path != [] ==> m[x].parent in m1 && m2 == SetChild(m1, m[x].parent, path[|path| - 1], r)
    ensures r in m2 && x in m2 && x != r && x != m2[x].left && x != m2[x].right
    ensures (m2[x].left != 0 ==> m2[x].left in m2) && (m2[x].right != 0 ==> m2[x].right in m2)
    ensures var m3 := Adopt(m2, r, x, m[x].parent);
            && Linked(Put(t, path, s'), if path == [] then r else root, par, idx, m3, h)
            && (forall a :: a in m && a !in Addrs(t) ==> a in m3 && m3[a] == m[a])
  {
    hide Linked, Circ, Chunks, Adopt, Put, At, OnPath, Members;
    var xp := m[x].parent;
    ParentOf(t, path, root, par, idx, m, h);
    AtDistinct(t, path);
    var c := At(t, path);
    LinkedMapped(t, root, par, idx, m, h);
    ChunkCount(c, x);
    assert x in Addrs(c);
    ReadyMapped(s', r, x, idx, m1, h);
    ReadyFrame(s', r, x, idx, m1, h, m2);
    AdoptOk(s', r, x, idx, m2, h);
    AdoptLinked(s', r, x, xp, idx, m2, h);
    var m3 := Adopt(m2, r, x, xp);
    ReadyAddrs(s', r, x, idx, m2, h);
    forall a | a in m && a !in Addrs(c)
      ensures a in m2 && a in m3 && m3[a] == m2[a]
    {
      AdoptWrites(m2, r, x, xp, a);
    }
    if path != [] {
      FrontPath(t, path);
      AtDistinct(t, Front(path));
      ChunkCount(At(t, Front(path)), xp);
    }
    NodeReplaced(t, path, s', r, root, par, idx, m, h, m3);
  }

  lemma ReadyAddrs(s': Tree, r: int, x: int, idx: int, m: Cells, h: Heads)
    requires Ready(s', r, x, idx, m, h)
    ensures r in Addrs(s')
    ensures m[x].left != 0 ==> m[x].left in Addrs(s')
    ensures m[x].right != 0 ==> m[x].right in Addrs(s')
    ensures m[x].left != 0 ==> m[x].left != m[x].right
  {
    hide Linked, Circ, Chunks, Members;
    AdoptOk(s', r, x, idx, m, h);
    DistinctParts(s');
    assert r in RingSet(s'.ring);
  }

  /** The tree member leaves and nothing is below it. */
  lemma UnlinkBare(t: Tree, path: seq<bool>, x: int, root: int, par: int, idx: int, m: Cells, h: Heads, m': Cells)
    requires OnPath(t, path) && Linked(t, root, par, idx, m, h) && Distinct(t) && At(t, path).Node?
    requires |At(t, path).ring| > 0 && x == At(t, path).ring[0] && x in m
    requires path == [] ==> m' == m
    requires path != [] ==> m[x].parent in m && m' == SetChild(m, m[x].parent, path[|path| - 1], 0)
    ensures Linked(Put(t, path, Empty), if path == [] then 0 else root, par, idx, m', h)
    ensures forall a :: a in m && a !in Addrs(t) ==> a in m' && m'[a] == m[a]
  {
    hide Linked, Circ, Chunks, Put, At, OnPath, Members;
    ParentOf(t, path, root, par, idx, m, h);
    LinkedMapped(t, root, par, idx, m, h);
    LinkedEmpty(0, m[x].parent, idx, m', h);
    if path != [] {
      FrontPath(t, path);
      AtDistinct(t, Front(path));
      ChunkCount(At(t, Front(path)), m[x].parent);
    }
    NodeReplaced(t, path, Empty, 0, root, par, idx, m, h, m');
  }

  /** What the first half of unlinking leaves behind: the chunk off its ring, a replacement picked. */
  ghost predicate Taken(t: Tree, path: seq<bool>, x: int, r: int, idx: int, m: Cells, h: Heads, m1: Cells)
    requires OnPath(t, path)
  {
    && At(t, path).Node? && x in At(t, path).ring
    && x in m && x in m1 && m1[x].index == m[x].index
    && var c := At(t, path);
    && (x != c.ring[0] ==> m[x].fd in m && m[x].bk in m && m1 == RingRemove(m, x))
    && (x == c.ring[0] && r == 0 ==> m1 == m && RemoveHere(c, x) == Empty)
    && (x == c.ring[0] && r != 0 ==>
          Ready(RemoveHere(c, x), r, x, idx, m1, h)
          && Addrs(RemoveHere(c, x)) <= Addrs(c) && OnlyBelow(t, path, m, m1))
  }

  /** A longer ring hands over to its last chunk. */
  lemma TakenFromRing(t: Tree, path: seq<bool>, x: int, root: int, par: int, idx: int, m: Cells, h: Heads)
    requires OnPath(t, path) && Linked(t, root, par, idx, m, h) && Distinct(t) && At(t, path).Node?
    requires |At(t, path).ring| > 1 && x == At(t, path).ring[0]
    ensures x in m && m[x].fd in m && m[x].bk in m && m[x].bk != 0
    ensures Taken(t, path, x, m[x].bk, idx, m, h, RingRemove(m, x))
  {
    hide Linked, Circ, RingRemove, Put, At, OnPath, Members, Chunks;
    var c := At(t, path);
    AtLinked(t, path, root, par, idx, m, h);
    AtDistinct(t, path);
    LinkedParts(c, x, m[x].parent, idx, m, h);
    HeadReady(c, x, m[x].parent, idx, m, h);
    HeadRing(c, x, m);
    assert IndexOf(c.ring, x) == 0;
    HereAddrs(c, x);
    RemoveRingFrame(m, x, x);
    forall a | a in m && a !in Addrs(c)
      ensures a in RingRemove(m, x) && RingRemove(m, x)[a] == m[a]
    {
      RemoveRingFrame(m, x, a);
      ChunkCount(c, m[x].fd);
      ChunkCount(c, m[x].bk);
    }
  }

  lemma HereAddrs(c: Tree, x: int)
    requires c.Node? && x in c.ring
    ensures Addrs(RemoveHere(c, x)) <= Addrs(c)
  {
    RemoveHereTakes(c, x);
  }

  /** The last chunk of a size hands over to a leaf. */
  lemma TakenFromLeaf(t: Tree, path: seq<bool>, x: int, root: int, par: int, idx: int, m: Cells, h: Heads,
                      p2: seq<bool>, r: int, rp: int, rd: bool)
    requires OnPath(t, path) && Linked(t, root, par, idx, m, h) && Distinct(t) && At(t, path).Node?
    requires |At(t, path).ring| == 1 && x == At(t, path).ring[0]
    requires LeafSpot(At(t, path), x, p2, rp, rd)
    requires var l := MovedLeaf(Child(At(t, path), LeafSide(At(t, path)))); |l.ring| > 0 && l.ring[0] == r
    ensures rp in m && r != 0 && Taken(t, path, x, r, idx, m, h, SetChild(m, rp, rd, 0))
  {
    hide Linked, Circ, Put, At, OnPath, Members, Chunks, LeafSpot;
    var c := At(t, path);
    AtLinked(t, path, root, par, idx, m, h);
    AtDistinct(t, path);
    LeafReady(c, x, m[x].parent, idx, m, h, p2, rp, rd);
    LeafCut(c, x, m[x].parent, idx, m, h, p2, rp, rd);
    SpliceIsRemoval(c, x);
    HereAddrs(c, x);
    ChildAddrs(c);
    ChunkCount(c, x);
  }

  lemma SpliceIsRemoval(c: Tree, x: int)
    requires c.Node? && c.ring == [x]
    ensures RemoveHere(c, x) == Splice(c)
  {
  }

  lemma TakenFromNone(t: Tree, path: seq<bool>, x: int, idx: int, m: Cells, h: Heads)
    requires OnPath(t, path) && At(t, path).Node? && At(t, path).ring == [x]
    requires At(t, path).left.Empty? && At(t, path).right.Empty? && x in m
    ensures Taken(t, path, x, 0, idx, m, h, m)
  {
  }

  /** The chunk's own fields tell the cases apart. */
  lemma UnlinkReads(t: Tree, path: seq<bool>, x: int, root: int, par: int, idx: int, m: Cells, h: Heads)
    requires OnPath(t, path) && Linked(t, root, par, idx, m, h) && Distinct(t) && At(t, path).Node?
    requires x in At(t, path).ring && par != 0
    ensures var c := At(t, path);
            && |c.ring| > 0 && x in m && m[x].fd in m && m[x].bk in m && m[x].index == idx
            && (m[x].bk == x <==> |c.ring| == 1)
            && (x != c.ring[0] <==> m[x].parent == 0)
            && (x == c.ring[0] ==> Linked(c, x, m[x].parent, idx, m, h) && Distinct(c))
  {
    hide Linked, Circ, Put, At, OnPath, Chunks;
    var c := At(t, path);
    AtLinked(t, path, root, par, idx, m, h);
    AtDistinct(t, path);
    var cr := c.ring[0];
    LinkedParts(c, cr, m[cr].parent, idx, m, h);
    var k := IndexOf(c.ring, x);
    CircAt(c.ring, m, k);
    CircRing(c.ring, m);
    if |c.ring| > 1 {
      CircDistinct(c.ring, m, k, Prv(k, |c.ring|));
    }
    if k > 0 {
      assert Bare(m[c.ring[k]]);
      CircDistinct(c.ring, m, 0, k);
    } else {
      ParentOf(t, path, root, par, idx, m, h);
    }
  }

  /** What the second half of unlinking relies on when `x` is the tree member. */
  lemma RelinkReady(t: Tree, path: seq<bool>, x: int, r: int, root: int, par: int, idx: int,
                    m: Cells, h: Heads, m1: Cells)
    requires OnPath(t, path) && Linked(t, root, par, idx, m, h) && Distinct(t) && At(t, path).Node?
    requires Taken(t, path, x, r, idx, m, h, m1) && |At(t, path).ring| > 0 && x == At(t, path).ring[0]
    requires m[x].index == idx
    ensures x in m1 && m1[x].index == idx && (x == root <==> path == [])
    ensures path != [] ==> m[x].parent in m1 && (m1[m[x].parent].left != x <==> path[|path| - 1])
    ensures x != m[x].parent || (path == [] && x == par)
    ensures r != 0 ==>
              && r in m1 && x != r && x != m1[x].left && x != m1[x].right
              && (m1[x].left != 0 ==> m1[x].left in m1)
              && (m1[x].right != 0 ==> m1[x].right in m1)
  {
    hide Linked, Circ, Chunks, Put, At, OnPath, Members;
    ParentOf(t, path, root, par, idx, m, h);
    ChunkCount(At(t, path), x);
    if r != 0 {
      AdoptOk(RemoveHere(At(t, path), x), r, x, idx, m1, h);
    }
  }

  /** Both halves together store the tree without the chunk. */
  lemma UnlinkedTree(t: Tree, path: seq<bool>, x: int, r: int, root: int, par: int, idx: int,
                     m: Cells, h: Heads, m1: Cells, m2: Cells, m3: Cells)
    requires OnPath(t, path) && Linked(t, root, par, idx, m, h) && Distinct(t) && At(t, path).Node?
    requires Taken(t, path, x, r, idx, m, h, m1) && |At(t, path).ring| > 0 && x == At(t, path).ring[0]
    requires path == [] ==> m2 == m1
    requires path != [] ==> m[x].parent in m1 && m2 == SetChild(m1, m[x].parent, path[|path| - 1], r)
    requires r == 0 ==> m3 == m2
    requires r != 0 ==>
               && r in m2 && x in m2 && x != r && x != m2[x].left && x != m2[x].right
               && (m2[x].left != 0 ==> m2[x].left in m2) && (m2[x].right != 0 ==> m2[x].right in m2)
               && m3 == Adopt(m2, r, x, m[x].parent)
    ensures Linked(Put(t, path, RemoveHere(At(t, path), x)), if path == [] then r else root, par, idx, m3, h)
    ensures forall a :: a in m && a !in Addrs(t) ==> a in m3 && m3[a] == m[a]
  {
    hide Linked, Circ, Chunks, Put, At, OnPath, Members, Adopt, Ready;
    if r == 0 {
      UnlinkBare(t, path, x, root, par, idx, m, h, m3);
    } else {
      UnlinkReplaced(t, path, RemoveHere(At(t, path), x), r, x, root, par, idx, m, h, m1, m2);
    }
  }
}
