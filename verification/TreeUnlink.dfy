/** Taking a chunk out of a stored trie, in the order of the writes. */
module TreeUnlink {
  import opened Memory
  import opened Rings
  import opened Trie
  import opened TreeLinks
  import opened TreeEdits

  /** A chained chunk leaves its ring; the tree member stays. */
  lemma UnlinkChainedLinked(t: Tree, k: nat, root: int, par: int, idx: int, m: Cells, h: Heads)
    requires t.Node? && Linked(t, root, par, idx, m, h) && Distinct(t) && 1 <= k < |t.ring|
    ensures t.ring[k] in m && m[t.ring[k]].fd in m && m[t.ring[k]].bk in m
    ensures Linked(t.(ring := RingWithout(t.ring, k)), root, par, idx, RingRemove(m, t.ring[k]), h)
  {
    hide Linked, Circ, Members, Distinct, Chunks, Addrs, RingRemove;
    LinkedParts(t, root, par, idx, m, h);
    var x := t.ring[k];
    CircAt(t.ring, m, k);
    RemoveRing(t.ring, k, m);
    var r := t.(ring := RingWithout(t.ring, k));
    assert r.ring == RingDropped(t.ring, k);
    RingKeepsChildren(t, k, root, par, idx, m, h);
    DroppedMembers(t, k, x, idx, m, h);
    LinkedIntro(r, root, par, idx, RingRemove(m, x), h);
  }

  lemma DroppedMembers(t: Tree, k: nat, x: int, idx: int, m: Cells, h: Heads)
    requires t.Node? && Members(t, idx, m, h) && 1 <= k < |t.ring| && x == t.ring[k]
    requires x in m && m[x].fd in m && m[x].bk in m
    ensures Members(t.(ring := RingDropped(t.ring, k)), idx, RingRemove(m, x), h)
  {
    hide RingRemove;
    var r := RingDropped(t.ring, k);
    forall a | a in r
      ensures a in RingRemove(m, x) && a in h && h[a].size == t.size && RingRemove(m, x)[a].index == idx
    {
      RemoveRingFrame(m, x, a);
    }
    forall i | 1 <= i < |r|
      ensures Bare(RingRemove(m, x)[r[i]])
    {
      var o := if i < k then i else i + 1;
      assert r[i] == t.ring[o];
      assert Bare(m[t.ring[o]]);
      RemoveRingFrame(m, x, r[i]);
    }
  }

  /**
   * `t` is about to replace the node of chunk `x`: its root has its ring but no links of its own,
   * and its subtrees still hang below `x`.
   */
  ghost predicate Ready(t: Tree, r: int, x: int, idx: int, m: Cells, h: Heads) {
    && t.Node? && |t.ring| > 0 && t.ring[0] == r && r != 0 && x != 0
    && Distinct(t) && x !in Addrs(t)
    && Circ(t.ring, m) && Members(t, idx, m, h)
    && r in m && x in m && m[r].left == 0 && m[r].right == 0
    && Linked(t.left, m[x].left, x, idx, m, h)
    && Linked(t.right, m[x].right, x, idx, m, h)
  }

  lemma ReadyFrame(t: Tree, r: int, x: int, idx: int, m: Cells, h: Heads, m': Cells)
    requires Ready(t, r, x, idx, m, h) && SameCells(m, m', Addrs(t) + {x})
    ensures Ready(t, r, x, idx, m', h)
  {
    hide Linked, Circ, Members, Chunks;
    DistinctParts(t);
    CircRing(t.ring, m);
    assert forall a :: a in t.ring ==> a in RingSet(t.ring);
    CircFrame(t.ring, m, m');
    ReadyMapped(t, r, x, idx, m, h);
    MembersFrame(t, idx, m, h, m', h);
    LinkedFrame(t.left, m[x].left, x, idx, m, h, m', h);
    LinkedFrame(t.right, m[x].right, x, idx, m, h, m', h);
  }

  lemma ReadyMapped(t: Tree, r: int, x: int, idx: int, m: Cells, h: Heads)
    requires Ready(t, r, x, idx, m, h)
    ensures SameHeads(h, h, Addrs(t)) && SameCells(m, m, Addrs(t))
  {
    hide Linked, Circ, Chunks;
    DistinctParts(t);
    LinkedMapped(t.left, m[x].left, x, idx, m, h);
    LinkedMapped(t.right, m[x].right, x, idx, m, h);
  }

  /** Chunk `c` becomes the child of `r`. */
  function AdoptChild(m: Cells, r: int, d: bool, c: int): (m': Cells)
    requires r in m && c in m
  {
    var m1 := SetChild(m, r, d, c);
    m1[c := m1[c].(parent := r)]
  }

  /** `r` takes the place of `x` below `xp`, with the children of `x`. */
  function Adopt(m: Cells, r: int, x: int, xp: int): (m': Cells)
    requires r in m && x in m
    requires m[x].left != 0 ==> m[x].left in m
    requires m[x].right != 0 ==> m[x].right in m
    requires x != r && x != m[x].left && x != m[x].right
  {
    var m1 := m[r := m[r].(parent := xp)];
    var m2 := if m1[x].left != 0 then AdoptChild(m1, r, false, m1[x].left) else m1;
    if m2[x].right != 0 then AdoptChild(m2, r, true, m2[x].right) else m2
  }

  lemma ChildRoot(t: Tree, root: int, par: int, idx: int, m: Cells, h: Heads)
    requires Linked(t, root, par, idx, m, h)
    ensures root != 0 <==> t.Node?
    ensures root != 0 ==> root in m && root in Addrs(t)
  {
    if t.Node? {
      LinkedParts(t, root, par, idx, m, h);
      ChunkCount(t, root);
    }
  }

  lemma AdoptOk(t: Tree, r: int, x: int, idx: int, m: Cells, h: Heads)
    requires Ready(t, r, x, idx, m, h)
    ensures m[x].left != 0 ==> m[x].left in m && m[x].left in Addrs(t.left)
    ensures m[x].right != 0 ==> m[x].right in m && m[x].right in Addrs(t.right)
    ensures x != r && x != m[x].left && x != m[x].right
    ensures r != m[x].left && r != m[x].right
  {
    hide Linked, Circ, Members, Chunks;
    DistinctParts(t);
    ChildRoot(t.left, m[x].left, x, idx, m, h);
    ChildRoot(t.right, m[x].right, x, idx, m, h);
    assert r in RingSet(t.ring);
  }

  /** What adoption writes, address by address. */
  lemma AdoptWrites(m: Cells, r: int, x: int, xp: int, a: int)
    requires r in m && x in m && a in m && m[r].left == 0 && m[r].right == 0
    requires m[x].left != 0 ==> m[x].left in m
    requires m[x].right != 0 ==> m[x].right in m
    requires x != r && x != m[x].left && x != m[x].right
    requires r != m[x].left && r != m[x].right
    requires m[x].left != 0 ==> m[x].left != m[x].right
    ensures var m' := Adopt(m, r, x, xp);
            && a in m'
            && m'[r] == m[r].(left := m[x].left, right := m[x].right, parent := xp)
            && (a == m[x].left != 0 ==> m'[a] == m[a].(parent := r))
            && (a == m[x].right != 0 ==> m'[a] == m[a].(parent := r))
            && (a != r && (m[x].left == 0 || a != m[x].left) && (m[x].right == 0 || a != m[x].right) ==> m'[a] == m[a])
            && (forall k :: k in m ==> k in m')
  {
  }

  lemma AdoptedChild(t: Tree, cr: int, x: int, r: int, idx: int, m: Cells, h: Heads, m': Cells)
    requires Linked(t, cr, x, idx, m, h) && Distinct(t)
    requires t.Node? ==> cr in m && cr in m' && m'[cr] == m[cr].(parent := r)
    requires SameCells(m, m', Addrs(t) - {cr})
    ensures Linked(t, cr, r, idx, m', h)
  {
    hide Linked, Circ, Members, Chunks;
    if t.Node? {
      Reparent(t, cr, x, r, idx, m, h);
      LinkedMapped(t, cr, x, idx, m, h);
      LinkedFrame(t, cr, r, idx, m[cr := m[cr].(parent := r)], h, m', h);
    } else {
      LinkedEmpty(cr, x, idx, m, h);
      LinkedEmpty(cr, r, idx, m', h);
    }
  }

  lemma AdoptLinked(t: Tree, r: int, x: int, xp: int, idx: int, m: Cells, h: Heads)
    requires Ready(t, r, x, idx, m, h)
    requires m[x].left != 0 ==> m[x].left in m
    requires m[x].right != 0 ==> m[x].right in m
    requires x != r && x != m[x].left && x != m[x].right
    ensures Linked(t, r, xp, idx, Adopt(m, r, x, xp), h)
  {
    hide Linked, Circ, Members, Chunks, Adopt;
    AdoptOk(t, r, x, idx, m, h);
    DistinctParts(t);
    ReadyMapped(t, r, x, idx, m, h);
    var c0, c1 := m[x].left, m[x].right;
    var m' := Adopt(m, r, x, xp);
    assert r in RingSet(t.ring);
    AdoptWrites(m, r, x, xp, r);
    forall a | a in Addrs(t)
      ensures a in m'
      ensures a == c0 != 0 ==> m'[a] == m[a].(parent := r)
      ensures a == c1 != 0 ==> m'[a] == m[a].(parent := r)
      ensures a != r && (c0 == 0 || a != c0) && (c1 == 0 || a != c1) ==> m'[a] == m[a]
    {
      AdoptWrites(m, r, x, xp, a);
    }
    CircRing(t.ring, m);
    assert forall a :: a in t.ring ==> a in RingSet(t.ring);
    CircFrame(t.ring, m, m');
    ChildRoot(t.left, c0, x, idx, m, h);
    ChildRoot(t.right, c1, x, idx, m, h);
    AdoptedChild(t.left, c0, x, r, idx, m, h, m');
    AdoptedChild(t.right, c1, x, r, idx, m, h, m');
    AdoptMembers(t, r, idx, m, h, m');
    LinkedIntro(t, r, xp, idx, m', h);
  }

  lemma AdoptMembers(t: Tree, r: int, idx: int, m: Cells, h: Heads, m': Cells)
    requires t.Node? && Members(t, idx, m, h) && |t.ring| > 0 && t.ring[0] == r && DistinctRing(t.ring)
    requires r in m && r in m' && m'[r].index == m[r].index
    requires forall a :: a in t.ring && a != r ==> a in m' && m'[a] == m[a]
    ensures Members(t, idx, m', h)
  {
    NewChildMembers(t, false, t.left, r, idx, m, h, m');
    assert WithChild(t, false, t.left) == t;
  }

  lemma HeadRing(t: Tree, root: int, m: Cells)
    requires t.Node? && Circ(t.ring, m) && |t.ring| > 1 && root == t.ring[0]
    ensures root in m && m[root].fd in m && m[root].bk in m
    ensures m[root].bk == t.ring[|t.ring| - 1] && m[root].fd == t.ring[1]
    ensures Circ(RingWithout(t.ring, 0), RingRemove(m, root))
  {
    hide Circ, RingRemove;
    CircAt(t.ring, m, 0);
    RemoveRing(t.ring, 0, m);
    assert RingDropped(t.ring, 0) == t.ring[1..];
    RotateRing(t.ring[1..], RingRemove(m, root));
    assert RingWithout(t.ring, 0) == Rotated(t.ring[1..]);
  }

  /** Unlinking in the ring leaves the subtrees below the chunk. */
  lemma RingKeepsChildren(t: Tree, k: nat, root: int, par: int, idx: int, m: Cells, h: Heads)
    requires t.Node? && Linked(t, root, par, idx, m, h) && Distinct(t) && k < |t.ring|
    requires var x := t.ring[k];
             x in m && m[x].fd in m && m[x].bk in m && m[x].fd in t.ring && m[x].bk in t.ring
    ensures root in m && root in RingRemove(m, t.ring[k])
    ensures var m' := RingRemove(m, t.ring[k]);
            && m'[root].left == m[root].left && m'[root].right == m[root].right
            && m'[root].parent == m[root].parent
            && Linked(t.left, m'[root].left, root, idx, m', h)
            && Linked(t.right, m'[root].right, root, idx, m', h)
  {
    hide Linked, Circ, Members, Chunks, RingRemove;
    LinkedParts(t, root, par, idx, m, h);
    LinkedMapped(t, root, par, idx, m, h);
    DistinctParts(t);
    var x := t.ring[k];
    var m' := RingRemove(m, x);
    assert m[x].fd in RingSet(t.ring) && m[x].bk in RingSet(t.ring);
    forall a | a in Addrs(t)
      ensures a in m' && (a !in RingSet(t.ring) ==> m'[a] == m[a])
    {
      RemoveRingFrame(m, x, a);
    }
    RemoveRingFrame(m, x, root);
    LinkedFrame(t.left, m[root].left, root, idx, m, h, m', h);
    LinkedFrame(t.right, m[root].right, root, idx, m, h, m', h);
  }

  /** The tree member of a longer ring is unlinked: the ring's last chunk steps in. */
  lemma HeadReady(t: Tree, root: int, par: int, idx: int, m: Cells, h: Heads)
    requires t.Node? && Linked(t, root, par, idx, m, h) && Distinct(t) && |t.ring| > 1
    ensures root in m && m[root].fd in m && m[root].bk in m && m[root].bk == t.ring[|t.ring| - 1]
    ensures Ready(t.(ring := RingWithout(t.ring, 0)), m[root].bk, root, idx, RingRemove(m, root), h)
  {
    hide Linked, Circ, Members, Distinct, RingRemove, Addrs, Chunks;
    LinkedParts(t, root, par, idx, m, h);
    HeadRing(t, root, m);
    RingKeepsChildren(t, 0, root, par, idx, m, h);
    RotatedMembers(t, root, idx, m, h);
    HeadDistinct(t, root);
    LastBare(t, idx, m, h);
    var l := t.ring[|t.ring| - 1];
    RemoveRingFrame(m, root, l);
  }

  lemma LastBare(t: Tree, idx: int, m: Cells, h: Heads)
    requires t.Node? && |t.ring| > 1 && Members(t, idx, m, h)
    ensures t.ring[|t.ring| - 1] != 0 && t.ring[|t.ring| - 1] in m && Bare(m[t.ring[|t.ring| - 1]])
  {
    var k := |t.ring| - 1;
    var a := t.ring[k];
    assert a in t.ring;
    assert a in m;
    assert Bare(m[t.ring[k]]);
  }

  lemma HeadDistinct(t: Tree, root: int)
    requires t.Node? && |t.ring| > 1 && Distinct(t) && t.ring[0] == root
    ensures Distinct(t.(ring := RingWithout(t.ring, 0)))
    ensures root !in Addrs(t.(ring := RingWithout(t.ring, 0)))
  {
    var r := t.(ring := RingWithout(t.ring, 0));
    RemoveHereTakes(t, root);
    assert IndexOf(t.ring, root) == 0;
    assert Chunks(t) == Chunks(r) + multiset{root};
    ChunkCount(t, root);
    assert root in Chunks(t);
    DropOne(Chunks(t), Chunks(r), root);
  }

  lemma DropOne(m: multiset<int>, r: multiset<int>, x: int)
    requires m == r + multiset{x} && forall a :: a in m ==> m[a] == 1
    ensures forall a :: a in r ==> r[a] == 1
    ensures x !in r && forall a :: a in r <==> a in m && a != x
  {
    forall a
      ensures m[a] == r[a] + (if a == x then 1 else 0)
    {
    }
    assert x in m;
    forall a | a in r
      ensures r[a] == 1 && a != x && a in m
    {
      assert a in m;
    }
    forall a | a in m && a != x
      ensures a in r
    {
      assert m[a] == r[a];
    }
  }

  lemma RotatedMembers(t: Tree, root: int, idx: int, m: Cells, h: Heads)
    requires t.Node? && Members(t, idx, m, h) && |t.ring| > 1 && t.ring[0] == root
    requires root in m && m[root].fd in m && m[root].bk in m
    ensures Members(t.(ring := RingWithout(t.ring, 0)), idx, RingRemove(m, root), h)
  {
    hide RingRemove;
    var r := RingWithout(t.ring, 0);
    forall i | 0 <= i < |r|
      ensures r[i] in t.ring && r[i] in RingRemove(m, root)
      ensures RingRemove(m, root)[r[i]].index == idx && Bare(RingRemove(m, root)[r[i]])
    {
      var o := if i == 0 then |t.ring| - 1 else i;
      assert r[i] == t.ring[o];
      assert Bare(m[t.ring[o]]);
      RemoveRingFrame(m, root, r[i]);
    }
  }

  // ----- replacing a node by a leaf from below

  /** The last step of a path, and the node it leaves from. */
  function Front(path: seq<bool>): (p: seq<bool>)
    requires path != []
  {
    path[..|path| - 1]
  }

  lemma FrontPath(t: Tree, path: seq<bool>)
    requires path != [] && OnPath(t, path)
    ensures OnPath(t, Front(path)) && At(t, Front(path)).Node?
    ensures At(t, path) == Child(At(t, Front(path)), path[|path| - 1])
    ensures forall s :: Put(t, path, s) == Put(t, Front(path), WithChild(At(t, Front(path)), path[|path| - 1], s))
    decreases path
  {
    FrontOn(t, path);
    assert path == Front(path) + [path[|path| - 1]];
    forall s
      ensures Put(t, path, s) == Put(t, Front(path), WithChild(At(t, Front(path)), path[|path| - 1], s))
    {
      AtSnoc(t, Front(path), path[|path| - 1], s);
    }
    AtSnoc(t, Front(path), path[|path| - 1], Empty);
  }

  lemma {:induction false} FrontOn(t: Tree, path: seq<bool>)
    requires path != [] && OnPath(t, path)
    ensures OnPath(t, Front(path)) && At(t, Front(path)).Node?
    decreases path
  {
    if |path| > 1 {
      FrontOn(Child(t, path[0]), path[1..]);
      assert Front(path)[1..] == Front(path[1..]);
      assert Front(path)[0] == path[0];
    }
  }

  /** The node at the end of a non-empty path is cut off its parent. */
  lemma DetachBelow(t: Tree, path: seq<bool>, root: int, par: int, idx: int, m: Cells, h: Heads)
    requires t.Node? && Linked(t, root, par, idx, m, h) && Distinct(t)
    requires path != [] && OnPath(t, path)
    ensures OnPath(t, Front(path)) && At(t, Front(path)).Node? && |At(t, Front(path)).ring| > 0
    ensures At(t, Front(path)).ring[0] in m
    ensures Linked(Put(t, path, Empty), root, par, idx,
                   SetChild(m, At(t, Front(path)).ring[0], path[|path| - 1], 0), h)
  {
    hide Linked, Circ, Members, Chunks;
    FrontPath(t, path);
    var p, d := At(t, Front(path)), path[|path| - 1];
    AtLinked(t, Front(path), root, par, idx, m, h);
    AtDistinct(t, Front(path));
    LinkedMapped(t, root, par, idx, m, h);
    var pr := p.ring[0];
    var m' := SetChild(m, pr, d, 0);
    LinkedMapped(p, pr, m[pr].parent, idx, m, h);
    LinkedEmpty(0, pr, idx, m', h);
    NewChildLinked(p, d, Empty, 0, pr, m[pr].parent, idx, m, h, m');
    ChunkCount(p, pr);
    assert pr in Addrs(p);
    PutLinked(t, Front(path), WithChild(p, d, Empty), root, par, idx, m, h, m', h);
  }

  /** The child of `x` below which the leaf is sought: the right one if there is one. */
  function LeafSide(t: Tree): (d: bool)
    requires t.Node?
  {
    t.right.Node?
  }

  /** `path` leads below `x` to the leaf that moves up, and the field `rd` of `rp` points to it. */
  ghost predicate LeafSpot(t: Tree, x: int, path: seq<bool>, rp: int, rd: bool) {
    && t.Node? && Child(t, LeafSide(t)).Node?
    && var c := Child(t, LeafSide(t));
    && OnPath(c, path)
    && At(c, path) == MovedLeaf(c)
    && Put(c, path, Empty) == DropLeaf(c)
    && (path == [] ==> rp == x && rd == LeafSide(t))
    && (path != [] ==>
          && OnPath(c, Front(path)) && At(c, Front(path)).Node? && |At(c, Front(path)).ring| > 0
          && rp == At(c, Front(path)).ring[0] && rd == path[|path| - 1])
  }

  /** Cutting the leaf off leaves the subtree on its side without it. */
  lemma LeafCut(t: Tree, x: int, par: int, idx: int, m: Cells, h: Heads, path: seq<bool>, rp: int, rd: bool)
    requires LeafSpot(t, x, path, rp, rd) && Linked(t, x, par, idx, m, h) && Distinct(t)
    ensures rp in m && x in m && rp in Addrs(Child(t, LeafSide(t))) + {x}
    ensures var d := LeafSide(t);
            var m' := SetChild(m, rp, rd, 0);
            && Linked(DropLeaf(Child(t, d)), GetChild(m'[x], d), x, idx, m', h)
            && GetChild(m'[x], !d) == GetChild(m[x], !d)
  {
    hide Linked, Circ, Members, Chunks;
    LinkedParts(t, x, par, idx, m, h);
    DistinctParts(t);
    var d := LeafSide(t);
    var c, cr := Child(t, d), GetChild(m[x], d);
    if path == [] {
      LinkedEmpty(0, x, idx, SetChild(m, rp, rd, 0), h);
    } else {
      DetachBelow(c, path, cr, x, idx, m, h);
      AtDistinct(c, Front(path));
      ChunkCount(At(c, Front(path)), rp);
      assert rp in Addrs(c);
      assert x in RingSet(t.ring);
    }
  }

  lemma SpliceDistinct(t: Tree, x: int)
    requires t.Node? && Distinct(t) && t.ring == [x]
    ensures Distinct(Splice(t)) && x !in Addrs(Splice(t))
  {
    SpliceChunks(t);
    assert multiset(t.ring) == multiset{x};
    DropOne(Chunks(t), Chunks(Splice(t)), x);
  }

  /** The leaf that moves up brings its own ring and no children. */
  lemma LeafRing(t: Tree, x: int, par: int, idx: int, m: Cells, h: Heads, path: seq<bool>, rp: int, rd: bool)
    requires LeafSpot(t, x, path, rp, rd) && Linked(t, x, par, idx, m, h) && Distinct(t)
    requires rp in m && rp in Addrs(Child(t, LeafSide(t))) + {x}
    ensures var l := MovedLeaf(Child(t, LeafSide(t)));
            var m' := SetChild(m, rp, rd, 0);
            && |l.ring| > 0 && l.ring[0] != 0 && l.ring[0] in m'
            && m'[l.ring[0]].left == 0 && m'[l.ring[0]].right == 0
            && Circ(l.ring, m') && Members(l, idx, m', h)
  {
    hide Linked, Circ, Chunks, Distinct, Addrs;
    LinkedParts(t, x, par, idx, m, h);
    var d := LeafSide(t);
    var c, cr := Child(t, d), GetChild(m[x], d);
    var l := MovedLeaf(c);
    AtLinked(c, path, cr, x, idx, m, h);
    var lr := l.ring[0];
    LinkedParts(l, lr, m[lr].parent, idx, m, h);
    LinkedEmpty(m[lr].left, lr, idx, m, h);
    LinkedEmpty(m[lr].right, lr, idx, m, h);
    var m' := SetChild(m, rp, rd, 0);
    CircRing(l.ring, m);
    CircFrame(l.ring, m, m');
    CutMembers(l, rp, rd, idx, m, h);
  }

  lemma CutMembers(l: Tree, rp: int, rd: bool, idx: int, m: Cells, h: Heads)
    requires l.Node? && Members(l, idx, m, h) && rp in m
    ensures Members(l, idx, SetChild(m, rp, rd, 0), h)
  {
    forall i | 1 <= i < |l.ring|
      ensures l.ring[i] in m && Bare(SetChild(m, rp, rd, 0)[l.ring[i]])
    {
      var a := l.ring[i];
      assert a in l.ring;
      assert a in m;
      assert Bare(m[l.ring[i]]);
    }
  }

  lemma OtherChild(t: Tree, x: int, par: int, idx: int, m: Cells, h: Heads, rp: int, rd: bool)
    requires t.Node? && Linked(t, x, par, idx, m, h) && Distinct(t)
    requires rp in m && rp in Addrs(Child(t, LeafSide(t))) + {x}
    ensures x in m
    ensures Linked(Child(t, !LeafSide(t)), GetChild(m[x], !LeafSide(t)), x, idx, SetChild(m, rp, rd, 0), h)
  {
    hide Linked, Circ, Members, Chunks;
    LinkedParts(t, x, par, idx, m, h);
    LinkedMapped(t, x, par, idx, m, h);
    DistinctParts(t);
    assert x in RingSet(t.ring);
    LinkedFrame(Child(t, !LeafSide(t)), GetChild(m[x], !LeafSide(t)), x, idx, m, h, SetChild(m, rp, rd, 0), h);
  }

  /** The last chunk of its size is unlinked: a leaf from below is cut off to take its place. */
  lemma LeafReady(t: Tree, x: int, par: int, idx: int, m: Cells, h: Heads, path: seq<bool>, rp: int, rd: bool)
    requires LeafSpot(t, x, path, rp, rd) && Linked(t, x, par, idx, m, h) && Distinct(t) && |t.ring| == 1
    ensures rp in m
    ensures var l := MovedLeaf(Child(t, LeafSide(t)));
            |l.ring| > 0 && Ready(Splice(t), l.ring[0], x, idx, SetChild(m, rp, rd, 0), h)
  {
    hide Linked, Circ, Members, Chunks, Distinct, Addrs, OnPath, At, Put;
    LinkedParts(t, x, par, idx, m, h);
    assert t.ring == [x];
    LeafCut(t, x, par, idx, m, h, path, rp, rd);
    LeafRing(t, x, par, idx, m, h, path, rp, rd);
    OtherChild(t, x, par, idx, m, h, rp, rd);
    SpliceDistinct(t, x);
    var l := MovedLeaf(Child(t, LeafSide(t)));
    MembersOfRing(l, Splice(t), idx, SetChild(m, rp, rd, 0), h);
  }
}
