/** The writes of tree insertion and unlinking, node by node. */
module TreeEdits {
  import opened Memory
  import opened Rings
  import opened Trie
  import opened TreeLinks

  /** Sets one child field. */
  function SetChild(m: Cells, a: int, d: bool, c: int): (m': Cells)
    requires a in m
  {
    if d then m[a := m[a].(right := c)] else m[a := m[a].(left := c)]
  }

  function GetChild(c: Cell, d: bool): (r: int) {
    if d then c.right else c.left
  }

  /** A chunk alone in its ring, without children. */
  lemma LeafLinked(s: nat, x: int, par: int, idx: int, m: Cells, h: Heads)
    requires x != 0 && x in m && m[x] == Cell(x, x, 0, 0, par, idx) && x in h && h[x].size == s
    ensures Linked(Node(s, [x], Empty, Empty), x, par, idx, m, h)
  {
    var t := Node(s, [x], Empty, Empty);
    assert Circ(t.ring, m) by {
      assert Joined([x], m, 0);
      CircIntro([x], m);
    }
  }

  lemma FreshOutside(t: Tree, x: int, a: int)
    requires x !in Addrs(t) && a in Addrs(t)
    ensures a != x
  {
  }

  /** A node whose ring and other links stay as they are gets a new child. */
  lemma NewChildLinked(t: Tree, d: bool, c: Tree, cr: int, root: int, par: int, idx: int,
                       m: Cells, h: Heads, m': Cells)
    requires t.Node? && Linked(t, root, par, idx, m, h) && Distinct(t)
    requires root in m && root in m' && m'[root] == SetChild(m, root, d, cr)[root]
    requires SameCells(m, m', Addrs(t) - {root} - Addrs(Child(t, d)))
    requires Linked(c, cr, root, idx, m', h)
    ensures Linked(WithChild(t, d, c), root, par, idx, m', h)
  {
    hide Linked, Circ, Members, Chunks;
    LinkedParts(t, root, par, idx, m, h);
    LinkedMapped(t, root, par, idx, m, h);
    DistinctParts(t);
    CircRing(t.ring, m);
    assert forall a :: a in t.ring ==> a in RingSet(t.ring);
    CircFrame(t.ring, m, m');
    var o := Child(t, !d);
    LinkedFrame(o, GetChild(m[root], !d), root, idx, m, h, m', h);
    NewChildMembers(t, d, c, root, idx, m, h, m');
    LinkedIntro(WithChild(t, d, c), root, par, idx, m', h);
  }

  lemma NewChildMembers(t: Tree, d: bool, c: Tree, root: int, idx: int, m: Cells, h: Heads, m': Cells)
    requires t.Node? && Members(t, idx, m, h) && |t.ring| > 0 && t.ring[0] == root && DistinctRing(t.ring)
    requires root in m && root in m' && m'[root].index == m[root].index
    requires forall a :: a in t.ring && a != root ==> a in m' && m'[a] == m[a]
    ensures Members(WithChild(t, d, c), idx, m', h)
  {
    forall i | 1 <= i < |t.ring|
      ensures t.ring[i] in m' && Bare(m'[t.ring[i]])
    {
      assert t.ring[i] in t.ring && t.ring[i] != t.ring[0];
      assert Bare(m[t.ring[i]]);
    }
  }

  /** A new leaf hung below a node that has no child on that side. */
  lemma InsertLeafLinked(t: Tree, d: bool, s: nat, x: int, root: int, par: int, idx: int,
                         m: Cells, h: Heads, m': Cells)
    requires t.Node? && Linked(t, root, par, idx, m, h) && Distinct(t) && Child(t, d).Empty?
    requires x != 0 && x !in Addrs(t) && x in h && h[x].size == s
    requires root in m && root in m' && m'[root] == SetChild(m, root, d, x)[root]
    requires x in m' && m'[x] == Cell(x, x, 0, 0, root, idx)
    requires SameCells(m, m', Addrs(t) - {root})
    ensures Linked(WithChild(t, d, Node(s, [x], Empty, Empty)), root, par, idx, m', h)
  {
    hide Linked, Circ, Members, Chunks;
    LeafLinked(s, x, root, idx, m', h);
    NewChildLinked(t, d, Node(s, [x], Empty, Empty), x, root, par, idx, m, h, m');
  }

  /** A chunk of the node's own size chained behind the tree member. */
  lemma InsertChainedLinked(t: Tree, x: int, root: int, par: int, idx: int, m: Cells, h: Heads, m': Cells)
    requires t.Node? && Linked(t, root, par, idx, m, h) && Distinct(t)
    requires x != 0 && x !in Addrs(t) && x in h && h[x].size == t.size
    requires root in m && m[root].fd in m
    requires x in m && Bare(m[x]) && m[x].index == idx
    requires m' == RingInsert(m, root, m[root].fd, x)
    ensures Linked(t.(ring := RingAdded(t.ring, x)), root, par, idx, m', h)
  {
    hide Linked, Circ, Members, Chunks, RingInsert;
    LinkedParts(t, root, par, idx, m, h);
    LinkedMapped(t, root, par, idx, m, h);
    DistinctParts(t);
    var f := m[root].fd;
    CircAt(t.ring, m, 0);
    assert x !in RingSet(t.ring);
    InsertRing(t.ring, x, f, m);
    assert f in RingSet(t.ring) && root in RingSet(t.ring);
    forall a | a in Addrs(t)
      ensures a in m' && (a != root && a != f ==> m'[a] == m[a])
    {
      InsertRingFrame(m, root, f, x, a);
    }
    InsertRingFrame(m, root, f, x, root);
    LinkedFrame(t.left, m[root].left, root, idx, m, h, m', h);
    LinkedFrame(t.right, m[root].right, root, idx, m, h, m', h);
    ChainedMembers(t, x, root, f, idx, m, h, m');
    LinkedIntro(t.(ring := RingAdded(t.ring, x)), root, par, idx, m', h);
  }

  lemma ChainedMembers(t: Tree, x: int, root: int, f: int, idx: int, m: Cells, h: Heads, m': Cells)
    requires t.Node? && Members(t, idx, m, h) && |t.ring| > 0 && root == t.ring[0] && DistinctRing(t.ring)
    requires x != 0 && x !in t.ring && x in h && h[x].size == t.size
    requires root in m && f in m && x in m && Bare(m[x]) && m[x].index == idx
    requires m' == RingInsert(m, root, f, x)
    ensures Members(t.(ring := RingAdded(t.ring, x)), idx, m', h)
  {
    hide RingInsert;
    var r := RingAdded(t.ring, x);
    ChainedNew(m, root, f, x);
    forall a | a in r
      ensures a in m' && a in h && h[a].size == t.size && m'[a].index == idx
    {
      if a != x {
        RingInsertSet(t.ring, x);
        assert a in RingSet(r);
        InsertRingFrame(m, root, f, x, a);
      }
    }
    forall i | 1 <= i < |r|
      ensures Bare(m'[r[i]])
    {
      if i >= 2 {
        assert r[i] == t.ring[i - 1];
        assert Bare(m[t.ring[i - 1]]);
        InsertRingFrame(m, root, f, x, r[i]);
      }
    }
  }

  lemma ChainedNew(m: Cells, b: int, f: int, x: int)
    requires b in m && f in m && x in m && b != x
    ensures x in RingInsert(m, b, f, x)
    ensures var c := RingInsert(m, b, f, x)[x];
            c.left == m[x].left && c.right == m[x].right && c.parent == m[x].parent && c.index == m[x].index
  {
  }
}
