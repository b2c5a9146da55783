/** How a trie value lies in memory, and how replacing a subtree changes it. */
module TreeLinks {
  import opened Memory
  import opened Rings
  import opened Trie

  /**
   * `t` is stored with root address `root` below `par`, in bin `idx`. Only the first chunk of a
   * ring is a tree member; the others carry no tree links.
   */
  ghost predicate Linked(t: Tree, root: int, par: int, idx: int, m: Cells, h: Heads)
    decreases t
  {
    if t.Empty? then root == 0
    else
      && Circ(t.ring, m)
      && root == t.ring[0]
      && root != 0
      && m[root].parent == par
      && Members(t, idx, m, h)
      && Linked(t.left, m[root].left, root, idx, m, h)
      && Linked(t.right, m[root].right, root, idx, m, h)
  }

  /** All chunks of a node have its size and bin index, and the chained ones are bare. */
  ghost predicate Members(t: Tree, idx: int, m: Cells, h: Heads)
    requires t.Node?
  {
    && (forall a :: a in t.ring ==> a != 0 && a in m && a in h && h[a].size == t.size && m[a].index == idx)
    && (forall i {:trigger m[t.ring[i]]} :: 1 <= i < |t.ring| ==> Bare(m[t.ring[i]]))
  }

  predicate Bare(c: Cell) {
    c.left == 0 && c.right == 0 && c.parent == 0
  }

  lemma MembersFrame(t: Tree, idx: int, m: Cells, h: Heads, m': Cells, h': Heads)
    requires t.Node? && Members(t, idx, m, h)
    requires SameCells(m, m', RingSet(t.ring)) && SameHeads(h, h', RingSet(t.ring))
    ensures Members(t, idx, m', h')
  {
    forall a | a in t.ring
      ensures a != 0 && a in m' && a in h' && h'[a].size == t.size && m'[a].index == idx && m'[a] == m[a]
    {
      assert a in RingSet(t.ring);
    }
  }

  lemma LinkedParts(t: Tree, root: int, par: int, idx: int, m: Cells, h: Heads)
    requires Linked(t, root, par, idx, m, h) && t.Node?
    ensures Circ(t.ring, m) && |t.ring| > 0
    ensures root == t.ring[0] && root != 0 && root in m && m[root].parent == par
    ensures root in h && h[root].size == t.size && m[root].index == idx
    ensures Members(t, idx, m, h)
    ensures Linked(t.left, m[root].left, root, idx, m, h)
    ensures Linked(t.right, m[root].right, root, idx, m, h)
  {
  }

  lemma LinkedIntro(t: Tree, root: int, par: int, idx: int, m: Cells, h: Heads)
    requires t.Node? && Circ(t.ring, m) && Members(t, idx, m, h)
    requires |t.ring| > 0 && root == t.ring[0] && root != 0 && root in m && m[root].parent == par
    requires Linked(t.left, m[root].left, root, idx, m, h)
    requires Linked(t.right, m[root].right, root, idx, m, h)
    ensures Linked(t, root, par, idx, m, h)
  {
  }

  lemma LinkedEmpty(root: int, par: int, idx: int, m: Cells, h: Heads)
    ensures Linked(Empty, root, par, idx, m, h) <==> root == 0
  {
  }

  lemma ChildAddrs(t: Tree)
    requires t.Node?
    ensures Addrs(t.left) <= Addrs(t) && Addrs(t.right) <= Addrs(t) && RingSet(t.ring) <= Addrs(t)
  {
    forall a | a in Addrs(t.left) || a in Addrs(t.right) || a in t.ring
      ensures a in Addrs(t)
    {
      ChunkCount(t, a);
    }
  }

  /** Only the words of the tree's own chunks matter. */
  lemma {:induction false} LinkedFrame(t: Tree, root: int, par: int, idx: int,
                                       m: Cells, h: Heads, m': Cells, h': Heads)
    requires Linked(t, root, par, idx, m, h)
    requires SameCells(m, m', Addrs(t)) && SameHeads(h, h', Addrs(t))
    ensures Linked(t, root, par, idx, m', h')
    decreases t
  {
    hide Linked, Circ, Members, Chunks;
    if t.Empty? {
      LinkedEmpty(root, par, idx, m, h);
      LinkedEmpty(root, par, idx, m', h');
    } else {
      LinkedParts(t, root, par, idx, m, h);
      ChildAddrs(t);
      assert root in RingSet(t.ring);
      LinkedFrame(t.left, m[root].left, root, idx, m, h, m', h');
      LinkedFrame(t.right, m[root].right, root, idx, m, h, m', h');
      assert forall a :: a in t.ring ==> a in RingSet(t.ring);
      CircRing(t.ring, m);
      CircFrame(t.ring, m, m');
      MembersFrame(t, idx, m, h, m', h');
      LinkedIntro(t, root, par, idx, m', h');
    }
  }

  lemma {:induction false} LinkedMapped(t: Tree, root: int, par: int, idx: int, m: Cells, h: Heads)
    requires Linked(t, root, par, idx, m, h)
    ensures SameCells(m, m, Addrs(t)) && SameHeads(h, h, Addrs(t))
    ensures forall a :: a in Addrs(t) ==> a in m && a in h && m[a].index == idx
    decreases t
  {
    if t.Node? {
      LinkedParts(t, root, par, idx, m, h);
      LinkedMapped(t.left, m[root].left, root, idx, m, h);
      LinkedMapped(t.right, m[root].right, root, idx, m, h);
      forall a | a in Addrs(t)
        ensures a in m && a in h && m[a].index == idx
      {
        ChunkCount(t, a);
      }
    }
  }

  /** A tree moved below another parent: only its root's parent field changes. */
  lemma Reparent(t: Tree, root: int, par: int, par': int, idx: int, m: Cells, h: Heads)
    requires Linked(t, root, par, idx, m, h) && t.Node? && Distinct(t)
    ensures root in m && Linked(t, root, par', idx, m[root := m[root].(parent := par')], h)
  {
    hide Linked, Circ, Members, Chunks;
    LinkedParts(t, root, par, idx, m, h);
    var m' := m[root := m[root].(parent := par')];
    DistinctParts(t);
    LinkedMapped(t, root, par, idx, m, h);
    CircRing(t.ring, m);
    CircFrame(t.ring, m, m');
    assert root in RingSet(t.ring);
    LinkedFrame(t.left, m[root].left, root, idx, m, h, m', h);
    LinkedFrame(t.right, m[root].right, root, idx, m, h, m', h);
    ReparentMembers(t, par', idx, m, h);
    LinkedIntro(t, root, par', idx, m', h);
  }

  lemma ReparentMembers(t: Tree, par': int, idx: int, m: Cells, h: Heads)
    requires t.Node? && Members(t, idx, m, h) && |t.ring| > 0 && DistinctRing(t.ring) && t.ring[0] in m
    ensures Members(t, idx, m[t.ring[0] := m[t.ring[0]].(parent := par')], h)
  {
  }

  // ----- replacing a subtree

  function Child(t: Tree, d: bool): (c: Tree)
    requires t.Node?
  {
    if d then t.right else t.left
  }

  function WithChild(t: Tree, d: bool, c: Tree): (r: Tree)
    requires t.Node?
  {
    if d then t.(right := c) else t.(left := c)
  }

  /** The path leads from node to node. */
  predicate OnPath(t: Tree, path: seq<bool>)
    decreases path
  {
    path == [] || (t.Node? && OnPath(Child(t, path[0]), path[1..]))
  }

  /** The subtree at the end of a path. */
  function At(t: Tree, path: seq<bool>): (s: Tree)
    requires OnPath(t, path)
    decreases path
  {
    if path == [] then t else At(Child(t, path[0]), path[1..])
  }

  /** The tree with that subtree replaced. */
  function Put(t: Tree, path: seq<bool>, s: Tree): (r: Tree)
    requires OnPath(t, path)
    decreases path
  {
    if path == [] then s else WithChild(t, path[0], Put(Child(t, path[0]), path[1..], s))
  }

  lemma {:induction false} AtSnoc(t: Tree, path: seq<bool>, d: bool, s: Tree)
    requires OnPath(t, path) && At(t, path).Node?
    ensures OnPath(t, path + [d])
    ensures At(t, path + [d]) == Child(At(t, path), d)
    ensures Put(t, path + [d], s) == Put(t, path, WithChild(At(t, path), d, s))
    decreases path
  {
    if path != [] {
      AtSnoc(Child(t, path[0]), path[1..], d, s);
      assert (path + [d])[1..] == path[1..] + [d];
    } else {
      assert (path + [d])[1..] == [];
    }
  }

  lemma {:induction false} PutAt(t: Tree, path: seq<bool>)
    requires OnPath(t, path)
    ensures Put(t, path, At(t, path)) == t
    decreases path
  {
    if path != [] {
      PutAt(Child(t, path[0]), path[1..]);
    }
  }

  lemma {:induction false} AtDistinct(t: Tree, path: seq<bool>)
    requires OnPath(t, path) && Distinct(t)
    ensures Distinct(At(t, path)) && Addrs(At(t, path)) <= Addrs(t)
    decreases path
  {
    if path != [] {
      DistinctParts(t);
      AtDistinct(Child(t, path[0]), path[1..]);
    }
  }

  /** A subtree is stored below the parent its root names. */
  lemma {:induction false} AtLinked(t: Tree, path: seq<bool>, root: int, par: int, idx: int, m: Cells, h: Heads)
    requires OnPath(t, path) && Linked(t, root, par, idx, m, h) && At(t, path).Node?
    ensures var s := At(t, path);
            |s.ring| > 0 && s.ring[0] in m && Linked(s, s.ring[0], m[s.ring[0]].parent, idx, m, h)
    ensures path == [] ==> At(t, path).ring[0] == root && m[root].parent == par
    decreases path
  {
    hide Linked, Circ, Members;
    if path != [] {
      LinkedParts(t, root, par, idx, m, h);
      AtLinked(Child(t, path[0]), path[1..],
               if path[0] then m[root].right else m[root].left, root, idx, m, h);
    } else {
      LinkedParts(t, root, par, idx, m, h);
    }
  }

  /**
   * Replacing the node at the end of a path by one with the same root address and parent, and
   * leaving all words outside that subtree alone, stores the tree with the subtree replaced.
   */
  lemma {:induction false} PutLinked(t: Tree, path: seq<bool>, s': Tree, root: int, par: int, idx: int,
                                     m: Cells, h: Heads, m': Cells, h': Heads)
    requires OnPath(t, path) && Distinct(t) && Linked(t, root, par, idx, m, h) && At(t, path).Node?
    requires SameCells(m, m', Addrs(t) - Addrs(At(t, path)))
    requires SameHeads(h, h', Addrs(t) - Addrs(At(t, path)))
    requires var r := At(t, path).ring;
             |r| > 0 && r[0] in m && s'.Node? && Linked(s', r[0], m[r[0]].parent, idx, m', h')
    ensures Linked(Put(t, path, s'), root, par, idx, m', h')
    decreases path
  {
    hide Linked, Circ, Members, Chunks;
    LinkedRoot(t, path, root, par, idx, m, h);
    LinkedParts(t, root, par, idx, m, h);
    if path != [] {
      var d := path[0];
      var c, o := Child(t, d), Child(t, !d);
      DistinctParts(t);
      AtDistinct(c, path[1..]);
      assert At(t, path) == At(c, path[1..]);
      var cr, or := if d then m[root].right else m[root].left, if d then m[root].left else m[root].right;
      PutLinked(c, path[1..], s', cr, root, idx, m, h, m', h');
      LinkedFrame(o, or, root, idx, m, h, m', h');
      assert root in RingSet(t.ring);
      assert SameCells(m, m', RingSet(t.ring)) && SameHeads(h, h', RingSet(t.ring));
      CircRing(t.ring, m);
      assert forall a :: a in t.ring ==> a in RingSet(t.ring);
      CircFrame(t.ring, m, m');
      MembersFrame(t, idx, m, h, m', h');
      var r := Put(t, path, s');
      assert Members(r, idx, m', h') by { MembersOfRing(t, r, idx, m', h'); }
      LinkedIntro(r, root, par, idx, m', h');
    }
  }

  lemma MembersOfRing(t: Tree, r: Tree, idx: int, m: Cells, h: Heads)
    requires t.Node? && r.Node? && r.ring == t.ring && r.size == t.size && Members(t, idx, m, h)
    ensures Members(r, idx, m, h)
  {
  }

  /** An address is held under the size its head records. */
  lemma {:induction false} SizeOfMember(t: Tree, root: int, par: int, idx: int, m: Cells, h: Heads, a: int)
    requires Linked(t, root, par, idx, m, h) && a in Addrs(t)
    ensures a in h && Holds(t, h[a].size, a)
    decreases t
  {
    hide Linked, Circ;
    if t.Node? {
      LinkedParts(t, root, par, idx, m, h);
      ChunkCount(t, a);
      if a in Addrs(t.left) {
        SizeOfMember(t.left, m[root].left, root, idx, m, h, a);
      } else if a in Addrs(t.right) {
        SizeOfMember(t.right, m[root].right, root, idx, m, h, a);
      }
    }
  }

  /** A path to a node starts at a node. */
  lemma LinkedRoot(t: Tree, path: seq<bool>, root: int, par: int, idx: int, m: Cells, h: Heads)
    requires OnPath(t, path) && Linked(t, root, par, idx, m, h) && At(t, path).Node?
    ensures t.Node?
    ensures path == [] ==> |t.ring| > 0 && t.ring[0] == root && root in m && m[root].parent == par
  {
    if path == [] {
      LinkedParts(t, root, par, idx, m, h);
    }
  }
}
