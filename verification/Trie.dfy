/**
 * Bitwise tries of free chunk sizes, as values. A node stands for one size; its ring lists the
 * addresses of the chunks of that size, the tree member first. A subtree at depth d below bin i
 * covers one aligned block of sizes, halved at each level by the next size bit.
 */
module Trie {
  import opened Words

  datatype Tree = Empty | Node(size: nat, ring: seq<int>, left: Tree, right: Tree)

  function Sizes(t: Tree): (s: set<nat>) {
    if t.Empty? then {} else {t.size} + Sizes(t.left) + Sizes(t.right)
  }

  function RingSet(ring: seq<int>): (s: set<int>) {
    set a | a in ring
  }

  /** The chunks in the tree, counted. */
  function Chunks(t: Tree): (m: multiset<int>) {
    if t.Empty? then multiset{} else multiset(t.ring) + Chunks(t.left) + Chunks(t.right)
  }

  function Addrs(t: Tree): (s: set<int>) {
    set a | a in Chunks(t)
  }

  /** Address `a` is held under size `s`. */
  predicate Holds(t: Tree, s: nat, a: int) {
    t.Node? && ((t.size == s && a in t.ring) || Holds(t.left, s, a) || Holds(t.right, s, a))
  }

  predicate DistinctRing(ring: seq<int>) {
    forall i, j :: 0 <= i < j < |ring| ==> ring[i] != ring[j]
  }

  /** No address occurs twice. */
  predicate Distinct(t: Tree) {
    forall a :: a in Chunks(t) ==> Chunks(t)[a] == 1
  }

  lemma RingCount(ring: seq<int>, i: nat, j: nat)
    requires i < j < |ring| && ring[i] == ring[j]
    ensures multiset(ring)[ring[i]] >= 2
  {
    assert ring == ring[..j] + ring[j..];
    assert ring[i] in ring[..j] && ring[i] in ring[j..];
  }

  lemma ChunkCount(t: Tree, a: int)
    requires t.Node?
    ensures Chunks(t)[a] == multiset(t.ring)[a] + Chunks(t.left)[a] + Chunks(t.right)[a]
    ensures a in Addrs(t) <==> a in t.ring || a in Addrs(t.left) || a in Addrs(t.right)
    ensures a in t.ring <==> multiset(t.ring)[a] > 0
  {
  }

  /** A tree without repetition falls into disjoint parts without repetition. */
  lemma DistinctParts(t: Tree)
    requires Distinct(t) && t.Node?
    ensures DistinctRing(t.ring)
    ensures RingSet(t.ring) !! Addrs(t.left)
    ensures RingSet(t.ring) !! Addrs(t.right)
    ensures Addrs(t.left) !! Addrs(t.right)
    ensures Distinct(t.left) && Distinct(t.right)
    ensures Addrs(t) == RingSet(t.ring) + Addrs(t.left) + Addrs(t.right)
  {
    forall i, j | 0 <= i < j < |t.ring|
      ensures t.ring[i] != t.ring[j]
    {
      if t.ring[i] == t.ring[j] {
        RingCount(t.ring, i, j);
        ChunkCount(t, t.ring[i]);
      }
    }
    forall a
      ensures a in Addrs(t) <==> a in t.ring || a in Addrs(t.left) || a in Addrs(t.right)
      ensures !(a in t.ring && a in Addrs(t.left)) && !(a in t.ring && a in Addrs(t.right))
      ensures !(a in Addrs(t.left) && a in Addrs(t.right))
      ensures Chunks(t.left)[a] <= 1 && Chunks(t.right)[a] <= 1
    {
      ChunkCount(t, a);
      if a in Chunks(t) {
        assert Chunks(t)[a] == 1;
      }
    }
  }

  /** Every size matches the path bits and no size has two nodes; the block is [lo, lo + 2^n). */
  predicate WF(t: Tree, n: nat, lo: nat)
    decreases t
  {
    t.Node? ==>
      && lo <= t.size < lo + Pow2(n)
      && |t.ring| > 0
      && t.size !in Sizes(t.left)
      && t.size !in Sizes(t.right)
      && (n == 0 ==> t.left.Empty? && t.right.Empty?)
      && (n > 0 ==> WF(t.left, n - 1, lo) && WF(t.right, n - 1, lo + Pow2(n - 1)))
  }

  lemma WFEmpty(n: nat, lo: nat)
    ensures WF(Empty, n, lo)
  {
  }

  lemma WFParts(t: Tree, n: nat, lo: nat)
    requires WF(t, n, lo) && t.Node?
    ensures lo <= t.size < lo + Pow2(n) && |t.ring| > 0
    ensures t.size !in Sizes(t.left) && t.size !in Sizes(t.right)
    ensures n == 0 ==> t.left.Empty? && t.right.Empty? && t.size == lo
    ensures n > 0 ==>
              && Pow2(n) == 2 * Pow2(n - 1)
              && WF(t.left, n - 1, lo) && WF(t.right, n - 1, lo + Pow2(n - 1))
  {
  }

  lemma WFIntro(t: Tree, n: nat, lo: nat)
    requires t.Node? && lo <= t.size < lo + Pow2(n) && |t.ring| > 0
    requires t.size !in Sizes(t.left) && t.size !in Sizes(t.right)
    requires n == 0 ==> t.left.Empty? && t.right.Empty?
    requires n > 0 ==> WF(t.left, n - 1, lo) && WF(t.right, n - 1, lo + Pow2(n - 1))
    ensures WF(t, n, lo)
  {
  }

  lemma {:induction false} SizesInBlock(t: Tree, n: nat, lo: nat)
    requires WF(t, n, lo)
    ensures forall s :: s in Sizes(t) ==> lo <= s < lo + Pow2(n)
    decreases t
  {
    if t.Node? && n > 0 {
      SizesInBlock(t.left, n - 1, lo);
      SizesInBlock(t.right, n - 1, lo + Pow2(n - 1));
    }
  }

  /** The left subtree is below the right one. */
  lemma LeftBelowRight(t: Tree, n: nat, lo: nat, a: nat, b: nat)
    requires WF(t, n, lo) && t.Node?
    requires a in Sizes(t.left) && b in Sizes(t.right)
    ensures a < b
  {
    if n > 0 {
      SizesInBlock(t.left, n - 1, lo);
      SizesInBlock(t.right, n - 1, lo + Pow2(n - 1));
    }
  }

  // ----- insertion

  /** Chunk `x` of size `s` added: appended behind the tree member, or as a new leaf. */
  function Insert(t: Tree, n: nat, lo: nat, s: nat, x: int): (r: Tree)
    requires WF(t, n, lo) && lo <= s < lo + Pow2(n)
    decreases t
  {
    if t.Empty? then Node(s, [x], Empty, Empty)
    else
      WFParts(t, n, lo);
      if t.size == s then t.(ring := [t.ring[0], x] + t.ring[1..])
      else if s < lo + Pow2(n - 1) then t.(left := Insert(t.left, n - 1, lo, s, x))
      else t.(right := Insert(t.right, n - 1, lo + Pow2(n - 1), s, x))
  }

  lemma RingInsertSet(ring: seq<int>, x: int)
    requires |ring| > 0
    ensures RingSet([ring[0], x] + ring[1..]) == RingSet(ring) + {x}
    ensures multiset([ring[0], x] + ring[1..]) == multiset(ring) + multiset{x}
    ensures DistinctRing(ring) && x !in ring ==> DistinctRing([ring[0], x] + ring[1..])
  {
    var r := [ring[0], x] + ring[1..];
    assert ring == [ring[0]] + ring[1..];
    assert r == [ring[0]] + [x] + ring[1..];
    forall a ensures a in r <==> a in ring || a == x {
      if a in ring {
        var i :| 0 <= i < |ring| && ring[i] == a;
        assert r[if i == 0 then 0 else i + 1] == a;
      }
    }
  }

  lemma {:induction false} InsertKeepsTrie(t: Tree, n: nat, lo: nat, s: nat, x: int)
    requires WF(t, n, lo) && lo <= s < lo + Pow2(n)
    ensures WF(Insert(t, n, lo, s, x), n, lo)
    ensures Sizes(Insert(t, n, lo, s, x)) == Sizes(t) + {s}
    decreases t
  {
    hide Pow2;
    Pow2Half(n);
    if t.Node? && t.size != s {
      WFParts(t, n, lo);
      if s < lo + Pow2(n - 1) {
        InsertKeepsTrie(t.left, n - 1, lo, s, x);
      } else {
        InsertKeepsTrie(t.right, n - 1, lo + Pow2(n - 1), s, x);
      }
    }
  }

  lemma ChunksNode(t: Tree)
    requires t.Node?
    ensures Chunks(t) == multiset(t.ring) + Chunks(t.left) + Chunks(t.right)
  {
  }

  lemma AddToPart(a: multiset<int>, b: multiset<int>, c: multiset<int>, x: multiset<int>)
    ensures (a + x) + b + c == (a + b + c) + x
    ensures a + (b + x) + c == (a + b + c) + x
    ensures a + b + (c + x) == (a + b + c) + x
  {
  }

  lemma {:induction false} InsertAdds(t: Tree, n: nat, lo: nat, s: nat, x: int)
    requires WF(t, n, lo) && lo <= s < lo + Pow2(n)
    ensures Chunks(Insert(t, n, lo, s, x)) == Chunks(t) + multiset{x}
    decreases t
  {
    hide Pow2, WF, Chunks, Sizes;
    var r := Insert(t, n, lo, s, x);
    if t.Empty? {
      ChunksLeaf(s, x);
    } else {
      WFParts(t, n, lo);
      Pow2Half(n);
      ChunksNode(t);
      ChunksNode(r);
      AddToPart(multiset(t.ring), Chunks(t.left), Chunks(t.right), multiset{x});
      if t.size == s {
        RingInsertSet(t.ring, x);
        assert multiset(r.ring) == multiset(t.ring) + multiset{x};
      } else if s < lo + Pow2(n - 1) {
        InsertAdds(t.left, n - 1, lo, s, x);
        assert Chunks(r.left) == Chunks(t.left) + multiset{x};
      } else {
        InsertAdds(t.right, n - 1, lo + Pow2(n - 1), s, x);
        assert Chunks(r.right) == Chunks(t.right) + multiset{x};
      }
    }
  }

  lemma ChunksLeaf(s: nat, x: int)
    ensures Chunks(Empty) == multiset{}
    ensures Chunks(Node(s, [x], Empty, Empty)) == multiset{x} == multiset{} + multiset{x}
  {
    assert Chunks(Node(s, [x], Empty, Empty)) == multiset([x]);
  }

  lemma {:induction false} InsertHolds(t: Tree, n: nat, lo: nat, s: nat, x: int, s': nat, a: int)
    requires WF(t, n, lo) && lo <= s < lo + Pow2(n)
    ensures Holds(Insert(t, n, lo, s, x), s', a) <==> Holds(t, s', a) || (s' == s && a == x)
    decreases t
  {
    if t.Node? {
      if t.size == s {
        RingInsertSet(t.ring, x);
        assert a in RingSet([t.ring[0], x] + t.ring[1..]) <==> a in RingSet(t.ring) + {x};
      } else if s < lo + Pow2(n - 1) {
        InsertHolds(t.left, n - 1, lo, s, x, s', a);
      } else {
        InsertHolds(t.right, n - 1, lo + Pow2(n - 1), s, x, s', a);
      }
    }
  }

  // ----- removal

  /** The leaf that unlinking moves up: follow the right child, or the left where there is none. */
  function MovedLeaf(t: Tree): (l: Tree)
    requires t.Node?
    ensures l.Node? && l.left.Empty? && l.right.Empty?
  {
    if t.right.Node? then MovedLeaf(t.right)
    else if t.left.Node? then MovedLeaf(t.left)
    else t
  }

  /** The tree without that leaf. */
  function DropLeaf(t: Tree): (r: Tree)
    requires t.Node?
  {
    if t.right.Node? then t.(right := DropLeaf(t.right))
    else if t.left.Node? then t.(left := DropLeaf(t.left))
    else Empty
  }

  /** The root node removed: a leaf from below takes its place. */
  function Splice(t: Tree): (r: Tree)
    requires t.Node?
  {
    if t.right.Node? then
      var l := MovedLeaf(t.right);
      Node(l.size, l.ring, t.left, DropLeaf(t.right))
    else if t.left.Node? then
      var l := MovedLeaf(t.left);
      Node(l.size, l.ring, DropLeaf(t.left), t.right)
    else Empty
  }

  lemma {:induction false} DropLeafSizes(t: Tree)
    requires t.Node?
    ensures Sizes(t) == Sizes(DropLeaf(t)) + {MovedLeaf(t).size}
  {
    if t.right.Node? {
      DropLeafSizes(t.right);
    } else if t.left.Node? {
      DropLeafSizes(t.left);
    }
  }

  lemma {:induction false} DropLeafKeeps(t: Tree, n: nat, lo: nat)
    requires WF(t, n, lo) && t.Node?
    ensures WF(DropLeaf(t), n, lo)
    ensures |MovedLeaf(t).ring| > 0
    ensures MovedLeaf(t).size !in Sizes(DropLeaf(t))
    decreases t
  {
    hide Pow2, WF;
    WFParts(t, n, lo);
    if t.right.Node? {
      DropLeafKeeps(t.right, n - 1, lo + Pow2(n - 1));
      DropLeafSizes(t.right);
      DropLeafApart(t, n, lo);
      WFIntro(DropLeaf(t), n, lo);
    } else if t.left.Node? {
      DropLeafKeeps(t.left, n - 1, lo);
      DropLeafSizes(t.left);
      WFIntro(DropLeaf(t), n, lo);
    } else {
      WFEmpty(n, lo);
    }
  }

  /** The right subtree shares no size with the left one. */
  lemma DropLeafApart(t: Tree, n: nat, lo: nat)
    requires WF(t, n, lo) && t.Node? && t.right.Node?
    ensures MovedLeaf(t.right).size !in Sizes(t.left)
  {
    hide Pow2;
    Pow2Half(n);
    DropLeafSizes(t.right);
    if MovedLeaf(t.right).size in Sizes(t.left) {
      LeftBelowRight(t, n, lo, MovedLeaf(t.right).size, MovedLeaf(t.right).size);
    }
  }

  lemma {:induction false} DropLeafChunks(t: Tree)
    requires t.Node?
    ensures Chunks(t) == Chunks(DropLeaf(t)) + multiset(MovedLeaf(t).ring)
  {
    if t.right.Node? {
      DropLeafChunks(t.right);
    } else if t.left.Node? {
      DropLeafChunks(t.left);
    }
  }

  lemma SpliceKeeps(t: Tree, n: nat, lo: nat)
    requires WF(t, n, lo) && t.Node?
    ensures WF(Splice(t), n, lo)
    ensures Sizes(Splice(t)) == Sizes(t) - {t.size}
  {
    hide Pow2, WF;
    WFParts(t, n, lo);
    SizesInBlock(t, n, lo);
    if t.right.Node? {
      DropLeafKeeps(t.right, n - 1, lo + Pow2(n - 1));
      DropLeafSizes(t.right);
      DropLeafApart(t, n, lo);
      assert Splice(t).size in Sizes(t);
      WFIntro(Splice(t), n, lo);
    } else if t.left.Node? {
      DropLeafKeeps(t.left, n - 1, lo);
      DropLeafSizes(t.left);
      assert Splice(t).size in Sizes(t);
      WFIntro(Splice(t), n, lo);
    } else {
      WFEmpty(n, lo);
    }
  }

  lemma SpliceChunks(t: Tree)
    requires t.Node?
    ensures Chunks(t) == Chunks(Splice(t)) + multiset(t.ring)
  {
    if t.right.Node? {
      DropLeafChunks(t.right);
    } else if t.left.Node? {
      DropLeafChunks(t.left);
    }
  }

  /** A ring after unlinking `x`: its last element takes over when the tree member leaves. */
  function RingWithout(ring: seq<int>, i: nat): (r: seq<int>)
    requires i < |ring| && |ring| > 1
    ensures |r| == |ring| - 1
  {
    if i == 0 then [ring[|ring| - 1]] + ring[1..|ring| - 1] else ring[..i] + ring[i + 1..]
  }

  function IndexOf(ring: seq<int>, x: int): (i: nat)
    requires x in ring
    ensures i < |ring| && ring[i] == x
  {
    if ring[0] == x then 0 else 1 + IndexOf(ring[1..], x)
  }

  /** Chunk `x` taken out of the root's ring, and the node spliced out with its last chunk. */
  function RemoveHere(t: Tree, x: int): (r: Tree)
    requires t.Node? && x in t.ring
  {
    if |t.ring| > 1 then t.(ring := RingWithout(t.ring, IndexOf(t.ring, x))) else Splice(t)
  }

  /** Chunk `x` of size `s` taken out. */
  function Remove(t: Tree, n: nat, lo: nat, s: nat, x: int): (r: Tree)
    requires WF(t, n, lo) && Holds(t, s, x)
    decreases t
  {
    HoldsWhere(t, n, lo, s, x);
    if t.size == s then RemoveHere(t, x)
    else if s < lo + Pow2(n - 1) then t.(left := Remove(t.left, n - 1, lo, s, x))
    else t.(right := Remove(t.right, n - 1, lo + Pow2(n - 1), s, x))
  }

  lemma {:induction false} HoldsSize(t: Tree, s: nat, x: int)
    requires Holds(t, s, x)
    ensures s in Sizes(t) && x in Addrs(t)
  {
    if Holds(t.left, s, x) {
      HoldsSize(t.left, s, x);
    } else if Holds(t.right, s, x) {
      HoldsSize(t.right, s, x);
    }
  }

  /** The size bits lead to the chunk. */
  lemma HoldsWhere(t: Tree, n: nat, lo: nat, s: nat, x: int)
    requires WF(t, n, lo) && Holds(t, s, x)
    ensures lo <= s < lo + Pow2(n)
    ensures t.Node? && (t.size == s ==> x in t.ring)
    ensures t.size != s ==> n > 0
    ensures t.size != s && s < lo + Pow2(n - 1) ==> Holds(t.left, s, x)
    ensures t.size != s && s >= lo + Pow2(n - 1) ==> Holds(t.right, s, x)
  {
    HoldsSize(t, s, x);
    SizesInBlock(t, n, lo);
    if n > 0 {
      SizesInBlock(t.left, n - 1, lo);
      SizesInBlock(t.right, n - 1, lo + Pow2(n - 1));
    }
    if Holds(t.left, s, x) {
      HoldsSize(t.left, s, x);
    }
    if Holds(t.right, s, x) {
      HoldsSize(t.right, s, x);
    }
  }

  lemma RingWithoutChunks(ring: seq<int>, i: nat)
    requires i < |ring| && |ring| > 1
    ensures multiset(ring) == multiset(RingWithout(ring, i)) + multiset{ring[i]}
  {
    var k := |ring| - 1;
    if i == 0 {
      assert ring == [ring[0]] + ring[1..k] + [ring[k]];
      assert multiset(ring) == multiset([ring[0]]) + multiset(ring[1..k]) + multiset([ring[k]]);
    } else {
      assert ring == ring[..i] + [ring[i]] + ring[i + 1..];
    }
  }

  lemma {:induction false} RemoveKeepsTrie(t: Tree, n: nat, lo: nat, s: nat, x: int)
    requires WF(t, n, lo) && Holds(t, s, x)
    ensures WF(Remove(t, n, lo, s, x), n, lo)
    ensures Sizes(Remove(t, n, lo, s, x)) <= Sizes(t)
    decreases t
  {
    hide Pow2;
    Pow2Half(n);
    HoldsWhere(t, n, lo, s, x);
    if t.size == s {
      SpliceKeeps(t, n, lo);
    } else if s < lo + Pow2(n - 1) {
      RemoveKeepsTrie(t.left, n - 1, lo, s, x);
    } else {
      RemoveKeepsTrie(t.right, n - 1, lo + Pow2(n - 1), s, x);
    }
  }

  lemma {:induction false} RemoveTakes(t: Tree, n: nat, lo: nat, s: nat, x: int)
    requires WF(t, n, lo) && Holds(t, s, x)
    ensures Chunks(t) == Chunks(Remove(t, n, lo, s, x)) + multiset{x}
    decreases t
  {
    hide Pow2, WF, Holds, Chunks;
    HoldsWhere(t, n, lo, s, x);
    WFParts(t, n, lo);
    var r := Remove(t, n, lo, s, x);
    if t.size == s {
      RemoveHereTakes(t, x);
      return;
    }
    ChunksNode(t);
    ChunksNode(r);
    AddToPart(multiset(r.ring), Chunks(r.left), Chunks(r.right), multiset{x});
    if s < lo + Pow2(n - 1) {
      RemoveTakes(t.left, n - 1, lo, s, x);
    } else {
      RemoveTakes(t.right, n - 1, lo + Pow2(n - 1), s, x);
    }
  }

  lemma RemoveHereTakes(t: Tree, x: int)
    requires t.Node? && x in t.ring
    ensures Chunks(t) == Chunks(RemoveHere(t, x)) + multiset{x}
  {
    if |t.ring| > 1 {
      RingWithoutChunks(t.ring, IndexOf(t.ring, x));
    } else {
      assert t.ring == [x];
      SpliceChunks(t);
    }
  }
}
