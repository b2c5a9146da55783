/** Why the bitwise search finds the smallest chunk that fits. */
module BestFit {
  import opened Words
  import opened BinIndex
  import opened Trie
  import opened TreeLinks

  function Min(a: nat, b: nat): (r: nat) {
    if a <= b then a else b
  }

  /** The smallest size in a tree. */
  function MinOf(t: Tree): (s: nat)
    requires t.Node?
    ensures s in Sizes(t) && forall u :: u in Sizes(t) ==> s <= u
  {
    var a := if t.left.Node? then Min(t.size, MinOf(t.left)) else t.size;
    if t.right.Node? then Min(a, MinOf(t.right)) else a
  }

  /** Chunk `a` is the tree member of the node of size `s`: the first of its ring. */
  predicate IsTreeMember(t: Tree, a: int, s: nat) {
    t.Node? && (
      || (t.size == s && |t.ring| > 0 && t.ring[0] == a)
      || IsTreeMember(t.left, a, s)
      || IsTreeMember(t.right, a, s))
  }

  lemma {:induction false} TreeMemberHolds(t: Tree, a: int, s: nat)
    requires IsTreeMember(t, a, s)
    ensures Holds(t, s, a)
  {
    if IsTreeMember(t.left, a, s) {
      TreeMemberHolds(t.left, a, s);
    } else if IsTreeMember(t.right, a, s) {
      TreeMemberHolds(t.right, a, s);
    }
  }

  lemma {:induction false} AtTreeMember(t: Tree, path: seq<bool>)
    requires OnPath(t, path) && At(t, path).Node? && |At(t, path).ring| > 0
    ensures IsTreeMember(t, At(t, path).ring[0], At(t, path).size)
    ensures Sizes(At(t, path)) <= Sizes(t)
    decreases path
  {
    if path != [] {
      AtTreeMember(Child(t, path[0]), path[1..]);
    }
  }

  lemma {:induction false} AtWF(t: Tree, path: seq<bool>, n: nat, lo: nat) returns (n': nat, lo': nat)
    requires WF(t, n, lo) && OnPath(t, path) && At(t, path).Node?
    ensures WF(At(t, path), n', lo')
    decreases path
  {
    n', lo' := n, lo;
    if path != [] {
      WFParts(t, n, lo);
      n', lo' := AtWF(Child(t, path[0]), path[1..], n - 1, if path[0] then lo + Pow2(n - 1) else lo);
    }
  }

  /** The smallest size lies on the path of leftmost children. */
  lemma MinLeftmost(t: Tree, n: nat, lo: nat)
    requires WF(t, n, lo) && t.Node?
    ensures t.left.Node? ==> MinOf(t) == Min(t.size, MinOf(t.left))
    ensures t.left.Empty? && t.right.Node? ==> MinOf(t) == Min(t.size, MinOf(t.right))
    ensures t.left.Empty? && t.right.Empty? ==> MinOf(t) == t.size
  {
    if t.left.Node? && t.right.Node? {
      LeftBelowRight(t, n, lo, MinOf(t.left), MinOf(t.right));
    }
  }

  /**
   * Progress of the search along the bits of `nb` through `t`: every size that fits is no better
   * than the best so far, or is still ahead in `cur`, or is no better than the smallest in `rst`,
   * the deepest right subtree passed by.
   */
  ghost predicate Covers(t: Tree, nb: nat, best: nat, cur: Tree, rst: Tree) {
    && (forall s :: s in Sizes(t) && nb <= s ==>
          best <= s || s in Sizes(cur) || (rst.Node? && MinOf(rst) <= s))
    && (rst.Node? ==> nb < MinOf(rst) && forall s :: s in Sizes(cur) ==> s < MinOf(rst))
  }

  lemma CoversStart(t: Tree, nb: nat, best: nat)
    ensures Covers(t, nb, best, t, Empty)
  {
  }

  /** The new best after looking at one node. */
  function Better(best: nat, nb: nat, size: nat): (b: nat) {
    if nb <= size < best then size else best
  }

  /** Where the sizes of the two halves lie with respect to `nb`. */
  lemma Halves(cur: Tree, nb: nat, n: nat, lo: nat)
    requires cur.Node? && WF(cur, n, lo) && n > 0
    ensures nb >= lo + Pow2(n - 1) ==> forall s :: s in Sizes(cur.left) ==> s < nb
    ensures nb < lo + Pow2(n - 1) ==> forall s :: s in Sizes(cur.right) ==> nb < s
    ensures cur.right.Node? ==> forall s :: s in Sizes(cur.left) ==> s < MinOf(cur.right)
  {
    WFParts(cur, n, lo);
    hide Pow2, WF;
    SizesInBlock(cur.left, n - 1, lo);
    SizesInBlock(cur.right, n - 1, lo + Pow2(n - 1));
  }

  lemma SizesNode(t: Tree)
    requires t.Node?
    ensures Sizes(t) == {t.size} + Sizes(t.left) + Sizes(t.right)
  {
  }

  /** The right subtree that a step to the left passes by. */
  function PassedBy(cur: Tree, rst: Tree, d: bool): (r: Tree)
    requires cur.Node?
  {
    if !d && cur.right.Node? then cur.right else rst
  }

  /** What fits is no better than the best, further down, or in the subtree passed by. */
  lemma CoversAll(t: Tree, nb: nat, best: nat, cur: Tree, rst: Tree, n: nat, lo: nat, s: nat)
    requires Covers(t, nb, best, cur, rst) && cur.Node? && WF(cur, n, lo) && n > 0 && s in Sizes(t) && nb <= s
    ensures var d := nb >= lo + Pow2(n - 1);
            var r := PassedBy(cur, rst, d);
            Better(best, nb, cur.size) <= s || s in Sizes(Child(cur, d)) || (r.Node? && MinOf(r) <= s)
  {
    Halves(cur, nb, n, lo);
    hide Pow2, WF, Sizes, MinOf;
    SizesNode(cur);
    assert best <= s || s in Sizes(cur) || (rst.Node? && MinOf(rst) <= s);
    if cur.right.Empty? {
      NoSizes(cur.right);
    }
  }

  lemma NoSizes(t: Tree)
    requires t.Empty?
    ensures Sizes(t) == {}
  {
  }

  /** One step down: the half without `nb` is passed by on the right or cannot fit on the left. */
  lemma CoversStep(t: Tree, nb: nat, best: nat, cur: Tree, rst: Tree, n: nat, lo: nat)
    requires Covers(t, nb, best, cur, rst) && cur.Node? && WF(cur, n, lo) && n > 0
    ensures var d := nb >= lo + Pow2(n - 1);
            var rst' := if !d && cur.right.Node? then cur.right else rst;
            Covers(t, nb, Better(best, nb, cur.size), Child(cur, d), rst')
  {
    var d := nb >= lo + Pow2(n - 1);
    var r := PassedBy(cur, rst, d);
    Halves(cur, nb, n, lo);
    hide Pow2, WF, Sizes, MinOf, Better;
    SizesNode(cur);
    forall s | s in Sizes(t) && nb <= s
      ensures Better(best, nb, cur.size) <= s || s in Sizes(Child(cur, d)) || (r.Node? && MinOf(r) <= s)
    {
      CoversAll(t, nb, best, cur, rst, n, lo, s);
    }
  }

  /** The search has reached a gap: what is left to look at is the subtree passed by, or nothing. */
  ghost predicate Remains(t: Tree, nb: nat, best: nat, rest: Tree) {
    && (forall s :: s in Sizes(t) && nb <= s ==> best <= s || (rest.Node? && MinOf(rest) <= s))
    && (best == nb || (rest.Node? ==> nb <= MinOf(rest)))
  }

  lemma RemainsAtGap(t: Tree, nb: nat, best: nat, rst: Tree)
    requires Covers(t, nb, best, Empty, rst)
    ensures Remains(t, nb, best, rst)
  {
  }

  lemma RemainsExact(t: Tree, nb: nat, rest: Tree)
    ensures Remains(t, nb, nb, rest)
  {
  }

  /** Nothing in a tree of smaller sizes fits. */
  lemma RemainsNone(t: Tree, nb: nat, best: nat, rest: Tree)
    requires forall s :: s in Sizes(t) ==> s < nb
    requires best == nb || (rest.Node? ==> nb <= MinOf(rest))
    ensures Remains(t, nb, best, rest)
  {
  }

  /** In a whole tree of sizes that fit, everything remains. */
  lemma RemainsAll(t: Tree, nb: nat, best: nat)
    requires forall s :: s in Sizes(t) ==> nb <= s
    ensures Remains(t, nb, best, t)
  {
  }

  /** One step along the leftmost children. */
  lemma RemainsStep(t: Tree, nb: nat, best: nat, rest: Tree, n: nat, lo: nat)
    requires Remains(t, nb, best, rest) && rest.Node? && WF(rest, n, lo)
    ensures Remains(t, nb, Better(best, nb, rest.size), if rest.left.Node? then rest.left else rest.right)
  {
    hide WF;
    MinLeftmost(rest, n, lo);
    var next := if rest.left.Node? then rest.left else rest.right;
    assert next.Node? ==> MinOf(next) in Sizes(rest);
  }
}
