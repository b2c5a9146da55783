/** Chunks of one size leave a tree node in the order in which they came. */
module Fifo {
  import Words
  import opened Sequences
  import opened Trie

  /** The chunks of a node, oldest first: the tree member, then the ring from its far end. */
  function Queue(ring: seq<int>): (q: seq<int>)
    requires |ring| > 0
    ensures |q| == |ring|
  {
    [ring[0]] + Reversed(ring[1..])
  }

  /** Inserting a chunk of a size that is there appends it to the queue. */
  lemma InsertJoinsQueue(t: Tree, n: nat, lo: nat, x: int)
    requires t.Node? && WF(t, n, lo) && |t.ring| > 0 && lo <= t.size < lo + Words.Pow2(n)
    ensures Insert(t, n, lo, t.size, x).Node? && |Insert(t, n, lo, t.size, x).ring| > 0
    ensures Queue(Insert(t, n, lo, t.size, x).ring) == Queue(t.ring) + [x]
  {
    var ring := [t.ring[0], x] + t.ring[1..];
    assert ring[1..] == [x] + t.ring[1..];
  }

  /** Taking the chunk in the tree takes the head of the queue. */
  lemma RemoveTakesHead(t: Tree)
    requires t.Node? && |t.ring| > 1
    ensures Queue(t.ring)[0] == t.ring[0]
    ensures RemoveHere(t, t.ring[0]).Node? && |RemoveHere(t, t.ring[0]).ring| > 0
    ensures Queue(RemoveHere(t, t.ring[0]).ring) == Queue(t.ring)[1..]
  {
    var rest := t.ring[1..];
    ReversedDropLast(rest);
    assert RingWithout(t.ring, 0)[1..] == rest[..|rest| - 1];
  }

  // ----- the queues of a whole tree

  /** The ring of the node of size `u`, empty if there is none. */
  function RingAt(t: Tree, u: nat): (ring: seq<int>) {
    if t.Empty? then []
    else if t.size == u then t.ring
    else if u in Sizes(t.left) then RingAt(t.left, u)
    else RingAt(t.right, u)
  }

  lemma {:induction false} RingAtSizes(t: Tree, n: nat, lo: nat, u: nat)
    requires WF(t, n, lo)
    ensures RingAt(t, u) != [] <==> u in Sizes(t)
    ensures u in Sizes(t) ==> Holds(t, u, RingAt(t, u)[0])
    decreases t
  {
    if t.Node? {
      WFParts(t, n, lo);
      hide WF, Words.Pow2;
      if n > 0 {
        RingAtSizes(t.left, n - 1, lo, u);
        RingAtSizes(t.right, n - 1, lo + Words.Pow2(n - 1), u);
      }
    }
  }

  /** Sizes of the two subtrees, by the half of the block. */
  lemma SubtreeSizes(t: Tree, n: nat, lo: nat, u: nat)
    requires WF(t, n, lo) && t.Node?
    ensures u in Sizes(t.left) ==> n > 0 && u < lo + Words.Pow2(n - 1) && u != t.size
    ensures u in Sizes(t.right) ==> n > 0 && u >= lo + Words.Pow2(n - 1) && u != t.size
  {
    WFParts(t, n, lo);
    hide WF, Words.Pow2;
    if n > 0 {
      SizesInBlock(t.left, n - 1, lo);
      SizesInBlock(t.right, n - 1, lo + Words.Pow2(n - 1));
    }
  }

  lemma RingAtEmpty(u: nat)
    ensures RingAt(Empty, u) == []
  {
  }

  /** The ring of a size is at the root or in the half of the size. */
  lemma RingAtStep(t: Tree, n: nat, lo: nat, u: nat)
    requires WF(t, n, lo) && t.Node?
    ensures n > 0 ==> WF(t.left, n - 1, lo) && WF(t.right, n - 1, lo + Words.Pow2(n - 1))
    ensures RingAt(t, u) == if t.size == u then t.ring
                            else if n == 0 then []
                            else if u < lo + Words.Pow2(n - 1) then RingAt(t.left, u)
                            else RingAt(t.right, u)
  {
    SubtreeSizes(t, n, lo, u);
    WFParts(t, n, lo);
    hide WF, Words.Pow2;
    if n > 0 {
      RingAtSizes(t.left, n - 1, lo, u);
      RingAtSizes(t.right, n - 1, lo + Words.Pow2(n - 1), u);
    }
  }

  lemma InsertShape(t: Tree, n: nat, lo: nat, s: nat, x: int)
    requires WF(t, n, lo) && lo <= s < lo + Words.Pow2(n) && t.Node? && t.size != s
    ensures n > 0 && WF(t.left, n - 1, lo) && WF(t.right, n - 1, lo + Words.Pow2(n - 1))
    ensures Words.Pow2(n) == 2 * Words.Pow2(n - 1)
    ensures Insert(t, n, lo, s, x) ==
            if s < lo + Words.Pow2(n - 1) then t.(left := Insert(t.left, n - 1, lo, s, x))
            else t.(right := Insert(t.right, n - 1, lo + Words.Pow2(n - 1), s, x))
  {
    WFParts(t, n, lo);
  }

  lemma {:induction false} InsertRingAt(t: Tree, n: nat, lo: nat, s: nat, x: int, u: nat)
    requires WF(t, n, lo) && lo <= s < lo + Words.Pow2(n)
    ensures RingAt(Insert(t, n, lo, s, x), u) ==
            if u != s then RingAt(t, u)
            else if RingAt(t, s) == [] then [x]
            else [RingAt(t, s)[0], x] + RingAt(t, s)[1..]
    decreases t
  {
    hide WF, Words.Pow2, Insert, RingAt, Sizes;
    if t.Node? && t.size != s {
      InsertShape(t, n, lo, s, x);
      InsertKeepsTrie(t, n, lo, s, x);
      RingAtStep(t, n, lo, u);
      RingAtStep(t, n, lo, s);
      RingAtStep(Insert(t, n, lo, s, x), n, lo, u);
      if s < lo + Words.Pow2(n - 1) {
        InsertRingAt(t.left, n - 1, lo, s, x, u);
      } else {
        InsertRingAt(t.right, n - 1, lo + Words.Pow2(n - 1), s, x, u);
      }
    } else {
      InsertAtRoot(t, n, lo, s, x, u);
    }
  }

  lemma InsertAtRoot(t: Tree, n: nat, lo: nat, s: nat, x: int, u: nat)
    requires WF(t, n, lo) && lo <= s < lo + Words.Pow2(n) && (t.Node? ==> t.size == s)
    ensures RingAt(Insert(t, n, lo, s, x), u) ==
            if u != s then RingAt(t, u)
            else if RingAt(t, s) == [] then [x]
            else [RingAt(t, s)[0], x] + RingAt(t, s)[1..]
  {
    if t.Node? {
      WFParts(t, n, lo);
    }
  }

  /** The leaf that moves up is in the block. */
  lemma MovedLeafIn(t: Tree, n: nat, lo: nat)
    requires WF(t, n, lo) && t.Node?
    ensures MovedLeaf(t).size in Sizes(t) && lo <= MovedLeaf(t).size < lo + Words.Pow2(n)
  {
    DropLeafSizes(t);
    SizesInBlock(t, n, lo);
  }

  lemma {:induction false} DropLeafRing(t: Tree, n: nat, lo: nat, u: nat)
    requires WF(t, n, lo) && t.Node?
    ensures RingAt(DropLeaf(t), u) == if u == MovedLeaf(t).size then [] else RingAt(t, u)
    ensures RingAt(t, MovedLeaf(t).size) == MovedLeaf(t).ring
    decreases t
  {
    hide WF, Words.Pow2, RingAt, Sizes;
    DropLeafKeeps(t, n, lo);
    WFParts(t, n, lo);
    RingAtStep(t, n, lo, u);
    RingAtStep(t, n, lo, MovedLeaf(t).size);
    RingAtEmpty(u);
    if t.right.Node? {
      var half := lo + Words.Pow2(n - 1);
      MovedLeafIn(t.right, n - 1, half);
      RingAtStep(DropLeaf(t), n, lo, u);
      DropLeafRing(t.right, n - 1, half, u);
    } else if t.left.Node? {
      MovedLeafIn(t.left, n - 1, lo);
      RingAtStep(DropLeaf(t), n, lo, u);
      DropLeafRing(t.left, n - 1, lo, u);
    }
  }

  /** A spliced tree keeps the rings of all other sizes. */
  lemma SpliceRing(t: Tree, n: nat, lo: nat, u: nat)
    requires WF(t, n, lo) && t.Node?
    ensures RingAt(Splice(t), u) == if u == t.size then [] else RingAt(t, u)
  {
    hide WF, Words.Pow2, RingAt, Sizes;
    SpliceKeeps(t, n, lo);
    RingAtSizes(Splice(t), n, lo, u);
    WFParts(t, n, lo);
    RingAtStep(t, n, lo, u);
    RingAtEmpty(u);
    if t.right.Node? {
      var half := lo + Words.Pow2(n - 1);
      MovedLeafIn(t.right, n - 1, half);
      RingAtStep(Splice(t), n, lo, u);
      DropLeafRing(t.right, n - 1, half, u);
    } else if t.left.Node? {
      MovedLeafIn(t.left, n - 1, lo);
      RingAtStep(Splice(t), n, lo, u);
      DropLeafRing(t.left, n - 1, lo, u);
    }
  }

  lemma RemoveShape(t: Tree, n: nat, lo: nat, s: nat, x: int)
    requires WF(t, n, lo) && Holds(t, s, x) && t.Node? && t.size != s
    ensures n > 0 && WF(t.left, n - 1, lo) && WF(t.right, n - 1, lo + Words.Pow2(n - 1))
    ensures if s < lo + Words.Pow2(n - 1)
            then Holds(t.left, s, x) && Remove(t, n, lo, s, x) == t.(left := Remove(t.left, n - 1, lo, s, x))
            else Holds(t.right, s, x) && Remove(t, n, lo, s, x) == t.(right := Remove(t.right, n - 1, lo + Words.Pow2(n - 1), s, x))
  {
    HoldsWhere(t, n, lo, s, x);
    WFParts(t, n, lo);
  }

  lemma RemoveAtRoot(t: Tree, n: nat, lo: nat, x: int, u: nat)
    requires WF(t, n, lo) && t.Node? && Holds(t, t.size, x) && |t.ring| > 0 && x == t.ring[0]
    ensures RingAt(t, t.size) == t.ring
    ensures RingAt(Remove(t, n, lo, t.size, x), u) ==
            if u != t.size then RingAt(t, u) else if |t.ring| == 1 then [] else RingWithout(t.ring, 0)
  {
    SpliceRing(t, n, lo, u);
    assert Remove(t, n, lo, t.size, x) == RemoveHere(t, x);
    hide WF, Words.Pow2, Splice, Holds, Remove;
  }

  /** Taking the chunk in the tree changes only the ring of its size. */
  lemma {:induction false} RemoveRingAt(t: Tree, n: nat, lo: nat, s: nat, x: int, u: nat)
    requires WF(t, n, lo) && Holds(t, s, x) && RingAt(t, s) != [] && x == RingAt(t, s)[0]
    ensures RingAt(Remove(t, n, lo, s, x), u) ==
            if u != s then RingAt(t, u)
            else if |RingAt(t, s)| == 1 then []
            else RingWithout(RingAt(t, s), 0)
    decreases t
  {
    hide WF, Words.Pow2, Remove, RingAt, Holds;
    HoldsWhere(t, n, lo, s, x);
    if t.size == s {
      RingAtStep(t, n, lo, s);
      RemoveAtRoot(t, n, lo, x, u);
    } else {
      RemoveShape(t, n, lo, s, x);
      RemoveKeepsTrie(t, n, lo, s, x);
      RingAtStep(t, n, lo, u);
      RingAtStep(t, n, lo, s);
      RingAtStep(Remove(t, n, lo, s, x), n, lo, u);
      if s < lo + Words.Pow2(n - 1) {
        RemoveRingAt(t.left, n - 1, lo, s, x, u);
      } else {
        RemoveRingAt(t.right, n - 1, lo + Words.Pow2(n - 1), s, x, u);
      }
    }
  }

  // ----- any interleaving

  /** A chunk comes, or one of the given size is taken through the tree. */
  datatype Event = Put(size: nat, x: int) | Take(size: nat)

  predicate Fits(events: seq<Event>, n: nat, lo: nat) {
    forall i :: 0 <= i < |events| ==> lo <= events[i].size < lo + Words.Pow2(n)
  }

  /** The chunks of size `s`, oldest first. */
  function Queued(t: Tree, s: nat): (q: seq<int>) {
    if RingAt(t, s) == [] then [] else Queue(RingAt(t, s))
  }

  function After(t: Tree, n: nat, lo: nat, e: Event): (t': Tree)
    requires WF(t, n, lo) && lo <= e.size < lo + Words.Pow2(n)
    ensures WF(t', n, lo)
  {
    RingAtSizes(t, n, lo, e.size);
    match e
    case Put(s, x) => InsertKeepsTrie(t, n, lo, s, x); Insert(t, n, lo, s, x)
    case Take(s) =>
      if RingAt(t, s) == [] then t
      else RemoveKeepsTrie(t, n, lo, s, RingAt(t, s)[0]); Remove(t, n, lo, s, RingAt(t, s)[0])
  }

  /** The chunk of size `s` that comes with an event. */
  function Came(e: Event, s: nat): (q: seq<int>) {
    if e.Put? && e.size == s then [e.x] else []
  }

  /** The chunk of size `s` that an event takes. */
  function Left(t: Tree, e: Event, s: nat): (q: seq<int>) {
    if e.Take? && e.size == s && RingAt(t, s) != [] then [RingAt(t, s)[0]] else []
  }

  lemma EventQueue(t: Tree, n: nat, lo: nat, e: Event, s: nat)
    requires WF(t, n, lo) && lo <= e.size < lo + Words.Pow2(n)
    ensures Queued(t, s) + Came(e, s) == Left(t, e, s) + Queued(After(t, n, lo, e), s)
  {
    RingAtSizes(t, n, lo, e.size);
    hide WF, Words.Pow2, RingAt, Insert, Remove, Queue;
    var ring := RingAt(t, s);
    match e
    case Put(size, x) =>
      InsertRingAt(t, n, lo, size, x, s);
      QueueGrows(ring, x);
    case Take(size) =>
      if RingAt(t, size) != [] {
        RemoveRingAt(t, n, lo, size, RingAt(t, size)[0], s);
        QueueShrinks(ring);
      }
  }

  lemma QueueGrows(ring: seq<int>, x: int)
    ensures if ring == [] then Queue([x]) == [x] else Queue([ring[0], x] + ring[1..]) == Queue(ring) + [x]
  {
    if ring != [] {
      assert ([ring[0], x] + ring[1..])[1..] == [x] + ring[1..];
    }
  }

  lemma QueueShrinks(ring: seq<int>)
    ensures |ring| == 1 ==> Queue(ring) == ring
    ensures |ring| > 1 ==> Queue(ring) == [ring[0]] + Queue(RingWithout(ring, 0))
  {
    if |ring| > 1 {
      RemoveTakesHead(Node(0, ring, Empty, Empty));
    }
  }

  function AllCame(events: seq<Event>, s: nat): (q: seq<int>) {
    if events == [] then [] else Came(events[0], s) + AllCame(events[1..], s)
  }

  function AllLeft(t: Tree, n: nat, lo: nat, events: seq<Event>, s: nat): (q: seq<int>)
    requires WF(t, n, lo) && Fits(events, n, lo)
    decreases |events|
  {
    if events == [] then [] else Left(t, events[0], s) + AllLeft(After(t, n, lo, events[0]), n, lo, events[1..], s)
  }

  function AfterAll(t: Tree, n: nat, lo: nat, events: seq<Event>): (t': Tree)
    requires WF(t, n, lo) && Fits(events, n, lo)
    decreases |events|
  {
    if events == [] then t else AfterAll(After(t, n, lo, events[0]), n, lo, events[1..])
  }

  /**
   * First in, first out: over any events of any sizes, the chunks of each size that were there or came are those that left
   * and then those that are there, in this order.
   */
  lemma {:induction false} FirstInFirstOut(t: Tree, n: nat, lo: nat, events: seq<Event>, s: nat)
    requires WF(t, n, lo) && Fits(events, n, lo)
    ensures Queued(t, s) + AllCame(events, s) == AllLeft(t, n, lo, events, s) + Queued(AfterAll(t, n, lo, events), s)
    decreases |events|
  {
    hide WF, Words.Pow2, After, Queued, Came, Left;
    if events != [] {
      var e, rest, t1 := events[0], events[1..], After(t, n, lo, events[0]);
      EventQueue(t, n, lo, e, s);
      FirstInFirstOut(t1, n, lo, rest, s);
      var l, q := Left(t, e, s), Queued(t1, s);
      assert Queued(t, s) + (Came(e, s) + AllCame(rest, s)) == (Queued(t, s) + Came(e, s)) + AllCame(rest, s);
      assert (l + q) + AllCame(rest, s) == l + (q + AllCame(rest, s));
      assert l + (AllLeft(t1, n, lo, rest, s) + Queued(AfterAll(t1, n, lo, rest), s))
          == (l + AllLeft(t1, n, lo, rest, s)) + Queued(AfterAll(t1, n, lo, rest), s);
    }
  }
}
