/** Circular doubly-linked lists threaded through the `fd` and `bk` fields. */
module Rings {
  import opened Memory
  import opened Trie

  function Nxt(i: nat, k: nat): (r: nat)
    requires i < k
    ensures r < k
  {
    if i + 1 == k then 0 else i + 1
  }

  function Prv(i: nat, k: nat): (r: nat)
    requires i < k
    ensures r < k
  {
    if i == 0 then k - 1 else i - 1
  }

  /** `c` lists a whole ring in `fd` order. */
  ghost predicate Circ(c: seq<int>, m: Cells) {
    && |c| > 0
    && DistinctRing(c)
    && (forall i :: 0 <= i < |c| ==> c[i] in m)
    && (forall i {:trigger m[c[i]]} :: 0 <= i < |c| ==>
          m[c[i]].fd == c[Nxt(i, |c|)] && m[c[i]].bk == c[Prv(i, |c|)])
  }

  /** Position `i` of the ring is linked to its neighbours. */
  ghost predicate Joined(c: seq<int>, m: Cells, i: nat)
    requires i < |c|
  {
    c[i] in m && m[c[i]].fd == c[Nxt(i, |c|)] && m[c[i]].bk == c[Prv(i, |c|)]
  }

  lemma CircAt(c: seq<int>, m: Cells, i: nat)
    requires Circ(c, m) && i < |c|
    ensures Joined(c, m, i)
  {
  }

  lemma CircIntro(c: seq<int>, m: Cells)
    requires |c| > 0 && DistinctRing(c)
    requires forall i :: 0 <= i < |c| ==> Joined(c, m, i)
    ensures Circ(c, m)
  {
    forall i | 0 <= i < |c|
      ensures c[i] in m && m[c[i]].fd == c[Nxt(i, |c|)] && m[c[i]].bk == c[Prv(i, |c|)]
    {
      assert Joined(c, m, i);
    }
  }

  lemma CircDistinct(c: seq<int>, m: Cells, i: nat, j: nat)
    requires Circ(c, m) && i < |c| && j < |c| && i != j
    ensures c[i] != c[j]
  {
  }

  /** Links `x` between `b` and `f`. */
  function RingInsert(m: Cells, b: int, f: int, x: int): (m': Cells)
    requires b in m && f in m
  {
    var m1 := m[b := m[b].(fd := x)];
    var m2 := m1[f := m1[f].(bk := x)];
    m2[x := Stale(m2, x).(fd := f, bk := b)]
  }

  /** Takes `p` out from between its neighbours. */
  function RingRemove(m: Cells, p: int): (m': Cells)
    requires p in m && m[p].fd in m && m[p].bk in m
  {
    var f, b := m[p].fd, m[p].bk;
    var m1 := m[f := m[f].(bk := b)];
    m1[b := m1[b].(fd := f)]
  }

  function RingAdded(c: seq<int>, x: int): (r: seq<int>)
    requires |c| > 0
  {
    [c[0], x] + c[1..]
  }

  function RingDropped(c: seq<int>, i: nat): (r: seq<int>)
    requires i < |c|
  {
    c[..i] + c[i + 1..]
  }

  lemma InsertRingAt(c: seq<int>, x: int, f: int, m: Cells, i: nat)
    requires |c| > 0 && x !in c && c[0] in m
    requires if |c| == 1 then f == c[0] else Circ(c, m) && f == c[1]
    requires f in m && i <= |c|
    ensures Joined(RingAdded(c, x), RingInsert(m, c[0], f, x), i)
  {
    hide Circ, DistinctRing;
    var k := |c|;
    if i == 0 {
      if k > 1 {
        CircAt(c, m, 0);
        CircDistinct(c, m, 0, 1);
      }
    } else if i >= 2 {
      CircAt(c, m, i - 1);
      CircDistinct(c, m, 0, i - 1);
      if i > 2 {
        CircDistinct(c, m, 1, i - 1);
      }
    }
  }

  /**
   * Inserting behind the first element. The first element of a one-element ring need not be
   * linked yet: an empty small bin leaves stale links in its header.
   */
  lemma InsertRing(c: seq<int>, x: int, f: int, m: Cells)
    requires |c| > 0 && x !in c && c[0] in m
    requires if |c| == 1 then f == c[0] else Circ(c, m) && f == c[1]
    ensures f in m
    ensures Circ(RingAdded(c, x), RingInsert(m, c[0], f, x))
  {
    if |c| > 1 {
      CircAt(c, m, 1);
    }
    hide Circ, Joined;
    RingInsertSet(c, x);
    assert DistinctRing(RingAdded(c, x)) by {
      if |c| > 1 {
        CircRing(c, m);
      }
    }
    forall i | 0 <= i < |RingAdded(c, x)|
      ensures Joined(RingAdded(c, x), RingInsert(m, c[0], f, x), i)
    {
      InsertRingAt(c, x, f, m, i);
    }
    CircIntro(RingAdded(c, x), RingInsert(m, c[0], f, x));
  }

  lemma CircRing(c: seq<int>, m: Cells)
    requires Circ(c, m)
    ensures DistinctRing(c) && forall a :: a in c ==> a in m
  {
  }

  lemma RemoveRingAt(c: seq<int>, i: nat, m: Cells, j: nat)
    requires Circ(c, m) && i < |c| && j < |c| - 1 && c[i] in m
    requires m[c[i]].fd in m && m[c[i]].bk in m
    ensures Joined(RingDropped(c, i), RingRemove(m, c[i]), j)
  {
    hide Circ, DistinctRing;
    var k := |c|;
    var o := if j < i then j else j + 1;
    CircAt(c, m, i);
    CircAt(c, m, o);
    CircDistinct(c, m, o, i);
    if o != Nxt(i, k) {
      CircDistinct(c, m, o, Nxt(i, k));
    }
    if o != Prv(i, k) {
      CircDistinct(c, m, o, Prv(i, k));
    }
  }

  lemma DroppedDistinct(c: seq<int>, i: nat)
    requires DistinctRing(c) && i < |c|
    ensures DistinctRing(RingDropped(c, i))
    ensures RingSet(RingDropped(c, i)) == RingSet(c) - {c[i]}
  {
    var r := RingDropped(c, i);
    assert forall j :: 0 <= j < |r| ==> r[j] == c[if j < i then j else j + 1];
    forall a ensures a in r <==> a in c && a != c[i] {
      if a in c && a != c[i] {
        var j :| 0 <= j < |c| && c[j] == a;
        assert r[if j < i then j else j - 1] == a;
      }
    }
  }

  lemma RemoveRing(c: seq<int>, i: nat, m: Cells)
    requires Circ(c, m) && i < |c| && |c| > 1
    ensures m[c[i]].fd in m && m[c[i]].bk in m
    ensures Circ(RingDropped(c, i), RingRemove(m, c[i]))
  {
    hide Circ;
    CircAt(c, m, i);
    CircAt(c, m, Nxt(i, |c|));
    CircAt(c, m, Prv(i, |c|));
    CircRing(c, m);
    DroppedDistinct(c, i);
    hide Joined;
    forall j | 0 <= j < |RingDropped(c, i)|
      ensures Joined(RingDropped(c, i), RingRemove(m, c[i]), j)
    {
      RemoveRingAt(c, i, m, j);
    }
    CircIntro(RingDropped(c, i), RingRemove(m, c[i]));
  }

  function Rotated(c: seq<int>): (r: seq<int>)
    requires |c| > 0
  {
    [c[|c| - 1]] + c[..|c| - 1]
  }

  lemma RotatedAt(c: seq<int>, m: Cells, j: nat)
    requires Circ(c, m) && j < |c|
    ensures Joined(Rotated(c), m, j)
  {
    hide Circ;
    CircAt(c, m, Prv(j, |c|));
  }

  lemma RotatedDistinct(c: seq<int>)
    requires |c| > 0 && DistinctRing(c)
    ensures DistinctRing(Rotated(c))
  {
  }

  /** The same ring read from its last element on. */
  lemma RotateRing(c: seq<int>, m: Cells)
    requires Circ(c, m)
    ensures |c| > 0 && Circ(Rotated(c), m)
  {
    hide Circ, Joined;
    CircNonEmpty(c, m);
    CircRing(c, m);
    RotatedDistinct(c);
    forall j | 0 <= j < |Rotated(c)|
      ensures Joined(Rotated(c), m, j)
    {
      RotatedAt(c, m, j);
    }
    CircIntro(Rotated(c), m);
  }

  lemma CircNonEmpty(c: seq<int>, m: Cells)
    requires Circ(c, m)
    ensures |c| > 0
  {
  }

  /** Only the ring fields of the members matter. */
  lemma CircFrame(c: seq<int>, m: Cells, m': Cells)
    requires Circ(c, m)
    requires forall a :: a in c ==> a in m' && m'[a].fd == m[a].fd && m'[a].bk == m[a].bk
    ensures Circ(c, m')
  {
    forall i | 0 <= i < |c|
      ensures c[i] in m' && m'[c[i]].fd == c[Nxt(i, |c|)] && m'[c[i]].bk == c[Prv(i, |c|)]
    {
      assert m[c[i]].fd == c[Nxt(i, |c|)];
    }
  }

  /** Inserting touches the two neighbours and the new member only. */
  lemma InsertRingFrame(m: Cells, b: int, f: int, x: int, a: int)
    requires b in m && f in m && a in m
    ensures a in RingInsert(m, b, f, x)
    ensures a != b && a != f && a != x ==> RingInsert(m, b, f, x)[a] == m[a]
    ensures a != x ==>
              var c := RingInsert(m, b, f, x)[a];
              c.left == m[a].left && c.right == m[a].right && c.parent == m[a].parent && c.index == m[a].index
  {
  }

  lemma RemoveRingFrame(m: Cells, p: int, a: int)
    requires p in m && m[p].fd in m && m[p].bk in m && a in m
    ensures a in RingRemove(m, p)
    ensures a != m[p].fd && a != m[p].bk ==> RingRemove(m, p)[a] == m[a]
    ensures var c := RingRemove(m, p)[a];
            c.left == m[a].left && c.right == m[a].right && c.parent == m[a].parent && c.index == m[a].index
  {
  }
}
