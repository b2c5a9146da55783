/** The bins as the allocator updates them: rings and tries changed in place. */
module Bins {
  import opened Words
  import opened BinIndex
  import opened BinMaps
  import opened Memory
  import opened Rings
  import opened Trie
  import opened TreeLinks
  import opened TreeEdits
  import opened TreeUnlink
  import opened BinStore
  import opened TreeBins
  import opened BestFit

  class FreeBins {
    var cell: Cells
    var smallmap: Word
    var treemap: Word
    var treebins: seq<int>
    ghost var small: seq<seq<int>>
    ghost var trees: seq<Tree>
    ghost var members: set<int>

    ghost function View(): (v: BinView)
      reads this
    {
      BinView(cell, smallmap, treemap, treebins, small, trees, members)
    }

    /** The bins are well formed over the given chunk heads. */
    ghost predicate Valid(h: Heads)
      reads this
    {
      BinsOK(View(), h)
    }

    /** The zeroed bins of a zeroed `malloc_state`. */
    ghost predicate Blank()
      reads this
    {
      && smallmap == ZERO && treemap == ZERO && members == {}
      && |treebins| == NTREEBINS && (forall i :: 0 <= i < NTREEBINS ==> treebins[i] == 0)
      && |small| == NSMALLBINS && (forall i :: 0 <= i < NSMALLBINS ==> small[i] == [])
      && |trees| == NTREEBINS && (forall i :: 0 <= i < NTREEBINS ==> trees[i] == Empty)
    }

    constructor ()
      ensures Blank()
    {
      cell, smallmap, treemap, members := map[], ZERO, ZERO, {};
      treebins := seq(NTREEBINS, i => 0);
      small := seq(NSMALLBINS, i => []);
      trees := seq(NTREEBINS, i => Empty);
    }

    /** Makes the header of every small bin a ring of its own. */
    method InitBins(h: Heads)
      requires Blank()
      modifies this
      ensures Valid(h) && members == {} && CellsKept(old(cell), cell, {})
    {
      hide WF, Linked, Distinct, Sizes, Addrs, OpenBits, BlockStart;
      var i := 0;
      while i < NSMALLBINS
        invariant 0 <= i <= NSMALLBINS && Blank()
        invariant forall j :: 0 <= j < i ==> SmallHeader(j) in cell
        invariant CellsKept(old(cell), cell, {})
      {
        var b := SmallHeader(i);
        cell := cell[b := Stale(cell, b).(fd := b, bk := b)];
        i := i + 1;
      }
      EmptyBinsOK(View(), h);
    }

    /** Links a free chunk at the front of its small bin. */
    method InsertSmall(h: Heads, p: int, s: nat)
      requires Valid(h) && p > 0 && p !in members && p in h && h[p].size == s
      requires 32 <= s < MIN_LARGE_SIZE && s % 16 == 0
      modifies this
      ensures Valid(h)
      ensures members == old(members) + {p} && CellsKept(old(cell), cell, old(members) + {p})
      ensures |old(small)| == NSMALLBINS && small == old(small)[SmallIndex(s) := [p] + old(small)[SmallIndex(s)]]
      ensures trees == old(trees) && treebins == old(treebins) && treemap == old(treemap)
    {
      hide BinsOK, Mark, Clear, Nxt;
      ghost var v := View();
      var i := SmallIndex(s);
      var b := SmallHeader(i);
      InsertSmallStart(v, h, i, p);
      var f := b;
      if !smallmap[i] {
        smallmap := Mark(smallmap, i);
      } else {
        f := cell[b].fd;
      }
      cell := cell[b := cell[b].(fd := p)];
      cell := cell[f := cell[f].(bk := p)];
      cell := cell[p := Stale(cell, p).(fd := f, bk := b)];
      FirstMember(v, h, i);
      small := small[i := [p] + small[i]];
      members := members + {p};
      InsertSmallDone(v, View(), h, i, p, f);
    }

    /** Unlinks a chunk from anywhere in its small bin. */
    method UnlinkSmall(h: Heads, p: int, s: nat)
      requires Valid(h) && p in members && p in h && h[p].size == s && IsSmall(s)
      modifies this
      ensures Valid(h)
      ensures members == old(members) - {p} && CellsKept(old(cell), cell, old(members))
      ensures TakenFrom(old(small), SmallIndex(s), p, small)
      ensures trees == old(trees) && treebins == old(treebins) && treemap == old(treemap)
    {
      hide BinsOK, Mark, Clear, Nxt;
      ghost var v := View();
      var i := SmallIndex(s);
      ghost var k := UnlinkSmallStart(v, h, i, p);
      var f := cell[p].fd;
      var b := cell[p].bk;
      if b == f {
        smallmap := Clear(smallmap, i);
      } else {
        cell := cell[f := cell[f].(bk := b)];
        cell := cell[b := cell[b].(fd := f)];
        LinkMembers(v, h, i, k);
      }
      small := small[i := RingDropped(small[i], k)];
      members := members - {p};
      UnlinkSmallDone(v, View(), h, i, k);
      assert TakenAt(v.small, i, p, small, k);
    }

    /** Unlinks the first chunk of a non-empty small bin. */
    method UnlinkFirstSmall(h: Heads, i: nat) returns (p: int)
      requires Valid(h) && i < NSMALLBINS && smallmap[i]
      modifies this
      ensures |old(small)| == NSMALLBINS && old(small)[i] != []
      ensures p == old(small)[i][0] && p in old(members) && p in h && h[p].size == 8 * i
      ensures Valid(h)
      ensures members == old(members) - {p} && CellsKept(old(cell), cell, old(members))
      ensures small == old(small)[i := old(small)[i][1..]]
      ensures trees == old(trees) && treebins == old(treebins) && treemap == old(treemap)
    {
      hide BinsOK, Clear, Nxt;
      ghost var v := View();
      var b := SmallHeader(i);
      UnlinkFirstStart(v, h, i);
      p := cell[b].fd;
      var f := cell[p].fd;
      if b == f {
        smallmap := Clear(smallmap, i);
      } else {
        cell := cell[f := cell[f].(bk := b)];
        cell := cell[b := cell[b].(fd := f)];
        LinkMembers(v, h, i, 0);
      }
      small := small[i := small[i][1..]];
      members := members - {p};
      assert v.small[i][1..] == RingDropped(v.small[i], 0);
      UnlinkSmallDone(v, View(), h, i, 0);
    }

    /** Walks down tree bin `i` by the bits of size `s`, to the node or the gap where it belongs. */
    method Descend(h: Heads, i: nat, s: nat, ghost x: int) returns (t: int, d: bool, ghost path: seq<bool>)
      requires Valid(h) && InBin(i, s) && s < TREE_INDEX_LIMIT && treemap[i]
      ensures Shaped(View()) && i < NTREEBINS && Landed(trees[i], i, s, x, path, d)
      ensures OnPath(trees[i], path) && At(trees[i], path).Node?
      ensures |At(trees[i], path).ring| > 0 && At(trees[i], path).ring[0] == t
      ensures t in h && h[t].size == At(trees[i], path).size
    {
      hide BinsOK, Landed, Walk, InBin, Pow2, Shl64, TopBit, OpenBits, BlockStart, At, OnPath, Linked, Distinct;
      ghost var v := View();
      DescendStart(v, h, i, s, x);
      t := treebins[i];
      var k := Shl64(s, LeftShift(i));
      d := false;
      path := [];
      ghost var n: nat, lo: nat, q: nat := OpenBits(i), BlockStart(i), BlockNumber(i);
      WalkNode(v, h, i, s, x, path, n, lo, q);
      while h[t].size != s
        invariant Walk(trees[i], i, s, x, path, n, lo, q) && n <= 64 && k == Shl64(s, 64 - n)
        invariant OnPath(trees[i], path) && At(trees[i], path).Node?
        invariant |At(trees[i], path).ring| > 0 && t == At(trees[i], path).ring[0]
        invariant t in h && t in cell && h[t].size == At(trees[i], path).size
        decreases n
      {
        WalkBit(trees[i], i, s, x, path, n, lo, q, k);
        d := TopBit(k) == 1;
        k := Shl64(k, 1);
        WalkStep(trees[i], i, s, x, path, n, lo, q);
        WalkReads(v, h, i, path);
        var c := GetChild(cell[t], d);
        if c == 0 {
          LandedGap(trees[i], i, s, x, path, n, lo, q, d);
          return;
        }
        AtSnoc(trees[i], path, d, Empty);
        t := c;
        path, n, lo, q := path + [d], n - 1, if d then lo + Pow2(n - 1) else lo, if d then 2 * q + 1 else 2 * q;
        WalkNode(v, h, i, s, x, path, n, lo, q);
      }
      LandedHere(trees[i], i, s, x, path, n, lo, q, d);
    }

    /** The chunk `x` is prepared for the tree of bin `i`, and a descent ended at `t`. */
    ghost predicate Prepared(h: Heads, i: nat, s: nat, x: int, t: int, path: seq<bool>, d: bool)
      reads this
    {
      && i < NTREEBINS && |trees| == NTREEBINS && |treebins| == NTREEBINS && Landed(trees[i], i, s, x, path, d)
      && |At(trees[i], path).ring| > 0 && At(trees[i], path).ring[0] == t
      && x > 0 && x !in members && x !in Addrs(trees[i]) && x in h && h[x].size == s
      && x in cell && cell[x].index == i && cell[x].left == 0 && cell[x].right == 0
      && t in h && h[t].size == At(trees[i], path).size
      && Valid(h)
    }

    /** The cells store the tree of bin `i` with `x` inserted, and other cells are those of `m`. */
    ghost predicate StoresInserted(h: Heads, i: nat, s: nat, x: int, m: Cells)
      reads this
    {
      && i < NTREEBINS && |trees| == NTREEBINS && |treebins| == NTREEBINS
      && WF(trees[i], OpenBits(i), BlockStart(i)) && BlockStart(i) <= s < BlockStart(i) + Pow2(OpenBits(i))
      && Linked(Insert(trees[i], OpenBits(i), BlockStart(i), s, x), treebins[i], TreeSlot(i), i, cell, h)
      && cell.Keys == m.Keys
      && forall a :: a in m && a !in Addrs(trees[i]) && a != x ==> a in cell && cell[a] == m[a]
    }

    /** Links the prepared chunk `x` as a leaf below `t`. */
    method LinkLeaf(h: Heads, i: nat, s: nat, x: int, t: int, d: bool, ghost path: seq<bool>)
      requires Prepared(h, i, s, x, t, path, d) && t in h && h[t].size != s
      modifies this`cell
      ensures StoresInserted(h, i, s, x, old(cell))
    {
      hide BinsOK, Landed, InBin, Pow2, OpenBits, BlockStart, At, OnPath, Linked, Distinct, WF, Insert, Addrs;
      ghost var w := View();
      LandedReads(w, h, i, s, x, path, d);
      cell := SetChild(cell, t, d, x);
      cell := cell[x := cell[x].(parent := t, fd := x, bk := x)];
      LeafInTree(w, h, i, s, x, path, d, cell);
    }

    /** Links the prepared chunk `x` into the ring of `t`, behind it. */
    method LinkChained(h: Heads, i: nat, s: nat, x: int, t: int, ghost d: bool, ghost path: seq<bool>)
      requires Prepared(h, i, s, x, t, path, d) && t in h && h[t].size == s
      modifies this`cell
      ensures StoresInserted(h, i, s, x, old(cell))
    {
      hide BinsOK, Landed, InBin, Pow2, OpenBits, BlockStart, At, OnPath, Linked, Distinct, WF, Insert, Addrs;
      ghost var w := View();
      LandedReads(w, h, i, s, x, path, d);
      var f := cell[t].fd;
      cell := cell[t := cell[t].(fd := x)];
      cell := cell[f := cell[f].(bk := x)];
      cell := cell[x := cell[x].(fd := f, bk := t, parent := 0)];
      ghost var u := w.(cell := w.cell[x := w.cell[x].(parent := 0)]);
      OutsideWrite(w, h, x, w.cell[x].(parent := 0));
      ChainedWrites(u.cell, t, f, x, w.cell, cell);
      ChainedInTree(u, h, i, s, x, path, d, cell);
    }

    /** Stores a free chunk in the trie of its bin. */
    method InsertLarge(h: Heads, x: int, s: nat)
      requires Valid(h) && x > 0 && x !in members && x in h && h[x].size == s
      requires MIN_LARGE_SIZE <= s && BinnedSize(s)
      modifies this
      ensures Valid(h)
      ensures members == old(members) + {x} && CellsKept(old(cell), cell, old(members) + {x})
      ensures small == old(small) && smallmap == old(smallmap)
      ensures var i := TreeIndex(s);
              && i < NTREEBINS && |old(trees)| == NTREEBINS
              && WF(old(trees)[i], OpenBits(i), BlockStart(i))
              && BlockStart(i) <= s < BlockStart(i) + Pow2(OpenBits(i))
              && trees == old(trees)[i := Insert(old(trees)[i], OpenBits(i), BlockStart(i), s, x)]
    {
      hide BinsOK, Landed, InBin, Pow2, OpenBits, BlockStart, At, OnPath, Linked, Distinct, WF, Insert, TreeIndex, Mark, Addrs;
      ghost var v := View();
      var i := TreeIndex(s);
      InsertLargeStart(v, h, i, s, x);
      OutsideWrite(v, h, x, Stale(cell, x).(index := i, left := 0, right := 0));
      cell := cell[x := Stale(cell, x).(index := i, left := 0, right := 0)];
      ghost var w := View();
      if !treemap[i] {
        MarkBit(treemap, i);
        treemap := Mark(treemap, i);
        treebins := treebins[i := x];
        cell := cell[x := cell[x].(parent := TreeSlot(i), fd := x, bk := x)];
        InsertIntoEmpty(OpenBits(i), BlockStart(i), s, x);
        LeafLinked(s, x, TreeSlot(i), i, cell, h);
      } else {
        var t, d, path := Descend(h, i, s, x);
        if h[t].size != s {
          LinkLeaf(h, i, s, x, t, d, path);
        } else {
          LinkChained(h, i, s, x, t, d, path);
        }
      }
      TreeCellsKept(v, cell, h, i, {x});
      trees := trees[i := Insert(trees[i], OpenBits(i), BlockStart(i), s, x)];
      members := members + {x};
      InsertLargeDone(v, View(), h, i, s, x);
    }

    /** Finds the leaf below `x` that is to replace it, and the field that points to the leaf. */
    method FindLeaf(h: Heads, x: int, ghost c: Tree, ghost par: int, ghost idx: int)
      returns (r: int, rp: int, rd: bool, ghost path: seq<bool>)
      requires c.Node? && Linked(c, x, par, idx, cell, h)
      ensures r == 0 ==> c.left.Empty? && c.right.Empty?
      ensures r != 0 ==>
                && LeafSpot(c, x, path, rp, rd)
                && var l := MovedLeaf(Child(c, LeafSide(c)));
                && |l.ring| > 0 && l.ring[0] == r
    {
      hide Linked, LeafWalk, LeafSpot, MovedLeaf, DropLeaf, At, OnPath;
      LeafWalkStart(c, x, par, idx, cell, h);
      path := [];
      rp, rd := x, true;
      r := cell[x].right;
      if r == 0 {
        rd := false;
        r := cell[x].left;
        if r == 0 {
          return;
        }
      }
      LeafWalkShape(c, x, path, r, rp, rd);
      ghost var b := Child(c, LeafSide(c));
      while true
        invariant LeafWalk(c, x, path, r, rp, rd) && OnPath(b, path) && At(b, path).Node?
        decreases At(b, path)
      {
        LeafWalkReads(c, x, par, idx, cell, h, path, r, rp, rd);
        var n, d := cell[r].right, true;
        if n == 0 {
          n, d := cell[r].left, false;
          if n == 0 {
            LeafWalkEnd(c, x, path, r, rp, rd);
            return;
          }
        }
        LeafWalkStep(c, x, path, r, rp, rd, d);
        LeafWalkShape(c, x, path + [d], n, r, d);
        path := path + [d];
        rp, rd, r := r, d, n;
      }
    }

    /** First half of unlinking: takes `x` off its ring, or cuts a leaf off, and picks the replacement. */
    method TakeReplacement(h: Heads, x: int, ghost t: Tree, ghost path: seq<bool>, ghost root: int, ghost par: int,
                           ghost idx: int) returns (r: int)
      requires OnPath(t, path) && Linked(t, root, par, idx, cell, h) && Distinct(t) && At(t, path).Node?
      requires x in At(t, path).ring && par != 0
      modifies this`cell
      ensures Taken(t, path, x, r, idx, old(cell), h, cell) && cell.Keys == old(cell).Keys
    {
      hide Linked, Taken, OnPath, At, Distinct, LeafSpot, MovedLeaf, RingRemove, Ready;
      UnlinkReads(t, path, x, root, par, idx, cell, h);
      ghost var m, c := cell, At(t, path);
      if cell[x].bk != x {
        if x == c.ring[0] {
          TakenFromRing(t, path, x, root, par, idx, m, h);
        }
        var f := cell[x].fd;
        r := cell[x].bk;
        cell := cell[f := cell[f].(bk := r)];
        cell := cell[r := cell[r].(fd := f)];
        RemoveWrites(m, x, cell);
        if x != c.ring[0] {
          TakenChained(t, path, x, r, idx, m, h);
        }
      } else {
        var rp, rd;
        ghost var p2;
        r, rp, rd, p2 := FindLeaf(h, x, c, cell[x].parent, idx);
        if r != 0 {
          TakenFromLeaf(t, path, x, root, par, idx, m, h, p2, r, rp, rd);
          cell := SetChild(cell, rp, rd, 0);
        } else {
          TakenFromNone(t, path, x, idx, m, h);
        }
      }
    }

    /** Second half of unlinking: puts `r` in the place of the tree member `x`. */
    method Relink(x: int, xp: int, r: int)
      requires x in cell && 0 <= cell[x].index < |treebins|
      requires x != treebins[cell[x].index] ==> xp in cell
      requires |treebins| == NTREEBINS
      requires r != 0 ==>
                 && r in cell && x != r && x != xp && x != cell[x].left && x != cell[x].right
                 && (cell[x].left != 0 ==> cell[x].left in cell)
                 && (cell[x].right != 0 ==> cell[x].right in cell)
      modifies this`cell, this`treebins, this`treemap
      ensures var i := old(cell)[x].index;
              var top := x == old(treebins)[i];
              var m2 := if top then old(cell)
                        else SetChild(old(cell), xp, old(cell)[xp].left != x, r);
              && treebins == (if top then old(treebins)[i := r] else old(treebins))
              && treemap == (if top && r == 0 then Clear(old(treemap), i) else old(treemap))
              && (r == 0 ==> cell == m2)
              && (r != 0 ==> r in m2 && x in m2 && m2[x].left == old(cell)[x].left && m2[x].right == old(cell)[x].right
                             && cell == Adopt(m2, r, x, xp))
    {
      var i := cell[x].index;
      if x == treebins[i] {
        treebins := treebins[i := r];
        if r == 0 {
          treemap := Clear(treemap, i);
        }
      } else if cell[xp].left == x {
        cell := cell[xp := cell[xp].(left := r)];
      } else {
        cell := cell[xp := cell[xp].(right := r)];
      }
      if r != 0 {
        cell := cell[r := cell[r].(parent := xp)];
        var c0 := cell[x].left;
        if c0 != 0 {
          cell := cell[r := cell[r].(left := c0)];
          cell := cell[c0 := cell[c0].(parent := r)];
        }
        var c1 := cell[x].right;
        if c1 != 0 {
          cell := cell[r := cell[r].(right := c1)];
          cell := cell[c1 := cell[c1].(parent := r)];
        }
      }
    }

    /** Follows the bits of `nb` down its own bin, keeping the best fit and the last right subtree passed by. */
    method FitInBin(h: Heads, i: nat, nb: nat) returns (v: int, rsize: nat, t: int, ghost path: seq<bool>)
      requires Valid(h) && i < NTREEBINS && |treebins| == NTREEBINS && treebins[i] != 0
      requires 256 <= nb < WORD_RANGE && i == TreeIndex(nb)
      ensures Shaped(View()) && Spot(trees[i], t, path) && Candidate(trees[i], v, rsize, nb)
      ensures if nb < TREE_INDEX_LIMIT then Remains(trees[i], nb, nb + rsize, SpotTree(trees[i], t, path)) else v == 0
    {
      hide BinsOK, Fitting, IsTreeMember, Remains, At, OnPath, Shl64, TopBit, Pow2, TreeIndex, OpenBits, BlockStart;
      ghost var w := View();
      FitStart(w, h, i, nb);
      ghost var tr := trees[i];
      v, rsize := 0, Sub64(0, nb);
      t, path := treebins[i], [];
      var bits := Shl64(nb, LeftShift(i));
      var rst := 0;
      ghost var rpath: seq<bool> := [];
      ghost var n: nat, lo: nat, q: nat := OpenBits(i), BlockStart(i), BlockNumber(i);
      while true
        invariant t != 0 && Spot(tr, t, path) && Spot(tr, rst, rpath) && OnPath(tr, path)
        invariant Candidate(tr, v, rsize, nb) && rsize > 0
        invariant if nb < TREE_INDEX_LIMIT
                  then Fitting(tr, i, nb, nb + rsize, path, SpotTree(tr, rst, rpath), n, lo, q, bits)
                  else v == 0
        decreases At(tr, path)
      {
        SpotReads(w, h, i, t, path);
        ghost var best := nb + rsize;
        var trem := Sub64(h[t].size, nb);
        if trem < rsize {
          v := t;
          rsize := trem;
          if rsize == 0 {
            if nb < TREE_INDEX_LIMIT {
              FitExact(tr, i, nb, best, path, SpotTree(tr, rst, rpath), n, lo, q, bits);
            }
            return;
          }
        }
        assert nb < TREE_INDEX_LIMIT ==> nb + rsize == Better(best, nb, h[t].size);
        if nb < TREE_INDEX_LIMIT {
          FitStep(tr, i, nb, best, path, SpotTree(tr, rst, rpath), n, lo, q, bits);
        }
        var d := TopBit(bits) == 1;
        var rt := cell[t].right;
        var c := GetChild(cell[t], d);
        assert Spot(tr, GetChild(w.cell[t], true), path + [true]);
        assert Spot(tr, GetChild(w.cell[t], d), path + [d]);
        assert SpotTree(tr, GetChild(w.cell[t], true), path + [true]) == Child(At(tr, path), true);
        assert SpotTree(tr, GetChild(w.cell[t], d), path + [d]) == Child(At(tr, path), d);
        RightOrLeft(w, h, i, t, path);
        if rt != 0 && rt != c {
          rst, rpath := rt, path + [true];
        }
        if c == 0 {
          t, path := rst, rpath;
          return;
        }
        t, path := c, path + [d];
        bits := Shl64(bits, 1);
        n, lo, q := if n > 0 then n - 1 else 0, if d && n > 0 then lo + Pow2(n - 1) else lo, if d then 2 * q + 1 else 2 * q;
      }
    }

    /** Follows the leftmost children from `t0` on, keeping the best fit. */
    method Leftmost(h: Heads, i: nat, nb: nat, t0: int, v0: int, r0: nat, ghost path0: seq<bool>)
      returns (v: int, rsize: nat)
      requires Valid(h) && i < NTREEBINS && |trees| == NTREEBINS && Spot(trees[i], t0, path0)
      requires 0 < nb < WORD_RANGE && nb + r0 <= WORD_RANGE
      requires nb < TREE_INDEX_LIMIT ==> Remains(trees[i], nb, nb + r0, SpotTree(trees[i], t0, path0))
      ensures rsize <= r0
      ensures (v == v0 && rsize == r0) || (v != 0 && IsTreeMember(trees[i], v, nb + rsize) && rsize < r0)
      ensures if nb < TREE_INDEX_LIMIT then Remains(trees[i], nb, nb + rsize, Empty) else v == v0 && rsize == r0
    {
      hide BinsOK, IsTreeMember, Remains, At, OnPath, Pow2, OpenBits, BlockStart;
      ghost var w, tr := View(), trees[i];
      v, rsize := v0, r0;
      var t := t0;
      ghost var path := path0;
      while t != 0
        invariant Spot(tr, t, path) && rsize <= r0
        invariant (v == v0 && rsize == r0) || (v != 0 && IsTreeMember(tr, v, nb + rsize) && rsize < r0)
        invariant if nb < TREE_INDEX_LIMIT then Remains(tr, nb, nb + rsize, SpotTree(tr, t, path))
                  else v == v0 && rsize == r0
        decreases SpotTree(tr, t, path)
      {
        SpotReads(w, h, i, t, path);
        ghost var best := nb + rsize;
        if nb < TREE_INDEX_LIMIT {
          SpotStep(w, h, i, nb, best, t, path);
        }
        var trem := Sub64(h[t].size, nb);
        if trem < rsize {
          rsize := trem;
          v := t;
        }
        assert nb < TREE_INDEX_LIMIT ==> nb + rsize == Better(best, nb, h[t].size);
        var d := cell[t].left == 0;
        assert Spot(tr, GetChild(w.cell[t], d), path + [d]);
        assert SpotTree(tr, GetChild(w.cell[t], d), path + [d]) == Child(At(tr, path), d);
        assert SpotTree(tr, GetChild(w.cell[t], false), path + [false]) == Child(At(tr, path), false);
        t, path := GetChild(cell[t], d), path + [d];
      }
    }

    /** The search of `tmalloc_large`: the best fitting chunk of all tree bins. */
    method FindFit(h: Heads, nb: nat) returns (v: int, rsize: nat)
      requires Valid(h) && 256 <= nb < WORD_RANGE
      ensures BestChunk(View(), h, nb, v, rsize)
    {
      hide BinsOK, IsTreeMember, Remains, At, OnPath, Pow2, OpenBits, BlockStart, TreeIndex, And, LeftBits, LeastBit,
           IdxBit, BestChunk, BitToIdx;
      ghost var w := View();
      var i := TreeIndex(nb);
      TreeIndexBound(nb);
      BinsShaped(w, h);
      RootReads(w, h, i);
      var t, j := 0, i;
      ghost var path: seq<bool> := [];
      v, rsize := 0, Sub64(0, nb);
      if treebins[i] != 0 {
        v, rsize, t, path := FitInBin(h, i, nb);
      } else {
        NoFit(w, h, i, nb, rsize);
      }
      if t == 0 && v == 0 {
        NextMarked(treemap, i);
        var leftbits := And(LeftBits(IdxBit(i)), treemap);
        OwnBinBare(w, h, i, nb, rsize);
        if leftbits != ZERO {
          j := BitToIdx(LeastBit(leftbits));
          RootReads(w, h, j);
          t, path := treebins[j], [];
          NextBin(w, h, i, j, nb, rsize);
        }
      }
      ghost var v1, r1 := v, rsize;
      v, rsize := Leftmost(h, j, nb, t, v, rsize, path);
      FitFound(w, h, j, nb, t, path, v1, r1, v, rsize);
      FitDone(w, h, i, j, nb, v1, r1, v, rsize);
    }

    /** The search of `tmalloc_small`: the smallest chunk of the first non-empty tree bin. */
    method FindSmallest(h: Heads, nb: nat) returns (v: int, rsize: nat)
      requires Valid(h) && 0 < nb < 256 && treemap != ZERO
      ensures v != 0 && BestChunk(View(), h, nb, v, rsize)
    {
      hide BinsOK, IsTreeMember, Remains, At, OnPath, Pow2, OpenBits, BlockStart, TreeIndex, LeastBit, IdxBit,
           BestChunk, BitToIdx;
      ghost var w := View();
      BinsShaped(w, h);
      LeastBitIsolates(treemap);
      var i := BitToIdx(LeastBit(treemap));
      RootReads(w, h, i);
      var t := treebins[i];
      SpotRoot(w, h, i);
      SpotReads(w, h, i, t, []);
      assert trees[i].size in Sizes(trees[i]);
      TreeSizes(w, h, i, trees[i].size);
      v := t;
      rsize := Sub64(h[t].size, nb);
      SmallestStart(w, h, i, nb, rsize);
      var d := cell[t].left == 0;
      assert Spot(trees[i], GetChild(w.cell[t], d), [] + [d]);
      assert SpotTree(trees[i], GetChild(w.cell[t], d), [] + [d]) == Child(trees[i], d);
      assert SpotTree(trees[i], GetChild(w.cell[t], false), [] + [false]) == Child(trees[i], false);
      v, rsize := Leftmost(h, i, nb, GetChild(cell[t], d), v, rsize, [] + [d]);
      SmallestDone(w, h, i, nb, v, rsize);
    }

    /** The tree of bin `i` after the replacement `r` took the place of the tree member `x`, or of a chained chunk. */
    method PutReplacement(h: Heads, x: int, xp: int, r: int, ghost t: Tree, ghost path: seq<bool>, ghost m: Cells, ghost i: nat)
      requires i < NTREEBINS && |treebins| == NTREEBINS && t.Node? && OnPath(t, path) && At(t, path).Node? && Distinct(t)
      requires Linked(t, treebins[i], TreeSlot(i), i, m, h) && Taken(t, path, x, r, i, m, h, cell) && x in At(t, path).ring
      requires x > 0 && x in m && xp == m[x].parent && m[x].index == i && |At(t, path).ring| > 0 && cell.Keys == m.Keys
      requires xp != 0 <==> x == At(t, path).ring[0]
      modifies this`cell, this`treebins, this`treemap
      ensures |treebins| == NTREEBINS && treebins == old(treebins)[i := treebins[i]] && cell.Keys == m.Keys
      ensures var t' := Put(t, path, RemoveHere(At(t, path), x));
              && Linked(t', treebins[i], TreeSlot(i), i, cell, h)
              && treemap == (if t'.Node? then old(treemap) else Clear(old(treemap), i))
      ensures forall a :: a in m && a !in Addrs(t) ==> a in cell && cell[a] == m[a]
    {
      hide At, OnPath, Put, Linked, Distinct, Clear, Addrs, Taken, Adopt, RemoveHere;
      ghost var root, m1 := treebins[i], cell;
      if xp != 0 {
        RelinkReady(t, path, x, r, root, TreeSlot(i), i, m, h, m1);
        Relink(x, xp, r);
        if r != 0 {
          AdoptKeys(if path == [] then m1 else SetChild(m1, xp, path[|path| - 1], r), r, x, xp);
        }
        ghost var m2 := if path == [] then m1 else SetChild(m1, xp, path[|path| - 1], r);
        UnlinkedTree(t, path, x, r, root, TreeSlot(i), i, m, h, m1, m2, cell);
        RootAfter(t, path, x, r, root, TreeSlot(i), i, m, h, cell);
      } else {
        ChainedAfter(t, path, x, r, root, TreeSlot(i), i, m, h, m1);
      }
    }

    /** Unlinks a chunk from the trie of its bin. */
    method UnlinkLarge(h: Heads, x: int)
      requires Valid(h) && x in members && x in h && !IsSmall(h[x].size)
      modifies this
      ensures Valid(h)
      ensures members == old(members) - {x} && CellsKept(old(cell), cell, old(members))
      ensures small == old(small) && smallmap == old(smallmap)
      ensures var s := h[x].size;
              var i := TreeIndex(s);
              && i < NTREEBINS && |old(trees)| == NTREEBINS
              && WF(old(trees)[i], OpenBits(i), BlockStart(i)) && Holds(old(trees)[i], s, x)
              && trees == old(trees)[i := Remove(old(trees)[i], OpenBits(i), BlockStart(i), s, x)]
    {
      hide BinsOK, Pow2, OpenBits, BlockStart, At, OnPath, Put, Linked, Distinct, WF, Remove, TreeIndex, Clear, Addrs,
           Taken, Adopt, Holds, RemoveHere;
      ghost var v, s := View(), h[x].size;
      ghost var i, path := UnlinkLargeStart(v, h, x);
      ghost var t, root, m := trees[i], treebins[i], cell;
      UnlinkReads(t, path, x, root, TreeSlot(i), i, cell, h);
      var xp := cell[x].parent;
      var r := TakeReplacement(h, x, t, path, root, TreeSlot(i), i);
      PutReplacement(h, x, xp, r, t, path, m, i);
      TreeCellsKept(v, cell, h, i, {});
      trees := trees[i := Remove(t, OpenBits(i), BlockStart(i), s, x)];
      members := members - {x};
      ClearBit(v.treemap, i);
      UnlinkLargeDone(v, View(), h, i, s, x);
    }
  }

  /** Position `k` of bin `i` was `p`, and is gone. */
  ghost predicate TakenAt(bins: seq<seq<int>>, i: nat, p: int, bins': seq<seq<int>>, k: nat) {
    i < |bins| && k < |bins[i]| && bins[i][k] == p && bins' == bins[i := RingDropped(bins[i], k)]
  }

  /** Bin `i` lost `p` and kept the order of the rest. */
  ghost predicate TakenFrom(bins: seq<seq<int>>, i: nat, p: int, bins': seq<seq<int>>) {
    exists k: nat :: TakenAt(bins, i, p, bins', k)
  }

  lemma EmptyTreeOK(i: nat, m: Cells, h: Heads)
    requires i < NTREEBINS
    ensures TreeOK(i, Empty, 0, false, m, h)
  {
    hide OpenBits, BlockStart;
    WFEmpty(OpenBits(i), BlockStart(i));
    LinkedEmpty(0, TreeSlot(i), i, m, h);
  }

  lemma EmptyBinsOK(v: BinView, h: Heads)
    requires Shaped(v) && v.smallmap == ZERO && v.treemap == ZERO && v.members == {}
    requires forall i :: 0 <= i < NTREEBINS ==> v.treebins[i] == 0 && v.trees[i] == Empty
    requires forall i :: 0 <= i < NSMALLBINS ==> v.small[i] == [] && SmallHeader(i) in v.cell
    ensures BinsOK(v, h)
  {
    hide TreeOK;
    forall k | 0 <= k < NTREEBINS
      ensures TreeOK(k, v.trees[k], v.treebins[k], v.treemap[k], v.cell, h)
    {
      EmptyTreeOK(k, v.cell, h);
    }
    assert MembersOK(v, h) by {
      hide SmallOK;
    }
  }

  lemma AdoptKeys(m: Cells, r: int, x: int, xp: int)
    requires r in m && x in m
    requires m[x].left != 0 ==> m[x].left in m
    requires m[x].right != 0 ==> m[x].right in m
    requires x != r && x != m[x].left && x != m[x].right
    ensures Adopt(m, r, x, xp).Keys == m.Keys
  {
  }

  lemma FirstMember(v: BinView, h: Heads, i: nat)
    requires BinsOK(v, h) && i < NSMALLBINS
    ensures Shaped(v) && (v.small[i] != [] ==> v.small[i][0] in v.members)
  {
    hide SmallOK, TreeOK;
    if v.small[i] != [] {
      SmallMember(v, h, i, v.small[i][0]);
    }
  }

  lemma LinkMembers(v: BinView, h: Heads, i: nat, k: nat)
    requires BinsOK(v, h) && i < NSMALLBINS && k < |v.small[i]| && SmallLinks(v, i, k)
    ensures var c := v.cell[v.small[i][k]];
            (c.fd > 0 ==> c.fd in v.members) && (c.bk > 0 ==> c.bk in v.members)
  {
    hide SmallOK, TreeOK;
    var r, c := [SmallHeader(i)] + v.small[i], v.cell[v.small[i][k]];
    forall a | a in r && a > 0
      ensures a in v.members
    {
      assert a in v.small[i];
    }
    assert c.fd in r && c.bk in r;
  }

  lemma TreeCellsKept(v: BinView, m': Cells, h: Heads, i: nat, x: set<int>)
    requires BinsOK(v, h) && i < NTREEBINS && m'.Keys <= v.cell.Keys + x
    requires forall a :: a in v.cell && a !in Addrs(v.trees[i]) && a !in x ==> a in m' && m'[a] == v.cell[a]
    ensures CellsKept(v.cell, m', v.members + x)
  {
    hide SmallOK, TreeOK, Addrs;
    forall a | a in v.cell && a > 0 && a !in v.members + x
      ensures a in m' && m'[a] == v.cell[a]
    {
      assert a !in Addrs(v.trees[i]);
    }
  }

  /** A pointer into a stored tree: null, or the root of the subtree at `path`. */
  ghost predicate Spot(t: Tree, a: int, path: seq<bool>) {
    a == 0 || (OnPath(t, path) && At(t, path).Node? && |At(t, path).ring| > 0 && At(t, path).ring[0] == a)
  }

  ghost function SpotTree(t: Tree, a: int, path: seq<bool>): (s: Tree)
    requires Spot(t, a, path)
  {
    if a == 0 then Empty else At(t, path)
  }

  /** The candidate of a search: none yet, or a tree member `rsize` bytes larger than `nb`. */
  ghost predicate Candidate(t: Tree, v: int, rsize: nat, nb: nat) {
    if v == 0 then rsize + nb == WORD_RANGE else IsTreeMember(t, v, nb + rsize) && rsize + nb < WORD_RANGE
  }

  /** What the fit search keeps while it follows the bits of `nb` down the tree of its bin. */
  ghost predicate Fitting(t: Tree, i: nat, nb: nat, best: nat, path: seq<bool>, rst: Tree,
                          n: nat, lo: nat, q: nat, bits: nat)
    requires i < NTREEBINS
  {
    && n <= 64 && Walk(t, i, nb, 0, path, n, lo, q)
    && bits == Shl64(nb, 64 - n)
    && Covers(t, nb, best, At(t, path), rst)
  }

  lemma FitStart(v: BinView, h: Heads, i: nat, nb: nat)
    requires BinsOK(v, h) && i < NTREEBINS && v.treebins[i] != 0 && 0 < nb < WORD_RANGE
    ensures Shaped(v) && v.trees[i].Node? && Spot(v.trees[i], v.treebins[i], [])
    ensures 256 <= nb < TREE_INDEX_LIMIT && i == TreeIndex(nb) ==>
              Fitting(v.trees[i], i, nb, WORD_RANGE, [], Empty,
                      OpenBits(i), BlockStart(i), BlockNumber(i), Shl64(nb, LeftShift(i)))
  {
    hide InBin, TreeIndex, Shl64, Walk, Pow2, BinsOK, Covers, LeftShift, BlockStart, WF;
    RootReads(v, h, i);
    if 256 <= nb < TREE_INDEX_LIMIT && i == TreeIndex(nb) {
      TreeIndexUnique(nb, i);
      WalkStart(v.trees[i], i, nb, 0);
      CoversStart(v.trees[i], nb, WORD_RANGE);
    }
  }

  /** The sizes met in a tree bin. */
  lemma SpotReads(v: BinView, h: Heads, i: nat, a: int, path: seq<bool>)
    requires BinsOK(v, h) && i < NTREEBINS && a != 0 && Spot(v.trees[i], a, path)
    ensures a > 0 && a in v.cell && a in h && h[a].size == At(v.trees[i], path).size < TREE_INDEX_LIMIT
    ensures IsTreeMember(v.trees[i], a, h[a].size)
    ensures forall d :: Spot(v.trees[i], GetChild(v.cell[a], d), path + [d])
    ensures forall d :: SpotTree(v.trees[i], GetChild(v.cell[a], d), path + [d]) == Child(At(v.trees[i], path), d)
  {
    hide BinsOK, Linked, Distinct;
    BinsShaped(v, h);
    WalkReads(v, h, i, path);
    AtTreeMember(v.trees[i], path);
    TreeMember(v, h, i, a);
    forall d: bool
      ensures Spot(v.trees[i], GetChild(v.cell[a], d), path + [d])
      ensures SpotTree(v.trees[i], GetChild(v.cell[a], d), path + [d]) == Child(At(v.trees[i], path), d)
    {
      AtSnoc(v.trees[i], path, d, Empty);
    }
  }

  lemma BinsShaped(v: BinView, h: Heads)
    requires BinsOK(v, h)
    ensures Shaped(v)
  {
  }

  lemma FitExact(t: Tree, i: nat, nb: nat, best: nat, path: seq<bool>, rst: Tree, n: nat, lo: nat, q: nat, bits: nat)
    requires i < NTREEBINS && Fitting(t, i, nb, best, path, rst, n, lo, q, bits)
    ensures OnPath(t, path) && Remains(t, nb, nb, At(t, path))
  {
    RemainsExact(t, nb, At(t, path));
  }

  /** The two children of a node are different chunks, and both are smaller trees. */
  lemma RightOrLeft(v: BinView, h: Heads, i: nat, a: int, path: seq<bool>)
    requires BinsOK(v, h) && i < NTREEBINS && a != 0 && Spot(v.trees[i], a, path) && a in v.cell
    ensures v.cell[a].right != 0 ==> v.cell[a].right != v.cell[a].left
  {
    hide BinsOK, Linked;
    BinsShaped(v, h);
    WalkReads(v, h, i, path);
    var c := At(v.trees[i], path);
    DistinctParts(c);
    assert GetChild(v.cell[a], true) == v.cell[a].right && GetChild(v.cell[a], false) == v.cell[a].left;
    if c.right.Node? && c.left.Node? {
      assert Child(c, true) == c.right && Child(c, false) == c.left;
      ChunkCount(c.right, v.cell[a].right);
      ChunkCount(c.left, v.cell[a].left);
    }
  }

  /** One step down by the sign bit of the shifted request size. */
  lemma FitStep(t: Tree, i: nat, nb: nat, best: nat, path: seq<bool>, rst: Tree, n: nat, lo: nat, q: nat, bits: nat)
    requires i < NTREEBINS && Fitting(t, i, nb, best, path, rst, n, lo, q, bits)
    requires OnPath(t, path) && At(t, path).Node? && At(t, path).size != nb
    ensures n > 0
    ensures var d := TopBit(bits) == 1;
            var c := At(t, path);
            var b := Better(best, nb, c.size);
            var rst' := if !d && c.right.Node? then c.right else rst;
            && d == (nb >= lo + Pow2(n - 1))
            && (Child(c, d).Empty? ==> Remains(t, nb, b, rst'))
            && (Child(c, d).Node? ==>
                  Fitting(t, i, nb, b, path + [d], rst', n - 1, if d then lo + Pow2(n - 1) else lo,
                          if d then 2 * q + 1 else 2 * q, Shl64(bits, 1)))
  {
    hide Walk, Covers, Remains, Pow2, At, OnPath, Put, Shl64, TopBit, WF, Insert, OpenBits, BlockStart, Sizes;
    WalkBit(t, i, nb, 0, path, n, lo, q, bits);
    WalkStep(t, i, nb, 0, path, n, lo, q);
    WalkWF(t, i, nb, path, n, lo, q);
    var c := At(t, path);
    CoversStep(t, nb, best, c, rst, n, lo);
    var d := TopBit(bits) == 1;
    AtSnoc(t, path, d, Empty);
    var rst' := if !d && c.right.Node? then c.right else rst;
    if Child(c, d).Empty? {
      RemainsAtGap(t, nb, Better(best, nb, c.size), rst');
    }
  }

  lemma WalkWF(t: Tree, i: nat, nb: nat, path: seq<bool>, n: nat, lo: nat, q: nat)
    requires i < NTREEBINS && Walk(t, i, nb, 0, path, n, lo, q)
    ensures OnPath(t, path) && WF(At(t, path), n, lo)
  {
  }

  /** `v` is the smallest binned tree chunk of at least `nb` bytes, the oldest of its size; 0 if there is none. */
  ghost predicate BestChunk(w: BinView, h: Heads, nb: nat, v: int, rsize: nat) {
    && Shaped(w)
    && (forall k, s :: 0 <= k < NTREEBINS && s in Sizes(w.trees[k]) && nb <= s ==> v != 0 && nb + rsize <= s)
    && (v != 0 ==>
          && v in w.members && v in h && h[v].size == nb + rsize && !IsSmall(nb + rsize)
          && TreeIndex(nb + rsize) < NTREEBINS
          && IsTreeMember(w.trees[TreeIndex(nb + rsize)], v, nb + rsize))
  }

  lemma SpotStep(v: BinView, h: Heads, i: nat, nb: nat, best: nat, a: int, path: seq<bool>)
    requires BinsOK(v, h) && i < NTREEBINS && a != 0 && Spot(v.trees[i], a, path)
    requires Remains(v.trees[i], nb, best, At(v.trees[i], path))
    ensures var c := At(v.trees[i], path);
            Remains(v.trees[i], nb, Better(best, nb, c.size), if c.left.Node? then c.left else c.right)
  {
    hide BinsOK, Remains, WF, At, OnPath;
    RootReads(v, h, i);
    var n, lo := AtWF(v.trees[i], path, OpenBits(i), BlockStart(i));
    RemainsStep(v.trees[i], nb, best, At(v.trees[i], path), n, lo);
  }

  lemma SpotRoot(v: BinView, h: Heads, i: nat)
    requires BinsOK(v, h) && i < NTREEBINS && v.treemap[i]
    ensures Shaped(v) && v.treebins[i] != 0 && v.trees[i].Node?
    ensures Spot(v.trees[i], v.treebins[i], []) && At(v.trees[i], []) == v.trees[i]
  {
    RootReads(v, h, i);
  }

  lemma TreeSizes(v: BinView, h: Heads, i: nat, s: nat)
    requires BinsOK(v, h) && i < NTREEBINS && s in Sizes(v.trees[i])
    ensures InBin(i, s) && 256 <= s < TREE_INDEX_LIMIT && v.trees[i].Node? && v.treemap[i]
  {
    hide InBin, Linked, WF, Distinct;
    assert TreeOK(i, v.trees[i], v.treebins[i], v.treemap[i], v.cell, h);
    InBinLarge(i, s);
  }

  lemma NoFit(v: BinView, h: Heads, i: nat, nb: nat, rsize: nat)
    requires BinsOK(v, h) && i < NTREEBINS && v.trees[i].Empty?
    ensures Spot(v.trees[i], 0, []) && Remains(v.trees[i], nb, nb + rsize, SpotTree(v.trees[i], 0, []))
    ensures Candidate(v.trees[i], 0, rsize, nb) <==> rsize + nb == WORD_RANGE
  {
  }

  /** When the search of the own bin found nothing, no size of that bin fits. */
  lemma OwnBinBare(v: BinView, h: Heads, i: nat, nb: nat, rsize: nat)
    requires BinsOK(v, h) && i < NTREEBINS && rsize + nb == WORD_RANGE
    requires nb < TREE_INDEX_LIMIT ==> Remains(v.trees[i], nb, nb + rsize, Empty)
    ensures forall s :: s in Sizes(v.trees[i]) ==> s < nb
  {
    hide BinsOK;
    BinsShaped(v, h);
    forall s | s in Sizes(v.trees[i])
      ensures s < nb
    {
      TreeSizes(v, h, i, s);
    }
  }

  lemma NextBin(v: BinView, h: Heads, i: nat, j: nat, nb: nat, rsize: nat)
    requires BinsOK(v, h) && i < j < NTREEBINS && v.treemap[j] && 256 <= nb && i == TreeIndex(nb)
    ensures Shaped(v) && Spot(v.trees[j], v.treebins[j], [])
    ensures nb < TREE_INDEX_LIMIT ==> Remains(v.trees[j], nb, nb + rsize, SpotTree(v.trees[j], v.treebins[j], []))
  {
    hide BinsOK, Remains, TreeIndex, InBin;
    SpotRoot(v, h, j);
    if nb < TREE_INDEX_LIMIT {
      forall s | s in Sizes(v.trees[j])
        ensures nb <= s
      {
        TreeSizes(v, h, j, s);
        TreeIndexUnique(nb, i);
        BinsAscend(i, j, nb, s);
      }
      RemainsAll(v.trees[j], nb, nb + rsize);
    }
  }

  lemma MemberFound(w: BinView, h: Heads, j: nat, v: int, s: nat)
    requires BinsOK(w, h) && j < NTREEBINS && IsTreeMember(w.trees[j], v, s)
    ensures v > 0 && v in w.members && v in h && h[v].size == s && !IsSmall(s) && TreeIndex(s) == j
    ensures s in Sizes(w.trees[j])
  {
    hide BinsOK, TreeIndex, InBin;
    BinsShaped(w, h);
    TreeMemberHolds(w.trees[j], v, s);
    HoldsSize(w.trees[j], s, v);
    TreeMember(w, h, j, v);
    TreeSizes(w, h, j, s);
    TreeIndexUnique(s, j);
    OneSize(w, h, j, v, s);
  }

  /** A chunk is held under one size only. */
  lemma OneSize(w: BinView, h: Heads, j: nat, v: int, s: nat)
    requires BinsOK(w, h) && j < NTREEBINS && Holds(w.trees[j], s, v)
    ensures v in h && h[v].size == s
  {
    hide SmallOK, WF, InBin, Distinct, Linked;
    assert TreeOK(j, w.trees[j], w.treebins[j], w.treemap[j], w.cell, h);
    HeldSize(w.trees[j], w.treebins[j], TreeSlot(j), j, w.cell, h, v, s);
  }

  lemma {:induction false} HeldSize(t: Tree, root: int, par: int, idx: int, m: Cells, h: Heads, a: int, s: nat)
    requires Linked(t, root, par, idx, m, h) && Holds(t, s, a)
    ensures a in h && h[a].size == s
    decreases t
  {
    LinkedParts(t, root, par, idx, m, h);
    if Holds(t.left, s, a) {
      HeldSize(t.left, m[root].left, root, idx, m, h, a, s);
    } else if Holds(t.right, s, a) {
      HeldSize(t.right, m[root].right, root, idx, m, h, a, s);
    }
  }

  /** The subtree left to look at holds a fit, so the search ends with a candidate. */
  lemma FitFound(w: BinView, h: Heads, j: nat, nb: nat, t: int, path: seq<bool>, v1: int, r1: nat, v: int, rsize: nat)
    requires BinsOK(w, h) && j < NTREEBINS && Spot(w.trees[j], t, path)
    requires v1 == 0 ==> r1 + nb == WORD_RANGE
    requires nb < TREE_INDEX_LIMIT ==>
               && Remains(w.trees[j], nb, nb + r1, SpotTree(w.trees[j], t, path))
               && Remains(w.trees[j], nb, nb + rsize, Empty)
    requires (v == v1 && rsize == r1) || v != 0
    ensures v1 != 0 || t != 0 ==> v != 0 || nb >= TREE_INDEX_LIMIT
  {
    hide BinsOK;
    BinsShaped(w, h);
    if nb < TREE_INDEX_LIMIT && t != 0 && v1 == 0 {
      AtTreeMember(w.trees[j], path);
      TreeSizes(w, h, j, MinOf(At(w.trees[j], path)));
    }
  }

  lemma FitDone(w: BinView, h: Heads, i: nat, j: nat, nb: nat, v1: int, r1: nat, v: int, rsize: nat)
    requires BinsOK(w, h) && 256 <= nb < WORD_RANGE && i == TreeIndex(nb) && i <= j < NTREEBINS
    requires Candidate(w.trees[i], v1, r1, nb) && (nb >= TREE_INDEX_LIMIT ==> v1 == 0)
    requires (v == v1 && rsize == r1) || (v != 0 && IsTreeMember(w.trees[j], v, nb + rsize) && rsize < r1)
    requires if nb < TREE_INDEX_LIMIT then Remains(w.trees[j], nb, nb + rsize, Empty) else v == v1 && rsize == r1
    requires i < j ==> v1 == 0 && (forall s :: s in Sizes(w.trees[i]) ==> s < nb)
                       && forall k :: i < k < j ==> !w.treemap[k]
    requires v != 0 || nb >= TREE_INDEX_LIMIT || (i == j && forall k :: i < k < NTREEBINS ==> !w.treemap[k])
    ensures BestChunk(w, h, nb, v, rsize)
  {
    hide BinsOK, TreeIndex, InBin, IsTreeMember;
    BinsShaped(w, h);
    if v != 0 {
      MemberFound(w, h, if v == v1 && rsize == r1 then i else j, v, nb + rsize);
    }
    forall k, s | 0 <= k < NTREEBINS && s in Sizes(w.trees[k]) && nb <= s
      ensures v != 0 && nb + rsize <= s
    {
      TreeSizes(w, h, k, s);
      TreeIndexUnique(nb, i);
      if k < i {
        BinsAscend(k, i, s, nb);
      } else if k > j {
        FitAscends(w, h, i, j, k, nb, v, rsize, s);
      }
    }
  }

  lemma FitAscends(w: BinView, h: Heads, i: nat, j: nat, k: nat, nb: nat, v: int, rsize: nat, s: nat)
    requires BinsOK(w, h) && i <= j < k < NTREEBINS && s in Sizes(w.trees[k])
    requires v != 0 ==> IsTreeMember(w.trees[i], v, nb + rsize) || IsTreeMember(w.trees[j], v, nb + rsize)
    requires v == 0 ==> i == j && forall l :: i < l < NTREEBINS ==> !w.treemap[l]
    ensures v != 0 && nb + rsize <= s
  {
    hide BinsOK, TreeIndex, InBin, IsTreeMember;
    BinsShaped(w, h);
    TreeSizes(w, h, k, s);
    if v != 0 {
      var l := if IsTreeMember(w.trees[i], v, nb + rsize) then i else j;
      MemberFound(w, h, l, v, nb + rsize);
      TreeSizes(w, h, l, nb + rsize);
      BinsAscend(l, k, nb + rsize, s);
    }
  }

  lemma SmallestStart(w: BinView, h: Heads, i: nat, nb: nat, rsize: nat)
    requires BinsOK(w, h) && i < NTREEBINS && w.treemap[i] && 0 < nb < 256
    requires w.trees[i].Node? && w.trees[i].size == nb + rsize
    ensures Remains(w.trees[i], nb, nb + rsize,
                    if w.trees[i].left.Node? then w.trees[i].left else w.trees[i].right)
  {
    hide BinsOK, Remains, WF, InBin;
    BinsShaped(w, h);
    RootReads(w, h, i);
    forall s | s in Sizes(w.trees[i])
      ensures nb <= s
    {
      TreeSizes(w, h, i, s);
    }
    RemainsAll(w.trees[i], nb, nb + rsize + 1);
    RemainsStep(w.trees[i], nb, nb + rsize + 1, w.trees[i], OpenBits(i), BlockStart(i));
  }

  lemma SmallestDone(w: BinView, h: Heads, i: nat, nb: nat, v: int, rsize: nat)
    requires BinsOK(w, h) && i < NTREEBINS && 0 < nb < 256 && forall k :: 0 <= k < i ==> !w.treemap[k]
    requires IsTreeMember(w.trees[i], v, nb + rsize) && Remains(w.trees[i], nb, nb + rsize, Empty)
    ensures BestChunk(w, h, nb, v, rsize) && v != 0
  {
    hide BinsOK, TreeIndex, InBin, IsTreeMember;
    BinsShaped(w, h);
    MemberFound(w, h, i, v, nb + rsize);
    forall k, s | 0 <= k < NTREEBINS && s in Sizes(w.trees[k]) && nb <= s
      ensures nb + rsize <= s
    {
      TreeSizes(w, h, k, s);
      if k > i {
        TreeSizes(w, h, i, nb + rsize);
        BinsAscend(i, k, nb + rsize, s);
      }
    }
  }

  /** Where the chunk is, and how taking it out rewrites its tree. */
  lemma UnlinkLargeStart(v: BinView, h: Heads, x: int) returns (i: nat, path: seq<bool>)
    requires BinsOK(v, h) && x in v.members && x in h && !IsSmall(h[x].size)
    ensures Shaped(v) && i == TreeIndex(h[x].size) && i < NTREEBINS && x > 0
    ensures var t := v.trees[i];
            && WF(t, OpenBits(i), BlockStart(i)) && Holds(t, h[x].size, x) && Distinct(t)
            && Linked(t, v.treebins[i], TreeSlot(i), i, v.cell, h)
            && v.treemap[i] && t.Node?
            && OnPath(t, path) && At(t, path).Node? && x in At(t, path).ring
            && Remove(t, OpenBits(i), BlockStart(i), h[x].size, x) == Put(t, path, RemoveHere(At(t, path), x))
  {
    hide SmallOK, Linked, Circ, WF, Distinct, InBin, Pow2, OpenBits, BlockStart, TreeIndex;
    i := TreeIndex(h[x].size);
    assert Has(v, x, h[x].size);
    TreeMember(v, h, i, x);
    assert TreeOK(i, v.trees[i], v.treebins[i], v.treemap[i], v.cell, h);
    path := NodeOf(v.trees[i], OpenBits(i), BlockStart(i), h[x].size, x);
  }

  /** The bit of the bin stays set unless the root went without a replacement. */
  lemma RootAfter(t: Tree, path: seq<bool>, x: int, r: int, root: int, par: int, idx: int, m: Cells, h: Heads, m': Cells)
    requires OnPath(t, path) && At(t, path).Node? && t.Node? && x in At(t, path).ring
    requires Linked(Put(t, path, RemoveHere(At(t, path), x)), if path == [] then r else root, par, idx, m', h)
    ensures Put(t, path, RemoveHere(At(t, path), x)).Node? == (path != [] || r != 0)
  {
    hide Linked, RemoveHere;
    ChildRoot(Put(t, path, RemoveHere(At(t, path), x)), if path == [] then r else root, par, idx, m', h);
  }

  lemma ChainedAfter(t: Tree, path: seq<bool>, x: int, r: int, root: int, par: int, idx: int,
                     m: Cells, h: Heads, m1: Cells)
    requires OnPath(t, path) && Linked(t, root, par, idx, m, h) && Distinct(t) && At(t, path).Node? && t.Node?
    requires Taken(t, path, x, r, idx, m, h, m1) && x != At(t, path).ring[0]
    ensures Linked(Put(t, path, RemoveHere(At(t, path), x)), root, par, idx, m1, h)
    ensures Put(t, path, RemoveHere(At(t, path), x)).Node?
    ensures forall a :: a in m && a !in Addrs(t) ==> a in m1 && m1[a] == m[a]
  {
    hide Linked, RemoveHere, Chunks, Distinct;
    UnlinkChained(t, path, x, root, par, idx, m, h);
    ChildRoot(Put(t, path, RemoveHere(At(t, path), x)), root, par, idx, m1, h);
    ChildRoot(t, root, par, idx, m, h);
    AtDistinct(t, path);
  }

  lemma LeafWalkShape(c: Tree, x: int, path: seq<bool>, r: int, rp: int, rd: bool)
    requires LeafWalk(c, x, path, r, rp, rd)
    ensures c.Node? && OnPath(Child(c, LeafSide(c)), path) && At(Child(c, LeafSide(c)), path).Node?
  {
  }

  lemma RemoveWrites(m: Cells, x: int, m': Cells)
    requires x in m && m[x].fd in m && m[x].bk in m
    requires var f, b := m[x].fd, m[x].bk;
             var m1 := m[f := m[f].(bk := b)];
             m' == m1[b := m1[b].(fd := f)]
    ensures m' == RingRemove(m, x)
  {
  }

  lemma TakenChained(t: Tree, path: seq<bool>, x: int, r: int, idx: int, m: Cells, h: Heads)
    requires OnPath(t, path) && At(t, path).Node? && x in At(t, path).ring && x != At(t, path).ring[0]
    requires x in m && m[x].fd in m && m[x].bk in m
    ensures Taken(t, path, x, r, idx, m, h, RingRemove(m, x))
  {
  }

  lemma DescendStart(v: BinView, h: Heads, i: nat, s: nat, x: int)
    requires BinsOK(v, h) && InBin(i, s) && s < TREE_INDEX_LIMIT && v.treemap[i]
    ensures Shaped(v) && i < NTREEBINS && v.trees[i].Node?
    ensures |v.trees[i].ring| > 0 && v.trees[i].ring[0] == v.treebins[i]
    ensures Walk(v.trees[i], i, s, x, [], OpenBits(i), BlockStart(i), BlockNumber(i))
    ensures At(v.trees[i], []) == v.trees[i] && LeftShift(i) == 64 - OpenBits(i)
  {
    RootReads(v, h, i);
    WalkStart(v.trees[i], i, s, x);
  }

  lemma WalkNode(v: BinView, h: Heads, i: nat, s: nat, x: int, path: seq<bool>, n: nat, lo: nat, q: nat)
    requires BinsOK(v, h) && i < NTREEBINS && Walk(v.trees[i], i, s, x, path, n, lo, q)
    ensures n <= 64 && OnPath(v.trees[i], path)
    ensures var c := At(v.trees[i], path);
            c.Node? && |c.ring| > 0 && c.ring[0] in h && c.ring[0] in v.cell && h[c.ring[0]].size == c.size
  {
    WalkReads(v, h, i, path);
  }

  lemma LandedGap(root: Tree, i: nat, s: nat, x: int, path: seq<bool>, n: nat, lo: nat, q: nat, d: bool)
    requires i < NTREEBINS && Walk(root, i, s, x, path, n, lo, q) && At(root, path).size != s
    requires Child(At(root, path), d).Empty?
    requires Insert(root, OpenBits(i), BlockStart(i), s, x)
             == Put(root, path, WithChild(At(root, path), d, Node(s, [x], Empty, Empty)))
    ensures Landed(root, i, s, x, path, d)
  {
  }

  lemma InsertLargeStart(v: BinView, h: Heads, i: nat, s: nat, x: int)
    requires BinsOK(v, h) && i == TreeIndex(s) && MIN_LARGE_SIZE <= s && BinnedSize(s) && x !in v.members
    ensures Shaped(v) && i < NTREEBINS && InBin(i, s) && WF(v.trees[i], OpenBits(i), BlockStart(i))
    ensures BlockStart(i) <= s < BlockStart(i) + Pow2(OpenBits(i))
    ensures x !in Addrs(v.trees[i]) && v.treemap[i] == v.trees[i].Node?
  {
    hide Pow2, OpenBits, BlockStart, WF, TreeIndex, MinSize;
    TreeIndexUnique(s, i);
    RootReads(v, h, i);
    BinInBlock(i, s);
    if x in Addrs(v.trees[i]) {
      TreeMember(v, h, i, x);
    }
  }

  /** What the chunk at the end of a descent is. */
  lemma LandedReads(v: BinView, h: Heads, i: nat, s: nat, x: int, path: seq<bool>, d: bool)
    requires BinsOK(v, h) && i < NTREEBINS && Landed(v.trees[i], i, s, x, path, d) && x > 0 && x !in Addrs(v.trees[i])
    ensures WF(v.trees[i], OpenBits(i), BlockStart(i)) && BlockStart(i) <= s < BlockStart(i) + Pow2(OpenBits(i))
    ensures OnPath(v.trees[i], path) && At(v.trees[i], path).Node? && |At(v.trees[i], path).ring| > 0
    ensures var t := At(v.trees[i], path).ring[0];
            t in v.cell && t != x && v.cell[t].fd in v.cell && v.cell[t].fd != x
  {
    hide BinsOK, Pow2, OpenBits, BlockStart, At, OnPath, Linked, Distinct, WF, Insert;
    BinsShaped(v, h);
    WalkReads(v, h, i, path);
    var c := At(v.trees[i], path);
    var t := c.ring[0];
    ChainedFd(c, t, v.cell[t].parent, i, v.cell, h);
  }

  lemma ChainedWrites(u: Cells, t: int, f: int, x: int, w: Cells, m: Cells)
    requires t in w && f in w && x in w && x != t && x != f
    requires u == w[x := w[x].(parent := 0)]
    requires var m1 := w[t := w[t].(fd := x)];
             var m2 := m1[f := m1[f].(bk := x)];
             m == m2[x := m2[x].(fd := f, bk := t, parent := 0)]
    ensures m == RingInsert(u, t, f, x)
  {
  }

  lemma InsertSmallStart(v: BinView, h: Heads, i: nat, p: int)
    requires BinsOK(v, h) && i < NSMALLBINS && p !in v.members
    ensures Shaped(v)
    ensures SmallHeader(i) in v.cell && p !in v.small[i] && v.smallmap[i] == (v.small[i] != [])
    ensures v.small[i] != [] ==>
              v.cell[SmallHeader(i)].fd == v.small[i][0] && v.small[i][0] in v.cell
    ensures DistinctRing([SmallHeader(i)] + v.small[i])
  {
    hide Circ, TreeOK;
    assert SmallOK(i, v.small[i], v.smallmap[i], v.cell, h);
    var c := [SmallHeader(i)] + v.small[i];
    if v.small[i] != [] {
      CircAt(c, v.cell, 0);
      CircAt(c, v.cell, 1);
      CircRing(c, v.cell);
    }
  }

  lemma InsertSmallDone(v: BinView, v': BinView, h: Heads, i: nat, p: int, f: int)
    requires BinsOK(v, h) && 4 <= i < NSMALLBINS && i % 2 == 0
    requires p > 0 && p !in v.members && p in h && h[p].size == 8 * i
    requires SmallHeader(i) in v.cell
    requires f == if v.small[i] == [] then SmallHeader(i) else v.small[i][0]
    requires f in v.cell
    requires v' == v.(cell := RingInsert(v.cell, SmallHeader(i), f, p), small := v.small[i := [p] + v.small[i]],
                      smallmap := if v.small[i] == [] then Mark(v.smallmap, i) else v.smallmap,
                      members := v.members + {p})
    ensures BinsOK(v', h)
  {
    hide Circ, TreeOK, RingInsert, Addrs;
    InsertSmallStart(v, h, i, p);
    MarkBit(v.smallmap, i);
    var hd := SmallHeader(i);
    var c := [hd] + v.small[i];
    assert SmallOK(i, v.small[i], v.smallmap[i], v.cell, h);
    InsertRing(c, p, f, v.cell);
    assert RingAdded(c, p) == [hd] + v'.small[i];
    assert SmallOK(i, v'.small[i], v'.smallmap[i], v'.cell, h) by {
      InsertRingFrame(v.cell, hd, f, p, hd);
    }
    InsertSmallChange(v, v', h, i, p, f);
    SmallBinChanged(v, v', i, h);
  }

  lemma InsertSmallChange(v: BinView, v': BinView, h: Heads, i: nat, p: int, f: int)
    requires BinsOK(v, h) && i < NSMALLBINS && p > 0 && p !in v.members
    requires SmallHeader(i) in v.cell && f in v.cell
    requires f == SmallHeader(i) || f in v.small[i]
    requires v' == v.(cell := RingInsert(v.cell, SmallHeader(i), f, p), small := v.small[i := [p] + v.small[i]],
                      smallmap := v.smallmap[i := true],
                      members := v.members + {p})
    ensures SmallChange(v, v', i)
  {
    hide Circ, TreeOK, RingInsert, Addrs;
    assert RingSet([p] + v.small[i]) == RingSet(v.small[i]) + {p};
    forall a | a in RingSet(v.small[i])
      ensures a in v.members
    {
      SmallMember(v, h, i, a);
    }
    forall a | a in v.members - RingSet(v.small[i])
      ensures a in v.cell && a in v'.cell && v'.cell[a] == v.cell[a]
    {
      MemberMapped(v, h, a);
      InsertRingFrame(v.cell, SmallHeader(i), f, p, a);
    }
    forall j | 0 <= j < NSMALLBINS && j != i
      ensures SmallHeader(j) in v.cell && SmallHeader(j) in v'.cell
      ensures v'.cell[SmallHeader(j)] == v.cell[SmallHeader(j)]
    {
      assert SmallOK(j, v.small[j], v.smallmap[j], v.cell, h);
      if f in v.small[i] {
        SmallMember(v, h, i, f);
      }
      InsertRingFrame(v.cell, SmallHeader(i), f, p, SmallHeader(j));
    }
  }

  lemma UnlinkSmallStart(v: BinView, h: Heads, i: nat, p: int) returns (k: nat)
    requires BinsOK(v, h) && i < NSMALLBINS && p in v.members && p in h && IsSmall(h[p].size)
    requires i == SmallIndex(h[p].size)
    ensures Shaped(v)
    ensures k < |v.small[i]| && v.small[i][k] == p && SmallLinks(v, i, k)
  {
    hide Circ, TreeOK, TreeIndex;
    assert Has(v, p, h[p].size);
    k := IndexOf(v.small[i], p);
    SmallLinksAt(v, h, i, k);
  }

  /** What unlinking a chunk reads. */
  ghost predicate SmallLinks(v: BinView, i: nat, k: nat)
    requires Shaped(v) && i < NSMALLBINS && k < |v.small[i]|
  {
    var c, p := [SmallHeader(i)] + v.small[i], v.small[i][k];
    && p in v.cell
    && v.cell[p].fd == c[Nxt(k + 1, |c|)] && v.cell[p].bk == c[k]
    && v.cell[p].fd in v.cell && v.cell[p].bk in v.cell
    && (v.cell[p].fd == v.cell[p].bk <==> |v.small[i]| == 1)
  }

  lemma SmallLinksAt(v: BinView, h: Heads, i: nat, k: nat)
    requires BinsOK(v, h) && i < NSMALLBINS && k < |v.small[i]|
    ensures SmallLinks(v, i, k)
  {
    hide Circ, TreeOK;
    assert SmallOK(i, v.small[i], v.smallmap[i], v.cell, h);
    var c := [SmallHeader(i)] + v.small[i];
    CircAt(c, v.cell, k + 1);
    CircAt(c, v.cell, Nxt(k + 1, |c|));
    CircAt(c, v.cell, k);
    if |v.small[i]| > 1 {
      CircDistinct(c, v.cell, Nxt(k + 1, |c|), k);
    }
  }

  lemma UnlinkFirstStart(v: BinView, h: Heads, i: nat)
    requires BinsOK(v, h) && i < NSMALLBINS && v.smallmap[i]
    ensures Shaped(v)
    ensures v.small[i] != [] && SmallHeader(i) in v.cell && v.cell[SmallHeader(i)].fd == v.small[i][0]
    ensures v.small[i][0] in v.members && v.small[i][0] in h && h[v.small[i][0]].size == 8 * i
    ensures SmallLinks(v, i, 0) && v.cell[v.small[i][0]].bk == SmallHeader(i)
  {
    hide Circ, TreeOK;
    assert SmallOK(i, v.small[i], v.smallmap[i], v.cell, h);
    CircAt([SmallHeader(i)] + v.small[i], v.cell, 0);
    SmallLinksAt(v, h, i, 0);
    SmallMember(v, h, i, v.small[i][0]);
  }

  /** The ring of a small bin without its element `k`. */
  lemma UnlinkSmallRing(i: nat, ring: seq<int>, m: Cells, h: Heads, k: nat, m': Cells)
    requires k < |ring| && SmallOK(i, ring, true, m, h)
    requires |ring| == 1 ==> m' == m
    requires |ring| > 1 ==> ring[k] in m && m[ring[k]].fd in m && m[ring[k]].bk in m && m' == RingRemove(m, ring[k])
    ensures DistinctRing(ring) && SmallOK(i, RingDropped(ring, k), |ring| > 1, m', h)
  {
    hide Circ, RingRemove;
    var hd, c, rest := SmallHeader(i), [SmallHeader(i)] + ring, RingDropped(ring, k);
    CircRing(c, m);
    assert DistinctRing(ring) by {
      assert forall j :: 0 <= j < |ring| ==> ring[j] == c[j + 1];
    }
    if |ring| > 1 {
      RemoveRing(c, k + 1, m);
      assert RingDropped(c, k + 1) == [hd] + rest;
      RemoveRingFrame(m, ring[k], hd);
      assert forall a :: a in rest ==> a in ring;
    }
  }

  lemma UnlinkSmallDone(v: BinView, v': BinView, h: Heads, i: nat, k: nat)
    requires BinsOK(v, h) && i < NSMALLBINS && k < |v.small[i]| && SmallLinks(v, i, k)
    requires var p := v.small[i][k];
             v' == v.(cell := if |v.small[i]| == 1 then v.cell else RingRemove(v.cell, p),
                      small := v.small[i := RingDropped(v.small[i], k)],
                      smallmap := if |v.small[i]| == 1 then Clear(v.smallmap, i) else v.smallmap,
                      members := v.members - {p})
    ensures BinsOK(v', h)
  {
    assert SmallOK(i, v.small[i], v.smallmap[i], v.cell, h) && Shaped(v);
    assert v.smallmap[i];
    hide BinsOK, SmallOK, RingRemove, Addrs, RingDropped;
    ClearBit(v.smallmap, i);
    UnlinkSmallRing(i, v.small[i], v.cell, h, k, v'.cell);
    DroppedDistinct(v.small[i], k);
    UnlinkSmallChange(v, v', h, i, k);
    SmallBinIndex(v, h, i, v.small[i][k]);
    SmallBinChanged(v, v', i, h);
  }

  lemma SmallBinIndex(v: BinView, h: Heads, i: nat, p: int)
    requires BinsOK(v, h) && i < NSMALLBINS && p in v.small[i]
    ensures 4 <= i && i % 2 == 0
  {
    hide BinsOK, Has;
    SmallMember(v, h, i, p);
    BinsMembers(v, h);
    assert BinnedSize(h[p].size);
  }

  lemma UnlinkSmallChange(v: BinView, v': BinView, h: Heads, i: nat, k: nat)
    requires BinsOK(v, h) && i < NSMALLBINS && k < |v.small[i]| && SmallLinks(v, i, k)
    requires RingSet(RingDropped(v.small[i], k)) == RingSet(v.small[i]) - {v.small[i][k]}
    requires var p := v.small[i][k];
             v' == v.(cell := if |v.small[i]| == 1 then v.cell else RingRemove(v.cell, p),
                      small := v.small[i := RingDropped(v.small[i], k)],
                      smallmap := if |v.small[i]| == 1 then v.smallmap[i := false] else v.smallmap,
                      members := v.members - {p})
    ensures SmallChange(v, v', i)
  {
    hide Circ, TreeOK, RingRemove, Addrs;
    var p := v.small[i][k];
    var c := [SmallHeader(i)] + v.small[i];
    forall a | a in RingSet(v.small[i])
      ensures a in v.members
    {
      SmallMember(v, h, i, a);
    }
    forall a | a in v.members - RingSet(v.small[i])
      ensures a in v.cell && a in v'.cell && v'.cell[a] == v.cell[a]
    {
      MemberMapped(v, h, a);
      RemoveRingFrame(v.cell, p, a);
      assert v.cell[p].fd in c && v.cell[p].bk in c;
    }
    forall j | 0 <= j < NSMALLBINS && j != i
      ensures SmallHeader(j) in v.cell && SmallHeader(j) in v'.cell
      ensures v'.cell[SmallHeader(j)] == v.cell[SmallHeader(j)]
    {
      assert SmallOK(j, v.small[j], v.smallmap[j], v.cell, h);
      assert v.cell[p].fd in c && v.cell[p].bk in c;
      assert forall a :: a in v.small[i] ==> a > 0 by {
        forall a | a in v.small[i] ensures a > 0 { SmallMember(v, h, i, a); }
      }
      RemoveRingFrame(v.cell, p, SmallHeader(j));
    }
  }
}
