/**
 * The 32-bit maps of non-empty bins, and the bit tricks that search them.
 * A machine word is its sequence of bits, lowest place first.
 */
module BinMaps {
  import opened Words

  const MAP_BITS := 32

  function Zeros(n: nat): (z: seq<bool>)
    ensures |z| == n && forall i :: 0 <= i < n ==> !z[i]
  {
    if n == 0 then [] else Zeros(n - 1) + [false]
  }

  type Word = w: seq<bool> | |w| == MAP_BITS witness Zeros(MAP_BITS)

  const ZERO: Word := Zeros(MAP_BITS)

  function And(x: Word, y: Word): (z: Word) {
    seq(MAP_BITS, i requires 0 <= i < MAP_BITS => x[i] && y[i])
  }

  function Or(x: Word, y: Word): (z: Word) {
    seq(MAP_BITS, i requires 0 <= i < MAP_BITS => x[i] || y[i])
  }

  function Not(x: seq<bool>): (z: seq<bool>)
    ensures |z| == |x| && forall i :: 0 <= i < |x| ==> z[i] == !x[i]
  {
    seq(|x|, i requires 0 <= i < |x| => !x[i])
  }

  /** `x + 1`, the carry rippling upwards and out. */
  function Inc(x: seq<bool>): (z: seq<bool>)
    ensures |z| == |x|
  {
    if x == [] then [] else if !x[0] then [true] + x[1..] else [false] + Inc(x[1..])
  }

  /** `-x` in two's complement. */
  function Neg(x: Word): (z: Word) {
    Inc(Not(x))
  }

  /** `x << 1`. */
  function ShlOne(x: Word): (z: Word) {
    [false] + x[..MAP_BITS - 1]
  }

  /** `x >> k`. */
  function Shr(x: Word, k: nat): (z: Word) {
    seq(MAP_BITS, i requires 0 <= i < MAP_BITS => i + k < MAP_BITS && x[i + k])
  }

  /** The word moved up by `k` bits. */
  function Shl(x: Word, k: nat): (z: Word) {
    seq(MAP_BITS, i requires 0 <= i < MAP_BITS => k <= i && x[i - k])
  }

  /** `1 << i`. */
  function IdxBit(i: nat): (z: Word)
    requires i < MAP_BITS
  {
    ZERO[i := true]
  }

  function LeastBit(x: Word): (z: Word) {
    And(x, Neg(x))
  }

  function LeftBits(x: Word): (z: Word) {
    Or(ShlOne(x), Neg(ShlOne(x)))
  }

  function Mark(x: Word, i: nat): (z: Word)
    requires i < MAP_BITS
  {
    Or(x, IdxBit(i))
  }

  function Clear(x: Word, i: nat): (z: Word)
    requires i < MAP_BITS
  {
    And(x, Not(IdxBit(i)))
  }

  /** The place of the lowest set bit (`ctz`). */
  function BitToIdx(x: Word): (i: nat)
    requires x != ZERO
    ensures i < MAP_BITS && x[i] && forall j :: 0 <= j < i ==> !x[j]
  {
    assert exists k :: 0 <= k < MAP_BITS && x[k];
    FirstSet(x, 0)
  }

  function FirstSet(x: seq<bool>, i: nat): (r: nat)
    requires exists k :: i <= k < |x| && x[k]
    requires forall j :: 0 <= j < i ==> !x[j]
    ensures i <= r < |x| && x[r] && forall j :: 0 <= j < r ==> !x[j]
    decreases |x| - i
  {
    if x[i] then i else FirstSet(x, i + 1)
  }

  /** The number a sequence of bits stands for. */
  function Value(x: seq<bool>): (v: nat) {
    if x == [] then 0 else (if x[0] then 1 else 0) + 2 * Value(x[1..])
  }

  lemma {:induction false} ValueBound(x: seq<bool>)
    ensures Value(x) < Pow2(|x|)
  {
    if x != [] {
      ValueBound(x[1..]);
    }
  }

  lemma {:induction false} IncValue(x: seq<bool>)
    ensures Value(Inc(x)) == if Value(x) == Pow2(|x|) - 1 then 0 else Value(x) + 1
  {
    if x != [] {
      ValueBound(x[1..]);
      var z := Inc(x);
      if !x[0] {
        assert z[1..] == x[1..];
      } else {
        IncValue(x[1..]);
        assert z[1..] == Inc(x[1..]);
      }
    }
  }

  lemma {:induction false} NotValue(x: seq<bool>)
    ensures Value(Not(x)) == Pow2(|x|) - 1 - Value(x)
  {
    if x != [] {
      NotValue(x[1..]);
      assert Not(x)[1..] == Not(x[1..]);
    }
  }

  /** `Neg` is the machine's negation: the word and its negation add up to 2^32, or both are zero. */
  lemma NegValue(x: Word)
    ensures Value(Neg(x)) == if Value(x) == 0 then 0 else Pow2(MAP_BITS) - Value(x)
  {
    hide Pow2;
    NotValue(x);
    IncValue(Not(x));
    ValueBound(x);
  }

  /** Negation keeps the bits up to and including the lowest set one and flips those above it. */
  lemma {:induction false} IncNotBit(x: seq<bool>, i: nat)
    requires i < |x|
    ensures Inc(Not(x))[i] == if exists j :: 0 <= j < i && x[j] then !x[i] else x[i]
  {
    var n := Not(x);
    if x[0] {
      assert Inc(n) == [true] + n[1..];
      if i > 0 {
        assert x[0] && Inc(n)[i] == n[i];
      }
    } else if i > 0 {
      assert n[1..] == Not(x[1..]);
      assert Inc(n) == [false] + Inc(n[1..]);
      IncNotBit(x[1..], i - 1);
      if exists j :: 0 <= j < i && x[j] {
        var j :| 0 <= j < i && x[j];
        assert x[1..][j - 1];
      }
    }
  }

  /** `x & -x` isolates the lowest set bit. */
  lemma LeastBitIsolates(x: Word)
    requires x != ZERO
    ensures LeastBit(x) == IdxBit(BitToIdx(x))
    ensures LeastBit(x) != ZERO && BitToIdx(LeastBit(x)) == BitToIdx(x)
  {
    var k := BitToIdx(x);
    var l := LeastBit(x);
    forall i | 0 <= i < MAP_BITS
      ensures l[i] == (i == k)
    {
      IncNotBit(x, i);
    }
    assert l == IdxBit(k);
    assert l[k];
  }

  /** `left_bits` of one bit is the mask of the places above it. */
  lemma LeftBitsMask(i: nat, j: nat)
    requires i < MAP_BITS && j < MAP_BITS
    ensures LeftBits(IdxBit(i))[j] <==> i < j
  {
    var s := ShlOne(IdxBit(i));
    assert forall k :: 0 <= k < MAP_BITS ==> s[k] == (k == i + 1);
    assert i + 1 < j ==> s[i + 1];
    IncNotBit(s, j);
  }

  /**
   * The search used by malloc: the least bit of the map above `i` is the next marked place,
   * and there is one exactly when the masked word is not zero.
   */
  lemma NextMarked(m: Word, i: nat)
    requires i < MAP_BITS
    ensures And(LeftBits(IdxBit(i)), m) == ZERO <==> forall j :: i < j < MAP_BITS ==> !m[j]
    ensures And(LeftBits(IdxBit(i)), m) != ZERO ==>
              var l := LeastBit(And(LeftBits(IdxBit(i)), m));
              l != ZERO &&
              var k := BitToIdx(l);
              i < k < MAP_BITS && m[k] && forall j :: i < j < k ==> !m[j]
  {
    var w := And(LeftBits(IdxBit(i)), m);
    forall j | 0 <= j < MAP_BITS
      ensures w[j] == (i < j && m[j])
    {
      LeftBitsMask(i, j);
    }
    if w != ZERO {
      LeastBitIsolates(w);
    } else {
      assert forall j :: i < j < MAP_BITS ==> !w[j];
    }
  }

  lemma MarkBit(x: Word, i: nat)
    requires i < MAP_BITS
    ensures Mark(x, i) == x[i := true]
  {
  }

  lemma ClearBit(x: Word, i: nat)
    requires i < MAP_BITS
    ensures Clear(x, i) == x[i := false]
  {
  }

  /** The search of the small bins above bin `i`, on the bit map moved down to `i`. */
  lemma NextSmall(m: Word, i: nat)
    requires i < MAP_BITS
    ensures And(Shl(Shr(m, i), i), LeftBits(IdxBit(i))) == And(LeftBits(IdxBit(i)), m)
  {
    hide LeftBits, IdxBit;
    var x, y := And(Shl(Shr(m, i), i), LeftBits(IdxBit(i))), And(LeftBits(IdxBit(i)), m);
    forall j | 0 <= j < MAP_BITS
      ensures x[j] == y[j]
    {
      LeftBitsMask(i, j);
    }
  }

  /** The bit map moved down is zero exactly when no bin from `i` on is marked. */
  lemma ShrZero(m: Word, i: nat)
    ensures Shr(m, i) == ZERO <==> forall j :: i <= j < MAP_BITS ==> !m[j]
  {
    if Shr(m, i) == ZERO {
      forall j | i <= j < MAP_BITS
        ensures !m[j]
      {
        assert Shr(m, i)[j - i] == m[j];
      }
    }
  }

  /** The two low bits of the bit map moved down to `i`. */
  lemma ShrLow(m: Word, i: nat)
    requires i + 1 < MAP_BITS
    ensures Shr(m, i)[0] == m[i] && Shr(m, i)[1] == m[i + 1]
  {
  }
}
