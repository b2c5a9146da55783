/** Reversed sequences. */
module Sequences {
  function Reversed<T>(s: seq<T>): (r: seq<T>)
    ensures |r| == |s|
  {
    if s == [] then [] else Reversed(s[1..]) + [s[0]]
  }

  lemma ReversedNone<T>()
    ensures Reversed<T>([]) == []
  {
  }

  lemma {:induction false} ReversedDropLast<T>(s: seq<T>)
    requires |s| > 0
    ensures Reversed(s) == [s[|s| - 1]] + Reversed(s[..|s| - 1])
  {
    if |s| > 1 {
      ReversedDropLast(s[1..]);
      assert s[1..][..|s| - 2] == s[..|s| - 1][1..];
    }
  }

  lemma ReversedSnoc<T>(s: seq<T>, c: T)
    ensures Reversed(s + [c]) == [c] + Reversed(s)
  {
    ReversedDropLast(s + [c]);
    assert (s + [c])[..|s|] == s;
  }
}
