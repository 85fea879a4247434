/** What the other modules share: optional values, and sequences and sets with their sizes. */
module Basics {
  datatype Option<+T> = None | Some(value: T)

  function Min(a: int, b: int): int { if a <= b then a else b }

  predicate Distinct<T(==)>(s: seq<T>) { forall i, j | 0 <= i < j < |s| :: s[i] != s[j] }

  function Elements<T>(s: seq<T>): set<T> { set x | x in s }

  lemma {:induction false} DistinctCount<T>(s: seq<T>)
    requires Distinct(s)
    ensures |Elements(s)| == |s|
  {
    if s == [] {
    } else {
      var pre, last := s[..|s| - 1], s[|s| - 1];
      DistinctCount(pre);
      assert s == pre + [last];
      assert last !in pre;
      assert Elements(s) == Elements(pre) + {last};
    }
  }

  lemma SubsetCount<T>(a: set<T>, b: set<T>)
    requires a <= b
    ensures |a| <= |b|
    ensures |a| == |b| ==> a == b
  {
    assert b == a + (b - a);
    assert |b| == |a| + |b - a|;
  }
}
