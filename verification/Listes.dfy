/** Lists without duplicates, and the sets they list. */
module Listes {

  ghost predicate SansDoublon<T>(s: seq<T>) {
    forall i, j :: 0 <= i < j < |s| ==> s[i] != s[j]
  }

  function Elements<T(==)>(s: seq<T>): set<T> {
    set x | x in s
  }

  lemma {:induction false} ElementsOf<T>(s: seq<T>)
    requires SansDoublon(s)
    ensures |Elements(s)| == |s|
  {
    if s != [] {
      var t := s[..|s| - 1];
      ElementsOf(t);
      assert s == t + [s[|s| - 1]];
      assert Elements(s) == Elements(t) + {s[|s| - 1]};
    }
  }

  lemma SubsetCard<T>(a: set<T>, b: set<T>)
    requires a <= b
    ensures |a| <= |b|
  {
    assert a + (b - a) == b && a * (b - a) == {};
  }

  /** A set that is larger is not contained. */
  lemma SubsetSize(a: set<int>, b: set<int>)
    requires |a| > |b|
    ensures exists w :: w in a && w !in b
  {
    if forall w :: w in a ==> w in b {
      SubsetCard(a, b);
    }
  }
}
