// Counting the elements of lists and sets.
module Counting {

  ghost function Elements<T>(l: seq<T>): set<T> {
    set e | e in l
  }

  lemma {:induction false} ElementsDistinct<T>(l: seq<T>)
    requires forall i, j | 0 <= i < j < |l| :: l[i] != l[j]
    ensures |Elements(l)| == |l|
  {
    if l != [] {
      var k := |l| - 1;
      ElementsDistinct(l[..k]);
      assert Elements(l) == Elements(l[..k]) + {l[k]} && l[k] !in Elements(l[..k]);
    }
  }

  lemma SubsetCount<T>(a: set<T>, b: set<T>)
    requires a <= b
    ensures |a| <= |b|
  {
    assert b == a + (b - a);
  }
}
