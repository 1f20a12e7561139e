/** Sizes of sets and shares of wholes. */
module Measures {

  lemma SubsetCount<T>(a: set<T>, b: set<T>)
    requires a <= b
    ensures |a| <= |b|
    ensures |a| == |b| ==> a == b
  {
    assert b == a + (b - a);
    assert |b| == |a| + |b - a|;
  }

  lemma ShareBounds(part: nat, whole: nat)
    requires part <= whole && whole > 0
    ensures 0.0 <= part as real / whole as real <= 1.0
    ensures part as real / whole as real > 0.0 <==> part > 0
    ensures part as real / whole as real == 1.0 <==> part == whole
  {
    var q, w := part as real / whole as real, whole as real;
    assert q * w == part as real;
    assert q < 0.0 ==> q * w < 0.0;
    assert q > 1.0 ==> q * w > w;
  }
}
