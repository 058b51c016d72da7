/** Sizes of sets and maps. */
module Counting {

  lemma {:induction false} SubsetSmaller<T>(a: set<T>, b: set<T>)
    requires a <= b
    ensures |a| <= |b|
  {
    assert b == a + (b - a);
  }

  lemma {:induction false} MapSize<K, V>(m: map<K, V>)
    ensures |m| == |m.Keys|
  {
  }

  lemma {:induction false} SubmapSmaller<K, V>(small: map<K, V>, big: map<K, V>)
    requires small.Keys <= big.Keys
    ensures |small| <= |big|
  {
    SubsetSmaller(small.Keys, big.Keys);
    MapSize(small);
    MapSize(big);
  }
}
