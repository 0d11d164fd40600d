/** Facts about finite sets that the FTL proofs count with. */
module Sets {

  lemma SubsetSize<T>(a: set<T>, b: set<T>)
    requires a <= b
    ensures |a| <= |b|
  {
    assert b == a + (b - a);
  }

  lemma UnionSize<T>(a: set<T>, b: set<T>)
    ensures |a + b| <= |a| + |b|
  {
    assert a + b == a + (b - a);
    SubsetSize(b - a, b);
  }

  lemma Missing<T>(a: set<T>, b: set<T>) returns (x: T)
    requires a <= b && |a| < |b|
    ensures x in b && x !in a
  {
    assert b == a + (b - a);
    x :| x in b - a;
  }

  ghost function Elems<T>(xs: seq<T>): set<T> { set x | x in xs }

  lemma {:induction false} ElemsSize<T>(xs: seq<T>)
    ensures |Elems(xs)| <= |xs|
    ensures (forall i, j | 0 <= i < j < |xs| :: xs[i] != xs[j]) ==> |Elems(xs)| == |xs|
  {
    if xs == [] {
    } else {
      var rest := xs[1..];
      ElemsSize(rest);
      assert Elems(xs) == {xs[0]} + Elems(rest);
    }
  }

  function Below(n: nat): (r: set<nat>)
    ensures forall i: nat :: i in r <==> i < n
    ensures |r| == n
  {
    if n == 0 then {} else Below(n - 1) + {n - 1}
  }
}
