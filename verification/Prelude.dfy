/** Shared vocabulary: an optional value, and sums over finite maps whose value
    does not depend on the order in which the keys are visited. */
module Prelude {

  datatype Option<+T> = None | Some(value: T) {
    function GetOr(default: T): T {
      match this
      case Some(v) => v
      case None => default
    }
  }

  function Abs(x: real): real { if x < 0.0 then -x else x }

  /** The sum of the values of a finite map. */
  ghost function MapSum<K(!new)>(m: map<K, real>): real
    decreases |m|
  {
    if m == map[] then 0.0
    else
      var k :| k in m;
      m[k] + MapSum(m - {k})
  }

  /** Any key can be taken out first. */
  lemma {:induction false} MapSumRemove<K(!new)>(m: map<K, real>, k: K)
    requires k in m
    ensures MapSum(m) == m[k] + MapSum(m - {k})
    decreases |m|
  {
    var j :| j in m && MapSum(m) == m[j] + MapSum(m - {j});
    if j != k {
      MapSumRemove(m - {j}, k);
      MapSumRemove(m - {k}, j);
      assert m - {j} - {k} == m - {k} - {j};
    }
  }

  /** Adding a new key adds its value. */
  lemma MapSumAdd<K(!new)>(m: map<K, real>, k: K, v: real)
    requires k !in m
    ensures MapSum(m[k := v]) == MapSum(m) + v
  {
    MapSumRemove(m[k := v], k);
    assert m[k := v] - {k} == m;
  }

  /** Changing one value changes the sum by the difference. */
  lemma MapSumUpdate<K(!new)>(m: map<K, real>, k: K, v: real)
    requires k in m
    ensures MapSum(m[k := v]) == MapSum(m) - m[k] + v
  {
    MapSumRemove(m, k);
    MapSumRemove(m[k := v], k);
    assert m[k := v] - {k} == m - {k};
  }

  /** Sums of maps with disjoint keys add up. */
  lemma {:induction false} MapSumUnion<K(!new)>(a: map<K, real>, b: map<K, real>)
    requires forall k :: k in b ==> k !in a
    ensures MapSum(a + b) == MapSum(a) + MapSum(b)
    decreases |b|
  {
    if b == map[] {
      assert a + b == a;
    } else {
      var k :| k in b;
      var rest := b - {k};
      MapSumRemove(b, k);
      MapSumUnion(a, rest);
      UnionAsUpdate(a, b, k);
      MapSumAdd(a + rest, k, b[k]);
    }
  }

  lemma UnionAsUpdate<K, V>(a: map<K, V>, b: map<K, V>, k: K)
    requires k in b
    ensures a + b == (a + (b - {k}))[k := b[k]]
  {
  }

  /** Any member of a set that has one. */
  lemma Pick<T>(s: set<T>) returns (x: T)
    requires s != {}
    ensures x in s
  {
    x :| x in s;
  }

  /** The sum of the naturals of a finite map. */
  ghost function NatSum<K(!new)>(m: map<K, nat>): nat
    decreases |m|
  {
    if m == map[] then 0
    else
      var k :| k in m;
      m[k] + NatSum(m - {k})
  }

  lemma {:induction false} NatSumRemove<K(!new)>(m: map<K, nat>, k: K)
    requires k in m
    ensures NatSum(m) == m[k] + NatSum(m - {k})
    decreases |m|
  {
    var j :| j in m && NatSum(m) == m[j] + NatSum(m - {j});
    if j != k {
      NatSumRemove(m - {j}, k);
      NatSumRemove(m - {k}, j);
      assert m - {j} - {k} == m - {k} - {j};
    }
  }

  /** A finite set inside another of the same size is that set. */
  lemma SameSizeSubset<T(!new)>(small: set<T>, large: set<T>)
    requires small <= large
    requires |small| == |large|
    ensures small == large
  {
    var extra := large - small;
    assert large == small + extra && small !! extra;
    assert |large| == |small| + |extra|;
  }

  lemma DifferenceSize<T>(a: set<T>, b: set<T>)
    ensures |a + b| == |a - b| + |b| && |a - b| <= |a|
  {
    assert a + b == (a - b) + b && (a - b) !! b;
    assert a == (a - b) + (a * b) && (a - b) !! (a * b);
  }
}
