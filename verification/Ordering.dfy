/** Ordered enumeration of finite sets, as an ordered map iterates its keys. */
module Ordering {

  ghost predicate TotalOrder<K(!new)>(less: (K, K) -> bool) {
    && (forall x :: !less(x, x))
    && (forall x, y, z :: less(x, y) && less(y, z) ==> less(x, z))
    && (forall x, y :: x == y || less(x, y) || less(y, x))
  }

  ghost predicate Sorted<K>(xs: seq<K>, less: (K, K) -> bool) {
    forall i, j :: 0 <= i < j < |xs| ==> less(xs[i], xs[j])
  }

  predicate IsLeast<K(==)>(m: K, s: set<K>, less: (K, K) -> bool) {
    m in s && forall x :: x in s && x != m ==> less(m, x)
  }

  lemma {:induction false} LeastExists<K(!new)>(s: set<K>, less: (K, K) -> bool) returns (m: K)
    requires TotalOrder(less) && |s| > 0
    ensures IsLeast(m, s, less)
    decreases |s|
  {
    var y :| y in s;
    var rest := s - {y};
    m := y;
    if |rest| > 0 {
      var r := LeastExists(rest, less);
      m := if less(r, y) then r else y;
      assert forall x :: x in s ==> x == y || x in rest;
    } else {
      assert forall x :: x in s ==> x == y || x in rest;
    }
  }

  lemma {:induction false} LeastUnique<K(!new)>(s: set<K>, less: (K, K) -> bool, a: K, b: K)
    requires TotalOrder(less) && IsLeast(a, s, less) && IsLeast(b, s, less)
    ensures a == b
  {
  }

  /** The elements of a set in ascending order: the one way to list each of them once, sorted. */
  function Ascending<K(!new, ==)>(s: set<K>, less: (K, K) -> bool): (xs: seq<K>)
    requires TotalOrder(less)
    ensures Sorted(xs, less)
    ensures forall x :: x in xs <==> x in s
    ensures |xs| == |s|
    decreases |s|
  {
    if |s| == 0 then
      []
    else
      assert exists m :: m in s && IsLeast(m, s, less) by { var m := LeastExists(s, less); }
      assert forall a, b :: IsLeast(a, s, less) && IsLeast(b, s, less) ==> a == b by {
        forall a, b | IsLeast(a, s, less) && IsLeast(b, s, less) ensures a == b { LeastUnique(s, less, a, b); }
      }
      var m :| m in s && IsLeast(m, s, less);
      [m] + Ascending(s - {m}, less)
  }

  /** A sorted list is decided by its members. */
  lemma {:induction false} SortedUnique<K(!new)>(xs: seq<K>, ys: seq<K>, less: (K, K) -> bool)
    requires TotalOrder(less) && Sorted(xs, less) && Sorted(ys, less) && forall x :: x in xs <==> x in ys
    ensures xs == ys
  {
    assert |xs| > 0 ==> xs[0] in ys;
    assert |ys| > 0 ==> ys[0] in xs;
    if xs != [] {
      assert xs[0] == ys[0];
      forall x ensures x in xs[1..] <==> x in ys[1..] {
        assert x in xs <==> x == xs[0] || x in xs[1..];
        assert x in ys <==> x == ys[0] || x in ys[1..];
        assert xs[0] !in xs[1..] && ys[0] !in ys[1..];
      }
      SortedUnique(xs[1..], ys[1..], less);
      assert xs == [xs[0]] + xs[1..] && ys == [ys[0]] + ys[1..];
    }
  }

  predicate IntLess(x: int, y: int) { x < y }
}
