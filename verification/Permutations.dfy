/** Lists with the same elements in another order. */
module Permutations {
  import opened OrderedDict

  function MapSeq<T, U>(f: T -> U, s: seq<T>): (r: seq<U>)
    ensures |r| == |s| && forall i :: 0 <= i < |s| ==> r[i] == f(s[i])
  {
    seq(|s|, i requires 0 <= i < |s| => f(s[i]))
  }

  lemma MapConcat<T, U>(f: T -> U, a: seq<T>, b: seq<T>)
    ensures MapSeq(f, a + b) == MapSeq(f, a) + MapSeq(f, b)
  {
  }

  lemma SplitAt<T>(b: seq<T>, v: T) returns (p: seq<T>, q: seq<T>)
    requires v in multiset(b)
    ensures b == p + ([v] + q)
  {
    var i :| 0 <= i < |b| && b[i] == v;
    p, q := b[..i], b[i + 1..];
  }

  lemma Cancel<T>(x: seq<T>, t: seq<T>, p: seq<T>, q: seq<T>)
    requires multiset(x + t) == multiset(p + (x + q))
    ensures multiset(t) == multiset(p + q)
  {
    assert multiset(x + t) == multiset(x) + multiset(t);
    assert multiset(p + (x + q)) == multiset(x) + multiset(p + q);
    assert multiset(t) == multiset(x + t) - multiset(x);
  }

  lemma MapStep<T, U>(f: T -> U, x: seq<T>, t: seq<T>, p: seq<T>, q: seq<T>)
    requires multiset(MapSeq(f, t)) == multiset(MapSeq(f, p + q))
    ensures multiset(MapSeq(f, x + t)) == multiset(MapSeq(f, p + (x + q)))
  {
    hide MapSeq;
    MapConcat(f, x, t);
    MapConcat(f, p, x + q);
    MapConcat(f, x, q);
    MapConcat(f, p, q);
  }

  /** Mapping keeps a permutation. */
  lemma {:induction false} MapPermuted<T, U>(f: T -> U, a: seq<T>, b: seq<T>)
    requires multiset(a) == multiset(b)
    ensures multiset(MapSeq(f, a)) == multiset(MapSeq(f, b))
  {
    hide MapSeq;
    assert |multiset(a)| == |a| && |multiset(b)| == |b|;
    if a == [] {
      assert b == [];
    } else {
      var p, q := SplitAt(b, a[0]);
      var x, t := [a[0]], a[1..];
      assert a == x + t;
      Cancel(x, t, p, q);
      MapPermuted(f, t, p + q);
      MapStep(f, x, t, p, q);
    }
  }

  /** Lists without repetitions and with the same elements are permutations. */
  lemma {:induction false} DistinctPermuted<T>(a: seq<T>, b: seq<T>)
    requires Distinct(a) && Distinct(b) && Elements(a) == Elements(b)
    ensures multiset(a) == multiset(b)
  {
    forall x ensures multiset(a)[x] == multiset(b)[x] {
      CountOnce(a, x);
      CountOnce(b, x);
      assert x in Elements(a) <==> x in Elements(b);
    }
  }

  lemma {:induction false} CountOnce<T>(s: seq<T>, x: T)
    requires Distinct(s)
    ensures multiset(s)[x] == if x in Elements(s) then 1 else 0
  {
    if s != [] {
      var front, last := s[..|s| - 1], s[|s| - 1];
      assert s == front + [last];
      CountOnce(front, x);
      assert last !in Elements(front);
    }
  }
}
