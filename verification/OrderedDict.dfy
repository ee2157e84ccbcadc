/** Insertion-ordered dictionaries, the way the engine's indexes behave: writing an
    existing key keeps its place, writing a new key appends it. */
module OrderedDict {

  datatype Option<+T> = None | Some(value: T)

  predicate Distinct<T(==)>(s: seq<T>) {
    forall i, j :: 0 <= i < j < |s| ==> s[i] != s[j]
  }

  datatype Dict<K(==), V> = Dict(keys: seq<K>, vals: map<K, V>)
  {
    ghost predicate Valid() {
      && Distinct(keys)
      && (forall i :: 0 <= i < |keys| ==> keys[i] in vals)
      && (forall k :: k in vals ==> k in keys)
    }

    function Put(k: K, v: V): (d: Dict<K, V>)
      requires Valid()
      ensures d.Valid()
      ensures d.vals == vals[k := v]
      ensures d.keys == if k in vals then keys else keys + [k]
    {
      Dict(if k in vals then keys else keys + [k], vals[k := v])
    }

    function Values(): (s: seq<V>)
      requires Valid()
      ensures |s| == |keys|
      ensures forall i :: 0 <= i < |keys| ==> s[i] == vals[keys[i]]
    {
      seq(|keys|, i requires 0 <= i < |keys| => vals[keys[i]])
    }
  }

  function Empty<K(==), V>(): (d: Dict<K, V>)
    ensures d.Valid() && d.keys == [] && d.vals == map[]
  {
    Dict([], map[])
  }

  function Elements<T(==)>(s: seq<T>): set<T> {
    set x | x in s
  }

  lemma {:induction false} DistinctSize<T>(s: seq<T>)
    requires Distinct(s)
    ensures |Elements(s)| == |s|
  {
    if s != [] {
      var front, last := s[..|s| - 1], s[|s| - 1];
      DistinctSize(front);
      assert s == front + [last];
      assert Elements(s) == Elements(front) + {last};
    }
  }

  /** Where x stands for the first time. */
  function FirstIndex<T(==)>(s: seq<T>, x: T): (i: nat)
    requires x in s
    ensures i < |s| && s[i] == x && forall j :: 0 <= j < i ==> s[j] != x
  {
    if s[0] == x then 0 else FirstIndex(s[1..], x) + 1
  }

  /** The elements in the order of their first occurrences. */
  function FirstSeen<T(==)>(s: seq<T>): (r: seq<T>)
    ensures Distinct(r) && Elements(r) == Elements(s)
  {
    if s == [] then []
    else
      var r, x := FirstSeen(s[..|s| - 1]), s[|s| - 1];
      assert s == s[..|s| - 1] + [x];
      assert Elements(s) == Elements(s[..|s| - 1]) + {x};
      assert x in r <==> x in Elements(s[..|s| - 1]);
      if x in r then r else ElementsSnoc(r, x); r + [x]
  }

  lemma ElementsSnoc<T>(s: seq<T>, x: T)
    ensures Elements(s + [x]) == Elements(s) + {x}
    ensures Distinct(s) && x !in Elements(s) ==> Distinct(s + [x])
  {
    var all := s + [x];
    forall y | y in Elements(s) ensures y in Elements(all) {
      var i :| 0 <= i < |s| && s[i] == y;
      assert all[i] == y;
    }
    assert all[|s|] == x;
  }

  /** What stands earlier in the result was seen earlier. */
  lemma {:induction false} FirstSeenOrder<T>(s: seq<T>, i: nat, j: nat)
    requires i < j < |FirstSeen(s)|
    ensures FirstSeen(s)[i] in s && FirstSeen(s)[j] in s
    ensures FirstIndex(s, FirstSeen(s)[i]) < FirstIndex(s, FirstSeen(s)[j])
  {
    var front, x := s[..|s| - 1], s[|s| - 1];
    var r := FirstSeen(front);
    assert s == front + [x];
    SeenIn(front, i);
    FirstIndexMore(front, x, r[i]);
    if j < |r| {
      FirstSeenOrder(front, i, j);
      FirstIndexMore(front, x, r[j]);
    } else {
      assert x !in Elements(front);
    }
  }

  lemma SeenIn<T>(s: seq<T>, i: nat)
    ensures i < |FirstSeen(s)| ==> FirstSeen(s)[i] in s
  {
    if i < |FirstSeen(s)| {
      assert FirstSeen(s)[i] in Elements(FirstSeen(s));
    }
  }

  lemma FirstIndexMore<T>(s: seq<T>, x: T, y: T)
    requires y in s
    ensures y in s + [x] && FirstIndex(s + [x], y) == FirstIndex(s, y)
  {
    var a, b := FirstIndex(s + [x], y), FirstIndex(s, y);
    assert (s + [x])[b] == y;
  }

  lemma PutFreshAppends<K, V>(d: Dict<K, V>, k: K, v: V)
    requires d.Valid() && k !in d.vals
    ensures d.Put(k, v).Values() == d.Values() + [v]
  {
  }

  lemma ThreePuts<K, V>(a: K, b: K, c: K, v: V)
    requires a != b && b != c && a != c
    ensures Empty<K, V>().Put(a, v).Put(b, v).Put(c, v) == Dict([a, b, c], map[a := v, b := v, c := v])
  {
    var none := Empty<K, V>();
    assert none.Put(a, v) == Dict([a], map[a := v]);
    assert none.Put(a, v).Put(b, v) == Dict([a, b], map[a := v, b := v]);
  }

  lemma TakeSnoc<T>(s: seq<T>, i: nat)
    requires i < |s|
    ensures s[..i + 1] == s[..i] + [s[i]] && s[..i + 1][..i] == s[..i]
  {
  }
}
