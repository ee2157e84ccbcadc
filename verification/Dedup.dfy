/** Removing duplicates by identity keys: one pass per key, merging fingerprints that share
    a truthy value and keeping those without one. */
module Dedup {
  import opened OrderedDict
  import opened Fingerprints
  import opened MergeLaws
  import opened MergeEngine

  /** What the fingerprints of one list have in common: their product names, and whether
      they carry a global id. */
  datatype Shape = Shape(names: seq<string>, tagged: bool)

  predicate Fits(fp: Fingerprint, sh: Shape) {
    Built(fp, sh.names) && fp.gid.Some? == sh.tagged
  }

  predicate AllFit(fps: seq<Fingerprint>, sh: Shape) {
    forall i :: 0 <= i < |fps| ==> Fits(fps[i], sh)
  }

  /** A list value cannot be a dictionary key, so the source demands scalars here. */
  predicate ScalarKeyed(k: IdKey, fps: seq<Fingerprint>) {
    forall i :: 0 <= i < |fps| ==> !Get(fps[i], k).Many?
  }

  lemma FitMerge(p: Fingerprint, m: Fingerprint, sh: Shape)
    requires Fits(p, sh) && Fits(m, sh)
    ensures Mergeable(p, m, NotGiven)
    ensures Fits(Merge(p, m, NotGiven), sh)
    ensures Merge(p, m, NotGiven).gid == p.gid
    ensures Merge(p, m, NotGiven).sources.Keys == p.sources.Keys + m.sources.Keys
  {
    CompatibleMerges(p, m, sh.names, NotGiven);
  }

  /** A merged key value is the value of one side. */
  lemma MergedKey(p: Fingerprint, m: Fingerprint, sh: Shape, k: IdKey)
    requires Fits(p, sh) && Fits(m, sh)
    ensures Mergeable(p, m, NotGiven)
    ensures Get(Merge(p, m, NotGiven), k) in {Get(p, k), Get(m, k)}
  {
    FitMerge(p, m, sh);
    if k.Fact? {
      MergeFactAt(p, m, NotGiven, k.name);
    }
  }

  datatype Scan = Scan(dict: Dict<Scalar, Fingerprint>, noKey: seq<Fingerprint>)
  {
    function Result(): seq<Fingerprint>
      requires dict.Valid()
    {
      noKey + dict.Values()
    }
  }

  /** The dictionary and the keyless list after visiting `fps` from left to right. */
  function DedupScan(k: IdKey, fps: seq<Fingerprint>, ghost sh: Shape): (st: Scan)
    requires AllFit(fps, sh) && ScalarKeyed(k, fps)
    ensures st.dict.Valid() && AllFit(st.noKey, sh)
    ensures forall x :: x in st.dict.vals ==> Fits(st.dict.vals[x], sh)
    ensures forall x :: x in st.dict.vals ==> Get(st.dict.vals[x], k) == One(x) && Truthy(One(x))
    ensures forall i :: 0 <= i < |st.noKey| ==> !Truthy(Get(st.noKey[i], k))
  {
    if fps == [] then Scan(Empty(), [])
    else
      var st := DedupScan(k, fps[..|fps| - 1], sh);
      var fp := fps[|fps| - 1];
      if !Truthy(Get(fp, k)) then st.(noKey := st.noKey + [fp])
      else
        var x := Get(fp, k).v;
        if x in st.dict.vals then
          MergedKey(st.dict.vals[x], fp, sh, k);
          FitMerge(st.dict.vals[x], fp, sh);
          st.(dict := st.dict.Put(x, Merge(st.dict.vals[x], fp, NotGiven)))
        else
          st.(dict := st.dict.Put(x, fp))
  }

  function DedupPass(k: IdKey, fps: seq<Fingerprint>, ghost sh: Shape): (r: seq<Fingerprint>)
    requires AllFit(fps, sh) && ScalarKeyed(k, fps)
    ensures AllFit(r, sh)
  {
    DedupScan(k, fps, sh).Result()
  }

  method DedupByKey(k: IdKey, fps: seq<Fingerprint>, ghost sh: Shape) returns (r: seq<Fingerprint>)
    requires AllFit(fps, sh) && ScalarKeyed(k, fps)
    ensures r == DedupPass(k, fps, sh)
  {
    var dict: Dict<Scalar, Fingerprint> := Empty();
    var noKey: seq<Fingerprint> := [];
    for i := 0 to |fps|
      invariant Scan(dict, noKey) == DedupScan(k, fps[..i], sh)
    {
      assert fps[..i + 1][..i] == fps[..i];
      var value := Get(fps[i], k);
      if Truthy(value) {
        if value.v in dict.vals {
          FitMerge(dict.vals[value.v], fps[i], sh);
          var merged := MergeFingerprint(dict.vals[value.v], fps[i], NotGiven);
          dict := dict.Put(value.v, merged.fp);
        } else {
          dict := dict.Put(value.v, fps[i]);
        }
      } else {
        noKey := noKey + [fps[i]];
      }
    }
    assert fps[..|fps|] == fps;
    r := noKey + dict.Values();
  }

  /* ---------- the pass is a group-by ---------- */

  /** The fingerprints whose key is x, in order. */
  function Group(k: IdKey, fps: seq<Fingerprint>, x: Scalar, ghost sh: Shape): (g: seq<Fingerprint>)
    requires AllFit(fps, sh)
    ensures AllFit(g, sh)
  {
    if fps == [] then []
    else
      var g := Group(k, fps[..|fps| - 1], x, sh);
      if Truthy(One(x)) && Get(fps[|fps| - 1], k) == One(x) then g + [fps[|fps| - 1]] else g
  }

  function Unkeyed(k: IdKey, fps: seq<Fingerprint>): seq<Fingerprint> {
    if fps == [] then []
    else
      var u := Unkeyed(k, fps[..|fps| - 1]);
      if Truthy(Get(fps[|fps| - 1], k)) then u else u + [fps[|fps| - 1]]
  }

  /** The truthy key values in order of first appearance. */
  function KeysInOrder(k: IdKey, fps: seq<Fingerprint>): seq<Scalar>
    requires ScalarKeyed(k, fps)
  {
    if fps == [] then []
    else
      var ks := KeysInOrder(k, fps[..|fps| - 1]);
      var value := Get(fps[|fps| - 1], k);
      if Truthy(value) && value.v !in ks then ks + [value.v] else ks
  }

  function FoldMerge(g: seq<Fingerprint>, ghost sh: Shape): (fp: Fingerprint)
    requires g != [] && AllFit(g, sh)
    ensures Fits(fp, sh)
  {
    if |g| == 1 then g[0]
    else
      var front := FoldMerge(g[..|g| - 1], sh);
      FitMerge(front, g[|g| - 1], sh);
      Merge(front, g[|g| - 1], NotGiven)
  }

  lemma {:induction false} ScanOrder(k: IdKey, fps: seq<Fingerprint>, sh: Shape)
    requires AllFit(fps, sh) && ScalarKeyed(k, fps)
    ensures DedupScan(k, fps, sh).noKey == Unkeyed(k, fps)
    ensures DedupScan(k, fps, sh).dict.keys == KeysInOrder(k, fps)
  {
    if fps != [] {
      ScanOrder(k, fps[..|fps| - 1], sh);
    }
  }

  lemma {:induction false} ScanGroup(k: IdKey, fps: seq<Fingerprint>, x: Scalar, sh: Shape)
    requires AllFit(fps, sh) && ScalarKeyed(k, fps)
    ensures x in DedupScan(k, fps, sh).dict.vals <==> Group(k, fps, x, sh) != []
    ensures x in DedupScan(k, fps, sh).dict.vals ==>
              DedupScan(k, fps, sh).dict.vals[x] == FoldMerge(Group(k, fps, x, sh), sh)
  {
    hide Merge; hide Built; hide Mergeable;
    if fps != [] {
      var front, fp := fps[..|fps| - 1], fps[|fps| - 1];
      ScanGroup(k, front, x, sh);
      if Truthy(One(x)) && Get(fp, k) == One(x) {
        var g := Group(k, front, x, sh);
        assert (g + [fp])[..|g|] == g;
      }
    }
  }

  function FoldGroups(k: IdKey, fps: seq<Fingerprint>, ks: seq<Scalar>, ghost sh: Shape): (r: seq<Fingerprint>)
    requires AllFit(fps, sh)
    requires forall i :: 0 <= i < |ks| ==> Group(k, fps, ks[i], sh) != []
    ensures |r| == |ks|
    ensures forall i :: 0 <= i < |ks| ==> r[i] == FoldMerge(Group(k, fps, ks[i], sh), sh)
  {
    seq(|ks|, i requires 0 <= i < |ks| => FoldMerge(Group(k, fps, ks[i], sh), sh))
  }

  /** One pass keeps the keyless fingerprints and folds every group, in order of first
      appearance. */
  lemma PassIsGroupBy(k: IdKey, fps: seq<Fingerprint>, sh: Shape)
    requires AllFit(fps, sh) && ScalarKeyed(k, fps)
    ensures forall i :: 0 <= i < |KeysInOrder(k, fps)| ==> Group(k, fps, KeysInOrder(k, fps)[i], sh) != []
    ensures DedupPass(k, fps, sh) == Unkeyed(k, fps) + FoldGroups(k, fps, KeysInOrder(k, fps), sh)
  {
    ScanOrder(k, fps, sh);
    var d := DedupScan(k, fps, sh).dict;
    var ks := KeysInOrder(k, fps);
    forall i | 0 <= i < |ks|
      ensures Group(k, fps, ks[i], sh) != [] && d.vals[ks[i]] == FoldMerge(Group(k, fps, ks[i], sh), sh)
    {
      ScanGroup(k, fps, ks[i], sh);
    }
    assert d.Values() == FoldGroups(k, fps, ks, sh);
  }

  /* ---------- uniqueness ---------- */

  /** No two fingerprints share a truthy value of the key. */
  predicate Unique(k: IdKey, fps: seq<Fingerprint>) {
    forall i, j :: 0 <= i < j < |fps| && Truthy(Get(fps[i], k)) ==> Get(fps[i], k) != Get(fps[j], k)
  }

  lemma PassMakesUnique(k: IdKey, fps: seq<Fingerprint>, sh: Shape)
    requires AllFit(fps, sh) && ScalarKeyed(k, fps)
    ensures Unique(k, DedupPass(k, fps, sh))
  {
    hide DedupScan, Fits, Get, AllFit;
    var st := DedupScan(k, fps, sh);
    var r := st.Result();
    forall i, j | 0 <= i < j < |r| && Truthy(Get(r[i], k)) ensures Get(r[i], k) != Get(r[j], k) {
      var n := |st.noKey|;
      assert i >= n;
      assert r[i] == st.dict.vals[st.dict.keys[i - n]] && r[j] == st.dict.vals[st.dict.keys[j - n]];
    }
  }

  /** An entry of the dictionary has, for any other key, the value of some member of its group. */
  lemma {:induction false} EntryOrigin(k: IdKey, other: IdKey, fps: seq<Fingerprint>, x: Scalar,
                                       sh: Shape) returns (o: nat)
    requires AllFit(fps, sh) && ScalarKeyed(k, fps)
    requires x in DedupScan(k, fps, sh).dict.vals
    ensures o < |fps| && Get(fps[o], k) == One(x)
    ensures Get(DedupScan(k, fps, sh).dict.vals[x], other) == Get(fps[o], other)
  {
    hide DedupScan, Fits, Merge, Mergeable, Get;
    if fps == [] {
      EmptyScan(k, sh);
    } else {
      var front, last := fps[..|fps| - 1], |fps| - 1;
      var st := DedupScan(k, front, sh);
      if Truthy(Get(fps[last], k)) {
        ScanKeyed(k, fps, sh);
      } else {
        ScanUnkeyed(k, fps, sh);
      }
      if x in st.dict.vals {
        o := EntryOrigin(k, other, front, x, sh);
        if Truthy(Get(fps[last], k)) && Get(fps[last], k).v == x {
          MergedKey(st.dict.vals[x], fps[last], sh, other);
          if Get(DedupScan(k, fps, sh).dict.vals[x], other) != Get(fps[o], other) {
            o := last;
          }
        }
      } else {
        o := last;
      }
    }
  }

  /** Keyless fingerprints keep their relative order. */
  lemma {:induction false} UnkeyedOrigins(k: IdKey, fps: seq<Fingerprint>, i: nat, j: nat) returns (a: nat, b: nat)
    requires i <= j < |Unkeyed(k, fps)|
    ensures a <= b < |fps| && (i < j ==> a < b)
    ensures fps[a] == Unkeyed(k, fps)[i] && fps[b] == Unkeyed(k, fps)[j]
    ensures !Truthy(Get(fps[a], k)) && !Truthy(Get(fps[b], k))
  {
    var front, last := fps[..|fps| - 1], |fps| - 1;
    if j < |Unkeyed(k, front)| {
      a, b := UnkeyedOrigins(k, front, i, j);
    } else {
      b := last;
      if i < j {
        var c;
        a, c := UnkeyedOrigins(k, front, i, i);
      } else {
        a := last;
      }
    }
  }

  lemma PassKeepsUnique(k: IdKey, other: IdKey, fps: seq<Fingerprint>, sh: Shape)
    requires AllFit(fps, sh) && ScalarKeyed(k, fps) && Unique(other, fps)
    ensures Unique(other, DedupPass(k, fps, sh))
  {
    hide DedupScan, Fits, Get, AllFit, Unkeyed, KeysInOrder;
    var st := DedupScan(k, fps, sh);
    ScanOrder(k, fps, sh);
    var r, n := st.Result(), |st.noKey|;
    forall i, j | 0 <= i < j < |r| && Truthy(Get(r[i], other)) ensures Get(r[i], other) != Get(r[j], other) {
      var a, b;
      if j < n {
        a, b := UnkeyedOrigins(k, fps, i, j);
      } else {
        b := EntryOrigin(k, other, fps, st.dict.keys[j - n], sh);
        if i < n {
          var c;
          a, c := UnkeyedOrigins(k, fps, i, i);
        } else {
          a := EntryOrigin(k, other, fps, st.dict.keys[i - n], sh);
        }
      }
      assert a != b;
    }
  }

  /* ---------- all passes ---------- */

  predicate AllScalarKeyed(keys: seq<IdKey>, fps: seq<Fingerprint>) {
    forall i :: 0 <= i < |keys| ==> ScalarKeyed(keys[i], fps)
  }

  lemma PassKeepsScalar(k: IdKey, other: IdKey, fps: seq<Fingerprint>, sh: Shape)
    requires AllFit(fps, sh) && ScalarKeyed(k, fps) && ScalarKeyed(other, fps)
    ensures ScalarKeyed(other, DedupPass(k, fps, sh))
  {
    hide DedupScan, Fits, Get, AllFit, Unkeyed, KeysInOrder;
    var st := DedupScan(k, fps, sh);
    ScanOrder(k, fps, sh);
    var r, n := st.Result(), |st.noKey|;
    forall i | 0 <= i < |r| ensures !Get(r[i], other).Many? {
      if i < n {
        var a, _ := UnkeyedOrigins(k, fps, i, i);
      } else {
        var a := EntryOrigin(k, other, fps, st.dict.keys[i - n], sh);
      }
    }
  }

  /** One pass after another. */
  function DedupAll(keys: seq<IdKey>, fps: seq<Fingerprint>, ghost sh: Shape): (r: seq<Fingerprint>)
    requires AllFit(fps, sh) && AllScalarKeyed(keys, fps)
    ensures AllFit(r, sh)
    ensures forall k :: ScalarKeyed(k, fps) ==> ScalarKeyed(k, r)
  {
    if keys == [] then fps
    else
      var front := DedupAll(keys[..|keys| - 1], fps, sh);
      var k := keys[|keys| - 1];
      assert forall other :: ScalarKeyed(other, fps) ==> ScalarKeyed(other, DedupPass(k, front, sh)) by {
        forall other | ScalarKeyed(other, fps) ensures ScalarKeyed(other, DedupPass(k, front, sh)) {
          PassKeepsScalar(k, other, front, sh);
        }
      }
      DedupPass(k, front, sh)
  }

  /** No two results share a truthy value of any key in the list, the earlier ones included. */
  lemma {:induction false} DedupAllUnique(keys: seq<IdKey>, fps: seq<Fingerprint>, sh: Shape)
    requires AllFit(fps, sh) && AllScalarKeyed(keys, fps)
    ensures forall i :: 0 <= i < |keys| ==> Unique(keys[i], DedupAll(keys, fps, sh))
  {
    if keys != [] {
      var init, k := keys[..|keys| - 1], keys[|keys| - 1];
      DedupAllUnique(init, fps, sh);
      var front := DedupAll(init, fps, sh);
      PassMakesUnique(k, front, sh);
      forall i | 0 <= i < |init| ensures Unique(keys[i], DedupPass(k, front, sh)) {
        assert keys[i] == init[i];
        PassKeepsUnique(k, keys[i], front, sh);
      }
    }
  }

  /* ---------- a second deduplication only permutes ---------- */

  lemma UniqueKeyIsFresh(k: IdKey, front: seq<Fingerprint>, fp: Fingerprint, sh: Shape)
    requires AllFit(front, sh) && ScalarKeyed(k, front) && Unique(k, front + [fp])
    requires Truthy(Get(fp, k)) && Get(fp, k).One?
    ensures Get(fp, k).v !in DedupScan(k, front, sh).dict.vals
  {
    hide Merge, Built, Mergeable, DedupScan;
    forall i | 0 <= i < |front| ensures Get(front[i], k) != Get(fp, k) {
      assert (front + [fp])[i] == front[i] && (front + [fp])[|front|] == fp;
    }
    if Get(fp, k).v in DedupScan(k, front, sh).dict.vals {
      var o := EntryOrigin(k, k, front, Get(fp, k).v, sh);
    }
  }

  /** One step of the scan with a key. */
  lemma ScanKeyed(k: IdKey, fps: seq<Fingerprint>, sh: Shape)
    requires fps != [] && AllFit(fps, sh) && ScalarKeyed(k, fps) && Truthy(Get(fps[|fps| - 1], k))
    ensures var fp, st := fps[|fps| - 1], DedupScan(k, fps[..|fps| - 1], sh);
            var x := Get(fp, k).v;
            && (x in st.dict.vals ==> Mergeable(st.dict.vals[x], fp, NotGiven))
            && DedupScan(k, fps, sh).noKey == st.noKey
            && DedupScan(k, fps, sh).dict.keys == (if x in st.dict.vals then st.dict.keys else st.dict.keys + [x])
            && DedupScan(k, fps, sh).dict.vals
               == st.dict.vals[x := if x in st.dict.vals then Merge(st.dict.vals[x], fp, NotGiven) else fp]
  {
    hide Merge, Mergeable, Built;
    var fp, st := fps[|fps| - 1], DedupScan(k, fps[..|fps| - 1], sh);
    if Get(fp, k).v in st.dict.vals {
      FitMerge(st.dict.vals[Get(fp, k).v], fp, sh);
    }
  }

  /** One step of the scan without a key. */
  lemma ScanUnkeyed(k: IdKey, fps: seq<Fingerprint>, sh: Shape)
    requires fps != [] && AllFit(fps, sh) && ScalarKeyed(k, fps) && !Truthy(Get(fps[|fps| - 1], k))
    ensures DedupScan(k, fps, sh).dict == DedupScan(k, fps[..|fps| - 1], sh).dict
    ensures DedupScan(k, fps, sh).noKey == DedupScan(k, fps[..|fps| - 1], sh).noKey + [fps[|fps| - 1]]
  {
    hide Merge, Mergeable, Built;
  }

  /** One step of the scan that merges nothing. */
  lemma ScanSnoc(k: IdKey, front: seq<Fingerprint>, fp: Fingerprint, sh: Shape)
    requires AllFit(front, sh) && Fits(fp, sh) && ScalarKeyed(k, front) && !Get(fp, k).Many?
    requires Truthy(Get(fp, k)) ==> Get(fp, k).v !in DedupScan(k, front, sh).dict.vals
    ensures AllFit(front + [fp], sh) && ScalarKeyed(k, front + [fp])
    ensures DedupScan(k, front + [fp], sh) ==
            var st := DedupScan(k, front, sh);
            if Truthy(Get(fp, k)) then st.(dict := st.dict.Put(Get(fp, k).v, fp)) else st.(noKey := st.noKey + [fp])
  {
    hide Merge, Built, Mergeable;
    assert (front + [fp])[..|front|] == front;
  }

  lemma PermuteStep(k: IdKey, front: seq<Fingerprint>, fp: Fingerprint, sh: Shape)
    requires AllFit(front, sh) && Fits(fp, sh) && ScalarKeyed(k, front) && !Get(fp, k).Many?
    requires Unique(k, front + [fp])
    ensures AllFit(front + [fp], sh) && ScalarKeyed(k, front + [fp])
    ensures multiset(DedupPass(k, front + [fp], sh)) == multiset(DedupPass(k, front, sh)) + multiset{fp}
  {
    hide DedupScan, Fits, Get, AllFit, Unique;
    var st := DedupScan(k, front, sh);
    if Truthy(Get(fp, k)) {
      UniqueKeyIsFresh(k, front, fp, sh);
      ScanSnoc(k, front, fp, sh);
      PutFreshAppends(st.dict, Get(fp, k).v, fp);
    } else {
      ScanSnoc(k, front, fp, sh);
    }
    OneMore(st.noKey, st.dict.Values(), fp);
  }

  /** Appending to either part of a list adds one element. */
  lemma OneMore<T>(a: seq<T>, b: seq<T>, x: T)
    ensures multiset(a + (b + [x])) == multiset(a + b) + multiset{x}
    ensures multiset((a + [x]) + b) == multiset(a + b) + multiset{x}
  {
  }

  lemma {:induction false} UniquePassPermutes(k: IdKey, fps: seq<Fingerprint>, sh: Shape)
    requires AllFit(fps, sh) && ScalarKeyed(k, fps) && Unique(k, fps)
    ensures multiset(DedupPass(k, fps, sh)) == multiset(fps)
  {
    hide DedupPass;
    if fps == [] {
      EmptyPass(k, sh);
    } else {
      var front, fp := fps[..|fps| - 1], fps[|fps| - 1];
      assert fps == front + [fp];
      UniquePassPermutes(k, front, sh);
      PermuteStep(k, front, fp, sh);
    }
  }

  /** A pass over fingerprints without the key changes nothing. */
  lemma {:induction false} KeylessPass(k: IdKey, fps: seq<Fingerprint>, sh: Shape)
    requires AllFit(fps, sh) && ScalarKeyed(k, fps) && forall i :: 0 <= i < |fps| ==> !Truthy(Get(fps[i], k))
    ensures DedupScan(k, fps, sh).noKey == fps && DedupScan(k, fps, sh).dict.keys == [] && DedupPass(k, fps, sh) == fps
  {
    hide DedupScan, Fits, Get;
    if fps == [] {
      EmptyScan(k, sh);
    } else {
      var front, fp := fps[..|fps| - 1], fps[|fps| - 1];
      assert fps == front + [fp];
      KeylessPass(k, front, sh);
      ScanSnoc(k, front, fp, sh);
    }
  }

  /** Nor does a pass over fingerprints with distinct keys. */
  lemma {:induction false} DistinctPass(k: IdKey, fps: seq<Fingerprint>, sh: Shape)
    requires AllFit(fps, sh) && ScalarKeyed(k, fps) && Unique(k, fps)
             && forall i :: 0 <= i < |fps| ==> Truthy(Get(fps[i], k))
    ensures DedupScan(k, fps, sh).noKey == [] && DedupScan(k, fps, sh).dict.Values() == fps
            && DedupPass(k, fps, sh) == fps
  {
    hide DedupScan, Fits, Get;
    if fps == [] {
      EmptyScan(k, sh);
    } else {
      var front, fp := fps[..|fps| - 1], fps[|fps| - 1];
      assert fps == front + [fp];
      DistinctPass(k, front, sh);
      UniqueKeyIsFresh(k, front, fp, sh);
      ScanSnoc(k, front, fp, sh);
      PutFreshAppends(DedupScan(k, front, sh).dict, Get(fp, k).v, fp);
    }
  }

  lemma EmptyScan(k: IdKey, sh: Shape)
    ensures DedupScan(k, [], sh) == Scan(Empty(), []) && DedupPass(k, [], sh) == []
  {
  }

  lemma {:induction false} KeylessDedup(keys: seq<IdKey>, fps: seq<Fingerprint>, sh: Shape)
    requires AllFit(fps, sh) && AllScalarKeyed(keys, fps)
    requires forall n, i :: 0 <= n < |keys| && 0 <= i < |fps| ==> !Truthy(Get(fps[i], keys[n]))
    ensures DedupAll(keys, fps, sh) == fps
  {
    hide Fits, Get, DedupPass;
    if keys != [] {
      KeylessDedup(keys[..|keys| - 1], fps, sh);
      KeylessPass(keys[|keys| - 1], fps, sh);
    }
  }

  lemma EmptyPass(k: IdKey, sh: Shape)
    ensures DedupPass(k, [], sh) == []
  {
  }

  lemma RemoveAt<T>(s: seq<T>, i: nat)
    requires i < |s|
    ensures multiset(s[..i] + s[i + 1..]) == multiset(s) - multiset{s[i]}
  {
    assert s == s[..i] + [s[i]] + s[i + 1..];
  }

  /** Two positions of a list correspond to two positions of any permutation of it. */
  lemma TwoPlaces<T>(a: seq<T>, b: seq<T>, i: nat, j: nat) returns (p: nat, q: nat)
    requires multiset(a) == multiset(b) && i < j < |b|
    ensures p < |a| && q < |a| && p != q && a[p] == b[i] && a[q] == b[j]
  {
    assert b[i] in multiset(a);
    p :| 0 <= p < |a| && a[p] == b[i];
    RemoveAt(a, p);
    RemoveAt(b, i);
    var rest := a[..p] + a[p + 1..];
    assert (b[..i] + b[i + 1..])[j - 1] == b[j];
    assert b[j] in multiset(rest);
    var r :| 0 <= r < |rest| && rest[r] == b[j];
    q := if r < p then r else r + 1;
  }

  lemma PermutationUnique(k: IdKey, a: seq<Fingerprint>, b: seq<Fingerprint>)
    requires multiset(a) == multiset(b) && Unique(k, a)
    ensures Unique(k, b)
  {
    forall i, j | 0 <= i < j < |b| && Truthy(Get(b[i], k)) ensures Get(b[i], k) != Get(b[j], k) {
      var p, q := TwoPlaces(a, b, i, j);
    }
  }

  /** Deduplicating by keys that are already unique only permutes the list. */
  lemma {:induction false} UniqueDedupPermutes(keys: seq<IdKey>, fps: seq<Fingerprint>, sh: Shape)
    requires AllFit(fps, sh) && AllScalarKeyed(keys, fps)
    requires forall i :: 0 <= i < |keys| ==> Unique(keys[i], fps)
    ensures multiset(DedupAll(keys, fps, sh)) == multiset(fps)
  {
    if keys != [] {
      var init, k := keys[..|keys| - 1], keys[|keys| - 1];
      UniqueDedupPermutes(init, fps, sh);
      var front := DedupAll(init, fps, sh);
      PermutationUnique(k, fps, front);
      UniquePassPermutes(k, front, sh);
    }
  }

  /** So a second deduplication by the same keys only permutes the result of the first. */
  lemma DedupTwice(keys: seq<IdKey>, fps: seq<Fingerprint>, sh: Shape)
    requires AllFit(fps, sh) && AllScalarKeyed(keys, fps)
    ensures multiset(DedupAll(keys, DedupAll(keys, fps, sh), sh)) == multiset(DedupAll(keys, fps, sh))
  {
    DedupAllUnique(keys, fps, sh);
    UniqueDedupPermutes(keys, DedupAll(keys, fps, sh), sh);
  }

  /* ---------- sources ---------- */

  function SourcesOf(fps: seq<Fingerprint>): set<string> {
    set i, s | 0 <= i < |fps| && s in fps[i].sources :: s
  }

  lemma SourcesConcat(a: seq<Fingerprint>, b: seq<Fingerprint>)
    ensures SourcesOf(a + b) == SourcesOf(a) + SourcesOf(b)
  {
    forall s | s in SourcesOf(a) ensures s in SourcesOf(a + b) {
      var i :| 0 <= i < |a| && s in a[i].sources;
      assert (a + b)[i] == a[i];
    }
    forall s | s in SourcesOf(b) ensures s in SourcesOf(a + b) {
      var i :| 0 <= i < |b| && s in b[i].sources;
      assert (a + b)[|a| + i] == b[i];
    }
  }

  lemma SourcesSnoc(a: seq<Fingerprint>, fp: Fingerprint)
    ensures SourcesOf(a + [fp]) == SourcesOf(a) + fp.sources.Keys
  {
    SourcesConcat(a, [fp]);
    forall s | s in fp.sources ensures s in SourcesOf([fp]) {
      assert [fp][0] == fp;
    }
  }

  function DictSources(d: Dict<Scalar, Fingerprint>): set<string> {
    set x, s | x in d.vals && s in d.vals[x].sources :: s
  }

  lemma DictSourcesValues(d: Dict<Scalar, Fingerprint>)
    requires d.Valid()
    ensures SourcesOf(d.Values()) == DictSources(d)
  {
    forall s | s in DictSources(d) ensures s in SourcesOf(d.Values()) {
      var x :| x in d.vals && s in d.vals[x].sources;
      var i :| 0 <= i < |d.keys| && d.keys[i] == x;
      assert d.Values()[i] == d.vals[x];
    }
  }

  lemma DictSourcesPut(d: Dict<Scalar, Fingerprint>, x: Scalar, v: Fingerprint, extra: set<string>)
    requires d.Valid()
    requires v.sources.Keys == if x in d.vals then d.vals[x].sources.Keys + extra else extra
    ensures DictSources(d.Put(x, v)) == DictSources(d) + extra
  {
    var d' := d.Put(x, v);
    forall s | s in DictSources(d) + extra ensures s in DictSources(d') {
      if s in extra {
        assert s in d'.vals[x].sources;
      } else {
        var y :| y in d.vals && s in d.vals[y].sources;
        assert s in d'.vals[y].sources;
      }
    }
    forall s | s in DictSources(d') ensures s in DictSources(d) + extra {
      var y :| y in d'.vals && s in d'.vals[y].sources;
      if y == x && x in d.vals && s !in extra {
        assert s in d.vals[x].sources;
      } else if y != x {
        assert s in d.vals[y].sources;
      }
    }
  }

  lemma {:induction false} ScanSources(k: IdKey, fps: seq<Fingerprint>, sh: Shape)
    requires AllFit(fps, sh) && ScalarKeyed(k, fps)
    ensures SourcesOf(DedupScan(k, fps, sh).noKey) + DictSources(DedupScan(k, fps, sh).dict) == SourcesOf(fps)
  {
    hide Merge, Built, Mergeable, SourcesOf, DictSources;
    if fps == [] {
      NoSources();
    } else {
      var front, fp := fps[..|fps| - 1], fps[|fps| - 1];
      assert fps == front + [fp];
      var st := DedupScan(k, front, sh);
      ScanSources(k, front, sh);
      SourcesSnoc(front, fp);
      if !Truthy(Get(fp, k)) {
        SourcesSnoc(st.noKey, fp);
      } else if Get(fp, k).v in st.dict.vals {
        var e := st.dict.vals[Get(fp, k).v];
        FitMerge(e, fp, sh);
        DictSourcesPut(st.dict, Get(fp, k).v, Merge(e, fp, NotGiven), fp.sources.Keys);
      } else {
        DictSourcesPut(st.dict, Get(fp, k).v, fp, fp.sources.Keys);
      }
    }
  }

  lemma NoSources()
    ensures SourcesOf([]) == {} && DictSources(Empty()) == {}
  {
  }

  lemma PassSources(k: IdKey, fps: seq<Fingerprint>, sh: Shape)
    requires AllFit(fps, sh) && ScalarKeyed(k, fps)
    ensures SourcesOf(DedupPass(k, fps, sh)) == SourcesOf(fps)
  {
    var st := DedupScan(k, fps, sh);
    ScanSources(k, fps, sh);
    DictSourcesValues(st.dict);
    SourcesConcat(st.noKey, st.dict.Values());
  }

  /** Deduplication neither loses nor invents a source. */
  lemma {:induction false} DedupAllSources(keys: seq<IdKey>, fps: seq<Fingerprint>, sh: Shape)
    requires AllFit(fps, sh) && AllScalarKeyed(keys, fps)
    ensures SourcesOf(DedupAll(keys, fps, sh)) == SourcesOf(fps)
  {
    if keys != [] {
      DedupAllSources(keys[..|keys| - 1], fps, sh);
      PassSources(keys[|keys| - 1], DedupAll(keys[..|keys| - 1], fps, sh), sh);
    }
  }

  /* ---------- the two callers' forms ---------- */

  method RemoveDuplicates(keys: seq<IdKey>, fps: seq<Fingerprint>, ghost sh: Shape) returns (r: seq<Fingerprint>)
    requires AllFit(fps, sh) && AllScalarKeyed(keys, fps)
    ensures r == DedupAll(keys, fps, sh)
  {
    r := fps;
    if fps == [] {
      EmptyDedup(keys, sh);
      return;
    }
    for i := 0 to |keys|
      invariant AllScalarKeyed(keys[..i], fps)
      invariant r == DedupAll(keys[..i], fps, sh)
    {
      assert keys[..i + 1][..i] == keys[..i];
      r := DedupByKey(keys[i], r, sh);
    }
    assert keys[..|keys|] == keys;
  }

  lemma EmptyDedup(keys: seq<IdKey>, sh: Shape)
    ensures AllScalarKeyed(keys, []) && DedupAll(keys, [], sh) == []
  {
    if keys != [] {
      EmptyDedup(keys[..|keys| - 1], sh);
    }
  }

  function Untagged(fp: Fingerprint): Fingerprint {
    fp.(gid := None)
  }

  function UntagAll(fps: seq<Fingerprint>): (r: seq<Fingerprint>)
    ensures |r| == |fps|
    ensures forall i :: 0 <= i < |fps| ==> r[i] == Untagged(fps[i])
  {
    seq(|fps|, i requires 0 <= i < |fps| => Untagged(fps[i]))
  }

  /** Merging copies by global id, and dropping the ids afterwards. */
  method RemoveDuplicateCopies(fps: seq<Fingerprint>, ghost sh: Shape) returns (r: seq<Fingerprint>)
    requires AllFit(fps, sh)
    ensures r == UntagAll(DedupPass(GlobalId, fps, sh))
  {
    if fps == [] {
      EmptyPass(GlobalId, sh);
      return fps;
    }
    var merged := DedupByKey(GlobalId, fps, sh);
    r := [];
    for i := 0 to |merged|
      invariant |r| == i && forall j :: 0 <= j < i ==> r[j] == Untagged(merged[j])
    {
      r := r + [Untagged(merged[i])];
    }
  }
}
