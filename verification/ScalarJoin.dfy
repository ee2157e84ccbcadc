/** With unique scalar keys on both sides a merge pass is a join: every base becomes itself
    or its merge with the one candidate that shares its key, and the rest is carried on. */
module ScalarJoin {
  import opened OrderedDict
  import opened Fingerprints
  import opened MergeLaws
  import opened Dedup
  import opened Index
  import opened MergePass
  import opened PassLaws
  import opened PassFacts
  import opened Permutations

  predicate UniqueScalar(name: string, fps: seq<Fingerprint>) {
    ScalarKeyed(Fact(name), fps) && Unique(Fact(name), fps)
  }

  /** The first fingerprint of `others` that claims the key of fp. */
  function Partner(fp: Fingerprint, name: string, others: seq<Fingerprint>, otherName: string): Option<nat> {
    if Claims(fp, name) == [] then None else Owner(otherName, others, Claims(fp, name)[0])
  }

  /** The reference form: a base fingerprint, merged with its partner if it has one. */
  function JoinAt(bk: string, base: seq<Fingerprint>, ck: string, cand: seq<Fingerprint>, rev: ReverseKeys,
                  ghost names: seq<string>, ghost candNames: seq<string>, i: nat): Fingerprint
    requires PassInputs(base, cand, rev, names, candNames) && i < |base|
  {
    var j := Partner(base[i], bk, cand, ck);
    if j.None? then base[i]
    else
      CompatibleMerges(base[i], cand[j.value], names, rev);
      Merge(base[i], cand[j.value], rev)
  }

  /* ---------- every fingerprint has exactly one index entry ---------- */

  lemma {:induction false} IndexCount(name: string, fps: seq<Fingerprint>, start: nat)
    requires UniqueScalar(name, fps)
    ensures |IndexScan(name, fps, start).noKey| + |IndexScan(name, fps, start).dict.keys| == |fps|
  {
    if fps != [] {
      hide FromList, Truthy, Get;
      var front, fp := fps[..|fps| - 1], fps[|fps| - 1];
      forall i, j | 0 <= i < j < |front| && Truthy(Get(front[i], Fact(name)))
        ensures Get(front[i], Fact(name)) != Get(front[j], Fact(name))
      {
        assert Get(fps[i], Fact(name)) != Get(fps[j], Fact(name));
      }
      IndexCount(name, front, start);
      if Claims(fp, name) != [] {
        LastClaimFresh(name, fps, start);
        ClaimOne(IndexScan(name, front, start).dict, Claims(fp, name), Tag(fp, start + |fps| - 1));
      }
    }
  }

  lemma ScalarClaims(fp: Fingerprint, name: string)
    requires !Get(fp, Fact(name)).Many?
    ensures |Claims(fp, name)| <= 1
    ensures forall x :: x in Claims(fp, name) ==> Truthy(Get(fp, Fact(name))) && Get(fp, Fact(name)) == One(x)
  {
  }

  lemma LastClaimFresh(name: string, fps: seq<Fingerprint>, start: nat)
    requires UniqueScalar(name, fps) && fps != [] && Claims(fps[|fps| - 1], name) != []
    ensures |Claims(fps[|fps| - 1], name)| == 1
    ensures Claims(fps[|fps| - 1], name)[0] !in IndexScan(name, fps[..|fps| - 1], start).dict.vals
  {
    hide Claims, IndexScan, Get;
    var front, last := fps[..|fps| - 1], |fps| - 1;
    ScalarClaims(fps[last], name);
    var x := Claims(fps[last], name)[0];
    IndexedByOwner(name, front, start, x);
    if Owner(name, front, x).Some? {
      var o := Owner(name, front, x).value;
      ScalarClaims(fps[o], name);
    }
  }

  lemma ClaimOne(d: Dict<Scalar, Fingerprint>, ks: seq<Scalar>, v: Fingerprint)
    requires d.Valid() && |ks| == 1 && ks[0] !in d.vals
    ensures |ClaimKeys(d, ks, v).keys| == |d.keys| + 1
  {
    assert ks[..0] == [];
  }

  lemma KeysCount(d: Dict<Scalar, Fingerprint>)
    requires d.Valid()
    ensures |d.keys| == |d.vals.Keys|
  {
    DistinctSize(d.keys);
    assert Elements(d.keys) == d.vals.Keys;
  }

  lemma {:induction false} ApartLength(ks: seq<Scalar>, d: Entries, other: Entries)
    requires Distinct(ks) && forall i :: 0 <= i < |ks| ==> ks[i] in d
    ensures |Apart(ks, d, other)| == |set x | x in ks && x !in other|
  {
    if ks != [] {
      ApartLength(ks[..|ks| - 1], d, other);
      ApartSnoc(ks, other);
    }
  }

  lemma ApartSnoc(ks: seq<Scalar>, other: Entries)
    requires ks != [] && Distinct(ks)
    ensures var front, last := ks[..|ks| - 1], ks[|ks| - 1];
            |set x | x in ks && x !in other| == |set x | x in front && x !in other| + if last in other then 0 else 1
  {
    var front, last := ks[..|ks| - 1], ks[|ks| - 1];
    var apart := set x | x in front && x !in other;
    assert ks == front + [last];
    assert (set x | x in ks && x !in other) == if last in other then apart else apart + {last};
  }

  lemma ApartCount(d: Dict<Scalar, Fingerprint>, other: Entries)
    requires d.Valid()
    ensures |Apart(d.keys, d.vals, other)| == |d.vals.Keys - other.Keys|
  {
    ApartLength(d.keys, d.vals, other);
    assert (set x | x in d.keys && x !in other) == d.vals.Keys - other.Keys;
  }

  /* ---------- as many ids as entries ---------- */

  lemma IdsAtMost(fps: seq<Fingerprint>)
    ensures |Ids(fps)| <= |fps|
  {
    if fps != [] {
      var front, last := fps[..|fps| - 1], fps[|fps| - 1];
      IdsAtMost(front);
      assert Ids(fps) == if last.gid.Some? then Ids(front) + {last.gid.value} else Ids(front);
    }
  }

  /** A list with as many ids as entries repeats none. */
  lemma PigeonHole(fps: seq<Fingerprint>)
    requires |Ids(fps)| == |fps|
    ensures Unique(GlobalId, fps)
  {
    forall i, j | 0 <= i < j < |fps| && Truthy(Get(fps[i], GlobalId))
      ensures Get(fps[i], GlobalId) != Get(fps[j], GlobalId) {
      if Get(fps[i], GlobalId) == Get(fps[j], GlobalId) {
        DropRepeated(fps, i, j);
        IdsAtMost(fps[..j] + fps[j + 1..]);
      }
    }
  }

  lemma DropRepeated(fps: seq<Fingerprint>, i: nat, j: nat)
    requires i < j < |fps| && fps[i].gid == fps[j].gid
    ensures Ids(fps[..j] + fps[j + 1..]) == Ids(fps)
  {
    var rest := fps[..j] + fps[j + 1..];
    forall id | id in Ids(fps) ensures id in Ids(rest) {
      var p :| 0 <= p < |fps| && fps[p].gid.Some? && fps[p].gid.value == id;
      var q := if p < j then p else if p == j then i else p - 1;
      assert rest[q].gid == fps[p].gid;
    }
    forall id | id in Ids(rest) ensures id in Ids(fps) {
      var q :| 0 <= q < |rest| && rest[q].gid.Some? && rest[q].gid.value == id;
      assert rest[q] == if q < j then fps[q] else fps[q + 1];
    }
  }

  /** If a list holds every id of a list of the same length, its ids are distinct. */
  lemma EveryIdOnce(copies: seq<Fingerprint>, start: nat, n: nat)
    requires |copies| == n
    requires forall id: nat :: Holds(copies, id) <==> start <= id < start + n
    ensures Unique(GlobalId, copies)
  {
    forall id: nat ensures id in Ids(copies) <==> id in Range(start, n) {
      IdsAreHeld(copies, id);
    }
    assert Ids(copies) == Range(start, n);
    PigeonHole(copies);
  }

  lemma AllOccur(name: string, fps: seq<Fingerprint>, start: nat, id: nat)
    requires UniqueScalar(name, fps)
    ensures Occurs(IndexScan(name, fps, start), id) <==> start <= id < start + |fps|
  {
    hide IndexScan, Occurs, Survives;
    if start <= id < start + |fps| {
      UniqueSurvive(name, fps, id - start);
      SurvivesIffOccurs(name, fps, start, id - start);
    }
    if Occurs(IndexScan(name, fps, start), id) {
      OccursOnlyListed(name, fps, start, id);
    }
  }

  lemma BaseCopiesOnce(bk: string, base: seq<Fingerprint>, ci: Index, rev: ReverseKeys, start: nat, names: seq<string>)
    requires UniqueScalar(bk, base) && ci.dict.Valid()
    requires var bi := IndexScan(bk, base, start);
             Meets(bi.dict.vals, ci.dict.vals, names, rev) && AllFit(bi.noKey, Shape(names, true))
    ensures Unique(GlobalId, BaseCopies(IndexScan(bk, base, start), ci, rev, names))
  {
    hide IndexScan, Occurs, Holds, Meets, Fits, UniqueScalar;
    var bi := IndexScan(bk, base, start);
    var copies := BaseCopies(bi, ci, rev, names);
    IndexCount(bk, base, start);
    KeysCount(bi.dict);
    MatchedCount(ci.dict, bi.dict.vals, rev, names);
    ApartCount(bi.dict, ci.dict.vals);
    SplitSize(bi.dict.vals.Keys, ci.dict.vals.Keys);
    forall id: nat ensures Holds(copies, id) <==> start <= id < start + |base| {
      BaseCopiesHold(bi, ci, rev, names, id);
      AllOccur(bk, base, start, id);
    }
    EveryIdOnce(copies, start, |base|);
  }

  lemma SplitSize<T>(a: set<T>, b: set<T>)
    ensures |a * b| + |a - b| == |a|
  {
    assert (a * b) + (a - b) == a;
  }

  /** The matched entries of the candidate index, in key order. */
  ghost function Hits(bi: Index, ci: Index): seq<Fingerprint>
    requires ci.dict.Valid()
  {
    Apart(ci.dict.keys, ci.dict.vals, ci.dict.vals - bi.dict.vals.Keys)
  }

  lemma CandListHolds(bi: Index, ci: Index, id: nat)
    requires ci.dict.Valid()
    ensures Holds(CandCopies(bi, ci) + Hits(bi, ci), id) <==> Occurs(ci, id)
  {
    hide Occurs, Holds, Apart, Under;
    var b, c := bi.dict.vals, ci.dict.vals;
    HoldsConcat(CandCopies(bi, ci), Hits(bi, ci), id);
    HoldsConcat(ci.noKey, Apart(ci.dict.keys, c, b), id);
    ApartHolds(ci.dict.keys, c, b, id);
    ApartHolds(ci.dict.keys, c, c - b.Keys, id);
    UnderSplit(ci.dict, b, c - b.Keys, id);
    OccursUnder(ci, b, id);
  }

  lemma CandListLength(bi: Index, ci: Index)
    requires ci.dict.Valid()
    ensures |CandCopies(bi, ci)| == |ci.noKey| + |ci.dict.keys| - |bi.dict.vals.Keys * ci.dict.vals.Keys|
    ensures |CandCopies(bi, ci) + Hits(bi, ci)| == |ci.noKey| + |ci.dict.keys|
  {
    hide Apart;
    var b, c := bi.dict.vals, ci.dict.vals;
    KeysCount(ci.dict);
    ApartCount(ci.dict, b);
    ApartCount(ci.dict, c - b.Keys);
    SplitSize(c.Keys, b.Keys);
    MissedKeys(b, c);
  }

  lemma MissedKeys(b: Entries, c: Entries)
    ensures c.Keys - (c - b.Keys).Keys == c.Keys * b.Keys == b.Keys * c.Keys
  {
  }

  lemma UniquePrefix(k: IdKey, a: seq<Fingerprint>, b: seq<Fingerprint>)
    requires Unique(k, a + b)
    ensures Unique(k, a)
  {
    forall i, j | 0 <= i < j < |a| && Truthy(Get(a[i], k)) ensures Get(a[i], k) != Get(a[j], k) {
      assert (a + b)[i] == a[i] && (a + b)[j] == a[j];
    }
  }

  /** Carried candidates, followed by the matched ones, list every candidate once. */
  lemma CandCopiesOnce(bi: Index, ck: string, cand: seq<Fingerprint>, start: nat)
    requires UniqueScalar(ck, cand)
    ensures var ci := IndexScan(ck, cand, start);
            && Unique(GlobalId, CandCopies(bi, ci))
            && |CandCopies(bi, ci)| == |cand| - |bi.dict.vals.Keys * ci.dict.vals.Keys|
  {
    hide IndexScan, Occurs, Holds, UniqueScalar, CandCopies, Hits;
    var ci := IndexScan(ck, cand, start);
    IndexCount(ck, cand, start);
    CandListLength(bi, ci);
    forall id: nat ensures Holds(CandCopies(bi, ci) + Hits(bi, ci), id) <==> start <= id < start + |cand| {
      CandListHolds(bi, ci, id);
      AllOccur(ck, cand, start, id);
    }
    EveryIdOnce(CandCopies(bi, ci) + Hits(bi, ci), start, |cand|);
    UniquePrefix(GlobalId, CandCopies(bi, ci), Hits(bi, ci));
  }

  lemma UnderSplit(d: Dict<Scalar, Fingerprint>, b: Entries, misses: Entries, id: nat)
    requires d.Valid() && misses == d.vals - b.Keys
    ensures Under(d.keys, d.vals, misses, false, id) <==> Under(d.keys, d.vals, b, true, id)
  {
  }

  lemma OccursUnder(r: Index, b: Entries, id: nat)
    requires r.dict.Valid()
    ensures Occurs(r, id) <==>
            Holds(r.noKey, id) || Under(r.dict.keys, r.dict.vals, b, true, id)
                || Under(r.dict.keys, r.dict.vals, b, false, id)
  {
    hide Holds;
    if x :| x in r.dict.vals && r.dict.vals[x].gid == Some(id) {
      var i :| 0 <= i < |r.dict.keys| && r.dict.keys[i] == x;
      assert Under(r.dict.keys, r.dict.vals, b, x in b, id);
    }
  }

  /* ---------- what each entry is ---------- */

  lemma {:induction false} MatchedOrigin(ks: seq<Scalar>, b: Entries, c: Entries, rev: ReverseKeys, names: seq<string>,
                                         p: nat) returns (x: Scalar)
    requires Meets(b, c, names, rev) && forall i :: 0 <= i < |ks| ==> ks[i] in c
    requires p < |Matched(ks, b, c, rev, names)|
    ensures x in b && x in c && Mergeable(b[x], c[x], rev)
    ensures Matched(ks, b, c, rev, names)[p] == Merge(b[x], c[x], rev)
  {
    hide Meets, Merge, Mergeable;
    var front, last := ks[..|ks| - 1], ks[|ks| - 1];
    if p < |Matched(front, b, c, rev, names)| {
      x := MatchedOrigin(front, b, c, rev, names, p);
    } else {
      x := last;
      MatchedGid(b, c, rev, names, x);
    }
  }

  /** Tagging commutes with merging. */
  lemma UntaggedMerge(p: Fingerprint, m: Fingerprint, rev: ReverseKeys, g: nat, h: nat, names: seq<string>)
    requires Compatible(p, m, names, rev) && p.gid.None? && m.gid.None?
    ensures Mergeable(p, m, rev) && Mergeable(Tag(p, g), Tag(m, h), rev)
    ensures Untagged(Merge(Tag(p, g), Tag(m, h), rev)) == Merge(p, m, rev)
    ensures Merge(Tag(p, g), Tag(m, h), rev).gid == Some(g)
  {
    CompatibleMerges(p, m, names, rev);
    CompatibleMerges(Tag(p, g), Tag(m, h), names, rev);
    hide Merge, Mergeable, Built;
    MergeIgnoresIds(p, m, rev, Tag(p, g), Tag(m, h), rev);
  }

  predicate IsJoined(e: Fingerprint, bk: string, base: seq<Fingerprint>, ck: string, cand: seq<Fingerprint>,
                     rev: ReverseKeys, start: nat, ghost names: seq<string>, ghost candNames: seq<string>)
    requires PassInputs(base, cand, rev, names, candNames)
  {
    && e.gid.Some? && start <= e.gid.value < start + |base|
    && Untagged(e) == JoinAt(bk, base, ck, cand, rev, names, candNames, e.gid.value - start)
  }

  lemma OwnedPartner(bk: string, base: seq<Fingerprint>, ck: string, cand: seq<Fingerprint>, x: Scalar, o: nat)
    requires UniqueScalar(bk, base) && Owner(bk, base, x) == Some(o)
    ensures Partner(base[o], bk, cand, ck) == Owner(ck, cand, x)
  {
    hide Claims, Get, Truthy;
    ScalarClaims(base[o], bk);
  }

  lemma ApartJoined(bk: string, base: seq<Fingerprint>, ck: string, cand: seq<Fingerprint>, rev: ReverseKeys,
                    start: nat, names: seq<string>, candNames: seq<string>, x: Scalar)
    requires PassInputs(base, cand, rev, names, candNames) && UniqueScalar(bk, base)
    requires x in IndexScan(bk, base, start).dict.vals && x !in IndexScan(ck, cand, start + |base|).dict.vals
    ensures IsJoined(IndexScan(bk, base, start).dict.vals[x], bk, base, ck, cand, rev, start, names, candNames)
  {
    hide IndexScan, Owner, Partner, UniqueScalar, Built, Claims, FromList;
    IndexedByOwner(bk, base, start, x);
    IndexedByOwner(ck, cand, start + |base|, x);
    var o := Owner(bk, base, x).value;
    OwnedPartner(bk, base, ck, cand, x, o);
    assert Fits(base[o], Shape(names, false));
  }

  lemma MatchedJoined(bk: string, base: seq<Fingerprint>, ck: string, cand: seq<Fingerprint>, rev: ReverseKeys,
                      start: nat, names: seq<string>, candNames: seq<string>, x: Scalar)
    requires PassInputs(base, cand, rev, names, candNames) && UniqueScalar(bk, base)
    requires x in IndexScan(bk, base, start).dict.vals && x in IndexScan(ck, cand, start + |base|).dict.vals
    ensures var b, c := IndexScan(bk, base, start).dict.vals[x], IndexScan(ck, cand, start + |base|).dict.vals[x];
            Mergeable(b, c, rev) && IsJoined(Merge(b, c, rev), bk, base, ck, cand, rev, start, names, candNames)
  {
    hide IndexScan, Owner, Partner, UniqueScalar, Merge, Mergeable, Built, Claims, FromList;
    IndexedByOwner(bk, base, start, x);
    IndexedByOwner(ck, cand, start + |base|, x);
    var o, j := Owner(bk, base, x).value, Owner(ck, cand, x).value;
    OwnedPartner(bk, base, ck, cand, x, o);
    assert Fits(base[o], Shape(names, false)) && Fits(cand[j], Shape(candNames, false));
    UntaggedMerge(base[o], cand[j], rev, start + o, start + |base| + j, names);
  }

  lemma KeylessJoined(bk: string, base: seq<Fingerprint>, ck: string, cand: seq<Fingerprint>, rev: ReverseKeys,
                      start: nat, names: seq<string>, candNames: seq<string>, i: nat)
    requires PassInputs(base, cand, rev, names, candNames) && i < |IndexScan(bk, base, start).noKey|
    ensures IsJoined(IndexScan(bk, base, start).noKey[i], bk, base, ck, cand, rev, start, names, candNames)
  {
    hide IndexScan, Claims, Owner, Built;
    var e := IndexScan(bk, base, start).noKey[i];
    var o := e.gid.value - start;
    NoKeyHolds(bk, base, start, o);
    assert Holds(IndexScan(bk, base, start).noKey, start + o);
    assert Fits(base[o], Shape(names, false));
  }

  lemma CopyJoined(bk: string, base: seq<Fingerprint>, ck: string, cand: seq<Fingerprint>, rev: ReverseKeys,
                   start: nat, names: seq<string>, candNames: seq<string>, e: Fingerprint)
    requires PassInputs(base, cand, rev, names, candNames) && UniqueScalar(bk, base)
    requires var bi, ci := IndexScan(bk, base, start), IndexScan(ck, cand, start + |base|);
             && Meets(bi.dict.vals, ci.dict.vals, names, rev) && AllFit(bi.noKey, Shape(names, true))
             && e in BaseCopies(bi, ci, rev, names)
    ensures IsJoined(e, bk, base, ck, cand, rev, start, names, candNames)
  {
    hide IndexScan, Meets, Fits, IsJoined, UniqueScalar, Matched;
    var bi, ci := IndexScan(bk, base, start), IndexScan(ck, cand, start + |base|);
    var m, a := Matched(ci.dict.keys, bi.dict.vals, ci.dict.vals, rev, names),
        Apart(bi.dict.keys, bi.dict.vals, ci.dict.vals);
    if e in bi.noKey {
      var i :| 0 <= i < |bi.noKey| && bi.noKey[i] == e;
      KeylessJoined(bk, base, ck, cand, rev, start, names, candNames, i);
    } else if e in m {
      var p :| 0 <= p < |m| && m[p] == e;
      var x := MatchedOrigin(ci.dict.keys, bi.dict.vals, ci.dict.vals, rev, names, p);
      MatchedJoined(bk, base, ck, cand, rev, start, names, candNames, x);
    } else {
      var p :| 0 <= p < |a| && a[p] == e;
      var x := ApartOrigin(bi.dict.keys, bi.dict.vals, ci.dict.vals, p);
      ApartJoined(bk, base, ck, cand, rev, start, names, candNames, x);
    }
  }

  lemma ApartOrigin(ks: seq<Scalar>, d: Entries, other: Entries, p: nat) returns (x: Scalar)
    requires (forall i :: 0 <= i < |ks| ==> ks[i] in d) && p < |Apart(ks, d, other)|
    ensures x in d && x !in other && Apart(ks, d, other)[p] == d[x]
  {
    var front, last := ks[..|ks| - 1], ks[|ks| - 1];
    if p < |Apart(front, d, other)| {
      x := ApartOrigin(front, d, other, p);
    } else {
      x := last;
    }
  }

  /* ---------- the theorem ---------- */

  /** Folding a list without repeated ids changes no entry. */
  lemma FoldOnce(copies: seq<Fingerprint>, sh: Shape)
    requires AllFit(copies, sh) && Unique(GlobalId, copies)
    ensures var r := DedupPass(GlobalId, copies, sh);
            |r| == |copies| && forall p :: 0 <= p < |r| ==> r[p] in copies
  {
    hide DedupPass, Fits;
    UniquePassPermutes(GlobalId, copies, sh);
    var r := DedupPass(GlobalId, copies, sh);
    forall p | 0 <= p < |r| ensures r[p] in copies {
      assert r[p] in multiset(r);
    }
    assert |multiset(r)| == |r| && |multiset(copies)| == |copies|;
  }

  /** One output per base, each the join of its base with its partner. */
  lemma ScalarPassJoins(bk: string, base: seq<Fingerprint>, ck: string, cand: seq<Fingerprint>, rev: ReverseKeys,
                        start: nat, names: seq<string>, candNames: seq<string>)
    requires PassInputs(base, cand, rev, names, candNames) && UniqueScalar(bk, base)
    ensures var t := TaggedPass(bk, base, ck, cand, rev, start, names, candNames);
            && Unique(GlobalId, t.base)
            && (forall id: nat :: Holds(t.base, id) <==> start <= id < start + |base|)
            && forall p :: 0 <= p < |t.base| ==> IsJoined(t.base[p], bk, base, ck, cand, rev, start, names, candNames)
  {
    hide IndexScan, Meets, Fits, IsJoined, UniqueScalar, BaseCopies, DedupPass, Holds, Occurs;
    var bi, ci := IndexScan(bk, base, start), IndexScan(ck, cand, start + |base|);
    IndexFits(bk, base, start, names);
    IndexesMeet(bk, base, ck, cand, rev, start, names, candNames);
    var copies := BaseCopies(bi, ci, rev, names);
    var t := TaggedPass(bk, base, ck, cand, rev, start, names, candNames);
    BaseCopiesOnce(bk, base, ci, rev, start, names);
    PassMakesUnique(GlobalId, copies, Shape(names, true));
    forall id: nat ensures Holds(t.base, id) <==> start <= id < start + |base| {
      CopiesFolded(copies, names, id);
      BaseCopiesHold(bi, ci, rev, names, id);
      AllOccur(bk, base, start, id);
    }
    forall p | 0 <= p < |t.base| ensures IsJoined(t.base[p], bk, base, ck, cand, rev, start, names, candNames) {
      FoldOnce(copies, Shape(names, true));
      CopyJoined(bk, base, ck, cand, rev, start, names, candNames, t.base[p]);
    }
  }

  /* ---------- what is carried on ---------- */

  /** The candidates whose key no base claims, in order. */
  function Unmatched(bk: string, base: seq<Fingerprint>, ck: string, cand: seq<Fingerprint>): seq<Fingerprint> {
    if cand == [] then []
    else
      var c := cand[|cand| - 1];
      Unmatched(bk, base, ck, cand[..|cand| - 1]) + if Partner(c, ck, base, bk).None? then [c] else []
  }

  /** The same with their global ids. */
  function TaggedUnmatched(bk: string, base: seq<Fingerprint>, ck: string, cand: seq<Fingerprint>,
                           start: nat): seq<Fingerprint> {
    if cand == [] then []
    else
      var n := |cand| - 1;
      TaggedUnmatched(bk, base, ck, cand[..n], start)
      + if Partner(cand[n], ck, base, bk).None? then [Tag(cand[n], start + n)] else []
  }

  lemma {:induction false} UnmatchedListed(bk: string, base: seq<Fingerprint>, ck: string, cand: seq<Fingerprint>,
                                           start: nat, sh: Shape)
    requires AllFit(cand, sh) && !sh.tagged
    ensures var u := TaggedUnmatched(bk, base, ck, cand, start);
            && UntagAll(u) == Unmatched(bk, base, ck, cand)
            && (forall p :: 0 <= p < |u| ==> FromList(u[p], cand, start))
            && (forall p, q :: 0 <= p < q < |u| ==> u[p].gid != u[q].gid)
  {
    hide Partner, Built, FromList, UntagAll;
    if cand == [] {
      UntagNone();
    } else {
      var front, n := cand[..|cand| - 1], |cand| - 1;
      UnmatchedListed(bk, base, ck, front, start, sh);
      var u := TaggedUnmatched(bk, base, ck, front, start);
      assert Fits(cand[n], sh);
      UntagOne(cand[n], start + n);
      UntagConcat(u, [Tag(cand[n], start + n)]);
      OneMoreListed(u, cand, start);
      assert u + [] == u && Unmatched(bk, base, ck, front) + [] == Unmatched(bk, base, ck, front);
    }
  }

  /** A list of fingerprints with their ids, and the same list with the last fingerprint added. */
  lemma OneMoreListed(u: seq<Fingerprint>, fps: seq<Fingerprint>, start: nat)
    requires fps != [] && forall p :: 0 <= p < |u| ==> FromList(u[p], fps[..|fps| - 1], start)
    requires forall p, q :: 0 <= p < q < |u| ==> u[p].gid != u[q].gid
    ensures var more := u + [Tag(fps[|fps| - 1], start + |fps| - 1)];
            && (forall p :: 0 <= p < |u| ==> FromList(u[p], fps, start))
            && (forall p :: 0 <= p < |more| ==> FromList(more[p], fps, start))
            && (forall p, q :: 0 <= p < q < |more| ==> more[p].gid != more[q].gid)
  {
    hide FromList;
    forall p | 0 <= p < |u| ensures FromList(u[p], fps, start) && u[p].gid != Some(start + |fps| - 1) {
      ListedInFront(u[p], fps, start);
    }
    LastListed(fps, start);
  }

  lemma UntagNone()
    ensures UntagAll([]) == []
  {
  }

  lemma UntagOne(fp: Fingerprint, id: nat)
    requires fp.gid.None?
    ensures UntagAll([Tag(fp, id)]) == [fp]
  {
  }

  lemma ListedInFront(v: Fingerprint, fps: seq<Fingerprint>, start: nat)
    requires fps != [] && FromList(v, fps[..|fps| - 1], start)
    ensures FromList(v, fps, start) && v.gid != Some(start + |fps| - 1)
  {
  }

  lemma LastListed(fps: seq<Fingerprint>, start: nat)
    requires fps != []
    ensures FromList(Tag(fps[|fps| - 1], start + |fps| - 1), fps, start)
  {
  }

  lemma UntagConcat(a: seq<Fingerprint>, b: seq<Fingerprint>)
    ensures UntagAll(a + b) == UntagAll(a) + UntagAll(b)
  {
  }

  lemma {:induction false} UnmatchedHolds(bk: string, base: seq<Fingerprint>, ck: string, cand: seq<Fingerprint>,
                                          start: nat, j: nat)
    requires j < |cand|
    ensures Holds(TaggedUnmatched(bk, base, ck, cand, start), start + j) <==> Partner(cand[j], ck, base, bk).None?
  {
    hide Partner, Holds;
    var front, n := cand[..|cand| - 1], |cand| - 1;
    var u := TaggedUnmatched(bk, base, ck, front, start);
    HoldsSnoc(u, Tag(cand[n], start + n), start + j);
    assert u + [] == u;
    if j < n {
      UnmatchedHolds(bk, base, ck, front, start, j);
    } else {
      UnmatchedBelow(bk, base, ck, front, start, start + n);
    }
  }

  lemma {:induction false} UnmatchedBelow(bk: string, base: seq<Fingerprint>, ck: string, cand: seq<Fingerprint>,
                                          start: nat, id: nat)
    requires id >= start + |cand|
    ensures !Holds(TaggedUnmatched(bk, base, ck, cand, start), id)
  {
    hide Partner;
    if cand != [] {
      UnmatchedBelow(bk, base, ck, cand[..|cand| - 1], start, id);
    }
  }

  /** For a scalar key, owning a key that no base has means having no partner. */
  lemma NoPartnerIff(bk: string, base: seq<Fingerprint>, ck: string, cand: seq<Fingerprint>, j: nat)
    requires UniqueScalar(ck, cand) && j < |cand|
    ensures (Claims(cand[j], ck) == [] || OwnsKey(bk, base, ck, cand, j, false)) <==>
            Partner(cand[j], ck, base, bk).None?
  {
    hide Claims, Owner, UniqueScalar;
    UniqueOwner(ck, cand, j);
    if x :| Owner(ck, cand, x) == Some(j) && Owner(bk, base, x).None? {
      OwnedPartner(ck, cand, bk, base, x, j);
    }
  }

  lemma UniqueOwner(name: string, fps: seq<Fingerprint>, j: nat)
    requires UniqueScalar(name, fps) && j < |fps|
    ensures Claims(fps[j], name) != [] ==> Owner(name, fps, Claims(fps[j], name)[0]) == Some(j)
  {
    hide Claims, Get, Truthy;
    if Claims(fps[j], name) != [] {
      var x := Claims(fps[j], name)[0];
      ScalarClaims(fps[j], name);
      forall i | 0 <= i < j ensures x !in Claims(fps[i], name) {
        ScalarClaims(fps[i], name);
      }
    }
  }

  /** Lists without repeated ids that draw on the same fingerprints are permutations. */
  lemma SameIdsPermute(a: seq<Fingerprint>, b: seq<Fingerprint>, fps: seq<Fingerprint>, start: nat)
    requires forall p :: 0 <= p < |a| ==> FromList(a[p], fps, start)
    requires forall p :: 0 <= p < |b| ==> FromList(b[p], fps, start)
    requires (forall p, q :: 0 <= p < q < |a| ==> a[p].gid != a[q].gid)
             && (forall p, q :: 0 <= p < q < |b| ==> b[p].gid != b[q].gid)
    requires forall id: nat :: start <= id < start + |fps| ==> (Holds(a, id) <==> Holds(b, id))
    ensures multiset(a) == multiset(b)
  {
    hide FromList, Holds;
    ElementsWithin(a, b, fps, start);
    ElementsWithin(b, a, fps, start);
    assert Elements(a) == Elements(b);
    DistinctPermuted(a, b);
  }

  lemma ElementsWithin(a: seq<Fingerprint>, b: seq<Fingerprint>, fps: seq<Fingerprint>, start: nat)
    requires forall p :: 0 <= p < |a| ==> FromList(a[p], fps, start)
    requires forall p :: 0 <= p < |b| ==> FromList(b[p], fps, start)
    requires forall id: nat :: start <= id < start + |fps| ==> (Holds(a, id) <==> Holds(b, id))
    ensures Elements(a) <= Elements(b)
  {
    forall p | 0 <= p < |a| ensures a[p] in b {
      var j := a[p].gid.value - start;
      assert Holds(a, start + j);
      var q :| 0 <= q < |b| && b[q].gid == Some(start + j);
      assert b[q] == a[p];
    }
  }

  lemma UntagPermuted(a: seq<Fingerprint>, b: seq<Fingerprint>)
    requires multiset(a) == multiset(b)
    ensures multiset(UntagAll(a)) == multiset(UntagAll(b))
  {
    assert UntagAll(a) == MapSeq(Untagged, a) && UntagAll(b) == MapSeq(Untagged, b);
    MapPermuted(Untagged, a, b);
  }

  /** The candidates carried on are exactly those without a partner, unchanged. */
  lemma CarriedExactly(bk: string, base: seq<Fingerprint>, ck: string, cand: seq<Fingerprint>, rev: ReverseKeys,
                       start: nat, names: seq<string>, candNames: seq<string>)
    requires PassInputs(base, cand, rev, names, candNames) && UniqueScalar(ck, cand)
    ensures var r := Pass(bk, base, ck, cand, rev, start, names, candNames);
            multiset(r.cand) == multiset(Unmatched(bk, base, ck, cand))
  {
    hide TaggedPass, AllFit, UniqueScalar, Holds, FromList, Unmatched, TaggedUnmatched, UntagAll, MergeCount;
    var t := TaggedPass(bk, base, ck, cand, rev, start, names, candNames).cand;
    var u := TaggedUnmatched(bk, base, ck, cand, start + |base|);
    UnmatchedListed(bk, base, ck, cand, start + |base|, Shape(candNames, false));
    CarriedListed(bk, base, ck, cand, rev, start, names, candNames);
    CarriedIds(bk, base, ck, cand, rev, start, names, candNames);
    SameIdsPermute(t, u, cand, start + |base|);
    UntagPermuted(t, u);
  }

  lemma CarriedIds(bk: string, base: seq<Fingerprint>, ck: string, cand: seq<Fingerprint>, rev: ReverseKeys,
                   start: nat, names: seq<string>, candNames: seq<string>)
    requires PassInputs(base, cand, rev, names, candNames) && UniqueScalar(ck, cand)
    ensures var t := TaggedPass(bk, base, ck, cand, rev, start, names, candNames).cand;
            var u := TaggedUnmatched(bk, base, ck, cand, start + |base|);
            forall id: nat :: start + |base| <= id < start + |base| + |cand| ==> (Holds(t, id) <==> Holds(u, id))
  {
    hide *;
    forall id: nat | start + |base| <= id < start + |base| + |cand|
      ensures Holds(TaggedPass(bk, base, ck, cand, rev, start, names, candNames).cand, id) <==>
              Holds(TaggedUnmatched(bk, base, ck, cand, start + |base|), id)
    {
      var j := id - start - |base|;
      CarriedIff(bk, base, ck, cand, rev, start, names, candNames, j);
      NoPartnerIff(bk, base, ck, cand, j);
      UnmatchedHolds(bk, base, ck, cand, start + |base|, j);
    }
  }

  /** The carried candidates, as they are before and after folding: no fold merges anything. */
  lemma CarriedCount(bk: string, base: seq<Fingerprint>, ck: string, cand: seq<Fingerprint>, rev: ReverseKeys,
                     start: nat, names: seq<string>, candNames: seq<string>)
    requires PassInputs(base, cand, rev, names, candNames) && UniqueScalar(ck, cand)
    ensures |TaggedPass(bk, base, ck, cand, rev, start, names, candNames).cand|
            == |cand| - MergeCount(bk, base, ck, cand, start)
  {
    hide IndexScan, Meets, Fits, CandCopies, DedupPass, UniqueScalar, BaseCopies;
    var bi, ci := IndexScan(bk, base, start), IndexScan(ck, cand, start + |base|);
    IndexFits(ck, cand, start + |base|, candNames);
    CandCopiesFit(bi, ci, Shape(candNames, true));
    CandCopiesOnce(bi, ck, cand, start + |base|);
    FoldOnce(CandCopies(bi, ci), Shape(candNames, true));
  }

  /** Each is a candidate with its id. */
  lemma CarriedFromList(bk: string, base: seq<Fingerprint>, ck: string, cand: seq<Fingerprint>, rev: ReverseKeys,
                        start: nat, names: seq<string>, candNames: seq<string>)
    requires PassInputs(base, cand, rev, names, candNames) && UniqueScalar(ck, cand)
    ensures var t := TaggedPass(bk, base, ck, cand, rev, start, names, candNames).cand;
            forall p :: 0 <= p < |t| ==> FromList(t[p], cand, start + |base|)
  {
    hide IndexScan, Fits, CandCopies, DedupPass, UniqueScalar, FromList, TaggedPass, Unique;
    var copies := CandFolded(bk, base, ck, cand, rev, start, names, candNames);
    CandCopiesOnce(IndexScan(bk, base, start), ck, cand, start + |base|);
    FoldOnce(copies, Shape(candNames, true));
  }

  /** The carried candidates are candidates, each once. */
  lemma CarriedListed(bk: string, base: seq<Fingerprint>, ck: string, cand: seq<Fingerprint>, rev: ReverseKeys,
                      start: nat, names: seq<string>, candNames: seq<string>)
    requires PassInputs(base, cand, rev, names, candNames) && UniqueScalar(ck, cand)
    ensures var t := TaggedPass(bk, base, ck, cand, rev, start, names, candNames).cand;
            && (forall p :: 0 <= p < |t| ==> FromList(t[p], cand, start + |base|))
            && (forall p, q :: 0 <= p < q < |t| ==> t[p].gid != t[q].gid)
  {
    hide TaggedPass, DedupPass, Fits, UniqueScalar, FromList;
    var copies := CandFolded(bk, base, ck, cand, rev, start, names, candNames);
    PassMakesUnique(GlobalId, copies, Shape(candNames, true));
    CarriedFromList(bk, base, ck, cand, rev, start, names, candNames);
    UniqueIds(TaggedPass(bk, base, ck, cand, rev, start, names, candNames).cand, cand, start + |base|);
  }

  lemma UniqueIds(t: seq<Fingerprint>, fps: seq<Fingerprint>, start: nat)
    requires Unique(GlobalId, t) && forall p :: 0 <= p < |t| ==> FromList(t[p], fps, start)
    ensures forall p, q :: 0 <= p < q < |t| ==> t[p].gid != t[q].gid
  {
    forall p, q | 0 <= p < q < |t| ensures t[p].gid != t[q].gid {
      assert FromList(t[p], fps, start) && FromList(t[q], fps, start);
      assert Get(t[p], GlobalId) != Get(t[q], GlobalId);
    }
  }

  /** The outputs number bases plus candidates minus merges. */
  lemma ScalarPassCounts(bk: string, base: seq<Fingerprint>, ck: string, cand: seq<Fingerprint>, rev: ReverseKeys,
                         start: nat, names: seq<string>, candNames: seq<string>)
    requires PassInputs(base, cand, rev, names, candNames) && UniqueScalar(bk, base) && UniqueScalar(ck, cand)
    ensures var r := Pass(bk, base, ck, cand, rev, start, names, candNames);
            |r.base| + |r.cand| == |base| + |cand| - MergeCount(bk, base, ck, cand, start)
  {
    hide TaggedPass, Fits, FromList;
    OneOutputPerSurvivingBase(bk, base, ck, cand, rev, start, names, candNames);
    AllSurvive(bk, base, start);
    CarriedCount(bk, base, ck, cand, rev, start, names, candNames);
  }
}
