/** What one merge pass keeps: one output per surviving base, the sources of every
    survivor, and the base's own identity facts. */
module PassLaws {
  import opened OrderedDict
  import opened Fingerprints
  import opened MergeLaws
  import opened Dedup
  import opened Index
  import opened MergePass

  /* ---------- global ids through a pass ---------- */

  lemma HoldsConcat(a: seq<Fingerprint>, b: seq<Fingerprint>, id: nat)
    ensures Holds(a + b, id) <==> Holds(a, id) || Holds(b, id)
  {
    if Holds(a, id) {
      var j :| 0 <= j < |a| && a[j].gid == Some(id);
      assert (a + b)[j] == a[j];
    }
    if Holds(b, id) {
      var j :| 0 <= j < |b| && b[j].gid == Some(id);
      assert (a + b)[|a| + j] == b[j];
    }
  }

  /** The id is that of the entry under some key of the list. */
  ghost predicate Under(ks: seq<Scalar>, d: Entries, other: Entries, inside: bool, id: nat) {
    exists i :: 0 <= i < |ks| && ks[i] in d && (ks[i] in other <==> inside) && d[ks[i]].gid == Some(id)
  }

  lemma UnderSnoc(ks: seq<Scalar>, x: Scalar, d: Entries, other: Entries, inside: bool, id: nat)
    ensures Under(ks + [x], d, other, inside, id) <==>
            Under(ks, d, other, inside, id) || (x in d && (x in other <==> inside) && d[x].gid == Some(id))
  {
    var all := ks + [x];
    if Under(ks, d, other, inside, id) {
      var i :| 0 <= i < |ks| && ks[i] in d && (ks[i] in other <==> inside) && d[ks[i]].gid == Some(id);
      assert all[i] == ks[i];
    }
    assert all[|ks|] == x;
  }

  lemma {:induction false} MatchedHolds(ks: seq<Scalar>, b: Entries, c: Entries, rev: ReverseKeys, names: seq<string>,
                                        id: nat)
    requires Meets(b, c, names, rev) && forall i :: 0 <= i < |ks| ==> ks[i] in c
    ensures Holds(Matched(ks, b, c, rev, names), id) <==> Under(ks, b, c, true, id)
  {
    hide Meets, Merge, Mergeable, Under, Holds, Matched;
    if ks == [] {
      NothingHeld(b, c, rev, names, id);
    } else {
      var front, last := ks[..|ks| - 1], ks[|ks| - 1];
      assert ks == front + [last] && ks[..|ks|] == ks;
      MatchedHolds(front, b, c, rev, names, id);
      MatchedStep(ks, |ks| - 1, b, c, rev, names);
      UnderSnoc(front, last, b, c, true, id);
      var m := Matched(front, b, c, rev, names);
      if last in b {
        MatchedGid(b, c, rev, names, last);
        HoldsSnoc(m, Merge(b[last], c[last], rev), id);
      } else {
        assert m + [] == m;
      }
    }
  }

  lemma NothingHeld(b: Entries, c: Entries, rev: ReverseKeys, names: seq<string>, id: nat)
    requires Meets(b, c, names, rev)
    ensures !Holds(Matched([], b, c, rev, names), id) && !Under([], b, c, true, id)
  {
  }

  lemma MatchedGid(b: Entries, c: Entries, rev: ReverseKeys, names: seq<string>, x: Scalar)
    requires Meets(b, c, names, rev) && x in b && x in c
    ensures Mergeable(b[x], c[x], rev)
    ensures Merge(b[x], c[x], rev).gid == b[x].gid
    ensures Merge(b[x], c[x], rev).sources.Keys == b[x].sources.Keys + c[x].sources.Keys
  {
    CompatibleMerges(b[x], c[x], names, rev);
  }

  lemma {:induction false} ApartHolds(ks: seq<Scalar>, d: Entries, other: Entries, id: nat)
    requires forall i :: 0 <= i < |ks| ==> ks[i] in d
    ensures Holds(Apart(ks, d, other), id) <==> Under(ks, d, other, false, id)
  {
    if ks != [] {
      hide Under, Holds;
      var front, last := ks[..|ks| - 1], ks[|ks| - 1];
      assert ks == front + [last];
      ApartHolds(front, d, other, id);
      UnderSnoc(front, last, d, other, false, id);
      HoldsSnoc(Apart(front, d, other), d[last], id);
    }
  }

  /** The copies of the base side carry exactly the ids of its index. */
  lemma BaseCopiesHold(bi: Index, ci: Index, rev: ReverseKeys, names: seq<string>, id: nat)
    requires bi.dict.Valid() && ci.dict.Valid()
    requires Meets(bi.dict.vals, ci.dict.vals, names, rev) && AllFit(bi.noKey, Shape(names, true))
    ensures Holds(BaseCopies(bi, ci, rev, names), id) <==> Occurs(bi, id)
  {
    hide Meets, Holds, Matched, Apart, Fits;
    var b, c := bi.dict.vals, ci.dict.vals;
    MatchedHolds(ci.dict.keys, b, c, rev, names, id);
    ApartHolds(bi.dict.keys, b, c, id);
    var m, a := Matched(ci.dict.keys, b, c, rev, names), Apart(bi.dict.keys, b, c);
    HoldsConcat(bi.noKey + m, a, id);
    HoldsConcat(bi.noKey, m, id);
    if x :| x in b && b[x].gid == Some(id) {
      if x in c {
        var i :| 0 <= i < |ci.dict.keys| && ci.dict.keys[i] == x;
        assert Under(ci.dict.keys, b, c, true, id);
      } else {
        var i :| 0 <= i < |bi.dict.keys| && bi.dict.keys[i] == x;
        assert Under(bi.dict.keys, b, c, false, id);
      }
    }
  }

  /** Every truthy key value of the list has an entry. */
  lemma {:induction false} KeyPresent(k: IdKey, fps: seq<Fingerprint>, sh: Shape, i: nat)
    requires AllFit(fps, sh) && ScalarKeyed(k, fps) && i < |fps| && Truthy(Get(fps[i], k))
    ensures Get(fps[i], k).v in DedupScan(k, fps, sh).dict.vals
  {
    hide Merge, Built, Mergeable;
    if i < |fps| - 1 {
      KeyPresent(k, fps[..|fps| - 1], sh, i);
    }
  }

  lemma NoneUntagged(fps: seq<Fingerprint>, names: seq<string>)
    requires AllFit(fps, Shape(names, true)) && forall i :: 0 <= i < |fps| ==> !Truthy(Get(fps[i], GlobalId))
    ensures fps == []
  {
    hide Built;
    assert |fps| > 0 ==> Fits(fps[0], Shape(names, true));
  }

  /** Folding copies by global id keeps exactly the ids. */
  lemma CopiesFolded(fps: seq<Fingerprint>, names: seq<string>, id: nat)
    requires AllFit(fps, Shape(names, true))
    ensures Holds(DedupPass(GlobalId, fps, Shape(names, true)), id) <==> Holds(fps, id)
  {
    hide DedupScan, Fits, AllFit, DedupPass;
    if Holds(fps, id) {
      IdFolded(fps, names, id);
    }
    if Holds(DedupPass(GlobalId, fps, Shape(names, true)), id) {
      FoldedId(fps, names, id);
    }
  }

  lemma IdFolded(fps: seq<Fingerprint>, names: seq<string>, id: nat)
    requires AllFit(fps, Shape(names, true)) && Holds(fps, id)
    ensures Holds(DedupPass(GlobalId, fps, Shape(names, true)), id)
  {
    hide DedupScan, Fits, AllFit;
    var sh := Shape(names, true);
    var st := DedupScan(GlobalId, fps, sh);
    NoneUntagged(st.noKey, names);
    var i :| 0 <= i < |fps| && fps[i].gid == Some(id);
    KeyPresent(GlobalId, fps, sh, i);
    var j :| 0 <= j < |st.dict.keys| && st.dict.keys[j] == Uid(id);
    assert st.Result()[j].gid == Some(id);
  }

  lemma FoldedId(fps: seq<Fingerprint>, names: seq<string>, id: nat)
    requires AllFit(fps, Shape(names, true)) && Holds(DedupPass(GlobalId, fps, Shape(names, true)), id)
    ensures Holds(fps, id)
  {
    hide DedupScan, Fits, AllFit;
    var sh := Shape(names, true);
    var st := DedupScan(GlobalId, fps, sh);
    NoneUntagged(st.noKey, names);
    var j :| 0 <= j < |st.Result()| && st.Result()[j].gid == Some(id);
    var o := EntryOrigin(GlobalId, GlobalId, fps, st.dict.keys[j], sh);
    assert fps[o].gid == Some(id);
  }

  ghost function Ids(fps: seq<Fingerprint>): set<nat> {
    set i | 0 <= i < |fps| && fps[i].gid.Some? :: fps[i].gid.value
  }

  lemma UniqueIdsCount(fps: seq<Fingerprint>, names: seq<string>)
    requires AllFit(fps, Shape(names, true)) && Unique(GlobalId, fps)
    ensures |Ids(fps)| == |fps|
  {
    hide Built;
    if fps != [] {
      var front, last := fps[..|fps| - 1], fps[|fps| - 1];
      forall i, j | 0 <= i < j < |front| && Truthy(Get(front[i], GlobalId))
        ensures Get(front[i], GlobalId) != Get(front[j], GlobalId)
      {
        assert Get(fps[i], GlobalId) != Get(fps[j], GlobalId);
      }
      UniqueIdsCount(front, names);
      forall i | 0 <= i < |front| ensures front[i].gid != last.gid {
        assert Get(fps[i], GlobalId) != Get(fps[|fps| - 1], GlobalId);
      }
      assert Ids(fps) == Ids(front) + {last.gid.value};
      assert last.gid.value !in Ids(front);
    }
  }

  /** The ids of the fingerprints that survive indexing. */
  ghost function Survivors(name: string, fps: seq<Fingerprint>, start: nat): set<nat> {
    set i | 0 <= i < |fps| && Survives(name, fps, i) :: start + i
  }

  lemma OccursOnlyListed(name: string, fps: seq<Fingerprint>, start: nat, id: nat)
    requires Occurs(IndexScan(name, fps, start), id)
    ensures start <= id < start + |fps|
  {
    hide IndexScan;
  }

  /** Exactly one base output for every base fingerprint that survives indexing. */
  lemma OneOutputPerSurvivingBase(bk: string, base: seq<Fingerprint>, ck: string, cand: seq<Fingerprint>,
                                  rev: ReverseKeys, start: nat, names: seq<string>, candNames: seq<string>)
    requires PassInputs(base, cand, rev, names, candNames)
    ensures var t := TaggedPass(bk, base, ck, cand, rev, start, names, candNames);
            Unique(GlobalId, t.base) && Ids(t.base) == Survivors(bk, base, start)
    ensures |Pass(bk, base, ck, cand, rev, start, names, candNames).base| == |Survivors(bk, base, start)|
  {
    hide Meets, Holds, IndexScan, DedupPass, BaseCopies, Survives, Fits, Occurs;
    var t := TaggedPass(bk, base, ck, cand, rev, start, names, candNames);
    var bi, ci := IndexScan(bk, base, start), IndexScan(ck, cand, start + |base|);
    IndexFits(bk, base, start, names);
    IndexesMeet(bk, base, ck, cand, rev, start, names, candNames);
    PassMakesUnique(GlobalId, BaseCopies(bi, ci, rev, names), Shape(names, true));
    UniqueIdsCount(t.base, names);
    forall id: nat ensures id in Ids(t.base) <==> id in Survivors(bk, base, start) {
      IdsAreHeld(t.base, id);
      CopiesFolded(BaseCopies(bi, ci, rev, names), names, id);
      BaseCopiesHold(bi, ci, rev, names, id);
      OccursIffSurvivor(bk, base, start, id);
    }
  }

  lemma IdsAreHeld(fps: seq<Fingerprint>, id: nat)
    ensures id in Ids(fps) <==> Holds(fps, id)
  {
  }

  lemma OccursIffSurvivor(name: string, fps: seq<Fingerprint>, start: nat, id: nat)
    ensures Occurs(IndexScan(name, fps, start), id) <==> id in Survivors(name, fps, start)
  {
    hide IndexScan, Occurs, Survives;
    if Occurs(IndexScan(name, fps, start), id) {
      OccursOnlyListed(name, fps, start, id);
      SurvivesIffOccurs(name, fps, start, id - start);
      assert start + (id - start) == id;
    }
    if id in Survivors(name, fps, start) {
      SurvivesIffOccurs(name, fps, start, id - start);
    }
  }

  /* ---------- which candidates are merged, which are carried on ---------- */

  /** The candidate owns a key that some base claims (hit), or that none claims (miss). */
  ghost predicate OwnsKey(bk: string, base: seq<Fingerprint>, ck: string, cand: seq<Fingerprint>, j: nat, hit: bool) {
    exists x :: Owner(ck, cand, x) == Some(j) && Owner(bk, base, x).Some? == hit
  }

  /** A candidate is carried on exactly when it misses the base through some key; with a
      list-valued key it can be merged through another key as well. */
  lemma CarriedIff(bk: string, base: seq<Fingerprint>, ck: string, cand: seq<Fingerprint>, rev: ReverseKeys,
                   start: nat, names: seq<string>, candNames: seq<string>, j: nat)
    requires PassInputs(base, cand, rev, names, candNames) && j < |cand|
    ensures Holds(TaggedPass(bk, base, ck, cand, rev, start, names, candNames).cand, start + |base| + j)
            <==> Claims(cand[j], ck) == [] || OwnsKey(bk, base, ck, cand, j, false)
  {
    hide Meets, Holds, IndexScan, DedupPass, Fits, Owner, Claims;
    var bi, ci := IndexScan(bk, base, start), IndexScan(ck, cand, start + |base|);
    var id := start + |base| + j;
    IndexFits(ck, cand, start + |base|, candNames);
    CandCopiesFit(bi, ci, Shape(candNames, true));
    CopiesFolded(CandCopies(bi, ci), candNames, id);
    HoldsConcat(ci.noKey, Apart(ci.dict.keys, ci.dict.vals, bi.dict.vals), id);
    ApartHolds(ci.dict.keys, ci.dict.vals, bi.dict.vals, id);
    NoKeyHolds(ck, cand, start + |base|, j);
    UnderIffOwned(bk, base, ck, cand, start, false, j);
  }

  /** A candidate survives exactly when it is keyless or owns a key that hits or misses. */
  lemma MergedOrCarried(bk: string, base: seq<Fingerprint>, ck: string, cand: seq<Fingerprint>, j: nat)
    requires j < |cand|
    ensures Survives(ck, cand, j) <==> Claims(cand[j], ck) == []
                                       || OwnsKey(bk, base, ck, cand, j, true) || OwnsKey(bk, base, ck, cand, j, false)
  {
    hide Claims;
    if Survives(ck, cand, j) && Claims(cand[j], ck) != [] {
      var x :| x in Claims(cand[j], ck) && Owner(ck, cand, x) == Some(j);
      assert OwnsKey(bk, base, ck, cand, j, Owner(bk, base, x).Some?);
    }
    if x :| Owner(ck, cand, x) == Some(j) {
      assert x in Claims(cand[j], ck);
    }
  }

  lemma UnderIffOwned(bk: string, base: seq<Fingerprint>, ck: string, cand: seq<Fingerprint>, start: nat, inside: bool,
                      j: nat)
    requires j < |cand|
    ensures var bi, ci := IndexScan(bk, base, start), IndexScan(ck, cand, start + |base|);
            Under(ci.dict.keys, ci.dict.vals, bi.dict.vals, inside, start + |base| + j)
            <==> OwnsKey(bk, base, ck, cand, j, inside)
  {
    hide IndexScan, Under, OwnsKey;
    if Under(IndexScan(ck, cand, start + |base|).dict.keys, IndexScan(ck, cand, start + |base|).dict.vals,
             IndexScan(bk, base, start).dict.vals, inside, start + |base| + j) {
      UnderIsOwned(bk, base, ck, cand, start, inside, j);
    }
    if OwnsKey(bk, base, ck, cand, j, inside) {
      OwnedIsUnder(bk, base, ck, cand, start, inside, j);
    }
  }

  lemma UnderIsOwned(bk: string, base: seq<Fingerprint>, ck: string, cand: seq<Fingerprint>, start: nat, inside: bool,
                     j: nat)
    requires j < |cand|
    requires var bi, ci := IndexScan(bk, base, start), IndexScan(ck, cand, start + |base|);
             Under(ci.dict.keys, ci.dict.vals, bi.dict.vals, inside, start + |base| + j)
    ensures OwnsKey(bk, base, ck, cand, j, inside)
  {
    hide IndexScan, FromList, Owner, Claims;
    var bi, ci := IndexScan(bk, base, start), IndexScan(ck, cand, start + |base|);
    var i :| 0 <= i < |ci.dict.keys| && ci.dict.keys[i] in ci.dict.vals
             && (ci.dict.keys[i] in bi.dict.vals <==> inside)
             && ci.dict.vals[ci.dict.keys[i]].gid == Some(start + |base| + j);
    OwnedEntry(ck, cand, start + |base|, ci.dict.keys[i], j);
    IndexedByOwner(bk, base, start, ci.dict.keys[i]);
  }

  lemma OwnedIsUnder(bk: string, base: seq<Fingerprint>, ck: string, cand: seq<Fingerprint>, start: nat, inside: bool,
                     j: nat)
    requires j < |cand| && OwnsKey(bk, base, ck, cand, j, inside)
    ensures var bi, ci := IndexScan(bk, base, start), IndexScan(ck, cand, start + |base|);
            Under(ci.dict.keys, ci.dict.vals, bi.dict.vals, inside, start + |base| + j)
  {
    hide IndexScan, FromList, Owner, Claims;
    var ci := IndexScan(ck, cand, start + |base|);
    var x :| Owner(ck, cand, x) == Some(j) && Owner(bk, base, x).Some? == inside;
    OwnedEntry(ck, cand, start + |base|, x, j);
    IndexedByOwner(bk, base, start, x);
    var i :| 0 <= i < |ci.dict.keys| && ci.dict.keys[i] == x;
  }

  /* ---------- sources ---------- */

  /** The sources of the fingerprints that survive indexing. */
  ghost function SurvivingSources(name: string, fps: seq<Fingerprint>): set<string> {
    set i, s | 0 <= i < |fps| && Survives(name, fps, i) && s in fps[i].sources :: s
  }

  ghost function IndexSources(r: Index): set<string> {
    SourcesOf(r.noKey) + DictSources(r.dict)
  }

  lemma IndexSourcesSurvive(name: string, fps: seq<Fingerprint>, start: nat)
    ensures IndexSources(IndexScan(name, fps, start)) == SurvivingSources(name, fps)
  {
    hide IndexScan, Survives;
    var r := IndexScan(name, fps, start);
    forall s | s in IndexSources(r) ensures s in SurvivingSources(name, fps) {
      if s in SourcesOf(r.noKey) {
        var j :| 0 <= j < |r.noKey| && s in r.noKey[j].sources;
        var i := r.noKey[j].gid.value - start;
        assert Holds(r.noKey, start + i);
        SurvivesIffOccurs(name, fps, start, i);
        assert s in fps[i].sources;
      } else {
        var x :| x in r.dict.vals && s in r.dict.vals[x].sources;
        var i := r.dict.vals[x].gid.value - start;
        assert Occurs(r, start + i);
        SurvivesIffOccurs(name, fps, start, i);
        assert s in fps[i].sources;
      }
    }
    forall s | s in SurvivingSources(name, fps) ensures s in IndexSources(r) {
      var i :| 0 <= i < |fps| && Survives(name, fps, i) && s in fps[i].sources;
      SurvivesIffOccurs(name, fps, start, i);
      if Holds(r.noKey, start + i) {
        var j :| 0 <= j < |r.noKey| && r.noKey[j].gid == Some(start + i);
        assert s in r.noKey[j].sources;
      } else {
        var x :| x in r.dict.vals && r.dict.vals[x].gid == Some(start + i);
        assert s in r.dict.vals[x].sources;
      }
    }
  }

  /** The sources under the keys of a list, inside or outside the other dictionary. */
  ghost function KeyedSources(ks: seq<Scalar>, d: Entries, other: Entries, inside: bool): set<string> {
    set i, s | 0 <= i < |ks| && ks[i] in d && (ks[i] in other <==> inside) && s in d[ks[i]].sources :: s
  }

  lemma KeyedSourcesSnoc(ks: seq<Scalar>, x: Scalar, d: Entries, other: Entries, inside: bool)
    ensures KeyedSources(ks + [x], d, other, inside) ==
            KeyedSources(ks, d, other, inside) + if x in d && (x in other <==> inside) then d[x].sources.Keys else {}
  {
    var all := ks + [x];
    forall s | s in KeyedSources(ks, d, other, inside) ensures s in KeyedSources(all, d, other, inside) {
      var i :| 0 <= i < |ks| && ks[i] in d && (ks[i] in other <==> inside) && s in d[ks[i]].sources;
      assert all[i] == ks[i];
    }
    assert all[|ks|] == x;
    if x in d && (x in other <==> inside) {
      forall s | s in d[x].sources ensures s in KeyedSources(all, d, other, inside) {
        assert all[|ks|] in d;
      }
    }
  }

  lemma {:induction false} ApartSources(ks: seq<Scalar>, d: Entries, other: Entries)
    requires forall i :: 0 <= i < |ks| ==> ks[i] in d
    ensures SourcesOf(Apart(ks, d, other)) == KeyedSources(ks, d, other, false)
  {
    if ks != [] {
      hide KeyedSources, SourcesOf;
      var front, last := ks[..|ks| - 1], ks[|ks| - 1];
      assert ks == front + [last];
      ApartSources(front, d, other);
      KeyedSourcesSnoc(front, last, d, other, false);
      SourcesSnoc(Apart(front, d, other), d[last]);
    }
  }

  lemma {:induction false} MatchedSources(ks: seq<Scalar>, b: Entries, c: Entries, rev: ReverseKeys, names: seq<string>)
    requires Meets(b, c, names, rev) && forall i :: 0 <= i < |ks| ==> ks[i] in c
    ensures SourcesOf(Matched(ks, b, c, rev, names)) == KeyedSources(ks, b, c, true) + KeyedSources(ks, c, b, true)
  {
    hide Meets, Merge, Mergeable;
    if ks != [] {
      hide KeyedSources, SourcesOf, Matched;
      var front, last := ks[..|ks| - 1], ks[|ks| - 1];
      assert ks == front + [last] && ks[..|ks|] == ks;
      MatchedSources(front, b, c, rev, names);
      MatchedStep(ks, |ks| - 1, b, c, rev, names);
      KeyedSourcesSnoc(front, last, b, c, true);
      KeyedSourcesSnoc(front, last, c, b, true);
      var m := Matched(front, b, c, rev, names);
      if last in b {
        MatchedGid(b, c, rev, names, last);
        SourcesSnoc(m, Merge(b[last], c[last], rev));
      } else {
        assert m + [] == m;
      }
    }
  }

  /** Inside and outside together make up the whole dictionary. */
  lemma SplitSources(d: Dict<Scalar, Fingerprint>, other: Entries)
    requires d.Valid()
    ensures KeyedSources(d.keys, d.vals, other, true) + KeyedSources(d.keys, d.vals, other, false) == DictSources(d)
  {
    forall s | s in DictSources(d)
      ensures s in KeyedSources(d.keys, d.vals, other, true) + KeyedSources(d.keys, d.vals, other, false)
    {
      var x :| x in d.vals && s in d.vals[x].sources;
      var i :| 0 <= i < |d.keys| && d.keys[i] == x;
      assert d.keys[i] in d.vals;
    }
  }

  /** The shared keys are the same, whichever side lists them. */
  lemma SharedSources(b: Dict<Scalar, Fingerprint>, c: Dict<Scalar, Fingerprint>)
    requires b.Valid() && c.Valid()
    ensures KeyedSources(c.keys, b.vals, c.vals, true) == KeyedSources(b.keys, b.vals, c.vals, true)
  {
    forall s | s in KeyedSources(b.keys, b.vals, c.vals, true) ensures s in KeyedSources(c.keys, b.vals, c.vals, true) {
      var i :| 0 <= i < |b.keys| && b.keys[i] in b.vals && b.keys[i] in c.vals && s in b.vals[b.keys[i]].sources;
      var j :| 0 <= j < |c.keys| && c.keys[j] == b.keys[i];
      assert c.keys[j] in b.vals;
    }
    forall s | s in KeyedSources(c.keys, b.vals, c.vals, true) ensures s in KeyedSources(b.keys, b.vals, c.vals, true) {
      var i :| 0 <= i < |c.keys| && c.keys[i] in b.vals && c.keys[i] in c.vals && s in b.vals[c.keys[i]].sources;
      var j :| 0 <= j < |b.keys| && b.keys[j] == c.keys[i];
      assert b.keys[j] in b.vals;
    }
  }

  lemma CopiesSources(bi: Index, ci: Index, rev: ReverseKeys, names: seq<string>)
    requires bi.dict.Valid() && ci.dict.Valid()
    requires Meets(bi.dict.vals, ci.dict.vals, names, rev) && AllFit(bi.noKey, Shape(names, true))
    ensures SourcesOf(BaseCopies(bi, ci, rev, names)) + SourcesOf(CandCopies(bi, ci))
            == IndexSources(bi) + IndexSources(ci)
  {
    hide KeyedSources, SourcesOf, DictSources, Meets, Matched, Apart, Fits;
    var b, c := bi.dict.vals, ci.dict.vals;
    var m, ab, ac := Matched(ci.dict.keys, b, c, rev, names), Apart(bi.dict.keys, b, c), Apart(ci.dict.keys, c, b);
    SourcesConcat(bi.noKey + m, ab);
    SourcesConcat(bi.noKey, m);
    SourcesConcat(ci.noKey, ac);
    MatchedSources(ci.dict.keys, b, c, rev, names);
    ApartSources(bi.dict.keys, b, c);
    ApartSources(ci.dict.keys, c, b);
    SharedSources(bi.dict, ci.dict);
    SplitSources(bi.dict, c);
    SplitSources(ci.dict, b);
  }

  lemma UntaggedSources(fps: seq<Fingerprint>)
    ensures SourcesOf(UntagAll(fps)) == SourcesOf(fps)
  {
    var u := UntagAll(fps);
    forall s | s in SourcesOf(fps) ensures s in SourcesOf(u) {
      var i :| 0 <= i < |fps| && s in fps[i].sources;
      assert s in u[i].sources;
    }
  }

  /** The outputs of a pass carry exactly the sources of the survivors of both sides. */
  lemma PassConservesSources(bk: string, base: seq<Fingerprint>, ck: string, cand: seq<Fingerprint>, rev: ReverseKeys,
                             start: nat, names: seq<string>, candNames: seq<string>)
    requires PassInputs(base, cand, rev, names, candNames)
    ensures var r := Pass(bk, base, ck, cand, rev, start, names, candNames);
            SourcesOf(r.base) + SourcesOf(r.cand) == SurvivingSources(bk, base) + SurvivingSources(ck, cand)
  {
    hide SourcesOf, Meets, IndexScan, DedupPass, BaseCopies, CandCopies, Fits, SurvivingSources, IndexSources;
    var t := TaggedPass(bk, base, ck, cand, rev, start, names, candNames);
    var bi, ci := IndexScan(bk, base, start), IndexScan(ck, cand, start + |base|);
    IndexFits(bk, base, start, names);
    IndexFits(ck, cand, start + |base|, candNames);
    IndexesMeet(bk, base, ck, cand, rev, start, names, candNames);
    CandCopiesFit(bi, ci, Shape(candNames, true));
    PassSources(GlobalId, BaseCopies(bi, ci, rev, names), Shape(names, true));
    PassSources(GlobalId, CandCopies(bi, ci), Shape(candNames, true));
    CopiesSources(bi, ci, rev, names);
    IndexSourcesSurvive(bk, base, start);
    IndexSourcesSurvive(ck, cand, start + |base|);
    UntaggedSources(t.base);
    UntaggedSources(t.cand);
  }
}
