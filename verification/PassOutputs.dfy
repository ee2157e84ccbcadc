/** What exactly the outputs of a merge pass are made of, whatever the keys: one copy of a base
    per key it owns, merged with the candidate that owns the key, folded in key order. */
module PassOutputs {
  import opened OrderedDict
  import opened Fingerprints
  import opened MergeLaws
  import opened Dedup
  import opened Index
  import opened MergePass
  import opened PassLaws
  import opened PassFacts
  import opened ScalarJoin

  /* ---------- keys in order ---------- */

  /** All claims, one fingerprint after the other. */
  function AllClaims(name: string, fps: seq<Fingerprint>): seq<Scalar> {
    if fps == [] then [] else AllClaims(name, fps[..|fps| - 1]) + Claims(fps[|fps| - 1], name)
  }

  /** All claimed keys, in the order of the first claims. */
  function KeyOrder(name: string, fps: seq<Fingerprint>): seq<Scalar> {
    FirstSeen(AllClaims(name, fps))
  }

  lemma {:induction false} ClaimOrder(d: Dict<Scalar, Fingerprint>, seen: seq<Scalar>, ks: seq<Scalar>, v: Fingerprint)
    requires d.Valid() && d.keys == FirstSeen(seen)
    ensures ClaimKeys(d, ks, v).keys == FirstSeen(seen + ks)
  {
    hide Distinct, Elements;
    if ks == [] {
      assert seen + ks == seen;
    } else {
      var front, x := ks[..|ks| - 1], ks[|ks| - 1];
      ClaimOrder(d, seen, front, v);
      assert (seen + ks)[..|seen + ks| - 1] == seen + front && (seen + ks)[|seen + ks| - 1] == x;
    }
  }

  lemma {:induction false} IndexOrder(name: string, fps: seq<Fingerprint>, start: nat)
    ensures IndexScan(name, fps, start).dict.keys == KeyOrder(name, fps)
  {
    hide IndexScan, Claims, FromList, ClaimKeys, FirstSeen;
    if fps == [] {
      EmptyIndex(name, start);
      NothingSeen();
    } else {
      var n := |fps| - 1;
      IndexOrder(name, fps[..n], start);
      assert fps[..n + 1] == fps;
      ScanNext(name, fps, n, start);
      var seen := AllClaims(name, fps[..n]);
      assert seen + [] == seen;
      ClaimOrder(IndexScan(name, fps[..n], start).dict, seen, Claims(fps[n], name), Tag(fps[n], start + n));
    }
  }

  lemma NothingSeen()
    ensures FirstSeen<Scalar>([]) == []
  {
  }

  /** The keys among ks that base o owns. */
  function OwnedBy(bk: string, base: seq<Fingerprint>, ks: seq<Scalar>, o: nat): seq<Scalar> {
    if ks == [] then []
    else OwnedBy(bk, base, ks[..|ks| - 1], o) + if Owner(bk, base, ks[|ks| - 1]) == Some(o) then [ks[|ks| - 1]] else []
  }

  /** Those of them that no candidate claims. */
  function OwnedAlone(bk: string, base: seq<Fingerprint>, ck: string, cand: seq<Fingerprint>, ks: seq<Scalar>,
                      o: nat): seq<Scalar> {
    if ks == [] then []
    else
      var x := ks[|ks| - 1];
      OwnedAlone(bk, base, ck, cand, ks[..|ks| - 1], o)
      + if Owner(bk, base, x) == Some(o) && Owner(ck, cand, x).None? then [x] else []
  }

  /* ---------- copies ---------- */

  /** Base o under key x, merged with the candidate that owns x, if there is one. */
  function CopyUnder(base: seq<Fingerprint>, ck: string, cand: seq<Fingerprint>, rev: ReverseKeys, start: nat,
                     ghost names: seq<string>, ghost candNames: seq<string>, o: nat, x: Scalar): Fingerprint
    requires PassInputs(base, cand, rev, names, candNames) && o < |base|
  {
    var j := Owner(ck, cand, x);
    if j.None? then Tag(base[o], start + o)
    else
      CompatibleMerges(base[o], cand[j.value], names, rev);
      Tag(Merge(base[o], cand[j.value], rev), start + o)
  }

  function CopiesUnder(base: seq<Fingerprint>, ck: string, cand: seq<Fingerprint>, rev: ReverseKeys, start: nat,
                       ghost names: seq<string>, ghost candNames: seq<string>, o: nat,
                           ks: seq<Scalar>): (r: seq<Fingerprint>)
    requires PassInputs(base, cand, rev, names, candNames) && o < |base|
    ensures |r| == |ks|
    ensures forall n :: 0 <= n < |ks| ==> r[n] == CopyUnder(base, ck, cand, rev, start, names, candNames, o, ks[n])
  {
    seq(|ks|, n requires 0 <= n < |ks| => CopyUnder(base, ck, cand, rev, start, names, candNames, o, ks[n]))
  }

  /** All copies of base o: one if it has no key, and otherwise one for each key it owns, first
      the keys that a candidate claims, in the order of the candidates, then the others. */
  function CopiesOf(bk: string, base: seq<Fingerprint>, ck: string, cand: seq<Fingerprint>, rev: ReverseKeys,
                    start: nat, ghost names: seq<string>, ghost candNames: seq<string>, o: nat): seq<Fingerprint>
    requires PassInputs(base, cand, rev, names, candNames) && o < |base|
  {
    (if Claims(base[o], bk) == [] then [Tag(base[o], start + o)] else [])
    + CopiesUnder(base, ck, cand, rev, start, names, candNames, o, OwnedBy(bk, base, KeyOrder(ck, cand), o))
    + CopiesUnder(base, ck, cand, rev, start, names, candNames, o,
                  OwnedAlone(bk, base, ck, cand, KeyOrder(bk, base), o))
  }

  lemma {:induction false} GroupConcat(k: IdKey, a: seq<Fingerprint>, b: seq<Fingerprint>, x: Scalar, sh: Shape)
    requires AllFit(a, sh) && AllFit(b, sh)
    ensures AllFit(a + b, sh) && Group(k, a + b, x, sh) == Group(k, a, x, sh) + Group(k, b, x, sh)
  {
    hide Fits, Get, Truthy;
    if b == [] {
      assert a + b == a;
    } else {
      var front, last := b[..|b| - 1], b[|b| - 1];
      GroupConcat(k, a, front, x, sh);
      assert (a + b)[..|a + b| - 1] == a + front;
    }
  }

  /** Grouping by global id, one fingerprint at a time. */
  lemma GroupSnoc(fps: seq<Fingerprint>, fp: Fingerprint, id: nat, sh: Shape)
    requires AllFit(fps, sh) && Fits(fp, sh)
    ensures AllFit(fps + [fp], sh)
    ensures Group(GlobalId, fps + [fp], Uid(id), sh) == Group(GlobalId, fps, Uid(id), sh) +
            if fp.gid == Some(id) then [fp] else []
  {
    hide Fits;
    assert (fps + [fp])[..|fps|] == fps;
  }

  lemma EmptyGroup(id: nat, sh: Shape)
    ensures Group(GlobalId, [], Uid(id), sh) == []
  {
  }

  lemma {:induction false} KeylessGroup(name: string, fps: seq<Fingerprint>, start: nat, names: seq<string>, o: nat)
    requires AllFit(fps, Shape(names, false)) && AllFit(IndexScan(name, fps, start).noKey, Shape(names, true))
    ensures Group(GlobalId, IndexScan(name, fps, start).noKey, Uid(start + o), Shape(names, true))
            == if o < |fps| && Claims(fps[o], name) == [] then [Tag(fps[o], start + o)] else []
  {
    hide IndexScan, Fits, Claims, FromList, Group;
    if fps == [] {
      EmptyIndex(name, start);
      EmptyGroup(start + o, Shape(names, true));
    } else {
      var front, n := fps[..|fps| - 1], |fps| - 1;
      IndexFits(name, front, start, names);
      KeylessGroup(name, front, start, names, o);
      NoKeyStep(name, fps, start);
      if Claims(fps[n], name) == [] {
        LastListed(fps, start);
        TaggedFits(Tag(fps[n], start + n), fps, start, names);
        GroupSnoc(IndexScan(name, front, start).noKey, Tag(fps[n], start + n), start + o, Shape(names, true));
      }
    }
  }

  /** The merge under a shared key. */
  lemma MergeIsCopy(bk: string, base: seq<Fingerprint>, ck: string, cand: seq<Fingerprint>, rev: ReverseKeys,
                    start: nat, names: seq<string>, candNames: seq<string>, x: Scalar)
    requires PassInputs(base, cand, rev, names, candNames)
    requires x in IndexScan(bk, base, start).dict.vals && x in IndexScan(ck, cand, start + |base|).dict.vals
    ensures var b, c := IndexScan(bk, base, start).dict.vals[x], IndexScan(ck, cand, start + |base|).dict.vals[x];
            && Mergeable(b, c, rev) && Owner(bk, base, x).Some?
            && Merge(b, c, rev) == CopyUnder(base, ck, cand, rev, start, names, candNames, Owner(bk, base, x).value, x)
            && Merge(b, c, rev).gid == Some(start + Owner(bk, base, x).value)
  {
    hide IndexScan, Owner, Merge, Mergeable, Claims;
    IndexedByOwner(bk, base, start, x);
    IndexedByOwner(ck, cand, start + |base|, x);
    var o, j := Owner(bk, base, x).value, Owner(ck, cand, x).value;
    assert Fits(base[o], Shape(names, false)) && Fits(cand[j], Shape(candNames, false));
    UntaggedMerge(base[o], cand[j], rev, start + o, start + |base| + j, names);
    CompatibleMerges(Tag(base[o], start + o), Tag(cand[j], start + |base| + j), names, rev);
    CompatibleMerges(base[o], cand[j], names, rev);
  }

  lemma {:induction false} MatchedGroup(bk: string, base: seq<Fingerprint>, ck: string, cand: seq<Fingerprint>,
                                        rev: ReverseKeys,
                                        start: nat, names: seq<string>, candNames: seq<string>, o: nat, ks: seq<Scalar>)
    requires PassInputs(base, cand, rev, names, candNames) && o < |base|
    requires var b, c := IndexScan(bk, base, start).dict.vals, IndexScan(ck, cand, start + |base|).dict.vals;
             Meets(b, c, names, rev) && forall i :: 0 <= i < |ks| ==> ks[i] in c
    ensures var b, c := IndexScan(bk, base, start).dict.vals, IndexScan(ck, cand, start + |base|).dict.vals;
            Group(GlobalId, Matched(ks, b, c, rev, names), Uid(start + o), Shape(names, true))
            == CopiesUnder(base, ck, cand, rev, start, names, candNames, o, OwnedBy(bk, base, ks, o))
  {
    hide IndexScan, Meets, Merge, Mergeable, Matched, Fits, Group, CopyUnder, Owner, PassInputs;
    var b, c := IndexScan(bk, base, start).dict.vals, IndexScan(ck, cand, start + |base|).dict.vals;
    if ks == [] {
      MatchedNone(b, c, rev, names);
      EmptyGroup(start + o, Shape(names, true));
    } else {
      var front, last := ks[..|ks| - 1], ks[|ks| - 1];
      MatchedGroup(bk, base, ck, cand, rev, start, names, candNames, o, front);
      assert ks[..|ks| - 1 + 1] == ks;
      MatchedStep(ks, |ks| - 1, b, c, rev, names);
      IndexedByOwner(bk, base, start, last);
      var m := Matched(front, b, c, rev, names);
      if last in b {
        MergeIsCopy(bk, base, ck, cand, rev, start, names, candNames, last);
        MergeFits(b, c, rev, names, last);
        GroupSnoc(m, Merge(b[last], c[last], rev), start + o, Shape(names, true));
      } else {
        assert m + [] == m;
      }
    }
  }

  lemma MergeFits(b: Entries, c: Entries, rev: ReverseKeys, names: seq<string>, x: Scalar)
    requires Meets(b, c, names, rev) && x in b && x in c
    ensures Mergeable(b[x], c[x], rev) && Fits(Merge(b[x], c[x], rev), Shape(names, true))
  {
    hide Merge, Mergeable;
    CompatibleMerges(b[x], c[x], names, rev);
  }

  lemma {:induction false} ApartGroup(bk: string, base: seq<Fingerprint>, ck: string, cand: seq<Fingerprint>,
                                      rev: ReverseKeys,
                                      start: nat, names: seq<string>, candNames: seq<string>, o: nat, ks: seq<Scalar>)
    requires PassInputs(base, cand, rev, names, candNames) && o < |base|
    requires var b := IndexScan(bk, base, start).dict.vals;
             (forall i :: 0 <= i < |ks| ==> ks[i] in b) && forall x :: x in b ==> Fits(b[x], Shape(names, true))
    ensures var b, c := IndexScan(bk, base, start).dict.vals, IndexScan(ck, cand, start + |base|).dict.vals;
            && AllFit(Apart(ks, b, c), Shape(names, true))
            && Group(GlobalId, Apart(ks, b, c), Uid(start + o), Shape(names, true))
               == CopiesUnder(base, ck, cand, rev, start, names, candNames, o, OwnedAlone(bk, base, ck, cand, ks, o))
  {
    hide IndexScan, Fits, Group, Merge, Owner, PassInputs, Claims;
    var b, c := IndexScan(bk, base, start).dict.vals, IndexScan(ck, cand, start + |base|).dict.vals;
    if ks == [] {
      EmptyGroup(start + o, Shape(names, true));
    } else {
      var front, last := ks[..|ks| - 1], ks[|ks| - 1];
      ApartGroup(bk, base, ck, cand, rev, start, names, candNames, o, front);
      IndexedByOwner(bk, base, start, last);
      IndexedByOwner(ck, cand, start + |base|, last);
      if last !in c {
        GroupSnoc(Apart(front, b, c), b[last], start + o, Shape(names, true));
      }
    }
  }

  /** The copies with one id, as the pass lists them. */
  lemma CopiesGroup(bk: string, base: seq<Fingerprint>, ck: string, cand: seq<Fingerprint>, rev: ReverseKeys,
                    start: nat, names: seq<string>, candNames: seq<string>, o: nat)
    requires PassInputs(base, cand, rev, names, candNames) && o < |base|
    requires var bi, ci := IndexScan(bk, base, start), IndexScan(ck, cand, start + |base|);
             && Meets(bi.dict.vals, ci.dict.vals, names, rev) && AllFit(bi.noKey, Shape(names, true))
             && forall x :: x in bi.dict.vals ==> Fits(bi.dict.vals[x], Shape(names, true))
    ensures var bi, ci := IndexScan(bk, base, start), IndexScan(ck, cand, start + |base|);
            Group(GlobalId, BaseCopies(bi, ci, rev, names), Uid(start + o), Shape(names, true))
            == CopiesOf(bk, base, ck, cand, rev, start, names, candNames, o)
  {
    hide IndexScan, Meets, Matched, Apart, Fits, Group, CopiesUnder, Owner, Claims, PassInputs, OwnedBy, OwnedAlone,
         KeyOrder;
    var sh, id := Shape(names, true), Uid(start + o);
    var bi, ci := IndexScan(bk, base, start), IndexScan(ck, cand, start + |base|);
    var m := Matched(ci.dict.keys, bi.dict.vals, ci.dict.vals, rev, names);
    var a := Apart(bi.dict.keys, bi.dict.vals, ci.dict.vals);
    assert AllFit(base, Shape(names, false)) by { InputsFit(base, cand, rev, names, candNames); }
    KeylessGroup(bk, base, start, names, o);
    MatchedGroup(bk, base, ck, cand, rev, start, names, candNames, o, ci.dict.keys);
    ApartGroup(bk, base, ck, cand, rev, start, names, candNames, o, bi.dict.keys);
    IndexOrder(bk, base, start);
    IndexOrder(ck, cand, start + |base|);
    GroupConcat(GlobalId, bi.noKey, m, id, sh);
    GroupConcat(GlobalId, bi.noKey + m, a, id, sh);
  }

  lemma InputsFit(base: seq<Fingerprint>, cand: seq<Fingerprint>, rev: ReverseKeys, names: seq<string>,
                  candNames: seq<string>)
    requires PassInputs(base, cand, rev, names, candNames)
    ensures AllFit(base, Shape(names, false)) && AllFit(cand, Shape(candNames, false))
  {
  }

  /** A folded list by global id: every output is the fold of the copies with its id. */
  lemma FoldedOutput(copies: seq<Fingerprint>, names: seq<string>, p: nat)
    requires AllFit(copies, Shape(names, true)) && p < |DedupPass(GlobalId, copies, Shape(names, true))|
    ensures var e, sh := DedupPass(GlobalId, copies, Shape(names, true))[p], Shape(names, true);
            && e.gid.Some? && Holds(copies, e.gid.value)
            && Group(GlobalId, copies, Uid(e.gid.value), sh) != []
            && e == FoldMerge(Group(GlobalId, copies, Uid(e.gid.value), sh), sh)
  {
    hide DedupScan, Built, Group, FoldMerge;
    var sh := Shape(names, true);
    var st := DedupScan(GlobalId, copies, sh);
    NoneUntagged(st.noKey, names);
    var x := st.dict.keys[p];
    ScanGroup(GlobalId, copies, x, sh);
    var o := EntryOrigin(GlobalId, GlobalId, copies, x, sh);
    assert Get(copies[o], GlobalId) == One(x) && Get(st.dict.vals[x], GlobalId) == One(x);
  }

  /** What the base outputs are folded from. */
  lemma BaseFolded(bk: string, base: seq<Fingerprint>, ck: string, cand: seq<Fingerprint>, rev: ReverseKeys, start: nat,
                   names: seq<string>, candNames: seq<string>)
    returns (copies: seq<Fingerprint>)
    requires PassInputs(base, cand, rev, names, candNames)
    ensures AllFit(copies, Shape(names, true))
    ensures TaggedPass(bk, base, ck, cand, rev, start, names, candNames).base
            == DedupPass(GlobalId, copies, Shape(names, true))
    ensures forall id: nat :: Holds(copies, id) ==> start <= id < start + |base|
    ensures forall id: nat :: start <= id < start + |base| ==>
              Group(GlobalId, copies, Uid(id), Shape(names, true))
              == CopiesOf(bk, base, ck, cand, rev, start, names, candNames, id - start)
  {
    hide IndexScan, Meets, Fits, DedupPass, Holds, BaseCopies, CopiesOf, Occurs, Group;
    var bi, ci := IndexScan(bk, base, start), IndexScan(ck, cand, start + |base|);
    IndexFits(bk, base, start, names);
    IndexesMeet(bk, base, ck, cand, rev, start, names, candNames);
    copies := BaseCopies(bi, ci, rev, names);
    forall id: nat | Holds(copies, id) ensures start <= id < start + |base| {
      BaseCopiesHold(bi, ci, rev, names, id);
      OccursOnlyListed(bk, base, start, id);
    }
    forall id: nat | start <= id < start + |base|
      ensures Group(GlobalId, copies, Uid(id), Shape(names, true))
              == CopiesOf(bk, base, ck, cand, rev, start, names, candNames, id - start)
    {
      CopiesGroup(bk, base, ck, cand, rev, start, names, candNames, id - start);
    }
  }

  ghost predicate IsFold(e: Fingerprint, copies: seq<Fingerprint>, sh: Shape) {
    copies != [] && AllFit(copies, sh) && e == FoldMerge(copies, sh)
  }

  /** The base that a base output is named after. */
  ghost predicate NamedAfter(e: Fingerprint, base: seq<Fingerprint>, start: nat, o: nat) {
    o < |base| && e.gid == Some(start + o)
  }

  /** Every base output is the fold of the copies of the base it is named after. */
  lemma BaseOutputIs(bk: string, base: seq<Fingerprint>, ck: string, cand: seq<Fingerprint>, rev: ReverseKeys,
                     start: nat, names: seq<string>, candNames: seq<string>, p: nat) returns (o: nat)
    requires PassInputs(base, cand, rev, names, candNames)
    requires p < |TaggedPass(bk, base, ck, cand, rev, start, names, candNames).base|
    ensures NamedAfter(TaggedPass(bk, base, ck, cand, rev, start, names, candNames).base[p], base, start, o)
            && o < |base|
    ensures IsFold(TaggedPass(bk, base, ck, cand, rev, start, names, candNames).base[p],
                   CopiesOf(bk, base, ck, cand, rev, start, names, candNames, o), Shape(names, true))
  {
    hide TaggedPass, DedupPass, Holds, CopiesOf, FoldMerge, AllFit, PassInputs, Group, Unkeyed, KeysInOrder;
    var copies := BaseFolded(bk, base, ck, cand, rev, start, names, candNames);
    var e := TaggedPass(bk, base, ck, cand, rev, start, names, candNames).base[p];
    FoldedOutput(copies, names, p);
    o := e.gid.value - start;
  }

  /* ---------- sources ---------- */

  lemma {:induction false} FoldSources(g: seq<Fingerprint>, sh: Shape)
    requires g != [] && AllFit(g, sh)
    ensures FoldMerge(g, sh).sources.Keys == SourcesOf(g)
  {
    hide Merge, Mergeable, Fits, SourcesOf;
    if |g| == 1 {
      assert g == [] + [g[0]];
      SourcesSnoc([], g[0]);
      NoSources();
    } else {
      var front, last := g[..|g| - 1], g[|g| - 1];
      FoldSources(front, sh);
      assert g == front + [last];
      SourcesSnoc(front, last);
      FitMerge(FoldMerge(front, sh), last, sh);
    }
  }

  /** Base o and candidate j own a common key. */
  ghost predicate Met(bk: string, base: seq<Fingerprint>, ck: string, cand: seq<Fingerprint>, o: nat, j: nat) {
    exists x :: Owner(bk, base, x) == Some(o) && Owner(ck, cand, x) == Some(j)
  }

  lemma CopySources(base: seq<Fingerprint>, ck: string, cand: seq<Fingerprint>, rev: ReverseKeys, start: nat,
                    names: seq<string>, candNames: seq<string>, o: nat, x: Scalar)
    requires PassInputs(base, cand, rev, names, candNames) && o < |base|
    ensures var j := Owner(ck, cand, x);
            CopyUnder(base, ck, cand, rev, start, names, candNames, o, x).sources.Keys
            == base[o].sources.Keys + if j.Some? then cand[j.value].sources.Keys else {}
  {
    hide Merge, Mergeable, Owner, Claims;
    var j := Owner(ck, cand, x);
    if j.Some? {
      assert Fits(base[o], Shape(names, false)) && Fits(cand[j.value], Shape(candNames, false));
      CompatibleMerges(base[o], cand[j.value], names, rev);
    }
  }

  lemma {:induction false} OwnedByIff(bk: string, base: seq<Fingerprint>, ks: seq<Scalar>, o: nat, x: Scalar)
    ensures x in OwnedBy(bk, base, ks, o) <==> x in ks && Owner(bk, base, x) == Some(o)
  {
    hide Owner;
    if ks != [] {
      OwnedByIff(bk, base, ks[..|ks| - 1], o, x);
      assert ks == ks[..|ks| - 1] + [ks[|ks| - 1]];
    }
  }

  lemma {:induction false} OwnedAloneIff(bk: string, base: seq<Fingerprint>, ck: string, cand: seq<Fingerprint>,
                                         ks: seq<Scalar>, o: nat, x: Scalar)
    ensures x in OwnedAlone(bk, base, ck, cand, ks, o) <==>
            x in ks && Owner(bk, base, x) == Some(o) && Owner(ck, cand, x).None?
  {
    hide Owner;
    if ks != [] {
      OwnedAloneIff(bk, base, ck, cand, ks[..|ks| - 1], o, x);
      assert ks == ks[..|ks| - 1] + [ks[|ks| - 1]];
    }
  }

  lemma OrderListsOwned(name: string, fps: seq<Fingerprint>, x: Scalar)
    ensures x in KeyOrder(name, fps) <==> Owner(name, fps, x).Some?
  {
    hide IndexScan, Owner, Claims, KeyOrder;
    IndexOrder(name, fps, 0);
    IndexedByOwner(name, fps, 0, x);
  }

  /** A copy carries the sources of its base, and of a candidate that the base meets. */
  lemma CopySourceOrigin(bk: string, base: seq<Fingerprint>, ck: string, cand: seq<Fingerprint>, rev: ReverseKeys,
                         start: nat, names: seq<string>, candNames: seq<string>, o: nat, n: nat, s: string)
    requires PassInputs(base, cand, rev, names, candNames) && o < |base|
    requires n < |CopiesOf(bk, base, ck, cand, rev, start, names, candNames, o)|
    ensures var e := CopiesOf(bk, base, ck, cand, rev, start, names, candNames, o)[n];
            && base[o].sources.Keys <= e.sources.Keys
            && (s in e.sources ==>
                  || s in base[o].sources
                  || exists j :: 0 <= j < |cand| && Met(bk, base, ck, cand, o, j) && s in cand[j].sources)
  {
    hide CopyUnder, Owner, Claims, PassInputs, OwnedBy, OwnedAlone, KeyOrder;
    var met, alone := OwnedBy(bk, base, KeyOrder(ck, cand), o), OwnedAlone(bk, base, ck, cand, KeyOrder(bk, base), o);
    var first := if Claims(base[o], bk) == [] then 1 else 0;
    if n >= first {
      var x := if n - first < |met| then met[n - first] else alone[n - first - |met|];
      CopySources(base, ck, cand, rev, start, names, candNames, o, x);
      OwnedByIff(bk, base, KeyOrder(ck, cand), o, x);
      OwnedAloneIff(bk, base, ck, cand, KeyOrder(bk, base), o, x);
      assert Owner(bk, base, x) == Some(o);
      if Owner(ck, cand, x).Some? {
        assert Met(bk, base, ck, cand, o, Owner(ck, cand, x).value);
      }
    }
  }

  /** The candidate that a base meets is in one of its copies. */
  lemma MetIsCopied(bk: string, base: seq<Fingerprint>, ck: string, cand: seq<Fingerprint>, rev: ReverseKeys,
                    start: nat, names: seq<string>, candNames: seq<string>, o: nat, j: nat) returns (n: nat)
    requires PassInputs(base, cand, rev, names, candNames) && o < |base| && j < |cand| && Met(bk, base, ck, cand, o, j)
    ensures n < |CopiesOf(bk, base, ck, cand, rev, start, names, candNames, o)|
    ensures cand[j].sources.Keys <= CopiesOf(bk, base, ck, cand, rev, start, names, candNames, o)[n].sources.Keys
  {
    hide CopyUnder, Owner, Claims, PassInputs, OwnedBy, OwnedAlone, KeyOrder;
    var x :| Owner(bk, base, x) == Some(o) && Owner(ck, cand, x) == Some(j);
    OrderListsOwned(ck, cand, x);
    OwnedByIff(bk, base, KeyOrder(ck, cand), o, x);
    var met := OwnedBy(bk, base, KeyOrder(ck, cand), o);
    var i :| 0 <= i < |met| && met[i] == x;
    CopySources(base, ck, cand, rev, start, names, candNames, o, x);
    n := i + if Claims(base[o], bk) == [] then 1 else 0;
  }

  /** A base output carries the sources of its base and of exactly the candidates that own a key
      which its base owns. */
  lemma BaseOutputSources(bk: string, base: seq<Fingerprint>, ck: string, cand: seq<Fingerprint>, rev: ReverseKeys,
                          start: nat, names: seq<string>, candNames: seq<string>, p: nat, s: string) returns (o: nat)
    requires PassInputs(base, cand, rev, names, candNames)
    requires p < |TaggedPass(bk, base, ck, cand, rev, start, names, candNames).base|
    ensures NamedAfter(TaggedPass(bk, base, ck, cand, rev, start, names, candNames).base[p], base, start, o)
            && o < |base|
    ensures s in TaggedPass(bk, base, ck, cand, rev, start, names, candNames).base[p].sources <==>
            s in base[o].sources || exists j :: 0 <= j < |cand| && Met(bk, base, ck, cand, o, j) && s in cand[j].sources
  {
    hide TaggedPass, CopiesOf, FoldMerge, Fits, PassInputs, Met;
    o := BaseOutputIs(bk, base, ck, cand, rev, start, names, candNames, p);
    var copies := CopiesOf(bk, base, ck, cand, rev, start, names, candNames, o);
    FoldSources(copies, Shape(names, true));
    CopySourceOrigin(bk, base, ck, cand, rev, start, names, candNames, o, 0, s);
    if s in SourcesOf(copies) {
      var n :| 0 <= n < |copies| && s in copies[n].sources;
      CopySourceOrigin(bk, base, ck, cand, rev, start, names, candNames, o, n, s);
    }
    if j :| 0 <= j < |cand| && Met(bk, base, ck, cand, o, j) && s in cand[j].sources {
      var n := MetIsCopied(bk, base, ck, cand, rev, start, names, candNames, o, j);
    }
  }

  lemma {:induction false} GroupMember(k: IdKey, fps: seq<Fingerprint>, x: Scalar, sh: Shape, n: nat)
    requires AllFit(fps, sh) && n < |Group(k, fps, x, sh)|
    ensures Group(k, fps, x, sh)[n] in fps && Get(Group(k, fps, x, sh)[n], k) == One(x)
  {
    hide Fits, Get, Truthy;
    var front := fps[..|fps| - 1];
    if n < |Group(k, front, x, sh)| {
      GroupMember(k, front, x, sh, n);
    }
  }

  /** Copies of one listed fingerprint fold to its own sources. */
  lemma CopiesOfOne(copies: seq<Fingerprint>, fps: seq<Fingerprint>, start: nat, names: seq<string>, id: nat)
    requires AllFit(copies, Shape(names, true)) && forall i :: 0 <= i < |copies| ==> FromList(copies[i], fps, start)
    requires start <= id < start + |fps| && Group(GlobalId, copies, Uid(id), Shape(names, true)) != []
    ensures FoldMerge(Group(GlobalId, copies, Uid(id), Shape(names, true)), Shape(names, true)).sources.Keys
            == fps[id - start].sources.Keys
  {
    hide Fits, FoldMerge, Group;
    var g := Group(GlobalId, copies, Uid(id), Shape(names, true));
    FoldSources(g, Shape(names, true));
    forall n | 0 <= n < |g| ensures g[n].sources == fps[id - start].sources {
      GroupMember(GlobalId, copies, Uid(id), Shape(names, true), n);
      var i :| 0 <= i < |copies| && copies[i] == g[n];
    }
    assert g[0].sources == fps[id - start].sources;
  }

  /** All copies of candidate j that are carried on: one if it has no key, and otherwise one for
      each key it owns that no base claims. */
  function CarriedCopies(bk: string, base: seq<Fingerprint>, ck: string, cand: seq<Fingerprint>, start: nat, j: nat)
    : seq<Fingerprint>
    requires j < |cand|
  {
    var keys := OwnedAlone(ck, cand, bk, base, KeyOrder(ck, cand), j);
    (if Claims(cand[j], ck) == [] then [Tag(cand[j], start + |base| + j)] else [])
    + seq(|keys|, _ => Tag(cand[j], start + |base| + j))
  }

  lemma {:induction false} CarriedGroup(bk: string, base: seq<Fingerprint>, ck: string, cand: seq<Fingerprint>,
                                        start: nat, mid: nat, names: seq<string>, j: nat, ks: seq<Scalar>)
    requires j < |cand|
    requires var c := IndexScan(ck, cand, mid).dict.vals;
             (forall i :: 0 <= i < |ks| ==> ks[i] in c) && forall x :: x in c ==> Fits(c[x], Shape(names, true))
    ensures var b, c := IndexScan(bk, base, start).dict.vals, IndexScan(ck, cand, mid).dict.vals;
            && AllFit(Apart(ks, c, b), Shape(names, true))
            && Group(GlobalId, Apart(ks, c, b), Uid(mid + j), Shape(names, true))
               == seq(|OwnedAlone(ck, cand, bk, base, ks, j)|, _ => Tag(cand[j], mid + j))
  {
    hide IndexScan, Fits, Group, Owner, Claims;
    var b, c := IndexScan(bk, base, start).dict.vals, IndexScan(ck, cand, mid).dict.vals;
    if ks == [] {
      EmptyGroup(mid + j, Shape(names, true));
    } else {
      var front, last := ks[..|ks| - 1], ks[|ks| - 1];
      CarriedGroup(bk, base, ck, cand, start, mid, names, j, front);
      IndexedByOwner(bk, base, start, last);
      IndexedByOwner(ck, cand, mid, last);
      if last !in b {
        GroupSnoc(Apart(front, c, b), c[last], mid + j, Shape(names, true));
      }
    }
  }

  lemma CarriedCopiesGroup(bk: string, base: seq<Fingerprint>, ck: string, cand: seq<Fingerprint>, start: nat,
                           candNames: seq<string>, j: nat)
    requires AllFit(cand, Shape(candNames, false)) && j < |cand|
    ensures var bi, ci := IndexScan(bk, base, start), IndexScan(ck, cand, start + |base|);
            && AllFit(CandCopies(bi, ci), Shape(candNames, true))
            && Group(GlobalId, CandCopies(bi, ci), Uid(start + |base| + j), Shape(candNames, true))
               == CarriedCopies(bk, base, ck, cand, start, j)
  {
    hide IndexScan, Apart, Fits, Group, Owner, Claims, OwnedAlone, KeyOrder;
    var sh, mid := Shape(candNames, true), start + |base|;
    var bi, ci := IndexScan(bk, base, start), IndexScan(ck, cand, mid);
    IndexFits(ck, cand, mid, candNames);
    KeylessGroup(ck, cand, mid, candNames, j);
    CarriedGroup(bk, base, ck, cand, start, mid, candNames, j, ci.dict.keys);
    IndexOrder(ck, cand, mid);
    GroupConcat(GlobalId, ci.noKey, Apart(ci.dict.keys, ci.dict.vals, bi.dict.vals), Uid(mid + j), sh);
  }

  /** Every carried output is the fold of the carried copies of the candidate it is named after. */
  lemma CarriedOutputIs(bk: string, base: seq<Fingerprint>, ck: string, cand: seq<Fingerprint>, rev: ReverseKeys,
                        start: nat, names: seq<string>, candNames: seq<string>, p: nat) returns (j: nat)
    requires PassInputs(base, cand, rev, names, candNames)
    requires p < |TaggedPass(bk, base, ck, cand, rev, start, names, candNames).cand|
    ensures NamedAfter(TaggedPass(bk, base, ck, cand, rev, start, names, candNames).cand[p], cand, start + |base|, j)
            && j < |cand|
    ensures IsFold(TaggedPass(bk, base, ck, cand, rev, start, names, candNames).cand[p],
                   CarriedCopies(bk, base, ck, cand, start, j), Shape(candNames, true))
  {
    hide TaggedPass, DedupPass, FoldMerge, AllFit, Group, CandCopies, IndexScan, Dict.Valid, CarriedCopies;
    var copies := CandFolded(bk, base, ck, cand, rev, start, names, candNames);
    var e := TaggedPass(bk, base, ck, cand, rev, start, names, candNames).cand[p];
    FoldedOutput(copies, candNames, p);
    var i :| 0 <= i < |copies| && copies[i].gid == Some(e.gid.value);
    assert FromList(copies[i], cand, start + |base|);
    j := e.gid.value - start - |base|;
    CarriedCopiesGroup(bk, base, ck, cand, start, candNames, j);
  }

  /** A carried candidate carries its own sources only. */
  lemma CarriedOutputSources(bk: string, base: seq<Fingerprint>, ck: string, cand: seq<Fingerprint>, rev: ReverseKeys,
                             start: nat, names: seq<string>, candNames: seq<string>, p: nat) returns (j: nat)
    requires PassInputs(base, cand, rev, names, candNames)
    requires p < |TaggedPass(bk, base, ck, cand, rev, start, names, candNames).cand|
    ensures NamedAfter(TaggedPass(bk, base, ck, cand, rev, start, names, candNames).cand[p], cand, start + |base|, j)
            && j < |cand|
    ensures TaggedPass(bk, base, ck, cand, rev, start, names, candNames).cand[p].sources.Keys == cand[j].sources.Keys
  {
    hide TaggedPass, DedupPass, FoldMerge, AllFit, PassInputs, Group, CandCopies, IndexScan, Dict.Valid;
    var copies := CandFolded(bk, base, ck, cand, rev, start, names, candNames);
    var e := TaggedPass(bk, base, ck, cand, rev, start, names, candNames).cand[p];
    FoldedOutput(copies, candNames, p);
    var i :| 0 <= i < |copies| && copies[i].gid == Some(e.gid.value);
    assert FromList(copies[i], cand, start + |base|);
    CopiesOfOne(copies, cand, start + |base|, candNames, e.gid.value);
    j := e.gid.value - start - |base|;
  }

  /** The source belongs to this candidate alone. */
  ghost predicate OnlyIn(base: seq<Fingerprint>, cand: seq<Fingerprint>, j: nat, s: string) {
    && j < |cand| && s in cand[j].sources
    && (forall i :: 0 <= i < |base| ==> s !in base[i].sources)
    && (forall i :: 0 <= i < |cand| && i != j ==> s !in cand[i].sources)
  }

  lemma MergedIff(bk: string, base: seq<Fingerprint>, ck: string, cand: seq<Fingerprint>, rev: ReverseKeys, start: nat,
                  names: seq<string>, candNames: seq<string>, j: nat, s: string)
    requires PassInputs(base, cand, rev, names, candNames) && OnlyIn(base, cand, j, s)
    ensures s in SourcesOf(TaggedPass(bk, base, ck, cand, rev, start, names, candNames).base) <==>
            OwnsKey(bk, base, ck, cand, j, true)
  {
    hide TaggedPass, Owner, PassInputs, Claims;
    var t := TaggedPass(bk, base, ck, cand, rev, start, names, candNames).base;
    if s in SourcesOf(t) {
      var p :| 0 <= p < |t| && s in t[p].sources;
      var o := BaseOutputSources(bk, base, ck, cand, rev, start, names, candNames, p, s);
      var i :| 0 <= i < |cand| && Met(bk, base, ck, cand, o, i) && s in cand[i].sources;
      assert i == j;
    }
    if OwnsKey(bk, base, ck, cand, j, true) {
      var x :| Owner(ck, cand, x) == Some(j) && Owner(bk, base, x).Some? == true;
      MergeReachesItsBase(bk, base, ck, cand, rev, start, names, candNames, x, Owner(bk, base, x).value, j);
    }
  }

  lemma CarriedAloneIff(bk: string, base: seq<Fingerprint>, ck: string, cand: seq<Fingerprint>, rev: ReverseKeys,
                        start: nat, names: seq<string>, candNames: seq<string>, j: nat, s: string)
    requires PassInputs(base, cand, rev, names, candNames) && OnlyIn(base, cand, j, s)
    ensures s in SourcesOf(TaggedPass(bk, base, ck, cand, rev, start, names, candNames).cand) <==>
            Claims(cand[j], ck) == [] || OwnsKey(bk, base, ck, cand, j, false)
  {
    hide TaggedPass, OwnsKey, PassInputs, Claims;
    var t := TaggedPass(bk, base, ck, cand, rev, start, names, candNames).cand;
    CarriedIff(bk, base, ck, cand, rev, start, names, candNames, j);
    if s in SourcesOf(t) {
      var p :| 0 <= p < |t| && s in t[p].sources;
      var i := CarriedOutputSources(bk, base, ck, cand, rev, start, names, candNames, p);
      assert i == j;
    }
    if Holds(t, start + |base| + j) {
      CarriedReachesOutput(bk, base, ck, cand, rev, start, names, candNames, j);
    }
  }

  /** A candidate is reported twice, in a base output and on its own, exactly when it owns a key
      that some base claims and a key that none claims. */
  lemma ReportedTwiceIff(bk: string, base: seq<Fingerprint>, ck: string, cand: seq<Fingerprint>, rev: ReverseKeys,
                         start: nat, names: seq<string>, candNames: seq<string>, j: nat, s: string)
    requires PassInputs(base, cand, rev, names, candNames) && OnlyIn(base, cand, j, s)
    ensures var r := Pass(bk, base, ck, cand, rev, start, names, candNames);
            s in SourcesOf(r.base) && s in SourcesOf(r.cand) <==>
            OwnsKey(bk, base, ck, cand, j, true) && OwnsKey(bk, base, ck, cand, j, false)
  {
    hide TaggedPass, PassInputs, SourcesOf, Claims, Owner;
    var t := TaggedPass(bk, base, ck, cand, rev, start, names, candNames);
    MergedIff(bk, base, ck, cand, rev, start, names, candNames, j, s);
    CarriedAloneIff(bk, base, ck, cand, rev, start, names, candNames, j, s);
    UntaggedSources(t.base);
    UntaggedSources(t.cand);
    if x :| Owner(ck, cand, x) == Some(j) {
      assert x in Claims(cand[j], ck);
    }
  }
}
