/** Facts through a merge pass: a merge reaches the base it matched, facts only the base
    carries stay with it, carried candidates keep theirs, and unique keys stay unique. */
module PassFacts {
  import opened OrderedDict
  import opened Fingerprints
  import opened MergeLaws
  import opened Dedup
  import opened Index
  import opened MergePass
  import opened PassLaws

  /* ---------- folding copies ---------- */

  /** The entry of a group has the sources of every member. */
  lemma {:induction false} GroupSources(k: IdKey, fps: seq<Fingerprint>, sh: Shape, i: nat)
    requires AllFit(fps, sh) && ScalarKeyed(k, fps) && i < |fps| && Truthy(Get(fps[i], k))
    ensures Get(fps[i], k).v in DedupScan(k, fps, sh).dict.vals
    ensures fps[i].sources.Keys <= DedupScan(k, fps, sh).dict.vals[Get(fps[i], k).v].sources.Keys
  {
    hide Merge, Fits, Mergeable, Get;
    var front, last := fps[..|fps| - 1], |fps| - 1;
    var st := DedupScan(k, front, sh);
    if i < last {
      GroupSources(k, front, sh, i);
    }
    if Truthy(Get(fps[last], k)) && Get(fps[last], k).v in st.dict.vals {
      FitMerge(st.dict.vals[Get(fps[last], k).v], fps[last], sh);
    }
  }

  /** If all members of a group carry the same pair for a fact, so does its entry. */
  lemma {:induction false} GroupCell(k: IdKey, fps: seq<Fingerprint>, sh: Shape, x: Scalar, name: string, c: Cell)
    requires AllFit(fps, sh) && ScalarKeyed(k, fps)
    requires x in DedupScan(k, fps, sh).dict.vals
    requires forall i :: 0 <= i < |fps| && Get(fps[i], k) == One(x) ==> FactAt(fps[i], name) == c
    ensures FactAt(DedupScan(k, fps, sh).dict.vals[x], name) == c
  {
    hide Merge, Mergeable, FactAt, Fits, Get;
    var front, last := fps[..|fps| - 1], |fps| - 1;
    var st := DedupScan(k, front, sh);
    if x in st.dict.vals {
      GroupCell(k, front, sh, x, name, c);
      if Truthy(Get(fps[last], k)) && Get(fps[last], k).v == x {
        SameCellMerges(st.dict.vals[x], fps[last], sh, name, c);
      }
    }
  }

  lemma SameCellMerges(p: Fingerprint, m: Fingerprint, sh: Shape, name: string, c: Cell)
    requires Fits(p, sh) && Fits(m, sh) && FactAt(p, name) == c && FactAt(m, name) == c
    ensures Mergeable(p, m, NotGiven) && FactAt(Merge(p, m, NotGiven), name) == c
  {
    hide Merge, Mergeable, FactAt;
    FitMerge(p, m, sh);
    MergeFactAt(p, m, NotGiven, name);
  }

  /** e carries, for the fact, the pair of the fingerprint its global id names. */
  predicate CellFrom(e: Fingerprint, fps: seq<Fingerprint>, start: nat, name: string) {
    && e.gid.Some?
    && start <= e.gid.value < start + |fps|
    && FactAt(e, name) == FactAt(fps[e.gid.value - start], name)
  }

  lemma FoldedCells(copies: seq<Fingerprint>, fps: seq<Fingerprint>, start: nat, names: seq<string>, name: string,
                    p: nat)
    requires AllFit(copies, Shape(names, true))
    requires forall i :: 0 <= i < |copies| ==> CellFrom(copies[i], fps, start, name)
    requires p < |DedupPass(GlobalId, copies, Shape(names, true))|
    ensures CellFrom(DedupPass(GlobalId, copies, Shape(names, true))[p], fps, start, name)
  {
    hide DedupScan, Built, FactAt;
    var sh := Shape(names, true);
    var st := DedupScan(GlobalId, copies, sh);
    assert |st.noKey| > 0 ==> Fits(st.noKey[0], sh);
    assert st.noKey == [];
    var x := st.dict.keys[p];
    var o := EntryOrigin(GlobalId, GlobalId, copies, x, sh);
    var e := st.dict.vals[x];
    assert e.gid == copies[o].gid;
    GroupCell(GlobalId, copies, sh, x, name, FactAt(fps[copies[o].gid.value - start], name));
  }

  /* ---------- facts of one side ---------- */

  predicate Lacks(fps: seq<Fingerprint>, name: string) {
    forall i :: 0 <= i < |fps| ==> name !in fps[i].facts
  }

  lemma ListedCell(v: Fingerprint, fps: seq<Fingerprint>, start: nat, name: string)
    requires FromList(v, fps, start)
    ensures CellFrom(v, fps, start, name)
  {
  }

  lemma ApartCells(ks: seq<Scalar>, d: Entries, other: Entries, fps: seq<Fingerprint>, start: nat, name: string)
    requires forall i :: 0 <= i < |ks| ==> ks[i] in d
    requires forall x :: x in d ==> FromList(d[x], fps, start)
    ensures forall i :: 0 <= i < |Apart(ks, d, other)| ==> CellFrom(Apart(ks, d, other)[i], fps, start, name)
  {
    hide FromList, CellFrom;
    var r := Apart(ks, d, other);
    forall i | 0 <= i < |r| ensures CellFrom(r[i], fps, start, name) {
      var x :| x in d && r[i] == d[x];
      ListedCell(d[x], fps, start, name);
    }
  }

  lemma MatchedCell(b: Fingerprint, c: Fingerprint, rev: ReverseKeys, base: seq<Fingerprint>, start: nat,
                    names: seq<string>, name: string)
    requires Compatible(b, c, names, rev) && FromList(b, base, start)
    requires name !in c.facts && name !in rev.Effective()
    ensures Mergeable(b, c, rev) && CellFrom(Merge(b, c, rev), base, start, name)
  {
    CompatibleMerges(b, c, names, rev);
    MergeFactAt(b, c, rev, name);
  }

  lemma {:induction false} MatchedCells(ks: seq<Scalar>, b: Entries, c: Entries, rev: ReverseKeys, names: seq<string>,
                                        base: seq<Fingerprint>, start: nat, name: string)
    requires Meets(b, c, names, rev) && forall i :: 0 <= i < |ks| ==> ks[i] in c
    requires forall x :: x in b ==> FromList(b[x], base, start)
    requires forall x :: x in c ==> name !in c[x].facts
    requires name !in rev.Effective()
    ensures forall i :: 0 <= i < |Matched(ks, b, c, rev, names)| ==>
            CellFrom(Matched(ks, b, c, rev, names)[i], base, start, name)
  {
    hide FromList, CellFrom, Merge, Mergeable, Compatible, Fits;
    if ks != [] {
      var front, last := ks[..|ks| - 1], ks[|ks| - 1];
      MatchedCells(front, b, c, rev, names, base, start, name);
      if last in b {
        MatchedCell(b[last], c[last], rev, base, start, names, name);
      }
    }
  }

  lemma IndexLacks(name: string, ck: string, cand: seq<Fingerprint>, start: nat)
    requires Lacks(cand, name)
    ensures forall x :: x in IndexScan(ck, cand, start).dict.vals ==>
            name !in IndexScan(ck, cand, start).dict.vals[x].facts
  {
    hide IndexScan;
  }

  lemma BaseCopiesCells(bk: string, base: seq<Fingerprint>, ck: string, cand: seq<Fingerprint>, rev: ReverseKeys,
                        start: nat, names: seq<string>, candNames: seq<string>, name: string)
    requires PassInputs(base, cand, rev, names, candNames) && Lacks(cand, name) && name !in rev.Effective()
    ensures var bi, ci := IndexScan(bk, base, start), IndexScan(ck, cand, start + |base|);
            && Meets(bi.dict.vals, ci.dict.vals, names, rev) && AllFit(bi.noKey, Shape(names, true))
            && forall i :: 0 <= i < |BaseCopies(bi, ci, rev, names)| ==>
            CellFrom(BaseCopies(bi, ci, rev, names)[i], base, start, name)
  {
    hide FromList, CellFrom, IndexScan, Meets, Fits, Matched, Apart;
    var bi, ci := IndexScan(bk, base, start), IndexScan(ck, cand, start + |base|);
    IndexFits(bk, base, start, names);
    IndexesMeet(bk, base, ck, cand, rev, start, names, candNames);
    IndexLacks(name, ck, cand, start + |base|);
    MatchedCells(ci.dict.keys, bi.dict.vals, ci.dict.vals, rev, names, base, start, name);
    ApartCells(bi.dict.keys, bi.dict.vals, ci.dict.vals, base, start, name);
    forall i | 0 <= i < |bi.noKey| ensures CellFrom(bi.noKey[i], base, start, name) {
      ListedCell(bi.noKey[i], base, start, name);
    }
  }

  /** A base output keeps the base's own pair for every fact the candidates lack. */
  lemma BaseKeepsFact(bk: string, base: seq<Fingerprint>, ck: string, cand: seq<Fingerprint>, rev: ReverseKeys,
                      start: nat, names: seq<string>, candNames: seq<string>, name: string, p: nat)
    requires PassInputs(base, cand, rev, names, candNames) && Lacks(cand, name) && name !in rev.Effective()
    requires p < |TaggedPass(bk, base, ck, cand, rev, start, names, candNames).base|
    ensures CellFrom(TaggedPass(bk, base, ck, cand, rev, start, names, candNames).base[p], base, start, name)
  {
    hide FromList, CellFrom, IndexScan, Meets, Fits, BaseCopies, DedupPass;
    BaseCopiesCells(bk, base, ck, cand, rev, start, names, candNames, name);
    var bi, ci := IndexScan(bk, base, start), IndexScan(ck, cand, start + |base|);
    FoldedCells(BaseCopies(bi, ci, rev, names), base, start, names, name, p);
  }

  /** A candidate that is carried on keeps every fact. */
  lemma CarriedKeepsFacts(bk: string, base: seq<Fingerprint>, ck: string, cand: seq<Fingerprint>, rev: ReverseKeys,
                          start: nat, names: seq<string>, candNames: seq<string>, name: string, p: nat)
    requires PassInputs(base, cand, rev, names, candNames)
    requires p < |TaggedPass(bk, base, ck, cand, rev, start, names, candNames).cand|
    ensures CellFrom(TaggedPass(bk, base, ck, cand, rev, start, names, candNames).cand[p], cand, start + |base|, name)
  {
    hide FromList, CellFrom, IndexScan, Meets, Fits, DedupPass, Apart;
    var bi, ci := IndexScan(bk, base, start), IndexScan(ck, cand, start + |base|);
    IndexFits(ck, cand, start + |base|, candNames);
    CandCopiesFit(bi, ci, Shape(candNames, true));
    ApartCells(ci.dict.keys, ci.dict.vals, bi.dict.vals, cand, start + |base|, name);
    forall i | 0 <= i < |ci.noKey| ensures CellFrom(ci.noKey[i], cand, start + |base|, name) {
      ListedCell(ci.noKey[i], cand, start + |base|, name);
    }
    FoldedCells(CandCopies(bi, ci), cand, start + |base|, candNames, name, p);
  }

  /** A copy's sources reach the output with its global id. */
  lemma CopyReachesOutput(copies: seq<Fingerprint>, names: seq<string>, i: nat)
    requires AllFit(copies, Shape(names, true)) && i < |copies|
    ensures var r := DedupPass(GlobalId, copies, Shape(names, true));
            exists p :: 0 <= p < |r| && r[p].gid == copies[i].gid && copies[i].sources.Keys <= r[p].sources.Keys
  {
    hide Built, DedupScan;
    var sh := Shape(names, true);
    assert Fits(copies[i], sh);
    GroupSources(GlobalId, copies, sh, i);
    var st := DedupScan(GlobalId, copies, sh);
    var x := Get(copies[i], GlobalId).v;
    var p :| 0 <= p < |st.dict.keys| && st.dict.keys[p] == x;
    var r := DedupPass(GlobalId, copies, sh);
    assert r[|st.noKey| + p] == st.dict.vals[x];
    assert Get(st.dict.vals[x], GlobalId) == One(x);
  }

  /** The merge of a candidate reaches the base that owns the key it met. */
  lemma MergeReachesItsBase(bk: string, base: seq<Fingerprint>, ck: string, cand: seq<Fingerprint>, rev: ReverseKeys,
                            start: nat, names: seq<string>, candNames: seq<string>, x: Scalar, o: nat, j: nat)
    requires PassInputs(base, cand, rev, names, candNames)
    requires Owner(bk, base, x) == Some(o) && Owner(ck, cand, x) == Some(j)
    ensures var t := TaggedPass(bk, base, ck, cand, rev, start, names, candNames).base;
            exists p :: 0 <= p < |t| && t[p].gid == Some(start + o)
                        && base[o].sources.Keys + cand[j].sources.Keys <= t[p].sources.Keys
  {
    hide IndexScan, Meets, Fits, AllFit, Owner, DedupPass, Matched, Apart, FromList, Claims;
    var bi, ci := IndexScan(bk, base, start), IndexScan(ck, cand, start + |base|);
    IndexFits(bk, base, start, names);
    IndexesMeet(bk, base, ck, cand, rev, start, names, candNames);
    IndexedByOwner(bk, base, start, x);
    IndexedByOwner(ck, cand, start + |base|, x);
    var i :| 0 <= i < |ci.dict.keys| && ci.dict.keys[i] == x;
    var q := MatchedAt(ci.dict.keys, bi.dict.vals, ci.dict.vals, rev, names, i);
    CopyReachesOutput(BaseCopies(bi, ci, rev, names), names, |bi.noKey| + q);
  }

  /** A candidate that is carried on reaches an output of its own. */
  lemma CarriedReachesOutput(bk: string, base: seq<Fingerprint>, ck: string, cand: seq<Fingerprint>, rev: ReverseKeys,
                             start: nat, names: seq<string>, candNames: seq<string>, j: nat)
    requires PassInputs(base, cand, rev, names, candNames) && j < |cand|
    requires Holds(TaggedPass(bk, base, ck, cand, rev, start, names, candNames).cand, start + |base| + j)
    ensures var t := TaggedPass(bk, base, ck, cand, rev, start, names, candNames).cand;
            exists p :: 0 <= p < |t| && t[p].gid == Some(start + |base| + j)
                && cand[j].sources.Keys <= t[p].sources.Keys
  {
    hide IndexScan, Meets, Fits, AllFit, DedupPass, Apart, Claims, BaseCopies;
    var bi, ci := IndexScan(bk, base, start), IndexScan(ck, cand, start + |base|);
    IndexFits(ck, cand, start + |base|, candNames);
    CandCopiesFit(bi, ci, Shape(candNames, true));
    var copies, id := CandCopies(bi, ci), start + |base| + j;
    CopiesFolded(copies, candNames, id);
    var i :| 0 <= i < |copies| && copies[i].gid == Some(id);
    CandCopyListed(bi, ci, cand, start + |base|, i);
    CopyReachesOutput(copies, candNames, i);
  }

  lemma CandCopyListed(bi: Index, ci: Index, cand: seq<Fingerprint>, start: nat, i: nat)
    requires ci.dict.Valid() && i < |CandCopies(bi, ci)|
    requires forall x :: x in ci.dict.vals ==> FromList(ci.dict.vals[x], cand, start)
    requires forall n :: 0 <= n < |ci.noKey| ==> FromList(ci.noKey[n], cand, start)
    ensures FromList(CandCopies(bi, ci)[i], cand, start)
  {
    hide FromList;
  }

  /** What the carried candidates are folded from. */
  lemma CandFolded(bk: string, base: seq<Fingerprint>, ck: string, cand: seq<Fingerprint>, rev: ReverseKeys, start: nat,
                   names: seq<string>, candNames: seq<string>)
    returns (copies: seq<Fingerprint>)
    requires PassInputs(base, cand, rev, names, candNames)
    ensures AllFit(copies, Shape(candNames, true))
    ensures TaggedPass(bk, base, ck, cand, rev, start, names, candNames).cand
            == DedupPass(GlobalId, copies, Shape(candNames, true))
    ensures copies == CandCopies(IndexScan(bk, base, start), IndexScan(ck, cand, start + |base|))
    ensures forall i :: 0 <= i < |copies| ==> FromList(copies[i], cand, start + |base|)
  {
    hide IndexScan, Meets, Fits, DedupPass, CandCopies, FromList;
    var bi, ci := IndexScan(bk, base, start), IndexScan(ck, cand, start + |base|);
    IndexFits(ck, cand, start + |base|, candNames);
    CandCopiesFit(bi, ci, Shape(candNames, true));
    copies := CandCopies(bi, ci);
    forall i | 0 <= i < |copies| ensures FromList(copies[i], cand, start + |base|) {
      CandCopyListed(bi, ci, cand, start + |base|, i);
    }
  }

  lemma {:induction false} MatchedAt(ks: seq<Scalar>, b: Entries, c: Entries, rev: ReverseKeys, names: seq<string>,
                                     i: nat) returns (q: nat)
    requires Meets(b, c, names, rev) && (forall j :: 0 <= j < |ks| ==> ks[j] in c) && i < |ks| && ks[i] in b
    ensures q < |Matched(ks, b, c, rev, names)|
    ensures Matched(ks, b, c, rev, names)[q].gid == b[ks[i]].gid
    ensures Matched(ks, b, c, rev, names)[q].sources.Keys == b[ks[i]].sources.Keys + c[ks[i]].sources.Keys
  {
    hide Meets, Merge, Mergeable;
    var front, last := ks[..|ks| - 1], |ks| - 1;
    if i < last {
      q := MatchedAt(front, b, c, rev, names, i);
    } else {
      MatchedGid(b, c, rev, names, ks[last]);
      q := |Matched(front, b, c, rev, names)|;
    }
  }

  /* ---------- unique keys ---------- */

  /** The value of a fact is the value of its pair. */
  lemma CellValue(fp: Fingerprint, name: string)
    requires WellFormed(fp)
    ensures Get(fp, Fact(name)) == if FactAt(fp, name).Cell? then FactAt(fp, name).value else Null
  {
  }

  /** A key that only the base carries stays unique among the base outputs. */
  lemma BaseKeepsUnique(bk: string, base: seq<Fingerprint>, ck: string, cand: seq<Fingerprint>, rev: ReverseKeys,
                        start: nat, names: seq<string>, candNames: seq<string>, name: string)
    requires PassInputs(base, cand, rev, names, candNames) && Lacks(cand, name) && name !in rev.Effective()
    requires Unique(Fact(name), base)
    ensures Unique(Fact(name), Pass(bk, base, ck, cand, rev, start, names, candNames).base)
  {
    hide TaggedPass, FactAt, Built;
    var t := TaggedPass(bk, base, ck, cand, rev, start, names, candNames);
    var r := Pass(bk, base, ck, cand, rev, start, names, candNames).base;
    OneOutputPerSurvivingBase(bk, base, ck, cand, rev, start, names, candNames);
    forall p, q | 0 <= p < q < |r| && Truthy(Get(r[p], Fact(name)))
      ensures Get(r[p], Fact(name)) != Get(r[q], Fact(name)) {
      BaseOutputValue(bk, base, ck, cand, rev, start, names, candNames, name, p);
      BaseOutputValue(bk, base, ck, cand, rev, start, names, candNames, name, q);
      var i, j := t.base[p].gid.value - start, t.base[q].gid.value - start;
      assert Get(t.base[p], GlobalId) != Get(t.base[q], GlobalId);
      assert i != j;
    }
  }

  lemma BaseOutputValue(bk: string, base: seq<Fingerprint>, ck: string, cand: seq<Fingerprint>, rev: ReverseKeys,
                        start: nat, names: seq<string>, candNames: seq<string>, name: string, p: nat)
    requires PassInputs(base, cand, rev, names, candNames) && Lacks(cand, name) && name !in rev.Effective()
    requires p < |TaggedPass(bk, base, ck, cand, rev, start, names, candNames).base|
    ensures var t := TaggedPass(bk, base, ck, cand, rev, start, names, candNames);
            && t.base[p].gid.Some? && start <= t.base[p].gid.value < start + |base|
            && Get(Pass(bk, base, ck, cand, rev, start, names, candNames).base[p], Fact(name))
               == Get(base[t.base[p].gid.value - start], Fact(name))
  {
    hide TaggedPass, FactAt, Built;
    var t := TaggedPass(bk, base, ck, cand, rev, start, names, candNames);
    BaseKeepsFact(bk, base, ck, cand, rev, start, names, candNames, name, p);
    var o := t.base[p];
    var b := base[o.gid.value - start];
    FitsWellFormed(o, Shape(names, true));
    FitsWellFormed(b, Shape(names, false));
    CellValue(o, name);
    CellValue(b, name);
    assert Get(Untagged(o), Fact(name)) == Get(o, Fact(name));
  }

  lemma FitsWellFormed(fp: Fingerprint, sh: Shape)
    requires Fits(fp, sh)
    ensures WellFormed(fp)
  {
  }

  /** With unique scalar keys nothing is lost. */
  lemma UniqueSurvive(name: string, fps: seq<Fingerprint>, i: nat)
    requires ScalarKeyed(Fact(name), fps) && Unique(Fact(name), fps) && i < |fps|
    ensures Survives(name, fps, i)
  {
    if Claims(fps[i], name) != [] {
      var x := Claims(fps[i], name)[0];
      forall j | 0 <= j < i ensures x !in Claims(fps[j], name) {
        assert Truthy(Get(fps[j], Fact(name))) ==> Get(fps[j], Fact(name)) != Get(fps[i], Fact(name));
      }
      assert Owner(name, fps, x) == Some(i);
    }
  }

  lemma UniqueSourcesSurvive(name: string, fps: seq<Fingerprint>)
    requires ScalarKeyed(Fact(name), fps) && Unique(Fact(name), fps)
    ensures SurvivingSources(name, fps) == SourcesOf(fps)
  {
    hide Survives;
    forall s | s in SourcesOf(fps) ensures s in SurvivingSources(name, fps) {
      var i :| 0 <= i < |fps| && s in fps[i].sources;
      UniqueSurvive(name, fps, i);
    }
  }

  /** A pass by unique scalar keys loses no fingerprint: every base has its output and all
      sources are kept. */
  lemma ScalarPassLosesNothing(bk: string, base: seq<Fingerprint>, ck: string, cand: seq<Fingerprint>, rev: ReverseKeys,
                               start: nat, names: seq<string>, candNames: seq<string>)
    requires PassInputs(base, cand, rev, names, candNames)
    requires ScalarKeyed(Fact(bk), base) && Unique(Fact(bk), base)
    requires ScalarKeyed(Fact(ck), cand) && Unique(Fact(ck), cand)
    ensures var r := Pass(bk, base, ck, cand, rev, start, names, candNames);
            && |r.base| == |base|
            && SourcesOf(r.base) + SourcesOf(r.cand) == SourcesOf(base) + SourcesOf(cand)
  {
    hide Survives, Pass, TaggedPass, SourcesOf, SurvivingSources;
    PassConservesSources(bk, base, ck, cand, rev, start, names, candNames);
    UniqueSourcesSurvive(bk, base);
    UniqueSourcesSurvive(ck, cand);
    OneOutputPerSurvivingBase(bk, base, ck, cand, rev, start, names, candNames);
    AllSurvive(bk, base, start);
  }

  lemma AllSurvive(name: string, fps: seq<Fingerprint>, start: nat)
    requires ScalarKeyed(Fact(name), fps) && Unique(Fact(name), fps)
    ensures |Survivors(name, fps, start)| == |fps|
  {
    hide Survives;
    forall id | start <= id < start + |fps| ensures id in Survivors(name, fps, start) {
      UniqueSurvive(name, fps, id - start);
      assert start + (id - start) == id;
    }
    assert Survivors(name, fps, start) == Range(start, |fps|);
  }

  ghost function Range(start: nat, n: nat): (r: set<nat>)
    ensures forall id: nat :: id in r <==> start <= id < start + n
    ensures |r| == n
  {
    if n == 0 then {} else Range(start, n - 1) + {start + n - 1}
  }
}
