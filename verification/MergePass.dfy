/** One merge pass between two lists: index both sides, merge where keys meet, and fold the
    copies that list-valued keys produced back together by global id. */
module MergePass {
  import opened OrderedDict
  import opened Fingerprints
  import opened MergeLaws
  import opened MergeEngine
  import opened Dedup
  import opened Index

  type Entries = map<Scalar, Fingerprint>

  /** The entries under one key can be merged. */
  predicate Meets(b: Entries, c: Entries, names: seq<string>, rev: ReverseKeys) {
    && (forall x :: x in b ==> Fits(b[x], Shape(names, true)))
    && (forall x :: x in b && x in c ==> Compatible(b[x], c[x], names, rev))
  }

  /** Merges of the candidates whose key has a base entry, in key order. */
  function Matched(ks: seq<Scalar>, b: Entries, c: Entries, rev: ReverseKeys,
                   ghost names: seq<string>): (r: seq<Fingerprint>)
    requires Meets(b, c, names, rev) && forall i :: 0 <= i < |ks| ==> ks[i] in c
    ensures AllFit(r, Shape(names, true))
  {
    if ks == [] then []
    else
      var r := Matched(ks[..|ks| - 1], b, c, rev, names);
      var x := ks[|ks| - 1];
      if x in b then CompatibleMerges(b[x], c[x], names, rev); r + [Merge(b[x], c[x], rev)] else r
  }

  /** The entries of d whose key is not among the keys of other, in key order. */
  function Apart(ks: seq<Scalar>, d: Entries, other: Entries): (r: seq<Fingerprint>)
    requires forall i :: 0 <= i < |ks| ==> ks[i] in d
    ensures forall i :: 0 <= i < |r| ==> exists x :: x in d && r[i] == d[x]
  {
    if ks == [] then []
    else
      var r := Apart(ks[..|ks| - 1], d, other);
      if ks[|ks| - 1] in other then r else r + [d[ks[|ks| - 1]]]
  }

  /** What the source demands of its caller: fingerprints of the two shapes, and reverse
      keys (if given as a set) that every candidate carries. */
  predicate PassInputs(base: seq<Fingerprint>, cand: seq<Fingerprint>, rev: ReverseKeys,
                       names: seq<string>, candNames: seq<string>) {
    && AllFit(base, Shape(names, false))
    && AllFit(cand, Shape(candNames, false))
    && (candNames == names || candNames == [])
    && forall i :: 0 <= i < |cand| ==> rev.Effective() <= cand[i].facts.Keys
  }

  lemma TaggedFits(v: Fingerprint, fps: seq<Fingerprint>, start: nat, names: seq<string>)
    requires FromList(v, fps, start) && AllFit(fps, Shape(names, false))
    ensures Fits(v, Shape(names, true))
  {
  }

  lemma IndexFits(name: string, fps: seq<Fingerprint>, start: nat, names: seq<string>)
    requires AllFit(fps, Shape(names, false))
    ensures forall x :: x in IndexScan(name, fps, start).dict.vals ==>
            Fits(IndexScan(name, fps, start).dict.vals[x], Shape(names, true))
    ensures AllFit(IndexScan(name, fps, start).noKey, Shape(names, true))
  {
    hide Fits, IndexScan, FromList;
    var r := IndexScan(name, fps, start);
    forall x | x in r.dict.vals ensures Fits(r.dict.vals[x], Shape(names, true)) {
      TaggedFits(r.dict.vals[x], fps, start, names);
    }
    forall i | 0 <= i < |r.noKey| ensures Fits(r.noKey[i], Shape(names, true)) {
      TaggedFits(r.noKey[i], fps, start, names);
    }
  }

  lemma IndexesMeet(bk: string, base: seq<Fingerprint>, ck: string, cand: seq<Fingerprint>, rev: ReverseKeys,
                    start: nat, names: seq<string>, candNames: seq<string>)
    requires PassInputs(base, cand, rev, names, candNames)
    ensures Meets(IndexScan(bk, base, start).dict.vals, IndexScan(ck, cand, start + |base|).dict.vals, names, rev)
  {
    hide IndexScan;
    IndexFits(bk, base, start, names);
    IndexFits(ck, cand, start + |base|, candNames);
  }

  /** The base entries, with copies, before they are folded back together. */
  function BaseCopies(bi: Index, ci: Index, rev: ReverseKeys, ghost names: seq<string>): (r: seq<Fingerprint>)
    requires bi.dict.Valid() && ci.dict.Valid()
    requires Meets(bi.dict.vals, ci.dict.vals, names, rev) && AllFit(bi.noKey, Shape(names, true))
    ensures AllFit(r, Shape(names, true))
  {
    bi.noKey + Matched(ci.dict.keys, bi.dict.vals, ci.dict.vals, rev, names)
    + Apart(bi.dict.keys, bi.dict.vals, ci.dict.vals)
  }

  function CandCopies(bi: Index, ci: Index): seq<Fingerprint>
    requires ci.dict.Valid()
  {
    ci.noKey + Apart(ci.dict.keys, ci.dict.vals, bi.dict.vals)
  }

  lemma CandCopiesFit(bi: Index, ci: Index, sh: Shape)
    requires ci.dict.Valid() && AllFit(ci.noKey, sh)
    requires forall x :: x in ci.dict.vals ==> Fits(ci.dict.vals[x], sh)
    ensures AllFit(CandCopies(bi, ci), sh)
  {
    hide Fits;
  }

  datatype PassResult = PassResult(base: seq<Fingerprint>, cand: seq<Fingerprint>)

  /** Both outputs of the pass, still tagged. */
  function TaggedPass(bk: string, base: seq<Fingerprint>, ck: string, cand: seq<Fingerprint>, rev: ReverseKeys,
                      start: nat, ghost names: seq<string>, ghost candNames: seq<string>): (r: PassResult)
    requires PassInputs(base, cand, rev, names, candNames)
    ensures AllFit(r.base, Shape(names, true)) && AllFit(r.cand, Shape(candNames, true))
  {
    var bi, ci := IndexScan(bk, base, start), IndexScan(ck, cand, start + |base|);
    IndexFits(bk, base, start, names);
    IndexFits(ck, cand, start + |base|, candNames);
    IndexesMeet(bk, base, ck, cand, rev, start, names, candNames);
    CandCopiesFit(bi, ci, Shape(candNames, true));
    PassResult(DedupPass(GlobalId, BaseCopies(bi, ci, rev, names), Shape(names, true)),
               DedupPass(GlobalId, CandCopies(bi, ci), Shape(candNames, true)))
  }

  function Pass(bk: string, base: seq<Fingerprint>, ck: string, cand: seq<Fingerprint>, rev: ReverseKeys,
                start: nat, ghost names: seq<string>, ghost candNames: seq<string>): (r: PassResult)
    requires PassInputs(base, cand, rev, names, candNames)
    ensures AllFit(r.base, Shape(names, false)) && AllFit(r.cand, Shape(candNames, false))
  {
    var t := TaggedPass(bk, base, ck, cand, rev, start, names, candNames);
    PassResult(UntagAll(t.base), UntagAll(t.cand))
  }

  lemma MatchedStep(ks: seq<Scalar>, i: nat, b: Entries, c: Entries, rev: ReverseKeys, names: seq<string>)
    requires Meets(b, c, names, rev) && i < |ks| && forall j :: 0 <= j < |ks| ==> ks[j] in c
    ensures ks[i] in b ==> Mergeable(b[ks[i]], c[ks[i]], rev)
    ensures Matched(ks[..i + 1], b, c, rev, names) ==
            Matched(ks[..i], b, c, rev, names) + if ks[i] in b then [Merge(b[ks[i]], c[ks[i]], rev)] else []
  {
    hide Merge, Mergeable, Compatible, Fits;
    TakeSnoc(ks, i);
    if ks[i] in b {
      CompatibleMerges(b[ks[i]], c[ks[i]], names, rev);
    }
  }

  lemma ApartStep(ks: seq<Scalar>, i: nat, d: Entries, other: Entries)
    requires i < |ks| && forall j :: 0 <= j < |ks| ==> ks[j] in d
    ensures Apart(ks[..i + 1], d, other) == Apart(ks[..i], d, other) + if ks[i] in other then [] else [d[ks[i]]]
  {
    TakeSnoc(ks, i);
  }

  lemma MatchedNone(b: Entries, c: Entries, rev: ReverseKeys, names: seq<string>)
    requires Meets(b, c, names, rev)
    ensures Matched([], b, c, rev, names) == [] && Apart([], c, b) == []
  {
  }

  method MatchCandidates(b: Entries, c: Dict<Scalar, Fingerprint>, rev: ReverseKeys, ghost names: seq<string>)
    returns (merged: nat, matches: seq<Fingerprint>, left: seq<Fingerprint>, remaining: Entries)
    requires c.Valid() && Meets(b, c.vals, names, rev)
    ensures matches == Matched(c.keys, b, c.vals, rev, names)
    ensures left == Apart(c.keys, c.vals, b)
    ensures remaining == b - c.vals.Keys
    ensures merged == |matches|
  {
    hide Merge, Mergeable, Meets, Matched, Apart;
    MatchedNone(b, c.vals, rev, names);
    matches, left, remaining, merged := [], [], b, 0;
    ghost var done: set<Scalar> := {};
    for i := 0 to |c.keys|
      invariant done <= c.vals.Keys
      invariant forall j :: 0 <= j < |c.keys| ==> (c.keys[j] in done <==> j < i)
      invariant remaining == b - done
      invariant merged == |matches|
      invariant matches == Matched(c.keys[..i], b, c.vals, rev, names)
      invariant left == Apart(c.keys[..i], c.vals, b)
    {
      var x := c.keys[i];
      MatchedStep(c.keys, i, b, c.vals, rev, names);
      ApartStep(c.keys, i, c.vals, b);
      if x in remaining {
        var m := MergeFingerprint(remaining[x], c.vals[x], rev);
        matches := matches + [m.fp];
        remaining := remaining - {x};
        merged := merged + 1;
      } else {
        left := left + [c.vals[x]];
      }
      done := done + {x};
    }
    assert c.keys[..|c.keys|] == c.keys;
    assert done == c.vals.Keys;
  }

  /** The values left in a dictionary after some keys were popped. */
  method CollectRemaining(d: Dict<Scalar, Fingerprint>, remaining: Entries,
                          ghost other: Entries) returns (rest: seq<Fingerprint>)
    requires d.Valid() && remaining == d.vals - other.Keys
    ensures rest == Apart(d.keys, d.vals, other)
  {
    rest := [];
    for i := 0 to |d.keys|
      invariant rest == Apart(d.keys[..i], d.vals, other)
    {
      assert d.keys[..i + 1][..i] == d.keys[..i];
      if d.keys[i] in remaining {
        rest := rest + [remaining[d.keys[i]]];
      }
    }
    assert d.keys[..|d.keys|] == d.keys;
  }

  /** One merge per key that both indexes hold. */
  function MergeCount(bk: string, base: seq<Fingerprint>, ck: string, cand: seq<Fingerprint>, start: nat): nat {
    |IndexScan(bk, base, start).dict.vals.Keys * IndexScan(ck, cand, start + |base|).dict.vals.Keys|
  }

  lemma {:induction false} MatchedLength(ks: seq<Scalar>, b: Entries, c: Entries, rev: ReverseKeys, names: seq<string>)
    requires Meets(b, c, names, rev) && Distinct(ks) && forall i :: 0 <= i < |ks| ==> ks[i] in c
    ensures |Matched(ks, b, c, rev, names)| == |set x | x in ks && x in b|
  {
    hide Merge, Mergeable, Compatible, Fits, Meets;
    if ks != [] {
      MatchedLength(ks[..|ks| - 1], b, c, rev, names);
      SharedSnoc(ks, b);
    }
  }

  lemma SharedSnoc(ks: seq<Scalar>, b: Entries)
    requires ks != [] && Distinct(ks)
    ensures var front, last := ks[..|ks| - 1], ks[|ks| - 1];
            |set x | x in ks && x in b| == |set x | x in front && x in b| + if last in b then 1 else 0
  {
    var front, last := ks[..|ks| - 1], ks[|ks| - 1];
    var shared := set x | x in front && x in b;
    assert ks == front + [last];
    assert (set x | x in ks && x in b) == if last in b then shared + {last} else shared;
  }

  lemma MatchedCount(c: Dict<Scalar, Fingerprint>, b: Entries, rev: ReverseKeys, names: seq<string>)
    requires c.Valid() && Meets(b, c.vals, names, rev)
    ensures |Matched(c.keys, b, c.vals, rev, names)| == |b.Keys * c.vals.Keys|
  {
    MatchedLength(c.keys, b, c.vals, rev, names);
    assert (set x | x in c.keys && x in b) == b.Keys * c.vals.Keys;
  }

  method MergeMatching(bk: string, base: seq<Fingerprint>, ck: string, cand: seq<Fingerprint>, rev: ReverseKeys,
                       start: nat, ghost names: seq<string>, ghost candNames: seq<string>)
    returns (merged: nat, r: PassResult, next: nat)
    requires PassInputs(base, cand, rev, names, candNames)
    ensures r == Pass(bk, base, ck, cand, rev, start, names, candNames)
    ensures next == start + |base| + |cand|
    ensures merged == MergeCount(bk, base, ck, cand, start)
  {
    hide Fits, FromList, IndexScan, DedupScan, Meets;
    var bi, afterBase := CreateIndex(bk, base, start);
    var ci, n := CreateIndex(ck, cand, afterBase);
    IndexFits(bk, base, start, names);
    IndexFits(ck, cand, start + |base|, candNames);
    IndexesMeet(bk, base, ck, cand, rev, start, names, candNames);
    CandCopiesFit(bi, ci, Shape(candNames, true));
    var matches, left, remaining;
    merged, matches, left, remaining := MatchCandidates(bi.dict.vals, ci.dict, rev, names);
    MatchedCount(ci.dict, bi.dict.vals, rev, names);
    var rest := CollectRemaining(bi.dict, remaining, ci.dict.vals);
    var baseOut := RemoveDuplicateCopies(bi.noKey + matches + rest, Shape(names, true));
    var candOut := RemoveDuplicateCopies(ci.noKey + left, Shape(candNames, true));
    r, next := PassResult(baseOut, candOut), n;
  }
}
