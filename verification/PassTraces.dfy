/** Both runs through a merge pass: it makes the same merges in both, between fingerprints that
    share a value of its keys, and folds the copies of one fingerprint. */
module PassTraces {
  import opened OrderedDict
  import opened Fingerprints
  import opened MergeLaws
  import opened Dedup
  import opened Index
  import opened MergePass
  import opened PassLaws
  import opened Pipeline
  import opened Derivation

  /* ---------- the index ---------- */

  /** Both indexes have the same keys and ids. */
  ghost predicate SameIndex(r: Index, s: Index) {
    && r.dict.keys == s.dict.keys && r.dict.vals.Keys == s.dict.vals.Keys && |r.noKey| == |s.noKey|
    && (forall p :: 0 <= p < |r.noKey| ==> r.noKey[p].gid == s.noKey[p].gid)
    && (forall x :: x in r.dict.vals ==> r.dict.vals[x].gid == s.dict.vals[x].gid)
  }

  lemma {:induction false} ClaimSame(d: Dict<Scalar, Fingerprint>, e: Dict<Scalar, Fingerprint>, ks: seq<Scalar>,
                                     f: Fingerprint, g: Fingerprint)
    requires d.Valid() && e.Valid() && d.keys == e.keys && d.vals.Keys == e.vals.Keys
    ensures ClaimKeys(d, ks, f).keys == ClaimKeys(e, ks, g).keys
    ensures ClaimKeys(d, ks, f).vals.Keys == ClaimKeys(e, ks, g).vals.Keys
  {
    if ks != [] {
      hide Dict.Valid;
      ClaimSame(d, e, ks[..|ks| - 1], f, g);
    }
  }

  lemma {:induction false} IndexSame(name: string, a: seq<Fingerprint>, b: seq<Fingerprint>, start: nat)
    requires |a| == |b| && forall i :: 0 <= i < |a| ==> Claims(a[i], name) == Claims(b[i], name)
    ensures SameIndex(IndexScan(name, a, start), IndexScan(name, b, start))
  {
    hide Claims, FromList, ClaimKeys, IndexScan;
    if a == [] {
      EmptyIndex(name, start);
    } else {
      var last := |a| - 1;
      IndexSame(name, a[..last], b[..last], start);
      assert a[..last + 1] == a && b[..last + 1] == b;
      ScanNext(name, a, last, start);
      ScanNext(name, b, last, start);
      if Claims(a[last], name) != [] {
        ClaimSame(IndexScan(name, a[..last], start).dict, IndexScan(name, b[..last], start).dict,
                  Claims(a[last], name), Tag(a[last], start + last), Tag(b[last], start + last));
      }
    }
  }

  /** The plan of an index entry is that of the fingerprint its id names. */
  ghost predicate PlanOf(v: Fingerprint, plan: Plan, start: nat, tr: seq<Plan>) {
    v.gid.Some? && start <= v.gid.value < start + |tr| && plan == tr[v.gid.value - start]
  }

  lemma EntryTwin(v: Fingerprint, u: Fingerprint, a: seq<Fingerprint>, b: seq<Fingerprint>, start: nat, w: Runs,
                  tr: seq<Plan>)
    requires FromList(v, a, start) && FromList(u, b, start) && v.gid == u.gid && AllTwins(a, b, w, tr)
    ensures Twin(v, u, w, tr[v.gid.value - start])
  {
    hide Twin;
    var i := v.gid.value - start;
    TagTwin(a[i], b[i], w, tr[i], v.gid);
  }

  lemma SameClaims(a: seq<Fingerprint>, b: seq<Fingerprint>, w: Runs, tr: seq<Plan>, name: string)
    requires AllTwins(a, b, w, tr)
    ensures |a| == |b| && forall i :: 0 <= i < |a| ==> Claims(a[i], name) == Claims(b[i], name)
  {
    hide Twin, Claims;
    forall i | 0 <= i < |a| ensures Claims(a[i], name) == Claims(b[i], name) {
      TwinKeys(a[i], b[i], w, tr[i]);
    }
  }

  ghost predicate Listed(r: Index, fps: seq<Fingerprint>, start: nat) {
    && (forall p :: 0 <= p < |r.noKey| ==> FromList(r.noKey[p], fps, start))
    && (forall x :: x in r.dict.vals ==> FromList(r.dict.vals[x], fps, start))
  }

  /** Two indexes of twins, entry by entry. */
  ghost predicate TwinIndex(r: Index, s: Index, w: Runs, tn: seq<Plan>, td: map<Scalar, Plan>, start: nat,
                            tr: seq<Plan>) {
    && r.dict.keys == s.dict.keys && AllTwins(r.noKey, s.noKey, w, tn) && TwinDict(r.dict.vals, s.dict.vals, w, td)
    && (forall p :: 0 <= p < |tn| ==> PlanOf(r.noKey[p], tn[p], start, tr))
    && (forall x :: x in td ==> PlanOf(r.dict.vals[x], td[x], start, tr))
  }

  lemma ListedTwins(r: Index, s: Index, a: seq<Fingerprint>, b: seq<Fingerprint>, start: nat, w: Runs, tr: seq<Plan>)
    returns (tn: seq<Plan>, td: map<Scalar, Plan>)
    requires AllTwins(a, b, w, tr) && SameIndex(r, s) && Listed(r, a, start) && Listed(s, b, start)
    ensures TwinIndex(r, s, w, tn, td, start, tr)
  {
    hide AllTwins, FromList;
    tn := NoKeyTwins(r, s, a, b, start, w, tr);
    td := EntryTwins(r, s, a, b, start, w, tr);
  }

  lemma NoKeyTwins(r: Index, s: Index, a: seq<Fingerprint>, b: seq<Fingerprint>, start: nat, w: Runs, tr: seq<Plan>)
    returns (tn: seq<Plan>)
    requires AllTwins(a, b, w, tr) && SameIndex(r, s) && Listed(r, a, start) && Listed(s, b, start)
    ensures AllTwins(r.noKey, s.noKey, w, tn) && forall p :: 0 <= p < |tn| ==> PlanOf(r.noKey[p], tn[p], start, tr)
  {
    hide Twin;
    tn := seq(|r.noKey|, p requires 0 <= p < |r.noKey| => tr[r.noKey[p].gid.value - start]);
    forall p | 0 <= p < |r.noKey| ensures Twin(r.noKey[p], s.noKey[p], w, tn[p]) {
      EntryTwin(r.noKey[p], s.noKey[p], a, b, start, w, tr);
    }
  }

  lemma EntryTwins(r: Index, s: Index, a: seq<Fingerprint>, b: seq<Fingerprint>, start: nat, w: Runs, tr: seq<Plan>)
    returns (td: map<Scalar, Plan>)
    requires AllTwins(a, b, w, tr) && SameIndex(r, s) && Listed(r, a, start) && Listed(s, b, start)
    ensures TwinDict(r.dict.vals, s.dict.vals, w, td)
    ensures forall x :: x in td ==> PlanOf(r.dict.vals[x], td[x], start, tr)
  {
    hide Twin;
    td := map x | x in r.dict.vals :: tr[r.dict.vals[x].gid.value - start];
    forall x | x in r.dict.vals ensures Twin(r.dict.vals[x], s.dict.vals[x], w, td[x]) {
      EntryTwin(r.dict.vals[x], s.dict.vals[x], a, b, start, w, tr);
    }
  }

  lemma IndexTwins(name: string, a: seq<Fingerprint>, b: seq<Fingerprint>, start: nat, w: Runs, tr: seq<Plan>)
    returns (tn: seq<Plan>, td: map<Scalar, Plan>)
    requires AllTwins(a, b, w, tr)
    ensures TwinIndex(IndexScan(name, a, start), IndexScan(name, b, start), w, tn, td, start, tr)
  {
    hide IndexScan, AllTwins, Claims, FromList, SameIndex, TwinIndex;
    SameClaims(a, b, w, tr, name);
    IndexSame(name, a, b, start);
    tn, td := ListedTwins(IndexScan(name, a, start), IndexScan(name, b, start), a, b, start, w, tr);
  }

  /** An index entry claims its key. */
  lemma EntryClaims(name: string, fps: seq<Fingerprint>, start: nat, x: Scalar)
    requires x in IndexScan(name, fps, start).dict.vals
    ensures x in Claims(IndexScan(name, fps, start).dict.vals[x], name)
  {
    hide IndexScan;
    IndexedByOwner(name, fps, start, x);
  }

  /** The entries under a key touch. */
  lemma EntriesTouch(bk: string, a: seq<Fingerprint>, ck: string, c: seq<Fingerprint>, start: nat, w: Runs, s: Plan,
                     t: Plan, x: Scalar)
    requires Orderly(w) && KeyPair(bk, ck) in KEY_PAIRS
    requires var d, e := IndexScan(bk, a, start).dict.vals, IndexScan(ck, c, start + |a|).dict.vals;
             x in d && x in e && Rooted(d[x], w.pool, s) && Rooted(e[x], w.pool, t)
    ensures Touch(s, t, w.pool)
  {
    hide IndexScan, Rooted, Claims, Touch, Orderly;
    EntryClaims(bk, a, start, x);
    EntryClaims(ck, c, start + |a|, x);
    ClaimTouch(IndexScan(bk, a, start).dict.vals[x], IndexScan(ck, c, start + |a|).dict.vals[x], w, s, t,
               KeyPair(bk, ck), x);
  }

  /* ---------- matched and unmatched entries ---------- */

  /** Every copy has the inputs of the fingerprint whose id it carries. */
  ghost predicate Anchored(copies: seq<Fingerprint>, plans: seq<Plan>, start: nat, tr: seq<Plan>) {
    |plans| == |copies| && forall i :: 0 <= i < |copies| ==> AnchoredAt(copies[i], plans[i], start, tr)
  }

  ghost predicate AnchoredAt(v: Fingerprint, plan: Plan, start: nat, tr: seq<Plan>) {
    && v.gid.Some? && start <= v.gid.value < start + |tr|
    && Positions(tr[v.gid.value - start]) <= Positions(plan)
  }

  lemma {:induction false} ApartTwins(ks: seq<Scalar>, d: Entries, e: Entries, other: Entries, other': Entries, w: Runs,
                                      td: map<Scalar, Plan>, start: nat, tr: seq<Plan>)
    returns (r: seq<Plan>)
    requires (forall p :: 0 <= p < |ks| ==> ks[p] in d) && TwinDict(d, e, w, td) && other.Keys == other'.Keys
    requires forall x :: x in td ==> PlanOf(d[x], td[x], start, tr)
    ensures AllTwins(Apart(ks, d, other), Apart(ks, e, other'), w, r)
    ensures Anchored(Apart(ks, d, other), r, start, tr)
  {
    hide Twin;
    r := [];
    if ks != [] {
      var front, last := ks[..|ks| - 1], ks[|ks| - 1];
      r := ApartTwins(front, d, e, other, other', w, td, start, tr);
      if last !in other {
        r := r + [td[last]];
      }
    }
  }

  /** Under a shared key, both runs merge. */
  lemma MatchTwin(b: Entries, c: Entries, b': Entries, c': Entries, rev: ReverseKeys, names: seq<string>, w: Runs,
                  tb: map<Scalar, Plan>, tc: map<Scalar, Plan>, x: Scalar, start: nat, tr: seq<Plan>)
    requires Meets(b, c, names, rev) && rev.Effective() == {} && x in b && x in c
    requires TwinDict(b, b', w, tb) && TwinDict(c, c', w, tc) && Touch(tb[x], tc[x], w.pool)
             && PlanOf(b[x], tb[x], start, tr)
    ensures Mergeable(b[x], c[x], rev) && Mergeable(b'[x], c'[x], rev)
    ensures Twin(Merge(b[x], c[x], rev), Merge(b'[x], c'[x], rev), w, Join(tb[x], tc[x]))
    ensures AnchoredAt(Merge(b[x], c[x], rev), Join(tb[x], tc[x]), start, tr)
  {
    hide Twin, Merge, Mergeable, Compatible, Touch;
    MergeTwins(b[x], b'[x], c[x], c'[x], rev, names, w, tb[x], tc[x]);
    MatchedGid(b, c, rev, names, x);
  }

  lemma {:induction false} MatchedTwins(ks: seq<Scalar>, b: Entries, c: Entries, b': Entries, c': Entries,
                                        rev: ReverseKeys,
                                        names: seq<string>, w: Runs, tb: map<Scalar, Plan>, tc: map<Scalar, Plan>,
                                        start: nat, tr: seq<Plan>)
    returns (r: seq<Plan>)
    requires Meets(b, c, names, rev) && Meets(b', c', names, rev) && rev.Effective() == {}
    requires (forall p :: 0 <= p < |ks| ==> ks[p] in c) && TwinDict(b, b', w, tb) && TwinDict(c, c', w, tc)
    requires forall x :: x in tb && x in tc ==> Touch(tb[x], tc[x], w.pool)
    requires forall x :: x in tb ==> PlanOf(b[x], tb[x], start, tr)
    ensures AllTwins(Matched(ks, b, c, rev, names), Matched(ks, b', c', rev, names), w, r)
    ensures Anchored(Matched(ks, b, c, rev, names), r, start, tr)
  {
    hide Twin, Merge, Mergeable, Meets, Touch, PlanOf, AnchoredAt, Matched;
    r := [];
    if ks == [] {
      MatchedNone(b, c, rev, names);
      MatchedNone(b', c', rev, names);
    } else {
      var front, last := ks[..|ks| - 1], ks[|ks| - 1];
      r := MatchedTwins(front, b, c, b', c', rev, names, w, tb, tc, start, tr);
      assert ks[..|ks| - 1 + 1] == ks;
      MatchedStep(ks, |ks| - 1, b, c, rev, names);
      MatchedStep(ks, |ks| - 1, b', c', rev, names);
      if last in b {
        MatchTwin(b, c, b', c', rev, names, w, tb, tc, last, start, tr);
        r := r + [Join(tb[last], tc[last])];
      }
    }
  }

  /* ---------- the whole pass ---------- */

  lemma AnchoredConcat(a: seq<Fingerprint>, b: seq<Fingerprint>, ta: seq<Plan>, tb: seq<Plan>, start: nat,
                       tr: seq<Plan>)
    requires Anchored(a, ta, start, tr) && Anchored(b, tb, start, tr)
    ensures Anchored(a + b, ta + tb, start, tr)
  {
    hide AnchoredAt;
  }

  /** Copies with one id touch, because they are made of one fingerprint. */
  lemma AnchoredTouching(copies: seq<Fingerprint>, plans: seq<Plan>, start: nat, tr: seq<Plan>, pool: seq<Fingerprint>)
    requires Anchored(copies, plans, start, tr)
    ensures Touching(GlobalId, copies, plans, pool)
  {
    forall i, j | 0 <= i < j < |copies| && Get(copies[i], GlobalId) == Get(copies[j], GlobalId)
      ensures Touch(plans[i], plans[j], pool)
    {
      assert AnchoredAt(copies[i], plans[i], start, tr) && AnchoredAt(copies[j], plans[j], start, tr);
      var n :| n in Positions(tr[copies[i].gid.value - start]);
      assert n in Positions(plans[i]) && n in Positions(plans[j]);
    }
  }

  /** Folding the copies by their ids. */
  lemma FoldTwins(a: seq<Fingerprint>, b: seq<Fingerprint>, names: seq<string>, w: Runs, plans: seq<Plan>,
                  start: nat, tr: seq<Plan>)
    returns (r: seq<Plan>)
    requires AllFit(a, Shape(names, true)) && AllTwins(a, b, w, plans) && Anchored(a, plans, start, tr)
    ensures AllFit(b, Shape(names, true))
    ensures AllTwins(UntagAll(DedupPass(GlobalId, a, Shape(names, true))),
                     UntagAll(DedupPass(GlobalId, b, Shape(names, true))), w, r)
  {
    hide DedupPass, Twin, Fits, Anchored, Touching;
    TwinsFit(a, b, w, plans, Shape(names, true));
    AnchoredTouching(a, plans, start, tr, w.pool);
    r := PassTwins(GlobalId, a, b, Shape(names, true), w, plans);
    var d, e := DedupPass(GlobalId, a, Shape(names, true)), DedupPass(GlobalId, b, Shape(names, true));
    forall p | 0 <= p < |d| ensures Twin(UntagAll(d)[p], UntagAll(e)[p], w, r[p]) {
      TagTwin(d[p], e[p], w, r[p], None);
    }
  }

  lemma PlansAnchored(fps: seq<Fingerprint>, plans: seq<Plan>, start: nat, tr: seq<Plan>)
    requires |plans| == |fps| && forall p :: 0 <= p < |plans| ==> PlanOf(fps[p], plans[p], start, tr)
    ensures Anchored(fps, plans, start, tr)
  {
  }

  lemma BaseCopiesTwins(bi: Index, ci: Index, bi': Index, ci': Index, rev: ReverseKeys, names: seq<string>, w: Runs,
                        nb: seq<Plan>, tb: map<Scalar, Plan>, nc: seq<Plan>, tc: map<Scalar, Plan>,
                        start: nat, tr: seq<Plan>, mid: nat, other: seq<Plan>)
    returns (r: seq<Plan>)
    requires bi.dict.Valid() && ci.dict.Valid() && bi'.dict.Valid() && ci'.dict.Valid() && rev.Effective() == {}
    requires Meets(bi.dict.vals, ci.dict.vals, names, rev) && AllFit(bi.noKey, Shape(names, true))
    requires Meets(bi'.dict.vals, ci'.dict.vals, names, rev) && AllFit(bi'.noKey, Shape(names, true))
    requires TwinIndex(bi, bi', w, nb, tb, start, tr)
    requires TwinIndex(ci, ci', w, nc, tc, mid, other)
    requires forall x :: x in tb && x in tc ==> Touch(tb[x], tc[x], w.pool)
    ensures AllTwins(BaseCopies(bi, ci, rev, names), BaseCopies(bi', ci', rev, names), w, r)
    ensures Anchored(BaseCopies(bi, ci, rev, names), r, start, tr)
  {
    hide Twin, Fits, Meets, Matched, Apart, Touch, PlanOf, Anchored;
    var b, c, b', c' := bi.dict.vals, ci.dict.vals, bi'.dict.vals, ci'.dict.vals;
    var tm := MatchedTwins(ci.dict.keys, b, c, b', c', rev, names, w, tb, tc, start, tr);
    var ta := ApartTwins(bi.dict.keys, b, b', c, c', w, tb, start, tr);
    PlansAnchored(bi.noKey, nb, start, tr);
    var m, m' := Matched(ci.dict.keys, b, c, rev, names), Matched(ci'.dict.keys, b', c', rev, names);
    var l, l' := Apart(bi.dict.keys, b, c), Apart(bi'.dict.keys, b', c');
    TwinsConcat(bi.noKey, bi'.noKey, m, m', w, nb, tm);
    TwinsConcat(bi.noKey + m, bi'.noKey + m', l, l', w, nb + tm, ta);
    AnchoredConcat(bi.noKey, m, nb, tm, start, tr);
    AnchoredConcat(bi.noKey + m, l, nb + tm, ta, start, tr);
    r := nb + tm + ta;
  }

  lemma CandCopiesTwins(bi: Index, ci: Index, bi': Index, ci': Index, w: Runs, nb: seq<Plan>, tb: map<Scalar, Plan>,
                        nc: seq<Plan>, tc: map<Scalar, Plan>, start: nat, tr: seq<Plan>, first: nat, other: seq<Plan>)
    returns (r: seq<Plan>)
    requires ci.dict.Valid() && ci'.dict.Valid() && TwinIndex(ci, ci', w, nc, tc, start, tr)
    requires TwinIndex(bi, bi', w, nb, tb, first, other)
    ensures AllTwins(CandCopies(bi, ci), CandCopies(bi', ci'), w, r)
    ensures Anchored(CandCopies(bi, ci), r, start, tr)
  {
    hide Twin, Apart, PlanOf, Anchored;
    var ta := ApartTwins(ci.dict.keys, ci.dict.vals, ci'.dict.vals, bi.dict.vals, bi'.dict.vals, w, tc, start, tr);
    PlansAnchored(ci.noKey, nc, start, tr);
    var l, l' := Apart(ci.dict.keys, ci.dict.vals, bi.dict.vals), Apart(ci'.dict.keys, ci'.dict.vals, bi'.dict.vals);
    TwinsConcat(ci.noKey, ci'.noKey, l, l', w, nc, ta);
    AnchoredConcat(ci.noKey, l, nc, ta, start, tr);
    r := nc + ta;
  }

  lemma AllEntriesTouch(bk: string, base: seq<Fingerprint>, base': seq<Fingerprint>, ck: string, cand: seq<Fingerprint>,
                        cand': seq<Fingerprint>, start: nat, w: Runs, nb: seq<Plan>, tb: map<Scalar, Plan>,
                        nc: seq<Plan>, tc: map<Scalar, Plan>, pb: seq<Plan>, pc: seq<Plan>)
    requires Orderly(w) && KeyPair(bk, ck) in KEY_PAIRS
    requires TwinIndex(IndexScan(bk, base, start), IndexScan(bk, base', start), w, nb, tb, start, pb)
    requires TwinIndex(IndexScan(ck, cand, start + |base|), IndexScan(ck, cand', start + |base|), w, nc, tc,
                       start + |base|, pc)
    ensures forall x :: x in tb && x in tc ==> Touch(tb[x], tc[x], w.pool)
  {
    hide IndexScan, Rooted, Alike, Linked, Touch, Orderly;
    forall x | x in tb && x in tc ensures Touch(tb[x], tc[x], w.pool) {
      EntriesTouch(bk, base, ck, cand, start, w, tb[x], tc[x], x);
    }
  }

  lemma SameLengths(a: seq<Fingerprint>, b: seq<Fingerprint>, w: Runs, tr: seq<Plan>)
    requires AllTwins(a, b, w, tr)
    ensures |a| == |b| == |tr|
  {
  }

  /** The conditions of the pass hold in the second run too. */
  lemma TwinInputs(base: seq<Fingerprint>, base': seq<Fingerprint>, cand: seq<Fingerprint>, cand': seq<Fingerprint>,
                   rev: ReverseKeys, names: seq<string>, candNames: seq<string>, w: Runs, tb: seq<Plan>, tc: seq<Plan>)
    requires PassInputs(base, cand, rev, names, candNames) && rev.Effective() == {}
    requires AllTwins(base, base', w, tb) && AllTwins(cand, cand', w, tc)
    ensures PassInputs(base', cand', rev, names, candNames)
  {
    hide Twin, Fits;
    TwinsFit(base, base', w, tb, Shape(names, false));
    TwinsFit(cand, cand', w, tc, Shape(candNames, false));
  }

  /** What a pass folds, before it does. */
  ghost predicate Copied(bk: string, base: seq<Fingerprint>, ck: string, cand: seq<Fingerprint>, rev: ReverseKeys,
                         start: nat, names: seq<string>, candNames: seq<string>, bs: seq<Fingerprint>,
                         cs: seq<Fingerprint>) {
    var bi, ci := IndexScan(bk, base, start), IndexScan(ck, cand, start + |base|);
    && Meets(bi.dict.vals, ci.dict.vals, names, rev) && AllFit(bi.noKey, Shape(names, true))
    && bs == BaseCopies(bi, ci, rev, names) && cs == CandCopies(bi, ci)
    && AllFit(bs, Shape(names, true)) && AllFit(cs, Shape(candNames, true))
  }

  lemma PassCopies(bk: string, base: seq<Fingerprint>, ck: string, cand: seq<Fingerprint>, rev: ReverseKeys,
                   start: nat, names: seq<string>, candNames: seq<string>)
    returns (bs: seq<Fingerprint>, cs: seq<Fingerprint>)
    requires PassInputs(base, cand, rev, names, candNames)
    ensures Copied(bk, base, ck, cand, rev, start, names, candNames, bs, cs)
    ensures Pass(bk, base, ck, cand, rev, start, names, candNames)
            == PassResult(UntagAll(DedupPass(GlobalId, bs, Shape(names, true))),
                          UntagAll(DedupPass(GlobalId, cs, Shape(candNames, true))))
  {
    hide IndexScan, Fits, Meets, DedupPass, Matched, Apart;
    var bi, ci := IndexScan(bk, base, start), IndexScan(ck, cand, start + |base|);
    IndexFits(bk, base, start, names);
    IndexFits(ck, cand, start + |base|, candNames);
    IndexesMeet(bk, base, ck, cand, rev, start, names, candNames);
    CandCopiesFit(bi, ci, Shape(candNames, true));
    bs, cs := BaseCopies(bi, ci, rev, names), CandCopies(bi, ci);
  }

  lemma CopiesTwins(bk: string, base: seq<Fingerprint>, base': seq<Fingerprint>, ck: string, cand: seq<Fingerprint>,
                    cand': seq<Fingerprint>, rev: ReverseKeys, start: nat, names: seq<string>, candNames: seq<string>,
                    w: Runs, tb: seq<Plan>, tc: seq<Plan>,
                    bs: seq<Fingerprint>, cs: seq<Fingerprint>, bs': seq<Fingerprint>, cs': seq<Fingerprint>)
    returns (b: seq<Plan>, c: seq<Plan>)
    requires rev.Effective() == {} && Orderly(w) && KeyPair(bk, ck) in KEY_PAIRS
    requires AllTwins(base, base', w, tb) && AllTwins(cand, cand', w, tc)
    requires Copied(bk, base, ck, cand, rev, start, names, candNames, bs, cs)
    requires Copied(bk, base', ck, cand', rev, start, names, candNames, bs', cs')
    ensures AllTwins(bs, bs', w, b) && Anchored(bs, b, start, tb)
    ensures AllTwins(cs, cs', w, c) && Anchored(cs, c, start + |base|, tc)
  {
    hide IndexScan, AllTwins, Fits, Meets, BaseCopies, CandCopies, TwinIndex, Touch, Orderly, Anchored;
    SameLengths(base, base', w, tb);
    var mid := start + |base|;
    var bi, ci, bi', ci' := IndexScan(bk, base, start), IndexScan(ck, cand, mid), IndexScan(bk, base', start),
        IndexScan(ck, cand', mid);
    var nb, db := IndexTwins(bk, base, base', start, w, tb);
    var nc, dc := IndexTwins(ck, cand, cand', mid, w, tc);
    AllEntriesTouch(bk, base, base', ck, cand, cand', start, w, nb, db, nc, dc, tb, tc);
    b := BaseCopiesTwins(bi, ci, bi', ci', rev, names, w, nb, db, nc, dc, start, tb, mid, tc);
    c := CandCopiesTwins(bi, ci, bi', ci', w, nb, db, nc, dc, mid, tc, start, tb);
  }

  /** A pass by one of the key pairs makes the same merges in both runs, and only between
      fingerprints that touch. */
  lemma MergePassTwins(bk: string, base: seq<Fingerprint>, base': seq<Fingerprint>, ck: string, cand: seq<Fingerprint>,
                       cand': seq<Fingerprint>, rev: ReverseKeys, start: nat, names: seq<string>,
                       candNames: seq<string>, w: Runs, tb: seq<Plan>, tc: seq<Plan>)
    returns (b: seq<Plan>, c: seq<Plan>)
    requires PassInputs(base, cand, rev, names, candNames) && rev.Effective() == {} && Orderly(w)
    requires KeyPair(bk, ck) in KEY_PAIRS
    requires AllTwins(base, base', w, tb) && AllTwins(cand, cand', w, tc)
    ensures PassInputs(base', cand', rev, names, candNames)
    ensures AllTwins(Pass(bk, base, ck, cand, rev, start, names, candNames).base,
                     Pass(bk, base', ck, cand', rev, start, names, candNames).base, w, b)
    ensures AllTwins(Pass(bk, base, ck, cand, rev, start, names, candNames).cand,
                     Pass(bk, base', ck, cand', rev, start, names, candNames).cand, w, c)
  {
    hide Pass, Twin, Fits, Orderly, Anchored, DedupPass;
    TwinInputs(base, base', cand, cand', rev, names, candNames, w, tb, tc);
    var bs, cs := PassCopies(bk, base, ck, cand, rev, start, names, candNames);
    var bs', cs' := PassCopies(bk, base', ck, cand', rev, start, names, candNames);
    b, c := CopiesTwins(bk, base, base', ck, cand, cand', rev, start, names, candNames, w, tb, tc, bs, cs, bs', cs');
    hide Copied;
    b := FoldTwins(bs, bs', names, w, b, start, tb);
    c := FoldTwins(cs, cs', candNames, w, c, start + |base|, tc);
  }
}
