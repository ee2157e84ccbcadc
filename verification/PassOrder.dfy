/** In which order a merge pass lists its outputs. Later passes depend on it, because the first
    fingerprint to claim a key owns it. */
module PassOrder {
  import opened OrderedDict
  import opened Fingerprints
  import opened Dedup
  import opened Index
  import opened MergePass
  import opened PassLaws
  import opened PassOutputs

  /* ---------- the reference order ---------- */

  /** The positions of the fingerprints without a key, from left to right. */
  function Keyless(name: string, fps: seq<Fingerprint>): seq<nat> {
    if fps == [] then []
    else Keyless(name, fps[..|fps| - 1]) + if Claims(fps[|fps| - 1], name) == [] then [|fps| - 1] else []
  }

  /** The owners of the keys, key by key. */
  function OwnersOf(name: string, fps: seq<Fingerprint>, ks: seq<Scalar>): seq<nat> {
    if ks == [] then []
    else
      var o := Owner(name, fps, ks[|ks| - 1]);
      OwnersOf(name, fps, ks[..|ks| - 1]) + if o.Some? then [o.value] else []
  }

  /** The keys that nobody in the list claims. */
  function Unclaimed(name: string, fps: seq<Fingerprint>, ks: seq<Scalar>): seq<Scalar> {
    if ks == [] then []
    else
      var x := ks[|ks| - 1];
      Unclaimed(name, fps, ks[..|ks| - 1]) + if Owner(name, fps, x).None? then [x] else []
  }

  /** Bases without a key in input order, then the owners of the keys that a candidate claims, in
      the order in which the candidates claim them, then the owners of the other keys. */
  function BaseOrder(bk: string, base: seq<Fingerprint>, ck: string, cand: seq<Fingerprint>): seq<nat> {
    FirstSeen(Keyless(bk, base) + OwnersOf(bk, base, KeyOrder(ck, cand))
              + OwnersOf(bk, base, Unclaimed(ck, cand, KeyOrder(bk, base))))
  }

  /** Candidates without a key in input order, then the owners of the keys that no base claims. */
  function CandOrder(bk: string, base: seq<Fingerprint>, ck: string, cand: seq<Fingerprint>): seq<nat> {
    FirstSeen(Keyless(ck, cand) + OwnersOf(ck, cand, Unclaimed(bk, base, KeyOrder(ck, cand))))
  }

  /* ---------- ids ---------- */

  predicate Tagged(fps: seq<Fingerprint>) {
    forall i :: 0 <= i < |fps| ==> fps[i].gid.Some?
  }

  function Gids(fps: seq<Fingerprint>): (ids: seq<nat>)
    requires Tagged(fps)
    ensures |ids| == |fps| && forall i :: 0 <= i < |fps| ==> fps[i].gid == Some(ids[i])
  {
    seq(|fps|, i requires 0 <= i < |fps| => fps[i].gid.value)
  }

  function Shift(s: seq<nat>, start: nat): (r: seq<nat>)
    ensures |r| == |s| && forall i :: 0 <= i < |s| ==> r[i] == start + s[i]
  {
    seq(|s|, i requires 0 <= i < |s| => start + s[i])
  }

  lemma ShiftConcat(a: seq<nat>, b: seq<nat>, start: nat)
    ensures Shift(a + b, start) == Shift(a, start) + Shift(b, start)
  {
  }

  lemma GidsConcat(a: seq<Fingerprint>, b: seq<Fingerprint>)
    requires Tagged(a) && Tagged(b)
    ensures Tagged(a + b) && Gids(a + b) == Gids(a) + Gids(b)
  {
  }

  lemma {:induction false} SeenShifted(s: seq<nat>, start: nat)
    ensures FirstSeen(Shift(s, start)) == Shift(FirstSeen(s), start)
  {
    if s != [] {
      hide Distinct, Elements;
      var front, x := s[..|s| - 1], s[|s| - 1];
      SeenShifted(front, start);
      assert Shift(s, start)[..|s| - 1] == Shift(front, start);
      ShiftConcat(FirstSeen(front), [x], start);
      ShiftedIn(FirstSeen(front), x, start);
      assert Shift([x], start) == [start + x];
    }
  }

  lemma ShiftedIn(s: seq<nat>, x: nat, start: nat)
    ensures start + x in Shift(s, start) <==> x in s
  {
    if x in s {
      var i :| 0 <= i < |s| && s[i] == x;
      assert Shift(s, start)[i] == start + x;
    }
  }

  /** The listed order of ids as dictionary keys. */
  function Uids(ids: seq<nat>): (r: seq<Scalar>)
    ensures |r| == |ids| && forall i :: 0 <= i < |ids| ==> r[i] == Uid(ids[i])
  {
    seq(|ids|, i requires 0 <= i < |ids| => Uid(ids[i]))
  }

  lemma {:induction false} KeysAreIds(copies: seq<Fingerprint>)
    requires Tagged(copies) && ScalarKeyed(GlobalId, copies)
    ensures KeysInOrder(GlobalId, copies) == Uids(FirstSeen(Gids(copies)))
  {
    if copies != [] {
      hide Distinct, Elements;
      var front, last := copies[..|copies| - 1], copies[|copies| - 1];
      KeysAreIds(front);
      var ids := FirstSeen(Gids(front));
      assert Gids(copies)[..|copies| - 1] == Gids(front) && Gids(copies)[|copies| - 1] == last.gid.value;
      assert Uid(last.gid.value) in Uids(ids) <==> last.gid.value in ids by {
        if last.gid.value in ids {
          var i :| 0 <= i < |ids| && ids[i] == last.gid.value;
          assert Uids(ids)[i] == Uid(last.gid.value);
        }
      }
    }
  }

  /** Folding lists every id once, where it was seen first. */
  lemma FoldedOrder(copies: seq<Fingerprint>, names: seq<string>)
    requires AllFit(copies, Shape(names, true)) && Tagged(copies)
    ensures var r, ids := DedupPass(GlobalId, copies, Shape(names, true)), FirstSeen(Gids(copies));
            |r| == |ids| && forall p :: 0 <= p < |r| ==> r[p].gid == Some(ids[p])
  {
    hide DedupScan, Fits, FirstSeen, KeysInOrder, Unkeyed, AllFit;
    var sh := Shape(names, true);
    var st := DedupScan(GlobalId, copies, sh);
    NoneUntagged(st.noKey, names);
    ScanOrder(GlobalId, copies, sh);
    KeysAreIds(copies);
    var ids := FirstSeen(Gids(copies));
    forall p | 0 <= p < |ids| ensures st.Result()[p].gid == Some(ids[p]) {
      assert st.Result()[p] == st.dict.vals[st.dict.keys[p]] && st.dict.keys[p] == Uid(ids[p]);
    }
  }

  /* ---------- the copies, in order ---------- */

  lemma {:induction false} KeylessGids(name: string, fps: seq<Fingerprint>, start: nat)
    ensures Tagged(IndexScan(name, fps, start).noKey)
    ensures Gids(IndexScan(name, fps, start).noKey) == Shift(Keyless(name, fps), start)
  {
    hide IndexScan, Claims, FromList;
    if fps == [] {
      EmptyIndex(name, start);
    } else {
      var front, n := fps[..|fps| - 1], |fps| - 1;
      KeylessGids(name, front, start);
      NoKeyStep(name, fps, start);
      if Claims(fps[n], name) == [] {
        GidsConcat(IndexScan(name, front, start).noKey, [Tag(fps[n], start + n)]);
        ShiftConcat(Keyless(name, front), [n], start);
        assert Shift([n], start) == [start + n] == Gids([Tag(fps[n], start + n)]);
      } else {
        assert Keyless(name, front) + [] == Keyless(name, front);
      }
    }
  }

  lemma OneGid(fp: Fingerprint, o: nat, start: nat)
    requires fp.gid == Some(start + o)
    ensures Gids([fp]) == Shift([o], start)
  {
  }

  lemma {:induction false} MatchedGids(bk: string, base: seq<Fingerprint>, c: Entries, rev: ReverseKeys, start: nat,
                                       names: seq<string>, ks: seq<Scalar>)
    requires var b := IndexScan(bk, base, start).dict.vals;
             Meets(b, c, names, rev) && forall i :: 0 <= i < |ks| ==> ks[i] in c
    ensures var m := Matched(ks, IndexScan(bk, base, start).dict.vals, c, rev, names);
            Tagged(m) && Gids(m) == Shift(OwnersOf(bk, base, ks), start)
  {
    hide IndexScan, Meets, Merge, Mergeable, Matched, Owner, Gids, Shift;
    var b := IndexScan(bk, base, start).dict.vals;
    if ks == [] {
      MatchedNone(b, c, rev, names);
      NoGids(start);
    } else {
      var front, x := ks[..|ks| - 1], ks[|ks| - 1];
      MatchedGids(bk, base, c, rev, start, names, front);
      assert ks[..|ks| - 1 + 1] == ks;
      MatchedStep(ks, |ks| - 1, b, c, rev, names);
      IndexedByOwner(bk, base, start, x);
      var m, owners := Matched(front, b, c, rev, names), OwnersOf(bk, base, front);
      if x in b {
        MatchedGid(b, c, rev, names, x);
        OneGid(Merge(b[x], c[x], rev), Owner(bk, base, x).value, start);
        GidsConcat(m, [Merge(b[x], c[x], rev)]);
        ShiftConcat(owners, [Owner(bk, base, x).value], start);
      } else {
        assert m + [] == m && owners + [] == owners;
      }
    }
  }

  lemma NoGids(start: nat)
    ensures Gids([]) == [] && Shift([], start) == []
  {
  }

  lemma {:induction false} ApartGids(name: string, fps: seq<Fingerprint>, start: nat, other: string,
                                     others: seq<Fingerprint>, begin: nat, ks: seq<Scalar>)
    requires forall i :: 0 <= i < |ks| ==> ks[i] in IndexScan(name, fps, start).dict.vals
    ensures var a := Apart(ks, IndexScan(name, fps, start).dict.vals, IndexScan(other, others, begin).dict.vals);
            Tagged(a) && Gids(a) == Shift(OwnersOf(name, fps, Unclaimed(other, others, ks)), start)
  {
    hide IndexScan, Owner, Gids, Shift;
    var d, e := IndexScan(name, fps, start).dict.vals, IndexScan(other, others, begin).dict.vals;
    if ks == [] {
      NoGids(start);
    } else {
      var front, x := ks[..|ks| - 1], ks[|ks| - 1];
      ApartGids(name, fps, start, other, others, begin, front);
      IndexedByOwner(name, fps, start, x);
      IndexedByOwner(other, others, begin, x);
      var a, un := Apart(front, d, e), Unclaimed(other, others, front);
      var owners := OwnersOf(name, fps, un);
      if x !in e {
        OneGid(d[x], Owner(name, fps, x).value, start);
        GidsConcat(a, [d[x]]);
        ShiftConcat(owners, [Owner(name, fps, x).value], start);
        assert (un + [x])[..|un|] == un;
      } else {
        assert un + [] == un;
      }
    }
  }

  /* ---------- the order of the outputs ---------- */

  ghost predicate ListedAs(fps: seq<Fingerprint>, order: seq<nat>, start: nat) {
    |fps| == |order| && forall p :: 0 <= p < |fps| ==> fps[p].gid == Some(start + order[p])
  }

  lemma BaseGids(bk: string, base: seq<Fingerprint>, ck: string, cand: seq<Fingerprint>, rev: ReverseKeys,
                 start: nat, names: seq<string>)
    requires var bi, ci := IndexScan(bk, base, start), IndexScan(ck, cand, start + |base|);
             Meets(bi.dict.vals, ci.dict.vals, names, rev) && AllFit(bi.noKey, Shape(names, true))
    ensures var bi, ci := IndexScan(bk, base, start), IndexScan(ck, cand, start + |base|);
            var copies := BaseCopies(bi, ci, rev, names);
            Tagged(copies) && Gids(copies) == Shift(Keyless(bk, base) + OwnersOf(bk, base, KeyOrder(ck, cand))
                                                    + OwnersOf(bk, base, Unclaimed(ck, cand, KeyOrder(bk, base))),
                                                        start)
  {
    hide IndexScan, Meets, Matched, Apart, Fits, Gids, Shift, Tagged, KeyOrder, Keyless, OwnersOf, Unclaimed;
    var bi, ci := IndexScan(bk, base, start), IndexScan(ck, cand, start + |base|);
    IndexOrder(bk, base, start);
    IndexOrder(ck, cand, start + |base|);
    KeylessGids(bk, base, start);
    MatchedGids(bk, base, ci.dict.vals, rev, start, names, ci.dict.keys);
    ApartGids(bk, base, start, ck, cand, start + |base|, bi.dict.keys);
    var m := Matched(ci.dict.keys, bi.dict.vals, ci.dict.vals, rev, names);
    var a := Apart(bi.dict.keys, bi.dict.vals, ci.dict.vals);
    GidsConcat(bi.noKey, m);
    GidsConcat(bi.noKey + m, a);
    var k, o, u := Keyless(bk, base), OwnersOf(bk, base, KeyOrder(ck, cand)),
        OwnersOf(bk, base, Unclaimed(ck, cand, KeyOrder(bk, base)));
    ShiftConcat(k, o, start);
    ShiftConcat(k + o, u, start);
  }

  lemma CandGids(bk: string, base: seq<Fingerprint>, ck: string, cand: seq<Fingerprint>, start: nat)
    ensures var bi, ci := IndexScan(bk, base, start), IndexScan(ck, cand, start + |base|);
            var copies := CandCopies(bi, ci);
            Tagged(copies) && Gids(copies) == Shift(Keyless(ck, cand)
                                                    + OwnersOf(ck, cand, Unclaimed(bk, base, KeyOrder(ck, cand))),
                                                    start + |base|)
  {
    hide IndexScan, Apart, Gids, Shift, Tagged, KeyOrder, Keyless, OwnersOf, Unclaimed;
    var bi, ci := IndexScan(bk, base, start), IndexScan(ck, cand, start + |base|);
    IndexOrder(ck, cand, start + |base|);
    KeylessGids(ck, cand, start + |base|);
    ApartGids(ck, cand, start + |base|, bk, base, start, ci.dict.keys);
    GidsConcat(ci.noKey, Apart(ci.dict.keys, ci.dict.vals, bi.dict.vals));
    ShiftConcat(Keyless(ck, cand), OwnersOf(ck, cand, Unclaimed(bk, base, KeyOrder(ck, cand))), start + |base|);
  }

  /** The base outputs stand in the reference order. */
  lemma BaseListedAs(bk: string, base: seq<Fingerprint>, ck: string, cand: seq<Fingerprint>, rev: ReverseKeys,
                     start: nat, names: seq<string>, candNames: seq<string>)
    requires PassInputs(base, cand, rev, names, candNames)
    ensures ListedAs(TaggedPass(bk, base, ck, cand, rev, start, names, candNames).base, BaseOrder(bk, base, ck, cand),
                     start)
  {
    hide IndexScan, Meets, Fits, DedupPass, BaseCopies, Gids, Tagged, FirstSeen, Keyless, OwnersOf, Unclaimed, KeyOrder;
    var bi, ci := IndexScan(bk, base, start), IndexScan(ck, cand, start + |base|);
    IndexFits(bk, base, start, names);
    IndexesMeet(bk, base, ck, cand, rev, start, names, candNames);
    BaseGids(bk, base, ck, cand, rev, start, names);
    FoldedOrder(BaseCopies(bi, ci, rev, names), names);
    SeenShifted(Keyless(bk, base) + OwnersOf(bk, base, KeyOrder(ck, cand))
                + OwnersOf(bk, base, Unclaimed(ck, cand, KeyOrder(bk, base))), start);
  }

  /** And so do the carried candidates. */
  lemma CandListedAs(bk: string, base: seq<Fingerprint>, ck: string, cand: seq<Fingerprint>, rev: ReverseKeys,
                     start: nat, names: seq<string>, candNames: seq<string>)
    requires PassInputs(base, cand, rev, names, candNames)
    ensures ListedAs(TaggedPass(bk, base, ck, cand, rev, start, names, candNames).cand, CandOrder(bk, base, ck, cand),
                     start + |base|)
  {
    hide IndexScan, Meets, Fits, DedupPass, CandCopies, Gids, Tagged, FirstSeen, Keyless, OwnersOf, Unclaimed, KeyOrder,
         BaseCopies;
    var bi, ci := IndexScan(bk, base, start), IndexScan(ck, cand, start + |base|);
    IndexFits(ck, cand, start + |base|, candNames);
    CandCopiesFit(bi, ci, Shape(candNames, true));
    CandGids(bk, base, ck, cand, start);
    FoldedOrder(CandCopies(bi, ci), candNames);
    SeenShifted(Keyless(ck, cand) + OwnersOf(ck, cand, Unclaimed(bk, base, KeyOrder(ck, cand))), start + |base|);
  }

  lemma {:induction false} SeenPrefix<T>(a: seq<T>, b: seq<T>)
    requires Distinct(a)
    ensures |a| <= |FirstSeen(a + b)| && FirstSeen(a + b)[..|a|] == a
  {
    if b == [] {
      assert a + b == a;
      SeenAll(a);
    } else {
      hide Distinct, Elements;
      var front := b[..|b| - 1];
      SeenPrefix(a, front);
      assert (a + b)[..|a + b| - 1] == a + front;
    }
  }

  lemma {:induction false} SeenAll<T>(s: seq<T>)
    requires Distinct(s)
    ensures FirstSeen(s) == s
  {
    if s != [] {
      var front := s[..|s| - 1];
      SeenAll(front);
      assert s[|s| - 1] !in front;
    }
  }

  lemma {:induction false} KeylessIncreasing(name: string, fps: seq<Fingerprint>)
    ensures var k := Keyless(name, fps);
            && (forall n :: 0 <= n < |k| ==> k[n] < |fps| && Claims(fps[k[n]], name) == [])
            && (forall n, m :: 0 <= n < m < |k| ==> k[n] < k[m])
            && (forall i :: 0 <= i < |fps| && Claims(fps[i], name) == [] ==> i in k)
  {
    hide Claims;
    if fps != [] {
      KeylessIncreasing(name, fps[..|fps| - 1]);
    }
  }

  /** Fingerprints without a key come first and keep their order, on both sides. */
  lemma KeylessLead(bk: string, base: seq<Fingerprint>, ck: string, cand: seq<Fingerprint>)
    ensures var k, order := Keyless(bk, base), BaseOrder(bk, base, ck, cand); |k| <= |order| && order[..|k|] == k
    ensures var k, order := Keyless(ck, cand), CandOrder(bk, base, ck, cand); |k| <= |order| && order[..|k|] == k
  {
    hide FirstSeen, Keyless, OwnersOf, Unclaimed, KeyOrder;
    KeylessIncreasing(bk, base);
    KeylessIncreasing(ck, cand);
    assert Distinct(Keyless(bk, base)) && Distinct(Keyless(ck, cand));
    var met, alone := OwnersOf(bk, base, KeyOrder(ck, cand)),
        OwnersOf(bk, base, Unclaimed(ck, cand, KeyOrder(bk, base)));
    SeenPrefix(Keyless(bk, base), met + alone);
    assert Keyless(bk, base) + (met + alone) == Keyless(bk, base) + met + alone;
    SeenPrefix(Keyless(ck, cand), OwnersOf(ck, cand, Unclaimed(bk, base, KeyOrder(ck, cand))));
  }

  /** Both outputs of a pass, entry by entry and in order: each base output is the fold of the
      copies of the base that stands at its place in the reference order, and each carried
      output that of a candidate. */
  lemma PassListed(bk: string, base: seq<Fingerprint>, ck: string, cand: seq<Fingerprint>, rev: ReverseKeys,
                   start: nat, names: seq<string>, candNames: seq<string>, p: nat)
    requires PassInputs(base, cand, rev, names, candNames)
    ensures var t, order := TaggedPass(bk, base, ck, cand, rev, start, names, candNames), BaseOrder(bk, base, ck, cand);
            && |t.base| == |order|
            && (p < |order| ==>
                  order[p] < |base| && IsFold(t.base[p], CopiesOf(bk, base, ck, cand, rev, start, names, candNames,
                                                                  order[p]),
                                              Shape(names, true)))
    ensures var t, order := TaggedPass(bk, base, ck, cand, rev, start, names, candNames), CandOrder(bk, base, ck, cand);
            && |t.cand| == |order|
            && (p < |order| ==>
                  order[p] < |cand| && IsFold(t.cand[p], CarriedCopies(bk, base, ck, cand, start, order[p]),
                                              Shape(candNames, true)))
  {
    hide TaggedPass, BaseOrder, CandOrder, CopiesOf, CarriedCopies, IsFold, PassInputs;
    var t := TaggedPass(bk, base, ck, cand, rev, start, names, candNames);
    BaseListedAs(bk, base, ck, cand, rev, start, names, candNames);
    CandListedAs(bk, base, ck, cand, rev, start, names, candNames);
    if p < |t.base| {
      var o := BaseOutputIs(bk, base, ck, cand, rev, start, names, candNames, p);
    }
    if p < |t.cand| {
      var j := CarriedOutputIs(bk, base, ck, cand, rev, start, names, candNames, p);
    }
  }
}
