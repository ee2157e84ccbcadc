/** Which inputs each fingerprint of the engine is made of. A plan is a tree of merges over
    positions in the pool of inputs. To see that a plan names the merges which the engine makes,
    and not just merges with the same value, two runs are followed side by side: one on the
    inputs, and one on a copy of them in which every input has a source of its own. */
module Derivation {
  import opened OrderedDict
  import opened Fingerprints
  import opened MergeLaws
  import opened MergeTrees
  import opened Dedup
  import opened Index
  import opened MergePass
  import opened Processors
  import opened Pipeline

  datatype Plan = At(i: nat) | Join(left: Plan, right: Plan)

  function Positions(plan: Plan): (s: set<nat>)
    ensures s != {}
  {
    match plan
    case At(i) => {i}
    case Join(l, r) => Positions(l) + Positions(r)
  }

  predicate Inside(plan: Plan, n: nat) {
    match plan
    case At(i) => i < n
    case Join(l, r) => Inside(l, n) && Inside(r, n)
  }

  lemma {:induction false} PositionsInside(plan: Plan, n: nat)
    ensures Inside(plan, n) <==> forall i :: i in Positions(plan) ==> i < n
  {
    match plan
    case At(i) =>
      assert i in Positions(plan);
    case Join(l, r) =>
      PositionsInside(l, n);
      PositionsInside(r, n);
      assert forall i :: i in Positions(plan) <==> i in Positions(l) || i in Positions(r);
  }

  function Grow(plan: Plan, pool: seq<Fingerprint>): Tree
    requires Inside(plan, |pool|)
  {
    match plan
    case At(i) => Leaf(pool[i])
    case Join(l, r) => Node(Grow(l, pool), Grow(r, pool))
  }

  /** The fingerprint is the value of the plan; global ids do not matter. */
  ghost predicate Rooted(fp: Fingerprint, pool: seq<Fingerprint>, plan: Plan) {
    Inside(plan, |pool|) && Evaluable(Grow(plan, pool)) && Eval(Grow(plan, pool)) == Untagged(fp)
  }

  /* ---------- what entitles the engine to merge ---------- */

  /** The facts that the engine compares, one of the prior and one of the other fingerprint. */
  const KEY_PAIRS := [
    KeyPair(SUBSCRIPTION_MANAGER_ID, SUBSCRIPTION_MANAGER_ID), KeyPair(BIOS_UUID, BIOS_UUID), KeyPair(VM_UUID, VM_UUID),
    KeyPair(BIOS_UUID, VM_UUID), KeyPair(MAC_ADDRESSES, MAC_ADDRESSES)]

  /** Both claim some value of a pair of keys. */
  ghost predicate ShareKey(a: Fingerprint, b: Fingerprint) {
    exists pair, x :: pair in KEY_PAIRS && x in Claims(a, pair.base) && x in Claims(b, pair.cand)
  }

  /** The plans have an input in common, or inputs that share a key. */
  ghost predicate Touch(s: Plan, t: Plan, pool: seq<Fingerprint>) {
    exists i, j :: i in Positions(s) && j in Positions(t)
                   && (i == j || (i < |pool| && j < |pool| && ShareKey(pool[i], pool[j])))
  }

  /** Every merge of the plan is between fingerprints that touch. */
  ghost predicate Linked(plan: Plan, pool: seq<Fingerprint>) {
    plan.Join? ==> Linked(plan.left, pool) && Linked(plan.right, pool) && Touch(plan.left, plan.right, pool)
  }

  /* ---------- two runs side by side ---------- */

  /** The same up to the sources that facts come from. */
  ghost predicate Alike(f: Fingerprint, g: Fingerprint) {
    && f.facts == g.facts && f.meta.Keys == g.meta.Keys
    && (forall k :: k in f.meta ==>
          f.meta[k].hasSudo == g.meta[k].hasSudo && f.meta[k].rawFactKey == g.meta[k].rawFactKey)
    && f.entitlements == g.entitlements && f.products == g.products && f.gid == g.gid
  }

  /** The inputs of the two runs. */
  datatype Runs = Runs(pool: seq<Fingerprint>, marked: seq<Fingerprint>)

  predicate Orderly(w: Runs) {
    forall i :: 0 <= i < |w.pool| ==> WellFormed(w.pool[i])
  }

  /** Both runs reach alike fingerprints by one plan. */
  ghost predicate Twin(f: Fingerprint, g: Fingerprint, w: Runs, plan: Plan) {
    Alike(f, g) && Rooted(f, w.pool, plan) && Rooted(g, w.marked, plan) && Linked(plan, w.pool)
  }

  ghost predicate AllTwins(a: seq<Fingerprint>, b: seq<Fingerprint>, w: Runs, tr: seq<Plan>) {
    |a| == |b| == |tr| && forall p :: 0 <= p < |a| ==> Twin(a[p], b[p], w, tr[p])
  }

  ghost predicate TwinDict(d: Entries, e: Entries, w: Runs, td: map<Scalar, Plan>) {
    d.Keys == e.Keys == td.Keys && forall x :: x in d ==> Twin(d[x], e[x], w, td[x])
  }

  /* ---------- single fingerprints ---------- */

  lemma AlikeKeys(f: Fingerprint, g: Fingerprint, sh: Shape)
    requires Alike(f, g)
    ensures Fits(f, sh) <==> Fits(g, sh)
    ensures forall k :: Get(f, k) == Get(g, k)
    ensures forall name :: Claims(f, name) == Claims(g, name)
  {
  }

  lemma AlikeAdds(p: Fingerprint, q: Fingerprint, m: Fingerprint, n: Fingerprint, rev: ReverseKeys)
    requires Alike(p, q) && Alike(m, n)
    ensures KeysToAdd(p, m, rev) == KeysToAdd(q, n, rev) && Mergeable(p, m, rev) == Mergeable(q, n, rev)
  {
    assert KeysToAdd(p, m, rev) == KeysToAdd(q, n, rev);
    hide KeysToAdd;
  }

  lemma AlikeFacts(p: Fingerprint, q: Fingerprint, m: Fingerprint, n: Fingerprint, add: set<string>)
    requires Alike(p, q) && Alike(m, n) && add <= m.meta.Keys
    ensures MergedFacts(p, m, add) == MergedFacts(q, n, add)
    ensures var a, b := MergedMeta(p, m, add), MergedMeta(q, n, add);
            && a.Keys == b.Keys
            && forall k :: k in a ==> a[k].hasSudo == b[k].hasSudo && a[k].rawFactKey == b[k].rawFactKey
  {
  }

  lemma AlikeMerge(p: Fingerprint, q: Fingerprint, m: Fingerprint, n: Fingerprint, rev: ReverseKeys)
    requires Alike(p, q) && Alike(m, n) && Mergeable(p, m, rev)
    ensures Mergeable(q, n, rev) && Alike(Merge(p, m, rev), Merge(q, n, rev))
  {
    AlikeAdds(p, q, m, n, rev);
    AlikeFacts(p, q, m, n, KeysToAdd(p, m, rev));
    hide KeysToAdd, MergedProducts, MergedEntitlements, MergedFacts, MergedMeta, ProductsFound;
  }

  lemma LeafTwin(w: Runs, i: nat)
    requires i < |w.pool| && i < |w.marked| && Alike(w.pool[i], w.marked[i]) && w.pool[i].gid.None?
    ensures Twin(w.pool[i], w.marked[i], w, At(i))
  {
  }

  lemma TagTwin(f: Fingerprint, g: Fingerprint, w: Runs, plan: Plan, id: Option<nat>)
    requires Twin(f, g, w, plan)
    ensures Twin(f.(gid := id), g.(gid := id), w, plan)
  {
  }

  lemma UntaggedMergeAny(p: Fingerprint, m: Fingerprint, rev: ReverseKeys, names: seq<string>)
    requires Compatible(p, m, names, rev) && rev.Effective() == {}
    ensures Mergeable(p, m, rev) && Mergeable(Untagged(p), Untagged(m), NotGiven)
    ensures Merge(Untagged(p), Untagged(m), NotGiven) == Untagged(Merge(p, m, rev))
  {
    CompatibleMerges(p, m, names, rev);
    CompatibleMerges(Untagged(p), Untagged(m), names, NotGiven);
    hide Merge, Mergeable, Built;
    MergeIgnoresIds(p, m, rev, Untagged(p), Untagged(m), NotGiven);
  }

  /** A merge joins the plans of both sides. */
  lemma MergeRooted(p: Fingerprint, m: Fingerprint, rev: ReverseKeys, names: seq<string>, pool: seq<Fingerprint>,
                    s: Plan, t: Plan)
    requires Compatible(p, m, names, rev) && rev.Effective() == {}
    requires Rooted(p, pool, s) && Rooted(m, pool, t)
    ensures Mergeable(p, m, rev) && Rooted(Merge(p, m, rev), pool, Join(s, t))
  {
    hide Merge, Mergeable, Compatible;
    UntaggedMergeAny(p, m, rev, names);
  }

  lemma AlikeCompatible(p: Fingerprint, q: Fingerprint, m: Fingerprint, n: Fingerprint, names: seq<string>,
                        rev: ReverseKeys)
    requires Alike(p, q) && Alike(m, n) && Compatible(p, m, names, rev)
    ensures Compatible(q, n, names, rev)
  {
  }

  lemma MergeTwins(p: Fingerprint, q: Fingerprint, m: Fingerprint, n: Fingerprint, rev: ReverseKeys, names: seq<string>,
                   w: Runs, s: Plan, t: Plan)
    requires Compatible(p, m, names, rev) && rev.Effective() == {}
    requires Twin(p, q, w, s) && Twin(m, n, w, t) && Touch(s, t, w.pool)
    ensures Mergeable(p, m, rev) && Mergeable(q, n, rev) && Twin(Merge(p, m, rev), Merge(q, n, rev), w, Join(s, t))
  {
    AlikeCompatible(p, q, m, n, names, rev);
    hide Merge, Mergeable, Compatible, Rooted, Alike, Touch;
    MergeRooted(p, m, rev, names, w.pool, s, t);
    MergeRooted(q, n, rev, names, w.marked, s, t);
    AlikeMerge(p, q, m, n, rev);
  }

  /* ---------- where facts come from ---------- */

  lemma {:induction false} GrownLeaf(plan: Plan, pool: seq<Fingerprint>, n: nat) returns (i: nat)
    requires Inside(plan, |pool|) && n < |Leaves(Grow(plan, pool))|
    ensures i in Positions(plan) && i < |pool| && Leaves(Grow(plan, pool))[n] == pool[i]
  {
    match plan
    case At(j) =>
      i := j;
    case Join(l, r) =>
      var left := Leaves(Grow(l, pool));
      if n < |left| { i := GrownLeaf(l, pool, n); } else { i := GrownLeaf(r, pool, n - |left|); }
  }

  lemma UntaggedFacts(fp: Fingerprint, k: string)
    ensures WellFormed(Untagged(fp)) == WellFormed(fp) && FactAt(Untagged(fp), k) == FactAt(fp, k)
  {
  }

  /** Facts and metadata stay paired, and each pair is one that some input of the plan carried. */
  lemma RootedProvenance(fp: Fingerprint, pool: seq<Fingerprint>, plan: Plan, k: string)
    requires Rooted(fp, pool, plan) && forall i :: 0 <= i < |pool| ==> WellFormed(pool[i])
    ensures WellFormed(fp)
    ensures k in fp.facts ==>
              exists i :: i in Positions(plan) && i < |pool| && k in pool[i].facts
                  && FactAt(fp, k) == FactAt(pool[i], k)
  {
    hide WellFormed, Evaluable, Eval, Leaves, FactAt;
    var t := Grow(plan, pool);
    forall n | 0 <= n < |Leaves(t)| ensures WellFormed(Leaves(t)[n]) {
      var i := GrownLeaf(plan, pool, n);
    }
    Provenance(t, k);
    UntaggedFacts(fp, k);
    if k in fp.facts {
      var n :| 0 <= n < |Leaves(t)| && FactAt(Eval(t), k) == FactAt(Leaves(t)[n], k);
      var i := GrownLeaf(plan, pool, n);
      CellPresent(pool[i], k);
      assert i in Positions(plan) && FactAt(fp, k) == FactAt(pool[i], k);
    }
  }

  lemma CellPresent(fp: Fingerprint, k: string)
    ensures FactAt(fp, k).Cell? ==> k in fp.facts && fp.facts[k] == FactAt(fp, k).value
    ensures WellFormed(fp) && k in fp.facts ==> FactAt(fp, k).Cell?
  {
  }

  /** A claimed value is claimed by an input of the plan. */
  lemma RootedClaim(fp: Fingerprint, pool: seq<Fingerprint>, plan: Plan, name: string, x: Scalar) returns (i: nat)
    requires Rooted(fp, pool, plan) && (forall i :: 0 <= i < |pool| ==> WellFormed(pool[i])) && x in Claims(fp, name)
    ensures i in Positions(plan) && i < |pool| && x in Claims(pool[i], name)
  {
    hide WellFormed, Rooted, FactAt;
    RootedProvenance(fp, pool, plan, name);
    i :| i in Positions(plan) && i < |pool| && name in pool[i].facts && FactAt(fp, name) == FactAt(pool[i], name);
    CellPresent(fp, name);
    CellPresent(pool[i], name);
  }

  /** Fingerprints that claim a common value of a pair of keys touch. */
  lemma ClaimTouch(f: Fingerprint, g: Fingerprint, w: Runs, s: Plan, t: Plan, pair: KeyPair, x: Scalar)
    requires Orderly(w) && Rooted(f, w.pool, s) && Rooted(g, w.pool, t)
    requires pair in KEY_PAIRS && x in Claims(f, pair.base) && x in Claims(g, pair.cand)
    ensures Touch(s, t, w.pool)
  {
    hide Rooted, Claims, WellFormed;
    var i := RootedClaim(f, w.pool, s, pair.base, x);
    var j := RootedClaim(g, w.pool, t, pair.cand, x);
    assert ShareKey(w.pool[i], w.pool[j]);
  }

  lemma TouchMore(s: Plan, more: Plan, t: Plan, pool: seq<Fingerprint>)
    requires Touch(s, t, pool) && Positions(s) <= Positions(more)
    ensures Touch(more, t, pool)
  {
    hide ShareKey, Positions;
    var i, j :| i in Positions(s) && j in Positions(t)
                && (i == j || (i < |pool| && j < |pool| && ShareKey(pool[i], pool[j])));
    assert i in Positions(more);
  }

  /* ---------- lists ---------- */

  lemma TwinsConcat(a: seq<Fingerprint>, b: seq<Fingerprint>, c: seq<Fingerprint>, d: seq<Fingerprint>, w: Runs,
                    ta: seq<Plan>, tc: seq<Plan>)
    requires AllTwins(a, b, w, ta) && AllTwins(c, d, w, tc)
    ensures AllTwins(a + c, b + d, w, ta + tc)
  {
    hide Twin;
  }

  lemma TwinsFit(a: seq<Fingerprint>, b: seq<Fingerprint>, w: Runs, tr: seq<Plan>, sh: Shape)
    requires AllTwins(a, b, w, tr) && AllFit(a, sh)
    ensures AllFit(b, sh)
  {
    hide Fits, Alike, Rooted;
    forall i | 0 <= i < |b| ensures Fits(b[i], sh) {
      AlikeKeys(a[i], b[i], sh);
    }
  }

  lemma TwinsScalar(a: seq<Fingerprint>, b: seq<Fingerprint>, w: Runs, tr: seq<Plan>, k: IdKey)
    requires AllTwins(a, b, w, tr) && ScalarKeyed(k, a)
    ensures ScalarKeyed(k, b)
  {
    hide Fits, Alike, Rooted, Get;
    forall i | 0 <= i < |b| ensures !Get(b[i], k).Many? {
      AlikeKeys(a[i], b[i], Shape([], false));
    }
  }

  /* ---------- deduplication ---------- */

  /** Fingerprints with a common key touch. */
  ghost predicate Touching(k: IdKey, fps: seq<Fingerprint>, tr: seq<Plan>, pool: seq<Fingerprint>)
    requires |tr| == |fps|
  {
    forall i, j :: 0 <= i < j < |fps| && Truthy(Get(fps[i], k)) && Get(fps[i], k) == Get(fps[j], k) ==>
                     Touch(tr[i], tr[j], pool)
  }

  lemma FactTouching(name: string, a: seq<Fingerprint>, b: seq<Fingerprint>, w: Runs, tr: seq<Plan>)
    requires AllTwins(a, b, w, tr) && Orderly(w) && ScalarKeyed(Fact(name), a) && KeyPair(name, name) in KEY_PAIRS
    ensures Touching(Fact(name), a, tr, w.pool)
  {
    hide Rooted, Touch, Alike, Linked, WellFormed;
    forall i, j | 0 <= i < j < |a| && Truthy(Get(a[i], Fact(name))) && Get(a[i], Fact(name)) == Get(a[j], Fact(name))
      ensures Touch(tr[i], tr[j], w.pool)
    {
      ClaimTouch(a[i], a[j], w, tr[i], tr[j], KeyPair(name, name), Get(a[i], Fact(name)).v);
    }
  }

  /** Every entry has the inputs of some fingerprint with its key. */
  ghost predicate Rests(k: IdKey, fps: seq<Fingerprint>, tr: seq<Plan>, td: map<Scalar, Plan>)
    requires |tr| == |fps|
  {
    forall x :: x in td ==>
      exists j :: 0 <= j < |fps| && Get(fps[j], k) == One(x) && Positions(tr[j]) <= Positions(td[x])
  }

  lemma RestsMore(k: IdKey, fps: seq<Fingerprint>, tr: seq<Plan>, td: map<Scalar, Plan>)
    requires fps != [] && |tr| == |fps| && Rests(k, fps[..|fps| - 1], tr[..|tr| - 1], td)
    ensures Rests(k, fps, tr, td)
  {
    hide Get;
    var front, tf := fps[..|fps| - 1], tr[..|tr| - 1];
    forall x | x in td
      ensures exists j :: 0 <= j < |fps| && Get(fps[j], k) == One(x) && Positions(tr[j]) <= Positions(td[x])
    {
      var j :| 0 <= j < |front| && Get(front[j], k) == One(x) && Positions(tf[j]) <= Positions(td[x]);
      assert Get(fps[j], k) == One(x) && tr[j] == tf[j];
    }
  }

  lemma RestsPut(k: IdKey, fps: seq<Fingerprint>, tr: seq<Plan>, td: map<Scalar, Plan>, x: Scalar, plan: Plan)
    requires fps != [] && |tr| == |fps| && Rests(k, fps, tr, td)
    requires Get(fps[|fps| - 1], k) == One(x) && Positions(tr[|tr| - 1]) <= Positions(plan)
    ensures Rests(k, fps, tr, td[x := plan])
  {
    hide Get;
  }

  /** The scan of the second run goes as that of the first does. */
  lemma {:induction false} ScanTwins(k: IdKey, a: seq<Fingerprint>, b: seq<Fingerprint>, sh: Shape, w: Runs,
                                     tr: seq<Plan>)
    returns (tn: seq<Plan>, td: map<Scalar, Plan>)
    requires AllFit(a, sh) && AllFit(b, sh) && ScalarKeyed(k, a) && ScalarKeyed(k, b)
    requires AllTwins(a, b, w, tr) && Touching(k, a, tr, w.pool)
    ensures AllTwins(DedupScan(k, a, sh).noKey, DedupScan(k, b, sh).noKey, w, tn)
    ensures DedupScan(k, a, sh).dict.keys == DedupScan(k, b, sh).dict.keys
    ensures TwinDict(DedupScan(k, a, sh).dict.vals, DedupScan(k, b, sh).dict.vals, w, td)
    ensures Rests(k, a, tr, td)
  {
    hide DedupScan, Twin, Fits, Get, Touch, Rests;
    if a == [] {
      tn, td := [], map[];
      EmptyScan(k, sh);
      assert Rests(k, a, tr, td) by { NothingRests(k); }
    } else {
      var last := |a| - 1;
      tn, td := ScanTwins(k, a[..last], b[..last], sh, w, tr[..last]);
      RestsMore(k, a, tr, td);
      TwinKeys(a[last], b[last], w, tr[last]);
      if Truthy(Get(a[last], k)) {
        td := ScanKeyedTwins(k, a, b, sh, w, tr, td);
      } else {
        ScanUnkeyed(k, a, sh);
        ScanUnkeyed(k, b, sh);
        tn := tn + [tr[last]];
      }
    }
  }

  lemma NothingRests(k: IdKey)
    ensures Rests(k, [], [], map[])
  {
  }

  lemma TwinKeys(f: Fingerprint, g: Fingerprint, w: Runs, plan: Plan)
    requires Twin(f, g, w, plan)
    ensures forall k :: Get(f, k) == Get(g, k)
    ensures forall name :: Claims(f, name) == Claims(g, name)
  {
    hide Rooted, Linked;
    AlikeKeys(f, g, Shape([], false));
  }

  lemma PutTwins(d: Entries, e: Entries, w: Runs, td: map<Scalar, Plan>, x: Scalar, f: Fingerprint, g: Fingerprint,
                 plan: Plan)
    requires TwinDict(d, e, w, td) && Twin(f, g, w, plan)
    ensures TwinDict(d[x := f], e[x := g], w, td[x := plan])
  {
    hide Twin;
  }

  /** The plan of an entry, once a fingerprint with its key has been visited. */
  function Visited(td: map<Scalar, Plan>, x: Scalar, plan: Plan): Plan {
    if x in td then Join(td[x], plan) else plan
  }

  lemma ScanKeyedTwins(k: IdKey, a: seq<Fingerprint>, b: seq<Fingerprint>, sh: Shape, w: Runs, tr: seq<Plan>,
                       td: map<Scalar, Plan>)
    returns (r: map<Scalar, Plan>)
    requires a != [] && AllFit(a, sh) && AllFit(b, sh) && ScalarKeyed(k, a) && ScalarKeyed(k, b)
    requires AllTwins(a, b, w, tr) && Touching(k, a, tr, w.pool)
    requires Truthy(Get(a[|a| - 1], k)) && Get(a[|a| - 1], k) == Get(b[|b| - 1], k)
    requires var front, other := a[..|a| - 1], b[..|b| - 1];
             && DedupScan(k, front, sh).dict.keys == DedupScan(k, other, sh).dict.keys
             && TwinDict(DedupScan(k, front, sh).dict.vals, DedupScan(k, other, sh).dict.vals, w, td)
             && Rests(k, front, tr[..|tr| - 1], td)
    ensures DedupScan(k, a, sh).noKey == DedupScan(k, a[..|a| - 1], sh).noKey
    ensures DedupScan(k, b, sh).noKey == DedupScan(k, b[..|b| - 1], sh).noKey
    ensures DedupScan(k, a, sh).dict.keys == DedupScan(k, b, sh).dict.keys
    ensures TwinDict(DedupScan(k, a, sh).dict.vals, DedupScan(k, b, sh).dict.vals, w, r)
    ensures Rests(k, a, tr, r)
  {
    hide DedupScan, Twin, Fits, Get, Touching, Rests, Merge, Mergeable, Dict.Valid;
    var last := |a| - 1;
    var x := Get(a[last], k).v;
    ScanKeyed(k, a, sh);
    ScanKeyed(k, b, sh);
    var d, e := DedupScan(k, a[..last], sh).dict.vals, DedupScan(k, b[..last], sh).dict.vals;
    var plan := Visited(td, x, tr[last]);
    if x in td {
      EntryTouches(k, a, tr, w.pool, td, x);
      EntryMerges(d[x], e[x], a[last], b[last], sh, w, td[x], tr[last]);
      PutTwins(d, e, w, td, x, Merge(d[x], a[last], NotGiven), Merge(e[x], b[last], NotGiven), plan);
    } else {
      PutTwins(d, e, w, td, x, a[last], b[last], plan);
    }
    r := td[x := plan];
    RestsMore(k, a, tr, td);
    RestsPut(k, a, tr, td, x, plan);
  }

  lemma EntryTouches(k: IdKey, fps: seq<Fingerprint>, tr: seq<Plan>, pool: seq<Fingerprint>, td: map<Scalar, Plan>,
                     x: Scalar)
    requires fps != [] && |tr| == |fps| && Touching(k, fps, tr, pool)
    requires Rests(k, fps[..|fps| - 1], tr[..|tr| - 1], td) && x in td
    requires Truthy(Get(fps[|fps| - 1], k)) && Get(fps[|fps| - 1], k) == One(x)
    ensures Touch(td[x], tr[|tr| - 1], pool)
  {
    hide Get, Touch;
    var front, tf := fps[..|fps| - 1], tr[..|tr| - 1];
    var j :| 0 <= j < |front| && Get(front[j], k) == One(x) && Positions(tf[j]) <= Positions(td[x]);
    assert Get(fps[j], k) == One(x) && tr[j] == tf[j];
    TouchMore(tr[j], td[x], tr[|tr| - 1], pool);
  }

  lemma EntryMerges(p: Fingerprint, q: Fingerprint, m: Fingerprint, n: Fingerprint, sh: Shape, w: Runs, s: Plan,
                    t: Plan)
    requires Fits(p, sh) && Fits(m, sh) && Twin(p, q, w, s) && Twin(m, n, w, t) && Touch(s, t, w.pool)
    ensures Mergeable(p, m, NotGiven) && Mergeable(q, n, NotGiven)
    ensures Twin(Merge(p, m, NotGiven), Merge(q, n, NotGiven), w, Join(s, t))
  {
    hide Merge, Mergeable, Twin, Built, Touch;
    MergeTwins(p, q, m, n, NotGiven, sh.names, w, s, t);
  }

  /** The plans of a dictionary, in key order. */
  function InOrder(ks: seq<Scalar>, td: map<Scalar, Plan>): (r: seq<Plan>)
    requires forall p :: 0 <= p < |ks| ==> ks[p] in td
    ensures |r| == |ks| && forall p :: 0 <= p < |ks| ==> r[p] == td[ks[p]]
  {
    seq(|ks|, p requires 0 <= p < |ks| => td[ks[p]])
  }

  lemma DictTwins(d: Dict<Scalar, Fingerprint>, e: Dict<Scalar, Fingerprint>, w: Runs, td: map<Scalar, Plan>)
    requires d.Valid() && e.Valid() && d.keys == e.keys && TwinDict(d.vals, e.vals, w, td)
    ensures (forall p :: 0 <= p < |d.keys| ==> d.keys[p] in td)
            && AllTwins(d.Values(), e.Values(), w, InOrder(d.keys, td))
  {
    hide Twin;
  }

  lemma PassTwins(k: IdKey, a: seq<Fingerprint>, b: seq<Fingerprint>, sh: Shape, w: Runs, tr: seq<Plan>)
    returns (r: seq<Plan>)
    requires AllFit(a, sh) && AllFit(b, sh) && ScalarKeyed(k, a) && ScalarKeyed(k, b)
    requires AllTwins(a, b, w, tr) && Touching(k, a, tr, w.pool)
    ensures AllTwins(DedupPass(k, a, sh), DedupPass(k, b, sh), w, r)
  {
    hide DedupScan, Twin, Fits, Touching, Get, Rests;
    var s, t := DedupScan(k, a, sh), DedupScan(k, b, sh);
    var tn, td := ScanTwins(k, a, b, sh, w, tr);
    DictTwins(s.dict, t.dict, w, td);
    r := tn + InOrder(s.dict.keys, td);
    TwinsConcat(s.noKey, t.noKey, s.dict.Values(), t.dict.Values(), w, tn, InOrder(s.dict.keys, td));
  }

  /** Deduplication merges the same fingerprints in both runs, and only those that share a key. */
  lemma {:induction false} DedupTwins(keys: seq<IdKey>, a: seq<Fingerprint>, b: seq<Fingerprint>, sh: Shape, w: Runs,
                                      tr: seq<Plan>)
    returns (r: seq<Plan>)
    requires AllFit(a, sh) && AllScalarKeyed(keys, a) && AllTwins(a, b, w, tr) && Orderly(w)
    requires forall i :: 0 <= i < |keys| ==> keys[i].Fact? && KeyPair(keys[i].name, keys[i].name) in KEY_PAIRS
    ensures AllFit(b, sh) && AllScalarKeyed(keys, b)
    ensures AllTwins(DedupAll(keys, a, sh), DedupAll(keys, b, sh), w, r)
  {
    hide Twin, Fits, Get, Touching, Orderly, DedupPass;
    TwinsFit(a, b, w, tr, sh);
    forall i | 0 <= i < |keys| ensures ScalarKeyed(keys[i], b) {
      TwinsScalar(a, b, w, tr, keys[i]);
    }
    r := tr;
    if keys != [] {
      var init, k := keys[..|keys| - 1], keys[|keys| - 1];
      r := DedupTwins(init, a, b, sh, w, tr);
      FactTouching(k.name, DedupAll(init, a, sh), DedupAll(init, b, sh), w, r);
      r := PassTwins(k, DedupAll(init, a, sh), DedupAll(init, b, sh), sh, w, r);
    }
  }
}
