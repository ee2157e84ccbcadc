/** What one merge keeps: the shape of a fingerprint, the facts it may carry, its products. */
module MergeLaws {
  import opened OrderedDict
  import opened Fingerprints

  /** Facts and metadata entries go together, as `_add_fact_to_fingerprint` writes them. */
  predicate WellFormed(fp: Fingerprint) {
    fp.meta.Keys == fp.facts.Keys
  }

  predicate Named(ps: seq<Product>, names: seq<string>) {
    && Distinct(names)
    && |ps| == |names|
    && forall i :: 0 <= i < |ps| ==> ps[i].name == names[i]
  }

  /** The shape every source processor gives its fingerprints: facts with metadata,
      entitlements, and products of the given names. */
  predicate Built(fp: Fingerprint, names: seq<string>) {
    && WellFormed(fp)
    && fp.entitlements.Some?
    && fp.products.Some?
    && Named(fp.products.value, names)
  }

  /* ---------- one fact: value and metadata as a pair ---------- */

  datatype Cell = Missing | Cell(value: Value, meta: Meta)

  function FactAt(fp: Fingerprint, k: string): Cell {
    if k in fp.facts && k in fp.meta then Cell(fp.facts[k], fp.meta[k]) else Missing
  }

  /** A value that was collected, and collected with sudo. */
  predicate Strong(c: Cell) { c.Cell? && !c.value.Null? && c.meta.hasSudo }
  /** A value collected without sudo. */
  predicate Plain(c: Cell) { c.Cell? && !c.value.Null? && !c.meta.hasSudo }
  /** Nothing found, looking with sudo. */
  predicate SudoNull(c: Cell) { c.Cell? && c.value.Null? && c.meta.hasSudo }

  function Pick(a: Cell, b: Cell): Cell {
    if a.Missing? then b
    else if b.Missing? then a
    else if (a.value.Null? && !b.value.Null?) || (!a.meta.hasSudo && b.meta.hasSudo) then b
    else a
  }

  lemma MergeFactAt(p: Fingerprint, m: Fingerprint, rev: ReverseKeys, k: string)
    requires WellFormed(p) && WellFormed(m) && Mergeable(p, m, rev)
    ensures WellFormed(Merge(p, m, rev))
    ensures FactAt(Merge(p, m, rev), k) ==
            if k in rev.Effective() then FactAt(m, k) else Pick(FactAt(p, k), FactAt(m, k))
    ensures Merge(p, m, rev).facts.Keys == p.facts.Keys + m.facts.Keys
  {
  }

  /* ---------- sources and entitlements ---------- */

  /** The sources of both sides; the left one names the source where both have the key. */
  lemma MergeSourceAt(p: Fingerprint, m: Fingerprint, rev: ReverseKeys, key: string)
    requires Mergeable(p, m, rev)
    ensures key in Merge(p, m, rev).sources <==> key in p.sources || key in m.sources
    ensures key in p.sources ==> Merge(p, m, rev).sources[key] == p.sources[key]
    ensures key in m.sources && key !in p.sources ==> Merge(p, m, rev).sources[key] == m.sources[key]
  {
    hide Mergeable, MergedFacts, MergedMeta, MergedEntitlements, MergedProducts, KeysToAdd;
  }

  /** The identities of the entitlements of both sides, and no others. */
  lemma MergeEntitlementKeys(p: Fingerprint, m: Fingerprint, rev: ReverseKeys)
    requires Mergeable(p, m, rev)
    ensures EntitlementKeys(OrEmpty(Merge(p, m, rev).entitlements))
            == EntitlementKeys(OrEmpty(p.entitlements)) + EntitlementKeys(OrEmpty(m.entitlements))
  {
    hide Mergeable, MergedFacts, MergedMeta, MergedProducts, KeysToAdd, EntitlementKey;
    EntitlementKeysConcat(OrEmpty(p.entitlements), OrEmpty(m.entitlements));
  }

  /** For each identity the first entry of the left list followed by the right one, in this order;
      without entitlements on the right nothing changes. */
  lemma MergeEntitlements(p: Fingerprint, m: Fingerprint, rev: ReverseKeys) returns (f: seq<nat>)
    requires Mergeable(p, m, rev)
    ensures OrEmpty(m.entitlements) == [] ==> Merge(p, m, rev).entitlements == p.entitlements
    ensures OrEmpty(m.entitlements) != [] ==>
              && Merge(p, m, rev).entitlements.Some?
              && PicksFirsts(Merge(p, m, rev).entitlements.value, OrEmpty(p.entitlements) + OrEmpty(m.entitlements), f)
  {
    hide Mergeable, MergedFacts, MergedMeta, MergedProducts, KeysToAdd, EntitlementKey, PicksFirsts;
    f := UniqueAreFirsts(OrEmpty(p.entitlements) + OrEmpty(m.entitlements));
  }

  /* ---------- products ---------- */

  predicate DistinctNames(ps: seq<Product>) {
    forall i, j :: 0 <= i < j < |ps| ==> ps[i].name != ps[j].name
  }

  lemma ProductDictOfDistinct(ps: seq<Product>)
    requires DistinctNames(ps)
    ensures ProductDict(ps) == ps
  {
    if ps != [] {
      ProductDictOfDistinct(ps[..|ps| - 1]);
    }
  }

  /** After overlaying the first j entries of a list with the same names, exactly the
      first j positions have been considered. */
  lemma OverlayAligned(ps: seq<Product>, qs: seq<Product>, j: nat)
    requires DistinctNames(ps) && |ps| == |qs| && j <= |qs|
    requires forall i :: 0 <= i < |ps| ==> ps[i].name == qs[i].name
    ensures |OverlayAll(ps, qs[..j])| == |ps|
    ensures forall i :: 0 <= i < |ps| ==>
              OverlayAll(ps, qs[..j])[i] == if i < j then BetterProduct(ps[i], qs[i]) else ps[i]
  {
    if j > 0 {
      assert qs[..j][..j - 1] == qs[..j - 1];
      OverlayAligned(ps, qs, j - 1);
    }
  }

  predicate SameNames(ps: seq<Product>, qs: seq<Product>) {
    |ps| == |qs| && forall i :: 0 <= i < |ps| ==> ps[i].name == qs[i].name
  }

  function Pairwise(ps: seq<Product>, qs: seq<Product>): (r: seq<Product>)
    requires |ps| == |qs|
    ensures |r| == |ps|
    ensures forall i :: 0 <= i < |ps| ==> r[i] == BetterProduct(ps[i], qs[i])
  {
    seq(|ps|, i requires 0 <= i < |ps| => BetterProduct(ps[i], qs[i]))
  }

  /** Lists with the same names merge position by position. */
  lemma ProductsAligned(ps: seq<Product>, qs: seq<Product>)
    requires SameNames(ps, qs) && DistinctNames(ps)
    ensures MergedProducts(Some(ps), Some(qs)) == Some(Pairwise(ps, qs))
  {
    ProductDictOfDistinct(ps);
    OverlayAligned(ps, qs, |qs|);
    assert qs[..|qs|] == qs;
    if qs != [] {
      assert OverlayAll(ps, qs) == Pairwise(ps, qs);
    }
  }

  /* ---------- shape ---------- */

  /** Which merges the pipeline may ask for. */
  predicate Compatible(p: Fingerprint, m: Fingerprint, names: seq<string>, rev: ReverseKeys) {
    && Built(p, names)
    && (Built(m, names) || Built(m, []))
    && (m.gid.Some? ==> p.gid.Some?)
    && rev.Effective() <= m.facts.Keys
  }

  /** Such a merge raises no lookup error, and its result has the left side's shape. */
  lemma CompatibleMerges(p: Fingerprint, m: Fingerprint, names: seq<string>, rev: ReverseKeys)
    requires Compatible(p, m, names, rev)
    ensures Mergeable(p, m, rev)
    ensures Built(Merge(p, m, rev), names)
    ensures Merge(p, m, rev).gid == p.gid
    ensures Merge(p, m, rev).sources.Keys == p.sources.Keys + m.sources.Keys
  {
    MergeFactAt(p, m, rev, "");
    if Built(m, names) {
      ProductsAligned(p.products.value, m.products.value);
    }
  }

  /** A merge does not look at global ids beyond copying the left one. */
  lemma MergeIgnoresIds(p: Fingerprint, m: Fingerprint, rev: ReverseKeys, q: Fingerprint, n: Fingerprint,
                        rev': ReverseKeys)
    requires q == p.(gid := q.gid) && n == m.(gid := n.gid) && rev.Effective() == rev'.Effective()
    requires Mergeable(p, m, rev) && Mergeable(q, n, rev')
    ensures Merge(q, n, rev') == Merge(p, m, rev).(gid := Merge(q, n, rev').gid)
  {
    assert KeysToAdd(q, n, rev') == KeysToAdd(p, m, rev);
    hide KeysToAdd, Mergeable, MergedProducts, MergedEntitlements;
  }

  /** Merging a fingerprint with itself changes no fact, source or product. */
  lemma MergeWithSelf(p: Fingerprint, names: seq<string>)
    requires Built(p, names)
    ensures Mergeable(p, p, NotGiven)
    ensures Merge(p, p, NotGiven) == p.(entitlements := MergedEntitlements(p.entitlements, p.entitlements))
  {
    CompatibleMerges(p, p, names, NotGiven);
    ProductsAligned(p.products.value, p.products.value);
    assert KeysToAdd(p, p, NotGiven) == {};
    assert Pairwise(p.products.value, p.products.value) == p.products.value;
  }
}
