/** The merge as the engine performs it: loops that copy facts, sources, entitlements and
    products into the priority fingerprint, and the two lookup errors they can raise. */
module MergeEngine {
  import opened OrderedDict
  import opened Fingerprints

  datatype MergeResult = Merged(fp: Fingerprint) | MissingMetadata | MissingProduct

  method CollectKeysToAdd(p: Fingerprint, m: Fingerprint, rev: ReverseKeys) returns (add: set<string>)
    ensures add == KeysToAdd(p, m, rev)
  {
    add := m.facts.Keys - p.facts.Keys;
    if rev.AsSet? {
      add := add + rev.keys;
    }
    ghost var before := add;
    var todo := p.facts.Keys * m.facts.Keys;
    ghost var done: set<string> := {};
    while todo != {}
      invariant todo !! done && todo + done == p.facts.Keys * m.facts.Keys
      invariant add == before + set k | k in done && k in p.facts && k in m.facts && Overrides(p, m, k)
      decreases todo
    {
      var key :| key in todo;
      if p.facts[key].Null? && !m.facts[key].Null? {
        add := add + {key};
      } else if !Sudo(p, key) && Sudo(m, key) {
        add := add + {key};
      }
      todo, done := todo - {key}, done + {key};
    }
    assert done == p.facts.Keys * m.facts.Keys;
  }

  method CopyFacts(p: Fingerprint, m: Fingerprint, add: set<string>)
    returns (found: bool, facts: map<string, Value>, meta: map<string, Meta>)
    ensures found <==> add <= m.meta.Keys
    ensures found ==> facts == MergedFacts(p, m, add) && meta == MergedMeta(p, m, add)
  {
    facts, meta := p.facts, p.meta;
    var todo := add;
    ghost var done: set<string> := {};
    while todo != {}
      invariant todo !! done && todo + done == add && done <= m.meta.Keys
      invariant facts == MergedFacts(p, m, done) && meta == MergedMeta(p, m, done)
      decreases todo
    {
      var key :| key in todo;
      if key !in m.meta {
        return false, facts, meta;
      }
      meta := meta[key := m.meta[key]];
      facts := facts[key := if key in m.facts then m.facts[key] else Null];
      todo, done := todo - {key}, done + {key};
    }
    assert done == add;
    found := true;
  }

  method CopySources(p: map<string, Source>, m: map<string, Source>) returns (sources: map<string, Source>)
    ensures sources == m + p
  {
    sources := p;
    var todo := m.Keys;
    while todo != {}
      invariant todo <= m.Keys
      invariant sources.Keys == p.Keys + (m.Keys - todo)
      invariant forall k :: k in sources ==> sources[k] == if k in p then p[k] else m[k]
      decreases todo
    {
      var source :| source in todo;
      if source !in sources {
        sources := sources[source := m[source]];
      }
      todo := todo - {source};
    }
  }

  method CombineEntitlements(es: seq<Entitlement>) returns (unique: seq<Entitlement>)
    ensures unique == UniqueEntitlements(es)
  {
    var seen: set<string> := {};
    unique := [];
    for i := 0 to |es|
      invariant unique == UniqueEntitlements(es[..i]) && seen == EntitlementKeys(unique)
    {
      assert es[..i + 1][..i] == es[..i];
      EntitlementKeysSnoc(unique, es[i]);
      if EntitlementKey(es[i]) !in seen {
        seen := seen + {EntitlementKey(es[i])};
        unique := unique + [es[i]];
      }
    }
    assert es[..|es|] == es;
  }

  lemma OverlayKeepsNames(d: seq<Product>, qs: seq<Product>, name: string)
    ensures |OverlayAll(d, qs)| == |d|
    ensures forall i :: 0 <= i < |d| ==> OverlayAll(d, qs)[i].name == d[i].name
    ensures HasName(OverlayAll(d, qs), name) <==> HasName(d, name)
  {
    if qs != [] {
      OverlayKeepsNames(d, qs[..|qs| - 1], name);
    }
    var r := OverlayAll(d, qs);
    assert forall i :: 0 <= i < |d| ==> r[i].name == d[i].name;
  }

  lemma ProductDictNames(ps: seq<Product>, name: string)
    ensures HasName(ProductDict(ps), name) <==> HasName(ps, name)
  {
    if ps != [] {
      var front, last := ps[..|ps| - 1], ps[|ps| - 1];
      ProductDictNames(front, name);
      var d := ProductDict(front);
      if HasName(ps, name) && last.name == name {
        if HasName(d, last.name) {
          var i :| 0 <= i < |d| && d[i].name == last.name;
          assert PutProduct(d, last)[i].name == name;
        } else {
          assert PutProduct(d, last)[|d|].name == name;
        }
      } else if HasName(ps, name) {
        var j :| 0 <= j < |ps| && ps[j].name == name;
        assert front[j].name == name;
        var i :| 0 <= i < |d| && d[i].name == name;
        assert PutProduct(d, last)[i].name == name;
      }
      if HasName(PutProduct(d, last), name) {
        var i :| 0 <= i < |PutProduct(d, last)| && PutProduct(d, last)[i].name == name;
        if i < |d| && d[i].name == name {
          assert HasName(d, name);
          var j :| 0 <= j < |front| && front[j].name == name;
          assert ps[j].name == name;
        } else {
          assert ps[|ps| - 1].name == name;
        }
      }
    }
  }

  method CombineProducts(ps: seq<Product>, qs: seq<Product>) returns (found: bool, r: seq<Product>)
    ensures found <==> forall i :: 0 <= i < |qs| ==> HasName(ps, qs[i].name)
    ensures found ==> r == OverlayAll(ProductDict(ps), qs)
  {
    var d: seq<Product> := [];
    for i := 0 to |ps|
      invariant d == ProductDict(ps[..i])
    {
      assert ps[..i + 1][..i] == ps[..i];
      d := PutProduct(d, ps[i]);
    }
    assert ps[..|ps|] == ps;
    r := d;
    for i := 0 to |qs|
      invariant r == OverlayAll(d, qs[..i])
      invariant forall j :: 0 <= j < i ==> HasName(ps, qs[j].name)
    {
      ProductDictNames(ps, qs[i].name);
      OverlayKeepsNames(d, qs[..i], qs[i].name);
      if !HasName(r, qs[i].name) {
        return false, r;
      }
      assert qs[..i + 1][..i] == qs[..i];
      r := Overlay(r, qs[i]);
    }
    assert qs[..|qs|] == qs;
    found := true;
  }

  /** Succeeds exactly when no lookup fails; the metadata lookups come first. */
  method MergeFingerprint(p: Fingerprint, m: Fingerprint, rev: ReverseKeys) returns (r: MergeResult)
    ensures r.Merged? <==> Mergeable(p, m, rev)
    ensures r.Merged? ==> r.fp == Merge(p, m, rev)
    ensures r.MissingMetadata? <==> !MetadataFound(p, m, rev)
  {
    var add := CollectKeysToAdd(p, m, rev);
    var found, facts, meta := CopyFacts(p, m, add);
    if !found || (m.entitlements.Some? && p.entitlements.None?) || (m.products.Some? && p.products.None?)
       || (m.gid.Some? && p.gid.None?) {
      return MissingMetadata;
    }
    var sources := CopySources(p.sources, m.sources);
    var entitlements, products := p.entitlements, p.products;
    if OrEmpty(m.entitlements) != [] {
      var unique := CombineEntitlements(OrEmpty(p.entitlements) + OrEmpty(m.entitlements));
      entitlements := Some(unique);
    }
    if OrEmpty(m.products) != [] {
      var known, merged := CombineProducts(OrEmpty(p.products), OrEmpty(m.products));
      if !known {
        return MissingProduct;
      }
      products := Some(merged);
    }
    r := Merged(Fingerprint(facts, meta, sources, entitlements, products, p.gid));
  }
}
