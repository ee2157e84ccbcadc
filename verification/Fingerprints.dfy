/** Fingerprints as values, and the field-by-field priority merge of two of them. */
module Fingerprints {
  import opened OrderedDict

  /** A hashable fact value. `Uid` is a generated global id, which is never falsy. */
  datatype Scalar = Text(s: string) | Number(n: int) | Uid(id: nat)

  datatype Value = Null | One(v: Scalar) | Many(items: seq<Scalar>)

  predicate Truthy(v: Value) {
    match v
    case Null => false
    case One(Text(s)) => s != ""
    case One(Number(n)) => n != 0
    case One(Uid(_)) => true
    case Many(items) => items != []
  }

  /** Falsy are exactly null, the empty string, zero and the empty list. */
  lemma FalsyIff(v: Value)
    ensures !Truthy(v) <==> v in {Null, One(Text("")), One(Number(0)), Many([])}
  {
  }

  datatype Meta = Meta(serverId: string, sourceName: string, sourceType: string,
                       rawFactKey: string, hasSudo: bool)

  datatype Source = Source(serverId: string, sourceName: string, sourceType: string)

  datatype Presence = ABSENT | PRESENT | POTENTIAL | UNKNOWN

  datatype Product = Product(name: string, presence: Presence, versions: seq<string>, evidence: string)

  datatype Entitlement = Entitlement(name: Option<string>, entitlementId: Option<string>, origin: Source)

  /** `entitlements`, `products` and `gid` are optional keys of the fingerprint. */
  datatype Fingerprint = Fingerprint(
    facts: map<string, Value>,
    meta: map<string, Meta>,
    sources: map<string, Source>,
    entitlements: Option<seq<Entitlement>>,
    products: Option<seq<Product>>,
    gid: Option<nat>)

  /** Keys by which lists are indexed: a fact, or the generated global id. */
  datatype IdKey = Fact(name: string) | GlobalId

  function Get(fp: Fingerprint, k: IdKey): Value {
    match k
    case Fact(name) => if name in fp.facts then fp.facts[name] else Null
    case GlobalId => if fp.gid.Some? then One(Uid(fp.gid.value)) else Null
  }

  /** The `reverse_priority_keys` argument, which only a genuine set activates. */
  datatype ReverseKeys = NotGiven | AsTuple(names: seq<string>) | AsSet(keys: set<string>)
  {
    function Effective(): set<string> {
      if AsSet? then keys else {}
    }
  }

  predicate Sudo(fp: Fingerprint, k: string) {
    k in fp.meta && fp.meta[k].hasSudo
  }

  /** A fact both sides carry is taken from the right side: null loses to a value, and
      no sudo loses to sudo. */
  predicate Overrides(p: Fingerprint, m: Fingerprint, k: string)
    requires k in p.facts && k in m.facts
  {
    || (p.facts[k].Null? && !m.facts[k].Null?)
    || (!Sudo(p, k) && Sudo(m, k))
  }

  function KeysToAdd(p: Fingerprint, m: Fingerprint, rev: ReverseKeys): set<string> {
    (m.facts.Keys - p.facts.Keys) + rev.Effective()
    + set k | k in p.facts.Keys && k in m.facts && Overrides(p, m, k)
  }

  function OrEmpty<T>(o: Option<seq<T>>): seq<T> {
    if o.Some? then o.value else []
  }

  /** Every key to be copied has a metadata entry on the right side. The non-fact keys
      never have one, so the left side must already hold them. */
  predicate MetadataFound(p: Fingerprint, m: Fingerprint, rev: ReverseKeys) {
    && KeysToAdd(p, m, rev) <= m.meta.Keys
    && (m.entitlements.Some? ==> p.entitlements.Some?)
    && (m.products.Some? ==> p.products.Some?)
    && (m.gid.Some? ==> p.gid.Some?)
  }

  predicate ProductsFound(p: Fingerprint, m: Fingerprint) {
    forall i :: 0 <= i < |OrEmpty(m.products)| ==> HasName(OrEmpty(p.products), OrEmpty(m.products)[i].name)
  }

  /** The merge raises no lookup error. */
  predicate Mergeable(p: Fingerprint, m: Fingerprint, rev: ReverseKeys) {
    MetadataFound(p, m, rev) && ProductsFound(p, m)
  }

  /* ---------- facts and sources ---------- */

  function MergedFacts(p: Fingerprint, m: Fingerprint, add: set<string>): map<string, Value> {
    map k | k in p.facts.Keys + add ::
      if k in add then (if k in m.facts then m.facts[k] else Null) else p.facts[k]
  }

  function MergedMeta(p: Fingerprint, m: Fingerprint, add: set<string>): map<string, Meta>
    requires add <= m.meta.Keys
  {
    map k | k in p.meta.Keys + add :: if k in add then m.meta[k] else p.meta[k]
  }

  /* ---------- entitlements ---------- */

  function NameOr(o: Option<string>): string {
    if o.Some? then o.value else "_"
  }

  function EntitlementKey(e: Entitlement): string {
    NameOr(e.name) + ":" + NameOr(e.entitlementId)
  }

  function EntitlementKeys(es: seq<Entitlement>): set<string> {
    set e | e in es :: EntitlementKey(e)
  }

  lemma EntitlementKeysSnoc(es: seq<Entitlement>, e: Entitlement)
    ensures EntitlementKeys(es + [e]) == EntitlementKeys(es) + {EntitlementKey(e)}
  {
    forall key | key in EntitlementKeys(es) + {EntitlementKey(e)}
      ensures key in EntitlementKeys(es + [e])
    {
      if key in EntitlementKeys(es) {
        var x :| x in es && EntitlementKey(x) == key;
        assert x in es + [e];
      } else {
        assert e in es + [e];
      }
    }
  }

  /** The first entitlement of every identity string, in order. */
  function UniqueEntitlements(es: seq<Entitlement>): (u: seq<Entitlement>)
    ensures forall e :: e in u ==> e in es
    ensures EntitlementKeys(u) == EntitlementKeys(es)
    ensures forall i, j :: 0 <= i < j < |u| ==> EntitlementKey(u[i]) != EntitlementKey(u[j])
  {
    if es == [] then []
    else
      var u := UniqueEntitlements(es[..|es| - 1]);
      var e := es[|es| - 1];
      assert es == es[..|es| - 1] + [e];
      EntitlementKeysSnoc(es[..|es| - 1], e);
      EntitlementKeysSnoc(u, e);
      if EntitlementKey(e) in EntitlementKeys(u) then u else u + [e]
  }

  lemma EntitlementKeysConcat(e: seq<Entitlement>, f: seq<Entitlement>)
    ensures EntitlementKeys(e + f) == EntitlementKeys(e) + EntitlementKeys(f)
  {
    forall key | key in EntitlementKeys(e) + EntitlementKeys(f) ensures key in EntitlementKeys(e + f) {
      if key in EntitlementKeys(e) {
        var x :| x in e && EntitlementKey(x) == key;
        assert x in e + f;
      } else {
        var x :| x in f && EntitlementKey(x) == key;
        assert x in e + f;
      }
    }
  }

  lemma SplitAtColon(a: string, b: string, c: string, d: string)
    requires ':' !in a && ':' !in c && a + ":" + b == c + ":" + d
    ensures a == c && b == d
  {
    var s := a + ":" + b;
    assert s[|a|] == ':' && s[|c|] == ':';
    assert s[..|a|] == a && s[..|c|] == c;
    assert s[|a| + 1..] == b && s[|c| + 1..] == d;
  }

  /** Two entitlements have one identity exactly if they agree on name and id, with an underscore
      for what is missing; where they come from does not matter. Names must not hold a colon. */
  lemma SameIdentityIff(e: Entitlement, f: Entitlement)
    requires (e.name.Some? ==> ':' !in e.name.value) && (f.name.Some? ==> ':' !in f.name.value)
    ensures EntitlementKey(e) == EntitlementKey(f) <==>
            && (if e.name.Some? then e.name.value else "_") == (if f.name.Some? then f.name.value else "_")
            && (if e.entitlementId.Some? then e.entitlementId.value else "_")
               == (if f.entitlementId.Some? then f.entitlementId.value else "_")
  {
    if EntitlementKey(e) == EntitlementKey(f) {
      assert ':' !in "_";
      SplitAtColon(NameOr(e.name), NameOr(e.entitlementId), NameOr(f.name), NameOr(f.entitlementId));
    }
  }

  /** No earlier entry of the list has the identity of entry i. */
  predicate FirstOfKey(es: seq<Entitlement>, i: nat) {
    i < |es| && forall j :: 0 <= j < i ==> EntitlementKey(es[j]) != EntitlementKey(es[i])
  }

  /** u lists the first entries of all identities, from left to right; f are their positions. */
  ghost predicate PicksFirsts(u: seq<Entitlement>, es: seq<Entitlement>, f: seq<nat>) {
    && |f| == |u|
    && (forall n :: 0 <= n < |f| ==> FirstOfKey(es, f[n]) && u[n] == es[f[n]])
    && (forall n, m :: 0 <= n < m < |f| ==> f[n] < f[m])
    && (forall i: nat :: FirstOfKey(es, i) ==> i in f)
  }

  lemma {:induction false} UniqueAreFirsts(es: seq<Entitlement>) returns (f: seq<nat>)
    ensures PicksFirsts(UniqueEntitlements(es), es, f)
  {
    f := [];
    if es != [] {
      hide EntitlementKey, PicksFirsts, FirstOfKey;
      f := UniqueAreFirsts(es[..|es| - 1]);
      PicksMore(UniqueEntitlements(es[..|es| - 1]), es, f);
      FirstIffNew(es);
      if FirstOfKey(es, |es| - 1) {
        f := f + [|es| - 1];
      }
    }
  }

  /** One more entry is picked exactly if it is the first of its identity. */
  lemma PicksMore(u: seq<Entitlement>, es: seq<Entitlement>, f: seq<nat>)
    requires es != [] && PicksFirsts(u, es[..|es| - 1], f)
    ensures FirstOfKey(es, |es| - 1) ==> PicksFirsts(u + [es[|es| - 1]], es, f + [|es| - 1])
    ensures !FirstOfKey(es, |es| - 1) ==> PicksFirsts(u, es, f)
  {
    hide EntitlementKey;
    var front, last := es[..|es| - 1], |es| - 1;
    forall i: nat ensures i < last ==> (FirstOfKey(es, i) <==> FirstOfKey(front, i)) {
    }
    hide FirstOfKey;
    var g := f + [last];
    assert forall i :: i in g <==> i in f || i == last;
    FirstsBelow(es);
    FirstsBelow(front);
  }

  lemma FirstsBelow(es: seq<Entitlement>)
    ensures forall i: nat :: FirstOfKey(es, i) ==> i < |es|
  {
  }

  lemma FirstIffNew(es: seq<Entitlement>)
    requires es != []
    ensures FirstOfKey(es, |es| - 1) <==> EntitlementKey(es[|es| - 1]) !in EntitlementKeys(es[..|es| - 1])
  {
    hide EntitlementKey;
    var front, e := es[..|es| - 1], es[|es| - 1];
    if EntitlementKey(e) in EntitlementKeys(front) {
      var x :| x in front && EntitlementKey(x) == EntitlementKey(e);
      var j :| 0 <= j < |front| && front[j] == x;
      assert EntitlementKey(es[j]) == EntitlementKey(e);
    } else {
      forall j | 0 <= j < |front| ensures EntitlementKey(es[j]) != EntitlementKey(e) {
        assert front[j] in front;
      }
    }
  }

  function MergedEntitlements(p: Option<seq<Entitlement>>, m: Option<seq<Entitlement>>): Option<seq<Entitlement>> {
    if OrEmpty(m) == [] then p else Some(UniqueEntitlements(OrEmpty(p) + OrEmpty(m)))
  }

  /* ---------- products ---------- */

  predicate HasName(ps: seq<Product>, name: string) {
    exists i :: 0 <= i < |ps| && ps[i].name == name
  }

  function BetterProduct(p: Product, q: Product): Product {
    if p.presence == ABSENT && q.presence != ABSENT then q else p
  }

  /** A name-keyed dictionary of products is the list of its values; writing an existing
      name replaces in place. */
  function PutProduct(d: seq<Product>, q: Product): seq<Product> {
    if HasName(d, q.name)
    then seq(|d|, i requires 0 <= i < |d| => if d[i].name == q.name then q else d[i])
    else d + [q]
  }

  function ProductDict(ps: seq<Product>): seq<Product> {
    if ps == [] then [] else PutProduct(ProductDict(ps[..|ps| - 1]), ps[|ps| - 1])
  }

  function Overlay(d: seq<Product>, q: Product): seq<Product> {
    seq(|d|, i requires 0 <= i < |d| => if d[i].name == q.name then BetterProduct(d[i], q) else d[i])
  }

  function OverlayAll(d: seq<Product>, qs: seq<Product>): seq<Product> {
    if qs == [] then d else Overlay(OverlayAll(d, qs[..|qs| - 1]), qs[|qs| - 1])
  }

  function MergedProducts(p: Option<seq<Product>>, m: Option<seq<Product>>): Option<seq<Product>> {
    if OrEmpty(m) == [] then p else Some(OverlayAll(ProductDict(OrEmpty(p)), OrEmpty(m)))
  }

  /* ---------- the whole merge ---------- */

  /** The left fingerprint has priority. */
  function Merge(p: Fingerprint, m: Fingerprint, rev: ReverseKeys): Fingerprint
    requires Mergeable(p, m, rev)
  {
    var add := KeysToAdd(p, m, rev);
    Fingerprint(
      MergedFacts(p, m, add),
      MergedMeta(p, m, add),
      m.sources + p.sources,
      MergedEntitlements(p.entitlements, m.entitlements),
      MergedProducts(p.products, m.products),
      p.gid)
  }

  /** Passing the reverse-priority names as a tuple is the same as not passing them. */
  lemma TupleNeverReverses(p: Fingerprint, m: Fingerprint, names: seq<string>)
    ensures Mergeable(p, m, AsTuple(names)) == Mergeable(p, m, NotGiven)
    ensures Mergeable(p, m, NotGiven) ==> Merge(p, m, AsTuple(names)) == Merge(p, m, NotGiven)
  {
    assert KeysToAdd(p, m, AsTuple(names)) == KeysToAdd(p, m, NotGiven);
  }
}
