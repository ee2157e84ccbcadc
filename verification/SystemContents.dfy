/** What a reported system holds besides its facts: the sources, entitlements and products of
    the systems it is made of. */
module SystemContents {
  import opened Fingerprints
  import opened MergeLaws
  import opened MergeTrees
  import opened Derivation
  import opened Processors
  import opened Pipeline
  import opened PipelineLaws
  import opened Marks
  import opened SystemTraces

  /* ---------- plans ---------- */

  /** The source keys of the inputs at these positions. */
  ghost function SourceKeys(pool: seq<Fingerprint>, s: set<nat>): set<string> {
    set i, key | i in s && i < |pool| && key in pool[i].sources :: key
  }

  /** The identities of their entitlements. */
  ghost function EntitledKeys(pool: seq<Fingerprint>, s: set<nat>): set<string> {
    set i, key | i in s && i < |pool| && key in EntitlementKeys(OrEmpty(pool[i].entitlements)) :: key
  }

  lemma {:induction false} GrownSources(plan: Plan, pool: seq<Fingerprint>)
    requires Inside(plan, |pool|) && Evaluable(Grow(plan, pool))
    ensures Eval(Grow(plan, pool)).sources.Keys == SourceKeys(pool, Positions(plan))
  {
    hide Merge, Mergeable;
    match plan
    case At(i) =>
    case Join(l, r) =>
      GrownSources(l, pool);
      GrownSources(r, pool);
      var a, b := Eval(Grow(l, pool)), Eval(Grow(r, pool));
      forall key ensures key in Merge(a, b, NotGiven).sources <==> key in SourceKeys(pool, Positions(plan)) {
        MergeSourceAt(a, b, NotGiven, key);
        assert SourceKeys(pool, Positions(plan)) == SourceKeys(pool, Positions(l)) + SourceKeys(pool, Positions(r));
      }
  }

  lemma {:induction false} GrownEntitlements(plan: Plan, pool: seq<Fingerprint>)
    requires Inside(plan, |pool|) && Evaluable(Grow(plan, pool))
    ensures EntitlementKeys(OrEmpty(Eval(Grow(plan, pool)).entitlements)) == EntitledKeys(pool, Positions(plan))
  {
    hide Merge, Mergeable, EntitlementKeys;
    match plan
    case At(i) =>
    case Join(l, r) =>
      GrownEntitlements(l, pool);
      GrownEntitlements(r, pool);
      MergeEntitlementKeys(Eval(Grow(l, pool)), Eval(Grow(r, pool)), NotGiven);
      assert EntitledKeys(pool, Positions(plan)) == EntitledKeys(pool, Positions(l)) + EntitledKeys(pool, Positions(r));
  }

  /* ---------- products ---------- */

  /** The shapes of the processors: the three products, or none. */
  predicate Examined(fp: Fingerprint) {
    Built(fp, PRODUCT_NAMES) && fp.gid.None?
  }

  predicate Unexamined(fp: Fingerprint) {
    Built(fp, []) && fp.gid.None?
  }

  /** Product n is ABSENT in all inputs at these positions that were examined for products. */
  ghost predicate AbsentIn(pool: seq<Fingerprint>, s: set<nat>, n: nat) {
    forall i :: i in s && i < |pool| && n < |OrEmpty(pool[i].products)| ==> pool[i].products.value[n].presence == ABSENT
  }

  /** Some input at these positions has this entry as product n. */
  ghost predicate EntryIn(pool: seq<Fingerprint>, s: set<nat>, n: nat, q: Product) {
    exists i :: i in s && i < |pool| && n < |OrEmpty(pool[i].products)| && pool[i].products.value[n] == q
  }

  /** A merge takes the left product, unless it is ABSENT and the right one is not. */
  lemma MergedProduct(p: Fingerprint, m: Fingerprint, n: nat)
    requires Examined(p) && Examined(m) && Mergeable(p, m, NotGiven) && n < 3
    ensures Examined(Merge(p, m, NotGiven))
    ensures var q := Merge(p, m, NotGiven).products;
            && |OrEmpty(q)| == |OrEmpty(p.products)| == |OrEmpty(m.products)| == 3
            && q.value[n] == if p.products.value[n].presence == ABSENT && m.products.value[n].presence != ABSENT
                             then m.products.value[n] else p.products.value[n]
  {
    CompatibleMerges(p, m, PRODUCT_NAMES, NotGiven);
    hide Merge, Mergeable, WellFormed;
    MergedProductAt(p, m, PRODUCT_NAMES, n);
  }

  /** A system that was not examined adds no product. */
  lemma NoProductAdded(p: Fingerprint, m: Fingerprint)
    requires (Examined(p) || Unexamined(p)) && Unexamined(m) && Mergeable(p, m, NotGiven)
    ensures Merge(p, m, NotGiven).products == p.products
    ensures Examined(p) ==> Examined(Merge(p, m, NotGiven))
    ensures Unexamined(p) ==> Unexamined(Merge(p, m, NotGiven))
  {
    if Examined(p) {
      CompatibleMerges(p, m, PRODUCT_NAMES, NotGiven);
    }
    if Unexamined(p) {
      CompatibleMerges(p, m, [], NotGiven);
    }
  }

  lemma NotIntoUnexamined(p: Fingerprint, m: Fingerprint)
    requires Unexamined(p) && Examined(m)
    ensures !Mergeable(p, m, NotGiven)
  {
    hide WellFormed;
    assert |OrEmpty(m.products)| == 3 && !HasName(OrEmpty(p.products), OrEmpty(m.products)[0].name);
  }

  ghost predicate AllShaped(pool: seq<Fingerprint>) {
    forall i :: 0 <= i < |pool| ==> Examined(pool[i]) || Unexamined(pool[i])
  }

  lemma {:induction false} GrownProducts(plan: Plan, pool: seq<Fingerprint>, n: nat)
    requires Inside(plan, |pool|) && Evaluable(Grow(plan, pool)) && AllShaped(pool) && n < 3
    ensures var fp := Eval(Grow(plan, pool));
            && (Examined(fp) || Unexamined(fp))
            && (Unexamined(fp) ==> forall q :: !EntryIn(pool, Positions(plan), n, q))
            && (Examined(fp) ==>
                  && |OrEmpty(fp.products)| == 3 && EntryIn(pool, Positions(plan), n, fp.products.value[n])
                  && (fp.products.value[n].presence == ABSENT <==> AbsentIn(pool, Positions(plan), n)))
  {
    hide Merge, Mergeable, Examined, Unexamined, AbsentIn, EntryIn;
    match plan
    case At(i) =>
      LeafProducts(pool, i, n);
    case Join(l, r) =>
      GrownProducts(l, pool, n);
      GrownProducts(r, pool, n);
      JoinProducts(Eval(Grow(l, pool)), Eval(Grow(r, pool)), pool, Positions(l), Positions(r), n);
  }

  lemma LeafProducts(pool: seq<Fingerprint>, i: nat, n: nat)
    requires i < |pool| && (Examined(pool[i]) || Unexamined(pool[i])) && n < 3
    ensures Unexamined(pool[i]) ==> forall q :: !EntryIn(pool, {i}, n, q)
    ensures Examined(pool[i]) ==>
              && |OrEmpty(pool[i].products)| == 3 && EntryIn(pool, {i}, n, pool[i].products.value[n])
              && (pool[i].products.value[n].presence == ABSENT <==> AbsentIn(pool, {i}, n))
  {
    hide WellFormed;
  }

  /** What is known of the value of a plan over these positions. */
  ghost predicate Holding(fp: Fingerprint, pool: seq<Fingerprint>, s: set<nat>, n: nat) {
    && (Examined(fp) || Unexamined(fp))
    && (Unexamined(fp) ==> forall q :: !EntryIn(pool, s, n, q))
    && (Examined(fp) ==>
          && n < |OrEmpty(fp.products)| == 3 && EntryIn(pool, s, n, fp.products.value[n])
          && (fp.products.value[n].presence == ABSENT <==> AbsentIn(pool, s, n)))
  }

  lemma EntryUnion(pool: seq<Fingerprint>, s: set<nat>, t: set<nat>, n: nat)
    ensures forall q :: EntryIn(pool, s + t, n, q) <==> EntryIn(pool, s, n, q) || EntryIn(pool, t, n, q)
    ensures AbsentIn(pool, s + t, n) <==> AbsentIn(pool, s, n) && AbsentIn(pool, t, n)
    ensures (forall q :: !EntryIn(pool, t, n, q)) ==> AbsentIn(pool, t, n)
  {
    forall q | EntryIn(pool, s, n, q) || EntryIn(pool, t, n, q) ensures EntryIn(pool, s + t, n, q) {
      if EntryIn(pool, s, n, q) {
        var i :| i in s && i < |pool| && n < |OrEmpty(pool[i].products)| && pool[i].products.value[n] == q;
        assert i in s + t;
      } else {
        var i :| i in t && i < |pool| && n < |OrEmpty(pool[i].products)| && pool[i].products.value[n] == q;
        assert i in s + t;
      }
    }
    if AbsentIn(pool, s + t, n) {
      assert forall i :: i in s || i in t ==> i in s + t;
    }
    if forall q :: !EntryIn(pool, t, n, q) {
      forall i | i in t && i < |pool| && n < |OrEmpty(pool[i].products)| ensures false {
        assert EntryIn(pool, t, n, pool[i].products.value[n]);
      }
    }
  }

  lemma JoinProducts(a: Fingerprint, b: Fingerprint, pool: seq<Fingerprint>, s: set<nat>, t: set<nat>, n: nat)
    requires Holding(a, pool, s, n) && Holding(b, pool, t, n) && Mergeable(a, b, NotGiven) && n < 3
    ensures Holding(Merge(a, b, NotGiven), pool, s + t, n)
  {
    hide Merge, Mergeable, Examined, Unexamined, AbsentIn, EntryIn;
    EntryUnion(pool, s, t, n);
    if Unexamined(b) {
      NoProductAdded(a, b);
      OneShape(a);
      OneShape(Merge(a, b, NotGiven));
    } else if Unexamined(a) {
      NotIntoUnexamined(a, b);
    } else {
      MergedProduct(a, b, n);
      OneShape(Merge(a, b, NotGiven));
    }
  }

  lemma OneShape(fp: Fingerprint)
    ensures !(Examined(fp) && Unexamined(fp))
  {
  }

  /* ---------- reported systems ---------- */

  lemma InputsShaped(r: Report)
    ensures AllShaped(Inputs(r))
  {
    hide Process, Built, Inputs;
    forall i | 0 <= i < |Inputs(r)| ensures Examined(Inputs(r)[i]) || Unexamined(Inputs(r)[i]) {
      var kind, raw := InputOrigin(r, i);
      ProcessedShape(kind, raw);
    }
  }

  /** A reported system carries the source keys of its parts, and the identities of their
      entitlements, and no others. */
  lemma SystemHolds(r: Report, p: nat)
    requires p < |Systems(r)|
    ensures p < |Systems(Marked(r))|
    ensures Systems(r)[p].sources.Keys == SourceKeys(Inputs(r), Parts(r, p))
    ensures EntitlementKeys(OrEmpty(Systems(r)[p].entitlements)) == EntitledKeys(Inputs(r), Parts(r, p))
  {
    hide Systems, Inputs, Parts, Linked, Alike, Marked, SourceKeys, EntitledKeys, EntitlementKeys, Evaluable, Eval;
    SystemsMadeOfParts(r, p);
    var plan :| Positions(plan) == Parts(r, p) && Rooted(Systems(r)[p], Inputs(r), plan) && Linked(plan, Inputs(r));
    GrownSources(plan, Inputs(r));
    GrownEntitlements(plan, Inputs(r));
  }

  /** If a part was examined for products, the reported system has the three products: each is the
      entry of a part, and ABSENT exactly when it is ABSENT in all of these parts. */
  lemma SystemProducts(r: Report, p: nat, n: nat)
    requires p < |Systems(r)| && n < 3
    ensures p < |Systems(Marked(r))|
    ensures var parts, products := Parts(r, p), OrEmpty(Systems(r)[p].products);
            if exists q :: EntryIn(Inputs(r), parts, n, q) then
              && |products| == 3 && EntryIn(Inputs(r), parts, n, products[n])
              && (products[n].presence == ABSENT <==> AbsentIn(Inputs(r), parts, n))
            else products == []
  {
    hide Systems, Inputs, Parts, Linked, Alike, Marked, AbsentIn, EntryIn, Evaluable, Eval, Examined, Unexamined,
         AllShaped;
    SystemsMadeOfParts(r, p);
    InputsShaped(r);
    var plan :| Positions(plan) == Parts(r, p) && Rooted(Systems(r)[p], Inputs(r), plan) && Linked(plan, Inputs(r));
    GrownProducts(plan, Inputs(r), n);
    ProductCount(Eval(Grow(plan, Inputs(r))));
  }

  lemma ProductCount(fp: Fingerprint)
    ensures Unexamined(fp) ==> OrEmpty(fp.products) == []
  {
  }
}
