/** A system that shares no key with any other one is reported as it is. */
module LoneSystems {
  import opened Fingerprints
  import opened MergeLaws
  import opened MergeTrees
  import opened Dedup
  import opened Index
  import opened MergePass
  import opened Derivation
  import opened Processors
  import opened Pipeline
  import opened PipelineLaws
  import opened Marks
  import opened SystemTraces

  /** The system shares no key with any other. */
  ghost predicate Alone(pool: seq<Fingerprint>, i: nat) {
    i < |pool| && forall j: nat :: j < |pool| && j != i ==> !Neighbours(pool, i, j) && !Neighbours(pool, j, i)
  }

  lemma AloneInPlan(plan: Plan, pool: seq<Fingerprint>, i: nat)
    requires Linked(plan, pool) && Inside(plan, |pool|) && Alone(pool, i) && i in Positions(plan)
    ensures Positions(plan) == {i}
  {
    hide Linked, ShareKey, Inside;
    LinkedConnected(plan, pool);
    if Positions(plan) != {i} {
      assert {i} <= Positions(plan) && Crossing(pool, {i}, Positions(plan));
    }
  }

  /** In a list of a MAC pass the first fingerprint with the mark of such a system is not shadowed:
      whoever claims its addresses is made of the same system. */
  lemma AloneNotShadowed(a: seq<Fingerprint>, b: seq<Fingerprint>, w: Runs, tr: seq<Plan>, i: nat, j: nat)
    requires AllTwins(a, b, w, tr) && Orderly(w) && Branded(w.marked) && Alone(w.pool, i)
    requires j < |b| && Name(i) in b[j].sources && forall p :: 0 <= p < j ==> Name(i) !in b[p].sources
    ensures !Shadowed(MAC_ADDRESSES, a, j)
  {
    hide Branded, Orderly, Alone, Alike, Claims;
    if Shadowed(MAC_ADDRESSES, a, j) {
      var x := Claims(a[j], MAC_ADDRESSES)[0];
      assert x in Claims(a[j], MAC_ADDRESSES);
      var p :| 0 <= p < j && x in Claims(a[p], MAC_ADDRESSES);
      TwinParts(a[j], b[j], w, tr[j], i);
      TwinParts(a[p], b[p], w, tr[p], i);
      AloneInPlan(tr[j], w.pool, i);
      SharesMac(a[j], a[p], w, tr[j], tr[p], i, x);
    }
  }

  lemma SharesMac(f: Fingerprint, g: Fingerprint, w: Runs, s: Plan, t: Plan, i: nat, x: Scalar)
    requires Orderly(w) && Rooted(f, w.pool, s) && Rooted(g, w.pool, t) && Positions(s) == {i} && Alone(w.pool, i)
    requires x in Claims(f, MAC_ADDRESSES) && x in Claims(g, MAC_ADDRESSES)
    ensures i in Positions(t)
  {
    hide Rooted, Claims, WellFormed;
    var a := RootedClaim(f, w.pool, s, MAC_ADDRESSES, x);
    var b := RootedClaim(g, w.pool, t, MAC_ADDRESSES, x);
    assert KEY_PAIRS[4] in KEY_PAIRS && KEY_PAIRS[4] == KeyPair(MAC_ADDRESSES, MAC_ADDRESSES);
    assert ShareKey(w.pool[a], w.pool[b]);
    assert b != i ==> Neighbours(w.pool, i, b);
  }

  lemma FirstCarrier(fps: seq<Fingerprint>, s: string) returns (j: nat)
    requires s in SourcesOf(fps)
    ensures j < |fps| && s in fps[j].sources && forall p :: 0 <= p < j ==> s !in fps[p].sources
  {
    var bound :| 0 <= bound < |fps| && s in fps[bound].sources;
    j := 0;
    while s !in fps[j].sources
      invariant 0 <= j <= bound && forall p :: 0 <= p < j ==> s !in fps[p].sources
      decreases bound - j
    {
      j := j + 1;
    }
  }

  lemma AloneKept(r: PassResult, m: PassResult, w: Runs, tb: seq<Plan>, tc: seq<Plan>, i: nat)
    requires AllTwins(r.base, m.base, w, tb) && AllTwins(r.cand, m.cand, w, tc)
    requires Orderly(w) && Branded(w.marked) && Alone(w.pool, i)
    ensures !Dropped(r, m, Name(i))
  {
    hide AllTwins, Orderly, Branded, Alone, Shadowed, SourcesOf, Name;
    if Dropped(r, m, Name(i)) {
      if Name(i) in SourcesOf(m.base) {
        var j := FirstCarrier(m.base, Name(i));
        AloneNotShadowed(r.base, m.base, w, tb, i, j);
      } else {
        var j := FirstCarrier(m.cand, Name(i));
        AloneNotShadowed(r.cand, m.cand, w, tc, i, j);
      }
    }
  }

  /** The same system, with the same identities among its entitlements. */
  ghost predicate Unchanged(fp: Fingerprint, input: Fingerprint) {
    && fp == input.(entitlements := fp.entitlements) && fp.entitlements.Some? && input.entitlements.Some?
    && EntitlementKeys(fp.entitlements.value) == EntitlementKeys(input.entitlements.value)
  }

  lemma MergeUnchanged(p: Fingerprint, m: Fingerprint, input: Fingerprint, names: seq<string>)
    requires Built(input, names) && Unchanged(p, input) && Unchanged(m, input)
    ensures Mergeable(p, m, NotGiven) && Unchanged(Merge(p, m, NotGiven), input)
  {
    CompatibleMerges(p, m, names, NotGiven);
    ProductsAligned(p.products.value, m.products.value);
    assert KeysToAdd(p, m, NotGiven) == {};
    assert Pairwise(p.products.value, m.products.value) == p.products.value;
    var e, f := p.entitlements.value, m.entitlements.value;
    assert EntitlementKeys(e + f) == EntitlementKeys(e) + EntitlementKeys(f) by { EntitlementKeysConcat(e, f); }
  }

  /** Merging a system with itself changes nothing else. */
  lemma {:induction false} GrownAlone(plan: Plan, pool: seq<Fingerprint>, i: nat, names: seq<string>)
    requires Inside(plan, |pool|) && Positions(plan) == {i} && i < |pool| && Built(pool[i], names)
             && Evaluable(Grow(plan, pool))
    ensures Unchanged(Eval(Grow(plan, pool)), pool[i])
  {
    hide Built, Unchanged, Merge, Mergeable;
    match plan
    case At(j) =>
      assert j in Positions(plan);
      UnchangedItself(pool[i], names);
    case Join(l, r) =>
      assert Positions(l) <= {i} && Positions(r) <= {i};
      OnlyMember(Positions(l), i);
      OnlyMember(Positions(r), i);
      GrownAlone(l, pool, i, names);
      GrownAlone(r, pool, i, names);
      MergeUnchanged(Eval(Grow(l, pool)), Eval(Grow(r, pool)), pool[i], names);
  }

  lemma OnlyMember(s: set<nat>, i: nat)
    requires s != {} && s <= {i}
    ensures s == {i}
  {
    var j :| j in s;
  }

  lemma UnchangedItself(fp: Fingerprint, names: seq<string>)
    requires Built(fp, names)
    ensures Unchanged(fp, fp)
  {
  }

  lemma InputBuilt(r: Report, i: nat) returns (names: seq<string>)
    requires i < |Inputs(r)|
    ensures Built(Inputs(r)[i], names) && Inputs(r)[i].gid.None?
  {
    hide Process, Built, Inputs;
    var kind, raw := InputOrigin(r, i);
    ProcessedShape(kind, raw);
    names := NamesOf(kind);
  }

  lemma RootedAlone(fp: Fingerprint, pool: seq<Fingerprint>, plan: Plan, i: nat, names: seq<string>)
    requires Rooted(fp, pool, plan) && Positions(plan) == {i} && i < |pool| && Built(pool[i], names)
    ensures Unchanged(Untagged(fp), pool[i])
  {
    GrownAlone(plan, pool, i, names);
  }

  /** The system is reported by itself, as its processor built it. */
  ghost predicate ReportedAlone(r: Report, i: nat) {
    exists p :: 0 <= p < |Systems(r)| && p < |Systems(Marked(r))| && i < |Inputs(r)|
                && Parts(r, p) == {i} && Unchanged(Untagged(Systems(r)[p]), Inputs(r)[i])
  }

  /** A system that shares no key with any other is reported by itself and unchanged. */
  lemma AloneIsReported(r: Report, i: nat)
    requires i < |Inputs(r)| && Alone(Inputs(r), i)
    ensures ReportedAlone(r, i)
  {
    hide Systems, Inputs, Parts, Twin, Alone, Branded, Orderly, Dropped, FirstMac, SecondMac, Name, Marked, MadeOf,
         Alike;
    var w := Alongside(r);
    var st := SystemsTwins(r);
    InputsOrderly(r);
    MarkedBranded(r);
    AloneKept(FirstMac(r), FirstMac(Marked(r)), w, st.base1, st.cand1, i);
    AloneKept(SecondMac(r), SecondMac(Marked(r)), w, st.base2, st.cand2, i);
    OnlyMacPassesDrop(r, i);
    var p :| 0 <= p < |Systems(Marked(r))| && i in Parts(r, p);
    PartAlone(r, i, p);
  }

  lemma PartAlone(r: Report, i: nat, p: nat)
    requires i < |Inputs(r)| && Alone(Inputs(r), i) && p < |Systems(Marked(r))| && i in Parts(r, p)
    ensures p < |Systems(r)| && Parts(r, p) == {i} && Unchanged(Untagged(Systems(r)[p]), Inputs(r)[i])
  {
    hide Systems, Inputs, Parts, Rooted, Linked, Alone, Alike, Marked, Built, Unchanged;
    SystemsMadeOfParts(r, p);
    var plan :| Positions(plan) == Parts(r, p) && Rooted(Systems(r)[p], Inputs(r), plan) && Linked(plan, Inputs(r));
    RootedInside(Systems(r)[p], Inputs(r), plan);
    PositionsInside(plan, |Inputs(r)|);
    AloneInPlan(plan, Inputs(r), i);
    var names := InputBuilt(r, i);
    RootedAlone(Systems(r)[p], Inputs(r), plan, i, names);
  }
}
