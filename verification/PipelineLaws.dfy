/** What holds of every run of the engine. */
module PipelineLaws {
  import opened Fingerprints
  import opened MergeLaws
  import opened Dedup
  import opened Index
  import opened MergePass
  import opened PassFacts
  import opened Derivation
  import opened Processors
  import opened Pipeline

  /* ---------- the reverse priority keys have no effect ---------- */

  lemma {:induction false} MatchedTuple(ks: seq<Scalar>, b: Entries, c: Entries, tuple: seq<string>, names: seq<string>)
    requires Meets(b, c, names, AsTuple(tuple)) && Meets(b, c, names, NotGiven)
    requires forall i :: 0 <= i < |ks| ==> ks[i] in c
    ensures Matched(ks, b, c, AsTuple(tuple), names) == Matched(ks, b, c, NotGiven, names)
  {
    hide Merge, Mergeable, Compatible, Fits;
    if ks != [] {
      var front, last := ks[..|ks| - 1], ks[|ks| - 1];
      MatchedTuple(front, b, c, tuple, names);
      if last in b {
        TupleNeverReverses(b[last], c[last], tuple);
        CompatibleMerges(b[last], c[last], names, NotGiven);
      }
    }
  }

  lemma PassTuple(bk: string, base: seq<Fingerprint>, ck: string, cand: seq<Fingerprint>, tuple: seq<string>,
                  start: nat, names: seq<string>, candNames: seq<string>)
    requires PassInputs(base, cand, AsTuple(tuple), names, candNames)
    ensures PassInputs(base, cand, NotGiven, names, candNames)
    ensures Pass(bk, base, ck, cand, AsTuple(tuple), start, names, candNames)
            == Pass(bk, base, ck, cand, NotGiven, start, names, candNames)
  {
    hide IndexScan, Fits, Meets, DedupPass, Matched;
    var bi, ci := IndexScan(bk, base, start), IndexScan(ck, cand, start + |base|);
    IndexFits(bk, base, start, names);
    IndexesMeet(bk, base, ck, cand, AsTuple(tuple), start, names, candNames);
    IndexesMeet(bk, base, ck, cand, NotGiven, start, names, candNames);
    MatchedTuple(ci.dict.keys, bi.dict.vals, ci.dict.vals, tuple, names);
  }

  lemma {:induction false} PassesTuple(pairs: seq<KeyPair>, base: seq<Fingerprint>, cand: seq<Fingerprint>,
                                       tuple: seq<string>, start: nat, names: seq<string>, candNames: seq<string>)
    requires TypeInputs(base, cand, AsTuple(tuple), names, candNames)
    ensures Passes(pairs, base, cand, AsTuple(tuple), start, names, candNames)
            == Passes(pairs, base, cand, NotGiven, start, names, candNames)
  {
    hide Fits, Pass;
    if pairs != [] {
      var front, pair := pairs[..|pairs| - 1], pairs[|pairs| - 1];
      PassesTuple(front, base, cand, tuple, start, names, candNames);
      var st := Passes(front, base, cand, NotGiven, start, names, candNames);
      PassTuple(pair.base, st.base, pair.cand, st.cand, tuple, st.next, names, candNames);
    }
  }

  /** The names are passed as a tuple, so no priority is ever reversed. */
  lemma ReverseKeysHaveNoEffect(r: Report)
    ensures WithVcenter(r, REVERSE_KEYS) == WithVcenter(r, NotGiven)
  {
    hide Fits, Passes, Combined, Vcenter;
    PassesTuple(NETWORK_VCENTER, Combined(r).fps, Vcenter(r), REVERSE_KEYS.names, Combined(r).next, PRODUCT_NAMES, []);
  }

  /** When a vcenter pair replaces the network pair for a fact both carry: only if they are
      equal, the network value is null and the vcenter value is not, or vcenter alone had sudo. */
  lemma VcenterWinsIff(b: Fingerprint, c: Fingerprint, k: string)
    requires Compatible(b, c, PRODUCT_NAMES, REVERSE_KEYS) && k in b.facts && k in c.facts
    ensures Mergeable(b, c, REVERSE_KEYS)
    ensures FactAt(Merge(b, c, REVERSE_KEYS), k) == FactAt(c, k) <==>
            || FactAt(b, k) == FactAt(c, k)
            || (b.facts[k].Null? && !c.facts[k].Null?)
            || (!Sudo(b, k) && Sudo(c, k))
  {
    CompatibleMerges(b, c, PRODUCT_NAMES, REVERSE_KEYS);
    MergeFactAt(b, c, REVERSE_KEYS, k);
  }

  /* ---------- what the processors built ---------- */

  /** Everything the processors built. */
  function Inputs(r: Report): seq<Fingerprint> {
    ProcessAll(NETWORK, r.network) + ProcessAll(SATELLITE, r.satellite) + ProcessAll(VCENTER, r.vcenter) + Appended(r)
  }

  lemma InputsWellFormed(r: Report, i: nat)
    requires i < |Inputs(r)|
    ensures WellFormed(Inputs(r)[i])
  {
    hide Process, WellFormed;
    var fp := Inputs(r)[i];
    var kind, raw := InputOrigin(r, i);
    ProcessedShape(kind, raw);
    FitsWellFormed(fp, Shape(NamesOf(kind), false));
  }

  lemma InputOrigin(r: Report, i: nat) returns (kind: Kind, raw: RawSystem)
    requires i < |Inputs(r)|
    ensures Inputs(r)[i] == Process(kind, raw)
  {
    hide Process;
    var fp := Inputs(r)[i];
    if fp in ProcessAll(NETWORK, r.network) {
      var j :| 0 <= j < |r.network| && ProcessAll(NETWORK, r.network)[j] == fp;
      return NETWORK, r.network[j];
    } else if fp in ProcessAll(SATELLITE, r.satellite) {
      var j :| 0 <= j < |r.satellite| && ProcessAll(SATELLITE, r.satellite)[j] == fp;
      return SATELLITE, r.satellite[j];
    } else if fp in ProcessAll(VCENTER, r.vcenter) {
      var j :| 0 <= j < |r.vcenter| && ProcessAll(VCENTER, r.vcenter)[j] == fp;
      return VCENTER, r.vcenter[j];
    } else if fp in ProcessAll(OPENSHIFT, Hosts(OPENSHIFT, r.openshift)) {
      var hosts := Hosts(OPENSHIFT, r.openshift);
      var j :| 0 <= j < |hosts| && ProcessAll(OPENSHIFT, hosts)[j] == fp;
      return OPENSHIFT, hosts[j];
    } else if fp in ProcessAll(ANSIBLE, r.ansible) {
      var j :| 0 <= j < |r.ansible| && ProcessAll(ANSIBLE, r.ansible)[j] == fp;
      return ANSIBLE, r.ansible[j];
    } else {
      var j :| 0 <= j < |r.rhacs| && ProcessAll(RHACS, r.rhacs)[j] == fp;
      return RHACS, r.rhacs[j];
    }
  }

  /** The plans of n systems that stand in the pool from position `off` on. */
  function Singles(off: nat, n: nat): (tr: seq<Plan>)
    ensures |tr| == n && forall p :: 0 <= p < n ==> tr[p] == At(off + p)
  {
    seq(n, p requires 0 <= p < n => At(off + p))
  }

  /* ---------- the same systems under other sources ---------- */

  /** The same raw systems, whatever their sources are called. */
  predicate Resourced(raws: seq<RawSystem>, other: seq<RawSystem>) {
    |raws| == |other| && forall i :: 0 <= i < |raws| ==> other[i] == raws[i].(source := other[i].source)
  }

  lemma {:induction false} AddFactsAlike(f: Fingerprint, g: Fingerprint, raw: RawSystem, other: RawSystem,
                                         names: seq<string>)
    requires Alike(f, g) && other == raw.(source := other.source)
    ensures Alike(AddFacts(f, raw, names), AddFacts(g, other, names))
  {
    if names != [] {
      AddFactsAlike(f, g, raw, other, names[..|names| - 1]);
    }
  }

  lemma ProcessAlike(kind: Kind, raw: RawSystem, other: RawSystem)
    requires other == raw.(source := other.source)
    ensures Alike(Process(kind, raw), Process(kind, other))
  {
    hide FactList;
    AddFactsAlike(Blank(kind, raw), Blank(kind, other), raw, other, FactList(kind));
  }

  /** The processed systems stand in the pools of both runs from position `off` on. */
  predicate Placed(kind: Kind, raws: seq<RawSystem>, other: seq<RawSystem>, w: Runs, off: nat) {
    && Resourced(raws, other) && off + |raws| <= |w.pool| && off + |raws| <= |w.marked|
    && w.pool[off..off + |raws|] == ProcessAll(kind, raws) && w.marked[off..off + |raws|] == ProcessAll(kind, other)
  }

  lemma ProcessedTwins(kind: Kind, raws: seq<RawSystem>, other: seq<RawSystem>, w: Runs, off: nat)
    requires Placed(kind, raws, other, w, off)
    ensures AllTwins(ProcessAll(kind, raws), ProcessAll(kind, other), w, Singles(off, |raws|))
  {
    hide Process, Twin, Alike;
    var a, b := ProcessAll(kind, raws), ProcessAll(kind, other);
    ProcessedIdentified(kind, raws);
    forall p | 0 <= p < |a| ensures Twin(a[p], b[p], w, Singles(off, |raws|)[p]) {
      assert Fits(a[p], Shape(NamesOf(kind), false));
      assert w.pool[off..off + |raws|][p] == w.pool[off + p] && w.marked[off..off + |raws|][p] == w.marked[off + p];
      ProcessAlike(kind, raws[p], other[p]);
      LeafTwin(w, off + p);
    }
  }

  lemma IdentityPair(name: string)
    requires IsIdentity(name)
    ensures KeyPair(name, name) in KEY_PAIRS
  {
    assert KEY_PAIRS[0].base == SUBSCRIPTION_MANAGER_ID && KEY_PAIRS[1].base == BIOS_UUID
           && KEY_PAIRS[2].base == VM_UUID;
    assert KEY_PAIRS[0] in KEY_PAIRS && KEY_PAIRS[1] in KEY_PAIRS && KEY_PAIRS[2] in KEY_PAIRS;
  }

  /** Deduplication of one source type makes the same merges in both runs, and only between
      systems that share an identity. */
  lemma DeduplicatedTwins(kind: Kind, raws: seq<RawSystem>, other: seq<RawSystem>, keys: seq<IdKey>, w: Runs, off: nat)
    returns (tr: seq<Plan>)
    requires forall j :: 0 <= j < |keys| ==> keys[j].Fact? && IsIdentity(keys[j].name)
    requires Placed(kind, raws, other, w, off) && Orderly(w)
    ensures AllTwins(Deduplicated(kind, raws, keys), Deduplicated(kind, other, keys), w, tr)
  {
    hide Fits, Process, Twin, IsIdentity, Orderly;
    ProcessedIdentified(kind, raws);
    ProcessedTwins(kind, raws, other, w, off);
    forall j | 0 <= j < |keys| ensures KeyPair(keys[j].name, keys[j].name) in KEY_PAIRS {
      IdentityPair(keys[j].name);
    }
    tr := DedupTwins(keys, ProcessAll(kind, raws), ProcessAll(kind, other), Shape(NamesOf(kind), false), w,
                     Singles(off, |raws|));
  }
}
