/** Identity keys stay unique where the engine relies on it, so only the passes by MAC
    address can drop a fingerprint. */
module Conservation {
  import opened Fingerprints
  import opened MergeLaws
  import opened Dedup
  import opened Index
  import opened MergePass
  import opened PassLaws
  import opened PassFacts
  import opened ScalarJoin
  import opened Derivation
  import opened Processors
  import opened Pipeline
  import opened PipelineLaws

  /* ---------- unique keys through the stages ---------- */

  lemma DeduplicatedUnique(kind: Kind, raws: seq<RawSystem>, keys: seq<IdKey>, i: nat)
    requires forall j :: 0 <= j < |keys| ==> keys[j].Fact? && IsIdentity(keys[j].name)
    requires i < |keys|
    ensures UniqueScalar(keys[i].name, Deduplicated(kind, raws, keys))
  {
    hide Fits, Process;
    ProcessedIdentified(kind, raws);
    DedupAllUnique(keys, ProcessAll(kind, raws), Shape(NamesOf(kind), false));
  }

  lemma DeduplicatedLacks(kind: Kind, raws: seq<RawSystem>, keys: seq<IdKey>, name: string)
    requires forall j :: 0 <= j < |keys| ==> keys[j].Fact? && IsIdentity(keys[j].name)
    requires name !in FactList(kind)
    ensures Lacks(Deduplicated(kind, raws, keys), name)
  {
    hide Fits, Process, Rooted, FactList, WellFormed, Alike, Linked;
    var pool := ProcessAll(kind, raws);
    forall i | 0 <= i < |pool| ensures WellFormed(pool[i]) && name !in pool[i].facts {
      ProcessedShape(kind, raws[i]);
      FitsWellFormed(pool[i], Shape(NamesOf(kind), false));
    }
    assert pool[0..|raws|] == pool;
    var tr := DeduplicatedTwins(kind, raws, raws, keys, Runs(pool, pool), 0);
    var fps := Deduplicated(kind, raws, keys);
    forall i | 0 <= i < |fps| ensures name !in fps[i].facts {
      RootedProvenance(fps[i], pool, tr[i], name);
    }
  }

  /** A pass keeps an identity key unique and scalar on the base side, and absent on the other. */
  lemma PassKeepsIdentity(bk: string, base: seq<Fingerprint>, ck: string, cand: seq<Fingerprint>, rev: ReverseKeys,
                          start: nat, names: seq<string>, candNames: seq<string>, name: string)
    requires PassInputs(base, cand, rev, names, candNames) && rev.Effective() == {}
    requires UniqueScalar(name, base) && Lacks(cand, name)
    ensures UniqueScalar(name, Pass(bk, base, ck, cand, rev, start, names, candNames).base)
    ensures Lacks(Pass(bk, base, ck, cand, rev, start, names, candNames).cand, name)
  {
    hide TaggedPass, Fits, FactAt;
    BaseKeepsUnique(bk, base, ck, cand, rev, start, names, candNames, name);
    var t := TaggedPass(bk, base, ck, cand, rev, start, names, candNames);
    var r := Pass(bk, base, ck, cand, rev, start, names, candNames);
    forall p | 0 <= p < |r.base| ensures !Get(r.base[p], Fact(name)).Many? {
      BaseOutputValue(bk, base, ck, cand, rev, start, names, candNames, name, p);
    }
    forall p | 0 <= p < |r.cand| ensures name !in r.cand[p].facts {
      CarriedKeepsFacts(bk, base, ck, cand, rev, start, names, candNames, name, p);
      FitsWellFormed(t.cand[p], Shape(candNames, true));
      MissingCell(cand[t.cand[p].gid.value - (start + |base|)], name);
      MissingCell(t.cand[p], name);
    }
  }

  lemma MissingCell(fp: Fingerprint, name: string)
    ensures name !in fp.facts ==> FactAt(fp, name).Missing?
    ensures WellFormed(fp) && FactAt(fp, name).Missing? ==> name !in fp.facts
  {
  }

  lemma {:induction false} PassesKeepIdentity(pairs: seq<KeyPair>, base: seq<Fingerprint>, cand: seq<Fingerprint>,
                                              rev: ReverseKeys,
                                              start: nat, names: seq<string>, candNames: seq<string>, name: string)
    requires TypeInputs(base, cand, rev, names, candNames) && UniqueScalar(name, base) && Lacks(cand, name)
    ensures UniqueScalar(name, Passes(pairs, base, cand, rev, start, names, candNames).base)
    ensures Lacks(Passes(pairs, base, cand, rev, start, names, candNames).cand, name)
  {
    hide Fits, Pass, UniqueScalar, Lacks;
    if pairs != [] {
      var front, pair := pairs[..|pairs| - 1], pairs[|pairs| - 1];
      PassesKeepIdentity(front, base, cand, rev, start, names, candNames, name);
      var st := Passes(front, base, cand, rev, start, names, candNames);
      PassKeepsIdentity(pair.base, st.base, pair.cand, st.cand, rev, st.next, names, candNames, name);
    }
  }

  lemma ConcatIdentity(a: seq<Fingerprint>, b: seq<Fingerprint>, name: string)
    requires UniqueScalar(name, a) && Lacks(b, name)
    ensures UniqueScalar(name, a + b)
  {
  }

  lemma TypesKeepIdentity(pairs: seq<KeyPair>, base: seq<Fingerprint>, cand: seq<Fingerprint>, rev: ReverseKeys,
                          start: nat, names: seq<string>, candNames: seq<string>, name: string)
    requires TypeInputs(base, cand, rev, names, candNames) && UniqueScalar(name, base) && Lacks(cand, name)
    ensures UniqueScalar(name, MergeTypes(pairs, base, cand, rev, start, names, candNames).fps)
  {
    hide Fits, Passes, UniqueScalar, Lacks;
    PassesKeepIdentity(pairs, base, cand, rev, start, names, candNames, name);
    var st := Passes(pairs, base, cand, rev, start, names, candNames);
    ConcatIdentity(st.base, st.cand, name);
    assert [] + cand == cand;
    if base == [] {
      ConcatIdentity(base, cand, name);
    }
  }

  /** The keys of both scalar passes are unique on both sides when the pass runs. */
  lemma ScalarPassKeysUnique(r: Report)
    ensures UniqueScalar(SUBSCRIPTION_MANAGER_ID, Network(r)) && UniqueScalar(SUBSCRIPTION_MANAGER_ID, Satellite(r))
    ensures UniqueScalar(BIOS_UUID, Combined(r).fps) && UniqueScalar(VM_UUID, Vcenter(r))
  {
    hide UniqueScalar, Deduplicated, MergeTypes, Lacks, Fits;
    DeduplicatedUnique(NETWORK, r.network, NETWORK_KEYS, 0);
    DeduplicatedUnique(NETWORK, r.network, NETWORK_KEYS, 1);
    DeduplicatedUnique(SATELLITE, r.satellite, SATELLITE_KEYS, 0);
    DeduplicatedUnique(VCENTER, r.vcenter, VCENTER_KEYS, 0);
    OnlyNetworkHasBiosUuid(SATELLITE);
    DeduplicatedLacks(SATELLITE, r.satellite, SATELLITE_KEYS, BIOS_UUID);
    TypesKeepIdentity(NETWORK_SATELLITE, Network(r), Satellite(r), NotGiven, 0, PRODUCT_NAMES, PRODUCT_NAMES,
                      BIOS_UUID);
  }

  lemma PlainLacks(kind: Kind, raws: seq<RawSystem>)
    requires !kind.NETWORK?
    ensures Lacks(ProcessAll(kind, raws), BIOS_UUID)
  {
    ProcessedIdentified(kind, raws);
  }

  /** No two reported systems share a BIOS UUID. */
  lemma SystemsUniqueByBiosUuid(r: Report)
    ensures Unique(Fact(BIOS_UUID), Systems(r))
  {
    hide Unique, ScalarKeyed, Deduplicated, MergeTypes, Fits, ProcessAll;
    ScalarPassKeysUnique(r);
    OnlyNetworkHasBiosUuid(VCENTER);
    DeduplicatedLacks(VCENTER, r.vcenter, VCENTER_KEYS, BIOS_UUID);
    TypesKeepIdentity(NETWORK_VCENTER, Combined(r).fps, Vcenter(r), REVERSE_KEYS, Combined(r).next, PRODUCT_NAMES, [],
                      BIOS_UUID);
    PlainLacks(OPENSHIFT, Hosts(OPENSHIFT, r.openshift));
    PlainLacks(ANSIBLE, r.ansible);
    PlainLacks(RHACS, r.rhacs);
    ConcatIdentity(WithVcenter(r, REVERSE_KEYS), Appended(r), BIOS_UUID);
  }

  /* ---------- sources ---------- */

  /** The sources of the fingerprints that a pass drops. */
  ghost function ShadowedSources(name: string, fps: seq<Fingerprint>): set<string> {
    set i, s | 0 <= i < |fps| && Shadowed(name, fps, i) && s in fps[i].sources :: s
  }

  lemma SurvivingOrShadowed(name: string, fps: seq<Fingerprint>)
    ensures SurvivingSources(name, fps) + ShadowedSources(name, fps) == SourcesOf(fps)
  {
    hide Survives, Shadowed, IndexScan, Occurs;
    forall s | s in SourcesOf(fps) ensures s in SurvivingSources(name, fps) + ShadowedSources(name, fps) {
      var i :| 0 <= i < |fps| && s in fps[i].sources;
      SurvivesIffOccurs(name, fps, 0, i);
      LostIff(name, fps, 0, i);
      assert Survives(name, fps, i) || Shadowed(name, fps, i);
    }
  }

  /** Any pass: outputs plus dropped fingerprints account for all sources. */
  lemma PassAccountsForSources(bk: string, base: seq<Fingerprint>, ck: string, cand: seq<Fingerprint>, rev: ReverseKeys,
                               start: nat, names: seq<string>, candNames: seq<string>)
    requires PassInputs(base, cand, rev, names, candNames)
    ensures var r := Pass(bk, base, ck, cand, rev, start, names, candNames);
            SourcesOf(r.base) + SourcesOf(r.cand) + ShadowedSources(bk, base) + ShadowedSources(ck, cand)
            == SourcesOf(base) + SourcesOf(cand)
  {
    hide Pass, SourcesOf, SurvivingSources, ShadowedSources;
    PassConservesSources(bk, base, ck, cand, rev, start, names, candNames);
    SurvivingOrShadowed(bk, base);
    SurvivingOrShadowed(ck, cand);
  }

  /** The merged list as its two passes give it. */
  lemma TwoPasses(bk: string, base: seq<Fingerprint>, ck: string, cand: seq<Fingerprint>, rev: ReverseKeys,
                  start: nat, names: seq<string>, candNames: seq<string>)
    requires TypeInputs(base, cand, rev, names, candNames) && base != [] && cand != []
    ensures var pairs := [KeyPair(bk, ck), KeyPair(MAC_ADDRESSES, MAC_ADDRESSES)];
            var r := Pass(bk, base, ck, cand, rev, start, names, candNames);
            && PassInputs(r.base, r.cand, rev, names, candNames)
            && var next := start + |base| + |cand|;
            && var q := Pass(MAC_ADDRESSES, r.base, MAC_ADDRESSES, r.cand, rev, next, names, candNames);
            MergeTypes(pairs, base, cand, rev, start, names, candNames)
                == Numbered(q.base + q.cand, next + |r.base| + |r.cand|)
  {
    hide Pass, Fits, Passes, PassesCount, MergeCount;
    var pairs := [KeyPair(bk, ck), KeyPair(MAC_ADDRESSES, MAC_ADDRESSES)];
    PassesNone(base, cand, rev, start, names, candNames);
    assert pairs[..0] == [] && pairs[..2] == pairs;
    PassesStep(pairs, 0, base, cand, rev, start, names, candNames);
    PassesStep(pairs, 1, base, cand, rev, start, names, candNames);
  }

  /** And the merges of both passes are counted. */
  lemma TwoPassesCount(bk: string, base: seq<Fingerprint>, ck: string, cand: seq<Fingerprint>, rev: ReverseKeys,
                       start: nat, names: seq<string>, candNames: seq<string>)
    requires TypeInputs(base, cand, rev, names, candNames)
    ensures var pairs := [KeyPair(bk, ck), KeyPair(MAC_ADDRESSES, MAC_ADDRESSES)];
            var r := Pass(bk, base, ck, cand, rev, start, names, candNames);
            PassesCount(pairs, base, cand, rev, start, names, candNames)
            == MergeCount(bk, base, ck, cand, start)
               + MergeCount(MAC_ADDRESSES, r.base, MAC_ADDRESSES, r.cand, start + |base| + |cand|)
  {
    hide Pass, Fits, Passes, PassesCount, MergeCount;
    var pairs := [KeyPair(bk, ck), KeyPair(MAC_ADDRESSES, MAC_ADDRESSES)];
    PassesNone(base, cand, rev, start, names, candNames);
    assert pairs[..0] == [] && pairs[..2] == pairs;
    PassesStep(pairs, 0, base, cand, rev, start, names, candNames);
    PassesStep(pairs, 1, base, cand, rev, start, names, candNames);
  }

  /** What the MAC pass of a merge works on: it runs second, and only if both sides are present. */
  function MacInputs(bk: string, base: seq<Fingerprint>, ck: string, cand: seq<Fingerprint>, rev: ReverseKeys,
                     start: nat, ghost names: seq<string>, ghost candNames: seq<string>): PassResult
    requires TypeInputs(base, cand, rev, names, candNames)
  {
    if base == [] || cand == [] then PassResult([], [])
    else Pass(bk, base, ck, cand, rev, start, names, candNames)
  }

  /** The result of a merge carries exactly the sources that survive its MAC pass, and what
      that pass works on carries all. */
  lemma MergedSources(bk: string, base: seq<Fingerprint>, ck: string, cand: seq<Fingerprint>, rev: ReverseKeys,
                      start: nat, names: seq<string>, candNames: seq<string>)
    requires TypeInputs(base, cand, rev, names, candNames)
    requires UniqueScalar(bk, base) && UniqueScalar(ck, cand)
    ensures var pairs := [KeyPair(bk, ck), KeyPair(MAC_ADDRESSES, MAC_ADDRESSES)];
            var r := MacInputs(bk, base, ck, cand, rev, start, names, candNames);
            var sources := SourcesOf(MergeTypes(pairs, base, cand, rev, start, names, candNames).fps);
            if base == [] || cand == [] then sources == SourcesOf(base) + SourcesOf(cand)
            else && sources == SurvivingSources(MAC_ADDRESSES, r.base) + SurvivingSources(MAC_ADDRESSES, r.cand)
                 && SourcesOf(r.base) + SourcesOf(r.cand) == SourcesOf(base) + SourcesOf(cand)
  {
    hide Fits, Pass, Passes, SourcesOf, SurvivingSources, Survives;
    if base == [] || cand == [] {
      assert SourcesOf([]) == {} by { NoSources(); }
    } else {
      TwoPasses(bk, base, ck, cand, rev, start, names, candNames);
      var r, next := Pass(bk, base, ck, cand, rev, start, names, candNames), start + |base| + |cand|;
      ScalarPassLosesNothing(bk, base, ck, cand, rev, start, names, candNames);
      PassConservesSources(MAC_ADDRESSES, r.base, MAC_ADDRESSES, r.cand, rev, next, names, candNames);
      var q := Pass(MAC_ADDRESSES, r.base, MAC_ADDRESSES, r.cand, rev, next, names, candNames);
      SourcesConcat(q.base, q.cand);
    }
  }

  /** The sources that the MAC pass of a merge drops. */
  ghost function MacLoss(bk: string, base: seq<Fingerprint>, ck: string, cand: seq<Fingerprint>, rev: ReverseKeys,
                         start: nat, names: seq<string>, candNames: seq<string>): set<string>
    requires TypeInputs(base, cand, rev, names, candNames)
  {
    var r := MacInputs(bk, base, ck, cand, rev, start, names, candNames);
    ShadowedSources(MAC_ADDRESSES, r.base) + ShadowedSources(MAC_ADDRESSES, r.cand)
  }

  lemma TypesAccountForSources(bk: string, base: seq<Fingerprint>, ck: string, cand: seq<Fingerprint>, rev: ReverseKeys,
                               start: nat, names: seq<string>, candNames: seq<string>)
    requires TypeInputs(base, cand, rev, names, candNames)
    requires UniqueScalar(bk, base) && UniqueScalar(ck, cand)
    ensures var pairs := [KeyPair(bk, ck), KeyPair(MAC_ADDRESSES, MAC_ADDRESSES)];
            SourcesOf(MergeTypes(pairs, base, cand, rev, start, names, candNames).fps)
            + MacLoss(bk, base, ck, cand, rev, start, names, candNames) == SourcesOf(base) + SourcesOf(cand)
  {
    hide Fits, Pass, SourcesOf, SurvivingSources, MergeTypes, UniqueScalar;
    MergedSources(bk, base, ck, cand, rev, start, names, candNames);
    var r := MacInputs(bk, base, ck, cand, rev, start, names, candNames);
    SurvivingOrShadowed(MAC_ADDRESSES, r.base);
    SurvivingOrShadowed(MAC_ADDRESSES, r.cand);
  }

  /** The sources dropped by the two MAC passes of a run. */
  ghost function DroppedByMac(r: Report): set<string> {
    MacLoss(SUBSCRIPTION_MANAGER_ID, Network(r), SUBSCRIPTION_MANAGER_ID, Satellite(r), NotGiven, 0, PRODUCT_NAMES,
            PRODUCT_NAMES)
    + MacLoss(BIOS_UUID, Combined(r).fps, VM_UUID, Vcenter(r), REVERSE_KEYS, Combined(r).next, PRODUCT_NAMES, [])
  }

  lemma DeduplicatedSources(kind: Kind, raws: seq<RawSystem>, keys: seq<IdKey>)
    requires forall j :: 0 <= j < |keys| ==> keys[j].Fact? && IsIdentity(keys[j].name)
    ensures SourcesOf(Deduplicated(kind, raws, keys)) == SourcesOf(ProcessAll(kind, raws))
  {
    hide Fits, Process, SourcesOf;
    ProcessedIdentified(kind, raws);
    DedupAllSources(keys, ProcessAll(kind, raws), Shape(NamesOf(kind), false));
  }

  lemma InputSources(r: Report)
    ensures SourcesOf(Inputs(r)) == SourcesOf(ProcessAll(NETWORK, r.network))
            + SourcesOf(ProcessAll(SATELLITE, r.satellite))
                                    + SourcesOf(ProcessAll(VCENTER, r.vcenter)) + SourcesOf(Appended(r))
  {
    hide SourcesOf, ProcessAll, Appended;
    var n, s, v := ProcessAll(NETWORK, r.network), ProcessAll(SATELLITE, r.satellite), ProcessAll(VCENTER, r.vcenter);
    SourcesConcat(n + s + v, Appended(r));
    SourcesConcat(n + s, v);
    SourcesConcat(n, s);
  }

  /** Reported systems and systems dropped by a MAC pass account for every source of the
      report. */
  lemma EverySourceAccounted(r: Report)
    ensures SourcesOf(Systems(r)) + DroppedByMac(r) == SourcesOf(Inputs(r))
  {
    hide SourcesOf, Deduplicated, MergeTypes, UniqueScalar, MacLoss, Appended, ProcessAll, Inputs, Fits;
    ScalarPassKeysUnique(r);
    DeduplicatedSources(NETWORK, r.network, NETWORK_KEYS);
    DeduplicatedSources(SATELLITE, r.satellite, SATELLITE_KEYS);
    DeduplicatedSources(VCENTER, r.vcenter, VCENTER_KEYS);
    TypesAccountForSources(SUBSCRIPTION_MANAGER_ID, Network(r), SUBSCRIPTION_MANAGER_ID, Satellite(r), NotGiven, 0,
                           PRODUCT_NAMES, PRODUCT_NAMES);
    TypesAccountForSources(BIOS_UUID, Combined(r).fps, VM_UUID, Vcenter(r), REVERSE_KEYS, Combined(r).next,
                           PRODUCT_NAMES, []);
    SourcesConcat(WithVcenter(r, REVERSE_KEYS), Appended(r));
    InputSources(r);
  }
}
