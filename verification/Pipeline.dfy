/** The whole engine: deduplicate each source type, merge satellite into network, merge
    vcenter into the result, and append the source types that are never merged. */
module Pipeline {
  import opened OrderedDict
  import opened Fingerprints
  import opened Dedup
  import opened MergePass
  import opened PassFacts
  import opened Processors

  datatype KeyPair = KeyPair(base: string, cand: string)

  const NETWORK_KEYS := [Fact(SUBSCRIPTION_MANAGER_ID), Fact(BIOS_UUID)]
  const SATELLITE_KEYS := [Fact(SUBSCRIPTION_MANAGER_ID)]
  const VCENTER_KEYS := [Fact(VM_UUID)]
  const NETWORK_SATELLITE := [KeyPair(SUBSCRIPTION_MANAGER_ID, SUBSCRIPTION_MANAGER_ID),
                              KeyPair(MAC_ADDRESSES, MAC_ADDRESSES)]
  const NETWORK_VCENTER := [KeyPair(BIOS_UUID, VM_UUID), KeyPair(MAC_ADDRESSES, MAC_ADDRESSES)]
  const REVERSE_KEYS := AsTuple(["cpu_count", "infrastructure_type"])

  /* ---------- merging two source types ---------- */

  datatype PassState = PassState(base: seq<Fingerprint>, cand: seq<Fingerprint>, next: nat)

  predicate TypeInputs(base: seq<Fingerprint>, cand: seq<Fingerprint>, rev: ReverseKeys, names: seq<string>,
                       candNames: seq<string>) {
    && AllFit(base, Shape(names, false)) && AllFit(cand, Shape(candNames, false))
    && (candNames == names || candNames == [])
    && rev.Effective() == {}
  }

  /** One pass per key pair, each working on what the previous one left. */
  function Passes(pairs: seq<KeyPair>, base: seq<Fingerprint>, cand: seq<Fingerprint>, rev: ReverseKeys,
                  start: nat, ghost names: seq<string>, ghost candNames: seq<string>): (st: PassState)
    requires TypeInputs(base, cand, rev, names, candNames)
    ensures TypeInputs(st.base, st.cand, rev, names, candNames)
  {
    if pairs == [] then PassState(base, cand, start)
    else
      var st := Passes(pairs[..|pairs| - 1], base, cand, rev, start, names, candNames);
      var pair := pairs[|pairs| - 1];
      var r := Pass(pair.base, st.base, pair.cand, st.cand, rev, st.next, names, candNames);
      PassState(r.base, r.cand, st.next + |st.base| + |st.cand|)
  }

  /** A list of fingerprints and the next unused global id. */
  datatype Numbered = Numbered(fps: seq<Fingerprint>, next: nat)

  function MergeTypes(pairs: seq<KeyPair>, base: seq<Fingerprint>, cand: seq<Fingerprint>, rev: ReverseKeys,
                      start: nat, ghost names: seq<string>, ghost candNames: seq<string>): Numbered
    requires TypeInputs(base, cand, rev, names, candNames)
  {
    if cand == [] then Numbered(base, start)
    else if base == [] then Numbered(cand, start)
    else
      var st := Passes(pairs, base, cand, rev, start, names, candNames);
      Numbered(st.base + st.cand, st.next)
  }

  /** The number of merges of all passes. */
  function PassesCount(pairs: seq<KeyPair>, base: seq<Fingerprint>, cand: seq<Fingerprint>, rev: ReverseKeys,
                       start: nat, ghost names: seq<string>, ghost candNames: seq<string>): nat
    requires TypeInputs(base, cand, rev, names, candNames)
  {
    if pairs == [] then 0
    else
      var front, pair := pairs[..|pairs| - 1], pairs[|pairs| - 1];
      var st := Passes(front, base, cand, rev, start, names, candNames);
      PassesCount(front, base, cand, rev, start, names, candNames)
          + MergeCount(pair.base, st.base, pair.cand, st.cand, st.next)
  }

  lemma PassesNone(base: seq<Fingerprint>, cand: seq<Fingerprint>, rev: ReverseKeys,
                   start: nat, names: seq<string>, candNames: seq<string>)
    requires TypeInputs(base, cand, rev, names, candNames)
    ensures Passes([], base, cand, rev, start, names, candNames) == PassState(base, cand, start)
    ensures PassesCount([], base, cand, rev, start, names, candNames) == 0
  {
  }

  lemma PassesStep(pairs: seq<KeyPair>, i: nat, base: seq<Fingerprint>, cand: seq<Fingerprint>, rev: ReverseKeys,
                   start: nat, names: seq<string>, candNames: seq<string>)
    requires TypeInputs(base, cand, rev, names, candNames) && i < |pairs|
    ensures var st := Passes(pairs[..i], base, cand, rev, start, names, candNames);
            && PassInputs(st.base, st.cand, rev, names, candNames)
            && var r := Pass(pairs[i].base, st.base, pairs[i].cand, st.cand, rev, st.next, names, candNames);
            && TypeInputs(r.base, r.cand, rev, names, candNames)
            && Passes(pairs[..i + 1], base, cand, rev, start, names, candNames)
               == PassState(r.base, r.cand, st.next + |st.base| + |st.cand|)
            && PassesCount(pairs[..i + 1], base, cand, rev, start, names, candNames)
               == PassesCount(pairs[..i], base, cand, rev, start, names, candNames)
                  + MergeCount(pairs[i].base, st.base, pairs[i].cand, st.cand, st.next)
  {
    hide Fits, Pass, MergeCount;
    TakeSnoc(pairs, i);
  }

  method MergeFromSourceTypes(pairs: seq<KeyPair>, base: seq<Fingerprint>, cand: seq<Fingerprint>, rev: ReverseKeys,
                              start: nat, ghost names: seq<string>, ghost candNames: seq<string>)
    returns (merged: nat, r: Numbered)
    requires TypeInputs(base, cand, rev, names, candNames)
    ensures r == MergeTypes(pairs, base, cand, rev, start, names, candNames)
    ensures merged ==
            if base == [] || cand == [] then 0 else PassesCount(pairs, base, cand, rev, start, names, candNames)
  {
    hide Pass, Passes, TypeInputs, PassesCount, MergeCount;
    merged := 0;
    if cand == [] {
      return 0, Numbered(base, start);
    }
    if base == [] {
      return 0, Numbered(cand, start);
    }
    PassesNone(base, cand, rev, start, names, candNames);
    var result, rest, next := base, cand, start;
    for i := 0 to |pairs|
      invariant TypeInputs(result, rest, rev, names, candNames)
      invariant PassState(result, rest, next) == Passes(pairs[..i], base, cand, rev, start, names, candNames)
      invariant merged == PassesCount(pairs[..i], base, cand, rev, start, names, candNames)
    {
      PassesStep(pairs, i, base, cand, rev, start, names, candNames);
      var count, out, n := MergeMatching(pairs[i].base, result, pairs[i].cand, rest, rev, next, names, candNames);
      result, rest, next, merged := out.base, out.cand, n, merged + count;
    }
    assert pairs[..|pairs|] == pairs;
    r := Numbered(result + rest, next);
  }

  /* ---------- the pipeline ---------- */

  /** Raw systems by source type. */
  datatype Report = Report(network: seq<RawSystem>, satellite: seq<RawSystem>, vcenter: seq<RawSystem>,
                           openshift: seq<RawSystem>, ansible: seq<RawSystem>, rhacs: seq<RawSystem>)

  function ProcessAll(kind: Kind, raws: seq<RawSystem>): (fps: seq<Fingerprint>)
    ensures |fps| == |raws|
    ensures forall i :: 0 <= i < |raws| ==> fps[i] == Process(kind, raws[i])
  {
    seq(|raws|, i requires 0 <= i < |raws| => Process(kind, raws[i]))
  }

  /** Cluster facts of an OpenShift scan make no system. */
  function Hosts(kind: Kind, raws: seq<RawSystem>): seq<RawSystem> {
    if raws == [] then []
    else
      var raw := raws[|raws| - 1];
      Hosts(kind, raws[..|raws| - 1]) + if kind.OPENSHIFT? && raw.cluster then [] else [raw]
  }

  lemma {:induction false} AllHosts(kind: Kind, raws: seq<RawSystem>)
    requires !kind.OPENSHIFT?
    ensures Hosts(kind, raws) == raws
  {
    if raws != [] {
      AllHosts(kind, raws[..|raws| - 1]);
    }
  }

  /** Exactly the facts about a cluster are left out, and only for OpenShift; the order stays. */
  lemma {:induction false} HostsAre(kind: Kind, a: seq<RawSystem>, b: seq<RawSystem>)
    ensures Hosts(kind, a + b) == Hosts(kind, a) + Hosts(kind, b)
    ensures |b| == 1 ==> Hosts(kind, b) == if kind == OPENSHIFT && b[0].cluster then [] else b
  {
    if b == [] {
      assert a + b == a;
    } else {
      var front, last := b[..|b| - 1], b[|b| - 1];
      HostsAre(kind, a, front);
      assert (a + b)[..|a + b| - 1] == a + front;
      if |b| == 1 {
        assert front == [] && Hosts(kind, front) == [];
      }
    }
  }

  method ProcessSource(kind: Kind, raws: seq<RawSystem>) returns (fps: seq<Fingerprint>)
    ensures fps == ProcessAll(kind, Hosts(kind, raws))
  {
    hide Process;
    fps := [];
    for i := 0 to |raws|
      invariant fps == ProcessAll(kind, Hosts(kind, raws[..i]))
    {
      TakeSnoc(raws, i);
      if !(kind.OPENSHIFT? && raws[i].cluster) {
        var fp := ProcessFact(kind, raws[i]);
        fps := fps + [fp];
      }
    }
    assert raws[..|raws|] == raws;
  }

  ghost predicate Identified(kind: Kind, fps: seq<Fingerprint>) {
    && AllFit(fps, Shape(NamesOf(kind), false))
    && (forall k :: IsIdentity(k) ==> ScalarKeyed(Fact(k), fps))
    && (!kind.NETWORK? ==> Lacks(fps, BIOS_UUID))
  }

  lemma ProcessedIdentified(kind: Kind, raws: seq<RawSystem>)
    ensures Identified(kind, ProcessAll(kind, raws))
  {
    hide Process, Fits, FactList;
    var fps := ProcessAll(kind, raws);
    forall i | 0 <= i < |fps|
      ensures Fits(fps[i], Shape(NamesOf(kind), false))
      ensures forall k :: IsIdentity(k) ==> !Get(fps[i], Fact(k)).Many?
      ensures !kind.NETWORK? ==> BIOS_UUID !in fps[i].facts
    {
      ProcessedShape(kind, raws[i]);
      if !kind.NETWORK? {
        OnlyNetworkHasBiosUuid(kind);
      }
    }
  }

  function Deduplicated(kind: Kind, raws: seq<RawSystem>, keys: seq<IdKey>): (fps: seq<Fingerprint>)
    requires forall i :: 0 <= i < |keys| ==> keys[i].Fact? && IsIdentity(keys[i].name)
    ensures AllFit(fps, Shape(NamesOf(kind), false))
  {
    ProcessedIdentified(kind, raws);
    DedupAll(keys, ProcessAll(kind, raws), Shape(NamesOf(kind), false))
  }

  /** By two keys: a pass by the first, and a pass by the second over its result. */
  lemma TwoDedupPasses(kind: Kind, raws: seq<RawSystem>, first: string, second: string)
    requires IsIdentity(first) && IsIdentity(second)
    ensures var fps, sh := ProcessAll(kind, raws), Shape(NamesOf(kind), false);
            && AllFit(fps, sh) && ScalarKeyed(Fact(first), fps)
            && var once := DedupPass(Fact(first), fps, sh);
            && ScalarKeyed(Fact(second), once)
            && Deduplicated(kind, raws, [Fact(first), Fact(second)]) == DedupPass(Fact(second), once, sh)
  {
    hide Fits, Process, DedupPass;
    ProcessedIdentified(kind, raws);
    var keys, fps, sh := [Fact(first), Fact(second)], ProcessAll(kind, raws), Shape(NamesOf(kind), false);
    assert keys[..1] == [Fact(first)] && keys[..1][..0] == [];
    assert DedupAll(keys[..1], fps, sh) == DedupPass(Fact(first), fps, sh);
    PassKeepsScalar(Fact(first), Fact(second), fps, sh);
  }

  lemma OneDedupPass(kind: Kind, raws: seq<RawSystem>, key: string)
    requires IsIdentity(key)
    ensures var fps, sh := ProcessAll(kind, raws), Shape(NamesOf(kind), false);
            && AllFit(fps, sh) && ScalarKeyed(Fact(key), fps)
            && Deduplicated(kind, raws, [Fact(key)]) == DedupPass(Fact(key), fps, sh)
  {
    hide Fits, Process, DedupPass;
    ProcessedIdentified(kind, raws);
    var keys, fps, sh := [Fact(key)], ProcessAll(kind, raws), Shape(NamesOf(kind), false);
    assert keys[..|keys| - 1] == [] && DedupAll([], fps, sh) == fps;
  }

  function Network(r: Report): (fps: seq<Fingerprint>)
    ensures AllFit(fps, Shape(PRODUCT_NAMES, false))
  {
    Deduplicated(NETWORK, r.network, NETWORK_KEYS)
  }

  function Satellite(r: Report): (fps: seq<Fingerprint>)
    ensures AllFit(fps, Shape(PRODUCT_NAMES, false))
  {
    Deduplicated(SATELLITE, r.satellite, SATELLITE_KEYS)
  }

  function Vcenter(r: Report): (fps: seq<Fingerprint>)
    ensures AllFit(fps, Shape([], false))
  {
    Deduplicated(VCENTER, r.vcenter, VCENTER_KEYS)
  }

  /** Network and satellite merged. */
  function Combined(r: Report): (c: Numbered)
    ensures AllFit(c.fps, Shape(PRODUCT_NAMES, false))
  {
    MergeTypes(NETWORK_SATELLITE, Network(r), Satellite(r), NotGiven, 0, PRODUCT_NAMES, PRODUCT_NAMES)
  }

  /** All three merged. */
  function WithVcenter(r: Report, rev: ReverseKeys): seq<Fingerprint>
    requires rev.Effective() == {}
  {
    MergeTypes(NETWORK_VCENTER, Combined(r).fps, Vcenter(r), rev, Combined(r).next, PRODUCT_NAMES, []).fps
  }

  /** The systems that are neither deduplicated nor merged. */
  function Appended(r: Report): seq<Fingerprint> {
    ProcessAll(OPENSHIFT, Hosts(OPENSHIFT, r.openshift)) + ProcessAll(ANSIBLE, r.ansible) + ProcessAll(RHACS, r.rhacs)
  }

  function Systems(r: Report): seq<Fingerprint> {
    WithVcenter(r, REVERSE_KEYS) + Appended(r)
  }

  /** Network systems are deduplicated by subscription manager id and then by BIOS UUID, satellite
      systems by the former, and vcenter systems by VM UUID. */
  lemma TypesDeduplicated(r: Report)
    ensures Network(r) == Deduplicated(NETWORK, r.network, [Fact("subscription_manager_id"), Fact("bios_uuid")])
    ensures Satellite(r) == Deduplicated(SATELLITE, r.satellite, [Fact("subscription_manager_id")])
    ensures Vcenter(r) == Deduplicated(VCENTER, r.vcenter, [Fact("vm_uuid")])
  {
    hide Deduplicated;
  }

  /** The systems of one source type, deduplicated by its keys. */
  method ProcessType(kind: Kind, raws: seq<RawSystem>, keys: seq<IdKey>) returns (fps: seq<Fingerprint>)
    requires !kind.OPENSHIFT? && forall i :: 0 <= i < |keys| ==> keys[i].Fact? && IsIdentity(keys[i].name)
    ensures fps == Deduplicated(kind, raws, keys)
  {
    hide Fits, Process, DedupAll;
    fps := ProcessSource(kind, raws);
    AllHosts(kind, raws);
    ProcessedIdentified(kind, raws);
    fps := RemoveDuplicates(keys, fps, Shape(NamesOf(kind), false));
  }

  /** No merge on the way raises a lookup error, whatever the report. */
  method MergeSources(r: Report) returns (fps: seq<Fingerprint>)
    ensures fps == Systems(r)
  {
    hide Fits, Passes, Deduplicated, ProcessAll, Hosts, PassesCount;
    var network := ProcessType(NETWORK, r.network, NETWORK_KEYS);
    var satellite := ProcessType(SATELLITE, r.satellite, SATELLITE_KEYS);
    var vcenter := ProcessType(VCENTER, r.vcenter, VCENTER_KEYS);
    var _, combined := MergeFromSourceTypes(NETWORK_SATELLITE, network, satellite, NotGiven, 0, PRODUCT_NAMES,
                                            PRODUCT_NAMES);
    var _, merged := MergeFromSourceTypes(NETWORK_VCENTER, combined.fps, vcenter, REVERSE_KEYS, combined.next,
                                          PRODUCT_NAMES, []);
    var openshift := ProcessSource(OPENSHIFT, r.openshift);
    var ansible := ProcessSource(ANSIBLE, r.ansible);
    var rhacs := ProcessSource(RHACS, r.rhacs);
    AllHosts(ANSIBLE, r.ansible);
    AllHosts(RHACS, r.rhacs);
    fps := merged.fps + (openshift + ansible + rhacs);
  }
}
