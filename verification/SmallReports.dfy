/** Reports small enough to follow through the whole pipeline. */
module SmallReports {
  import opened OrderedDict
  import opened Fingerprints
  import opened MergeLaws
  import opened Dedup
  import opened Index
  import opened MergePass
  import opened PassLaws
  import opened PassFacts
  import opened ScalarJoin
  import opened MacPasses
  import opened Processors
  import opened Pipeline
  import opened PipelineLaws
  import opened Conservation

  /* ---------- passes that find no key ---------- */

  lemma {:induction false} KeylessIndex(name: string, fps: seq<Fingerprint>, start: nat)
    requires forall i :: 0 <= i < |fps| ==> Claims(fps[i], name) == []
    ensures var r := IndexScan(name, fps, start);
            && r.dict == Empty() && |r.noKey| == |fps|
            && forall i :: 0 <= i < |fps| ==> r.noKey[i] == Tag(fps[i], start + i)
  {
    hide Claims, FromList;
    if fps != [] {
      KeylessIndex(name, fps[..|fps| - 1], start);
    }
  }

  lemma TaggedUnchanged(tagged: seq<Fingerprint>, fps: seq<Fingerprint>, start: nat, names: seq<string>)
    requires AllFit(fps, Shape(names, false)) && AllFit(tagged, Shape(names, true)) && |tagged| == |fps|
    requires forall i :: 0 <= i < |fps| ==> tagged[i] == Tag(fps[i], start + i)
    ensures UntagAll(DedupPass(GlobalId, tagged, Shape(names, true))) == fps
  {
    hide DedupPass, Built;
    DistinctPass(GlobalId, tagged, Shape(names, true));
    forall i | 0 <= i < |fps| ensures Untagged(tagged[i]) == fps[i] {
      assert Fits(fps[i], Shape(names, false));
    }
  }

  /** A pass in which nobody has the key leaves both lists as they are. */
  lemma KeylessMergePass(bk: string, base: seq<Fingerprint>, ck: string, cand: seq<Fingerprint>, rev: ReverseKeys,
                         start: nat, names: seq<string>, candNames: seq<string>)
    requires PassInputs(base, cand, rev, names, candNames)
    requires forall i :: 0 <= i < |base| ==> Claims(base[i], bk) == []
    requires forall i :: 0 <= i < |cand| ==> Claims(cand[i], ck) == []
    ensures Pass(bk, base, ck, cand, rev, start, names, candNames) == PassResult(base, cand)
  {
    hide IndexScan, Fits, Claims, DedupPass;
    var bi, ci := IndexScan(bk, base, start), IndexScan(ck, cand, start + |base|);
    IndexFits(bk, base, start, names);
    IndexFits(ck, cand, start + |base|, candNames);
    IndexesMeet(bk, base, ck, cand, rev, start, names, candNames);
    CandCopiesFit(bi, ci, Shape(candNames, true));
    KeylessIndex(bk, base, start);
    KeylessIndex(ck, cand, start + |base|);
    assert BaseCopies(bi, ci, rev, names) == bi.noKey && CandCopies(bi, ci) == ci.noKey;
    TaggedUnchanged(bi.noKey, base, start, names);
    TaggedUnchanged(ci.noKey, cand, start + |base|, candNames);
  }

  /* ---------- hosts ---------- */

  const NOTHING := Detection(ABSENT, [], "")

  /** A host with these MAC addresses and nothing else. */
  function Host(server: string, addresses: seq<Scalar>): RawSystem {
    RawSystem(Source(server, "lab", "network"), false, map[], map[MAC_ADDRESSES := Many(addresses)], map[], [],
              NOTHING, NOTHING, NOTHING, false)
  }

  lemma ListsMac(kind: Kind)
    requires kind.NETWORK? || kind.SATELLITE?
    ensures MAC_ADDRESSES in FactList(kind)
  {
    if kind.NETWORK? {
      assert FactList(kind)[31] == MAC_ADDRESSES;
    } else {
      assert FactList(kind)[5] == MAC_ADDRESSES;
    }
  }

  lemma KeyNames()
    ensures !IsIdentity(MAC_ADDRESSES) && IsIdentity(SUBSCRIPTION_MANAGER_ID) && IsIdentity(BIOS_UUID)
            && IsIdentity(VM_UUID)
  {
    assert |MAC_ADDRESSES| == 13 && |SUBSCRIPTION_MANAGER_ID| == 23 && |BIOS_UUID| == 9 && |VM_UUID| == 7;
  }

  /** It claims its addresses, has no identity key, and carries its own source. */
  lemma HostShape(kind: Kind, server: string, addresses: seq<Scalar>)
    requires (kind.NETWORK? || kind.SATELLITE?) && addresses != []
    ensures var fp := Process(kind, Host(server, addresses));
            && Claims(fp, MAC_ADDRESSES) == addresses
            && fp.sources.Keys == {server + "+lab"}
            && (forall k :: IsIdentity(k) ==> !Truthy(Get(fp, Fact(k))) && Claims(fp, k) == [])
  {
    hide FactList;
    var raw := Host(server, addresses);
    ListsMac(kind);
    KeyNames();
    AddFactsShape(Blank(kind, raw), raw, FactList(kind));
    assert server + "+" + "lab" == server + "+lab";
    assert FactValue(raw, MAC_ADDRESSES) == Many(addresses);
    forall k | IsIdentity(k) ensures FactValue(raw, k) == Null {
    }
  }

  /** Hosts without identity keys come through deduplication as they are. */
  lemma HostsKept(kind: Kind, raws: seq<RawSystem>, keys: seq<IdKey>)
    requires forall n :: 0 <= n < |keys| ==> keys[n].Fact? && IsIdentity(keys[n].name)
    requires forall i, k :: 0 <= i < |raws| && IsIdentity(k) ==> !Truthy(Get(Process(kind, raws[i]), Fact(k)))
    ensures Deduplicated(kind, raws, keys) == ProcessAll(kind, raws)
  {
    hide Process, Fits;
    ProcessedIdentified(kind, raws);
    KeylessDedup(keys, ProcessAll(kind, raws), Shape(NamesOf(kind), false));
  }

  /** A report of network and satellite hosts without identity keys is one MAC pass. */
  lemma MacPassOnly(r: Report)
    requires r.network != [] && r.satellite != [] && r.vcenter == [] && r.openshift == [] && r.ansible == []
             && r.rhacs == []
    requires forall i, k :: 0 <= i < |r.network| && IsIdentity(k) ==>
               !Truthy(Get(Process(NETWORK, r.network[i]), Fact(k))) && Claims(Process(NETWORK, r.network[i]), k) == []
    requires forall i, k :: 0 <= i < |r.satellite| && IsIdentity(k) ==>
               !Truthy(Get(Process(SATELLITE, r.satellite[i]), Fact(k)))
                   && Claims(Process(SATELLITE, r.satellite[i]), k) == []
    ensures var base, cand := ProcessAll(NETWORK, r.network), ProcessAll(SATELLITE, r.satellite);
            && PassInputs(base, cand, NotGiven, PRODUCT_NAMES, PRODUCT_NAMES)
            && var q := Pass(MAC_ADDRESSES, base, MAC_ADDRESSES, cand, NotGiven, |base| + |cand|, PRODUCT_NAMES,
                             PRODUCT_NAMES);
            Systems(r) == q.base + q.cand
  {
    hide Process, Fits, Pass, Claims, Get, FactList, Passes, DedupAll;
    KeyNames();
    HostsKept(NETWORK, r.network, NETWORK_KEYS);
    HostsKept(SATELLITE, r.satellite, SATELLITE_KEYS);
    HostsKept(VCENTER, r.vcenter, VCENTER_KEYS);
    var base, cand := Network(r), Satellite(r);
    TwoPasses(SUBSCRIPTION_MANAGER_ID, base, SUBSCRIPTION_MANAGER_ID, cand, NotGiven, 0, PRODUCT_NAMES, PRODUCT_NAMES);
    KeylessMergePass(SUBSCRIPTION_MANAGER_ID, base, SUBSCRIPTION_MANAGER_ID, cand, NotGiven, 0, PRODUCT_NAMES,
                     PRODUCT_NAMES);
    assert Vcenter(r) == [] && Appended(r) == [];
  }

  /* ---------- a lost system and a system reported twice ---------- */

  function SameAddress(): Report {
    Report([Host("a", [Text("00:1a")]), Host("b", [Text("00:1a")])], [Host("c", [Text("00:2b")])], [], [], [], [])
  }

  lemma SameAddressDrops()
    ensures var r := SameAddress();
            && SourcesOf(Systems(r)) <= {"a+lab", "c+lab"}
            && ProcessAll(NETWORK, r.network)[1].sources.Keys == {"b+lab"}
  {
    hide Process, Pass, Claims, Fits, Host, Get, Systems, SourcesOf;
    var x, y, r := [Text("00:1a")], [Text("00:2b")], SameAddress();
    HostShape(NETWORK, "a", x);
    HostShape(NETWORK, "b", x);
    HostShape(SATELLITE, "c", y);
    MacPassOnly(r);
    var base, cand := ProcessAll(NETWORK, r.network), ProcessAll(SATELLITE, r.satellite);
    assert base == [base[0], base[1]] && cand == [cand[0]];
    SecondBaseDropped(base[0], base[1], cand[0], MAC_ADDRESSES, Text("00:1a"), PRODUCT_NAMES, 3);
    var q := Pass(MAC_ADDRESSES, base, MAC_ADDRESSES, cand, NotGiven, 3, PRODUCT_NAMES, PRODUCT_NAMES);
    SourcesConcat(q.base, q.cand);
    Labels();
  }

  /** Two network hosts with one address, next to a satellite host with another: the second
      one is missing from the reported systems. */
  lemma MacPassCanDrop()
    ensures var r := Report([Host("a", [Text("00:1a")]), Host("b", [Text("00:1a")])], [Host("c", [Text("00:2b")])], [],
                            [], [], []);
            "b+lab" in SourcesOf(Inputs(r)) && "b+lab" !in SourcesOf(Systems(r))
  {
    hide Process, Systems;
    SameAddressDrops();
    Labels();
    var r := SameAddress();
    assert Inputs(r)[1] == ProcessAll(NETWORK, r.network)[1];
  }

  lemma Labels()
    ensures "a" + "+lab" == "a+lab" && "b" + "+lab" == "b+lab" && "c" + "+lab" == "c+lab"
    ensures "b+lab" != "a+lab" && "b+lab" != "c+lab"
  {
    assert "b+lab"[0] != "a+lab"[0] && "b+lab"[0] != "c+lab"[0];
  }

  predicate Carries(fps: seq<Fingerprint>, p: nat, key: string) {
    p < |fps| && key in fps[p].sources
  }

  function SharedAddress(): Report {
    Report([Host("a", [Text("00:1a")])], [Host("c", [Text("00:1a"), Text("00:2b")])], [], [], [], [])
  }

  lemma SharedAddressPass()
    ensures var r := SharedAddress();
            var base, cand := ProcessAll(NETWORK, r.network), ProcessAll(SATELLITE, r.satellite);
            && |cand| == 1 && "c+lab" in cand[0].sources
            && PassInputs(base, cand, NotGiven, PRODUCT_NAMES, PRODUCT_NAMES)
            && var t := TaggedPass(MAC_ADDRESSES, base, MAC_ADDRESSES, cand, NotGiven, 2, PRODUCT_NAMES, PRODUCT_NAMES);
            && Systems(r) == UntagAll(t.base) + UntagAll(t.cand)
            && (exists p :: 0 <= p < |t.base| && cand[0].sources.Keys <= t.base[p].sources.Keys)
            && (exists q :: 0 <= q < |t.cand| && cand[0].sources.Keys <= t.cand[q].sources.Keys)
  {
    hide Process, Claims, Fits, Host, Get, Systems, TaggedPass;
    var x, y := Text("00:1a"), Text("00:2b");
    var r := SharedAddress();
    HostShape(NETWORK, "a", [x]);
    HostShape(SATELLITE, "c", [x, y]);
    MacPassOnly(r);
    var base, cand := ProcessAll(NETWORK, r.network), ProcessAll(SATELLITE, r.satellite);
    assert base == [base[0]] && cand == [cand[0]];
    assert "00:1a"[3] != "00:2b"[3];
    MergedAndCarried(base[0], cand[0], MAC_ADDRESSES, x, y, PRODUCT_NAMES, 2);
    Labels();
  }

  lemma CarriedTwice(b: seq<Fingerprint>, c: seq<Fingerprint>, p: nat, q: nat, key: string)
    requires p < |b| && q < |c| && key in b[p].sources && key in c[q].sources
    ensures var s := UntagAll(b) + UntagAll(c); p < |b| + q && Carries(s, p, key) && Carries(s, |b| + q, key)
  {
  }

  /** A satellite host that shares one of its two addresses with a network host is merged into
      it and reported on its own as well. */
  lemma ReportedTwice()
    ensures var r := SharedAddress();
            exists p: nat, q: nat :: p < q && Carries(Systems(r), p, "c+lab") && Carries(Systems(r), q, "c+lab")
  {
    hide Process, Fits, Systems, TaggedPass, SharedAddress, Carries, PassInputs;
    SharedAddressPass();
    var r := SharedAddress();
    var base, cand := ProcessAll(NETWORK, r.network), ProcessAll(SATELLITE, r.satellite);
    var t := TaggedPass(MAC_ADDRESSES, base, MAC_ADDRESSES, cand, NotGiven, 2, PRODUCT_NAMES, PRODUCT_NAMES);
    var p :| 0 <= p < |t.base| && cand[0].sources.Keys <= t.base[p].sources.Keys;
    var q :| 0 <= q < |t.cand| && cand[0].sources.Keys <= t.cand[q].sources.Keys;
    CarriedTwice(t.base, t.cand, p, q, "c+lab");
  }

  /* ---------- a vcenter value that loses ---------- */

  /** A machine with this uuid and number of cpus. */
  function Machine(server: string, key: string, uuid: string, cpus: int): RawSystem {
    RawSystem(Source(server, "lab", "any"), false, map[key := uuid], map["cpu_count" := One(Number(cpus))], map[], [],
              NOTHING, NOTHING, NOTHING, false)
  }

  lemma MachineShape(kind: Kind, key: string, server: string, uuid: string, cpus: int)
    requires uuid != "" && IsIdentity(key) && key in FactList(kind) && "cpu_count" in FactList(kind)
    ensures var fp := Process(kind, Machine(server, key, uuid, cpus));
            && Get(fp, Fact(key)) == One(Text(uuid)) && Claims(fp, key) == [Text(uuid)]
            && FactAt(fp, "cpu_count").Cell? && FactAt(fp, "cpu_count").value == One(Number(cpus))
            && !Sudo(fp, "cpu_count")
  {
    hide FactList;
    var raw := Machine(server, key, uuid, cpus);
    CpuCountIsPlain();
    AddFactsShape(Blank(kind, raw), raw, FactList(kind));
    AddFactsMeta(Blank(kind, raw), raw, FactList(kind));
  }

  lemma CpuCountIsPlain()
    ensures !IsIdentity("cpu_count")
  {
    assert |"cpu_count"| == 9 && "cpu_count"[0] != BIOS_UUID[0];
  }

  lemma SingleDedup(keys: seq<IdKey>, fp: Fingerprint, sh: Shape)
    requires AllFit([fp], sh) && AllScalarKeyed(keys, [fp])
    ensures DedupAll(keys, [fp], sh) == [fp]
  {
    hide DedupAll, Fits;
    UniqueDedupPermutes(keys, [fp], sh);
    var r := DedupAll(keys, [fp], sh);
    assert |multiset(r)| == |r| == 1;
    assert r[0] in multiset(r);
  }

  lemma MachineKept(kind: Kind, raw: RawSystem, keys: seq<IdKey>)
    requires forall n :: 0 <= n < |keys| ==> keys[n].Fact? && IsIdentity(keys[n].name)
    ensures Deduplicated(kind, [raw], keys) == [Process(kind, raw)]
  {
    hide Process, Fits, DedupAll;
    ProcessedIdentified(kind, [raw]);
    assert ProcessAll(kind, [raw]) == [Process(kind, raw)];
    SingleDedup(keys, Process(kind, raw), Shape(NamesOf(kind), false));
  }

  lemma InputsMerge(base: seq<Fingerprint>, cand: seq<Fingerprint>, rev: ReverseKeys, names: seq<string>,
                    candNames: seq<string>)
    requires PassInputs(base, cand, rev, names, candNames) && base != [] && cand != []
    ensures Compatible(base[0], cand[0], names, rev) && Mergeable(base[0], cand[0], rev)
  {
    hide Merge, Mergeable;
    assert Fits(base[0], Shape(names, false)) && Fits(cand[0], Shape(candNames, false));
    CompatibleMerges(base[0], cand[0], names, rev);
  }

  /** One base and one candidate with the same scalar key: the pass gives their merge alone. */
  lemma PairMerges(bk: string, b: Fingerprint, ck: string, c: Fingerprint, x: Scalar, rev: ReverseKeys,
                   start: nat, names: seq<string>, candNames: seq<string>)
    requires PassInputs([b], [c], rev, names, candNames) && UniqueScalar(bk, [b]) && UniqueScalar(ck, [c])
    requires Claims(b, bk) == [x] && Claims(c, ck) == [x]
    ensures Mergeable(b, c, rev)
    ensures Pass(bk, [b], ck, [c], rev, start, names, candNames) == PassResult([Merge(b, c, rev)], [])
  {
    InputsMerge([b], [c], rev, names, candNames);
    hide Claims, Fits, Merge, Mergeable, Compatible, UniqueScalar, Pass;
    PairBase(bk, b, ck, c, x, rev, start, names, candNames);
    PairCand(bk, b, ck, c, x, rev, start, names, candNames);
  }

  lemma PairBase(bk: string, b: Fingerprint, ck: string, c: Fingerprint, x: Scalar, rev: ReverseKeys,
                 start: nat, names: seq<string>, candNames: seq<string>)
    requires PassInputs([b], [c], rev, names, candNames) && UniqueScalar(bk, [b]) && Mergeable(b, c, rev)
    requires Claims(b, bk) == [x] && Claims(c, ck) == [x]
    ensures Pass(bk, [b], ck, [c], rev, start, names, candNames).base == [Merge(b, c, rev)]
  {
    hide Claims, Fits, Merge, Mergeable, TaggedPass, Compatible, Owner, UniqueScalar, JoinAt, IsJoined, PassInputs;
    OneBase(bk, [b], ck, [c], rev, start, names, candNames);
    ScalarPassJoins(bk, [b], ck, [c], rev, start, names, candNames);
    var t := TaggedPass(bk, [b], ck, [c], rev, start, names, candNames);
    PairJoined(t.base[0], bk, b, ck, c, x, rev, start, names, candNames);
  }

  lemma PairCand(bk: string, b: Fingerprint, ck: string, c: Fingerprint, x: Scalar, rev: ReverseKeys,
                 start: nat, names: seq<string>, candNames: seq<string>)
    requires PassInputs([b], [c], rev, names, candNames) && UniqueScalar(ck, [c])
    requires Claims(b, bk) == [x] && Claims(c, ck) == [x]
    ensures Pass(bk, [b], ck, [c], rev, start, names, candNames).cand == []
  {
    hide Claims, Fits, Pass, PassInputs, UniqueScalar, Owner;
    CarriedExactly(bk, [b], ck, [c], rev, start, names, candNames);
    OwnsFirst(bk, b, x);
    assert [c][..0] == [];
    assert Unmatched(bk, [b], ck, [c]) == [];
    NothingLeft(Pass(bk, [b], ck, [c], rev, start, names, candNames).cand);
  }

  lemma NothingLeft(s: seq<Fingerprint>)
    requires multiset(s) == multiset{}
    ensures s == []
  {
    assert |multiset(s)| == |s|;
  }

  lemma PairJoined(e: Fingerprint, bk: string, b: Fingerprint, ck: string, c: Fingerprint, x: Scalar, rev: ReverseKeys,
                   start: nat, names: seq<string>, candNames: seq<string>)
    requires PassInputs([b], [c], rev, names, candNames) && Mergeable(b, c, rev)
    requires Claims(b, bk) == [x] && Claims(c, ck) == [x] && IsJoined(e, bk, [b], ck, [c], rev, start, names, candNames)
    ensures Untagged(e) == Merge(b, c, rev)
  {
    hide Claims, Fits, Merge, Mergeable, Compatible, Owner;
    OwnsFirst(ck, c, x);
  }

  lemma OneBase(bk: string, base: seq<Fingerprint>, ck: string, cand: seq<Fingerprint>, rev: ReverseKeys,
                start: nat, names: seq<string>, candNames: seq<string>)
    requires PassInputs(base, cand, rev, names, candNames) && |base| == 1
    ensures |Pass(bk, base, ck, cand, rev, start, names, candNames).base| == 1
    ensures |TaggedPass(bk, base, ck, cand, rev, start, names, candNames).base| == 1
  {
    hide TaggedPass, Fits, Claims, Owner;
    OneOutputPerSurvivingBase(bk, base, ck, cand, rev, start, names, candNames);
    OnlyOneSurvives(bk, base, start);
  }

  lemma OnlyOneSurvives(name: string, fps: seq<Fingerprint>, start: nat)
    requires |fps| == 1
    ensures Survivors(name, fps, start) == {start}
  {
    hide Claims, Owner;
    if Claims(fps[0], name) != [] {
      assert fps == [fps[0]];
      OwnsFirst(name, fps[0], Claims(fps[0], name)[0]);
    }
    assert Survives(name, fps, 0);
  }

  /** Each source type has one machine, or none. */
  lemma MachinesAlone(n: RawSystem, v: RawSystem)
    ensures var r := Report([n], [], [v], [], [], []);
            && Network(r) == [Process(NETWORK, n)] && Satellite(r) == [] && Vcenter(r) == [Process(VCENTER, v)]
            && Combined(r) == Numbered([Process(NETWORK, n)], 0) && Appended(r) == []
  {
    hide Process, Fits, FactList, Passes, DedupAll, Get;
    var r := Report([n], [], [v], [], [], []);
    KeyNames();
    MachineKept(NETWORK, n, NETWORK_KEYS);
    MachineKept(VCENTER, v, VCENTER_KEYS);
    HostsKept(SATELLITE, [], SATELLITE_KEYS);
  }

  /** A network and a vcenter machine with the same uuid are merged, and go through the MAC pass. */
  lemma MachinesMerged(n: RawSystem, v: RawSystem, x: Scalar)
    requires Claims(Process(NETWORK, n), BIOS_UUID) == [x] && Claims(Process(VCENTER, v), VM_UUID) == [x]
    ensures var b, c := Process(NETWORK, n), Process(VCENTER, v);
            && Compatible(b, c, PRODUCT_NAMES, REVERSE_KEYS) && Mergeable(b, c, REVERSE_KEYS)
            && PassInputs([Merge(b, c, REVERSE_KEYS)], [], REVERSE_KEYS, PRODUCT_NAMES, [])
            && var q := Pass(MAC_ADDRESSES, [Merge(b, c, REVERSE_KEYS)], MAC_ADDRESSES, [], REVERSE_KEYS, 2,
                             PRODUCT_NAMES, []);
            Systems(Report([n], [], [v], [], [], [])) == q.base + q.cand
  {
    hide Process, Fits, Merge, Mergeable, Pass, Passes, Claims, UniqueScalar, Combined, Vcenter, Appended, Compatible;
    var r := Report([n], [], [v], [], [], []);
    MachinesAlone(n, v);
    var b, c := Process(NETWORK, n), Process(VCENTER, v);
    ScalarPassKeysUnique(r);
    TwoPasses(BIOS_UUID, [b], VM_UUID, [c], REVERSE_KEYS, 0, PRODUCT_NAMES, []);
    InputsMerge([b], [c], REVERSE_KEYS, PRODUCT_NAMES, []);
    PairMerges(BIOS_UUID, b, VM_UUID, c, x, REVERSE_KEYS, 0, PRODUCT_NAMES, []);
  }

  /** A network scan found two cpus where vcenter found four; vcenter was to be trusted here,
      but the network value is reported. */
  lemma VcenterCpuCountLoses()
    ensures var r := Report([Machine("a", BIOS_UUID, "u", 2)], [], [Machine("v", VM_UUID, "u", 4)], [], [], []);
            |Systems(r)| == 1 && FactAt(Systems(r)[0], "cpu_count").Cell?
            && FactAt(Systems(r)[0], "cpu_count").value == One(Number(2))
  {
    hide Process, Machine, FactList, Merge, Mergeable, Pass, Claims, Get, Systems, Compatible, PassInputs;
    var n, v := Machine("a", BIOS_UUID, "u", 2), Machine("v", VM_UUID, "u", 4);
    KeyNames();
    ListsCpuCount();
    MachineShape(NETWORK, BIOS_UUID, "a", "u", 2);
    MachineShape(VCENTER, VM_UUID, "v", "u", 4);
    MachinesMerged(n, v, Text("u"));
    var b, c := Process(NETWORK, n), Process(VCENTER, v);
    NetworkValueKept(b, c);
    LastPassKeeps(Merge(b, c, REVERSE_KEYS), 2, "cpu_count");
  }

  lemma ListsCpuCount()
    ensures BIOS_UUID in FactList(NETWORK) && "cpu_count" in FactList(NETWORK)
    ensures VM_UUID in FactList(VCENTER) && "cpu_count" in FactList(VCENTER)
  {
    hide FactList;
    FactPlaces();
    ListedAt(NETWORK, 12);
    ListedAt(NETWORK, 11);
    ListedAt(VCENTER, 9);
    ListedAt(VCENTER, 6);
  }

  lemma ListedAt(kind: Kind, n: nat)
    requires n < |FactList(kind)|
    ensures FactList(kind)[n] in FactList(kind)
  {
    hide FactList;
  }

  lemma FactPlaces()
    ensures |FactList(NETWORK)| > 12 && FactList(NETWORK)[12] == BIOS_UUID && FactList(NETWORK)[11] == "cpu_count"
    ensures |FactList(VCENTER)| > 9 && FactList(VCENTER)[9] == VM_UUID && FactList(VCENTER)[6] == "cpu_count"
  {
  }

  lemma NetworkValueKept(b: Fingerprint, c: Fingerprint)
    requires Compatible(b, c, PRODUCT_NAMES, REVERSE_KEYS)
    requires FactAt(b, "cpu_count").Cell? && !FactAt(b, "cpu_count").value.Null?
    requires FactAt(c, "cpu_count").Cell? && !Sudo(c, "cpu_count")
    ensures Mergeable(b, c, REVERSE_KEYS)
    ensures FactAt(Merge(b, c, REVERSE_KEYS), "cpu_count") == FactAt(b, "cpu_count")
  {
    hide Merge, Mergeable;
    CompatibleMerges(b, c, PRODUCT_NAMES, REVERSE_KEYS);
    MergeFactAt(b, c, REVERSE_KEYS, "cpu_count");
  }

  /** A MAC pass with no candidates left keeps the facts of its only base. */
  lemma LastPassKeeps(fp: Fingerprint, start: nat, name: string)
    requires PassInputs([fp], [], REVERSE_KEYS, PRODUCT_NAMES, [])
    ensures var q := Pass(MAC_ADDRESSES, [fp], MAC_ADDRESSES, [], REVERSE_KEYS, start, PRODUCT_NAMES, []);
            |q.base| == 1 && q.cand == [] && FactAt(q.base[0], name) == FactAt(fp, name)
  {
    hide TaggedPass, Fits, Claims;
    OneBase(MAC_ADDRESSES, [fp], MAC_ADDRESSES, [], REVERSE_KEYS, start, PRODUCT_NAMES, []);
    BaseKeepsFact(MAC_ADDRESSES, [fp], MAC_ADDRESSES, [], REVERSE_KEYS, start, PRODUCT_NAMES, [], name, 0);
    CarriedExactly(MAC_ADDRESSES, [fp], MAC_ADDRESSES, [], REVERSE_KEYS, start, PRODUCT_NAMES, []);
    var t := TaggedPass(MAC_ADDRESSES, [fp], MAC_ADDRESSES, [], REVERSE_KEYS, start, PRODUCT_NAMES, []);
    assert CellFrom(t.base[0], [fp], start, name);
    var q := Pass(MAC_ADDRESSES, [fp], MAC_ADDRESSES, [], REVERSE_KEYS, start, PRODUCT_NAMES, []);
    assert q.base[0] == Untagged(t.base[0]);
    NothingLeft(q.cand);
  }
}
