/** A report in which every system has a source of its own. The engine never looks at sources,
    so it treats this report as it treats the original, and the sources of its results tell
    which systems they are made of. */
module Marks {
  import opened Fingerprints
  import opened MergeTrees
  import opened Dedup
  import opened Derivation
  import opened Processors
  import opened Pipeline
  import opened PipelineLaws

  function Label(i: nat): string {
    seq(i, _ => '#')
  }

  /** The key under which a fingerprint lists the source of system i. */
  function Name(i: nat): string {
    Label(i) + "+"
  }

  lemma NamesDiffer(i: nat, j: nat)
    ensures Name(i) == Name(j) <==> i == j
  {
    assert |Name(i)| == i + 1 && |Name(j)| == j + 1;
  }

  function Mark(raw: RawSystem, i: nat): RawSystem {
    raw.(source := Source(Label(i), "", ""))
  }

  function MarkAll(raws: seq<RawSystem>, off: nat): (marked: seq<RawSystem>)
    ensures |marked| == |raws| && forall i :: 0 <= i < |raws| ==> marked[i] == Mark(raws[i], off + i)
  {
    seq(|raws|, i requires 0 <= i < |raws| => Mark(raws[i], off + i))
  }

  /** The systems are numbered as `Inputs` lists them. Cluster facts, which make no system, are left out. */
  function Marked(r: Report): Report {
    var a, b, c := |r.network|, |r.satellite|, |r.vcenter|;
    var hosts := Hosts(OPENSHIFT, r.openshift);
    var off := a + b + c;
    Report(MarkAll(r.network, 0), MarkAll(r.satellite, a), MarkAll(r.vcenter, a + b),
           MarkAll(hosts, off), MarkAll(r.ansible, off + |hosts|), MarkAll(r.rhacs, off + |hosts| + |r.ansible|))
  }

  lemma MarkedFields(r: Report)
    ensures var m, a, b, off := Marked(r), |r.network|, |r.satellite|, |r.network| + |r.satellite| + |r.vcenter|;
            var hosts := Hosts(OPENSHIFT, r.openshift);
            && m.network == MarkAll(r.network, 0) && m.satellite == MarkAll(r.satellite, a)
            && m.vcenter == MarkAll(r.vcenter, a + b) && m.openshift == MarkAll(hosts, off)
            && m.ansible == MarkAll(r.ansible, off + |hosts|)
            && m.rhacs == MarkAll(r.rhacs, off + |hosts| + |r.ansible|)
  {
    hide Hosts, MarkAll;
  }

  lemma {:induction false} HostsAlone(raws: seq<RawSystem>)
    ensures forall i :: 0 <= i < |Hosts(OPENSHIFT, raws)| ==> !Hosts(OPENSHIFT, raws)[i].cluster
  {
    if raws != [] {
      HostsAlone(raws[..|raws| - 1]);
    }
  }

  lemma {:induction false} NoClusters(raws: seq<RawSystem>)
    requires forall i :: 0 <= i < |raws| ==> !raws[i].cluster
    ensures Hosts(OPENSHIFT, raws) == raws
  {
    if raws != [] {
      NoClusters(raws[..|raws| - 1]);
    }
  }

  lemma MarkedHosts(r: Report)
    ensures Hosts(OPENSHIFT, Marked(r).openshift) == Marked(r).openshift
  {
    hide Hosts;
    HostsAlone(r.openshift);
    NoClusters(Marked(r).openshift);
  }

  lemma MarkedSource(kind: Kind, raw: RawSystem, i: nat)
    ensures Process(kind, Mark(raw, i)).sources.Keys == {Name(i)}
  {
    hide FactList;
    var m := Mark(raw, i);
    AddFactsShape(Blank(kind, m), m, FactList(kind));
    assert Label(i) + "+" + "" == Name(i);
  }

  /* ---------- positions ---------- */

  /** The inputs of both runs. */
  function Alongside(r: Report): Runs {
    Runs(Inputs(r), Inputs(Marked(r)))
  }

  /** The list stands in the other one from position `off` on. */
  predicate StandsAt<T(==)>(s: seq<T>, off: nat, part: seq<T>) {
    off + |part| <= |s| && s[off..off + |part|] == part
  }

  lemma FourParts<T>(a: seq<T>, b: seq<T>, c: seq<T>, d: seq<T>)
    ensures var s := a + b + c + d;
            && StandsAt(s, 0, a) && StandsAt(s, |a|, b) && StandsAt(s, |a| + |b|, c) && StandsAt(s, |a| + |b| + |c|, d)
            && |s| == |a| + |b| + |c| + |d|
  {
  }

  lemma PartOfPart<T>(s: seq<T>, off: nat, part: seq<T>, n: nat, a: seq<T>)
    requires StandsAt(s, off, part) && StandsAt(part, n, a)
    ensures StandsAt(s, off + n, a)
  {
    var x := s[off + n..off + n + |a|];
    forall k | 0 <= k < |a| ensures x[k] == a[k] {
      assert x[k] == s[off..off + |part|][n + k] && part[n..n + |a|][k] == part[n + k];
    }
  }

  lemma ThreeParts<T>(s: seq<T>, off: nat, a: seq<T>, b: seq<T>, c: seq<T>)
    requires StandsAt(s, off, a + b + c)
    ensures StandsAt(s, off, a) && StandsAt(s, off + |a|, b) && StandsAt(s, off + |a| + |b|, c)
  {
    var part := a + b + c;
    PartOfPart(s, off, part, 0, a);
    PartOfPart(s, off, part, |a|, b);
    PartOfPart(s, off, part, |a| + |b|, c);
  }

  /** The types that are not merged are listed last, as they were processed: OpenShift, then
      Ansible, then RHACS. */
  lemma ListedLast(r: Report)
    ensures var n, hosts := |WithVcenter(r, REVERSE_KEYS)|, Hosts(OPENSHIFT, r.openshift);
            && StandsAt(Systems(r), 0, WithVcenter(r, REVERSE_KEYS))
            && StandsAt(Systems(r), n, ProcessAll(OPENSHIFT, hosts))
            && StandsAt(Systems(r), n + |hosts|, ProcessAll(ANSIBLE, r.ansible))
            && StandsAt(Systems(r), n + |hosts| + |r.ansible|, ProcessAll(RHACS, r.rhacs))
            && |Systems(r)| == n + |hosts| + |r.ansible| + |r.rhacs|
  {
    hide ProcessAll, WithVcenter, Hosts, StandsAt;
    var hosts := Hosts(OPENSHIFT, r.openshift);
    TwoParts(WithVcenter(r, REVERSE_KEYS), Appended(r));
    ThreeParts(Systems(r), |WithVcenter(r, REVERSE_KEYS)|, ProcessAll(OPENSHIFT, hosts), ProcessAll(ANSIBLE, r.ansible),
               ProcessAll(RHACS, r.rhacs));
  }

  lemma TwoParts<T>(a: seq<T>, b: seq<T>)
    ensures StandsAt(a + b, 0, a) && StandsAt(a + b, |a|, b)
  {
  }

  /** Where the systems of each type stand among the inputs. */
  lemma InputParts(r: Report)
    ensures var a, b, c := |r.network|, |r.satellite|, |r.vcenter|;
            && StandsAt(Inputs(r), 0, ProcessAll(NETWORK, r.network))
            && StandsAt(Inputs(r), a, ProcessAll(SATELLITE, r.satellite))
            && StandsAt(Inputs(r), a + b, ProcessAll(VCENTER, r.vcenter))
            && StandsAt(Inputs(r), a + b + c, Appended(r))
            && |Inputs(r)| == a + b + c + |Appended(r)|
  {
    hide ProcessAll, Appended, StandsAt;
    FourParts(ProcessAll(NETWORK, r.network), ProcessAll(SATELLITE, r.satellite), ProcessAll(VCENTER, r.vcenter),
              Appended(r));
  }

  lemma AppendedParts(r: Report)
    ensures var off, hosts := |r.network| + |r.satellite| + |r.vcenter|, Hosts(OPENSHIFT, r.openshift);
            && StandsAt(Inputs(r), off, ProcessAll(OPENSHIFT, hosts))
            && StandsAt(Inputs(r), off + |hosts|, ProcessAll(ANSIBLE, r.ansible))
            && StandsAt(Inputs(r), off + |hosts| + |r.ansible|, ProcessAll(RHACS, r.rhacs))
            && |Inputs(r)| == off + |hosts| + |r.ansible| + |r.rhacs|
  {
    hide ProcessAll, Inputs, Hosts, StandsAt;
    InputParts(r);
    var off, hosts := |r.network| + |r.satellite| + |r.vcenter|, Hosts(OPENSHIFT, r.openshift);
    ThreeParts(Inputs(r), off, ProcessAll(OPENSHIFT, hosts), ProcessAll(ANSIBLE, r.ansible),
               ProcessAll(RHACS, r.rhacs));
  }

  lemma PlacedAt(kind: Kind, raws: seq<RawSystem>, w: Runs, off: nat)
    requires StandsAt(w.pool, off, ProcessAll(kind, raws))
    requires StandsAt(w.marked, off, ProcessAll(kind, MarkAll(raws, off)))
    ensures Placed(kind, raws, MarkAll(raws, off), w, off)
  {
    hide ProcessAll;
  }

  /** The types that are merged stand at the same positions in both runs. */
  lemma MergedPlaced(r: Report)
    ensures var a, b, m := |r.network|, |r.satellite|, Marked(r);
            && Placed(NETWORK, r.network, m.network, Alongside(r), 0)
            && Placed(SATELLITE, r.satellite, m.satellite, Alongside(r), a)
            && Placed(VCENTER, r.vcenter, m.vcenter, Alongside(r), a + b)
  {
    hide ProcessAll, Appended, Inputs, Hosts, Marked, MarkAll, Placed, StandsAt;
    MarkedFields(r);
    InputParts(r);
    InputParts(Marked(r));
    PlacedAt(NETWORK, r.network, Alongside(r), 0);
    PlacedAt(SATELLITE, r.satellite, Alongside(r), |r.network|);
    PlacedAt(VCENTER, r.vcenter, Alongside(r), |r.network| + |r.satellite|);
  }

  /** And so do those that are appended. */
  lemma AppendedPlaced(r: Report)
    ensures var m, off := Marked(r), |r.network| + |r.satellite| + |r.vcenter|;
            var hosts := Hosts(OPENSHIFT, r.openshift);
            && Placed(OPENSHIFT, hosts, Hosts(OPENSHIFT, m.openshift), Alongside(r), off)
            && Placed(ANSIBLE, r.ansible, m.ansible, Alongside(r), off + |hosts|)
            && Placed(RHACS, r.rhacs, m.rhacs, Alongside(r), off + |hosts| + |r.ansible|)
            && |Inputs(r)| == |Inputs(m)| == off + |hosts| + |r.ansible| + |r.rhacs|
  {
    hide ProcessAll, Appended, Inputs, Hosts, Marked, MarkAll, Placed, StandsAt;
    MarkedFields(r);
    MarkedHosts(r);
    AppendedParts(r);
    AppendedParts(Marked(r));
    var hosts, off := Hosts(OPENSHIFT, r.openshift), |r.network| + |r.satellite| + |r.vcenter|;
    PlacedAt(OPENSHIFT, hosts, Alongside(r), off);
    PlacedAt(ANSIBLE, r.ansible, Alongside(r), off + |hosts|);
    PlacedAt(RHACS, r.rhacs, Alongside(r), off + |hosts| + |r.ansible|);
  }

  lemma ThreeSingles(off: nat, a: nat, b: nat, c: nat)
    ensures Singles(off, a) + Singles(off + a, b) + Singles(off + a + b, c) == Singles(off, a + b + c)
  {
  }

  lemma AppendedTwins(r: Report)
    ensures var off := |r.network| + |r.satellite| + |r.vcenter|;
            AllTwins(Appended(r), Appended(Marked(r)), Alongside(r), Singles(off, |Appended(r)|))
  {
    hide Twin, Hosts, Singles, Inputs, Placed, Resourced, Process, Marked;
    AppendedPlaced(r);
    var m, w, off := Marked(r), Alongside(r), |r.network| + |r.satellite| + |r.vcenter|;
    var hosts, others := Hosts(OPENSHIFT, r.openshift), Hosts(OPENSHIFT, m.openshift);
    ProcessedTwins(OPENSHIFT, hosts, others, w, off);
    ProcessedTwins(ANSIBLE, r.ansible, m.ansible, w, off + |hosts|);
    ProcessedTwins(RHACS, r.rhacs, m.rhacs, w, off + |hosts| + |r.ansible|);
    var o, a, h := ProcessAll(OPENSHIFT, hosts), ProcessAll(ANSIBLE, r.ansible), ProcessAll(RHACS, r.rhacs);
    var o', a', h' := ProcessAll(OPENSHIFT, others), ProcessAll(ANSIBLE, m.ansible), ProcessAll(RHACS, m.rhacs);
    var so, sa, sh := Singles(off, |o|), Singles(off + |o|, |a|), Singles(off + |o| + |a|, |h|);
    hide ProcessAll;
    TwinsConcat(o, o', a, a', w, so, sa);
    TwinsConcat(o + a, o' + a', h, h', w, so + sa, sh);
    ThreeSingles(off, |o|, |a|, |h|);
  }

  /* ---------- reading the marks ---------- */

  predicate BrandedFrom(pool: seq<Fingerprint>, from: nat, to: nat) {
    to <= |pool| && forall i :: from <= i < to ==> pool[i].sources.Keys == {Name(i)}
  }

  /** Every fingerprint of the pool has one source, which names its position. */
  predicate Branded(pool: seq<Fingerprint>) {
    BrandedFrom(pool, 0, |pool|)
  }

  lemma SliceBranded(kind: Kind, raws: seq<RawSystem>, pool: seq<Fingerprint>, off: nat)
    requires StandsAt(pool, off, ProcessAll(kind, MarkAll(raws, off)))
    ensures BrandedFrom(pool, off, off + |raws|)
  {
    hide Process, Name;
    forall i | off <= i < off + |raws| ensures pool[i].sources.Keys == {Name(i)} {
      assert pool[i] == pool[off..off + |raws|][i - off] == Process(kind, Mark(raws[i - off], i));
      MarkedSource(kind, raws[i - off], i);
    }
  }

  lemma BrandedMore(pool: seq<Fingerprint>, a: nat, b: nat, c: nat)
    requires BrandedFrom(pool, a, b) && BrandedFrom(pool, b, c)
    ensures BrandedFrom(pool, a, c)
  {
    hide Name;
  }

  lemma MergedBranded(r: Report)
    ensures BrandedFrom(Inputs(Marked(r)), 0, |r.network| + |r.satellite| + |r.vcenter|)
  {
    hide Inputs, ProcessAll, Hosts, MarkAll, Appended, BrandedFrom, Marked, StandsAt;
    MarkedFields(r);
    InputParts(Marked(r));
    var a, b, c, pool := |r.network|, |r.satellite|, |r.vcenter|, Inputs(Marked(r));
    SliceBranded(NETWORK, r.network, pool, 0);
    SliceBranded(SATELLITE, r.satellite, pool, a);
    SliceBranded(VCENTER, r.vcenter, pool, a + b);
    BrandedMore(pool, 0, a, a + b);
    BrandedMore(pool, 0, a + b, a + b + c);
  }

  lemma AppendedBranded(r: Report)
    ensures var pool := Inputs(Marked(r)); BrandedFrom(pool, |r.network| + |r.satellite| + |r.vcenter|, |pool|)
  {
    hide Inputs, ProcessAll, Hosts, MarkAll, BrandedFrom, Marked, StandsAt;
    MarkedFields(r);
    AppendedParts(Marked(r));
    MarkedHosts(r);
    var hosts, off, pool := Hosts(OPENSHIFT, r.openshift), |r.network| + |r.satellite| + |r.vcenter|, Inputs(Marked(r));
    SliceBranded(OPENSHIFT, hosts, pool, off);
    SliceBranded(ANSIBLE, r.ansible, pool, off + |hosts|);
    SliceBranded(RHACS, r.rhacs, pool, off + |hosts| + |r.ansible|);
    BrandedMore(pool, off, off + |hosts|, off + |hosts| + |r.ansible|);
    BrandedMore(pool, off, off + |hosts| + |r.ansible|, |pool|);
  }

  lemma MarkedBranded(r: Report)
    ensures Branded(Inputs(Marked(r)))
  {
    hide Inputs, Marked, BrandedFrom;
    MergedBranded(r);
    AppendedBranded(r);
    BrandedMore(Inputs(Marked(r)), 0, |r.network| + |r.satellite| + |r.vcenter|, |Inputs(Marked(r))|);
  }

  lemma {:induction false} GrownNames(plan: Plan, pool: seq<Fingerprint>, i: nat)
    requires Branded(pool) && Inside(plan, |pool|) && Evaluable(Grow(plan, pool))
    ensures Name(i) in Eval(Grow(plan, pool)).sources <==> i in Positions(plan)
  {
    hide Name;
    match plan
    case At(j) =>
      NamesDiffer(i, j);
    case Join(l, r) =>
      GrownNames(l, pool, i);
      GrownNames(r, pool, i);
  }

  /** On a branded pool the sources of a fingerprint are the names of the positions of its plan,
      so no other plan than one over these positions has its value. */
  lemma PlanNames(fp: Fingerprint, pool: seq<Fingerprint>, plan: Plan, i: nat)
    requires Branded(pool) && Rooted(fp, pool, plan)
    ensures Name(i) in fp.sources <==> i in Positions(plan)
  {
    GrownNames(plan, pool, i);
  }

  lemma SliceNames(kind: Kind, raws: seq<RawSystem>, off: nat, i: nat)
    ensures Name(i) in SourcesOf(ProcessAll(kind, MarkAll(raws, off))) <==> off <= i < off + |raws|
  {
    hide Process, Name, Mark;
    var fps := ProcessAll(kind, MarkAll(raws, off));
    forall j | 0 <= j < |fps| ensures fps[j].sources.Keys == {Name(off + j)} {
      MarkedSource(kind, raws[j], off + j);
    }
    if off <= i < off + |raws| {
      assert Name(i) in fps[i - off].sources;
    }
    if Name(i) in SourcesOf(fps) {
      var j :| 0 <= j < |fps| && Name(i) in fps[j].sources;
      NamesDiffer(i, off + j);
    }
  }
}
