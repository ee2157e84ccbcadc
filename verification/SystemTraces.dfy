/** What becomes of every single system of a report. */
module SystemTraces {
  import opened Fingerprints
  import opened MergeLaws
  import opened Dedup
  import opened Index
  import opened MergePass
  import opened PassLaws
  import opened ScalarJoin
  import opened Derivation
  import opened PassTraces
  import opened Processors
  import opened Pipeline
  import opened PipelineLaws
  import opened Conservation
  import opened Marks

  /* ---------- two source types ---------- */

  /** Merging two source types: the same merges in both runs. */
  lemma TypesTwins(bk: string, base: seq<Fingerprint>, base': seq<Fingerprint>, ck: string, cand: seq<Fingerprint>,
                   cand': seq<Fingerprint>, rev: ReverseKeys, start: nat, names: seq<string>, candNames: seq<string>,
                   w: Runs, tb: seq<Plan>, tc: seq<Plan>)
    returns (tr: seq<Plan>, mb: seq<Plan>, mc: seq<Plan>)
    requires TypeInputs(base, cand, rev, names, candNames) && TypeInputs(base', cand', rev, names, candNames)
    requires Orderly(w) && KeyPair(bk, ck) in KEY_PAIRS
    requires AllTwins(base, base', w, tb) && AllTwins(cand, cand', w, tc)
    ensures var pairs := [KeyPair(bk, ck), KeyPair(MAC_ADDRESSES, MAC_ADDRESSES)];
            var m := MergeTypes(pairs, base, cand, rev, start, names, candNames);
            var m' := MergeTypes(pairs, base', cand', rev, start, names, candNames);
            m.next == m'.next && AllTwins(m.fps, m'.fps, w, tr)
    ensures var r := MacInputs(bk, base, ck, cand, rev, start, names, candNames);
            var r' := MacInputs(bk, base', ck, cand', rev, start, names, candNames);
            AllTwins(r.base, r'.base, w, mb) && AllTwins(r.cand, r'.cand, w, mc)
  {
    hide Pass, Fits, Twin, Passes, Orderly;
    if cand == [] {
      return tb, [], [];
    }
    if base == [] {
      return tc, [], [];
    }
    assert KeyPair(MAC_ADDRESSES, MAC_ADDRESSES) in KEY_PAIRS by {
      assert KEY_PAIRS[4] in KEY_PAIRS;
    }
    TwoPasses(bk, base, ck, cand, rev, start, names, candNames);
    TwoPasses(bk, base', ck, cand', rev, start, names, candNames);
    mb, mc := MergePassTwins(bk, base, base', ck, cand, cand', rev, start, names, candNames, w, tb, tc);
    var r := Pass(bk, base, ck, cand, rev, start, names, candNames);
    var r' := Pass(bk, base', ck, cand', rev, start, names, candNames);
    var next := start + |base| + |cand|;
    var d, e := MergePassTwins(MAC_ADDRESSES, r.base, r'.base, MAC_ADDRESSES, r.cand, r'.cand, rev, next, names,
                               candNames, w, mb, mc);
    var q := Pass(MAC_ADDRESSES, r.base, MAC_ADDRESSES, r.cand, rev, next, names, candNames);
    var q' := Pass(MAC_ADDRESSES, r'.base, MAC_ADDRESSES, r'.cand, rev, next, names, candNames);
    TwinsConcat(q.base, q'.base, q.cand, q'.cand, w, d, e);
    tr := d + e;
  }

  /* ---------- the report ---------- */

  /** What the MAC pass against satellite works on. */
  function FirstMac(r: Report): PassResult {
    MacInputs(SUBSCRIPTION_MANAGER_ID, Network(r), SUBSCRIPTION_MANAGER_ID, Satellite(r), NotGiven, 0, PRODUCT_NAMES,
              PRODUCT_NAMES)
  }

  /** What the MAC pass against vcenter works on. */
  function SecondMac(r: Report): PassResult {
    MacInputs(BIOS_UUID, Combined(r).fps, VM_UUID, Vcenter(r), REVERSE_KEYS, Combined(r).next, PRODUCT_NAMES, [])
  }

  lemma InputsOrderly(r: Report)
    ensures Orderly(Alongside(r))
  {
    hide Inputs, WellFormed;
    forall i | 0 <= i < |Inputs(r)| ensures WellFormed(Inputs(r)[i]) {
      InputsWellFormed(r, i);
    }
  }

  lemma PipelinePairs()
    ensures KeyPair(SUBSCRIPTION_MANAGER_ID, SUBSCRIPTION_MANAGER_ID) in KEY_PAIRS
            && KeyPair(BIOS_UUID, VM_UUID) in KEY_PAIRS
  {
    assert KEY_PAIRS[0] in KEY_PAIRS && KEY_PAIRS[3] in KEY_PAIRS;
  }

  /** The plans of one stage of both runs. */
  datatype Stages = Stages(base1: seq<Plan>, cand1: seq<Plan>, base2: seq<Plan>, cand2: seq<Plan>, systems: seq<Plan>)

  /** The run on the marked report goes as the run on the report does, to the last merge. */
  lemma SystemsTwins(r: Report) returns (st: Stages)
    ensures var m, w := Marked(r), Alongside(r);
            && AllTwins(FirstMac(r).base, FirstMac(m).base, w, st.base1)
            && AllTwins(FirstMac(r).cand, FirstMac(m).cand, w, st.cand1)
            && AllTwins(SecondMac(r).base, SecondMac(m).base, w, st.base2)
            && AllTwins(SecondMac(r).cand, SecondMac(m).cand, w, st.cand2)
            && AllTwins(Systems(r), Systems(m), w, st.systems)
  {
    hide Twin, MergeTypes, Deduplicated, Appended, Inputs, Orderly, Fits, MacInputs, Placed, Marked, Singles;
    var m, w := Marked(r), Alongside(r);
    InputsOrderly(r);
    MergedPlaced(r);
    PipelinePairs();
    var tn := DeduplicatedTwins(NETWORK, r.network, m.network, NETWORK_KEYS, w, 0);
    var ts := DeduplicatedTwins(SATELLITE, r.satellite, m.satellite, SATELLITE_KEYS, w, |r.network|);
    var tv := DeduplicatedTwins(VCENTER, r.vcenter, m.vcenter, VCENTER_KEYS, w, |r.network| + |r.satellite|);
    var tc, b1, c1 := TypesTwins(SUBSCRIPTION_MANAGER_ID, Network(r), Network(m), SUBSCRIPTION_MANAGER_ID,
                                 Satellite(r), Satellite(m),
                                 NotGiven, 0, PRODUCT_NAMES, PRODUCT_NAMES, w, tn, ts);
    var tm, b2, c2 := TypesTwins(BIOS_UUID, Combined(r).fps, Combined(m).fps, VM_UUID, Vcenter(r), Vcenter(m),
                                 REVERSE_KEYS, Combined(r).next, PRODUCT_NAMES, [], w, tc, tv);
    AppendedTwins(r);
    var rest := Singles(|r.network| + |r.satellite| + |r.vcenter|, |Appended(r)|);
    TwinsConcat(WithVcenter(r, REVERSE_KEYS), WithVcenter(m, REVERSE_KEYS), Appended(r), Appended(m), w, tm, rest);
    st := Stages(b1, c1, b2, c2, tm + rest);
  }

  /** The systems of which reported system p is made: those whose marks it carries when the
      engine runs on the marked report. */
  ghost function Parts(r: Report, p: nat): set<nat>
    requires p < |Systems(Marked(r))|
  {
    set i | 0 <= i < |Inputs(r)| && Name(i) in Systems(Marked(r))[p].sources
  }

  /** The value of linked merges of exactly these inputs. */
  ghost predicate MadeOf(fp: Fingerprint, pool: seq<Fingerprint>, s: set<nat>) {
    exists plan :: Positions(plan) == s && Rooted(fp, pool, plan) && Linked(plan, pool)
  }

  lemma TwinParts(f: Fingerprint, g: Fingerprint, w: Runs, plan: Plan, i: nat)
    requires Twin(f, g, w, plan) && Branded(w.marked)
    ensures Name(i) in g.sources <==> i in Positions(plan)
  {
    hide Branded, Linked, Alike;
    PlanNames(g, w.marked, plan, i);
  }

  lemma RootedInside(fp: Fingerprint, pool: seq<Fingerprint>, plan: Plan)
    requires Rooted(fp, pool, plan)
    ensures forall i :: i in Positions(plan) ==> i < |pool|
  {
    PositionsInside(plan, |pool|);
  }

  lemma TwinMadeOf(f: Fingerprint, g: Fingerprint, w: Runs, plan: Plan)
    requires Twin(f, g, w, plan) && Branded(w.marked)
    ensures Alike(f, g) && MadeOf(f, w.pool, set i | 0 <= i < |w.pool| && Name(i) in g.sources)
  {
    hide Rooted, Linked, Alike, Branded, Name;
    RootedInside(f, w.pool, plan);
    forall i: nat ensures Name(i) in g.sources <==> i in Positions(plan) {
      TwinParts(f, g, w, plan, i);
    }
    assert Positions(plan) == set i | 0 <= i < |w.pool| && Name(i) in g.sources;
  }

  /** Sources do not matter: the marked report gives the same systems. Every reported system is
      the value of merges of exactly its parts, each merge between fingerprints that share an
      input or a key. */
  lemma SystemsMadeOfParts(r: Report, p: nat)
    ensures |Systems(r)| == |Systems(Marked(r))|
    ensures p < |Systems(r)| ==>
              Alike(Systems(r)[p], Systems(Marked(r))[p]) && MadeOf(Systems(r)[p], Inputs(r), Parts(r, p))
  {
    hide Systems, Twin, Alike, Inputs, Branded, Marked, MadeOf, FirstMac, SecondMac, Name;
    var st := SystemsTwins(r);
    MarkedBranded(r);
    if p < |Systems(r)| {
      TwinMadeOf(Systems(r)[p], Systems(Marked(r))[p], Alongside(r), st.systems[p]);
    }
  }

  /* ---------- which systems are dropped ---------- */

  /** Every fingerprint that carries the mark is one whose addresses earlier ones claim. */
  ghost predicate AllShadowed(fps: seq<Fingerprint>, marked: seq<Fingerprint>, s: string) {
    |fps| == |marked| && forall j :: 0 <= j < |marked| && s in marked[j].sources ==> Shadowed(MAC_ADDRESSES, fps, j)
  }

  /** The pass sees the system, but only in fingerprints that it drops. */
  ghost predicate Dropped(r: PassResult, marked: PassResult, s: string) {
    && s in SourcesOf(marked.base) + SourcesOf(marked.cand)
    && AllShadowed(r.base, marked.base, s) && AllShadowed(r.cand, marked.cand, s)
  }

  /** One of the two MAC passes drops the system. */
  ghost predicate DroppedByMacPass(r: Report, i: nat) {
    Dropped(FirstMac(r), FirstMac(Marked(r)), Name(i)) || Dropped(SecondMac(r), SecondMac(Marked(r)), Name(i))
  }

  lemma SurvivesUnlessShadowed(name: string, fps: seq<Fingerprint>, j: nat)
    requires j < |fps|
    ensures Survives(name, fps, j) <==> !Shadowed(name, fps, j)
  {
    hide Survives, Shadowed, IndexScan, Occurs;
    SurvivesIffOccurs(name, fps, 0, j);
    LostIff(name, fps, 0, j);
  }

  lemma ShadowedAlike(name: string, a: seq<Fingerprint>, b: seq<Fingerprint>, j: nat)
    requires |a| == |b| && j < |a| && forall i :: 0 <= i < |a| ==> Claims(a[i], name) == Claims(b[i], name)
    ensures Shadowed(name, a, j) <==> Shadowed(name, b, j)
  {
    hide Claims;
  }

  lemma SurvivingUnlessShadowed(a: seq<Fingerprint>, b: seq<Fingerprint>, w: Runs, tr: seq<Plan>, s: string)
    requires AllTwins(a, b, w, tr)
    ensures s in SurvivingSources(MAC_ADDRESSES, b) <==> s in SourcesOf(b) && !AllShadowed(a, b, s)
    ensures s !in SourcesOf(b) ==> AllShadowed(a, b, s)
  {
    hide Survives, Shadowed, Twin, Claims;
    SameClaims(a, b, w, tr, MAC_ADDRESSES);
    forall j | 0 <= j < |b| ensures Survives(MAC_ADDRESSES, b, j) <==> !Shadowed(MAC_ADDRESSES, a, j) {
      ShadowedAlike(MAC_ADDRESSES, a, b, j);
      SurvivesUnlessShadowed(MAC_ADDRESSES, b, j);
    }
    if s in SourcesOf(b) && !AllShadowed(a, b, s) {
      var j :| 0 <= j < |b| && s in b[j].sources && !Shadowed(MAC_ADDRESSES, a, j);
      assert Survives(MAC_ADDRESSES, b, j);
    }
  }

  /** A mark reaches the result of a merge unless its MAC pass drops the system. */
  lemma ReachesUnlessDropped(bk: string, base: seq<Fingerprint>, ck: string, cand: seq<Fingerprint>, rev: ReverseKeys,
                             start: nat, names: seq<string>, candNames: seq<string>, r: PassResult, w: Runs,
                             tb: seq<Plan>, tc: seq<Plan>, s: string)
    requires TypeInputs(base, cand, rev, names, candNames) && UniqueScalar(bk, base) && UniqueScalar(ck, cand)
    requires var m := MacInputs(bk, base, ck, cand, rev, start, names, candNames);
             AllTwins(r.base, m.base, w, tb) && AllTwins(r.cand, m.cand, w, tc)
    ensures var pairs := [KeyPair(bk, ck), KeyPair(MAC_ADDRESSES, MAC_ADDRESSES)];
            s in SourcesOf(MergeTypes(pairs, base, cand, rev, start, names, candNames).fps) <==>
            && s in SourcesOf(base) + SourcesOf(cand)
            && !Dropped(r, MacInputs(bk, base, ck, cand, rev, start, names, candNames), s)
    ensures Dropped(r, MacInputs(bk, base, ck, cand, rev, start, names, candNames), s) ==>
            s in SourcesOf(base) + SourcesOf(cand)
  {
    hide Fits, Pass, SourcesOf, SurvivingSources, MergeTypes, UniqueScalar, AllTwins, AllShadowed;
    MergedSources(bk, base, ck, cand, rev, start, names, candNames);
    var m := MacInputs(bk, base, ck, cand, rev, start, names, candNames);
    SurvivingUnlessShadowed(r.base, m.base, w, tb, s);
    SurvivingUnlessShadowed(r.cand, m.cand, w, tc, s);
    assert SourcesOf([]) == {} by { NoSources(); }
  }

  /** The sources of the merged types of the marked report. */
  lemma MarkedSources(r: Report, i: nat)
    ensures var m, a, b, c := Marked(r), |r.network|, |r.satellite|, |r.vcenter|;
            && (Name(i) in SourcesOf(Network(m)) <==> i < a)
            && (Name(i) in SourcesOf(Satellite(m)) <==> a <= i < a + b)
            && (Name(i) in SourcesOf(Vcenter(m)) <==> a + b <= i < a + b + c)
  {
    hide SourcesOf, Deduplicated, ProcessAll, MarkAll, Name, Hosts;
    var m := Marked(r);
    DeduplicatedSources(NETWORK, m.network, NETWORK_KEYS);
    DeduplicatedSources(SATELLITE, m.satellite, SATELLITE_KEYS);
    DeduplicatedSources(VCENTER, m.vcenter, VCENTER_KEYS);
    SliceNames(NETWORK, r.network, 0, i);
    SliceNames(SATELLITE, r.satellite, |r.network|, i);
    SliceNames(VCENTER, r.vcenter, |r.network| + |r.satellite|, i);
  }

  /** All inputs after the merged types are appended. */
  lemma AppendedSources(r: Report, i: nat)
    requires i < |Inputs(r)|
    ensures Name(i) in SourcesOf(Appended(Marked(r))) <==> |r.network| + |r.satellite| + |r.vcenter| <= i
  {
    hide Name, Inputs, Appended, Hosts, Marked, BrandedFrom;
    var m, off := Marked(r), |r.network| + |r.satellite| + |r.vcenter|;
    AppendedPlaced(r);
    InputParts(m);
    MarkedLengths(r);
    MarkedBranded(r);
    var fps, pool := Appended(m), Inputs(m);
    forall j | 0 <= j < |fps| ensures fps[j].sources.Keys == {Name(off + j)} {
      assert fps[j] == pool[off..off + |fps|][j] == pool[off + j];
      BrandedAt(pool, off + j);
    }
    if off <= i {
      assert Name(i) in fps[i - off].sources;
    }
    if Name(i) in SourcesOf(fps) {
      var j :| 0 <= j < |fps| && Name(i) in fps[j].sources;
      NamesDiffer(i, off + j);
    }
  }

  lemma MarkedLengths(r: Report)
    ensures var m := Marked(r);
            |m.network| == |r.network| && |m.satellite| == |r.satellite| && |m.vcenter| == |r.vcenter|
  {
  }

  lemma BrandedAt(pool: seq<Fingerprint>, i: nat)
    requires Branded(pool) && i < |pool|
    ensures pool[i].sources.Keys == {Name(i)}
  {
  }

  /** System i is a part of some reported system. */
  ghost predicate IsReported(r: Report, i: nat) {
    exists p :: 0 <= p < |Systems(Marked(r))| && i in Parts(r, p)
  }

  /** A system of the report is missing from the reported systems exactly when a MAC pass drops
      it: all fingerprints it went into have addresses, and earlier ones claim them all. */
  lemma OnlyMacPassesDrop(r: Report, i: nat)
    requires i < |Inputs(r)|
    ensures IsReported(r, i) <==> !DroppedByMacPass(r, i)
  {
    hide SourcesOf, Deduplicated, MergeTypes, MacInputs, Appended, Inputs, UniqueScalar, Fits, AllTwins, Dropped, Name,
         Marked;
    var m, w := Marked(r), Alongside(r);
    var st := SystemsTwins(r);
    ScalarPassKeysUnique(m);
    ReachesUnlessDropped(SUBSCRIPTION_MANAGER_ID, Network(m), SUBSCRIPTION_MANAGER_ID, Satellite(m), NotGiven, 0,
                         PRODUCT_NAMES, PRODUCT_NAMES, FirstMac(r), w, st.base1, st.cand1, Name(i));
    ReachesUnlessDropped(BIOS_UUID, Combined(m).fps, VM_UUID, Vcenter(m), REVERSE_KEYS, Combined(m).next,
                         PRODUCT_NAMES, [], SecondMac(r), w, st.base2, st.cand2, Name(i));
    SourcesConcat(WithVcenter(m, REVERSE_KEYS), Appended(m));
    MarkedSources(r, i);
    AppendedSources(r, i);
    ReportedBySource(r, i);
  }

  lemma ReportedBySource(r: Report, i: nat)
    requires i < |Inputs(r)|
    ensures IsReported(r, i) <==> Name(i) in SourcesOf(Systems(Marked(r)))
  {
    hide Systems, Inputs, Marked, Name;
    var fps := Systems(Marked(r));
    if Name(i) in SourcesOf(fps) {
      var p :| 0 <= p < |fps| && Name(i) in fps[p].sources;
      assert i in Parts(r, p);
    }
  }

  /* ---------- which systems are merged ---------- */

  ghost predicate Neighbours(pool: seq<Fingerprint>, i: nat, j: nat) {
    i < |pool| && j < |pool| && (ShareKey(pool[i], pool[j]) || ShareKey(pool[j], pool[i]))
  }

  /** Some system inside shares a key with one outside. */
  ghost predicate Crossing(pool: seq<Fingerprint>, part: set<nat>, whole: set<nat>) {
    exists i, j :: i in part && j in whole - part && Neighbours(pool, i, j)
  }

  /** However the set is cut in two, both sides share a key. */
  ghost predicate Connected(pool: seq<Fingerprint>, whole: set<nat>) {
    forall part: set<nat> :: part <= whole && part != {} && part != whole ==> Crossing(pool, part, whole)
  }

  lemma CrossingMore(pool: seq<Fingerprint>, part: set<nat>, small: set<nat>, whole: set<nat>)
    requires small <= whole && Crossing(pool, part * small, small)
    ensures Crossing(pool, part, whole)
  {
    var i, j :| i in part * small && j in small - part * small && Neighbours(pool, i, j);
    assert i in part && j in whole - part;
  }

  lemma TouchingConnected(s: Plan, t: Plan, pool: seq<Fingerprint>)
    requires Touch(s, t, pool) && Connected(pool, Positions(s)) && Connected(pool, Positions(t))
    ensures Connected(pool, Positions(s) + Positions(t))
  {
    hide ShareKey;
    var a, b := Positions(s), Positions(t);
    forall part: set<nat> | part <= a + b && part != {} && part != a + b ensures Crossing(pool, part, a + b) {
      if part * a != {} && part * a != a {
        CrossingMore(pool, part, a, a + b);
      } else if part * b != {} && part * b != b {
        CrossingMore(pool, part, b, a + b);
      } else {
        assert part == part * a + part * b;
        var i, j :| i in a && j in b && (i == j || (i < |pool| && j < |pool| && ShareKey(pool[i], pool[j])));
        assert i in part <==> i in part * a;
        assert j in part <==> j in part * b;
        if i in part {
          assert Neighbours(pool, i, j);
        } else {
          assert Neighbours(pool, j, i);
        }
      }
    }
  }

  lemma {:induction false} LinkedConnected(plan: Plan, pool: seq<Fingerprint>)
    requires Linked(plan, pool)
    ensures Connected(pool, Positions(plan))
  {
    hide Touch, Crossing;
    match plan
    case At(i) =>
      forall part: set<nat> | part <= {i} && part != {} ensures part == {i} {
        var j :| j in part;
      }
    case Join(l, r) =>
      LinkedConnected(l, pool);
      LinkedConnected(r, pool);
      TouchingConnected(l, r, pool);
  }

  /** Only systems connected by shared keys are reported as one. */
  lemma PartsConnected(r: Report, p: nat)
    requires p < |Systems(Marked(r))|
    ensures Parts(r, p) != {} && Connected(Inputs(r), Parts(r, p))
  {
    hide Systems, Inputs, Parts, Rooted, Linked, Connected, Alike;
    SystemsMadeOfParts(r, p);
    var plan :| Positions(plan) == Parts(r, p) && Rooted(Systems(r)[p], Inputs(r), plan) && Linked(plan, Inputs(r));
    LinkedConnected(plan, Inputs(r));
  }

  /** Every fact of every reported system is, with its metadata, a fact of one of its parts, and
      facts and metadata entries match. */
  lemma SystemsProvenance(r: Report, p: nat, k: string)
    requires p < |Systems(r)|
    ensures WellFormed(Systems(r)[p]) && p < |Systems(Marked(r))|
    ensures k in Systems(r)[p].facts ==>
              exists i :: i in Parts(r, p) && i < |Inputs(r)| && k in Inputs(r)[i].facts
                          && FactAt(Systems(r)[p], k) == FactAt(Inputs(r)[i], k)
  {
    hide Systems, Inputs, Rooted, WellFormed, Parts, Linked, Alike, FactAt;
    SystemsMadeOfParts(r, p);
    forall i | 0 <= i < |Inputs(r)| ensures WellFormed(Inputs(r)[i]) {
      InputsWellFormed(r, i);
    }
    var plan :| Positions(plan) == Parts(r, p) && Rooted(Systems(r)[p], Inputs(r), plan) && Linked(plan, Inputs(r));
    RootedProvenance(Systems(r)[p], Inputs(r), plan, k);
  }
}
