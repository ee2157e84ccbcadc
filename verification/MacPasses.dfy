/** What list-valued keys can do that scalar keys cannot: drop a system, or report one twice. */
module MacPasses {
  import opened OrderedDict
  import opened Fingerprints
  import opened Dedup
  import opened Index
  import opened MergePass
  import opened PassLaws
  import opened PassFacts

  lemma OwnsFirst(name: string, fp: Fingerprint, x: Scalar)
    ensures Owner(name, [fp], x) == if x in Claims(fp, name) then Some(0) else None
  {
    assert [fp][..0] == [];
  }

  /** A candidate with two addresses, one known to the base and one not, is merged into the
      base and carried on as well. */
  lemma MergedAndCarried(b: Fingerprint, c: Fingerprint, name: string, x: Scalar, y: Scalar, names: seq<string>,
                         start: nat)
    requires PassInputs([b], [c], NotGiven, names, names)
    requires Claims(b, name) == [x] && Claims(c, name) == [x, y] && x != y
    ensures var t := TaggedPass(name, [b], name, [c], NotGiven, start, names, names);
            && (exists p :: 0 <= p < |t.base| && c.sources.Keys <= t.base[p].sources.Keys)
            && (exists p :: 0 <= p < |t.cand| && c.sources.Keys <= t.cand[p].sources.Keys)
  {
    hide TaggedPass, Claims, Owner;
    OwnsFirst(name, b, x);
    OwnsFirst(name, b, y);
    OwnsFirst(name, c, x);
    OwnsFirst(name, c, y);
    assert OwnsKey(name, [b], name, [c], 0, false);
    CarriedIff(name, [b], name, [c], NotGiven, start, names, names, 0);
    CarriedReachesOutput(name, [b], name, [c], NotGiven, start, names, names, 0);
    MergeReachesItsBase(name, [b], name, [c], NotGiven, start, names, names, x, 0, 0);
  }

  /** A base whose only address an earlier base claims is dropped, with its sources. */
  lemma SecondBaseDropped(a: Fingerprint, b: Fingerprint, c: Fingerprint, name: string, x: Scalar, names: seq<string>,
                          start: nat)
    requires PassInputs([a, b], [c], NotGiven, names, names)
    requires Claims(a, name) == [x] && Claims(b, name) == [x]
    ensures var r := Pass(name, [a, b], name, [c], NotGiven, start, names, names);
            SourcesOf(r.base) + SourcesOf(r.cand) <= a.sources.Keys + c.sources.Keys
  {
    hide Pass, Claims, Fits, Occurs, IndexScan;
    var base := [a, b];
    PassConservesSources(name, base, name, [c], NotGiven, start, names, names);
    assert Shadowed(name, base, 1) by {
      assert x in Claims(base[0], name);
    }
    LostIff(name, base, 0, 1);
    SurvivesIffOccurs(name, base, 0, 1);
    forall s | s in SurvivingSources(name, base) ensures s in a.sources {
      var i :| 0 <= i < 2 && Survives(name, base, i) && s in base[i].sources;
      assert i == 0;
    }
    forall s | s in SurvivingSources(name, [c]) ensures s in c.sources {
    }
  }
}
