/** The last step: several raw dates of a system become its creation date. */
module CreationDates {
  import opened OrderedDict
  import opened Fingerprints
  import opened MergeLaws
  import opened Pipeline
  import opened PipelineLaws
  import opened Marks
  import opened SystemTraces

  /** From the least to the most accurate. */
  const DATE_KEYS := ["date_filesystem_create", "date_anaconda_log", "registration_time", "date_machine_id",
                      "creation_timestamp"]
  const CREATION_DATE := "system_creation_date"
  const ALL_DATE_KEYS := "date_filesystem_create/date_anaconda_log/registration_time/date_machine_id/creation_timestamp"

  /** Parses the value of a date key; Null if no pattern of the key fits. */
  type Parser = (string, Value) -> Value

  /** The pair for the creation date, if any date key has a value. */
  function Chosen(fp: Fingerprint, parse: Parser, keys: seq<string>): Cell {
    if keys == [] then Missing
    else
      var k := keys[|keys| - 1];
      if FactAt(fp, k).Cell? && !FactAt(fp, k).value.Null?
      then Cell(parse(k, FactAt(fp, k).value), FactAt(fp, k).meta)
      else Chosen(fp, parse, keys[..|keys| - 1])
  }

  function Without(fp: Fingerprint, keys: seq<string>): Fingerprint {
    fp.(facts := map k | k in fp.facts && k !in keys :: fp.facts[k],
        meta := map k | k in fp.meta && k !in keys :: fp.meta[k])
  }

  /** A date that could not be parsed is reported as coming from all date keys. */
  function Source(c: Cell): Meta
    requires c.Cell?
  {
    if c.value.Null? then c.meta.(rawFactKey := ALL_DATE_KEYS) else c.meta
  }

  function Dated(fp: Fingerprint, parse: Parser): Fingerprint {
    var bare, c := Without(fp, DATE_KEYS), Chosen(fp, parse, DATE_KEYS);
    if c.Missing? then bare
    else bare.(facts := bare.facts[CREATION_DATE := c.value], meta := bare.meta[CREATION_DATE := Source(c)])
  }

  /** The loop over the date keys pops each of them and remembers the last one with a value. */
  method ComputeCreationTime(fp: Fingerprint, parse: Parser) returns (r: Fingerprint)
    requires WellFormed(fp)
    ensures r == Dated(fp, parse)
  {
    r := fp;
    var chosen := Missing;
    for i := 0 to |DATE_KEYS|
      invariant r == Without(fp, DATE_KEYS[..i]) && chosen == Chosen(fp, parse, DATE_KEYS[..i])
    {
      TakeSnoc(DATE_KEYS, i);
      var k := DATE_KEYS[i];
      KeyStillThere(fp, i);
      if k in r.facts && !r.facts[k].Null? {
        chosen := Cell(parse(k, r.facts[k]), r.meta[k]);
      }
      r := r.(facts := r.facts - {k}, meta := r.meta - {k});
      WithoutNext(fp, i);
    }
    assert DATE_KEYS[..|DATE_KEYS|] == DATE_KEYS;
    if chosen.Cell? {
      r := r.(facts := r.facts[CREATION_DATE := chosen.value], meta := r.meta[CREATION_DATE := Source(chosen)]);
    }
  }

  lemma WithoutNext(fp: Fingerprint, i: nat)
    requires i < |DATE_KEYS|
    ensures var r, k := Without(fp, DATE_KEYS[..i]), DATE_KEYS[i];
            r.(facts := r.facts - {k}, meta := r.meta - {k}) == Without(fp, DATE_KEYS[..i + 1])
  {
    TakeSnoc(DATE_KEYS, i);
  }

  /** The date keys are distinct, so a key is still there when its turn comes. */
  lemma KeyStillThere(fp: Fingerprint, i: nat)
    requires i < |DATE_KEYS| && WellFormed(fp)
    ensures var k, r := DATE_KEYS[i], Without(fp, DATE_KEYS[..i]);
            FactAt(r, k) == FactAt(fp, k) && (k in r.facts <==> k in r.meta) && WellFormed(r)
  {
    DateKeysDistinct();
    assert DATE_KEYS[i] !in DATE_KEYS[..i];
  }

  lemma DateKeysDistinct()
    ensures Distinct(DATE_KEYS) && CREATION_DATE !in DATE_KEYS
  {
    assert |DATE_KEYS[0]| == 22 && |DATE_KEYS[1]| == 17 && |DATE_KEYS[2]| == 17 && |DATE_KEYS[3]| == 15
           && |DATE_KEYS[4]| == 18;
    assert DATE_KEYS[1][0] != DATE_KEYS[2][0];
    assert |CREATION_DATE| == 20;
  }

  /** The most accurate date with a value, if there is one. */
  predicate LastDate(fp: Fingerprint, n: nat) {
    && n < |DATE_KEYS| && FactAt(fp, DATE_KEYS[n]).Cell? && !FactAt(fp, DATE_KEYS[n]).value.Null?
    && forall m :: n < m < |DATE_KEYS| ==> FactAt(fp, DATE_KEYS[m]).Missing? || FactAt(fp, DATE_KEYS[m]).value.Null?
  }

  lemma {:induction false} ChosenIs(fp: Fingerprint, parse: Parser, keys: seq<string>, n: nat)
    requires n < |keys| && FactAt(fp, keys[n]).Cell? && !FactAt(fp, keys[n]).value.Null?
    requires forall m :: n < m < |keys| ==> FactAt(fp, keys[m]).Missing? || FactAt(fp, keys[m]).value.Null?
    ensures Chosen(fp, parse, keys) == Cell(parse(keys[n], FactAt(fp, keys[n]).value), FactAt(fp, keys[n]).meta)
  {
    hide FactAt;
    if n < |keys| - 1 {
      ChosenIs(fp, parse, keys[..|keys| - 1], n);
    }
  }

  /** Facts and metadata stay paired, the raw dates are gone, every other fact keeps its pair,
      and the creation date is what the most accurate date parses to, with its metadata. */
  lemma DatedFacts(fp: Fingerprint, parse: Parser, k: string)
    requires WellFormed(fp)
    ensures WellFormed(Dated(fp, parse))
    ensures k in DATE_KEYS ==> FactAt(Dated(fp, parse), k).Missing?
    ensures k !in DATE_KEYS && k != CREATION_DATE ==> FactAt(Dated(fp, parse), k) == FactAt(fp, k)
    ensures forall n: nat :: LastDate(fp, n) ==>
              var c := FactAt(Dated(fp, parse), CREATION_DATE);
              && c.Cell? && c.value == parse(DATE_KEYS[n], FactAt(fp, DATE_KEYS[n]).value)
              && c.meta.hasSudo == FactAt(fp, DATE_KEYS[n]).meta.hasSudo
              && (!c.value.Null? ==> c.meta == FactAt(fp, DATE_KEYS[n]).meta)
  {
    DateKeysDistinct();
    forall n: nat | LastDate(fp, n)
      ensures Chosen(fp, parse, DATE_KEYS) == Cell(parse(DATE_KEYS[n], FactAt(fp, DATE_KEYS[n]).value),
                                                   FactAt(fp, DATE_KEYS[n]).meta)
    {
      ChosenIs(fp, parse, DATE_KEYS, n);
    }
    hide Chosen;
  }

  predicate HasDate(fp: Fingerprint, k: string) {
    FactAt(fp, k).Cell? && !FactAt(fp, k).value.Null?
  }

  /** The keys from the most to the least accurate, and the one that decides. */
  function Decisive(fp: Fingerprint): Option<string> {
    if HasDate(fp, "creation_timestamp") then Some("creation_timestamp")
    else if HasDate(fp, "date_machine_id") then Some("date_machine_id")
    else if HasDate(fp, "registration_time") then Some("registration_time")
    else if HasDate(fp, "date_anaconda_log") then Some("date_anaconda_log")
    else if HasDate(fp, "date_filesystem_create") then Some("date_filesystem_create")
    else None
  }

  /** The creation date is what the decisive key parses to. Its metadata are those of the key, but
      an unparsed date is said to come from all five. Without any date nothing is added. */
  lemma DecisiveDate(fp: Fingerprint, parse: Parser)
    requires WellFormed(fp)
    ensures Decisive(fp).None? ==>
              FactAt(Dated(fp, parse), "system_creation_date") == FactAt(fp, "system_creation_date")
    ensures Decisive(fp).Some? ==>
              var k, c := Decisive(fp).value, FactAt(Dated(fp, parse), "system_creation_date");
              && c.Cell? && c.value == parse(k, FactAt(fp, k).value)
              && (!c.value.Null? ==> c.meta == FactAt(fp, k).meta)
              && (c.value.Null? ==> c.meta == FactAt(fp, k).meta.(rawFactKey :=
                "date_filesystem_create/date_anaconda_log/registration_time/date_machine_id/creation_timestamp"))
  {
    ChosenDecisive(fp, parse);
    DateKeysDistinct();
    hide Chosen, Decisive;
  }

  lemma ChosenNext(fp: Fingerprint, parse: Parser, ks: seq<string>, n: nat)
    requires n < |ks|
    ensures Chosen(fp, parse, ks[..n + 1]) ==
            if HasDate(fp, ks[n]) then Cell(parse(ks[n], FactAt(fp, ks[n]).value), FactAt(fp, ks[n]).meta)
            else Chosen(fp, parse, ks[..n])
  {
    hide FactAt;
    TakeSnoc(ks, n);
  }

  lemma ChosenDecisive(fp: Fingerprint, parse: Parser)
    ensures Chosen(fp, parse, DATE_KEYS) ==
            if Decisive(fp).None? then Missing
            else Cell(parse(Decisive(fp).value, FactAt(fp, Decisive(fp).value).value),
                      FactAt(fp, Decisive(fp).value).meta)
  {
    hide FactAt;
    var ks := DATE_KEYS;
    assert ks[..5] == ks && ks[..0] == [];
    ChosenNext(fp, parse, ks, 0);
    ChosenNext(fp, parse, ks, 1);
    ChosenNext(fp, parse, ks, 2);
    ChosenNext(fp, parse, ks, 3);
    ChosenNext(fp, parse, ks, 4);
  }

  /* ---------- the reported systems ---------- */

  function Reported(r: Report, parse: Parser): (fps: seq<Fingerprint>)
    ensures |fps| == |Systems(r)| && forall p :: 0 <= p < |fps| ==> fps[p] == Dated(Systems(r)[p], parse)
  {
    seq(|Systems(r)|, p requires 0 <= p < |Systems(r)| => Dated(Systems(r)[p], parse))
  }

  /** The whole pipeline; no lookup in it fails, whatever the report. */
  method ProcessSources(r: Report, parse: Parser) returns (fps: seq<Fingerprint>)
    ensures fps == Reported(r, parse)
  {
    hide Systems, Dated, WellFormed;
    var merged := MergeSources(r);
    fps := [];
    for p := 0 to |merged|
      invariant |fps| == p && forall q :: 0 <= q < p ==> fps[q] == Dated(merged[q], parse)
    {
      SystemsProvenance(r, p, "");
      var fp := ComputeCreationTime(merged[p], parse);
      fps := fps + [fp];
    }
  }

  /** Every fact of every reported system but its creation date is, with its metadata, a fact
      of one of its parts, and facts and metadata entries match. */
  lemma ReportedProvenance(r: Report, parse: Parser, p: nat, k: string)
    requires p < |Reported(r, parse)|
    ensures WellFormed(Reported(r, parse)[p]) && p < |Systems(Marked(r))|
    ensures k in Reported(r, parse)[p].facts && k != CREATION_DATE ==>
              exists i :: i in Parts(r, p) && i < |Inputs(r)| && k in Inputs(r)[i].facts
                          && FactAt(Reported(r, parse)[p], k) == FactAt(Inputs(r)[i], k)
  {
    hide Systems, Inputs, Dated, Reported, Parts, Marked;
    SystemsProvenance(r, p, k);
    DatedFacts(Systems(r)[p], parse, k);
  }

  /** A more accurate date that cannot be parsed hides one that can. */
  lemma UnparsedDateHides()
    ensures var m := Meta("s", "lab", "network", "raw", false);
            var fp := Fingerprint(map["date_anaconda_log" := One(Text("2024-01-01")),
                                      "date_machine_id" := One(Text("?"))],
                                  map["date_anaconda_log" := m, "date_machine_id" := m], map[], None, None, None);
            var parse: Parser := (k, v) => if v == One(Text("?")) then Null else v;
            && WellFormed(fp)
            && parse("date_anaconda_log", fp.facts["date_anaconda_log"]) == One(Text("2024-01-01"))
            && FactAt(Dated(fp, parse), CREATION_DATE).Cell? && FactAt(Dated(fp, parse), CREATION_DATE).value == Null
  {
    var m := Meta("s", "lab", "network", "raw", false);
    assert |"date_anaconda_log"| == 17 && |"date_machine_id"| == 15;
    var fp := Fingerprint(map["date_anaconda_log" := One(Text("2024-01-01")), "date_machine_id" := One(Text("?"))],
                          map["date_anaconda_log" := m, "date_machine_id" := m], map[], None, None, None);
    var parse: Parser := (k, v) => if v == One(Text("?")) then Null else v;
    DateKeysDistinct();
    assert DATE_KEYS[3] == "date_machine_id" && |DATE_KEYS[4]| == 18;
    assert FactAt(fp, DATE_KEYS[4]).Missing?;
    assert LastDate(fp, 3);
    DatedFacts(fp, parse, "");
    assert |"2024-01-01"| == 10 && |"?"| == 1;
  }
}
