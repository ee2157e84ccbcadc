/** Totals over the systems of a report. */
module Aggregate {
  import opened OrderedDict

  datatype SourceType = NETWORK | VCENTER | SATELLITE | OPENSHIFT | ANSIBLE | RHACS

  datatype Infrastructure = VIRTUALIZED | BARE_METAL | HYPERVISOR | UNCLASSIFIED

  /** Missing text is "", a missing socket count 0, dates are day numbers. */
  datatype System = System(
    osName: string,
    osVersion: string,
    isRedhat: bool,
    sourceTypes: set<SourceType>,
    infrastructure: Infrastructure,
    sockets: nat,
    created: Option<int>,
    cluster: string,
    host: string)

  datatype Class = NotRedhat | Virtual | Physical | Hypervisor | Unknown

  const UNKNOWN := "unknown"

  /* ---------- what each system contributes ---------- */

  function ClassOf(f: System): Class {
    if !f.isRedhat && OPENSHIFT !in f.sourceTypes && SATELLITE !in f.sourceTypes then NotRedhat
    else match f.infrastructure
      case VIRTUALIZED => Virtual
      case BARE_METAL => Physical
      case HYPERVISOR => Class.Hypervisor
      case UNCLASSIFIED => Unknown
  }

  function OrUnknown(s: string): string {
    if s == "" then UNKNOWN else s
  }

  function Label(f: System): (string, string) {
    (OrUnknown(f.osName), OrUnknown(f.osVersion))
  }

  predicate OnVmware(f: System) {
    ClassOf(f) != NotRedhat && VCENTER in f.sourceTypes && f.cluster != "" && f.host != ""
  }

  ghost function Count(fs: seq<System>, c: Class): nat {
    if fs == [] then 0 else Count(fs[..|fs| - 1], c) + if ClassOf(fs[|fs| - 1]) == c then 1 else 0
  }

  ghost function Labels(fs: seq<System>): multiset<(string, string)> {
    if fs == [] then multiset{} else Labels(fs[..|fs| - 1]) + multiset{Label(fs[|fs| - 1])}
  }

  ghost function Sockets(fs: seq<System>): nat {
    if fs == [] then 0
    else Sockets(fs[..|fs| - 1]) + if ClassOf(fs[|fs| - 1]) == NotRedhat then 0 else fs[|fs| - 1].sockets
  }

  ghost function OddSockets(fs: seq<System>): nat {
    if fs == [] then 0
    else OddSockets(fs[..|fs| - 1]) + if ClassOf(fs[|fs| - 1]) == NotRedhat then 0 else fs[|fs| - 1].sockets % 2
  }

  ghost function Dates(fs: seq<System>): seq<int> {
    if fs == [] then []
    else
      var f := fs[|fs| - 1];
      Dates(fs[..|fs| - 1]) + if ClassOf(f) != NotRedhat && f.created.Some? then [f.created.value] else []
  }

  ghost function Vms(fs: seq<System>): set<(string, string)> {
    if fs == [] then {}
    else
      var f := fs[|fs| - 1];
      Vms(fs[..|fs| - 1]) + if OnVmware(f) then {(f.cluster, f.host)} else {}
  }

  /* ---------- conservation ---------- */

  /** Every system is counted in exactly one class, and under exactly one OS label. */
  lemma {:induction false} EverySystemCountedOnce(fs: seq<System>)
    ensures Count(fs, NotRedhat) + Count(fs, Virtual) + Count(fs, Physical)
            + Count(fs, Class.Hypervisor) + Count(fs, Unknown) == |fs|
    ensures |Labels(fs)| == |fs|
  {
    if fs != [] {
      EverySystemCountedOnce(fs[..|fs| - 1]);
    }
  }

  /** The class of a system: Red Hat systems and those from OpenShift or Satellite by their
      infrastructure, the others apart. */
  lemma ClassIs(f: System)
    ensures ClassOf(f) == NotRedhat <==> !f.isRedhat && OPENSHIFT !in f.sourceTypes && SATELLITE !in f.sourceTypes
    ensures ClassOf(f) != NotRedhat ==>
              && (ClassOf(f) == Virtual <==> f.infrastructure == VIRTUALIZED)
              && (ClassOf(f) == Physical <==> f.infrastructure == BARE_METAL)
              && (ClassOf(f) == Class.Hypervisor <==> f.infrastructure == HYPERVISOR)
              && (ClassOf(f) == Unknown <==> f.infrastructure == UNCLASSIFIED)
  {
  }

  /** What a system counts for besides: a missing name or version is "unknown", and a system is a
      virtual machine of a cluster if it counts, comes from vcenter and names cluster and host. */
  lemma ContributionIs(f: System)
    ensures Label(f).0 == (if f.osName == "" then "unknown" else f.osName)
    ensures Label(f).1 == (if f.osVersion == "" then "unknown" else f.osVersion)
    ensures OnVmware(f) <==> ClassOf(f) != NotRedhat && VCENTER in f.sourceTypes && f.cluster != "" && f.host != ""
  {
  }

  ghost function PositionsOf(fs: seq<System>, c: Class): set<nat> {
    set i: nat | i < |fs| && ClassOf(fs[i]) == c
  }

  /** The class counts are numbers of systems. */
  lemma {:induction false} CountIs(fs: seq<System>, c: Class)
    ensures Count(fs, c) == |PositionsOf(fs, c)|
  {
    if fs == [] {
      assert PositionsOf(fs, c) == {};
    } else {
      hide ClassOf, PositionsOf;
      CountIs(fs[..|fs| - 1], c);
      PositionsMore(fs, c);
    }
  }

  lemma PositionsMore(fs: seq<System>, c: Class)
    requires fs != []
    ensures |PositionsOf(fs, c)| == |PositionsOf(fs[..|fs| - 1], c)| + if ClassOf(fs[|fs| - 1]) == c then 1 else 0
  {
    var front, last := fs[..|fs| - 1], |fs| - 1;
    var before, after := PositionsOf(front, c), PositionsOf(fs, c);
    forall i: nat ensures i in after <==> i in before || (i == last && ClassOf(fs[last]) == c) {
      assert i < last ==> front[i] == fs[i];
    }
    hide ClassOf, PositionsOf;
    if ClassOf(fs[last]) == c {
      assert after == before + {last};
      assert last !in before by { PositionsBelow(front, c); }
    } else {
      assert after == before;
    }
  }

  lemma PositionsBelow(fs: seq<System>, c: Class)
    ensures forall i :: i in PositionsOf(fs, c) ==> i < |fs|
  {
  }

  /** The (cluster, host) pairs are those of the systems on VMware. */
  lemma {:induction false} VmsAre(fs: seq<System>, cluster: string, host: string)
    ensures (cluster, host) in Vms(fs) <==>
            exists i :: 0 <= i < |fs| && OnVmware(fs[i]) && fs[i].cluster == cluster && fs[i].host == host
  {
    if fs != [] {
      hide OnVmware;
      var front, last := fs[..|fs| - 1], |fs| - 1;
      VmsAre(front, cluster, host);
      if i :| 0 <= i < |front| && OnVmware(front[i]) && front[i].cluster == cluster && front[i].host == host {
        assert OnVmware(fs[i]);
      }
      if i :| 0 <= i < |fs| && OnVmware(fs[i]) && fs[i].cluster == cluster && fs[i].host == host {
        assert i < last ==> front[i] == fs[i];
      }
    }
  }

  /* ---------- the average date ---------- */

  function Min(ds: seq<int>): (m: int)
    requires ds != []
    ensures m in ds && forall i :: 0 <= i < |ds| ==> m <= ds[i]
  {
    if |ds| == 1 then ds[0]
    else var m := Min(ds[..|ds| - 1]); if ds[|ds| - 1] < m then ds[|ds| - 1] else m
  }

  function DaysSince(ds: seq<int>, oldest: int): int {
    if ds == [] then 0 else DaysSince(ds[..|ds| - 1], oldest) + (ds[|ds| - 1] - oldest)
  }

  /** Adding a fractional number of days to a date drops the fraction. */
  function AverageDate(ds: seq<int>): Option<int> {
    if ds == [] then None else Some(Min(ds) + DaysSince(ds, Min(ds)) / |ds|)
  }

  ghost function Sum(ds: seq<int>): int {
    if ds == [] then 0 else Sum(ds[..|ds| - 1]) + ds[|ds| - 1]
  }

  lemma {:induction false} DaysSinceIsShiftedSum(ds: seq<int>, oldest: int)
    ensures DaysSince(ds, oldest) == Sum(ds) - |ds| * oldest
  {
    if ds != [] {
      DaysSinceIsShiftedSum(ds[..|ds| - 1], oldest);
      assert |ds| * oldest == (|ds| - 1) * oldest + oldest;
    }
  }

  lemma {:induction false} SumBetween(ds: seq<int>, lo: int, hi: int)
    requires forall i :: 0 <= i < |ds| ==> lo <= ds[i] <= hi
    ensures |ds| * lo <= Sum(ds) <= |ds| * hi
  {
    if ds != [] {
      SumBetween(ds[..|ds| - 1], lo, hi);
      assert |ds| * lo == (|ds| - 1) * lo + lo && |ds| * hi == (|ds| - 1) * hi + hi;
    }
  }

  /** The average is the mean rounded down to a day, so it does not depend on which date is
      oldest or on their order, and it lies within any bounds the dates have. */
  lemma {:induction false} AverageIsMeanRoundedDown(ds: seq<int>, lo: int, hi: int)
    requires ds != []
    requires forall i :: 0 <= i < |ds| ==> lo <= ds[i] <= hi
    ensures var a := AverageDate(ds).value; |ds| * a <= Sum(ds) < |ds| * (a + 1)
    ensures lo <= AverageDate(ds).value <= hi
  {
    hide DaysSince, Sum, Min;
    DaysSinceIsShiftedSum(ds, Min(ds));
    SumBetween(ds, lo, hi);
    FlooredMean(|ds|, Min(ds), Sum(ds));
    MeanBetween(|ds|, AverageDate(ds).value, Sum(ds), lo, hi);
  }

  lemma FlooredMean(n: nat, oldest: int, sum: int)
    requires n > 0
    ensures var a := oldest + (sum - n * oldest) / n; n * a <= sum < n * (a + 1)
  {
    var q := (sum - n * oldest) / n;
    assert n * (oldest + q) == n * oldest + n * q;
  }

  lemma MeanBetween(n: nat, a: int, sum: int, lo: int, hi: int)
    requires n * a <= sum < n * (a + 1)
    requires n * lo <= sum <= n * hi
    ensures lo <= a <= hi
  {
    TimesMonotone(n, hi + 1, a);
    TimesMonotone(n, a + 1, lo);
  }

  lemma TimesMonotone(n: nat, x: int, y: int)
    ensures x <= y ==> n * x <= n * y
  {
  }

  /* ---------- virtual machines by host ---------- */

  function Items(d: map<string, seq<string>>, k: string): seq<string> {
    if k in d then d[k] else []
  }

  function DistinctItems(d: Dict<string, seq<string>>, n: nat): nat
    requires d.Valid() && n <= |d.keys|
  {
    if n == 0 then 0
    else DistinctItems(d, n - 1) + |Elements(d.vals[d.keys[n - 1]])|
  }

  ghost function Tagged(k: string, s: set<string>): set<(string, string)> {
    set x | x in s :: (k, x)
  }

  lemma {:induction false} TaggedSize(k: string, s: set<string>)
    ensures |Tagged(k, s)| == |s|
  {
    if s != {} {
      var x :| x in s;
      TaggedSize(k, s - {x});
      assert Tagged(k, s) == Tagged(k, s - {x}) + {(k, x)};
    }
  }

  ghost function PairsUpTo(d: Dict<string, seq<string>>, n: nat): set<(string, string)>
    requires d.Valid() && n <= |d.keys|
  {
    if n == 0 then {}
    else PairsUpTo(d, n - 1) + Tagged(d.keys[n - 1], Elements(d.vals[d.keys[n - 1]]))
  }

  lemma {:induction false} PairsUpToMembers(d: Dict<string, seq<string>>, n: nat, p: (string, string))
    requires d.Valid() && n <= |d.keys|
    ensures p in PairsUpTo(d, n) <==> exists i :: 0 <= i < n && d.keys[i] == p.0 && p.1 in d.vals[p.0]
  {
    if n > 0 {
      PairsUpToMembers(d, n - 1, p);
    }
  }

  /** Adding up distinct hosts per cluster counts distinct (cluster, host) pairs. */
  lemma {:induction false} DistinctItemsCountPairs(d: Dict<string, seq<string>>, n: nat)
    requires d.Valid() && n <= |d.keys|
    ensures DistinctItems(d, n) == |PairsUpTo(d, n)|
  {
    if n > 0 {
      hide Tagged, Elements;
      DistinctItemsCountPairs(d, n - 1);
      TaggedSize(d.keys[n - 1], Elements(d.vals[d.keys[n - 1]]));
      NextPairsFresh(d, n - 1);
    }
  }

  lemma NextPairsFresh(d: Dict<string, seq<string>>, n: nat)
    requires d.Valid() && n < |d.keys|
    ensures PairsUpTo(d, n) !! Tagged(d.keys[n], Elements(d.vals[d.keys[n]]))
  {
    hide PairsUpTo, Elements;
    forall p | p in Tagged(d.keys[n], Elements(d.vals[d.keys[n]])) ensures p !in PairsUpTo(d, n) {
      PairsUpToMembers(d, n, p);
    }
  }

  /** The grouping holds exactly the pairs seen. */
  ghost predicate Groups(d: Dict<string, seq<string>>, pairs: set<(string, string)>) {
    && d.Valid()
    && (forall k :: k in d.vals ==> d.vals[k] != [])
    && (forall k, x :: (k, x) in pairs <==> k in d.vals && x in d.vals[k])
  }

  lemma GroupsAppend(d: Dict<string, seq<string>>, pairs: set<(string, string)>, k: string, x: string)
    requires Groups(d, pairs)
    ensures Groups(d.Put(k, Items(d.vals, k) + [x]), pairs + {(k, x)})
  {
  }

  lemma GroupsTotals(d: Dict<string, seq<string>>, pairs: set<(string, string)>)
    requires Groups(d, pairs)
    ensures DistinctItems(d, |d.keys|) == |pairs|
    ensures |d.keys| == |Firsts(pairs)|
  {
    DistinctItemsCountPairs(d, |d.keys|);
    forall p ensures p in PairsUpTo(d, |d.keys|) <==> p in pairs {
      PairsUpToMembers(d, |d.keys|, p);
      assert p == (p.0, p.1);
    }
    assert PairsUpTo(d, |d.keys|) == pairs;
    DistinctSize(d.keys);
    SameClusters(d, pairs);
  }

  ghost function Firsts(pairs: set<(string, string)>): set<string> {
    set p | p in pairs :: p.0
  }

  lemma SameClusters(d: Dict<string, seq<string>>, pairs: set<(string, string)>)
    requires Groups(d, pairs)
    ensures Elements(d.keys) == Firsts(pairs)
  {
    forall k | k in d.vals ensures k in Firsts(pairs) {
      assert (k, d.vals[k][0]) in pairs;
    }
    forall p | p in pairs ensures p.0 in d.keys {
      assert p == (p.0, p.1);
    }
  }

  /* ---------- the report ---------- */

  ghost function Cell(table: map<string, map<string, nat>>, name: string, version: string): nat {
    if name in table && version in table[name] then table[name][version] else 0
  }

  /** Each cell of the table is the number of systems with that name and version. */
  ghost predicate Tallies(table: map<string, map<string, nat>>, labels: multiset<(string, string)>) {
    forall name, version :: Cell(table, name, version) == labels[(name, version)]
  }

  function Increment(table: map<string, map<string, nat>>, os: (string, string)): map<string, map<string, nat>> {
    var row := if os.0 in table then table[os.0] else map[];
    table[os.0 := row[os.1 := (if os.1 in row then row[os.1] else 0) + 1]]
  }

  /** The sum of the cells of a row, and of all rows. */
  ghost function RowSum(row: map<string, nat>): nat {
    if row == map[] then 0 else var v :| v in row; row[v] + RowSum(row - {v})
  }

  ghost function TableSum(table: map<string, map<string, nat>>): nat {
    if table == map[] then 0 else var k :| k in table; RowSum(table[k]) + TableSum(table - {k})
  }

  lemma {:induction false} RowWithout(row: map<string, nat>, v: string)
    requires v in row
    ensures RowSum(row) == row[v] + RowSum(row - {v})
  {
    var u :| u in row && RowSum(row) == row[u] + RowSum(row - {u});
    if u != v {
      RowWithout(row - {u}, v);
      RowWithout(row - {v}, u);
      assert row - {u} - {v} == row - {v} - {u};
    }
  }

  lemma {:induction false} TableWithout(table: map<string, map<string, nat>>, k: string)
    requires k in table
    ensures TableSum(table) == RowSum(table[k]) + TableSum(table - {k})
  {
    var u :| u in table && TableSum(table) == RowSum(table[u]) + TableSum(table - {u});
    if u != k {
      TableWithout(table - {u}, k);
      TableWithout(table - {k}, u);
      assert table - {u} - {k} == table - {k} - {u};
    }
  }

  /** One more system adds one to the sum of all cells. */
  lemma IncrementAddsOne(table: map<string, map<string, nat>>, os: (string, string))
    ensures TableSum(Increment(table, os)) == TableSum(table) + 1
  {
    var row := if os.0 in table then table[os.0] else map[];
    var after := Increment(table, os);
    var row' := after[os.0];
    TableWithout(after, os.0);
    assert after - {os.0} == table - {os.0};
    if os.0 in table {
      TableWithout(table, os.0);
    } else {
      assert table - {os.0} == table;
    }
    RowWithout(row', os.1);
    assert row' - {os.1} == row - {os.1};
    if os.1 in row {
      RowWithout(row, os.1);
    } else {
      assert row - {os.1} == row;
    }
  }

  lemma IncrementTallies(table: map<string, map<string, nat>>, labels: multiset<(string, string)>, os: (string, string))
    requires Tallies(table, labels)
    ensures Tallies(Increment(table, os), labels + multiset{os})
  {
  }

  lemma GroupsEmptyIff(d: Dict<string, seq<string>>, pairs: set<(string, string)>)
    requires Groups(d, pairs)
    ensures d.keys == [] <==> pairs == {}
  {
    SameClusters(d, pairs);
    if d.keys != [] {
      assert d.keys[0] in Elements(d.keys);
    }
    forall p | p in pairs ensures p.0 in Elements(d.keys) {
      assert p.0 in Firsts(pairs);
    }
  }

  lemma Nothing()
    ensures forall c :: Count([], c) == 0
    ensures Sockets([]) == 0 && OddSockets([]) == 0 && Dates([]) == [] && Vms([]) == {}
    ensures Tallies(map[], Labels([])) && Groups(Empty(), {}) && TableSum(map[]) == 0
  {
  }

  /** What one more system adds to each total. */
  lemma OneMore(fs: seq<System>, n: nat)
    requires n < |fs|
    ensures var f, before, after := fs[n], fs[..n], fs[..n + 1];
            && (forall c :: Count(after, c) == Count(before, c) + if ClassOf(f) == c then 1 else 0)
            && Sockets(after) == Sockets(before) + (if ClassOf(f) == NotRedhat then 0 else f.sockets)
            && OddSockets(after) == OddSockets(before) + (if ClassOf(f) == NotRedhat then 0 else f.sockets % 2)
            && Labels(after) == Labels(before) + multiset{Label(f)}
            && Dates(after) == Dates(before)
               + (if ClassOf(f) != NotRedhat && f.created.Some? then [f.created.value] else [])
            && Vms(after) == if OnVmware(f) then Vms(before) + {(f.cluster, f.host)} else Vms(before)
  {
    TakeSnoc(fs, n);
  }

  class AggregateReport {
    var instancesNotRedhat: nat
    var instancesVirtual: nat
    var instancesPhysical: nat
    var instancesHypervisor: nat
    var instancesUnknown: nat
    var socketPairs: nat
    var osByNameAndVersion: map<string, map<string, nat>>
    var systemCreationDateAverage: Option<int>
    var vmwareHosts: nat
    var vmwareVms: nat
    var vmwareVmToHostRatio: real

    ghost function InstancesOf(c: Class): nat
      reads this
    {
      match c
      case NotRedhat => instancesNotRedhat
      case Virtual => instancesVirtual
      case Physical => instancesPhysical
      case Hypervisor => instancesHypervisor
      case Unknown => instancesUnknown
    }

    method CountSystem(f: System)
      modifies this`instancesNotRedhat, this`instancesVirtual, this`instancesPhysical, this`instancesHypervisor,
               this`instancesUnknown, this`socketPairs
      ensures forall c :: InstancesOf(c) == old(InstancesOf(c)) + if ClassOf(f) == c then 1 else 0
      ensures var counted := f.isRedhat || OPENSHIFT in f.sourceTypes || SATELLITE in f.sourceTypes;
              && instancesNotRedhat == old(instancesNotRedhat) + (if counted then 0 else 1)
              && instancesVirtual ==
                 old(instancesVirtual) + (if counted && f.infrastructure == VIRTUALIZED then 1 else 0)
              && instancesPhysical ==
                 old(instancesPhysical) + (if counted && f.infrastructure == BARE_METAL then 1 else 0)
              && instancesHypervisor ==
                 old(instancesHypervisor) + (if counted && f.infrastructure == HYPERVISOR then 1 else 0)
              && instancesUnknown ==
                 old(instancesUnknown) + (if counted && f.infrastructure == UNCLASSIFIED then 1 else 0)
      ensures 2 * socketPairs == 2 * old(socketPairs) + if ClassOf(f) == NotRedhat then 0 else f.sockets + f.sockets % 2
    {
      if !f.isRedhat && OPENSHIFT !in f.sourceTypes && SATELLITE !in f.sourceTypes {
        instancesNotRedhat := instancesNotRedhat + 1;
        return;
      }
      match f.infrastructure {
        case VIRTUALIZED => instancesVirtual := instancesVirtual + 1;
        case BARE_METAL => instancesPhysical := instancesPhysical + 1;
        case HYPERVISOR => instancesHypervisor := instancesHypervisor + 1;
        case UNCLASSIFIED => instancesUnknown := instancesUnknown + 1;
      }
      if f.sockets != 0 {
        socketPairs := socketPairs + (f.sockets + 1) / 2;
      }
    }

    method AggregateFromSystemFingerprints(fs: seq<System>)
      modifies this
      ensures forall c :: InstancesOf(c) == old(InstancesOf(c)) + Count(fs, c)
      ensures 2 * socketPairs == 2 * old(socketPairs) + Sockets(fs) + OddSockets(fs)
      ensures Tallies(osByNameAndVersion, Labels(fs)) && TableSum(osByNameAndVersion) == |fs|
      ensures systemCreationDateAverage == AverageDate(Dates(fs))
      ensures if Vms(fs) == {} then
                vmwareHosts == old(vmwareHosts) && vmwareVms == old(vmwareVms)
                && vmwareVmToHostRatio == old(vmwareVmToHostRatio)
              else
                vmwareHosts == |Firsts(Vms(fs))| > 0 && vmwareVms == |Vms(fs)|
                && vmwareVmToHostRatio * (vmwareHosts as real) == vmwareVms as real
    {
      hide Count, Sockets, OddSockets, Dates, Labels, Vms, Groups, Tallies, Increment, Label, OnVmware, ClassOf,
           AverageDate, DistinctItems, Firsts, TableSum;
      Nothing();
      var table: map<string, map<string, nat>> := map[];
      var dates: seq<int> := [];
      var vms: Dict<string, seq<string>> := Empty();
      var i := 0;
      while i < |fs|
        invariant 0 <= i <= |fs|
        invariant forall c :: InstancesOf(c) == old(InstancesOf(c)) + Count(fs[..i], c)
        invariant 2 * socketPairs == 2 * old(socketPairs) + Sockets(fs[..i]) + OddSockets(fs[..i])
        invariant Tallies(table, Labels(fs[..i])) && TableSum(table) == i
        invariant dates == Dates(fs[..i])
        invariant vms.Valid() && Groups(vms, Vms(fs[..i]))
        invariant vmwareHosts == old(vmwareHosts) && vmwareVms == old(vmwareVms)
                  && vmwareVmToHostRatio == old(vmwareVmToHostRatio)
      {
        var f := fs[i];
        OneMore(fs, i);
        IncrementTallies(table, Labels(fs[..i]), Label(f));
        IncrementAddsOne(table, Label(f));
        table := Increment(table, Label(f));
        CountSystem(f);
        if ClassOf(f) != NotRedhat && f.created.Some? {
          dates := dates + [f.created.value];
        }
        if OnVmware(f) {
          GroupsAppend(vms, Vms(fs[..i]), f.cluster, f.host);
          vms := vms.Put(f.cluster, Items(vms.vals, f.cluster) + [f.host]);
        }
        i := i + 1;
      }
      assert fs[..i] == fs;
      osByNameAndVersion := table;
      systemCreationDateAverage := AverageDate(dates);
      GroupsTotals(vms, Vms(fs));
      GroupsEmptyIff(vms, Vms(fs));
      if vms.keys != [] {
        vmwareVms := DistinctItems(vms, |vms.keys|);
        vmwareHosts := |vms.keys|;
        vmwareVmToHostRatio := (vmwareVms as real) / (vmwareHosts as real);
      }
    }
  }
}
