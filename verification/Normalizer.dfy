/** Fact normalizers: fields declared in order with dependencies on earlier fields, and the
    normalization that runs them. */
module Normalizer {
  import opened OrderedDict

  datatype Value = Absent | Value(repr: string)

  /** The call of a normalizer: a single raw fact is positional, everything else is named. */
  datatype Args = Args(positional: Option<Value>, named: map<string, Value>)

  /** What a normalizer function may do. */
  datatype Normalized = Raises | Plain(value: Value) | Wrapped(result: FactResult)

  datatype FactResult = FactResult(value: Value, rawKeys: Option<set<string>>, hasError: bool)

  datatype Verdict = Accepts | Rejects | Breaks

  datatype Mapper = Mapper(
    rawKeys: seq<string>,
    dependencies: seq<string>,
    normalizer: Args -> Normalized,
    validators: seq<Value -> Verdict>)

  type Fields = Dict<string, Mapper>

  /* ---------- declarations ---------- */

  predicate DependenciesExist(fields: Fields, m: Mapper) {
    forall i :: 0 <= i < |m.dependencies| ==> m.dependencies[i] in fields.vals
  }

  method EnsureDependenciesExist(fields: Fields, m: Mapper) returns (ok: bool)
    ensures ok == DependenciesExist(fields, m)
  {
    for i := 0 to |m.dependencies|
      invariant forall j :: 0 <= j < i ==> m.dependencies[j] in fields.vals
    {
      if m.dependencies[i] !in fields.vals {
        return false;
      }
    }
    return true;
  }

  /** A refused declaration raises and leaves the fields alone; a name that is already
      declared keeps its position. */
  method Declare(fields: Fields, name: string, m: Mapper) returns (ok: bool, after: Fields)
    requires fields.Valid()
    ensures after.Valid()
    ensures ok == DependenciesExist(fields, m)
    ensures after == if ok then fields.Put(name, m) else fields
  {
    ok := EnsureDependenciesExist(fields, m);
    after := if ok then fields.Put(name, m) else fields;
  }

  /** Every dependency stands before the field that needs it. */
  ghost predicate Topological(fields: Fields)
    requires fields.Valid()
  {
    forall i :: 0 <= i < |fields.keys| ==> Grounded(fields, i, fields.vals[fields.keys[i]])
  }

  /** All dependencies of m are among the first i keys. */
  ghost predicate Grounded(fields: Fields, i: nat, m: Mapper)
    requires i <= |fields.keys|
  {
    forall d :: 0 <= d < |m.dependencies| ==> m.dependencies[d] in fields.keys[..i]
  }

  /** Declaring a fresh name keeps the order topological; redeclaring keeps it exactly when
      the new dependencies stand before the old position. */
  lemma DeclareKeepsOrderIff(fields: Fields, name: string, m: Mapper)
    requires fields.Valid() && Topological(fields) && DependenciesExist(fields, m)
    ensures name !in fields.vals ==> Topological(fields.Put(name, m))
    ensures forall p :: 0 <= p < |fields.keys| && fields.keys[p] == name ==>
              (Topological(fields.Put(name, m)) <==> Grounded(fields, p, m))
  {
    hide Topological, Grounded;
    if name !in fields.vals {
      FreshKeepsOrder(fields, name, m);
    }
    forall p | 0 <= p < |fields.keys| && fields.keys[p] == name
      ensures Topological(fields.Put(name, m)) <==> Grounded(fields, p, m)
    {
      RedeclaredOrder(fields, p, m);
    }
  }

  lemma FreshKeepsOrder(fields: Fields, name: string, m: Mapper)
    requires fields.Valid() && Topological(fields) && DependenciesExist(fields, m) && name !in fields.vals
    ensures Topological(fields.Put(name, m))
  {
    var after, n := fields.Put(name, m), |fields.keys|;
    assert after.keys[..n] == fields.keys;
    hide Dict.Valid, Distinct;
    forall i | 0 <= i < |after.keys| ensures Grounded(after, i, after.vals[after.keys[i]]) {
      if i < n {
        assert after.keys[..i] == fields.keys[..i];
        assert Grounded(fields, i, fields.vals[fields.keys[i]]);
      } else {
        assert forall d :: 0 <= d < |m.dependencies| ==> m.dependencies[d] in fields.keys;
      }
    }
  }

  lemma RedeclaredOrder(fields: Fields, p: nat, m: Mapper)
    requires fields.Valid() && Topological(fields) && p < |fields.keys|
    ensures Topological(fields.Put(fields.keys[p], m)) <==> Grounded(fields, p, m)
  {
    var after := fields.Put(fields.keys[p], m);
    assert after.keys == fields.keys && after.vals[after.keys[p]] == m;
    forall i | 0 <= i < |after.keys| && i != p ensures Grounded(after, i, after.vals[after.keys[i]]) {
      assert Grounded(fields, i, fields.vals[fields.keys[i]]);
    }
    assert Grounded(after, p, m) <==> Grounded(fields, p, m);
  }

  /** Accepted declarations only ever add fields whose dependencies are declared. */
  lemma DeclareKeepsClosed(fields: Fields, name: string, m: Mapper)
    requires fields.Valid() && Closed(fields) && DependenciesExist(fields, m)
    ensures Closed(fields.Put(name, m))
  {
    var after := fields.Put(name, m);
    forall k | k in after.vals ensures DependenciesExist(after, after.vals[k]) {
      if k != name {
        assert DependenciesExist(fields, fields.vals[k]);
      }
    }
  }

  datatype Declaration = Declaration(name: string, mapper: Mapper)

  /** A class body of declarations, all accepted, none repeating a name. */
  ghost predicate AcceptedFresh(fields: Fields, ds: seq<Declaration>)
    requires fields.Valid()
    decreases |ds|
  {
    ds == [] ||
    (&& ds[0].name !in fields.vals
     && DependenciesExist(fields, ds[0].mapper)
     && AcceptedFresh(fields.Put(ds[0].name, ds[0].mapper), ds[1..]))
  }

  function DeclareAll(fields: Fields, ds: seq<Declaration>): (r: Fields)
    requires fields.Valid()
    ensures r.Valid()
    decreases |ds|
  {
    if ds == [] then fields else DeclareAll(fields.Put(ds[0].name, ds[0].mapper), ds[1..])
  }

  /** Any accepted sequence of fresh declarations is in topological order. */
  lemma {:induction false} FreshDeclarationsOrdered(fields: Fields, ds: seq<Declaration>)
    requires fields.Valid() && Topological(fields) && Closed(fields) && AcceptedFresh(fields, ds)
    ensures Topological(DeclareAll(fields, ds)) && Closed(DeclareAll(fields, ds))
    decreases |ds|
  {
    if ds != [] {
      DeclareKeepsOrderIff(fields, ds[0].name, ds[0].mapper);
      DeclareKeepsClosed(fields, ds[0].name, ds[0].mapper);
      FreshDeclarationsOrdered(fields.Put(ds[0].name, ds[0].mapper), ds[1..]);
    }
  }

  /* ---------- one fact ---------- */

  const ERROR := FactResult(Absent, None, true)

  function RawValue(raws: map<string, Value>, key: string): Value {
    if key in raws then raws[key] else Absent
  }

  function DependencyValues(m: Mapper, done: map<string, Value>): map<string, Value>
    requires forall d :: 0 <= d < |m.dependencies| ==> m.dependencies[d] in done
  {
    map k | k in m.dependencies :: done[k]
  }

  function ArgsFor(m: Mapper, raws: map<string, Value>, done: map<string, Value>): Args
    requires forall d :: 0 <= d < |m.dependencies| ==> m.dependencies[d] in done
  {
    if |m.rawKeys| == 1 then Args(Some(RawValue(raws, m.rawKeys[0])), DependencyValues(m, done))
    else Args(None, DependencyValues(m, done) + map k | k in m.rawKeys :: RawValue(raws, k))
  }

  /** The raw facts a field uses, its direct dependencies included. */
  function KeysUsed(fields: Fields, m: Mapper): set<string>
    requires DependenciesExist(fields, m)
  {
    (set k | k in m.rawKeys) + set d, k | d in m.dependencies && k in fields.vals[d].rawKeys :: k
  }

  predicate AllAccept(vs: seq<Value -> Verdict>, v: Value) {
    forall i :: 0 <= i < |vs| ==> vs[i](v) == Accepts
  }

  /** A wrapped result may only name raw facts that the field uses. */
  predicate KeysExpected(fields: Fields, m: Mapper, n: Normalized)
    requires DependenciesExist(fields, m)
  {
    n.Wrapped? && n.result.rawKeys.Some? ==> n.result.rawKeys.value <= KeysUsed(fields, m)
  }

  function Checked(fields: Fields, m: Mapper, n: Normalized): FactResult
    requires DependenciesExist(fields, m)
  {
    match n
    case Raises => ERROR
    case Plain(v) => if AllAccept(m.validators, v) then FactResult(v, Some(KeysUsed(fields, m)), false) else ERROR
    case Wrapped(r) => if AllAccept(m.validators, r.value) then r else ERROR
  }

  datatype Outcome = Done(result: FactResult) | MissingDependency | UnexpectedKeys

  function NormalizeFact(fields: Fields, name: string, raws: map<string, Value>, done: map<string, Value>): Outcome
    requires name in fields.vals && DependenciesExist(fields, fields.vals[name])
  {
    var m := fields.vals[name];
    if exists d :: 0 <= d < |m.dependencies| && m.dependencies[d] !in done then MissingDependency
    else
      var n := m.normalizer(ArgsFor(m, raws, done));
      if KeysExpected(fields, m, n) then Done(Checked(fields, m, n)) else UnexpectedKeys
  }

  method RunValidators(vs: seq<Value -> Verdict>, v: Value) returns (ok: bool)
    ensures ok == AllAccept(vs, v)
  {
    for i := 0 to |vs|
      invariant forall j :: 0 <= j < i ==> vs[j](v) == Accepts
    {
      if vs[i](v) != Accepts {
        return false;
      }
    }
    return true;
  }

  method ApplyMapper(fields: Fields, name: string, raws: map<string, Value>, done: map<string, Value>)
    returns (out: Outcome)
    requires name in fields.vals && DependenciesExist(fields, fields.vals[name])
    ensures out == NormalizeFact(fields, name, raws, done)
  {
    var m := fields.vals[name];
    for d := 0 to |m.dependencies|
      invariant forall j :: 0 <= j < d ==> m.dependencies[j] in done
    {
      if m.dependencies[d] !in done {
        return MissingDependency;
      }
    }
    var n := m.normalizer(ArgsFor(m, raws, done));
    if n.Raises? {
      return Done(ERROR);
    }
    if !KeysExpected(fields, m, n) {
      return UnexpectedKeys;
    }
    var result := if n.Plain? then FactResult(n.value, Some(KeysUsed(fields, m)), false) else n.result;
    var valid := RunValidators(m.validators, result.value);
    out := Done(if valid then result else ERROR);
  }

  /** A single raw fact is the positional argument, several or none are named ones; dependencies
      are named arguments, and a raw fact that is not there is absent. */
  lemma CalledWith(m: Mapper, raws: map<string, Value>, done: map<string, Value>, k: string)
    requires forall d :: 0 <= d < |m.dependencies| ==> m.dependencies[d] in done
    ensures var a := ArgsFor(m, raws, done);
            if |m.rawKeys| == 1 then
              && a.positional == Some(if m.rawKeys[0] in raws then raws[m.rawKeys[0]] else Absent)
              && (k in a.named <==> k in m.dependencies) && (k in a.named ==> a.named[k] == done[k])
            else
              && a.positional == None && (k in a.named <==> k in m.dependencies || k in m.rawKeys)
              && (k in m.rawKeys ==> a.named[k] == if k in raws then raws[k] else Absent)
              && (k in m.dependencies && k !in m.rawKeys ==> a.named[k] == done[k])
  {
  }

  /** The raw facts that a field may name as its own: its own ones and those of its dependencies. */
  lemma UsesKey(fields: Fields, m: Mapper, k: string)
    requires DependenciesExist(fields, m)
    ensures k in KeysUsed(fields, m) <==>
            k in m.rawKeys || exists d :: d in m.dependencies && k in fields.vals[d].rawKeys
  {
  }

  /** What becomes of a field, by what its function and its validators do. */
  lemma FactOutcome(fields: Fields, name: string, raws: map<string, Value>, done: map<string, Value>)
    requires name in fields.vals && DependenciesExist(fields, fields.vals[name])
    requires forall d :: 0 <= d < |fields.vals[name].dependencies| ==> fields.vals[name].dependencies[d] in done
    ensures var m := fields.vals[name];
            NormalizeFact(fields, name, raws, done) ==
            match m.normalizer(ArgsFor(m, raws, done))
            case Raises => Done(FactResult(Absent, None, true))
            case Plain(v) =>
              if forall i :: 0 <= i < |m.validators| ==> m.validators[i](v) == Accepts
              then Done(FactResult(v, Some(KeysUsed(fields, m)), false)) else Done(FactResult(Absent, None, true))
            case Wrapped(r) =>
              if r.rawKeys.Some? && !(r.rawKeys.value <= KeysUsed(fields, m)) then UnexpectedKeys
              else if forall i :: 0 <= i < |m.validators| ==> m.validators[i](r.value) == Accepts
              then Done(r) else Done(FactResult(Absent, None, true))
  {
  }

  /* ---------- all facts ---------- */

  /** Every declared field's dependencies are declared, somewhere. */
  predicate Closed(fields: Fields) {
    forall k :: k in fields.vals ==> DependenciesExist(fields, fields.vals[k])
  }

  /** The results of the first n fields, or how far normalization came. */
  datatype Progress = Progress(results: map<string, FactResult>, stopped: bool, missing: bool)

  function ValuesOf(results: map<string, FactResult>): map<string, Value> {
    map k | k in results :: results[k].value
  }

  function NormalizeFirst(fields: Fields, raws: map<string, Value>, n: nat): (p: Progress)
    requires fields.Valid() && Closed(fields) && n <= |fields.keys|
    ensures !p.stopped ==> forall k :: k in p.results <==> k in fields.keys[..n]
  {
    if n == 0 then Progress(map[], false, false)
    else
      var p := NormalizeFirst(fields, raws, n - 1);
      if p.stopped then p
      else
        var k := fields.keys[n - 1];
        assert fields.keys[..n] == fields.keys[..n - 1] + [k];
        match NormalizeFact(fields, k, raws, ValuesOf(p.results))
        case Done(r) => Progress(p.results[k := r], false, false)
        case MissingDependency => Progress(p.results, true, true)
        case UnexpectedKeys => Progress(p.results, true, false)
  }

  lemma ValuesPut(results: map<string, FactResult>, k: string, r: FactResult)
    ensures ValuesOf(results[k := r]) == ValuesOf(results)[k := r.value]
    ensures ValuesOf(map[]) == map[]
  {
  }

  lemma FirstNone(fields: Fields, raws: map<string, Value>)
    requires fields.Valid() && Closed(fields)
    ensures NormalizeFirst(fields, raws, 0) == Progress(map[], false, false)
  {
  }

  lemma FieldClosed(fields: Fields, i: nat)
    requires fields.Valid() && Closed(fields) && i < |fields.keys|
    ensures fields.keys[i] in fields.vals && DependenciesExist(fields, fields.vals[fields.keys[i]])
  {
  }

  lemma FirstStep(fields: Fields, raws: map<string, Value>, i: nat)
    requires fields.Valid() && Closed(fields) && i < |fields.keys| && !NormalizeFirst(fields, raws, i).stopped
    ensures var p, k := NormalizeFirst(fields, raws, i), fields.keys[i];
            NormalizeFirst(fields, raws, i + 1) ==
            match NormalizeFact(fields, k, raws, ValuesOf(p.results))
            case Done(r) => Progress(p.results[k := r], false, false)
            case MissingDependency => Progress(p.results, true, true)
            case UnexpectedKeys => Progress(p.results, true, false)
  {
    hide NormalizeFact;
  }

  class BaseNormalizer {
    const fields: Fields
    const raws: map<string, Value>
    var normalized: map<string, Value>
    var metadata: map<string, FactResult>
    var ran: bool

    /** Nothing is stored before the first call; afterwards exactly the results of the run. */
    ghost predicate Valid()
      reads this
    {
      && fields.Valid() && Closed(fields)
      && if ran then
           var p := NormalizeFirst(fields, raws, |fields.keys|);
           metadata == p.results && normalized == ValuesOf(p.results)
         else normalized == map[] && metadata == map[]
    }

    constructor (fields: Fields, raws: map<string, Value>)
      requires fields.Valid() && Closed(fields)
      ensures Valid() && this.fields == fields && this.raws == raws && !ran
    {
      this.fields, this.raws, ran, normalized, metadata := fields, raws, false, map[], map[];
    }

    /** Runs the fields in declaration order; `ok` is false when an error escaped. A later call
        returns what is stored, without an error even if the first run was cut short. */
    method Normalize() returns (ok: bool, facts: map<string, Value>)
      requires Valid()
      modifies this
      ensures Valid() && ran && facts == normalized
      ensures old(ran) ==> ok && normalized == old(normalized) && metadata == old(metadata)
      ensures !old(ran) ==> ok == !NormalizeFirst(fields, raws, |fields.keys|).stopped
    {
      if ran {
        return true, normalized;
      }
      ok := RunFields();
      facts := normalized;
    }

    /** The loop over the fields. */
    method RunFields() returns (ok: bool)
      requires fields.Valid() && Closed(fields) && !ran && normalized == map[] && metadata == map[]
      modifies this
      ensures ran
      ensures var p := NormalizeFirst(fields, raws, |fields.keys|);
              ok == !p.stopped && metadata == p.results && normalized == ValuesOf(p.results)
    {
      hide NormalizeFact, NormalizeFirst, ValuesOf, Closed, Dict.Valid, DependenciesExist;
      FirstNone(fields, raws);
      ValuesPut(map[], "", ERROR);
      ran := true;
      for i := 0 to |fields.keys|
        invariant ran && metadata == NormalizeFirst(fields, raws, i).results && !NormalizeFirst(fields, raws, i).stopped
        invariant normalized == ValuesOf(metadata)
      {
        var k := fields.keys[i];
        FieldClosed(fields, i);
        var out := ApplyMapper(fields, k, raws, normalized);
        FirstStep(fields, raws, i);
        ValuesPut(metadata, k, if out.Done? then out.result else ERROR);
        if !out.Done? {
          StoppedStays(fields, raws, i + 1, |fields.keys|);
          return false;
        }
        normalized := normalized[k := out.result.value];
        metadata := metadata[k := out.result];
      }
      ok := true;
    }
  }

  lemma StoppedStays(fields: Fields, raws: map<string, Value>, i: nat, n: nat)
    requires fields.Valid() && Closed(fields) && i <= n <= |fields.keys| && NormalizeFirst(fields, raws, i).stopped
    ensures NormalizeFirst(fields, raws, n) == NormalizeFirst(fields, raws, i)
  {
    if i < n {
      StoppedStays(fields, raws, i, n - 1);
    }
  }

  /** A dependency is missing exactly when the field is not grounded in what came before. */
  lemma MissingIff(fields: Fields, raws: map<string, Value>, i: nat)
    requires fields.Valid() && Closed(fields) && i < |fields.keys| && !NormalizeFirst(fields, raws, i).stopped
    ensures DependenciesExist(fields, fields.vals[fields.keys[i]])
    ensures var done := ValuesOf(NormalizeFirst(fields, raws, i).results);
            NormalizeFact(fields, fields.keys[i], raws, done).MissingDependency?
            <==> !Grounded(fields, i, fields.vals[fields.keys[i]])
  {
    hide NormalizeFirst, ArgsFor, Checked, KeysExpected;
    FieldClosed(fields, i);
  }

  /** In topological order no dependency is ever missing. */
  lemma {:induction false} OrderedNeverMisses(fields: Fields, raws: map<string, Value>, n: nat)
    requires fields.Valid() && Closed(fields) && Topological(fields) && n <= |fields.keys|
    ensures !NormalizeFirst(fields, raws, n).missing
  {
    hide NormalizeFact, NormalizeFirst, Grounded, Closed;
    if n == 0 {
      FirstNone(fields, raws);
    } else {
      OrderedNeverMisses(fields, raws, n - 1);
      if NormalizeFirst(fields, raws, n - 1).stopped {
        StoppedStays(fields, raws, n - 1, n);
      } else {
        MissingIff(fields, raws, n - 1);
        FirstStep(fields, raws, n - 1);
      }
    }
  }

  /** And normalization only gets through if the order is topological. */
  lemma {:induction false} CompleteOnlyIfOrdered(fields: Fields, raws: map<string, Value>, n: nat)
    requires fields.Valid() && Closed(fields) && n <= |fields.keys| && !NormalizeFirst(fields, raws, n).stopped
    ensures forall i :: 0 <= i < n ==> Grounded(fields, i, fields.vals[fields.keys[i]])
  {
    hide NormalizeFact, NormalizeFirst, Grounded, Closed;
    if n > 0 {
      RunsOn(fields, raws, n);
      CompleteOnlyIfOrdered(fields, raws, n - 1);
      MissingIff(fields, raws, n - 1);
      FirstStep(fields, raws, n - 1);
    }
  }

  /** If no error escapes, the order is topological and every field has exactly one result,
      whatever its normalizer and validators did. */
  lemma EveryFieldNormalized(fields: Fields, raws: map<string, Value>)
    requires fields.Valid() && Closed(fields) && !NormalizeFirst(fields, raws, |fields.keys|).stopped
    ensures Topological(fields)
    ensures NormalizeFirst(fields, raws, |fields.keys|).results.Keys == fields.vals.Keys
  {
    CompleteOnlyIfOrdered(fields, raws, |fields.keys|);
    assert fields.keys[..|fields.keys|] == fields.keys;
  }

  /** In a run that no error cuts short, the result of a field is what its function and validators
      make of the raw facts and of the values of the fields before it. */
  lemma {:induction false} ResultOfField(fields: Fields, raws: map<string, Value>, n: nat, i: nat)
    requires fields.Valid() && Closed(fields) && i < n <= |fields.keys| && !NormalizeFirst(fields, raws, n).stopped
    ensures !NormalizeFirst(fields, raws, i).stopped && fields.keys[i] in NormalizeFirst(fields, raws, n).results
    ensures var k, done := fields.keys[i], ValuesOf(NormalizeFirst(fields, raws, i).results);
            && DependenciesExist(fields, fields.vals[k])
            && NormalizeFact(fields, k, raws, done) == Done(NormalizeFirst(fields, raws, n).results[k])
  {
    hide NormalizeFact, NormalizeFirst, Closed, DependenciesExist, ValuesOf;
    RunsOn(fields, raws, n);
    FieldClosed(fields, i);
    FieldClosed(fields, n - 1);
    FirstStep(fields, raws, n - 1);
    if i < n - 1 {
      ResultOfField(fields, raws, n - 1, i);
      assert fields.keys[i] != fields.keys[n - 1];
    }
  }

  /* ---------- a redeclared field ---------- */

  function Constant(dependencies: seq<string>): Mapper {
    Mapper([], dependencies, _ => Plain(Value("v")), [])
  }

  /** Three independent fields. */
  function Declared(w: string, x: string, y: string): (f: Fields)
    ensures f.Valid()
  {
    Empty<string, Mapper>().Put(w, Constant([])).Put(x, Constant([])).Put(y, Constant([]))
  }

  /** The second one is declared again, now with a dependency on the third. */
  function Redeclared(w: string, x: string, y: string): (f: Fields)
    ensures f.Valid()
  {
    Declared(w, x, y).Put(x, Constant([y]))
  }

  lemma RedeclaredFields(w: string, x: string, y: string)
    requires Distinct([w, x, y])
    ensures Declared(w, x, y).keys == Redeclared(w, x, y).keys == [w, x, y]
    ensures Declared(w, x, y).vals == map[w := Constant([]), x := Constant([]), y := Constant([])]
    ensures Redeclared(w, x, y).vals == map[w := Constant([]), x := Constant([y]), y := Constant([])]
  {
    hide Distinct, Constant, Dict.Valid;
    NamesApart(w, x, y);
    ThreePuts(w, x, y, Constant([]));
    assert (map[w := Constant([]), x := Constant([]), y := Constant([])])[x := Constant([y])]
        == map[w := Constant([]), x := Constant([y]), y := Constant([])];
  }

  lemma NamesApart(w: string, x: string, y: string)
    requires Distinct([w, x, y])
    ensures w != x && x != y && w != y
  {
    assert [w, x, y][0] != [w, x, y][1] && [w, x, y][1] != [w, x, y][2] && [w, x, y][0] != [w, x, y][2];
  }

  /** All declarations are accepted, but the field keeps its place before its dependency. */
  lemma RedeclaredIsAccepted(w: string, x: string, y: string)
    requires Distinct([w, x, y])
    ensures DependenciesExist(Declared(w, x, y), Constant([y])) && Topological(Declared(w, x, y))
    ensures Closed(Redeclared(w, x, y)) && !Topological(Redeclared(w, x, y))
  {
    RedeclaredFields(w, x, y);
    hide Declared, Redeclared;
    RedeclaredUngrounded(w, x, y);
    var g := Redeclared(w, x, y);
    assert g.keys[1] == x && !Grounded(g, 1, g.vals[g.keys[1]]);
  }

  lemma NotYetDeclared(w: string, x: string, y: string)
    requires Distinct([w, x, y])
    ensures [w, x, y][..1] == [w] && y !in [w, x, y][..1]
  {
    assert [w, x, y][0] != [w, x, y][2];
  }

  /** Normalization does the first field. */
  lemma RedeclaredFirst(w: string, x: string, y: string, raws: map<string, Value>)
    requires Distinct([w, x, y])
    ensures Closed(Redeclared(w, x, y)) && Redeclared(w, x, y).keys == [w, x, y]
    ensures NormalizeFirst(Redeclared(w, x, y), raws, 1)
            == Progress(map[w := FactResult(Value("v"), Some({}), false)], false, false)
  {
    hide Redeclared, Closed, NormalizeFirst, NormalizeFact, DependenciesExist, Distinct, Constant, Dict.Valid, ValuesOf;
    RedeclaredIsAccepted(w, x, y);
    RedeclaredFields(w, x, y);
    NamesApart(w, x, y);
    var f := Redeclared(w, x, y);
    FirstNone(f, raws);
    ConstantDone(f, w, raws);
    ValuesPut(map[], w, ERROR);
    FirstStep(f, raws, 0);
  }

  /** And misses the dependency of the second. */
  lemma RedeclaredMisses(w: string, x: string, y: string, raws: map<string, Value>)
    requires Distinct([w, x, y])
    ensures Closed(Redeclared(w, x, y))
    ensures NormalizeFirst(Redeclared(w, x, y), raws, |Redeclared(w, x, y).keys|)
            == Progress(map[w := FactResult(Value("v"), Some({}), false)], true, true)
  {
    hide Redeclared, Closed, NormalizeFirst, NormalizeFact, DependenciesExist, Distinct, Grounded;
    RedeclaredFirst(w, x, y, raws);
    var f := Redeclared(w, x, y);
    RedeclaredUngrounded(w, x, y);
    MissingIff(f, raws, 1);
    FirstStep(f, raws, 1);
    StoppedStays(f, raws, 2, 3);
  }

  lemma RedeclaredUngrounded(w: string, x: string, y: string)
    requires Distinct([w, x, y])
    ensures Redeclared(w, x, y).keys == [w, x, y] && x in Redeclared(w, x, y).vals
    ensures !Grounded(Redeclared(w, x, y), 1, Redeclared(w, x, y).vals[x])
  {
    hide Redeclared, Distinct;
    RedeclaredFields(w, x, y);
    NamesApart(w, x, y);
    NotYetDeclared(w, x, y);
    assert Redeclared(w, x, y).vals[x].dependencies[0] == y;
  }

  lemma ConstantDone(f: Fields, w: string, raws: map<string, Value>)
    requires w in f.vals && f.vals[w] == Constant([])
    ensures DependenciesExist(f, f.vals[w])
    ensures NormalizeFact(f, w, raws, map[]) == Done(FactResult(Value("v"), Some({}), false))
  {
    assert KeysUsed(f, f.vals[w]) == {};
  }

  /** The first call fails. The second returns the facts so far, without an error. */
  method PartialFactsReturned(w: string, x: string, y: string, raws: map<string, Value>)
    returns (first: bool, again: bool, facts: map<string, Value>)
    requires Distinct([w, x, y])
    ensures !first && again && facts == map[w := Value("v")]
  {
    hide NormalizeFirst, Closed, Redeclared, Dict.Valid;
    RedeclaredIsAccepted(w, x, y);
    RedeclaredMisses(w, x, y, raws);
    var normalizer := new BaseNormalizer(Redeclared(w, x, y), raws);
    first, facts := normalizer.Normalize();
    again, facts := normalizer.Normalize();
  }

  /* ---------- one field cannot harm another ---------- */

  /** Two field tables that differ at most in the definition of the field x. */
  ghost predicate DifferAt(f: Fields, g: Fields, x: string)
    requires f.Valid() && g.Valid()
  {
    && f.keys == g.keys
    && forall k :: k in f.vals && k in g.vals && k != x ==> f.vals[k] == g.vals[k]
  }

  /** The first n fields that are x or depend on x, directly or not. */
  function Tainted(f: Fields, x: string, n: nat): (t: set<string>)
    requires f.Valid() && n <= |f.keys|
  {
    if n == 0 then {}
    else
      var t := Tainted(f, x, n - 1);
      var k := f.keys[n - 1];
      if k == x || exists d :: 0 <= d < |f.vals[k].dependencies| && f.vals[k].dependencies[d] in t then t + {k} else t
  }

  lemma TaintsItself(f: Fields, x: string, n: nat)
    requires f.Valid() && n <= |f.keys| && x in f.keys[..n]
    ensures x in Tainted(f, x, n)
  {
    if f.keys[n - 1] != x {
      TakeSnoc(f.keys, n - 1);
      TaintsItself(f, x, n - 1);
    }
  }

  /** However one field is defined and whatever its normalizer or validators do, a field that does not depend on it
      gets the same result. */
  lemma {:induction false} OtherFieldsUnaffected(f: Fields, g: Fields, x: string, raws: map<string, Value>, n: nat,
                                                 k: string)
    requires f.Valid() && g.Valid() && Closed(f) && Closed(g) && DifferAt(f, g, x) && n <= |f.keys|
    requires !NormalizeFirst(f, raws, n).stopped && !NormalizeFirst(g, raws, n).stopped
    requires k in f.keys[..n] && k !in Tainted(f, x, n)
    ensures g.keys == f.keys && AgreeOn(f, g, raws, n, k)
  {
    hide NormalizeFact, NormalizeFirst, Closed, DifferAt, AgreeOn, Tainted, Dict.Valid, DependenciesExist, Distinct;
    SameKeys(f, g, x);
    FieldClosed(f, n - 1);
    RunsOn(f, raws, n);
    RunsOn(g, raws, n);
    TakeSnoc(f.keys, n - 1);
    TaintedStep(f, x, n - 1);
    if k == f.keys[n - 1] {
      LastDependencies(f, x, raws, n - 1);
      forall d | 0 <= d < |f.vals[k].dependencies| ensures AgreeOn(f, g, raws, n - 1, f.vals[k].dependencies[d]) {
        OtherFieldsUnaffected(f, g, x, raws, n - 1, f.vals[k].dependencies[d]);
      }
      LastUnaffected(f, g, x, raws, n - 1);
    } else {
      OtherFieldsUnaffected(f, g, x, raws, n - 1, k);
      AgreementKept(f, g, raws, n - 1, k);
    }
  }

  lemma TaintedStep(f: Fields, x: string, n: nat)
    requires f.Valid() && n < |f.keys|
    ensures forall k :: k in Tainted(f, x, n) ==> k in Tainted(f, x, n + 1)
  {
  }

  /** The dependencies of an untainted field that was reached come earlier and are untainted. */
  lemma LastDependencies(f: Fields, x: string, raws: map<string, Value>, n: nat)
    requires f.Valid() && Closed(f) && n < |f.keys| && !NormalizeFirst(f, raws, n + 1).stopped
    requires !NormalizeFirst(f, raws, n).stopped && f.keys[n] !in Tainted(f, x, n + 1)
    ensures f.keys[n] != x
    ensures var ds := f.vals[f.keys[n]].dependencies;
            forall d :: 0 <= d < |ds| ==> ds[d] != x && ds[d] in f.keys[..n] && ds[d] !in Tainted(f, x, n)
  {
    hide NormalizeFact, NormalizeFirst, Closed;
    MissingIff(f, raws, n);
    FirstStep(f, raws, n);
    if x in f.keys[..n] {
      TaintsItself(f, x, n);
    }
  }

  lemma AgreementKept(f: Fields, g: Fields, raws: map<string, Value>, n: nat, k: string)
    requires f.Valid() && g.Valid() && Closed(f) && Closed(g) && f.keys == g.keys && n < |f.keys| && k != f.keys[n]
    requires !NormalizeFirst(f, raws, n + 1).stopped && !NormalizeFirst(g, raws, n + 1).stopped
    requires AgreeOn(f, g, raws, n, k)
    ensures AgreeOn(f, g, raws, n + 1, k)
  {
    hide NormalizeFirst, Closed;
    EarlierKept(f, raws, n, k);
    EarlierKept(g, raws, n, k);
  }

  /** Both runs have the same result for k among their first n fields. */
  ghost predicate AgreeOn(f: Fields, g: Fields, raws: map<string, Value>, n: nat, k: string)
    requires f.Valid() && g.Valid() && Closed(f) && Closed(g) && n <= |f.keys| && n <= |g.keys|
  {
    var a, b := NormalizeFirst(f, raws, n).results, NormalizeFirst(g, raws, n).results;
    k in a && k in b && a[k] == b[k]
  }

  lemma SameKeys(f: Fields, g: Fields, x: string)
    requires f.Valid() && g.Valid() && DifferAt(f, g, x)
    ensures g.keys == f.keys
  {
  }

  lemma EarlierKept(f: Fields, raws: map<string, Value>, n: nat, k: string)
    requires f.Valid() && Closed(f) && n < |f.keys| && !NormalizeFirst(f, raws, n + 1).stopped && k != f.keys[n]
    requires k in NormalizeFirst(f, raws, n).results
    ensures k in NormalizeFirst(f, raws, n + 1).results
    ensures NormalizeFirst(f, raws, n + 1).results[k] == NormalizeFirst(f, raws, n).results[k]
  {
    hide NormalizeFact, NormalizeFirst, Closed;
    RunsOn(f, raws, n + 1);
    FirstStep(f, raws, n);
  }

  lemma LastUnaffected(f: Fields, g: Fields, x: string, raws: map<string, Value>, n: nat)
    requires f.Valid() && g.Valid() && Closed(f) && Closed(g) && DifferAt(f, g, x)
    requires n < |f.keys| && n < |g.keys| && f.keys[n] != x
    requires !NormalizeFirst(f, raws, n + 1).stopped && !NormalizeFirst(g, raws, n + 1).stopped
    requires forall d :: 0 <= d < |f.vals[f.keys[n]].dependencies| ==>
               f.vals[f.keys[n]].dependencies[d] != x && AgreeOn(f, g, raws, n, f.vals[f.keys[n]].dependencies[d])
    ensures AgreeOn(f, g, raws, n + 1, f.keys[n])
  {
    hide NormalizeFact, NormalizeFirst, Closed, DifferAt, ValuesOf;
    SameKeys(f, g, x);
    RunsOn(f, raws, n + 1);
    RunsOn(g, raws, n + 1);
    FirstStep(f, raws, n);
    FirstStep(g, raws, n);
    SameFact(f, g, x, f.keys[n], raws, NormalizeFirst(f, raws, n).results, NormalizeFirst(g, raws, n).results);
  }

  lemma RunsOn(fields: Fields, raws: map<string, Value>, n: nat)
    requires fields.Valid() && Closed(fields) && 0 < n <= |fields.keys| && !NormalizeFirst(fields, raws, n).stopped
    ensures !NormalizeFirst(fields, raws, n - 1).stopped
  {
  }

  lemma SameFact(f: Fields, g: Fields, x: string, k: string, raws: map<string, Value>,
                 df: map<string, FactResult>, dg: map<string, FactResult>)
    requires f.Valid() && g.Valid() && Closed(f) && Closed(g) && DifferAt(f, g, x) && k in f.vals && k in g.vals
             && k != x
    requires forall d :: 0 <= d < |f.vals[k].dependencies| ==>
               f.vals[k].dependencies[d] != x && f.vals[k].dependencies[d] in df && f.vals[k].dependencies[d] in dg
               && df[f.vals[k].dependencies[d]] == dg[f.vals[k].dependencies[d]]
    ensures DependenciesExist(f, f.vals[k]) && DependenciesExist(g, g.vals[k])
    ensures NormalizeFact(f, k, raws, ValuesOf(df)) == NormalizeFact(g, k, raws, ValuesOf(dg))
  {
    hide KeysUsed, DependencyValues, Dict.Valid, Closed;
    SameKeysUsed(f, g, x, k);
    SameDependencies(f.vals[k], df, dg);
  }

  lemma SameDependencies(m: Mapper, df: map<string, FactResult>, dg: map<string, FactResult>)
    requires forall d :: 0 <= d < |m.dependencies| ==>
               && m.dependencies[d] in df && m.dependencies[d] in dg && df[m.dependencies[d]] == dg[m.dependencies[d]]
    ensures forall d :: 0 <= d < |m.dependencies| ==>
              m.dependencies[d] in ValuesOf(df) && m.dependencies[d] in ValuesOf(dg)
    ensures DependencyValues(m, ValuesOf(df)) == DependencyValues(m, ValuesOf(dg))
  {
  }

  lemma SameKeysUsed(f: Fields, g: Fields, x: string, k: string)
    requires f.Valid() && g.Valid() && Closed(f) && Closed(g) && DifferAt(f, g, x) && k in f.vals && k in g.vals
             && k != x
    requires forall d :: 0 <= d < |f.vals[k].dependencies| ==> f.vals[k].dependencies[d] != x
    ensures f.vals[k] == g.vals[k] && DependenciesExist(f, f.vals[k]) && DependenciesExist(g, g.vals[k])
    ensures KeysUsed(f, f.vals[k]) == KeysUsed(g, f.vals[k])
  {
  }
}
