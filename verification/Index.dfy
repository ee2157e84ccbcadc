/** First-wins indexes over a list of fingerprints. A list-valued fact claims one index
    entry per element; every fingerprint is tagged with a fresh global id. */
module Index {
  import opened OrderedDict
  import opened Fingerprints

  /** The index entries a fact value asks for. */
  function KeysOf(v: Value): seq<Scalar> {
    if !Truthy(v) then [] else match v case Null => [] case One(x) => [x] case Many(items) => items
  }

  function Claims(fp: Fingerprint, name: string): seq<Scalar> {
    KeysOf(Get(fp, Fact(name)))
  }

  /** A text, a number or an id claims itself unless it is falsy, a list claims its elements one by
      one, and a fact that is null or missing claims nothing. */
  lemma ClaimsAre(fp: Fingerprint, name: string)
    ensures name !in fp.facts ==> Claims(fp, name) == []
    ensures name in fp.facts ==>
              Claims(fp, name) ==
              match fp.facts[name]
              case Null => []
              case One(x) => if x == Text("") || x == Number(0) then [] else [x]
              case Many(items) => items
  {
  }

  function Tag(fp: Fingerprint, id: nat): Fingerprint {
    fp.(gid := Some(id))
  }

  /** v is the fingerprint of `fps` that its global id names. */
  predicate FromList(v: Fingerprint, fps: seq<Fingerprint>, start: nat) {
    && v.gid.Some?
    && start <= v.gid.value < start + |fps|
    && v == Tag(fps[v.gid.value - start], v.gid.value)
  }

  /** A longer list still holds what the shorter one held. */
  lemma ListedMore(r: Index, fps: seq<Fingerprint>, start: nat)
    requires fps != []
    requires forall x :: x in r.dict.vals ==> FromList(r.dict.vals[x], fps[..|fps| - 1], start)
    requires forall i :: 0 <= i < |r.noKey| ==> FromList(r.noKey[i], fps[..|fps| - 1], start)
    ensures forall x :: x in r.dict.vals ==> FromList(r.dict.vals[x], fps, start)
    ensures forall i :: 0 <= i < |r.noKey| ==> FromList(r.noKey[i], fps, start)
    ensures FromList(Tag(fps[|fps| - 1], start + |fps| - 1), fps, start)
  {
    forall v | FromList(v, fps[..|fps| - 1], start) ensures FromList(v, fps, start) {
    }
  }

  function ClaimKeys(d: Dict<Scalar, Fingerprint>, ks: seq<Scalar>, v: Fingerprint): (r: Dict<Scalar, Fingerprint>)
    requires d.Valid()
    ensures r.Valid()
    ensures forall x :: x in r.vals <==> x in d.vals || x in ks
    ensures forall x :: x in r.vals ==> r.vals[x] == if x in d.vals then d.vals[x] else v
  {
    if ks == [] then d
    else
      var r := ClaimKeys(d, ks[..|ks| - 1], v);
      if ks[|ks| - 1] in r.vals then r else r.Put(ks[|ks| - 1], v)
  }

  datatype Index = Index(dict: Dict<Scalar, Fingerprint>, noKey: seq<Fingerprint>)

  function IndexScan(name: string, fps: seq<Fingerprint>, start: nat): (r: Index)
    ensures r.dict.Valid()
    ensures forall x :: x in r.dict.vals ==> FromList(r.dict.vals[x], fps, start)
    ensures forall i :: 0 <= i < |r.noKey| ==> FromList(r.noKey[i], fps, start)
  {
    if fps == [] then Index(Empty(), [])
    else
      var r := IndexScan(name, fps[..|fps| - 1], start);
      ListedMore(r, fps, start);
      var fp := fps[|fps| - 1];
      var tagged := Tag(fp, start + |fps| - 1);
      if Claims(fp, name) == [] then r.(noKey := r.noKey + [tagged])
      else r.(dict := ClaimKeys(r.dict, Claims(fp, name), tagged))
  }

  /** A key that is already claimed keeps its first claimant. */
  method ClaimAll(d: Dict<Scalar, Fingerprint>, ks: seq<Scalar>, v: Fingerprint) returns (r: Dict<Scalar, Fingerprint>)
    requires d.Valid()
    ensures r == ClaimKeys(d, ks, v)
  {
    r := d;
    for j := 0 to |ks|
      invariant r.Valid() && r == ClaimKeys(d, ks[..j], v)
    {
      TakeSnoc(ks, j);
      if ks[j] !in r.vals {
        r := r.Put(ks[j], v);
      }
    }
    assert ks[..|ks|] == ks;
  }

  lemma ScanNext(name: string, fps: seq<Fingerprint>, i: nat, start: nat)
    requires i < |fps|
    ensures var r, tagged := IndexScan(name, fps[..i], start), Tag(fps[i], start + i);
            IndexScan(name, fps[..i + 1], start) ==
            if Claims(fps[i], name) == [] then r.(noKey := r.noKey + [tagged])
            else r.(dict := ClaimKeys(r.dict, Claims(fps[i], name), tagged))
  {
    hide Claims, FromList, ClaimKeys;
    TakeSnoc(fps, i);
  }

  /** `uuid4` is a counter; the next unused id is returned. */
  method CreateIndex(name: string, fps: seq<Fingerprint>, start: nat) returns (r: Index, next: nat)
    ensures r == IndexScan(name, fps, start) && next == start + |fps|
  {
    hide IndexScan, ClaimKeys, FromList, Get;
    EmptyIndex(name, start);
    var dict: Dict<Scalar, Fingerprint> := Empty();
    var noKey: seq<Fingerprint> := [];
    next := start;
    for i := 0 to |fps|
      invariant next == start + i
      invariant Index(dict, noKey) == IndexScan(name, fps[..i], start)
    {
      ScanNext(name, fps, i, start);
      SameValue(fps[i], next, name);
      var tagged := Tag(fps[i], next);
      next := next + 1;
      var value := Get(tagged, Fact(name));
      if Truthy(value) {
        KeysPresent(value);
        dict := ClaimAll(dict, KeysOf(value), tagged);
      } else {
        noKey := noKey + [tagged];
      }
    }
    assert fps[..|fps|] == fps;
    r := Index(dict, noKey);
  }

  lemma EmptyIndex(name: string, start: nat)
    ensures IndexScan(name, [], start) == Index(Empty(), [])
  {
  }

  lemma SameValue(fp: Fingerprint, id: nat, name: string)
    ensures Get(Tag(fp, id), Fact(name)) == Get(fp, Fact(name))
  {
  }

  lemma KeysPresent(v: Value)
    requires Truthy(v)
    ensures KeysOf(v) != []
  {
  }

  /* ---------- who owns a key, and who is lost ---------- */

  /** The first fingerprint that claims x. */
  function Owner(name: string, fps: seq<Fingerprint>, x: Scalar): (o: Option<nat>)
    ensures o.Some? ==> o.value < |fps| && x in Claims(fps[o.value], name)
    ensures o.Some? ==> forall j :: 0 <= j < o.value ==> x !in Claims(fps[j], name)
    ensures o.None? ==> forall j :: 0 <= j < |fps| ==> x !in Claims(fps[j], name)
  {
    if fps == [] then None
    else
      var o := Owner(name, fps[..|fps| - 1], x);
      if o.Some? then o else if x in Claims(fps[|fps| - 1], name) then Some(|fps| - 1) else None
  }

  /** What one more fingerprint changes for one key. */
  lemma IndexStep(name: string, fps: seq<Fingerprint>, start: nat, x: Scalar)
    requires fps != []
    ensures var d, d' := IndexScan(name, fps[..|fps| - 1], start).dict.vals, IndexScan(name, fps, start).dict.vals;
            && (x in d' <==> x in d || x in Claims(fps[|fps| - 1], name))
            && (x in d ==> d'[x] == d[x])
            && (x in d' && x !in d ==> d'[x] == Tag(fps[|fps| - 1], start + |fps| - 1))
  {
    hide Claims, FromList;
  }

  lemma {:induction false} IndexedByOwner(name: string, fps: seq<Fingerprint>, start: nat, x: Scalar)
    ensures x in IndexScan(name, fps, start).dict.vals <==> Owner(name, fps, x).Some?
    ensures Owner(name, fps, x).Some? ==>
              var o := Owner(name, fps, x).value;
              IndexScan(name, fps, start).dict.vals[x] == Tag(fps[o], start + o)
  {
    hide Claims, FromList, IndexScan, Tag;
    if fps == [] {
      NothingIndexed(name, start);
    } else {
      IndexStep(name, fps, start, x);
      IndexedByOwner(name, fps[..|fps| - 1], start, x);
    }
  }

  lemma NothingIndexed(name: string, start: nat)
    ensures IndexScan(name, [], start).dict.vals == map[]
  {
  }

  /** A fingerprint reaches the index: it has no key, or it owns one of its keys. */
  ghost predicate Survives(name: string, fps: seq<Fingerprint>, i: nat)
    requires i < |fps|
  {
    Claims(fps[i], name) == [] || exists x :: x in Claims(fps[i], name) && Owner(name, fps, x) == Some(i)
  }

  /** It has keys and an earlier fingerprint claims every one of them. */
  ghost predicate Shadowed(name: string, fps: seq<Fingerprint>, i: nat)
    requires i < |fps|
  {
    && Claims(fps[i], name) != []
    && forall x :: x in Claims(fps[i], name) ==> exists j :: 0 <= j < i && x in Claims(fps[j], name)
  }

  ghost predicate Holds(fps: seq<Fingerprint>, id: nat) {
    exists j :: 0 <= j < |fps| && fps[j].gid == Some(id)
  }

  /** The global id occurs in the index. */
  ghost predicate Occurs(r: Index, id: nat) {
    (exists x :: x in r.dict.vals && r.dict.vals[x].gid == Some(id)) || Holds(r.noKey, id)
  }

  lemma HoldsSnoc(fps: seq<Fingerprint>, fp: Fingerprint, id: nat)
    ensures Holds(fps + [fp], id) <==> Holds(fps, id) || fp.gid == Some(id)
  {
    if Holds(fps, id) {
      var j :| 0 <= j < |fps| && fps[j].gid == Some(id);
      assert (fps + [fp])[j] == fps[j];
    }
    assert (fps + [fp])[|fps|] == fp;
  }

  lemma {:induction false} NoKeyHolds(name: string, fps: seq<Fingerprint>, start: nat, i: nat)
    requires i < |fps|
    ensures Holds(IndexScan(name, fps, start).noKey, start + i) <==> Claims(fps[i], name) == []
  {
    hide Claims, IndexScan, FromList, Holds;
    var front, last := fps[..|fps| - 1], |fps| - 1;
    NoKeyStep(name, fps, start);
    HoldsSnoc(IndexScan(name, front, start).noKey, Tag(fps[last], start + last), start + i);
    if i < last {
      NoKeyHolds(name, front, start, i);
    } else {
      NotYetHeld(name, front, start, start + last);
    }
  }

  lemma NoKeyStep(name: string, fps: seq<Fingerprint>, start: nat)
    requires fps != []
    ensures var before, last := IndexScan(name, fps[..|fps| - 1], start).noKey, |fps| - 1;
            IndexScan(name, fps, start).noKey ==
            if Claims(fps[last], name) == [] then before + [Tag(fps[last], start + last)] else before
  {
    hide Claims, FromList;
  }

  lemma NotYetHeld(name: string, fps: seq<Fingerprint>, start: nat, id: nat)
    requires id >= start + |fps|
    ensures !Holds(IndexScan(name, fps, start).noKey, id)
  {
    hide IndexScan, Claims;
  }

  lemma OwnedEntry(name: string, fps: seq<Fingerprint>, start: nat, x: Scalar, i: nat)
    requires i < |fps|
    ensures (x in IndexScan(name, fps, start).dict.vals && IndexScan(name, fps, start).dict.vals[x].gid
             == Some(start + i))
            <==> Owner(name, fps, x) == Some(i)
  {
    hide Claims, FromList, IndexScan;
    IndexedByOwner(name, fps, start, x);
  }

  lemma SurvivesIffOccurs(name: string, fps: seq<Fingerprint>, start: nat, i: nat)
    requires i < |fps|
    ensures Occurs(IndexScan(name, fps, start), start + i) <==> Survives(name, fps, i)
  {
    hide Claims, FromList, IndexScan;
    var r := IndexScan(name, fps, start);
    NoKeyHolds(name, fps, start, i);
    if Survives(name, fps, i) && Claims(fps[i], name) != [] {
      var x :| x in Claims(fps[i], name) && Owner(name, fps, x) == Some(i);
      OwnedEntry(name, fps, start, x, i);
      assert x in r.dict.vals && r.dict.vals[x].gid == Some(start + i);
    }
    if x :| x in r.dict.vals && r.dict.vals[x].gid == Some(start + i) {
      OwnedEntry(name, fps, start, x, i);
      assert x in Claims(fps[i], name);
    }
  }

  /** A fingerprint is lost exactly when it has keys and earlier ones claim all of them. */
  lemma LostIff(name: string, fps: seq<Fingerprint>, start: nat, i: nat)
    requires i < |fps|
    ensures !Occurs(IndexScan(name, fps, start), start + i) <==> Shadowed(name, fps, i)
  {
    hide Claims, FromList, IndexScan, Occurs;
    SurvivesIffOccurs(name, fps, start, i);
    if !Shadowed(name, fps, i) && Claims(fps[i], name) != [] {
      var x :| x in Claims(fps[i], name) && forall j :: 0 <= j < i ==> x !in Claims(fps[j], name);
      assert Owner(name, fps, x) == Some(i);
    }
  }
}
