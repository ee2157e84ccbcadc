/** JBoss EAP detection: how presence evidence is folded, and how version strings of
    different precision are deduplicated. */
module JBossEap {

  import opened Fingerprints
  import opened StringOrder

  /* ---------- prefixes in the string order ---------- */

  /** Whatever sorts between a string and an extension of it extends it too. */
  lemma {:induction false} BetweenExtends(v: string, u: string, w: string)
    requires v <= w && LexLe(v, u) && LexLe(u, w)
    ensures v <= u
  {
    if v != [] {
      assert v[0] == w[0] && u != [];
      BetweenExtends(v[1..], u[1..], w[1..]);
      assert v == [v[0]] + v[1..] && u == [u[0]] + u[1..];
    }
  }

  /* ---------- sorting and searching ---------- */

  predicate Sorted(s: seq<string>) {
    forall i, j :: 0 <= i < j < |s| ==> LexLe(s[i], s[j])
  }

  method SortVersions(versions: seq<string>) returns (r: seq<string>)
    ensures Sorted(r) && multiset(r) == multiset(versions)
  {
    r := [];
    for i := 0 to |versions|
      invariant Sorted(r) && multiset(r) == multiset(versions[..i])
    {
      assert versions[..i + 1] == versions[..i] + [versions[i]];
      var k := BisectRight(r, versions[i]);
      assert r == r[..k] + r[k..];
      InsertSorted(r, k, versions[i]);
      r := r[..k] + [versions[i]] + r[k..];
    }
    assert versions[..|versions|] == versions;
  }

  lemma InsertSorted(r: seq<string>, k: nat, v: string)
    requires Sorted(r) && k <= |r|
    requires forall j :: 0 <= j < k ==> LexLe(r[j], v)
    requires forall j :: k <= j < |r| ==> LexLess(v, r[j])
    ensures Sorted(r[..k] + [v] + r[k..])
  {
    hide LexLe;
  }

  /** The index after the last element not greater than v. */
  method BisectRight(s: seq<string>, v: string) returns (k: nat)
    requires Sorted(s)
    ensures k <= |s|
    ensures forall j :: 0 <= j < k ==> LexLe(s[j], v)
    ensures forall j :: k <= j < |s| ==> LexLess(v, s[j])
  {
    hide LexLe;
    var lo, hi := 0, |s|;
    while lo < hi
      invariant 0 <= lo <= hi <= |s|
      invariant forall j :: 0 <= j < lo ==> LexLe(s[j], v)
      invariant forall j :: hi <= j < |s| ==> LexLess(v, s[j])
    {
      var mid := (lo + hi) / 2;
      if LexLess(v, s[mid]) {
        LargerAbove(s, v, mid);
        hi := mid;
      } else {
        SmallerBelow(s, v, mid);
        lo := mid + 1;
      }
    }
    k := lo;
  }

  lemma LargerAbove(s: seq<string>, v: string, mid: nat)
    requires Sorted(s) && mid < |s| && LexLess(v, s[mid])
    ensures forall j :: mid <= j < |s| ==> LexLess(v, s[j])
  {
    hide LexLe;
    forall j | mid <= j < |s| ensures LexLess(v, s[j]) {
      if mid < j {
        LexTransitive(v, s[mid], s[j]);
        if v == s[j] {
          LexAntisymmetric(v, s[mid]);
        }
      }
    }
  }

  lemma SmallerBelow(s: seq<string>, v: string, mid: nat)
    requires Sorted(s) && mid < |s| && !LexLess(v, s[mid])
    ensures forall j :: 0 <= j <= mid ==> LexLe(s[j], v)
  {
    LexTotal(v, s[mid]);
    forall j | 0 <= j <= mid ensures LexLe(s[j], v) {
      if j < mid {
        LexTransitive(s[j], s[mid], v);
      }
    }
  }

  /* ---------- version_aware_dedup ---------- */

  /** A version that no other version refines. (`<` is the proper-prefix relation.) */
  predicate MostPrecise(v: string, versions: seq<string>) {
    v in versions && forall w :: w in versions ==> !(v < w)
  }

  /** Looking at the next larger element decides whether any element refines v. */
  lemma NextDecides(s: seq<string>, v: string, k: nat)
    requires Sorted(s) && v in s && k <= |s|
    requires forall j :: 0 <= j < k ==> LexLe(s[j], v)
    requires forall j :: k <= j < |s| ==> LexLess(v, s[j])
    ensures MostPrecise(v, s) <==> !(k < |s| && v <= s[k])
  {
    hide LexLe;
    if k < |s| && v <= s[k] {
      assert s[k] in s && v < s[k];
    } else {
      forall w | w in s ensures !(v < w) {
        if v < w {
          var j :| 0 <= j < |s| && s[j] == w;
          PrefixIsLess(v, w);
          if j < k {
            LexAntisymmetric(v, w);
          } else {
            LexSelf(w);
            BetweenExtends(v, s[k], w);
          }
        }
      }
    }
  }

  /** Exactly the versions that are not a proper prefix of another one. */
  method VersionAwareDedup(versions: seq<string>) returns (deduped: set<string>)
    ensures forall v :: v in deduped <==> MostPrecise(v, versions)
  {
    var inOrder := SortVersions(versions);
    SameElements(inOrder, versions);
    deduped := {};
    for n := 0 to |inOrder|
      invariant forall v :: v in deduped ==> MostPrecise(v, versions)
      invariant forall j :: 0 <= j < n && MostPrecise(inOrder[j], versions) ==> inOrder[j] in deduped
    {
      var version := inOrder[n];
      var i := BisectRight(inOrder, version);
      NextDecides(inOrder, version, i);
      SamePrecise(inOrder, versions, version);
      if !(i < |inOrder| && version <= inOrder[i]) {
        deduped := deduped + {version};
      }
    }
    forall v | MostPrecise(v, versions) ensures v in deduped {
      var j :| 0 <= j < |inOrder| && inOrder[j] == v;
    }
  }

  lemma SameElements(a: seq<string>, b: seq<string>)
    requires multiset(a) == multiset(b)
    ensures forall v :: v in a <==> v in b
  {
    forall v ensures v in a <==> v in b {
      assert v in a <==> v in multiset(a);
      assert v in b <==> v in multiset(b);
    }
  }

  lemma SamePrecise(a: seq<string>, b: seq<string>, v: string)
    requires forall x :: x in a <==> x in b
    ensures MostPrecise(v, a) <==> MostPrecise(v, b)
  {
  }

  /** No result refines another. */
  lemma MostPreciseAntichain(versions: seq<string>, v: string, w: string)
    requires MostPrecise(v, versions) && MostPrecise(w, versions) && v <= w
    ensures v == w
  {
  }

  /** The length of the longest version. */
  function Longest(versions: seq<string>): (n: nat)
    ensures forall v :: v in versions ==> |v| <= n
  {
    if versions == [] then 0
    else
      var n := Longest(versions[1..]);
      if |versions[0]| > n then |versions[0]| else n
  }

  /** Every input is a prefix of some result: nothing but precision is lost. */
  lemma {:induction false} EveryVersionCovered(versions: seq<string>, v: string)
    requires v in versions
    ensures exists w :: MostPrecise(w, versions) && v <= w
    decreases Longest(versions) - |v|
  {
    if MostPrecise(v, versions) {
      assert v <= v;
    } else {
      var u :| u in versions && v < u;
      EveryVersionCovered(versions, u);
      var w :| MostPrecise(w, versions) && u <= w;
      assert v <= w;
    }
  }

  /* ---------- the presence fold ---------- */

  function Rank(p: Presence): nat {
    match p case UNKNOWN => 0 case ABSENT => 1 case POTENTIAL => 2 case PRESENT => 3
  }

  predicate PresenceGe(a: Presence, b: Presence) {
    Rank(a) >= Rank(b)
  }

  /** A raw fact of the table: its name, whether it has a truthy value, and what that value
      says about presence and versions. */
  datatype Evidence = Evidence(name: string, found: bool, presence: Presence, versions: seq<string>)

  function Strongest(es: seq<Evidence>): (p: Presence)
    ensures Rank(p) >= Rank(ABSENT)
    ensures forall i :: 0 <= i < |es| && es[i].found ==> Rank(p) >= Rank(es[i].presence)
    ensures p == ABSENT || exists i :: 0 <= i < |es| && es[i].found && es[i].presence == p
  {
    if es == [] then ABSENT
    else
      var p := Strongest(es[..|es| - 1]);
      var e := es[|es| - 1];
      assert e.found ==> e == es[|es| - 1];
      if e.found && !PresenceGe(p, e.presence) then e.presence else p
  }

  /** The names of the found facts that say exactly p, in order. */
  function Supporting(es: seq<Evidence>, p: Presence): seq<string> {
    if es == [] then []
    else
      var names := Supporting(es[..|es| - 1], p);
      var e := es[|es| - 1];
      if e.found && e.presence == p then names + [e.name] else names
  }

  function AllVersions(es: seq<Evidence>): seq<string> {
    if es == [] then []
    else AllVersions(es[..|es| - 1]) + if es[|es| - 1].found then es[|es| - 1].versions else []
  }

  function LowerChar(c: char): char {
    if 'A' <= c <= 'Z' then c - 'A' + 'a' else c
  }

  function Lower(s: string): (r: string)
    ensures |r| == |s| && forall i :: 0 <= i < |s| ==> r[i] == LowerChar(s[i])
  {
    seq(|s|, i requires 0 <= i < |s| => LowerChar(s[i]))
  }

  predicate IsCommunity(v: string) {
    "wildfly" <= Lower(v) || "jbossas" <= Lower(v)
  }

  function Enterprise(vs: seq<string>): seq<string> {
    if vs == [] then []
    else if IsCommunity(vs[|vs| - 1]) then Enterprise(vs[..|vs| - 1])
    else Enterprise(vs[..|vs| - 1]) + [vs[|vs| - 1]]
  }

  /** From weakest to strongest: unknown, absent, potential, present. */
  lemma PresenceOrder(a: Presence, b: Presence)
    ensures PresenceGe(a, b) <==> a == PRESENT || b == UNKNOWN || a == b || (a == POTENTIAL && b == ABSENT)
  {
  }

  /** The supporting facts are the found ones that say just that. */
  lemma {:induction false} SupportingIff(es: seq<Evidence>, p: Presence, name: string)
    ensures name in Supporting(es, p) <==>
            exists i :: 0 <= i < |es| && es[i].found && es[i].presence == p && es[i].name == name
  {
    if es != [] {
      var front, last := es[..|es| - 1], |es| - 1;
      SupportingIff(front, p, name);
      if i :| 0 <= i < |front| && front[i].found && front[i].presence == p && front[i].name == name {
        assert es[i] == front[i];
      }
      if i :| 0 <= i < |es| && es[i].found && es[i].presence == p && es[i].name == name {
        assert i < last ==> front[i] == es[i];
      }
    }
  }

  /** In the order of the facts. */
  lemma {:induction false} SupportingInOrder(a: seq<Evidence>, b: seq<Evidence>, p: Presence)
    ensures Supporting(a + b, p) == Supporting(a, p) + Supporting(b, p)
  {
    if b == [] {
      assert a + b == a;
    } else {
      SupportingInOrder(a, b[..|b| - 1], p);
      assert (a + b)[..|a + b| - 1] == a + b[..|b| - 1];
    }
  }

  /** The versions are those that found facts list. */
  lemma {:induction false} VersionsIff(es: seq<Evidence>, v: string)
    ensures v in AllVersions(es) <==> exists i :: 0 <= i < |es| && es[i].found && v in es[i].versions
  {
    if es != [] {
      var front, last := es[..|es| - 1], |es| - 1;
      VersionsIff(front, v);
      if i :| 0 <= i < |front| && front[i].found && v in front[i].versions {
        assert es[i] == front[i];
      }
      if i :| 0 <= i < |es| && es[i].found && v in es[i].versions {
        assert i < last ==> front[i] == es[i];
      }
    }
  }

  /** The same letter in either case. */
  predicate SameLetter(c: char, lower: char) {
    c == lower || ('A' <= c <= 'Z' && c - 'A' + 'a' == lower)
  }

  /** A community version starts with "wildfly" or "jbossas", in whatever case. */
  lemma CommunityIff(v: string)
    ensures IsCommunity(v) <==>
            |v| >= 7 && ((forall i :: 0 <= i < 7 ==> SameLetter(v[i], "wildfly"[i]))
                         || (forall i :: 0 <= i < 7 ==> SameLetter(v[i], "jbossas"[i])))
  {
    StartsIff(v, "wildfly");
    StartsIff(v, "jbossas");
  }

  lemma StartsIff(v: string, word: string)
    requires |word| == 7 && forall i :: 0 <= i < 7 ==> 'a' <= word[i] <= 'z'
    ensures word <= Lower(v) <==> |v| >= 7 && forall i :: 0 <= i < 7 ==> SameLetter(v[i], word[i])
  {
    if |v| >= 7 && forall i :: 0 <= i < 7 ==> SameLetter(v[i], word[i]) {
      assert forall i :: 0 <= i < 7 ==> Lower(v)[i] == word[i];
      assert Lower(v)[..7] == word;
    }
    if word <= Lower(v) {
      forall i | 0 <= i < 7 ensures SameLetter(v[i], word[i]) {
        assert Lower(v)[i] == word[i];
      }
    }
  }

  /** The enterprise versions are all others. */
  lemma {:induction false} EnterpriseIff(vs: seq<string>, v: string)
    ensures v in Enterprise(vs) <==> v in vs && !IsCommunity(v)
  {
    if vs != [] {
      hide IsCommunity;
      EnterpriseIff(vs[..|vs| - 1], v);
      assert vs == vs[..|vs| - 1] + [vs[|vs| - 1]];
    }
  }

  lemma WeakerHasNoSupport(es: seq<Evidence>, p: Presence)
    requires Rank(p) > Rank(Strongest(es))
    ensures Supporting(es, p) == []
  {
    if es != [] {
      var front := es[..|es| - 1];
      assert Rank(Strongest(front)) <= Rank(Strongest(es));
      WeakerHasNoSupport(front, p);
    }
  }

  /** The reported presence is the strongest evidence (ABSENT without any), unless only
      community versions were found; the supporting facts are exactly the found facts that
      say just that; the versions are the most precise enterprise versions. */
  method DetectEap(es: seq<Evidence>) returns (presence: Presence, rawFacts: seq<string>, versions: set<string>)
    ensures rawFacts == Supporting(es, Strongest(es))
    ensures presence == if AllVersions(es) != [] && Enterprise(AllVersions(es)) == [] then ABSENT else Strongest(es)
    ensures forall v :: v in versions <==> MostPrecise(v, Enterprise(AllVersions(es)))
  {
    presence, rawFacts := ABSENT, [];
    var found: seq<string> := [];
    for i := 0 to |es|
      invariant presence == Strongest(es[..i])
      invariant rawFacts == Supporting(es[..i], presence)
      invariant found == AllVersions(es[..i])
    {
      assert es[..i + 1][..i] == es[..i];
      var e := es[i];
      if e.found {
        if !PresenceGe(presence, e.presence) {
          WeakerHasNoSupport(es[..i], e.presence);
          presence, rawFacts := e.presence, [e.name];
        } else if presence == e.presence && presence != UNKNOWN {
          rawFacts := rawFacts + [e.name];
        }
        found := found + e.versions;
      }
    }
    assert es[..|es|] == es;
    var kept: seq<string> := [];
    for i := 0 to |found|
      invariant kept == Enterprise(found[..i])
    {
      assert found[..i + 1][..i] == found[..i];
      if !IsCommunity(found[i]) {
        kept := kept + [found[i]];
      }
    }
    assert found[..|found|] == found;
    if found != [] && kept == [] {
      presence := ABSENT;
    }
    versions := VersionAwareDedup(kept);
  }
}
