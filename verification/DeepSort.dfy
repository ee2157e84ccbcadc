/** Canonical sorting of nested values, and the text from which a provider id is hashed. */
module DeepSort {
  import opened Permutations
  import opened StringOrder

  /** `Dict` lists its entries in insertion order. A `Date` is rendered before sorting. */
  datatype Value =
    | Null
    | Flag(b: bool)
    | Num(n: int)
    | Text(s: string)
    | Date(iso: string)
    | List(items: seq<Value>)
    | Dict(entries: seq<(string, Value)>)

  /* ---------- the order ---------- */

  function Kind(v: Value): nat {
    match v
    case Null => 0 case Flag(_) => 1 case Num(_) => 2 case Text(_) => 3
    case Date(_) => 4 case List(_) => 5 case Dict(_) => 6
  }

  /** Python's order on numbers, on strings and on lists of such values. Python raises on the
      other pairs; they are ordered by kind here and nothing is claimed about them. */
  predicate Le(a: Value, b: Value)
    decreases a, 1
  {
    match (a, b)
    case (Num(x), Num(y)) => x <= y
    case (Text(x), Text(y)) => LexLe(x, y)
    case (List(x), List(y)) => ListLe(x, y)
    case _ => Kind(a) <= Kind(b)
  }

  predicate ListLe(a: seq<Value>, b: seq<Value>)
    decreases a, 0
  {
    if a == [] then true
    else if b == [] then false
    else if a[0] == b[0] then ListLe(a[1..], b[1..])
    else Le(a[0], b[0])
  }

  function Insert(v: Value, s: seq<Value>): (r: seq<Value>)
    ensures multiset(r) == multiset(s) + multiset{v}
  {
    if s == [] then [v]
    else if Le(v, s[0]) then [v] + s
    else
      assert s == [s[0]] + s[1..];
      [s[0]] + Insert(v, s[1..])
  }

  function Sort(s: seq<Value>): (r: seq<Value>)
    ensures multiset(r) == multiset(s)
  {
    if s == [] then []
    else
      assert s == [s[0]] + s[1..];
      Insert(s[0], Sort(s[1..]))
  }

  lemma SortElements(s: seq<Value>)
    ensures |Sort(s)| == |s| && forall i :: 0 <= i < |s| ==> Sort(s)[i] in s
  {
    var r := Sort(s);
    assert |multiset(r)| == |r| && |multiset(s)| == |s|;
    forall i | 0 <= i < |r| ensures r[i] in s {
      assert r[i] in multiset(r);
    }
  }

  /* ---------- deep_sort ---------- */

  function Keys(entries: seq<(string, Value)>): (ks: seq<Value>)
    ensures |ks| == |entries| && forall i :: 0 <= i < |ks| ==> ks[i] == Text(entries[i].0)
  {
    seq(|entries|, i requires 0 <= i < |entries| => Text(entries[i].0))
  }

  /** The position of a key that the dictionary has. */
  function Find(entries: seq<(string, Value)>, key: Value): (i: nat)
    requires key in Keys(entries)
    ensures i < |entries| && Text(entries[i].0) == key
  {
    var last := |entries| - 1;
    if Text(entries[last].0) == key then last
    else
      assert entries == entries[..last] + [entries[last]];
      assert Keys(entries) == Keys(entries[..last]) + [Text(entries[last].0)];
      Find(entries[..last], key)
  }

  /** Lists are sorted before their elements are. */
  function Deep(v: Value): Value
    decreases v
  {
    match v
    case List(items) =>
      SortElements(items);
      var s := Sort(items);
      List(seq(|s|, i requires 0 <= i < |s| => assert s[i] in items; Deep(s[i])))
    case Dict(entries) =>
      SortElements(Keys(entries));
      var ks := Sort(Keys(entries));
      Dict(seq(|ks|, i requires 0 <= i < |ks| =>
                 assert ks[i] in Keys(entries);
                 var e := entries[Find(entries, ks[i])];
                 (e.0, Deep(e.1))))
    case _ => v
  }

  /* ---------- lists of comparable values ---------- */

  /** What Python can sort: numbers, strings, or lists of such values. */
  datatype Sortable = Numbers | Texts | Lists(of: Sortable)

  predicate OfKind(v: Value, k: Sortable)
    decreases k, 0
  {
    match k
    case Numbers => v.Num?
    case Texts => v.Text?
    case Lists(of) => v.List? && AllOfKind(v.items, of)
  }

  predicate AllOfKind(s: seq<Value>, k: Sortable)
    decreases k, 1
  {
    forall i :: 0 <= i < |s| ==> OfKind(s[i], k)
  }

  predicate Ascending(s: seq<Value>) {
    forall i, j :: 0 <= i < j < |s| ==> Le(s[i], s[j])
  }

  /** Values of one kind are totally ordered. */
  lemma {:induction false} KindOrder(a: Value, b: Value, c: Value, k: Sortable)
    requires OfKind(a, k) && OfKind(b, k) && OfKind(c, k)
    ensures Le(a, b) || Le(b, a)
    ensures Le(a, b) && Le(b, a) ==> a == b
    ensures Le(a, b) && Le(b, c) ==> Le(a, c)
    decreases k, 0
  {
    match k
    case Numbers =>
    case Texts =>
      LexTotal(a.s, b.s);
      if Le(a, b) && Le(b, a) { LexAntisymmetric(a.s, b.s); }
      if Le(a, b) && Le(b, c) { LexTransitive(a.s, b.s, c.s); }
    case Lists(of) =>
      ListTotal(a.items, b.items, of);
      if Le(a, b) && Le(b, a) { ListAntisymmetric(a.items, b.items, of); }
      if Le(a, b) && Le(b, c) { ListTransitive(a.items, b.items, c.items, of); }
  }

  lemma {:induction false} ListTotal(a: seq<Value>, b: seq<Value>, k: Sortable)
    requires AllOfKind(a, k) && AllOfKind(b, k)
    ensures ListLe(a, b) || ListLe(b, a)
    decreases k, 1 + |a|
  {
    hide Le;
    if a != [] && b != [] {
      if a[0] == b[0] {
        ListTotal(a[1..], b[1..], k);
      } else {
        KindOrder(a[0], b[0], a[0], k);
      }
    }
  }

  lemma {:induction false} ListAntisymmetric(a: seq<Value>, b: seq<Value>, k: Sortable)
    requires AllOfKind(a, k) && AllOfKind(b, k) && ListLe(a, b) && ListLe(b, a)
    ensures a == b
    decreases k, 1 + |a|
  {
    hide Le;
    if a != [] && b != [] {
      KindOrder(a[0], b[0], a[0], k);
      ListAntisymmetric(a[1..], b[1..], k);
      assert a == [a[0]] + a[1..] && b == [b[0]] + b[1..];
    }
  }

  lemma {:induction false} ListTransitive(a: seq<Value>, b: seq<Value>, c: seq<Value>, k: Sortable)
    requires AllOfKind(a, k) && AllOfKind(b, k) && AllOfKind(c, k) && ListLe(a, b) && ListLe(b, c)
    ensures ListLe(a, c)
    decreases k, 1 + |a|
  {
    hide Le;
    if a != [] {
      KindOrder(a[0], b[0], c[0], k);
      KindOrder(a[0], c[0], b[0], k);
      KindOrder(b[0], c[0], a[0], k);
      if a[0] == b[0] == c[0] {
        ListTransitive(a[1..], b[1..], c[1..], k);
      }
    }
  }

  lemma KindElements(s: seq<Value>, r: seq<Value>, k: Sortable)
    requires AllOfKind(s, k) && multiset(r) == multiset(s)
    ensures AllOfKind(r, k)
  {
    forall i | 0 <= i < |r| ensures r[i] in s {
      assert r[i] in multiset(r);
    }
  }

  lemma {:induction false} InsertAscending(v: Value, s: seq<Value>, k: Sortable)
    requires Ascending(s) && OfKind(v, k) && AllOfKind(s, k)
    ensures Ascending(Insert(v, s))
  {
    hide Le, OfKind;
    if s != [] {
      if Le(v, s[0]) {
        forall j | 0 <= j < |s| ensures Le(v, s[j]) {
          KindOrder(v, s[0], s[j], k);
        }
      } else {
        KindOrder(v, s[0], v, k);
        InsertAscending(v, s[1..], k);
        var r := Insert(v, s[1..]);
        forall j | 0 <= j < |r| ensures Le(s[0], r[j]) {
          assert r[j] in multiset(r);
          assert r[j] == v || r[j] in s[1..];
        }
      }
    }
  }

  lemma {:induction false} SortAscending(s: seq<Value>, k: Sortable)
    requires AllOfKind(s, k)
    ensures Ascending(Sort(s)) && AllOfKind(Sort(s), k)
  {
    hide Le, OfKind;
    KindElements(s, Sort(s), k);
    if s != [] {
      SortAscending(s[1..], k);
      InsertAscending(s[0], Sort(s[1..]), k);
    }
  }

  lemma FirstEqual(a: seq<Value>, b: seq<Value>, k: Sortable)
    requires Ascending(a) && Ascending(b) && AllOfKind(a, k) && AllOfKind(b, k) && multiset(a) == multiset(b)
    requires a != [] && b != []
    ensures a[0] == b[0]
  {
    hide Le, OfKind;
    assert a[0] in multiset(b) && b[0] in multiset(a);
    var i :| 0 <= i < |b| && b[i] == a[0];
    var j :| 0 <= j < |a| && a[j] == b[0];
    KindOrder(a[0], b[0], a[0], k);
  }

  lemma TailMultiset(a: seq<Value>)
    requires a != []
    ensures multiset(a[1..]) == multiset(a) - multiset{a[0]}
  {
    assert a == [a[0]] + a[1..];
  }

  /** A sorted arrangement of values of one kind is unique. */
  lemma {:induction false} AscendingUnique(a: seq<Value>, b: seq<Value>, k: Sortable)
    requires Ascending(a) && Ascending(b) && AllOfKind(a, k) && multiset(a) == multiset(b)
    ensures a == b
  {
    hide Le, OfKind;
    assert |multiset(a)| == |a| && |multiset(b)| == |b|;
    if a != [] {
      KindElements(a, b, k);
      FirstEqual(a, b, k);
      TailMultiset(a);
      TailMultiset(b);
      AscendingUnique(a[1..], b[1..], k);
      assert a == [a[0]] + a[1..] && b == [b[0]] + b[1..];
    }
  }

  /** Sorting values of one kind forgets exactly their order. */
  lemma SortEqualIff(a: seq<Value>, b: seq<Value>, k: Sortable)
    requires AllOfKind(a, k)
    ensures Sort(a) == Sort(b) <==> multiset(a) == multiset(b)
  {
    hide Le, OfKind, Sort;
    if multiset(a) == multiset(b) {
      KindElements(a, b, k);
      SortAscending(a, k);
      SortAscending(b, k);
      AscendingUnique(Sort(a), Sort(b), k);
    }
  }

  /** A list is its own sorted form exactly when it is ascending. */
  lemma SortedIff(s: seq<Value>, k: Sortable)
    requires AllOfKind(s, k)
    ensures Sort(s) == s <==> Ascending(s)
  {
    hide Le, OfKind, Sort;
    SortAscending(s, k);
    if Ascending(s) {
      AscendingUnique(s, Sort(s), k);
    }
  }

  /** All numbers or all strings: what Python can sort without looking inside. */
  predicate Plain(s: seq<Value>) {
    AllOfKind(s, Numbers) || AllOfKind(s, Texts)
  }

  function PlainKind(s: seq<Value>): (k: Sortable)
    requires Plain(s)
    ensures AllOfKind(s, k) && !k.Lists?
  {
    if AllOfKind(s, Numbers) then Numbers else Texts
  }

  /* ---------- flat dictionaries ---------- */

  /** A scalar, or a list of comparable scalars. */
  predicate Flat(v: Value) {
    !v.Dict? && (v.List? ==> Plain(v.items))
  }

  predicate FlatDict(entries: seq<(string, Value)>) {
    && (forall i, j :: 0 <= i < j < |entries| ==> entries[i].0 != entries[j].0)
    && forall i :: 0 <= i < |entries| ==> Flat(entries[i].1)
  }

  predicate SameUpToOrder(a: Value, b: Value) {
    a == b || (a.List? && b.List? && multiset(a.items) == multiset(b.items))
  }

  /** The same keys with the same values, up to the order of keys and of list elements. */
  ghost predicate Equivalent(a: seq<(string, Value)>, b: seq<(string, Value)>) {
    && multiset(Keys(a)) == multiset(Keys(b))
    && forall k :: k in Keys(a) && k in Keys(b) ==> SameUpToOrder(a[Find(a, k)].1, b[Find(b, k)].1)
  }

  lemma DeepFlat(v: Value)
    requires Flat(v)
    ensures v.List? ==> Deep(v) == List(Sort(v.items))
    ensures !v.List? ==> Deep(v) == v
    ensures Flat(Deep(v)) && SameUpToOrder(Deep(v), v)
  {
    if v.List? {
      var s := Sort(v.items);
      KindElements(v.items, s, PlainKind(v.items));
      forall i | 0 <= i < |s| ensures Deep(s[i]) == s[i] {
      }
      SortElements(v.items);
      assert Deep(v).items == s;
    }
  }

  lemma DeepFlatEqualIff(a: Value, b: Value)
    requires Flat(a) && Flat(b)
    ensures Deep(a) == Deep(b) <==> SameUpToOrder(a, b)
  {
    DeepFlat(a);
    DeepFlat(b);
    if a.List? && b.List? {
      SortEqualIff(a.items, b.items, PlainKind(a.items));
    }
  }

  lemma KeysPlain(entries: seq<(string, Value)>)
    ensures AllOfKind(Keys(entries), Texts)
  {
  }

  lemma DeepDict(entries: seq<(string, Value)>)
    ensures Deep(Dict(entries)).Dict?
    ensures var r := Deep(Dict(entries)).entries;
            && Keys(r) == Sort(Keys(entries))
            && forall i :: 0 <= i < |r| ==>
                 Keys(r)[i] in Keys(entries) && r[i].1 == Deep(entries[Find(entries, Keys(r)[i])].1)
  {
    hide Le, Sort, Insert;
    SortElements(Keys(entries));
    var r := Deep(Dict(entries)).entries;
    var ks := Sort(Keys(entries));
    forall i | 0 <= i < |ks| ensures ks[i] in Keys(entries) && Text(r[i].0) == ks[i] {
    }
    assert Keys(r) == ks;
  }

  /** The canonical form is the same exactly when the dictionaries differ in order only: any
      reordering of keys or list elements keeps it, and any other difference changes it. */
  lemma CanonicalIff(a: seq<(string, Value)>, b: seq<(string, Value)>)
    requires FlatDict(a) && FlatDict(b)
    ensures Deep(Dict(a)) == Deep(Dict(b)) <==> Equivalent(a, b)
  {
    hide Deep, Flat, SameUpToOrder, Find;
    KeysPlain(a);
    KeysPlain(b);
    DeepDict(a);
    DeepDict(b);
    SortEqualIff(Keys(a), Keys(b), Texts);
    var ra, rb := Deep(Dict(a)).entries, Deep(Dict(b)).entries;
    if multiset(Keys(a)) == multiset(Keys(b)) {
      forall i | 0 <= i < |ra|
        ensures ra[i] == rb[i] <==> SameUpToOrder(a[Find(a, Keys(ra)[i])].1, b[Find(b, Keys(ra)[i])].1)
      {
        DeepFlatEqualIff(a[Find(a, Keys(ra)[i])].1, b[Find(b, Keys(ra)[i])].1);
        assert Keys(ra)[i] == Keys(rb)[i];
      }
      EveryKeySorted(a);
      if Deep(Dict(a)) == Deep(Dict(b)) {
        forall k | k in Keys(a) && k in Keys(b) ensures SameUpToOrder(a[Find(a, k)].1, b[Find(b, k)].1) {
          var i :| 0 <= i < |ra| && Keys(ra)[i] == k;
        }
      }
      if Equivalent(a, b) {
        forall i | 0 <= i < |ra| ensures ra[i] == rb[i] {
          assert Keys(ra)[i] in Keys(a) && Keys(rb)[i] in Keys(b);
        }
        assert ra == rb;
        assert Deep(Dict(a)) == Dict(ra) && Deep(Dict(b)) == Dict(rb);
      }
    }
  }

  lemma EveryKeySorted(entries: seq<(string, Value)>)
    ensures forall k :: k in Keys(entries) ==> k in Sort(Keys(entries))
  {
    forall k | k in Keys(entries) ensures k in Sort(Keys(entries)) {
      assert k in multiset(Sort(Keys(entries)));
    }
  }

  /** Sorting a flat dictionary twice changes nothing. */
  lemma DeepIdempotent(entries: seq<(string, Value)>)
    requires FlatDict(entries)
    ensures Deep(Deep(Dict(entries))) == Deep(Dict(entries))
  {
    hide Deep, Flat, SameUpToOrder;
    DeepDict(entries);
    var r := Deep(Dict(entries)).entries;
    assert Deep(Dict(entries)) == Dict(r);
    forall i | 0 <= i < |r| ensures Flat(r[i].1) && SameUpToOrder(r[i].1, entries[Find(entries, Keys(r)[i])].1) {
      DeepFlat(entries[Find(entries, Keys(r)[i])].1);
    }
    DistinctSorted(entries, r);
    CanonicalIff(r, entries);
  }

  lemma DistinctSorted(entries: seq<(string, Value)>, r: seq<(string, Value)>)
    requires FlatDict(entries) && Keys(r) == Sort(Keys(entries))
    ensures forall i, j :: 0 <= i < j < |r| ==> r[i].0 != r[j].0
  {
    forall i, j | 0 <= i < j < |r| ensures r[i].0 != r[j].0 {
      if r[i].0 == r[j].0 {
        var k := Keys(r)[i];
        TwiceListed(Keys(r), i, j);
        OnceListed(entries, k);
      }
    }
  }

  lemma TwiceListed(s: seq<Value>, i: nat, j: nat)
    requires i < j < |s| && s[i] == s[j]
    ensures multiset(s)[s[i]] >= 2
  {
    assert s == s[..j] + s[j..];
    assert s[i] in s[..j] && s[j] in s[j..];
  }

  lemma OnceListed(entries: seq<(string, Value)>, k: Value)
    requires forall i, j :: 0 <= i < j < |entries| ==> entries[i].0 != entries[j].0
    ensures multiset(Keys(entries))[k] <= 1
  {
    if entries != [] {
      var last := |entries| - 1;
      OnceListed(entries[..last], k);
      assert Keys(entries) == Keys(entries[..last]) + [Text(entries[last].0)];
      if Text(entries[last].0) == k {
        assert forall i :: 0 <= i < last ==> Keys(entries[..last])[i] != k;
        assert k !in Keys(entries[..last]);
      }
    }
  }

  /** Numbers and strings are sorted from the smallest to the greatest, each as often as before. */
  lemma SortedUpwards(s: seq<Value>, i: nat, j: nat)
    requires i < j < |s| && (AllOfKind(s, Numbers) || AllOfKind(s, Texts))
    ensures |Sort(s)| == |s| && multiset(Sort(s)) == multiset(s)
    ensures AllOfKind(s, Numbers) ==> Sort(s)[i].Num? && Sort(s)[j].Num? && Sort(s)[i].n <= Sort(s)[j].n
    ensures AllOfKind(s, Texts) ==> Sort(s)[i].Text? && Sort(s)[j].Text? && LexLe(Sort(s)[i].s, Sort(s)[j].s)
  {
    SortElements(s);
    if AllOfKind(s, Numbers) {
      SortAscending(s, Numbers);
      assert OfKind(Sort(s)[i], Numbers) && OfKind(Sort(s)[j], Numbers) && Le(Sort(s)[i], Sort(s)[j]);
    }
    if AllOfKind(s, Texts) {
      SortAscending(s, Texts);
      assert OfKind(Sort(s)[i], Texts) && OfKind(Sort(s)[j], Texts) && Le(Sort(s)[i], Sort(s)[j]);
    }
  }

  /* ---------- the hashed text ---------- */

  function Rendered(v: Value): Value {
    if v.Date? then Text(v.iso) else v
  }

  /** Dates become strings; everything else is left to the sort. */
  function RenderDates(entries: seq<(string, Value)>): (r: seq<(string, Value)>)
    ensures |r| == |entries|
    ensures forall i :: 0 <= i < |entries| ==>
              r[i] == (entries[i].0, if entries[i].1.Date? then Text(entries[i].1.iso) else entries[i].1)
  {
    seq(|entries|, i requires 0 <= i < |entries| => (entries[i].0, Rendered(entries[i].1)))
  }

  /** What is dumped as JSON and hashed into the provider id. */
  method HashInput(entries: seq<(string, Value)>) returns (canonical: Value)
    ensures canonical == Deep(Dict(RenderDates(entries)))
  {
    var rendered: seq<(string, Value)> := [];
    for i := 0 to |entries|
      invariant |rendered| == i && forall j :: 0 <= j < i ==> rendered[j] == (entries[j].0, Rendered(entries[j].1))
    {
      var value := entries[i].1;
      if value.Date? {
        rendered := rendered + [(entries[i].0, Text(value.iso))];
      } else {
        rendered := rendered + [(entries[i].0, value)];
      }
    }
    assert rendered == RenderDates(entries);
    canonical := Deep(Dict(rendered));
  }

  /** Hosts with the same facts, in whatever order they were collected, hash the same text;
      hosts that differ in a fact do not. */
  lemma HashInputStable(a: seq<(string, Value)>, b: seq<(string, Value)>)
    requires FlatDict(a) && FlatDict(b)
    ensures Deep(Dict(RenderDates(a))) == Deep(Dict(RenderDates(b))) <==> Equivalent(RenderDates(a), RenderDates(b))
  {
    CanonicalIff(RenderDates(a), RenderDates(b));
  }

  /* ---------- lists of lists ---------- */

  predicate AllLists(s: seq<Value>) {
    forall i :: 0 <= i < |s| ==> s[i].List?
  }

  /** The elements with their own items sorted, in the given order. */
  function SortedInside(s: seq<Value>): (r: seq<Value>)
    requires AllLists(s)
    ensures |r| == |s| && forall i :: 0 <= i < |s| ==> r[i] == List(Sort(s[i].items))
  {
    seq(|s|, i requires 0 <= i < |s| => List(Sort(s[i].items)))
  }

  /** Lists of numbers, or lists of strings. */
  predicate Nested(s: seq<Value>, k: Sortable) {
    AllOfKind(s, Lists(k)) && !k.Lists?
  }

  lemma NestedLists(s: seq<Value>, k: Sortable)
    requires Nested(s, k)
    ensures forall i :: 0 <= i < |s| ==> s[i].List? && AllOfKind(s[i].items, k) && Flat(s[i])
  {
    forall i | 0 <= i < |s| ensures s[i].List? && AllOfKind(s[i].items, k) {
      assert OfKind(s[i], Lists(k));
    }
  }

  lemma NestedSort(s: seq<Value>, k: Sortable)
    requires Nested(s, k)
    ensures Nested(Sort(s), k) && |Sort(s)| == |s|
    ensures AllLists(s) && AllLists(Sort(s))
    ensures Nested(SortedInside(s), k)
  {
    hide Le, Sort;
    KindElements(s, Sort(s), Lists(k));
    assert |multiset(s)| == |multiset(Sort(s))|;
    NestedLists(s, k);
    NestedLists(Sort(s), k);
    forall i | 0 <= i < |s| ensures OfKind(SortedInside(s)[i], Lists(k)) {
      KindElements(s[i].items, Sort(s[i].items), k);
    }
  }

  /** The outer list is sorted as it is, and then each element. */
  lemma DeepNested(s: seq<Value>, k: Sortable)
    requires Nested(s, k)
    ensures Nested(Sort(s), k) && AllLists(Sort(s))
    ensures Deep(List(s)) == List(SortedInside(Sort(s)))
  {
    hide Le, Sort, Deep;
    NestedSort(s, k);
    NestedLists(Sort(s), k);
    DeepList(s);
    var r := Sort(s);
    forall i | 0 <= i < |r| ensures Deep(r[i]) == List(Sort(r[i].items)) {
      DeepFlat(r[i]);
    }
    assert Deep(List(s)).items == SortedInside(r);
  }

  lemma InsideSorted(s: seq<Value>, k: Sortable)
    requires Nested(s, k)
    ensures AllLists(s)
    ensures Nested(SortedInside(s), k) && SortedInside(SortedInside(s)) == SortedInside(s)
  {
    hide Le, Sort;
    NestedSort(s, k);
    NestedLists(s, k);
    var r := SortedInside(s);
    forall i | 0 <= i < |s| ensures Sort(r[i].items) == r[i].items {
      SortAscending(s[i].items, k);
      SortedIff(r[i].items, k);
    }
  }

  /** Sorting a list of lists twice changes nothing exactly when the elements, each sorted and
      in the order of the first outer sort, are ascending. */
  lemma NestedIdempotentIff(s: seq<Value>, k: Sortable)
    requires Nested(s, k)
    ensures Nested(Sort(s), k) && AllLists(Sort(s))
    ensures Deep(Deep(List(s))) == Deep(List(s)) <==> Ascending(SortedInside(Sort(s)))
  {
    hide Le, Sort, Deep, Nested;
    DeepNested(s, k);
    var r := SortedInside(Sort(s));
    InsideSorted(Sort(s), k);
    DeepNested(r, k);
    SortOfFixed(r, k);
    NestedKind(r, k);
    SortedIff(r, Lists(k));
  }

  lemma NestedKind(s: seq<Value>, k: Sortable)
    requires Nested(s, k)
    ensures AllOfKind(s, Lists(k))
  {
  }

  /** Elements that are sorted inside stay so when the outer list is sorted. */
  lemma SortOfFixed(r: seq<Value>, k: Sortable)
    requires Nested(r, k)
    requires AllLists(r)
    requires SortedInside(r) == r
    ensures AllLists(Sort(r))
    ensures SortedInside(Sort(r)) == Sort(r)
  {
    hide Le, Sort;
    NestedSort(r, k);
    forall i | 0 <= i < |r| ensures SortedInside(Sort(r))[i] == Sort(r)[i] {
      assert Sort(r)[i] in multiset(Sort(r));
      var j :| 0 <= j < |r| && r[j] == Sort(r)[i];
      assert SortedInside(r)[j] == r[j];
    }
  }

  /** Two lists of lists have the same form exactly when their outer sorts put lists with the
      same items in the same places. */
  lemma NestedEqualIff(a: seq<Value>, b: seq<Value>, k: Sortable)
    requires Nested(a, k) && Nested(b, k)
    ensures AllLists(Sort(a))
    ensures AllLists(Sort(b))
    ensures Deep(List(a)) == Deep(List(b)) <==> SameInside(Sort(a), Sort(b))
  {
    hide Le, Sort, Deep;
    DeepNested(a, k);
    DeepNested(b, k);
    NestedLists(Sort(a), k);
    SameSortedInside(Sort(a), Sort(b), k);
  }

  /** Position by position, lists with the same items in any order. */
  predicate SameInside(a: seq<Value>, b: seq<Value>)
    requires AllLists(a)
    requires AllLists(b)
  {
    |a| == |b| && forall i :: 0 <= i < |a| ==> multiset(a[i].items) == multiset(b[i].items)
  }

  lemma SameSortedInside(a: seq<Value>, b: seq<Value>, k: Sortable)
    requires forall i :: 0 <= i < |a| ==> a[i].List? && AllOfKind(a[i].items, k)
    requires AllLists(b)
    ensures SortedInside(a) == SortedInside(b) <==> SameInside(a, b)
  {
    hide Le, Sort, OfKind;
    if |a| == |b| {
      forall i | 0 <= i < |a| ensures SortedInside(a)[i] == SortedInside(b)[i] <==>
          multiset(a[i].items) == multiset(b[i].items) {
        SortEqualIff(a[i].items, b[i].items, k);
      }
    }
  }

  /* ---------- when the order inside does not matter ---------- */

  /** Elements with different items compare alike, however their items are ordered. */
  ghost predicate Separated(a: seq<Value>)
    requires AllLists(a)
  {
    forall i, j, p: seq<Value>, q: seq<Value> {:trigger Le(a[i], a[j]), Le(List(p), List(q))} ::
      0 <= i < |a| && 0 <= j < |a| && multiset(a[i].items) != multiset(a[j].items)
      && multiset(p) == multiset(a[i].items) && multiset(q) == multiset(a[j].items)
      ==> (Le(List(p), List(q)) <==> Le(a[i], a[j]))
  }

  lemma SeparatedAt(a: seq<Value>, i: nat, j: nat, p: seq<Value>, q: seq<Value>)
    requires AllLists(a) && Separated(a) && i < |a| && j < |a|
    requires multiset(a[i].items) != multiset(a[j].items)
    requires multiset(p) == multiset(a[i].items) && multiset(q) == multiset(a[j].items)
    ensures Le(List(p), List(q)) <==> Le(a[i], a[j])
  {
    hide Le;
  }

  /** Then the form is the outer sort of the elements sorted inside. */
  lemma SeparatedForm(a: seq<Value>, b: seq<Value>, k: Sortable)
    requires Nested(a, k) && Nested(b, k)
    requires AllLists(a) && AllLists(b)
    requires Separated(a) && SameInside(a, b)
    ensures Deep(List(b)) == List(Sort(SortedInside(a)))
  {
    hide Le, Sort, Deep, Nested, Separated;
    NestedSort(b, k);
    DeepNested(b, k);
    var r := SortedInside(Sort(b));
    forall i, j | 0 <= i < j < |r| ensures Le(r[i], r[j]) {
      OrderKept(a, b, k, i, j);
    }
    NestedSort(a, k);
    SameMultiset(a, b, k);
    NestedKind(SortedInside(a), k);
    SortAscending(SortedInside(a), Lists(k));
    AscendingUnique(Sort(SortedInside(a)), r, Lists(k));
  }

  lemma OrderKept(a: seq<Value>, b: seq<Value>, k: Sortable, i: nat, j: nat)
    requires Nested(a, k) && Nested(b, k) && Nested(Sort(b), k)
    requires AllLists(a) && AllLists(b)
    requires AllLists(Sort(b))
    requires Separated(a) && SameInside(a, b) && i < j < |Sort(b)|
    ensures Le(SortedInside(Sort(b))[i], SortedInside(Sort(b))[j])
  {
    hide Le, Sort, Separated;
    var s := Sort(b);
    var r := SortedInside(s);
    NestedSort(s, k);
    if multiset(s[i].items) == multiset(s[j].items) {
      NestedLists(s, k);
      SortEqualIff(s[i].items, s[j].items, k);
      KindOrder(r[i], r[j], r[i], Lists(k));
    } else {
      SortAscending(b, Lists(k));
      assert s[i] in multiset(s) && s[j] in multiset(s);
      var m :| 0 <= m < |b| && b[m] == s[i];
      var n :| 0 <= n < |b| && b[n] == s[j];
      SeparatedAt(a, m, n, s[i].items, s[j].items);
      SeparatedAt(a, m, n, r[i].items, r[j].items);
    }
  }

  lemma SameMultiset(a: seq<Value>, b: seq<Value>, k: Sortable)
    requires Nested(a, k) && Nested(b, k) && AllLists(a) && AllLists(b)
    requires SameInside(a, b)
    ensures AllLists(Sort(b))
    ensures multiset(SortedInside(Sort(b))) == multiset(Sort(SortedInside(a)))
  {
    hide Le, Sort;
    NestedSort(b, k);
    NestedLists(a, k);
    SameSortedInside(a, b, k);
    InsidePermuted(b, Sort(b));
  }

  function SortItems(v: Value): Value {
    if v.List? then List(Sort(v.items)) else v
  }

  lemma InsidePermuted(a: seq<Value>, b: seq<Value>)
    requires AllLists(a) && AllLists(b) && multiset(a) == multiset(b)
    ensures multiset(SortedInside(a)) == multiset(SortedInside(b))
  {
    hide Sort;
    assert SortedInside(a) == MapSeq(SortItems, a) && SortedInside(b) == MapSeq(SortItems, b);
    MapPermuted(SortItems, a, b);
  }

  /** a with the items of two of its elements put in a given order, wherever they occur. */
  function Arranged(a: seq<Value>, p: seq<Value>, q: seq<Value>): (b: seq<Value>)
    requires AllLists(a)
    ensures |b| == |a| && forall i :: 0 <= i < |a| ==>
              b[i] == if multiset(a[i].items) == multiset(p) then List(p)
                      else if multiset(a[i].items) == multiset(q) then List(q) else a[i]
  {
    seq(|a|, i requires 0 <= i < |a| =>
          if multiset(a[i].items) == multiset(p) then List(p)
          else if multiset(a[i].items) == multiset(q) then List(q) else a[i])
  }

  lemma ArrangedNested(a: seq<Value>, p: seq<Value>, q: seq<Value>, k: Sortable)
    requires Nested(a, k) && AllLists(a)
    ensures Nested(Arranged(a, p, q), k) && SameInside(a, Arranged(a, p, q))
  {
    hide Le, Sort;
    NestedLists(a, k);
    var b := Arranged(a, p, q);
    forall i | 0 <= i < |b| ensures OfKind(b[i], Lists(k)) {
      KindElements(a[i].items, b[i].items, k);
    }
  }

  /** In the sorted list all occurrences of the smaller element come first. */
  lemma SmallerFirst(b: seq<Value>, k: Sortable, x: Value, y: Value, m: nat, n: nat)
    requires AllOfKind(b, k) && m < |Sort(b)| && n < |Sort(b)| && Sort(b)[m] == x && Sort(b)[n] == y
    requires Le(x, y) && x != y
    ensures m < n
  {
    hide Le, Sort, OfKind;
    SortAscending(b, k);
    KindOrder(x, y, x, k);
  }

  /** Two arrangements that order a pair differently give different forms. */
  lemma ArrangementsDiffer(a: seq<Value>, k: Sortable, i: nat, j: nat,
                           p: seq<Value>, q: seq<Value>, p': seq<Value>, q': seq<Value>)
    requires Nested(a, k) && AllLists(a) && i < |a| && j < |a|
    requires multiset(p) == multiset(p') == multiset(a[i].items) && multiset(q) == multiset(q') == multiset(a[j].items)
    requires multiset(p) != multiset(q) && Le(List(p), List(q)) && Le(List(q'), List(p'))
    ensures Deep(List(Arranged(a, p, q))) != Deep(List(Arranged(a, p', q')))
  {
    hide Le, Sort, Deep, Nested;
    var b, c := Arranged(a, p, q), Arranged(a, p', q');
    ArrangedNested(a, p, q, k);
    ArrangedNested(a, p', q', k);
    NestedEqualIff(b, c, k);
    if SameInside(Sort(b), Sort(c)) {
      var m := PlaceOf(b, i);
      var n := PlaceOf(b, j);
      NestedKind(b, k);
      NestedKind(c, k);
      SmallerFirst(b, Lists(k), List(p), List(q), m, n);
      ArrangedAt(a, k, p', q', m);
      ArrangedAt(a, k, p', q', n);
      SmallerFirst(c, Lists(k), List(q'), List(p'), n, m);
    }
  }

  lemma PlaceOf(b: seq<Value>, i: nat) returns (m: nat)
    requires i < |b|
    ensures m < |Sort(b)| && Sort(b)[m] == b[i]
  {
    hide Sort;
    assert b[i] in multiset(Sort(b));
    m :| 0 <= m < |Sort(b)| && Sort(b)[m] == b[i];
  }

  /** An element of the arranged list with the items of p or q is p or q. */
  lemma ArrangedAt(a: seq<Value>, k: Sortable, p: seq<Value>, q: seq<Value>, m: nat)
    requires Nested(a, k) && AllLists(a) && m < |Sort(Arranged(a, p, q))|
    requires Sort(Arranged(a, p, q))[m].List?
    ensures var x := Sort(Arranged(a, p, q))[m];
            && (multiset(x.items) == multiset(p) ==> x == List(p))
            && (multiset(x.items) == multiset(q) && multiset(p) != multiset(q) ==> x == List(q))
  {
    hide Sort, Le;
    var b := Arranged(a, p, q);
    assert Sort(b)[m] in multiset(Sort(b));
    var i :| 0 <= i < |b| && b[i] == Sort(b)[m];
  }

  /** The form of a list of lists is the same for every order of the items inside exactly when
      its elements are separated. */
  lemma CanonicalNestedIff(a: seq<Value>, k: Sortable)
    requires Nested(a, k)
    ensures AllLists(a)
    ensures (forall b :: Nested(b, k) && Reordered(a, b) ==> Deep(List(b)) == Deep(List(a))) <==> Separated(a)
  {
    hide Le, Sort, Deep, Nested, Separated;
    NestedLists(a, k);
    if Separated(a) {
      SeparatedForm(a, a, k);
      forall b | Nested(b, k) && Reordered(a, b) ensures Deep(List(b)) == Deep(List(a)) {
        SeparatedForm(a, b, k);
      }
    } else {
      var b := Counterexample(a, k);
    }
  }

  ghost predicate Reordered(a: seq<Value>, b: seq<Value>) {
    && AllLists(a) && AllLists(b)
    && SameInside(a, b)
  }

  lemma Counterexample(a: seq<Value>, k: Sortable) returns (b: seq<Value>)
    requires Nested(a, k) && AllLists(a) && !Separated(a)
    ensures Nested(b, k) && Reordered(a, b) && Deep(List(b)) != Deep(List(a))
  {
    hide Le, Sort, Deep, Nested, Arranged, SameInside, Separated;
    var i, j, p, q := NotSeparated(a);
    ArrangedNested(a, p, q, k);
    ArrangedNested(a, a[i].items, a[j].items, k);
    SomeArrangement(a, k, i, j, p, q);
    var c := Arranged(a, p, q);
    b := if Deep(List(c)) != Deep(List(a)) then c else Arranged(a, a[i].items, a[j].items);
  }

  lemma NotSeparated(a: seq<Value>) returns (i: nat, j: nat, p: seq<Value>, q: seq<Value>)
    requires AllLists(a) && !Separated(a)
    ensures i < |a| && j < |a| && multiset(a[i].items) != multiset(a[j].items)
    ensures multiset(p) == multiset(a[i].items) && multiset(q) == multiset(a[j].items)
    ensures Le(List(p), List(q)) <==> !Le(a[i], a[j])
  {
    hide Le;
    i, j, p, q :| 0 <= i < |a| && 0 <= j < |a| && multiset(a[i].items) != multiset(a[j].items)
      && multiset(p) == multiset(a[i].items) && multiset(q) == multiset(a[j].items)
      && (Le(List(p), List(q)) <==> !Le(a[i], a[j]));
  }

  lemma SomeArrangement(a: seq<Value>, k: Sortable, i: nat, j: nat, p: seq<Value>, q: seq<Value>)
    requires Nested(a, k) && AllLists(a) && i < |a| && j < |a| && multiset(a[i].items) != multiset(a[j].items)
    requires multiset(p) == multiset(a[i].items) && multiset(q) == multiset(a[j].items)
    requires Le(List(p), List(q)) <==> !Le(a[i], a[j])
    ensures Deep(List(Arranged(a, p, q))) != Deep(List(Arranged(a, a[i].items, a[j].items)))
  {
    hide Le, Sort, Deep, Nested, Arranged;
    var x, y := a[i].items, a[j].items;
    PairOrder(a, k, i, j, p, q);
    if Le(List(p), List(q)) {
      ArrangementsDiffer(a, k, i, j, p, q, x, y);
    } else {
      ArrangementsDiffer(a, k, i, j, x, y, p, q);
    }
  }

  lemma PairOrder(a: seq<Value>, k: Sortable, i: nat, j: nat, p: seq<Value>, q: seq<Value>)
    requires Nested(a, k) && AllLists(a) && i < |a| && j < |a|
    requires multiset(p) == multiset(a[i].items) && multiset(q) == multiset(a[j].items)
    ensures (Le(a[i], a[j]) || Le(a[j], a[i])) && (Le(List(p), List(q)) || Le(List(q), List(p)))
  {
    hide Le;
    NestedLists(a, k);
    KindElements(a[i].items, p, k);
    KindElements(a[j].items, q, k);
    KindOrder(a[i], a[j], a[i], Lists(k));
    KindOrder(List(p), List(q), List(p), Lists(k));
  }

  /** A list of lists is sorted before its elements are, so the order inside an element
      matters, and a second sort may change the result of the first. */
  lemma NestedListsNotCanonical()
    ensures var a := List([List([Num(2), Num(1)]), List([Num(1), Num(3)])]);
            var b := List([List([Num(1), Num(2)]), List([Num(1), Num(3)])]);
            Deep(a) != Deep(b) && Deep(Deep(a)) != Deep(a)
  {
    hide Deep, Le, Sort;
    var x, x', y := List([Num(2), Num(1)]), List([Num(1), Num(2)]), List([Num(1), Num(3)]);
    SmallLists();
    PairDeep(x, y);
    PairDeep(x', y);
    PairDeep(y, x');
    assert y.items[1] != x'.items[1];
    assert [y, x'][0] != [x', y][0];
  }

  lemma SmallLists()
    ensures var x, x', y := List([Num(2), Num(1)]), List([Num(1), Num(2)]), List([Num(1), Num(3)]);
            && !Le(x, y) && Le(x', y) && !Le(y, x')
            && Deep(x) == x' && Deep(x') == x' && Deep(y) == y
  {
    hide Deep, Sort;
    var x', y := List([Num(1), Num(2)]), List([Num(1), Num(3)]);
    assert x'.items[1..] == [Num(2)] && y.items[1..] == [Num(3)];
    Scalars();
    PairDeep(Num(2), Num(1));
    PairDeep(Num(1), Num(2));
    PairDeep(Num(1), Num(3));
  }

  lemma Scalars()
    ensures forall n :: Deep(Num(n)) == Num(n)
  {
  }

  lemma {:induction false} PairSort(a: Value, b: Value)
    ensures Sort([a, b]) == if Le(a, b) then [a, b] else [b, a]
  {
    hide Le, Insert;
    SortOne(b);
    InsertPair(a, b);
    assert [a, b][0] == a && [a, b][1..] == [b];
  }

  lemma {:induction false} SortOne(b: Value)
    ensures Sort([b]) == [b]
  {
    hide Le;
    assert [b][1..] == [] && Sort([]) == [] && Insert(b, []) == [b];
  }

  lemma {:induction false} InsertPair(a: Value, b: Value)
    ensures Insert(a, [b]) == if Le(a, b) then [a, b] else [b, a]
  {
    hide Le, Sort;
    assert [b][1..] == [] && Insert(a, []) == [a];
  }

  lemma DeepList(items: seq<Value>)
    ensures Deep(List(items)).List? && |Deep(List(items)).items| == |Sort(items)|
    ensures forall i :: 0 <= i < |Sort(items)| ==> Deep(List(items)).items[i] == Deep(Sort(items)[i])
  {
    hide Sort;
  }

  lemma PairDeep(a: Value, b: Value)
    ensures Deep(List([a, b])) == List(if Le(a, b) then [Deep(a), Deep(b)] else [Deep(b), Deep(a)])
  {
    hide Le, Deep, Sort;
    PairSort(a, b);
    DeepList([a, b]);
    assert Deep(List([a, b])).items == if Le(a, b) then [Deep(a), Deep(b)] else [Deep(b), Deep(a)];
  }
}
