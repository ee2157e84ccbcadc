/** Any tree of merges: where each fact comes from, which fact wins, and when the
    grouping of the merges matters. */
module MergeTrees {
  import opened OrderedDict
  import opened Fingerprints
  import opened MergeLaws

  datatype Tree = Leaf(fp: Fingerprint) | Node(left: Tree, right: Tree)

  function Leaves(t: Tree): (s: seq<Fingerprint>)
    ensures |s| > 0
  {
    match t
    case Leaf(fp) => [fp]
    case Node(l, r) => Leaves(l) + Leaves(r)
  }

  /** No merge in the tree raises a lookup error. */
  predicate Evaluable(t: Tree)
    decreases t, 0
  {
    match t
    case Leaf(_) => true
    case Node(l, r) => Evaluable(l) && Evaluable(r) && Mergeable(Eval(l), Eval(r), NotGiven)
  }

  function Eval(t: Tree): Fingerprint
    requires Evaluable(t)
    decreases t, 1
  {
    match t
    case Leaf(fp) => fp
    case Node(l, r) => Merge(Eval(l), Eval(r), NotGiven)
  }

  predicate AllWellFormed(fps: seq<Fingerprint>) {
    forall i :: 0 <= i < |fps| ==> WellFormed(fps[i])
  }

  function CellsOf(fps: seq<Fingerprint>, k: string): (cs: seq<Cell>)
    ensures |cs| == |fps|
    ensures forall i :: 0 <= i < |fps| ==> cs[i] == FactAt(fps[i], k)
  {
    seq(|fps|, i requires 0 <= i < |fps| => FactAt(fps[i], k))
  }

  function FactNames(fps: seq<Fingerprint>): set<string> {
    set i, k | 0 <= i < |fps| && k in fps[i].facts :: k
  }

  lemma SplitWellFormed(t: Tree)
    requires t.Node? && AllWellFormed(Leaves(t))
    ensures AllWellFormed(Leaves(t.left)) && AllWellFormed(Leaves(t.right))
  {
    var l, r := Leaves(t.left), Leaves(t.right);
    forall i | 0 <= i < |l| ensures WellFormed(l[i]) { assert Leaves(t)[i] == l[i]; }
    forall i | 0 <= i < |r| ensures WellFormed(r[i]) { assert Leaves(t)[|l| + i] == r[i]; }
  }

  lemma {:induction false} EvalFactNames(t: Tree)
    requires Evaluable(t) && AllWellFormed(Leaves(t))
    ensures WellFormed(Eval(t))
    ensures Eval(t).facts.Keys == FactNames(Leaves(t))
  {
    match t
    case Leaf(fp) =>
      assert Leaves(t)[0] == fp;
    case Node(l, r) =>
      SplitWellFormed(t);
      EvalFactNames(l);
      EvalFactNames(r);
      MergeFactAt(Eval(l), Eval(r), NotGiven, "");
      FactNamesConcat(Leaves(l), Leaves(r));
  }

  lemma {:induction false} TreeCellFrom(t: Tree, k: string)
    ensures TreeCell(t, k) in CellsOf(Leaves(t), k)
  {
    match t
    case Leaf(fp) =>
      assert CellsOf(Leaves(t), k)[0] == FactAt(fp, k);
    case Node(l, r) =>
      TreeCellFrom(l, k);
      TreeCellFrom(r, k);
      assert CellsOf(Leaves(t), k) == CellsOf(Leaves(l), k) + CellsOf(Leaves(r), k);
  }

  /** Provenance: facts and metadata stay paired, the facts are exactly those of the
      inputs, and every (value, metadata) pair is one that some input carried. */
  lemma Provenance(t: Tree, k: string)
    requires Evaluable(t) && AllWellFormed(Leaves(t))
    ensures WellFormed(Eval(t))
    ensures Eval(t).facts.Keys == FactNames(Leaves(t))
    ensures k in FactNames(Leaves(t)) ==>
              FactAt(Eval(t), k).Cell? &&
              exists i :: 0 <= i < |Leaves(t)| && FactAt(Eval(t), k) == FactAt(Leaves(t)[i], k)
  {
    EvalFactNames(t);
    EvalCell(t, k);
    TreeCellFrom(t, k);
    var cs := CellsOf(Leaves(t), k);
    var i :| 0 <= i < |cs| && cs[i] == TreeCell(t, k);
    assert FactAt(Eval(t), k) == FactAt(Leaves(t)[i], k);
  }

  lemma FactNamesConcat(a: seq<Fingerprint>, b: seq<Fingerprint>)
    ensures FactNames(a + b) == FactNames(a) + FactNames(b)
  {
    forall k | k in FactNames(a) ensures k in FactNames(a + b) {
      var i :| 0 <= i < |a| && k in a[i].facts;
      assert (a + b)[i] == a[i];
    }
    forall k | k in FactNames(b) ensures k in FactNames(a + b) {
      var i :| 0 <= i < |b| && k in b[i].facts;
      assert (a + b)[|a| + i] == b[i];
    }
  }

  /* ---------- one fact through a tree ---------- */

  function TreeCell(t: Tree, k: string): Cell {
    match t
    case Leaf(fp) => FactAt(fp, k)
    case Node(l, r) => Pick(TreeCell(l, k), TreeCell(r, k))
  }

  lemma EvalCell(t: Tree, k: string)
    requires Evaluable(t) && AllWellFormed(Leaves(t))
    ensures WellFormed(Eval(t)) && FactAt(Eval(t), k) == TreeCell(t, k)
  {
    match t
    case Leaf(fp) =>
      assert Leaves(t)[0] == fp;
    case Node(l, r) =>
      SplitWellFormed(t);
      EvalCell(l, k);
      EvalCell(r, k);
      MergeFactAt(Eval(l), Eval(r), NotGiven, k);
  }

  predicate HasStrong(cs: seq<Cell>) {
    exists i :: 0 <= i < |cs| && Strong(cs[i])
  }

  lemma StrongInTree(t: Tree, k: string)
    ensures Strong(TreeCell(t, k)) <==> HasStrong(CellsOf(Leaves(t), k))
  {
    match t
    case Leaf(fp) =>
      assert CellsOf(Leaves(t), k)[0] == FactAt(fp, k);
    case Node(l, r) =>
      var a, b := CellsOf(Leaves(l), k), CellsOf(Leaves(r), k);
      assert CellsOf(Leaves(t), k) == a + b;
      if HasStrong(a) {
        var i :| 0 <= i < |a| && Strong(a[i]);
        assert Strong((a + b)[i]);
      }
      if HasStrong(b) {
        var i :| 0 <= i < |b| && Strong(b[i]);
        assert Strong((a + b)[|a| + i]);
      }
  }

  /** Whatever the grouping, the leftmost value collected with sudo wins. */
  lemma {:induction false} LeftmostStrongWins(t: Tree, k: string, i: nat)
    requires Evaluable(t) && AllWellFormed(Leaves(t))
    requires i < |Leaves(t)| && Strong(FactAt(Leaves(t)[i], k))
    requires forall j :: 0 <= j < i ==> !Strong(FactAt(Leaves(t)[j], k))
    ensures FactAt(Eval(t), k) == FactAt(Leaves(t)[i], k)
  {
    EvalCell(t, k);
    LeftmostStrongCell(t, k, i);
  }

  lemma {:induction false} LeftmostStrongCell(t: Tree, k: string, i: nat)
    requires i < |Leaves(t)| && Strong(FactAt(Leaves(t)[i], k))
    requires forall j :: 0 <= j < i ==> !Strong(FactAt(Leaves(t)[j], k))
    ensures TreeCell(t, k) == FactAt(Leaves(t)[i], k)
  {
    match t
    case Leaf(_) =>
    case Node(l, r) =>
      var a := Leaves(l);
      if i < |a| {
        forall j | 0 <= j < i ensures !Strong(FactAt(a[j], k)) {
          assert Leaves(t)[j] == a[j];
        }
        LeftmostStrongCell(l, k, i);
      } else {
        forall j | 0 <= j < |a| ensures !Strong(FactAt(a[j], k)) {
          assert Leaves(t)[j] == a[j];
        }
        StrongInTree(l, k);
        forall j | 0 <= j < i - |a| ensures !Strong(FactAt(Leaves(r)[j], k)) {
          assert Leaves(t)[|a| + j] == Leaves(r)[j];
        }
        LeftmostStrongCell(r, k, i - |a|);
      }
  }

  /* ---------- grouping ---------- */

  /** Two pairs of facts of the middle rank displace each other in both directions, so
      merging is not associative; these are the only triples for which it is not. */
  lemma PickAssociativeIff(a: Cell, b: Cell, c: Cell)
    ensures Pick(Pick(a, b), c) == Pick(a, Pick(b, c)) <==>
            !(a != c && ((Plain(a) && SudoNull(b) && Plain(c)) || (SudoNull(a) && Plain(b) && SudoNull(c))))
  {
  }

  /** A fingerprint with one fact and nothing else. */
  function OneFact(k: string, value: Value, sudo: bool): Fingerprint {
    Fingerprint(map[k := value], map[k := Meta("s", "lab", "network", k, sudo)], map[], Some([]), Some([]), None)
  }

  /** The two groupings of three fingerprints, for one fact. */
  lemma TwoGroupings(a: Fingerprint, b: Fingerprint, c: Fingerprint, names: seq<string>, k: string)
    requires AllBuilt([a, b, c], names)
    ensures var left, right := Node(Node(Leaf(a), Leaf(b)), Leaf(c)), Node(Leaf(a), Node(Leaf(b), Leaf(c)));
            && Leaves(left) == Leaves(right) == [a, b, c] && Evaluable(left) && Evaluable(right)
            && FactAt(Eval(left), k) == Pick(Pick(FactAt(a, k), FactAt(b, k)), FactAt(c, k))
            && FactAt(Eval(right), k) == Pick(FactAt(a, k), Pick(FactAt(b, k), FactAt(c, k)))
  {
    hide Eval, Evaluable, Built, FactAt, Pick;
    var left, right := Node(Node(Leaf(a), Leaf(b)), Leaf(c)), Node(Leaf(a), Node(Leaf(b), Leaf(c)));
    PairLeaves(a, b);
    PairLeaves(b, c);
    assert Leaves(left) == Leaves(right) == [a, b, c];
    BuiltTreesEvaluate(left, names);
    BuiltTreesEvaluate(right, names);
    AllBuiltWellFormed([a, b, c], names);
    EvalCell(left, k);
    EvalCell(right, k);
    assert TreeCell(left.left, k) == Pick(FactAt(a, k), FactAt(b, k));
    assert TreeCell(right.right, k) == Pick(FactAt(b, k), FactAt(c, k));
  }

  lemma PairLeaves(a: Fingerprint, b: Fingerprint)
    ensures Leaves(Node(Leaf(a), Leaf(b))) == [a, b]
  {
  }

  lemma AllBuiltWellFormed(fps: seq<Fingerprint>, names: seq<string>)
    requires AllBuilt(fps, names)
    ensures AllWellFormed(fps)
  {
  }

  /** Three such fingerprints, merged from the left and from the right: the first grouping ends
      with the last value, the second with the first. */
  lemma MergeNotAssociative(k: string)
    ensures var a, b, c := OneFact(k, One(Number(1)), false), OneFact(k, Null, true), OneFact(k, One(Number(2)), false);
            var left, right := Node(Node(Leaf(a), Leaf(b)), Leaf(c)), Node(Leaf(a), Node(Leaf(b), Leaf(c)));
            && Leaves(left) == Leaves(right) == [a, b, c] && Evaluable(left) && Evaluable(right)
            && FactAt(Eval(left), k) == FactAt(c, k) && FactAt(Eval(right), k) == FactAt(a, k)
            && FactAt(a, k).value == One(Number(1)) && FactAt(c, k).value == One(Number(2))
  {
    hide Eval, Evaluable, Leaves;
    var a, b, c := OneFact(k, One(Number(1)), false), OneFact(k, Null, true), OneFact(k, One(Number(2)), false);
    TwoGroupings(a, b, c, [], k);
  }

  datatype Rank = Neither | PlainRank | SudoNullRank

  function RankOf(c: Cell): Rank {
    if Plain(c) then PlainRank else if SudoNull(c) then SudoNullRank else Neither
  }

  /** The rank of the last middle-rank cell. */
  function LastRank(cs: seq<Cell>): Rank {
    if cs == [] then Neither
    else if RankOf(cs[|cs| - 1]) != Neither then RankOf(cs[|cs| - 1])
    else LastRank(cs[..|cs| - 1])
  }

  lemma LastRankConcat(a: seq<Cell>, b: seq<Cell>)
    ensures LastRank(a + b) == if LastRank(b) == Neither then LastRank(a) else LastRank(b)
  {
    if b == [] {
      assert a + b == a;
    } else {
      LastRankConcat(a, b[..|b| - 1]);
      assert (a + b)[..|a + b| - 1] == a + b[..|b| - 1];
    }
  }

  /** Position i starts a run of middle-rank cells of one kind. */
  predicate RunStart(cs: seq<Cell>, i: nat) {
    i < |cs| && RankOf(cs[i]) != Neither && LastRank(cs[..i]) != RankOf(cs[i])
  }

  /** The run starts that some grouping can produce. */
  predicate Contender(cs: seq<Cell>, i: nat) {
    RunStart(cs, i) && RankOf(cs[i]) == LastRank(cs)
  }

  /** All groupings of these cells agree. */
  ghost predicate Settled(cs: seq<Cell>) {
    HasStrong(cs) || forall i: nat, j: nat :: Contender(cs, i) && Contender(cs, j) ==> cs[i] == cs[j]
  }

  /** Without a strong cell and without a middle-rank cell, the first cell present wins. */
  function FirstPresent(cs: seq<Cell>): Cell {
    if cs == [] then Missing else if cs[0].Cell? then cs[0] else FirstPresent(cs[1..])
  }

  lemma FirstPresentConcat(a: seq<Cell>, b: seq<Cell>)
    ensures FirstPresent(a + b) == if FirstPresent(a).Cell? then FirstPresent(a) else FirstPresent(b)
  {
    if a == [] {
      assert a + b == b;
    } else {
      FirstPresentConcat(a[1..], b);
      assert (a + b)[1..] == a[1..] + b;
    }
  }

  lemma {:induction false} WeakOutcome(t: Tree, k: string)
    requires !HasStrong(CellsOf(Leaves(t), k)) && LastRank(CellsOf(Leaves(t), k)) == Neither
    ensures TreeCell(t, k) == FirstPresent(CellsOf(Leaves(t), k))
    ensures RankOf(TreeCell(t, k)) == Neither && !Strong(TreeCell(t, k))
  {
    var cs := CellsOf(Leaves(t), k);
    match t
    case Leaf(fp) =>
      assert cs == [FactAt(fp, k)];
    case Node(l, r) =>
      var a, b := CellsOf(Leaves(l), k), CellsOf(Leaves(r), k);
      assert cs == a + b;
      LastRankConcat(a, b);
      FirstPresentConcat(a, b);
      StrongInTree(t, k);
      StrongInTree(l, k);
      StrongInTree(r, k);
      WeakOutcome(l, k);
      WeakOutcome(r, k);
  }

  lemma CellsConcat(l: Tree, r: Tree, k: string)
    ensures CellsOf(Leaves(Node(l, r)), k) == CellsOf(Leaves(l), k) + CellsOf(Leaves(r), k)
  {
    hide FactAt;
  }

  lemma NotStrongParts(a: seq<Cell>, b: seq<Cell>)
    requires !HasStrong(a + b)
    ensures !HasStrong(a) && !HasStrong(b)
  {
    NotStrongSlices(a + b, |a|);
    assert (a + b)[..|a|] == a && (a + b)[|a|..] == b;
  }

  /** The pick of a contender of each side is a contender of both sides together. */
  lemma {:induction false} JoinContenders(a: seq<Cell>, b: seq<Cell>, ca: Cell, cb: Cell, x: nat,
                                          y: nat) returns (i: nat)
    requires !Strong(ca) && !Strong(cb) && LastRank(a + b) != Neither
    requires if LastRank(a) == Neither then RankOf(ca) == Neither else Contender(a, x) && ca == a[x]
    requires if LastRank(b) == Neither then RankOf(cb) == Neither else Contender(b, y) && cb == b[y]
    ensures Contender(a + b, i) && Pick(ca, cb) == (a + b)[i]
  {
    hide LastRank;
    LastRankConcat(a, b);
    if LastRank(b) == Neither || LastRank(a) == LastRank(b) {
      i := x;
      assert (a + b)[..x] == a[..x];
    } else {
      i := |a| + y;
      assert (a + b)[..i] == a + b[..y];
      LastRankConcat(a, b[..y]);
    }
  }

  /** Without a strong cell, every grouping yields the cell of some contender. */
  lemma {:induction false} Outcome(t: Tree, k: string) returns (i: nat)
    requires !HasStrong(CellsOf(Leaves(t), k)) && LastRank(CellsOf(Leaves(t), k)) != Neither
    ensures Contender(CellsOf(Leaves(t), k), i)
    ensures TreeCell(t, k) == CellsOf(Leaves(t), k)[i]
    decreases t, 1
  {
    match t
    case Leaf(fp) =>
      assert CellsOf(Leaves(t), k) == [FactAt(fp, k)];
      i := 0;
    case Node(l, r) =>
      i := NodeOutcome(l, r, k);
  }

  lemma {:induction false} NodeOutcome(l: Tree, r: Tree, k: string) returns (i: nat)
    requires !HasStrong(CellsOf(Leaves(Node(l, r)), k)) && LastRank(CellsOf(Leaves(Node(l, r)), k)) != Neither
    ensures Contender(CellsOf(Leaves(Node(l, r)), k), i)
    ensures TreeCell(Node(l, r), k) == CellsOf(Leaves(Node(l, r)), k)[i]
    decreases Node(l, r), 0
  {
    hide Pick, RankOf, LastRank, HasStrong, CellsOf, Leaves, Strong, Contender;
    var a, b := CellsOf(Leaves(l), k), CellsOf(Leaves(r), k);
    CellsConcat(l, r, k);
    NotStrongParts(a, b);
    StrongInTree(l, k);
    StrongInTree(r, k);
    var x, y := 0, 0;
    if LastRank(a) != Neither { x := Outcome(l, k); } else { WeakOutcome(l, k); }
    if LastRank(b) != Neither { y := Outcome(r, k); } else { WeakOutcome(r, k); }
    ContenderInRange(a, x);
    ContenderInRange(b, y);
    i := JoinContenders(a, b, TreeCell(l, k), TreeCell(r, k), x, y);
    ContenderInRange(a + b, i);
  }

  lemma ContenderInRange(cs: seq<Cell>, i: nat)
    ensures Contender(cs, i) ==> i < |cs|
  {
  }

  /** Right-nested merges. */
  function RightComb(fps: seq<Fingerprint>): (t: Tree)
    requires fps != []
    ensures Leaves(t) == fps
  {
    if |fps| == 1 then Leaf(fps[0]) else Node(Leaf(fps[0]), RightComb(fps[1..]))
  }

  lemma {:induction false} RightCombKeepsFirst(fps: seq<Fingerprint>, k: string)
    requires fps != [] && !HasStrong(CellsOf(fps, k))
    requires RankOf(FactAt(fps[0], k)) != Neither && RankOf(FactAt(fps[0], k)) == LastRank(CellsOf(fps, k))
    ensures TreeCell(RightComb(fps), k) == FactAt(fps[0], k)
  {
    hide FactAt, CellsOf, HasStrong, LastRank;
    if |fps| > 1 {
      var c, tail := FactAt(fps[0], k), CellsOf(fps[1..], k);
      CellsCons(fps, k);
      LastRankConcat([c], tail);
      NotStrongParts([c], tail);
      RestYields(RightComb(fps[1..]), k, c);
    }
  }

  lemma CellsCons(fps: seq<Fingerprint>, k: string)
    requires fps != []
    ensures CellsOf(fps, k) == [FactAt(fps[0], k)] + CellsOf(fps[1..], k)
  {
    hide FactAt;
  }

  /** A tree that does not end in another rank does not displace a middle-rank cell. */
  lemma {:induction false} RestYields(t: Tree, k: string, c: Cell)
    requires !HasStrong(CellsOf(Leaves(t), k)) && !Strong(c) && RankOf(c) != Neither
    requires LastRank(CellsOf(Leaves(t), k)) in {Neither, RankOf(c)}
    ensures Pick(c, TreeCell(t, k)) == c
  {
    hide LastRank, HasStrong, CellsOf, Leaves, TreeCell, FactAt;
    StrongInTree(t, k);
    if LastRank(CellsOf(Leaves(t), k)) == Neither {
      WeakOutcome(t, k);
    } else {
      var _ := Outcome(t, k);
    }
  }

  /** Every contender is the outcome of some grouping. */
  function TreeFor(fps: seq<Fingerprint>, i: nat): (t: Tree)
    requires i < |fps|
    ensures Leaves(t) == fps
  {
    if i == 0 then RightComb(fps)
    else assert fps == fps[..i] + fps[i..]; Node(RightComb(fps[..i]), RightComb(fps[i..]))
  }

  lemma NotStrongSlices(cs: seq<Cell>, i: nat)
    requires !HasStrong(cs) && i <= |cs|
    ensures !HasStrong(cs[..i]) && !HasStrong(cs[i..])
  {
    forall j | 0 <= j < i ensures !Strong(cs[..i][j]) { assert !Strong(cs[j]); }
    forall j | 0 <= j < |cs| - i ensures !Strong(cs[i..][j]) { assert !Strong(cs[i + j]); }
  }

  lemma FrontYields(fps: seq<Fingerprint>, k: string, c: Cell)
    requires fps != [] && !HasStrong(CellsOf(fps, k))
    requires RankOf(c) != Neither && LastRank(CellsOf(fps, k)) != RankOf(c)
    ensures Pick(TreeCell(RightComb(fps), k), c) == c
  {
    if LastRank(CellsOf(fps, k)) == Neither {
      WeakOutcome(RightComb(fps), k);
    } else {
      var _ := Outcome(RightComb(fps), k);
    }
  }

  lemma {:induction false} ContenderReached(fps: seq<Fingerprint>, k: string, i: nat)
    requires !HasStrong(CellsOf(fps, k)) && Contender(CellsOf(fps, k), i)
    ensures TreeCell(TreeFor(fps, i), k) == CellsOf(fps, k)[i]
  {
    var cs := CellsOf(fps, k);
    CellsSlices(fps, k, i);
    assert RankOf(cs[i..][0]) != Neither && RankOf(cs[i]) == LastRank(cs) && LastRank(cs[..i]) != RankOf(cs[i]);
    hide LastRank, HasStrong, CellsOf, Contender, RankOf;
    LastRankConcat(cs[..i], cs[i..]);
    LastRankFirst(cs[i..]);
    NotStrongSlices(cs, i);
    RightCombKeepsFirst(fps[i..], k);
    if i == 0 {
      assert fps[i..] == fps;
    } else {
      FrontYields(fps[..i], k, cs[i]);
    }
  }

  lemma CellsSlices(fps: seq<Fingerprint>, k: string, i: nat)
    requires i <= |fps|
    ensures var cs := CellsOf(fps, k);
            cs == cs[..i] + cs[i..] && CellsOf(fps[..i], k) == cs[..i] && CellsOf(fps[i..], k) == cs[i..]
  {
    hide FactAt;
  }

  lemma LastRankFirst(cs: seq<Cell>)
    requires cs != [] && RankOf(cs[0]) != Neither
    ensures LastRank(cs) != Neither
  {
    LastRankConcat([cs[0]], cs[1..]);
    assert cs == [cs[0]] + cs[1..];
  }

  lemma FirstStrong(cs: seq<Cell>) returns (i: nat)
    requires HasStrong(cs)
    ensures i < |cs| && Strong(cs[i]) && forall j :: 0 <= j < i ==> !Strong(cs[j])
  {
    i := 0;
    while !Strong(cs[i])
      invariant i < |cs| && forall j :: 0 <= j < i ==> !Strong(cs[j])
      decreases |cs| - i
    {
      i := i + 1;
    }
  }

  /* ---------- products through a tree ---------- */

  predicate AllBuilt(fps: seq<Fingerprint>, names: seq<string>) {
    forall i :: 0 <= i < |fps| ==> Built(fps[i], names) && fps[i].gid.None?
  }

  lemma SplitBuilt(t: Tree, names: seq<string>)
    requires t.Node? && AllBuilt(Leaves(t), names)
    ensures AllBuilt(Leaves(t.left), names) && AllBuilt(Leaves(t.right), names)
  {
    var l, r := Leaves(t.left), Leaves(t.right);
    forall i | 0 <= i < |l| ensures Built(l[i], names) && l[i].gid.None? { assert Leaves(t)[i] == l[i]; }
    forall i | 0 <= i < |r| ensures Built(r[i], names) && r[i].gid.None? { assert Leaves(t)[|l| + i] == r[i]; }
  }

  /** Fingerprints of one shape can be merged in any tree, without a lookup error. */
  lemma {:induction false} BuiltTreesEvaluate(t: Tree, names: seq<string>)
    requires AllBuilt(Leaves(t), names)
    ensures Evaluable(t) && Built(Eval(t), names) && Eval(t).gid.None?
  {
    match t
    case Leaf(fp) =>
      assert Leaves(t)[0] == fp;
    case Node(l, r) =>
      SplitBuilt(t, names);
      BuiltTreesEvaluate(l, names);
      BuiltTreesEvaluate(r, names);
      CompatibleMerges(Eval(l), Eval(r), names, NotGiven);
  }

  /** The first product entry that is not ABSENT, or the first entry. */
  function LeadingProduct(fps: seq<Fingerprint>, n: nat): Product
    requires fps != [] && forall i :: 0 <= i < |fps| ==> fps[i].products.Some? && n < |fps[i].products.value|
  {
    if |fps| == 1 then fps[0].products.value[n]
    else BetterProduct(fps[0].products.value[n], LeadingProduct(fps[1..], n))
  }

  lemma LeadingConcat(a: seq<Fingerprint>, b: seq<Fingerprint>, n: nat)
    requires a != [] && b != []
    requires forall i :: 0 <= i < |a| ==> a[i].products.Some? && n < |a[i].products.value|
    requires forall i :: 0 <= i < |b| ==> b[i].products.Some? && n < |b[i].products.value|
    ensures LeadingProduct(a + b, n) == BetterProduct(LeadingProduct(a, n), LeadingProduct(b, n))
  {
    assert (a + b)[1..] == a[1..] + b;
    if |a| == 1 {
      assert (a + b)[1..] == b;
    } else {
      LeadingConcat(a[1..], b, n);
    }
  }

  lemma LeadingAbsent(fps: seq<Fingerprint>, n: nat)
    requires fps != [] && forall i :: 0 <= i < |fps| ==> fps[i].products.Some? && n < |fps[i].products.value|
    ensures LeadingProduct(fps, n).presence == ABSENT <==>
            forall i :: 0 <= i < |fps| ==> fps[i].products.value[n].presence == ABSENT
  {
    if |fps| > 1 {
      LeadingAbsent(fps[1..], n);
      assert forall i :: 1 <= i < |fps| ==> fps[i] == fps[1..][i - 1];
    }
  }

  lemma BuiltProducts(fps: seq<Fingerprint>, names: seq<string>, n: nat)
    requires AllBuilt(fps, names) && n < |names|
    ensures forall i :: 0 <= i < |fps| ==> fps[i].products.Some? && n < |fps[i].products.value|
  {
    hide WellFormed;
  }

  /** A merge of two fingerprints of one shape takes the better product at each position. */
  lemma MergedProductAt(p: Fingerprint, m: Fingerprint, names: seq<string>, n: nat)
    requires Built(p, names) && Built(m, names) && Mergeable(p, m, NotGiven) && n < |names|
    ensures var q := Merge(p, m, NotGiven).products;
            && q.Some? && p.products.Some? && m.products.Some?
            && n < |q.value| && n < |p.products.value| && n < |m.products.value|
            && q.value[n] == BetterProduct(p.products.value[n], m.products.value[n])
  {
    hide WellFormed, Mergeable, MergedFacts, MergedMeta, MergedEntitlements;
    ProductsAligned(p.products.value, m.products.value);
  }

  lemma {:induction false} LeadingOutcome(t: Tree, names: seq<string>, n: nat)
    requires AllBuilt(Leaves(t), names) && n < |names|
    ensures Evaluable(t) && Built(Eval(t), names) && Eval(t).products.Some? && n < |Eval(t).products.value|
    ensures forall i :: 0 <= i < |Leaves(t)| ==> Leaves(t)[i].products.Some? && n < |Leaves(t)[i].products.value|
    ensures Eval(t).products.value[n] == LeadingProduct(Leaves(t), n)
  {
    hide Built, Merge, Mergeable, AllBuilt, BetterProduct;
    BuiltTreesEvaluate(t, names);
    BuiltProducts(Leaves(t), names, n);
    match t
    case Leaf(fp) =>
      assert Leaves(t)[0] == fp;
    case Node(l, r) =>
      SplitBuilt(t, names);
      LeadingOutcome(l, names, n);
      LeadingOutcome(r, names, n);
      MergedProductAt(Eval(l), Eval(r), names, n);
      LeadingConcat(Leaves(l), Leaves(r), n);
  }

  /** Whatever the grouping, a product ends ABSENT exactly when it is ABSENT everywhere,
      and otherwise is the leftmost entry that is not. */
  lemma ProductOutcome(t: Tree, names: seq<string>, n: nat)
    requires AllBuilt(Leaves(t), names) && n < |names|
    ensures Evaluable(t) && Built(Eval(t), names)
    ensures Eval(t).products.value[n] == LeadingProduct(Leaves(t), n)
    ensures Eval(t).products.value[n].presence == ABSENT <==>
            forall i :: 0 <= i < |Leaves(t)| ==> Leaves(t)[i].products.value[n].presence == ABSENT
  {
    hide Built, Eval, Evaluable, LeadingProduct, Leaves, AllBuilt;
    LeadingOutcome(t, names, n);
    LeadingAbsent(Leaves(t), n);
  }

  /* ---------- when grouping matters ---------- */

  ghost predicate GroupingsAgree(fps: seq<Fingerprint>, k: string) {
    forall t, u :: Evaluable(t) && Evaluable(u) && Leaves(t) == fps && Leaves(u) == fps ==>
                     FactAt(Eval(t), k) == FactAt(Eval(u), k)
  }

  /** The exact condition under which the grouping of merges does not matter for a fact:
      a value collected with sudo is present, or all contenders carry the same pair. */
  lemma GroupingsAgreeIff(fps: seq<Fingerprint>, names: seq<string>, k: string)
    requires AllBuilt(fps, names)
    ensures GroupingsAgree(fps, k) <==> Settled(CellsOf(fps, k))
  {
    var cs := CellsOf(fps, k);
    if Settled(cs) {
      forall t, u | Evaluable(t) && Evaluable(u) && Leaves(t) == fps && Leaves(u) == fps
        ensures FactAt(Eval(t), k) == FactAt(Eval(u), k)
      {
        EvalCell(t, k);
        EvalCell(u, k);
        SettledOutcomes(t, u, k);
      }
    } else {
      var i: nat, j: nat :| Contender(cs, i) && Contender(cs, j) && cs[i] != cs[j];
      ContenderEvaluated(fps, names, k, i);
      ContenderEvaluated(fps, names, k, j);
      assert Leaves(TreeFor(fps, i)) == fps && Leaves(TreeFor(fps, j)) == fps;
    }
  }

  lemma ContenderEvaluated(fps: seq<Fingerprint>, names: seq<string>, k: string, i: nat)
    requires AllBuilt(fps, names) && !HasStrong(CellsOf(fps, k)) && Contender(CellsOf(fps, k), i)
    ensures Evaluable(TreeFor(fps, i)) && FactAt(Eval(TreeFor(fps, i)), k) == CellsOf(fps, k)[i]
  {
    BuiltTreesEvaluate(TreeFor(fps, i), names);
    EvalCell(TreeFor(fps, i), k);
    ContenderReached(fps, k, i);
  }

  lemma SettledOutcomes(t: Tree, u: Tree, k: string)
    requires Leaves(t) == Leaves(u) && Settled(CellsOf(Leaves(t), k))
    ensures TreeCell(t, k) == TreeCell(u, k)
  {
    var cs := CellsOf(Leaves(t), k);
    if HasStrong(cs) {
      var i := FirstStrong(cs);
      LeftmostStrongCell(t, k, i);
      LeftmostStrongCell(u, k, i);
    } else if LastRank(cs) == Neither {
      WeakOutcome(t, k);
      WeakOutcome(u, k);
    } else {
      var i := Outcome(t, k);
      var j := Outcome(u, k);
    }
  }
}
