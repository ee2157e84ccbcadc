/** Connection accounting of a network scan: a store of remaining hosts drained by callbacks,
    credential after credential, group after group. */
module Connections {
  import opened OrderedDict

  datatype Status = SUCCESS | FAILED | UNREACHABLE

  datatype Result = Result(name: string, status: Status)

  function Tally(rs: seq<Result>, s: Status): nat {
    if rs == [] then 0 else Tally(rs[..|rs| - 1], s) + if rs[|rs| - 1].status == s then 1 else 0
  }

  function Names(rs: seq<Result>): set<string> {
    set i | 0 <= i < |rs| :: rs[i].name
  }

  predicate DistinctNames(rs: seq<Result>) {
    forall i, j :: 0 <= i < j < |rs| ==> rs[i].name != rs[j].name
  }

  /** Every result is counted under exactly one status. */
  lemma TallyTotal(rs: seq<Result>)
    ensures Tally(rs, SUCCESS) + Tally(rs, FAILED) + Tally(rs, UNREACHABLE) == |rs|
  {
  }

  lemma TallyPrefix(a: seq<Result>, b: seq<Result>, s: Status)
    requires a <= b
    ensures Tally(a, s) <= Tally(b, s)
  {
    if |a| < |b| {
      TallyPrefix(a, b[..|b| - 1], s);
    } else {
      assert a == b;
    }
  }

  lemma DistinctNamesCount(rs: seq<Result>)
    requires DistinctNames(rs)
    ensures |Names(rs)| == |rs|
  {
    if rs != [] {
      var front, last := rs[..|rs| - 1], rs[|rs| - 1];
      DistinctNamesCount(front);
      assert Names(rs) == Names(front) + {last.name};
      assert last.name !in Names(front);
    }
  }

  lemma NamesSnoc(rs: seq<Result>, r: Result)
    ensures Names(rs + [r]) == Names(rs) + {r.name}
  {
    var all := rs + [r];
    forall n | n in Names(rs) ensures n in Names(all) {
      var i :| 0 <= i < |rs| && rs[i].name == n;
      assert all[i] == rs[i];
    }
    assert all[|rs|] == r;
  }

  /** The expanded hosts without the excluded ones. */
  function Targets(hosts: seq<string>, excluded: seq<string>): set<string> {
    (set i | 0 <= i < |hosts| :: hosts[i]) - (set i | 0 <= i < |excluded| :: excluded[i])
  }

  class ConnectResultStore {
    ghost const hosts: set<string>
    var remaining: set<string>
    var results: seq<Result>
    // the counters of the scan task
    var systemsCount: nat
    var systemsScanned: nat
    var systemsFailed: nat
    var systemsUnreachable: nat

    /** The books balance: every host is either remaining or has exactly one result, and each
        counter is the number of results of its status. */
    ghost predicate Valid()
      reads this
    {
      && remaining <= hosts
      && DistinctNames(results)
      && Names(results) == hosts - remaining
      && systemsCount == |hosts|
      && systemsScanned == Tally(results, SUCCESS)
      && systemsFailed == Tally(results, FAILED)
      && systemsUnreachable == Tally(results, UNREACHABLE)
    }

    constructor (hostList: seq<string>, excluded: seq<string>)
      ensures Valid() && hosts == Targets(hostList, excluded) && remaining == hosts && results == []
      ensures forall h :: h in hosts <==> h in hostList && h !in excluded
    {
      var all, out: set<string> := {}, {};
      for i := 0 to |hostList|
        invariant all == set j | 0 <= j < i :: hostList[j]
      {
        all := all + {hostList[i]};
      }
      for i := 0 to |excluded|
        invariant out == set j | 0 <= j < i :: excluded[j]
      {
        out := out + {excluded[i]};
      }
      hosts, remaining, results := all - out, all - out, [];
      systemsCount, systemsScanned, systemsFailed, systemsUnreachable := |all - out|, 0, 0, 0;
    }

    /** At every moment the systems to scan are the recorded and the remaining ones. */
    lemma Balance()
      requires Valid()
      ensures systemsCount == systemsScanned + systemsFailed + systemsUnreachable + |remaining|
    {
      TallyTotal(results);
      DistinctNamesCount(results);
      assert hosts == (hosts - remaining) + remaining;
    }

    /** Recording a host that is not remaining raises, and the transaction is rolled back. */
    method RecordResult(name: string, status: Status) returns (raised: bool)
      requires Valid()
      modifies this
      ensures Valid()
      ensures raised == (name !in old(remaining))
      ensures remaining == old(remaining) - {name}
      ensures results == if raised then old(results) else old(results) + [Result(name, status)]
    {
      if name !in remaining {
        return true;
      }
      NamesSnoc(results, Result(name, status));
      assert (results + [Result(name, status)])[..|results|] == results;
      assert forall i :: 0 <= i < |results| ==> results[i].name in Names(results);
      results := results + [Result(name, status)];
      match status {
        case SUCCESS => systemsScanned := systemsScanned + 1;
        case UNREACHABLE => systemsUnreachable := systemsUnreachable + 1;
        case FAILED => systemsFailed := systemsFailed + 1;
      }
      remaining := remaining - {name};
      raised := false;
    }

    /** A snapshot of the remaining hosts, in some order. */
    method RemainingHosts() returns (list: seq<string>)
      ensures Distinct(list) && Elements(list) == remaining
    {
      list := [];
      var todo := remaining;
      while todo != {}
        invariant Distinct(list) && Elements(list) !! todo && Elements(list) + todo == remaining
        decreases todo
      {
        var host :| host in todo;
        ElementsSnoc(list, host);
        list, todo := list + [host], todo - {host};
      }
    }
  }

  /* ---------- groups ---------- */

  function Flatten(groups: seq<seq<string>>): seq<string> {
    if groups == [] then [] else Flatten(groups[..|groups| - 1]) + groups[|groups| - 1]
  }

  /** Consecutive groups that together are the list, each of `forks` hosts but for the last,
      which may be smaller. */
  predicate Grouping(groups: seq<seq<string>>, hosts: seq<string>, forks: nat) {
    && Flatten(groups) == hosts
    && (forall i :: 0 <= i < |groups| ==> 0 < |groups[i]| <= forks)
    && (forall i :: 0 <= i < |groups| - 1 ==> |groups[i]| == forks)
  }

  /** How many groups that makes. */
  function GroupCount(hosts: nat, forks: nat): nat
    requires forks > 0
  {
    if hosts == 0 then 0 else if hosts <= forks then 1 else 1 + GroupCount(hosts - forks, forks)
  }

  lemma GroupingMore(groups: seq<seq<string>>, hosts: seq<string>, group: seq<string>, forks: nat)
    requires Grouping(groups, hosts, forks) && 0 < |group| <= forks
    requires groups != [] ==> |groups[|groups| - 1]| == forks
    ensures Grouping(groups + [group], hosts + group, forks)
  {
    assert (groups + [group])[..|groups|] == groups;
  }

  lemma NoGroups(forks: nat)
    ensures Grouping([], [], forks)
  {
  }

  method ConstructInventory(hosts: seq<string>, forks: nat) returns (groups: seq<seq<string>>)
    requires forks > 0
    ensures Grouping(groups, hosts, forks)
    ensures |groups| == GroupCount(|hosts|, forks)
  {
    hide Grouping;
    NoGroups(forks);
    groups := [];
    var i := 0;
    while i < |hosts|
      invariant 0 <= i <= |hosts|
      invariant Grouping(groups, hosts[..i], forks)
      invariant i < |hosts| && groups != [] ==> |groups[|groups| - 1]| == forks
      invariant |groups| + GroupCount(|hosts| - i, forks) == GroupCount(|hosts|, forks)
    {
      var end := if i + forks < |hosts| then i + forks else |hosts|;
      assert hosts[..end] == hosts[..i] + hosts[i..end];
      GroupingMore(groups, hosts[..i], hosts[i..end], forks);
      groups := groups + [hosts[i..end]];
      i := end;
    }
    assert hosts[..|hosts|] == hosts;
  }

  lemma {:induction false} FullGroups(groups: seq<seq<string>>, forks: nat)
    requires forall i :: 0 <= i < |groups| ==> |groups[i]| == forks
    ensures |Flatten(groups)| == |groups| * forks
  {
    if groups != [] {
      FullGroups(groups[..|groups| - 1], forks);
      assert (|groups| - 1) * forks + forks == |groups| * forks;
    }
  }

  /** Member k of group g is host g * forks + k of the list. */
  lemma {:induction false} GroupAt(groups: seq<seq<string>>, hosts: seq<string>, forks: nat, g: nat, k: nat)
    requires Grouping(groups, hosts, forks) && g < |groups| && k < |groups[g]|
    ensures g * forks + k < |hosts| && hosts[g * forks + k] == groups[g][k]
  {
    var front, last := groups[..|groups| - 1], |groups| - 1;
    FullGroups(front, forks);
    if g < last {
      GroupAt(front, Flatten(front), forks, g, k);
    }
  }

  /** As many groups as needed, and no more. */
  lemma {:induction false} GroupsNeeded(hosts: nat, forks: nat)
    requires forks > 0
    ensures hosts <= GroupCount(hosts, forks) * forks
    ensures hosts > 0 ==> (GroupCount(hosts, forks) - 1) * forks < hosts
  {
    if hosts > forks {
      GroupsNeeded(hosts - forks, forks);
      var n := GroupCount(hosts - forks, forks);
      assert GroupCount(hosts, forks) == n + 1 && (n + 1) * forks == n * forks + forks;
      assert n * forks == (n - 1) * forks + forks;
    }
  }

  /* ---------- callbacks ---------- */

  /** What the runner reports about a host. */
  datatype Event =
    | OnOk(host: string, rcZero: bool)
    | OnUnreachable(host: string, permissionDenied: bool)
    | OnFailed(host: string)
    | Other

  /** How a runner invocation ends. */
  datatype Ending = Successful | Unreachable | Failed | Canceled | Timeout | Unknown | RunnerError

  datatype GroupRun = GroupRun(events: seq<Event>, ending: Ending)

  datatype Outcome = COMPLETED_TASK | FAILED_TASK | CANCELED_TASK

  /** The remaining hosts and the results so far. */
  datatype Books = Books(remaining: set<string>, results: seq<Result>)

  /** The result an event records, if any: a connection needs return code 0, and a refused
      permission leaves the host for the next credential. */
  function Recorded(e: Event): seq<Result> {
    match e
    case OnOk(host, rcZero) => if rcZero then [Result(host, SUCCESS)] else []
    case OnUnreachable(host, denied) => if denied then [] else [Result(host, UNREACHABLE)]
    case OnFailed(_) => []
    case Other => []
  }

  predicate Raises(b: Books, e: Event) {
    Recorded(e) != [] && Recorded(e)[0].name !in b.remaining
  }

  function Handle(b: Books, e: Event): Books {
    if Recorded(e) == [] || Raises(b, e) then b
    else Books(b.remaining - {Recorded(e)[0].name}, b.results + Recorded(e))
  }

  /** The books after the events of one group, and whether one of them raised. */
  datatype Handled = Handled(books: Books, raised: bool)

  function HandleAll(b: Books, events: seq<Event>): (h: Handled)
    ensures h.books.remaining <= b.remaining && b.results <= h.books.results
  {
    if events == [] then Handled(b, false)
    else
      var h := HandleAll(b, events[..|events| - 1]);
      var e := events[|events| - 1];
      if h.raised then h else Handled(Handle(h.books, e), Raises(h.books, e))
  }

  /** After some groups of a round: still going, or stopped with an outcome. */
  datatype Progress = Going(books: Books) | Stopped(books: Books, outcome: Outcome, error: bool)

  function AfterGroup(b: Books, run: GroupRun): Progress {
    var h := HandleAll(b, run.events);
    if h.raised || run.ending == RunnerError then Stopped(h.books, FAILED_TASK, true)
    else if run.ending == Canceled then Stopped(h.books, CANCELED_TASK, false)
    else if run.ending in {Timeout, Unknown} && Tally(h.books.results, SUCCESS) == 0
        then Stopped(h.books, FAILED_TASK, false)
    else Going(h.books)
  }

  /** How the run of each group goes, by credential and group; anything is possible. */
  type Behaviour = (nat, nat) -> GroupRun

  function AfterGroups(b: Books, n: nat, env: Behaviour, credential: nat): (p: Progress)
    ensures p.Stopped? ==> p.outcome != COMPLETED_TASK && (p.error ==> p.outcome == FAILED_TASK)
    ensures p.books.remaining <= b.remaining && b.results <= p.books.results
  {
    if n == 0 then Going(b)
    else
      var p := AfterGroups(b, n - 1, env, credential);
      if p.Stopped? then p else AfterGroup(p.books, env(credential, n - 1))
  }

  /** A round is offered the remaining hosts. */
  function AfterRound(b: Books, forks: nat, env: Behaviour, credential: nat): (p: Progress)
    requires forks > 0
    ensures p.Stopped? ==> p.outcome != COMPLETED_TASK
    ensures p.books.remaining <= b.remaining && b.results <= p.books.results
  {
    AfterGroups(b, GroupCount(|b.remaining|, forks), env, credential)
  }

  /** A round that was not stopped completes if any system is connected by now. */
  function RoundOutcome(p: Progress): Outcome {
    if p.Stopped? then p.outcome
    else if Tally(p.books.results, SUCCESS) > 0 then COMPLETED_TASK else FAILED_TASK
  }

  method HandleEvent(store: ConnectResultStore, e: Event) returns (raised: bool)
    requires store.Valid()
    modifies store
    ensures store.Valid()
    ensures Books(store.remaining, store.results) == old(Handle(Books(store.remaining, store.results), e))
    ensures raised == old(Raises(Books(store.remaining, store.results), e))
    ensures match e
            case OnOk(host, true) =>
              && raised == (host !in old(store.remaining)) && store.remaining == old(store.remaining) - {host}
              && store.results == old(store.results) + (if raised then [] else [Result(host, SUCCESS)])
            case OnUnreachable(host, false) =>
              && raised == (host !in old(store.remaining)) && store.remaining == old(store.remaining) - {host}
              && store.results == old(store.results) + (if raised then [] else [Result(host, UNREACHABLE)])
            case _ => !raised && store.remaining == old(store.remaining) && store.results == old(store.results)
  {
    raised := false;
    match e {
      case OnOk(host, rcZero) =>
        if rcZero {
          raised := store.RecordResult(host, SUCCESS);
        }
      case OnUnreachable(host, denied) =>
        if !denied {
          raised := store.RecordResult(host, UNREACHABLE);
        }
      case OnFailed(_) =>
      case Other =>
    }
  }

  /** The events of one group, until one of them raises. */
  method HandleEvents(store: ConnectResultStore, events: seq<Event>) returns (raised: bool)
    requires store.Valid()
    modifies store
    ensures store.Valid()
    ensures Handled(Books(store.remaining, store.results), raised)
            == old(HandleAll(Books(store.remaining, store.results), events))
  {
    ghost var before := Books(store.remaining, store.results);
    raised := false;
    for i := 0 to |events|
      invariant store.Valid() && !raised
      invariant Handled(Books(store.remaining, store.results), false) == HandleAll(before, events[..i])
    {
      assert events[..i + 1][..i] == events[..i];
      raised := HandleEvent(store, events[i]);
      if raised {
        RaisedStays(before, events, i + 1);
        return;
      }
    }
    assert events[..|events|] == events;
  }

  lemma RaisedStays(b: Books, events: seq<Event>, i: nat)
    requires i <= |events| && HandleAll(b, events[..i]).raised
    ensures HandleAll(b, events) == HandleAll(b, events[..i])
  {
    if i < |events| {
      assert events[..|events| - 1][..i] == events[..i];
      RaisedStays(b, events[..|events| - 1], i);
    } else {
      assert events[..i] == events;
    }
  }

  /* ---------- which event gives which result ---------- */

  /** The event says that the host connected, or that it cannot be reached. */
  predicate Says(e: Event, host: string, status: Status) {
    (e == OnOk(host, true) && status == SUCCESS) || (e == OnUnreachable(host, false) && status == UNREACHABLE)
  }

  /** Event i says so, no event before it raised, and the host still remained. */
  predicate SaidAt(b: Books, events: seq<Event>, i: nat, host: string, status: Status) {
    && i < |events| && Says(events[i], host, status)
    && !HandleAll(b, events[..i]).raised && host in HandleAll(b, events[..i]).books.remaining
  }

  predicate Has(b: Books, host: string, status: Status) {
    Result(host, status) in b.results
  }

  /** One event: the result it adds, the host it takes away, and when it raises. */
  lemma HandleStep(b: Books, e: Event, host: string, status: Status)
    ensures Has(Handle(b, e), host, status) <==> Has(b, host, status) || (Says(e, host, status) && host in b.remaining)
    ensures host in Handle(b, e).remaining <==>
            host in b.remaining && !Says(e, host, SUCCESS) && !Says(e, host, UNREACHABLE)
    ensures Raises(b, e) <==> exists h, s :: Says(e, h, s) && h !in b.remaining
  {
    if e.OnOk? && e.rcZero {
      assert Says(e, e.host, SUCCESS);
    }
    if e.OnUnreachable? && !e.permissionDenied {
      assert Says(e, e.host, UNREACHABLE);
    }
  }

  /** A host has a result after the events exactly if it had one before, or an event said so
      while the host remained. */
  lemma {:induction false} EventsSay(b: Books, events: seq<Event>, host: string, status: Status)
    ensures Has(HandleAll(b, events).books, host, status) <==>
            Has(b, host, status) || exists i :: 0 <= i < |events| && SaidAt(b, events, i, host, status)
    ensures host in HandleAll(b, events).books.remaining <==>
            host in b.remaining && forall i, s :: 0 <= i < |events| ==> !SaidAt(b, events, i, host, s)
  {
    hide Has, Says, Handle, Raises;
    if events != [] {
      var front, last := events[..|events| - 1], |events| - 1;
      EventsSay(b, front, host, status);
      var h := HandleAll(b, front);
      HandleStep(h.books, events[last], host, status);
      forall i, s | 0 <= i < last ensures SaidAt(b, events, i, host, s) <==> SaidAt(b, front, i, host, s) {
        assert front[..i] == events[..i];
      }
      forall s ensures SaidAt(b, events, last, host, s) <==>
                       Says(events[last], host, s) && !h.raised && host in h.books.remaining {
      }
      SaidOnly(events[last], host);
    }
  }

  lemma SaidOnly(e: Event, host: string)
    ensures !Says(e, host, FAILED)
    ensures forall s :: Says(e, host, s) ==> s in {SUCCESS, UNREACHABLE}
  {
  }

  /** In some group that was reached, an event said so while the host remained. */
  ghost predicate SaidInRound(b: Books, n: nat, env: Behaviour, credential: nat, host: string, status: Status) {
    exists g, i :: 0 <= g < n && 0 <= i && AfterGroups(b, g, env, credential).Going?
                   && SaidAt(AfterGroups(b, g, env, credential).books, env(credential, g).events, i, host, status)
  }

  lemma GroupBooks(b: Books, run: GroupRun)
    ensures AfterGroup(b, run).books == HandleAll(b, run.events).books
  {
  }

  lemma {:induction false} RoundSays(b: Books, n: nat, env: Behaviour, credential: nat, host: string, status: Status)
    ensures Has(AfterGroups(b, n, env, credential).books, host, status) <==>
            Has(b, host, status) || SaidInRound(b, n, env, credential, host, status)
  {
    hide Has, SaidAt, AfterGroup, HandleAll;
    if n > 0 {
      RoundSays(b, n - 1, env, credential, host, status);
      var p, run := AfterGroups(b, n - 1, env, credential), env(credential, n - 1);
      if p.Going? {
        GroupBooks(p.books, run);
        EventsSay(p.books, run.events, host, status);
        SaidWithin(p.books, run.events, host, status);
      }
      assert SaidInRound(b, n, env, credential, host, status) <==>
             || SaidInRound(b, n - 1, env, credential, host, status)
             || (p.Going? && exists i :: 0 <= i && SaidAt(p.books, run.events, i, host, status));
    }
  }

  lemma SaidWithin(b: Books, events: seq<Event>, host: string, status: Status)
    ensures forall i: nat :: SaidAt(b, events, i, host, status) ==> i < |events|
  {
  }

  /* ---------- counting hosts ---------- */

  function FailedResults(hosts: seq<string>): (rs: seq<Result>)
    ensures |rs| == |hosts| && forall i :: 0 <= i < |hosts| ==> rs[i] == Result(hosts[i], FAILED)
  {
    seq(|hosts|, i requires 0 <= i < |hosts| => Result(hosts[i], FAILED))
  }

  function HostsWith(rs: seq<Result>, s: Status): set<string> {
    set i | 0 <= i < |rs| && rs[i].status == s :: rs[i].name
  }

  lemma HostsWithHas(rs: seq<Result>, s: Status, host: string)
    ensures host in HostsWith(rs, s) <==> Result(host, s) in rs
  {
    if Result(host, s) in rs {
      var i :| 0 <= i < |rs| && rs[i] == Result(host, s);
    }
  }

  lemma HostsWithSnoc(rs: seq<Result>, r: Result, s: Status)
    ensures HostsWith(rs + [r], s) == HostsWith(rs, s) + if r.status == s then {r.name} else {}
  {
    var all := rs + [r];
    forall x | x in HostsWith(rs, s) ensures x in HostsWith(all, s) {
      var i :| 0 <= i < |rs| && rs[i].status == s && rs[i].name == x;
      assert all[i] == rs[i];
    }
    assert all[|rs|] == r;
  }

  /** The counters count hosts. */
  lemma {:induction false} TallyCountsHosts(rs: seq<Result>, s: Status)
    requires DistinctNames(rs)
    ensures Tally(rs, s) == |HostsWith(rs, s)|
  {
    if rs == [] {
      assert HostsWith(rs, s) == {};
    } else {
      hide HostsWith, DistinctNames;
      var front, last := rs[..|rs| - 1], rs[|rs| - 1];
      assert rs == front + [last];
      DistinctPrefix(front, rs);
      TallyCountsHosts(front, s);
      HostsWithSnoc(front, last, s);
      LastIsNew(rs, s);
    }
  }

  lemma LastIsNew(rs: seq<Result>, s: Status)
    requires rs != [] && DistinctNames(rs)
    ensures rs[|rs| - 1].name !in HostsWith(rs[..|rs| - 1], s)
  {
  }

  lemma {:induction false} TallyFailed(rs: seq<Result>, hosts: seq<string>, s: Status)
    ensures Tally(rs + FailedResults(hosts), s) == Tally(rs, s) + if s == FAILED then |hosts| else 0
  {
    if hosts == [] {
      assert rs + FailedResults(hosts) == rs;
    } else {
      var front := hosts[..|hosts| - 1];
      TallyFailed(rs, front, s);
      var all := rs + FailedResults(hosts);
      assert all[..|all| - 1] == rs + FailedResults(front) && all[|all| - 1] == Result(hosts[|hosts| - 1], FAILED);
    }
  }

  lemma DistinctPrefix(a: seq<Result>, b: seq<Result>)
    requires a <= b && DistinctNames(b)
    ensures DistinctNames(a)
  {
    assert forall i :: 0 <= i < |a| ==> a[i] == b[i];
  }

  /** The counts after the hosts left over were recorded as FAILED. */
  lemma FinalCounts(rs: seq<Result>, left: seq<string>)
    requires DistinctNames(rs + FailedResults(left))
    ensures var all := rs + FailedResults(left);
            && Tally(all, SUCCESS) == |HostsWith(rs, SUCCESS)|
            && Tally(all, UNREACHABLE) == |HostsWith(rs, UNREACHABLE)|
            && Tally(all, FAILED) == |HostsWith(rs, FAILED)| + |left|
  {
    hide Tally, HostsWith, DistinctNames;
    DistinctPrefix(rs, rs + FailedResults(left));
    TallyCountsHosts(rs, SUCCESS);
    TallyCountsHosts(rs, UNREACHABLE);
    TallyCountsHosts(rs, FAILED);
    TallyFailed(rs, left, SUCCESS);
    TallyFailed(rs, left, UNREACHABLE);
    TallyFailed(rs, left, FAILED);
  }

  /* ---------- how groups and rounds end ---------- */

  lemma ConnectedIff(rs: seq<Result>)
    ensures Tally(rs, SUCCESS) > 0 <==> exists host :: Result(host, SUCCESS) in rs
  {
    if rs != [] {
      var front, last := rs[..|rs| - 1], rs[|rs| - 1];
      ConnectedIff(front);
      assert rs == front + [last];
      if last.status == SUCCESS {
        assert Result(last.name, SUCCESS) in rs;
      }
      if host :| Result(host, SUCCESS) in front {
        assert Result(host, SUCCESS) in rs;
      }
    }
  }

  /** After a group the round goes on, unless an event or the runner raised, the runner was
      canceled, or it timed out or ended strangely with no system connected so far. */
  lemma GroupEnds(b: Books, run: GroupRun)
    ensures var h, p := HandleAll(b, run.events), AfterGroup(b, run);
            var connected := exists host :: Result(host, SUCCESS) in h.books.results;
            && p.books == h.books
            && (p.Stopped? && p.error <==> h.raised || run.ending == RunnerError)
            && (p.Stopped? && p.outcome == CANCELED_TASK <==> !h.raised && run.ending == Canceled)
            && (p.Going? <==> !h.raised && (run.ending in {Successful, Unreachable, Failed}
                                            || (run.ending in {Timeout, Unknown} && connected)))
            && (p.Stopped? ==> p.outcome in {CANCELED_TASK, FAILED_TASK})
  {
    ConnectedIff(HandleAll(b, run.events).books.results);
  }

  /** A round whose groups all go on completes exactly if a system is connected. */
  lemma GoingRoundEnds(p: Progress)
    requires p.Going?
    ensures RoundOutcome(p) ==
            if exists host :: Result(host, SUCCESS) in p.books.results then COMPLETED_TASK else FAILED_TASK
  {
    ConnectedIff(p.books.results);
  }

  /** Any other round ends as the first group that does not go on. */
  lemma {:induction false} StoppedRoundEnds(b: Books, n: nat, env: Behaviour, credential: nat) returns (g: nat)
    requires AfterGroups(b, n, env, credential).Stopped?
    ensures g < n && AfterGroups(b, g, env, credential).Going?
    ensures var p := AfterGroups(b, n, env, credential);
            p == AfterGroup(AfterGroups(b, g, env, credential).books, env(credential, g))
                && RoundOutcome(p) == p.outcome
  {
    hide AfterGroup;
    if AfterGroups(b, n - 1, env, credential).Stopped? {
      g := StoppedRoundEnds(b, n - 1, env, credential);
    } else {
      g := n - 1;
    }
  }

  /** One credential round over the given hosts. */
  method Connect(store: ConnectResultStore, hosts: seq<string>, forks: nat, env: Behaviour, credential: nat)
    returns (outcome: Outcome, error: bool, ghost groups: seq<seq<string>>)
    requires store.Valid() && forks > 0 && hosts != []
    modifies store
    ensures store.Valid()
    ensures Grouping(groups, hosts, forks) && |groups| == GroupCount(|hosts|, forks)
    ensures var p := old(AfterGroups(Books(store.remaining, store.results), GroupCount(|hosts|, forks), env,
                                     credential));
            && p.books == Books(store.remaining, store.results)
            && outcome == RoundOutcome(p) && error == (p.Stopped? && p.error)
  {
    ghost var before := Books(store.remaining, store.results);
    var gs := ConstructInventory(hosts, forks);
    groups := gs;
    error := false;
    var anySuccess := false;
    for i := 0 to |gs|
      invariant store.Valid()
      invariant AfterGroups(before, i, env, credential) == Going(Books(store.remaining, store.results))
      invariant anySuccess == (i > 0 && store.systemsScanned > 0)
    {
      var run := env(credential, i);
      ghost var sofar := store.results;
      var raised := HandleEvents(store, run.events);
      TallyPrefix(sofar, store.results, SUCCESS);
      if raised || run.ending == RunnerError {
        StoppedStays(before, i + 1, |gs|, env, credential);
        return FAILED_TASK, true, gs;
      }
      if store.systemsScanned >= 1 {
        anySuccess := true;
      }
      if run.ending == Canceled {
        StoppedStays(before, i + 1, |gs|, env, credential);
        return CANCELED_TASK, false, gs;
      }
      if run.ending == Timeout || run.ending == Unknown {
        if store.systemsScanned == 0 {
          StoppedStays(before, i + 1, |gs|, env, credential);
          return FAILED_TASK, false, gs;
        }
      }
    }
    outcome := if anySuccess then COMPLETED_TASK else FAILED_TASK;
  }

  lemma StoppedStays(b: Books, i: nat, n: nat, env: Behaviour, credential: nat)
    requires i <= n && AfterGroups(b, i, env, credential).Stopped?
    ensures AfterGroups(b, n, env, credential) == AfterGroups(b, i, env, credential)
  {
    if i < n {
      StoppedStays(b, i, n - 1, env, credential);
    }
  }

  /* ---------- all credentials ---------- */

  /** The phase so far: the books, the hosts each round was offered, and the last outcome. */
  datatype Phase = Phase(books: Books, offered: seq<set<string>>, outcome: Outcome)

  /** The first n credentials, until a round does not complete or no host remains. */
  function Rounds(b: Books, forks: nat, env: Behaviour, n: nat): Phase
    requires forks > 0
  {
    if n == 0 then Phase(b, [], COMPLETED_TASK)
    else
      var p := Rounds(b, forks, env, n - 1);
      if p.outcome != COMPLETED_TASK || p.books.remaining == {} then p
      else
        var q := AfterRound(p.books, forks, env, n - 1);
        Phase(q.books, p.offered + [p.books.remaining], RoundOutcome(q))
  }

  /** Hosts that no credential opened have failed. */
  method RecordFailures(store: ConnectResultStore, list: seq<string>)
    requires store.Valid() && Distinct(list) && Elements(list) == store.remaining
    modifies store
    ensures store.Valid() && store.remaining == {} && store.results == old(store.results) + FailedResults(list)
  {
    for i := 0 to |list|
      invariant store.Valid() && store.results == old(store.results) + FailedResults(list[..i])
      invariant forall x :: x in store.remaining <==> x in list[i..]
    {
      assert list[i..] == [list[i]] + list[i + 1..];
      assert list[i] !in list[i + 1..];
      assert FailedResults(list[..i + 1]) == FailedResults(list[..i]) + [Result(list[i], FAILED)];
      var _ := store.RecordResult(list[i], FAILED);
    }
    assert list[..|list|] == list;
  }

  /** The hosts are offered in groups of `forks`, each host once. */
  ghost predicate OfferedInGroups(offered: set<string>, groups: seq<seq<string>>, forks: nat) {
    exists list :: Distinct(list) && Elements(list) == offered && Grouping(groups, list, forks)
  }

  /** One round, offered exactly the remaining hosts. */
  method TryCredential(store: ConnectResultStore, list: seq<string>, forks: nat, env: Behaviour, credential: nat)
    returns (outcome: Outcome, ghost groups: seq<seq<string>>)
    requires store.Valid() && forks > 0 && list != [] && Distinct(list) && Elements(list) == store.remaining
    modifies store
    ensures store.Valid()
    ensures OfferedInGroups(old(store.remaining), groups, forks)
    ensures var p := old(AfterRound(Books(store.remaining, store.results), forks, env, credential));
            p.books == Books(store.remaining, store.results) && outcome == RoundOutcome(p)
  {
    DistinctSize(list);
    var error;
    outcome, error, groups := Connect(store, list, forks, env, credential);
    if error {
      outcome := FAILED_TASK;
    }
  }

  /** The whole connection phase, for every behaviour of the runner: the rounds are those of
      Rounds, each offered its hosts in groups; a completed phase records every host left as
      FAILED, so that each host has exactly one result; otherwise the rest stays remaining. */
  method RunWithResultStore(store: ConnectResultStore, credentials: nat, forks: nat, env: Behaviour)
    returns (outcome: Outcome, ghost rounds: seq<seq<seq<string>>>, ghost left: seq<string>)
    requires store.Valid() && forks > 0
    modifies store
    ensures store.Valid()
    ensures var p := old(Rounds(Books(store.remaining, store.results), forks, env, credentials));
            && outcome == p.outcome
            && |rounds| == |p.offered|
            && (forall i :: 0 <= i < |rounds| ==> OfferedInGroups(p.offered[i], rounds[i], forks))
            && Distinct(left) && Elements(left) == p.books.remaining
            && if outcome == COMPLETED_TASK
               then store.remaining == {} && store.results == p.books.results + FailedResults(left)
               else store.remaining == p.books.remaining && store.results == p.books.results
    ensures outcome == COMPLETED_TASK ==> DistinctNames(store.results) && Names(store.results) == store.hosts
    ensures var p := old(Rounds(Books(store.remaining, store.results), forks, env, credentials));
            && store.systemsScanned == |HostsWith(p.books.results, SUCCESS)|
            && store.systemsUnreachable == |HostsWith(p.books.results, UNREACHABLE)|
            && store.systemsFailed == |HostsWith(p.books.results, FAILED)|
               + if outcome == COMPLETED_TASK then |p.books.remaining| else 0
  {
    hide OfferedInGroups, Distinct, Elements, AfterRound, DistinctNames, Names, HostsWith, Tally;
    ghost var b := Books(store.remaining, store.results);
    rounds := [];
    var remaining := store.RemainingHosts();
    var i := 0;
    while i < credentials && remaining != []
      invariant 0 <= i <= credentials
      invariant store.Valid() && Distinct(remaining) && Elements(remaining) == store.remaining
      invariant var p := Rounds(b, forks, env, i);
                && p.outcome == COMPLETED_TASK && p.books == Books(store.remaining, store.results)
                && |rounds| == |p.offered|
                && forall j :: 0 <= j < |rounds| ==> OfferedInGroups(p.offered[j], rounds[j], forks)
    {
      ghost var groups;
      NotEmpty(remaining);
      outcome, groups := TryCredential(store, remaining, forks, env, i);
      rounds := rounds + [groups];
      remaining := store.RemainingHosts();
      if outcome != COMPLETED_TASK {
        left := remaining;
        EndedStays(b, forks, env, i + 1, credentials);
        assert store.results + FailedResults([]) == store.results;
        FinalCounts(store.results, []);
        return;
      }
      i := i + 1;
    }
    if remaining == [] {
      EmptyList();
    }
    EndedStays(b, forks, env, i, credentials);
    left := remaining;
    ghost var recorded := store.results;
    DistinctSize(remaining);
    RecordFailures(store, remaining);
    FinalCounts(recorded, remaining);
    outcome := COMPLETED_TASK;
  }

  lemma NotEmpty(s: seq<string>)
    requires s != []
    ensures Elements(s) != {}
  {
    assert s[0] in Elements(s);
  }

  lemma EmptyList()
    ensures Elements<string>([]) == {}
  {
  }

  /** Once the phase is over, further credentials change nothing. */
  lemma {:induction false} EndedStays(b: Books, forks: nat, env: Behaviour, i: nat, n: nat)
    requires forks > 0 && i <= n
    requires i == n || Rounds(b, forks, env, i).outcome != COMPLETED_TASK
             || Rounds(b, forks, env, i).books.remaining == {}
    ensures Rounds(b, forks, env, n) == Rounds(b, forks, env, i)
  {
    hide AfterRound;
    if i < n {
      EndedStays(b, forks, env, i, n - 1);
    }
  }

  /* ---------- which credentials are tried ---------- */

  /** A credential is tried exactly when every earlier round completed and hosts remain, and
      it is then offered exactly these hosts. */
  lemma {:induction false} TriedIff(b: Books, forks: nat, env: Behaviour, n: nat, c: nat)
    requires forks > 0 && c < n
    ensures |Rounds(b, forks, env, n).offered| <= n
    ensures var p := Rounds(b, forks, env, c);
            && (c < |Rounds(b, forks, env, n).offered| <==> p.outcome == COMPLETED_TASK && p.books.remaining != {})
            && (c < |Rounds(b, forks, env, n).offered| ==> Rounds(b, forks, env, n).offered[c] == p.books.remaining)
  {
    hide AfterRound, RoundOutcome;
    OfferedCount(b, forks, env, n - 1);
    if c < n - 1 {
      TriedIff(b, forks, env, n - 1, c);
    }
  }

  /** As long as the phase goes on, every credential has had its round. */
  lemma {:induction false} OfferedCount(b: Books, forks: nat, env: Behaviour, n: nat)
    requires forks > 0
    ensures var p := Rounds(b, forks, env, n);
            |p.offered| <= n && (p.outcome == COMPLETED_TASK && p.books.remaining != {} ==> |p.offered| == n)
  {
    hide AfterRound, RoundOutcome;
    if n > 0 {
      OfferedCount(b, forks, env, n - 1);
      var p := Rounds(b, forks, env, n - 1);
      assert p.books.remaining == {} ==> AfterRound(p.books, forks, env, n - 1).books.remaining == {};
    }
  }

  /** After a round with hosts remaining, the next credential is tried exactly when the round
      was not stopped and some system is connected by then. So a credential is left out,
      although hosts remain, if those before it opened no system at all. */
  lemma NextTriedIff(b: Books, forks: nat, env: Behaviour, n: nat, c: nat)
    requires forks > 0 && c + 1 < n && c < |Rounds(b, forks, env, n).offered|
    ensures var q := AfterRound(Rounds(b, forks, env, c).books, forks, env, c);
            && Rounds(b, forks, env, c + 1).books == q.books
            && (c + 1 < |Rounds(b, forks, env, n).offered| <==>
                q.books.remaining != {} && !q.Stopped? && Tally(q.books.results, SUCCESS) > 0)
  {
    TriedIff(b, forks, env, n, c);
    TriedIff(b, forks, env, n, c + 1);
  }

  /** How the round of credential c ends, if it takes place. */
  function RoundResult(b: Books, forks: nat, env: Behaviour, c: nat): Outcome
    requires forks > 0
  {
    RoundOutcome(AfterRound(Rounds(b, forks, env, c).books, forks, env, c))
  }

  /** The phase completes exactly when every round did. */
  lemma {:induction false} PhaseCompletesIff(b: Books, forks: nat, env: Behaviour, n: nat)
    requires forks > 0
    ensures var p := Rounds(b, forks, env, n);
            p.outcome == COMPLETED_TASK <==>
            forall c :: 0 <= c < |p.offered| ==> RoundResult(b, forks, env, c) == COMPLETED_TASK
  {
    hide AfterRound, RoundOutcome;
    if n > 0 {
      PhaseCompletesIff(b, forks, env, n - 1);
      OfferedCount(b, forks, env, n - 1);
      var p, q := Rounds(b, forks, env, n - 1), Rounds(b, forks, env, n);
      if p.outcome == COMPLETED_TASK && p.books.remaining != {} {
        assert |q.offered| == n && q.outcome == RoundResult(b, forks, env, n - 1);
      }
    }
  }

  /** A completed phase that tried a credential has connected a system. */
  lemma CompletedConnects(b: Books, forks: nat, env: Behaviour, n: nat)
    requires forks > 0
    ensures var p := Rounds(b, forks, env, n);
            p.outcome == COMPLETED_TASK && p.offered != [] ==> Tally(p.books.results, SUCCESS) > 0
  {
    hide AfterRound;
    if n > 0 {
      CompletedConnects(b, forks, env, n - 1);
    }
  }

  /** In some round that took place. */
  ghost predicate SaidInPhase(b: Books, forks: nat, env: Behaviour, n: nat, host: string, status: Status)
    requires forks > 0
  {
    exists c :: 0 <= c < n && c < |Rounds(b, forks, env, n).offered|
                && SaidIn(Rounds(b, forks, env, c).books, forks, env, c, host, status)
  }

  ghost predicate SaidIn(b: Books, forks: nat, env: Behaviour, credential: nat, host: string, status: Status)
    requires forks > 0
  {
    SaidInRound(b, GroupCount(|b.remaining|, forks), env, credential, host, status)
  }

  lemma AfterRoundSays(b: Books, forks: nat, env: Behaviour, credential: nat, host: string, status: Status)
    requires forks > 0
    ensures Has(AfterRound(b, forks, env, credential).books, host, status) <==>
            Has(b, host, status) || SaidIn(b, forks, env, credential, host, status)
  {
    RoundSays(b, GroupCount(|b.remaining|, forks), env, credential, host, status);
  }

  /** Over the whole phase, whatever the runner does: a host is recorded as connected exactly if it
      was before, or in a round that took place the runner reported return code 0 for it while it
      remained; as unreachable exactly if the runner said so for another reason than a refused
      permission; and no event makes it FAILED. */
  lemma {:induction false} PhaseSays(b: Books, forks: nat, env: Behaviour, n: nat, host: string, status: Status)
    requires forks > 0
    ensures Has(Rounds(b, forks, env, n).books, host, status) <==>
            Has(b, host, status) || SaidInPhase(b, forks, env, n, host, status)
    ensures !SaidInPhase(b, forks, env, n, host, FAILED)
  {
    hide Has, SaidIn, AfterRound, RoundOutcome;
    NeverSaysFailed(b, forks, env, n, host);
    if n > 0 {
      PhaseSays(b, forks, env, n - 1, host, status);
      OfferedCount(b, forks, env, n - 1);
      var p := Rounds(b, forks, env, n - 1);
      if p.outcome == COMPLETED_TASK && p.books.remaining != {} {
        AfterRoundSays(p.books, forks, env, n - 1, host, status);
      }
    }
  }

  lemma NeverSaysFailed(b: Books, forks: nat, env: Behaviour, n: nat, host: string)
    requires forks > 0
    ensures !SaidInPhase(b, forks, env, n, host, FAILED)
  {
    hide Rounds, HandleAll, AfterGroups;
  }

  /** No remaining host has a result. */
  ghost predicate Separate(b: Books) {
    forall i :: 0 <= i < |b.results| ==> b.results[i].name !in b.remaining
  }

  lemma {:induction false} EventsSeparate(b: Books, events: seq<Event>)
    requires Separate(b)
    ensures Separate(HandleAll(b, events).books)
  {
    if events != [] {
      EventsSeparate(b, events[..|events| - 1]);
    }
  }

  lemma {:induction false} GroupsSeparate(b: Books, n: nat, env: Behaviour, credential: nat)
    requires Separate(b)
    ensures Separate(AfterGroups(b, n, env, credential).books)
  {
    hide Separate;
    if n > 0 {
      GroupsSeparate(b, n - 1, env, credential);
      EventsSeparate(AfterGroups(b, n - 1, env, credential).books, env(credential, n - 1).events);
    }
  }

  /** A round is offered no host that an earlier one recorded. */
  lemma {:induction false} OfferedNotRecorded(b: Books, forks: nat, env: Behaviour, n: nat, c: nat)
    requires forks > 0 && Separate(b) && c < n && c < |Rounds(b, forks, env, n).offered|
    ensures var p := Rounds(b, forks, env, c);
            forall i :: 0 <= i < |p.books.results| ==> p.books.results[i].name !in Rounds(b, forks, env, n).offered[c]
  {
    TriedIff(b, forks, env, n, c);
    RoundsSeparate(b, forks, env, c);
  }

  lemma {:induction false} RoundsSeparate(b: Books, forks: nat, env: Behaviour, n: nat)
    requires forks > 0 && Separate(b)
    ensures Separate(Rounds(b, forks, env, n).books)
  {
    hide Separate, AfterRound;
    if n > 0 {
      RoundsSeparate(b, forks, env, n - 1);
      RoundSeparate(Rounds(b, forks, env, n - 1).books, forks, env, n - 1);
    }
  }

  lemma RoundSeparate(b: Books, forks: nat, env: Behaviour, credential: nat)
    requires forks > 0 && Separate(b)
    ensures Separate(AfterRound(b, forks, env, credential).books)
  {
    hide Separate, AfterGroups;
    GroupsSeparate(b, GroupCount(|b.remaining|, forks), env, credential);
  }

  /** The first credential is refused, the second would connect. */
  function SecondWorks(credential: nat, group: nat): GroupRun {
    GroupRun(if credential == 0 then [OnUnreachable("h", true)] else [OnOk("h", true)], Successful)
  }

  /** The phase ends FAILED without trying the second credential, although a host remains; with
      the working credential alone it completes. */
  lemma LaterCredentialSkipped()
    ensures var b := Books({"h"}, []);
            && Rounds(b, 1, SecondWorks, 2) == Phase(b, [{"h"}], FAILED_TASK)
            && Rounds(b, 1, (c: nat, g: nat) => SecondWorks(1, g), 1).outcome == COMPLETED_TASK
  {
    var b := Books({"h"}, []);
    OneGroup(b, SecondWorks, 0);
    var works := (c: nat, g: nat) => SecondWorks(1, g);
    OneGroup(b, works, 0);
    assert HandleAll(b, [OnUnreachable("h", true)]).books == b by {
      assert [OnUnreachable("h", true)][..0] == [];
    }
    assert Rounds(b, 1, SecondWorks, 0) == Phase(b, [], COMPLETED_TASK);
    assert Rounds(b, 1, SecondWorks, 1) == Phase(b, [{"h"}], FAILED_TASK);
    var r := Result("h", SUCCESS);
    assert Tally([r], SUCCESS) == 1 by {
      assert [r][..0] == [];
    }
    assert HandleAll(b, [OnOk("h", true)]).books == Books({}, [r]) by {
      assert [OnOk("h", true)][..0] == [];
    }
  }

  lemma OneGroup(b: Books, env: Behaviour, credential: nat)
    requires |b.remaining| == 1
    ensures AfterRound(b, 1, env, credential) == AfterGroup(b, env(credential, 0))
  {
    assert GroupCount(1, 1) == 1;
    assert AfterGroups(b, 0, env, credential) == Going(b);
  }
}
