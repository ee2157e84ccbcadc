/** Publishing reports: requests are created by users and settled by workers that may run
    more than once. A user's check, the creation that follows it and each saving of a result are
    separate steps. */
module Publish {

  datatype Status = PENDING | SENT | FAILED

  datatype ErrorCode = NO_ERROR | EXPIRED_TOKEN | NETWORK_UNREACHABLE | SERVER_ERROR

  datatype Request = Request(report: nat, status: Status, code: ErrorCode)

  /** All requests, in order of creation. */
  type Requests = seq<Request>

  /* ---------- what a worker finds out ---------- */

  datatype Post = Responded(httpStatus: int) | ConnectionRefused | OtherError

  datatype Attempt = Attempt(hasToken: bool, expired: bool, payloadFails: bool, post: Post)

  /** The error an attempt ends with; NO_ERROR means the upload was accepted. */
  function ErrorOf(a: Attempt): ErrorCode {
    if !a.hasToken || a.expired then EXPIRED_TOKEN
    else if a.payloadFails then SERVER_ERROR
    else match a.post
      case ConnectionRefused => NETWORK_UNREACHABLE
      case OtherError => SERVER_ERROR
      case Responded(s) => if s < 400 then NO_ERROR else if s == 401 then EXPIRED_TOKEN else SERVER_ERROR
  }

  /** An attempt succeeds exactly if there is a valid token, the payload can be built and the
      response is below 400. A missing or expired token and a response of 401 are reported as an
      expired token, a refused connection as an unreachable network, all else as a server error. */
  lemma AttemptEnds(a: Attempt)
    ensures ErrorOf(a) == NO_ERROR <==>
            a.hasToken && !a.expired && !a.payloadFails && a.post.Responded? && a.post.httpStatus < 400
    ensures ErrorOf(a) == EXPIRED_TOKEN <==>
            !a.hasToken || a.expired || (!a.payloadFails && a.post == Responded(401))
    ensures ErrorOf(a) == NETWORK_UNREACHABLE <==>
            a.hasToken && !a.expired && !a.payloadFails && a.post.ConnectionRefused?
  {
  }

  /* ---------- the steps ---------- */

  /** The latest request of a report. */
  function Latest(rs: Requests, report: nat): (i: int)
    ensures -1 <= i < |rs|
    ensures i >= 0 ==> rs[i].report == report
    ensures forall j :: i < j < |rs| ==> rs[j].report != report
  {
    if rs == [] then -1
    else if rs[|rs| - 1].report == report then |rs| - 1
    else Latest(rs[..|rs| - 1], report)
  }

  predicate Busy(rs: Requests, report: nat) {
    Latest(rs, report) >= 0 && rs[Latest(rs, report)].status == PENDING
  }

  /** A user has passed the check for a report, when there were `seen` requests in all. */
  datatype Ticket = Ticket(report: nat, seen: nat, used: bool)

  datatype Books = Books(requests: Requests, tickets: seq<Ticket>)

  datatype Step =
    | Check(report: nat, publishable: bool)
    | Create(ticket: nat)
    | Work(id: nat, attempt: Attempt)

  function Created(rs: Requests, report: nat): Requests {
    rs + [Request(report, PENDING, NO_ERROR)]
  }

  function Settled(r: Request, a: Attempt): Request {
    if r.status != PENDING then r
    else r.(status := if ErrorOf(a) == NO_ERROR then SENT else FAILED, code := ErrorOf(a))
  }

  function Worked(rs: Requests, id: nat, a: Attempt): Requests {
    if id >= |rs| then rs else rs[id := Settled(rs[id], a)]
  }

  /** The ticket lets a request be created. */
  predicate Usable(b: Books, t: nat) {
    t < |b.tickets| && !b.tickets[t].used
  }

  function Apply(b: Books, s: Step): Books {
    match s
    case Check(report, publishable) =>
      if !publishable || Busy(b.requests, report) then b
      else b.(tickets := b.tickets + [Ticket(report, |b.requests|, false)])
    case Create(t) =>
      if !Usable(b, t) then b
      else Books(Created(b.requests, b.tickets[t].report), b.tickets[t := b.tickets[t].(used := true)])
    case Work(id, a) => b.(requests := Worked(b.requests, id, a))
  }

  function Run(b: Books, steps: seq<Step>): Books {
    if steps == [] then b else Apply(Run(b, steps[..|steps| - 1]), steps[|steps| - 1])
  }

  /** Check and creation at once. */
  function CreatedAtOnce(rs: Requests, report: nat, publishable: bool): Requests {
    if !publishable || Busy(rs, report) then rs else Created(rs, report)
  }

  datatype Response = BadRequest | Conflict | Accepted

  class PublishStore {
    var requests: Requests

    constructor ()
      ensures requests == []
    {
      requests := [];
    }

    method GetLatest(report: nat) returns (i: int)
      ensures i == Latest(requests, report)
    {
      i := |requests| - 1;
      while i >= 0 && requests[i].report != report
        invariant -1 <= i < |requests|
        invariant Latest(requests, report) == Latest(requests[..i + 1], report)
      {
        assert requests[..i + 1][..i] == requests[..i];
        i := i - 1;
      }
    }

    method CreatePublish(report: nat, publishable: bool) returns (response: Response)
      modifies this
      ensures requests == CreatedAtOnce(old(requests), report, publishable)
      ensures response ==
              if !publishable then BadRequest else if Busy(old(requests), report) then Conflict else Accepted
    {
      if !publishable {
        return BadRequest;
      }
      var existing := GetLatest(report);
      if existing >= 0 && requests[existing].status == PENDING {
        return Conflict;
      }
      requests := requests + [Request(report, PENDING, NO_ERROR)];
      response := Accepted;
    }

    method PublishToIngress(id: nat, a: Attempt)
      modifies this
      ensures requests == Worked(old(requests), id, a)
    {
      if id >= |requests| {
        return;
      }
      var code := ErrorOf(a);
      if requests[id].status != PENDING {
        return;
      }
      requests := requests[id := requests[id].(status := if code == NO_ERROR then SENT else FAILED, code := code)];
    }
  }

  /** A worker changes a request only if it is pending: SENT without an error, or FAILED with the
      error it found. The report stays. */
  lemma SettledAs(r: Request, a: Attempt)
    ensures r.status != PENDING ==> Settled(r, a) == r
    ensures r.status == PENDING && ErrorOf(a) == NO_ERROR ==> Settled(r, a) == Request(r.report, SENT, NO_ERROR)
    ensures r.status == PENDING && ErrorOf(a) != NO_ERROR ==> Settled(r, a) == Request(r.report, FAILED, ErrorOf(a))
  {
  }

  /* ---------- what every interleaving keeps ---------- */

  /** Only the latest request of a report may be pending, and error codes fit the status. */
  ghost predicate Consistent(rs: Requests) {
    && (forall i, j :: 0 <= i < j < |rs| && rs[i].report == rs[j].report ==> rs[i].status != PENDING)
    && (forall i :: 0 <= i < |rs| ==> (rs[i].code != NO_ERROR <==> rs[i].status == FAILED))
  }

  /** Creating keeps the books consistent exactly when no request of the report is pending. */
  lemma CreationIff(rs: Requests, report: nat)
    requires Consistent(rs)
    ensures Consistent(Created(rs, report)) <==> !Busy(rs, report)
  {
    var after := Created(rs, report);
    if Busy(rs, report) {
      var l := Latest(rs, report);
      assert after[l].report == after[|rs|].report && after[l].status == PENDING;
    } else {
      forall i | 0 <= i < |rs| && rs[i].report == report ensures rs[i].status != PENDING {
        assert i <= Latest(rs, report);
      }
    }
  }

  /** So creating at once always does. */
  lemma AtOnceConsistent(rs: Requests, report: nat, publishable: bool)
    requires Consistent(rs)
    ensures Consistent(CreatedAtOnce(rs, report, publishable))
  {
    CreationIff(rs, report);
  }

  /** It is a check followed by its creation, with nothing in between. */
  lemma AtOnceIsTwoSteps(b: Books, report: nat, publishable: bool)
    ensures Run(b, [Check(report, publishable), Create(|b.tickets|)]).requests
            == CreatedAtOnce(b.requests, report, publishable)
  {
    var steps := [Check(report, publishable), Create(|b.tickets|)];
    assert steps[..1] == [Check(report, publishable)] && steps[..1][..0] == [];
    assert Run(b, steps[..1]) == Apply(b, steps[0]);
  }

  lemma WorkConsistent(rs: Requests, id: nat, a: Attempt)
    requires Consistent(rs)
    ensures Consistent(Worked(rs, id, a))
  {
  }

  /** A settled request never changes again, so each request changes status at most once. */
  lemma {:induction false} SettledForever(b: Books, steps: seq<Step>, i: nat)
    requires i < |b.requests| && b.requests[i].status != PENDING
    ensures |b.requests| <= |Run(b, steps).requests| && Run(b, steps).requests[i] == b.requests[i]
  {
    if steps != [] {
      SettledForever(b, steps[..|steps| - 1], i);
    }
  }

  /** A request is settled by the first worker that handles it, with that worker's finding. */
  lemma {:induction false} FirstWorkerDecides(b: Books, steps: seq<Step>, i: nat)
    requires i < |b.requests| && b.requests[i].status == PENDING
    ensures |b.requests| <= |Run(b, steps).requests|
    ensures Run(b, steps).requests[i] == match FirstWork(steps, i)
                                         case NobodyWorked => b.requests[i]
                                         case WorkedOn(a) => Settled(b.requests[i], a)
  {
    if steps != [] {
      FirstWorkerDecides(b, steps[..|steps| - 1], i);
    }
  }

  datatype First = NobodyWorked | WorkedOn(attempt: Attempt)

  function FirstWork(steps: seq<Step>, i: nat): First {
    if steps == [] then NobodyWorked
    else
      var f := FirstWork(steps[..|steps| - 1], i);
      var s := steps[|steps| - 1];
      if f.NobodyWorked? && s.Work? && s.id == i then WorkedOn(s.attempt) else f
  }

  /* ---------- the race between check and creation ---------- */

  /** Everybody who passed a check saw no pending request of the report. */
  ghost predicate ChecksPassed(b: Books) {
    forall t :: 0 <= t < |b.tickets| ==> Passed(b.requests, b.tickets[t])
  }

  ghost predicate Passed(rs: Requests, t: Ticket) {
    t.seen <= |rs| && forall i :: 0 <= i < t.seen && rs[i].report == t.report ==> rs[i].status != PENDING
  }

  ghost predicate Sound(b: Books) {
    Consistent(b.requests) && ChecksPassed(b)
  }

  /** Another creation of the report came between this check and this creation, and its request
      is still pending. */
  ghost predicate Overtaken(b: Books, s: Step) {
    && s.Create? && Usable(b, s.ticket)
    && exists i :: b.tickets[s.ticket].seen <= i < |b.requests|
                   && b.requests[i].report == b.tickets[s.ticket].report && b.requests[i].status == PENDING
  }

  lemma CheckSound(b: Books, report: nat, publishable: bool)
    requires Sound(b)
    ensures Sound(Apply(b, Check(report, publishable)))
  {
    if publishable && !Busy(b.requests, report) {
      forall i | 0 <= i < |b.requests| && b.requests[i].report == report ensures b.requests[i].status != PENDING {
        assert i <= Latest(b.requests, report);
      }
      assert Passed(b.requests, Ticket(report, |b.requests|, false));
    }
  }

  /** Checks stay passed: requests are never reopened. */
  lemma CreateKeepsChecks(b: Books, t: nat)
    requires ChecksPassed(b) && Usable(b, t)
    ensures ChecksPassed(Apply(b, Create(t)))
  {
    var after := Apply(b, Create(t));
    forall u | 0 <= u < |after.tickets| ensures Passed(after.requests, after.tickets[u]) {
      assert Passed(b.requests, b.tickets[u]);
    }
  }

  lemma WorkKeepsChecks(b: Books, id: nat, a: Attempt)
    requires ChecksPassed(b)
    ensures ChecksPassed(Apply(b, Work(id, a)))
  {
    var after := Apply(b, Work(id, a));
    forall u | 0 <= u < |after.tickets| ensures Passed(after.requests, after.tickets[u]) {
      assert Passed(b.requests, b.tickets[u]);
    }
  }

  /** With consistent books, a pending request of the report is one that came after the check. */
  lemma BusyIffOvertaken(b: Books, t: nat)
    requires Sound(b) && Usable(b, t)
    ensures Busy(b.requests, b.tickets[t].report) <==> Overtaken(b, Create(t))
  {
    var report := b.tickets[t].report;
    var l := Latest(b.requests, report);
    if Busy(b.requests, report) {
      assert Passed(b.requests, b.tickets[t]);
      assert b.tickets[t].seen <= l;
    }
    if Overtaken(b, Create(t)) {
      var i :| b.tickets[t].seen <= i < |b.requests| && b.requests[i].report == report
          && b.requests[i].status == PENDING;
      assert i <= l && b.requests[i].report == b.requests[l].report;
    }
  }

  lemma StepConsistentIff(b: Books, s: Step)
    requires Sound(b)
    ensures Consistent(Apply(b, s).requests) <==> !Overtaken(b, s)
    ensures ChecksPassed(Apply(b, s))
  {
    match s
    case Check(report, publishable) =>
      CheckSound(b, report, publishable);
    case Create(t) =>
      if Usable(b, t) {
        CreateKeepsChecks(b, t);
        BusyIffOvertaken(b, t);
        CreationIff(b.requests, b.tickets[t].report);
      }
    case Work(id, a) =>
      WorkKeepsChecks(b, id, a);
      WorkConsistent(b.requests, id, a);
  }

  ghost predicate AlwaysConsistent(b: Books, steps: seq<Step>) {
    forall m :: 0 <= m <= |steps| ==> Consistent(Run(b, steps[..m]).requests)
  }

  ghost predicate NeverOvertaken(b: Books, steps: seq<Step>) {
    forall m :: 0 <= m < |steps| ==> !Overtaken(Run(b, steps[..m]), steps[m])
  }

  lemma ConsistentSnoc(b: Books, steps: seq<Step>)
    requires steps != []
    ensures AlwaysConsistent(b, steps) <==>
            AlwaysConsistent(b, steps[..|steps| - 1]) && Consistent(Run(b, steps).requests)
  {
    hide Run, Consistent;
    var front := steps[..|steps| - 1];
    assert steps[..|steps|] == steps && forall m :: 0 <= m < |steps| ==> front[..m] == steps[..m];
  }

  lemma OvertakenSnoc(b: Books, steps: seq<Step>)
    requires steps != []
    ensures NeverOvertaken(b, steps) <==>
            NeverOvertaken(b, steps[..|steps| - 1]) && !Overtaken(Run(b, steps[..|steps| - 1]), steps[|steps| - 1])
  {
    hide Run, Overtaken;
    var front := steps[..|steps| - 1];
    assert forall m :: 0 <= m < |steps| ==> front[..m] == steps[..m];
  }

  /** Over all interleavings of checks, creations and repeated workers: at most the latest request
      of a report is pending, a sent request carries no error and a failed one does, exactly as
      long as no creation is overtaken by another one after its check. */
  lemma {:induction false} ConsistentIff(b: Books, steps: seq<Step>)
    requires Sound(b)
    ensures AlwaysConsistent(b, steps) <==> NeverOvertaken(b, steps)
    ensures AlwaysConsistent(b, steps) ==> Sound(Run(b, steps))
  {
    if steps == [] {
      assert steps[..0] == [];
    } else {
      var front := steps[..|steps| - 1];
      ConsistentIff(b, front);
      ConsistentSnoc(b, steps);
      OvertakenSnoc(b, steps);
      if AlwaysConsistent(b, front) {
        StepConsistentIff(Run(b, front), steps[|steps| - 1]);
      }
    }
  }

  /** Two users who both check before either creates leave two pending requests. */
  lemma TwoUsersBothPending(report: nat)
    ensures var steps := [Check(report, true), Check(report, true), Create(0), Create(1)];
            var rs := Run(Books([], []), steps).requests;
            && Sound(Books([], [])) && Overtaken(Run(Books([], []), steps[..3]), steps[3])
            && |rs| == 2 && rs[0] == rs[1] == Request(report, PENDING, NO_ERROR) && !Consistent(rs)
  {
    var steps := [Check(report, true), Check(report, true), Create(0), Create(1)];
    var b := Books([], []);
    var ticket := Ticket(report, 0, false);
    var one := [Request(report, PENDING, NO_ERROR)];
    assert steps[..0] == [] && steps[..1][..0] == [] && steps[..2][..1] == steps[..1];
    assert steps[..3][..2] == steps[..2] && steps[..4] == steps && steps[..4][..3] == steps[..3];
    assert Run(b, steps[..1]) == Books([], [ticket]);
    assert Run(b, steps[..2]) == Books([], [ticket, ticket]);
    var c := Run(b, steps[..3]);
    assert c == Books(one, [ticket, ticket][0 := ticket.(used := true)]);
    assert c.requests[0].status == PENDING;
    var rs := Run(b, steps).requests;
    assert rs == one + one && rs[0].report == rs[1].report;
  }
}
