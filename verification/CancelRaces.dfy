/** When a cancel is lost: bodies write back the copy of the job row they read earlier. */
module CancelRaces {
  import opened JobStates
  import opened Workflow

  /* ---------- one step ---------- */

  /** The step writes something else than CANCELED, through a copy that holds something else. */
  predicate StaleWrite(v: World, e: Event) {
    match e
    case Save(i) => i < |v.copies| && v.copies[i].status != CANCELED
    case GiveUp(i, revoked) => i < |v.copies| && !revoked && v.copies[i].status != CANCELED
    case End(i, o) => i < |v.copies| && o.Raised? && v.copies[i].status != CANCELED
    case Close(revoked) =>
      && v.closing.Holding?
      && var c := FinalCall(v.job.tasks, revoked);
      (v.closing.copy.status == RUNNING && !c.Cancel?) || (v.closing.copy.status == FAILED && c.Fail?)
    case _ => false
  }

  /** The status of a job that has ended changes exactly when a body writes a stale copy over
      CANCELED, or a cancel request writes over FAILED or COMPLETED. */
  lemma OverwrittenIff(w: World, es: seq<Event>, e: Event)
    requires Started(w) && ValidRun(w, es) && Enabled(Exec(w, es), e) && Terminal(Exec(w, es).job.status)
    ensures var v := Exec(w, es);
            Step(v, e).job.status != v.job.status <==>
            if v.job.status == CANCELED then StaleWrite(v, e) else e.UserCancel?
  {
    RunKeepsInv(w, es);
    var v := Exec(w, es);
    StepExplained(v, e);
    if v.job.status == CANCELED {
      CancelStep(v, e);
    }
  }

  lemma CancelStep(v: World, e: Event)
    requires Enabled(v, e) && Shaped(v) && Explained(v) && CopiesFresh(v) && v.job.status == CANCELED
    ensures Step(v, e).job.status != CANCELED <==> StaleWrite(v, e)
  {
    hide Apply, TotalScanned, WithoutFacts, WriteThrough, AllCanceled, AnyCompleted, InspectsDone, AllDone, Shaped,
         Accepted;
    match e
    case End(i, o) => WriteEnds(WithTask(v.job, i, Reported(o)), v.copies[i], Fail);
    case GiveUp(i, revoked) => WriteEnds(v.job, v.copies[i], GiveUpCall(revoked));
    case Close(revoked) => WriteEnds(v.job, v.closing.copy, FinalCall(v.job.tasks, revoked));
    case CloseBreaks => WriteEnds(v.job, Row(FAILED, false), Fail);
    case UserCancel(k) => CancelEnds(v.job, v.asked[k]);
    case _ =>
  }

  /* ---------- whole runs ---------- */

  ghost predicate CanceledThroughout(w: World, es: seq<Event>, n: nat)
    requires ValidRun(w, es) && n <= |es|
  {
    forall m :: n <= m <= |es| ==> ValidRun(w, es[..m]) && Exec(w, es[..m]).job.status == CANCELED
  }

  /** No step from n on is a stale write. */
  ghost predicate NoStaleWrite(w: World, es: seq<Event>, n: nat)
    requires ValidRun(w, es) && n <= |es|
  {
    forall m :: n <= m < |es| ==> ValidRun(w, es[..m]) && !StaleWrite(Exec(w, es[..m]), es[m])
  }

  lemma PrefixesValid(w: World, es: seq<Event>)
    requires ValidRun(w, es)
    ensures forall m :: 0 <= m <= |es| ==> ValidRun(w, es[..m])
  {
    hide Step, Enabled, ValidRun, Exec;
    assert es[..|es|] == es;
    forall m | 0 <= m < |es| ensures ValidRun(w, es[..m]) {
      ValidPrefix(w, es, m);
    }
  }

  lemma ThroughoutStep(w: World, es: seq<Event>, n: nat)
    requires ValidRun(w, es) && n < |es|
    ensures ValidRun(w, es[..|es| - 1])
    ensures CanceledThroughout(w, es, n) <==>
            CanceledThroughout(w, es[..|es| - 1], n) && Exec(w, es).job.status == CANCELED
  {
    hide Step, Enabled, ValidRun, Exec;
    PrefixesValid(w, es);
    var front := es[..|es| - 1];
    assert es[..|es|] == es;
    assert forall m :: 0 <= m < |es| ==> front[..m] == es[..m];
  }

  lemma NoStaleStep(w: World, es: seq<Event>, n: nat)
    requires ValidRun(w, es) && n < |es|
    ensures ValidRun(w, es[..|es| - 1])
    ensures NoStaleWrite(w, es, n) <==>
            NoStaleWrite(w, es[..|es| - 1], n) && !StaleWrite(Exec(w, es[..|es| - 1]), es[|es| - 1])
  {
    hide Step, Enabled, ValidRun, Exec, StaleWrite;
    PrefixesValid(w, es);
    var front := es[..|es| - 1];
    assert forall m :: 0 <= m < |es| ==> front[..m] == es[..m];
  }

  /** A cancel stands to the end of the run exactly when no later step is a stale write. */
  lemma {:induction false} CancelStandsIff(w: World, es: seq<Event>, n: nat)
    requires Started(w) && ValidRun(w, es) && n <= |es|
    requires ValidRun(w, es[..n]) && Exec(w, es[..n]).job.status == CANCELED
    ensures CanceledThroughout(w, es, n) <==> NoStaleWrite(w, es, n)
  {
    hide Step, Enabled, Started, StaleWrite, NoStaleWrite, CanceledThroughout;
    if n == |es| {
      assert es[..n] == es;
      AtTheEnd(w, es);
    } else {
      var front := es[..|es| - 1];
      assert front[..n] == es[..n];
      CancelStandsIff(w, front, n);
      ThroughoutStep(w, es, n);
      NoStaleStep(w, es, n);
      if CanceledThroughout(w, front, n) {
        ThroughoutEnd(w, front, n);
        OverwrittenIff(w, front, es[|es| - 1]);
      }
    }
  }

  lemma AtTheEnd(w: World, es: seq<Event>)
    requires ValidRun(w, es) && Exec(w, es).job.status == CANCELED
    ensures CanceledThroughout(w, es, |es|) && NoStaleWrite(w, es, |es|)
  {
    hide Step, Enabled;
    assert es[..|es|] == es;
  }

  lemma ThroughoutEnd(w: World, es: seq<Event>, n: nat)
    requires ValidRun(w, es) && n <= |es| && CanceledThroughout(w, es, n)
    ensures Exec(w, es).job.status == CANCELED
  {
    hide Step, Enabled;
    assert es[..|es|] == es;
  }

  /** The body that takes the step had read the row, when it was not CANCELED, by the time of v. */
  predicate ReadBy(v: World, e: Event) {
    match e
    case Save(i) => Holds(v, i)
    case GiveUp(i, _) => Holds(v, i)
    case End(i, _) => Holds(v, i)
    case Close(_) => v.closing.Holding? && v.closing.copy.status != CANCELED
    case _ => false
  }

  predicate Holds(v: World, i: nat) {
    IsTask(v, i) && v.copies[i].status != CANCELED && (InWindow(v, i) || v.stages[i].InFlight?)
  }

  /** Whoever reads the row after the cancel reads CANCELED. */
  lemma {:induction false} HeldBefore(w: World, es: seq<Event>, n: nat, e: Event)
    requires Started(w) && ValidRun(w, es) && n <= |es| && CanceledThroughout(w, es, n)
    requires ReadBy(Exec(w, es), e)
    ensures ValidRun(w, es[..n]) && ReadBy(Exec(w, es[..n]), e)
  {
    hide Step, Enabled, Started, ReadBy;
    if n == |es| {
      assert es[..n] == es;
    } else {
      var front, last := es[..|es| - 1], |es| - 1;
      forall m | n <= m <= last ensures front[..m] == es[..m] {
      }
      assert es[..last] == front;
      RunKeepsInv(w, front);
      ReadByStep(Exec(w, front), es[last], e);
      HeldBefore(w, front, n, e);
    }
  }

  lemma ReadByStep(v: World, d: Event, e: Event)
    requires Enabled(v, d) && Shaped(v) && v.job.status == CANCELED && ReadBy(Step(v, d), e)
    ensures ReadBy(v, e)
  {
    hide Apply, TotalScanned, WithoutFacts, WriteThrough, AllCanceled, AnyCompleted, InspectsDone, AllDone;
    StepRows(v, d);
  }

  /** A cancel is lost exactly when a body that had read the row before the cancel writes it
      back afterwards. */
  lemma {:induction false} CancelLostIff(w: World, es: seq<Event>, n: nat)
    requires Started(w) && ValidRun(w, es) && n <= |es|
    requires ValidRun(w, es[..n]) && Exec(w, es[..n]).job.status == CANCELED
    ensures !CanceledThroughout(w, es, n) <==>
            exists m :: n <= m < |es| && ValidRun(w, es[..m]) && StaleWrite(Exec(w, es[..m]), es[m])
                        && ReadBy(Exec(w, es[..n]), es[m])
  {
    hide Step, Enabled, Started, StaleWrite, ReadBy, CanceledThroughout;
    CancelStandsIff(w, es, n);
    PrefixesValid(w, es);
    if !CanceledThroughout(w, es, n) {
      var m := FirstStaleWrite(w, es, n);
      assert es[..m][..n] == es[..n];
    }
  }

  lemma {:induction false} FirstStaleWrite(w: World, es: seq<Event>, n: nat) returns (m: nat)
    requires Started(w) && ValidRun(w, es) && n <= |es|
    requires ValidRun(w, es[..n]) && Exec(w, es[..n]).job.status == CANCELED && !CanceledThroughout(w, es, n)
    ensures n <= m < |es| && ValidRun(w, es[..m]) && StaleWrite(Exec(w, es[..m]), es[m])
    ensures ReadBy(Exec(w, es[..n]), es[m])
  {
    hide Step, Enabled, Started, StaleWrite, ReadBy;
    assert es[..|es|] == es;
    if n < |es| {
      var front, last := es[..|es| - 1], |es| - 1;
      assert front[..n] == es[..n];
      forall k | n <= k <= last ensures front[..k] == es[..k] && ValidRun(w, es[..k]) {
        ValidPrefix(w, es, k);
      }
      if CanceledThroughout(w, front, n) {
        assert es[..|es|] == es && front[..last] == front;
        OverwrittenIff(w, front, es[last]);
        RunKeepsInv(w, front);
        StaleIsRead(Exec(w, front), es[last]);
        HeldBefore(w, front, n, es[last]);
        m := last;
      } else {
        m := FirstStaleWrite(w, front, n);
      }
    }
  }

  lemma StaleIsRead(v: World, e: Event)
    requires Enabled(v, e) && StaleWrite(v, e)
    ensures ReadBy(v, e)
  {
    hide TotalScanned, WithoutFacts, InspectsDone, AllDone, AllCanceled, AnyCompleted;
  }

  /* ---------- the window of the fingerprint task ---------- */

  /** Some step between the two positions writes a cancel. */
  predicate CancelBetween(es: seq<Event>, from: nat, to: nat)
    requires to <= |es|
  {
    exists m :: from < m < to && es[m].UserCancel?
  }

  /** Between the read (or a save) and the next save of the fingerprint task nothing but cancel
      requests can happen, and that save overwrites a terminal status exactly when the row was
      not CANCELED at first and one of them has written. */
  lemma SaveOverwritesIff(w: World, es: seq<Event>, from: nat, i: nat)
    requires Started(w) && ValidRun(w, es) && from < |es| - 1
    requires es[from] in {Read(i), Save(i)} && es[|es| - 1] == Save(i)
    requires forall m :: from < m < |es| - 1 ==> es[m] != Save(i)
    ensures forall m :: from < m < |es| - 1 ==> ByUser(es[m])
    ensures ValidRun(w, es[..from + 1]) && ValidRun(w, es[..|es| - 1])
    ensures var row := Exec(w, es[..|es| - 1]).job;
            (Terminal(row.status) && Exec(w, es).job.status != row.status) <==>
            Exec(w, es[..from + 1]).job.status != CANCELED && CancelBetween(es, from, |es| - 1)
  {
    hide Step, Enabled, Started;
    var last := |es| - 1;
    ValidPrefix(w, es, from);
    ValidPrefix(w, es, last);
    assert es[..last + 1] == es;
    SaveNeedsWindow(Exec(w, es[..last]), i);
    AfterRead(Exec(w, es[..from]), es[from], i);
    StillHeld(w, es, from, last, i);
    RunKeepsInv(w, es[..last]);
    SaveStep(Exec(w, es[..last]), i);
  }

  lemma SaveNeedsWindow(v: World, i: nat)
    requires Enabled(v, Save(i))
    ensures InWindow(v, i)
  {
  }

  lemma AfterRead(v: World, e: Event, i: nat)
    requires Enabled(v, e) && e in {Read(i), Save(i)}
    ensures var u := Step(v, e); InWindow(u, i) && u.copies[i].status == u.job.status
  {
    hide TotalScanned, InspectsDone, WithoutFacts;
  }

  lemma SaveStep(v: World, i: nat)
    requires Enabled(v, Save(i))
    ensures Step(v, Save(i)).job.status == v.copies[i].status
  {
    hide TotalScanned, WithoutFacts;
  }

  /** Up to position n the body holds what it read; the row is the same until a cancel is written. */
  lemma {:induction false} StillHeld(w: World, es: seq<Event>, from: nat, n: nat, i: nat)
    requires Started(w) && ValidRun(w, es) && from < n < |es|
    requires ValidRun(w, es[..from + 1]) && ValidRun(w, es[..n])
    requires var u := Exec(w, es[..from + 1]); InWindow(u, i) && u.copies[i].status == u.job.status
    requires InWindow(Exec(w, es[..n]), i) && forall m :: from < m < n ==> es[m] != Save(i)
    ensures forall m :: from < m < n ==> ByUser(es[m])
    ensures var u, v := Exec(w, es[..from + 1]), Exec(w, es[..n]);
            && v.copies[i] == u.copies[i]
            && v.job.status == if CancelBetween(es, from, n) then CANCELED else u.job.status
  {
    hide Step, Enabled, Started, InWindow;
    if n > from + 1 {
      ValidPrefix(w, es, n - 1);
      var v := Exec(w, es[..n - 1]);
      RunKeepsInv(w, es[..n - 1]);
      ReachedWindow(w, es, from + 1, n - 1, i);
      StayInWindow(v, es[n - 1], i);
      StillHeld(w, es, from, n - 1, i);
      assert CancelBetween(es, from, n) <==> CancelBetween(es, from, n - 1) || es[n - 1].UserCancel?;
    }
  }

  /** Stages only move forward, so the window is not left in between. */
  lemma {:induction false} ReachedWindow(w: World, es: seq<Event>, a: nat, n: nat, i: nat)
    requires Started(w) && ValidRun(w, es) && a <= n < |es| && ValidRun(w, es[..a]) && ValidRun(w, es[..n])
    requires InWindow(Exec(w, es[..a]), i) && ValidRun(w, es[..n + 1]) && InWindow(Exec(w, es[..n + 1]), i)
    ensures InWindow(Exec(w, es[..n]), i)
  {
    hide Step, Enabled, Started;
    SameSize(w, es[..a]);
    ForwardOnly(w, es, a, n, i);
    ForwardOnly(w, es, n, n + 1, i);
  }

  lemma {:induction false} ForwardOnly(w: World, es: seq<Event>, a: nat, n: nat, i: nat)
    requires Started(w) && ValidRun(w, es) && a <= n <= |es| && ValidRun(w, es[..a]) && ValidRun(w, es[..n])
    requires i < |w.stages|
    ensures var u, v := Exec(w, es[..a]), Exec(w, es[..n]);
            IsTask(u, i) && IsTask(v, i) && Progress(u.stages[i]) <= Progress(v.stages[i])
  {
    hide Step, Enabled, Started;
    SameSize(w, es[..a]);
    SameSize(w, es[..n]);
    if a < n {
      ValidPrefix(w, es, n - 1);
      ForwardOnly(w, es, a, n - 1, i);
      StepStages(Exec(w, es[..n - 1]), es[n - 1]);
    }
  }

  lemma {:induction false} SameSize(w: World, es: seq<Event>)
    requires Started(w) && ValidRun(w, es)
    ensures var v := Exec(w, es); |v.stages| == |v.job.tasks| == |v.copies| == |w.stages|
  {
    hide Step, Enabled;
    if es != [] {
      SameSize(w, es[..|es| - 1]);
      StepRows(Exec(w, es[..|es| - 1]), es[|es| - 1]);
    }
  }

  lemma StayInWindow(v: World, e: Event, i: nat)
    requires Shaped(v) && Explained(v) && CopiesFresh(v) && InWindow(v, i) && Enabled(v, e) && InWindow(Step(v, e), i)
    requires e != Save(i)
    ensures ByUser(e)
    ensures Step(v, e).copies[i] == v.copies[i]
    ensures Step(v, e).job.status == if e.UserCancel? then CANCELED else v.job.status
  {
    hide TotalScanned, WithoutFacts, InspectsDone, AllDone, AllCanceled, AnyCompleted;
    WindowEvents(v, e, i);
    StepExplained(v, e);
  }
}
