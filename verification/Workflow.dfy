/** A started job as a state machine: inspect tasks in any interleaving, then the fingerprint
    task, then the finalizer, with cancel requests at any time. Every body and every request reads
    the job row when it begins and later writes the copy it holds, all columns included. */
module Workflow {
  import opened JobStates

  /** How `runner.run` ends: with a status, or with an exception. */
  datatype Outcome = Returned(status: Status) | Raised

  /* ---------- writing the job row ---------- */

  /** The columns of the job row that matter here. */
  datatype Row = Row(status: Status, report: bool)

  function RowOf(s: JobState): Row {
    Row(s.status, s.report)
  }

  /** A status method called on a copy: the copy decides whether it is refused, and a
      successful call saves the whole row. Tasks are always fetched anew. */
  function WriteThrough(s: JobState, copy: Row, c: Call): JobState {
    if Refused(copy.status, Target(c), Allowed(c)) then s
    else Apply(s.(status := copy.status, report := copy.report), c)
  }

  /** Saving a copy to attach the report. */
  function SaveCopy(s: JobState, copy: Row): JobState {
    s.(status := copy.status, report := true)
  }

  /* ---------- task bodies ---------- */

  function WithTask(s: JobState, i: nat, status: Status): JobState
    requires i < |s.tasks|
  {
    s.(tasks := s.tasks[i := s.tasks[i].(status := status)])
  }

  /** A status the runner may not return counts as a failure. */
  function Reported(o: Outcome): Status {
    if o.Returned? && o.status in {CANCELED, PAUSED, COMPLETED, FAILED} then o.status else FAILED
  }

  /** The rest of `run_task_runner`: an exception fails the job too, through the copy. */
  function FinishTask(s: JobState, i: nat, o: Outcome, copy: Row): JobState
    requires i < |s.tasks|
  {
    var t := WithTask(s, i, Reported(o));
    if o.Raised? then WriteThrough(t, copy, Fail) else t
  }

  function TotalScanned(ts: seq<TaskRow>): nat {
    if ts == [] then 0
    else TotalScanned(ts[..|ts| - 1]) + if ts[|ts| - 1].kind.INSPECT? then ts[|ts| - 1].scanned else 0
  }

  /** There is nothing to report: the copy knows no earlier report, and no system was scanned. */
  predicate WithoutFacts(copy: Row, ts: seq<TaskRow>) {
    !copy.report && TotalScanned(ts) == 0
  }

  /** The fingerprint task ends early: the job was revoked, or there are no facts. */
  function GiveUpCall(revoked: bool): Call {
    if revoked then Cancel else Fail
  }

  predicate AllCanceled(ts: seq<TaskRow>) {
    forall i :: 0 <= i < |ts| ==> ts[i].status == CANCELED
  }

  predicate AnyCompleted(ts: seq<TaskRow>) {
    exists i :: 0 <= i < |ts| && ts[i].status == COMPLETED
  }

  function FinalCall(ts: seq<TaskRow>, revoked: bool): Call {
    if revoked then Cancel
    else if ts == [] then Complete
    else if AllCanceled(ts) then Cancel
    else if AnyCompleted(ts) then Complete
    else Fail
  }

  /* ---------- what the bodies write ---------- */

  /** The systems scanned are those of the inspect tasks, over any split of the tasks. */
  lemma {:induction false} ScannedAddsUp(a: seq<TaskRow>, b: seq<TaskRow>)
    ensures TotalScanned(a + b) == TotalScanned(a) + TotalScanned(b)
    ensures |b| == 1 ==> TotalScanned(b) == if b[0].kind == INSPECT then b[0].scanned else 0
  {
    if b == [] {
      assert a + b == a;
    } else {
      ScannedAddsUp(a, b[..|b| - 1]);
      assert (a + b)[..|a + b| - 1] == a + b[..|b| - 1];
    }
  }

  /** The end of a task body: the task takes the status the runner returned, if it may return it,
      and otherwise FAILED; only an exception touches the job, and only if the copy is RUNNING or
      FAILED. */
  lemma BodyEnds(s: JobState, i: nat, o: Outcome, copy: Row, j: nat)
    requires i < |s.tasks| && j < |s.tasks|
    ensures var t := FinishTask(s, i, o, copy);
            && t.kind == s.kind && |t.tasks| == |s.tasks|
            && (j != i ==> t.tasks[j] == s.tasks[j])
            && t.tasks[i] == s.tasks[i].(status :=
                 match o
                 case Raised => FAILED
                 case Returned(x) => if x in {CANCELED, PAUSED, COMPLETED, FAILED} then x else FAILED)
            && if o.Raised? && copy.status in {RUNNING, FAILED}
               then t.status == FAILED && t.report == copy.report
               else t.status == s.status && t.report == s.report
  {
  }

  /** What the finalizer decides: CANCELED for a revoked job and if all tasks are, COMPLETED if
      there is no task or one has completed, and FAILED otherwise. */
  lemma FinalDecision(ts: seq<TaskRow>, revoked: bool)
    ensures Target(FinalCall(ts, revoked)) ==
            if revoked || (ts != [] && forall i :: 0 <= i < |ts| ==> ts[i].status == CANCELED) then CANCELED
            else if ts == [] || exists i :: 0 <= i < |ts| && ts[i].status == COMPLETED then COMPLETED
            else FAILED
    ensures FinalCall(ts, revoked) in {Cancel, Complete, Fail}
  {
  }

  /** A status call through a copy that is RUNNING, or holds the target already, writes status and
      report of the copy, and a cancel the unfinished tasks; any other copy writes nothing. */
  lemma CopyWrites(s: JobState, copy: Row, c: Call, i: nat)
    requires c in {Cancel, Complete, Fail} && copy.status in {RUNNING, CANCELED, COMPLETED, FAILED}
    ensures var t := WriteThrough(s, copy, c);
            if copy.status == RUNNING || copy.status == Target(c) then
              && t.status == Target(c) && t.report == copy.report && t.kind == s.kind && |t.tasks| == |s.tasks|
              && (i < |s.tasks| ==>
                    t.tasks[i] == if c.Cancel? && s.tasks[i].status !in {CANCELED, COMPLETED, FAILED}
                                  then s.tasks[i].(status := CANCELED) else s.tasks[i])
            else t == s
  {
  }

  /* ---------- the machine ---------- */

  /** Reading: the fingerprint body holds a copy. Saving: it has written the copy at least once. */
  datatype Stage = Waiting | Reading | Saving | InFlight | Done

  /** The finalizer, once it has read the row. */
  datatype Closing = NotYet | Holding(copy: Row)

  /** A user's request to cancel, with the copy it read. Killing the job and the view itself both
      write it. */
  datatype Request = Request(row: Row, writes: nat)

  /** The job row with its tasks, how far each body has come with the copy it read, the cancel
      requests, and what has happened so far. */
  datatype World = World(
    job: JobState,
    stages: seq<Stage>,
    copies: seq<Row>,
    closing: Closing,
    asked: seq<Request>,
    finalized: bool,
    crashed: bool,    // an exception passed through run_task_runner
    noFacts: bool,    // the fingerprint task found nothing to report
    canceled: bool,   // a cancel was written
    reopened: bool,   // a save turned CANCELED back into RUNNING
    ran: bool)        // the fingerprint runner was started

  datatype Event =
    | Skip(i: nat)                  // the job was revoked before this inspect task began
    | Break(i: nat)                 // an exception before the task's runner began
    | Begin(i: nat)                 // an inspect body reads the row and starts its runner
    | Count(i: nat, n: nat)         // its counter of connected systems changes
    | End(i: nat, o: Outcome)       // a runner ends
    | Read(i: nat)                  // the fingerprint body reads the row
    | GiveUp(i: nat, revoked: bool)
    | Save(i: nat)                  // it saves its copy with the report attached, once or twice
    | Launch(i: nat)                // and starts its runner
    | Open                          // the finalizer reads the row
    | Close(revoked: bool)          // and makes its status call
    | CloseBreaks                   // an exception in the finalizer
    | Ask                           // a cancel request reads the row, and is refused if the job has ended
    | UserCancel(k: nat)            // it writes its copy

  predicate InspectsDone(w: World) {
    && |w.stages| == |w.job.tasks|
    && forall i :: 0 <= i < |w.stages| && w.job.tasks[i].kind.INSPECT? ==> w.stages[i].Done?
  }

  predicate AllDone(w: World) {
    forall i :: 0 <= i < |w.stages| ==> w.stages[i].Done?
  }

  predicate IsTask(w: World, i: nat) {
    |w.stages| == |w.job.tasks| == |w.copies| && i < |w.stages|
  }

  predicate IsInspect(w: World, i: nat) {
    IsTask(w, i) && w.job.tasks[i].kind.INSPECT?
  }

  /** The fingerprint body holds a copy it may still save. */
  predicate InWindow(w: World, i: nat) {
    IsTask(w, i) && (w.stages[i].Reading? || w.stages[i].Saving?)
  }

  /** Inspect tasks, then the fingerprint task, then the finalizer. */
  predicate Enabled(w: World, e: Event) {
    match e
    case Skip(i) => !w.finalized && IsInspect(w, i) && w.stages[i].Waiting?
    case Break(i) => !w.finalized && IsTask(w, i) && (w.stages[i].Waiting? || InWindow(w, i))
                     && (w.job.tasks[i].kind.FINGERPRINT? ==> InspectsDone(w))
    case Begin(i) => !w.finalized && IsInspect(w, i) && w.stages[i].Waiting?
    case Count(i, _) => !w.finalized && IsInspect(w, i) && w.stages[i].InFlight?
    case End(i, _) => !w.finalized && IsTask(w, i) && w.stages[i].InFlight?
    case Read(i) => !w.finalized && IsTask(w, i) && w.job.tasks[i].kind.FINGERPRINT? && w.stages[i].Waiting?
        && InspectsDone(w)
    case GiveUp(i, revoked) => !w.finalized && IsTask(w, i) && w.stages[i].Reading?
                               && (revoked || WithoutFacts(w.copies[i], w.job.tasks))
    case Save(i) => !w.finalized && InWindow(w, i) && !WithoutFacts(w.copies[i], w.job.tasks)
    case Launch(i) => !w.finalized && IsTask(w, i) && w.stages[i].Saving?
    case Open => !w.finalized && AllDone(w) && w.closing.NotYet?
    case Close(_) => !w.finalized && w.closing.Holding?
    case CloseBreaks => !w.finalized && AllDone(w)
    case Ask => !Terminal(w.job.status)
    case UserCancel(k) => k < |w.asked| && w.asked[k].writes < 2
  }

  function Step(w: World, e: Event): World
    requires Enabled(w, e)
  {
    match e
    case Skip(i) => w.(stages := w.stages[i := Done])
    case Break(i) => w.(job := WithTask(w.job, i, FAILED), stages := w.stages[i := Done])
    case Begin(i) =>
      w.(job := WithTask(w.job, i, RUNNING), stages := w.stages[i := InFlight], copies := w.copies[i := RowOf(w.job)])
    case Count(i, n) => w.(job := w.job.(tasks := w.job.tasks[i := w.job.tasks[i].(scanned := n)]))
    case End(i, o) =>
      w.(job := FinishTask(w.job, i, o, w.copies[i]), stages := w.stages[i := Done], crashed := w.crashed || o.Raised?)
    case Read(i) => w.(stages := w.stages[i := Reading], copies := w.copies[i := RowOf(w.job)])
    case GiveUp(i, revoked) =>
      w.(job := WriteThrough(w.job, w.copies[i], GiveUpCall(revoked)), stages := w.stages[i := Done],
         canceled := w.canceled || revoked, noFacts := w.noFacts || !revoked)
    case Save(i) =>
      w.(job := SaveCopy(w.job, w.copies[i]), stages := w.stages[i := Saving],
         copies := w.copies[i := w.copies[i].(report := true)],
         reopened := w.reopened || (w.job.status == CANCELED && w.copies[i].status == RUNNING))
    case Launch(i) => w.(job := WithTask(w.job, i, RUNNING), stages := w.stages[i := InFlight], ran := true)
    case Open => w.(closing := Holding(RowOf(w.job)))
    case Close(revoked) =>
      w.(job := WriteThrough(w.job, w.closing.copy, FinalCall(w.job.tasks, revoked)), finalized := true,
         canceled := w.canceled || FinalCall(w.job.tasks, revoked).Cancel?)
    case CloseBreaks => w.(job := Apply(w.job, Fail), finalized := true)
    case Ask => w.(asked := w.asked + [Request(RowOf(w.job), 0)])
    case UserCancel(k) =>
      var r := w.asked[k];
      w.(job := WriteThrough(w.job, r.row, Cancel), canceled := true,
         asked := w.asked[k := Request(r.row.(status := CANCELED), r.writes + 1)])
  }

  predicate ValidRun(w: World, es: seq<Event>)
    decreases es, 0
  {
    es == [] || (ValidRun(w, es[..|es| - 1]) && Enabled(Exec(w, es[..|es| - 1]), es[|es| - 1]))
  }

  function Exec(w: World, es: seq<Event>): World
    requires ValidRun(w, es)
    decreases es, 1
  {
    if es == [] then w else Step(Exec(w, es[..|es| - 1]), es[|es| - 1])
  }

  /** There is at most one fingerprint task. */
  predicate OneFingerprint(ts: seq<TaskRow>) {
    forall i, j :: 0 <= i < j < |ts| ==> ts[i].kind.INSPECT? || ts[j].kind.INSPECT?
  }

  /** A request is not refused: when it read the row, the job had not ended. */
  predicate Accepted(r: Request) {
    r.row.status in CANCELABLE || r.row.status == CANCELED
  }

  /** A job whose start succeeded. Tasks finished before a restart are done, and requests may have
      read the row before. */
  predicate Started(w: World) {
    && w.job.status == RUNNING
    && |w.stages| == |w.job.tasks| == |w.copies| && OneFingerprint(w.job.tasks)
    && (forall i :: 0 <= i < |w.stages| ==> w.stages[i].Waiting? || w.stages[i].Done?)
    && w.closing.NotYet?
    && (forall k :: 0 <= k < |w.asked| ==> Accepted(w.asked[k]) && (w.asked[k].row.report ==> w.job.report))
    && !w.finalized && !w.crashed && !w.noFacts && !w.canceled && !w.reopened && !w.ran
  }

  /* ---------- what every run keeps ---------- */

  /** The statuses a job can have here, and what each says about the past. */
  predicate Explained(v: World) {
    && (v.job.status == RUNNING ==> !v.finalized && !v.crashed && !v.noFacts && (v.canceled ==> v.reopened))
    && (v.job.status == FAILED ==> v.finalized || v.crashed || v.noFacts)
    && (v.job.status == CANCELED ==> v.canceled)
    && (v.job.status == COMPLETED ==> v.finalized && !v.crashed && !v.noFacts)
    && v.job.status in {RUNNING, FAILED, CANCELED, COMPLETED}
  }

  /** Since it was read, only a cancel can have changed the row behind this copy, and the
      copy is RUNNING only if nothing had gone wrong. */
  predicate Fresh(v: World, copy: Row) {
    && (v.job.status == copy.status || v.job.status == CANCELED)
    && copy.status in {RUNNING, FAILED, CANCELED}
    && (copy.status == RUNNING ==> !v.crashed && !v.noFacts)
    && (copy.status == FAILED ==> v.crashed || v.noFacts)
  }

  /** An inspect body holds what was true when it began. */
  predicate Sound(v: World, copy: Row) {
    && copy.status in {RUNNING, FAILED, CANCELED}
    && (v.job.status == RUNNING ==> copy.status == RUNNING)
    && (copy.status == FAILED ==> v.job.status in {FAILED, CANCELED} && (v.crashed || v.noFacts))
  }

  /** The fingerprint body and the finalizer hold fresh copies. */
  ghost predicate CopiesFresh(v: World) {
    && (forall i: nat :: InWindow(v, i) ==> Fresh(v, v.copies[i]))
    && (v.closing.Holding? && !v.finalized ==> Fresh(v, v.closing.copy))
    && (forall i :: 0 <= i < |v.copies| && i < |v.stages| && v.stages[i].InFlight? ==> Sound(v, v.copies[i]))
    && (forall k :: 0 <= k < |v.asked| ==> Accepted(v.asked[k]))
  }

  ghost predicate Shaped(v: World) {
    && |v.stages| == |v.job.tasks| == |v.copies| && OneFingerprint(v.job.tasks)
    && (forall i: nat :: InWindow(v, i) ==> v.job.tasks[i].kind.FINGERPRINT? && InspectsDone(v))
    && (forall i :: 0 <= i < |v.stages| && v.stages[i].InFlight? && v.job.tasks[i].kind.FINGERPRINT? ==>
          InspectsDone(v))
    && (v.closing.Holding? ==> AllDone(v))
  }

  /** A report can exist: there was one before, or the inspect tasks are done and scanned a system. */
  ghost predicate Reportable(v: World, prior: bool) {
    prior || (InspectsDone(v) && TotalScanned(v.job.tasks) > 0)
  }

  /** Whoever knows of a report, knows of one that can exist. */
  ghost predicate Reporting(v: World, prior: bool) {
    || Reportable(v, prior)
    || (&& !v.job.report && !v.ran
        && (forall i: nat :: IsTask(v, i) && (InWindow(v, i) || v.stages[i].InFlight?) ==>
              !v.copies[i].report && !v.stages[i].Saving?)
        && (v.closing.Holding? ==> !v.closing.copy.report)
        && (forall k :: 0 <= k < |v.asked| ==> !v.asked[k].row.report))
  }

  /** As long as no cancel is written, everybody holds the report column of the row. */
  ghost predicate Attached(v: World, prior: bool) {
    || v.canceled
    || (&& (prior || v.ran ==> v.job.report)
        && (forall i: nat :: i < |v.stages| && v.stages[i].Saving? ==> v.job.report)
        && (forall i: nat :: IsTask(v, i) && (InWindow(v, i) || v.stages[i].InFlight?) ==>
            v.copies[i].report == v.job.report)
        && (v.closing.Holding? && !v.finalized ==> v.closing.copy.report == v.job.report))
  }

  ghost predicate Inv(v: World, prior: bool) {
    Shaped(v) && Explained(v) && CopiesFresh(v) && Reporting(v, prior) && Attached(v, prior)
  }

  /** Neither the statuses of tasks nor those of the job enter the sum. */
  lemma {:induction false} ScannedKept(a: seq<TaskRow>, b: seq<TaskRow>)
    requires SameRows(a, b)
    ensures TotalScanned(a) == TotalScanned(b)
  {
    if a != [] {
      ScannedKept(a[..|a| - 1], b[..|b| - 1]);
    }
  }

  predicate SameRows(a: seq<TaskRow>, b: seq<TaskRow>) {
    |a| == |b| && forall i :: 0 <= i < |a| ==> a[i].kind == b[i].kind && a[i].scanned == b[i].scanned
  }

  lemma WriteRows(s: JobState, copy: Row, c: Call)
    requires !c.Queue?
    ensures SameRows(WriteThrough(s, copy, c).tasks, s.tasks)
            && WriteThrough(s, copy, c).report in {s.report, copy.report}
    ensures SameRows(Apply(s, c).tasks, s.tasks) && Apply(s, c).report == s.report
  {
  }

  /** Only a running inspect task changes a counter, and nothing changes a kind. */
  lemma StepRows(w: World, e: Event)
    requires Enabled(w, e) && |w.stages| == |w.job.tasks| == |w.copies|
    ensures var v := Step(w, e);
            && |v.job.tasks| == |w.job.tasks| == |v.stages| == |v.copies|
            && (forall i :: 0 <= i < |w.job.tasks| ==> v.job.tasks[i].kind == w.job.tasks[i].kind)
            && (!e.Count? ==> SameRows(v.job.tasks, w.job.tasks))
  {
    hide Apply, InspectsDone, AllDone, TotalScanned, WithoutFacts, WriteThrough, AllCanceled, AnyCompleted;
    match e
    case End(i, o) => WriteRows(WithTask(w.job, i, Reported(o)), w.copies[i], Fail);
    case GiveUp(i, revoked) => WriteRows(w.job, w.copies[i], GiveUpCall(revoked));
    case Close(revoked) => WriteRows(w.job, w.closing.copy, FinalCall(w.job.tasks, revoked));
    case CloseBreaks => WriteRows(w.job, RowOf(w.job), Fail);
    case UserCancel(k) => WriteRows(w.job, w.asked[k].row, Cancel);
    case _ =>
  }

  /** Stages only move forward. */
  function Progress(s: Stage): nat {
    match s case Waiting => 0 case Reading => 1 case Saving => 2 case InFlight => 3 case Done => 4
  }

  lemma StepForward(w: World, e: Event)
    requires Enabled(w, e) && |w.stages| == |w.job.tasks| == |w.copies|
    ensures var v := Step(w, e);
            |v.stages| == |w.stages| && forall i :: 0 <= i < |w.stages| ==>
                Progress(w.stages[i]) <= Progress(v.stages[i])
  {
    hide Apply, TotalScanned, WithoutFacts, WriteThrough, AllCanceled, AnyCompleted, InspectsDone, AllDone, FinishTask,
         WithTask, SaveCopy, FinalCall;
    match e
    case Skip(_) =>
    case Break(_) =>
    case Begin(_) =>
    case Count(_, _) =>
    case End(_, _) =>
    case Read(_) =>
    case GiveUp(_, _) =>
    case Save(_) =>
    case Launch(_) =>
    case Open =>
    case Close(_) =>
    case CloseBreaks =>
    case Ask =>
    case UserCancel(_) =>
  }

  lemma StepStages(w: World, e: Event)
    requires Enabled(w, e) && |w.stages| == |w.job.tasks| == |w.copies|
    ensures var v := Step(w, e);
            && |v.stages| == |w.stages|
            && (forall i :: 0 <= i < |w.stages| ==> Progress(w.stages[i]) <= Progress(v.stages[i]))
            && (InspectsDone(w) ==> InspectsDone(v))
            && (AllDone(w) ==> AllDone(v))
  {
    hide Step, Enabled, InspectsDone, AllDone, Progress;
    StepForward(w, e);
    StepRows(w, e);
    DoneStays(w, Step(w, e));
  }

  lemma DoneStays(w: World, v: World)
    requires |w.stages| == |w.job.tasks| == |v.stages| == |v.job.tasks|
    requires forall i :: 0 <= i < |w.stages| ==> Progress(w.stages[i]) <= Progress(v.stages[i])
    requires forall i :: 0 <= i < |w.job.tasks| ==> v.job.tasks[i].kind == w.job.tasks[i].kind
    ensures (InspectsDone(w) ==> InspectsDone(v)) && (AllDone(w) ==> AllDone(v))
  {
  }

  lemma DoneEvents(w: World, e: Event)
    requires Enabled(w, e) && InspectsDone(w)
    ensures !e.Count? && !e.Begin? && !e.Skip?
  {
    hide TotalScanned, WithoutFacts, AllDone;
  }

  lemma StepShaped(w: World, e: Event)
    requires Enabled(w, e) && Shaped(w)
    ensures Shaped(Step(w, e))
  {
    hide Apply, TotalScanned, WithoutFacts, WriteThrough, AllCanceled, AnyCompleted, InspectsDone;
    StepRows(w, e);
    StepStages(w, e);
  }

  /** What a call through a copy makes of the row. */
  lemma WriteEnds(s: JobState, copy: Row, c: Call)
    requires c in {Cancel, Complete, Fail} && s.status in {RUNNING, FAILED, CANCELED, COMPLETED}
    requires copy.status in {RUNNING, FAILED, CANCELED}
    ensures WriteThrough(s, copy, c).status ==
            if copy.status == RUNNING || copy.status == Target(c) then Target(c) else s.status
    ensures Apply(s, c).status == if s.status == RUNNING then Target(c) else s.status
  {
  }

  lemma CancelEnds(s: JobState, r: Request)
    requires Accepted(r)
    ensures WriteThrough(s, r.row, Cancel).status == CANCELED
  {
  }

  lemma StepExplained(w: World, e: Event)
    requires Enabled(w, e) && Shaped(w) && Explained(w) && CopiesFresh(w)
    ensures Explained(Step(w, e))
    ensures w.job.status in {FAILED, COMPLETED} && !e.UserCancel? ==> Step(w, e).job.status == w.job.status
    ensures e.UserCancel? ==> Step(w, e).job.status == CANCELED
  {
    if Writes(e) {
      WriteExplained(w, e);
    } else {
      QuietExplained(w, e);
    }
  }

  /** The step calls a status method of the job. */
  predicate Writes(e: Event) {
    e.End? || e.GiveUp? || e.Close? || e.CloseBreaks?
  }

  lemma WriteExplained(w: World, e: Event)
    requires Enabled(w, e) && Explained(w) && CopiesFresh(w) && Writes(e)
    ensures Explained(Step(w, e))
    ensures w.job.status in {FAILED, COMPLETED} ==> Step(w, e).job.status == w.job.status
  {
    if e.End? || e.GiveUp? {
      BodyExplained(w, e);
    } else {
      FinalExplained(w, e);
    }
  }

  lemma BodyExplained(w: World, e: Event)
    requires Enabled(w, e) && Explained(w) && CopiesFresh(w) && (e.End? || e.GiveUp?)
    ensures Explained(Step(w, e))
    ensures w.job.status in {FAILED, COMPLETED} ==> Step(w, e).job.status == w.job.status
  {
    hide Apply, TotalScanned, WithoutFacts, WriteThrough, InspectsDone, AllDone, Accepted;
    match e
    case End(i, o) => WriteEnds(WithTask(w.job, i, Reported(o)), w.copies[i], Fail);
    case GiveUp(i, revoked) => WriteEnds(w.job, w.copies[i], GiveUpCall(revoked));
    case _ =>
  }

  lemma FinalExplained(w: World, e: Event)
    requires Enabled(w, e) && Explained(w) && CopiesFresh(w) && (e.Close? || e.CloseBreaks?)
    ensures Explained(Step(w, e))
    ensures w.job.status in {FAILED, COMPLETED} ==> Step(w, e).job.status == w.job.status
  {
    hide Apply, WriteThrough, AllCanceled, AnyCompleted, AllDone, Accepted, InWindow, Sound;
    match e
    case Close(revoked) => WriteEnds(w.job, w.closing.copy, FinalCall(w.job.tasks, revoked));
    case CloseBreaks => WriteEnds(w.job, Row(FAILED, false), Fail);
    case _ =>
  }

  lemma QuietExplained(w: World, e: Event)
    requires Enabled(w, e) && Explained(w) && CopiesFresh(w) && !Writes(e)
    ensures Explained(Step(w, e))
    ensures w.job.status in {FAILED, COMPLETED} && !e.UserCancel? ==> Step(w, e).job.status == w.job.status
    ensures e.UserCancel? ==> Step(w, e).job.status == CANCELED
  {
    hide Apply, TotalScanned, WithoutFacts, WriteThrough, AllCanceled, AnyCompleted, InspectsDone, AllDone, Accepted;
    if e.UserCancel? {
      CancelEnds(w.job, w.asked[e.k]);
    }
  }

  predicate ByUser(e: Event) {
    e.Ask? || e.UserCancel?
  }

  /** While the fingerprint body holds a copy, only it and cancel requests take steps. */
  lemma WindowEvents(w: World, e: Event, i: nat)
    requires Shaped(w) && InWindow(w, i) && Enabled(w, e)
    ensures ByUser(e) || e in {Break(i), GiveUp(i, true), GiveUp(i, false), Save(i), Launch(i)}
    ensures forall j :: 0 <= j < |w.stages| && j != i ==> w.stages[j].Done?
  {
    hide TotalScanned, WithoutFacts;
    assert w.job.tasks[i].kind.FINGERPRINT? && InspectsDone(w);
    forall j | 0 <= j < |w.stages| && j != i ensures w.stages[j].Done? {
      assert w.job.tasks[j].kind.INSPECT?;
    }
    assert !w.stages[i].Done?;
  }

  /** While the finalizer holds a copy, only it and cancel requests take steps. */
  lemma ClosingEvents(w: World, e: Event)
    requires Shaped(w) && w.closing.Holding? && Enabled(w, e)
    ensures ByUser(e) || e.CloseBreaks? || e.Close?
  {
    hide TotalScanned, WithoutFacts, InspectsDone;
    assert AllDone(w);
  }

  lemma StepWindow(w: World, e: Event, i: nat)
    requires Enabled(w, e) && Shaped(w) && Explained(w) && CopiesFresh(w) && InWindow(Step(w, e), i)
    ensures Fresh(Step(w, e), Step(w, e).copies[i])
  {
    hide TotalScanned, WithoutFacts, InspectsDone, AllDone, AllCanceled, AnyCompleted, WriteThrough, Apply, Accepted;
    if InWindow(w, i) {
      WindowEvents(w, e, i);
    }
    if e.UserCancel? {
      CancelEnds(w.job, w.asked[e.k]);
    }
  }

  lemma StepClosing(w: World, e: Event)
    requires Enabled(w, e) && Shaped(w) && Explained(w) && CopiesFresh(w)
    requires Step(w, e).closing.Holding? && !Step(w, e).finalized
    ensures Fresh(Step(w, e), Step(w, e).closing.copy)
  {
    hide Step, Enabled, Shaped, Explained, CopiesFresh, Fresh;
    ClosingSteps(w, e);
    if e.Open? {
      OpenFresh(w);
    } else {
      UserFresh(w, e);
    }
  }

  /** The finalizer holds a copy after it has read the row, and until it writes. */
  lemma ClosingSteps(w: World, e: Event)
    requires Enabled(w, e) && Shaped(w) && Step(w, e).closing.Holding? && !Step(w, e).finalized
    ensures e.Open? || (ByUser(e) && w.closing.Holding? && !w.finalized)
  {
    hide TotalScanned, WithoutFacts, InspectsDone, AllCanceled, AnyCompleted, WriteThrough, Apply, InWindow,
         FinishTask, WithTask, FinalCall, Shaped, AllDone;
    if w.closing.Holding? {
      ClosingEvents(w, e);
    }
  }

  lemma OpenFresh(w: World)
    requires Enabled(w, Open) && Explained(w)
    ensures Fresh(Step(w, Open), Step(w, Open).closing.copy)
  {
  }

  lemma UserFresh(w: World, e: Event)
    requires Enabled(w, e) && ByUser(e) && CopiesFresh(w) && w.closing.Holding? && !w.finalized
    ensures Fresh(Step(w, e), Step(w, e).closing.copy)
  {
    hide WriteThrough, Accepted;
    if e.UserCancel? {
      CancelEnds(w.job, w.asked[e.k]);
    }
  }

  lemma StepInFlight(w: World, e: Event, i: nat)
    requires Enabled(w, e) && Shaped(w) && Explained(w) && CopiesFresh(w)
    requires i < |Step(w, e).stages| && i < |Step(w, e).copies| && Step(w, e).stages[i].InFlight?
    ensures Sound(Step(w, e), Step(w, e).copies[i])
  {
    hide TotalScanned, WithoutFacts, InspectsDone, AllDone, AllCanceled, AnyCompleted, WriteThrough, Apply, Accepted;
    StepExplained(w, e);
    match e
    case Save(j) => WindowEvents(w, e, j);
    case Launch(j) => WindowEvents(w, e, j);
    case End(j, o) => WriteEnds(WithTask(w.job, j, Reported(o)), w.copies[j], Fail);
    case GiveUp(j, revoked) => WindowEvents(w, e, j);
    case Close(_) => assert AllDone(w);
    case CloseBreaks => WriteEnds(w.job, Row(FAILED, false), Fail);
    case _ =>
  }

  lemma StepAccepted(w: World, e: Event)
    requires Enabled(w, e) && Explained(w) && CopiesFresh(w)
    ensures forall k :: 0 <= k < |Step(w, e).asked| ==> Accepted(Step(w, e).asked[k])
  {
    hide TotalScanned, WithoutFacts, InspectsDone, AllDone, AllCanceled, AnyCompleted, WriteThrough, Apply, InWindow;
  }

  lemma StepFresh(w: World, e: Event)
    requires Enabled(w, e) && Shaped(w) && Explained(w) && CopiesFresh(w)
    ensures CopiesFresh(Step(w, e))
  {
    hide Enabled, Step, Shaped, Explained, Fresh, Sound, Accepted;
    var v := Step(w, e);
    forall i: nat | InWindow(v, i) ensures Fresh(v, v.copies[i]) {
      StepWindow(w, e, i);
    }
    if v.closing.Holding? && !v.finalized {
      StepClosing(w, e);
    }
    forall i | 0 <= i < |v.copies| && i < |v.stages| && v.stages[i].InFlight? ensures Sound(v, v.copies[i]) {
      StepInFlight(w, e, i);
    }
    StepAccepted(w, e);
  }

  lemma StepReportable(w: World, e: Event, prior: bool)
    requires Enabled(w, e) && Shaped(w) && Reportable(w, prior)
    ensures Reportable(Step(w, e), prior)
  {
    hide Step, Enabled, InspectsDone, TotalScanned, AllDone;
    if !prior {
      StepRows(w, e);
      StepStages(w, e);
      DoneEvents(w, e);
      ScannedKept(Step(w, e).job.tasks, w.job.tasks);
    }
  }

  lemma StepReporting(w: World, e: Event, prior: bool)
    requires Enabled(w, e) && Shaped(w) && Reporting(w, prior)
    ensures Reporting(Step(w, e), prior)
  {
    if Reportable(w, prior) {
      StepReportable(w, e, prior);
    } else if e.Save? {
      SaveReports(w, e, prior);
    } else {
      StepUnreported(w, e, prior);
    }
  }

  /** The first report of a job is attached when all inspect tasks are done and one scanned a system. */
  lemma SaveReports(w: World, e: Event, prior: bool)
    requires Enabled(w, e) && Shaped(w) && Reporting(w, prior) && e.Save?
    ensures Reportable(Step(w, e), prior)
  {
    hide InspectsDone, TotalScanned, AllDone;
    StepRows(w, e);
    StepStages(w, e);
    WindowEvents(w, e, e.i);
    ScannedKept(Step(w, e).job.tasks, w.job.tasks);
  }

  lemma StepUnreported(w: World, e: Event, prior: bool)
    requires Enabled(w, e) && Shaped(w) && Reporting(w, prior) && !Reportable(w, prior) && !e.Save?
    ensures Reporting(Step(w, e), prior)
  {
    hide Reporting, Reportable, Shaped;
    if Writes(e) {
      WriteUnreported(w, e, prior);
    } else {
      QuietUnreported(w, e, prior);
    }
  }

  lemma WriteUnreported(w: World, e: Event, prior: bool)
    requires Enabled(w, e) && Reporting(w, prior) && !Reportable(w, prior) && Writes(e)
    ensures Reporting(Step(w, e), prior)
  {
    hide Apply, WriteThrough, AllCanceled, AnyCompleted, InspectsDone, AllDone, TotalScanned, Reportable, WithoutFacts;
    match e
    case End(i, o) => WriteRows(WithTask(w.job, i, Reported(o)), w.copies[i], Fail);
    case GiveUp(i, revoked) => WriteRows(w.job, w.copies[i], GiveUpCall(revoked));
    case Close(revoked) => WriteRows(w.job, w.closing.copy, FinalCall(w.job.tasks, revoked));
    case CloseBreaks => WriteRows(w.job, RowOf(w.job), Fail);
    case _ =>
  }

  lemma QuietUnreported(w: World, e: Event, prior: bool)
    requires Enabled(w, e) && Reporting(w, prior) && !Reportable(w, prior) && !Writes(e) && !e.Save?
    ensures Reporting(Step(w, e), prior)
  {
    hide Apply, WriteThrough, AllCanceled, AnyCompleted, InspectsDone, AllDone, TotalScanned, Reportable, WithoutFacts;
    if e.UserCancel? {
      WriteRows(w.job, w.asked[e.k].row, Cancel);
    }
  }

  lemma WindowOpen(w: World, i: nat)
    requires Shaped(w) && InWindow(w, i)
    ensures w.closing.NotYet?
  {
    hide InspectsDone;
  }

  /** Without a cancel, a step does not detach the report. */
  lemma StepAttached(w: World, e: Event, prior: bool)
    requires Enabled(w, e) && Shaped(w) && Attached(w, prior)
    ensures Attached(Step(w, e), prior)
    ensures !Step(w, e).canceled && w.job.report ==> Step(w, e).job.report
  {
    if Writes(e) {
      WriteAttached(w, e, prior);
    } else {
      QuietAttached(w, e, prior);
    }
  }

  lemma WriteAttached(w: World, e: Event, prior: bool)
    requires Enabled(w, e) && Attached(w, prior) && Writes(e)
    ensures Attached(Step(w, e), prior)
    ensures !Step(w, e).canceled && w.job.report ==> Step(w, e).job.report
  {
    hide Apply, WriteThrough, AllCanceled, AnyCompleted, InspectsDone, AllDone, TotalScanned, WithoutFacts;
    match e
    case End(i, o) => WriteRows(WithTask(w.job, i, Reported(o)), w.copies[i], Fail);
    case GiveUp(i, revoked) => WriteRows(w.job, w.copies[i], GiveUpCall(revoked));
    case Close(revoked) => WriteRows(w.job, w.closing.copy, FinalCall(w.job.tasks, revoked));
    case CloseBreaks => WriteRows(w.job, RowOf(w.job), Fail);
    case _ =>
  }

  lemma QuietAttached(w: World, e: Event, prior: bool)
    requires Enabled(w, e) && Shaped(w) && Attached(w, prior) && !Writes(e)
    ensures Attached(Step(w, e), prior)
    ensures !Step(w, e).canceled && w.job.report ==> Step(w, e).job.report
  {
    hide Apply, WriteThrough, AllCanceled, AnyCompleted, InspectsDone, AllDone, TotalScanned, WithoutFacts, Shaped;
    if e.Save? {
      WindowEvents(w, e, e.i);
      WindowOpen(w, e.i);
    }
  }

  /** The invariant of every run, whatever the interleaving of bodies and cancels. */
  lemma {:induction false} RunKeepsInv(w: World, es: seq<Event>)
    requires Started(w) && ValidRun(w, es)
    ensures Inv(Exec(w, es), w.job.report)
  {
    hide Step, Enabled, Shaped, Explained, CopiesFresh, Reporting, Attached;
    if es == [] {
      StartedInv(w);
    } else {
      RunKeepsInv(w, es[..|es| - 1]);
      StepShaped(Exec(w, es[..|es| - 1]), es[|es| - 1]);
      StepExplained(Exec(w, es[..|es| - 1]), es[|es| - 1]);
      StepFresh(Exec(w, es[..|es| - 1]), es[|es| - 1]);
      StepReporting(Exec(w, es[..|es| - 1]), es[|es| - 1], w.job.report);
      StepAttached(Exec(w, es[..|es| - 1]), es[|es| - 1], w.job.report);
    }
  }

  lemma StartedInv(w: World)
    requires Started(w)
    ensures Inv(w, w.job.report)
  {
  }

  /* ---------- how jobs end ---------- */

  ghost predicate StatusThroughout(w: World, es: seq<Event>, n: nat)
    requires ValidRun(w, es) && n <= |es| && ValidRun(w, es[..n])
  {
    forall m :: n <= m <= |es| ==> ValidRun(w, es[..m]) && Exec(w, es[..m]).job.status == Exec(w, es[..n]).job.status
  }

  /** No body overwrites FAILED or COMPLETED. They stand exactly as long as no cancel request
      writes, and such a request has read the row before the job ended. */
  lemma {:induction false} EndStandsIff(w: World, es: seq<Event>, n: nat)
    requires Started(w) && ValidRun(w, es) && n <= |es|
    requires ValidRun(w, es[..n]) && Exec(w, es[..n]).job.status in {FAILED, COMPLETED}
    ensures StatusThroughout(w, es, n) <==> forall m :: n <= m < |es| ==> !es[m].UserCancel?
    ensures !StatusThroughout(w, es, n) ==>
              exists m :: n <= m < |es| && es[m].UserCancel? && es[m].k < |Exec(w, es[..n]).asked|
    ensures StatusThroughout(w, es, n) ==> |Exec(w, es).asked| == |Exec(w, es[..n]).asked|
  {
    hide Step, Enabled, Started, Shaped, Explained, CopiesFresh, Reporting, Attached;
    assert es[..|es|] == es;
    if n < |es| {
      var front, last := es[..|es| - 1], |es| - 1;
      assert front[..n] == es[..n];
      forall m | n <= m <= last ensures front[..m] == es[..m] && ValidRun(w, es[..m]) {
        ValidPrefix(w, es, m);
      }
      EndStandsIff(w, front, n);
      assert front[..last] == front;
      RunKeepsInv(w, front);
      StepExplained(Exec(w, front), es[last]);
      RequestRead(Exec(w, front), es[last]);
      if StatusThroughout(w, front, n) {
        assert StatusThroughout(w, es, n) <==> Exec(w, es).job.status == Exec(w, es[..n]).job.status;
      } else {
        assert !StatusThroughout(w, es, n);
      }
    }
  }

  /** Only a request that has read the row writes, and none reads it after the job has ended. */
  lemma RequestRead(v: World, e: Event)
    requires Enabled(v, e)
    ensures e.UserCancel? ==> e.k < |v.asked|
    ensures Terminal(v.job.status) ==> |Step(v, e).asked| == |v.asked|
  {
    hide TotalScanned, WithoutFacts, InspectsDone, AllDone, AllCanceled, AnyCompleted, WriteThrough, Apply;
  }

  /** A report once attached stays attached, unless a cancel is written. */
  lemma {:induction false} OnlyCancelsDetach(w: World, es: seq<Event>, n: nat)
    requires Started(w) && ValidRun(w, es) && n <= |es| && ValidRun(w, es[..n]) && Exec(w, es[..n]).job.report
    ensures Exec(w, es).job.report || Exec(w, es).canceled
  {
    hide Step, Enabled, Started;
    if n == |es| {
      assert es[..n] == es;
    } else {
      var front := es[..|es| - 1];
      assert front[..n] == es[..n];
      OnlyCancelsDetach(w, front, n);
      RunKeepsInv(w, front);
      StepAttached(Exec(w, front), es[|es| - 1], w.job.report);
      CanceledStays(Exec(w, front), es[|es| - 1]);
    }
  }

  lemma CanceledStays(v: World, e: Event)
    requires Enabled(v, e)
    ensures v.canceled ==> Step(v, e).canceled
  {
    hide TotalScanned, WithoutFacts, InspectsDone, AllDone, AllCanceled, AnyCompleted, WriteThrough, Apply;
  }

  /** For any number of tasks and any outcomes, a started job has ended once the finalizer
      has run; it is COMPLETED only if no exception passed through a runner, nobody found it
      without facts, and, if the fingerprint runner ran without an earlier report, at least
      one system was scanned. */
  lemma FinalizedJobsEnd(w: World, es: seq<Event>)
    requires Started(w) && ValidRun(w, es) && Exec(w, es).finalized
    ensures var v := Exec(w, es);
            && Terminal(v.job.status)
            && (v.job.status == COMPLETED ==> !v.crashed && !v.noFacts)
            && (v.job.status == COMPLETED && v.ran && !w.job.report ==> TotalScanned(v.job.tasks) > 0)
  {
    RunKeepsInv(w, es);
  }

  /** The exact condition for COMPLETED: the finalizer read the row RUNNING, the job was not
      revoked, and there are no tasks or one has completed. */
  lemma CompletedIff(w: World, es: seq<Event>, revoked: bool)
    requires Started(w) && ValidRun(w, es) && Enabled(Exec(w, es), Close(revoked))
    ensures var v := Exec(w, es);
            Step(v, Close(revoked)).job.status == COMPLETED <==>
            v.closing.copy.status == RUNNING && !revoked && (v.job.tasks == [] || AnyCompleted(v.job.tasks))
  {
    RunKeepsInv(w, es);
    var v := Exec(w, es);
    if AnyCompleted(v.job.tasks) {
      var i :| 0 <= i < |v.job.tasks| && v.job.tasks[i].status == COMPLETED;
      assert !AllCanceled(v.job.tasks);
    }
    WriteEnds(v.job, v.closing.copy, FinalCall(v.job.tasks, revoked));
  }

  /** Before the finalizer has run, the row is RUNNING if nothing went wrong and nobody
      canceled; otherwise it is FAILED or CANCELED, unless a save reopened it. */
  lemma OpenJobRuns(w: World, es: seq<Event>)
    requires Started(w) && ValidRun(w, es) && !Exec(w, es).finalized
    ensures var v := Exec(w, es);
            && (!v.crashed && !v.noFacts && !v.canceled ==> v.job.status == RUNNING)
            && (v.crashed || v.noFacts || (v.canceled && !v.reopened) ==> v.job.status in {FAILED, CANCELED})
  {
    RunKeepsInv(w, es);
  }

  /* ---------- runs step by step ---------- */

  lemma RunNone(w: World)
    ensures ValidRun(w, []) && Exec(w, []) == w
  {
  }

  lemma RunMore(w: World, es: seq<Event>, e: Event)
    requires ValidRun(w, es) && Enabled(Exec(w, es), e)
    ensures ValidRun(w, es + [e]) && Exec(w, es + [e]) == Step(Exec(w, es), e)
  {
    assert (es + [e])[..|es|] == es;
  }

  lemma {:induction false} ValidPrefix(w: World, es: seq<Event>, n: nat)
    requires ValidRun(w, es) && n < |es|
    ensures ValidRun(w, es[..n]) && ValidRun(w, es[..n + 1])
    ensures Enabled(Exec(w, es[..n]), es[n]) && Exec(w, es[..n + 1]) == Step(Exec(w, es[..n]), es[n])
  {
    hide Step, Enabled;
    if n == |es| - 1 {
      assert es[..n + 1] == es;
    } else {
      var front := es[..|es| - 1];
      ValidPrefix(w, front, n);
      assert front[..n] == es[..n] && front[..n + 1] == es[..n + 1];
    }
  }
}
