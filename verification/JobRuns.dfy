/** Runs of a queued and started job with one source that end in a way one might not expect. */
module JobRuns {
  import opened JobStates
  import opened Workflow

  /** The job after queueing it with one source and starting it. */
  function StartedJob(): JobState {
    Run(JobState(INSPECT, CREATED, false, []), [Queue(1), Start])
  }

  const FRESH := Row(RUNNING, false)

  function Initial(): World {
    World(StartedJob(), [Waiting, Waiting], [FRESH, FRESH], NotYet, [], false, false, false, false, false, false)
  }

  /** The same world with other rows, stages and status. */
  function At(inspect: TaskRow, fingerprint: TaskRow, stages: seq<Stage>, status: Status): World {
    Initial().(job := JobState(INSPECT, status, false, [inspect, fingerprint]), stages := stages)
  }

  const INSPECTED := TaskRow(INSPECT, COMPLETED, 1)
  const SCANNED := [Begin(0), Count(0, 1), End(0, Returned(COMPLETED))]

  lemma StartedRows()
    ensures StartedJob() == JobState(INSPECT, RUNNING, false,
                                     [TaskRow(INSPECT, PENDING, 0), TaskRow(FINGERPRINT, PENDING, 0)])
    ensures Started(Initial())
  {
    var s := JobState(INSPECT, CREATED, false, []);
    assert [Queue(1), Start][..1] == [Queue(1)] && [Queue(1)][..0] == [];
    assert Run(s, [Queue(1)]) == Apply(s, Queue(1));
    assert PendingTasks(INSPECT, 1) == [TaskRow(INSPECT, PENDING, 0), TaskRow(FINGERPRINT, PENDING, 0)];
  }

  /** The inspect task scans one system. */
  lemma AfterInspect()
    ensures ValidRun(Initial(), SCANNED)
    ensures Exec(Initial(), SCANNED) == At(INSPECTED, TaskRow(FINGERPRINT, PENDING, 0), [Done, Waiting], RUNNING)
  {
    hide ValidRun, Exec, StartedJob;
    StartedRows();
    var f := TaskRow(FINGERPRINT, PENDING, 0);
    RunNone(Initial());
    InspectSteps();
    RunMore(Initial(), [], Begin(0));
    assert [] + [Begin(0)] == [Begin(0)];
    RunMore(Initial(), [Begin(0)], Count(0, 1));
    assert [Begin(0)] + [Count(0, 1)] == [Begin(0), Count(0, 1)];
    RunMore(Initial(), [Begin(0), Count(0, 1)], End(0, Returned(COMPLETED)));
    assert [Begin(0), Count(0, 1)] + [End(0, Returned(COMPLETED))] == SCANNED;
  }

  lemma InspectSteps()
    ensures var f := TaskRow(FINGERPRINT, PENDING, 0);
            var a := At(TaskRow(INSPECT, RUNNING, 0), f, [InFlight, Waiting], RUNNING);
            var b := At(TaskRow(INSPECT, RUNNING, 1), f, [InFlight, Waiting], RUNNING);
            && Enabled(Initial(), Begin(0)) && Step(Initial(), Begin(0)) == a
            && Enabled(a, Count(0, 1)) && Step(a, Count(0, 1)) == b
            && Enabled(b, End(0, Returned(COMPLETED)))
            && Step(b, End(0, Returned(COMPLETED))) == At(INSPECTED, f, [Done, Waiting], RUNNING)
  {
    hide StartedJob;
    StartedRows();
    var f := TaskRow(FINGERPRINT, PENDING, 0);
    assert Initial().job.tasks[0 := TaskRow(INSPECT, RUNNING, 0)] == [TaskRow(INSPECT, RUNNING, 0), f];
    assert [TaskRow(INSPECT, RUNNING, 0), f][0 := TaskRow(INSPECT, RUNNING, 1)] == [TaskRow(INSPECT, RUNNING, 1), f];
    assert [TaskRow(INSPECT, RUNNING, 1), f][0 := INSPECTED] == [INSPECTED, f];
    assert [Waiting, Waiting][0 := InFlight] == [InFlight, Waiting]
           && [InFlight, Waiting][0 := Done] == [Done, Waiting];
    assert [FRESH, FRESH][0 := FRESH] == [FRESH, FRESH];
  }

  lemma ThreeMore(w: World, es: seq<Event>, a: Event, b: Event, c: Event)
    requires ValidRun(w, es) && Enabled(Exec(w, es), a) && Enabled(Step(Exec(w, es), a), b)
    requires Enabled(Step(Step(Exec(w, es), a), b), c)
    ensures ValidRun(w, es + [a, b, c]) && Exec(w, es + [a, b, c]) == Step(Step(Step(Exec(w, es), a), b), c)
  {
    hide ValidRun, Exec, Step, Enabled;
    RunMore(w, es, a);
    RunMore(w, es + [a], b);
    RunMore(w, es + [a] + [b], c);
    assert es + [a] + [b] + [c] == es + [a, b, c];
  }

  /* ---------- a completed job without a report ---------- */

  /** One completed inspect task is enough: a job can end COMPLETED although its fingerprint
      task failed and no report was produced. */
  lemma CompletedWithoutFingerprint()
    ensures var es := SCANNED + [Break(1), Open, Close(false)];
            && Started(Initial()) && ValidRun(Initial(), es)
            && var v := Exec(Initial(), es).job;
            v.status == COMPLETED && !v.report && v.tasks == [INSPECTED, TaskRow(FINGERPRINT, FAILED, 0)]
  {
    hide ValidRun, Exec, Started, Enabled, Step, StartedJob;
    StartedRows();
    AfterInspect();
    BreakSteps();
    ThreeMore(Initial(), SCANNED, Break(1), Open, Close(false));
  }

  lemma BreakSteps()
    ensures var a := At(INSPECTED, TaskRow(FINGERPRINT, PENDING, 0), [Done, Waiting], RUNNING);
            && Enabled(a, Break(1)) && Enabled(Step(a, Break(1)), Open)
            && Enabled(Step(Step(a, Break(1)), Open), Close(false))
            && var v := Step(Step(Step(a, Break(1)), Open), Close(false)).job;
            v.status == COMPLETED && !v.report && v.tasks == [INSPECTED, TaskRow(FINGERPRINT, FAILED, 0)]
  {
    hide StartedJob;
    var a := At(INSPECTED, TaskRow(FINGERPRINT, PENDING, 0), [Done, Waiting], RUNNING);
    var rows := [INSPECTED, TaskRow(FINGERPRINT, FAILED, 0)];
    assert a.job.tasks[1 := rows[1]] == rows && a.stages[1 := Done] == [Done, Done];
    OneCompleted(rows);
  }

  lemma OneCompleted(rows: seq<TaskRow>)
    requires rows != [] && rows[0] == INSPECTED
    ensures FinalCall(rows, false) == Complete
  {
    assert rows[0].status == COMPLETED;
  }

  /* ---------- lost cancels ---------- */

  /** A user cancels after the fingerprint task has read the row. Its save reopens the job,
      which then ends COMPLETED. */
  lemma CanceledJobCompletes()
    ensures var read := SCANNED + [Read(1), Ask, UserCancel(0)];
            var es := read + [Save(1), Launch(1), End(1, Returned(COMPLETED))] + [Open, Close(false)];
            && Started(Initial()) && ValidRun(Initial(), read) && ValidRun(Initial(), es)
            && Exec(Initial(), read).job.status == CANCELED && Exec(Initial(), es).job.status == COMPLETED
  {
    hide ValidRun, Exec, Started, Enabled, Step, StartedJob;
    StartedRows();
    AfterInspect();
    ReadSteps();
    SaveSteps();
    var w := Initial();
    var read := SCANNED + [Read(1), Ask, UserCancel(0)];
    ThreeMore(w, SCANNED, Read(1), Ask, UserCancel(0));
    ThreeMore(w, read, Save(1), Launch(1), End(1, Returned(COMPLETED)));
    CloseSteps(Fingerprinted());
    var saved := read + [Save(1), Launch(1), End(1, Returned(COMPLETED))];
    RunMore(w, saved, Open);
    RunMore(w, saved + [Open], Close(false));
    assert saved + [Open] + [Close(false)] == saved + [Open, Close(false)];
  }

  function Canceled(): World {
    At(INSPECTED, TaskRow(FINGERPRINT, CANCELED, 0), [Done, Reading], CANCELED)
    .(asked := [Request(Row(CANCELED, false), 1)], canceled := true)
  }

  function Fingerprinted(): World {
    var a := At(INSPECTED, TaskRow(FINGERPRINT, COMPLETED, 0), [Done, Done], RUNNING);
    a.(job := a.job.(report := true), copies := [FRESH, Row(RUNNING, true)], asked := Canceled().asked,
       canceled := true, reopened := true, ran := true)
  }

  lemma ReadSteps()
    ensures var a := At(INSPECTED, TaskRow(FINGERPRINT, PENDING, 0), [Done, Waiting], RUNNING);
            && Enabled(a, Read(1)) && Enabled(Step(a, Read(1)), Ask)
            && Enabled(Step(Step(a, Read(1)), Ask), UserCancel(0))
            && Step(Step(Step(a, Read(1)), Ask), UserCancel(0)) == Canceled()
  {
    hide StartedJob;
    var a := At(INSPECTED, TaskRow(FINGERPRINT, PENDING, 0), [Done, Waiting], RUNNING);
    assert a.stages[1 := Reading] == [Done, Reading] && a.copies[1 := FRESH] == [FRESH, FRESH];
    assert CancelTasks(a.job.tasks) == [INSPECTED, TaskRow(FINGERPRINT, CANCELED, 0)];
    assert [Request(FRESH, 0)][0 := Request(Row(CANCELED, false), 1)] == Canceled().asked;
  }

  lemma ScannedOne(fingerprint: TaskRow)
    requires fingerprint.kind.FINGERPRINT?
    ensures TotalScanned([INSPECTED, fingerprint]) == 1
  {
    var rows := [INSPECTED, fingerprint];
    assert rows[..1] == [INSPECTED] && [INSPECTED][..0] == [];
    assert TotalScanned([INSPECTED]) == 1;
  }

  /** From the read on, the fingerprint task attaches the report and completes. */
  lemma FinishSteps(a: World)
    requires |a.job.tasks| == 2 && a.job.tasks[0] == INSPECTED
    requires a.job.tasks[1] in {TaskRow(FINGERPRINT, PENDING, 0), TaskRow(FINGERPRINT, CANCELED, 0)}
    requires !a.finalized && a.stages == [Done, Reading] && a.copies == [FRESH, FRESH] && a.closing.NotYet?
    ensures Enabled(a, Save(1)) && Enabled(Step(a, Save(1)), Launch(1))
    ensures Enabled(Step(Step(a, Save(1)), Launch(1)), End(1, Returned(COMPLETED)))
    ensures var v := Step(Step(Step(a, Save(1)), Launch(1)), End(1, Returned(COMPLETED)));
            v == a.(job := a.job.(status := RUNNING, report := true,
                                  tasks := [INSPECTED, TaskRow(FINGERPRINT, COMPLETED, 0)]),
                    stages := [Done, Done], copies := [FRESH, Row(RUNNING, true)],
                    reopened := a.reopened || a.job.status == CANCELED, ran := true)
  {
    hide StartedJob, Apply;
    var rows := a.job.tasks;
    assert rows == [INSPECTED, rows[1]];
    ScannedOne(rows[1]);
    assert a.stages[1 := Saving] == [Done, Saving] && [Done, Saving][1 := InFlight] == [Done, InFlight];
    assert [Done, InFlight][1 := Done] == [Done, Done];
    assert [FRESH, FRESH][1 := Row(RUNNING, true)] == [FRESH, Row(RUNNING, true)];
    assert rows[1 := TaskRow(FINGERPRINT, RUNNING, 0)][1 := TaskRow(FINGERPRINT, COMPLETED, 0)]
        == [INSPECTED, TaskRow(FINGERPRINT, COMPLETED, 0)];
  }

  lemma SaveSteps()
    ensures var a := Canceled();
            && Enabled(a, Save(1)) && Enabled(Step(a, Save(1)), Launch(1))
            && Enabled(Step(Step(a, Save(1)), Launch(1)), End(1, Returned(COMPLETED)))
            && Step(Step(Step(a, Save(1)), Launch(1)), End(1, Returned(COMPLETED))) == Fingerprinted()
  {
    hide StartedJob, Step, Enabled;
    FinishSteps(Canceled());
  }

  /** The finalizer completes the job, and changes nothing else of it. */
  lemma CloseSteps(a: World)
    requires a.job.status == RUNNING && a.job.tasks != [] && a.job.tasks[0] == INSPECTED
    requires !a.finalized && AllDone(a) && a.closing.NotYet?
    ensures Enabled(a, Open) && Enabled(Step(a, Open), Close(false))
    ensures var v := Step(Step(a, Open), Close(false));
            v.job == a.job.(status := COMPLETED) && v.asked == a.asked
  {
    hide StartedJob;
    OneCompleted(a.job.tasks);
  }

  /** An inspect task that began before the cancel turns CANCELED into FAILED by its exception. */
  lemma CanceledJobFails()
    ensures var canceled := [Begin(0), Ask, UserCancel(0)];
            var es := canceled + [End(0, Raised)];
            && Started(Initial()) && ValidRun(Initial(), canceled) && ValidRun(Initial(), es)
            && Exec(Initial(), canceled).job.status == CANCELED && Exec(Initial(), es).job.status == FAILED
  {
    hide ValidRun, Exec, Started, Enabled, Step, StartedJob;
    StartedRows();
    FailSteps();
    var w := Initial();
    RunNone(w);
    ThreeMore(w, [], Begin(0), Ask, UserCancel(0));
    assert [] + [Begin(0), Ask, UserCancel(0)] == [Begin(0), Ask, UserCancel(0)];
    RunMore(w, [Begin(0), Ask, UserCancel(0)], End(0, Raised));
  }

  function Begun(): World {
    At(TaskRow(INSPECT, RUNNING, 0), TaskRow(FINGERPRINT, PENDING, 0), [InFlight, Waiting], RUNNING)
  }

  lemma CancelSteps()
    ensures var a := Begun();
            && Enabled(a, Ask) && Enabled(Step(a, Ask), UserCancel(0))
            && var c := Step(Step(a, Ask), UserCancel(0));
            && c.job.status == CANCELED && Enabled(c, End(0, Raised))
            && Step(c, End(0, Raised)).job.status == FAILED
  {
    hide StartedJob;
  }

  lemma FailSteps()
    ensures var a := Initial();
            && Enabled(a, Begin(0)) && Enabled(Step(a, Begin(0)), Ask)
            && Enabled(Step(Step(a, Begin(0)), Ask), UserCancel(0))
            && var c := Step(Step(Step(a, Begin(0)), Ask), UserCancel(0));
            && c.job.status == CANCELED && Enabled(c, End(0, Raised))
            && Step(c, End(0, Raised)).job.status == FAILED
  {
    hide StartedJob, Step, Enabled;
    InspectSteps();
    CancelSteps();
  }

  /* ---------- a late cancel ---------- */

  /** A cancel request that read the row before the report was attached writes it after the job
      has completed: the job is CANCELED, and its report is detached. */
  lemma CompletedJobCanceled()
    ensures var done := SCANNED + [Ask, Read(1)] + [Save(1), Launch(1), End(1, Returned(COMPLETED))]
            + [Open, Close(false)];
            var es := done + [UserCancel(0)];
            && Started(Initial()) && ValidRun(Initial(), done) && ValidRun(Initial(), es)
            && var before, after := Exec(Initial(), done).job, Exec(Initial(), es).job;
            && before.status == COMPLETED && before.report
            && after.status == CANCELED && !after.report && after.tasks == before.tasks
  {
    hide ValidRun, Exec, Started, Enabled, Step, StartedJob, AllDone;
    StartedRows();
    AfterInspect();
    AskSteps();
    var w := Initial();
    RunMore(w, SCANNED, Ask);
    RunMore(w, SCANNED + [Ask], Read(1));
    var read := SCANNED + [Ask, Read(1)];
    assert SCANNED + [Ask] + [Read(1)] == read;
    FinishSteps(Asked());
    ThreeMore(w, read, Save(1), Launch(1), End(1, Returned(COMPLETED)));
    var saved := read + [Save(1), Launch(1), End(1, Returned(COMPLETED))];
    assert AllDone(Exec(w, saved)) by { BothDone(Exec(w, saved)); }
    CloseSteps(Exec(w, saved));
    RunMore(w, saved, Open);
    RunMore(w, saved + [Open], Close(false));
    assert saved + [Open] + [Close(false)] == saved + [Open, Close(false)];
    LateSteps(Exec(w, saved + [Open, Close(false)]));
    RunMore(w, saved + [Open, Close(false)], UserCancel(0));
  }

  function Asked(): World {
    At(INSPECTED, TaskRow(FINGERPRINT, PENDING, 0), [Done, Reading], RUNNING).(asked := [Request(FRESH, 0)])
  }

  lemma AskSteps()
    ensures var a := At(INSPECTED, TaskRow(FINGERPRINT, PENDING, 0), [Done, Waiting], RUNNING);
            Enabled(a, Ask) && Enabled(Step(a, Ask), Read(1)) && Step(Step(a, Ask), Read(1)) == Asked()
  {
    hide StartedJob;
    var a := At(INSPECTED, TaskRow(FINGERPRINT, PENDING, 0), [Done, Waiting], RUNNING);
    assert a.stages[1 := Reading] == [Done, Reading] && a.copies[1 := FRESH] == [FRESH, FRESH];
  }

  lemma BothDone(v: World)
    requires v.stages == [Done, Done]
    ensures AllDone(v)
  {
  }

  lemma LateSteps(v: World)
    requires v.asked == [Request(FRESH, 0)] && v.job.tasks == [INSPECTED, TaskRow(FINGERPRINT, COMPLETED, 0)]
    ensures Enabled(v, UserCancel(0))
    ensures Step(v, UserCancel(0)).job == v.job.(status := CANCELED, report := false)
  {
    assert CancelTasks(v.job.tasks) == v.job.tasks;
  }
}
