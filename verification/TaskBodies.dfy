/** The bodies of the asynchronous tasks, acting on the rows of one job. */
module TaskBodies {
  import opened JobStates
  import opened ScanJobs
  import opened Workflow

  /** The job row as a body read it. A status method called here is decided by the copy, and
      saving writes every column back. */
  class JobCopy {
    const row: ScanJob
    var status: Status
    var report: bool

    constructor (row: ScanJob)
      ensures this.row == row && status == row.status && report == row.report
    {
      this.row, status, report := row, row.status, row.report;
    }

    method Save()
      modifies row`status, row`report
      ensures row.Snapshot() == old(row.Snapshot()).(status := status, report := report)
    {
      row.status, row.report := status, report;
    }

    ghost predicate Valid()
      reads this, row
    {
      row.Valid()
    }

    ghost function Held(): Row
      reads this
    {
      Row(status, report)
    }

    method StatusFail()
      requires Valid()
      modifies this`status, row`status, row`report
      ensures Valid() && row.Snapshot() == old(WriteThrough(row.Snapshot(), Held(), Fail))
    {
      if status == FAILED || status == RUNNING {
        status := FAILED;
        Save();
      }
    }

    method StatusComplete()
      requires Valid()
      modifies this`status, row`status, row`report
      ensures Valid() && row.Snapshot() == old(WriteThrough(row.Snapshot(), Held(), Complete))
    {
      if status == COMPLETED || status == RUNNING {
        status := COMPLETED;
        Save();
      }
    }

    method StatusCancel()
      requires Valid()
      modifies this`status, row`status, row`report, row.tasks
      ensures report == old(report) && status == if old(status) in CANCELABLE then CANCELED else old(status)
      ensures Valid() && row.tasks == old(row.tasks)
      ensures row.Snapshot() == old(WriteThrough(row.Snapshot(), Held(), Cancel))
    {
      if status == CANCELED || status in CANCELABLE {
        row.CancelUnfinishedTasks();
        status := CANCELED;
        Save();
      }
    }
  }

  /** `run_task_runner` up to the call of the runner. */
  method StartTask(job: ScanJob, i: nat)
    requires job.Valid() && i < |job.tasks|
    modifies job.tasks[i]
    ensures job.Valid() && job.Snapshot() == old(WithTask(job.Snapshot(), i, RUNNING))
  {
    job.tasks[i].SetStatus(RUNNING);
    assert job.Rows() == old(job.Rows())[i := old(job.Rows())[i].(status := RUNNING)];
  }

  /** The rest of `run_task_runner`, with the decorator around it. */
  method EndTask(copy: JobCopy, i: nat, o: Outcome) returns (reported: Status)
    requires copy.Valid() && i < |copy.row.tasks|
    modifies copy`status, copy.row`status, copy.row`report, copy.row.tasks[i]
    ensures copy.Valid() && copy.row.Snapshot() == old(FinishTask(copy.row.Snapshot(), i, o, copy.Held()))
    ensures reported == Reported(o)
  {
    var job := copy.row;
    match o {
      case Raised =>
        job.tasks[i].SetStatus(FAILED);
        assert job.Rows() == old(job.Rows())[i := old(job.Rows())[i].(status := FAILED)];
        copy.StatusFail();
        reported := FAILED;
      case Returned(status) =>
        var known := status == CANCELED || status == PAUSED || status == COMPLETED || status == FAILED;
        reported := if known then status else FAILED;
        job.tasks[i].SetStatus(reported);
        assert job.Rows() == old(job.Rows())[i := old(job.Rows())[i].(status := reported)];
    }
  }

  method SumScanned(job: ScanJob) returns (total: nat)
    ensures total == TotalScanned(job.Rows())
  {
    var rows := job.Rows();
    total := 0;
    for i := 0 to |rows|
      invariant total == TotalScanned(rows[..i])
    {
      assert rows[..i + 1][..i] == rows[..i];
      if rows[i].kind == INSPECT {
        total := total + rows[i].scanned;
      }
    }
    assert rows[..|rows|] == rows;
  }

  /** The report of the job, created if there are facts; a new report is saved when it is
      created and again when it is attached. */
  method AttachReport(copy: JobCopy) returns (attached: bool)
    requires copy.Valid()
    modifies copy`report, copy.row`status, copy.row`report
    ensures copy.Valid() && attached == old(!WithoutFacts(copy.Held(), copy.row.Rows()))
    ensures copy.row.Snapshot() ==
            old(if attached then SaveCopy(copy.row.Snapshot(), copy.Held()) else copy.row.Snapshot())
    ensures copy.Held() == old(copy.Held()).(report := attached)
  {
    if !copy.report {
      var total := SumScanned(copy.row);
      if total == 0 {
        return false;
      }
      copy.report := true;
      copy.Save();
    }
    copy.report := true;
    copy.Save();
    attached := true;
  }

  /** The fingerprint body from the read up to the call of its runner. */
  method BeginFingerprint(copy: JobCopy, i: nat, revoked: bool) returns (launched: bool)
    requires copy.Valid() && i < |copy.row.tasks|
    modifies copy, copy.row`status, copy.row`report, copy.row.tasks
    ensures copy.Valid() && copy.row.tasks == old(copy.row.tasks)
    ensures launched == old(!revoked && !WithoutFacts(copy.Held(), copy.row.Rows()))
    ensures copy.row.Snapshot() ==
            old(if launched then WithTask(SaveCopy(copy.row.Snapshot(), copy.Held()), i, RUNNING)
                else WriteThrough(copy.row.Snapshot(), copy.Held(), GiveUpCall(revoked)))
  {
    if revoked {
      copy.StatusCancel();
      return false;
    }
    launched := AttachReport(copy);
    if !launched {
      copy.StatusFail();
      return;
    }
    StartTask(copy.row, i);
  }

  method FinalizeScan(copy: JobCopy, revoked: bool)
    requires copy.Valid()
    modifies copy`status, copy.row`status, copy.row`report, copy.row.tasks
    ensures copy.Valid() && copy.row.tasks == old(copy.row.tasks)
    ensures copy.row.Snapshot() ==
            old(WriteThrough(copy.row.Snapshot(), copy.Held(), FinalCall(copy.row.Rows(), revoked)))
  {
    if revoked {
      copy.StatusCancel();
      return;
    }
    var rows := copy.row.Rows();
    if rows == [] {
      copy.StatusComplete();
      return;
    }
    var allCanceled, anyComplete := true, false;
    for i := 0 to |rows|
      invariant allCanceled == AllCanceled(rows[..i]) && anyComplete == AnyCompleted(rows[..i])
      invariant copy.row.Snapshot() == old(copy.row.Snapshot()) && copy.row.tasks == old(copy.row.tasks)
      invariant copy.Held() == old(copy.Held()) && copy.Valid()
    {
      assert rows[..i + 1] == rows[..i] + [rows[i]];
      CanceledSnoc(rows[..i], rows[i]);
      CompletedSnoc(rows[..i], rows[i]);
      allCanceled := allCanceled && rows[i].status == CANCELED;
      anyComplete := anyComplete || rows[i].status == COMPLETED;
    }
    assert rows[..|rows|] == rows;
    if allCanceled {
      copy.StatusCancel();
    } else if anyComplete {
      copy.StatusComplete();
    } else {
      copy.StatusFail();
    }
  }

  /** The view that cancels a job: it refuses if the job had ended when it read the row, and
      otherwise calls the status method twice, through the manager and itself. */
  method CancelJob(copy: JobCopy) returns (accepted: bool)
    requires copy.Valid()
    modifies copy`status, copy.row`status, copy.row`report, copy.row.tasks
    ensures copy.Valid() && copy.row.tasks == old(copy.row.tasks)
    ensures accepted == old(!Terminal(copy.status))
    ensures copy.row.Snapshot() ==
            old(if accepted then WriteThrough(copy.row.Snapshot(), copy.Held(), Cancel) else copy.row.Snapshot())
    ensures copy.Held() == old(if accepted then copy.Held().(status := CANCELED) else copy.Held())
  {
    if copy.status == COMPLETED || copy.status == FAILED || copy.status == CANCELED {
      return false;
    }
    copy.StatusCancel();
    ghost var once := copy.row.Snapshot();
    copy.StatusCancel();
    CancelTwice(once);
    accepted := true;
  }

  lemma CancelTwice(s: JobState)
    requires forall i :: 0 <= i < |s.tasks| ==> Terminal(s.tasks[i].status)
    ensures CancelTasks(s.tasks) == s.tasks
  {
  }

  lemma CanceledSnoc(ts: seq<TaskRow>, t: TaskRow)
    ensures AllCanceled(ts + [t]) <==> AllCanceled(ts) && t.status == CANCELED
  {
    assert (ts + [t])[|ts|] == t;
    assert forall i :: 0 <= i < |ts| ==> (ts + [t])[i] == ts[i];
  }

  lemma CompletedSnoc(ts: seq<TaskRow>, t: TaskRow)
    ensures AnyCompleted(ts + [t]) <==> AnyCompleted(ts) || t.status == COMPLETED
  {
    assert (ts + [t])[|ts|] == t;
    assert forall i :: 0 <= i < |ts| ==> (ts + [t])[i] == ts[i];
  }
}
