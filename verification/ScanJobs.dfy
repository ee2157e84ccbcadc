/** Scan jobs and scan tasks as the rows the status methods update in place. */
module ScanJobs {
  import opened JobStates

  class ScanTask {
    const kind: Kind
    var status: Status
    var scanned: nat

    constructor (kind: Kind)
      ensures Row() == TaskRow(kind, PENDING, 0)
    {
      this.kind, status, scanned := kind, PENDING, 0;
    }

    function Row(): TaskRow
      reads this
    {
      TaskRow(kind, status, scanned)
    }

    /** Every status method of a task writes its target unconditionally. */
    method SetStatus(target: Status)
      modifies this
      ensures Row() == old(Row()).(status := target)
    {
      status := target;
    }

    /** The counter of connected systems, as `update_stats` and `increment_stats` leave it. */
    method SetScanned(n: nat)
      modifies this
      ensures Row() == old(Row()).(scanned := n)
    {
      scanned := n;
    }
  }

  class ScanJob {
    const kind: Kind
    var status: Status
    var report: bool
    var tasks: seq<ScanTask>

    constructor (kind: Kind)
      ensures Valid() && Snapshot() == JobState(kind, CREATED, false, [])
      ensures fresh(tasks)
    {
      this.kind, status, report, tasks := kind, CREATED, false, [];
    }

    ghost predicate Valid()
      reads this
    {
      forall i, j :: 0 <= i < j < |tasks| ==> tasks[i] != tasks[j]
    }

    function Rows(): (rows: seq<TaskRow>)
      reads this, tasks
      ensures |rows| == |tasks| && forall i :: 0 <= i < |tasks| ==> rows[i] == tasks[i].Row()
    {
      seq(|tasks|, i requires 0 <= i < |tasks| reads this, tasks => tasks[i].Row())
    }

    function Snapshot(): JobState
      reads this, tasks
    {
      JobState(kind, status, report, Rows())
    }

    method ValidateStatusChange(target: Status, allowed: set<Status>) returns (hasError: bool)
      ensures hasError == Refused(status, target, allowed)
    {
      if target == status {
        return false;
      }
      if status !in allowed {
        return true;
      }
      return false;
    }

    method CreatePendingTasks(sources: nat) returns (created: seq<ScanTask>)
      ensures fresh(created)
      ensures forall i, j :: 0 <= i < j < |created| ==> created[i] != created[j]
      ensures |created| == if kind == FINGERPRINT then 1 else if sources > 0 then sources + 1 else 0
      ensures forall i :: 0 <= i < |created| ==>
                created[i].Row() == TaskRow(if i < |created| - 1 then INSPECT else FINGERPRINT, PENDING, 0)
    {
      created := [];
      if kind == INSPECT {
        for i := 0 to sources
          invariant |created| == i && fresh(created)
          invariant forall a, b :: 0 <= a < b < i ==> created[a] != created[b]
          invariant forall j :: 0 <= j < i ==> created[j].Row() == TaskRow(INSPECT, PENDING, 0)
        {
          var task := new ScanTask(INSPECT);
          created := created + [task];
        }
      }
      if kind == FINGERPRINT || created != [] {
        var task := new ScanTask(FINGERPRINT);
        created := created + [task];
      }
    }

    method StatusQueue(sources: nat)
      requires Valid()
      modifies this
      ensures Valid() && Snapshot() == old(Apply(Snapshot(), Queue(sources)))
      ensures tasks == old(tasks) || fresh(tasks)
      ensures old(status) == CREATED ==> status == PENDING && Queued(kind, sources, Rows())
    {
      var hasError := ValidateStatusChange(PENDING, {CREATED});
      if hasError {
        return;
      }
      var created := CreatePendingTasks(sources);
      tasks := created;
      status := PENDING;
      QueuedOnly(kind, sources, Rows());
    }

    method StatusStart() returns (ok: bool)
      requires Valid()
      modifies this`status
      ensures Valid() && Snapshot() == old(Apply(Snapshot(), Start))
      ensures ok == !old(Refused(status, RUNNING, {PENDING}))
    {
      var hasError := ValidateStatusChange(RUNNING, {PENDING});
      if !hasError {
        status := RUNNING;
      }
      ok := !hasError;
    }

    method StatusRestart() returns (ok: bool)
      requires Valid()
      modifies this`status, tasks
      ensures Valid() && Snapshot() == old(Apply(Snapshot(), Restart))
      ensures ok == !old(Refused(status, PENDING, {PENDING, PAUSED, RUNNING}))
    {
      var hasError := ValidateStatusChange(PENDING, {PENDING, PAUSED, RUNNING});
      if hasError {
        return false;
      }
      ghost var before := Rows();
      for i := 0 to |tasks|
        invariant forall j :: 0 <= j < |tasks| ==>
                    tasks[j].Row() == if j < i then RestartedTask(before[j]) else before[j]
      {
        if tasks[i].status == PAUSED {
          tasks[i].SetStatus(PENDING);
        }
      }
      status := PENDING;
      assert Rows() == RestartTasks(before);
      ok := true;
    }

    method StatusPause() returns (ok: bool)
      requires Valid()
      modifies this`status, tasks
      ensures Valid() && Snapshot() == old(Apply(Snapshot(), Pause))
      ensures ok == !old(Refused(status, PAUSED, {PENDING, RUNNING}))
    {
      var hasError := ValidateStatusChange(PAUSED, {PENDING, RUNNING});
      if hasError {
        return false;
      }
      ghost var before := Rows();
      for i := 0 to |tasks|
        invariant forall j :: 0 <= j < |tasks| ==> tasks[j].Row() == if j < i then PausedTask(before[j]) else before[j]
      {
        if !Terminal(tasks[i].status) {
          tasks[i].SetStatus(PAUSED);
        }
      }
      status := PAUSED;
      assert Rows() == PauseTasks(before);
      ok := true;
    }

    method CancelUnfinishedTasks()
      requires Valid()
      modifies tasks
      ensures Snapshot() == old(Snapshot()).(tasks := CancelTasks(old(Rows())))
    {
      ghost var before := Rows();
      for i := 0 to |tasks|
        invariant forall j :: 0 <= j < |tasks| ==>
                    tasks[j].Row() == if j < i then CanceledTask(before[j]) else before[j]
      {
        if !Terminal(tasks[i].status) {
          tasks[i].SetStatus(CANCELED);
        }
      }
      assert Rows() == CancelTasks(before);
    }

    method StatusCancel() returns (ok: bool)
      requires Valid()
      modifies this`status, tasks
      ensures Valid() && Snapshot() == old(Apply(Snapshot(), Cancel))
      ensures ok == !old(Refused(status, CANCELED, CANCELABLE))
    {
      var hasError := ValidateStatusChange(CANCELED, CANCELABLE);
      if hasError {
        return false;
      }
      CancelUnfinishedTasks();
      status := CANCELED;
      ok := true;
    }

    method StatusComplete() returns (ok: bool)
      requires Valid()
      modifies this`status
      ensures Valid() && Snapshot() == old(Apply(Snapshot(), Complete))
      ensures ok == !old(Refused(status, COMPLETED, {RUNNING}))
    {
      var hasError := ValidateStatusChange(COMPLETED, {RUNNING});
      if !hasError {
        status := COMPLETED;
      }
      ok := !hasError;
    }

    method StatusFail() returns (ok: bool)
      requires Valid()
      modifies this`status
      ensures Valid() && Snapshot() == old(Apply(Snapshot(), Fail))
      ensures ok == !old(Refused(status, FAILED, {RUNNING}))
    {
      var hasError := ValidateStatusChange(FAILED, {RUNNING});
      if !hasError {
        status := FAILED;
      }
      ok := !hasError;
    }
  }
}
