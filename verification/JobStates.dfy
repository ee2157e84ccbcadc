/** The life cycle of a scan job and its tasks, as values: what each status method does, and
    what holds over every history of calls. */
module JobStates {

  datatype Status = CREATED | PENDING | RUNNING | PAUSED | CANCELED | COMPLETED | FAILED

  predicate Terminal(s: Status) {
    s in {CANCELED, COMPLETED, FAILED}
  }

  datatype Kind = INSPECT | FINGERPRINT

  datatype TaskRow = TaskRow(kind: Kind, status: Status, scanned: nat)

  datatype JobState = JobState(kind: Kind, status: Status, report: bool, tasks: seq<TaskRow>)

  /** The status change is refused. Asking for the current status is never refused. */
  predicate Refused(current: Status, target: Status, allowed: set<Status>) {
    target != current && current !in allowed
  }

  /* ---------- the tasks of a job ---------- */

  function CanceledTask(t: TaskRow): TaskRow {
    if Terminal(t.status) then t else t.(status := CANCELED)
  }

  function PausedTask(t: TaskRow): TaskRow {
    if Terminal(t.status) then t else t.(status := PAUSED)
  }

  function RestartedTask(t: TaskRow): TaskRow {
    if t.status == PAUSED then t.(status := PENDING) else t
  }

  function CancelTasks(ts: seq<TaskRow>): (r: seq<TaskRow>)
    ensures |r| == |ts| && forall i :: 0 <= i < |ts| ==> r[i] == CanceledTask(ts[i])
  {
    seq(|ts|, i requires 0 <= i < |ts| => CanceledTask(ts[i]))
  }

  function PauseTasks(ts: seq<TaskRow>): (r: seq<TaskRow>)
    ensures |r| == |ts| && forall i :: 0 <= i < |ts| ==> r[i] == PausedTask(ts[i])
  {
    seq(|ts|, i requires 0 <= i < |ts| => PausedTask(ts[i]))
  }

  function RestartTasks(ts: seq<TaskRow>): (r: seq<TaskRow>)
    ensures |r| == |ts| && forall i :: 0 <= i < |ts| ==> r[i] == RestartedTask(ts[i])
  {
    seq(|ts|, i requires 0 <= i < |ts| => RestartedTask(ts[i]))
  }

  /** One inspect task per source, then one fingerprint task if there is work for it. */
  function PendingTasks(kind: Kind, sources: nat): seq<TaskRow> {
    var inspects := if kind.INSPECT? then seq(sources, i => TaskRow(INSPECT, PENDING, 0)) else [];
    if kind.FINGERPRINT? || inspects != [] then inspects + [TaskRow(FINGERPRINT, PENDING, 0)] else inspects
  }

  /** The tasks of a queued job: for each source an inspect task and then one fingerprint task,
      nothing without a source, and the fingerprint task alone for a job that only fingerprints. */
  predicate Queued(kind: Kind, sources: nat, ts: seq<TaskRow>) {
    && |ts| == (if kind.FINGERPRINT? then 1 else if sources > 0 then sources + 1 else 0)
    && forall i :: 0 <= i < |ts| ==> ts[i] == TaskRow(if i < |ts| - 1 then INSPECT else FINGERPRINT, PENDING, 0)
  }

  /** There is one such list, and it is the one that queueing creates. */
  lemma QueuedOnly(kind: Kind, sources: nat, ts: seq<TaskRow>)
    ensures Queued(kind, sources, ts) <==> ts == PendingTasks(kind, sources)
  {
    var p := PendingTasks(kind, sources);
    if Queued(kind, sources, ts) {
      assert forall i :: 0 <= i < |ts| ==> ts[i] == p[i];
    }
  }

  /* ---------- the status methods ---------- */

  const CANCELABLE := {CREATED, PENDING, RUNNING, PAUSED}

  datatype Call = Queue(sources: nat) | Start | Restart | Pause | Cancel | Complete | Fail

  function Target(c: Call): Status {
    match c
    case Queue(_) => PENDING
    case Start => RUNNING
    case Restart => PENDING
    case Pause => PAUSED
    case Cancel => CANCELED
    case Complete => COMPLETED
    case Fail => FAILED
  }

  function Allowed(c: Call): set<Status> {
    match c
    case Queue(_) => {CREATED}
    case Start => {PENDING}
    case Restart => {PENDING, PAUSED, RUNNING}
    case Pause => {PENDING, RUNNING}
    case Cancel => CANCELABLE
    case Complete => {RUNNING}
    case Fail => {RUNNING}
  }

  function TasksAfter(s: JobState, c: Call): seq<TaskRow> {
    match c
    case Queue(n) => PendingTasks(s.kind, n)
    case Restart => RestartTasks(s.tasks)
    case Pause => PauseTasks(s.tasks)
    case Cancel => CancelTasks(s.tasks)
    case _ => s.tasks
  }

  function Apply(s: JobState, c: Call): JobState {
    if Refused(s.status, Target(c), Allowed(c)) then s
    else s.(status := Target(c), tasks := TasksAfter(s, c))
  }

  function Run(s: JobState, calls: seq<Call>): JobState {
    if calls == [] then s else Apply(Run(s, calls[..|calls| - 1]), calls[|calls| - 1])
  }

  /** Which calls succeed, by the status of the job; asking for the current status always does. */
  lemma SucceedsIff(s: JobState, c: Call)
    ensures Refused(s.status, Target(c), Allowed(c)) <==>
            match c
            case Queue(_) => s.status !in {CREATED, PENDING}
            case Start => s.status !in {PENDING, RUNNING}
            case Restart => s.status !in {PENDING, PAUSED, RUNNING}
            case Pause => s.status !in {PENDING, RUNNING, PAUSED}
            case Cancel => s.status in {COMPLETED, FAILED}
            case Complete => s.status !in {RUNNING, COMPLETED}
            case Fail => s.status !in {RUNNING, FAILED}
    ensures Refused(s.status, Target(c), Allowed(c)) ==> Apply(s, c) == s
  {
  }

  /** What a call that succeeds does to the job and to each task. */
  lemma CallEffect(s: JobState, c: Call, i: nat)
    requires !Refused(s.status, Target(c), Allowed(c))
    ensures Apply(s, c).kind == s.kind && Apply(s, c).report == s.report
    ensures Apply(s, c).status ==
            match c
            case Queue(_) => PENDING case Start => RUNNING case Restart => PENDING case Pause => PAUSED
            case Cancel => CANCELED case Complete => COMPLETED case Fail => FAILED
    ensures c.Queue? ==> Queued(s.kind, c.sources, Apply(s, c).tasks)
    ensures !c.Queue? ==> |Apply(s, c).tasks| == |s.tasks|
    ensures !c.Queue? && i < |s.tasks| ==>
              var t := s.tasks[i];
              Apply(s, c).tasks[i] ==
              match c
              case Restart => if t.status == PAUSED then t.(status := PENDING) else t
              case Pause => if t.status in {CANCELED, COMPLETED, FAILED} then t else t.(status := PAUSED)
              case Cancel => if t.status in {CANCELED, COMPLETED, FAILED} then t else t.(status := CANCELED)
              case _ => t
  {
    if c.Queue? {
      QueuedOnly(s.kind, c.sources, Apply(s, c).tasks);
    }
  }

  /* ---------- histories ---------- */

  /** CANCELED, COMPLETED and FAILED are absorbing over every history. */
  lemma {:induction false} TerminalAbsorbs(s: JobState, calls: seq<Call>)
    requires Terminal(s.status)
    ensures Run(s, calls).status == s.status
    ensures !s.status.CANCELED? ==> Run(s, calls).tasks == s.tasks
  {
    if calls != [] {
      TerminalAbsorbs(s, calls[..|calls| - 1]);
    }
  }

  /** Which call moves a job into which status, and from where. */
  lemma Entering(s: JobState, c: Call)
    requires Apply(s, c).status != s.status
    ensures !Terminal(s.status) && s.status in Allowed(c) && Apply(s, c).status == Target(c)
    ensures Apply(s, c).status == RUNNING ==> s.status == PENDING && c == Start
    ensures Apply(s, c).status in {COMPLETED, FAILED} ==> s.status == RUNNING && c in {Complete, Fail}
    ensures Apply(s, c).status == PAUSED ==> s.status in {PENDING, RUNNING}
    ensures Apply(s, c).status != CREATED
  {
  }

  /** The status after the first i calls. */
  function StatusAt(s: JobState, calls: seq<Call>, i: nat): Status
    requires i <= |calls|
  {
    Run(s, calls[..i]).status
  }

  lemma StepAt(s: JobState, calls: seq<Call>, i: nat)
    requires i < |calls|
    ensures StatusAt(s, calls, i + 1) == Apply(Run(s, calls[..i]), calls[i]).status
  {
    assert calls[..i + 1][..i] == calls[..i];
  }

  /** A status that a history ends in, but did not start in, was entered at some call. */
  lemma {:induction false} WasEntered(s: JobState, calls: seq<Call>, n: nat, target: Status) returns (i: nat)
    requires n <= |calls| && s.status != target && StatusAt(s, calls, n) == target
    ensures i < n && StatusAt(s, calls, i) != target && StatusAt(s, calls, i + 1) == target
    ensures forall j :: i < j <= n ==> StatusAt(s, calls, j) == target
  {
    if StatusAt(s, calls, n - 1) == target {
      i := WasEntered(s, calls, n - 1, target);
    } else {
      i := n - 1;
    }
  }

  /** Every finished job was queued, then started, then finished: a history from CREATED that
      ends in COMPLETED or FAILED enters PENDING, RUNNING and its end in this order. */
  lemma FinishedJobsRan(s: JobState, calls: seq<Call>)
    requires s.status == CREATED && Run(s, calls).status in {COMPLETED, FAILED}
    ensures exists i, j :: 0 <= i < j < |calls| && StatusAt(s, calls, i) == PENDING && calls[i] == Start
                           && StatusAt(s, calls, j) == RUNNING && calls[j] in {Complete, Fail}
                           && StatusAt(s, calls, j + 1) == Run(s, calls).status
  {
    assert calls[..|calls|] == calls;
    var j := WasEntered(s, calls, |calls|, Run(s, calls).status);
    StepAt(s, calls, j);
    Entering(Run(s, calls[..j]), calls[j]);
    var i := WasEntered(s, calls, j, RUNNING);
    StepAt(s, calls, i);
    Entering(Run(s, calls[..i]), calls[i]);
  }

  /** A successful cancel leaves every task terminal and the finished ones untouched. */
  lemma CancelFinishesTasks(s: JobState)
    requires s.status in CANCELABLE || s.status == CANCELED
    ensures Apply(s, Cancel).status == CANCELED && |Apply(s, Cancel).tasks| == |s.tasks|
    ensures forall i :: 0 <= i < |s.tasks| ==>
              && Terminal(Apply(s, Cancel).tasks[i].status)
              && (Apply(s, Cancel).tasks[i].status in {COMPLETED, FAILED} ==> Apply(s, Cancel).tasks[i] == s.tasks[i])
              && (s.tasks[i].status in {COMPLETED, FAILED} ==> Apply(s, Cancel).tasks[i] == s.tasks[i])
  {
  }

  /** A pause followed by a restart puts every unfinished task back to PENDING. */
  lemma PauseThenRestart(s: JobState)
    requires s.status in {PENDING, RUNNING, PAUSED}
    ensures var r := Run(s, [Pause, Restart]);
            && r.status == PENDING && |r.tasks| == |s.tasks|
            && forall i :: 0 <= i < |s.tasks| ==>
                 r.tasks[i] == if Terminal(s.tasks[i].status) then s.tasks[i] else s.tasks[i].(status := PENDING)
  {
    assert [Pause, Restart][..1] == [Pause] && [Pause][..0] == [];
    var p := Apply(s, Pause);
    assert Run(s, [Pause]) == p;
    assert Run(s, [Pause, Restart]) == Apply(p, Restart);
  }
}
