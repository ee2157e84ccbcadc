/** Deleting the inspect results of a scan job from shared inspect groups. */
module InspectResults {
  import opened OrderedDict

  type Id = nat

  /** The scan tasks that filled a group and the reports that use it. */
  datatype Group = Group(tasks: set<Id>, reports: set<Id>)

  /** Rows and relations. A report without an entry in reportJob belongs to no job. */
  datatype Store = Store(groups: map<Id, Group>, results: map<Id, Id>, taskJob: map<Id, Id>, reportJob: map<Id, Id>) {

    ghost predicate Valid() {
      forall r :: r in results ==> results[r] in groups
    }

    predicate FilledBy(g: Id, job: Id, task: Option<Id>)
      requires g in groups
    {
      exists t :: t in groups[g].tasks && t in taskJob && taskJob[t] == job && (task.None? || task.value == t)
    }

    predicate ReportedElsewhere(g: Id, job: Id)
      requires g in groups
    {
      exists p :: p in groups[g].reports && p in reportJob && reportJob[p] != job
    }

    predicate Doomed(r: Id, job: Id, task: Option<Id>)
      requires Valid() && r in results
    {
      FilledBy(results[r], job, task) && !ReportedElsewhere(results[r], job)
    }

    function Delete(job: Id, task: Option<Id>): Store
      requires Valid()
    {
      var kept := map r | r in results && !Doomed(r, job, task) :: results[r];
      this.(groups := map g | g in groups && g in kept.Values :: groups[g], results := kept)
    }
  }

  class InspectTables {
    var groups: map<Id, Group>
    var results: map<Id, Id>
    const taskJob: map<Id, Id>
    const reportJob: map<Id, Id>

    function Rows(): Store
      reads this
    {
      Store(groups, results, taskJob, reportJob)
    }

    method DeleteInspectResults(job: Id, task: Option<Id>)
      requires Rows().Valid()
      modifies this
      ensures Rows() == old(Rows().Delete(job, task))
    {
      results := map r | r in results && !Rows().Doomed(r, job, task) :: results[r];
      groups := map g | g in groups && g in results.Values :: groups[g];
    }
  }

  /* ---------- what a deletion removes ---------- */

  /** A result goes exactly when a task of the job filled its group and no other job's
      report uses the group; whatever stays keeps its group. */
  lemma ResultGoneIff(s: Store, job: Id, task: Option<Id>, r: Id)
    requires s.Valid() && r in s.results
    ensures s.Delete(job, task).Valid()
    ensures var g := s.groups[s.results[r]];
            r !in s.Delete(job, task).results <==>
            && (exists t :: t in g.tasks && t in s.taskJob && s.taskJob[t] == job && (task == None || task == Some(t)))
            && !(exists p :: p in g.reports && p in s.reportJob && s.reportJob[p] != job)
    ensures r in s.Delete(job, task).results ==> s.Delete(job, task).results[r] == s.results[r]
  {
    KeepsValid(s, job, task);
  }

  lemma KeepsValid(s: Store, job: Id, task: Option<Id>)
    requires s.Valid()
    ensures s.Delete(job, task).Valid()
  {
    var after := s.Delete(job, task);
    forall r | r in after.results ensures after.results[r] in after.groups {
      assert after.results[r] in after.results.Values;
    }
  }

  /** A report of another job keeps all of its groups that had results, and every result. */
  lemma OtherReportsUntouched(s: Store, job: Id, task: Option<Id>, p: Id, r: Id)
    requires s.Valid() && r in s.results
    requires p in s.groups[s.results[r]].reports && p in s.reportJob && s.reportJob[p] != job
    ensures var after := s.Delete(job, task);
            && r in after.results && after.results[r] == s.results[r]
            && s.results[r] in after.groups && after.groups[s.results[r]] == s.groups[s.results[r]]
  {
    KeepsValid(s, job, task);
    assert s.ReportedElsewhere(s.results[r], job);
  }

  /** The cleanup removes exactly the groups left without results, whoever they belong to. */
  lemma GroupGoneIff(s: Store, job: Id, task: Option<Id>, g: Id)
    requires s.Valid() && g in s.groups
    ensures g !in s.Delete(job, task).groups <==>
            forall r :: r in s.results && s.results[r] == g ==> s.FilledBy(g, job, task) && !s.ReportedElsewhere(g, job)
    ensures g in s.Delete(job, task).groups ==> s.Delete(job, task).groups[g] == s.groups[g]
  {
    var after := s.Delete(job, task);
    KeepsValid(s, job, task);
    forall r | r in s.results && s.results[r] == g && !s.Doomed(r, job, task)
      ensures g in after.groups
    {
      assert r in after.results && after.results[r] == g;
    }
    if g in after.groups {
      var r :| r in after.results && after.results[r] == g;
      assert !s.Doomed(r, job, task);
    }
  }

  /* ---------- several deletions ---------- */

  /** The order in which two jobs are cleaned up does not matter. */
  lemma DeletionsCommute(s: Store, job: Id, task: Option<Id>, job': Id, task': Option<Id>)
    requires s.Valid()
    ensures s.Delete(job, task).Valid() && s.Delete(job', task').Valid()
    ensures s.Delete(job, task).Delete(job', task') == s.Delete(job', task').Delete(job, task)
  {
    KeepsValid(s, job, task);
    KeepsValid(s, job', task');
    Twice(s, job, task, job', task');
    Twice(s, job', task', job, task);
    SurvivorsSymmetric(s, job, task, job', task');
    hide Store.Delete, Survivors;
  }

  /** Cleaning up a job twice is the same as cleaning it up once. */
  lemma DeletionIdempotent(s: Store, job: Id, task: Option<Id>)
    requires s.Valid()
    ensures s.Delete(job, task).Valid()
    ensures s.Delete(job, task).Delete(job, task) == s.Delete(job, task)
  {
    KeepsValid(s, job, task);
    Twice(s, job, task, job, task);
    assert Survivors(s, job, task, job, task) == s.Delete(job, task).results;
  }

  ghost function Survivors(s: Store, job: Id, task: Option<Id>, job': Id, task': Option<Id>): map<Id, Id>
    requires s.Valid()
  {
    map r | r in s.results && !s.Doomed(r, job, task) && !s.Doomed(r, job', task') :: s.results[r]
  }

  lemma TwiceResults(s: Store, job: Id, task: Option<Id>, job': Id, task': Option<Id>)
    requires s.Valid() && s.Delete(job, task).Valid()
    ensures s.Delete(job, task).Delete(job', task').results == Survivors(s, job, task, job', task')
  {
    var once := s.Delete(job, task);
    forall r | r in once.results
      ensures r in s.results && once.Doomed(r, job', task') == s.Doomed(r, job', task')
    {
      assert once.groups[once.results[r]] == s.groups[s.results[r]];
    }
  }

  lemma OnlyFilledGroups(s: Store, job: Id, task: Option<Id>, job': Id, task': Option<Id>)
    requires s.Valid() && s.Delete(job, task).Valid()
    ensures var kept := Survivors(s, job, task, job', task');
            s.Delete(job, task).Delete(job', task').groups == map g | g in s.groups && g in kept.Values :: s.groups[g]
  {
    TwiceResults(s, job, task, job', task');
    var once := s.Delete(job, task);
    var kept := Survivors(s, job, task, job', task');
    forall g | g in kept.Values ensures g in once.groups {
      var r :| r in kept && kept[r] == g;
      assert r in once.results && once.results[r] == g;
    }
  }

  ghost function WithFilledGroups(s: Store, kept: map<Id, Id>): Store {
    s.(groups := map g | g in s.groups && g in kept.Values :: s.groups[g], results := kept)
  }

  lemma SurvivorsSymmetric(s: Store, job: Id, task: Option<Id>, job': Id, task': Option<Id>)
    requires s.Valid()
    ensures Survivors(s, job, task, job', task') == Survivors(s, job', task', job, task)
  {
  }

  lemma Twice(s: Store, job: Id, task: Option<Id>, job': Id, task': Option<Id>)
    requires s.Valid() && s.Delete(job, task).Valid()
    ensures s.Delete(job, task).Delete(job', task') == WithFilledGroups(s, Survivors(s, job, task, job', task'))
  {
    TwiceResults(s, job, task, job', task');
    OnlyFilledGroups(s, job, task, job', task');
  }

  /* ---------- where "exclusively related to this job" goes wrong ---------- */

  /** Only reports protect a result: one that another job's task also produced is removed
      while that job has no report yet, and so is any other job's still empty group. */
  lemma OtherTasksNotProtected()
    ensures var s := Store(map[1 := Group({10, 20}, {}), 2 := Group({20}, {})], map[5 := 1], map[10 := 100, 20 := 200],
                           map[]);
            s.Valid() && s.FilledBy(1, 200, None) && s.FilledBy(2, 200, None)
            && s.Delete(100, None).results == map[] && s.Delete(100, None).groups == map[]
  {
    var s := Store(map[1 := Group({10, 20}, {}), 2 := Group({20}, {})], map[5 := 1], map[10 := 100, 20 := 200], map[]);
    assert 10 in s.groups[1].tasks && 20 in s.groups[1].tasks && 20 in s.groups[2].tasks;
    assert s.Doomed(5, 100, None);
  }
}
