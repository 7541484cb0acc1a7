/**
  How failed runs become one condition per job (api/alerting/operator.py), and
  what a `jobs_unclaimed` alert says about the runs behind it.
*/
module JobAlerts {
  import opened Prelude
  import opened RunTable
  import I = Incidents
  import P = RunProtocol

  const BROAD_FAILURE_MINIMUM := 3

  function RunsOf(t: Table, job: string, since: int): set<nat> {
    set id | id in t.rows && t.rows[id].key.job == job && t.rows[id].key.windowStart >= since
  }

  function FailedOf(t: Table, job: string, since: int): set<nat> {
    set id | id in RunsOf(t, job, since) && t.rows[id].status == Failed
  }

  function UnclaimedOf(t: Table, job: string, since: int): set<nat> {
    set id | id in FailedOf(t, job, since) && t.rows[id].error == Some(NO_WORKER)
  }

  /** At least three failures that are at least half of the runs. */
  predicate Broad(failed: nat, total: nat) {
    failed >= BROAD_FAILURE_MINIMUM && 2 * failed >= total
  }

  function Severity(failed: nat, total: nat): string {
    if Broad(failed, total) then "critical" else "warning"
  }

  /** The condition one row of the grouped query becomes. */
  function ConditionOf(t: Table, job: string, since: int): I.Condition {
    var failed, unclaimed := |FailedOf(t, job, since)|, |UnclaimedOf(t, job, since)|;
    var severity := Severity(failed, |RunsOf(t, job, since)|);
    if unclaimed == failed then I.Condition("jobs_unclaimed", job, severity, "No worker is running " + job)
    else I.Condition("job_failing", job, severity, job + " is failing")
  }

  function ConditionsOf(t: Table, jobs: seq<string>, since: int): seq<I.Condition> {
    if jobs == [] then [] else
      var job := jobs[|jobs| - 1];
      ConditionsOf(t, jobs[..|jobs| - 1], since) + if FailedOf(t, job, since) == {} then [] else [ConditionOf(t, job, since)]
  }

  /** `_jobs_failing`; `jobs` are the names in the table, in order. */
  method JobsFailing(t: Table, jobs: seq<string>, since: int) returns (conditions: seq<I.Condition>)
    ensures conditions == ConditionsOf(t, jobs, since)
  {
    conditions := [];
    for i := 0 to |jobs|
      invariant conditions == ConditionsOf(t, jobs[..i], since)
    {
      assert jobs[..i + 1][..i] == jobs[..i];
      var job := jobs[i];
      var failed := FailedOf(t, job, since);
      if failed == {} {
        continue;
      }
      var total := |RunsOf(t, job, since)|;
      var unclaimed := |UnclaimedOf(t, job, since)|;
      var broad := |failed| >= BROAD_FAILURE_MINIMUM && 2 * |failed| >= total;
      var severity := if broad then "critical" else "warning";
      if unclaimed == |failed| {
        conditions := conditions + [I.Condition("jobs_unclaimed", job, severity, "No worker is running " + job)];
        continue;
      }
      conditions := conditions + [I.Condition("job_failing", job, severity, job + " is failing")];
    }
    assert jobs[..|jobs|] == jobs;
  }

  lemma SameSize(a: set<nat>, b: set<nat>)
    requires a <= b && |a| == |b|
    ensures a == b
  {
    assert b == a + (b - a);
  }

  /** A run of this job whose window is not over yet, as far as the alerts look back. */
  ghost predicate InWindow(t: Table, job: string, since: int, id: nat) {
    id in t.rows && t.rows[id].key.job == job && since <= t.rows[id].key.windowStart
  }

  ghost predicate FailedIn(t: Table, job: string, since: int, id: nat) {
    InWindow(t, job, since, id) && t.rows[id].status == Failed
  }

  ghost function AllIn(t: Table, job: string, since: int): set<nat> {
    set id | id in t.rows && InWindow(t, job, since, id)
  }

  ghost function AllFailed(t: Table, job: string, since: int): set<nat> {
    set id | id in t.rows && FailedIn(t, job, since, id)
  }

  /**
    What a condition about a job says: that no run of it was ever picked up, if that
    is so of every failed one, and that it is failing otherwise; critical from three
    failures on that are at least half of its runs.
  */
  ghost predicate SaysOf(t: Table, job: string, since: int, c: I.Condition) {
    var runs, failed := |AllIn(t, job, since)|, |AllFailed(t, job, since)|;
    && c.subject == job
    && c.severity == (if failed >= 3 && 2 * failed >= runs then "critical" else "warning")
    && if forall id :: FailedIn(t, job, since, id) ==> t.rows[id].error == Some("no worker picked this up")
       then c.kind == "jobs_unclaimed" && c.title == "No worker is running " + job
       else c.kind == "job_failing" && c.title == job + " is failing"
  }

  /** One condition for each job that has a failed run, and none else, with what it says. */
  lemma {:induction false} ConditionsMean(t: Table, jobs: seq<string>, since: int, c: I.Condition)
    ensures c in ConditionsOf(t, jobs, since) <==>
      c.subject in jobs && SaysOf(t, c.subject, since, c) && exists id :: FailedIn(t, c.subject, since, id)
  {
    hide ConditionOf, SaysOf, FailedOf;
    ConditionSays(t, c.subject, since, c);
    FailedAre(t, c.subject, since);
    if jobs != [] {
      var last := jobs[|jobs| - 1];
      ConditionsMean(t, jobs[..|jobs| - 1], since, c);
      assert jobs == jobs[..|jobs| - 1] + [last];
      SubjectIsJob(t, last, since);
    }
  }

  lemma SubjectIsJob(t: Table, job: string, since: int)
    ensures ConditionOf(t, job, since).subject == job
  {
  }

  lemma FailedAre(t: Table, job: string, since: int)
    ensures FailedOf(t, job, since) != {} <==> exists id :: FailedIn(t, job, since, id)
    ensures forall id :: id in FailedOf(t, job, since) <==> FailedIn(t, job, since, id)
  {
    assert forall id :: id in FailedOf(t, job, since) <==> FailedIn(t, job, since, id);
    if FailedOf(t, job, since) != {} {
      var id :| id in FailedOf(t, job, since);
      assert FailedIn(t, job, since, id);
    }
  }

  lemma ConditionSays(t: Table, job: string, since: int, c: I.Condition)
    ensures c == ConditionOf(t, job, since) <==> SaysOf(t, job, since, c)
  {
    assert RunsOf(t, job, since) == AllIn(t, job, since);
    assert FailedOf(t, job, since) == AllFailed(t, job, since);
    AllUnclaimed(t, job, since);
    var d := ConditionOf(t, job, since);
    hide UnclaimedOf, RunsOf, FailedOf, FailedIn, InWindow, AllIn, AllFailed;
    assert d.subject == job && d.severity == Severity(|AllFailed(t, job, since)|, |AllIn(t, job, since)|);
    if |UnclaimedOf(t, job, since)| == |FailedOf(t, job, since)| {
      assert d.kind == "jobs_unclaimed" && d.title == "No worker is running " + job;
    } else {
      assert d.kind == "job_failing" && d.title == job + " is failing";
    }
  }

  lemma AllUnclaimed(t: Table, job: string, since: int)
    ensures |UnclaimedOf(t, job, since)| == |FailedOf(t, job, since)| <==>
      forall id :: FailedIn(t, job, since, id) ==> t.rows[id].error == Some("no worker picked this up")
  {
    CountsDecide(t, job, since);
    assert forall id :: FailedIn(t, job, since, id) <==> id in RunsOf(t, job, since) && t.rows[id].status == Failed;
    hide UnclaimedOf, FailedOf, FailedIn, RunsOf;
  }

  lemma CountsDecide(t: Table, job: string, since: int)
    ensures |UnclaimedOf(t, job, since)| == |FailedOf(t, job, since)| <==>
      forall id :: id in RunsOf(t, job, since) && t.rows[id].status == Failed ==> t.rows[id].error == Some(NO_WORKER)
  {
    var unclaimed, failed := UnclaimedOf(t, job, since), FailedOf(t, job, since);
    assert unclaimed <= failed;
    if |unclaimed| == |failed| {
      SameSize(unclaimed, failed);
      forall id | id in RunsOf(t, job, since) && t.rows[id].status == Failed
        ensures t.rows[id].error == Some(NO_WORKER)
      {
        assert id in failed;
        assert id in unclaimed;
      }
    } else {
      assert unclaimed != failed;
      assert exists id :: id in failed && id !in unclaimed;
    }
  }

  lemma KindsDiffer()
    ensures "jobs_unclaimed" != "job_failing"
  {
    assert "jobs_unclaimed"[3] != "job_failing"[3];
  }

  /**
    An alert that no worker is running a job is true of every run behind it:
    whatever dispatchers, workers and reapers did and do later, no body of those
    runs was begun or ever will be, and their rows never change again.
  */
  lemma {:induction false} UnclaimedAlertIsTrue(clock: int, actions: seq<P.Action>, later: seq<P.Action>, jobs: seq<string>,
      since: int, c: I.Condition, id: nat)
    requires var s := P.After(P.Init(clock), actions);
      && c in ConditionsOf(s.table, jobs, since) && c.kind == "jobs_unclaimed"
      && FailedIn(s.table, c.subject, since, id)
    ensures var s := P.After(P.Init(clock), actions);
      var t := P.After(s, later);
      && id !in s.bodies && id !in t.bodies
      && id in s.table.rows && id in t.table.rows && t.table.rows[id] == s.table.rows[id]
  {
    var s := P.After(P.Init(clock), actions);
    hide P.After, P.Inv, ConditionsOf, ConditionOf;
    ConditionsMean(s.table, jobs, since, c);
    assert P.Unclaimed(s, id);
    P.UnclaimedIsFinal(clock, actions, later, id);
    P.UnclaimedIsFinal(clock, actions, [], id);
    NothingLater(s);
  }

  lemma NothingLater(s: P.World)
    ensures P.After(s, []) == s
  {
  }
}
