/**
  The `scheduled_runs` table and the statements that touch it
  (api/workers/dispatch.py, api/workers/jobs.py). One SQL statement is one
  function from table to table; the class holds the table and its methods
  issue the statements.
*/
module RunTable {
  import opened Prelude
  import opened Schedule

  const LEASE := 6 * HOUR
  const NO_WORKER := "no worker picked this up"
  const NO_REPORT := "the worker did not report back"
  const WEBSITE_GONE := "website is gone"
  const MAX_ERROR := 1000

  /** A website's id, and the number the schedule's hash derives from it. */
  datatype Website = Website(uuid: nat, offset: nat)

  datatype Candidate = Candidate(
    website: Website,
    crawlAllowed: bool,
    hasSearchConsole: bool,
    hasAnalytics: bool,
    hasCrawl: bool)

  predicate Eligible(job: Job, site: Candidate) {
    if job.name == "sync_search_console" then site.hasSearchConsole
    else if job.name == "sync_analytics" then site.hasAnalytics
    else if job.name == "crawl_website" then site.crawlAllowed
    else site.hasCrawl
  }

  /** What a job needs before it is worth running, column by column. */
  ghost predicate HasWhatItNeeds(job: string, site: Candidate) {
    && (job == "sync_search_console" ==> site.hasSearchConsole)
    && (job == "sync_analytics" ==> site.hasAnalytics)
    && (job == "crawl_website" ==> site.crawlAllowed)
    && (job !in {"sync_search_console", "sync_analytics", "crawl_website"} ==> site.hasCrawl)
  }

  lemma EligibleMeans(job: Job, site: Candidate)
    ensures Eligible(job, site) <==> HasWhatItNeeds(job.name, site)
  {
    NamesDiffer();
  }

  lemma NamesDiffer()
    ensures "sync_search_console" != "sync_analytics" && "sync_search_console" != "crawl_website"
    ensures "sync_analytics" != "crawl_website"
  {
    assert |"sync_search_console"| == 19 && |"sync_analytics"| == 14 && |"crawl_website"| == 13;
  }

  /** The columns of the unique index. */
  datatype Key = Key(website: Website, job: string, windowStart: int)

  datatype Status = Claimed | Running | Succeeded | Failed | Skipped

  datatype Run = Run(
    key: Key,
    status: Status,
    claimedAt: int,
    startedAt: Option<int>,
    finishedAt: Option<int>,
    error: Option<string>)
  {
    /** Still expected to make progress: what the reaper looks for. */
    predicate Live() {
      status.Claimed? || status.Running?
    }

    /** `coalesce(started_at, claimed_at)` */
    function Since(): int {
      if startedAt.Some? then startedAt.value else claimedAt
    }
  }

  /** `nextId` is the sequence behind the primary key; it advances on a conflict too. */
  datatype Table = Table(rows: map<nat, Run>, nextId: nat)

  predicate Taken(t: Table, key: Key) {
    exists id :: id in t.rows && t.rows[id].key == key
  }

  // ---- the statements -----------------------------------------------------

  function ClaimRow(t: Table, key: Key, clock: int): (Table, Option<nat>) {
    if Taken(t, key) then
      (t.(nextId := t.nextId + 1), None)
    else
      (Table(t.rows[t.nextId := Run(key, Claimed, clock, None, None, None)], t.nextId + 1), Some(t.nextId))
  }

  function MarkRow(t: Table, id: nat, clock: int): (Table, Option<Run>) {
    if id in t.rows && t.rows[id].status == Claimed then
      var run := t.rows[id].(status := Running, startedAt := Some(clock));
      (t.(rows := t.rows[id := run]), Some(run))
    else
      (t, None)
  }

  /** `(error or None) and error[:1000]` */
  function StoredError(error: Option<string>): Option<string> {
    match error
    case None => None
    case Some(text) =>
      if text == "" then None
      else if |text| <= MAX_ERROR then Some(text)
      else Some(text[..MAX_ERROR])
  }

  /** What a finished row says: the status, when, and the first thousand characters of a text that is not empty. */
  ghost predicate Closed(before: Run, after: Run, status: Status, error: Option<string>, clock: int) {
    && after == before.(status := status, finishedAt := Some(clock), error := after.error)
    && (after.error.None? <==> error.None? || error.value == "")
    && (after.error.Some? ==>
          after.error.value <= error.value && |after.error.value| == if |error.value| < 1000 then |error.value| else 1000)
  }

  /** No predicate on the status: the row is written whatever it holds. */
  function FinishRow(t: Table, id: nat, status: Status, error: Option<string>, clock: int): Table {
    if id in t.rows then
      t.(rows := t.rows[id := t.rows[id].(status := status, finishedAt := Some(clock), error := StoredError(error))])
    else
      t
  }

  predicate Abandoned(run: Run, now: int) {
    run.Live() && run.Since() < now - LEASE
  }

  function ReapRows(t: Table, now: int, clock: int): Table {
    t.(rows := map id | id in t.rows ::
      var run := t.rows[id];
      if Abandoned(run, now) then
        run.(status := Failed, finishedAt := Some(clock), error := Some(if run.status.Running? then NO_REPORT else NO_WORKER))
      else
        run)
  }

  // ---- one pass of the dispatcher -----------------------------------------

  /** The slots one job is due for, over a list of websites, in order. */
  function JobWork(job: Job, sites: seq<Candidate>, now: int): seq<Key>
    requires job.Valid()
  {
    if sites == [] then [] else
      var init, site := sites[..|sites| - 1], sites[|sites| - 1];
      JobWork(job, init, now) +
      if Eligible(job, site) then [Key(site.website, job.name, Due(job, site.website.offset, now))] else []
  }

  function Work(jobs: seq<Job>, sites: seq<Candidate>, now: int): seq<Key>
    requires forall j :: 0 <= j < |jobs| ==> jobs[j].Valid()
  {
    if jobs == [] then [] else Work(jobs[..|jobs| - 1], sites, now) + JobWork(jobs[|jobs| - 1], sites, now)
  }

  /** Claims every key in turn; the second part lists the rows won, in order. */
  function ClaimAll(t: Table, keys: seq<Key>, clock: int): (Table, seq<nat>) {
    if keys == [] then (t, []) else
      var (before, won) := ClaimAll(t, keys[..|keys| - 1], clock);
      var (after, id) := ClaimRow(before, keys[|keys| - 1], clock);
      (after, if id.Some? then won + [id.value] else won)
  }

  /** A website is in one job's work list exactly when it is eligible, at its due slot. */
  lemma {:induction false} JobWorkMembers(job: Job, sites: seq<Candidate>, now: int, key: Key)
    requires job.Valid()
    ensures key in JobWork(job, sites, now) <==>
      exists i :: 0 <= i < |sites| && HasWhatItNeeds(job.name, sites[i]) &&
        key == Key(sites[i].website, job.name, Due(job, sites[i].website.offset, now))
  {
    hide Eligible, HasWhatItNeeds, Due;
    if sites != [] {
      var init := sites[..|sites| - 1];
      JobWorkMembers(job, init, now, key);
      EligibleMeans(job, sites[|sites| - 1]);
      assert forall i :: 0 <= i < |init| ==> init[i] == sites[i];
    }
  }

  lemma {:induction false} WorkOfEach(jobs: seq<Job>, sites: seq<Candidate>, now: int, key: Key)
    requires forall j :: 0 <= j < |jobs| ==> jobs[j].Valid()
    ensures key in Work(jobs, sites, now) <==> exists j :: 0 <= j < |jobs| && key in JobWork(jobs[j], sites, now)
  {
    hide JobWork;
    if jobs != [] {
      var init := jobs[..|jobs| - 1];
      WorkOfEach(init, sites, now, key);
      assert forall j :: 0 <= j < |init| ==> init[j] == jobs[j];
    }
  }

  /** The work of a pass is exactly the due slots of the eligible (website, job) pairs. */
  lemma {:induction false} WorkMembers(jobs: seq<Job>, sites: seq<Candidate>, now: int, key: Key)
    requires forall j :: 0 <= j < |jobs| ==> jobs[j].Valid()
    ensures key in Work(jobs, sites, now) <==>
      exists j, i :: 0 <= j < |jobs| && 0 <= i < |sites| && HasWhatItNeeds(jobs[j].name, sites[i]) &&
        key == Key(sites[i].website, jobs[j].name, Due(jobs[j], sites[i].website.offset, now))
  {
    WorkOfEach(jobs, sites, now, key);
    hide HasWhatItNeeds, Due, JobWork, Work;
    forall j | 0 <= j < |jobs|
      ensures key in JobWork(jobs[j], sites, now) <==>
        exists i :: 0 <= i < |sites| && HasWhatItNeeds(jobs[j].name, sites[i]) &&
          key == Key(sites[i].website, jobs[j].name, Due(jobs[j], sites[i].website.offset, now))
    {
      JobWorkMembers(jobs[j], sites, now, key);
    }
  }

  /** `after` is `t` plus the rows `won`, whose keys are new and among `keys`; every key has a row. */
  ghost predicate Claims(t: Table, after: Table, keys: seq<Key>, won: seq<nat>) {
    && (forall id :: id in t.rows ==> id in after.rows && after.rows[id] == t.rows[id])
    && (forall id :: id in after.rows ==> id < after.nextId)
    && (forall id :: id in won <==> id in after.rows && id !in t.rows)
    && (forall id :: id in won ==> after.rows[id].key in keys && !Taken(t, after.rows[id].key))
    && (forall key :: key in keys ==> Taken(after, key))
    && NoDuplicates(won)
  }

  lemma ClaimRowOutcome(t: Table, key: Key, clock: int)
    requires forall id :: id in t.rows ==> id < t.nextId
    ensures var (after, id) := ClaimRow(t, key, clock);
      Claims(t, after, [key], if id.Some? then [id.value] else [])
  {
    var (after, id) := ClaimRow(t, key, clock);
    if id.Some? {
      assert after.rows[t.nextId].key == key;
    }
  }

  lemma ClaimsCompose(t: Table, mid: Table, after: Table, keys: seq<Key>, key: Key, won: seq<nat>, more: seq<nat>)
    requires Claims(t, mid, keys, won) && Claims(mid, after, [key], more)
    ensures Claims(t, after, keys + [key], won + more)
  {
    NoDuplicatesConcat(won, more);
    forall k | k in keys + [key]
      ensures Taken(after, k)
    {
      if k in keys {
        var holder :| holder in mid.rows && mid.rows[holder].key == k;
        assert after.rows[holder].key == k;
      } else {
        assert k in [key];
      }
    }
  }

  /**
    What a pass that runs alone leaves behind: every key it asked for has a row,
    every row it added is one of those keys and was won by this pass, every older
    row is untouched, and no row is won twice.
  */
  lemma {:induction false} ClaimAllOutcome(t: Table, keys: seq<Key>, clock: int)
    requires forall id :: id in t.rows ==> id < t.nextId
    ensures Claims(t, ClaimAll(t, keys, clock).0, keys, ClaimAll(t, keys, clock).1)
  {
    if keys != [] {
      var init, last := keys[..|keys| - 1], keys[|keys| - 1];
      ClaimAllOutcome(t, init, clock);
      var (before, won) := ClaimAll(t, init, clock);
      var (after, id) := ClaimRow(before, last, clock);
      var more := if id.Some? then [id.value] else [];
      ClaimRowOutcome(before, last, clock);
      ClaimsCompose(t, before, after, init, last, won, more);
      assert init + [last] == keys && won + [] == won;
    }
  }

  lemma ClaimAllStep(t: Table, keys: seq<Key>, key: Key, clock: int)
    ensures var (before, won) := ClaimAll(t, keys, clock);
      var (after, id) := ClaimRow(before, key, clock);
      ClaimAll(t, keys + [key], clock) == (after, if id.Some? then won + [id.value] else won)
  {
    assert (keys + [key])[..|keys|] == keys;
  }

  /** A pass over a long list is a pass over its first part followed by one over the rest. */
  lemma {:induction false} ClaimAllConcat(t: Table, first: seq<Key>, rest: seq<Key>, clock: int)
    ensures var (mid, won) := ClaimAll(t, first, clock);
      var (after, more) := ClaimAll(mid, rest, clock);
      ClaimAll(t, first + rest, clock) == (after, won + more)
  {
    var (mid, won) := ClaimAll(t, first, clock);
    if rest == [] {
      assert first + rest == first && won + [] == won;
    } else {
      var init, last := rest[..|rest| - 1], rest[|rest| - 1];
      ClaimAllConcat(t, first, init, clock);
      ClaimAllStep(t, first + init, last, clock);
      assert (first + init) + [last] == first + rest;
      var (part, some) := ClaimAll(mid, init, clock);
      var (after, id) := ClaimRow(part, last, clock);
      if id.Some? {
        assert (won + some) + [id.value] == won + (some + [id.value]);
      }
    }
  }

  lemma NothingToClaim(job: Job, now: int, t: Table, clock: int)
    requires job.Valid()
    ensures JobWork(job, [], now) == [] && ClaimAll(t, [], clock) == (t, [])
  {
  }

  lemma JobWorkStep(job: Job, sites: seq<Candidate>, now: int, i: nat)
    requires job.Valid() && i < |sites|
    ensures Eligible(job, sites[i]) ==>
      var key := Key(sites[i].website, job.name, Due(job, sites[i].website.offset, now));
      JobWork(job, sites[..i + 1], now) == JobWork(job, sites[..i], now) + [key]
    ensures !Eligible(job, sites[i]) ==> JobWork(job, sites[..i + 1], now) == JobWork(job, sites[..i], now)
  {
    assert sites[..i + 1][..i] == sites[..i];
  }

  lemma WorkStep(jobs: seq<Job>, sites: seq<Candidate>, now: int, j: nat)
    requires forall k :: 0 <= k < |jobs| ==> jobs[k].Valid()
    requires j < |jobs|
    ensures Work(jobs[..j + 1], sites, now) == Work(jobs[..j], sites, now) + JobWork(jobs[j], sites, now)
  {
    assert jobs[..j + 1][..j] == jobs[..j];
  }

  /** The slots one website has rows for, for one job. */
  function Windows(t: Table, website: Website, job: string): set<int> {
    set id | id in t.rows && t.rows[id].key.website == website && t.rows[id].key.job == job :: t.rows[id].key.windowStart
  }

  lemma JobNamesDiffer(j: nat, k: nat)
    requires j < |JOBS| && k < |JOBS| && JOBS[j].name == JOBS[k].name
    ensures j == k
  {
    assert |JOBS[0].name| == 19 && |JOBS[1].name| == 14 && |JOBS[2].name| == 13;
    assert |JOBS[3].name| == 16 && |JOBS[4].name| == 24 && |JOBS[5].name| == 22;
  }

  /**
    However long nothing ran, one pass adds the latest slot and no other: after it
    an eligible pair has the slots it had before, and its due one.
  */
  lemma {:induction false} OnePassOneSlot(t: Table, sites: seq<Candidate>, now: int, clock: int, j: nat, i: nat)
    requires forall id :: id in t.rows ==> id < t.nextId
    requires forall k :: 0 <= k < |JOBS| ==> JOBS[k].Valid()
    requires j < |JOBS| && i < |sites| && HasWhatItNeeds(JOBS[j].name, sites[i])
    ensures var (website, job) := (sites[i].website, JOBS[j]);
      Windows(ClaimAll(t, Work(JOBS, sites, now), clock).0, website, job.name) ==
      Windows(t, website, job.name) + {Due(job, website.offset, now)}
  {
    var keys := Work(JOBS, sites, now);
    var (after, won) := ClaimAll(t, keys, clock);
    ClaimAllOutcome(t, keys, clock);
    var website, job := sites[i].website, JOBS[j];
    var due := Due(job, website.offset, now);
    var key := Key(website, job.name, due);
    WorkMembers(JOBS, sites, now, key);
    hide Work, ClaimAll, Due, JobWork, ClaimRow, HasWhatItNeeds;
    var holder :| holder in after.rows && after.rows[holder].key == key;
    forall id | id in after.rows && after.rows[id].key.website == website && after.rows[id].key.job == job.name
      ensures after.rows[id].key.windowStart in Windows(t, website, job.name) + {due}
    {
      if id in t.rows {
        assert after.rows[id] == t.rows[id];
      } else {
        OnlyDueIsAsked(sites, now, after.rows[id].key, j);
      }
    }
    forall id | id in t.rows && t.rows[id].key.website == website && t.rows[id].key.job == job.name
      ensures t.rows[id].key.windowStart in Windows(after, website, job.name)
    {
      assert after.rows[id] == t.rows[id];
    }
  }

  lemma OnlyDueIsAsked(sites: seq<Candidate>, now: int, key: Key, j: nat)
    requires forall k :: 0 <= k < |JOBS| ==> JOBS[k].Valid()
    requires j < |JOBS| && key.job == JOBS[j].name && key in Work(JOBS, sites, now)
    ensures key.windowStart == Due(JOBS[j], key.website.offset, now)
  {
    WorkMembers(JOBS, sites, now, key);
    hide Work, Due;
    var k, i :| 0 <= k < |JOBS| && 0 <= i < |sites| && HasWhatItNeeds(JOBS[k].name, sites[i]) &&
      key == Key(sites[i].website, JOBS[k].name, Due(JOBS[k], sites[i].website.offset, now));
    JobNamesDiffer(j, k);
  }

  ghost predicate HasRow(t: Table, website: Website, job: string) {
    exists id :: id in t.rows && t.rows[id].key.website == website && t.rows[id].key.job == job
  }

  /**
    The first pass over websites that are all different: each gets a row for a job
    exactly when it has the column that job needs.
  */
  lemma {:induction false} FirstPass(sites: seq<Candidate>, now: int, clock: int, i: nat)
    requires forall k :: 0 <= k < |JOBS| ==> JOBS[k].Valid()
    requires i < |sites| && forall k, m :: 0 <= k < m < |sites| ==> sites[k].website != sites[m].website
    ensures var after := ClaimAll(Table(map[], 0), Work(JOBS, sites, now), clock).0;
      var site := sites[i];
      && (HasRow(after, site.website, "sync_search_console") <==> site.hasSearchConsole)
      && (HasRow(after, site.website, "sync_analytics") <==> site.hasAnalytics)
      && (HasRow(after, site.website, "crawl_website") <==> site.crawlAllowed)
      && (HasRow(after, site.website, "calculate_scores") <==> site.hasCrawl)
      && (HasRow(after, site.website, "generate_recommendations") <==> site.hasCrawl)
      && (HasRow(after, site.website, "generate_weekly_report") <==> site.hasCrawl)
  {
    forall j | 0 <= j < |JOBS|
      ensures HasRow(ClaimAll(Table(map[], 0), Work(JOBS, sites, now), clock).0, sites[i].website, JOBS[j].name) <==>
        HasWhatItNeeds(JOBS[j].name, sites[i])
    {
      FirstPassOfJob(sites, now, clock, i, j);
    }
    NamesDiffer();
    OtherNamesDiffer();
    hide ClaimAll, Work, HasRow;
    assert JOBS[0].name == "sync_search_console" && JOBS[1].name == "sync_analytics" && JOBS[2].name == "crawl_website";
    assert JOBS[3].name == "calculate_scores" && JOBS[4].name == "generate_recommendations";
    assert JOBS[5].name == "generate_weekly_report";
  }

  lemma OtherNamesDiffer()
    ensures "calculate_scores" !in {"sync_search_console", "sync_analytics", "crawl_website"}
    ensures "generate_recommendations" !in {"sync_search_console", "sync_analytics", "crawl_website"}
    ensures "generate_weekly_report" !in {"sync_search_console", "sync_analytics", "crawl_website"}
  {
    assert |"sync_search_console"| == 19 && |"sync_analytics"| == 14 && |"crawl_website"| == 13;
    assert |"calculate_scores"| == 16 && |"generate_recommendations"| == 24 && |"generate_weekly_report"| == 22;
  }

  lemma {:induction false} FirstPassOfJob(sites: seq<Candidate>, now: int, clock: int, i: nat, j: nat)
    requires forall k :: 0 <= k < |JOBS| ==> JOBS[k].Valid()
    requires i < |sites| && forall k, m :: 0 <= k < m < |sites| ==> sites[k].website != sites[m].website
    requires j < |JOBS|
    ensures HasRow(ClaimAll(Table(map[], 0), Work(JOBS, sites, now), clock).0, sites[i].website, JOBS[j].name) <==>
      HasWhatItNeeds(JOBS[j].name, sites[i])
  {
    var keys, job, website := Work(JOBS, sites, now), JOBS[j], sites[i].website;
    var after := ClaimAll(Table(map[], 0), keys, clock).0;
    hide Work, ClaimAll, Due, JobWork, ClaimRow, HasWhatItNeeds;
    ClaimAllOutcome(Table(map[], 0), keys, clock);
    if HasWhatItNeeds(job.name, sites[i]) {
      var key := Key(website, job.name, Due(job, website.offset, now));
      WorkMembers(JOBS, sites, now, key);
      var id :| id in after.rows && after.rows[id].key == key;
    }
    if HasRow(after, website, job.name) {
      var id :| id in after.rows && after.rows[id].key.website == website && after.rows[id].key.job == job.name;
      AskedForWebsite(sites, now, after.rows[id].key, i, j);
    }
  }

  lemma AskedForWebsite(sites: seq<Candidate>, now: int, key: Key, i: nat, j: nat)
    requires forall k :: 0 <= k < |JOBS| ==> JOBS[k].Valid()
    requires i < |sites| && forall k, m :: 0 <= k < m < |sites| ==> sites[k].website != sites[m].website
    requires j < |JOBS| && key.job == JOBS[j].name && key.website == sites[i].website && key in Work(JOBS, sites, now)
    ensures HasWhatItNeeds(JOBS[j].name, sites[i])
  {
    hide Work, Due, HasWhatItNeeds;
    WorkMembers(JOBS, sites, now, key);
    var k, m :| 0 <= k < |JOBS| && 0 <= m < |sites| && HasWhatItNeeds(JOBS[k].name, sites[m]) &&
      key == Key(sites[m].website, JOBS[k].name, Due(JOBS[k], sites[m].website.offset, now));
    assert m == i;
  }

  // ---- error texts --------------------------------------------------------

  /** How `_guard` words an exception: `f"{type(exc).__name__}: {exc}"`. */
  function Raised(typeName: string, message: string): string {
    typeName + ": " + message
  }

  /** No exception, however worded, can be stored as one of the reaper's two texts. */
  lemma RaisedIsNotReaped(typeName: string, message: string)
    ensures StoredError(Some(Raised(typeName, message))) !in {None, Some(NO_WORKER), Some(NO_REPORT), Some(WEBSITE_GONE)}
  {
    var text := Raised(typeName, message);
    assert text[|typeName|] == ':';
    assert text != "" ;
    assert ':' in text;
    assert forall i :: 0 <= i < |NO_WORKER| ==> NO_WORKER[i] != ':';
    assert forall i :: 0 <= i < |NO_REPORT| ==> NO_REPORT[i] != ':';
    assert forall i :: 0 <= i < |WEBSITE_GONE| ==> WEBSITE_GONE[i] != ':';
    if |text| > MAX_ERROR {
      assert |text[..MAX_ERROR]| == MAX_ERROR;
    }
  }

  // ---- the object the workers share ---------------------------------------

  /** What a job's body does: it raises, or returns a detail that may ask to be a skip. */
  datatype BodyOutcome = Threw(typeName: string, message: string) | Returned(skipped: bool)

  function ClosingStatus(outcome: BodyOutcome): Status {
    match outcome
    case Threw(_, _) => Failed
    case Returned(skipped) => if skipped then Skipped else Succeeded
  }

  function ClosingError(outcome: BodyOutcome): Option<string> {
    match outcome
    case Threw(typeName, message) => Some(Raised(typeName, message))
    case Returned(_) => None
  }

  /** The table after one uninterrupted delivery of a task. */
  function GuardRow(t: Table, id: nat, present: bool, outcome: BodyOutcome, clock: int): Table {
    var (marked, run) := MarkRow(t, id, clock);
    if run.None? then marked
    else if !present then FinishRow(marked, id, Skipped, Some(WEBSITE_GONE), clock)
    else FinishRow(marked, id, ClosingStatus(outcome), ClosingError(outcome), clock)
  }

  class ScheduledRuns {
    var rows: map<nat, Run>
    var nextId: nat
    /** Run ids handed to the broker, oldest first. */
    var queue: seq<nat>

    function Contents(): Table
      reads this
    {
      Table(rows, nextId)
    }

    constructor ()
      ensures Contents() == Table(map[], 0) && queue == []
    {
      rows, nextId, queue := map[], 0, [];
    }

    method Claim(key: Key, clock: int) returns (id: Option<nat>)
      modifies this`rows, this`nextId
      ensures (Contents(), id) == ClaimRow(old(Contents()), key, clock)
      ensures id == if exists other :: other in old(rows) && old(rows)[other].key == key then None else Some(old(nextId))
      ensures rows == if id.None? then old(rows) else old(rows)[old(nextId) := Run(key, Claimed, clock, None, None, None)]
      ensures nextId == old(nextId) + 1
    {
      if Taken(Contents(), key) {
        id := None;
      } else {
        rows := rows[nextId := Run(key, Claimed, clock, None, None, None)];
        id := Some(nextId);
      }
      nextId := nextId + 1;
    }

    method Dispatch(jobs: seq<Job>, sites: seq<Candidate>, now: int, clock: int) returns (claimed: seq<nat>)
      requires forall j :: 0 <= j < |jobs| ==> jobs[j].Valid()
      modifies this
      ensures (Contents(), claimed) == ClaimAll(old(Contents()), Work(jobs, sites, now), clock)
      ensures queue == old(queue) + claimed
    {
      claimed := [];
      assert Work(jobs[..0], sites, now) == [];
      hide Work, JobWork, ClaimAll;
      ghost var start := Contents();
      for j := 0 to |jobs|
        invariant (Contents(), claimed) == ClaimAll(start, Work(jobs[..j], sites, now), clock)
        invariant queue == old(queue) + claimed
      {
        ghost var before, mine := Work(jobs[..j], sites, now), JobWork(jobs[j], sites, now);
        WorkStep(jobs, sites, now, j);
        ClaimAllConcat(start, before, mine, clock);
        var won := DispatchJob(jobs[j], sites, now, clock);
        ConcatAssociates(old(queue), claimed, won);
        claimed := claimed + won;
        assert (Contents(), claimed) == ClaimAll(start, before + mine, clock);
      }
      assert jobs[..|jobs|] == jobs;
    }

    /** The inner loop of a pass: one job over every website. */
    method DispatchJob(job: Job, sites: seq<Candidate>, now: int, clock: int) returns (claimed: seq<nat>)
      requires job.Valid()
      modifies this
      ensures (Contents(), claimed) == ClaimAll(old(Contents()), JobWork(job, sites, now), clock)
      ensures queue == old(queue) + claimed
    {
      claimed := [];
      hide JobWork, ClaimAll, ClaimRow, Due, Eligible;
      ghost var start := Contents();
      NothingToClaim(job, now, start, clock);
      for i := 0 to |sites|
        invariant (Contents(), claimed) == ClaimAll(start, JobWork(job, sites[..i], now), clock)
        invariant queue == old(queue) + claimed
      {
        var site := sites[i];
        JobWorkStep(job, sites, now, i);
        if !Eligible(job, site) {
          continue;
        }
        var windowStart := DueSlot(job, site.website.offset, now);
        if windowStart.None? {
          continue;
        }
        var key := Key(site.website, job.name, windowStart.value);
        ClaimAllStep(start, JobWork(job, sites[..i], now), key, clock);
        ghost var before := (Contents(), claimed);
        assert before == ClaimAll(start, JobWork(job, sites[..i], now), clock);
        var id := Claim(key, clock);
        assert (Contents(), id) == ClaimRow(before.0, key, clock);
        if id.None? {
          continue;
        }
        ConcatAssociates(old(queue), claimed, [id.value]);
        claimed := claimed + [id.value];
        queue := queue + [id.value];
      }
      assert sites[..|sites|] == sites;
    }

    method Reap(now: int, clock: int) returns (count: nat)
      modifies this`rows
      ensures Contents() == ReapRows(old(Contents()), now, clock)
      ensures rows.Keys == old(rows).Keys
      ensures forall id :: id in rows ==>
        var run := old(rows)[id];
        var since := if run.startedAt.Some? then run.startedAt.value else run.claimedAt;
        rows[id] ==
          if run.status == Claimed && since < now - 21_600_000_000 then
            run.(status := Failed, finishedAt := Some(clock), error := Some("no worker picked this up"))
          else if run.status == Running && since < now - 21_600_000_000 then
            run.(status := Failed, finishedAt := Some(clock), error := Some("the worker did not report back"))
          else run
      ensures count == |set id | id in old(rows) && Abandoned(old(rows)[id], now)|
    {
      var gone := set id | id in rows && Abandoned(rows[id], now);
      rows := ReapRows(Contents(), now, clock).rows;
      count := |gone|;
    }

    method MarkRunning(id: nat, clock: int) returns (run: Option<Run>)
      modifies this`rows
      ensures (Contents(), run) == MarkRow(old(Contents()), id, clock)
      ensures run.Some? <==> id in old(rows) && old(rows)[id].status == Claimed
      ensures run.Some? ==> run.value == old(rows)[id].(status := Running, startedAt := Some(clock))
      ensures rows == if run.Some? then old(rows)[id := run.value] else old(rows)
    {
      run := None;
      if id in rows && rows[id].status == Claimed {
        rows := rows[id := rows[id].(status := Running, startedAt := Some(clock))];
        run := Some(rows[id]);
      }
    }

    method Finish(id: nat, status: Status, error: Option<string>, clock: int)
      modifies this`rows
      ensures Contents() == FinishRow(old(Contents()), id, status, error, clock)
      ensures id in old(rows) ==> id in rows && Closed(old(rows)[id], rows[id], status, error, clock)
      ensures rows.Keys == old(rows).Keys && forall other :: other in rows && other != id ==> rows[other] == old(rows)[other]
    {
      if id in rows {
        rows := rows[id := rows[id].(status := status, finishedAt := Some(clock), error := StoredError(error))];
      }
    }

    /** `None` when the task has nothing to do: a redelivery, or a website that is gone. */
    method RunContext(id: nat, present: bool, clock: int) returns (context: Option<Run>)
      modifies this`rows
      ensures context.Some? <==> present && MarkRow(old(Contents()), id, clock).1.Some?
      ensures context.Some? ==> (Contents(), context) == MarkRow(old(Contents()), id, clock)
      ensures context.None? ==> Contents() == GuardRow(old(Contents()), id, present, Returned(false), clock)
    {
      context := MarkRunning(id, clock);
      if context.None? {
        return;
      }
      if !present {
        Finish(id, Skipped, Some(WEBSITE_GONE), clock);
        context := None;
      }
    }

    /** `reported` is the status the task returns; `None` stands for the exception raised again. */
    method Guard(id: nat, present: bool, outcome: BodyOutcome, clock: int) returns (reported: Option<Status>)
      modifies this`rows
      ensures Contents() == GuardRow(old(Contents()), id, present, outcome, clock)
      ensures !(id in old(rows) && old(rows)[id].status == Claimed) ==> rows == old(rows) && reported == Some(Skipped)
      ensures id in old(rows) && old(rows)[id].status == Claimed ==>
        && rows.Keys == old(rows).Keys && (forall other :: other in rows && other != id ==> rows[other] == old(rows)[other])
        && var started := old(rows)[id].(status := Running, startedAt := Some(clock));
           if !present then Closed(started, rows[id], Skipped, Some("website is gone"), clock) && reported == Some(Skipped)
           else match outcome
             case Threw(typeName, message) =>
               Closed(started, rows[id], Failed, Some(typeName + ": " + message), clock) && reported == None
             case Returned(skipped) =>
               var status := if skipped then Skipped else Succeeded;
               Closed(started, rows[id], status, None, clock) && reported == Some(status)
    {
      var context := RunContext(id, present, clock);
      if context.None? {
        return Some(Skipped);
      }
      match outcome {
        case Threw(typeName, message) =>
          Finish(id, Failed, Some(Raised(typeName, message)), clock);
          reported := None;
        case Returned(skipped) =>
          var status := if skipped then Skipped else Succeeded;
          Finish(id, status, None, clock);
          reported := Some(status);
      }
    }
  }
}
