/**
  Every interleaving of dispatchers, deliveries, workers, reapers and crashes
  over one `scheduled_runs` table (api/workers/dispatch.py, jobs.py, app.py).

  Each SQL statement is one action. The broker may deliver any run id, at any
  time, any number of times: that covers redelivery, a Celery retry and a task
  queued twice. A task that is never delivered is one that was lost or expired.
  A dispatcher or a worker may stop between any two of its statements. An action
  whose actor is not at that statement changes nothing, so every sequence of
  actions is a run.
*/
module RunProtocol {
  import opened Prelude
  import opened Schedule
  import opened RunTable

  /** A dispatcher's pass: `work[..done]` has been asked for, `handing` is claimed but not yet queued. */
  datatype Pass = Pass(
    now: int, sites: seq<Candidate>, work: seq<Key>, done: nat,
    handing: Option<nat>, claimed: seq<nat>, alive: bool)
  {
    predicate Completed() {
      alive && done == |work| && handing.None?
    }
  }

  /** Where a delivered task has got to. */
  datatype Worker =
    | Delivered(id: nat)
    | Started(id: nat)
    | InBody(id: nat)
    | Closing(id: nat, status: Status, error: Option<string>)
    | Gone
  {
    /** This worker won the run and has not written its outcome. */
    predicate Holds(run: nat) {
      (Started? || InBody? || Closing?) && id == run
    }
  }

  /**
    The table and its actors, and what has happened so far: the ids queued and
    the bodies begun, in order, who claimed a row, who started it, who wrote its
    outcome, and the clock of the last reap.
  */
  datatype World = World(
    table: Table, clock: int,
    passes: map<nat, Pass>, workers: map<nat, Worker>,
    enqueued: seq<nat>, bodies: seq<nat>,
    claimer: map<nat, nat>, winner: map<nat, nat>, writer: map<nat, nat>,
    reapedAt: Option<int>)

  datatype Action =
    | Advance(delta: nat)
    | StartPass(d: nat, now: int, sites: seq<Candidate>)
    | ClaimNext(d: nat)
    | HandOver(d: nat)
    | KillPass(d: nat)
    | Reap(now: int)
    | Deliver(w: nat, id: nat)
    | TryStart(w: nat)
    | LookUpWebsite(w: nat, present: bool)
    | EndBody(w: nat, outcome: BodyOutcome)
    | WriteOutcome(w: nat)
    | KillWorker(w: nat)

  function Init(clock: int): World {
    World(Table(map[], 0), clock, map[], map[], [], [], map[], map[], map[], None)
  }

  // ---- the dispatcher's statements ----------------------------------------

  /** The work of the nightly schedule. */
  function AllWork(sites: seq<Candidate>, now: int): seq<Key> {
    assert forall j :: 0 <= j < |JOBS| ==> JOBS[j].Valid();
    Work(JOBS, sites, now)
  }

  function StartPassStep(s: World, d: nat, now: int, sites: seq<Candidate>): World {
    if d in s.passes then s else
      s.(passes := s.passes[d := Pass(now, sites, AllWork(sites, now), 0, None, [], true)])
  }

  predicate CanClaim(s: World, d: nat) {
    d in s.passes && s.passes[d].alive && s.passes[d].handing.None? && s.passes[d].done < |s.passes[d].work|
  }

  function ClaimStep(s: World, d: nat): World {
    if CanClaim(s, d) then
      var p := s.passes[d];
      var (table, id) := ClaimRow(s.table, p.work[p.done], s.clock);
      if id.None? then
        s.(table := table, passes := s.passes[d := p.(done := p.done + 1)])
      else
        s.(table := table, claimer := s.claimer[id.value := d],
           passes := s.passes[d := p.(done := p.done + 1, handing := id, claimed := p.claimed + [id.value])])
    else s
  }

  function HandOverStep(s: World, d: nat): World {
    if d in s.passes && s.passes[d].alive && s.passes[d].handing.Some? then
      s.(enqueued := s.enqueued + [s.passes[d].handing.value],
         passes := s.passes[d := s.passes[d].(handing := None)])
    else s
  }

  function KillPassStep(s: World, d: nat): World {
    if d in s.passes then
      s.(passes := s.passes[d := s.passes[d].(alive := false, handing := None)])
    else s
  }

  function ReapStep(s: World, now: int): World {
    if now <= s.clock then
      s.(table := ReapRows(s.table, now, s.clock), reapedAt := Some(now))
    else s
  }

  // ---- a worker's statements ----------------------------------------------

  function DeliverStep(s: World, w: nat, id: nat): World {
    if w in s.workers then s else s.(workers := s.workers[w := Delivered(id)])
  }

  function TryStartStep(s: World, w: nat): World {
    if w in s.workers && s.workers[w].Delivered? then
      var id := s.workers[w].id;
      var (table, run) := MarkRow(s.table, id, s.clock);
      if run.None? then
        s.(workers := s.workers[w := Gone])
      else
        s.(table := table, workers := s.workers[w := Started(id)], winner := s.winner[id := w])
    else s
  }

  function LookUpStep(s: World, w: nat, present: bool): World {
    if w in s.workers && s.workers[w].Started? then
      var id := s.workers[w].id;
      if present then
        s.(workers := s.workers[w := InBody(id)], bodies := s.bodies + [id])
      else
        s.(workers := s.workers[w := Closing(id, Skipped, Some(WEBSITE_GONE))])
    else s
  }

  function EndBodyStep(s: World, w: nat, outcome: BodyOutcome): World {
    if w in s.workers && s.workers[w].InBody? then
      s.(workers := s.workers[w := Closing(s.workers[w].id, ClosingStatus(outcome), ClosingError(outcome))])
    else s
  }

  function WriteStep(s: World, w: nat): World {
    if w in s.workers && s.workers[w].Closing? then
      var c := s.workers[w];
      s.(table := FinishRow(s.table, c.id, c.status, c.error, s.clock),
         workers := s.workers[w := Gone], writer := s.writer[c.id := w])
    else s
  }

  function KillWorkerStep(s: World, w: nat): World {
    if w in s.workers then s.(workers := s.workers[w := Gone]) else s
  }

  function Apply(s: World, a: Action): World {
    match a
    case Advance(delta) => s.(clock := s.clock + delta)
    case StartPass(d, now, sites) => StartPassStep(s, d, now, sites)
    case ClaimNext(d) => ClaimStep(s, d)
    case HandOver(d) => HandOverStep(s, d)
    case KillPass(d) => KillPassStep(s, d)
    case Reap(now) => ReapStep(s, now)
    case Deliver(w, id) => DeliverStep(s, w, id)
    case TryStart(w) => TryStartStep(s, w)
    case LookUpWebsite(w, present) => LookUpStep(s, w, present)
    case EndBody(w, outcome) => EndBodyStep(s, w, outcome)
    case WriteOutcome(w) => WriteStep(s, w)
    case KillWorker(w) => KillWorkerStep(s, w)
  }

  function After(s: World, actions: seq<Action>): World {
    if actions == [] then s else Apply(After(s, actions[..|actions| - 1]), actions[|actions| - 1])
  }

  // ---- the invariant ------------------------------------------------------

  /** What an outcome can be, given whether the body began. */
  ghost predicate OutcomeOk(status: Status, error: Option<string>, ran: bool) {
    match status
    case Succeeded => ran && error.None?
    case Skipped => error in {None, Some(WEBSITE_GONE)}
    case Failed => error !in {Some(NO_WORKER), Some(NO_REPORT)}
    case _ => false
  }

  /** What a row says, given whether its run was started, its outcome written, its body begun. */
  ghost predicate RowOk(r: Run, started: bool, written: bool, ran: bool) {
    && (r.startedAt.Some? <==> started)
    && if written then OutcomeOk(r.status, r.error, ran)
       else if started then (r.status, r.error) in {(Running, None), (Failed, Some(NO_REPORT))}
       else (r.status, r.error) in {(Claimed, None), (Failed, Some(NO_WORKER))}
  }

  ghost predicate RowsOk(rows: map<nat, Run>, winner: map<nat, nat>, writer: map<nat, nat>, bodies: seq<nat>) {
    forall id :: id in rows ==> RowOk(rows[id], id in winner, id in writer, id in bodies)
  }

  ghost predicate TableOk(t: Table) {
    && (forall id :: id in t.rows ==> id < t.nextId)
    && (forall i, j :: i in t.rows && j in t.rows && t.rows[i].key == t.rows[j].key ==> i == j)
  }

  /** No live row is older than the last reap allows. */
  ghost predicate FreshRow(r: Run, clock: int, reapedAt: Option<int>) {
    && r.claimedAt <= clock
    && (r.startedAt.Some? ==> r.startedAt.value <= clock)
    && (reapedAt.Some? && r.Live() ==> reapedAt.value - LEASE <= r.Since())
  }

  ghost predicate FreshOk(rows: map<nat, Run>, clock: int, reapedAt: Option<int>) {
    && (forall id :: id in rows ==> FreshRow(rows[id], clock, reapedAt))
    && (reapedAt.Some? ==> reapedAt.value <= clock)
  }

  /** A worker that holds a run won it, alone, and has written nothing yet. */
  ghost predicate WorkerOk(k: Worker, w: nat, winner: map<nat, nat>, writer: map<nat, nat>, bodies: seq<nat>) {
    k.Started? || k.InBody? || k.Closing? ==>
      && k.id in winner && winner[k.id] == w && k.id !in writer
      && (k.Started? ==> k.id !in bodies)
      && (k.InBody? ==> k.id in bodies)
      && (k.Closing? ==> OutcomeOk(k.status, StoredError(k.error), k.id in bodies))
  }

  ghost predicate WorkersOk(workers: map<nat, Worker>, winner: map<nat, nat>, writer: map<nat, nat>, bodies: seq<nat>) {
    && (forall w :: w in workers ==> WorkerOk(workers[w], w, winner, writer, bodies))
    && (forall id :: id in winner ==> winner[id] in workers)
  }

  ghost predicate HistoryOk(ids: set<nat>, winner: map<nat, nat>, writer: map<nat, nat>, bodies: seq<nat>) {
    && winner.Keys <= ids
    && (forall id :: id in writer ==> id in winner && writer[id] == winner[id])
    && (forall id :: id in bodies ==> id in winner)
    && NoDuplicates(bodies)
  }

  ghost predicate PassOk(p: Pass, d: nat, claimer: map<nat, nat>, enqueued: seq<nat>) {
    && p.done <= |p.work|
    && NoDuplicates(p.claimed)
    && (forall id :: id in p.claimed ==> id in claimer && claimer[id] == d)
    && (p.handing.Some? ==> p.handing.value in p.claimed && p.handing.value !in enqueued)
  }

  ghost predicate PassesOk(ids: set<nat>, passes: map<nat, Pass>, claimer: map<nat, nat>, enqueued: seq<nat>) {
    && claimer.Keys == ids
    && (forall d :: d in passes ==> PassOk(passes[d], d, claimer, enqueued))
    && (forall id :: id in enqueued ==> id in claimer)
    && NoDuplicates(enqueued)
  }

  /** The keys a pass has asked for so far. */
  ghost predicate Asked(p: Pass, key: Key) {
    p.done <= |p.work| && key in p.work[..p.done]
  }

  /** The keys of the table are exactly the keys asked for. */
  ghost predicate AskedOk(rows: map<nat, Run>, passes: map<nat, Pass>, claimer: map<nat, nat>) {
    && (forall id :: id in rows && id in claimer ==> claimer[id] in passes && Asked(passes[claimer[id]], rows[id].key))
    && (forall d, key :: d in passes && Asked(passes[d], key) ==> exists id :: id in rows && rows[id].key == key)
  }

  ghost predicate Inv(s: World) {
    && TableOk(s.table)
    && RowsOk(s.table.rows, s.winner, s.writer, s.bodies)
    && FreshOk(s.table.rows, s.clock, s.reapedAt)
    && WorkersOk(s.workers, s.winner, s.writer, s.bodies)
    && HistoryOk(s.table.rows.Keys, s.winner, s.writer, s.bodies)
    && PassesOk(s.table.rows.Keys, s.passes, s.claimer, s.enqueued)
    && AskedOk(s.table.rows, s.passes, s.claimer)
  }

  // ---- each statement keeps it --------------------------------------------

  /** Rewriting rows without their keys, or passes without their work, keeps what has been asked. */
  lemma SameKeysKeep(
    rows: map<nat, Run>, rows': map<nat, Run>, passes: map<nat, Pass>, passes': map<nat, Pass>, claimer: map<nat, nat>)
    requires rows'.Keys == rows.Keys && forall id :: id in rows ==> rows'[id].key == rows[id].key
    requires passes'.Keys == passes.Keys
    requires forall d :: d in passes ==> passes'[d].work == passes[d].work && passes'[d].done == passes[d].done
    requires AskedOk(rows, passes, claimer)
    ensures AskedOk(rows', passes', claimer)
  {
    forall d, key | d in passes' && Asked(passes'[d], key)
      ensures exists id :: id in rows' && rows'[id].key == key
    {
      assert Asked(passes[d], key);
      var id :| id in rows && rows[id].key == key;
      assert rows'[id].key == key;
    }
    forall id | id in rows' && id in claimer
      ensures claimer[id] in passes' && Asked(passes'[claimer[id]], rows'[id].key)
    {
      assert Asked(passes[claimer[id]], rows[id].key);
    }
  }

  lemma NewPassAsksNothing(rows: map<nat, Run>, passes: map<nat, Pass>, claimer: map<nat, nat>, d: nat, p: Pass)
    requires AskedOk(rows, passes, claimer) && d !in passes && p.done == 0
    ensures AskedOk(rows, passes[d := p], claimer)
  {
    var passes' := passes[d := p];
    forall e, key | e in passes' && Asked(passes'[e], key)
      ensures exists id :: id in rows && rows[id].key == key
    {
      assert e in passes && Asked(passes[e], key);
    }
  }

  lemma StartPassKeeps(s: World, d: nat, now: int, sites: seq<Candidate>)
    requires Inv(s)
    ensures Inv(StartPassStep(s, d, now, sites))
  {
    hide AllWork, TableOk, RowsOk, FreshOk, WorkersOk, HistoryOk, AskedOk;
    if d !in s.passes {
      NewPassAsksNothing(s.table.rows, s.passes, s.claimer, d, Pass(now, sites, AllWork(sites, now), 0, None, [], true));
    }
  }

  lemma AskedHasRow(rows: map<nat, Run>, rows': map<nat, Run>, passes: map<nat, Pass>, claimer: map<nat, nat>, d: nat, key: Key)
    requires AskedOk(rows, passes, claimer) && d in passes && Asked(passes[d], key)
    requires forall id :: id in rows ==> id in rows' && rows'[id] == rows[id]
    ensures exists id :: id in rows' && rows'[id].key == key
  {
    var id :| id in rows && rows[id].key == key;
    assert rows'[id].key == key;
  }

  /** A pass moves past the next key of its work, whose row now exists; `id` is that row if it is new. */
  lemma AskedGrows(rows: map<nat, Run>, rows': map<nat, Run>, passes: map<nat, Pass>, passes': map<nat, Pass>,
      claimer: map<nat, nat>, claimer': map<nat, nat>, d: nat, key: Key)
    requires AskedOk(rows, passes, claimer) && claimer.Keys == rows.Keys
    requires d in passes && passes[d].done < |passes[d].work| && key == passes[d].work[passes[d].done]
    requires d in passes' && passes' == passes[d := passes'[d]]
    requires passes'[d].work == passes[d].work && passes'[d].done == passes[d].done + 1
    requires forall id :: id in rows ==> id in rows' && rows'[id] == rows[id]
    requires exists id :: id in rows' && rows'[id].key == key
    requires forall id :: id in rows' && id !in rows ==> rows'[id].key == key && id in claimer' && claimer'[id] == d
    requires forall id :: id in claimer ==> id in claimer' && claimer'[id] == claimer[id]
    ensures AskedOk(rows', passes', claimer')
  {
    hide NoDuplicates;
    var p, p' := passes[d], passes'[d];
    assert p.work[..p.done + 1] == p.work[..p.done] + [key];
    assert forall k :: Asked(p', k) <==> p.done <= |p.work| && (Asked(p, k) || k == key);
    forall e, k | e in passes' && Asked(passes'[e], k)
      ensures exists id :: id in rows' && rows'[id].key == k
    {
      if k != key {
        AskedHasRow(rows, rows', passes, claimer, e, k);
      }
    }
    forall id | id in rows' && id in claimer'
      ensures claimer'[id] in passes' && Asked(passes'[claimer'[id]], rows'[id].key)
    {
      if id in rows {
        assert Asked(passes[claimer[id]], rows[id].key);
      }
    }
  }

  lemma ClaimTakenKeeps(s: World, d: nat)
    requires Inv(s) && CanClaim(s, d) && Taken(s.table, s.passes[d].work[s.passes[d].done])
    ensures Inv(ClaimStep(s, d))
  {
    hide RowsOk, FreshOk, WorkersOk, HistoryOk, AskedOk;
    var t := ClaimStep(s, d);
    assert t.table.rows == s.table.rows;
    AskedGrows(s.table.rows, t.table.rows, s.passes, t.passes, s.claimer, t.claimer, d, s.passes[d].work[s.passes[d].done]);
  }

  lemma NewRowKeeps(s: World, id: nat, run: Run)
    requires Inv(s) && id !in s.table.rows
    requires run.status.Claimed? && run.claimedAt == s.clock && run.startedAt.None? && run.error.None?
    ensures var rows := s.table.rows[id := run];
      && RowsOk(rows, s.winner, s.writer, s.bodies)
      && FreshOk(rows, s.clock, s.reapedAt)
      && HistoryOk(rows.Keys, s.winner, s.writer, s.bodies)
  {
    hide TableOk, WorkersOk, PassesOk, AskedOk, OutcomeOk;
  }

  lemma NewPassesKeep(ids: set<nat>, passes: map<nat, Pass>, claimer: map<nat, nat>, enqueued: seq<nat>, d: nat, id: nat)
    requires PassesOk(ids, passes, claimer, enqueued)
    requires id !in ids && d in passes && passes[d].done < |passes[d].work|
    ensures var p := passes[d];
      PassesOk(ids + {id}, passes[d := p.(done := p.done + 1, handing := Some(id), claimed := p.claimed + [id])],
        claimer[id := d], enqueued)
  {
    var p := passes[d];
    NoDuplicatesConcat(p.claimed, [id]);
    assert claimer[id := d].Keys == ids + {id};
  }

  lemma ClaimersAreRows(s: World)
    requires Inv(s)
    ensures s.claimer.Keys == s.table.rows.Keys
  {
  }

  lemma ClaimNewKeeps(s: World, d: nat)
    requires Inv(s) && CanClaim(s, d) && !Taken(s.table, s.passes[d].work[s.passes[d].done])
    ensures Inv(ClaimStep(s, d))
  {
    hide RowsOk, FreshOk, WorkersOk, HistoryOk, AskedOk, PassesOk;
    var t := ClaimStep(s, d);
    var key := s.passes[d].work[s.passes[d].done];
    var id := s.table.nextId;
    assert id !in s.table.rows;
    NewRowKeeps(s, id, t.table.rows[id]);
    assert s.claimer.Keys == s.table.rows.Keys by { ClaimersAreRows(s); }
    assert t.table.rows[id].key == key;
    AskedGrows(s.table.rows, t.table.rows, s.passes, t.passes, s.claimer, t.claimer, d, key);
    NewPassesKeep(s.table.rows.Keys, s.passes, s.claimer, s.enqueued, d, id);
    assert t.table.rows.Keys == s.table.rows.Keys + {id};
  }

  lemma ClaimKeeps(s: World, d: nat)
    requires Inv(s)
    ensures Inv(ClaimStep(s, d))
  {
    hide Inv;
    if CanClaim(s, d) {
      if Taken(s.table, s.passes[d].work[s.passes[d].done]) {
        ClaimTakenKeeps(s, d);
      } else {
        ClaimNewKeeps(s, d);
      }
    }
  }

  lemma HandedPassesOk(ids: set<nat>, passes: map<nat, Pass>, claimer: map<nat, nat>, enqueued: seq<nat>, d: nat)
    requires PassesOk(ids, passes, claimer, enqueued)
    requires d in passes && passes[d].handing.Some?
    ensures PassesOk(ids, passes[d := passes[d].(handing := None)], claimer, enqueued + [passes[d].handing.value])
  {
    NoDuplicatesConcat(enqueued, [passes[d].handing.value]);
    hide NoDuplicates;
  }

  lemma HandOverKeeps(s: World, d: nat)
    requires Inv(s)
    ensures Inv(HandOverStep(s, d))
  {
    hide TableOk, RowsOk, FreshOk, WorkersOk, HistoryOk, AskedOk, PassesOk;
    if d in s.passes && s.passes[d].alive && s.passes[d].handing.Some? {
      SameKeysKeep(s.table.rows, s.table.rows, s.passes, HandOverStep(s, d).passes, s.claimer);
      HandedPassesOk(s.table.rows.Keys, s.passes, s.claimer, s.enqueued, d);
    }
  }

  lemma KillPassKeeps(s: World, d: nat)
    requires Inv(s)
    ensures Inv(KillPassStep(s, d))
  {
    hide TableOk, RowsOk, FreshOk, WorkersOk, HistoryOk, AskedOk, NoDuplicates;
    SameKeysKeep(s.table.rows, s.table.rows, s.passes, KillPassStep(s, d).passes, s.claimer);
  }

  lemma OutcomeIsFinal(status: Status, error: Option<string>, ran: bool)
    requires OutcomeOk(status, error, ran)
    ensures status in {Succeeded, Skipped, Failed}
  {
  }

  lemma ReapRowsKeep(rows: map<nat, Run>, t: Table, now: int, clock: int,
      winner: map<nat, nat>, writer: map<nat, nat>, bodies: seq<nat>)
    requires RowsOk(t.rows, winner, writer, bodies) && rows == ReapRows(t, now, clock).rows
    ensures RowsOk(rows, winner, writer, bodies)
  {
    hide OutcomeOk;
    forall id | id in rows
      ensures RowOk(rows[id], id in winner, id in writer, id in bodies)
    {
      var r := t.rows[id];
      if id in writer { OutcomeIsFinal(r.status, r.error, id in bodies); }
    }
  }

  lemma ReapKeeps(s: World, now: int)
    requires Inv(s)
    ensures Inv(ReapStep(s, now))
  {
    hide WorkersOk, PassesOk, AskedOk, RowOk, HistoryOk, RowsOk;
    var t := ReapStep(s, now);
    SameKeysKeep(s.table.rows, t.table.rows, s.passes, s.passes, s.claimer);
    assert t.table.rows.Keys == s.table.rows.Keys;
    if now <= s.clock {
      ReapRowsKeep(t.table.rows, s.table, now, s.clock, s.winner, s.writer, s.bodies);
    }
  }

  lemma DeliverKeeps(s: World, w: nat, id: nat)
    requires Inv(s)
    ensures Inv(DeliverStep(s, w, id))
  {
    hide TableOk, RowsOk, FreshOk, HistoryOk, PassesOk, AskedOk, OutcomeOk;
  }

  /** Rewriting one row without its key. */
  lemma OneRowKeeps(s: World, id: nat, r: Run)
    requires Inv(s) && id in s.table.rows && r.key == s.table.rows[id].key
    ensures var t := s.table.(rows := s.table.rows[id := r]);
      && TableOk(t)
      && t.rows.Keys == s.table.rows.Keys
      && AskedOk(t.rows, s.passes, s.claimer)
      && (FreshRow(r, s.clock, s.reapedAt) ==> FreshOk(t.rows, s.clock, s.reapedAt))
  {
    hide WorkersOk, PassesOk, AskedOk, RowsOk, HistoryOk, FreshRow;
    var t := s.table.(rows := s.table.rows[id := r]);
    assert t.rows.Keys == s.table.rows.Keys;
    SameKeysKeep(s.table.rows, t.rows, s.passes, s.passes, s.claimer);
  }

  /** A claimed row has no winner and no writer, and nobody is working on it. */
  lemma ClaimedIsUntouched(s: World, id: nat)
    requires Inv(s) && id in s.table.rows && s.table.rows[id].status == Claimed
    ensures id !in s.winner && id !in s.writer && s.table.rows[id].error.None?
  {
    hide WorkersOk, PassesOk, AskedOk, TableOk, FreshOk;
  }

  lemma FreshIfStartedNow(s: World, id: nat)
    requires Inv(s) && id in s.table.rows
    ensures FreshRow(s.table.rows[id].(status := Running, startedAt := Some(s.clock)), s.clock, s.reapedAt)
  {
    hide WorkersOk, PassesOk, AskedOk, TableOk, RowsOk, HistoryOk;
  }

  lemma WonRowsOk(rows: map<nat, Run>, winner: map<nat, nat>, writer: map<nat, nat>, bodies: seq<nat>, w: nat, id: nat, clock: int)
    requires RowsOk(rows, winner, writer, bodies)
    requires id in rows && id !in winner && id !in writer && rows[id].error.None?
    ensures RowsOk(rows[id := rows[id].(status := Running, startedAt := Some(clock))], winner[id := w], writer, bodies)
  {
    hide OutcomeOk;
  }

  lemma WonRowKeeps(s: World, w: nat, id: nat)
    requires Inv(s) && id in s.table.rows && id !in s.winner && id !in s.writer && w in s.workers && s.workers[w].Delivered?
    ensures WorkersOk(s.workers[w := Started(id)], s.winner[id := w], s.writer, s.bodies)
    ensures HistoryOk(s.table.rows.Keys, s.winner[id := w], s.writer, s.bodies)
  {
    hide PassesOk, AskedOk, TableOk, FreshOk, RowsOk, OutcomeOk, NoDuplicates;
  }

  lemma TryStartKeeps(s: World, w: nat)
    requires Inv(s)
    ensures Inv(TryStartStep(s, w))
  {
    hide TableOk, RowsOk, FreshOk, WorkersOk, HistoryOk, PassesOk, AskedOk, FreshRow, OutcomeOk;
    if w in s.workers && s.workers[w].Delivered? {
      var id := s.workers[w].id;
      if id in s.table.rows && s.table.rows[id].status == Claimed {
        ClaimedIsUntouched(s, id);
        var r := s.table.rows[id].(status := Running, startedAt := Some(s.clock));
        FreshIfStartedNow(s, id);
        OneRowKeeps(s, id, r);
        WonRowKeeps(s, w, id);
        WonRowsOk(s.table.rows, s.winner, s.writer, s.bodies, w, id, s.clock);
      } else {
        KillWorkerKeeps(s, w);
      }
    }
  }

  lemma LookUpKeeps(s: World, w: nat, present: bool)
    requires Inv(s)
    ensures Inv(LookUpStep(s, w, present))
  {
    hide TableOk, FreshOk, PassesOk, AskedOk;
  }

  lemma EndBodyKeeps(s: World, w: nat, outcome: BodyOutcome)
    requires Inv(s)
    ensures Inv(EndBodyStep(s, w, outcome))
  {
    hide TableOk, RowsOk, FreshOk, HistoryOk, PassesOk, AskedOk;
    if outcome.Threw? {
      RaisedIsNotReaped(outcome.typeName, outcome.message);
    }
  }

  lemma WrittenRowKeeps(s: World, w: nat, rows: map<nat, Run>)
    requires Inv(s) && w in s.workers && s.workers[w].Closing? && s.workers[w].id in s.table.rows
    requires var c := s.workers[w];
      rows == s.table.rows[c.id := s.table.rows[c.id].(status := c.status, finishedAt := Some(s.clock), error := StoredError(c.error))]
    ensures var c := s.workers[w];
      && RowsOk(rows, s.winner, s.writer[c.id := w], s.bodies)
      && WorkersOk(s.workers[w := Gone], s.winner, s.writer[c.id := w], s.bodies)
      && HistoryOk(s.table.rows.Keys, s.winner, s.writer[c.id := w], s.bodies)
  {
    hide PassesOk, AskedOk, TableOk, FreshOk, OutcomeOk, NoDuplicates;
  }

  /** A worker about to write holds a row that exists, with an outcome that is final. */
  lemma ClosingHoldsRow(s: World, w: nat)
    requires Inv(s) && w in s.workers && s.workers[w].Closing?
    ensures var c := s.workers[w];
      && c.id in s.table.rows && c.id in s.winner && s.winner[c.id] == w && c.id !in s.writer
      && c.status in {Succeeded, Skipped, Failed} && OutcomeOk(c.status, StoredError(c.error), c.id in s.bodies)
      && FreshRow(s.table.rows[c.id].(status := c.status, finishedAt := Some(s.clock), error := StoredError(c.error)), s.clock, s.reapedAt)
  {
    hide PassesOk, AskedOk, TableOk, RowsOk, OutcomeOk, NoDuplicates;
    var c := s.workers[w];
    assert WorkerOk(c, w, s.winner, s.writer, s.bodies);
    OutcomeIsFinal(c.status, StoredError(c.error), c.id in s.bodies);
  }

  lemma WriteKeeps(s: World, w: nat)
    requires Inv(s)
    ensures Inv(WriteStep(s, w))
  {
    hide TableOk, RowsOk, FreshOk, WorkersOk, HistoryOk, PassesOk, AskedOk, FreshRow, OutcomeOk;
    if w in s.workers && s.workers[w].Closing? {
      var c := s.workers[w];
      ClosingHoldsRow(s, w);
      var r := s.table.rows[c.id].(status := c.status, finishedAt := Some(s.clock), error := StoredError(c.error));
      OneRowKeeps(s, c.id, r);
      WrittenRowKeeps(s, w, s.table.rows[c.id := r]);
    }
  }

  lemma KillWorkerKeeps(s: World, w: nat)
    requires Inv(s)
    ensures Inv(KillWorkerStep(s, w))
  {
  }

  lemma AdvanceKeeps(s: World, delta: nat)
    requires Inv(s)
    ensures Inv(s.(clock := s.clock + delta))
  {
  }

  lemma {:induction false} ApplyKeeps(s: World, a: Action)
    requires Inv(s)
    ensures Inv(Apply(s, a))
  {
    hide Inv;
    match a
    case Advance(delta) => AdvanceKeeps(s, delta);
    case StartPass(d, now, sites) => StartPassKeeps(s, d, now, sites);
    case ClaimNext(d) => ClaimKeeps(s, d);
    case HandOver(d) => HandOverKeeps(s, d);
    case KillPass(d) => KillPassKeeps(s, d);
    case Reap(now) => ReapKeeps(s, now);
    case Deliver(w, id) => DeliverKeeps(s, w, id);
    case TryStart(w) => TryStartKeeps(s, w);
    case LookUpWebsite(w, present) => LookUpKeeps(s, w, present);
    case EndBody(w, outcome) => EndBodyKeeps(s, w, outcome);
    case WriteOutcome(w) => WriteKeeps(s, w);
    case KillWorker(w) => KillWorkerKeeps(s, w);
  }

  /** Every state that any sequence of actions reaches satisfies the invariant. */
  lemma {:induction false} ReachableOk(clock: int, actions: seq<Action>)
    ensures Inv(After(Init(clock), actions))
  {
    hide Inv;
    if actions == [] {
      InitOk(clock);
    } else {
      var init := actions[..|actions| - 1];
      ReachableOk(clock, init);
      ApplyKeeps(After(Init(clock), init), actions[|actions| - 1]);
    }
  }

  lemma InitOk(clock: int)
    ensures Inv(Init(clock))
  {
  }

  // ---- the main results ---------------------------------------------------

  /**
    Under every interleaving: a job's body begins at most once per (website, job,
    window), each row is handed to the queue at most once, and a row that reads
    `succeeded` was written by the one worker that won the run and ran its body.
  */
  lemma {:induction false} AtMostOnce(clock: int, actions: seq<Action>)
    ensures var s := After(Init(clock), actions);
      && (forall i, j :: 0 <= i < j < |s.bodies| ==>
            s.bodies[i] in s.table.rows && s.bodies[j] in s.table.rows &&
            s.table.rows[s.bodies[i]].key != s.table.rows[s.bodies[j]].key)
      && NoDuplicates(s.enqueued)
      && (forall id :: id in s.table.rows && s.table.rows[id].status == Succeeded ==>
            id in s.bodies && id in s.writer && id in s.winner && s.writer[id] == s.winner[id])
  {
    ReachableOk(clock, actions);
    hide After, WorkersOk, FreshOk, AskedOk;
    var s := After(Init(clock), actions);
    forall i, j | 0 <= i < j < |s.bodies|
      ensures s.bodies[i] in s.table.rows && s.bodies[j] in s.table.rows
      ensures s.table.rows[s.bodies[i]].key != s.table.rows[s.bodies[j]].key
    {
      BodiesApart(s, i, j);
    }
    forall id | id in s.table.rows && s.table.rows[id].status == Succeeded
      ensures id in s.bodies && id in s.writer && id in s.winner && s.writer[id] == s.winner[id]
    {
      assert RowOk(s.table.rows[id], id in s.winner, id in s.writer, id in s.bodies);
    }
  }

  lemma BodiesApart(s: World, i: nat, j: nat)
    requires Inv(s) && i < j < |s.bodies|
    ensures s.bodies[i] in s.table.rows && s.bodies[j] in s.table.rows
    ensures s.table.rows[s.bodies[i]].key != s.table.rows[s.bodies[j]].key
  {
    hide WorkersOk, FreshOk, AskedOk, PassesOk, RowsOk;
    assert s.bodies[i] in s.bodies && s.bodies[j] in s.bodies;
    assert s.bodies[i] != s.bodies[j];
  }

  /** Two passes never both win a row, however they overlap. */
  lemma {:induction false} ClaimListsDisjoint(clock: int, actions: seq<Action>, d: nat, e: nat)
    requires d != e
    ensures var s := After(Init(clock), actions);
      d in s.passes && e in s.passes ==>
        NoDuplicates(s.passes[d].claimed) && forall id :: id in s.passes[d].claimed ==> id !in s.passes[e].claimed
  {
    ReachableOk(clock, actions);
    hide After, WorkersOk, FreshOk, AskedOk, RowsOk, TableOk;
  }

  /** A row is never deleted, keeps its key, and once it has left `claimed` does not return to it. */
  ghost predicate Forward(s: World, t: World, id: nat)
    requires id in s.table.rows
  {
    && id in t.table.rows && t.table.rows[id].key == s.table.rows[id].key
    && (t.table.rows[id].status == Claimed ==> s.table.rows[id].status == Claimed)
    && (id in s.winner ==> id in t.winner && t.winner[id] == s.winner[id])
  }

  lemma StepForward(s: World, a: Action, id: nat)
    requires Inv(s) && id in s.table.rows
    ensures Forward(s, Apply(s, a), id)
  {
    hide Inv, Apply, Forward;
    match a
    case TryStart(w) => TryStartForward(s, w, id);
    case WriteOutcome(w) => WriteForward(s, w, id);
    case ClaimNext(d) => ClaimForward(s, d, id);
    case Reap(now) => ReapForward(s, now, id);
    case _ => QuietForward(s, a, id);
  }

  /** The other actions leave the rows and their winners alone. */
  lemma QuietForward(s: World, a: Action, id: nat)
    requires id in s.table.rows && !a.TryStart? && !a.WriteOutcome? && !a.ClaimNext? && !a.Reap?
    ensures Forward(s, Apply(s, a), id)
  {
    hide AllWork;
  }

  lemma ReapForward(s: World, now: int, id: nat)
    requires id in s.table.rows
    ensures Forward(s, Apply(s, Reap(now)), id)
  {
  }

  lemma TryStartForward(s: World, w: nat, id: nat)
    requires Inv(s) && id in s.table.rows
    ensures Forward(s, Apply(s, TryStart(w)), id)
  {
    hide WorkersOk, FreshOk, AskedOk, RowsOk, AllWork, Taken, HistoryOk, PassesOk, TableOk, StoredError;
    if w in s.workers && s.workers[w].Delivered? && s.workers[w].id in s.table.rows
       && s.table.rows[s.workers[w].id].status == Claimed {
      ClaimedIsUntouched(s, s.workers[w].id);
    }
  }

  lemma WriteForward(s: World, w: nat, id: nat)
    requires Inv(s) && id in s.table.rows
    ensures Forward(s, Apply(s, WriteOutcome(w)), id)
  {
    hide WorkersOk, FreshOk, AskedOk, RowsOk, AllWork, Taken, HistoryOk, PassesOk, TableOk, StoredError;
    if w in s.workers && s.workers[w].Closing? { ClosingHoldsRow(s, w); }
  }

  lemma ClaimForward(s: World, d: nat, id: nat)
    requires Inv(s) && id in s.table.rows
    ensures Forward(s, Apply(s, ClaimNext(d)), id)
  {
    hide WorkersOk, FreshOk, AskedOk, RowsOk, AllWork, Taken, HistoryOk, PassesOk, TableOk, StoredError;
    IdsAreUsed(s, id);
  }

  lemma IdsAreUsed(s: World, id: nat)
    requires Inv(s) && id in s.table.rows
    ensures id < s.table.nextId
  {
    hide WorkersOk, FreshOk, AskedOk, RowsOk, HistoryOk, PassesOk;
  }

  /** Whatever happens after: no row disappears, returns to `claimed` or changes its winner. */
  lemma {:induction false} RowsOnlyMoveForward(clock: int, actions: seq<Action>, later: seq<Action>, id: nat)
    ensures var s := After(Init(clock), actions);
      id in s.table.rows ==> Forward(s, After(s, later), id)
  {
    var s := After(Init(clock), actions);
    if id in s.table.rows {
      if later != [] {
        var init := later[..|later| - 1];
        RowsOnlyMoveForward(clock, actions, init, id);
        LaterOk(clock, actions, init);
        hide Inv;
        StepForward(After(s, init), later[|later| - 1], id);
      }
    }
  }

  lemma {:induction false} LaterOk(clock: int, actions: seq<Action>, later: seq<Action>)
    ensures Inv(After(After(Init(clock), actions), later))
  {
    hide Inv;
    if later == [] {
      ReachableOk(clock, actions);
    } else {
      var init := later[..|later| - 1];
      LaterOk(clock, actions, init);
      ApplyKeeps(After(After(Init(clock), actions), init), later[|later| - 1]);
    }
  }

  /**
    Terminal rows are not absorbing, and this is exactly when one changes: the
    worker that won the run comes back after the reaper gave up on it.
  */
  lemma {:induction false} TerminalRowChanges(clock: int, actions: seq<Action>, a: Action, id: nat)
    ensures var s := After(Init(clock), actions);
      id in s.table.rows && !s.table.rows[id].Live() ==>
        (Apply(s, a).table.rows[id] != s.table.rows[id] <==>
          a.WriteOutcome? && a.w in s.workers && s.workers[a.w].Closing? && s.workers[a.w].id == id)
    ensures var s := After(Init(clock), actions);
      a.WriteOutcome? && a.w in s.workers && s.workers[a.w].Closing? ==>
        s.workers[a.w].id in s.table.rows &&
        var r := s.table.rows[s.workers[a.w].id];
        (r.status, r.error) in {(Running, None), (Failed, Some(NO_REPORT))}
  {
    ReachableOk(clock, actions);
    var s := After(Init(clock), actions);
    TerminalRowStep(s, a, id);
  }

  lemma RowBeforeOutcome(s: World, w: nat)
    requires Inv(s) && w in s.workers && s.workers[w].Closing?
    ensures s.workers[w].id in s.table.rows
    ensures var r := s.table.rows[s.workers[w].id];
      (r.status, r.error) in {(Running, None), (Failed, Some(NO_REPORT))}
  {
    ClosingHoldsRow(s, w);
    hide WorkersOk, FreshOk, AskedOk, PassesOk, TableOk, HistoryOk, OutcomeOk;
    var id := s.workers[w].id;
    assert RowOk(s.table.rows[id], id in s.winner, id in s.writer, id in s.bodies);
  }

  lemma TerminalRowStep(s: World, a: Action, id: nat)
    requires Inv(s)
    ensures id in s.table.rows && !s.table.rows[id].Live() ==>
      id in Apply(s, a).table.rows &&
      (Apply(s, a).table.rows[id] != s.table.rows[id] <==>
        a.WriteOutcome? && a.w in s.workers && s.workers[a.w].Closing? && s.workers[a.w].id == id)
    ensures a.WriteOutcome? && a.w in s.workers && s.workers[a.w].Closing? ==>
      s.workers[a.w].id in s.table.rows &&
      var r := s.table.rows[s.workers[a.w].id];
      (r.status, r.error) in {(Running, None), (Failed, Some(NO_REPORT))}
  {
    hide WorkersOk, FreshOk, AskedOk, RowsOk, AllWork, Taken, HistoryOk, PassesOk, TableOk;
    match a
    case WriteOutcome(w) =>
      if w in s.workers && s.workers[w].Closing? {
        ClosingHoldsRow(s, w);
        RowBeforeOutcome(s, w);
        var c := s.workers[w];
        OutcomeIsNotReaped(c.status, StoredError(c.error), c.id in s.bodies);
      }
    case ClaimNext(d) => if id in s.table.rows { IdsAreUsed(s, id); }
    case _ =>
  }

  lemma OutcomeIsNotReaped(status: Status, error: Option<string>, ran: bool)
    requires OutcomeOk(status, error, ran)
    ensures error != Some(NO_REPORT)
  {
    assert WEBSITE_GONE[1] != NO_REPORT[1];
  }

  lemma {:induction false} FirstActionFirst(s: World, actions: seq<Action>)
    requires actions != []
    ensures After(s, actions) == After(Apply(s, actions[0]), actions[1..])
  {
    var init := actions[..|actions| - 1];
    if init != [] {
      FirstActionFirst(s, init);
      assert actions[1..][..|actions| - 2] == init[1..];
    }
  }

  lemma FiveActions(s: World, actions: seq<Action>)
    requires |actions| == 5
    ensures After(s, actions) ==
      Apply(Apply(Apply(Apply(Apply(s, actions[0]), actions[1]), actions[2]), actions[3]), actions[4])
  {
    hide Apply;
    FirstActionFirst(s, actions);
    var s1 := Apply(s, actions[0]);
    FirstActionFirst(s1, actions[1..]);
    var s2 := Apply(s1, actions[1]);
    FirstActionFirst(s2, actions[1..][1..]);
    var s3 := Apply(s2, actions[2]);
    assert actions[1..][1..][1..] == [actions[3], actions[4]];
    TwoActions(s3, [actions[3], actions[4]]);
  }

  lemma TwoActions(s: World, actions: seq<Action>)
    requires |actions| == 2
    ensures After(s, actions) == Apply(Apply(s, actions[0]), actions[1])
  {
    FirstActionFirst(s, actions);
    var s1 := Apply(s, actions[0]);
    hide Apply;
    assert actions[1..][..0] == [];
    assert After(s1, []) == s1;
  }

  lemma {:induction false} AfterConcat(s: World, first: seq<Action>, rest: seq<Action>)
    ensures After(s, first + rest) == After(After(s, first), rest)
  {
    hide Apply;
    if rest == [] {
      assert first + rest == first;
    } else {
      AfterConcat(s, first, rest[..|rest| - 1]);
      assert (first + rest)[..|first + rest| - 1] == first + rest[..|rest| - 1];
    }
  }

  lemma SomethingIsDue(site: Candidate, now: int)
    requires site.hasSearchConsole
    ensures |AllWork([site], now)| > 0
  {
    JobsAreValid();
    var key := Key(site.website, JOBS[0].name, Due(JOBS[0], site.website.offset, now));
    hide Due, Work;
    assert HasWhatItNeeds(JOBS[0].name, [site][0]) by {
      NamesDiffer();
    }
    WorkMembers(JOBS, [site], now, key);
  }

  /** A pass claims the one due slot, and a worker gets as far as the body. */
  lemma WorkerStarts(site: Candidate, actions: seq<Action>)
    requires site.hasSearchConsole
    requires actions == [StartPass(0, 0, [site]), ClaimNext(0), Deliver(0, 0), TryStart(0), LookUpWebsite(0, true)]
    ensures var s := After(Init(0), actions);
      && s.clock == 0 && 0 in s.workers && s.workers[0] == InBody(0)
      && 0 in s.table.rows && s.table.rows[0].status == Running && s.table.rows[0].startedAt == Some(0)
  {
    SomethingIsDue(site, 0);
    FiveActions(Init(0), actions);
    hide AllWork, After, Due;
    var s1 := Apply(Init(0), actions[0]);
    assert CanClaim(s1, 0) && s1.table == Table(map[], 0) && s1.workers == map[] && s1.clock == 0;
    var s2 := Apply(s1, actions[1]);
    assert 0 in s2.table.rows && s2.table.rows[0].status == Claimed && s2.workers == map[] && s2.clock == 0;
  }

  lemma SlowWorkerWins(s: World, reap: seq<Action>, later: seq<Action>)
    requires s.clock == 0 && 0 in s.workers && s.workers[0] == InBody(0)
    requires 0 in s.table.rows && s.table.rows[0].status == Running && s.table.rows[0].startedAt == Some(0)
    requires reap == [Advance(LEASE + 1), Reap(LEASE + 1)] && later == [EndBody(0, Returned(false)), WriteOutcome(0)]
    ensures var t := After(s, reap);
      0 in t.table.rows && t.table.rows[0].status == Failed && t.table.rows[0].error == Some(NO_REPORT)
    ensures var u := After(After(s, reap), later);
      0 in u.table.rows && u.table.rows[0].status == Succeeded
  {
    TwoActions(s, reap);
    TwoActions(After(s, reap), later);
    hide After;
    var t := Apply(Apply(s, reap[0]), reap[1]);
    assert t.workers == s.workers && 0 in t.table.rows;
  }

  /** A run that shows it: reaped as failed, then written `succeeded` by the worker that was only slow. */
  lemma LateWorkerOverwritesReaped() returns (actions: seq<Action>, later: seq<Action>)
    ensures var s := After(Init(0), actions);
      var t := After(s, later);
      && 0 in s.table.rows && s.table.rows[0].status == Failed && s.table.rows[0].error == Some(NO_REPORT)
      && 0 in t.table.rows && t.table.rows[0].status == Succeeded
  {
    var site := Candidate(Website(0, 0), false, true, false, false);
    var first := [StartPass(0, 0, [site]), ClaimNext(0), Deliver(0, 0), TryStart(0), LookUpWebsite(0, true)];
    var reap := [Advance(LEASE + 1), Reap(LEASE + 1)];
    actions := first + reap;
    later := [EndBody(0, Returned(false)), WriteOutcome(0)];
    hide After, Apply;
    WorkerStarts(site, first);
    SlowWorkerWins(After(Init(0), first), reap, later);
    AfterConcat(Init(0), first, reap);
  }

  // ---- what the reaper's words mean ---------------------------------------

  ghost predicate Unclaimed(s: World, id: nat) {
    id in s.table.rows && s.table.rows[id].error == Some(NO_WORKER)
  }

  lemma UnclaimedHasNoWinner(s: World, id: nat)
    requires Inv(s) && Unclaimed(s, id)
    ensures id !in s.winner && id !in s.writer && id !in s.bodies && s.table.rows[id].status == Failed
  {
    hide WorkersOk, FreshOk, AskedOk, PassesOk, TableOk, NoDuplicates;
    assert RowOk(s.table.rows[id], id in s.winner, id in s.writer, id in s.bodies);
    WebsiteGoneIsNotNoWorker();
  }

  lemma WebsiteGoneIsNotNoWorker()
    ensures WEBSITE_GONE != NO_WORKER && NO_REPORT != NO_WORKER
  {
    assert WEBSITE_GONE[0] != NO_WORKER[0] && NO_REPORT[0] != NO_WORKER[0];
  }

  lemma UnclaimedStep(s: World, a: Action, id: nat)
    requires Inv(s) && Unclaimed(s, id)
    ensures Unclaimed(Apply(s, a), id) && Apply(s, a).table.rows[id] == s.table.rows[id]
  {
    hide Inv, Apply;
    UnclaimedHasNoWinner(s, id);
    TerminalRowStep(s, a, id);
    if a.WriteOutcome? && a.w in s.workers && s.workers[a.w].Closing? {
      ClosingHoldsRow(s, a.w);
    }
  }

  /** A row that reads "no worker picked this up" never had its body begun, never will, and never changes again. */
  lemma {:induction false} UnclaimedIsFinal(clock: int, actions: seq<Action>, later: seq<Action>, id: nat)
    ensures var s := After(Init(clock), actions);
      var t := After(s, later);
      Unclaimed(s, id) ==> Unclaimed(t, id) && t.table.rows[id] == s.table.rows[id] && id !in t.bodies
  {
    var s := After(Init(clock), actions);
    if Unclaimed(s, id) {
      LaterOk(clock, actions, later);
      if later != [] {
        var init := later[..|later| - 1];
        UnclaimedIsFinal(clock, actions, init, id);
        LaterOk(clock, actions, init);
        hide Inv;
        UnclaimedStep(After(s, init), later[|later| - 1], id);
      }
      UnclaimedHasNoWinner(After(s, later), id);
    }
  }

  /** If the last reap is at most `gap` old, a live row is at most a lease and `gap` past its claim or start. */
  lemma {:induction false} NothingStaysLive(clock: int, actions: seq<Action>, gap: nat, id: nat)
    ensures var s := After(Init(clock), actions);
      s.reapedAt.Some? && s.clock <= s.reapedAt.value + gap && id in s.table.rows && s.table.rows[id].Live() ==>
        s.clock <= s.table.rows[id].Since() + LEASE + gap
  {
    ReachableOk(clock, actions);
    hide After, WorkersOk, AskedOk, RowsOk, HistoryOk, PassesOk, TableOk;
    var s := After(Init(clock), actions);
    if id in s.table.rows { assert FreshRow(s.table.rows[id], s.clock, s.reapedAt); }
  }

  // ---- the rows are the due slots -----------------------------------------

  /** `d` has been through its whole list, which held `website` as eligible for `job`. */
  ghost predicate Covered(p: Pass, job: Job, website: Website) {
    p.Completed() && exists i :: 0 <= i < |p.sites| && p.sites[i].website == website && HasWhatItNeeds(job.name, p.sites[i])
  }

  lemma JobsAreValid()
    ensures forall j :: 0 <= j < |JOBS| ==> JOBS[j].Valid()
  {
  }

  ghost predicate WorkFixed(passes: map<nat, Pass>) {
    forall d :: d in passes ==> passes[d].work == AllWork(passes[d].sites, passes[d].now)
  }

  lemma NoWorkYet(clock: int)
    ensures WorkFixed(Init(clock).passes)
  {
  }

  lemma WorkStaysFixed(s: World, a: Action)
    requires WorkFixed(s.passes)
    ensures WorkFixed(Apply(s, a).passes)
  {
    hide AllWork;
    if !(a.StartPass? || a.ClaimNext? || a.HandOver? || a.KillPass?) {
      PassesAside(s, a);
      hide Apply;
    } else {
      hide ClaimRow;
    }
  }

  lemma PassesAside(s: World, a: Action)
    requires !(a.StartPass? || a.ClaimNext? || a.HandOver? || a.KillPass?)
    ensures Apply(s, a).passes == s.passes
  {
    hide MarkRow, FinishRow, ReapRows;
  }

  lemma {:induction false} WorkAlwaysFixed(clock: int, actions: seq<Action>)
    ensures WorkFixed(After(Init(clock), actions).passes)
  {
    hide WorkFixed, Apply;
    if actions == [] {
      NoWorkYet(clock);
    } else {
      var init := actions[..|actions| - 1];
      WorkAlwaysFixed(clock, init);
      WorkStaysFixed(After(Init(clock), init), actions[|actions| - 1]);
    }
  }

  /** Every row is a due slot that some pass asked for, for a website that was eligible. */
  lemma {:induction false} RowsAreDueSlots(clock: int, actions: seq<Action>, id: nat)
    ensures var s := After(Init(clock), actions);
      id in s.table.rows ==>
        exists d, j, i :: d in s.passes && 0 <= j < |JOBS| && JOBS[j].Valid() && 0 <= i < |s.passes[d].sites| &&
          HasWhatItNeeds(JOBS[j].name, s.passes[d].sites[i]) &&
          s.table.rows[id].key == Key(s.passes[d].sites[i].website, JOBS[j].name,
            Due(JOBS[j], s.passes[d].sites[i].website.offset, s.passes[d].now))
  {
    var s := After(Init(clock), actions);
    if id in s.table.rows {
      ReachableOk(clock, actions);
      WorkAlwaysFixed(clock, actions);
      RowWasAsked(s, id);
      hide Inv, After, Work;
      var d := s.claimer[id];
      var p := s.passes[d];
      JobsAreValid();
      WorkMembers(JOBS, p.sites, p.now, s.table.rows[id].key);
    }
  }

  lemma RowWasAsked(s: World, id: nat)
    requires Inv(s) && id in s.table.rows
    ensures id in s.claimer && s.claimer[id] in s.passes && s.table.rows[id].key in s.passes[s.claimer[id]].work
  {
    hide WorkersOk, FreshOk, RowsOk, HistoryOk, TableOk;
    assert Asked(s.passes[s.claimer[id]], s.table.rows[id].key);
  }

  /** A completed pass leaves a row at the due slot of every pair it covered. */
  lemma {:induction false} CompletedPassCovers(clock: int, actions: seq<Action>, d: nat, j: nat, website: Website)
    requires j < |JOBS| && JOBS[j].Valid()
    ensures var s := After(Init(clock), actions);
      d in s.passes && Covered(s.passes[d], JOBS[j], website) ==>
        Taken(s.table, Key(website, JOBS[j].name, Due(JOBS[j], website.offset, s.passes[d].now)))
  {
    var s := After(Init(clock), actions);
    if d in s.passes && Covered(s.passes[d], JOBS[j], website) {
      ReachableOk(clock, actions);
      WorkAlwaysFixed(clock, actions);
      hide After, Work, Due;
      var p := s.passes[d];
      var i :| 0 <= i < |p.sites| && p.sites[i].website == website && HasWhatItNeeds(JOBS[j].name, p.sites[i]);
      var key := Key(website, JOBS[j].name, Due(JOBS[j], website.offset, p.now));
      JobsAreValid();
      WorkMembers(JOBS, p.sites, p.now, key);
      assert key in p.work && p.work[..p.done] == p.work;
      AskedKeyIsTaken(s, d, key);
    }
  }

  lemma AskedKeyIsTaken(s: World, d: nat, key: Key)
    requires Inv(s) && d in s.passes && Asked(s.passes[d], key)
    ensures Taken(s.table, key)
  {
    hide WorkersOk, FreshOk, RowsOk, HistoryOk, TableOk, PassesOk;
  }

  /** Completed passes that cover a pair at least once per period leave a row for every slot between them. */
  lemma {:induction false} NoSlotGoesUnclaimed(
      clock: int, actions: seq<Action>, ds: seq<nat>, j: nat, website: Website, slot: int)
    requires j < |JOBS| && JOBS[j].Valid() && |ds| > 0 && IsSlot(JOBS[j], website.offset, slot)
    ensures var s := After(Init(clock), actions);
      && (forall k :: 0 <= k < |ds| ==> ds[k] in s.passes && Covered(s.passes[ds[k]], JOBS[j], website))
      && (forall k :: 0 <= k < |ds| - 1 ==>
            s.passes[ds[k]].now <= s.passes[ds[k + 1]].now <= s.passes[ds[k]].now + JOBS[j].Period())
      && s.passes[ds[0]].now < slot <= s.passes[ds[|ds| - 1]].now
      ==> Taken(s.table, Key(website, JOBS[j].name, slot))
  {
    var s := After(Init(clock), actions);
    hide After, Due, IsSlot;
    if && (forall k :: 0 <= k < |ds| ==> ds[k] in s.passes && Covered(s.passes[ds[k]], JOBS[j], website))
       && (forall k :: 0 <= k < |ds| - 1 ==>
             s.passes[ds[k]].now <= s.passes[ds[k + 1]].now <= s.passes[ds[k]].now + JOBS[j].Period())
       && s.passes[ds[0]].now < slot <= s.passes[ds[|ds| - 1]].now
    {
      var ticks := seq(|ds|, k requires 0 <= k < |ds| => s.passes[ds[k]].now);
      var k := NoSlotMissed(JOBS[j], website.offset, ticks, slot);
      CompletedPassCovers(clock, actions, ds[k], j, website);
    }
  }

  // ---- nothing in between -------------------------------------------------

  /**
    A delivery that nothing comes between does to the table what `Guard` does, and
    begins the body exactly when the row was claimed and the website is there.
  */
  lemma {:induction false} DeliveryIsGuard(s: World, w: nat, id: nat, present: bool, outcome: BodyOutcome)
    requires w !in s.workers
    ensures var t := After(s, [Deliver(w, id), TryStart(w), LookUpWebsite(w, present), EndBody(w, outcome), WriteOutcome(w)]);
      && t.table == GuardRow(s.table, id, present, outcome, s.clock) && t.workers == s.workers[w := Gone]
      && t.bodies == s.bodies + (if id in s.table.rows && s.table.rows[id].status == Claimed && present then [id] else [])
      && t.passes == s.passes && t.enqueued == s.enqueued
  {
    var actions := [Deliver(w, id), TryStart(w), LookUpWebsite(w, present), EndBody(w, outcome), WriteOutcome(w)];
    hide After, Apply, FinishRow, ClosingStatus, ClosingError;
    FiveActions(s, actions);
    Beforehand(s, w, id);
    Afterwards(Apply(Apply(s, Deliver(w, id)), TryStart(w)), w, present, outcome);
  }

  lemma Beforehand(s: World, w: nat, id: nat)
    requires w !in s.workers
    ensures var t := Apply(Apply(s, Deliver(w, id)), TryStart(w));
      var (table, run) := MarkRow(s.table, id, s.clock);
      && t.table == table && t.workers == s.workers[w := if run.None? then Gone else Started(id)]
      && t.bodies == s.bodies && t.passes == s.passes && t.enqueued == s.enqueued && t.clock == s.clock
  {
    var s1 := Apply(s, Deliver(w, id));
    var t := Apply(s1, TryStart(w));
    assert s1.workers == s.workers[w := Delivered(id)] && s1.table == s.table;
    assert t.workers == s.workers[w := if MarkRow(s.table, id, s.clock).1.None? then Gone else Started(id)];
  }

  lemma Afterwards(s: World, w: nat, present: bool, outcome: BodyOutcome)
    requires w in s.workers && (s.workers[w].Gone? || s.workers[w].Started?)
    ensures var t := Apply(Apply(Apply(s, LookUpWebsite(w, present)), EndBody(w, outcome)), WriteOutcome(w));
      && t.workers == s.workers[w := Gone] && t.passes == s.passes && t.enqueued == s.enqueued
      && if s.workers[w].Gone? then t.table == s.table && t.bodies == s.bodies
         else
           && t.bodies == s.bodies + (if present then [s.workers[w].id] else [])
           && t.table == FinishRow(s.table, s.workers[w].id, if present then ClosingStatus(outcome) else Skipped,
                if present then ClosingError(outcome) else Some(WEBSITE_GONE), s.clock)
  {
    hide FinishRow, ClosingStatus, ClosingError;
  }

  /** The statements of a pass that nothing comes between: each claim is handed over before the next. */
  function PassActions(d: nat, now: int, sites: seq<Candidate>, claims: nat): seq<Action> {
    if claims == 0 then [StartPass(d, now, sites)]
    else PassActions(d, now, sites, claims - 1) + [ClaimNext(d), HandOver(d)]
  }

  /** Such a pass does to the table what `Dispatch` does, and queues what it won, in order. */
  lemma {:induction false} PassIsDispatch(s: World, d: nat, now: int, sites: seq<Candidate>)
    requires d !in s.passes
    ensures var work := AllWork(sites, now);
      var t := After(s, PassActions(d, now, sites, |work|));
      var (table, won) := ClaimAll(s.table, work, s.clock);
      && t.table == table && t.enqueued == s.enqueued + won
      && d in t.passes && t.passes[d].Completed() && t.passes[d].claimed == won
  {
    var work := AllWork(sites, now);
    hide After, ClaimAll, AllWork;
    PassGoesOn(s, d, now, sites, |work|);
    assert work[..|work|] == work;
  }

  lemma {:induction false} PassGoesOn(s: World, d: nat, now: int, sites: seq<Candidate>, claims: nat)
    requires d !in s.passes && claims <= |AllWork(sites, now)|
    ensures var work := AllWork(sites, now);
      var t := After(s, PassActions(d, now, sites, claims));
      var (table, won) := ClaimAll(s.table, work[..claims], s.clock);
      && t.table == table && t.enqueued == s.enqueued + won && t.clock == s.clock
      && d in t.passes && t.passes[d] == Pass(now, sites, work, claims, None, won, true)
  {
    var work := AllWork(sites, now);
    hide AllWork, After, ClaimRow;
    if claims == 0 {
      PassStarts(s, d, now, sites);
      assert work[..0] == [];
    } else {
      hide ClaimAll;
      var before := PassActions(d, now, sites, claims - 1);
      PassGoesOn(s, d, now, sites, claims - 1);
      AfterConcat(s, before, [ClaimNext(d), HandOver(d)]);
      assert work[..claims] == work[..claims - 1] + [work[claims - 1]];
      OneClaimMore(s, After(s, before), d, work[..claims - 1], work[claims - 1]);
    }
  }

  lemma OneClaimMore(s: World, mid: World, d: nat, keys: seq<Key>, key: Key)
    requires CanClaim(mid, d) && mid.passes[d].work[mid.passes[d].done] == key && mid.clock == s.clock
    requires var (table, won) := ClaimAll(s.table, keys, s.clock);
      mid.table == table && mid.enqueued == s.enqueued + won && mid.passes[d].claimed == won
    ensures var t := After(mid, [ClaimNext(d), HandOver(d)]);
      var (table, won) := ClaimAll(s.table, keys + [key], s.clock);
      && t.table == table && t.enqueued == s.enqueued + won && t.clock == s.clock
      && d in t.passes && t.passes[d] == mid.passes[d].(done := mid.passes[d].done + 1, claimed := won)
  {
    hide ClaimAll, After, ClaimRow;
    ClaimIsHandedOver(mid, d);
    ClaimAllStep(s.table, keys, key, s.clock);
    var won := ClaimAll(s.table, keys, s.clock).1;
    assert won + [] == won;
    var id := ClaimRow(mid.table, key, s.clock).1;
    if id.Some? {
      ConcatAssociates(s.enqueued, won, [id.value]);
    }
  }

  lemma PassStarts(s: World, d: nat, now: int, sites: seq<Candidate>)
    requires d !in s.passes
    ensures After(s, [StartPass(d, now, sites)]) == s.(passes := s.passes[d := Pass(now, sites, AllWork(sites, now), 0, None, [], true)])
  {
    hide AllWork;
    assert [StartPass(d, now, sites)][..0] == [];
    assert After(s, []) == s;
  }

  /** A claim, and its id in the queue if it was won. */
  lemma ClaimIsHandedOver(s: World, d: nat)
    requires CanClaim(s, d)
    ensures var t := After(s, [ClaimNext(d), HandOver(d)]);
      var p := s.passes[d];
      var (table, id) := ClaimRow(s.table, p.work[p.done], s.clock);
      var more := if id.None? then [] else [id.value];
      && t.table == table && t.clock == s.clock && t.enqueued == s.enqueued + more
      && d in t.passes && t.passes[d] == p.(done := p.done + 1, claimed := p.claimed + more)
  {
    hide After, ClaimRow;
    TwoActions(s, [ClaimNext(d), HandOver(d)]);
    var p := s.passes[d];
    assert s.enqueued + [] == s.enqueued && p.claimed + [] == p.claimed;
  }
}
