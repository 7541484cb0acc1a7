/**
  The crawl frontier (api/crawler/frontier.py): one crawl's rows of
  `crawl_frontier`, its statements, and what they keep when any number of
  workers, and callers whose lease was taken away long ago, issue them in any
  order. The primary key is the hash of the URL; the hash is taken to be
  injective, so a row is identified by its URL.
*/
module Frontier {
  import opened Prelude

  const LEASE_SECONDS := 300
  const MAX_ATTEMPTS := 3
  const MAX_ERROR := 500

  datatype State = Pending | Leased | Done | Failed | Skipped

  datatype Row = Row(
    depth: nat,
    state: State,
    worker: Option<string>,
    leaseExpiresAt: Option<int>,
    attempts: nat,
    lastError: Option<string>,
    skipReason: Option<string>)

  type Rows = map<string, Row>

  // ---- the statements -----------------------------------------------------

  function AddRow(rows: Rows, url: string, depth: nat): Rows {
    if url in rows then rows else rows[url := Row(depth, Pending, None, None, 0, None, None)]
  }

  function AddRows(rows: Rows, urls: seq<(string, nat)>): Rows {
    if urls == [] then rows
    else AddRow(AddRows(rows, urls[..|urls| - 1]), urls[|urls| - 1].0, urls[|urls| - 1].1)
  }

  function LeasedRow(row: Row, worker: string, now: int): Row {
    row.(state := Leased, worker := Some(worker), leaseExpiresAt := Some(now + LEASE_SECONDS), attempts := row.attempts + 1)
  }

  function LeaseRows(rows: Rows, batch: seq<string>, worker: string, now: int): Rows {
    map url | url in rows :: if url in batch then LeasedRow(rows[url], worker, now) else rows[url]
  }

  function CompleteRow(rows: Rows, url: string): Rows {
    if url in rows then rows[url := rows[url].(state := Done, worker := None)] else rows
  }

  function FailRow(rows: Rows, url: string, error: string, retry: bool): Rows {
    if url in rows then
      var row := rows[url];
      rows[url := row.(
        state := if retry && row.attempts < MAX_ATTEMPTS then Pending else Failed,
        worker := None, leaseExpiresAt := None,
        lastError := Some(if |error| <= MAX_ERROR then error else error[..MAX_ERROR]))]
    else rows
  }

  function SkipRow(rows: Rows, url: string, reason: string): Rows {
    if url in rows then rows[url := rows[url].(state := Skipped, skipReason := Some(reason), worker := None)] else rows
  }

  predicate Expired(row: Row, now: int) {
    row.state == Leased && row.leaseExpiresAt.Some? && row.leaseExpiresAt.value < now
  }

  function ReclaimRows(rows: Rows, now: int): Rows {
    map url | url in rows ::
      if Expired(rows[url], now) then rows[url].(state := Pending, worker := None, leaseExpiresAt := None) else rows[url]
  }

  function InState(rows: Rows, state: State): set<string> {
    set url | url in rows && rows[url].state == state
  }

  /** The first of the list with its URL. */
  ghost predicate FirstOf(urls: seq<(string, nat)>, k: nat)
    requires k < |urls|
  {
    forall j :: 0 <= j < k ==> urls[j].0 != urls[k].0
  }

  /** A URL that is new comes in at the depth it is first listed with. */
  lemma {:induction false} FirstDepthStays(rows: Rows, urls: seq<(string, nat)>)
    ensures var after := AddRows(rows, urls);
      forall k :: 0 <= k < |urls| && urls[k].0 !in rows && FirstOf(urls, k) ==>
        urls[k].0 in after && after[urls[k].0] == Row(urls[k].1, Pending, None, None, 0, None, None)
  {
    if urls != [] {
      var last := |urls| - 1;
      var init := urls[..last];
      FirstDepthStays(rows, init);
      AddRowsOutcome(rows, init);
      assert AddRows(rows, urls) == AddRow(AddRows(rows, init), urls[last].0, urls[last].1);
      hide AddRows;
      forall k | 0 <= k < |urls| && urls[k].0 !in rows && FirstOf(urls, k)
        ensures urls[k].0 in AddRows(rows, urls)
        ensures AddRows(rows, urls)[urls[k].0] == Row(urls[k].1, Pending, None, None, 0, None, None)
      {
        if k < last {
          assert init[k] == urls[k] && FirstOf(init, k);
        } else {
          assert forall j :: 0 <= j < last ==> init[j] == urls[j];
        }
      }
    }
  }

  // ---- the table as the workers see it ------------------------------------

  class Frontier {
    var rows: Rows

    constructor ()
      ensures rows == map[]
    {
      rows := map[];
    }

    method Add(urls: seq<(string, nat)>) returns (count: nat)
      modifies this
      ensures rows == AddRows(old(rows), urls) && count == |urls|
      ensures forall url :: url in old(rows) ==> url in rows && rows[url] == old(rows)[url]
      ensures forall url :: url in rows ==> url in old(rows) || exists k :: 0 <= k < |urls| && urls[k].0 == url
      ensures forall k :: 0 <= k < |urls| && urls[k].0 !in old(rows) && FirstOf(urls, k) ==>
        urls[k].0 in rows && rows[urls[k].0] == Row(urls[k].1, Pending, None, None, 0, None, None)
    {
      AddRowsOutcome(rows, urls);
      FirstDepthStays(rows, urls);
      for i := 0 to |urls|
        invariant rows == AddRows(old(rows), urls[..i])
      {
        assert urls[..i + 1][..i] == urls[..i];
        if urls[i].0 !in rows {
          rows := rows[urls[i].0 := Row(urls[i].1, Pending, None, None, 0, None, None)];
        }
      }
      assert urls[..|urls|] == urls;
      count := |urls|;
    }

    /**
      Leases the shallowest pending rows that no other transaction has locked.
      Rows of equal depth are taken in the order of their hashes, which the model
      leaves open.
    */
    method Lease(worker: string, limit: nat, locked: set<string>, now: int) returns (batch: seq<string>)
      modifies this
      ensures NoDuplicates(batch)
      ensures forall url :: url in batch ==> url in InState(old(rows), Pending) - locked
      ensures |batch| <= limit
      ensures |batch| < limit ==> forall url :: url in InState(old(rows), Pending) - locked ==> url in batch
      ensures forall a, b :: a in batch && b in InState(old(rows), Pending) - locked && b !in batch ==>
        old(rows)[a].depth <= old(rows)[b].depth
      ensures rows == LeaseRows(old(rows), batch, worker, now)
      ensures rows.Keys == old(rows).Keys
      ensures forall url :: url in rows && url !in batch ==> rows[url] == old(rows)[url]
      ensures forall url :: url in batch ==>
        url in rows && url in old(rows) && rows[url] == old(rows)[url].(
          state := Leased, worker := Some(worker), leaseExpiresAt := Some(now + 300), attempts := old(rows)[url].attempts + 1)
    {
      batch := [];
      var before := rows;
      var pending := InState(before, Pending) - locked;
      var free := pending;
      while free != {} && |batch| < limit
        invariant NoDuplicates(batch) && |batch| <= limit
        invariant free <= pending && pending <= before.Keys
        invariant forall url :: url in pending ==> (url in batch <==> url !in free)
        invariant forall url :: url in batch ==> url in pending
        invariant forall a, b :: a in batch && b in free ==> before[a].depth <= before[b].depth
        decreases |free|
      {
        var next := Shallowest(before, free);
        batch := batch + [next];
        free := free - {next};
      }
      rows := LeaseRows(before, batch, worker, now);
    }

    method Complete(url: string)
      modifies this
      ensures rows == CompleteRow(old(rows), url)
      ensures rows == if url in old(rows) then old(rows)[url := old(rows)[url].(state := Done, worker := None)] else old(rows)
    {
      if url in rows {
        rows := rows[url := rows[url].(state := Done, worker := None)];
      }
    }

    method Fail(url: string, error: string, retry: bool)
      modifies this
      ensures rows == FailRow(old(rows), url, error, retry)
      ensures rows.Keys == old(rows).Keys && forall other :: other in rows && other != url ==> rows[other] == old(rows)[other]
      ensures url in rows ==>
        && rows[url] == old(rows)[url].(state := rows[url].state, worker := None, leaseExpiresAt := None, lastError := rows[url].lastError)
        && rows[url].state == (if retry && old(rows)[url].attempts < 3 then Pending else Failed)
        && rows[url].lastError.Some? && rows[url].lastError.value <= error
        && |rows[url].lastError.value| == if |error| < 500 then |error| else 500
    {
      if url in rows {
        var row := rows[url];
        var next := if retry && row.attempts < MAX_ATTEMPTS then Pending else Failed;
        rows := rows[url := row.(
          state := next, worker := None, leaseExpiresAt := None,
          lastError := Some(if |error| <= MAX_ERROR then error else error[..MAX_ERROR]))];
      }
    }

    method Skip(url: string, reason: string)
      modifies this
      ensures rows == SkipRow(old(rows), url, reason)
      ensures rows == if url in old(rows)
        then old(rows)[url := old(rows)[url].(state := Skipped, skipReason := Some(reason), worker := None)] else old(rows)
    {
      if url in rows {
        rows := rows[url := rows[url].(state := Skipped, skipReason := Some(reason), worker := None)];
      }
    }

    method ReclaimExpired(now: int) returns (count: nat)
      modifies this
      ensures rows == ReclaimRows(old(rows), now)
      ensures rows.Keys == old(rows).Keys
      ensures forall url :: url in rows ==>
        var row := old(rows)[url];
        rows[url] == if row.state == Leased && row.leaseExpiresAt.Some? && row.leaseExpiresAt.value < now
          then row.(state := Pending, worker := None, leaseExpiresAt := None) else row
      ensures count == |set url | url in old(rows) && Expired(old(rows)[url], now)|
    {
      count := |set url | url in rows && Expired(rows[url], now)|;
      rows := ReclaimRows(rows, now);
    }

    method IsDrained() returns (drained: bool)
      ensures drained <==> InState(rows, Pending) == {} && InState(rows, Leased) == {}
    {
      var pending, leased := |InState(rows, Pending)|, |InState(rows, Leased)|;
      drained := pending == 0 && leased == 0;
    }
  }

  method Shallowest(rows: Rows, free: set<string>) returns (best: string)
    requires free != {} && free <= rows.Keys
    ensures best in free && forall url :: url in free ==> rows[best].depth <= rows[url].depth
  {
    best :| best in free;
    var rest := free - {best};
    while rest != {}
      invariant rest <= free && best in free
      invariant forall url :: url in free && url !in rest ==> rows[best].depth <= rows[url].depth
      decreases |rest|
    {
      var url :| url in rest;
      if rows[url].depth < rows[best].depth {
        best := url;
      }
      rest := rest - {url};
    }
  }

  // ---- any workers, any order ---------------------------------------------

  /** One statement, from whoever sends it. A lease takes rows that are pending and not locked by another. */
  datatype Action =
    | Advance(delta: nat)
    | Add(urls: seq<(string, nat)>)
    | Lease(worker: string, batch: seq<string>)
    | Complete(url: string)
    | Fail(url: string, error: string, retry: bool)
    | Skip(url: string, reason: string)
    | Reclaim

  /** The rows, the clock, and how often each row's lease has been reclaimed. */
  datatype World = World(rows: Rows, clock: int, reclaims: map<string, nat>)

  function Reclaims(s: World, url: string): nat {
    if url in s.reclaims then s.reclaims[url] else 0
  }

  function Apply(s: World, a: Action): World {
    match a
    case Advance(delta) => s.(clock := s.clock + delta)
    case Add(urls) => s.(rows := AddRows(s.rows, urls))
    case Lease(worker, batch) =>
      if forall url :: url in batch ==> url in s.rows && s.rows[url].state == Pending then
        s.(rows := LeaseRows(s.rows, batch, worker, s.clock))
      else s
    case Complete(url) => s.(rows := CompleteRow(s.rows, url))
    case Fail(url, error, retry) => s.(rows := FailRow(s.rows, url, error, retry))
    case Skip(url, reason) => s.(rows := SkipRow(s.rows, url, reason))
    case Reclaim =>
      World(
        ReclaimRows(s.rows, s.clock), s.clock,
        map url | url in s.rows :: Reclaims(s, url) + if Expired(s.rows[url], s.clock) then 1 else 0)
  }

  function After(actions: seq<Action>): World {
    if actions == [] then World(map[], 0, map[])
    else Apply(After(actions[..|actions| - 1]), actions[|actions| - 1])
  }

  ghost predicate RowOk(row: Row, reclaims: nat) {
    && row.attempts <= MAX_ATTEMPTS + reclaims
    && (row.state == Pending ==> row.attempts < MAX_ATTEMPTS + reclaims)
    && (row.state == Leased ==> row.leaseExpiresAt.Some? && row.worker.Some? && row.attempts > 0)
  }

  ghost predicate Inv(s: World) {
    && (forall url :: url in s.rows ==> RowOk(s.rows[url], Reclaims(s, url)))
    && (forall url :: url in s.reclaims ==> url in s.rows)
  }

  lemma {:induction false} AddRowsOutcome(rows: Rows, urls: seq<(string, nat)>)
    ensures var after := AddRows(rows, urls);
      && (forall url :: url in rows ==> url in after && after[url] == rows[url])
      && (forall k :: 0 <= k < |urls| ==> urls[k].0 in after)
      && (forall url :: url in after && url !in rows ==>
            (exists k :: 0 <= k < |urls| && urls[k] == (url, after[url].depth)) &&
            after[url] == Row(after[url].depth, Pending, None, None, 0, None, None))
  {
    if urls != [] {
      var init := urls[..|urls| - 1];
      AddRowsOutcome(rows, init);
      assert forall k :: 0 <= k < |init| ==> init[k] == urls[k];
    }
  }

  lemma ApplyKeeps(s: World, a: Action)
    requires Inv(s)
    ensures Inv(Apply(s, a))
  {
    if a.Add? {
      AddRowsOutcome(s.rows, a.urls);
    }
  }

  lemma {:induction false} ReachableOk(actions: seq<Action>)
    ensures Inv(After(actions))
  {
    if actions != [] {
      ReachableOk(actions[..|actions| - 1]);
      ApplyKeeps(After(actions[..|actions| - 1]), actions[|actions| - 1]);
    }
  }

  // ---- the main results ---------------------------------------------------

  /**
    With any workers and stale callers: a row has been tried at most three times
    more often than its lease was reclaimed, and a pending row strictly fewer.
  */
  lemma {:induction false} AttemptsAreBounded(actions: seq<Action>, url: string)
    ensures var s := After(actions);
      url in s.rows ==>
        && s.rows[url].attempts <= MAX_ATTEMPTS + Reclaims(s, url)
        && (s.rows[url].state == Pending ==> s.rows[url].attempts < MAX_ATTEMPTS + Reclaims(s, url))
  {
    ReachableOk(actions);
  }

  /** Rows never disappear or change depth, and adding a URL again never changes its row. */
  lemma RowsStay(s: World, a: Action, url: string)
    requires url in s.rows
    ensures url in Apply(s, a).rows && Apply(s, a).rows[url].depth == s.rows[url].depth
    ensures a.Add? ==> Apply(s, a).rows[url] == s.rows[url]
  {
    if a.Add? {
      AddRowsOutcome(s.rows, a.urls);
    }
  }

  lemma {:induction false} RowsStayThroughout(actions: seq<Action>, n: nat, url: string)
    requires n <= |actions|
    ensures url in After(actions[..n]).rows ==>
      url in After(actions).rows && After(actions).rows[url].depth == After(actions[..n]).rows[url].depth
    decreases |actions|
  {
    if n < |actions| {
      var init := actions[..|actions| - 1];
      RowsStayThroughout(init, n, url);
      assert init[..n] == actions[..n];
      if url in After(init).rows {
        RowsStay(After(init), actions[|actions| - 1], url);
      }
    } else {
      assert actions[..n] == actions;
    }
  }

  /** A row is leased only from pending, so it never has two leases at once, and leasing counts as a try. */
  lemma LeasedOnlyFromPending(s: World, a: Action, url: string)
    requires url in s.rows && url in Apply(s, a).rows && Apply(s, a).rows[url].state == Leased
    ensures Apply(s, a).rows[url] == s.rows[url] ||
      (a.Lease? && url in a.batch && s.rows[url].state == Pending &&
       Apply(s, a).rows[url].attempts == s.rows[url].attempts + 1 && Apply(s, a).rows[url].worker == Some(a.worker))
  {
    if a.Add? {
      AddRowsOutcome(s.rows, a.urls);
    }
  }

  /** `done` is not absorbing: it is left exactly when somebody still fails or skips the row. */
  lemma DoneIsLeft(s: World, a: Action, url: string)
    requires url in s.rows && s.rows[url].state == Done
    ensures url in Apply(s, a).rows
    ensures Apply(s, a).rows[url].state != Done <==> (a.Fail? || a.Skip?) && a.url == url
  {
    if a.Add? {
      AddRowsOutcome(s.rows, a.urls);
    }
  }

  /** The recovery invariant: after a sweep no lease is past its expiry, and only expired leases were touched. */
  lemma {:induction false} SweepRecovers(actions: seq<Action>, url: string)
    ensures var s := After(actions);
      var t := After(actions + [Reclaim]);
      url in s.rows ==>
        && url in t.rows
        && (t.rows[url].state == Leased ==> t.rows[url].leaseExpiresAt.Some? && t.clock <= t.rows[url].leaseExpiresAt.value)
        && (Expired(s.rows[url], s.clock) ==>
              t.rows[url] == s.rows[url].(state := Pending, worker := None, leaseExpiresAt := None))
        && (!Expired(s.rows[url], s.clock) ==> t.rows[url] == s.rows[url])
  {
    ReachableOk(actions);
    assert (actions + [Reclaim])[..|actions|] == actions;
  }

  /** A lease lasts five minutes: a sweep leaves it alone until then and takes it back after. */
  lemma {:induction false} LeaseLasts(s: World, worker: string, batch: seq<string>, url: string, delta: nat)
    requires forall u :: u in batch ==> u in s.rows && s.rows[u].state == Pending
    requires url in batch
    ensures var leased := Apply(s, Lease(worker, batch));
      var swept := Apply(Apply(leased, Advance(delta)), Reclaim);
      && url in leased.rows && leased.rows[url].state == Leased && url in swept.rows
      && swept.rows[url].state == (if delta <= 300 then Leased else Pending)
      && (delta <= 300 ==> swept.rows[url] == leased.rows[url])
  {
    var leased := Apply(s, Lease(worker, batch));
    var later := Apply(leased, Advance(delta));
    assert leased.rows[url] == LeasedRow(s.rows[url], worker, s.clock) && later.rows == leased.rows;
    hide LeaseRows;
  }

  /** The same rows, with the workers' names replaced by any others. */
  function Renamed(rows: Rows, names: map<string, string>): Rows {
    map url | url in rows ::
      rows[url].(worker := if url in names && rows[url].worker.Some? then Some(names[url]) else rows[url].worker)
  }

  /** Recovery never consults who held the lease: whatever the workers were called, the same leases come back. */
  lemma SweepIgnoresWorkers(rows: Rows, names: map<string, string>, now: int)
    ensures ReclaimRows(Renamed(rows, names), now) == Renamed(ReclaimRows(rows, now), names)
  {
    var left, right := ReclaimRows(Renamed(rows, names), now), Renamed(ReclaimRows(rows, now), names);
    forall url | url in rows
      ensures left[url] == right[url]
    {
      assert Expired(Renamed(rows, names)[url], now) == Expired(rows[url], now);
    }
    assert left.Keys == rows.Keys == right.Keys;
  }
}
