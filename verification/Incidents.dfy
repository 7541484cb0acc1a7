/**
  Operator incidents (api/alerting/operator.py): opened on a fingerprint,
  counted while they persist, announced again every so often, and closed when a
  scan no longer sees them, over any scans, delivery failures and crashes. A
  fingerprint is a hash of kind and subject; the hash is taken to be injective.
*/
module Incidents {
  import opened Prelude

  const RENOTIFY_AFTER := 6 * 3600

  datatype Condition = Condition(kind: string, subject: string, severity: string, title: string)

  function Fingerprint(c: Condition): string {
    c.kind + ":" + c.subject
  }

  /** Two conditions are the same incident exactly when kind and subject are the same, as long as no kind has a colon. */
  lemma FingerprintIdentifies(c: Condition, d: Condition)
    requires ':' !in c.kind && ':' !in d.kind
    ensures Fingerprint(c) == Fingerprint(d) <==> c.kind == d.kind && c.subject == d.subject
  {
    var a, b := Fingerprint(c), Fingerprint(d);
    if a == b {
      assert a == c.kind + ":" + c.subject && b == d.kind + ":" + d.subject;
      ColonAfter(c.kind, c.subject, d.kind, d.subject);
      ColonAfter(d.kind, d.subject, c.kind, c.subject);
      assert c.subject == a[|c.kind| + 1..] && d.subject == b[|d.kind| + 1..];
      assert c.kind == a[..|c.kind|] && d.kind == b[..|d.kind|];
    }
  }

  lemma ColonAfter(kind: string, subject: string, other: string, rest: string)
    requires kind + ":" + subject == other + ":" + rest && ':' !in other
    ensures |other| <= |kind|
  {
    var all := other + ":" + rest;
    assert (kind + ":" + subject)[|kind|] == ':';
    assert forall i :: 0 <= i < |other| ==> all[i] == other[i] && other[i] in other;
  }

  /** A row of `operator_alerts`; its id is its place in the table. */
  datatype Incident = Incident(
    fingerprint: string, kind: string, severity: string, title: string,
    occurrences: nat, firstSeen: int, lastSeen: int,
    notifiedAt: Option<int>, notifyCount: nat,
    resolvedAt: Option<int>, resolvedNotifiedAt: Option<int>)

  /**
    What becomes of one step: delivery succeeds, is refused, arrives and is still
    reported as failed, has nowhere to go, or the process dies around it.
  */
  datatype Fate = Delivered | Refused | Misreported | Unconfigured | DiesFirst | DiesBeforeSending | DiesAfterSending

  /** A message that left, and whether the table got to know. */
  datatype Notice = Notice(id: nat, recovery: bool, at: int, recorded: bool)

  datatype Outcome = Outcome(begun: seq<string>, stillOpen: seq<string>, resolved: seq<string>, notified: nat, undeliverable: nat)

  datatype State = State(rows: seq<Incident>, sent: seq<Notice>, outcome: Outcome, alive: bool)

  // ---- the statements -----------------------------------------------------

  predicate IsOpen(rows: seq<Incident>, id: nat, fingerprint: string) {
    id < |rows| && rows[id].resolvedAt.None? && rows[id].fingerprint == fingerprint
  }

  /** The row the partial unique index points at, or the next free id. */
  function OpenRow(rows: seq<Incident>, fingerprint: string): (id: nat)
    ensures id <= |rows|
    ensures id < |rows| ==> IsOpen(rows, id, fingerprint)
    ensures id == |rows| ==> forall k: nat :: !IsOpen(rows, k, fingerprint)
  {
    if rows == [] then 0 else
      var last := |rows| - 1;
      var id := OpenRow(rows[..last], fingerprint);
      if id < last then
        assert IsOpen(rows[..last], id, fingerprint);
        id
      else
        assert forall k: nat :: k < last ==> (IsOpen(rows, k, fingerprint) <==> IsOpen(rows[..last], k, fingerprint));
        if IsOpen(rows, last, fingerprint) then last else |rows|
  }

  function Upsert(rows: seq<Incident>, c: Condition, now: int): seq<Incident> {
    var id := OpenRow(rows, Fingerprint(c));
    if id < |rows| then
      rows[id := rows[id].(occurrences := rows[id].occurrences + 1, lastSeen := now, severity := c.severity, title := c.title)]
    else
      rows + [Incident(Fingerprint(c), c.kind, c.severity, c.title, 1, now, now, None, 0, None, None)]
  }

  predicate Due(row: Incident, now: int, gap: int) {
    row.notifiedAt.None? || now - row.notifiedAt.value >= gap
  }

  /** `_notify`: deliver, then record. */
  function Notify(s: State, id: nat, recovery: bool, now: int, fate: Fate): State
    requires id < |s.rows|
  {
    match fate
    case Delivered =>
      s.(rows := s.rows[id :=
             if recovery then s.rows[id].(resolvedNotifiedAt := Some(now))
             else s.rows[id].(notifiedAt := Some(now), notifyCount := s.rows[id].notifyCount + 1)],
         sent := s.sent + [Notice(id, recovery, now, true)],
         outcome := s.outcome.(notified := s.outcome.notified + 1))
    case DiesAfterSending => s.(sent := s.sent + [Notice(id, recovery, now, false)], alive := false)
    case Misreported =>
      s.(sent := s.sent + [Notice(id, recovery, now, false)],
         outcome := s.outcome.(undeliverable := s.outcome.undeliverable + 1))
    case DiesBeforeSending => s.(alive := false)
    case _ => s.(outcome := s.outcome.(undeliverable := s.outcome.undeliverable + 1))
  }

  function Counted(o: Outcome, c: Condition, occurrences: nat): Outcome {
    if occurrences == 1 then o.(begun := o.begun + [c.kind]) else o.(stillOpen := o.stillOpen + [c.kind])
  }

  /** One condition of a scan. */
  function Open(s: State, c: Condition, now: int, gap: int, fate: Fate): State {
    if !s.alive || fate.DiesFirst? then s.(alive := false) else
      var id := OpenRow(s.rows, Fingerprint(c));
      var rows := Upsert(s.rows, c, now);
      var t := s.(rows := rows, outcome := Counted(s.outcome, c, rows[id].occurrences));
      if Due(rows[id], now, gap) then Notify(t, id, false, now, fate) else t
  }

  function Resolved(rows: seq<Incident>, id: nat, now: int): seq<Incident>
    requires id < |rows|
  {
    rows[id := rows[id].(resolvedAt := Some(now))]
  }

  /** One open row of the table, which recovers unless the scan saw it. */
  function Close(s: State, id: nat, seen: set<string>, now: int, fate: Fate): State {
    if id >= |s.rows| || s.rows[id].resolvedAt.Some? || s.rows[id].fingerprint in seen || !s.alive then s
    else if fate.DiesFirst? then s.(alive := false) else
      var t := s.(rows := Resolved(s.rows, id, now),
                  outcome := s.outcome.(resolved := s.outcome.resolved + [s.rows[id].kind]));
      if s.rows[id].notifiedAt.Some? then Notify(t, id, true, now, fate) else t
  }

  function Seen(conditions: seq<Condition>): set<string> {
    set c | c in conditions :: Fingerprint(c)
  }

  function OpenAll(s: State, conditions: seq<Condition>, now: int, gap: int, fates: nat -> Fate): State {
    if conditions == [] then s else
      var last := |conditions| - 1;
      Open(OpenAll(s, conditions[..last], now, gap, fates), conditions[last], now, gap, fates(last))
  }

  function CloseAll(s: State, n: nat, seen: set<string>, now: int, fates: nat -> Fate): State {
    if n == 0 then s else
      Close(CloseAll(s, n - 1, seen, now, fates), n - 1, seen, now, fates(n - 1))
  }

  function Fresh(rows: seq<Incident>, sent: seq<Notice>): State {
    State(rows, sent, Outcome([], [], [], 0, 0), true)
  }

  /** One scan: what it found is opened or counted, then what it did not find is closed. */
  datatype Scan = Scan(conditions: seq<Condition>, now: int, opening: nat -> Fate, closing: nat -> Fate)

  function Reconciled(rows: seq<Incident>, sent: seq<Notice>, scan: Scan, gap: int): State {
    var begun := OpenAll(Fresh(rows, sent), scan.conditions, scan.now, gap, scan.opening);
    CloseAll(begun, |begun.rows|, Seen(scan.conditions), scan.now, scan.closing)
  }

  /** The open row of a condition, counted once more, or a new row for it. */
  ghost predicate CountedIn(rows: seq<Incident>, counted: seq<Incident>, id: nat, c: Condition, now: int) {
    var fingerprint := c.kind + ":" + c.subject;
    if id < |rows| then
      && rows[id].resolvedAt.None? && rows[id].fingerprint == fingerprint
      && counted == rows[id := rows[id].(
           occurrences := rows[id].occurrences + 1, lastSeen := now, severity := c.severity, title := c.title)]
    else
      && id == |rows| && (forall k :: 0 <= k < |rows| ==> rows[k].resolvedAt.Some? || rows[k].fingerprint != fingerprint)
      && counted == rows + [Incident(fingerprint, c.kind, c.severity, c.title, 1, now, now, None, 0, None, None)]
  }

  /** An incident is announced when it never was, or not since the gap began; only what was delivered is recorded. */
  ghost predicate Announcing(rows: seq<Incident>, rows': seq<Incident>, sent: seq<Notice>, sent': seq<Notice>, alive: bool,
      id: nat, now: int, gap: int, fate: Fate)
  {
    && id < |rows|
    && if rows[id].notifiedAt.Some? && now - rows[id].notifiedAt.value < gap then rows' == rows && sent' == sent && alive
       else
         && (alive <==> fate !in {DiesBeforeSending, DiesAfterSending})
         && sent' == sent + (if fate in {Delivered, Misreported, DiesAfterSending} then [Notice(id, false, now, fate == Delivered)] else [])
         && rows' == if fate != Delivered then rows
              else rows[id := rows[id].(notifiedAt := Some(now), notifyCount := rows[id].notifyCount + 1)]
  }

  lemma UpsertCounts(rows: seq<Incident>, c: Condition, now: int)
    ensures CountedIn(rows, Upsert(rows, c, now), OpenRow(rows, Fingerprint(c)), c, now)
  {
    var id := OpenRow(rows, Fingerprint(c));
    if id == |rows| {
      assert forall k: nat :: k < |rows| ==> !IsOpen(rows, k, Fingerprint(c));
    }
  }

  lemma OpenAnnounces(s: State, c: Condition, now: int, gap: int, fate: Fate)
    requires s.alive && !fate.DiesFirst?
    ensures var t := Open(s, c, now, gap, fate);
      Announcing(Upsert(s.rows, c, now), t.rows, s.sent, t.sent, t.alive, OpenRow(s.rows, Fingerprint(c)), now, gap, fate)
  {
    var id := OpenRow(s.rows, Fingerprint(c));
    var rows := Upsert(s.rows, c, now);
    assert id < |rows|;
    hide Upsert, Fingerprint;
    assert s.sent + [] == s.sent;
  }

  // ---- the object ---------------------------------------------------------

  class Alerts {
    var rows: seq<Incident>
    /** Every message that left. */
    var sent: seq<Notice>

    constructor ()
      ensures rows == [] && sent == []
    {
      rows, sent := [], [];
    }

    /** Answers whether the process was still alive at the end. */
    method Reconcile(scan: Scan, gap: int) returns (outcome: Outcome, alive: bool)
      modifies this
      ensures State(rows, sent, outcome, alive) == Reconciled(old(rows), old(sent), scan, gap)
    {
      hide Open, Close, Seen;
      outcome, alive := Outcome([], [], [], 0, 0), true;
      var conditions := scan.conditions;
      for i := 0 to |conditions|
        invariant State(rows, sent, outcome, alive) ==
          OpenAll(Fresh(old(rows), old(sent)), conditions[..i], scan.now, gap, scan.opening)
      {
        assert conditions[..i + 1][..i] == conditions[..i];
        outcome, alive := OpenOne(outcome, alive, conditions[i], scan.now, gap, scan.opening(i));
      }
      assert conditions[..|conditions|] == conditions;
      ghost var begun := State(rows, sent, outcome, alive);
      var n := |rows|;
      for id := 0 to n
        invariant State(rows, sent, outcome, alive) == CloseAll(begun, id, Seen(conditions), scan.now, scan.closing)
      {
        outcome, alive := CloseOne(outcome, alive, id, Seen(conditions), scan.now, scan.closing(id));
      }
    }

    method OpenOne(before: Outcome, living: bool, c: Condition, now: int, gap: int, fate: Fate)
      returns (outcome: Outcome, alive: bool)
      modifies this
      ensures State(rows, sent, outcome, alive) == Open(State(old(rows), old(sent), before, living), c, now, gap, fate)
      ensures !living || fate.DiesFirst? ==> rows == old(rows) && sent == old(sent) && outcome == before && !alive
      ensures living && !fate.DiesFirst? ==>
        exists id: nat, counted ::
          CountedIn(old(rows), counted, id, c, now) && Announcing(counted, rows, old(sent), sent, alive, id, now, gap, fate)
    {
      outcome, alive := before, living;
      if !alive || fate.DiesFirst? {
        return before, false;
      }
      UpsertCounts(rows, c, now);
      OpenAnnounces(State(rows, sent, before, true), c, now, gap, fate);
      var id := OpenRow(rows, Fingerprint(c));
      rows := Upsert(rows, c, now);
      if rows[id].occurrences == 1 {
        outcome := outcome.(begun := outcome.begun + [c.kind]);
      } else {
        outcome := outcome.(stillOpen := outcome.stillOpen + [c.kind]);
      }
      if rows[id].notifiedAt.None? || now - rows[id].notifiedAt.value >= gap {
        outcome, alive := Tell(outcome, id, false, now, fate);
      }
    }

    method CloseOne(before: Outcome, living: bool, id: nat, seen: set<string>, now: int, fate: Fate)
      returns (outcome: Outcome, alive: bool)
      modifies this
      ensures State(rows, sent, outcome, alive) == Close(State(old(rows), old(sent), before, living), id, seen, now, fate)
      ensures id < |old(rows)| && old(rows)[id].resolvedAt.None? && old(rows)[id].fingerprint !in seen && living && fate != DiesFirst ==>
        var told := old(rows)[id].notifiedAt.Some?;
        && |rows| == |old(rows)| && rows == old(rows)[id := rows[id]]
        && rows[id] == old(rows)[id].(resolvedAt := Some(now),
             resolvedNotifiedAt := if told && fate == Delivered then Some(now) else old(rows)[id].resolvedNotifiedAt)
        && sent == old(sent) +
             (if told && fate in {Delivered, Misreported, DiesAfterSending} then [Notice(id, true, now, fate == Delivered)] else [])
    {
      outcome, alive := before, living;
      if id >= |rows| || rows[id].resolvedAt.Some? || rows[id].fingerprint in seen || !alive {
        return;
      }
      if fate.DiesFirst? {
        return before, false;
      }
      var told := rows[id].notifiedAt.Some?;
      outcome := outcome.(resolved := outcome.resolved + [rows[id].kind]);
      rows := rows[id := rows[id].(resolvedAt := Some(now))];
      if told {
        outcome, alive := Tell(outcome, id, true, now, fate);
      }
    }

    method Tell(before: Outcome, id: nat, recovery: bool, now: int, fate: Fate) returns (outcome: Outcome, alive: bool)
      requires id < |rows|
      modifies this
      ensures State(rows, sent, outcome, alive) == Notify(State(old(rows), old(sent), before, true), id, recovery, now, fate)
    {
      outcome, alive := before, true;
      match fate {
        case DiesBeforeSending => alive := false;
        case DiesAfterSending =>
          sent := sent + [Notice(id, recovery, now, false)];
          alive := false;
        case Misreported =>
          sent := sent + [Notice(id, recovery, now, false)];
          outcome := outcome.(undeliverable := outcome.undeliverable + 1);
        case Delivered =>
          sent := sent + [Notice(id, recovery, now, true)];
          if recovery {
            rows := rows[id := rows[id].(resolvedNotifiedAt := Some(now))];
          } else {
            rows := rows[id := rows[id].(notifiedAt := Some(now), notifyCount := rows[id].notifyCount + 1)];
          }
          outcome := outcome.(notified := outcome.notified + 1);
        case _ =>
          outcome := outcome.(undeliverable := outcome.undeliverable + 1);
      }
    }
  }

  // ---- what every step keeps ----------------------------------------------

  /** At most one open row per fingerprint. */
  ghost predicate OneOpen(rows: seq<Incident>) {
    forall i, j :: 0 <= i < j < |rows| && rows[i].resolvedAt.None? && rows[j].resolvedAt.None? ==>
      rows[i].fingerprint != rows[j].fingerprint
  }

  /** Messages are about rows of the table and none is from the future. */
  ghost predicate SentOk(rows: seq<Incident>, sent: seq<Notice>, clock: int) {
    forall k :: 0 <= k < |sent| ==> sent[k].id < |rows| && sent[k].at <= clock
  }

  ghost predicate Announced(sent: seq<Notice>, id: nat, at: int) {
    exists k :: 0 <= k < |sent| && sent[k] == Notice(id, false, at, true)
  }

  /** `notified_at` is the last announcement that was recorded. */
  ghost predicate NotifiedOk(rows: seq<Incident>, sent: seq<Notice>) {
    && (forall k :: 0 <= k < |sent| && !sent[k].recovery && sent[k].recorded ==>
          sent[k].id < |rows| && rows[sent[k].id].notifiedAt.Some? && sent[k].at <= rows[sent[k].id].notifiedAt.value)
    && (forall id: nat :: id < |rows| && rows[id].notifiedAt.Some? ==> Announced(sent, id, rows[id].notifiedAt.value))
  }

  ghost predicate Spaced(sent: seq<Notice>, gap: int) {
    forall i, j :: 0 <= i < j < |sent| && sent[i].id == sent[j].id && !sent[i].recovery && !sent[j].recovery && sent[i].recorded ==>
      sent[j].at - sent[i].at >= gap
  }

  /** A recovery is about a closed row. */
  ghost predicate ClosedOk(rows: seq<Incident>, sent: seq<Notice>) {
    forall k :: 0 <= k < |sent| && sent[k].recovery ==> sent[k].id < |rows| && rows[sent[k].id].resolvedAt.Some?
  }

  /** Nothing is said about an incident after its recovery, and its recovery is said after an announcement. */
  ghost predicate LastWord(sent: seq<Notice>) {
    && (forall i, j :: 0 <= i < j < |sent| && sent[i].recovery ==> sent[j].id != sent[i].id)
    && (forall j :: 0 <= j < |sent| && sent[j].recovery ==>
          exists i :: 0 <= i < j && sent[i].id == sent[j].id && !sent[i].recovery && sent[i].recorded)
  }

  ghost predicate Inv(rows: seq<Incident>, sent: seq<Notice>, gap: int, clock: int) {
    && OneOpen(rows) && SentOk(rows, sent, clock) && NotifiedOk(rows, sent) && Spaced(sent, gap)
    && ClosedOk(rows, sent) && LastWord(sent)
  }

  lemma UpsertKeeps(rows: seq<Incident>, sent: seq<Notice>, gap: int, clock: int, c: Condition, now: int)
    requires Inv(rows, sent, gap, clock) && clock <= now
    ensures Inv(Upsert(rows, c, now), sent, gap, now)
  {
    var id := OpenRow(rows, Fingerprint(c));
    var rows' := Upsert(rows, c, now);
    assert OneOpen(rows') by {
      if id == |rows| {
        assert forall k :: 0 <= k < |rows| && rows[k].resolvedAt.None? ==> !IsOpen(rows, k, Fingerprint(c));
      }
    }
    hide OneOpen, Spaced, LastWord;
    assert forall k :: 0 <= k < |rows| ==> rows'[k].notifiedAt == rows[k].notifiedAt && rows'[k].resolvedAt == rows[k].resolvedAt;
    assert id == |rows| ==> rows'[id].notifiedAt.None?;
    NotifiedCarries(rows, rows', sent);
  }

  lemma NotifiedCarries(rows: seq<Incident>, rows': seq<Incident>, sent: seq<Notice>)
    requires NotifiedOk(rows, sent) && |rows| <= |rows'|
    requires forall k :: 0 <= k < |rows| ==> rows'[k].notifiedAt == rows[k].notifiedAt
    requires forall k :: |rows| <= k < |rows'| ==> rows'[k].notifiedAt.None?
    ensures NotifiedOk(rows', sent)
  {
    hide Announced;
  }

  /** The row a condition is counted in is open, and says what was announced before. */
  lemma UpsertRow(rows: seq<Incident>, c: Condition, now: int)
    ensures var id := OpenRow(rows, Fingerprint(c));
      var rows' := Upsert(rows, c, now);
      && id < |rows'| && IsOpen(rows', id, Fingerprint(c)) && |rows| <= |rows'|
      && (forall k :: 0 <= k < |rows| ==> rows'[k].resolvedAt == rows[k].resolvedAt && rows'[k].fingerprint == rows[k].fingerprint)
      && |rows'| <= |rows| + 1
  {
  }

  lemma OneMoreSpaced(sent: seq<Notice>, gap: int, n: Notice)
    requires Spaced(sent, gap)
    requires n.recovery || forall i :: 0 <= i < |sent| && sent[i].id == n.id && !sent[i].recovery && sent[i].recorded ==>
      n.at - sent[i].at >= gap
    ensures Spaced(sent + [n], gap)
  {
  }

  lemma OneMoreLastWord(sent: seq<Notice>, n: Notice)
    requires LastWord(sent)
    requires forall i :: 0 <= i < |sent| && sent[i].recovery ==> sent[i].id != n.id
    requires n.recovery ==> exists i :: 0 <= i < |sent| && sent[i].id == n.id && !sent[i].recovery && sent[i].recorded
    ensures LastWord(sent + [n])
  {
    var more := sent + [n];
    forall j | 0 <= j < |more| && more[j].recovery
      ensures exists i :: 0 <= i < j && more[i].id == more[j].id && !more[i].recovery && more[i].recorded
    {
      if j < |sent| {
        var i :| 0 <= i < j && sent[i].id == sent[j].id && !sent[i].recovery && sent[i].recorded;
        assert more[i] == sent[i];
      } else {
        var i :| 0 <= i < |sent| && sent[i].id == n.id && !sent[i].recovery && sent[i].recorded;
        assert more[i] == sent[i];
      }
    }
  }

  lemma AnnouncedStays(sent: seq<Notice>, n: Notice, id: nat, at: int)
    ensures Announced(sent, id, at) ==> Announced(sent + [n], id, at)
    ensures n == Notice(id, false, at, true) ==> Announced(sent + [n], id, at)
  {
    if Announced(sent, id, at) {
      var k :| 0 <= k < |sent| && sent[k] == Notice(id, false, at, true);
      assert (sent + [n])[k] == Notice(id, false, at, true);
    }
    assert (sent + [n])[|sent|] == n;
  }

  /** A message about a row that may be spoken of, and what recording it makes of the table. */
  lemma MessageKeeps(rows: seq<Incident>, rows': seq<Incident>, sent: seq<Notice>, gap: int, now: int, n: Notice)
    requires Inv(rows, sent, gap, now) && n.id < |rows| && n.at == now
    requires if n.recovery then rows[n.id].resolvedAt.Some? && rows[n.id].notifiedAt.Some? else
      rows[n.id].resolvedAt.None? && Due(rows[n.id], now, gap)
    requires forall i :: 0 <= i < |sent| && sent[i].recovery ==> sent[i].id != n.id
    requires rows' == if !n.recorded then rows
      else if n.recovery then rows[n.id := rows[n.id].(resolvedNotifiedAt := Some(now))]
      else rows[n.id := rows[n.id].(notifiedAt := Some(now), notifyCount := rows[n.id].notifyCount + 1)]
    ensures Inv(rows', sent + [n], gap, now)
  {
    assert OneOpen(rows') && SentOk(rows', sent + [n], now) && ClosedOk(rows', sent + [n]);
    MessageIsSpaced(rows, sent, gap, now, n);
    if n.recovery {
      assert Announced(sent, n.id, rows[n.id].notifiedAt.value);
    }
    OneMoreLastWord(sent, n);
    hide OneOpen, Spaced, LastWord, ClosedOk, SentOk;
    MessageNotified(rows, rows', sent, now, n);
  }

  lemma MessageIsSpaced(rows: seq<Incident>, sent: seq<Notice>, gap: int, now: int, n: Notice)
    requires NotifiedOk(rows, sent) && Spaced(sent, gap) && n.id < |rows| && n.at == now
    requires !n.recovery ==> Due(rows[n.id], now, gap)
    ensures Spaced(sent + [n], gap)
  {
    OneMoreSpaced(sent, gap, n);
  }

  lemma MessageNotified(rows: seq<Incident>, rows': seq<Incident>, sent: seq<Notice>, now: int, n: Notice)
    requires NotifiedOk(rows, sent) && n.id < |rows| && |rows'| == |rows| && n.at == now
    requires forall k :: 0 <= k < |sent| ==> sent[k].at <= now
    requires forall id :: 0 <= id < |rows| && id != n.id ==> rows'[id].notifiedAt == rows[id].notifiedAt
    requires rows'[n.id].notifiedAt == if n.recorded && !n.recovery then Some(now) else rows[n.id].notifiedAt
    ensures NotifiedOk(rows', sent + [n])
  {
    forall id: nat | id < |rows'| && rows'[id].notifiedAt.Some?
      ensures Announced(sent + [n], id, rows'[id].notifiedAt.value)
    {
      AnnouncedStays(sent, n, id, rows'[id].notifiedAt.value);
    }
    hide Announced;
  }

  lemma OpenKeeps(s: State, c: Condition, now: int, gap: int, clock: int, fate: Fate)
    requires Inv(s.rows, s.sent, gap, clock) && clock <= now
    ensures Inv(Open(s, c, now, gap, fate).rows, Open(s, c, now, gap, fate).sent, gap, now)
  {
    InvLater(s.rows, s.sent, gap, clock, now);
    if s.alive && !fate.DiesFirst? {
      hide Inv, Upsert;
      UpsertKeeps(s.rows, s.sent, gap, clock, c, now);
      UpsertRow(s.rows, c, now);
      var id := OpenRow(s.rows, Fingerprint(c));
      var rows := Upsert(s.rows, c, now);
      OpenIsNotRecovered(rows, s.sent, gap, now, id);
      if Due(rows[id], now, gap) {
        NotifyKeeps(State(rows, s.sent, s.outcome, true), id, false, now, gap, fate);
      }
    }
  }

  lemma OpenIsNotRecovered(rows: seq<Incident>, sent: seq<Notice>, gap: int, now: int, id: nat)
    requires Inv(rows, sent, gap, now) && id < |rows| && rows[id].resolvedAt.None?
    ensures forall i :: 0 <= i < |sent| && sent[i].recovery ==> sent[i].id != id
  {
    hide OneOpen, SentOk, NotifiedOk, Spaced, LastWord;
  }

  lemma InvLater(rows: seq<Incident>, sent: seq<Notice>, gap: int, clock: int, now: int)
    requires Inv(rows, sent, gap, clock) && clock <= now
    ensures Inv(rows, sent, gap, now)
  {
    hide OneOpen, NotifiedOk, Spaced, ClosedOk, LastWord;
  }

  lemma NotifyKeeps(s: State, id: nat, recovery: bool, now: int, gap: int, fate: Fate)
    requires Inv(s.rows, s.sent, gap, now) && id < |s.rows|
    requires if recovery then s.rows[id].resolvedAt.Some? && s.rows[id].notifiedAt.Some?
      else s.rows[id].resolvedAt.None? && Due(s.rows[id], now, gap)
    requires forall i :: 0 <= i < |s.sent| && s.sent[i].recovery ==> s.sent[i].id != id
    ensures var t := Notify(s, id, recovery, now, fate); Inv(t.rows, t.sent, gap, now)
  {
    var t := Notify(s, id, recovery, now, fate);
    hide Inv;
    if fate.Delivered? || fate.DiesAfterSending? || fate.Misreported? {
      MessageKeeps(s.rows, t.rows, s.sent, gap, now, Notice(id, recovery, now, fate.Delivered?));
    }
  }

  lemma CloseKeeps(s: State, id: nat, seen: set<string>, now: int, gap: int, fate: Fate)
    requires Inv(s.rows, s.sent, gap, now)
    ensures var t := Close(s, id, seen, now, fate); Inv(t.rows, t.sent, gap, now)
  {
    if id < |s.rows| && s.rows[id].resolvedAt.None? {
      var rows := Resolved(s.rows, id, now);
      assert Inv(rows, s.sent, gap, now) by {
        assert OneOpen(rows) && ClosedOk(rows, s.sent) && SentOk(rows, s.sent, now);
        hide OneOpen, ClosedOk, SentOk, Spaced, LastWord;
        NotifiedCarries(s.rows, rows, s.sent);
      }
      assert forall i :: 0 <= i < |s.sent| && s.sent[i].recovery ==> s.sent[i].id != id;
      hide Inv;
      if rows[id].notifiedAt.Some? {
        forall outcome, alive {
          NotifyKeeps(State(rows, s.sent, outcome, alive), id, true, now, gap, fate);
        }
      }
    }
  }

  lemma {:induction false} OpenAllKeeps(s: State, conditions: seq<Condition>, now: int, gap: int, fates: nat -> Fate)
    requires Inv(s.rows, s.sent, gap, now)
    ensures var t := OpenAll(s, conditions, now, gap, fates); Inv(t.rows, t.sent, gap, now)
  {
    hide Inv, Open;
    if conditions != [] {
      var last := |conditions| - 1;
      OpenAllKeeps(s, conditions[..last], now, gap, fates);
      OpenKeeps(OpenAll(s, conditions[..last], now, gap, fates), conditions[last], now, gap, now, fates(last));
    }
  }

  lemma {:induction false} CloseAllKeeps(s: State, n: nat, seen: set<string>, now: int, gap: int, fates: nat -> Fate)
    requires Inv(s.rows, s.sent, gap, now)
    ensures var t := CloseAll(s, n, seen, now, fates); Inv(t.rows, t.sent, gap, now)
  {
    hide Inv, Close;
    if n != 0 {
      CloseAllKeeps(s, n - 1, seen, now, gap, fates);
      CloseKeeps(CloseAll(s, n - 1, seen, now, fates), n - 1, seen, now, gap, fates(n - 1));
    }
  }

  // ---- any scans ----------------------------------------------------------

  /** Scans that come one after another; each may die anywhere. */
  ghost predicate InOrder(scans: seq<Scan>) {
    forall i, j :: 0 <= i < j < |scans| ==> scans[i].now <= scans[j].now
  }

  function After(scans: seq<Scan>, gap: int): State {
    if scans == [] then Fresh([], []) else
      var before := After(scans[..|scans| - 1], gap);
      Reconciled(before.rows, before.sent, scans[|scans| - 1], gap)
  }

  lemma ScanKeeps(rows: seq<Incident>, sent: seq<Notice>, scan: Scan, gap: int, clock: int)
    requires Inv(rows, sent, gap, clock) && clock <= scan.now
    ensures Inv(Reconciled(rows, sent, scan, gap).rows, Reconciled(rows, sent, scan, gap).sent, gap, scan.now)
  {
    InvLater(rows, sent, gap, clock, scan.now);
    hide Inv;
    OpenAllKeeps(Fresh(rows, sent), scan.conditions, scan.now, gap, scan.opening);
    var s := OpenAll(Fresh(rows, sent), scan.conditions, scan.now, gap, scan.opening);
    CloseAllKeeps(s, |s.rows|, Seen(scan.conditions), scan.now, gap, scan.closing);
  }

  lemma NothingSaid(gap: int, clock: int)
    ensures Inv([], [], gap, clock)
  {
    var rows: seq<Incident>, sent: seq<Notice> := [], [];
    assert OneOpen(rows) && SentOk(rows, sent, clock) && Spaced(sent, gap) && ClosedOk(rows, sent) && LastWord(sent);
    assert NotifiedOk(rows, sent);
    hide OneOpen, SentOk, NotifiedOk, Spaced, ClosedOk, LastWord;
  }

  lemma {:induction false} ReachableOk(scans: seq<Scan>, gap: int)
    requires scans != [] && InOrder(scans)
    ensures Inv(After(scans, gap).rows, After(scans, gap).sent, gap, scans[|scans| - 1].now)
  {
    var init, last := scans[..|scans| - 1], scans[|scans| - 1];
    hide Inv, Reconciled;
    if init == [] {
      NothingSaid(gap, last.now);
      assert After(init, gap) == Fresh([], []);
      ScanKeeps([], [], last, gap, last.now);
    } else {
      ReachableOk(init, gap);
      assert init[|init| - 1] == scans[|init| - 1];
      ScanKeeps(After(init, gap).rows, After(init, gap).sent, last, gap, init[|init| - 1].now);
    }
  }

  // ---- the main results ---------------------------------------------------

  /**
    Whatever fails: announcements of one incident are at least the gap apart,
    counting from each that was recorded; its recovery is sent at most once, only
    after an announcement, and nothing is said about it afterwards.
  */
  lemma {:induction false} NoNoise(scans: seq<Scan>, gap: int, i: nat, j: nat)
    requires scans != [] && InOrder(scans) && i < j < |After(scans, gap).sent|
    ensures var sent := After(scans, gap).sent;
      sent[i].id == sent[j].id ==>
        && !sent[i].recovery
        && (sent[i].recorded && !sent[j].recovery ==> sent[j].at - sent[i].at >= gap)
    ensures var sent := After(scans, gap).sent;
      sent[j].recovery ==> exists k :: 0 <= k < j && sent[k].id == sent[j].id && !sent[k].recovery && sent[k].recorded
  {
    ReachableOk(scans, gap);
  }

  ghost predicate HasOpen(rows: seq<Incident>, fingerprint: string) {
    exists id: nat :: IsOpen(rows, id, fingerprint)
  }

  /** The row was announced less than the gap ago. */
  ghost predicate Recent(row: Incident, now: int, gap: int) {
    row.notifiedAt.Some? && now < row.notifiedAt.value + gap
  }

  /** The open incident was announced less than the gap ago. */
  ghost predicate Told(rows: seq<Incident>, fingerprint: string, now: int, gap: int) {
    exists id: nat :: IsOpen(rows, id, fingerprint) && Recent(rows[id], now, gap)
  }

  /** Rows already there stay open under the same fingerprint, and what was announced in time stays so. */
  ghost predicate Extends(rows: seq<Incident>, rows': seq<Incident>, now: int, gap: int) {
    && |rows| <= |rows'|
    && forall k :: 0 <= k < |rows| ==>
         && rows'[k].resolvedAt == rows[k].resolvedAt && rows'[k].fingerprint == rows[k].fingerprint
         && (Recent(rows[k], now, gap) ==> Recent(rows'[k], now, gap))
  }

  lemma ExtendedOpen(rows: seq<Incident>, rows': seq<Incident>, now: int, gap: int, fingerprint: string)
    requires Extends(rows, rows', now, gap)
    ensures HasOpen(rows, fingerprint) ==> HasOpen(rows', fingerprint)
    ensures Told(rows, fingerprint, now, gap) ==> Told(rows', fingerprint, now, gap)
  {
    if id: nat :| IsOpen(rows, id, fingerprint) {
      assert IsOpen(rows', id, fingerprint);
    }
    if id: nat :| IsOpen(rows, id, fingerprint) && Recent(rows[id], now, gap) {
      assert IsOpen(rows', id, fingerprint) && Recent(rows'[id], now, gap);
    }
  }

  lemma OpenSees(s: State, c: Condition, now: int, gap: int, fate: Fate)
    requires gap > 0
    ensures var t := Open(s, c, now, gap, fate);
      && Extends(s.rows, t.rows, now, gap) && (t.alive ==> s.alive)
      && (t.alive ==> HasOpen(t.rows, Fingerprint(c)))
      && (s.alive && fate.Delivered? ==> t.alive && Told(t.rows, Fingerprint(c), now, gap))
  {
    UpsertRow(s.rows, c, now);
    var id := OpenRow(s.rows, Fingerprint(c));
    var t := Open(s, c, now, gap, fate);
    if t.alive {
      assert IsOpen(t.rows, id, Fingerprint(c));
    }
  }

  lemma {:induction false} OpenAllSees(s: State, conditions: seq<Condition>, now: int, gap: int, fates: nat -> Fate, k: nat)
    requires gap > 0 && k < |conditions|
    ensures var t := OpenAll(s, conditions, now, gap, fates);
      && (t.alive ==> HasOpen(t.rows, Fingerprint(conditions[k])))
      && (s.alive && (forall n: nat :: fates(n) == Delivered) ==> t.alive && Told(t.rows, Fingerprint(conditions[k]), now, gap))
  {
    hide Open, HasOpen, Told, Extends, Fingerprint;
    var last := |conditions| - 1;
    var init := conditions[..last];
    var before := OpenAll(s, init, now, gap, fates);
    OpenAllLives(s, init, now, gap, fates);
    OpenSees(before, conditions[last], now, gap, fates(last));
    if k < last {
      OpenAllSees(s, init, now, gap, fates, k);
      ExtendedOpen(before.rows, OpenAll(s, conditions, now, gap, fates).rows, now, gap, Fingerprint(conditions[k]));
    }
  }

  lemma {:induction false} OpenAllLives(s: State, conditions: seq<Condition>, now: int, gap: int, fates: nat -> Fate)
    requires gap > 0
    ensures var t := OpenAll(s, conditions, now, gap, fates);
      (t.alive ==> s.alive) && (s.alive && (forall n: nat :: fates(n) == Delivered) ==> t.alive)
  {
    if conditions != [] {
      var last := |conditions| - 1;
      OpenAllLives(s, conditions[..last], now, gap, fates);
      OpenSees(OpenAll(s, conditions[..last], now, gap, fates), conditions[last], now, gap, fates(last));
      hide Open, HasOpen, Told, Extends, Fingerprint;
    }
  }

  /** Below `n` only seen fingerprints are open; rows of seen fingerprints are left alone. */
  ghost predicate Swept(rows: seq<Incident>, rows': seq<Incident>, n: nat, seen: set<string>) {
    && |rows'| == |rows|
    && (forall id :: 0 <= id < |rows| ==> rows'[id].fingerprint == rows[id].fingerprint)
    && (forall id :: 0 <= id < |rows| && (id >= n || rows[id].fingerprint in seen) ==> rows'[id] == rows[id])
    && (forall id :: 0 <= id < n && id < |rows| && rows'[id].resolvedAt.None? ==> rows[id].fingerprint in seen)
  }

  ghost predicate AllDelivered(fates: nat -> Fate) {
    forall k: nat :: fates(k) == Delivered
  }

  lemma {:induction false} CloseAllSweeps(s: State, n: nat, seen: set<string>, now: int, fates: nat -> Fate)
    requires n <= |s.rows|
    ensures var t := CloseAll(s, n, seen, now, fates); t.alive ==> s.alive && Swept(s.rows, t.rows, n, seen)
  {
    hide Close, Swept, OneSwept;
    if n != 0 {
      CloseAllSweeps(s, n - 1, seen, now, fates);
      var before := CloseAll(s, n - 1, seen, now, fates);
      CloseSweeps(before, n - 1, seen, now, fates(n - 1));
      OneMoreSwept(s.rows, before.rows, CloseAll(s, n, seen, now, fates).rows, n - 1, seen);
    } else {
      NothingSwept(s.rows, seen);
    }
  }

  lemma {:induction false} CloseAllLives(s: State, n: nat, seen: set<string>, now: int, fates: nat -> Fate)
    requires s.alive && AllDelivered(fates)
    ensures CloseAll(s, n, seen, now, fates).alive
  {
    if n != 0 {
      hide Close, OneSwept;
      CloseAllLives(s, n - 1, seen, now, fates);
      CloseSweeps(CloseAll(s, n - 1, seen, now, fates), n - 1, seen, now, fates(n - 1));
    }
  }

  lemma NothingSwept(rows: seq<Incident>, seen: set<string>)
    ensures Swept(rows, rows, 0, seen)
  {
  }

  /** Only this row may have changed, and it is open afterwards only if it was seen. */
  ghost predicate OneSwept(rows: seq<Incident>, rows': seq<Incident>, id: nat, seen: set<string>) {
    && |rows'| == |rows| && (forall k :: 0 <= k < |rows| && k != id ==> rows'[k] == rows[k])
    && (id < |rows| ==>
          && rows'[id].fingerprint == rows[id].fingerprint
          && (rows[id].fingerprint in seen ==> rows'[id] == rows[id])
          && (rows'[id].resolvedAt.None? ==> rows[id].fingerprint in seen))
  }

  lemma OneMoreSwept(rows: seq<Incident>, before: seq<Incident>, after: seq<Incident>, id: nat, seen: set<string>)
    ensures Swept(rows, before, id, seen) && OneSwept(before, after, id, seen) ==> Swept(rows, after, id + 1, seen)
  {
  }

  lemma CloseSweeps(s: State, id: nat, seen: set<string>, now: int, fate: Fate)
    ensures var t := Close(s, id, seen, now, fate);
      (t.alive ==> s.alive && OneSwept(s.rows, t.rows, id, seen)) && (s.alive && fate.Delivered? ==> t.alive)
  {
  }

  /**
    After a scan that ran to its end the open incidents are exactly what it saw,
    one row each, however many messages failed; and if every message got through
    each of them was announced less than the gap ago.
  */
  lemma {:induction false} CompletedScan(scans: seq<Scan>, gap: int)
    requires scans != [] && InOrder(scans) && gap > 0
    ensures var rows := After(scans, gap).rows;
      var scan := scans[|scans| - 1];
      && OneOpen(rows)
      && (After(scans, gap).alive ==>
            forall fingerprint :: HasOpen(rows, fingerprint) <==> fingerprint in Seen(scan.conditions))
      && ((forall k: nat :: scan.opening(k) == scan.closing(k) == Delivered) ==>
            After(scans, gap).alive && forall c :: c in scan.conditions ==> Told(rows, Fingerprint(c), scan.now, gap))
  {
    ReachableOk(scans, gap);
    var before := After(scans[..|scans| - 1], gap);
    var scan := scans[|scans| - 1];
    var s := OpenAll(Fresh(before.rows, before.sent), scan.conditions, scan.now, gap, scan.opening);
    OpenAllLives(Fresh(before.rows, before.sent), scan.conditions, scan.now, gap, scan.opening);
    forall k | 0 <= k < |scan.conditions|
      ensures s.alive ==> HasOpen(s.rows, Fingerprint(scan.conditions[k]))
      ensures (forall n: nat :: scan.opening(n) == Delivered) ==> Told(s.rows, Fingerprint(scan.conditions[k]), scan.now, gap)
    {
      OpenAllSees(Fresh(before.rows, before.sent), scan.conditions, scan.now, gap, scan.opening, k);
    }
    CloseAllSweeps(s, |s.rows|, Seen(scan.conditions), scan.now, scan.closing);
    if s.alive && AllDelivered(scan.closing) {
      CloseAllLives(s, |s.rows|, Seen(scan.conditions), scan.now, scan.closing);
    }
    var t := After(scans, gap);
    hide After, OpenAll, CloseAll, NotifiedOk, Spaced, ClosedOk, LastWord, SentOk, OneOpen, Fingerprint;
    if t.alive {
      SweptOpen(s.rows, t.rows, scan.conditions, scan.now, gap);
    }
  }

  lemma SweptOpen(rows: seq<Incident>, rows': seq<Incident>, conditions: seq<Condition>, now: int, gap: int)
    requires Swept(rows, rows', |rows|, Seen(conditions))
    requires forall k :: 0 <= k < |conditions| ==> HasOpen(rows, Fingerprint(conditions[k]))
    ensures forall fingerprint :: HasOpen(rows', fingerprint) <==> fingerprint in Seen(conditions)
    ensures forall c :: c in conditions && Told(rows, Fingerprint(c), now, gap) ==> Told(rows', Fingerprint(c), now, gap)
  {
    hide Fingerprint;
    forall fingerprint
      ensures HasOpen(rows', fingerprint) <==> fingerprint in Seen(conditions)
    {
      if fingerprint in Seen(conditions) {
        var c :| c in conditions && Fingerprint(c) == fingerprint;
        var k :| 0 <= k < |conditions| && conditions[k] == c;
        assert HasOpen(rows, Fingerprint(conditions[k]));
        var id: nat :| IsOpen(rows, id, fingerprint);
        assert IsOpen(rows', id, fingerprint);
      }
    }
    forall c | c in conditions && Told(rows, Fingerprint(c), now, gap)
      ensures Told(rows', Fingerprint(c), now, gap)
    {
      var id: nat :| IsOpen(rows, id, Fingerprint(c)) && Recent(rows[id], now, gap);
      assert Fingerprint(c) in Seen(conditions);
      assert IsOpen(rows', id, Fingerprint(c)) && Recent(rows'[id], now, gap);
    }
  }

  // ---- what a scan adds up to ---------------------------------------------

  /** How often every incident was seen, all together. */
  ghost function Sightings(rows: seq<Incident>): nat {
    if rows == [] then 0 else Sightings(rows[..|rows| - 1]) + rows[|rows| - 1].occurrences
  }

  ghost function StillOpen(rows: seq<Incident>): nat {
    if rows == [] then 0 else StillOpen(rows[..|rows| - 1]) + if rows[|rows| - 1].resolvedAt.None? then 1 else 0
  }

  lemma {:induction false} SightingsMove(rows: seq<Incident>, id: nat, row: Incident)
    requires id < |rows|
    ensures Sightings(rows[id := row]) == Sightings(rows) - rows[id].occurrences + row.occurrences
    ensures StillOpen(rows[id := row]) ==
      StillOpen(rows) - (if rows[id].resolvedAt.None? then 1 else 0) + (if row.resolvedAt.None? then 1 else 0)
  {
    var init := rows[..|rows| - 1];
    var rows' := rows[id := row];
    if id < |init| {
      SightingsMove(init, id, row);
      assert rows'[..|rows'| - 1] == init[id := row];
    } else {
      assert rows'[..|rows'| - 1] == init;
    }
  }

  lemma SightingsGrow(rows: seq<Incident>, row: Incident)
    ensures Sightings(rows + [row]) == Sightings(rows) + row.occurrences
    ensures StillOpen(rows + [row]) == StillOpen(rows) + if row.resolvedAt.None? then 1 else 0
  {
    assert (rows + [row])[..|rows|] == rows;
  }

  ghost predicate Occurred(rows: seq<Incident>) {
    forall id :: 0 <= id < |rows| ==> rows[id].occurrences >= 1
  }

  /** One condition is one more sighting, and is either a new incident or one that goes on. */
  lemma OpenAdds(s: State, c: Condition, now: int, gap: int, fate: Fate)
    requires Occurred(s.rows)
    ensures var t := Open(s, c, now, gap, fate);
      && Occurred(t.rows)
      && (t.alive ==>
            && s.alive && Sightings(t.rows) == Sightings(s.rows) + 1
            && |t.outcome.begun| - |s.outcome.begun| == |t.rows| - |s.rows| == StillOpen(t.rows) - StillOpen(s.rows)
            && |t.outcome.begun| + |t.outcome.stillOpen| == |s.outcome.begun| + |s.outcome.stillOpen| + 1
            && t.outcome.resolved == s.outcome.resolved
            && t.outcome.notified + t.outcome.undeliverable <= s.outcome.notified + s.outcome.undeliverable + 1)
  {
    if s.alive && !fate.DiesFirst? {
      var id := OpenRow(s.rows, Fingerprint(c));
      var rows := Upsert(s.rows, c, now);
      hide Upsert, Sightings, StillOpen, Fingerprint, OpenRow, Occurred, Notify;
      UpsertAdds(s.rows, c, now);
      NotifyAdds(s.(rows := rows, outcome := Counted(s.outcome, c, rows[id].occurrences)), id, false, now, fate);
    }
  }

  /** A message counts for nothing but itself. */
  lemma NotifyAdds(s: State, id: nat, recovery: bool, now: int, fate: Fate)
    requires id < |s.rows|
    ensures var t := Notify(s, id, recovery, now, fate);
      && (Occurred(s.rows) ==> Occurred(t.rows))
      && |t.rows| == |s.rows| && Sightings(t.rows) == Sightings(s.rows) && StillOpen(t.rows) == StillOpen(s.rows)
      && t.outcome.begun == s.outcome.begun && t.outcome.stillOpen == s.outcome.stillOpen
      && t.outcome.resolved == s.outcome.resolved
      && t.outcome.notified == s.outcome.notified + (if fate == Delivered then 1 else 0)
      && t.outcome.undeliverable == s.outcome.undeliverable + if fate in {Refused, Misreported, Unconfigured, DiesFirst} then 1 else 0
  {
    hide Sightings, StillOpen;
    SightingsMove(s.rows, id, s.rows[id].(resolvedNotifiedAt := Some(now)));
    SightingsMove(s.rows, id, s.rows[id].(notifiedAt := Some(now), notifyCount := s.rows[id].notifyCount + 1));
  }

  lemma UpsertAdds(rows: seq<Incident>, c: Condition, now: int)
    requires Occurred(rows)
    ensures var id, rows' := OpenRow(rows, Fingerprint(c)), Upsert(rows, c, now);
      && Occurred(rows') && Sightings(rows') == Sightings(rows) + 1 && id < |rows'|
      && |rows'| - |rows| == StillOpen(rows') - StillOpen(rows) == if rows'[id].occurrences == 1 then 1 else 0
  {
    var id, rows' := OpenRow(rows, Fingerprint(c)), Upsert(rows, c, now);
    hide Sightings, StillOpen, Fingerprint;
    if id < |rows| {
      SightingsMove(rows, id, rows'[id]);
      assert IsOpen(rows, id, Fingerprint(c));
    } else {
      SightingsGrow(rows, rows'[id]);
    }
  }

  lemma CloseAdds(s: State, id: nat, seen: set<string>, now: int, fate: Fate)
    requires Occurred(s.rows)
    ensures var t := Close(s, id, seen, now, fate);
      && Occurred(t.rows) && |t.rows| == |s.rows| && Sightings(t.rows) == Sightings(s.rows)
      && (t.alive ==>
            && s.alive && |t.outcome.resolved| - |s.outcome.resolved| == StillOpen(s.rows) - StillOpen(t.rows)
            && t.outcome.begun == s.outcome.begun && t.outcome.stillOpen == s.outcome.stillOpen)
  {
    if id < |s.rows| && s.rows[id].resolvedAt.None? {
      var rows := Resolved(s.rows, id, now);
      hide Sightings, StillOpen, Notify;
      SightingsMove(s.rows, id, rows[id]);
      if s.alive && s.rows[id].fingerprint !in seen && fate != DiesFirst {
        NotifyAdds(s.(rows := rows, outcome := s.outcome.(resolved := s.outcome.resolved + [s.rows[id].kind])), id, true, now, fate);
      }
    }
  }

  lemma {:induction false} OpenAllAdds(s: State, conditions: seq<Condition>, now: int, gap: int, fates: nat -> Fate)
    requires Occurred(s.rows)
    ensures var t := OpenAll(s, conditions, now, gap, fates);
      && Occurred(t.rows)
      && (t.alive ==>
            && s.alive && Sightings(t.rows) == Sightings(s.rows) + |conditions|
            && |t.outcome.begun| - |s.outcome.begun| == |t.rows| - |s.rows| == StillOpen(t.rows) - StillOpen(s.rows)
            && |t.outcome.begun| + |t.outcome.stillOpen| == |s.outcome.begun| + |s.outcome.stillOpen| + |conditions|
            && t.outcome.resolved == s.outcome.resolved)
  {
    hide Open, Occurred, Sightings, StillOpen;
    if conditions != [] {
      var last := |conditions| - 1;
      OpenAllAdds(s, conditions[..last], now, gap, fates);
      OpenAdds(OpenAll(s, conditions[..last], now, gap, fates), conditions[last], now, gap, fates(last));
    }
  }

  lemma {:induction false} CloseAllAdds(s: State, n: nat, seen: set<string>, now: int, fates: nat -> Fate)
    requires Occurred(s.rows)
    ensures var t := CloseAll(s, n, seen, now, fates);
      && Occurred(t.rows) && |t.rows| == |s.rows| && Sightings(t.rows) == Sightings(s.rows)
      && (t.alive ==>
            && s.alive && |t.outcome.resolved| - |s.outcome.resolved| == StillOpen(s.rows) - StillOpen(t.rows)
            && t.outcome.begun == s.outcome.begun && t.outcome.stillOpen == s.outcome.stillOpen)
  {
    hide Close, Occurred, Sightings, StillOpen;
    if n != 0 {
      CloseAllAdds(s, n - 1, seen, now, fates);
      CloseAdds(CloseAll(s, n - 1, seen, now, fates), n - 1, seen, now, fates(n - 1));
    }
  }

  lemma {:induction false} AlwaysOccurred(scans: seq<Scan>, gap: int)
    ensures Occurred(After(scans, gap).rows)
  {
    if scans != [] {
      var before, scan := After(scans[..|scans| - 1], gap), scans[|scans| - 1];
      AlwaysOccurred(scans[..|scans| - 1], gap);
      hide Occurred, OpenAll, CloseAll, Sightings, StillOpen;
      OpenAllAdds(Fresh(before.rows, before.sent), scan.conditions, scan.now, gap, scan.opening);
      var s := OpenAll(Fresh(before.rows, before.sent), scan.conditions, scan.now, gap, scan.opening);
      CloseAllAdds(s, |s.rows|, Seen(scan.conditions), scan.now, scan.closing);
    }
  }

  /**
    Nothing is lost or counted twice: a scan that ran to its end counts each of its
    conditions once, says of each that it began or goes on, begins exactly the new
    incidents, and says of as many that they are over as are no longer open.
  */
  lemma {:induction false} ScanAddsUp(scans: seq<Scan>, gap: int)
    requires scans != [] && After(scans, gap).alive
    ensures var before, after := After(scans[..|scans| - 1], gap), After(scans, gap);
      var found := |scans[|scans| - 1].conditions|;
      && Sightings(after.rows) == Sightings(before.rows) + found
      && |after.outcome.begun| + |after.outcome.stillOpen| == found
      && |after.outcome.begun| == |after.rows| - |before.rows|
      && StillOpen(after.rows) == StillOpen(before.rows) + |after.outcome.begun| - |after.outcome.resolved|
  {
    var before, scan := After(scans[..|scans| - 1], gap), scans[|scans| - 1];
    AlwaysOccurred(scans[..|scans| - 1], gap);
    hide Occurred, OpenAll, CloseAll, Sightings, StillOpen;
    OpenAllAdds(Fresh(before.rows, before.sent), scan.conditions, scan.now, gap, scan.opening);
    var s := OpenAll(Fresh(before.rows, before.sent), scan.conditions, scan.now, gap, scan.opening);
    CloseAllAdds(s, |s.rows|, Seen(scan.conditions), scan.now, scan.closing);
  }

  /** What closing makes of a row: when, and when its recovery was told, if its opening had been and the message got through. */
  ghost predicate ClosedAt(row: Incident, row': Incident, now: int, delivered: bool) {
    row' == row.(resolvedAt := Some(now),
      resolvedNotifiedAt := if row.notifiedAt.Some? && delivered then Some(now) else row.resolvedNotifiedAt)
  }

  /**
    The second loop, if it runs to its end: every open incident that was not seen is
    closed now; where it had been announced and the message got through, its
    recovery was sent and recorded; every other row stays as it was.
  */
  lemma {:induction false} RecoveriesAreTold(s: State, n: nat, seen: set<string>, now: int, fates: nat -> Fate, id: nat)
    requires n <= |s.rows| && id < |s.rows| && CloseAll(s, n, seen, now, fates).alive
    ensures var t := CloseAll(s, n, seen, now, fates);
      && |t.rows| == |s.rows| && s.sent <= t.sent
      && if id < n && s.rows[id].resolvedAt.None? && s.rows[id].fingerprint !in seen then
           && ClosedAt(s.rows[id], t.rows[id], now, fates(id) == Delivered)
           && (s.rows[id].notifiedAt.Some? && fates(id) == Delivered ==> Notice(id, true, now, true) in t.sent[|s.sent|..])
         else t.rows[id] == s.rows[id]
  {
    if n != 0 {
      var before := CloseAll(s, n - 1, seen, now, fates);
      CloseLives(before, n - 1, seen, now, fates(n - 1));
      hide Close, ClosedAt;
      RecoveriesAreTold(s, n - 1, seen, now, fates, id);
      RecoveriesAreTold(s, n - 1, seen, now, fates, n - 1);
      CloseTells(before, n - 1, seen, now, fates(n - 1));
      SentSince(s.sent, before.sent, CloseAll(s, n, seen, now, fates).sent, Notice(id, true, now, true));
    }
  }

  lemma SentSince(first: seq<Notice>, mid: seq<Notice>, last: seq<Notice>, n: Notice)
    requires first <= mid <= last
    ensures first <= last
    ensures n in mid[|first|..] ==> n in last[|first|..]
    ensures last == mid + [n] ==> n in last[|first|..]
  {
    if n in mid[|first|..] {
      var k :| 0 <= k < |mid[|first|..]| && mid[|first|..][k] == n;
      assert last[|first|..][k] == n;
    }
    if last == mid + [n] {
      assert last[|first|..][|mid| - |first|] == n;
    }
  }

  lemma CloseLives(s: State, id: nat, seen: set<string>, now: int, fate: Fate)
    ensures Close(s, id, seen, now, fate).alive ==> s.alive
  {
  }

  lemma CloseTells(s: State, id: nat, seen: set<string>, now: int, fate: Fate)
    requires id < |s.rows| && Close(s, id, seen, now, fate).alive
    ensures var t := Close(s, id, seen, now, fate);
      && s.alive && |t.rows| == |s.rows| && s.sent <= t.sent
      && (forall k :: 0 <= k < |s.rows| && k != id ==> t.rows[k] == s.rows[k])
      && if s.rows[id].resolvedAt.None? && s.rows[id].fingerprint !in seen then
           && ClosedAt(s.rows[id], t.rows[id], now, fate == Delivered)
           && (s.rows[id].notifiedAt.Some? && fate == Delivered ==> t.sent == s.sent + [Notice(id, true, now, true)])
         else t.rows[id] == s.rows[id]
  {
  }

  /**
    Why only recorded announcements space the next: one that arrived and was not
    recorded is sent again, whether the process died before recording it or the
    destination reported a failure all the same.
  */
  lemma UnrecordedIsRepeated(c: Condition, fate: Fate)
    requires fate in {DiesAfterSending, Misreported}
    ensures After([OneFound(c, fate), OneFound(c, Delivered)], RENOTIFY_AFTER).sent == [Notice(0, false, 0, false), Notice(0, false, 0, true)]
  {
    var first, next := OneFound(c, fate), OneFound(c, Delivered);
    FirstScan(c, fate);
    NextScan(c);
    hide Reconciled, OneFound, FirstRow;
    AfterOneMore([], first);
    AfterOneMore([first], next);
    assert [] + [first] == [first] && [first] + [next] == [first, next];
  }

  /** A scan at time 0 that finds one condition, and what becomes of announcing it. */
  function OneFound(c: Condition, fate: Fate): Scan {
    Scan([c], 0, n => fate, n => Delivered)
  }

  lemma FirstScan(c: Condition, fate: Fate)
    requires fate in {DiesAfterSending, Misreported}
    ensures var s := Reconciled([], [], OneFound(c, fate), RENOTIFY_AFTER);
      s.rows == [FirstRow(c)] && s.sent == [Notice(0, false, 0, false)]
  {
    FirstTold(c, fate);
    hide Open, FirstRow, Reconciled;
    OneCondition([], [], c, OneFound(c, fate), fate);
  }

  lemma NextScan(c: Condition)
    ensures Reconciled([FirstRow(c)], [Notice(0, false, 0, false)], OneFound(c, Delivered), RENOTIFY_AFTER).sent ==
      [Notice(0, false, 0, false), Notice(0, false, 0, true)]
  {
    ThenTold(c);
    FirstRowIs(c);
    hide Open, FirstRow, Reconciled;
    OneCondition([FirstRow(c)], [Notice(0, false, 0, false)], c, OneFound(c, Delivered), Delivered);
  }

  lemma AfterOneMore(scans: seq<Scan>, scan: Scan)
    ensures var before := After(scans, RENOTIFY_AFTER);
      After(scans + [scan], RENOTIFY_AFTER) == Reconciled(before.rows, before.sent, scan, RENOTIFY_AFTER)
  {
    hide Reconciled;
    assert (scans + [scan])[..|scans|] == scans;
  }

  function FirstRow(c: Condition): Incident {
    Incident(Fingerprint(c), c.kind, c.severity, c.title, 1, 0, 0, None, 0, None, None)
  }

  lemma FirstRowIs(c: Condition)
    ensures FirstRow(c).fingerprint == Fingerprint(c) && FirstRow(c).resolvedAt.None?
  {
  }

  lemma FirstTold(c: Condition, fate: Fate)
    requires fate in {DiesAfterSending, Misreported}
    ensures var s := Open(Fresh([], []), c, 0, RENOTIFY_AFTER, fate);
      s.rows == [FirstRow(c)] && s.sent == [Notice(0, false, 0, false)]
  {
    assert Upsert([], c, 0) == [FirstRow(c)] && OpenRow([], Fingerprint(c)) == 0;
  }

  lemma ThenTold(c: Condition)
    ensures Open(Fresh([FirstRow(c)], [Notice(0, false, 0, false)]), c, 0, RENOTIFY_AFTER, Delivered).sent ==
      [Notice(0, false, 0, false), Notice(0, false, 0, true)]
  {
    OnlyOneRow([FirstRow(c)], c);
    assert Due(FirstRow(c), 0, RENOTIFY_AFTER);
  }

  /** A scan of one condition about the only incident there is opens or counts it, announces it, and closes nothing. */
  lemma OneCondition(rows: seq<Incident>, sent: seq<Notice>, c: Condition, scan: Scan, fate: Fate)
    requires |rows| <= 1 && (rows != [] ==> rows[0].fingerprint == Fingerprint(c) && rows[0].resolvedAt.None?)
    requires scan.conditions == [c] && scan.opening(0) == fate && scan.now == 0
    ensures Reconciled(rows, sent, scan, RENOTIFY_AFTER) == Open(Fresh(rows, sent), c, 0, RENOTIFY_AFTER, fate)
  {
    var s := Open(Fresh(rows, sent), c, 0, RENOTIFY_AFTER, fate);
    assert [c][..0] == [];
    assert OpenAll(Fresh(rows, sent), [c], 0, RENOTIFY_AFTER, scan.opening) == s;
    assert Fingerprint(c) in Seen([c]);
    OnlyOneRow(rows, c);
    assert |s.rows| <= 1 && (s.rows != [] ==> s.rows[0].fingerprint == Fingerprint(c));
    assert CloseAll(s, 0, Seen([c]), 0, scan.closing) == s;
    hide OpenAll, Open;
    assert |s.rows| == 1 ==> CloseAll(s, 1, Seen([c]), 0, scan.closing) == Close(s, 0, Seen([c]), 0, scan.closing(0)) == s;
  }

  lemma OnlyOneRow(rows: seq<Incident>, c: Condition)
    requires |rows| <= 1 && (rows != [] ==> rows[0].fingerprint == Fingerprint(c) && rows[0].resolvedAt.None?)
    ensures var rows' := Upsert(rows, c, 0);
      |rows'| == 1 && rows'[0].fingerprint == Fingerprint(c) && OpenRow(rows, Fingerprint(c)) == 0
  {
    if rows != [] {
      assert rows[..0] == [];
      assert IsOpen(rows, 0, Fingerprint(c));
    }
  }
}
