/**
  Reconciling what a crawl found with what was already known about one website
  (api/analysis/runner.py, `_reconcile` and `_observe`). An issue is identified
  by its fingerprint, which is unique per website. Every statement commits as it
  goes: a run may die between any two, and customers answer at any moment.
*/
module IssueLifecycle {
  import opened Prelude

  datatype Status = Open | Snoozed | Dismissed | Applied | Verified | Regressed | Resolved

  datatype Issue = Issue(status: Status, severity: string, snoozedUntil: Option<int>, detectedAt: int, resolvedAt: Option<int>)
  {
    /** A customer's answer that a new sighting does not override. */
    predicate Silenced(now: int) {
      status.Dismissed? || (status.Snoozed? && snoozedUntil.Some? && snoozedUntil.value > now)
    }
  }

  datatype Finding = Finding(fingerprint: string, severity: string)

  datatype Observation = Observation(fingerprint: string, present: bool, severity: Option<string>)

  /** A status that a run wrote, and whether the observation that belongs to it followed. */
  datatype Write = Write(fingerprint: string, present: bool, recorded: bool)

  datatype Tally = Tally(open: nat, added: nat, resolved: nat, regressed: nat)

  const ZERO := Tally(0, 0, 0, 0)

  /** What a customer says about an issue: only marking it applied has a button, and it asks that the issue is not closed. */
  datatype Answer = MarkApplied | Dismiss | Snooze(until: Option<int>)

  datatype Edit = Edit(fingerprint: string, answer: Answer)

  datatype Fate = Completes | DiesFirst | DiesBetween

  /**
    One status write and the observation after it: what customers answer just
    before the one and just before the other, the clock, and how far it gets.
  */
  datatype Turn = Turn(before: seq<Edit>, at: int, between: seq<Edit>, fate: Fate)

  /** The two tables, every status write so far, and the run in progress. */
  datatype State = State(issues: map<string, Issue>, log: seq<Observation>, writes: seq<Write>, tally: Tally, alive: bool)

  // ---- the statements -----------------------------------------------------

  function Answered(row: Issue, answer: Answer): Issue {
    if row.status !in {Open, Regressed, Snoozed} then row else
      match answer
      case MarkApplied => row.(status := Applied)
      case Dismiss => row.(status := Dismissed)
      case Snooze(until) => row.(status := Snoozed, snoozedUntil := until)
  }

  function Land(issues: map<string, Issue>, edits: seq<Edit>): (r: map<string, Issue>)
    ensures r.Keys == issues.Keys
  {
    if edits == [] then issues else
      var before, last := Land(issues, edits[..|edits| - 1]), edits[|edits| - 1];
      if last.fingerprint in before then before[last.fingerprint := Answered(before[last.fingerprint], last.answer)] else before
  }

  /** What an answer does: nothing to an issue that is closed, and otherwise what it says. */
  lemma AnswerLands(issues: map<string, Issue>, fp: string, answer: Answer)
    requires fp in issues
    ensures var after := Land(issues, [Edit(fp, answer)]);
      && (forall other :: other in issues && other != fp ==> after[other] == issues[other])
      && after[fp] ==
           if issues[fp].status in {Dismissed, Applied, Verified, Resolved} then issues[fp]
           else if answer == Dismiss then issues[fp].(status := Dismissed)
           else if answer == MarkApplied then issues[fp].(status := Applied)
           else issues[fp].(status := Snoozed, snoozedUntil := answer.until)
  {
    var edits := [Edit(fp, answer)];
    assert edits[..|edits| - 1] == [] && edits[|edits| - 1] == Edit(fp, answer);
    assert Land(issues, []) == issues;
    var status := issues[fp].status;
    assert status.Open? || status.Snoozed? || status.Regressed? || status in {Dismissed, Applied, Verified, Resolved};
  }

  /** Answers land one after the other. */
  lemma {:induction false} LandInOrder(issues: map<string, Issue>, first: seq<Edit>, rest: seq<Edit>)
    ensures Land(issues, first + rest) == Land(Land(issues, first), rest)
  {
    if rest == [] {
      assert first + rest == first;
    } else {
      LandInOrder(issues, first, rest[..|rest| - 1]);
      assert (first + rest)[..|first + rest| - 1] == first + rest[..|rest| - 1];
    }
  }

  /** The status a sighting proposes, from the status before the run. */
  function Proposed(existing: map<string, Issue>, fp: string): Status {
    if fp in existing && existing[fp].status in {Verified, Resolved} then Regressed else Open
  }

  /** `insert ... on conflict do update` */
  function Upserted(issues: map<string, Issue>, f: Finding, status: Status, now: int): Issue {
    if f.fingerprint !in issues then
      Issue(status, f.severity, None, now, None)
    else
      var row := issues[f.fingerprint];
      row.(severity := f.severity, detectedAt := now, status := if row.Silenced(now) then row.status else status)
  }

  /** One finding of a run. */
  function Sight(s: State, existing: map<string, Issue>, f: Finding, turn: Turn): State {
    if !s.alive then s else
      var fp := f.fingerprint;
      var issues := Land(s.issues, turn.before);
      if turn.fate.DiesFirst? then s.(issues := issues, alive := false) else
        var status := Proposed(existing, fp);
        var row := Upserted(issues, f, status, turn.at);
        var recorded := turn.fate.Completes?;
        State(
          Land(issues[fp := row], turn.between),
          if recorded then s.log + [Observation(fp, true, Some(f.severity))] else s.log,
          s.writes + [Write(fp, true, recorded)],
          s.tally.(
            regressed := s.tally.regressed + if status.Regressed? then 1 else 0,
            added := s.tally.added + if fp !in existing then 1 else 0,
            open := s.tally.open + if row.status in {Dismissed, Snoozed} then 0 else 1),
          recorded)
  }

  function SightAll(s: State, existing: map<string, Issue>, findings: seq<Finding>, turns: nat -> Turn): State {
    if findings == [] then s else
      var last := |findings| - 1;
      Sight(SightAll(s, existing, findings[..last], turns), existing, findings[last], turns(last))
  }

  function Fingerprints(findings: seq<Finding>): set<string> {
    set f | f in findings :: f.fingerprint
  }

  /** Known when the run selected, not found by it, and not already closed. */
  predicate Disappeared(existing: map<string, Issue>, seen: set<string>, fp: string) {
    fp in existing && fp !in seen && existing[fp].status !in {Dismissed, Resolved}
  }

  /** One known issue of a run: closed if it has disappeared, whatever was answered since the select. */
  function Miss(s: State, existing: map<string, Issue>, seen: set<string>, fp: string, turn: Turn): State {
    if !s.alive || !Disappeared(existing, seen, fp) || fp !in s.issues then s else
      var issues := Land(s.issues, turn.before);
      if turn.fate.DiesFirst? then s.(issues := issues, alive := false) else
        var recorded := turn.fate.Completes?;
        State(
          Land(issues[fp := issues[fp].(status := Resolved, resolvedAt := Some(turn.at))], turn.between),
          if recorded then s.log + [Observation(fp, false, None)] else s.log,
          s.writes + [Write(fp, false, recorded)],
          s.tally.(resolved := s.tally.resolved + 1),
          recorded)
  }

  function MissAll(s: State, existing: map<string, Issue>, seen: set<string>, order: seq<string>, turns: nat -> Turn): State {
    if order == [] then s else
      var last := |order| - 1;
      Miss(MissAll(s, existing, seen, order[..last], turns), existing, seen, order[last], turns(last))
  }

  /** One run: its findings, the order in which the select returned the known issues, and how each turn goes. */
  datatype Run = Run(findings: seq<Finding>, order: seq<string>, sighting: nat -> Turn, closing: nat -> Turn)

  ghost predicate IsOrder(order: seq<string>, issues: map<string, Issue>) {
    && (forall fp :: fp in order <==> fp in issues)
    && NoDuplicates(order)
  }

  function Fresh(issues: map<string, Issue>, log: seq<Observation>, writes: seq<Write>): State {
    State(issues, log, writes, ZERO, true)
  }

  function Sighted(issues: map<string, Issue>, log: seq<Observation>, writes: seq<Write>, run: Run): State {
    SightAll(Fresh(issues, log, writes), issues, run.findings, run.sighting)
  }

  function Reconciled(issues: map<string, Issue>, log: seq<Observation>, writes: seq<Write>, run: Run): State {
    MissAll(Sighted(issues, log, writes, run), issues, Fingerprints(run.findings), run.order, run.closing)
  }

  // ---- the object ---------------------------------------------------------

  class AnalysisRunner {
    var issues: map<string, Issue>
    var log: seq<Observation>
    /** Every status a run wrote. */
    ghost var writes: seq<Write>

    constructor ()
      ensures issues == map[] && log == [] && writes == []
    {
      issues, log, writes := map[], [], [];
    }

    method Observe(fp: string, present: bool, severity: Option<string>)
      modifies this`log
      ensures log == old(log) + [Observation(fp, present, severity)]
    {
      log := log + [Observation(fp, present, severity)];
    }

    /** Answers whether the process was still alive at the end. */
    method Reconcile(run: Run) returns (tally: Tally, alive: bool)
      requires IsOrder(run.order, issues)
      modifies this
      ensures State(issues, log, writes, tally, alive) == Reconciled(old(issues), old(log), old(writes), run)
    {
      hide SightAll, MissAll, Sight, Miss, Land;
      var existing := issues;
      var seen: set<string> := {};
      tally, alive := ZERO, true;
      ghost var start := Fresh(issues, log, writes);
      NothingYet(start, existing, {}, run);
      for i := 0 to |run.findings|
        invariant State(issues, log, writes, tally, alive) == SightAll(start, existing, run.findings[..i], run.sighting)
        invariant seen == Fingerprints(run.findings[..i])
      {
        SightStep(start, existing, run.findings, run.sighting, i);
        tally, alive := SightOne(tally, alive, existing, run.findings[i], run.sighting(i));
        seen := seen + {run.findings[i].fingerprint};
      }
      assert run.findings[..|run.findings|] == run.findings;
      ghost var sighted := State(issues, log, writes, tally, alive);
      NothingYet(sighted, existing, seen, run);
      for i := 0 to |run.order|
        invariant State(issues, log, writes, tally, alive) == MissAll(sighted, existing, seen, run.order[..i], run.closing)
      {
        MissStep(sighted, existing, seen, run.order, run.closing, i);
        tally, alive := MissOne(tally, alive, existing, seen, run.order[i], run.closing(i));
      }
      assert run.order[..|run.order|] == run.order;
    }

    method SightOne(before: Tally, living: bool, existing: map<string, Issue>, finding: Finding, turn: Turn)
      returns (tally: Tally, alive: bool)
      modifies this
      ensures State(issues, log, writes, tally, alive) ==
        Sight(State(old(issues), old(log), old(writes), before, living), existing, finding, turn)
    {
      tally, alive := before, living;
      if !alive {
        return;
      }
      issues := Land(issues, turn.before);
      if turn.fate.DiesFirst? {
        return before, false;
      }
      var fp := finding.fingerprint;
      var status := Open;
      if fp in existing && existing[fp].status in {Verified, Resolved} {
        status := Regressed;
        tally := tally.(regressed := tally.regressed + 1);
      } else if fp !in existing {
        tally := tally.(added := tally.added + 1);
      }
      var row := Upserted(issues, finding, status, turn.at);
      issues := issues[fp := row];
      if row.status !in {Dismissed, Snoozed} {
        tally := tally.(open := tally.open + 1);
      }
      issues := Land(issues, turn.between);
      writes := writes + [Write(fp, true, turn.fate.Completes?)];
      if turn.fate.DiesBetween? {
        return tally, false;
      }
      Observe(fp, true, Some(finding.severity));
    }

    method MissOne(before: Tally, living: bool, existing: map<string, Issue>, seen: set<string>, fp: string, turn: Turn)
      returns (tally: Tally, alive: bool)
      modifies this
      ensures State(issues, log, writes, tally, alive) ==
        Miss(State(old(issues), old(log), old(writes), before, living), existing, seen, fp, turn)
    {
      tally, alive := before, living;
      if !alive || fp !in existing || fp !in issues || fp in seen || existing[fp].status in {Dismissed, Resolved} {
        return;
      }
      issues := Land(issues, turn.before);
      if turn.fate.DiesFirst? {
        return before, false;
      }
      issues := issues[fp := issues[fp].(status := Resolved, resolvedAt := Some(turn.at))];
      issues := Land(issues, turn.between);
      writes := writes + [Write(fp, false, turn.fate.Completes?)];
      tally := tally.(resolved := tally.resolved + 1);
      if turn.fate.DiesBetween? {
        return tally, false;
      }
      Observe(fp, false, None);
    }
  }

  lemma NothingYet(s: State, existing: map<string, Issue>, seen: set<string>, run: Run)
    ensures SightAll(s, existing, run.findings[..0], run.sighting) == s && Fingerprints(run.findings[..0]) == {}
    ensures MissAll(s, existing, seen, run.order[..0], run.closing) == s
  {
  }

  lemma SightStep(s: State, existing: map<string, Issue>, findings: seq<Finding>, turns: nat -> Turn, i: nat)
    requires i < |findings|
    ensures SightAll(s, existing, findings[..i + 1], turns) ==
      Sight(SightAll(s, existing, findings[..i], turns), existing, findings[i], turns(i))
    ensures Fingerprints(findings[..i + 1]) == Fingerprints(findings[..i]) + {findings[i].fingerprint}
  {
    hide Sight;
    assert findings[..i + 1] == findings[..i] + [findings[i]];
  }

  lemma MissStep(s: State, existing: map<string, Issue>, seen: set<string>, order: seq<string>, turns: nat -> Turn, i: nat)
    requires i < |order|
    ensures MissAll(s, existing, seen, order[..i + 1], turns) ==
      Miss(MissAll(s, existing, seen, order[..i], turns), existing, seen, order[i], turns(i))
  {
    hide Miss;
    assert order[..i + 1][..i] == order[..i];
  }

  // ---- what every statement keeps -----------------------------------------

  function LastWrite(writes: seq<Write>, fp: string): Option<Write> {
    if writes == [] then None else
      var last := writes[|writes| - 1];
      if last.fingerprint == fp then Some(last) else LastWrite(writes[..|writes| - 1], fp)
  }

  /** What the log says of one issue, and what the recorded writes do. */
  function LogOf(log: seq<Observation>, fp: string): seq<bool> {
    if log == [] then [] else
      LogOf(log[..|log| - 1], fp) + if log[|log| - 1].fingerprint == fp then [log[|log| - 1].present] else []
  }

  function RecordedOf(writes: seq<Write>, fp: string): seq<bool> {
    if writes == [] then [] else
      var last := writes[|writes| - 1];
      RecordedOf(writes[..|writes| - 1], fp) + if last.fingerprint == fp && last.recorded then [last.present] else []
  }

  /** An issue is in the table once a run wrote it, and is resolved exactly when the last write closed it. */
  ghost predicate StatusOk(issues: map<string, Issue>, writes: seq<Write>, fp: string) {
    match LastWrite(writes, fp)
    case None => fp !in issues
    case Some(w) => fp in issues && (issues[fp].status.Resolved? <==> !w.present)
  }

  ghost predicate Inv(issues: map<string, Issue>, log: seq<Observation>, writes: seq<Write>) {
    forall fp :: StatusOk(issues, writes, fp) && LogOf(log, fp) == RecordedOf(writes, fp)
  }

  lemma {:induction false} LandKeeps(issues: map<string, Issue>, edits: seq<Edit>, fp: string)
    requires fp in issues
    ensures Land(issues, edits)[fp].status.Resolved? <==> issues[fp].status.Resolved?
    ensures issues[fp].status in {Resolved, Dismissed, Applied, Verified} ==> Land(issues, edits)[fp] == issues[fp]
  {
    if edits != [] {
      LandKeeps(issues, edits[..|edits| - 1], fp);
    }
  }

  lemma LogGrows(log: seq<Observation>, o: Observation, fp: string)
    ensures LogOf(log + [o], fp) == LogOf(log, fp) + if o.fingerprint == fp then [o.present] else []
  {
    assert (log + [o])[..|log|] == log;
  }

  lemma WritesGrow(writes: seq<Write>, w: Write, fp: string)
    ensures LastWrite(writes + [w], fp) == if w.fingerprint == fp then Some(w) else LastWrite(writes, fp)
    ensures RecordedOf(writes + [w], fp) == RecordedOf(writes, fp) + if w.fingerprint == fp && w.recorded then [w.present] else []
  {
    assert (writes + [w])[..|writes|] == writes;
  }

  lemma NothingAdded(s: seq<bool>)
    ensures s + [] == s
  {
  }

  /** A write to one row, with answers before and after it, and its observation or not. */
  lemma WriteKeeps(issues: map<string, Issue>, log: seq<Observation>, writes: seq<Write>, fp: string, row: Issue, present: bool,
      recorded: bool, o: Observation, before: seq<Edit>, between: seq<Edit>)
    requires Inv(issues, log, writes) && (row.status.Resolved? <==> !present)
    requires o.fingerprint == fp && o.present == present
    ensures Inv(Land(Land(issues, before)[fp := row], between), if recorded then log + [o] else log, writes + [Write(fp, present, recorded)])
  {
    var mid := Land(issues, before)[fp := row];
    var issues' := Land(mid, between);
    var log' := if recorded then log + [o] else log;
    var w := Write(fp, present, recorded);
    forall other
      ensures StatusOk(issues', writes + [w], other) && LogOf(log', other) == RecordedOf(writes + [w], other)
    {
      assert StatusOk(issues, writes, other) && LogOf(log, other) == RecordedOf(writes, other);
      WritesGrow(writes, w, other);
      LogGrows(log, o, other);
      NothingAdded(LogOf(log, other));
      hide LastWrite, LogOf, RecordedOf;
      if other in issues {
        LandKeeps(issues, before, other);
      }
      if other in mid {
        LandKeeps(mid, between, other);
      }
      hide Land;
    }
  }

  lemma LandInv(issues: map<string, Issue>, log: seq<Observation>, writes: seq<Write>, edits: seq<Edit>)
    requires Inv(issues, log, writes)
    ensures Inv(Land(issues, edits), log, writes)
  {
    hide LogOf, RecordedOf, LastWrite;
    forall fp
      ensures StatusOk(Land(issues, edits), writes, fp)
    {
      assert StatusOk(issues, writes, fp);
      if fp in issues {
        LandKeeps(issues, edits, fp);
      }
    }
  }

  lemma SightInv(s: State, existing: map<string, Issue>, f: Finding, turn: Turn)
    requires Inv(s.issues, s.log, s.writes)
    ensures var t := Sight(s, existing, f, turn); Inv(t.issues, t.log, t.writes)
  {
    hide Inv, Land;
    LandInv(s.issues, s.log, s.writes, turn.before);
    var issues := Land(s.issues, turn.before);
    var row := Upserted(issues, f, Proposed(existing, f.fingerprint), turn.at);
    WriteKeeps(s.issues, s.log, s.writes, f.fingerprint, row, true, turn.fate.Completes?,
      Observation(f.fingerprint, true, Some(f.severity)), turn.before, turn.between);
  }

  lemma MissInv(s: State, existing: map<string, Issue>, seen: set<string>, fp: string, turn: Turn)
    requires Inv(s.issues, s.log, s.writes)
    ensures var t := Miss(s, existing, seen, fp, turn); Inv(t.issues, t.log, t.writes)
  {
    hide Inv, Land;
    LandInv(s.issues, s.log, s.writes, turn.before);
    if fp in s.issues {
      var row := Land(s.issues, turn.before)[fp].(status := Resolved, resolvedAt := Some(turn.at));
      WriteKeeps(s.issues, s.log, s.writes, fp, row, false, turn.fate.Completes?, Observation(fp, false, None), turn.before, turn.between);
    }
  }

  lemma {:induction false} SightAllInv(s: State, existing: map<string, Issue>, findings: seq<Finding>, turns: nat -> Turn)
    requires Inv(s.issues, s.log, s.writes)
    ensures var t := SightAll(s, existing, findings, turns); Inv(t.issues, t.log, t.writes)
  {
    hide Inv, Sight;
    if findings != [] {
      var last := |findings| - 1;
      SightAllInv(s, existing, findings[..last], turns);
      SightInv(SightAll(s, existing, findings[..last], turns), existing, findings[last], turns(last));
    }
  }

  lemma {:induction false} MissAllInv(s: State, existing: map<string, Issue>, seen: set<string>, order: seq<string>, turns: nat -> Turn)
    requires Inv(s.issues, s.log, s.writes)
    ensures var t := MissAll(s, existing, seen, order, turns); Inv(t.issues, t.log, t.writes)
  {
    hide Inv, Miss;
    if order != [] {
      var last := |order| - 1;
      MissAllInv(s, existing, seen, order[..last], turns);
      MissInv(MissAll(s, existing, seen, order[..last], turns), existing, seen, order[last], turns(last));
    }
  }

  // ---- any history --------------------------------------------------------

  /** What happens to the tables: a customer answers, or a run does what it gets to do. */
  datatype Event = Answers(edit: Edit) | Runs(run: Run)

  function Happen(s: State, e: Event): State {
    match e
    case Answers(edit) => s.(issues := Land(s.issues, [edit]))
    case Runs(run) => Reconciled(s.issues, s.log, s.writes, run)
  }

  function After(history: seq<Event>): State {
    if history == [] then Fresh(map[], [], []) else Happen(After(history[..|history| - 1]), history[|history| - 1])
  }

  /** Every run's select returned the issues of the table as it was then. */
  ghost predicate Ordered(history: seq<Event>) {
    forall k :: 0 <= k < |history| && history[k].Runs? ==> IsOrder(history[k].run.order, After(history[..k]).issues)
  }

  lemma OrderedInit(history: seq<Event>)
    requires Ordered(history) && history != []
    ensures Ordered(history[..|history| - 1])
  {
    var init := history[..|history| - 1];
    forall k | 0 <= k < |init| && init[k].Runs?
      ensures IsOrder(init[k].run.order, After(init[..k]).issues)
    {
      assert init[..k] == history[..k];
    }
  }

  lemma {:induction false} ReachableOk(history: seq<Event>)
    ensures var s := After(history); Inv(s.issues, s.log, s.writes)
  {
    hide Inv, Reconciled;
    if history == [] {
      NothingKnown();
    } else {
      var init, last := history[..|history| - 1], history[|history| - 1];
      ReachableOk(init);
      var s := After(init);
      match last {
        case Answers(edit) => LandInv(s.issues, s.log, s.writes, [edit]);
        case Runs(run) => RunInv(s.issues, s.log, s.writes, run);
      }
    }
  }

  lemma NothingKnown()
    ensures Inv(map[], [], [])
  {
  }

  lemma RunInv(issues: map<string, Issue>, log: seq<Observation>, writes: seq<Write>, run: Run)
    requires Inv(issues, log, writes)
    ensures var t := Reconciled(issues, log, writes, run); Inv(t.issues, t.log, t.writes)
  {
    hide Inv, SightAll, MissAll;
    SightAllInv(Fresh(issues, log, writes), issues, run.findings, run.sighting);
    MissAllInv(Sighted(issues, log, writes, run), issues, Fingerprints(run.findings), run.order, run.closing);
  }

  // ---- the main results: whatever is interrupted --------------------------

  function Last(s: seq<bool>): Option<bool> {
    if s == [] then None else Some(s[|s| - 1])
  }

  /** The last observation of an issue says it is there exactly when its status is not resolved. */
  ghost predicate Agrees(s: State, fp: string)
    requires fp in s.issues
  {
    Last(LogOf(s.log, fp)) == Some(!s.issues[fp].status.Resolved?)
  }

  /**
    Over any runs that die anywhere and any answers in between: the log is the
    recorded writes, entry for entry; and the last observation of an issue agrees
    with its status exactly when the last status write was followed by its
    observation, or only wrote again what the last observation says.
  */
  lemma {:induction false} LastObservationAgrees(history: seq<Event>, fp: string)
    ensures var s := After(history);
      && LogOf(s.log, fp) == RecordedOf(s.writes, fp)
      && (fp in s.issues <==> LastWrite(s.writes, fp).Some?)
      && (fp in s.issues ==>
            (Agrees(s, fp) <==>
              LastWrite(s.writes, fp).value.recorded || Last(RecordedOf(s.writes, fp)) == Some(LastWrite(s.writes, fp).value.present)))
  {
    ReachableOk(history);
    var s := After(history);
    hide After;
    assert StatusOk(s.issues, s.writes, fp);
    RecordedEnds(s.writes, fp);
  }

  lemma {:induction false} RecordedEnds(writes: seq<Write>, fp: string)
    ensures LastWrite(writes, fp).Some? && LastWrite(writes, fp).value.recorded ==>
      Last(RecordedOf(writes, fp)) == Some(LastWrite(writes, fp).value.present)
  {
    if writes != [] && writes[|writes| - 1].fingerprint != fp {
      RecordedEnds(writes[..|writes| - 1], fp);
      NothingAdded(RecordedOf(writes[..|writes| - 1], fp));
    }
  }

  /** A run leaves at most its last write without its observation, and none if it lives to its end. */
  lemma {:induction false} OnlyTheLastIsUnobserved(issues: map<string, Issue>, log: seq<Observation>, writes: seq<Write>, run: Run)
    ensures var t := Reconciled(issues, log, writes, run);
      && |writes| <= |t.writes| && t.writes[..|writes|] == writes
      && (forall k :: |writes| <= k < |t.writes| && !t.writes[k].recorded ==> k == |t.writes| - 1 && !t.alive)
  {
    hide SightAll, MissAll;
    SightAllWrites(Fresh(issues, log, writes), issues, run.findings, run.sighting);
    var s := Sighted(issues, log, writes, run);
    MissAllWrites(s, issues, Fingerprints(run.findings), run.order, run.closing);
  }

  ghost predicate GrowsTo(writes: seq<Write>, t: State) {
    && |writes| <= |t.writes| && t.writes[..|writes|] == writes
    && (forall k :: |writes| <= k < |t.writes| && !t.writes[k].recorded ==> k == |t.writes| - 1 && !t.alive)
  }

  lemma {:induction false} SightAllWrites(s: State, existing: map<string, Issue>, findings: seq<Finding>, turns: nat -> Turn)
    ensures GrowsTo(s.writes, SightAll(s, existing, findings, turns))
  {
    if findings != [] {
      SightAllWrites(s, existing, findings[..|findings| - 1], turns);
      hide Land, Upserted, Proposed;
    }
  }

  lemma {:induction false} MissAllWrites(s: State, existing: map<string, Issue>, seen: set<string>, order: seq<string>, turns: nat -> Turn)
    ensures var t := MissAll(s, existing, seen, order, turns);
      && GrowsTo(s.writes, t) && (!s.alive ==> t == s)
  {
    if order != [] {
      MissAllWrites(s, existing, seen, order[..|order| - 1], turns);
      hide Land;
    }
  }

  /** Once an issue is resolved, a run that does not find it leaves its row and its log alone, so a log that is wrong stays wrong. */
  lemma {:induction false} ResolvedIsPassedOver(issues: map<string, Issue>, log: seq<Observation>, writes: seq<Write>, run: Run, fp: string)
    requires fp in issues && issues[fp].status.Resolved? && fp !in Fingerprints(run.findings)
    ensures var t := Reconciled(issues, log, writes, run);
      && fp in t.issues && t.issues[fp] == issues[fp] && LogOf(t.log, fp) == LogOf(log, fp)
      && LastWrite(t.writes, fp) == LastWrite(writes, fp)
  {
    hide SightAll, MissAll, LogOf, LastWrite;
    SightAllPasses(Fresh(issues, log, writes), issues, run.findings, run.sighting, fp);
    MissAllPasses(Sighted(issues, log, writes, run), issues, Fingerprints(run.findings), run.order, run.closing, fp);
  }

  ghost predicate Untouched(s: State, t: State, fp: string) {
    && fp in s.issues && fp in t.issues && t.issues[fp] == s.issues[fp]
    && LogOf(t.log, fp) == LogOf(s.log, fp) && LastWrite(t.writes, fp) == LastWrite(s.writes, fp)
  }

  /** Another issue's turn, with answers that a closed issue does not take. */
  lemma OtherTurn(s: State, t: State, fp: string, other: string, row: Issue, present: bool, o: Observation, turn: Turn)
    requires fp in s.issues && s.issues[fp].status.Resolved? && other != fp && o.fingerprint == other
    requires t.issues == Land(s.issues, turn.before) ||
      t.issues == Land(Land(s.issues, turn.before)[other := row], turn.between) || t.issues == s.issues
    requires t.log in {s.log, s.log + [o]}
    requires t.writes in {s.writes, s.writes + [Write(other, present, true)], s.writes + [Write(other, present, false)]}
    ensures Untouched(s, t, fp)
  {
    LandKeeps(s.issues, turn.before, fp);
    LandKeeps(Land(s.issues, turn.before)[other := row], turn.between, fp);
    LogGrows(s.log, o, fp);
    NothingAdded(LogOf(s.log, fp));
    WritesGrow(s.writes, Write(other, present, true), fp);
    WritesGrow(s.writes, Write(other, present, false), fp);
    hide Land, LogOf, LastWrite;
  }

  lemma SightPasses(s: State, existing: map<string, Issue>, f: Finding, turn: Turn, fp: string)
    requires fp in s.issues && s.issues[fp].status.Resolved? && fp != f.fingerprint
    ensures Untouched(s, Sight(s, existing, f, turn), fp)
  {
    hide LogOf, LastWrite, Land, Proposed, Upserted;
    OtherTurn(s, Sight(s, existing, f, turn), fp, f.fingerprint,
      Upserted(Land(s.issues, turn.before), f, Proposed(existing, f.fingerprint), turn.at), true,
      Observation(f.fingerprint, true, Some(f.severity)), turn);
  }

  lemma {:induction false} SightAllPasses(s: State, existing: map<string, Issue>, findings: seq<Finding>, turns: nat -> Turn, fp: string)
    requires fp in s.issues && s.issues[fp].status.Resolved? && fp !in Fingerprints(findings)
    ensures Untouched(s, SightAll(s, existing, findings, turns), fp)
  {
    if findings != [] {
      var init, last := findings[..|findings| - 1], findings[|findings| - 1];
      assert findings == init + [last] && last.fingerprint in Fingerprints(findings);
      hide Sight, LogOf, LastWrite;
      SightAllPasses(s, existing, init, turns, fp);
      SightPasses(SightAll(s, existing, init, turns), existing, last, turns(|init|), fp);
    }
  }

  lemma {:induction false} MissAllPasses(s: State, existing: map<string, Issue>, seen: set<string>, order: seq<string>, turns: nat -> Turn,
      fp: string)
    requires fp in s.issues && s.issues[fp].status.Resolved? && !Disappeared(existing, seen, fp)
    ensures Untouched(s, MissAll(s, existing, seen, order, turns), fp)
  {
    if order != [] {
      var init, last := order[..|order| - 1], order[|order| - 1];
      MissAllPasses(s, existing, seen, init, turns, fp);
      var before := MissAll(s, existing, seen, init, turns);
      var turn := turns(|init|);
      hide LogOf, LastWrite, Land;
      if last != fp && last in before.issues {
        OtherTurn(before, MissAll(s, existing, seen, order, turns), fp, last,
          Land(before.issues, turn.before)[last].(status := Resolved, resolvedAt := Some(turn.at)), false, Observation(last, false, None), turn);
      }
    }
  }

  // ---- dismissed issues ---------------------------------------------------

  /** The run closed this issue: it had neither been dismissed nor resolved when the run selected, was not found, and the close was written. */
  ghost predicate Closed(s: State, existing: map<string, Issue>, seen: set<string>, order: seq<string>, turns: nat -> Turn, fp: string) {
    order != [] &&
    var last := |order| - 1;
    || Closed(s, existing, seen, order[..last], turns, fp)
    || (order[last] == fp && Disappeared(existing, seen, fp) && fp in s.issues &&
        MissAll(s, existing, seen, order[..last], turns).alive && !turns(last).fate.DiesFirst?)
  }

  /** The tables after the first `n` turns of a run. */
  function Upto(issues: map<string, Issue>, log: seq<Observation>, writes: seq<Write>, run: Run, n: nat): State
    requires n <= |run.findings| + |run.order|
  {
    if n <= |run.findings| then SightAll(Fresh(issues, log, writes), issues, run.findings[..n], run.sighting)
    else MissAll(Sighted(issues, log, writes, run), issues, Fingerprints(run.findings), run.order[..n - |run.findings|], run.closing)
  }

  predicate IsDismissed(s: State, fp: string) {
    fp in s.issues && s.issues[fp].status.Dismissed?
  }

  lemma SightKeepsDismissed(s: State, existing: map<string, Issue>, f: Finding, turn: Turn, fp: string)
    requires IsDismissed(s, fp)
    ensures IsDismissed(Sight(s, existing, f, turn), fp)
  {
    LandKeeps(s.issues, turn.before, fp);
    var mid := Land(s.issues, turn.before);
    var row := Upserted(mid, f, Proposed(existing, f.fingerprint), turn.at);
    var written := mid[f.fingerprint := row];
    assert written[fp].status.Dismissed?;
    LandKeeps(written, turn.between, fp);
    hide Land, Proposed, Upserted;
  }

  lemma {:induction false} SightAllKeepsDismissed(s: State, existing: map<string, Issue>, findings: seq<Finding>, turns: nat -> Turn,
      n: nat, fp: string)
    requires n <= |findings| && IsDismissed(SightAll(s, existing, findings[..n], turns), fp)
    ensures IsDismissed(SightAll(s, existing, findings, turns), fp)
    decreases |findings|
  {
    if n == |findings| {
      assert findings[..n] == findings;
    } else {
      var last := |findings| - 1;
      assert findings[..last][..n] == findings[..n];
      hide Sight, IsDismissed;
      SightAllKeepsDismissed(s, existing, findings[..last], turns, n, fp);
      SightKeepsDismissed(SightAll(s, existing, findings[..last], turns), existing, findings[last], turns(last), fp);
    }
  }

  /** One turn of the second loop takes an issue out of dismissed exactly when it closes that very issue. */
  lemma MissDismissed(s: State, existing: map<string, Issue>, seen: set<string>, other: string, turn: Turn, fp: string)
    ensures var t := Miss(s, existing, seen, other, turn);
      var closes := other == fp && s.alive && Disappeared(existing, seen, fp) && fp in s.issues && !turn.fate.DiesFirst?;
      && t.issues.Keys == s.issues.Keys
      && (IsDismissed(s, fp) ==> (IsDismissed(t, fp) <==> !closes))
      && (closes || (fp in s.issues && s.issues[fp].status.Resolved?) ==> fp in t.issues && t.issues[fp].status.Resolved?)
  {
    if fp in s.issues && other in s.issues {
      var mid := Land(s.issues, turn.before);
      var row := mid[other].(status := Resolved, resolvedAt := Some(turn.at));
      LandKeeps(s.issues, turn.before, fp);
      LandKeeps(mid[other := row], turn.between, fp);
    }
    hide Land;
  }

  lemma {:induction false} MissAllDismissed(s: State, existing: map<string, Issue>, seen: set<string>, order: seq<string>, turns: nat -> Turn,
      n: nat, fp: string)
    requires n <= |order|
    ensures var t := MissAll(s, existing, seen, order, turns);
      && t.issues.Keys == s.issues.Keys
      && (Closed(s, existing, seen, order, turns, fp) ==> fp in t.issues && t.issues[fp].status.Resolved?)
      && (IsDismissed(MissAll(s, existing, seen, order[..n], turns), fp) ==>
            (IsDismissed(t, fp) <==> !Closed(s, existing, seen, order, turns, fp)))
    decreases |order|
  {
    if order == [] {
      assert order[..n] == order;
    } else {
      var last := |order| - 1;
      hide Miss, Disappeared;
      MissAllDismissed(s, existing, seen, order[..last], turns, if n < last then n else last, fp);
      MissDismissed(MissAll(s, existing, seen, order[..last], turns), existing, seen, order[last], turns(last), fp);
      assert n <= last ==> order[..last][..n] == order[..n];
      assert order[..|order|] == order && order[..last][..last] == order[..last];
    }
  }

  /**
    When dismissed is left. Customers never take it back, sightings respect it, and
    whatever was dismissed before the run selected stays so. Of an issue that is
    dismissed at any moment of a run, the run leaves dismissed exactly if it does
    not close it; and it closes every issue that its select had neither dismissed
    nor resolved, that it does not find, and whose turn it lives to.
  */
  lemma {:induction false} DismissedIsLeft(issues: map<string, Issue>, log: seq<Observation>, writes: seq<Write>, run: Run, n: nat, fp: string)
    requires n <= |run.findings| + |run.order| && IsDismissed(Upto(issues, log, writes, run, n), fp)
    ensures var s := Sighted(issues, log, writes, run);
      var closed := Closed(s, issues, Fingerprints(run.findings), run.order, run.closing, fp);
      && (IsDismissed(Reconciled(issues, log, writes, run), fp) <==> !closed)
      && (n == 0 ==> !closed)
  {
    var s, seen := Sighted(issues, log, writes, run), Fingerprints(run.findings);
    if n == 0 {
      NothingYet(Fresh(issues, log, writes), issues, seen, run);
      assert Upto(issues, log, writes, run, 0) == Fresh(issues, log, writes);
      assert fp in issues && issues[fp].status.Dismissed?;
      DismissedBefore(issues, s, seen, run.order, run.closing, fp);
    }
    hide SightAll, MissAll, Closed, IsDismissed;
    if n <= |run.findings| {
      SightAllKeepsDismissed(Fresh(issues, log, writes), issues, run.findings, run.sighting, n, fp);
      NothingYet(s, issues, seen, run);
      MissAllDismissed(s, issues, seen, run.order, run.closing, 0, fp);
    } else {
      MissAllDismissed(s, issues, seen, run.order, run.closing, n - |run.findings|, fp);
    }
  }

  lemma {:induction false} DismissedBefore(issues: map<string, Issue>, s: State, seen: set<string>, order: seq<string>, turns: nat -> Turn,
      fp: string)
    ensures fp in issues && issues[fp].status.Dismissed? ==> !Closed(s, issues, seen, order, turns, fp)
  {
    if order != [] {
      DismissedBefore(issues, s, seen, order[..|order| - 1], turns, fp);
      hide MissAll;
    }
  }

  // ---- two runs that go wrong ---------------------------------------------

  function Calm(at: int, fate: Fate): Turn {
    Turn([], at, [], fate)
  }

  /** A run that finds this one issue, or nothing, and where its first turn stops. */
  function Finds(fp: string, order: seq<string>): Run {
    Run([Finding(fp, "high")], order, n => Calm(0, Completes), n => Calm(0, Completes))
  }

  function FindsNothing(fp: string, turn: Turn): Run {
    Run([], [fp], n => turn, n => turn)
  }

  lemma FindsOpens(fp: string)
    ensures var s := After([Runs(Finds(fp, []))]);
      && s.issues == map[fp := Issue(Open, "high", None, 0, None)] && s.log == [Observation(fp, true, Some("high"))]
      && s.writes == [Write(fp, true, true)]
  {
    var run := Finds(fp, []);
    assert [Runs(run)][..0] == [] && run.findings[..0] == [];
    assert Land(map[], []) == map[];
    assert SightAll(Fresh(map[], [], []), map[], run.findings, run.sighting) ==
      Sight(Fresh(map[], [], []), map[], run.findings[0], Calm(0, Completes));
  }

  lemma FindsNothingCloses(issues: map<string, Issue>, log: seq<Observation>, writes: seq<Write>, fp: string, turn: Turn)
    requires fp in issues && issues[fp].status.Open?
    ensures Reconciled(issues, log, writes, FindsNothing(fp, turn)) == Miss(Fresh(issues, log, writes), issues, {}, fp, turn)
  {
    var run := FindsNothing(fp, turn);
    assert run.order[..0] == [] && Fingerprints(run.findings) == {} && run.closing(0) == turn;
    assert Sighted(issues, log, writes, run) == Fresh(issues, log, writes);
    assert MissAll(Fresh(issues, log, writes), issues, {}, run.order[..0], run.closing) == Fresh(issues, log, writes);
    hide Miss;
  }

  lemma OneMoreEvent(history: seq<Event>, e: Event)
    ensures After(history + [e]) == Happen(After(history), e)
  {
    assert (history + [e])[..|history|] == history;
  }

  /** A run that dies between closing an issue and observing it leaves a resolved issue whose last observation says present. */
  lemma CloseWithoutObservation(fp: string)
    ensures var s := After([Runs(Finds(fp, [])), Runs(FindsNothing(fp, Calm(1, DiesBetween)))]);
      && fp in s.issues && s.issues[fp].status.Resolved? && LogOf(s.log, fp) == [true] && !Agrees(s, fp)
  {
    var first, second := Runs(Finds(fp, [])), Runs(FindsNothing(fp, Calm(1, DiesBetween)));
    FindsOpens(fp);
    var s := After([first]);
    OneMoreEvent([first], second);
    assert [first] + [second] == [first, second];
    FindsNothingCloses(s.issues, s.log, s.writes, fp, Calm(1, DiesBetween));
    assert s.log[..0] == [];
    hide After, Reconciled;
  }

  /** An issue dismissed after the run selected, and not found by it, ends up resolved. */
  lemma DismissalIsOverwritten(fp: string)
    ensures var turn := Turn([Edit(fp, Dismiss)], 1, [], Completes);
      var s := After([Runs(Finds(fp, [])), Runs(FindsNothing(fp, turn))]);
      && fp in s.issues && s.issues[fp].status.Resolved?
      && IsDismissed(After([Runs(Finds(fp, [])), Answers(Edit(fp, Dismiss))]), fp)
  {
    var turn := Turn([Edit(fp, Dismiss)], 1, [], Completes);
    var first := Runs(Finds(fp, []));
    FindsOpens(fp);
    var s := After([first]);
    OneMoreEvent([first], Runs(FindsNothing(fp, turn)));
    OneMoreEvent([first], Answers(Edit(fp, Dismiss)));
    assert [first] + [Runs(FindsNothing(fp, turn))] == [first, Runs(FindsNothing(fp, turn))];
    assert [first] + [Answers(Edit(fp, Dismiss))] == [first, Answers(Edit(fp, Dismiss))];
    FindsNothingCloses(s.issues, s.log, s.writes, fp, turn);
    assert [Edit(fp, Dismiss)][..0] == [];
    assert Land(s.issues, [Edit(fp, Dismiss)])[fp].status.Dismissed?;
    hide After, Reconciled, Land;
  }

  // ---- a run that nothing disturbs, from any table ------------------------

  /** No answer lands around these statements, and all of them are made. */
  ghost predicate Calmly(turns: nat -> Turn) {
    forall n: nat :: turns(n).before == turns(n).between == [] && turns(n).fate.Completes?
  }

  ghost predicate Undisturbed(run: Run) {
    Calmly(run.sighting) && Calmly(run.closing)
  }

  function Lookup(issues: map<string, Issue>, fp: string): Option<Issue> {
    if fp in issues then Some(issues[fp]) else None
  }

  function StatusOf(issues: map<string, Issue>, fp: string): Option<Status> {
    if fp in issues then Some(issues[fp].status) else None
  }

  /** The issue is dismissed, or snoozed until after this moment. */
  ghost predicate AnswerHolds(issue: Issue, at: int) {
    || issue.status == Dismissed
    || (issue.status == Snoozed && issue.snoozedUntil.Some? && at < issue.snoozedUntil.value)
  }

  /** The customer's answer held at every sighting of this issue. */
  ghost predicate StaysSilenced(issue: Issue, findings: seq<Finding>, turns: nat -> Turn, fp: string) {
    forall i: nat :: i < |findings| && findings[i].fingerprint == fp ==> AnswerHolds(issue, turns(i).at)
  }

  /** What a run makes of one issue, whatever the others are. */
  ghost function StatusAfter(previous: Option<Issue>, found: bool, silenced: bool): Option<Status> {
    match previous
    case None => if found then Some(Open) else None
    case Some(issue) =>
      if !found then Some(if issue.status.Dismissed? then Dismissed else Resolved)
      else if silenced then Some(issue.status)
      else if issue.status in {Verified, Resolved} then Some(Regressed)
      else Some(Open)
  }

  ghost function Expected(issues: map<string, Issue>, findings: seq<Finding>, turns: nat -> Turn, fp: string): Option<Status> {
    StatusAfter(Lookup(issues, fp), true, fp in issues && StaysSilenced(issues[fp], findings, turns, fp))
  }

  lemma SightedOne(s: State, existing: map<string, Issue>, f: Finding, turn: Turn)
    requires s.alive && turn.before == turn.between == [] && turn.fate.Completes?
    ensures var t := Sight(s, existing, f, turn);
      && t.alive && t.issues == s.issues[f.fingerprint := Upserted(s.issues, f, Proposed(existing, f.fingerprint), turn.at)]
      && t.log == s.log + [Observation(f.fingerprint, true, Some(f.severity))]
  {
  }

  /** The status a sighting leaves, from the status the select saw and whether the customer's answer held until now. */
  lemma UpsertedStatus(issues: map<string, Issue>, now: map<string, Issue>, f: Finding, at: int, held: bool)
    requires f.fingerprint in issues ==> f.fingerprint in now && now[f.fingerprint].snoozedUntil == issues[f.fingerprint].snoozedUntil
    requires var fp := f.fingerprint;
      (held && StatusOf(now, fp) == StatusOf(issues, fp)) ||
      StatusOf(now, fp) == StatusAfter(Lookup(issues, fp), true, fp in issues && held)
    ensures var fp := f.fingerprint;
      Some(Upserted(now, f, Proposed(issues, fp), at).status) ==
        StatusAfter(Lookup(issues, fp), true, fp in issues && held && AnswerHolds(issues[fp], at))
  {
  }

  lemma NeverSighted(issue: Issue, findings: seq<Finding>, turns: nat -> Turn, fp: string)
    requires fp !in Fingerprints(findings)
    ensures StaysSilenced(issue, findings, turns, fp)
  {
    assert forall i: nat :: i < |findings| ==> findings[i].fingerprint in Fingerprints(findings);
  }

  lemma SnoozeStays(issues: map<string, Issue>, f: Finding, status: Status, at: int)
    requires f.fingerprint in issues
    ensures Upserted(issues, f, status, at).snoozedUntil == issues[f.fingerprint].snoozedUntil
  {
  }

  lemma SightedLast(s: State, findings: seq<Finding>, turns: nat -> Turn)
    requires findings != []
    ensures var init, last := findings[..|findings| - 1], findings[|findings| - 1];
      SightAll(s, s.issues, findings, turns) == Sight(SightAll(s, s.issues, init, turns), s.issues, last, turns(|init|))
  {
    hide Sight;
  }

  /** What sightings of `found` leave alone. */
  ghost predicate Leaves(start: map<string, Issue>, after: map<string, Issue>, found: set<string>, fp: string) {
    && after.Keys == start.Keys + found
    && (fp !in found ==> Lookup(after, fp) == Lookup(start, fp))
    && (fp in start ==> after[fp].snoozedUntil == start[fp].snoozedUntil)
  }

  lemma OneRowWritten(start: map<string, Issue>, before: map<string, Issue>, row: Issue, wrote: string, fp: string, found: set<string>)
    requires Leaves(start, before, found, fp)
    requires wrote in before ==> row.snoozedUntil == before[wrote].snoozedUntil
    ensures Leaves(start, before[wrote := row], found + {wrote}, fp)
  {
  }

  lemma SightedLeaves(start: map<string, Issue>, s: State, f: Finding, turn: Turn, fp: string, found: set<string>)
    requires s.alive && turn.before == turn.between == [] && turn.fate.Completes? && Leaves(start, s.issues, found, fp)
    ensures var t := Sight(s, start, f, turn); t.alive && Leaves(start, t.issues, found + {f.fingerprint}, fp)
  {
    hide Leaves, Proposed;
    var row := Upserted(s.issues, f, Proposed(start, f.fingerprint), turn.at);
    if f.fingerprint in s.issues {
      SnoozeStays(s.issues, f, Proposed(start, f.fingerprint), turn.at);
    }
    SightedOne(s, start, f, turn);
    hide Upserted, Sight;
    OneRowWritten(start, s.issues, row, f.fingerprint, fp, found);
  }

  lemma {:induction false} SightedShape(s: State, findings: seq<Finding>, turns: nat -> Turn, fp: string)
    requires s.alive && Calmly(turns)
    ensures var t := SightAll(s, s.issues, findings, turns);
      && t.alive && t.issues.Keys == s.issues.Keys + Fingerprints(findings)
      && (fp !in Fingerprints(findings) ==> Lookup(t.issues, fp) == Lookup(s.issues, fp))
      && (fp in s.issues ==> t.issues[fp].snoozedUntil == s.issues[fp].snoozedUntil)
  {
    SightedAllLeave(s, findings, turns, fp);
  }

  lemma {:induction false} SightedAllLeave(s: State, findings: seq<Finding>, turns: nat -> Turn, fp: string)
    requires s.alive && Calmly(turns)
    ensures var t := SightAll(s, s.issues, findings, turns);
      t.alive && Leaves(s.issues, t.issues, Fingerprints(findings), fp)
  {
    if findings != [] {
      var init, last := findings[..|findings| - 1], findings[|findings| - 1];
      hide SightAll, Sight, Fingerprints, Leaves;
      SightedAllLeave(s, init, turns, fp);
      SightedLast(s, findings, turns);
      SightedLeaves(s.issues, SightAll(s, s.issues, init, turns), last, turns(|init|), fp, Fingerprints(init));
      assert findings == init + [last];
      OneMoreFingerprint(init, last);
    }
  }

  lemma {:induction false} SightedStatus(s: State, findings: seq<Finding>, turns: nat -> Turn, fp: string)
    requires s.alive && Calmly(turns)
    ensures fp in Fingerprints(findings) ==>
      StatusOf(SightAll(s, s.issues, findings, turns).issues, fp) == Expected(s.issues, findings, turns, fp)
  {
    if findings != [] {
      var init, last := findings[..|findings| - 1], findings[|findings| - 1];
      var before := SightAll(s, s.issues, init, turns);
      assert SightAll(s, s.issues, findings, turns) == Sight(before, s.issues, last, turns(|init|));
      OneMoreFingerprint(init, last);
      assert findings == init + [last];
      hide SightAll, Sight, Fingerprints, StaysSilenced, Proposed, StatusAfter, Upserted;
      SightedStatus(s, init, turns, fp);
      SightedShape(s, init, turns, fp);
      SightedOne(before, s.issues, last, turns(|init|));
      hide Calmly;
      if fp in s.issues {
        SilencedStep(s.issues[fp], findings, turns, fp);
        if fp !in Fingerprints(init) {
          NeverSighted(s.issues[fp], init, turns, fp);
        }
      }
      if fp == last.fingerprint {
        UpsertedStatus(s.issues, before.issues, last, turns(|init|).at,
          fp !in s.issues || StaysSilenced(s.issues[fp], init, turns, fp));
      }
    }
  }

  lemma SilencedStep(issue: Issue, findings: seq<Finding>, turns: nat -> Turn, fp: string)
    requires findings != []
    ensures var init, last := findings[..|findings| - 1], findings[|findings| - 1];
      StaysSilenced(issue, findings, turns, fp) <==>
        StaysSilenced(issue, init, turns, fp) && (last.fingerprint == fp ==> AnswerHolds(issue, turns(|init|).at))
  {
    var init := findings[..|findings| - 1];
    assert forall i: nat :: i < |init| ==> init[i] == findings[i];
  }

  lemma MissedOne(s: State, existing: map<string, Issue>, seen: set<string>, fp: string, turn: Turn)
    requires s.alive && turn.before == turn.between == [] && turn.fate.Completes? && fp in s.issues
    ensures var t := Miss(s, existing, seen, fp, turn);
      && t.alive
      && (if Disappeared(existing, seen, fp) then
            && t.issues == s.issues[fp := s.issues[fp].(status := Resolved, resolvedAt := Some(turn.at))]
            && t.log == s.log + [Observation(fp, false, None)]
          else t.issues == s.issues && t.log == s.log)
  {
  }

  lemma {:induction false} MissedStatus(s: State, existing: map<string, Issue>, seen: set<string>, order: seq<string>, turns: nat -> Turn,
      fp: string)
    requires s.alive && Calmly(turns) && forall k :: 0 <= k < |order| ==> order[k] in s.issues
    ensures var t := MissAll(s, existing, seen, order, turns);
      && t.alive && t.issues.Keys == s.issues.Keys
      && (fp in s.issues ==>
            t.issues[fp].status == if fp in order && Disappeared(existing, seen, fp) then Resolved else s.issues[fp].status)
  {
    if order != [] {
      var init, last := order[..|order| - 1], order[|order| - 1];
      MissedStatus(s, existing, seen, init, turns, fp);
      MissedOne(MissAll(s, existing, seen, init, turns), existing, seen, last, turns(|init|));
      assert order == init + [last];
      hide Miss, MissAll, Disappeared;
    }
  }

  /** The effect of an undisturbed run on one issue depends on that issue, on whether it was found, and on the customer's answer. */
  lemma {:induction false} RunStatus(issues: map<string, Issue>, log: seq<Observation>, writes: seq<Write>, run: Run, fp: string)
    requires IsOrder(run.order, issues) && Undisturbed(run)
    ensures Reconciled(issues, log, writes, run).alive
    ensures StatusOf(Reconciled(issues, log, writes, run).issues, fp) ==
      StatusAfter(Lookup(issues, fp), fp in Fingerprints(run.findings),
        fp in issues && StaysSilenced(issues[fp], run.findings, run.sighting, fp))
  {
    var s := Fresh(issues, log, writes);
    SightedShape(s, run.findings, run.sighting, fp);
    SightedStatus(s, run.findings, run.sighting, fp);
    MissedStatus(Sighted(issues, log, writes, run), issues, Fingerprints(run.findings), run.order, run.closing, fp);
    hide SightAll, MissAll, Fingerprints, StaysSilenced;
  }

  function Live(issues: map<string, Issue>): set<string> {
    set fp | fp in issues && issues[fp].status in {Open, Regressed}
  }

  /** Found, but dismissed or still snoozed at every sighting. */
  ghost function SilencedIn(issues: map<string, Issue>, run: Run): set<string> {
    set fp | fp in issues && fp in Fingerprints(run.findings) && StaysSilenced(issues[fp], run.findings, run.sighting, fp)
  }

  /**
    Whatever history left in the table: after a run that nothing disturbs, the open
    and regressed issues are exactly those found, less the dismissed and the still
    snoozed; dismissed issues stay dismissed; nothing is left applied or verified;
    and no issue is forgotten.
  */
  lemma {:induction false} RunFromAnyTable(issues: map<string, Issue>, log: seq<Observation>, writes: seq<Write>, run: Run)
    requires IsOrder(run.order, issues) && Undisturbed(run)
    ensures var after := Reconciled(issues, log, writes, run).issues;
      && Live(after) == Fingerprints(run.findings) - SilencedIn(issues, run)
      && after.Keys == issues.Keys + Fingerprints(run.findings)
      && (forall fp :: fp in issues && issues[fp].status.Dismissed? ==> after[fp].status.Dismissed?)
      && (forall fp :: fp in after && after[fp].status.Dismissed? ==> fp in issues && issues[fp].status.Dismissed?)
      && (forall fp :: fp in after ==> after[fp].status !in {Applied, Verified})
      && (forall fp :: fp in after && after[fp].status.Snoozed? ==>
            fp in SilencedIn(issues, run) && issues[fp].status.Snoozed?)
  {
    var after := Reconciled(issues, log, writes, run).issues;
    var found := Fingerprints(run.findings);
    hide Reconciled;
    forall fp
      ensures StatusOf(after, fp) == StatusAfter(Lookup(issues, fp), fp in found,
        fp in issues && StaysSilenced(issues[fp], run.findings, run.sighting, fp))
      ensures fp in found && fp in issues && StaysSilenced(issues[fp], run.findings, run.sighting, fp) ==>
        issues[fp].status in {Dismissed, Snoozed}
    {
      RunStatus(issues, log, writes, run, fp);
      if fp in found && fp in issues && StaysSilenced(issues[fp], run.findings, run.sighting, fp) {
        SilencedMeans(issues[fp], run.findings, run.sighting, fp);
      }
    }
    hide Fingerprints, StaysSilenced;
    assert forall fp :: fp in after <==> StatusOf(after, fp).Some?;
    assert forall fp :: fp in Live(after) <==> StatusOf(after, fp) in {Some(Open), Some(Regressed)};
  }

  lemma SilencedMeans(issue: Issue, findings: seq<Finding>, turns: nat -> Turn, fp: string)
    requires fp in Fingerprints(findings) && StaysSilenced(issue, findings, turns, fp)
    ensures issue.status in {Dismissed, Snoozed}
  {
    var f :| f in findings && f.fingerprint == fp;
    var i: nat :| i < |findings| && findings[i] == f;
    assert AnswerHolds(issue, turns(i).at);
  }

  // ---- the rows and the counters of an undisturbed run --------------------

  /** `k` is the last finding about its issue. */
  ghost predicate LastAbout(findings: seq<Finding>, k: nat)
    requires k < |findings|
  {
    forall j :: k < j < |findings| ==> findings[j].fingerprint != findings[k].fingerprint
  }

  lemma {:induction false} SightedRow(s: State, findings: seq<Finding>, turns: nat -> Turn, k: nat)
    requires s.alive && Calmly(turns) && k < |findings| && LastAbout(findings, k)
    ensures var fp, t := findings[k].fingerprint, SightAll(s, s.issues, findings, turns);
      fp in t.issues && t.issues[fp] == Issue(t.issues[fp].status, findings[k].severity,
        if fp in s.issues then s.issues[fp].snoozedUntil else None, turns(k).at,
        if fp in s.issues then s.issues[fp].resolvedAt else None)
  {
    var init, last := findings[..|findings| - 1], findings[|findings| - 1];
    var before := SightAll(s, s.issues, init, turns);
    var fp := findings[k].fingerprint;
    SightedShape(s, init, turns, fp);
    SightedResolved(s, init, turns, fp);
    SightedOne(before, s.issues, last, turns(|init|));
    if k < |init| {
      assert init[k] == findings[k] && LastAbout(init, k);
      assert last.fingerprint != fp;
      SightedRow(s, init, turns, k);
    }
    hide Sight, SightAll, Proposed, Calmly;
  }

  /** A sighting of a known issue leaves alone when it was resolved, and one of a new issue says it never was. */
  lemma {:induction false} SightedResolved(s: State, findings: seq<Finding>, turns: nat -> Turn, fp: string)
    requires s.alive && Calmly(turns)
    ensures var t := SightAll(s, s.issues, findings, turns);
      && (fp in s.issues ==> fp in t.issues && t.issues[fp].resolvedAt == s.issues[fp].resolvedAt)
      && (fp !in s.issues && fp in t.issues ==> t.issues[fp].resolvedAt == None && t.issues[fp].snoozedUntil == None)
  {
    if findings != [] {
      var init, last := findings[..|findings| - 1], findings[|findings| - 1];
      SightedResolved(s, init, turns, fp);
      SightedShape(s, init, turns, fp);
      SightedOne(SightAll(s, s.issues, init, turns), s.issues, last, turns(|init|));
      hide Sight, Proposed, Fingerprints, Calmly;
    }
  }

  lemma {:induction false} MissedRow(s: State, existing: map<string, Issue>, seen: set<string>, order: seq<string>, turns: nat -> Turn,
      fp: string)
    requires s.alive && Calmly(turns) && NoDuplicates(order) && forall k :: 0 <= k < |order| ==> order[k] in s.issues
    requires fp in s.issues
    ensures var t := MissAll(s, existing, seen, order, turns);
      && fp in t.issues
      && (forall k :: 0 <= k < |order| && order[k] == fp && Disappeared(existing, seen, fp) ==>
            t.issues[fp] == s.issues[fp].(status := Resolved, resolvedAt := Some(turns(k).at)))
      && (fp !in order || !Disappeared(existing, seen, fp) ==> t.issues[fp] == s.issues[fp])
  {
    if order != [] {
      var init, last := order[..|order| - 1], order[|order| - 1];
      MissedRow(s, existing, seen, init, turns, fp);
      MissedStatus(s, existing, seen, init, turns, last);
      MissedOne(MissAll(s, existing, seen, init, turns), existing, seen, last, turns(|init|));
      assert order == init + [last] && last !in init;
      assert forall k :: 0 <= k < |init| ==> init[k] == order[k];
      hide Miss, Disappeared, Calmly;
    }
  }

  /**
    The rows an undisturbed run leaves. An issue it found says when and how severe
    it was found last, and keeps until when it was snoozed and when it was resolved;
    one it closed says when; every other row is as it was.
  */
  lemma {:induction false} RunRows(issues: map<string, Issue>, log: seq<Observation>, writes: seq<Write>, run: Run)
    requires IsOrder(run.order, issues) && Undisturbed(run)
    ensures var t := Reconciled(issues, log, writes, run).issues;
      && (forall k :: 0 <= k < |run.findings| && LastAbout(run.findings, k) ==>
            var fp := run.findings[k].fingerprint;
            fp in t && t[fp] == Issue(t[fp].status, run.findings[k].severity,
              if fp in issues then issues[fp].snoozedUntil else None, run.sighting(k).at,
              if fp in issues then issues[fp].resolvedAt else None))
      && (forall k :: 0 <= k < |run.order| && run.order[k] !in Fingerprints(run.findings) ==>
            var fp := run.order[k];
            fp in t && t[fp] == if issues[fp].status in {Dismissed, Resolved} then issues[fp]
              else issues[fp].(status := Resolved, resolvedAt := Some(run.closing(k).at)))
  {
    var s, seen := Sighted(issues, log, writes, run), Fingerprints(run.findings);
    var t := Reconciled(issues, log, writes, run).issues;
    hide SightAll, MissAll, Fingerprints;
    forall k | 0 <= k < |run.findings| && LastAbout(run.findings, k)
      ensures var fp := run.findings[k].fingerprint;
        fp in t && t[fp] == Issue(t[fp].status, run.findings[k].severity,
          if fp in issues then issues[fp].snoozedUntil else None, run.sighting(k).at,
          if fp in issues then issues[fp].resolvedAt else None)
    {
      FoundRow(issues, log, writes, run, k);
    }
    forall k | 0 <= k < |run.order| && run.order[k] !in seen
      ensures var fp := run.order[k];
        fp in t && t[fp] == if issues[fp].status in {Dismissed, Resolved} then issues[fp]
          else issues[fp].(status := Resolved, resolvedAt := Some(run.closing(k).at))
    {
      ClosedRow(issues, log, writes, run, k);
    }
  }

  lemma FoundRow(issues: map<string, Issue>, log: seq<Observation>, writes: seq<Write>, run: Run, k: nat)
    requires IsOrder(run.order, issues) && Undisturbed(run) && k < |run.findings| && LastAbout(run.findings, k)
    ensures var t := Reconciled(issues, log, writes, run).issues;
      var fp := run.findings[k].fingerprint;
      fp in t && t[fp] == Issue(t[fp].status, run.findings[k].severity,
        if fp in issues then issues[fp].snoozedUntil else None, run.sighting(k).at,
        if fp in issues then issues[fp].resolvedAt else None)
  {
    var fp := run.findings[k].fingerprint;
    assert run.findings[k] in run.findings;
    assert fp in Fingerprints(run.findings);
    hide SightAll, MissAll, Fingerprints, Calmly;
    SightedShape(Fresh(issues, log, writes), run.findings, run.sighting, fp);
    SightedRow(Fresh(issues, log, writes), run.findings, run.sighting, k);
    MissedRow(Sighted(issues, log, writes, run), issues, Fingerprints(run.findings), run.order, run.closing, fp);
  }

  lemma ClosedRow(issues: map<string, Issue>, log: seq<Observation>, writes: seq<Write>, run: Run, k: nat)
    requires IsOrder(run.order, issues) && Undisturbed(run)
    requires k < |run.order| && run.order[k] !in Fingerprints(run.findings)
    ensures var t := Reconciled(issues, log, writes, run).issues;
      var fp := run.order[k];
      fp in issues && fp in t && t[fp] == if issues[fp].status in {Dismissed, Resolved} then issues[fp]
        else issues[fp].(status := Resolved, resolvedAt := Some(run.closing(k).at))
  {
    var fp := run.order[k];
    assert fp in run.order;
    hide SightAll, MissAll, Fingerprints, Calmly;
    SightedShape(Fresh(issues, log, writes), run.findings, run.sighting, fp);
    MissedRow(Sighted(issues, log, writes, run), issues, Fingerprints(run.findings), run.order, run.closing, fp);
  }

  /** No issue is found twice. */
  ghost predicate FoundOnce(findings: seq<Finding>) {
    forall i, j :: 0 <= i < j < |findings| ==> findings[i].fingerprint != findings[j].fingerprint
  }

  /** What the counters of the first loop count. */
  ghost predicate SightTally(tally: Tally, before: Tally, issues: map<string, Issue>, found: set<string>, silenced: set<string>) {
    && tally.added == before.added + |found - issues.Keys|
    && tally.regressed == before.regressed + |set fp | fp in found && fp in issues && issues[fp].status in {Verified, Resolved}|
    && tally.open == before.open + |found - silenced|
    && tally.resolved == before.resolved
  }

  lemma {:induction false} SightedTally(s: State, findings: seq<Finding>, turns: nat -> Turn)
    requires s.alive && Calmly(turns) && FoundOnce(findings)
    ensures SightTally(SightAll(s, s.issues, findings, turns).tally, s.tally, s.issues, Fingerprints(findings),
      Silent(s.issues, findings, turns))
  {
    if findings == [] {
      assert Fingerprints(findings) == {};
    } else {
      var init, last := findings[..|findings| - 1], findings[|findings| - 1];
      assert forall i :: 0 <= i < |init| ==> init[i] == findings[i];
      assert last.fingerprint !in Fingerprints(init);
      hide Sight, Fingerprints, Silent, SightTally;
      SightedTally(s, init, turns);
      SightedShape(s, init, turns, last.fingerprint);
      SightedTallyStep(s, SightAll(s, s.issues, init, turns), findings, turns);
    }
  }

  lemma SightedTallyStep(s: State, before: State, findings: seq<Finding>, turns: nat -> Turn)
    requires findings != [] && FoundOnce(findings) && Calmly(turns) && before.alive
    requires var init, last := findings[..|findings| - 1], findings[|findings| - 1];
      && Lookup(before.issues, last.fingerprint) == Lookup(s.issues, last.fingerprint) && last.fingerprint !in Fingerprints(init)
      && SightTally(before.tally, s.tally, s.issues, Fingerprints(init), Silent(s.issues, init, turns))
    ensures var last := findings[|findings| - 1];
      SightTally(Sight(before, s.issues, last, turns(|findings| - 1)).tally, s.tally, s.issues, Fingerprints(findings),
        Silent(s.issues, findings, turns))
  {
    hide Sight, Fingerprints, Silent, SightTally, AnswerHolds, Lookup, FoundOnce;
    var init, last := findings[..|findings| - 1], findings[|findings| - 1];
    assert findings == init + [last];
    SilentAreFound(s.issues, init, turns);
    OneMoreFingerprint(init, last);
    SilentGrows(s.issues, findings, turns);
    TallyOne(before, s.issues, last, turns(|init|));
    TallyGrows(before.tally, Sight(before, s.issues, last, turns(|init|)).tally, s.tally, s.issues,
      Fingerprints(init), Silent(s.issues, init, turns), last.fingerprint, turns(|init|).at);
  }

  /** Found, but dismissed or still snoozed when it was. */
  ghost function Silent(issues: map<string, Issue>, findings: seq<Finding>, turns: nat -> Turn): set<string> {
    set fp | fp in issues && fp in Fingerprints(findings) && StaysSilenced(issues[fp], findings, turns, fp)
  }

  lemma SilentAreFound(issues: map<string, Issue>, findings: seq<Finding>, turns: nat -> Turn)
    ensures Silent(issues, findings, turns) <= Fingerprints(findings)
  {
  }

  lemma SilentGrows(issues: map<string, Issue>, findings: seq<Finding>, turns: nat -> Turn)
    requires findings != [] && FoundOnce(findings)
    ensures var init, last := findings[..|findings| - 1], findings[|findings| - 1];
      Silent(issues, findings, turns) == Silent(issues, init, turns) +
        if last.fingerprint in issues && AnswerHolds(issues[last.fingerprint], turns(|init|).at) then {last.fingerprint} else {}
  {
    var init, last := findings[..|findings| - 1], findings[|findings| - 1];
    OneMoreFingerprint(init, last);
    assert findings == init + [last];
    forall fp | fp in issues
      ensures fp in Fingerprints(init) ==> fp != last.fingerprint
      ensures StaysSilenced(issues[fp], findings, turns, fp) <==>
        StaysSilenced(issues[fp], init, turns, fp) && (last.fingerprint == fp ==> AnswerHolds(issues[fp], turns(|init|).at))
      ensures fp !in Fingerprints(init) ==> StaysSilenced(issues[fp], init, turns, fp)
    {
      SilencedStep(issues[fp], findings, turns, fp);
      if fp !in Fingerprints(init) {
        NeverSighted(issues[fp], init, turns, fp);
      }
    }
    hide StaysSilenced, AnswerHolds;
  }

  /** One finding counts as new, as back or as neither, and as open unless it is silenced. */
  lemma TallyOne(s: State, existing: map<string, Issue>, f: Finding, turn: Turn)
    requires s.alive && turn.before == turn.between == [] && turn.fate.Completes?
    requires Lookup(s.issues, f.fingerprint) == Lookup(existing, f.fingerprint)
    ensures var fp, tally := f.fingerprint, Sight(s, existing, f, turn).tally;
      && tally.added == s.tally.added + (if fp in existing then 0 else 1)
      && tally.regressed == s.tally.regressed + (if fp in existing && existing[fp].status in {Verified, Resolved} then 1 else 0)
      && tally.open == s.tally.open + (if fp in existing && AnswerHolds(existing[fp], turn.at) then 0 else 1)
      && tally.resolved == s.tally.resolved
  {
  }

  lemma TallyGrows(tally: Tally, tally': Tally, before: Tally, issues: map<string, Issue>, found: set<string>, silenced: set<string>,
      fp: string, at: int)
    requires SightTally(tally, before, issues, found, silenced) && fp !in found && silenced <= found
    requires tally'.added == tally.added + if fp in issues then 0 else 1
    requires tally'.regressed == tally.regressed + if fp in issues && issues[fp].status in {Verified, Resolved} then 1 else 0
    requires tally'.open == tally.open + if fp in issues && AnswerHolds(issues[fp], at) then 0 else 1
    requires tally'.resolved == tally.resolved
    ensures SightTally(tally', before, issues, found + {fp},
      silenced + if fp in issues && AnswerHolds(issues[fp], at) then {fp} else {})
  {
    hide AnswerHolds;
    NewGrows(issues.Keys, found, fp);
    BackGrows(issues, found, fp);
    OpenGrows(found, silenced, fp, fp in issues && AnswerHolds(issues[fp], at));
  }

  lemma OneMore<T>(a: set<T>, b: set<T>, x: T, more: bool)
    requires b == a + (if more then {x} else {}) && x !in a
    ensures |b| == |a| + if more then 1 else 0
  {
  }

  lemma NewGrows(known: set<string>, found: set<string>, fp: string)
    requires fp !in found
    ensures |(found + {fp}) - known| == |found - known| + if fp in known then 0 else 1
  {
    var a, b := found - known, (found + {fp}) - known;
    assert b == a + if fp !in known then {fp} else {};
    OneMore(a, b, fp, fp !in known);
  }

  lemma BackGrows(issues: map<string, Issue>, found: set<string>, fp: string)
    requires fp !in found
    ensures |set f | f in found + {fp} && f in issues && issues[f].status in {Verified, Resolved}| ==
      |set f | f in found && f in issues && issues[f].status in {Verified, Resolved}| +
      if fp in issues && issues[fp].status in {Verified, Resolved} then 1 else 0
  {
    var a := set f | f in found && f in issues && issues[f].status in {Verified, Resolved};
    var b := set f | f in found + {fp} && f in issues && issues[f].status in {Verified, Resolved};
    var more := fp in issues && issues[fp].status in {Verified, Resolved};
    assert b == a + if more then {fp} else {};
    OneMore(a, b, fp, more);
  }

  lemma OpenGrows(found: set<string>, silenced: set<string>, fp: string, holds: bool)
    requires fp !in found && silenced <= found
    ensures |(found + {fp}) - (silenced + if holds then {fp} else {})| == |found - silenced| + if holds then 0 else 1
  {
    var a, b := found - silenced, (found + {fp}) - (silenced + if holds then {fp} else {});
    assert b == a + if !holds then {fp} else {};
    OneMore(a, b, fp, !holds);
  }

  lemma {:induction false} MissedTally(s: State, existing: map<string, Issue>, seen: set<string>, order: seq<string>, turns: nat -> Turn)
    requires s.alive && Calmly(turns) && NoDuplicates(order) && forall k :: 0 <= k < |order| ==> order[k] in s.issues
    ensures var tally := MissAll(s, existing, seen, order, turns).tally;
      && tally == s.tally.(resolved := tally.resolved)
      && tally.resolved == s.tally.resolved + |set fp | fp in order && Disappeared(existing, seen, fp)|
  {
    if order != [] {
      var init, last := order[..|order| - 1], order[|order| - 1];
      MissedTally(s, existing, seen, init, turns);
      MissedStatus(s, existing, seen, init, turns, last);
      assert order == init + [last] && last !in init;
      var gone := set fp | fp in init && Disappeared(existing, seen, fp);
      hide Disappeared, Calmly;
      assert (set fp | fp in order && Disappeared(existing, seen, fp)) ==
        gone + if Disappeared(existing, seen, last) then {last} else {};
    }
  }

  /**
    The counters of an undisturbed run that finds nothing twice: what it found and
    did not know is new, what had been closed is back, what it leaves open or
    regressed is open, and what it closed is resolved.
  */
  lemma {:induction false} RunTally(issues: map<string, Issue>, log: seq<Observation>, writes: seq<Write>, run: Run)
    requires IsOrder(run.order, issues) && Undisturbed(run) && FoundOnce(run.findings)
    ensures var found, t := Fingerprints(run.findings), Reconciled(issues, log, writes, run);
      && t.tally.added == |found - issues.Keys|
      && t.tally.regressed == |set fp | fp in found && fp in issues && issues[fp].status in {Verified, Resolved}|
      && t.tally.open == |Live(t.issues)|
      && t.tally.resolved == |set fp | fp in issues && fp !in found && issues[fp].status !in {Dismissed, Resolved}|
  {
    var found, s := Fingerprints(run.findings), Sighted(issues, log, writes, run);
    hide SightAll, MissAll, Fingerprints, Calmly, StaysSilenced, Live;
    SightedTally(Fresh(issues, log, writes), run.findings, run.sighting);
    SightedShape(Fresh(issues, log, writes), run.findings, run.sighting, "");
    MissedTally(s, issues, found, run.order, run.closing);
    LiveAreFound(issues, log, writes, run);
    ClosedAre(issues, found, run.order);
    hide Disappeared;
  }

  lemma LiveAreFound(issues: map<string, Issue>, log: seq<Observation>, writes: seq<Write>, run: Run)
    requires IsOrder(run.order, issues) && Undisturbed(run)
    ensures Live(Reconciled(issues, log, writes, run).issues) ==
      Fingerprints(run.findings) - Silent(issues, run.findings, run.sighting)
  {
    hide Live, Reconciled, Undisturbed, StaysSilenced, Fingerprints, IsOrder;
    RunFromAnyTable(issues, log, writes, run);
    assert Silent(issues, run.findings, run.sighting) == SilencedIn(issues, run);
  }

  lemma ClosedAre(issues: map<string, Issue>, found: set<string>, order: seq<string>)
    requires IsOrder(order, issues)
    ensures (set fp | fp in order && Disappeared(issues, found, fp)) ==
      set fp | fp in issues && fp !in found && issues[fp].status !in {Dismissed, Resolved}
  {
  }

  ghost function Sightings(findings: seq<Finding>): seq<Observation> {
    seq(|findings|, i requires 0 <= i < |findings| => Observation(findings[i].fingerprint, true, Some(findings[i].severity)))
  }

  /** The issues of a list that a run closes, in order. */
  ghost function Closings(issues: map<string, Issue>, seen: set<string>, order: seq<string>): seq<Observation> {
    if order == [] then [] else
      var last := order[|order| - 1];
      Closings(issues, seen, order[..|order| - 1]) +
      if last in issues && last !in seen && issues[last].status !in {Dismissed, Resolved} then [Observation(last, false, None)] else []
  }

  /** What an undisturbed run appends: each finding with its severity, in order, and then each issue it closes, in the order of the select. */
  lemma {:induction false} RunAppends(issues: map<string, Issue>, log: seq<Observation>, writes: seq<Write>, run: Run)
    requires IsOrder(run.order, issues) && Undisturbed(run)
    ensures Reconciled(issues, log, writes, run).log ==
      log + Sightings(run.findings) + Closings(issues, Fingerprints(run.findings), run.order)
  {
    hide SightAll, MissAll, Fingerprints, Calmly, Sightings, Closings;
    SightedAppends(Fresh(issues, log, writes), run.findings, run.sighting);
    SightedShape(Fresh(issues, log, writes), run.findings, run.sighting, "");
    MissedAppends(Sighted(issues, log, writes, run), issues, Fingerprints(run.findings), run.order, run.closing);
  }

  lemma {:induction false} SightedAppends(s: State, findings: seq<Finding>, turns: nat -> Turn)
    requires s.alive && Calmly(turns)
    ensures SightAll(s, s.issues, findings, turns).log == s.log + Sightings(findings)
  {
    if findings == [] {
      assert Sightings(findings) == [];
    } else {
      var init, last := findings[..|findings| - 1], findings[|findings| - 1];
      SightedAppends(s, init, turns);
      StaysAlive(s, s.issues, init, turns);
      SightedOne(SightAll(s, s.issues, init, turns), s.issues, last, turns(|init|));
      assert Sightings(findings) == Sightings(init) + [Observation(last.fingerprint, true, Some(last.severity))];
      hide Sight, Sightings, Upserted, Proposed;
      ConcatAssociates(s.log, Sightings(init), [Observation(last.fingerprint, true, Some(last.severity))]);
    }
  }

  lemma {:induction false} MissedAppends(s: State, existing: map<string, Issue>, seen: set<string>, order: seq<string>, turns: nat -> Turn)
    requires s.alive && Calmly(turns) && forall k :: 0 <= k < |order| ==> order[k] in s.issues
    ensures MissAll(s, existing, seen, order, turns).log == s.log + Closings(existing, seen, order)
  {
    if order == [] {
      assert s.log + [] == s.log;
    } else {
      var init, last := order[..|order| - 1], order[|order| - 1];
      MissedAppends(s, existing, seen, init, turns);
      MissedStatus(s, existing, seen, init, turns, last);
      MissedOne(MissAll(s, existing, seen, init, turns), existing, seen, last, turns(|init|));
      hide Miss;
      var more := if Disappeared(existing, seen, last) then [Observation(last, false, None)] else [];
      ConcatAssociates(s.log, Closings(existing, seen, init), more);
      NoneMore(s.log + Closings(existing, seen, init));
    }
  }

  lemma NoneMore<T>(s: seq<T>)
    ensures s + [] == s
  {
  }

  // ---- the log of an undisturbed run --------------------------------------

  /** The findings about one fingerprint. */
  function About(findings: seq<Finding>, fp: string): seq<Finding> {
    if findings == [] then [] else
      var last := findings[|findings| - 1];
      About(findings[..|findings| - 1], fp) + if last.fingerprint == fp then [last] else []
  }

  function Trues(n: nat): (s: seq<bool>)
    ensures |s| == n && forall i :: 0 <= i < n ==> s[i]
  {
    seq(n, _ => true)
  }

  lemma TruesStep(n: nat)
    ensures Trues(n) + [true] == Trues(n + 1)
  {
  }

  lemma {:induction false} StaysAlive(s: State, existing: map<string, Issue>, findings: seq<Finding>, turns: nat -> Turn)
    requires s.alive && Calmly(turns)
    ensures SightAll(s, existing, findings, turns).alive
  {
    if findings != [] {
      StaysAlive(s, existing, findings[..|findings| - 1], turns);
      hide Upserted, Proposed, Land;
    }
  }

  lemma AboutStep(log: seq<Observation>, prior: seq<bool>, init: seq<Finding>, last: Finding, fp: string)
    requires LogOf(log, fp) == prior + Trues(|About(init, fp)|)
    ensures LogOf(log + [Observation(last.fingerprint, true, Some(last.severity))], fp) == prior + Trues(|About(init + [last], fp)|)
  {
    assert (init + [last])[..|init|] == init;
    LogGrows(log, Observation(last.fingerprint, true, Some(last.severity)), fp);
    TruesStep(|About(init, fp)|);
    NothingAdded(LogOf(log, fp));
    hide LogOf, Trues;
  }

  lemma {:induction false} SightedLog(s: State, findings: seq<Finding>, turns: nat -> Turn, fp: string)
    requires s.alive && Calmly(turns)
    ensures LogOf(SightAll(s, s.issues, findings, turns).log, fp) == LogOf(s.log, fp) + Trues(|About(findings, fp)|)
  {
    if findings == [] {
      NothingAdded(LogOf(s.log, fp));
      assert Trues(0) == [];
    } else {
      var init, last := findings[..|findings| - 1], findings[|findings| - 1];
      hide Trues, Sight, LogOf, About, Fingerprints, StaysSilenced;
      hide Upserted, Proposed;
      SightedLog(s, init, turns, fp);
      StaysAlive(s, s.issues, init, turns);
      var before := SightAll(s, s.issues, init, turns);
      SightedOne(before, s.issues, last, turns(|init|));
      AboutStep(before.log, LogOf(s.log, fp), init, last, fp);
      assert findings == init + [last];
    }
  }

  lemma {:induction false} MissedLog(s: State, existing: map<string, Issue>, seen: set<string>, order: seq<string>, turns: nat -> Turn,
      fp: string)
    requires s.alive && Calmly(turns) && NoDuplicates(order) && forall k :: 0 <= k < |order| ==> order[k] in s.issues
    ensures LogOf(MissAll(s, existing, seen, order, turns).log, fp) ==
      LogOf(s.log, fp) + if fp in order && Disappeared(existing, seen, fp) then [false] else []
  {
    NothingAdded(LogOf(s.log, fp));
    if order != [] {
      var init, last := order[..|order| - 1], order[|order| - 1];
      MissedLog(s, existing, seen, init, turns, fp);
      MissedStatus(s, existing, seen, init, turns, last);
      var before := MissAll(s, existing, seen, init, turns);
      MissedOne(before, existing, seen, last, turns(|init|));
      LogGrows(before.log, Observation(last, false, None), fp);
      assert order == init + [last] && last !in init;
      hide LogOf, MissAll, Miss, Disappeared;
    }
  }

  /** An undisturbed run adds one `true` per finding about the issue, or one `false` if it was open and has gone. */
  lemma {:induction false} RunLog(issues: map<string, Issue>, log: seq<Observation>, writes: seq<Write>, run: Run, fp: string)
    requires IsOrder(run.order, issues) && Undisturbed(run)
    ensures LogOf(Reconciled(issues, log, writes, run).log, fp) ==
      LogOf(log, fp) + Trues(|About(run.findings, fp)|) +
      if Disappeared(issues, Fingerprints(run.findings), fp) then [false] else []
  {
    var s := Fresh(issues, log, writes);
    SightedShape(s, run.findings, run.sighting, fp);
    SightedLog(s, run.findings, run.sighting, fp);
    MissedLog(Sighted(issues, log, writes, run), issues, Fingerprints(run.findings), run.order, run.closing, fp);
    hide SightAll, MissAll, LogOf, Trues, About, Fingerprints;
  }

  lemma {:induction false} AboutMembers(findings: seq<Finding>, fp: string)
    ensures About(findings, fp) != [] <==> fp in Fingerprints(findings)
  {
    if findings != [] {
      var init, last := findings[..|findings| - 1], findings[|findings| - 1];
      AboutMembers(init, fp);
      assert findings == init + [last];
    }
  }

  // ---- histories of undisturbed runs --------------------------------------

  /** Nobody answers, and every run runs to its end. */
  ghost predicate Whole(history: seq<Event>) {
    forall k :: 0 <= k < |history| ==> history[k].Runs? && Undisturbed(history[k].run)
  }

  /** Run by run, whether the issue was found. */
  function Presence(history: seq<Event>, fp: string): (h: seq<bool>)
    ensures |h| == |history|
  {
    seq(|history|, k requires 0 <= k < |history| => history[k].Runs? && fp in Fingerprints(history[k].run.findings))
  }

  function Counts(history: seq<Event>, fp: string): (c: seq<nat>)
    ensures |c| == |history|
  {
    seq(|history|, k requires 0 <= k < |history| => if history[k].Runs? then |About(history[k].run.findings, fp)| else 0)
  }

  /** Resolved if absent now; regressed if back after an absence; open otherwise; unknown if never found. */
  function FromHistory(h: seq<bool>): Option<Status> {
    if true !in h then None
    else if !h[|h| - 1] then Some(Resolved)
    else if |h| > 1 && !h[|h| - 2] && true in h[..|h| - 1] then Some(Regressed)
    else Some(Open)
  }

  lemma HistoryStep(h: seq<bool>, found: bool, issue: Option<Issue>, silenced: bool)
    requires FromHistory(h) == if issue.Some? then Some(issue.value.status) else None
    requires !silenced
    ensures FromHistory(h + [found]) == StatusAfter(issue, found, silenced)
  {
    var g := h + [found];
    assert g[..|h|] == h && g[|h|] == found;
    assert true in g <==> true in h || found;
    if h != [] {
      assert g[|g| - 2] == h[|h| - 1];
      assert h[|h| - 1] in h;
    }
  }

  lemma WholeStep(history: seq<Event>, fp: string)
    requires Ordered(history) && Whole(history) && history != []
    ensures var init, run := history[..|history| - 1], history[|history| - 1].run;
      var before := After(init);
      && Ordered(init) && Whole(init) && Undisturbed(run) && IsOrder(run.order, before.issues)
      && After(history) == Reconciled(before.issues, before.log, before.writes, run)
      && Presence(history, fp) == Presence(init, fp) + [fp in Fingerprints(run.findings)]
      && Counts(history, fp) == Counts(init, fp) + [|About(run.findings, fp)|]
  {
    hide Reconciled, Undisturbed, IsOrder;
    assert history[|history| - 1].Runs?;
    PresenceStep(history, fp);
    OrderedInit(history);
    hide Presence, Counts, Fingerprints, About;
  }

  lemma PresenceStep(history: seq<Event>, fp: string)
    requires history != [] && history[|history| - 1].Runs?
    ensures var init, run := history[..|history| - 1], history[|history| - 1].run;
      && Presence(history, fp) == Presence(init, fp) + [fp in Fingerprints(run.findings)]
      && Counts(history, fp) == Counts(init, fp) + [|About(run.findings, fp)|]
      && Presence(history, fp)[|history| - 1] == (Counts(history, fp)[|history| - 1] > 0)
  {
    AboutMembers(history[|history| - 1].run.findings, fp);
    hide Fingerprints, About;
  }

  /** With no answers in between, and every run whole, an issue's status is a function of when it was found. */
  lemma {:induction false} StatusIsHistory(history: seq<Event>, fp: string)
    requires Ordered(history) && Whole(history)
    ensures StatusOf(After(history).issues, fp) == FromHistory(Presence(history, fp))
  {
    if history == [] {
      assert Presence(history, fp) == [];
    } else {
      WholeStep(history, fp);
      hide After, Ordered, Presence, FromHistory, StatusAfter, Fingerprints, Whole, Undisturbed, StaysSilenced;
      var init, run := history[..|history| - 1], history[|history| - 1].run;
      StatusIsHistory(init, fp);
      var before := After(init);
      RunStatus(before.issues, before.log, before.writes, run, fp);
      var found := fp in Fingerprints(run.findings);
      var silenced := fp in before.issues && StaysSilenced(before.issues[fp], run.findings, run.sighting, fp);
      HistoryEnds(Presence(init, fp));
      if found && silenced {
        SilencedMeans(before.issues[fp], run.findings, run.sighting, fp);
      }
      UnseenOrUnsilenced(Lookup(before.issues, fp), found, silenced);
      HistoryStep(Presence(init, fp), found, Lookup(before.issues, fp), false);
    }
  }

  lemma UnseenOrUnsilenced(previous: Option<Issue>, found: bool, silenced: bool)
    requires !(found && silenced)
    ensures StatusAfter(previous, found, silenced) == StatusAfter(previous, found, false)
  {
  }

  /** The log of one issue, from how many times each run found it. */
  function ExpectedLog(counts: seq<nat>): seq<bool> {
    if counts == [] then [] else
      var init, last := counts[..|counts| - 1], counts[|counts| - 1];
      ExpectedLog(init) + Trues(last) + if last == 0 && init != [] && init[|init| - 1] > 0 then [false] else []
  }

  lemma ExpectedStep(counts: seq<nat>, last: nat)
    ensures ExpectedLog(counts + [last]) ==
      ExpectedLog(counts) + Trues(last) + if last == 0 && counts != [] && counts[|counts| - 1] > 0 then [false] else []
  {
    assert (counts + [last])[..|counts|] == counts;
    hide Trues;
  }

  lemma ClosedUnlessJustSeen(history: seq<Event>, fp: string)
    requires Ordered(history) && Whole(history)
    ensures (fp in After(history).issues && After(history).issues[fp].status !in {Dismissed, Resolved}) <==>
      history != [] && Counts(history, fp)[|history| - 1] > 0
  {
    hide After, Ordered, Undisturbed, FromHistory, Presence, Counts;
    StatusIsHistory(history, fp);
    HistoryEnds(Presence(history, fp));
    if history != [] {
      PresenceStep(history, fp);
    }
  }

  lemma HistoryEnds(h: seq<bool>)
    ensures FromHistory(h) in {Some(Open), Some(Regressed)} <==> h != [] && h[|h| - 1]
    ensures FromHistory(h) in {None, Some(Open), Some(Regressed), Some(Resolved)}
  {
    if h != [] {
      assert h[|h| - 1] in h;
    }
  }

  /** The append-only log is exactly what the history says, entry for entry. */
  lemma {:induction false} LogIsHistory(history: seq<Event>, fp: string)
    requires Ordered(history) && Whole(history)
    ensures LogOf(After(history).log, fp) == ExpectedLog(Counts(history, fp))
  {
    if history == [] {
      assert Counts(history, fp) == [];
    } else {
      WholeStep(history, fp);
      hide After, Ordered, Counts, ExpectedLog, LogOf, About, Trues, Fingerprints, Whole, Undisturbed;
      var init, run := history[..|history| - 1], history[|history| - 1].run;
      LogIsHistory(init, fp);
      ClosedUnlessJustSeen(init, fp);
      var before := After(init);
      RunLog(before.issues, before.log, before.writes, run, fp);
      AboutMembers(run.findings, fp);
      ExpectedStep(Counts(init, fp), |About(run.findings, fp)|);
    }
  }

  // ---- histories of runs that die -----------------------------------------

  /** Nobody answers; the runs may die anywhere. */
  ghost predicate Unanswered(history: seq<Event>) {
    forall k :: 0 <= k < |history| ==> history[k].Runs? && Alone(history[k].run.sighting) && Alone(history[k].run.closing)
  }

  ghost predicate Alone(turns: nat -> Turn) {
    forall n: nat :: turns(n).before == turns(n).between == []
  }

  /** What a run got to say about an issue: that it is there, that it is gone, or nothing. */
  function Said(before: seq<Write>, after: seq<Write>, fp: string): Option<bool>
    requires |before| <= |after|
  {
    var w := LastWrite(after[|before|..], fp);
    if w.Some? then Some(w.value.present) else None
  }

  lemma WritesOnlyGrow(issues: map<string, Issue>, log: seq<Observation>, writes: seq<Write>, run: Run)
    ensures |writes| <= |Reconciled(issues, log, writes, run).writes|
  {
    OnlyTheLastIsUnobserved(issues, log, writes, run);
  }

  /** Run by run, what was said about the issue; runs that said nothing leave no entry. */
  function Sayings(history: seq<Event>, fp: string): seq<bool> {
    if history == [] then [] else
      var init, last := history[..|history| - 1], history[|history| - 1];
      var s := After(init);
      Sayings(init, fp) +
      match last
      case Answers(_) => []
      case Runs(run) =>
        WritesOnlyGrow(s.issues, s.log, s.writes, run);
        var said := Said(s.writes, After(history).writes, fp);
        if said.Some? then [said.value] else []
  }

  /** Resolved if last said gone, regressed if back after that, open otherwise. */
  function FromSayings(h: seq<bool>): Option<Status> {
    if h == [] then None
    else if !h[|h| - 1] then Some(Resolved)
    else if |h| > 1 && !h[|h| - 2] then Some(Regressed)
    else Some(Open)
  }

  ghost predicate Plain(issues: map<string, Issue>) {
    forall fp :: fp in issues ==> issues[fp].status in {Open, Regressed, Resolved}
  }

  /** What became of an issue since `s`, by what was written about it since. */
  ghost predicate Follows(s: State, existing: map<string, Issue>, t: State, fp: string, sightings: bool) {
    && |s.writes| <= |t.writes| && t.writes[..|s.writes|] == s.writes
    && match LastWrite(t.writes[|s.writes|..], fp)
       case None => StatusOf(t.issues, fp) == StatusOf(s.issues, fp)
       case Some(w) =>
         && (w.present ==> sightings && StatusOf(t.issues, fp) == Some(Proposed(existing, fp)))
         && (!w.present ==> !sightings && StatusOf(t.issues, fp) == Some(Resolved))
  }

  /** One more write of the same kind, and what it makes of its issue. */
  lemma FollowsOn(s: State, existing: map<string, Issue>, t: State, t': State, w: Write, fp: string)
    requires Follows(s, existing, t, fp, w.present) && t'.writes == t.writes + [w]
    requires StatusOf(t'.issues, fp) ==
      if fp == w.fingerprint then Some(if w.present then Proposed(existing, fp) else Resolved) else StatusOf(t.issues, fp)
    ensures Follows(s, existing, t', fp, w.present)
    ensures LastWrite(t'.writes[|s.writes|..], fp).Some? <==> fp == w.fingerprint || LastWrite(t.writes[|s.writes|..], fp).Some?
  {
    var recent := t.writes[|s.writes|..];
    SliceOfConcat(t.writes, [w], |s.writes|);
    WritesGrow(recent, w, fp);
    hide LastWrite, StatusOf, Proposed;
  }

  lemma NothingSaid(s: State, existing: map<string, Issue>, fp: string, sightings: bool)
    ensures Follows(s, existing, s, fp, sightings) && LastWrite(s.writes[|s.writes|..], fp) == None
  {
    assert s.writes[|s.writes|..] == [] && s.writes[..|s.writes|] == s.writes;
  }

  lemma {:induction false} SightAllFollows(s: State, existing: map<string, Issue>, findings: seq<Finding>, turns: nat -> Turn, fp: string)
    requires Plain(s.issues) && Alone(turns)
    ensures var t := SightAll(s, existing, findings, turns);
      && Plain(t.issues) && Follows(s, existing, t, fp, true)
      && (LastWrite(t.writes[|s.writes|..], fp).Some? ==> fp in Fingerprints(findings))
  {
    if findings == [] {
      NothingSaid(s, existing, fp, true);
    } else {
      var init, last := findings[..|findings| - 1], findings[|findings| - 1];
      var turn := turns(|init|);
      SightAllFollows(s, existing, init, turns, fp);
      var before, t := SightAll(s, existing, init, turns), SightAll(s, existing, findings, turns);
      OneMoreFingerprint(init, last);
      assert findings == init + [last];
      assert turn.before == turn.between == [];
      SightPlain(before, existing, last, turn, fp);
      hide SightAll, LastWrite, Fingerprints, Sight, Follows, Plain, Alone;
      if t.writes != before.writes {
        FollowsOn(s, existing, before, t, Write(last.fingerprint, true, turn.fate.Completes?), fp);
      } else {
        FollowsSame(s, existing, before, t, fp, true);
      }
    }
  }

  lemma OneMoreFingerprint(init: seq<Finding>, last: Finding)
    ensures Fingerprints(init + [last]) == Fingerprints(init) + {last.fingerprint}
  {
  }

  lemma FollowsSame(s: State, existing: map<string, Issue>, t: State, t': State, fp: string, sightings: bool)
    requires Follows(s, existing, t, fp, sightings) && t'.writes == t.writes && t'.issues == t.issues
    ensures Follows(s, existing, t', fp, sightings)
  {
  }

  lemma SightPlain(s: State, existing: map<string, Issue>, f: Finding, turn: Turn, fp: string)
    requires Plain(s.issues) && turn.before == turn.between == []
    ensures var t := Sight(s, existing, f, turn);
      && Plain(t.issues)
      && ((t.writes == s.writes && t.issues == s.issues) ||
          (t.writes == s.writes + [Write(f.fingerprint, true, turn.fate.Completes?)] &&
           StatusOf(t.issues, fp) == if fp == f.fingerprint then Some(Proposed(existing, fp)) else StatusOf(s.issues, fp)))
  {
  }

  lemma MissPlain(s: State, existing: map<string, Issue>, seen: set<string>, other: string, turn: Turn, fp: string)
    requires Plain(s.issues) && turn.before == turn.between == []
    ensures var t := Miss(s, existing, seen, other, turn);
      && Plain(t.issues)
      && ((t.writes == s.writes && t.issues == s.issues) ||
          (t.writes == s.writes + [Write(other, false, turn.fate.Completes?)] && other !in seen &&
           StatusOf(t.issues, fp) == if fp == other then Some(Resolved) else StatusOf(s.issues, fp)))
  {
  }

  lemma {:induction false} MissAllFollows(s: State, existing: map<string, Issue>, seen: set<string>, order: seq<string>, turns: nat -> Turn,
      fp: string)
    requires Plain(s.issues) && Alone(turns)
    ensures var t := MissAll(s, existing, seen, order, turns);
      && Plain(t.issues) && Follows(s, existing, t, fp, false)
      && (LastWrite(t.writes[|s.writes|..], fp).Some? ==> fp !in seen)
  {
    if order == [] {
      NothingSaid(s, existing, fp, false);
    } else {
      var init, last := order[..|order| - 1], order[|order| - 1];
      var turn := turns(|init|);
      MissAllFollows(s, existing, seen, init, turns, fp);
      var before, t := MissAll(s, existing, seen, init, turns), MissAll(s, existing, seen, order, turns);
      assert turn.before == turn.between == [];
      MissPlain(before, existing, seen, last, turn, fp);
      hide MissAll, LastWrite, Miss, Follows, Plain, Alone;
      if t.writes != before.writes {
        FollowsOn(s, existing, before, t, Write(last, false, turn.fate.Completes?), fp);
      } else {
        FollowsSame(s, existing, before, t, fp, false);
      }
    }
  }

  lemma {:induction false} LastOfTwo(a: seq<Write>, b: seq<Write>, fp: string)
    ensures LastWrite(a + b, fp) == if LastWrite(b, fp).Some? then LastWrite(b, fp) else LastWrite(a, fp)
  {
    if b == [] {
      assert a + b == a;
    } else {
      LastOfTwo(a, b[..|b| - 1], fp);
      assert (a + b)[..|a + b| - 1] == a + b[..|b| - 1];
    }
  }

  /** What an unanswered run makes of an issue is what it got to say about it. */
  lemma RunSays(issues: map<string, Issue>, log: seq<Observation>, writes: seq<Write>, run: Run, fp: string)
    requires Plain(issues) && Alone(run.sighting) && Alone(run.closing)
    ensures var t := Reconciled(issues, log, writes, run);
      && Plain(t.issues) && |writes| <= |t.writes|
      && StatusOf(t.issues, fp) ==
           match Said(writes, t.writes, fp)
           case None => StatusOf(issues, fp)
           case Some(present) => Some(if present then Proposed(issues, fp) else Resolved)
  {
    var seen := Fingerprints(run.findings);
    var first, s, t := Fresh(issues, log, writes), Sighted(issues, log, writes, run), Reconciled(issues, log, writes, run);
    SightAllFollows(first, issues, run.findings, run.sighting, fp);
    MissAllFollows(s, issues, seen, run.order, run.closing, fp);
    hide SightAll, MissAll, LastWrite, Plain, Alone;
    assert t.writes[|writes|..] == s.writes[|writes|..] + t.writes[|s.writes|..] by {
      assert t.writes == s.writes + t.writes[|s.writes|..];
    }
    LastOfTwo(s.writes[|writes|..], t.writes[|s.writes|..], fp);
  }

  lemma UnansweredStep(history: seq<Event>)
    requires Unanswered(history) && history != []
    ensures Unanswered(history[..|history| - 1])
    ensures history[|history| - 1].Runs? && Alone(history[|history| - 1].run.sighting) && Alone(history[|history| - 1].run.closing)
  {
    hide Alone;
  }

  /** With no answers in between, wherever runs died, an issue's status is a function of what the runs got to say about it. */
  lemma {:induction false} StatusIsWhatWasSaid(history: seq<Event>, fp: string)
    requires Unanswered(history)
    ensures Plain(After(history).issues) && StatusOf(After(history).issues, fp) == FromSayings(Sayings(history, fp))
  {
    if history != [] {
      UnansweredStep(history);
      var init, run := history[..|history| - 1], history[|history| - 1].run;
      StatusIsWhatWasSaid(init, fp);
      var s := After(init);
      RunSays(s.issues, s.log, s.writes, run, fp);
      NothingAdded(Sayings(init, fp));
      hide Reconciled, Plain, Said, Alone, Unanswered;
    }
  }
}
