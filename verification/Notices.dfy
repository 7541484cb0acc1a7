/**
  Customer notices (api/alerting/customer.py): said once per website and kind,
  and recorded whether or not the mail could be delivered.
*/
module Notices {
  import opened Prelude

  const REPEAT_AFTER := 14 * 24 * 3600
  const MAX_ERROR := 500

  datatype Notice = Notice(website: nat, kind: string)

  /** A row of `alert_events`. */
  datatype Event = Event(website: nat, kind: string, firedAt: int, deliveredAt: Option<int>, deliveryError: Option<string>)

  /**
    What becomes of one notice once it is to be sent; the mailer may raise before
    or after the server took the mail, and the process may die before, or around,
    any statement.
  */
  datatype Fate =
    | NoMailer
    | NoRecipients
    | Sent
    | Threw(error: string)
    | ThrewAfterSending(error: string)
    | DiesFirst
    | DiesBeforeSending
    | DiesAfterSending

  datatype Counts = Counts(created: seq<string>, delivered: nat, undeliverable: nat, suppressed: nat)

  /** `mails` are the events a mail went out for, in order. */
  datatype State = State(events: seq<Event>, mails: seq<nat>, counts: Counts, alive: bool)

  predicate Recent(events: seq<Event>, n: Notice, since: int) {
    exists k :: 0 <= k < |events| && events[k].website == n.website && events[k].kind == n.kind && events[k].firedAt >= since
  }

  function Cut(error: string): string {
    if |error| <= MAX_ERROR then error else error[..MAX_ERROR]
  }

  function Undelivered(events: seq<Event>, error: string): seq<Event>
    requires events != []
  {
    events[|events| - 1 := events[|events| - 1].(deliveryError := Some(error))]
  }

  /** One notice. */
  function Deliver(s: State, n: Notice, now: int, repeatAfter: int, fate: Fate): State {
    if !s.alive || fate.DiesFirst? then s.(alive := false)
    else if Recent(s.events, n, now - repeatAfter) then
      s.(counts := s.counts.(suppressed := s.counts.suppressed + 1))
    else
      var id := |s.events|;
      var events := s.events + [Event(n.website, n.kind, now, None, None)];
      var created := s.counts.(created := s.counts.created + [n.kind]);
      match fate
      case DiesBeforeSending => State(events, s.mails, created, false)
      case DiesAfterSending => State(events, s.mails + [id], created, false)
      case Sent =>
        State(events[id := events[id].(deliveredAt := Some(now))], s.mails + [id], created.(delivered := created.delivered + 1), true)
      case NoMailer =>
        State(Undelivered(events, "no mail server configured"), s.mails, created.(undeliverable := created.undeliverable + 1), true)
      case NoRecipients =>
        State(Undelivered(events, "no recipients"), s.mails, created.(undeliverable := created.undeliverable + 1), true)
      case Threw(error) =>
        State(Undelivered(events, Cut(error)), s.mails, created.(undeliverable := created.undeliverable + 1), true)
      case ThrewAfterSending(error) =>
        State(Undelivered(events, Cut(error)), s.mails + [id], created.(undeliverable := created.undeliverable + 1), true)
      case DiesFirst => s
  }

  function DeliverAll(s: State, notices: seq<Notice>, now: int, repeatAfter: int, fates: nat -> Fate): State {
    if notices == [] then s else
      var last := |notices| - 1;
      Deliver(DeliverAll(s, notices[..last], now, repeatAfter, fates), notices[last], now, repeatAfter, fates(last))
  }

  function Fresh(events: seq<Event>, mails: seq<nat>): State {
    State(events, mails, Counts([], 0, 0, 0), true)
  }

  /** The website was told of this kind within the interval. */
  ghost predicate ToldSince(events: seq<Event>, n: Notice, since: int) {
    exists k :: 0 <= k < |events| && events[k].website == n.website && events[k].kind == n.kind && since <= events[k].firedAt
  }

  /** A delivery error as it is stored: the first five hundred characters. */
  ghost predicate IsCut(error: string, stored: Option<string>) {
    stored.Some? && stored.value <= error && |stored.value| == if |error| < 500 then |error| else 500
  }

  /** A notice that is recorded: what the row says, whether a mail went out, and whether the process lived. */
  ghost predicate Records(n: Notice, now: int, fate: Fate, row: Event, mailed: bool, alive: bool) {
    && row.website == n.website && row.kind == n.kind && row.firedAt == now
    && (row.deliveredAt == if fate == Sent then Some(now) else None)
    && (mailed <==> fate == Sent || fate == DiesAfterSending || fate.ThrewAfterSending?)
    && (alive <==> fate !in {DiesFirst, DiesBeforeSending, DiesAfterSending})
    && match fate
       case NoMailer => row.deliveryError == Some("no mail server configured")
       case NoRecipients => row.deliveryError == Some("no recipients")
       case Threw(error) => IsCut(error, row.deliveryError)
       case ThrewAfterSending(error) => IsCut(error, row.deliveryError)
       case _ => row.deliveryError.None?
  }

  class AlertEvents {
    var events: seq<Event>
    var mails: seq<nat>

    constructor ()
      ensures events == [] && mails == []
    {
      events, mails := [], [];
    }

    method DeliverNotices(notices: seq<Notice>, now: int, repeatAfter: int, fates: nat -> Fate)
      returns (counts: Counts, alive: bool)
      modifies this
      ensures State(events, mails, counts, alive) ==
        DeliverAll(Fresh(old(events), old(mails)), notices, now, repeatAfter, fates)
    {
      counts, alive := Counts([], 0, 0, 0), true;
      for i := 0 to |notices|
        invariant State(events, mails, counts, alive) ==
          DeliverAll(Fresh(old(events), old(mails)), notices[..i], now, repeatAfter, fates)
      {
        assert notices[..i + 1][..i] == notices[..i];
        counts, alive := DeliverOne(counts, alive, notices[i], now, repeatAfter, fates(i));
      }
      assert notices[..|notices|] == notices;
    }

    method DeliverOne(before: Counts, living: bool, n: Notice, now: int, repeatAfter: int, fate: Fate)
      returns (counts: Counts, alive: bool)
      modifies this
      ensures State(events, mails, counts, alive) == Deliver(State(old(events), old(mails), before, living), n, now, repeatAfter, fate)
      ensures !living || fate == DiesFirst ==> events == old(events) && mails == old(mails) && counts == before && !alive
      ensures living && fate != DiesFirst && ToldSince(old(events), n, now - repeatAfter) ==>
        events == old(events) && mails == old(mails) && alive && counts == before.(suppressed := before.suppressed + 1)
      ensures living && fate != DiesFirst && !ToldSince(old(events), n, now - repeatAfter) ==>
        var mailed := fate == Sent || fate == DiesAfterSending || fate.ThrewAfterSending?;
        && |events| == |old(events)| + 1 && events[..|old(events)|] == old(events)
        && Records(n, now, fate, events[|old(events)|], mailed, alive)
        && mails == old(mails) + (if mailed then [|old(events)|] else [])
        && counts == before.(created := before.created + [n.kind],
             delivered := before.delivered + (if fate == Sent then 1 else 0),
             undeliverable := before.undeliverable + if alive && fate != Sent then 1 else 0)
    {
      assert Recent(events, n, now - repeatAfter) <==> ToldSince(events, n, now - repeatAfter);
      counts, alive := before, living;
      if !alive || fate.DiesFirst? {
        return before, false;
      }
      if Recent(events, n, now - repeatAfter) {
        counts := counts.(suppressed := counts.suppressed + 1);
        return;
      }
      var id := |events|;
      events := events + [Event(n.website, n.kind, now, None, None)];
      counts := counts.(created := counts.created + [n.kind]);
      match fate {
        case DiesFirst =>
        case DiesBeforeSending => alive := false;
        case DiesAfterSending =>
          mails := mails + [id];
          alive := false;
        case Sent =>
          mails := mails + [id];
          events := events[id := events[id].(deliveredAt := Some(now))];
          counts := counts.(delivered := counts.delivered + 1);
        case NoMailer =>
          events := Undelivered(events, "no mail server configured");
          counts := counts.(undeliverable := counts.undeliverable + 1);
        case NoRecipients =>
          events := Undelivered(events, "no recipients");
          counts := counts.(undeliverable := counts.undeliverable + 1);
        case Threw(error) =>
          events := Undelivered(events, Cut(error));
          counts := counts.(undeliverable := counts.undeliverable + 1);
        case ThrewAfterSending(error) =>
          mails := mails + [id];
          events := Undelivered(events, Cut(error));
          counts := counts.(undeliverable := counts.undeliverable + 1);
      }
    }
  }

  // ---- what every notice keeps --------------------------------------------

  /** Events of one website and kind are more than the interval apart. */
  ghost predicate Spaced(events: seq<Event>, repeatAfter: int) {
    forall i, j :: 0 <= i < j < |events| && events[i].website == events[j].website && events[i].kind == events[j].kind ==>
      events[j].firedAt - events[i].firedAt > repeatAfter
  }

  ghost predicate Past(events: seq<Event>, clock: int) {
    forall k :: 0 <= k < |events| ==> events[k].firedAt <= clock
  }

  /** One mail per event at most, and `delivered_at` only where one went out. */
  ghost predicate MailsOk(events: seq<Event>, mails: seq<nat>) {
    && (forall k :: 0 <= k < |mails| ==> mails[k] < |events|)
    && (forall i, j :: 0 <= i < j < |mails| ==> mails[i] < mails[j])
    && (forall id: nat :: id < |events| && events[id].deliveredAt.Some? ==>
          id in mails && events[id].deliveredAt == Some(events[id].firedAt) && events[id].deliveryError.None?)
  }

  ghost predicate Inv(events: seq<Event>, mails: seq<nat>, repeatAfter: int, clock: int) {
    Spaced(events, repeatAfter) && Past(events, clock) && MailsOk(events, mails)
  }

  lemma DeliverKeeps(s: State, n: Notice, now: int, repeatAfter: int, fate: Fate)
    requires Inv(s.events, s.mails, repeatAfter, now)
    ensures var t := Deliver(s, n, now, repeatAfter, fate);
      && Inv(t.events, t.mails, repeatAfter, now) && |s.events| <= |t.events| && (t.alive ==> s.alive)
      && (forall k :: 0 <= k < |s.events| ==> t.events[k] == s.events[k])
      && (t.alive && repeatAfter >= 0 ==> Recent(t.events, n, now - repeatAfter))
  {
    var t := Deliver(s, n, now, repeatAfter, fate);
    DeliverMails(s, n, now, repeatAfter, fate);
    hide MailsOk;
    assert Spaced(t.events, repeatAfter);
    if t.alive && |t.events| > |s.events| {
      assert t.events[|s.events|].website == n.website;
    }
  }

  lemma DeliverMails(s: State, n: Notice, now: int, repeatAfter: int, fate: Fate)
    requires MailsOk(s.events, s.mails)
    ensures var t := Deliver(s, n, now, repeatAfter, fate); MailsOk(t.events, t.mails)
  {
    hide Recent, Cut;
  }

  ghost predicate AllRecent(events: seq<Event>, notices: seq<Notice>, since: int) {
    forall k :: 0 <= k < |notices| ==> Recent(events, notices[k], since)
  }

  lemma RecentStays(events: seq<Event>, events': seq<Event>, n: Notice, since: int)
    requires |events| <= |events'| && forall k :: 0 <= k < |events| ==> events'[k] == events[k]
    ensures Recent(events, n, since) ==> Recent(events', n, since)
  {
    if k :| 0 <= k < |events| && events[k].website == n.website && events[k].kind == n.kind && events[k].firedAt >= since {
      assert events'[k] == events[k];
    }
  }

  lemma {:induction false} DeliverAllKeeps(s: State, notices: seq<Notice>, now: int, repeatAfter: int, fates: nat -> Fate)
    requires Inv(s.events, s.mails, repeatAfter, now)
    ensures var t := DeliverAll(s, notices, now, repeatAfter, fates);
      && Inv(t.events, t.mails, repeatAfter, now)
      && (t.alive && repeatAfter >= 0 ==> AllRecent(t.events, notices, now - repeatAfter))
  {
    if notices != [] {
      var last := |notices| - 1;
      var init := notices[..last];
      var before := DeliverAll(s, init, now, repeatAfter, fates);
      var t := DeliverAll(s, notices, now, repeatAfter, fates);
      assert t == Deliver(before, notices[last], now, repeatAfter, fates(last));
      hide Inv, Deliver, DeliverAll, Recent;
      DeliverAllKeeps(s, init, now, repeatAfter, fates);
      DeliverKeeps(before, notices[last], now, repeatAfter, fates(last));
      AllRecentStays(before.events, t.events, init, now - repeatAfter);
      assert notices == init + [notices[last]];
    }
  }

  lemma AllRecentStays(events: seq<Event>, events': seq<Event>, notices: seq<Notice>, since: int)
    requires |events| <= |events'| && forall k :: 0 <= k < |events| ==> events'[k] == events[k]
    ensures AllRecent(events, notices, since) ==> AllRecent(events', notices, since)
  {
    forall k | 0 <= k < |notices|
      ensures Recent(events, notices[k], since) ==> Recent(events', notices[k], since)
    {
      RecentStays(events, events', notices[k], since);
    }
    hide Recent;
  }

  // ---- any passes ---------------------------------------------------------

  datatype Pass = Pass(notices: seq<Notice>, now: int, fates: nat -> Fate)

  ghost predicate InOrder(passes: seq<Pass>) {
    forall i, j :: 0 <= i < j < |passes| ==> passes[i].now <= passes[j].now
  }

  function After(passes: seq<Pass>, repeatAfter: int): State {
    if passes == [] then Fresh([], []) else
      var before := After(passes[..|passes| - 1], repeatAfter);
      var pass := passes[|passes| - 1];
      DeliverAll(Fresh(before.events, before.mails), pass.notices, pass.now, repeatAfter, pass.fates)
  }

  lemma {:induction false} ReachableOk(passes: seq<Pass>, repeatAfter: int)
    requires passes != [] && InOrder(passes)
    ensures Inv(After(passes, repeatAfter).events, After(passes, repeatAfter).mails, repeatAfter, passes[|passes| - 1].now)
  {
    var init, pass := passes[..|passes| - 1], passes[|passes| - 1];
    var before := After(init, repeatAfter);
    if init == [] {
      assert before == Fresh([], []);
      assert Inv([], [], repeatAfter, pass.now);
    } else {
      ReachableOk(init, repeatAfter);
      assert init[|init| - 1] == passes[|init| - 1];
      LaterOk(before.events, before.mails, repeatAfter, init[|init| - 1].now, pass.now);
    }
    hide Inv, DeliverAll;
    DeliverAllKeeps(Fresh(before.events, before.mails), pass.notices, pass.now, repeatAfter, pass.fates);
  }

  lemma LaterOk(events: seq<Event>, mails: seq<nat>, repeatAfter: int, clock: int, now: int)
    requires Inv(events, mails, repeatAfter, clock) && clock <= now
    ensures Inv(events, mails, repeatAfter, now)
  {
  }

  // ---- the main results ---------------------------------------------------

  /**
    Over any passes with any mail failures: what one website is told of one kind,
    by event or by mail, is told more than the interval apart, at most one mail
    goes out for an event, and `delivered_at` is set only where one did and none
    of its errors was recorded.
  */
  lemma {:induction false} SaidOnce(passes: seq<Pass>, repeatAfter: int, i: nat, j: nat)
    requires passes != [] && InOrder(passes)
    ensures var s := After(passes, repeatAfter);
      && (i < j < |s.events| && s.events[i].website == s.events[j].website && s.events[i].kind == s.events[j].kind ==>
            s.events[j].firedAt - s.events[i].firedAt > repeatAfter)
      && (i < j < |s.mails| ==> s.mails[i] < s.mails[j] < |s.events|)
      && (i < |s.events| && s.events[i].deliveredAt.Some? ==> i in s.mails && s.events[i].deliveryError.None?)
  {
    ReachableOk(passes, repeatAfter);
  }

  /** After a pass that ran to its end, every notice it was given has an event within the interval. */
  lemma {:induction false} NothingUnsaid(passes: seq<Pass>, repeatAfter: int, n: Notice)
    requires passes != [] && InOrder(passes) && repeatAfter >= 0
    ensures After(passes, repeatAfter).alive && n in passes[|passes| - 1].notices ==>
      ToldSince(After(passes, repeatAfter).events, n, passes[|passes| - 1].now - repeatAfter)
  {
    var init, pass := passes[..|passes| - 1], passes[|passes| - 1];
    var before := After(init, repeatAfter);
    if init == [] {
      assert before == Fresh([], []);
      assert Inv([], [], repeatAfter, pass.now);
    } else {
      ReachableOk(init, repeatAfter);
      assert init[|init| - 1] == passes[|init| - 1];
      LaterOk(before.events, before.mails, repeatAfter, init[|init| - 1].now, pass.now);
    }
    assert Recent(After(passes, repeatAfter).events, n, pass.now - repeatAfter) <==>
      ToldSince(After(passes, repeatAfter).events, n, pass.now - repeatAfter);
    hide Inv, DeliverAll, Recent, ToldSince;
    DeliverAllKeeps(Fresh(before.events, before.mails), pass.notices, pass.now, repeatAfter, pass.fates);
  }

  /** An error is no proof of silence: a mailer that raises after the server took the mail leaves one for a mail that went out. */
  lemma ErrorAfterTheMail(n: Notice, now: int, repeatAfter: int, error: string)
    ensures var s := After([Pass([n], now, k => ThrewAfterSending(error))], repeatAfter);
      s.mails == [0] && s.events == [Event(n.website, n.kind, now, None, Some(Cut(error)))]
  {
    var pass := Pass([n], now, k => ThrewAfterSending(error));
    assert [pass][..0] == [] && [n][..0] == [];
    assert !Recent([], n, now - repeatAfter);
    var s := Deliver(Fresh([], []), n, now, repeatAfter, ThrewAfterSending(error));
    assert DeliverAll(Fresh([], []), [n], now, repeatAfter, pass.fates) == s;
  }
}
