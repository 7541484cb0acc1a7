/**
  Politeness towards one host (api/crawler/politeness.py) and the protocol
  around one fetch (api/crawler/fetch.py), for any number of tasks that share
  a limiter. Times are seconds, as reals. A task can be interrupted only where
  the source awaits: for the lock, in the sleep, and during the fetch itself. The
  client follows redirects inside a fetch, so one fetch can be several requests.
*/
module Politeness {
  import opened Ascii
  import opened Prelude

  const FALLBACK_PAUSE := 30.0
  const LONGEST_PAUSE := 300.0
  const MAX_REDIRECTS := 5

  /** The three dictionaries of the limiter; a lock is held or free, and absent until first asked for. */
  datatype Limiter = Limiter(usual: real, delays: map<string, real>, locks: map<string, bool>, nextAllowed: map<string, real>)

  function DelayOf(l: Limiter, host: string): real {
    if host in l.delays then l.delays[host] else l.usual
  }

  predicate Held(l: Limiter, host: string) {
    host in l.locks && l.locks[host]
  }

  function AllowedFrom(l: Limiter, host: string): real {
    if host in l.nextAllowed then l.nextAllowed[host] else 0.0
  }

  function Max(a: real, b: real): real {
    if a < b then b else a
  }

  function WithDelay(l: Limiter, host: string, seconds: real): Limiter {
    l.(delays := l.delays[host := seconds])
  }

  function Locked(l: Limiter, host: string): Limiter {
    l.(locks := l.locks[host := true])
  }

  function BackedOff(l: Limiter, host: string, seconds: real, now: real): Limiter {
    l.(delays := l.delays[host := Max(DelayOf(l, host), seconds)], nextAllowed := l.nextAllowed[host := now + seconds])
  }

  function Released(l: Limiter, host: string, now: real): Limiter {
    l.(nextAllowed := l.nextAllowed[host := now + DelayOf(l, host)],
       locks := if Held(l, host) then l.locks[host := false] else l.locks)
  }

  // ---- what a response asks for -------------------------------------------

  datatype Reply = Raised | Reply(status: int, retryAfter: Option<string>)

  /** A Retry-After that is a whole number. */
  ghost predicate Seconds(retryAfter: Option<string>) {
    retryAfter.Some? && retryAfter.value != "" && forall i :: 0 <= i < |retryAfter.value| ==> '0' <= retryAfter.value[i] <= '9'
  }

  /** The pause a 429 or 503 asks for: its Retry-After when that is a number, half a minute otherwise, five minutes at most. */
  function PauseAsked(reply: Reply): (r: Option<real>)
    ensures r.Some? <==> reply.Reply? && reply.status in {429, 503}
    ensures r.Some? ==> 0.0 <= r.value <= 300.0
    ensures r.Some? && Seconds(reply.retryAfter) ==>
      var n := DigitsValue(reply.retryAfter.value); r.value == if n < 300 then n as real else 300.0
    ensures r.Some? && !Seconds(reply.retryAfter) ==> r.value == 30.0
  {
    match reply
    case Raised => None
    case Reply(status, retryAfter) =>
      if status != 429 && status != 503 then None else
        var seconds :=
          if retryAfter.Some? && retryAfter.value != "" && AllDigits(retryAfter.value)
          then DigitsValue(retryAfter.value) as real
          else FALLBACK_PAUSE;
        Some(if seconds < LONGEST_PAUSE then seconds else LONGEST_PAUSE)
  }

  // ---- the objects --------------------------------------------------------

  class HostLimiter {
    const usual: real
    var delays: map<string, real>
    var locks: map<string, bool>
    var nextAllowed: map<string, real>

    function State(): Limiter
      reads this
    {
      Limiter(usual, delays, locks, nextAllowed)
    }

    constructor (usual: real)
      ensures State() == Limiter(usual, map[], map[], map[])
    {
      this.usual := usual;
      delays, locks, nextAllowed := map[], map[], map[];
    }

    method SetDelay(host: string, seconds: real)
      modifies this`delays
      ensures State() == WithDelay(old(State()), host, seconds) && delays == old(delays)[host := seconds]
    {
      delays := delays[host := seconds];
    }

    /** The part of `acquire` after the lock was free: it is taken, and the wait still owed is answered. */
    method Acquire(host: string, now: real) returns (wait: real)
      requires !Held(State(), host)
      modifies this`locks
      ensures State() == Locked(old(State()), host)
      ensures locks == old(locks)[host := true]
      ensures wait == if host in nextAllowed then nextAllowed[host] - now else -now
    {
      if host !in locks {
        locks := locks[host := false];
      }
      locks := locks[host := true];
      wait := (if host in nextAllowed then nextAllowed[host] else 0.0) - now;
    }

    method Release(host: string, now: real)
      modifies this`nextAllowed, this`locks
      ensures State() == Released(old(State()), host, now)
      ensures nextAllowed == old(nextAllowed)[host := now + if host in delays then delays[host] else usual]
      ensures locks == if host in old(locks) && old(locks)[host] then old(locks)[host := false] else old(locks)
    {
      nextAllowed := nextAllowed[host := now + DelayOf(State(), host)];
      if host in locks && locks[host] {
        locks := locks[host := false];
      }
    }

    method BackOff(host: string, seconds: real, now: real)
      modifies this`delays, this`nextAllowed
      ensures State() == BackedOff(old(State()), host, seconds, now)
      ensures nextAllowed == old(nextAllowed)[host := now + seconds]
      ensures var before := if host in old(delays) then old(delays)[host] else usual;
        delays == old(delays)[host := if before < seconds then seconds else before]
    {
      delays := delays[host := Max(DelayOf(State(), host), seconds)];
      nextAllowed := nextAllowed[host := now + seconds];
    }
  }

  /** A redirect that was followed: where to, and how long after the fetch started. */
  datatype Hop = Hop(host: string, after: real)

  /** The requests of a fetch: the one that was asked for, and one for each redirect. */
  function Requests(host: string, startedAt: real, hops: seq<Hop>): (r: seq<(string, real)>)
    ensures |r| == 1 + |hops| && r[0] == (host, startedAt)
    ensures forall k :: 0 <= k < |hops| ==> r[k + 1] == (hops[k].host, startedAt + hops[k].after)
  {
    [(host, startedAt)] + seq(|hops|, k requires 0 <= k < |hops| => (hops[k].host, startedAt + hops[k].after))
  }

  /**
    One fetch when no other task holds the host's lock. `took` is how long its
    requests ran and `read` how long the body took to decode. The limiter is left
    as `Answered` says, whatever came back, and never hears of the redirects.
  */
  method Fetch(limiter: HostLimiter, host: string, now: real, hops: seq<Hop>, took: real, reply: Reply, read: real)
    returns (startedAt: real, requests: seq<(string, real)>)
    requires !Held(limiter.State(), host) && took >= 0.0 && read >= 0.0 && |hops| <= MAX_REDIRECTS
    modifies limiter
    ensures startedAt == var allowed := if host in old(limiter.nextAllowed) then old(limiter.nextAllowed)[host] else 0.0;
      if now < allowed then allowed else now
    ensures requests == Requests(host, startedAt, hops)
    ensures limiter.locks == old(limiter.locks)[host := false]
    ensures var before := if host in old(limiter.delays) then old(limiter.delays)[host] else limiter.usual;
      var pause := PauseAsked(reply);
      var delay := if pause.Some? && before < pause.value then pause.value else before;
      && limiter.delays == (if pause.Some? then old(limiter.delays)[host := delay] else old(limiter.delays))
      && limiter.nextAllowed == old(limiter.nextAllowed)[host := startedAt + took + read + delay]
    ensures limiter.State() == Answered(Locked(old(limiter.State()), host), host, reply, startedAt + took, read)
  {
    hide PauseAsked;
    var wait := limiter.Acquire(host, now);
    startedAt := if wait > 0.0 then now + wait else now;
    requests := [(host, startedAt)];
    for k := 0 to |hops|
      invariant |requests| == 1 + k && requests == Requests(host, startedAt, hops)[..1 + k]
    {
      requests := requests + [(hops[k].host, startedAt + hops[k].after)];
    }
    var pause := PauseAsked(reply);
    if pause.Some? {
      limiter.BackOff(host, pause.value, startedAt + took);
    }
    limiter.Release(host, startedAt + took + read);
  }

  function Answered(l: Limiter, host: string, reply: Reply, now: real, read: real): Limiter {
    var pause := PauseAsked(reply);
    Released(if pause.Some? then BackedOff(l, host, pause.value, now) else l, host, now + read)
  }

  // ---- any tasks, any order -----------------------------------------------

  datatype Phase = Waiting(host: string) | Sleeping(host: string, until: real) | Fetching(host: string)

  /** `Start` is the first request of a fetch, `Redirected` a request that follows a redirect. */
  datatype Event =
    | Start(host: string, at: real)
    | Redirected(host: string, at: real)
    | Pause(host: string, at: real, seconds: real)
    | Release(host: string, at: real, delay: real)

  datatype Action =
    | Advance(seconds: real)
    | SetDelay(host: string, seconds: real)
    | Ask(task: nat, host: string)
    | TakeLock(task: nat)
    | Wake(task: nat)
    | Redirect(task: nat, to: string)
    | Answer(task: nat, reply: Reply, read: real)

  /** `hops` counts the redirects the fetch of a task has followed. */
  datatype World = World(limiter: Limiter, clock: real, tasks: map<nat, Phase>, log: seq<Event>, hops: map<nat, nat>)

  function Hops(s: World, task: nat): nat {
    if task in s.hops then s.hops[task] else 0
  }

  predicate Holds(p: Phase, host: string) {
    !p.Waiting? && p.host == host
  }

  function Taken(s: World, task: nat, host: string): World {
    var until := AllowedFrom(s.limiter, host);
    if until > s.clock then
      s.(limiter := Locked(s.limiter, host), tasks := s.tasks[task := Sleeping(host, until)])
    else
      s.(limiter := Locked(s.limiter, host), tasks := s.tasks[task := Fetching(host)], log := s.log + [Start(host, s.clock)])
  }

  function Done(s: World, task: nat, host: string, reply: Reply, read: real): World {
    var pause := PauseAsked(reply);
    var later := s.clock + read;
    var slower := if pause.Some? then BackedOff(s.limiter, host, pause.value, s.clock) else s.limiter;
    World(Answered(s.limiter, host, reply, s.clock, read), later, s.tasks - {task},
      s.log + (if pause.Some? then [Pause(host, s.clock, pause.value)] else []) + [Release(host, later, DelayOf(slower, host))],
      s.hops - {task})
  }

  /** A redirect is followed at once, without asking the limiter. */
  function Followed(s: World, task: nat, to: string): World {
    s.(log := s.log + [Redirected(to, s.clock)], hops := s.hops[task := Hops(s, task) + 1])
  }

  function Apply(s: World, a: Action): World {
    match a
    case Advance(seconds) => if seconds >= 0.0 then s.(clock := s.clock + seconds) else s
    case SetDelay(host, seconds) => s.(limiter := WithDelay(s.limiter, host, seconds))
    case Ask(task, host) => if task in s.tasks then s else s.(tasks := s.tasks[task := Waiting(host)])
    case TakeLock(task) =>
      if task in s.tasks && s.tasks[task].Waiting? && !Held(s.limiter, s.tasks[task].host) then
        Taken(s, task, s.tasks[task].host)
      else s
    case Wake(task) =>
      if task in s.tasks && s.tasks[task].Sleeping? && s.clock >= s.tasks[task].until then
        var host := s.tasks[task].host;
        s.(tasks := s.tasks[task := Fetching(host)], log := s.log + [Start(host, s.clock)])
      else s
    case Redirect(task, to) =>
      if task in s.tasks && s.tasks[task].Fetching? && Hops(s, task) < MAX_REDIRECTS then Followed(s, task, to) else s
    case Answer(task, reply, read) =>
      if task in s.tasks && s.tasks[task].Fetching? && read >= 0.0 then
        Done(s, task, s.tasks[task].host, reply, read)
      else s
  }

  function After(usual: real, actions: seq<Action>): World {
    if actions == [] then World(Limiter(usual, map[], map[], map[]), 0.0, map[], [], map[])
    else Apply(After(usual, actions[..|actions| - 1]), actions[|actions| - 1])
  }

  // ---- what every step keeps ----------------------------------------------

  /** The moment an event forbids requests until. */
  function Until(e: Event): real {
    match e
    case Start(_, at) => at
    case Redirected(_, at) => at
    case Pause(_, at, seconds) => at + Max(0.0, seconds)
    case Release(_, at, delay) => at + Max(0.0, delay)
  }

  ghost predicate Past(log: seq<Event>, clock: real) {
    forall i :: 0 <= i < |log| ==> log[i].at <= clock
  }

  /** No event of `host` forbids requests beyond `limit`. */
  ghost predicate Owes(log: seq<Event>, host: string, limit: real) {
    forall i :: 0 <= i < |log| && log[i].host == host ==> Until(log[i]) <= limit
  }

  ghost predicate LocksOk(tasks: map<nat, Phase>, l: Limiter) {
    && (forall a :: a in tasks && !tasks[a].Waiting? ==> Held(l, tasks[a].host))
    && (forall a, b :: a in tasks && b in tasks && !tasks[a].Waiting? && Holds(tasks[b], tasks[a].host) ==> a == b)
  }

  ghost predicate PhasesOk(tasks: map<nat, Phase>, clock: real, log: seq<Event>) {
    forall a :: a in tasks && !tasks[a].Waiting? ==>
      Owes(log, tasks[a].host, if tasks[a].Sleeping? then Max(clock, tasks[a].until) else clock)
  }

  ghost predicate HostsOk(l: Limiter, clock: real, log: seq<Event>) {
    forall host :: Owes(log, host, Max(clock, AllowedFrom(l, host)))
  }

  /** Every pause in the log was kept by every later start. */
  ghost predicate Spaced(log: seq<Event>) {
    forall i, j :: 0 <= i < j < |log| && log[j].Start? && log[i].host == log[j].host ==> Until(log[i]) <= log[j].at
  }

  ghost predicate ReleasedAfter(log: seq<Event>, i: nat) {
    i < |log| && exists k :: i < k < |log| && log[k].Release? && log[k].host == log[i].host
  }

  /** A request that has not been released belongs to a task that is still fetching. */
  ghost predicate FlightsOk(tasks: map<nat, Phase>, log: seq<Event>) {
    forall i: nat :: i < |log| && log[i].Start? && !ReleasedAfter(log, i) ==>
      exists a :: a in tasks && tasks[a] == Fetching(log[i].host)
  }

  /** Between two starts for a host the first one was released. */
  ghost predicate Exclusive(log: seq<Event>) {
    forall i, j :: 0 <= i < j < |log| && log[i].Start? && log[j].Start? && log[i].host == log[j].host ==>
      exists k :: i < k < j && log[k].Release? && log[k].host == log[i].host
  }

  ghost predicate Inv(s: World) {
    && Past(s.log, s.clock) && LocksOk(s.tasks, s.limiter) && PhasesOk(s.tasks, s.clock, s.log)
    && HostsOk(s.limiter, s.clock, s.log) && Spaced(s.log) && FlightsOk(s.tasks, s.log) && Exclusive(s.log)
  }

  lemma SpacedStart(log: seq<Event>, host: string, now: real)
    requires Spaced(log) && Owes(log, host, now)
    ensures Spaced(log + [Start(host, now)])
  {
  }

  lemma ReleasedStays(log: seq<Event>, more: seq<Event>, i: nat)
    requires i < |log|
    ensures ReleasedAfter(log, i) ==> ReleasedAfter(log + more, i)
  {
    if ReleasedAfter(log, i) {
      var k :| i < k < |log| && log[k].Release? && log[k].host == log[i].host;
      assert (log + more)[k] == log[k];
    }
  }

  lemma FlightsStart(tasks: map<nat, Phase>, log: seq<Event>, task: nat, host: string, now: real)
    requires FlightsOk(tasks, log) && (task in tasks ==> !tasks[task].Fetching?)
    ensures FlightsOk(tasks[task := Fetching(host)], log + [Start(host, now)])
  {
    var log' := log + [Start(host, now)];
    var tasks' := tasks[task := Fetching(host)];
    forall i: nat | i < |log'| && log'[i].Start? && !ReleasedAfter(log', i)
      ensures exists a :: a in tasks' && tasks'[a] == Fetching(log'[i].host)
    {
      if i < |log| {
        ReleasedStays(log, [Start(host, now)], i);
        var a :| a in tasks && tasks[a] == Fetching(log[i].host);
        assert tasks'[a] == tasks[a];
      } else {
        assert tasks'[task] == Fetching(host);
      }
    }
  }

  lemma ExclusiveStart(tasks: map<nat, Phase>, log: seq<Event>, host: string, now: real)
    requires Exclusive(log) && FlightsOk(tasks, log) && forall a :: a in tasks ==> tasks[a] != Fetching(host)
    ensures Exclusive(log + [Start(host, now)])
  {
    var log' := log + [Start(host, now)];
    forall i, j | 0 <= i < j < |log'| && log'[i].Start? && log'[j].Start? && log'[i].host == log'[j].host
      ensures exists k :: i < k < j && log'[k].Release? && log'[k].host == log'[i].host
    {
      if j < |log| {
        var k :| i < k < j && log[k].Release? && log[k].host == log[i].host;
        assert log'[k] == log[k];
      } else {
        assert ReleasedAfter(log, i);
        var k :| i < k < |log| && log[k].Release? && log[k].host == log[i].host;
        assert log'[k] == log[k];
      }
    }
  }

  /** A task that has the lock, and whom nothing is owed, starts its request. */
  lemma StartKeeps(s: World, task: nat, host: string)
    requires Inv(s) && Held(s.limiter, host) && Owes(s.log, host, s.clock)
    requires task in s.tasks && s.tasks[task].host == host && !s.tasks[task].Fetching?
    requires forall a :: a in s.tasks && Holds(s.tasks[a], host) ==> a == task
    ensures Inv(s.(tasks := s.tasks[task := Fetching(host)], log := s.log + [Start(host, s.clock)]))
  {
    var tasks, log := s.tasks[task := Fetching(host)], s.log + [Start(host, s.clock)];
    assert Past(log, s.clock) && LocksOk(tasks, s.limiter);
    SpacedStart(s.log, host, s.clock);
    FlightsStart(s.tasks, s.log, task, host, s.clock);
    ExclusiveStart(s.tasks, s.log, host, s.clock);
    hide FlightsOk, Exclusive, Spaced, LocksOk, Past;
    assert forall h, limit :: Owes(s.log, h, limit) && limit >= s.clock ==> Owes(log, h, limit);
    hide Owes;
  }

  lemma LockKeeps(s: World, task: nat)
    requires Inv(s) && task in s.tasks && s.tasks[task].Waiting? && !Held(s.limiter, s.tasks[task].host)
    ensures Inv(Taken(s, task, s.tasks[task].host))
  {
    var host := s.tasks[task].host;
    var until := AllowedFrom(s.limiter, host);
    var locked := s.(limiter := Locked(s.limiter, host));
    assert LocksOk(s.tasks, locked.limiter);
    assert HostsOk(locked.limiter, s.clock, s.log) by {
      hide Owes;
      assert forall h :: AllowedFrom(locked.limiter, h) == AllowedFrom(s.limiter, h);
    }
    assert Owes(s.log, host, Max(s.clock, until));
    assert forall a :: a in s.tasks && Holds(s.tasks[a], host) ==> a == task;
    if until > s.clock {
      LockSleeps(s, task, host, until);
    } else {
      hide LocksOk, HostsOk, Owes, FlightsOk, Exclusive, Spaced, PhasesOk, Past;
      StartKeeps(locked, task, host);
    }
  }

  lemma LockSleeps(s: World, task: nat, host: string, until: real)
    requires Inv(s) && task in s.tasks && s.tasks[task] == Waiting(host) && !Held(s.limiter, host)
    requires Owes(s.log, host, Max(s.clock, until)) && HostsOk(Locked(s.limiter, host), s.clock, s.log)
    ensures Inv(s.(limiter := Locked(s.limiter, host), tasks := s.tasks[task := Sleeping(host, until)]))
  {
    var tasks := s.tasks[task := Sleeping(host, until)];
    assert LocksOk(tasks, Locked(s.limiter, host));
    assert FlightsOk(tasks, s.log) by {
      forall i: nat | i < |s.log| && s.log[i].Start? && !ReleasedAfter(s.log, i)
        ensures exists a :: a in tasks && tasks[a] == Fetching(s.log[i].host)
      {
        var a :| a in s.tasks && s.tasks[a] == Fetching(s.log[i].host);
        assert tasks[a] == s.tasks[a];
      }
    }
    hide Owes, FlightsOk, Exclusive, Spaced, LocksOk, HostsOk;
    assert PhasesOk(tasks, s.clock, s.log);
  }

  /** Events that start nothing cannot break spacing or exclusion. */
  lemma QuietEvent(log: seq<Event>, e: Event)
    requires Spaced(log) && Exclusive(log) && !e.Start?
    ensures Spaced(log + [e]) && Exclusive(log + [e])
  {
    var log' := log + [e];
    forall i, j | 0 <= i < j < |log'| && log'[i].Start? && log'[j].Start? && log'[i].host == log'[j].host
      ensures exists k :: i < k < j && log'[k].Release? && log'[k].host == log'[i].host
    {
      var k :| i < k < j && log[k].Release? && log[k].host == log[i].host;
      assert log'[k] == log[k];
    }
  }

  /** An answer appends a pause, if the server asked for one, and the release that follows it. */
  function Closing(host: string, at: real, pause: Option<real>, later: real, delay: real): seq<Event> {
    (if pause.Some? then [Pause(host, at, pause.value)] else []) + [Release(host, later, delay)]
  }

  lemma OwesClosing(log: seq<Event>, host: string, at: real, pause: Option<real>, later: real, delay: real, other: string, limit: real)
    requires at <= later && (pause.Some? ==> pause.value <= delay) && Owes(log, other, limit)
    ensures other != host ==> Owes(log + Closing(host, at, pause, later, delay), other, limit)
    ensures other == host && limit <= later ==> Owes(log + Closing(host, at, pause, later, delay), host, Max(later, later + delay))
  {
    var all := log + Closing(host, at, pause, later, delay);
    assert |Closing(host, at, pause, later, delay)| <= 2;
    assert forall i :: 0 <= i < |log| ==> all[i] == log[i];
    assert forall i :: |log| <= i < |all| ==> all[i].host == host && Until(all[i]) <= Max(later, later + delay);
  }

  lemma FlightsDone(tasks: map<nat, Phase>, log: seq<Event>, task: nat, host: string, closing: seq<Event>)
    requires FlightsOk(tasks, log) && task in tasks && tasks[task] == Fetching(host)
    requires closing != [] && closing[|closing| - 1].Release? && closing[|closing| - 1].host == host
    requires forall k :: 0 <= k < |closing| ==> !closing[k].Start?
    ensures FlightsOk(tasks - {task}, log + closing)
  {
    var log', tasks' := log + closing, tasks - {task};
    forall i: nat | i < |log'| && log'[i].Start? && !ReleasedAfter(log', i)
      ensures exists a :: a in tasks' && tasks'[a] == Fetching(log'[i].host)
    {
      assert i < |log|;
      assert log'[|log'| - 1] == closing[|closing| - 1];
      assert log[i].host != host;
      ReleasedStays(log, closing, i);
      var a :| a in tasks && tasks[a] == Fetching(log[i].host);
      assert tasks'[a] == tasks[a];
    }
  }

  lemma DoneKeeps(s: World, task: nat, host: string, reply: Reply, read: real)
    requires Inv(s) && task in s.tasks && s.tasks[task] == Fetching(host) && read >= 0.0
    ensures Inv(Done(s, task, host, reply, read))
  {
    var pause := PauseAsked(reply);
    var later := s.clock + read;
    var slower := if pause.Some? then BackedOff(s.limiter, host, pause.value, s.clock) else s.limiter;
    var delay := DelayOf(slower, host);
    var closing := Closing(host, s.clock, pause, later, delay);
    var s' := Done(s, task, host, reply, read);
    assert s'.log == s.log + closing;
    assert AllowedFrom(s'.limiter, host) == later + delay;
    FlightsDone(s.tasks, s.log, task, host, closing);
    ClosingIsQuiet(s.log, host, s.clock, pause, later, delay);
    assert Owes(s.log, host, s.clock);
    OwesClosing(s.log, host, s.clock, pause, later, delay, host, s.clock);
    hide FlightsOk, Spaced, Exclusive, Owes, PauseAsked, Closing;
    assert LocksOk(s'.tasks, s'.limiter);
    HostsDone(s, host, pause, later, delay, s'.limiter);
    PhasesDone(s, task, host, pause, later, delay);
    assert Past(s'.log, later) by {
      ClosingPast(s.log, host, s.clock, pause, later, delay);
    }
  }

  lemma ClosingPast(log: seq<Event>, host: string, at: real, pause: Option<real>, later: real, delay: real)
    requires Past(log, at) && at <= later
    ensures Past(log + Closing(host, at, pause, later, delay), later)
  {
  }

  lemma ClosingIsQuiet(log: seq<Event>, host: string, at: real, pause: Option<real>, later: real, delay: real)
    requires Spaced(log) && Exclusive(log)
    ensures Spaced(log + Closing(host, at, pause, later, delay)) && Exclusive(log + Closing(host, at, pause, later, delay))
  {
    hide Spaced, Exclusive;
    if pause.Some? {
      QuietEvent(log, Pause(host, at, pause.value));
      QuietEvent(log + [Pause(host, at, pause.value)], Release(host, later, delay));
      ConcatAssociates(log, [Pause(host, at, pause.value)], [Release(host, later, delay)]);
    } else {
      QuietEvent(log, Release(host, later, delay));
      assert [] + [Release(host, later, delay)] == [Release(host, later, delay)];
    }
  }

  lemma HostsDone(s: World, host: string, pause: Option<real>, later: real, delay: real, l: Limiter)
    requires HostsOk(s.limiter, s.clock, s.log) && s.clock <= later && (pause.Some? ==> pause.value <= delay)
    requires l.nextAllowed == s.limiter.nextAllowed[host := later + delay]
    requires Owes(s.log + Closing(host, s.clock, pause, later, delay), host, Max(later, later + delay))
    ensures HostsOk(l, later, s.log + Closing(host, s.clock, pause, later, delay))
  {
    hide Closing;
    forall h
      ensures Owes(s.log + Closing(host, s.clock, pause, later, delay), h, Max(later, AllowedFrom(l, h)))
    {
      var limit := Max(s.clock, AllowedFrom(s.limiter, h));
      OwesClosing(s.log, host, s.clock, pause, later, delay, h, limit);
    }
  }

  lemma PhasesDone(s: World, task: nat, host: string, pause: Option<real>, later: real, delay: real)
    requires PhasesOk(s.tasks, s.clock, s.log) && LocksOk(s.tasks, s.limiter)
    requires task in s.tasks && s.tasks[task] == Fetching(host)
    requires s.clock <= later && (pause.Some? ==> pause.value <= delay)
    ensures PhasesOk(s.tasks - {task}, later, s.log + Closing(host, s.clock, pause, later, delay))
  {
    hide Closing;
    var tasks := s.tasks - {task};
    forall a | a in tasks && !tasks[a].Waiting?
      ensures Owes(s.log + Closing(host, s.clock, pause, later, delay), tasks[a].host,
        if tasks[a].Sleeping? then Max(later, tasks[a].until) else later)
    {
      assert tasks[a].host != host by {
        assert Holds(s.tasks[a], s.tasks[a].host);
      }
      var limit := if tasks[a].Sleeping? then Max(s.clock, tasks[a].until) else s.clock;
      OwesClosing(s.log, host, s.clock, pause, later, delay, tasks[a].host, limit);
    }
  }

  lemma AdvanceKeeps(s: World, seconds: real)
    requires Inv(s) && seconds >= 0.0
    ensures Inv(s.(clock := s.clock + seconds))
  {
    hide FlightsOk, Spaced, Exclusive, LocksOk;
  }

  lemma ApplyKeeps(s: World, a: Action)
    requires Inv(s)
    ensures Inv(Apply(s, a))
  {
    hide FlightsOk, Spaced, Exclusive, Past, Owes;
    match a {
      case Advance(seconds) =>
        if seconds >= 0.0 {
          AdvanceKeeps(s, seconds);
        }
      case SetDelay(host, seconds) =>
        assert forall h :: AllowedFrom(WithDelay(s.limiter, host, seconds), h) == AllowedFrom(s.limiter, h);
      case Ask(task, host) =>
        AskKeeps(s, task, host);
      case TakeLock(task) =>
        if task in s.tasks && s.tasks[task].Waiting? && !Held(s.limiter, s.tasks[task].host) {
          LockKeeps(s, task);
        }
      case Wake(task) =>
        if task in s.tasks && s.tasks[task].Sleeping? && s.clock >= s.tasks[task].until {
          StartKeeps(s, task, s.tasks[task].host);
        }
      case Redirect(task, to) =>
        if task in s.tasks && s.tasks[task].Fetching? && Hops(s, task) < MAX_REDIRECTS {
          RedirectKeeps(s, task, to);
        }
      case Answer(task, reply, read) =>
        if task in s.tasks && s.tasks[task].Fetching? && read >= 0.0 {
          DoneKeeps(s, task, s.tasks[task].host, reply, read);
        }
    }
  }

  lemma RedirectKeeps(s: World, task: nat, to: string)
    requires Inv(s)
    ensures Inv(Followed(s, task, to))
  {
    var e := Redirected(to, s.clock);
    var log := s.log + [e];
    QuietEvent(s.log, e);
    assert FlightsOk(s.tasks, log) by {
      forall i: nat | i < |log| && log[i].Start? && !ReleasedAfter(log, i)
        ensures exists a :: a in s.tasks && s.tasks[a] == Fetching(log[i].host)
      {
        ReleasedStays(s.log, [e], i);
      }
    }
    assert Past(log, s.clock);
    hide FlightsOk, Exclusive, Spaced, LocksOk, Past;
    assert forall h, limit :: Owes(s.log, h, limit) && limit >= s.clock ==> Owes(log, h, limit);
    hide Owes;
  }

  lemma AskKeeps(s: World, task: nat, host: string)
    requires Inv(s)
    ensures Inv(Apply(s, Ask(task, host)))
  {
    if task !in s.tasks {
      var tasks := s.tasks[task := Waiting(host)];
      assert FlightsOk(tasks, s.log) by {
        forall i: nat | i < |s.log| && s.log[i].Start? && !ReleasedAfter(s.log, i)
          ensures exists a :: a in tasks && tasks[a] == Fetching(s.log[i].host)
        {
          var a :| a in s.tasks && s.tasks[a] == Fetching(s.log[i].host);
          assert tasks[a] == s.tasks[a];
        }
      }
      hide FlightsOk, Spaced, Exclusive, Owes, HostsOk;
      assert LocksOk(tasks, s.limiter) && PhasesOk(tasks, s.clock, s.log);
    }
  }

  lemma {:induction false} ReachableOk(usual: real, actions: seq<Action>)
    ensures Inv(After(usual, actions))
  {
    if actions != [] {
      ReachableOk(usual, actions[..|actions| - 1]);
      ApplyKeeps(After(usual, actions[..|actions| - 1]), actions[|actions| - 1]);
    }
  }

  // ---- the main results ---------------------------------------------------

  /** At most one fetch per host is in flight, and at most one task holds a host's lock. */
  lemma {:induction false} OneFetchPerHost(usual: real, actions: seq<Action>)
    ensures Exclusive(After(usual, actions).log)
    ensures var tasks := After(usual, actions).tasks;
      forall a, b :: a in tasks && b in tasks && tasks[a].Fetching? && tasks[b] == tasks[a] ==> a == b
  {
    ReachableOk(usual, actions);
    var tasks := After(usual, actions).tasks;
    forall a, b | a in tasks && b in tasks && tasks[a].Fetching? && tasks[b] == tasks[a]
      ensures a == b
    {
      assert Holds(tasks[b], tasks[a].host);
    }
  }

  // ---- request by request -------------------------------------------------

  predicate IsRequest(e: Event) {
    e.Start? || e.Redirected?
  }

  /** Between any two requests to a host one fetch of it was released. */
  ghost predicate OneAtATime(log: seq<Event>) {
    forall i, j :: 0 <= i < j < |log| && IsRequest(log[i]) && IsRequest(log[j]) && log[i].host == log[j].host ==>
      exists k :: i < k < j && log[k].Release? && log[k].host == log[i].host
  }

  /** No request comes before the moment an earlier event of its host asks it to wait for. */
  ghost predicate Delayed(log: seq<Event>) {
    forall i, j :: 0 <= i < j < |log| && IsRequest(log[j]) && log[i].host == log[j].host ==> Until(log[i]) <= log[j].at
  }

  /** Every redirect these tasks follow leads from a fetch of one host to another as `allowed` says. */
  ghost predicate Follows(usual: real, actions: seq<Action>, allowed: set<(string, string)>) {
    forall k :: 0 <= k < |actions| && actions[k].Redirect? ==>
      var tasks := After(usual, actions[..k]).tasks;
      actions[k].task in tasks ==> (tasks[actions[k].task].host, actions[k].to) in allowed
  }

  lemma {:induction false} NothingRedirected(usual: real, actions: seq<Action>)
    requires Follows(usual, actions, {})
    ensures forall k :: 0 <= k < |After(usual, actions).log| ==> !After(usual, actions).log[k].Redirected?
  {
    if actions != [] {
      var init, last := actions[..|actions| - 1], actions[|actions| - 1];
      FollowsInit(usual, actions, {});
      NothingRedirected(usual, init);
      assert last.Redirect? ==> last.task !in After(usual, init).tasks;
    }
  }

  lemma OneMoreAction(usual: real, actions: seq<Action>, a: Action)
    ensures After(usual, actions + [a]) == Apply(After(usual, actions), a)
  {
    assert (actions + [a])[..|actions|] == actions;
  }

  /** A new task that asks for a host nothing is owed to starts at once, if the lock is free. */
  lemma StartsAtOnce(usual: real, actions: seq<Action>, task: nat, host: string)
    requires var s := After(usual, actions); task !in s.tasks && AllowedFrom(s.limiter, host) <= s.clock
    ensures var s, t := After(usual, actions), After(usual, actions + [Ask(task, host), TakeLock(task)]);
      && t.clock == s.clock && t.hops == s.hops && t.limiter.nextAllowed == s.limiter.nextAllowed
      && (if Held(s.limiter, host) then t.log == s.log && t.tasks == s.tasks[task := Waiting(host)]
          else t.log == s.log + [Start(host, s.clock)] && t.tasks == s.tasks[task := Fetching(host)])
      && (forall h :: Held(t.limiter, h) <==> Held(s.limiter, h) || h == host)
  {
    OneMoreAction(usual, actions, Ask(task, host));
    OneMoreAction(usual, actions + [Ask(task, host)], TakeLock(task));
    assert actions + [Ask(task, host)] + [TakeLock(task)] == actions + [Ask(task, host), TakeLock(task)];
    hide After;
  }

  /** A run of which every redirect is the last action, of a task in flight. */
  lemma FollowsOne(usual: real, actions: seq<Action>, task: nat, to: string, allowed: set<(string, string)>)
    requires forall k :: 0 <= k < |actions| ==> !actions[k].Redirect?
    requires task in After(usual, actions).tasks && (After(usual, actions).tasks[task].host, to) in allowed
    ensures Follows(usual, actions + [Redirect(task, to)], allowed)
  {
    assert (actions + [Redirect(task, to)])[..|actions|] == actions;
  }

  /** Two tasks, and a redirect from the fetch of the one to the host of the other. */
  function TwoTasks(from: string, to: string): seq<Action> {
    [] + [Ask(0, from), TakeLock(0)] + [Ask(1, to), TakeLock(1)]
  }

  /** Whether the redirect leads to the same host or to another: it meets a request there that was not released. */
  lemma TwoTasksMeet(usual: real, from: string, to: string, allowed: set<(string, string)>)
    requires (from, to) in allowed
    ensures var actions := TwoTasks(from, to) + [Redirect(0, to)];
      !OneAtATime(After(usual, actions).log) && Follows(usual, actions, allowed)
  {
    var one := [] + [Ask(0, from), TakeLock(0)];
    StartsAtOnce(usual, [], 0, from);
    StartsAtOnce(usual, one, 1, to);
    var s := After(usual, TwoTasks(from, to));
    assert s.tasks[0] == Fetching(from) && s.log == [Start(from, 0.0)] + if from == to then [] else [Start(to, 0.0)];
    OneMoreAction(usual, TwoTasks(from, to), Redirect(0, to));
    FollowsOne(usual, TwoTasks(from, to), 0, to, allowed);
    var log := After(usual, TwoTasks(from, to) + [Redirect(0, to)]).log;
    hide After, Follows;
    assert log[|log| - 1] == Redirected(to, 0.0) && log[|log| - 2] == Start(to, 0.0);
  }

  /**
    A host sees requests one at a time exactly when no redirect is ever followed:
    if any is, from whichever host to whichever, some run breaks it.
  */
  lemma {:induction false} RequestsAreFetches(usual: real, allowed: set<(string, string)>)
    ensures (forall actions :: Follows(usual, actions, allowed) ==> OneAtATime(After(usual, actions).log)) <==> allowed == {}
  {
    if allowed == {} {
      forall actions | Follows(usual, actions, allowed)
        ensures OneAtATime(After(usual, actions).log)
      {
        NothingRedirected(usual, actions);
        ReachableOk(usual, actions);
      }
    } else {
      var hop :| hop in allowed;
      TwoTasksMeet(usual, hop.0, hop.1, allowed);
    }
  }

  lemma FollowsInit(usual: real, actions: seq<Action>, allowed: set<(string, string)>)
    requires Follows(usual, actions, allowed) && actions != []
    ensures Follows(usual, actions[..|actions| - 1], allowed)
  {
    var init := actions[..|actions| - 1];
    forall k | 0 <= k < |init| && init[k].Redirect?
      ensures var tasks := After(usual, init[..k]).tasks;
        init[k].task in tasks ==> (tasks[init[k].task].host, init[k].to) in allowed
    {
      assert init[k] == actions[k] && init[..k] == actions[..k];
    }
  }

  /** Redirects that stay on the host of their fetch are requests that nothing is owed for. */
  lemma {:induction false} StayingIsDelayed(usual: real, actions: seq<Action>, allowed: set<(string, string)>)
    requires Follows(usual, actions, allowed) && forall hop :: hop in allowed ==> hop.0 == hop.1
    ensures Delayed(After(usual, actions).log)
  {
    ReachableOk(usual, actions);
    if actions != [] {
      var init, last := actions[..|actions| - 1], actions[|actions| - 1];
      FollowsInit(usual, actions, allowed);
      StayingIsDelayed(usual, init, allowed);
      ReachableOk(usual, init);
      var s, t := After(usual, init), After(usual, actions);
      LogGrows(s, last);
      forall i, j | 0 <= i < j < |t.log| && t.log[j].Redirected? && t.log[i].host == t.log[j].host
        ensures Until(t.log[i]) <= t.log[j].at
      {
        if j >= |s.log| {
          assert last.Redirect? && (s.tasks[last.task].host, last.to) in allowed;
          assert Owes(s.log, last.to, s.clock);
          assert t.log[i] == s.log[i];
        }
      }
    }
  }

  lemma LogGrows(s: World, a: Action)
    ensures var t := Apply(s, a);
      && |s.log| <= |t.log| && (forall k :: 0 <= k < |s.log| ==> t.log[k] == s.log[k])
      && (forall k :: |s.log| <= k < |t.log| && t.log[k].Redirected? ==>
            a.Redirect? && a.task in s.tasks && s.tasks[a.task].Fetching? && k == |s.log| && t.log[k] == Redirected(a.to, s.clock))
  {
    hide PauseAsked, Answered;
  }

  /** A host answers "too many requests", and meanwhile a task fetches from another. */
  function Impatient(from: string, to: string): seq<Action> {
    Refused(to) + [Ask(0, from), TakeLock(0)]
  }

  function Refused(to: string): seq<Action> {
    [] + [Ask(1, to), TakeLock(1)] + [Answer(1, Reply(429, None), 0.0)]
  }

  lemma RefusedIsSlowed(usual: real, to: string)
    ensures var s := After(usual, Refused(to));
      && s.tasks == map[] && s.clock == 0.0 && |s.log| == 3 && s.log[1] == Pause(to, 0.0, FALLBACK_PAUSE)
      && s.hops == map[] && (forall h :: h != to ==> AllowedFrom(s.limiter, h) == 0.0) && (forall h :: !Held(s.limiter, h))
  {
    var one := [] + [Ask(1, to), TakeLock(1)];
    StartsAtOnce(usual, [], 1, to);
    OneMoreAction(usual, one, Answer(1, Reply(429, None), 0.0));
    var s := After(usual, one);
    assert s.log == [Start(to, 0.0)] && s.tasks == map[1 := Fetching(to)];
    hide After;
    assert s.tasks - {1} == map[];
  }

  /** A redirect there does not wait for the pause the host asked for. */
  lemma ImpatientComesTooSoon(usual: real, from: string, to: string, allowed: set<(string, string)>)
    requires from != to && (from, to) in allowed
    ensures var actions := Impatient(from, to) + [Redirect(0, to)];
      !Delayed(After(usual, actions).log) && Follows(usual, actions, allowed)
  {
    RefusedIsSlowed(usual, to);
    StartsAtOnce(usual, Refused(to), 0, from);
    OneMoreAction(usual, Impatient(from, to), Redirect(0, to));
    FollowsOne(usual, Impatient(from, to), 0, to, allowed);
    var log := After(usual, Impatient(from, to) + [Redirect(0, to)]).log;
    hide After, Follows;
    assert log[1] == Pause(to, 0.0, FALLBACK_PAUSE) && log[4] == Redirected(to, 0.0);
  }

  /**
    No request comes before the delay it is owed exactly when redirects stay on
    the host of their fetch: one that leads to another host can come too soon.
  */
  lemma {:induction false} DelaysHoldOnOneHost(usual: real, allowed: set<(string, string)>)
    ensures (forall actions :: Follows(usual, actions, allowed) ==> Delayed(After(usual, actions).log)) <==>
      forall hop :: hop in allowed ==> hop.0 == hop.1
  {
    if forall hop :: hop in allowed ==> hop.0 == hop.1 {
      forall actions | Follows(usual, actions, allowed)
        ensures Delayed(After(usual, actions).log)
      {
        StayingIsDelayed(usual, actions, allowed);
      }
    } else {
      var hop :| hop in allowed && hop.0 != hop.1;
      ImpatientComesTooSoon(usual, hop.0, hop.1, allowed);
    }
  }

  /**
    Every start comes at least the delay in force at a release after that
    release, and at least s seconds after a back-off of s, whatever delays were
    set in between.
  */
  lemma {:induction false} StartsAreSpaced(usual: real, actions: seq<Action>, i: nat, j: nat)
    requires i < j < |After(usual, actions).log|
    ensures var log := After(usual, actions).log;
      log[j].Start? && log[i].host == log[j].host ==>
        && (log[i].Release? ==> log[j].at >= log[i].at + log[i].delay)
        && (log[i].Pause? ==> log[j].at >= log[i].at + log[i].seconds)
        && log[j].at >= log[i].at
  {
    ReachableOk(usual, actions);
  }

  /** Only `set_delay` lowers a host's delay. */
  lemma DelayNeverDrops(s: World, a: Action, host: string)
    requires !(a.SetDelay? && a.host == host)
    ensures DelayOf(Apply(s, a).limiter, host) >= DelayOf(s.limiter, host)
  {
    hide PauseAsked;
    match a {
      case Answer(task, reply, read) =>
        if task in s.tasks {
          AnswerSlows(s.limiter, s.tasks[task].host, reply, s.clock, read, host);
        }
      case _ =>
    }
  }

  lemma AnswerSlows(l: Limiter, host: string, reply: Reply, now: real, read: real, other: string)
    ensures DelayOf(Answered(l, host, reply, now, read), other) >= DelayOf(l, other)
    ensures PauseAsked(reply).Some? ==> DelayOf(Answered(l, host, reply, now, read), host) >= PauseAsked(reply).value
  {
    hide PauseAsked;
  }

  lemma {:induction false} DelayNeverDropsThroughout(usual: real, actions: seq<Action>, n: nat, host: string)
    requires n <= |actions|
    requires forall k :: n <= k < |actions| ==> !(actions[k].SetDelay? && actions[k].host == host)
    ensures DelayOf(After(usual, actions).limiter, host) >= DelayOf(After(usual, actions[..n]).limiter, host)
    decreases |actions|
  {
    if n < |actions| {
      var init := actions[..|actions| - 1];
      assert init[..n] == actions[..n];
      DelayNeverDropsThroughout(usual, init, n, host);
      hide Apply;
      DelayNeverDrops(After(usual, init), actions[|actions| - 1], host);
    } else {
      assert actions[..n] == actions;
    }
  }

  /**
    What moves a host's delay: at first it is the usual one, setting it makes it
    that, and an answer that asks for a longer pause raises it to the pause.
  */
  lemma DelayMoves(usual: real, s: World, a: Action, host: string)
    ensures DelayOf(After(usual, []).limiter, host) == usual
    ensures DelayOf(Apply(s, a).limiter, host) ==
      if a.SetDelay? && a.host == host then a.seconds
      else if a.Answer? && a.task in s.tasks && s.tasks[a.task] == Fetching(host) && a.read >= 0.0 && PauseAsked(a.reply).Some? then
        if DelayOf(s.limiter, host) < PauseAsked(a.reply).value then PauseAsked(a.reply).value else DelayOf(s.limiter, host)
      else DelayOf(s.limiter, host)
  {
    hide PauseAsked;
  }

  /** A fetch's answer is logged with the delay that is in force from then on. */
  lemma ReleaseSaysDelay(s: World, task: nat, reply: Reply, read: real)
    requires task in s.tasks && s.tasks[task].Fetching? && read >= 0.0
    ensures var t := Apply(s, Answer(task, reply, read));
      var host := s.tasks[task].host;
      && |t.log| > |s.log| && t.log[|t.log| - 1] == Release(host, s.clock + read, DelayOf(t.limiter, host))
      && (PauseAsked(reply).Some? ==> |t.log| == |s.log| + 2 && t.log[|s.log|] == Pause(host, s.clock, PauseAsked(reply).value))
      && (PauseAsked(reply).None? ==> |t.log| == |s.log| + 1)
  {
    hide PauseAsked;
  }

  /** A task that no other comes between: it takes the lock, waits what is owed, runs its requests and answers. */
  function Alone(s: World, task: nat, host: string, took: real, reply: Reply, read: real): World {
    var asked := Apply(Apply(s, Ask(task, host)), TakeLock(task));
    var wait := Max(AllowedFrom(s.limiter, host) - s.clock, 0.0);
    var started := Apply(Apply(asked, Advance(wait)), Wake(task));
    Apply(Apply(started, Advance(took)), Answer(task, reply, read))
  }

  /** Such a task does to the limiter what `Fetch` does, and starts when `Fetch` does. */
  lemma FetchIsProtocol(s: World, task: nat, host: string, took: real, reply: Reply, read: real)
    requires task !in s.tasks && !Held(s.limiter, host) && took >= 0.0 && read >= 0.0
    ensures var t := Alone(s, task, host, took, reply, read);
      var startedAt := Max(s.clock, AllowedFrom(s.limiter, host));
      && t.limiter == Answered(Locked(s.limiter, host), host, reply, startedAt + took, read)
      && t.clock == startedAt + took + read && t.tasks == s.tasks
      && |t.log| > |s.log| && t.log[|s.log|] == Start(host, startedAt)
  {
    var asked := Apply(Apply(s, Ask(task, host)), TakeLock(task));
    var wait := Max(AllowedFrom(s.limiter, host) - s.clock, 0.0);
    var started := Apply(Apply(asked, Advance(wait)), Wake(task));
    hide Apply, Answered, Locked, AllowedFrom;
    StartsAlone(s, task, host);
    AnswersAlone(started, task, host, took, reply, read);
    assert s.tasks[task := Fetching(host)] - {task} == s.tasks;
  }

  lemma StartsAlone(s: World, task: nat, host: string)
    requires task !in s.tasks && !Held(s.limiter, host)
    ensures var asked := Apply(Apply(s, Ask(task, host)), TakeLock(task));
      var wait := Max(AllowedFrom(s.limiter, host) - s.clock, 0.0);
      var started := Apply(Apply(asked, Advance(wait)), Wake(task));
      && started.tasks == s.tasks[task := Fetching(host)] && started.limiter == Locked(s.limiter, host)
      && started.clock == Max(s.clock, AllowedFrom(s.limiter, host))
      && started.log == s.log + [Start(host, started.clock)]
  {
    hide AllowedFrom, Locked, Held;
    var waiting := Apply(s, Ask(task, host));
    var asked := Apply(waiting, TakeLock(task));
    assert waiting.tasks == s.tasks[task := Waiting(host)] && waiting.limiter == s.limiter && waiting.clock == s.clock;
    assert asked.tasks[task := Fetching(host)] == s.tasks[task := Fetching(host)];
  }

  lemma AnswersAlone(s: World, task: nat, host: string, took: real, reply: Reply, read: real)
    requires task in s.tasks && s.tasks[task] == Fetching(host) && took >= 0.0 && read >= 0.0
    ensures var t := Apply(Apply(s, Advance(took)), Answer(task, reply, read));
      && t.limiter == Answered(s.limiter, host, reply, s.clock + took, read) && t.clock == s.clock + took + read
      && t.tasks == s.tasks - {task} && |t.log| > |s.log| && s.log <= t.log
  {
    hide PauseAsked, Answered;
  }

  /** Setting the delay after a back-off undoes it for every request but the next. */
  lemma SetDelayUndoesBackOff(l: Limiter, host: string, asked: real, now: real, seconds: real)
    requires seconds < asked
    ensures var backed := BackedOff(l, host, asked, now);
      && DelayOf(backed, host) >= asked
      && DelayOf(WithDelay(backed, host, seconds), host) == seconds < DelayOf(backed, host)
      && AllowedFrom(WithDelay(backed, host, seconds), host) == now + asked
  {
  }
}
