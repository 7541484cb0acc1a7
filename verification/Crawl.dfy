/**
  Running a crawl with one worker (api/crawler/runner.py) against an arbitrary
  site. What the network, the HTML extractor, the renderer and robots.txt answer
  is a parameter, and may differ from one request to the next. Any of them may
  raise, and so may normalising a link: nothing in `run` catches that, so the
  crawl ends there, without a status.
*/
module Crawl {
  import opened Prelude
  import F = Frontier

  const DEFAULT_RENDER_BUDGET := 50
  const MAX_SITEMAP_FILES := 50
  const MAX_URLS := 50_000
  const BATCH := 5
  const CONVENTIONAL_PATHS := ["/sitemap.xml", "/sitemap_index.xml", "/sitemap-index.xml"]

  /**
    One fetch: an error, a page without facts, the links of an HTML page before
    and after rendering, or an exception on the way to marking the page done.
  */
  datatype Response =
    | Failure(kind: string)
    | NoFacts
    | Html(links: seq<string>, wantsRender: bool, rendered: Option<seq<string>>)
    | Throws

  datatype Sitemap = Unreadable | Index(locations: seq<string>) | UrlSet(locations: seq<string>) | BadFile

  /** What normalisation, scope and the trap check make of a link: an exception, nothing, or a URL to crawl. */
  datatype Admission = Raising | Refused | Taken(url: string)

  /**
    Everything the crawl cannot control. `fetch` and `sitemap` also take the
    number of requests made so far; `clock` gives the time of a statement.
    `badRobots` and `chokes` say where parsing robots.txt, or asking it about a
    URL, raises.
  */
  datatype Site = Site(
    fetch: (string, nat) -> Response,
    sitemap: (string, nat) -> Sitemap,
    admit: string -> Admission,
    allows: string -> bool,
    chokes: string -> bool,
    badRobots: bool,
    blocksEverything: bool,
    sitemaps: seq<string>,
    clock: nat -> int)

  datatype Summary = Summary(
    discovered: nat, fetched: nat, rendered: nat, skipped: nat, errors: nat,
    hitPageCap: bool, robotsBlocked: bool, stoppedReason: Option<string>)

  /** Which answer a done page gave: the request, the depth of its links, and how many renders were left then. */
  datatype Answer = Answer(request: nat, depth: nat, budget: nat)

  /** What the crawl has seen: the links each done page offered, its answer, and one entry per failed fetch. */
  datatype Record = Record(pages: map<string, seq<(string, nat)>>, answers: map<string, Answer>, failures: multiset<string>)

  ghost predicate AnyRaises(site: Site, links: seq<string>) {
    exists k :: 0 <= k < |links| && site.admit(links[k]).Raising?
  }

  ghost function Admitted(site: Site, links: seq<string>, depth: nat): seq<(string, nat)> {
    if links == [] then [] else
      var last := site.admit(links[|links| - 1]);
      Admitted(site, links[..|links| - 1], depth) + if last.Taken? then [(last.url, depth)] else []
  }

  /** What a list of links puts into the frontier: nothing at all if one of them raises. */
  ghost function Offers(site: Site, links: seq<string>, depth: nat): seq<(string, nat)> {
    if AnyRaises(site, links) then [] else Admitted(site, links, depth)
  }

  /** A URL is offered exactly when some link admits it, and always at this depth. */
  lemma {:induction false} AdmittedMembers(site: Site, links: seq<string>, depth: nat, item: (string, nat))
    ensures item in Admitted(site, links, depth) <==>
      item.1 == depth && exists k :: 0 <= k < |links| && site.admit(links[k]) == Taken(item.0)
  {
    if links != [] {
      var init := links[..|links| - 1];
      AdmittedMembers(site, init, depth, item);
      assert forall k :: 0 <= k < |init| ==> init[k] == links[k];
    }
  }

  /** The admitted links stand in the order of the links, one for each that is taken. */
  lemma {:induction false} AdmittedInOrder(site: Site, a: seq<string>, link: string, b: seq<string>, depth: nat)
    ensures Admitted(site, a + b, depth) == Admitted(site, a, depth) + Admitted(site, b, depth)
    ensures Admitted(site, [link], depth) == if site.admit(link).Taken? then [(site.admit(link).url, depth)] else []
  {
    assert [link][..0] == [];
    if b == [] {
      assert a + b == a;
    } else {
      var init := b[..|b| - 1];
      AdmittedInOrder(site, a, link, init, depth);
      assert (a + b)[..|a + b| - 1] == a + init;
    }
  }

  // ---- what the loop keeps ------------------------------------------------

  ghost predicate Linked(r: Record, url: string, target: string) {
    url in r.pages && exists k :: 0 <= k < |r.pages[url]| && r.pages[url][k].0 == target
  }

  /** `c` holds the seeds and everything the done pages in it link to. */
  ghost predicate ClosedUnderLinks(r: Record, seeds: set<string>, c: set<string>) {
    seeds <= c && forall url, target :: url in c && Linked(r, url, target) ==> target in c
  }

  ghost predicate RowOk(row: F.Row, allowed: bool, failures: nat, done: bool) {
    && (done <==> row.state == F.Done)
    && match row.state
       case Pending => row.attempts == failures < F.MAX_ATTEMPTS && (failures > 0 ==> allowed)
       case Leased => row.attempts == failures + 1 <= F.MAX_ATTEMPTS && (failures > 0 ==> allowed)
       case Done => row.attempts == failures + 1 <= F.MAX_ATTEMPTS && allowed
       case Failed => row.attempts == failures == F.MAX_ATTEMPTS && allowed
       case Skipped => !allowed && failures == 0
  }

  ghost predicate RowsOk(site: Site, rows: F.Rows, r: Record) {
    && (forall url :: url in rows ==> RowOk(rows[url], site.allows(url), r.failures[url], url in r.pages))
    && (forall url :: url in r.pages ==> url in rows)
    && (forall url :: url in r.failures ==> url in rows)
  }

  ghost predicate LinksOk(rows: F.Rows, r: Record, seeds: set<string>) {
    && ClosedUnderLinks(r, seeds, rows.Keys)
    && (forall c :: ClosedUnderLinks(r, seeds, c) ==> rows.Keys <= c)
  }

  /** Counters against the table. */
  ghost predicate CountsOk(s: Summary, rows: F.Rows, r: Record, maxPages: int) {
    && s.errors == |r.failures|
    && s.fetched == |F.InState(rows, F.Done)|
    && s.skipped == |F.InState(rows, F.Skipped)|
    && s.fetched <= (if maxPages > 0 then maxPages else 0)
    && s.rendered <= DEFAULT_RENDER_BUDGET && s.rendered <= s.fetched
    && (s.hitPageCap ==> s.fetched >= maxPages)
  }

  ghost predicate Renders(response: Response, budget: nat) {
    response.Html? && response.wantsRender && budget > 0 && response.rendered.Some?
  }

  /** The links of a fetched page that are queued when `budget` renders are left. */
  ghost function Chosen(response: Response, budget: nat): seq<string> {
    if !response.Html? then [] else if Renders(response, budget) then response.rendered.value else response.links
  }

  ghost function Offered(site: Site, response: Response, depth: nat, budget: nat): seq<(string, nat)> {
    Offers(site, Chosen(response, budget), depth)
  }

  /** `offered` is what this answer to a request for `url` had to offer. */
  ghost predicate Answered(site: Site, url: string, a: Answer, offered: seq<(string, nat)>) {
    && (site.fetch(url, a.request).NoFacts? || site.fetch(url, a.request).Html?)
    && offered == Offered(site, site.fetch(url, a.request), a.depth, a.budget)
  }

  /** The record is made of the site's own answers. */
  ghost predicate Faithful(site: Site, r: Record) {
    && r.answers.Keys == r.pages.Keys
    && (forall url :: url in r.pages ==> Answered(site, url, r.answers[url], r.pages[url]))
    && (forall url :: url in r.failures ==> exists n: nat :: site.fetch(url, n).Failure?)
  }

  /** What holds of a crawl's table, record and counters at every statement. */
  ghost predicate Consistent(site: Site, rows: F.Rows, r: Record, seeds: set<string>, s: Summary, budget: nat, maxPages: int) {
    && RowsOk(site, rows, r) && LinksOk(rows, r, seeds) && CountsOk(s, rows, r, maxPages) && Faithful(site, r)
    && RendersOk(site, s.rendered, r.answers, budget) && DepthsOk(rows, r.answers)
  }

  /** The links of a page: those its browser found, if it was worth a render and there was one to spend; none if it is not HTML. */
  ghost predicate LinksOf(response: Response, budget: nat, links: seq<string>) {
    match response
    case Html(plain, wants, browser) => links == if wants && budget > 0 && browser.Some? then browser.value else plain
    case _ => links == []
  }

  /** One of the links this done page had to offer raises. */
  ghost predicate PageRaises(site: Site, url: string, a: Answer) {
    exists links :: LinksOf(site.fetch(url, a.request), a.budget, links) && AnyRaises(site, links)
  }

  lemma PageRaisesMeans(site: Site, url: string, a: Answer)
    ensures PageRaises(site, url, a) <==> AnyRaises(site, Chosen(site.fetch(url, a.request), a.budget))
  {
    var links := Chosen(site.fetch(url, a.request), a.budget);
    assert LinksOf(site.fetch(url, a.request), a.budget, links);
    hide AnyRaises;
  }

  /** The done pages whose links were never queued. */
  ghost function Broken(site: Site, answers: map<string, Answer>): set<string> {
    set url | url in answers && PageRaises(site, url, answers[url])
  }

  ghost predicate WasRendered(site: Site, url: string, a: Answer) {
    Renders(site.fetch(url, a.request), a.budget)
  }

  ghost function RenderedPages(site: Site, answers: map<string, Answer>): set<string> {
    set url | url in answers && WasRendered(site, url, answers[url])
  }

  /** The render budget against the answers: what was spent, and that it never grew. */
  ghost predicate RendersOk(site: Site, rendered: nat, answers: map<string, Answer>, budget: nat) {
    && budget + rendered == DEFAULT_RENDER_BUDGET && rendered == |RenderedPages(site, answers)|
    && (forall url :: url in answers ==> answers[url].budget >= budget)
  }

  /** The links of a done page are one level below it. */
  ghost predicate DepthsOk(rows: F.Rows, answers: map<string, Answer>) {
    forall url :: url in answers ==> url in rows && answers[url].depth == rows[url].depth + 1
  }

  // ---- the measure --------------------------------------------------------

  /** Fetches a live row can still cost. */
  ghost function Tries(row: F.Row): int {
    match row.state
    case Pending => F.MAX_ATTEMPTS - row.attempts
    case Leased => F.MAX_ATTEMPTS + 1 - row.attempts
    case _ => 0
  }

  ghost function AtLeast(rows: F.Rows, n: nat): set<string> {
    set url | url in rows && Tries(rows[url]) >= n
  }

  /** The sum of `Tries` over the table, counted level by level. */
  ghost function Work(rows: F.Rows): nat {
    |AtLeast(rows, 1)| + |AtLeast(rows, 2)| + |AtLeast(rows, 3)|
  }

  lemma SmallerSet<T>(a: set<T>, b: set<T>)
    requires a <= b
    ensures |a| <= |b|
    ensures a != b ==> |a| < |b|
  {
    assert b == a + (b - a);
  }

  lemma WorkShrinks(rows: F.Rows, rows': F.Rows)
    requires rows'.Keys == rows.Keys && forall url :: url in rows ==> Tries(rows'[url]) <= Tries(rows[url])
    ensures Work(rows') <= Work(rows)
    ensures forall url :: url in rows && 0 <= Tries(rows'[url]) < Tries(rows[url]) <= 3 ==> Work(rows') < Work(rows)
  {
    forall n: nat
      ensures AtLeast(rows', n) <= AtLeast(rows, n)
    {
    }
    SmallerSet(AtLeast(rows', 1), AtLeast(rows, 1));
    SmallerSet(AtLeast(rows', 2), AtLeast(rows, 2));
    SmallerSet(AtLeast(rows', 3), AtLeast(rows, 3));
    forall url | url in rows && 0 <= Tries(rows'[url]) < Tries(rows[url]) <= 3
      ensures Work(rows') < Work(rows)
    {
      var n := Tries(rows[url]);
      assert url in AtLeast(rows, n) && url !in AtLeast(rows', n);
    }
  }

  // ---- one item of a batch ------------------------------------------------

  /** How a visit may change the table: the visited row stops being leased, other rows stay, new rows are pending. */
  ghost predicate Visited(rows: F.Rows, rows': F.Rows, url: string) {
    && url in rows' && rows'[url].state != F.Leased
    && (forall v :: v in rows && v != url ==> v in rows' && rows'[v] == rows[v])
    && (forall v :: v in rows' && v !in rows ==> rows'[v].state == F.Pending)
  }

  lemma StateMoves(rows: F.Rows, rows': F.Rows, url: string, state: F.State)
    requires Visited(rows, rows', url) && url in rows && rows[url].state == F.Leased
    requires state in {F.Done, F.Skipped}
    ensures F.InState(rows', state) == F.InState(rows, state) + if rows'[url].state == state then {url} else {}
    ensures url !in F.InState(rows, state)
  {
  }

  lemma SkipKeeps(site: Site, rows: F.Rows, r: Record, seeds: set<string>, s: Summary, maxPages: int, url: string, reason: string)
    requires RowsOk(site, rows, r) && LinksOk(rows, r, seeds) && CountsOk(s, rows, r, maxPages)
    requires url in rows && rows[url].state == F.Leased && !site.allows(url)
    ensures var rows' := F.SkipRow(rows, url, reason);
      && RowsOk(site, rows', r) && LinksOk(rows', r, seeds)
      && CountsOk(s.(skipped := s.skipped + 1), rows', r, maxPages)
      && Visited(rows, rows', url) && rows'.Keys == rows.Keys && Work(rows') < Work(rows)
  {
    var rows' := F.SkipRow(rows, url, reason);
    LeasedIsNew(site, rows, r, url);
    SkippedRowsOk(site, rows, r, url, reason);
    assert rows'.Keys == rows.Keys && Visited(rows, rows', url);
    assert rows'[url].state == F.Skipped && Tries(rows'[url]) < Tries(rows[url]);
    hide ClosedUnderLinks, LinksOk, F.InState, F.SkipRow, RowsOk;
    LinksByKeys(rows, rows', r, seeds);
    CountsMove(rows, rows', url);
    OneTryLess(rows, rows', url);
    hide Visited, Work, Tries;
  }

  lemma SkippedRowsOk(site: Site, rows: F.Rows, r: Record, url: string, reason: string)
    requires RowsOk(site, rows, r) && url in rows && rows[url].state == F.Leased && !site.allows(url)
    ensures RowsOk(site, F.SkipRow(rows, url, reason), r)
  {
    LeasedIsNew(site, rows, r, url);
  }

  /** A visit moves one URL into the state it ends in, and out of none that is counted. */
  lemma CountsMove(rows: F.Rows, rows': F.Rows, url: string)
    requires Visited(rows, rows', url) && url in rows && rows[url].state == F.Leased
    ensures |F.InState(rows', F.Done)| == |F.InState(rows, F.Done)| + if rows'[url].state == F.Done then 1 else 0
    ensures |F.InState(rows', F.Skipped)| == |F.InState(rows, F.Skipped)| + if rows'[url].state == F.Skipped then 1 else 0
  {
    hide F.InState, Visited;
    StateMoves(rows, rows', url, F.Done);
    StateMoves(rows, rows', url, F.Skipped);
    assert F.InState(rows, F.Done) + {} == F.InState(rows, F.Done);
    assert F.InState(rows, F.Skipped) + {} == F.InState(rows, F.Skipped);
  }

  lemma OneTryLess(rows: F.Rows, rows': F.Rows, url: string)
    requires Visited(rows, rows', url) && rows'.Keys == rows.Keys
    requires 0 <= Tries(rows'[url]) < Tries(rows[url]) <= 3
    ensures Work(rows') < Work(rows)
  {
    hide Tries, Work;
    WorkShrinks(rows, rows');
  }

  lemma LinksByKeys(rows: F.Rows, rows': F.Rows, r: Record, seeds: set<string>)
    requires LinksOk(rows, r, seeds) && rows'.Keys == rows.Keys
    ensures LinksOk(rows', r, seeds)
  {
  }

  lemma FailKeeps(site: Site, rows: F.Rows, r: Record, seeds: set<string>, s: Summary, maxPages: int, url: string, error: string)
    requires RowsOk(site, rows, r) && LinksOk(rows, r, seeds) && CountsOk(s, rows, r, maxPages)
    requires url in rows && rows[url].state == F.Leased && site.allows(url)
    ensures var rows' := F.FailRow(rows, url, error, true);
      var r' := r.(failures := r.failures + multiset{url});
      && RowsOk(site, rows', r') && LinksOk(rows', r', seeds)
      && CountsOk(s.(errors := s.errors + 1), rows', r', maxPages)
      && Visited(rows, rows', url) && rows'.Keys == rows.Keys && Work(rows') < Work(rows)
  {
    var rows' := F.FailRow(rows, url, error, true);
    var r' := r.(failures := r.failures + multiset{url});
    hide ClosedUnderLinks, F.InState, F.FailRow, RowsOk, Linked, Visited, Work, Tries;
    LeasedIsNew(site, rows, r, url);
    FailedRowsOk(site, rows, r, url, error);
    FailMoves(rows, url, error);
    SameLinks(rows.Keys, r, r', seeds);
    CountsMove(rows, rows', url);
    OneTryLess(rows, rows', url);
  }

  lemma FailMoves(rows: F.Rows, url: string, error: string)
    requires url in rows && rows[url].state == F.Leased && 0 < rows[url].attempts <= F.MAX_ATTEMPTS
    ensures var rows' := F.FailRow(rows, url, error, true);
      && rows'.Keys == rows.Keys && Visited(rows, rows', url) && rows'[url].state in {F.Pending, F.Failed}
      && 0 <= Tries(rows'[url]) < Tries(rows[url]) <= 3
  {
  }

  lemma FailedRowsOk(site: Site, rows: F.Rows, r: Record, url: string, error: string)
    requires RowsOk(site, rows, r) && url in rows && rows[url].state == F.Leased && site.allows(url)
    ensures RowsOk(site, F.FailRow(rows, url, error, true), r.(failures := r.failures + multiset{url}))
  {
    LeasedIsNew(site, rows, r, url);
  }

  lemma SameLinks(keys: set<string>, r: Record, r': Record, seeds: set<string>)
    requires r'.pages == r.pages
    ensures forall c :: ClosedUnderLinks(r', seeds, c) <==> ClosedUnderLinks(r, seeds, c)
  {
    assert forall url, target :: Linked(r', url, target) <==> Linked(r, url, target);
  }

  lemma DoneRowsOk(site: Site, rows: F.Rows, r: Record, url: string, links: seq<(string, nat)>)
    requires RowsOk(site, rows, r)
    requires url in rows && rows[url].state == F.Leased && site.allows(url)
    ensures var rows' := F.AddRows(F.CompleteRow(rows, url), links);
      && RowsOk(site, rows', r.(pages := r.pages[url := links]))
      && Visited(rows, rows', url) && rows'[url].state == F.Done
  {
    hide F.AddRows, RowsOk, F.CompleteRow, Visited;
    CompletedRowOk(site, rows, r, url, links);
    CompletedVisited(rows, url, links);
    NewRowsOk(site, F.CompleteRow(rows, url), r.(pages := r.pages[url := links]), links);
  }

  lemma CompletedVisited(rows: F.Rows, url: string, links: seq<(string, nat)>)
    requires url in rows
    ensures var rows' := F.AddRows(F.CompleteRow(rows, url), links);
      Visited(rows, rows', url) && rows'[url].state == F.Done
  {
    F.AddRowsOutcome(F.CompleteRow(rows, url), links);
    hide F.AddRows;
  }

  lemma CompletedRowOk(site: Site, rows: F.Rows, r: Record, url: string, links: seq<(string, nat)>)
    requires RowsOk(site, rows, r)
    requires url in rows && rows[url].state == F.Leased && site.allows(url)
    ensures RowsOk(site, F.CompleteRow(rows, url), r.(pages := r.pages[url := links]))
  {
    assert RowOk(rows[url], site.allows(url), r.failures[url], url in r.pages);
  }

  lemma NewRowsOk(site: Site, rows: F.Rows, r: Record, links: seq<(string, nat)>)
    requires RowsOk(site, rows, r)
    ensures RowsOk(site, F.AddRows(rows, links), r)
  {
    F.AddRowsOutcome(rows, links);
    hide F.AddRows;
  }

  lemma DoneLinksOk(rows: F.Rows, r: Record, seeds: set<string>, url: string, links: seq<(string, nat)>)
    requires LinksOk(rows, r, seeds) && url in rows && url !in r.pages && r.pages.Keys <= rows.Keys
    ensures LinksOk(F.AddRows(F.CompleteRow(rows, url), links), r.(pages := r.pages[url := links]), seeds)
  {
    var rows' := F.AddRows(F.CompleteRow(rows, url), links);
    var r' := r.(pages := r.pages[url := links]);
    F.AddRowsOutcome(F.CompleteRow(rows, url), links);
    hide F.AddRows;
    forall v, target | v in rows'.Keys && Linked(r', v, target)
      ensures target in rows'.Keys
    {
      if v != url {
        assert Linked(r, v, target);
        LinkedIsARow(rows, r, seeds, v, target);
      }
    }
    assert ClosedUnderLinks(r', seeds, rows'.Keys);
    forall c | ClosedUnderLinks(r', seeds, c)
      ensures rows'.Keys <= c
    {
      LeastStaysLeast(rows, rows', r, r', seeds, url, links, c);
    }
  }

  /** Only pages that are rows have links recorded for them, so their targets are rows. */
  lemma LinkedIsARow(rows: F.Rows, r: Record, seeds: set<string>, url: string, target: string)
    requires LinksOk(rows, r, seeds) && url in rows && Linked(r, url, target)
    ensures target in rows
  {
  }

  lemma LeastStaysLeast(rows: F.Rows, rows': F.Rows, r: Record, r': Record, seeds: set<string>,
      url: string, links: seq<(string, nat)>, c: set<string>)
    requires LinksOk(rows, r, seeds) && url in rows && url !in r.pages
    requires r' == r.(pages := r.pages[url := links]) && ClosedUnderLinks(r', seeds, c)
    requires forall v :: v in rows' && v !in rows ==> exists k :: 0 <= k < |links| && links[k].0 == v
    ensures rows'.Keys <= c
  {
    forall v, target | v in c && Linked(r, v, target)
      ensures target in c
    {
      assert v != url && r'.pages[v] == r.pages[v];
      assert Linked(r', v, target);
    }
    assert ClosedUnderLinks(r, seeds, c);
    forall v | v in rows'.Keys
      ensures v in c
    {
      if v !in rows {
        assert Linked(r', url, v);
      }
    }
  }

  lemma LeasedIsNew(site: Site, rows: F.Rows, r: Record, url: string)
    requires RowsOk(site, rows, r) && url in rows && rows[url].state == F.Leased
    ensures url !in r.pages && r.pages.Keys <= rows.Keys
    ensures 0 <= r.failures[url] < F.MAX_ATTEMPTS && rows[url].attempts == r.failures[url] + 1
    ensures r.failures[url] > 0 ==> site.allows(url)
  {
    assert RowOk(rows[url], site.allows(url), r.failures[url], url in r.pages);
  }

  lemma DoneKeeps(site: Site, rows: F.Rows, r: Record, seeds: set<string>, s: Summary, maxPages: int,
      url: string, links: seq<(string, nat)>, a: Answer, rendered: nat, discovered: nat)
    requires RowsOk(site, rows, r) && LinksOk(rows, r, seeds) && CountsOk(s, rows, r, maxPages) && DepthsOk(rows, r.answers)
    requires url in rows && rows[url].state == F.Leased && site.allows(url) && a.depth == rows[url].depth + 1
    requires s.fetched < maxPages && rendered <= 1 && s.rendered + rendered <= DEFAULT_RENDER_BUDGET
    ensures var rows' := F.AddRows(F.CompleteRow(rows, url), links);
      var r' := r.(pages := r.pages[url := links], answers := r.answers[url := a]);
      && RowsOk(site, rows', r') && LinksOk(rows', r', seeds) && Visited(rows, rows', url) && DepthsOk(rows', r'.answers)
      && CountsOk(s.(fetched := s.fetched + 1, rendered := s.rendered + rendered, discovered := discovered), rows', r', maxPages)
  {
    var rows' := F.AddRows(F.CompleteRow(rows, url), links);
    var r' := r.(pages := r.pages[url := links], answers := r.answers[url := a]);
    hide F.AddRows, F.CompleteRow, LinksOk, RowsOk, DepthsOk, Visited, F.InState;
    DoneRowsOk(site, rows, r, url, links);
    LeasedIsNew(site, rows, r, url);
    DoneLinksOk(rows, r, seeds, url, links);
    DoneDepthsOk(rows, r, url, links, r');
    AnswersAside(site, rows', r.(pages := r.pages[url := links]), r', seeds);
    CountsMove(rows, rows', url);
  }

  /** A page that was fetched and is kept, with all the counters that go with it. */
  lemma PageKept(site: Site, rows: F.Rows, r: Record, seeds: set<string>, s: Summary, budget: nat, maxPages: int,
      url: string, response: Response, a: Answer, offered: seq<(string, nat)>)
    requires Consistent(site, rows, r, seeds, s, budget, maxPages)
    requires url in rows && rows[url].state == F.Leased && site.allows(url) && a.depth == rows[url].depth + 1
    requires s.fetched < maxPages && a.budget == budget && response == site.fetch(url, a.request)
    requires (response.NoFacts? || response.Html?) && offered == Offered(site, response, a.depth, budget)
    ensures var rows' := F.AddRows(F.CompleteRow(rows, url), offered);
      var r' := r.(pages := r.pages[url := offered], answers := r.answers[url := a]);
      var spent := if Renders(response, budget) then 1 else 0;
      && spent <= budget && Visited(rows, rows', url) && url !in Broken(site, r.answers)
      && Consistent(site, rows', r', seeds,
           s.(fetched := s.fetched + 1, rendered := s.rendered + spent, discovered := s.discovered + |offered|), budget - spent, maxPages)
      && Broken(site, r'.answers) == Broken(site, r.answers) + (if PageRaises(site, url, a) then {url} else {})
      && PageRaises(site, url, a) == AnyRaises(site, Chosen(response, budget))
  {
    var spent := if Renders(response, budget) then 1 else 0;
    hide RowsOk, LinksOk, CountsOk, DepthsOk, Visited, F.AddRows, F.CompleteRow, Offered, Broken, RenderedPages, PageRaises,
      Faithful, Renders, Chosen, AnyRaises;
    LeasedIsNew(site, rows, r, url);
    NewAnswer(site, r, url, a, offered);
    RendersGrow(site, s.rendered, r.answers, budget, url, a);
    BrokenGrows(site, r.answers, url, a);
    PageRaisesAs(site, url, a, response);
    DoneKeeps(site, rows, r, seeds, s, maxPages, url, offered, a, spent, s.discovered + |offered|);
  }

  lemma PageRaisesAs(site: Site, url: string, a: Answer, response: Response)
    requires response == site.fetch(url, a.request)
    ensures PageRaises(site, url, a) == AnyRaises(site, Chosen(response, a.budget))
  {
    PageRaisesMeans(site, url, a);
  }

  lemma DoneDepthsOk(rows: F.Rows, r: Record, url: string, links: seq<(string, nat)>, r': Record)
    requires DepthsOk(rows, r.answers) && url in rows && url in r'.answers && r'.answers[url].depth == rows[url].depth + 1
    requires forall v :: v in r'.answers && v != url ==> v in r.answers && r'.answers[v] == r.answers[v]
    ensures DepthsOk(F.AddRows(F.CompleteRow(rows, url), links), r'.answers)
  {
    F.AddRowsOutcome(F.CompleteRow(rows, url), links);
    hide F.AddRows;
  }

  /** Rows and links say nothing about which answer a page gave. */
  lemma AnswersAside(site: Site, rows: F.Rows, r: Record, r': Record, seeds: set<string>)
    requires r'.pages == r.pages && r'.failures == r.failures
    ensures RowsOk(site, rows, r) ==> RowsOk(site, rows, r')
    ensures LinksOk(rows, r, seeds) ==> LinksOk(rows, r', seeds)
  {
    SameLinks(rows.Keys, r, r', seeds);
    hide ClosedUnderLinks;
  }

  // ---- the object ---------------------------------------------------------

  /** Nothing was said about how the crawl ends. */
  ghost predicate SameVerdict(s: Summary, t: Summary) {
    s.hitPageCap == t.hitPageCap && s.robotsBlocked == t.robotsBlocked && s.stoppedReason == t.stoppedReason
  }

  /** Rows are left leased only where the cap cut a batch short, and then the summary says so. */
  ghost predicate Accounted(s: Summary, rows: F.Rows) {
    NoneLeased(rows) || (s.hitPageCap && s.stoppedReason == Some("page_cap_reached"))
  }

  class CrawlRunner {
    const site: Site
    const maxPages: int
    const worker: string
    const origin: string
    const frontier: F.Frontier
    var summary: Summary
    var renderBudget: nat
    /** Requests and statements so far; they index what the site and the clock answer. */
    var requests: nat
    var statements: nat
    ghost var record: Record
    ghost var seeds: set<string>
    /** The sitemap files that were read, the first of them with this request. */
    ghost var files: seq<string>
    ghost var firstFile: nat
    /** The visit that ended in an exception before its page was done. */
    ghost var stuck: Option<(string, nat)>

    ghost predicate Valid()
      reads this, frontier
    {
      Consistent(site, frontier.rows, record, seeds, summary, renderBudget, maxPages)
    }

    /** Nothing has happened yet. */
    ghost predicate Initial()
      reads this, frontier
    {
      && Valid() && frontier.rows == map[] && seeds == {} && files == [] && stuck == None
      && record == Record(map[], map[], multiset{}) && renderBudget == DEFAULT_RENDER_BUDGET
      && summary == Summary(0, 0, 0, 0, 0, false, false, None)
    }

    /** Something the crawl was handed raised: robots.txt, a sitemap file, a page, or a link. */
    ghost predicate Raised()
      reads this`files, this`firstFile, this`stuck, this`record
    {
      || site.badRobots || stuck.Some?
      || (exists k: nat :: k < |files| && FileRaises(site, files[k], firstFile + k))
      || (exists url :: url in record.answers && PageRaises(site, url, record.answers[url]))
    }

    lemma RaisedMeans()
      ensures Raised() <==> site.badRobots || stuck.Some? || !NoFileRaises(site, files, firstFile) || Broken(site, record.answers) != {}
    {
      BrokenMeans(site, record.answers);
      hide Broken, PageRaises, FileRaises;
    }

    constructor (site: Site, maxPages: int, origin: string, worker: string)
      ensures this.site == site && this.maxPages == maxPages && this.origin == origin && this.worker == worker
      ensures Initial() && fresh(frontier)
    {
      this.site, this.maxPages, this.origin, this.worker := site, maxPages, origin, worker;
      frontier := new F.Frontier();
      summary := Summary(0, 0, 0, 0, 0, false, false, None);
      renderBudget, requests, statements := DEFAULT_RENDER_BUDGET, 0, 0;
      record := Record(map[], map[], multiset{});
      seeds, files, firstFile, stuck := {}, [], 0, None;
      new;
      assert F.InState(map[], F.Done) == {} && F.InState(map[], F.Skipped) == {};
      assert RenderedPages(site, record.answers) == {};
    }

    /** The links of a fetched page, rendered if it needs it and the budget allows. */
    method MaybeRender(response: Response) returns (links: Option<seq<string>>, rendered: bool)
      ensures links.Some? <==> response.Html?
      ensures rendered <==> response.Html? && response.wantsRender && renderBudget > 0 && response.rendered.Some?
      ensures response.Html? ==> links.value == if rendered then response.rendered.value else response.links
    {
      match response {
        case Html(plain, wants, browser) =>
          if !(wants && renderBudget > 0) || browser.None? {
            return Some(plain), false;
          }
          return browser, true;
        case _ =>
          return None, false;
      }
    }

    /** The body of the batch loop for one leased URL; `raised` says that an exception left it. */
    method Visit(url: string) returns (raised: bool)
      requires Valid() && summary.fetched < maxPages
      requires url in frontier.rows && frontier.rows[url].state == F.Leased && stuck == None
      modifies this`summary, this`renderBudget, this`requests, this`record, this`stuck, frontier
      ensures Valid() && summary.fetched >= old(summary.fetched) && SameVerdict(summary, old(summary))
      ensures summary.fetched == old(summary.fetched) && !raised ==>
        frontier.rows.Keys == old(frontier.rows.Keys) && Work(frontier.rows) < old(Work(frontier.rows))
      ensures if stuck.Some? then
          raised && frontier.rows == old(frontier.rows) && Stuck(site, frontier.rows, stuck)
        else Visited(old(frontier.rows), frontier.rows, url)
      ensures raised <==> stuck.Some? || Broken(site, record.answers) != old(Broken(site, record.answers))
      ensures Broken(site, record.answers) <= old(Broken(site, record.answers)) + {url}
      ensures site.chokes(url) ==> stuck == Some((url, old(requests))) && record == old(record) && summary == old(summary)
      ensures !site.chokes(url) && !site.allows(url) ==>
        && !raised && frontier.rows == F.SkipRow(old(frontier.rows), url, "robots_disallow") && record == old(record)
        && summary == old(summary).(skipped := old(summary.skipped) + 1)
      ensures !site.chokes(url) && site.allows(url) ==>
        var response := site.fetch(url, old(requests));
        if response.Throws? then
          stuck == Some((url, old(requests))) && record == old(record) && summary == old(summary)
        else if response.Failure? then
          && !raised && frontier.rows == F.FailRow(old(frontier.rows), url, response.kind, true)
          && record == old(record).(failures := old(record.failures) + multiset{url})
          && summary == old(summary).(errors := old(summary.errors) + 1)
        else
          && url in record.pages
          && record.answers[url] == Answer(old(requests), old(frontier.rows[url].depth) + 1, old(renderBudget))
          && frontier.rows == F.AddRows(F.CompleteRow(old(frontier.rows), url), record.pages[url])
          && summary.fetched == old(summary.fetched) + 1
          && (raised <==> PageRaises(site, url, record.answers[url]))
    {
      hide RowsOk, LinksOk, CountsOk, RendersOk, DepthsOk, Visited, F.AddRows, F.CompleteRow, F.FailRow, F.SkipRow, Work,
        Answered, Offered, PageRaises, Broken;
      assert Stuck(site, frontier.rows, Some((url, requests))) <==> site.chokes(url) || site.fetch(url, requests).Throws?;
      if site.chokes(url) {
        stuck := Some((url, requests));
        return true;
      }
      raised := false;
      if !site.allows(url) {
        SkipKeeps(site, frontier.rows, record, seeds, summary, maxPages, url, "robots_disallow");
        SkippedDepths(frontier.rows, record.answers, url, "robots_disallow");
        frontier.Skip(url, "robots_disallow");
        summary := summary.(skipped := summary.skipped + 1);
        return;
      }
      var response := site.fetch(url, requests);
      requests := requests + 1;
      if response.Throws? {
        stuck := Some((url, requests - 1));
        return true;
      }
      if response.Failure? {
        FailKeeps(site, frontier.rows, record, seeds, summary, maxPages, url, response.kind);
        FailedDepths(frontier.rows, record.answers, url, response.kind);
        summary := summary.(errors := summary.errors + 1);
        frontier.Fail(url, response.kind, true);
        record := record.(failures := record.failures + multiset{url});
        return;
      }
      raised := Keep(url, response, requests - 1);
    }

    /** `_queue_links`: the batch of URLs a page offers, in page order; an exception leaves none. */
    method QueueLinks(links: seq<string>, depth: nat) returns (batch: seq<(string, nat)>, raised: bool)
      ensures batch == Offers(site, links, depth)
      ensures raised <==> exists k :: 0 <= k < |links| && site.admit(links[k]).Raising?
    {
      batch := [];
      for i := 0 to |links|
        invariant !AnyRaises(site, links[..i]) && batch == Admitted(site, links[..i], depth)
      {
        assert links[..i + 1][..i] == links[..i];
        var candidate := site.admit(links[i]);
        match candidate {
          case Raising => return [], true;
          case Refused =>
          case Taken(url) => batch := batch + [(url, depth)];
        }
      }
      assert links[..|links|] == links;
      raised := false;
    }

    /** What a fetched page offers to the frontier, and whether a render was spent on it. */
    method Offer(response: Response, depth: nat) returns (offered: seq<(string, nat)>, rendered: bool, raised: bool)
      requires !response.Failure?
      ensures (rendered <==> Renders(response, renderBudget)) && (rendered ==> renderBudget > 0)
      ensures offered == Offered(site, response, depth, renderBudget)
      ensures (raised <==> AnyRaises(site, Chosen(response, renderBudget))) && (raised ==> offered == [])
    {
      var links;
      links, rendered := MaybeRender(response);
      offered, raised := [], false;
      if links.Some? {
        offered, raised := QueueLinks(links.value, depth);
      }
    }

    /** A page that was fetched: rendered if need be, marked done, and its links queued one level deeper. */
    method Keep(url: string, response: Response, request: nat) returns (raised: bool)
      requires Valid() && summary.fetched < maxPages && site.allows(url)
      requires (response.NoFacts? || response.Html?) && response == site.fetch(url, request)
      requires url in frontier.rows && frontier.rows[url].state == F.Leased
      modifies this`summary, this`renderBudget, this`record, frontier
      ensures Valid() && Visited(old(frontier.rows), frontier.rows, url)
      ensures var a := Answer(request, old(frontier.rows[url].depth) + 1, old(renderBudget));
        var offered := Offered(site, response, a.depth, a.budget);
        && frontier.rows == F.AddRows(F.CompleteRow(old(frontier.rows), url), offered)
        && record == old(record).(pages := old(record.pages)[url := offered], answers := old(record.answers)[url := a])
        && (raised <==> PageRaises(site, url, a))
        && Broken(site, record.answers) == old(Broken(site, record.answers)) + (if raised then {url} else {})
        && (raised ==> url !in old(Broken(site, record.answers)))
        && summary == old(summary).(
          fetched := old(summary.fetched) + 1,
          rendered := old(summary.rendered) + (if Renders(response, old(renderBudget)) then 1 else 0),
          discovered := old(summary.discovered) + |offered|)
    {
      hide Consistent, Visited, F.AddRows, F.CompleteRow, Offers, Offered, Renders, Chosen, AnyRaises, Broken, PageRaises;
      var depth := frontier.rows[url].depth + 1;
      var offered, rendered;
      offered, rendered, raised := Offer(response, depth);
      ghost var a := Answer(request, depth, renderBudget);
      PageKept(site, frontier.rows, record, seeds, summary, renderBudget, maxPages, url, response, a, offered);
      AddNothing(F.CompleteRow(frontier.rows, url));
      if rendered {
        renderBudget := renderBudget - 1;
        summary := summary.(rendered := summary.rendered + 1);
      }
      summary := summary.(fetched := summary.fetched + 1);
      frontier.Complete(url);
      record := record.(pages := record.pages[url := offered], answers := record.answers[url := a]);
      if !raised {
        var count := frontier.Add(offered);
        summary := summary.(discovered := summary.discovered + count);
      }
    }

    // ---- seeding ----------------------------------------------------------

    /** One sitemap file: queues the pages it names, or answers with the files it names. */
    method ReadFile(url: string) returns (count: nat, more: seq<string>, raised: bool)
      modifies this`requests, frontier
      ensures frontier.rows == F.AddRows(old(frontier.rows), FileRows(site, url, old(requests)))
      ensures count == |FileRows(site, url, old(requests))| && requests == old(requests) + 1
      ensures more == var file := site.sitemap(url, old(requests)); if file.Index? then file.locations else []
      ensures raised <==> FileRaises(site, url, old(requests))
    {
      count, more, raised := 0, [], false;
      var file := site.sitemap(url, requests);
      requests := requests + 1;
      match file {
        case BadFile => raised := true;
        case Unreadable =>
        case Index(locations) => more := locations;
        case UrlSet(locations) =>
          var batch;
          batch, raised := QueueLinks(locations, 0);
          if !raised {
            count := frontier.Add(batch);
          }
      }
    }

    /**
      `_read_sitemaps`: `read` lists the files in the order they were requested;
      the one that raises is the last. `upTo` says how many of the known files that is.
    */
    method ReadSitemaps(candidates: seq<string>) returns (queued: nat, ghost read: seq<string>, ghost upTo: nat, raised: bool)
      modifies this`requests, frontier
      ensures frontier.rows == F.AddRows(old(frontier.rows), Harvest(site, read, old(requests)))
      ensures queued == |Harvest(site, read, old(requests))| && requests == old(requests) + |read|
      ensures NoDuplicates(read) && |read| <= 50
      ensures raised <==> !NoFileRaises(site, read, old(requests))
      ensures ReadUpTo(site, FirstFiles(candidates), read, old(requests), upTo)
      ensures !raised && |read| < 50 && queued < 50_000 ==> upTo == |Known(site, FirstFiles(candidates), read, old(requests))|
    {
      hide F.AddRows, Harvest, Known, ReadUpTo, FirstFiles, FileRows, NoDuplicates, FileRaises;
      queued, read, upTo, raised := 0, [], 0, false;
      var seen: set<string> := {};
      var queue := FirstFiles(candidates);
      ghost var start := requests;
      ghost var rows := frontier.rows;
      ghost var first := queue;
      NothingRead(site, first, start);
      AddNothing(rows);
      while queue != [] && |seen| < MAX_SITEMAP_FILES && queued < MAX_URLS
        invariant frontier.rows == F.AddRows(rows, Harvest(site, read, start))
        invariant queued == |Harvest(site, read, start)| && requests == start + |read|
        invariant NoDuplicates(read) && |read| == |seen| <= MAX_SITEMAP_FILES
        invariant forall url :: url in seen <==> url in read
        invariant NoFileRaises(site, read, start) && ReadUpTo(site, first, read, start, upTo)
        invariant Rest(Known(site, first, read, start), upTo, queue)
        decreases MAX_SITEMAP_FILES - |seen|, |queue|
      {
        var url := queue[0];
        NextOfRest(Known(site, first, read, start), upTo, queue);
        if url in seen {
          PassedOver(site, first, read, start, upTo);
          queue, upTo := queue[1..], upTo + 1;
          continue;
        }
        seen := seen + {url};
        HarvestStep(site, read, url, start);
        ReadNext(site, first, read, start, upTo);
        RestGrows(Known(site, first, read, start), upTo, queue,
          var file := site.sitemap(url, start + |read|); if file.Index? then file.locations else []);
        AddMore(rows, Harvest(site, read, start), FileRows(site, url, start + |read|));
        OneMore(read, url);
        var count, more;
        count, more, raised := ReadFile(url);
        read, upTo := read + [url], upTo + 1;
        queued := queued + count;
        if raised {
          assert FileRaises(site, read[|read| - 1], start + |read| - 1);
          return;
        }
        queue := queue[1..] + more;
      }
    }

    /** Robots first, then the sitemaps it names or the conventional ones, then always the homepage. */
    method Seed() returns (raised: bool)
      requires Initial()
      modifies this`summary, this`requests, this`seeds, this`files, this`firstFile, frontier
      ensures Valid() && NoneLeased(frontier.rows) && firstFile == old(requests) + 1 && SameVerdict(summary, old(summary))
      ensures summary.fetched == 0 && Broken(site, record.answers) == {}
      ensures raised <==> site.badRobots || !NoFileRaises(site, files, firstFile)
      ensures site.badRobots ==> frontier.rows == map[] && files == []
      ensures frontier.rows.Keys == seeds
      ensures Admissible(site, Home(origin), seeds)
      ensures raised ==> frontier.rows == F.AddRows(map[], Harvest(site, files, firstFile)) && summary == old(summary)
      ensures NoDuplicates(files) && |files| <= 50
      ensures !site.badRobots ==> ReadAsKnown(site, origin, files, firstFile, !raised && Unlimited(site, files, firstFile))
      ensures !raised ==>
        && frontier.rows == F.AddRows(map[], Harvest(site, files, firstFile) + [(Home(origin), 0)])
        && Seeding(site, origin, files, firstFile, seeds)
        && summary == old(summary).(discovered := |Harvest(site, files, firstFile)| + 1)
    {
      hide Consistent, NoneLeased, Broken, NoFileRaises, Admissible, Home, F.AddRows, Harvest, Candidates, FirstFiles, ReadUpTo,
        Known, StartsAt, Seeds, Seeding, NoDuplicates;
      requests := requests + 1;
      firstFile := requests;
      NothingRead(site, [], firstFile);
      AddNothing(map[]);
      PlantedOk(site, [], [], Home(origin), maxPages, 0);
      if site.badRobots {
        return true;
      }
      FirstFilesStart(site, origin);
      var seeded;
      ghost var upTo;
      seeded, files, upTo, raised := ReadSitemaps(Candidates(site, origin));
      ghost var found := Harvest(site, files, firstFile);
      assert ReadAsKnown(site, origin, files, firstFile, !raised && Unlimited(site, files, firstFile));
      HarvestAdmitted(site, files, firstFile);
      ghost var more := if raised then [] else [(Home(origin), 0)];
      PlantedOk(site, found, more, Home(origin), maxPages, seeded + 1);
      if !raised {
        AddMore(map[], found, more);
        SeedingIs(site, origin, files, firstFile);
        var count := frontier.Add([(Home(origin), 0)]);
        summary := summary.(discovered := summary.discovered + seeded + 1);
      }
      seeds := frontier.rows.Keys;
    }

    // ---- the loop ---------------------------------------------------------

    /**
      The sweep and the lease at the top of the loop. A single worker's leases
      never expire under it, so the sweep finds nothing, and no rows to lease
      means a drained frontier.
    */
    method NextBatch() returns (batch: seq<string>)
      requires Valid() && NoneLeased(frontier.rows)
      modifies this`statements, frontier
      ensures Valid() && frontier.rows.Keys == old(frontier.rows.Keys)
      ensures Work(frontier.rows) == old(Work(frontier.rows))
      ensures NoDuplicates(batch) && |batch| <= BATCH && LeasedAre(frontier.rows, batch)
      ensures batch == [] ==> Drained(frontier.rows)
    {
      hide RowsOk, LinksOk, CountsOk, Faithful, Work, F.LeaseRows, F.ReclaimRows, NoDuplicates, LeasedAre, Drained, RendersOk,
        DepthsOk;
      SweepFindsNothing(frontier.rows, site.clock(statements));
      var reclaimed := frontier.ReclaimExpired(site.clock(statements));
      ghost var before := frontier.rows;
      batch := frontier.Lease(worker, BATCH, {}, site.clock(statements + 1));
      LeaseRowsOk(site, before, record, batch, worker, site.clock(statements + 1));
      LeaseCounts(before, batch, worker, site.clock(statements + 1));
      LinksByKeys(before, frontier.rows, record, seeds);
      LeaseDepths(before, record.answers, batch, worker, site.clock(statements + 1));
      CountsCarry(summary, before, frontier.rows, record, maxPages);
      if batch == [] {
        assert F.InState(before, F.Pending) - {} == F.InState(before, F.Pending);
        NothingToLease(before, worker, site.clock(statements + 1));
      }
      statements := statements + 2;
    }

    /**
      The whole crawl: what the crawl's row says at the end. It says "running"
      when an exception left `run`, because then nothing writes to it again.
      `refusal` is what the second permission gate answered.
    */
    method Run(refusal: Option<string>) returns (status: string)
      requires Initial()
      modifies this, frontier
      ensures Valid()
      ensures refusal.Some? ==> status == "cancelled" && frontier.rows == map[] && requests == old(requests)
      ensures refusal.None? ==> status in {"completed", "running"} && (status == "running" <==> Raised())
      ensures stuck.Some? ==> Stuck(site, frontier.rows, stuck)
      ensures refusal.None? ==> Admissible(site, Home(origin), seeds)
      ensures status == "completed" ==>
        Seeding(site, origin, files, firstFile, seeds) && seeds <= frontier.rows.Keys &&
        ReadAsKnown(site, origin, files, firstFile, Unlimited(site, files, firstFile))
      ensures status == "completed" && site.blocksEverything ==> summary.robotsBlocked && summary.fetched == 0
      ensures status == "completed" && !site.blocksEverything ==> !summary.robotsBlocked && Accounted(summary, frontier.rows)
      ensures status == "completed" && !site.blocksEverything && summary.fetched < maxPages ==> Drained(frontier.rows)
      ensures status == "running" ==> LeftInBatch(frontier.rows) && exists url :: Broken(site, record.answers) <= {url}
    {
      hide Admissible, Consistent, Home, Work, Drained, NoneLeased, LeasedAre, NoDuplicates, FileRaises, Broken, LeftInBatch,
        Seeding, ReadAsKnown, Unlimited, Raised, NoFileRaises, Stuck;
      if refusal.Some? {
        VerdictAside(site, frontier.rows, record, seeds, summary, renderBudget, maxPages, summary.(stoppedReason := refusal));
        summary := summary.(stoppedReason := refusal);
        return "cancelled";
      }
      var raised := Seed();
      ghost var planted, read, start := seeds, files, firstFile;
      NoneLeft(frontier.rows);
      RaisedMeans();
      if raised {
        assert Broken(site, record.answers) <= {""};
        return "running";
      }
      SeedsAreRows(site, frontier.rows, record, seeds, summary, renderBudget, maxPages);
      status := "completed";
      if site.blocksEverything {
        VerdictAside(site, frontier.rows, record, seeds, summary, renderBudget, maxPages,
          summary.(robotsBlocked := true, stoppedReason := Some("robots_disallows_crawl")));
        summary := summary.(robotsBlocked := true, stoppedReason := Some("robots_disallows_crawl"));
        return;
      }
      while summary.fetched < maxPages
        invariant Valid() && !summary.robotsBlocked && Accounted(summary, frontier.rows)
        invariant seeds == planted && files == read && firstFile == start
        invariant summary.fetched < maxPages ==> NoneLeased(frontier.rows)
        invariant stuck == None && Broken(site, record.answers) == {} && !site.badRobots && NoFileRaises(site, files, firstFile)
        decreases maxPages - summary.fetched, Work(frontier.rows)
      {
        var batch := NextBatch();
        if batch == [] {
          var drained := frontier.IsDrained();
          DrainedAs(frontier.rows, drained);
          if drained {
            break;
          }
          assert false;
        }
        raised := VisitBatch(batch);
        if raised {
          RaisedMeans();
          return "running";
        }
      }
      RaisedMeans();
      SeedsAreRows(site, frontier.rows, record, seeds, summary, renderBudget, maxPages);
    }

    /** One pass over a leased batch, stopping at the page cap, or at an exception, and leaving the rest leased. */
    method VisitBatch(batch: seq<string>) returns (raised: bool)
      requires Valid() && summary.fetched < maxPages && NoDuplicates(batch) && LeasedAre(frontier.rows, batch)
      requires |batch| <= BATCH && stuck == None && Broken(site, record.answers) == {}
      modifies this`summary, this`renderBudget, this`requests, this`record, this`stuck, frontier
      ensures Valid() && summary.fetched >= old(summary.fetched) && summary.robotsBlocked == old(summary.robotsBlocked)
      ensures raised <==> stuck.Some? || Broken(site, record.answers) != {}
      ensures stuck.Some? ==> Stuck(site, frontier.rows, stuck)
      ensures raised ==> LeftInBatch(frontier.rows) && exists url :: Broken(site, record.answers) <= {url}
      ensures !raised ==> Accounted(summary, frontier.rows)
      ensures !raised && summary.fetched < maxPages ==> NoneLeased(frontier.rows)
      ensures !raised && summary.fetched == old(summary.fetched) && batch != [] ==> Work(frontier.rows) < old(Work(frontier.rows))
    {
      hide Consistent, Work, Broken, LeftInBatch, Stuck, PageRaises, F.AddRows, LeasedAre, NoDuplicates, Visited;
      assert batch[0..] == batch;
      raised := false;
      for i := 0 to |batch|
        invariant Valid() && LeasedAre(frontier.rows, batch[i..]) && stuck == None && Broken(site, record.answers) == {}
        invariant summary.fetched >= old(summary.fetched) && summary.robotsBlocked == old(summary.robotsBlocked)
        invariant summary.fetched == old(summary.fetched) ==>
          if i == 0 then Work(frontier.rows) == old(Work(frontier.rows)) else Work(frontier.rows) < old(Work(frontier.rows))
      {
        if summary.fetched >= maxPages {
          VerdictAside(site, frontier.rows, record, seeds, summary, renderBudget, maxPages,
            summary.(hitPageCap := true, stoppedReason := Some("page_cap_reached")));
          summary := summary.(hitPageCap := true, stoppedReason := Some("page_cap_reached"));
          return;
        }
        ghost var before := frontier.rows;
        NextInBatch(before, batch, i);
        raised := Visit(batch[i]);
        if stuck == None {
          BatchGoesOn(before, frontier.rows, batch, i);
        }
        if raised {
          LeftOf(frontier.rows, if stuck.Some? then batch[i..] else batch[i + 1..]);
          return;
        }
      }
      BatchDone(frontier.rows, batch);
    }
  }

  /** Nothing is pending or leased: what `Run` leaves when it stops below the cap. */
  ghost predicate Drained(rows: F.Rows) {
    F.InState(rows, F.Pending) == {} && F.InState(rows, F.Leased) == {}
  }

  lemma NextInBatch(rows: F.Rows, batch: seq<string>, i: nat)
    requires i < |batch| && LeasedAre(rows, batch[i..])
    ensures batch[i] in rows && rows[batch[i]].state == F.Leased
  {
    assert batch[i..][0] == batch[i];
  }

  lemma BatchGoesOn(rows: F.Rows, rows': F.Rows, batch: seq<string>, i: nat)
    requires i < |batch| && LeasedAre(rows, batch[i..]) && NoDuplicates(batch) && Visited(rows, rows', batch[i])
    ensures LeasedAre(rows', batch[i + 1..])
  {
    assert batch[i..] == [batch[i]] + batch[i + 1..];
  }

  lemma BatchDone(rows: F.Rows, batch: seq<string>)
    requires LeasedAre(rows, batch[|batch|..])
    ensures NoneLeased(rows)
  {
  }

  /** The visit of this URL raised: robots.txt choked on it, or its request or what followed did. */
  ghost predicate Stuck(site: Site, rows: F.Rows, stuck: Option<(string, nat)>) {
    && stuck.Some? && stuck.value.0 in rows && rows[stuck.value.0].state == F.Leased
    && (site.chokes(stuck.value.0) || site.fetch(stuck.value.0, stuck.value.1).Throws?)
  }

  /** At most one batch is left leased. */
  ghost predicate LeftInBatch(rows: F.Rows) {
    |F.InState(rows, F.Leased)| <= BATCH
  }

  lemma NoneLeft(rows: F.Rows)
    ensures NoneLeased(rows) ==> LeftInBatch(rows)
  {
    if NoneLeased(rows) {
      assert F.InState(rows, F.Leased) == {};
    }
  }

  lemma LeftOf(rows: F.Rows, batch: seq<string>)
    requires LeasedAre(rows, batch) && |batch| <= BATCH
    ensures LeftInBatch(rows)
  {
    assert F.InState(rows, F.Leased) == set url | url in batch;
    FewInBatch(batch);
  }

  lemma {:induction false} FewInBatch(batch: seq<string>)
    ensures |set url | url in batch| <= |batch|
  {
    if batch != [] {
      var init, last := batch[..|batch| - 1], batch[|batch| - 1];
      FewInBatch(init);
      assert batch == init + [last];
      assert (set url | url in batch) == (set url | url in init) + {last};
    }
  }

  ghost predicate NoneLeased(rows: F.Rows) {
    forall url :: url in rows ==> rows[url].state != F.Leased
  }

  lemma SweepFindsNothing(rows: F.Rows, now: int)
    requires NoneLeased(rows)
    ensures F.ReclaimRows(rows, now) == rows
  {
  }

  ghost predicate LeasedAre(rows: F.Rows, batch: seq<string>) {
    forall url :: url in rows && rows[url].state == F.Leased <==> url in batch
  }

  lemma LeaseRowsOk(site: Site, rows: F.Rows, r: Record, batch: seq<string>, worker: string, now: int)
    requires RowsOk(site, rows, r) && NoneLeased(rows)
    requires forall url :: url in batch ==> url in F.InState(rows, F.Pending)
    ensures RowsOk(site, F.LeaseRows(rows, batch, worker, now), r)
    ensures LeasedAre(F.LeaseRows(rows, batch, worker, now), batch)
  {
  }

  lemma LeaseCounts(rows: F.Rows, batch: seq<string>, worker: string, now: int)
    requires forall url :: url in batch ==> url in F.InState(rows, F.Pending)
    ensures var rows' := F.LeaseRows(rows, batch, worker, now);
      && rows'.Keys == rows.Keys && Work(rows') == Work(rows)
      && F.InState(rows', F.Done) == F.InState(rows, F.Done)
      && F.InState(rows', F.Skipped) == F.InState(rows, F.Skipped)
  {
    var rows' := F.LeaseRows(rows, batch, worker, now);
    assert forall url :: url in rows ==> Tries(rows'[url]) == Tries(rows[url]);
    assert rows'.Keys == rows.Keys;
    hide F.LeaseRows, Tries;
    WorkShrinks(rows, rows');
    WorkShrinks(rows', rows);
  }

  lemma CountsCarry(s: Summary, rows: F.Rows, rows': F.Rows, r: Record, maxPages: int)
    requires CountsOk(s, rows, r, maxPages)
    requires F.InState(rows', F.Done) == F.InState(rows, F.Done) && F.InState(rows', F.Skipped) == F.InState(rows, F.Skipped)
    ensures CountsOk(s, rows', r, maxPages)
  {
  }

  lemma LeaseDepths(rows: F.Rows, answers: map<string, Answer>, batch: seq<string>, worker: string, now: int)
    requires DepthsOk(rows, answers)
    ensures DepthsOk(F.LeaseRows(rows, batch, worker, now), answers)
  {
  }

  lemma SkippedDepths(rows: F.Rows, answers: map<string, Answer>, url: string, reason: string)
    requires DepthsOk(rows, answers)
    ensures DepthsOk(F.SkipRow(rows, url, reason), answers)
  {
  }

  lemma FailedDepths(rows: F.Rows, answers: map<string, Answer>, url: string, error: string)
    requires DepthsOk(rows, answers)
    ensures DepthsOk(F.FailRow(rows, url, error, true), answers)
  {
  }

  /** What is said about how a crawl ends is beside the table and the counters. */
  lemma VerdictAside(site: Site, rows: F.Rows, r: Record, seeds: set<string>, s: Summary, budget: nat, maxPages: int, t: Summary)
    requires Consistent(site, rows, r, seeds, s, budget, maxPages)
    requires t == s.(hitPageCap := t.hitPageCap, robotsBlocked := t.robotsBlocked, stoppedReason := t.stoppedReason)
    requires t.hitPageCap ==> s.hitPageCap || s.fetched >= maxPages
    ensures Consistent(site, rows, r, seeds, t, budget, maxPages)
  {
    hide RowsOk, LinksOk, Faithful, RendersOk, DepthsOk, F.InState;
  }

  lemma NothingToLease(rows: F.Rows, worker: string, now: int)
    requires NoneLeased(rows) && F.InState(rows, F.Pending) == {}
    ensures Drained(F.LeaseRows(rows, [], worker, now))
  {
    var rows' := F.LeaseRows(rows, [], worker, now);
    assert forall url :: url in rows' ==> url in rows && rows'[url] == rows[url] && url !in F.InState(rows, F.Pending);
  }

  lemma DrainedAs(rows: F.Rows, drained: bool)
    requires drained <==> F.InState(rows, F.Pending) == {} && F.InState(rows, F.Leased) == {}
    ensures drained <==> Drained(rows)
    ensures drained ==> NoneLeased(rows)
  {
    assert forall url :: url in rows && rows[url].state == F.Leased ==> url in F.InState(rows, F.Leased);
  }

  /** A done page's answer joins the record. */
  lemma NewAnswer(site: Site, r: Record, url: string, a: Answer, offered: seq<(string, nat)>)
    requires Faithful(site, r) && url !in r.pages
    requires site.fetch(url, a.request).NoFacts? || site.fetch(url, a.request).Html?
    requires offered == Offered(site, site.fetch(url, a.request), a.depth, a.budget)
    ensures url !in r.answers && Faithful(site, r.(pages := r.pages[url := offered], answers := r.answers[url := a]))
  {
    assert Answered(site, url, a, offered);
    hide Answered;
  }

  /** A done page's answer joins the record, and the renders stay accounted for. */
  lemma RendersGrow(site: Site, rendered: nat, answers: map<string, Answer>, budget: nat, url: string, a: Answer)
    requires RendersOk(site, rendered, answers, budget) && url !in answers && a.budget == budget
    ensures var spent := if Renders(site.fetch(url, a.request), budget) then 1 else 0;
      spent <= budget && RendersOk(site, rendered + spent, answers[url := a], budget - spent)
  {
    RenderedGrow(site, answers, url, a);
    assert Renders(site.fetch(url, a.request), budget) ==> budget > 0;
    hide Renders, RenderedPages;
  }

  lemma RenderedGrow(site: Site, answers: map<string, Answer>, url: string, a: Answer)
    requires url !in answers
    ensures |RenderedPages(site, answers[url := a])| == |RenderedPages(site, answers)| + if WasRendered(site, url, a) then 1 else 0
  {
    hide WasRendered;
    var before, after := RenderedPages(site, answers), RenderedPages(site, answers[url := a]);
    assert url !in before;
    assert forall other :: other in after <==> other in before || (other == url && WasRendered(site, url, a));
    CountOneMore(before, after, url, WasRendered(site, url, a));
  }

  lemma CountOneMore(before: set<string>, after: set<string>, url: string, joins: bool)
    requires url !in before && forall other :: other in after <==> other in before || (other == url && joins)
    ensures |after| == |before| + if joins then 1 else 0
  {
    assert after == before + if joins then {url} else {};
  }

  lemma BrokenMeans(site: Site, answers: map<string, Answer>)
    ensures Broken(site, answers) != {} <==> exists url :: url in answers && PageRaises(site, url, answers[url])
  {
    hide PageRaises;
    if url :| url in answers && PageRaises(site, url, answers[url]) {
      assert url in Broken(site, answers);
    }
  }

  lemma SeedsAreRows(site: Site, rows: F.Rows, r: Record, seeds: set<string>, s: Summary, budget: nat, maxPages: int)
    requires Consistent(site, rows, r, seeds, s, budget, maxPages)
    ensures seeds <= rows.Keys
  {
    LeastClosed(rows, r, seeds);
  }

  lemma BrokenGrows(site: Site, answers: map<string, Answer>, url: string, a: Answer)
    requires url !in answers
    ensures Broken(site, answers[url := a]) == Broken(site, answers) + (if PageRaises(site, url, a) then {url} else {})
    ensures url !in Broken(site, answers)
  {
    hide PageRaises;
  }

  function StripSlashes(s: string): string {
    if s != "" && s[|s| - 1] == '/' then StripSlashes(s[..|s| - 1]) else s
  }

  /** `origin.rstrip("/") + "/"`, which is queued as it stands. */
  function Home(origin: string): string {
    StripSlashes(origin) + "/"
  }

  /** A fresh table after seeding: nothing leased or done, and only admitted URLs besides the homepage. */
  lemma Planted(site: Site, found: seq<(string, nat)>, more: seq<(string, nat)>, home: string, r: Record)
    requires r == Record(map[], map[], multiset{}) && Seeds(site, found) && (more == [] || more == [(home, 0)])
    ensures var rows := F.AddRows(map[], found + more);
      && RowsOk(site, rows, r) && LinksOk(rows, r, rows.Keys) && DepthsOk(rows, r.answers)
      && F.InState(rows, F.Done) == {} && F.InState(rows, F.Skipped) == {}
      && NoneLeased(rows) && (more != [] ==> home in rows)
      && Admissible(site, home, rows.Keys)
  {
    var all := found + more;
    assert more != [] ==> all[|found|].0 == home;
    F.AddRowsOutcome(map[], all);
  }

  lemma PlantedOk(site: Site, found: seq<(string, nat)>, more: seq<(string, nat)>, home: string, maxPages: int, discovered: nat)
    requires Seeds(site, found) && (more == [] || more == [(home, 0)])
    ensures var rows := F.AddRows(map[], found + more);
      var r := Record(map[], map[], multiset{});
      && Consistent(site, rows, r, rows.Keys, Summary(0, 0, 0, 0, 0, false, false, None), DEFAULT_RENDER_BUDGET, maxPages)
      && Consistent(site, rows, r, rows.Keys, Summary(discovered, 0, 0, 0, 0, false, false, None), DEFAULT_RENDER_BUDGET, maxPages)
      && NoneLeased(rows) && Admissible(site, home, rows.Keys) && Broken(site, r.answers) == {}
      && (more == [] ==> rows == F.AddRows(map[], found)) && (more != [] ==> home in rows)
  {
    Planted(site, found, more, home, Record(map[], map[], multiset{}));
    assert found + [] == found;
    assert RenderedPages(site, map[]) == {} && Broken(site, map[]) == {};
    hide F.AddRows, F.InState, RowsOk, LinksOk, Admissible, NoneLeased, DepthsOk;
  }

  function Candidates(site: Site, origin: string): seq<string> {
    var root := StripSlashes(origin);
    if site.sitemaps != [] then site.sitemaps
    else [root + CONVENTIONAL_PATHS[0], root + CONVENTIONAL_PATHS[1], root + CONVENTIONAL_PATHS[2]]
  }

  function FirstFiles(candidates: seq<string>): seq<string> {
    if |candidates| <= MAX_SITEMAP_FILES then candidates else candidates[..MAX_SITEMAP_FILES]
  }

  ghost function FileRows(site: Site, url: string, n: nat): seq<(string, nat)> {
    match site.sitemap(url, n)
    case UrlSet(locations) => Offers(site, locations, 0)
    case _ => []
  }

  /** Reading this file, or normalising a location it names, raises. */
  ghost predicate FileRaises(site: Site, url: string, n: nat) {
    var file := site.sitemap(url, n);
    file.BadFile? || (file.UrlSet? && exists k :: 0 <= k < |file.locations| && site.admit(file.locations[k]).Raising?)
  }

  ghost predicate NoFileRaises(site: Site, read: seq<string>, start: nat) {
    forall k: nat :: k < |read| ==> !FileRaises(site, read[k], start + k)
  }

  /** What the files `read` put into the frontier, the first of them being request number `start`. */
  ghost function Harvest(site: Site, read: seq<string>, start: nat): seq<(string, nat)> {
    if read == [] then [] else
      var k := |read| - 1;
      Harvest(site, read[..k], start) + FileRows(site, read[k], start + k)
  }

  ghost predicate Names(file: Sitemap, url: string) {
    file.Index? && url in file.locations
  }

  /** `origin` is `base` and nothing but slashes. */
  ghost predicate IsBase(origin: string, base: string) {
    && |base| <= |origin| && origin[..|base|] == base && (base != "" ==> base[|base| - 1] != '/')
    && forall i :: |base| <= i < |origin| ==> origin[i] == '/'
  }

  lemma {:induction false} StrippedIsBase(origin: string, base: string)
    ensures IsBase(origin, base) <==> base == StripSlashes(origin)
  {
    if origin != "" && origin[|origin| - 1] == '/' {
      var init := origin[..|origin| - 1];
      StrippedIsBase(init, base);
      if IsBase(origin, base) {
        assert |base| < |origin|;
        assert init[..|base|] == base;
      }
    } else {
      assert origin[..|origin|] == origin;
    }
  }

  /**
    Where seeding starts: at the sitemaps that robots.txt names, at most fifty of
    them, or, if it names none, at three places below the origin.
  */
  ghost predicate StartsAt(site: Site, origin: string, first: seq<string>) {
    if site.sitemaps != [] then first <= site.sitemaps && |first| == if |site.sitemaps| < 50 then |site.sitemaps| else 50
    else exists base ::
      IsBase(origin, base) && first == [base + "/sitemap.xml", base + "/sitemap_index.xml", base + "/sitemap-index.xml"]
  }

  lemma FirstFilesStart(site: Site, origin: string)
    ensures StartsAt(site, origin, FirstFiles(Candidates(site, origin)))
  {
    StrippedIsBase(origin, StripSlashes(origin));
    hide IsBase, StripSlashes;
  }

  /** The files that are known once `read` was read: the first ones, and what each index named. */
  ghost function Known(site: Site, first: seq<string>, read: seq<string>, start: nat): seq<string> {
    if read == [] then first else
      var k := |read| - 1;
      var file := site.sitemap(read[k], start + k);
      Known(site, first, read[..k], start) + if file.Index? then file.locations else []
  }

  /** `s` without repetitions. */
  ghost function Once(s: seq<string>): (r: seq<string>)
    ensures forall x :: x in r <==> x in s
  {
    if s == [] then [] else
      var init, last := s[..|s| - 1], s[|s| - 1];
      assert s == init + [last];
      Once(init) + if last in init then [] else [last]
  }

  /** Each file was known before it was read; the first `upTo` known files were, each once, in the order they became known. */
  ghost predicate ReadUpTo(site: Site, first: seq<string>, read: seq<string>, start: nat, upTo: nat) {
    && upTo <= |Known(site, first, read, start)| && read == Once(Known(site, first, read, start)[..upTo])
    && forall i :: 0 <= i < |read| ==> read[i] in Known(site, first, read[..i], start)
  }

  lemma {:induction false} KnownMembers(site: Site, first: seq<string>, read: seq<string>, start: nat, url: string)
    ensures url in Known(site, first, read, start) <==>
      url in first || exists k :: 0 <= k < |read| && Names(site.sitemap(read[k], start + k), url)
  {
    if read != [] {
      var init := read[..|read| - 1];
      KnownMembers(site, first, init, start, url);
      assert forall i :: 0 <= i < |init| ==> init[i] == read[i];
    }
  }

  lemma KnownStep(site: Site, first: seq<string>, read: seq<string>, url: string, start: nat)
    ensures Known(site, first, read + [url], start) ==
      Known(site, first, read, start) + var file := site.sitemap(url, start + |read|); if file.Index? then file.locations else []
  {
    assert (read + [url])[..|read|] == read;
  }

  lemma OnceStep(s: seq<string>, last: string)
    ensures Once(s + [last]) == Once(s) + if last in s then [] else [last]
  {
    assert (s + [last])[..|s|] == s;
  }

  /** A known file that was read before is passed over. */
  lemma PassedOver(site: Site, first: seq<string>, read: seq<string>, start: nat, upTo: nat)
    requires ReadUpTo(site, first, read, start, upTo) && upTo < |Known(site, first, read, start)|
    requires Known(site, first, read, start)[upTo] in read
    ensures ReadUpTo(site, first, read, start, upTo + 1)
  {
    hide Known, Once;
    OnceStays(Known(site, first, read, start), read, upTo);
  }

  lemma OnceStays(known: seq<string>, read: seq<string>, upTo: nat)
    requires upTo < |known| && read == Once(known[..upTo]) && known[upTo] in read
    ensures read == Once(known[..upTo + 1])
  {
    OnceStep(known[..upTo], known[upTo]);
    assert known[upTo] in known[..upTo];
    hide Once;
    assert known[..upTo + 1] == known[..upTo] + [known[upTo]];
  }

  /** A known file that was not read before is read next. */
  lemma ReadNext(site: Site, first: seq<string>, read: seq<string>, start: nat, upTo: nat)
    requires ReadUpTo(site, first, read, start, upTo) && upTo < |Known(site, first, read, start)|
    requires Known(site, first, read, start)[upTo] !in read
    ensures var known := Known(site, first, read, start);
      var file := site.sitemap(known[upTo], start + |read|);
      && ReadUpTo(site, first, read + [known[upTo]], start, upTo + 1)
      && Known(site, first, read + [known[upTo]], start) == known + (if file.Index? then file.locations else [])
  {
    var known := Known(site, first, read, start);
    KnownStep(site, first, read, known[upTo], start);
    hide Known, Once;
    OnceGrows(known, Known(site, first, read + [known[upTo]], start), read, upTo);
    KnownBefore(site, first, read, known[upTo], start);
  }

  lemma OnceGrows(known: seq<string>, more: seq<string>, read: seq<string>, upTo: nat)
    requires upTo < |known| && known <= more && read == Once(known[..upTo]) && known[upTo] !in read
    ensures read + [known[upTo]] == Once(more[..upTo + 1])
  {
    OnceStep(known[..upTo], known[upTo]);
    assert known[upTo] !in known[..upTo];
    hide Once;
    assert more[..upTo + 1] == known[..upTo] + [known[upTo]];
  }

  lemma KnownBefore(site: Site, first: seq<string>, read: seq<string>, url: string, start: nat)
    requires url in Known(site, first, read, start)
    requires forall i :: 0 <= i < |read| ==> read[i] in Known(site, first, read[..i], start)
    ensures forall i :: 0 <= i < |read + [url]| ==> (read + [url])[i] in Known(site, first, (read + [url])[..i], start)
  {
    hide Known;
    var read' := read + [url];
    forall i | 0 <= i < |read'|
      ensures read'[i] in Known(site, first, read'[..i], start)
    {
      SliceOfConcat(read, [url], i);
      assert read[..|read|] == read;
    }
  }

  /** The files were read from where seeding starts, in the order they became known; `all` says that none is left. */
  ghost predicate ReadAsKnown(site: Site, origin: string, files: seq<string>, start: nat, all: bool) {
    exists first, upTo: nat ::
      && StartsAt(site, origin, first) && ReadUpTo(site, first, files, start, upTo)
      && (all ==> upTo == |Known(site, first, files, start)|)
  }

  /** One of the places where seeding starts. */
  ghost predicate FirstFile(site: Site, origin: string, url: string) {
    || (exists k :: 0 <= k < |site.sitemaps| && k < 50 && url == site.sitemaps[k])
    || (site.sitemaps == [] && exists base ::
          IsBase(origin, base) && url in {base + "/sitemap.xml", base + "/sitemap_index.xml", base + "/sitemap-index.xml"})
  }

  lemma StartsAtFirstFiles(site: Site, origin: string, first: seq<string>, url: string)
    requires StartsAt(site, origin, first)
    ensures url in first <==> FirstFile(site, origin, url)
  {
    if site.sitemaps == [] {
      var base :| IsBase(origin, base) && first == [base + "/sitemap.xml", base + "/sitemap_index.xml", base + "/sitemap-index.xml"];
      forall other | IsBase(origin, other)
        ensures other == base
      {
        StrippedIsBase(origin, other);
        StrippedIsBase(origin, base);
      }
      hide IsBase;
    } else {
      assert forall k :: 0 <= k < |first| ==> first[k] == site.sitemaps[k];
    }
  }

  /**
    Which files a seeding reads: where nothing stopped it, every first file and
    every file an index it read names; and in any case only those, an index before
    what it names.
  */
  lemma {:induction false} FilesAreNamed(site: Site, origin: string, files: seq<string>, start: nat, all: bool)
    requires ReadAsKnown(site, origin, files, start, all)
    ensures all ==> forall url :: FirstFile(site, origin, url) ==> url in files
    ensures all ==> forall k, url :: 0 <= k < |files| && Names(site.sitemap(files[k], start + k), url) ==> url in files
    ensures forall i :: 0 <= i < |files| ==>
      FirstFile(site, origin, files[i]) || exists j :: 0 <= j < i && Names(site.sitemap(files[j], start + j), files[i])
  {
    var first, upTo: nat :| StartsAt(site, origin, first) && ReadUpTo(site, first, files, start, upTo)
      && (all ==> upTo == |Known(site, first, files, start)|);
    hide Known, StartsAt, FirstFile, Names;
    forall url
      ensures url in first <==> FirstFile(site, origin, url)
    {
      StartsAtFirstFiles(site, origin, first, url);
    }
    if all {
      forall url
        ensures url in files <==> url in first || exists k :: 0 <= k < |files| && Names(site.sitemap(files[k], start + k), url)
      {
        KnownMembers(site, first, files, start, url);
        AllRead(site, first, files, start, url);
      }
    }
    NamedBefore(site, first, files, start);
  }

  lemma NamedBefore(site: Site, first: seq<string>, files: seq<string>, start: nat)
    requires forall i :: 0 <= i < |files| ==> files[i] in Known(site, first, files[..i], start)
    ensures forall i :: 0 <= i < |files| ==>
      files[i] in first || exists j :: 0 <= j < i && Names(site.sitemap(files[j], start + j), files[i])
  {
    hide Known, Names;
    forall i | 0 <= i < |files|
      ensures files[i] in first || exists j :: 0 <= j < i && Names(site.sitemap(files[j], start + j), files[i])
    {
      KnownMembers(site, first, files[..i], start, files[i]);
      assert forall j :: 0 <= j < i ==> files[..i][j] == files[j];
    }
  }

  lemma AllRead(site: Site, first: seq<string>, files: seq<string>, start: nat, url: string)
    requires ReadUpTo(site, first, files, start, |Known(site, first, files, start)|)
    ensures url in files <==> url in Known(site, first, files, start)
  {
    var known := Known(site, first, files, start);
    assert known[..|known|] == known;
    assert url in Once(known) <==> url in known;
  }

  lemma NothingRead(site: Site, first: seq<string>, start: nat)
    ensures NoFileRaises(site, [], start) && Seeds(site, [])
    ensures Harvest(site, [], start) == [] && NoDuplicates<string>([])
    ensures ReadUpTo(site, first, [], start, 0) && Known(site, first, [], start) == first
  {
  }

  /** What of the known files is still to be looked at. */
  ghost predicate Rest(known: seq<string>, upTo: nat, queue: seq<string>) {
    upTo <= |known| && queue == known[upTo..]
  }

  lemma NextOfRest(known: seq<string>, upTo: nat, queue: seq<string>)
    requires Rest(known, upTo, queue) && queue != []
    ensures upTo < |known| && queue[0] == known[upTo] && Rest(known, upTo + 1, queue[1..])
  {
  }

  lemma RestGrows(known: seq<string>, upTo: nat, queue: seq<string>, more: seq<string>)
    requires Rest(known, upTo, queue) && queue != []
    ensures Rest(known + more, upTo + 1, queue[1..] + more)
  {
  }

  lemma AddNothing(rows: F.Rows)
    ensures F.AddRows(rows, []) == rows
  {
  }

  lemma OneMore(read: seq<string>, url: string)
    requires NoDuplicates(read) && url !in read
    ensures NoDuplicates(read + [url])
  {
  }

  lemma HarvestStep(site: Site, read: seq<string>, url: string, start: nat)
    ensures Harvest(site, read + [url], start) == Harvest(site, read, start) + FileRows(site, url, start + |read|)
  {
    assert (read + [url])[..|read|] == read;
  }

  /** A seeding that stayed below both of its limits. */
  ghost predicate Unlimited(site: Site, files: seq<string>, start: nat) {
    |files| < 50 && |Harvest(site, files, start)| < 50_000
  }

  /** A location of this file is taken as this URL. */
  ghost predicate Places(site: Site, file: Sitemap, url: string) {
    file.UrlSet? && exists k :: 0 <= k < |file.locations| && site.admit(file.locations[k]) == Taken(url)
  }

  /** The homepage: the origin with one slash at its end. */
  ghost predicate IsHome(origin: string, url: string) {
    exists base :: IsBase(origin, base) && url == base + "/"
  }

  /** The seeds are the homepage and every URL that a location of a file that was read is taken as. */
  ghost predicate Seeding(site: Site, origin: string, files: seq<string>, start: nat, seeds: set<string>) {
    forall url :: url in seeds <==> IsHome(origin, url) || Placed(site, files, start, url)
  }

  /** Some file that was read places this URL. */
  ghost predicate Placed(site: Site, read: seq<string>, start: nat, url: string) {
    exists k :: 0 <= k < |read| && Places(site, site.sitemap(read[k], start + k), url)
  }

  lemma LastPlaces(site: Site, read: seq<string>, start: nat, url: string)
    requires read != []
    ensures var k := |read| - 1;
      Placed(site, read, start, url) <==> Placed(site, read[..k], start, url) || Places(site, site.sitemap(read[k], start + k), url)
  {
    hide Places;
    var init := read[..|read| - 1];
    assert forall i :: 0 <= i < |init| ==> init[i] == read[i];
  }

  lemma {:induction false} HarvestMeans(site: Site, read: seq<string>, start: nat, item: (string, nat))
    requires NoFileRaises(site, read, start)
    ensures item in Harvest(site, read, start) <==> item.1 == 0 && Placed(site, read, start, item.0)
  {
    if read != [] {
      var k := |read| - 1;
      var init := read[..k];
      assert !FileRaises(site, read[k], start + k);
      assert NoFileRaises(site, init, start) by {
        assert forall i: nat :: i < k ==> init[i] == read[i] && !FileRaises(site, read[i], start + i);
      }
      hide FileRows, FileRaises, Placed, NoFileRaises;
      HarvestMeans(site, init, start, item);
      PlacesMeans(site, read[k], start + k, item);
      LastPlaces(site, read, start, item.0);
    }
  }

  lemma PlacesMeans(site: Site, url: string, n: nat, item: (string, nat))
    requires !FileRaises(site, url, n)
    ensures item in FileRows(site, url, n) <==> item.1 == 0 && Places(site, site.sitemap(url, n), item.0)
  {
    if site.sitemap(url, n).UrlSet? {
      AdmittedMembers(site, site.sitemap(url, n).locations, 0, item);
    }
  }

  lemma HomeIsHome(origin: string, url: string)
    ensures IsHome(origin, url) <==> url == Home(origin)
  {
    StrippedIsBase(origin, StripSlashes(origin));
    hide IsBase, StripSlashes;
    if IsHome(origin, url) {
      var base :| IsBase(origin, base) && url == base + "/";
      StrippedIsBase(origin, base);
    }
  }

  lemma SeedingIs(site: Site, origin: string, files: seq<string>, start: nat)
    requires NoFileRaises(site, files, start)
    ensures Seeding(site, origin, files, start, F.AddRows(map[], Harvest(site, files, start) + [(Home(origin), 0)]).Keys)
  {
    var found := Harvest(site, files, start);
    var all := found + [(Home(origin), 0)];
    F.AddRowsOutcome(map[], all);
    HarvestAdmitted(site, files, start);
    hide F.AddRows, Harvest, Home, IsHome, Placed, NoFileRaises, Seeds;
    forall url
      ensures url in F.AddRows(map[], all) <==> IsHome(origin, url) || Placed(site, files, start, url)
    {
      HomeIsHome(origin, url);
      HarvestMeans(site, files, start, (url, 0));
      SeedIsItem(site, found, all, Home(origin), url);
    }
  }

  lemma SeedIsItem(site: Site, found: seq<(string, nat)>, all: seq<(string, nat)>, home: string, url: string)
    requires Seeds(site, found) && all == found + [(home, 0)]
    ensures (exists k :: 0 <= k < |all| && all[k].0 == url) <==> (url, 0) in found || url == home
  {
    if k :| 0 <= k < |found| && found[k].0 == url {
      assert found[k] == (url, 0) && all[k] == found[k];
    }
    assert all[|found|].0 == home;
    if (url, 0) in found {
      var k :| 0 <= k < |found| && found[k] == (url, 0);
      assert all[k].0 == url;
    }
  }

  /** Every seed is the homepage or some link's admitted form. */
  ghost predicate Admissible(site: Site, home: string, seeds: set<string>) {
    forall url :: url in seeds ==> url == home || exists raw :: site.admit(raw) == Taken(url)
  }

  ghost predicate Seeds(site: Site, found: seq<(string, nat)>) {
    forall k :: 0 <= k < |found| ==> found[k].1 == 0 && exists raw :: site.admit(raw) == Taken(found[k].0)
  }

  lemma {:induction false} HarvestAdmitted(site: Site, read: seq<string>, start: nat)
    ensures Seeds(site, Harvest(site, read, start))
  {
    if read != [] {
      var k := |read| - 1;
      HarvestAdmitted(site, read[..k], start);
      if site.sitemap(read[k], start + k).UrlSet? {
        AllAdmitted(site, site.sitemap(read[k], start + k).locations);
      }
      SeedsConcat(site, Harvest(site, read[..k], start), FileRows(site, read[k], start + k));
    }
  }

  lemma SeedsConcat(site: Site, a: seq<(string, nat)>, b: seq<(string, nat)>)
    requires Seeds(site, a) && Seeds(site, b)
    ensures Seeds(site, a + b)
  {
  }

  lemma AllAdmitted(site: Site, links: seq<string>)
    ensures Seeds(site, Admitted(site, links, 0))
  {
    var batch := Admitted(site, links, 0);
    forall k | 0 <= k < |batch|
      ensures batch[k].1 == 0 && exists raw :: site.admit(raw) == Taken(batch[k].0)
    {
      AdmittedMembers(site, links, 0, batch[k]);
      assert batch[k] in batch;
    }
  }

  lemma {:induction false} AddMore(rows: F.Rows, first: seq<(string, nat)>, more: seq<(string, nat)>)
    ensures F.AddRows(F.AddRows(rows, first), more) == F.AddRows(rows, first + more)
  {
    if more == [] {
      assert first + more == first;
    } else {
      AddMore(rows, first, more[..|more| - 1]);
      assert (first + more)[..|first + more| - 1] == first + more[..|more| - 1];
    }
  }

  // ---- the main results ---------------------------------------------------

  /** Every URL that a link of this done page is admitted as. */
  ghost predicate LinksQueued(site: Site, rows: F.Rows, url: string, a: Answer) {
    forall links, k :: LinksOf(site.fetch(url, a.request), a.budget, links) && 0 <= k < |links| && site.admit(links[k]).Taken? ==>
      site.admit(links[k]).url in rows
  }

  /** Of a done page either every admitted link is a row, or one of its links raised and none was queued. */
  lemma LinksAreRows(site: Site, rows: F.Rows, r: Record, seeds: set<string>, url: string)
    requires RowsOk(site, rows, r) && LinksOk(rows, r, seeds) && Faithful(site, r) && url in r.pages
    ensures if PageRaises(site, url, r.answers[url]) then r.pages[url] == [] else LinksQueued(site, rows, url, r.answers[url])
  {
    var a := r.answers[url];
    assert Answered(site, url, a, r.pages[url]) && url in rows;
    PageRaisesMeans(site, url, a);
    hide RowsOk, Faithful, AnyRaises;
    if !PageRaises(site, url, a) {
      forall links, k | LinksOf(site.fetch(url, a.request), a.budget, links) && 0 <= k < |links| && site.admit(links[k]).Taken?
        ensures site.admit(links[k]).url in rows
      {
        var target := site.admit(links[k]).url;
        AdmittedMembers(site, links, a.depth, (target, a.depth));
        assert (target, a.depth) in r.pages[url];
        assert Linked(r, url, target);
      }
    }
  }

  /** Why each row is in the state it is in. */
  ghost predicate Explained(site: Site, row: F.Row, url: string, r: Record) {
    && (row.state == F.Skipped <==> row.state != F.Pending && row.state != F.Leased && !site.allows(url))
    && (row.state == F.Failed <==> r.failures[url] == F.MAX_ATTEMPTS)
    && (row.state == F.Done <==> url in r.pages)
    && r.failures[url] <= F.MAX_ATTEMPTS
  }

  /**
    Whatever became of a crawl: the rows are the least set that holds the seeds
    and what every done page offered; a row was skipped exactly when it was
    visited and robots.txt disallows it, failed exactly when it failed three times,
    and is done exactly when a fetch of it succeeded.
  */
  lemma {:induction false} RowsExplained(site: Site, rows: F.Rows, r: Record, seeds: set<string>)
    requires RowsOk(site, rows, r) && LinksOk(rows, r, seeds)
    ensures seeds <= rows.Keys
    ensures forall url, target :: url in rows && Linked(r, url, target) ==> target in rows
    ensures forall c :: ClosedUnderLinks(r, seeds, c) ==> rows.Keys <= c
    ensures forall url :: url in rows ==> Explained(site, rows[url], url, r)
  {
    forall url | url in rows
      ensures Explained(site, rows[url], url, r)
    {
      assert RowOk(rows[url], site.allows(url), r.failures[url], url in r.pages);
    }
    hide RowsOk;
    LeastClosed(rows, r, seeds);
  }

  /**
    A completed crawl that stopped below its cap: nothing is left to do, and every
    admitted link of every done page is itself a row.
  */
  lemma {:induction false} StoppedBelowCap(site: Site, rows: F.Rows, r: Record, seeds: set<string>)
    requires RowsOk(site, rows, r) && LinksOk(rows, r, seeds) && Faithful(site, r)
    requires Drained(rows) && Broken(site, r.answers) == {}
    ensures forall url :: url in rows ==>
      && rows[url].state in {F.Skipped, F.Failed, F.Done} && Explained(site, rows[url], url, r)
      && (rows[url].state == F.Skipped <==> !site.allows(url))
    ensures forall url :: url in rows && rows[url].state == F.Done ==> LinksQueued(site, rows, url, r.answers[url])
    ensures forall c :: ClosedUnderLinks(r, seeds, c) ==> rows.Keys <= c
  {
    RowsExplained(site, rows, r, seeds);
    forall url | url in rows
      ensures rows[url].state in {F.Skipped, F.Failed, F.Done}
    {
      assert url !in F.InState(rows, F.Pending) && url !in F.InState(rows, F.Leased);
    }
    forall url | url in r.pages
      ensures LinksQueued(site, rows, url, r.answers[url])
    {
      assert url !in Broken(site, r.answers);
      LinksAreRows(site, rows, r, seeds, url);
    }
    hide LinksOk, RowsOk, Faithful, Drained, LinksQueued;
  }

  /**
    What an aborted crawl leaves behind: the links of every done page but the one
    whose link raised are rows; that page is done and offered nothing; and the
    rows are still the least set the done pages account for.
  */
  lemma {:induction false} AbortedCrawl(site: Site, rows: F.Rows, r: Record, seeds: set<string>, broken: string)
    requires RowsOk(site, rows, r) && LinksOk(rows, r, seeds) && Faithful(site, r) && Broken(site, r.answers) <= {broken}
    ensures forall url :: url in rows ==> Explained(site, rows[url], url, r)
    ensures forall url :: url in rows && rows[url].state == F.Done && url != broken ==> LinksQueued(site, rows, url, r.answers[url])
    ensures broken in Broken(site, r.answers) ==> broken in rows && rows[broken].state == F.Done && r.pages[broken] == []
    ensures forall c :: ClosedUnderLinks(r, seeds, c) ==> rows.Keys <= c
  {
    RowsExplained(site, rows, r, seeds);
    forall url | url in r.pages
      ensures url != broken ==> LinksQueued(site, rows, url, r.answers[url])
      ensures url in Broken(site, r.answers) ==> r.pages[url] == [] && url in rows
    {
      PageIsRow(site, rows, r, url);
      LinksAreRows(site, rows, r, seeds, url);
      assert url != broken ==> url !in Broken(site, r.answers);
    }
    hide LinksOk, RowsOk, LinksQueued, Chosen, AnyRaises;
  }

  lemma LeastClosed(rows: F.Rows, r: Record, seeds: set<string>)
    requires LinksOk(rows, r, seeds)
    ensures seeds <= rows.Keys
    ensures forall url, target :: url in rows && Linked(r, url, target) ==> target in rows
    ensures forall c :: ClosedUnderLinks(r, seeds, c) ==> rows.Keys <= c
  {
  }

  /** Every row was admitted, except a seed: nothing comes into the table but seeds and admitted links. */
  lemma {:induction false} RowsAreAdmitted(site: Site, rows: F.Rows, r: Record, seeds: set<string>, url: string)
    requires LinksOk(rows, r, seeds) && Faithful(site, r) && url in rows
    ensures url in seeds || exists raw :: site.admit(raw) == Taken(url)
  {
    var c := set u | u in rows && (u in seeds || exists raw :: site.admit(raw) == Taken(u));
    LeastClosed(rows, r, seeds);
    forall u, target | u in c && Linked(r, u, target)
      ensures target in c
    {
      TargetIsAdmitted(site, r, u, target);
    }
    assert ClosedUnderLinks(r, seeds, c);
    hide LinksOk, Faithful;
    assert rows.Keys <= c;
  }

  lemma TargetIsAdmitted(site: Site, r: Record, url: string, target: string)
    requires Faithful(site, r) && Linked(r, url, target)
    ensures exists raw :: site.admit(raw) == Taken(target)
  {
    var a := r.answers[url];
    assert Answered(site, url, a, r.pages[url]);
    var k :| 0 <= k < |r.pages[url]| && r.pages[url][k].0 == target;
    AdmittedMembers(site, Chosen(site.fetch(url, a.request), a.budget), a.depth, r.pages[url][k]);
  }

  /**
    A site that answers a URL the same way every time, and has fewer pages to
    render than the crawl has renders.
  */
  ghost predicate Steady(site: Site, wanting: set<string>) {
    && (forall url: string, n: nat :: site.fetch(url, n) == site.fetch(url, 0))
    && (forall url: string :: Renders(site.fetch(url, 0), DEFAULT_RENDER_BUDGET) ==> url in wanting)
    && |wanting| < DEFAULT_RENDER_BUDGET
  }

  /** The links a steady site's page offers whenever it is fetched. */
  ghost function SteadyLinks(site: Site, url: string): seq<string> {
    Chosen(site.fetch(url, 0), DEFAULT_RENDER_BUDGET)
  }

  /** On a steady site a crawl never runs out of renders. */
  lemma SteadyChosen(site: Site, wanting: set<string>, s: Summary, r: Record, budget: nat, url: string)
    requires Steady(site, wanting) && RendersOk(site, s.rendered, r.answers, budget) && url in r.answers
    ensures Chosen(site.fetch(url, r.answers[url].request), r.answers[url].budget) == SteadyLinks(site, url)
  {
    assert RenderedPages(site, r.answers) <= wanting by {
      forall v | v in RenderedPages(site, r.answers)
        ensures v in wanting
      {
        assert site.fetch(v, r.answers[v].request) == site.fetch(v, 0);
      }
    }
    SmallerSet(RenderedPages(site, r.answers), wanting);
    assert site.fetch(url, r.answers[url].request) == site.fetch(url, 0);
  }

  /** What a completed crawl of a steady site knows. */
  ghost predicate Completed(site: Site, rows: F.Rows, r: Record, s: Summary, budget: nat, seeds: set<string>) {
    && RowsOk(site, rows, r) && LinksOk(rows, r, seeds) && Faithful(site, r) && RendersOk(site, s.rendered, r.answers, budget)
    && Drained(rows) && Broken(site, r.answers) == {}
  }

  lemma SteadyTarget(site: Site, wanting: set<string>, rows: F.Rows, r: Record, s: Summary, budget: nat, seeds: set<string>,
      url: string, target: string)
    requires Steady(site, wanting) && Completed(site, rows, r, s, budget, seeds) && url in r.pages
    ensures Linked(r, url, target) <==>
      exists k :: 0 <= k < |SteadyLinks(site, url)| && site.admit(SteadyLinks(site, url)[k]) == Taken(target)
  {
    var a := r.answers[url];
    SteadyChosen(site, wanting, s, r, budget, url);
    var links := SteadyLinks(site, url);
    assert Answered(site, url, a, r.pages[url]) && url !in Broken(site, r.answers);
    assert r.pages[url] == Admitted(site, links, a.depth);
    hide Completed, Steady, Chosen, SteadyLinks;
    AdmittedMembers(site, links, a.depth, (target, a.depth));
    forall item | item in r.pages[url]
      ensures item.1 == a.depth
    {
      AdmittedMembers(site, links, a.depth, item);
    }
    assert Linked(r, url, target) <==> (target, a.depth) in r.pages[url];
  }

  /** A drained crawl's record of a steady site: done pages never failed, and failed ones were never done. */
  lemma SteadyOutcome(site: Site, wanting: set<string>, rows: F.Rows, r: Record, s: Summary, budget: nat, seeds: set<string>, url: string)
    requires Steady(site, wanting) && Completed(site, rows, r, s, budget, seeds) && url in rows
    ensures url in r.pages <==> site.allows(url) && !site.fetch(url, 0).Failure?
  {
    StoppedBelowCap(site, rows, r, seeds);
    hide RowsOk, LinksOk, Drained, Broken, RendersOk;
    if url in r.pages {
      assert Answered(site, url, r.answers[url], r.pages[url]);
      assert site.fetch(url, r.answers[url].request) == site.fetch(url, 0);
      assert Explained(site, rows[url], url, r);
    } else if site.allows(url) {
      assert url in r.failures;
      var n: nat :| site.fetch(url, n).Failure?;
      assert site.fetch(url, n) == site.fetch(url, 0);
    }
  }

  /**
    On a steady site the order of fetching does not matter: two completed crawls
    from the same seeds that both stopped below their caps found the same URLs and
    completed the same pages.
  */
  lemma {:induction false} CrawlIsDetermined(site: Site, wanting: set<string>, rows1: F.Rows, r1: Record, s1: Summary, budget1: nat,
      rows2: F.Rows, r2: Record, s2: Summary, budget2: nat, seeds: set<string>)
    requires Steady(site, wanting)
    requires Completed(site, rows1, r1, s1, budget1, seeds) && Completed(site, rows2, r2, s2, budget2, seeds)
    ensures rows1.Keys == rows2.Keys
    ensures r1.pages.Keys == r2.pages.Keys
  {
    hide LinksOk, Drained, Steady, Faithful, RendersOk, Broken, RowsOk;
    NoMoreThan(site, wanting, rows1, r1, s1, budget1, rows2, r2, s2, budget2, seeds);
    NoMoreThan(site, wanting, rows2, r2, s2, budget2, rows1, r1, s1, budget1, seeds);
    forall url
      ensures url in r1.pages <==> url in r2.pages
    {
      if url in r1.pages {
        PageIsRow(site, rows1, r1, url);
      }
      if url in r2.pages {
        PageIsRow(site, rows2, r2, url);
      }
      if url in rows1 {
        SteadyOutcome(site, wanting, rows1, r1, s1, budget1, seeds, url);
        SteadyOutcome(site, wanting, rows2, r2, s2, budget2, seeds, url);
      }
    }
  }

  lemma NoMoreThan(site: Site, wanting: set<string>, rows1: F.Rows, r1: Record, s1: Summary, budget1: nat,
      rows2: F.Rows, r2: Record, s2: Summary, budget2: nat, seeds: set<string>)
    requires Steady(site, wanting)
    requires Completed(site, rows1, r1, s1, budget1, seeds) && Completed(site, rows2, r2, s2, budget2, seeds)
    ensures rows2.Keys <= rows1.Keys
  {
    LeastClosed(rows1, r1, seeds);
    LeastClosed(rows2, r2, seeds);
    hide LinksOk, Drained, Steady, Faithful, RendersOk, Broken;
    forall url, target | url in rows1.Keys && Linked(r2, url, target)
      ensures target in rows1.Keys
    {
      PageIsRow(site, rows2, r2, url);
      SteadyOutcome(site, wanting, rows2, r2, s2, budget2, seeds, url);
      SteadyOutcome(site, wanting, rows1, r1, s1, budget1, seeds, url);
      SteadyTarget(site, wanting, rows2, r2, s2, budget2, seeds, url, target);
      SteadyTarget(site, wanting, rows1, r1, s1, budget1, seeds, url, target);
    }
    assert ClosedUnderLinks(r2, seeds, rows1.Keys);
  }

  lemma PageIsRow(site: Site, rows: F.Rows, r: Record, url: string)
    requires RowsOk(site, rows, r) && url in r.pages
    ensures url in rows
  {
  }
}
