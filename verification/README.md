# The unattended machinery, modelled and proved

This project models the state machines that run the product while nobody is watching, and the exact
codecs and arithmetic they rest on: the nightly scheduler and its run rows, the crawl and its
frontier, the per-host limiter, the URL canonicaliser, the life of an issue and the health score,
operator incidents and customer notices, the checks on what a model writes, the assistant's loop,
the event-stream codec and the calendar of the sync windows.

How it is built:

- A database table is a map (or a list) of rows, and each SQL statement is one atomic step. Code that
  changes such state is a class whose methods are proved equal to functions on values; everything
  that holds over runs is then proved about those functions.
- Where actors overlap (dispatchers, redelivered tasks, slow or dead workers, several crawl workers,
  tasks that share a host limiter) a run is any sequence of actions, and the results quantify over
  all of them. Where one actor may die between statements, a run carries the fate of every step, and what
  others do in between where that matters.
- Networks, models, mail, clocks and sites are parameters that may answer anything, or raise.
- SHA-256 is taken to be injective, so a hashed key is the text it is made from.

| module | what it is |
|---|---|
| `Schedule`, `RunTable`, `RunProtocol` | slot arithmetic, the statements on `scheduled_runs`, and every interleaving of them |
| `Frontier`, `Crawl`, `Scope` | the leased queue, the exploration loop with its cap, and which links it takes on |
| `Politeness` | the per-host limiter and the protocol around one fetch, redirects included |
| `Urls`, `Query`, `ParamOrder`, `Utf8` | page identity: splitting, canonical form, query strings, their order and their encoding |
| `IssueLifecycle`, `Scoring` | reconciliation over runs of the analysis, and the score |
| `Incidents`, `JobAlerts`, `Notices` | operator incidents, what an alert about a job means, customer notices |
| `Lexers`, `Decimals`, `Numbers` | the two number scanners, 28-digit decimals, the evidence check |
| `Json`, `Validate`, `PlanProse` | JSON values, the schema checker, when a model's prose is kept |
| `Strategist` | the assistant's loop and its three budgets |
| `Sse`, `Windows` | the event-stream codec, and the months of a date window |
| `Prelude`, `Ascii` | shared types and character classes |

## Where the code and its documentation differ

- `finish` writes without looking at the status, so a terminal run row is not final:
  `RunProtocol.TerminalRowChanges` says exactly when one changes and
  `RunProtocol.LateWorkerOverwritesReaped` exhibits a run.
- `complete`, `fail` and `skip` do not look at the state either: `Frontier.DoneIsLeft` says exactly
  when a done row stops being done.
- The evidence check reads "2,400" as one figure in prose and as 2 and 400 in evidence
  (`Numbers.CommaFigureRefusesItself`), and a rate of more than 28 digits is rounded twice
  (`Numbers.LongRateIsRoundedTwice`). Without commas, text refuses itself exactly when a figure has more than
  28 digits (`Numbers.SelfEvident`), and only rates of more than 28 digits are rounded twice
  (`Numbers.AcceptedIffGrounded`).
- An IPv6 literal loses its brackets in the canonical form, which is then no URL of anything
  (`Urls.IPv6IsNotFixed`, `Urls.LoopbackVanishes`), and a host of dots alone vanishes
  (`Urls.DotVanishes`). `Urls.CanonicalIsFixed` says for every URL when its canonical form is one.
- One link can end a crawl. `normalise` raises on a port above 65535 and on a stray bracket
  (`Urls.NormaliseAnswers`), nothing in `run` catches it, and no status is written after that:
  the crawl stays "running", and an analysis starts from completed crawls. `Crawl.CrawlRunner.Run` completes exactly
  when nothing it was handed raises; `Scope.AdmitRaises` says which links do, `Scope.LinksThatRaise` names
  two, and `Crawl.AbortedCrawl` says what is left.
- One fetch can be six requests, because the client follows redirects without asking the limiter:
  `Politeness.RequestsAreFetches` and `Politeness.DelaysHoldOnOneHost` say exactly when "one request per
  host" and "with a delay between them" survive that.
- A run of the analysis that dies between closing an issue and observing it leaves a log that is wrong
  until the issue comes back (`IssueLifecycle.CloseWithoutObservation`,
  `IssueLifecycle.ResolvedIsPassedOver`), and a dismissal that lands after the run selected is
  overwritten (`IssueLifecycle.DismissalIsOverwritten`). `IssueLifecycle.LastObservationAgrees` and
  `IssueLifecycle.DismissedIsLeft` say exactly when.
- A recorded delivery error does not mean that nothing went out (`Notices.ErrorAfterTheMail`).
- `_prose` raises, and meters nothing, when the model's answer is not of a shape that can have refs
  (`PlanProse.WriteProse`).
- A provider stream that just stops is not metered (`Strategist.MeteredOnce`).
- An alert that arrived and was not recorded is sent again, whether the process died in between or the
  destination reported a failure all the same (`Incidents.UnrecordedIsRepeated`); only recorded
  announcements space the next one.
- `month_chunks` fails for windows that end in December of the year 9999 (`Windows.MonthChunks`).
- Scores and recommendations of one website can fall on the same minute (`Schedule.NightIsOrdered`).

## Model

| member | source | states |
|---|---|---|
| Schedule.DueIsGreatestSlot | api/workers/schedule.py:97-112 | the due slot exists at every instant, is at most one period old, and no slot up to now is later |
| Schedule.SlotMeans | api/workers/schedule.py:86-112 | a slot is exactly the job's hour and the website's minute on one of the job's days, in microseconds |
| Schedule.NextIsLeastSlot | api/workers/schedule.py:119-130 | the next slot is the least slot after now, and follows the due one by exactly one day or seven |
| Schedule.DueMonotone | api/workers/schedule.py:97-130 | the due slot and the next slot never go back as time passes |
| Schedule.DueWithinPeriod | api/workers/schedule.py:97-112 | a slot is the due one for exactly one period |
| Schedule.NoSlotMissed | api/workers/schedule.py:97-112 | ticks at most a period apart find every slot between them due |
| Schedule.NightIsOrdered | api/workers/schedule.py:74-83 | the nightly jobs of one website are in order, with equality exactly when its stagger is in the second half hour |
| Schedule.DueSlot | api/workers/schedule.py:97-112 | the bounded walk back over days finds the due slot and never fails |
| Schedule.NextSlot | api/workers/schedule.py:119-130 | the walk forward finds the next slot |
| RunTable.ScheduledRuns.Claim | api/workers/dispatch.py:139-163 | a new row exactly when the slot is not taken, and the sequence advances either way |
| RunTable.ScheduledRuns.Dispatch | api/workers/dispatch.py:169-234 | one pass claims its whole work list in order and queues exactly what it won; `RunTable.WorkMembers` and `RunTable.FirstPass` say what that list is |
| RunTable.ScheduledRuns.DispatchJob | api/workers/dispatch.py:201-226 | the same for one job over every website |
| RunTable.ScheduledRuns.Reap | api/workers/dispatch.py:237-273 | exactly the live rows past their lease become failed, each with the words for the state it was in |
| RunTable.ScheduledRuns.MarkRunning | api/workers/dispatch.py:279-295 | only a claimed row starts, and only then is it handed to the worker |
| RunTable.ScheduledRuns.Finish | api/workers/dispatch.py:298-313 | the outcome is written whatever the row says |
| RunTable.ScheduledRuns.RunContext | api/workers/jobs.py:60-97 | a redelivery finds nothing to do; a website that is gone closes the run as skipped |
| RunTable.ScheduledRuns.Guard | api/workers/jobs.py:100-127 | what one delivery does to the row and what it reports, for every outcome of the body |
| RunTable.JobWorkMembers | api/workers/dispatch.py:79-92 | one job's work is the due slots of the websites that have the column the job needs, no more and no fewer |
| RunTable.WorkMembers | api/workers/dispatch.py:201-207 | a pass asks for exactly the due slots of the pairs of a job and a website that has the column it needs |
| RunTable.EligibleMeans | api/workers/dispatch.py:79-92 | Search Console, analytics and the crawl each need their own column, and every other job needs a completed crawl |
| RunTable.FirstPass | api/workers/dispatch.py:169-234 | after the first pass over distinct websites each has a row for each of the six jobs exactly when it has that job's column |
| RunTable.ClaimAllOutcome | api/workers/dispatch.py:139-163 | after claiming a list every key in it is taken, the rows before are untouched, and what was won is exactly what is new |
| RunTable.ClaimAllConcat | api/workers/dispatch.py:201-226 | a pass over a list is a pass over its first part followed by one over the rest |
| RunTable.OnePassOneSlot | api/workers/schedule.py:97-112 | after an outage of any length one pass adds the latest slot of an eligible pair and no other |
| RunTable.RaisedIsNotReaped | api/workers/jobs.py:118-123 | no exception a body raises can be stored as one of the reaper's own texts |
| RunProtocol.ReachableOk | api/workers/dispatch.py:139-313 | every interleaving of dispatchers, deliveries, workers, reapers and crashes keeps the invariant |
| RunProtocol.DeliveryIsGuard | api/workers/jobs.py:60-127 | the protocol's steps of one undisturbed delivery do to the table what the guard does, and begin the body exactly when the row was claimed and the website is there |
| RunProtocol.PassIsDispatch | api/workers/dispatch.py:169-234 | the protocol's steps of one undisturbed pass do to the table what the dispatcher does, and queue what it won |
| RunProtocol.AtMostOnce | api/workers/jobs.py:60-127 | a body begins at most once per website, job and window; each row is queued at most once; succeeded is written only by the winner that ran the body |
| RunProtocol.ClaimListsDisjoint | api/workers/dispatch.py:139-163 | passes that overlap never win the same row |
| RunProtocol.RowsOnlyMoveForward | api/workers/dispatch.py:279-313 | no row disappears, returns to claimed or changes its winner, whatever happens later |
| RunProtocol.TerminalRowChanges | api/workers/dispatch.py:298-313 | a terminal row changes exactly when its own winner reports after the reaper gave up |
| RunProtocol.LateWorkerOverwritesReaped | api/workers/dispatch.py:298-313 | a run in which a slow worker turns a reaped failure into a success |
| RunProtocol.UnclaimedIsFinal | api/workers/dispatch.py:256-270 | a row that reads as never picked up never had its body begun, never will, and never changes |
| RunProtocol.NothingStaysLive | api/workers/dispatch.py:237-273 | with a reap no older than a gap, no live row is older than the lease and the gap |
| RunProtocol.RowsAreDueSlots | api/workers/dispatch.py:201-211 | every row is a due slot some pass asked for, for a website with the column the job needs |
| RunProtocol.CompletedPassCovers | api/workers/dispatch.py:201-226 | a completed pass leaves a row at the due slot of every pair it covered |
| RunProtocol.NoSlotGoesUnclaimed | api/workers/dispatch.py:169-234 | completed passes at most a period apart leave a row for every slot between them |
| Frontier.Frontier.Add | api/crawler/frontier.py:39-58 | new URLs become pending rows, known ones keep theirs, and the whole list is counted |
| Frontier.Frontier.Lease | api/crawler/frontier.py:60-83 | leases as many of the shallowest free pending rows as the limit allows, and nothing else |
| Frontier.Frontier.Complete | api/crawler/frontier.py:85-90 | the new state of the row, whoever asks |
| Frontier.Frontier.Fail | api/crawler/frontier.py:92-104 | pending again below three attempts, failed at three |
| Frontier.Frontier.Skip | api/crawler/frontier.py:106-112 | the new state of the row, whoever asks |
| Frontier.Frontier.ReclaimExpired | api/crawler/frontier.py:114-134 | exactly the expired leases become pending, and are counted |
| Frontier.Frontier.IsDrained | api/crawler/frontier.py:136-147 | true exactly when nothing is pending or leased |
| Frontier.ReachableOk | api/crawler/frontier.py:39-134 | any workers and stale callers, in any order, keep the table's invariant |
| Frontier.AttemptsAreBounded | api/crawler/frontier.py:60-134 | a row is tried at most three times more often than its lease was reclaimed |
| Frontier.LeaseLasts | api/crawler/frontier.py:60-134 | a sweep leaves a lease alone for three hundred seconds and takes it back after |
| Frontier.FirstDepthStays | api/crawler/frontier.py:39-58 | a new URL comes in at the depth it is first listed with |
| Frontier.RowsStay | api/crawler/frontier.py:39-58 | rows never disappear or change depth, and adding a URL again never changes its row |
| Frontier.RowsStayThroughout | api/crawler/frontier.py:39-134 | the same over any later run |
| Frontier.LeasedOnlyFromPending | api/crawler/frontier.py:60-83 | a lease is new only for a pending row, so no row has two at once, and it counts as a try |
| Frontier.DoneIsLeft | api/crawler/frontier.py:92-112 | a done row stops being done exactly when somebody still fails or skips it |
| Frontier.SweepRecovers | api/crawler/frontier.py:114-134 | after a sweep no lease is past its expiry, and only expired leases were touched |
| Frontier.SweepIgnoresWorkers | api/crawler/frontier.py:114-134 | recovery is the same whatever the workers are called |
| Crawl.CrawlRunner.constructor | api/crawler/runner.py:68-84 | a new crawl has an empty table, zero counters and a full render budget |
| Crawl.CrawlRunner.MaybeRender | api/crawler/runner.py:304-320 | a render is spent exactly when the page wants one, the budget has one and the renderer answers |
| Crawl.CrawlRunner.QueueLinks | api/crawler/runner.py:322-333 | the admitted links of a page, in page order, one level deeper; nothing at all exactly when one of them raises |
| Crawl.CrawlRunner.ReadFile | api/crawler/runner.py:279-298 | one sitemap file queues the pages it names, or answers with the files it names; it raises exactly when the file does or a location does, and then queues nothing |
| Crawl.CrawlRunner.ReadSitemaps | api/crawler/runner.py:262-300 | no file is read twice, at most fifty are, in the order they became known; it raises exactly when a file it read does; otherwise, below the limits, every file that was named was read |
| Crawl.CrawlRunner.Seed | api/crawler/runner.py:226-260 | the homepage and what the sitemaps gave are the seeds, all pending; or robots.txt or a sitemap raised, and what was queued before stays; the files it read are those `Crawl.FilesAreNamed` describes |
| Crawl.FilesAreNamed | api/crawler/runner.py:246-288 | below the limits a seeding read each of the first fifty sitemaps robots.txt names, or the three conventional ones if it names none, and every file an index it read names; in any case only those, an index before what it names |
| Crawl.CrawlRunner.NextBatch | api/crawler/runner.py:134-139 | for a single worker the sweep finds nothing, and no rows to lease means a drained table |
| Crawl.CrawlRunner.Visit | api/crawler/runner.py:149-184 | robots, then the fetch, then the page: the new row, record and counters for each, which answer was received, when the visit raises and what is left then |
| Crawl.CrawlRunner.Keep | api/crawler/runner.py:162-184 | a fetched page is done and its links queued one level deeper, or none if one raises; whether a render was spent, and every counter |
| Crawl.CrawlRunner.VisitBatch | api/crawler/runner.py:141-184 | a batch ends at its end, at the cap or at an exception; rows stay leased only in the last two, and the summary says so at the cap |
| Crawl.CrawlRunner.Run | api/crawler/runner.py:86-193 | the crawl terminates on any site; it completes exactly when nothing it was handed raises, and stays "running" otherwise; fetched counts the done rows and never passes the cap; a completed crawl below the cap leaves a drained table; an aborted one leaves at most one batch leased and one page without its links |
| Crawl.AdmittedMembers | api/crawler/runner.py:322-333 | a URL is offered exactly when some link admits it |
| Crawl.AdmittedInOrder | api/crawler/runner.py:322-333 | what is offered stands in the order of the links, one for each that is taken |
| Crawl.SkipKeeps | api/crawler/runner.py:149-152 | skipping keeps rows, links and counters in agreement and uses up work |
| Crawl.FailKeeps | api/crawler/runner.py:154-160 | so does failing, with one more recorded failure |
| Crawl.DoneKeeps | api/crawler/runner.py:178-184 | so does completing a page and queueing its links, and the rows stay the least closed set |
| Crawl.HarvestAdmitted | api/crawler/runner.py:290-298 | everything the sitemaps queued was admitted |
| Crawl.StoppedBelowCap | api/crawler/runner.py:133-193 | a completed crawl below the cap: every row is terminal, skipped iff robots disallows it, failed iff it failed three times, done iff fetched; every admitted link of a done page is a row; and the rows are the least set the seeds and links account for |
| Crawl.RowsExplained | api/crawler/runner.py:133-193 | however a crawl ended: why each row is in its state, and the rows are the least set the seeds and what done pages offered account for |
| Crawl.LinksAreRows | api/crawler/runner.py:322-333 | of a done page either every admitted link is a row, or one of its links raised and none was queued |
| Crawl.AbortedCrawl | api/crawler/runner.py:141-184 | what an exception leaves behind: every done page but the one whose link raised has its links in the table, and that one offered nothing |
| Crawl.RowsAreAdmitted | api/crawler/runner.py:226-333 | nothing comes into the table but seeds and admitted links |
| Crawl.CrawlIsDetermined | api/crawler/runner.py:133-193 | on a site that answers the same way each time, with fewer pages to render than renders, two completed crawls below their caps found and completed the same pages |
| Scope.LooksLikeATrap | api/crawler/urls.py:117-144 | the scan answers the first reason that applies, or none |
| Scope.TrapMeans | api/crawler/urls.py:117-144 | no trap means: no file suffix of the list, at most twelve segments, none three times in a row, none of the endless ones, at most six parameters |
| Scope.SegmentsConcat | api/crawler/urls.py:125-125 | segments are what stands between slashes, and nothing is no segment |
| Scope.CoversHostMeans | api/crawler/urls.py:106-114 | in scope means the site's own host, with or without www, or a subdomain of it when those are included |
| Scope.WrittenPage | api/crawler/urls.py:106-144 | scope and traps, asked of a canonical URL, depend on the page alone; scope sees its host up to a colon |
| Scope.AdmitMeans | api/crawler/runner.py:322-333 | any link with a canonical form raises exactly when a bracket got into its host, and is taken exactly when it is in scope and no trap |
| Scope.AdmitRaises | api/crawler/runner.py:290-333 | a link ends the crawl exactly when normalising it raises or a bracket got into the host it normalises to |
| Scope.LinksThatRaise | api/crawler/urls.py:64-75 | a port of 99999 and a lone bracket raise, whatever the site |
| Scope.OneLinkEndsTheCrawl | api/crawler/runner.py:322-333 | one such link on a page, and the crawl is aborted with nothing of that page queued |
| Scope.AdmittedIsFixed | api/crawler/urls.py:52-90 | what was admitted is its own canonical form, and admitted again as itself, exactly when its host stands alone |
| Scope.CrawlStaysInScope | api/crawler/runner.py:322-333 | with this admission every row but the homepage is in scope, no trap and some link's canonical form |
| Politeness.HostLimiter.constructor | api/crawler/politeness.py:15-27 | a new limiter has no delays, locks or waits |
| Politeness.HostLimiter.SetDelay | api/crawler/politeness.py:29-30 | only this host's delay changes |
| Politeness.HostLimiter.Acquire | api/crawler/politeness.py:35-45 | takes the free lock and answers the wait that is still owed |
| Politeness.HostLimiter.Release | api/crawler/politeness.py:47-51 | the next request is owed the delay in force, and the lock is free |
| Politeness.HostLimiter.BackOff | api/crawler/politeness.py:53-56 | the delay is raised to what was asked, never lowered |
| Politeness.Fetch | api/crawler/fetch.py:97-134 | one fetch starts when allowed, its redirects follow without the limiter, and it leaves the limiter released, whatever came back |
| Politeness.PauseAsked | api/crawler/fetch.py:116-121 | only a 429 or 503 asks for a pause, and never more than five minutes |
| Politeness.ReachableOk | api/crawler/politeness.py:40-56 | any tasks in any order keep the limiter's invariant |
| Politeness.FetchIsProtocol | api/crawler/fetch.py:97-134 | a task that nothing comes between does to the limiter what one fetch does, and starts when it does |
| Politeness.DelayMoves | api/crawler/politeness.py:20-56 | a host's delay is the usual one until it is set, and only set_delay or an answer that asks for a longer pause moves it |
| Politeness.OneFetchPerHost | api/crawler/politeness.py:40-51 | between two fetches from a host the first was released; no two tasks fetch from one host |
| Politeness.RequestsAreFetches | api/crawler/fetch.py:89-104 | counting redirects, a host sees one request at a time exactly when no redirect is ever followed; every kind of redirect has a run that breaks it |
| Politeness.DelaysHoldOnOneHost | api/crawler/fetch.py:89-121 | counting redirects, no request comes before its delay exactly when redirects stay on the host of their fetch |
| Politeness.StartsAreSpaced | api/crawler/politeness.py:40-56 | every fetch starts at least the delay in force after each earlier release, and at least s seconds after each back-off of s |
| Politeness.DelayNeverDrops | api/crawler/politeness.py:29-56 | only set_delay lowers a delay |
| Politeness.AnswerSlows | api/crawler/fetch.py:116-134 | an answer that asks for a pause leaves the delay at least that long |
| Politeness.DelayNeverDropsThroughout | api/crawler/politeness.py:29-56 | between calls of set_delay the delay never falls |
| Politeness.SetDelayUndoesBackOff | api/crawler/runner.py:131-131 | setting the delay later undoes a back-off for every request but the next |
| Urls.CanonicalIsFixed | api/crawler/urls.py:52-90 | for every URL, normalising its canonical form changes nothing exactly when its host stands alone; without brackets, exactly when the host is not dots alone |
| Urls.NormaliseAnswers | api/crawler/urls.py:52-90 | raises exactly on bad brackets, or on a port that is no number up to 65535 for an http or https URL with a host; answers a URL exactly for http or https with a host, a good port and at most 2048 characters, and then the page written out; drops everything else |
| Urls.PortBeyondRangeRaises | api/crawler/urls.py:72-75 | for any good host, path and parameters, a port above 65535 raises |
| Urls.SameFormSamePage | api/crawler/urls.py:52-90 | two URLs have the same canonical form exactly when what they name is written alike, and with no colon in a host exactly when they name the same page |
| Urls.TwoPagesOneForm | api/crawler/urls.py:70-75 | with a colon in a host, two pages can have one form |
| Urls.SamePageMeans | api/crawler/urls.py:70-86 | two URLs name the same page exactly when scheme, kept host, port and kept path agree and each parameter that does not track stands as often in one query as in the other |
| Urls.PageMeans | api/crawler/urls.py:64-77 | there is a page exactly for http or https with a host and a good port; its host is in lower case without dots at its end, its port is left out when default, its path has single slashes |
| Urls.PageParams | api/crawler/urls.py:81-86 | each parameter is there as often as in the query, tracking ones never, whatever stands around them, and they are in order |
| Urls.NotPagesAre | api/crawler/urls.py:58-59 | exactly the empty link and those that start with one of five prefixes name no page whatever follows |
| Urls.PiecesAre | api/crawler/urls.py:64-64 | a URL put together from scheme, authority, path and query is cut into them again, with the scheme in lower case and blanks before it ignored |
| Urls.BreaksAreIgnored | api/crawler/urls.py:64-64 | a tab or line end anywhere in a URL makes no difference |
| Urls.PlainAuthority | api/crawler/urls.py:67-72 | an authority without brackets is a host, and a port after the first colon |
| Urls.BracketedAuthority | api/crawler/urls.py:67-72 | square brackets keep the colons of a host |
| Urls.UserInfoIsIgnored | api/crawler/urls.py:67-72 | what stands before the last at sign makes no difference to host and port |
| Urls.FragmentIsDropped | api/crawler/urls.py:88-89 | a URL with any fragment is normalised like the URL without it |
| Urls.IPv6IsNotFixed | api/crawler/urls.py:67-75 | the canonical form of an IPv6 host raises or is dropped when normalised again |
| Urls.LoopbackVanishes | api/crawler/urls.py:67-75 | the canonical form of the loopback address is dropped when normalised again |
| Urls.DotVanishes | api/crawler/urls.py:67-70 | so is the canonical form of a host of one dot |
| Urls.ReadIsText | api/crawler/urls.py:64-86 | what any URL is read as is in canonical form, part by part, but for what square brackets let into a host |
| Urls.WritePieces | api/crawler/urls.py:88-89 | cutting a written page finds its parts again |
| Urls.WriteReads | api/crawler/urls.py:64-89 | reading back a written page gives the page |
| Urls.CollapseShape | api/crawler/urls.py:77-77 | a collapsed path has no doubled slash; collapsing twice is collapsing once, and keeps the first character |
| Urls.SlashIsForgotten | api/crawler/urls.py:77-77 | a slash more or less next to another makes no difference |
| Urls.SingleSlashesStay | api/crawler/urls.py:77-77 | a path without doubled slashes stays as it is |
| Query.UnquoteUndoesQuote | api/crawler/urls.py:81-89 | what was quoted is read back, whatever the characters |
| Query.ParseUndoesEncode | api/crawler/urls.py:81-89 | parsing an encoded parameter list gives back the list, blanks and order included |
| Query.ParseConcat | api/crawler/urls.py:83-83 | what stands on either side of an ampersand is parsed alone |
| Query.ParsePiece | api/crawler/urls.py:83-83 | a piece is a name and a value around its first equals sign, a name with a blank value without one, or nothing if empty |
| Query.PlainText | api/crawler/urls.py:83-83 | text without percent signs is read as it stands, but for pluses, which are spaces |
| Utf8.DecodeUndoesEncode | api/crawler/urls.py:81-89 | decoding undoes encoding for every text |
| ParamOrder.SortOrders | api/crawler/urls.py:86-86 | sorting puts the parameters in order and keeps each as often as it was |
| ParamOrder.OrderIsUnique | api/crawler/urls.py:86-86 | there is one way to put the same parameters in order |
| IssueLifecycle.AnalysisRunner.Reconcile | api/analysis/runner.py:276-370 | the loops over findings and known issues leave exactly the reconciled tables and counters, whatever is answered between two statements and wherever the run dies |
| IssueLifecycle.AnalysisRunner.Observe | api/analysis/runner.py:372-383 | one entry is appended to the log |
| IssueLifecycle.RunStatus | api/analysis/runner.py:290-370 | the status after an undisturbed run is a function of the row before, of being found and of the customer's answer |
| IssueLifecycle.RunLog | api/analysis/runner.py:290-383 | the observations an undisturbed run appends for one issue |
| IssueLifecycle.RunRows | api/analysis/runner.py:290-370 | the rows an undisturbed run leaves, column by column: the last sighting's severity and time, what stays, and when what is gone was resolved |
| IssueLifecycle.RunTally | api/analysis/runner.py:290-370 | the counters of an undisturbed run that finds nothing twice are the sizes of the sets they are named for |
| IssueLifecycle.RunAppends | api/analysis/runner.py:355-383 | an undisturbed run appends an entry for each finding, in order, and then one for each issue it closes, in the order of the select |
| IssueLifecycle.AnswerLands | api/routers/audit.py:226-234 | an answer changes the one issue it is about, if that is open, regressed or snoozed, to what it says |
| IssueLifecycle.StatusIsHistory | api/analysis/runner.py:290-370 | without answers and deaths the status is resolved, regressed or open as the history of sightings says |
| IssueLifecycle.LogIsHistory | api/analysis/runner.py:355-383 | without answers and deaths the log is exactly what the history of sightings says, entry for entry |
| IssueLifecycle.LastObservationAgrees | api/analysis/runner.py:315-383 | over any runs that die anywhere and any answers: the log is the recorded writes, and the last observation agrees with the status exactly when the last status write was followed by its observation or repeats what was last observed |
| IssueLifecycle.OnlyTheLastIsUnobserved | api/analysis/runner.py:315-370 | a run leaves at most its last status write without its observation, and none if it lives to its end |
| IssueLifecycle.CloseWithoutObservation | api/analysis/runner.py:362-368 | a run that dies between closing an issue and observing it leaves the log saying it is there |
| IssueLifecycle.ResolvedIsPassedOver | api/analysis/runner.py:359-361 | and no later run corrects that while the issue is absent: its row and log stay as they are |
| IssueLifecycle.StatusIsWhatWasSaid | api/analysis/runner.py:290-370 | without answers, wherever runs die, the status is a function of what the runs got to say about the issue |
| IssueLifecycle.RunFromAnyTable | api/analysis/runner.py:290-370 | from any table an undisturbed run leaves open or regressed exactly what it found less the dismissed and still snoozed, and keeps the dismissed |
| IssueLifecycle.DismissedIsLeft | api/analysis/runner.py:331-368 | an issue dismissed at any moment of a run leaves dismissed exactly if the run closes it: when its select had it neither dismissed nor resolved, it was not found, and its turn was reached |
| IssueLifecycle.DismissalIsOverwritten | api/analysis/runner.py:359-367 | a dismissal that lands after the select is overwritten |
| Scoring.PenaltyFor | api/analysis/scoring.py:88-124 | the loop computes the normalised penalty and the counts by type |
| Scoring.ScoreComponents | api/analysis/scoring.py:127-176 | the loop scores the components that have data, each rightly by `RightScore`: its value rounded if measured, a hundred less its penalty rounded if not; and averages them |
| Scoring.ScoreEnds | api/analysis/scoring.py:127-166 | an unmeasured component scores exactly 100 without issues and exactly 0 when all its issues are critical, website-wide and of positive weight together |
| Scoring.CardMonotone | api/analysis/scoring.py:127-176 | with nothing better in any component, no component and no total of a scorecard is higher |
| Scoring.TotalOf | api/analysis/scoring.py:169-176 | the weighted sum, or zero when nothing is weighted |
| Scoring.PenaltyInRange | api/analysis/scoring.py:119-120 | a penalty lies in [0, 100], and its cap never bites |
| Scoring.PenaltyMonotone | api/analysis/scoring.py:105-119 | for fixed issue types the penalty never falls as severity or affected pages rise |
| Scoring.PenaltyOfOne | api/analysis/scoring.py:88-120 | one issue takes off 100, 70, 40, 15 or nothing by its severity, times the share of the site it touches |
| Scoring.PenaltyIsMean | api/analysis/scoring.py:88-120 | the penalty of two groups of issues together is the mean of theirs by weight |
| Scoring.PenaltyScales | api/analysis/scoring.py:88-119 | scaling the site and every count together changes nothing, for any size of site |
| Scoring.ScorecardInRange | api/analysis/scoring.py:127-176 | every score and the total lie in [0, 100], and the total between some component's score and another's |
| Scoring.AnalysisScorecardInRange | api/analysis/runner.py:412-518 | with what the analysis measures the same holds whatever the traffic |
| Scoring.SearchPerformanceMonotone | api/analysis/runner.py:479-501 | more clicks never lower the measured score, and as many as before score 60 |
| Scoring.TotalBetween | api/analysis/scoring.py:169-176 | bounds with two decimals on the components bound the rounded total |
| Scoring.AbsentIsNotZero | api/analysis/scoring.py:143-149 | leaving out the components without data gives the same scorecard |
| Scoring.TotalMonotone | api/analysis/scoring.py:169-176 | the total never rises when component scores fall |
| Scoring.TotalIsMean | api/analysis/scoring.py:169-176 | the total is the mean of the scores by weight, within half a hundredth |
| Scoring.MeasuredMeans | api/analysis/runner.py:412-518 | the two measured components case by case: no data, 70, 85, 50, 65, 100, or 60 and 0.8 points for each percent of change |
| Scoring.RoundIsNear | api/analysis/scoring.py:150-176 | rounding is within half a hundredth, lands on one and leaves hundredths alone |
| Incidents.Alerts.Reconcile | api/alerting/operator.py:285-388 | the two loops leave exactly the reconciled table, messages and counters, or stop where the process died |
| Incidents.Alerts.OpenOne | api/alerting/operator.py:297-352 | one condition opens or counts its incident and announces it when due |
| Incidents.Alerts.CloseOne | api/alerting/operator.py:360-386 | an open incident that was not seen is closed, and its recovery told if its opening was |
| Incidents.Alerts.Tell | api/alerting/operator.py:391-436 | deliver, then record, for every fate of the delivery, one that arrives and is reported as failed included |
| Incidents.ReachableOk | api/alerting/operator.py:285-436 | any scans with any failures and crashes keep the invariant |
| Incidents.NoNoise | api/alerting/operator.py:329-386 | announcements of one incident are at least the gap apart; a recovery is sent at most once, only after an announcement, and is the last word |
| Incidents.CompletedScan | api/alerting/operator.py:285-388 | after a scan that ran to its end the open incidents are exactly what it saw, one row each; if all mail got through each was announced less than the gap ago |
| Incidents.ScanAddsUp | api/alerting/operator.py:285-388 | a completed scan counts each condition once, begins exactly the new incidents, and ends as many as are no longer open |
| Incidents.RecoveriesAreTold | api/alerting/operator.py:360-386 | a completed second loop closes exactly the open incidents that were not seen, and tells the recovery of those announced before when the message gets through |
| Incidents.FingerprintIdentifies | api/alerting/operator.py:70-74 | two conditions are one incident exactly when kind and subject are the same, as long as no kind has a colon |
| Incidents.UnrecordedIsRepeated | api/alerting/operator.py:414-436 | an announcement that arrived and was not recorded, for a crash or a failure reported all the same, is heard twice |
| JobAlerts.JobsFailing | api/alerting/operator.py:149-214 | one condition for each job with failures, in order |
| JobAlerts.ConditionsMean | api/alerting/operator.py:160-214 | there is a condition for a job exactly when it has a failed run in the window; it says that no worker is running the job exactly when every failed run of it was never picked up, and is critical from three failures on that are at least half of its runs |
| JobAlerts.UnclaimedAlertIsTrue | api/alerting/operator.py:184-198 | when such an alert is raised no body behind it was begun or ever will be, and the rows never change |
| Notices.AlertEvents.DeliverNotices | api/alerting/customer.py:184-262 | the loop leaves exactly the recorded events, mails and counters |
| Notices.AlertEvents.DeliverOne | api/alerting/customer.py:196-260 | one notice is suppressed, or recorded once with what became of its mail, a mailer that raises after sending included |
| Notices.SaidOnce | api/alerting/customer.py:196-260 | events of one website and kind are more than the interval apart; one mail at most for each; delivered is set only where one went out without an error |
| Notices.ErrorAfterTheMail | api/alerting/customer.py:242-250 | an error is no proof of silence: a mailer that raises after the server took the mail leaves one |
| Notices.NothingUnsaid | api/alerting/customer.py:196-224 | after a completed pass every notice has an event within the interval |
| Lexers.MatchShape | api/ai/numbers.py:41-50 | a figure takes all its decimals, ends where the number ends, and without commas takes all its digits |
| Lexers.FigureAt | api/ai/numbers.py:41-50 | the expression read out: where a figure starts, which comma groups its whole part takes and when it gives the last one back, and that it takes all its decimals; in every text, at every place |
| Lexers.PercentMeans | api/ai/numbers.py:41-50 | a percent sign counts when only spaces stand before it |
| Lexers.MatchesInOrder | api/ai/numbers.py:65-82 | the matches stand one after the other |
| Lexers.PlainFigure | api/ai/numbers.py:41-50 | in plain digits a figure is read exactly where a number starts and does not run on |
| Lexers.NothingSlipsPast | api/ai/numbers.py:36-50 | every place where a figure could be read is inside a figure that was found |
| Lexers.TokenAt | api/ai/numbers.py:52-54 | the evidence scanner reads a number wherever the figure scanner can start one |
| Lexers.TokensScan | api/ai/numbers.py:52-54 | the evidence scanner takes the digit strings one after the other, each with its decimals, and leaves no digit out |
| Lexers.ScanIsUnique | api/ai/numbers.py:52-54 | there is one way to do that |
| Lexers.FracIsGreedy | api/ai/numbers.py:41-50 | giving decimals back never makes a match |
| Decimals.HalfEvenIsNearest | api/ai/numbers.py:110-111 | a rounded quotient is the nearest whole number, ties to even, and only that one |
| Decimals.QuantizeRounds | api/ai/numbers.py:110-111 | quantising is rounding the value to that many places, and nothing else |
| Decimals.ContextRounds | api/ai/numbers.py:114-124 | an arithmetic result is its value rounded to 28 digits, exact when it fits |
| Decimals.HundredfoldIsExact | api/ai/numbers.py:119-121 | a hundred times a number of at most 28 digits is exact |
| Decimals.OneStaysAbove | api/ai/numbers.py:119-121 | the context never carries a number of at most one past one |
| Numbers.FiguresIn | api/ai/numbers.py:65-82 | the loop finds the figures of a text in order |
| Numbers.FiguresAreMatches | api/ai/numbers.py:65-82 | the figures are the matches, one for one and in order, with the text, digits, decimals and percent sign of each |
| Numbers.SupportedValues | api/ai/numbers.py:85-107 | the walk collects every number of the evidence, keys included |
| Numbers.ValuesAreSaid | api/ai/numbers.py:85-107 | a number is collected exactly when it stands at some path, or a token of a string at some path or of a key there writes it; booleans and null give none |
| Numbers.TokensAreNumbers | api/ai/numbers.py:85-107 | the numbers of a string are those its tokens write, each with its decimals |
| Numbers.TextsIn | api/ai/numbers.py:127-142 | the walk collects every string, in order |
| Numbers.TextsStandAtPaths | api/ai/numbers.py:127-142 | the strings collected are those that stand at some path of child steps, each once for each path, in the order of the paths |
| Numbers.TextsAreAtPaths | api/ai/numbers.py:127-142 | a string is collected exactly when some path leads to it |
| Numbers.IsSupported | api/ai/numbers.py:114-124 | true exactly when some number backs the figure |
| Numbers.UnsupportedFigures | api/ai/numbers.py:145-156 | the figures nothing backs, in order |
| Numbers.NothingRefused | api/ai/numbers.py:145-156 | nothing is refused exactly when every figure of every string that stands at some path of the generation is backed by a number said somewhere in the evidence |
| Numbers.RefusedConcat | api/ai/numbers.py:145-156 | what is refused of two lists of strings is what is refused of each, in order |
| Numbers.SupportMeans | api/ai/numbers.py:110-124 | for a number of at most 28 digits backing is rounding of the number, or of a hundred times a rate of at most one |
| Numbers.SupportRounds | api/ai/numbers.py:110-124 | for a number of any length: it backs a figure exactly when the figure fits and is the number rounded, or what the context makes of a hundred times a rate, rounded |
| Numbers.AcceptedIffGrounded | api/ai/numbers.py:145-156 | where no rate has more than 28 digits, a generation is accepted exactly when every figure of every string at any path is a correctly rounded number, or a hundred times a rate, said in the evidence |
| Numbers.AcceptedIffBacked | api/ai/numbers.py:145-156 | whatever the evidence, a generation is accepted exactly when every figure of every string at any path is backed, in terms of what the context makes of a percentage |
| Numbers.LongFigureIsRefused | api/ai/numbers.py:110-124 | a figure of more than 28 digits is refused whatever the evidence |
| Numbers.OwnTextSupports | api/ai/numbers.py:41-107 | against its own structure a figure without commas is backed exactly when it has at most 28 digits |
| Numbers.SelfEvident | api/ai/numbers.py:41-156 | text without thousands separators refuses itself exactly when some figure is too long |
| Numbers.CommaFigureRefusesItself | api/ai/numbers.py:41-54 | with a thousands separator text can refuse itself |
| Numbers.LongRateIsRoundedTwice | api/ai/numbers.py:119-121 | a rate of more than 28 digits can back a figure it does not round to |
| Json.GetIsChild | api/ai/validate.py:38-40 | looking up a key that is there gives one of the values under it |
| Validate.SchemaErrors | api/ai/validate.py:22-77 | the recursion with its loops reports the faults in order |
| Validate.FaultsAreReal | api/ai/validate.py:22-77 | a fault is reported exactly when its path leads to a value that breaks the schema there |
| Validate.NoFaultsIffConforms | api/ai/validate.py:22-77 | nothing is reported exactly when the value conforms |
| PlanProse.TemplateProse | api/ai/plan.py:624-638 | exactly the refs of the priorities, each with the title, the catalogue's summary and the fixes of the last priority that has it; with ranked refs each priority's own |
| PlanProse.PlanShape | api/ai/prompts/weekly_plan.py:60-85 | the schema read out: a summary and priorities of three texts and at least one step, nothing else |
| PlanProse.PlansHaveRefs | api/ai/plan.py:363-363 | a plan of the right shape never makes the ref check raise |
| PlanProse.OrderMeans | api/ai/plan.py:362-364 | for a plan, comparing the lists of refs finds exactly that there are as many items as priorities and each has the ref of the priority at its place |
| PlanProse.RefsRaiseMeans | api/ai/plan.py:363-363 | the ref check raises exactly unless the answer is an object whose priorities are missing, an empty text or object, or a list of objects |
| PlanProse.ByRef | api/ai/plan.py:388-396 | the text under each ref is what an item with that ref says, field by field |
| PlanProse.Keep | api/ai/plan.py:388-403 | each priority carries the text written at its place |
| PlanProse.WriteProse | api/ai/plan.py:324-403 | model text is kept exactly when it has the plan's shape, claims nothing unsupported and has the ranked refs in order; it raises exactly when the answer cannot be asked for refs; otherwise every priority has the template's text; what is metered, and why the template spoke |
| Strategist.Strategist.Ask | api/ai/strategist.py:186-300 | what one question does to the ledger and the transcript, for any model |
| Strategist.Strategist.Converse | api/ai/strategist.py:218-300 | the round loop plays exactly the modelled conversation |
| Strategist.Strategist.RunTools | api/ai/strategist.py:269-276 | tools run while the budget lasts, and the others are told so |
| Strategist.Settled | api/ai/strategist.py:221-267 | a conversation that has ended stays as it is |
| Strategist.PlayKeeps | api/ai/strategist.py:219-284 | every conversation keeps the invariant, against any model and tools |
| Strategist.BudgetsHold | api/ai/strategist.py:219-284 | at most five provider calls and ten tools; tools run plus calls left is ten; tools are offered exactly while both budgets last |
| Strategist.ResultsMatchCalls | api/ai/strategist.py:269-279 | every tool call gets one result with its id, in order, and the next call is sent it |
| Strategist.MeteredOnce | api/ai/strategist.py:240-264 | each call that completed, was refused or failed is metered once, in order |
| Strategist.RoundsAreReal | api/ai/strategist.py:219-284 | every provider call of a conversation is what the model answered to what it was sent, and the first is sent the history |
| Strategist.StepsAreTools | api/ai/strategist.py:269-276 | the steps of an answer are the names of the tools that ran, in order |
| Strategist.TextMoves | api/ai/strategist.py:219-284 | each call adds what it streamed, and a blank line after a call that asked for tools unless nothing was said or one is there |
| Strategist.EndMeans | api/ai/strategist.py:219-300 | a conversation ends with an answer, a refusal, an outage, or after five calls, as its last call did |
| Strategist.QuestionMeans | api/ai/strategist.py:186-190 | a question is what was typed without the white space around it, cut at 2000 characters |
| Sse.ParseFrames | web/lib/sse.ts:25-52 | the loop parses as the recursive definition does |
| Sse.DecodeMeans | web/lib/sse.ts:32-48 | a frame is an event exactly when the texts of its data lines, joined, are not empty and decode |
| Sse.LinesMean | web/lib/sse.ts:35-36 | the lines of a frame are the one way to cut it at its line feeds |
| Sse.DataMeans | web/lib/sse.ts:37-38 | the texts are what follows `data:` and all white space after it, in those of the lines that start so |
| Sse.ReadStream | web/lib/api.ts:519-527 | feeding the chunks one by one shows what one call on the whole would |
| Sse.ParseContinues | web/lib/sse.ts:21-52 | parsing may stop anywhere and go on from the rest |
| Sse.StreamingEqualsBatch | web/lib/api.ts:515-527 | however the text is cut into chunks, the events and the rest are the same |
| Sse.RestIsIncomplete | web/lib/sse.ts:29-31 | the rest holds no complete frame and is the end of the buffer |
| Sse.ParseUndoesPrint | api/routers/strategist.py:52-53 | parsing printed events gives them back with nothing left over |
| Sse.StreamDelivers | web/lib/api.ts:515-527 | whatever packets arrive, the browser shows exactly what was sent |
| Sse.BadFrameIsDropped | web/lib/sse.ts:43-48 | a frame that does not decode takes nothing after it with it |
| Windows.MonthChunks | api/hub/services/sync/windows.py:70-90 | the loop partitions every window, and fails exactly for one ending in December 9999 |
| Windows.PartitionSumsUp | api/hub/services/sync/windows.py:43-45 | the chunks' days sum to the window's |
| Windows.EachDayInOneChunk | api/hub/services/sync/windows.py:70-90 | a day is in the window exactly when it is in one of the chunks, and never in two |
| Windows.PartitionIsUnique | api/hub/services/sync/windows.py:70-90 | there is one way to cut a window into months |
| Windows.UnbrokenExactlyWhenClose | api/hub/services/sync/windows.py:65-67 | the windows of successive runs cover an unbroken stretch exactly when no two runs are further apart than the window is long |
| Windows.BackfillWindow | api/hub/services/sync/windows.py:56-62 | where the backfill starts and ends, and when there is none |
| Windows.IncrementalWindow | api/hub/services/sync/windows.py:65-67 | where a nightly window starts and ends, and when there is none |
| Windows.DaysBeforeYear | api/hub/services/sync/windows.py:43-45 | the calendar's day numbers agree with the closed form for leap years |

## Left out

- Scheduler: organisation ids, triggers, detail columns and log lines of a run; the largest and smallest datetimes; the hash behind a website's stagger, which is carried as a number.
- Crawl: what is stored about a page, heartbeats, error kinds and the columns of the finished crawl; the permission query, whose answer is a parameter.
- Crawl: HTML extraction, robots parsing, sitemap parsing, rendering and storing a page are parameters, each of which may raise.
- Crawl.CrawlRunner.Run: one worker, as `run` has; with several workers the table is the subject of `Frontier`, and the cap and counters are then per worker.
- Frontier.Frontier.Lease: rows of equal depth are taken in the order of their hashes, which the model leaves open.
- Politeness: cancelling a task while it waits, and timers that fire within the clock's resolution; a Retry-After of digits beyond ASCII.
- Urls: a base URL (`urljoin`), the Unicode checks and case folding of a host outside ASCII, and the check inside square brackets, which is a parameter; `urlsplit` is modelled as in Python 3.11.
- Urls.IPv6IsNotFixed: assumes two colons in the literal, as every IPv6 address has; `Urls.CanonicalIsFixed` covers the others.
- IssueLifecycle: evidence, page ids and impact scores of an issue; counters under duplicate fingerprints within one run; two runs for one website at the same time. Dismissing and snoozing have no statement in the repository; they are taken to ask, as marking applied does, that the issue is open, regressed or snoozed.
- Scoring: floating point; scores are exact reals with explicit rounding, weights are not negative, and labels and sources of components are left out.
- Incidents: the other conditions of a scan, alert texts and channels; scans that overlap, which can announce one incident twice.
- JobAlerts: bodies and detail of a condition; the query's grouping is given as the list of job names.
- Notices: finding what to say, message texts and recipients; deliveries that overlap.
- Numbers: characters beyond ASCII in the classes the expressions use; numbers past a million digits, where the decimal exponent runs out.
- Numbers.SupportedValues: decimals that are equal but written differently stay apart, which changes no answer.
- Validate.SchemaErrors: errors are values with a path rather than sentences.
- PlanProse.WriteProse: ranking, storing and the template summary; the budget check, which is always true here; exceptions other than the provider's own.
- Strategist.Strategist.Ask: finding the conversation and reading its history; labels of steps; the rest of the text told to a model whose tools are spent.
- Sse: JSON text, which is a pair of functions that undo each other and print no line end; the text decoder, whose chunks are already characters.
- Windows: the API's date strings and the query-page window.
