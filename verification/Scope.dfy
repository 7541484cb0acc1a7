/**
  Which canonical URLs a crawl takes on (api/crawler/urls.py): those inside the
  website and outside the traps that would make the crawl endless.
*/
module Scope {
  import opened Prelude
  import opened Query
  import opened Urls
  import C = Crawl
  import F = Frontier

  const NON_HTML_SUFFIXES := [
    ".jpg", ".jpeg", ".png", ".gif", ".webp", ".svg", ".ico", ".bmp", ".avif",
    ".pdf", ".zip", ".gz", ".tar", ".rar", ".7z", ".dmg", ".exe", ".apk",
    ".mp3", ".mp4", ".avi", ".mov", ".wmv", ".webm", ".ogg", ".wav", ".m4a",
    ".css", ".js", ".mjs", ".map", ".json", ".xml", ".rss", ".atom",
    ".doc", ".docx", ".xls", ".xlsx", ".ppt", ".pptx", ".csv",
    ".woff", ".woff2", ".ttf", ".eot"
  ]
  const TRAP_SEGMENTS := {"calendar", "cart", "checkout", "wishlist"}
  const MAX_PATH_SEGMENTS := 12
  const MAX_QUERY_PARAMS := 6

  datatype ScopeRule = ScopeRule(host: string, includeSubdomains: bool)

  predicate EndsWith(s: string, suffix: string) {
    |suffix| <= |s| && s[|s| - |suffix|..] == suffix
  }

  function Bare(rule: ScopeRule): string {
    if StartsWith(rule.host, "www.") then rule.host[4..] else rule.host
  }

  predicate CoversHost(rule: ScopeRule, host: string) {
    host != "" &&
    (host == rule.host || host == Bare(rule) || host == "www." + Bare(rule) ||
     (rule.includeSubdomains && EndsWith(host, "." + Bare(rule))))
  }

  /** `covers`, of a URL that `urlsplit` splits. */
  predicate Covers(rule: ScopeRule, url: string) {
    CoversHost(rule, Lower(HostPort(Pieces(url).netloc).0))
  }

  // ---- traps --------------------------------------------------------------

  /** The non-empty pieces of `s` between slashes. */
  function Segments(s: string): seq<string>
    decreases |s|
  {
    var n := Find(s, '/');
    (if n == 0 then [] else [s[..n]]) + if n < |s| then Segments(s[n + 1..]) else []
  }

  predicate IsFile(path: string) {
    exists k :: 0 <= k < |NON_HTML_SUFFIXES| && EndsWith(path, NON_HTML_SUFFIXES[k])
  }

  /** Some segment stands three times in a row. */
  predicate Repeats(segments: seq<string>) {
    exists i :: 0 <= i < |segments| - 2 && segments[i] == segments[i + 1] == segments[i + 2]
  }

  predicate HasTrap(segments: seq<string>) {
    exists i :: 0 <= i < |segments| && segments[i] in TRAP_SEGMENTS
  }

  /** The reason a path and its parameters are a trap; the reasons are tried in this order. */
  function TrapIn(path: string, params: nat): Option<string> {
    var segments := Segments(Lower(path));
    if IsFile(Lower(path)) then Some("non_html")
    else if |segments| > MAX_PATH_SEGMENTS then Some("path_too_deep")
    else if Repeats(segments) then Some("repeating_segments")
    else if HasTrap(segments) then Some("infinite_space")
    else if params > MAX_QUERY_PARAMS then Some("too_many_parameters")
    else None
  }

  /** `looks_like_a_trap`, of a URL that `urlsplit` splits. */
  function Trap(url: string): Option<string> {
    TrapIn(Pieces(url).path, |Parse(Pieces(url).query)|)
  }

  method LooksLikeATrap(url: string) returns (reason: Option<string>)
    ensures reason == Trap(url)
  {
    hide Pieces, Segments, Parse, IsFile;
    var parts := Pieces(url);
    var path := Lower(parts.path);
    if IsFile(path) {
      return Some("non_html");
    }
    var segments := Segments(path);
    if |segments| > MAX_PATH_SEGMENTS {
      return Some("path_too_deep");
    }
    var i := 0;
    while i + 2 < |segments|
      invariant forall k :: 0 <= k < i && k < |segments| - 2 ==> !(segments[k] == segments[k + 1] == segments[k + 2])
    {
      if segments[i] == segments[i + 1] == segments[i + 2] {
        return Some("repeating_segments");
      }
      i := i + 1;
    }
    if HasTrap(segments) {
      return Some("infinite_space");
    }
    if |Parse(parts.query)| > MAX_QUERY_PARAMS {
      return Some("too_many_parameters");
    }
    return None;
  }

  // ---- admission ----------------------------------------------------------

  /**
    What the crawler does with a link: canonical form, then scope, then traps.
    Scope splits the canonical form again, and that raises when a bracket has got
    into its host.
  */
  function Admit(brackets: string -> bool, rule: ScopeRule, raw: string): C.Admission {
    match Normalise(brackets, raw)
    case Raises => C.Raising
    case Dropped => C.Refused
    case Canonical(url) =>
      if Split(brackets, url).SplitRaises? then C.Raising
      else if Covers(rule, url) && Trap(url).None? then C.Taken(url)
      else C.Refused
  }

  /** The site's host without `www.`. */
  ghost predicate IsBare(rule: ScopeRule, bare: string) {
    rule.host == "www." + bare || (rule.host == bare && forall rest: string :: rule.host != "www." + rest)
  }

  lemma BareIsBare(rule: ScopeRule, bare: string)
    ensures IsBare(rule, bare) <==> bare == Bare(rule)
  {
    if StartsWith(rule.host, "www.") {
      assert rule.host == "www." + rule.host[4..];
      assert rule.host == "www." + bare ==> bare == rule.host[4..];
    } else {
      forall rest: string
        ensures rule.host != "www." + rest
      {
        assert ("www." + rest)[..4] == "www.";
      }
    }
  }

  /** The host is the site's, with or without `www.`, or ends in a dot and the site's. */
  ghost predicate IsTheSite(rule: ScopeRule, bare: string, host: string) {
    && host != ""
    && (host in {rule.host, bare, "www." + bare} ||
        (rule.includeSubdomains && exists sub: string :: host == sub + "." + bare))
  }

  lemma CoversHostMeans(rule: ScopeRule, bare: string, host: string)
    requires IsBare(rule, bare)
    ensures CoversHost(rule, host) <==> IsTheSite(rule, bare, host)
  {
    BareIsBare(rule, bare);
    SubdomainMeans(host, bare);
    hide EndsWith, Bare;
  }

  lemma SubdomainMeans(host: string, bare: string)
    ensures EndsWith(host, "." + bare) <==> exists sub: string :: host == sub + "." + bare
  {
    var suffix := "." + bare;
    if EndsWith(host, suffix) {
      var sub := host[..|host| - |suffix|];
      ConcatAssociates(sub, ".", bare);
      assert host == sub + suffix;
    }
    if sub: string :| host == sub + "." + bare {
      ConcatAssociates(sub, ".", bare);
      assert host[|host| - |suffix|..] == suffix;
    }
  }

  /** Segments are what stands between slashes, and nothing is no segment. */
  lemma {:induction false} SegmentsConcat(a: string, b: string)
    ensures Segments(a + "/" + b) == Segments(a) + Segments(b)
    ensures Lacks(a, '/') ==> Segments(a) == if a == "" then [] else [a]
    decreases |a|
  {
    var n := Find(a, '/');
    hide Segments, Find;
    if n < |a| {
      var first, rest := a[..n], a[n + 1..];
      assert a == first + "/" + rest;
      Regroup(first, rest, b);
      SegmentCut(first, rest);
      SegmentsConcat(rest, b);
      SegmentCut(first, rest + "/" + b);
      ConcatAssociates(if first == "" then [] else [first], Segments(rest), Segments(b));
    } else {
      SegmentCut(a, b);
      OneSegment(a);
    }
  }

  lemma Regroup(first: string, rest: string, b: string)
    ensures first + "/" + rest + "/" + b == first + "/" + (rest + "/" + b)
  {
  }

  lemma SegmentCut(first: string, rest: string)
    requires Lacks(first, '/')
    ensures Segments(first + "/" + rest) == (if first == "" then [] else [first]) + Segments(rest)
  {
    hide Find;
    FindConcat(first, '/', rest);
    assert first + "/" + rest == first + ['/'] + rest;
  }

  lemma OneSegment(a: string)
    requires Lacks(a, '/')
    ensures Segments(a) == if a == "" then [] else [a]
  {
    FindNone(a, '/');
    hide Find;
    assert a[..|a|] == a;
  }

  /** What is no trap: no file name that is not HTML, at most twelve segments, none three times in a row, no endless one, at most six parameters. */
  lemma TrapMeans(path: string, params: nat)
    ensures var segments := Segments(Lower(path));
      TrapIn(path, params).None? <==>
        && (forall k, stem: string :: 0 <= k < |NON_HTML_SUFFIXES| ==> Lower(path) != stem + NON_HTML_SUFFIXES[k])
        && |segments| <= 12
        && (forall i :: 0 <= i < |segments| - 2 ==> segments[i] != segments[i + 1] || segments[i + 1] != segments[i + 2])
        && (forall segment :: segment in segments ==> segment !in {"calendar", "cart", "checkout", "wishlist"})
        && params <= 6
  {
    var lower := Lower(path);
    FileMeans(lower);
    hide Lower, Segments, IsFile;
    assert forall i :: 0 <= i < |Segments(lower)| ==> Segments(lower)[i] in Segments(lower);
  }

  lemma FileMeans(path: string)
    ensures IsFile(path) <==> exists k, stem: string :: 0 <= k < |NON_HTML_SUFFIXES| && path == stem + NON_HTML_SUFFIXES[k]
  {
    if IsFile(path) {
      var k :| 0 <= k < |NON_HTML_SUFFIXES| && EndsWith(path, NON_HTML_SUFFIXES[k]);
      var stem := path[..|path| - |NON_HTML_SUFFIXES[k]|];
      assert path == stem + NON_HTML_SUFFIXES[k];
    }
    if k, stem: string :| 0 <= k < |NON_HTML_SUFFIXES| && path == stem + NON_HTML_SUFFIXES[k] {
      assert EndsWith(path, NON_HTML_SUFFIXES[k]);
    }
  }

  /** Scope and traps, asked of a written page, are questions about the page; scope sees its host up to a colon. */
  lemma WrittenPage(rule: ScopeRule, page: Page)
    requires TextPage(page) && '[' !in page.host && ']' !in page.host
    ensures Covers(rule, Write(page)) <==> CoversHost(rule, BeforeColon(page.host))
    ensures Trap(Write(page)) == TrapIn(page.path, |page.params|)
  {
    TextIsWritable(page);
    WritePieces(page);
    HostReadsAgain(page.host, page.port);
    NoColonAtAll(page.host);
    LowerPrefix(page.host, Upto(page.host, ":"));
    ParseUndoesEncode(page.params);
    hide Pieces, Write, HostPort, Authority, Parse, EncodePairs, TrapIn, CoversHost, Writable, HostText, GoodPath, GoodParams, Lower;
  }

  lemma NoColonAtAll(host: string)
    ensures ':' !in host ==> BeforeColon(host) == host
  {
    if ':' !in host {
      NotFound(host, ':');
    }
  }

  ghost predicate BracketIn(host: string) {
    '[' in host || ']' in host
  }

  /**
    What becomes of any link whose canonical form is short enough to write: it
    raises exactly when a bracket has got into the host, and is taken exactly when
    the host, up to a colon, is in scope and the page is no trap.
  */
  lemma {:induction false} AdmitMeans(brackets: string -> bool, rule: ScopeRule, raw: string)
    requires Normalise(brackets, raw).Canonical?
    ensures PageOf(Pieces(raw)).Read?
    ensures var page := PageOf(Pieces(raw)).page;
      Admit(brackets, rule, raw) ==
        if BracketIn(page.host) then C.Raising
        else if CoversHost(rule, BeforeColon(page.host)) && TrapIn(page.path, |page.params|).None? then C.Taken(Write(page))
        else C.Refused
  {
    hide Pieces, PageOf, Write, TextPage, Covers, Trap, CoversHost, TrapIn, NotAPage, BadBrackets, Authority, HostText;
    var page := PageOf(Pieces(raw)).page;
    ReadIsText(raw);
    TextIsWritable(page);
    WritePieces(page);
    OneBracketAtMost(page);
    BracketsStay(brackets, page.host, page.port);
    if !BracketIn(page.host) {
      WrittenPage(rule, page);
    }
  }

  lemma OneBracketAtMost(page: Page)
    requires TextPage(page)
    ensures !('[' in page.host && ']' in page.host)
  {
  }

  /**
    When a link ends the crawl: exactly when normalising it raises, or when a
    bracket has got into the host it normalises to.
  */
  lemma {:induction false} AdmitRaises(brackets: string -> bool, rule: ScopeRule, raw: string)
    ensures Admit(brackets, rule, raw).Raising? <==>
      || Normalise(brackets, raw).Raises?
      || (Normalise(brackets, raw).Canonical? && PageOf(Pieces(raw)).Read? && BracketIn(PageOf(Pieces(raw)).page.host))
  {
    hide Normalise, PageOf, Pieces, Covers, Trap, Split;
    if Normalise(brackets, raw).Canonical? {
      AdmitMeans(brackets, rule, raw);
    }
  }

  /**
    Admission is idempotent as far as the canonical form is: what was admitted is
    its own form, and is admitted again as itself, exactly when its host stands alone.
  */
  lemma {:induction false} AdmittedIsFixed(brackets: string -> bool, rule: ScopeRule, raw: string)
    requires Admit(brackets, rule, raw).Taken?
    ensures PageOf(Pieces(raw)).Read?
    ensures var url := Admit(brackets, rule, raw).url;
      && (Normalise(brackets, url) == Canonical(url) <==> StandsAlone(PageOf(Pieces(raw)).page))
      && (StandsAlone(PageOf(Pieces(raw)).page) ==> Admit(brackets, rule, url) == C.Taken(url))
  {
    hide Normalise, Split, PageOf, Pieces, Covers, Trap, StandsAlone;
    CanonicalIsFixed(brackets, raw);
    hide Bracketed;
  }

  /** A link with a port beyond the range, whatever the site, and a location that stops after a bracket. */
  lemma LinksThatRaise(brackets: string -> bool, rule: ScopeRule)
    ensures Admit(brackets, rule, "http://example.com:99999/x") == C.Raising
    ensures Admit(brackets, rule, "http://[") == C.Raising
  {
    HighPortLink();
    LoneBracket();
    var page := Page("http", "example.com", 99999, "/x", []);
    hide Normalise, Pieces, GoodHost, GoodPath;
    PortBeyondRangeRaises(brackets, page);
    LoneBracketRaises(brackets);
  }

  lemma HighPortLink()
    ensures Write(Page("http", "example.com", 99999, "/x", [])) == "http://example.com:99999/x"
    ensures GoodHost("example.com") && GoodPath("/x")
  {
    FiveNines();
    ExampleIsGood();
    hide Show, GoodHost, GoodPath;
    HighPortText();
  }

  lemma FiveNines()
    ensures Show(99999) == "99999"
  {
    assert Show(9) == "9" && Show(99) == "99" && Show(999) == "999" && Show(9999) == "9999";
  }

  lemma ExampleIsGood()
    ensures GoodHost("example.com") && GoodPath("/x")
  {
    assert "example.com"[10] == 'm';
    assert Collapse("/x") == "/x" by {
      assert Collapse("x") == "x" && Collapse("") == "";
    }
    hide Collapse;
  }

  lemma HighPortText()
    ensures "http" + "://" + ("example.com" + ":" + "99999") + "/x" + "" == "http://example.com:99999/x"
  {
    assert "http" + "://" == "http://" && "example.com" + ":" + "99999" == "example.com:99999";
  }

  lemma LoneBracketText()
    ensures Free("http://[", BREAKS) && "http" + ":" + "//[" == "http://[" && "http://["[0] == 'h'
    ensures "//["[2..] == "[" && "//["[..2] == "//" && Upto("[", "/?#") == 1
  {
    assert Upto("", "/?#") == 0;
  }

  lemma LoneBracket()
    ensures Pieces("http://[").netloc == "["
  {
    LoneBracketText();
    hide SchemeOf, WithoutBreaks, LeftTrim, PathOf, Free, Upto;
    NoBreaksStay("http://[");
    NothingToTrim("http://[");
    SchemeReads("http", "//[");
  }

  lemma LoneBracketRaises(brackets: string -> bool)
    requires Pieces("http://[").netloc == "["
    ensures Normalise(brackets, "http://[") == Raises
  {
    PagesAreNotDropped("http://[");
    assert ']' !in "[" && "["[0] == '[';
    hide Pieces, NotAPage, PageOf;
  }

  /** One such link on a page ends a crawl of the site: nothing the page offers is queued. */
  lemma OneLinkEndsTheCrawl(brackets: string -> bool, rule: ScopeRule, site: C.Site, links: seq<string>, depth: nat)
    requires forall raw :: site.admit(raw) == Admit(brackets, rule, raw)
    requires "http://example.com:99999/x" in links || "http://[" in links
    ensures C.AnyRaises(site, links) && C.Offers(site, links, depth) == []
  {
    LinksThatRaise(brackets, rule);
    var k :| 0 <= k < |links| && links[k] in {"http://example.com:99999/x", "http://["};
    hide Admit;
    assert site.admit(links[k]).Raising?;
  }

  /** With this admission a crawl keeps to the site: every row but the homepage is some link's canonical form, in scope and no trap. */
  lemma {:induction false} CrawlStaysInScope(brackets: string -> bool, rule: ScopeRule, site: C.Site, rows: F.Rows, r: C.Record,
      seeds: set<string>, home: string, url: string)
    requires forall raw :: site.admit(raw) == Admit(brackets, rule, raw)
    requires C.LinksOk(rows, r, seeds) && C.Faithful(site, r) && C.Admissible(site, home, seeds)
    requires url in rows
    ensures url == home ||
      (Covers(rule, url) && Trap(url).None? && exists raw :: Normalise(brackets, raw) == Canonical(url))
  {
    hide Normalise, Covers, Trap, C.LinksOk, C.Faithful;
    C.RowsAreAdmitted(site, rows, r, seeds, url);
    if url != home {
      var raw :| site.admit(raw) == C.Taken(url);
      assert Normalise(brackets, raw) == Canonical(url);
    }
  }
}
