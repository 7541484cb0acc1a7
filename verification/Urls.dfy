/**
  What makes two URLs the same page (api/crawler/urls.py). `Split` is Python's
  `urlsplit`, up to the checks it makes inside square brackets, which are a
  parameter; letters are lower-cased as in ASCII.
*/
module Urls {
  import opened Ascii
  import opened ParamOrder
  import opened Prelude
  import opened Query

  const MAX_URL_LENGTH := 2048

  const TRACKING_PARAMS := {
    "utm_source", "utm_medium", "utm_campaign", "utm_term", "utm_content", "utm_id", "gclid", "gbraid", "wbraid",
    "fbclid", "msclkid", "mc_cid", "mc_eid", "ref", "_ga", "_gl", "yclid", "igshid", "si"
  }

  const NOT_PAGES := ["javascript:", "mailto:", "tel:", "data:", "#"]

  // ---- strings ------------------------------------------------------------

  function LowerChar(c: char): char {
    if 'A' <= c <= 'Z' then (c as int + 32) as char else c
  }

  function Lower(s: string): string {
    seq(|s|, i requires 0 <= i < |s| => LowerChar(s[i]))
  }

  /** The part of `s` before the first of `stops`, and where that is. */
  function Upto(s: string, stops: string): (n: nat)
    ensures n <= |s| && (n < |s| ==> s[n] in stops) && forall i :: 0 <= i < n ==> s[i] !in stops
  {
    if s == "" || s[0] in stops then 0 else 1 + Upto(s[1..], stops)
  }

  /** What follows the last `c`, or all of `s`. */
  function AfterLast(s: string, c: char): (r: string)
    ensures c !in r
    ensures c !in s ==> r == s
    ensures forall x :: x in r ==> x in s
  {
    if s == "" then "" else
      var r := AfterLast(s[1..], c);
      if c in s[1..] then r else if s[0] == c then r else s
  }

  function LeftTrim(s: string): string {
    if s != "" && s[0] <= ' ' then LeftTrim(s[1..]) else s
  }

  /** Tabs and line ends are taken out wherever they are. */
  function WithoutBreaks(s: string): (r: string)
    ensures forall i :: 0 <= i < |r| ==> r[i] !in "\t\r\n"
  {
    if s == "" then ""
    else if s[0] in "\t\r\n" then WithoutBreaks(s[1..])
    else [s[0]] + WithoutBreaks(s[1..])
  }

  function TrimDots(s: string): string {
    if s != "" && s[|s| - 1] == '.' then TrimDots(s[..|s| - 1]) else s
  }

  /** `re.sub(r"/{2,}", "/", s)`. */
  function Collapse(s: string): string {
    if s == "" then ""
    else if s[0] == '/' && |s| >= 2 && s[1] == '/' then Collapse(s[1..])
    else [s[0]] + Collapse(s[1..])
  }

  function Show(n: nat): (s: string)
    ensures s != "" && AllDigits(s)
  {
    if n < 10 then [('0' as int + n) as char] else Show(n / 10) + [('0' as int + n % 10) as char]
  }

  // ---- urlsplit -----------------------------------------------------------

  datatype Parts = Parts(scheme: string, netloc: string, path: string, query: string)

  datatype SplitResult = SplitRaises | Whole(parts: Parts)

  predicate SchemeChar(c: char) {
    IsLetter(c) || IsDigit(c) || c in "+-."
  }

  predicate HasScheme(u: string) {
    var i := Upto(u, ":");
    0 < i < |u| && IsLetter(u[0]) && forall k :: 0 <= k < i ==> SchemeChar(u[k])
  }

  /** The scheme, in lower case, and what follows its colon. */
  function SchemeOf(u: string): (string, string) {
    if HasScheme(u) then (Lower(u[..Upto(u, ":")]), u[Upto(u, ":") + 1..]) else ("", u)
  }

  /** The authority after two slashes, and what follows it. */
  function NetlocOf(rest: string): (string, string) {
    if |rest| >= 2 && rest[..2] == "//" then
      var n := Upto(rest[2..], "/?#");
      (rest[2..][..n], rest[2..][n..])
    else ("", rest)
  }

  function PathOf(rest: string): (string, string) {
    var main := rest[..Upto(rest, "#")];
    var n := Upto(main, "?");
    (main[..n], if n < |main| then main[n + 1..] else "")
  }

  /** Where a URL is cut. */
  function Pieces(url: string): Parts {
    var (scheme, rest) := SchemeOf(WithoutBreaks(LeftTrim(url)));
    var (netloc, tail) := NetlocOf(rest);
    var (path, query) := PathOf(tail);
    Parts(scheme, netloc, path, query)
  }

  /** Square brackets that `urlsplit` raises on: one without the other, or around what is no IP literal. */
  predicate BadBrackets(brackets: string -> bool, netloc: string) {
    ('[' in netloc) != (']' in netloc) || ('[' in netloc && !brackets(netloc))
  }

  function Split(brackets: string -> bool, url: string): SplitResult {
    if BadBrackets(brackets, Pieces(url).netloc) then SplitRaises else Whole(Pieces(url))
  }

  /** `hostname`, before lower-casing, and the text of the port. */
  function HostPort(netloc: string): (string, string) {
    HostPortOf(AfterLast(netloc, '@'))
  }

  function HostPortOf(info: string): (string, string) {
    var b := Upto(info, "[");
    if b < |info| then
      var inner := info[b + 1..];
      var e := Upto(inner, "]");
      var after := if e < |inner| then inner[e + 1..] else "";
      var c := Upto(after, ":");
      (inner[..e], if c < |after| then after[c + 1..] else "")
    else
      var c := Upto(info, ":");
      (info[..c], if c < |info| then info[c + 1..] else "")
  }

  // ---- normalise ----------------------------------------------------------

  datatype Outcome = Raises | Dropped | Canonical(url: string)

  predicate StartsWith(s: string, prefix: string) {
    |prefix| <= |s| && s[..|prefix|] == prefix
  }

  predicate NotAPage(url: string) {
    url == "" || exists k :: 0 <= k < |NOT_PAGES| && StartsWith(url, NOT_PAGES[k])
  }

  predicate IsTracking(p: Param) {
    Lower(p.0) in TRACKING_PARAMS
  }

  function Kept(params: seq<Param>): seq<Param> {
    if params == [] then [] else (if IsTracking(params[0]) then [] else [params[0]]) + Kept(params[1..])
  }

  /** A port that is written out: 0 is read as no port, and so are the defaults. */
  function PortShown(scheme: string, port: nat): nat {
    if (scheme == "http" && port == 80) || (scheme == "https" && port == 443) then 0 else port
  }

  /** What identifies a page. */
  datatype Page = Page(scheme: string, host: string, port: nat, path: string, params: seq<Param>)

  datatype Reading = ReadRaises | NoPage | Read(page: Page)

  /** The port a text stands for: none is 0, and anything but a number up to 65535 raises. */
  function PortValue(text: string): Option<nat> {
    if text == "" then Some(0)
    else if AllDigits(text) && DigitsValue(text) <= 65535 then Some(DigitsValue(text))
    else None
  }

  function HostKept(host: string): string {
    TrimDots(Lower(host))
  }

  function PathKept(path: string): string {
    var collapsed := Collapse(path);
    if collapsed == "" then "/" else collapsed
  }

  function ParamsKept(query: string): seq<Param> {
    Sort(Kept(Parse(query)))
  }

  /** What the parts of a URL say about the page it names. */
  function PageOf(parts: Parts): Reading {
    var (host, port) := HostPort(parts.netloc);
    if parts.scheme != "http" && parts.scheme != "https" then NoPage
    else if host == "" then NoPage
    else match PortValue(port)
      case None => ReadRaises
      case Some(value) =>
        Read(Page(parts.scheme, HostKept(host), PortShown(parts.scheme, value), PathKept(parts.path), ParamsKept(parts.query)))
  }

  function Authority(host: string, port: nat): string {
    if port == 0 then host else host + ":" + Show(port)
  }

  function QueryPart(params: seq<Param>): string {
    if params == [] then "" else "?" + EncodePairs(params)
  }

  /** `urlunsplit`, for a page. */
  function Write(page: Page): string {
    page.scheme + "://" + Authority(page.host, page.port) + page.path + QueryPart(page.params)
  }

  /** `normalise` without a base. */
  function Normalise(brackets: string -> bool, url: string): Outcome {
    if NotAPage(url) then Dropped else
      match Split(brackets, url)
      case SplitRaises => Raises
      case Whole(parts) =>
        match PageOf(parts)
        case ReadRaises => Raises
        case NoPage => Dropped
        case Read(page) => if |Write(page)| <= MAX_URL_LENGTH then Canonical(Write(page)) else Dropped
  }

  // ---- what a page read from a URL looks like -----------------------------

  const BREAKS := "\t\r\n"
  const NETLOC_STOPS := "/?#\t\r\n"
  const TEXT_STOPS := "/?#@\t\r\n"
  const AUTHORITY_STOPS := "/?#@[]\t\r\n"
  const QUERY_STOPS := "#\t\r\n"
  const HOST_STOPS := "/?#@:[]\t\r\n"
  const PATH_STOPS := "?#\t\r\n"

  ghost predicate Free(s: string, stops: string) {
    forall i :: 0 <= i < |s| ==> s[i] !in stops
  }

  ghost predicate GoodHost(h: string) {
    Free(h, HOST_STOPS) && Lower(h) == h && TrimDots(h) == h
  }

  ghost predicate GoodPath(p: string) {
    p != "" && p[0] == '/' && Free(p, PATH_STOPS) && Collapse(p) == p
  }

  ghost predicate GoodParams(params: seq<Param>) {
    Ordered(params) && forall i :: 0 <= i < |params| ==> !IsTracking(params[i])
  }

  /** Enough for the page's parts to be found again: nothing in its authority ends it. */
  ghost predicate Writable(page: Page) {
    page.scheme in {"http", "https"} && Free(page.host, NETLOC_STOPS) && GoodPath(page.path)
  }

  /** What any host that was read is like; colons and a bracket can come out of square brackets or a user name. */
  ghost predicate HostText(h: string) {
    Free(h, TEXT_STOPS) && Lower(h) == h && TrimDots(h) == h && !('[' in h && ']' in h)
  }

  /** A page in canonical form, but for its host. */
  ghost predicate TextPage(page: Page) {
    && page.scheme in {"http", "https"} && HostText(page.host) && GoodPath(page.path) && GoodParams(page.params)
    && page.port <= 65535 && PortShown(page.scheme, page.port) == page.port
  }

  ghost predicate GoodPage(page: Page) {
    TextPage(page) && GoodHost(page.host)
  }

  lemma {:induction false} LowerTwice(s: string)
    ensures Lower(Lower(s)) == Lower(s)
  {
  }

  lemma LowerKeeps(s: string, c: char)
    requires !IsLetter(c)
    ensures c in Lower(s) <==> c in s
  {
    if c in s {
      var i :| 0 <= i < |s| && s[i] == c;
      assert Lower(s)[i] == c;
    }
    if c in Lower(s) {
      var i :| 0 <= i < |s| && Lower(s)[i] == c;
      assert s[i] == c;
    }
  }

  lemma {:induction false} TrimDotsShape(s: string)
    ensures TrimDots(s) <= s && TrimDots(TrimDots(s)) == TrimDots(s)
  {
    if s != "" && s[|s| - 1] == '.' {
      TrimDotsShape(s[..|s| - 1]);
    }
  }

  /** Lower-casing and trimming take nothing but letters and dots away, and put only letters in. */
  lemma HostKeeps(raw: string, stops: string)
    requires Free(raw, stops) && forall i :: 0 <= i < |stops| ==> !IsLetter(stops[i])
    ensures Free(HostKept(raw), stops)
  {
    TrimDotsShape(Lower(raw));
    var h := HostKept(raw);
    forall i | 0 <= i < |h|
      ensures h[i] !in stops
    {
      assert h[i] == Lower(raw)[i];
      if !IsLetter(h[i]) {
        assert raw[i] == h[i];
      }
    }
  }

  lemma HostSettles(raw: string)
    ensures Lower(HostKept(raw)) == HostKept(raw) && TrimDots(HostKept(raw)) == HostKept(raw)
    ensures forall c :: c in HostKept(raw) && !IsLetter(c) ==> c in raw
  {
    LowerTwice(raw);
    TrimDotsShape(Lower(raw));
    var h := TrimDots(Lower(raw));
    hide TrimDots;
    assert forall i :: 0 <= i < |h| ==> h[i] == Lower(raw)[i];
    assert Lower(h) == h by {
      assert forall i :: 0 <= i < |h| ==> LowerChar(h[i]) == Lower(Lower(raw))[i];
    }
    forall c | c in h && !IsLetter(c)
      ensures c in raw
    {
      LowerKeeps(raw, c);
    }
  }

  ghost predicate NoDoubledSlash(s: string) {
    forall i :: 0 <= i < |s| - 1 ==> !(s[i] == s[i + 1] == '/')
  }

  lemma {:induction false} CollapseShape(s: string)
    ensures (s == "" <==> Collapse(s) == "") && (s != "" ==> Collapse(s)[0] == s[0])
    ensures forall stops :: Free(s, stops) ==> Free(Collapse(s), stops)
    ensures Collapse(Collapse(s)) == Collapse(s)
    ensures NoDoubledSlash(Collapse(s))
  {
    if s != "" {
      CollapseShape(s[1..]);
      assert forall stops :: Free(s, stops) ==> Free(s[1..], stops);
      if !(s[0] == '/' && |s| >= 2 && s[1] == '/') {
        assert ([s[0]] + Collapse(s[1..]))[1..] == Collapse(s[1..]);
        assert |s| >= 2 ==> Collapse(s[1..])[0] == s[1];
      }
    }
  }

  /** What has no doubled slash stays as it is. */
  lemma {:induction false} SingleSlashesStay(s: string)
    requires NoDoubledSlash(s)
    ensures Collapse(s) == s
  {
    if s != "" {
      SingleSlashesStay(s[1..]);
    }
  }

  /** A slash more or less next to another makes no difference. */
  lemma {:induction false} SlashIsForgotten(a: string, b: string)
    ensures Collapse(a + "//" + b) == Collapse(a + "/" + b)
  {
    var long, short := a + "//" + b, a + "/" + b;
    if a == "" {
      assert long[1..] == short;
    } else {
      SlashIsForgotten(a[1..], b);
      assert long[1..] == a[1..] + "//" + b && short[1..] == a[1..] + "/" + b;
      assert |long| >= 2 && |short| >= 2 && long[1] == short[1];
    }
  }

  lemma PathIsGood(raw: string)
    requires Free(raw, PATH_STOPS) && (raw == "" || raw[0] == '/')
    ensures GoodPath(PathKept(raw))
  {
    CollapseShape(raw);
    assert Collapse("/") == "/" by {
      assert Collapse("") == "";
    }
  }

  lemma {:induction false} KeptAreUntracked(params: seq<Param>)
    ensures forall i :: 0 <= i < |Kept(params)| ==> !IsTracking(Kept(params)[i])
  {
    if params != [] {
      KeptAreUntracked(params[1..]);
    }
  }

  /** How often a parameter stays: as often as it was there, but never when it tracks. */
  lemma {:induction false} KeptCounts(params: seq<Param>, p: Param)
    ensures multiset(Kept(params))[p] == if Lower(p.0) in TRACKING_PARAMS then 0 else multiset(params)[p]
  {
    if params != [] {
      KeptCounts(params[1..], p);
      var first := if IsTracking(params[0]) then [] else [params[0]];
      assert Kept(params) == first + Kept(params[1..]);
      assert params == [params[0]] + params[1..];
      hide Kept, Lower;
    }
  }

  /**
    The parameters of a page are those of the URL's query, each as often as it
    stands there, without the tracking ones and whatever stands around them.
  */
  lemma PageParams(parts: Parts, p: Param)
    requires PageOf(parts).Read?
    ensures multiset(PageOf(parts).page.params)[p] ==
      if Lower(p.0) in TRACKING_PARAMS then 0 else multiset(Parse(parts.query))[p]
    ensures Ordered(PageOf(parts).page.params)
  {
    hide HostPort, PortValue, HostKept, PathKept, Parse, Sort, Kept, Ordered;
    SortOrders(Kept(Parse(parts.query)));
    KeptCounts(Parse(parts.query), p);
  }

  lemma ParamsAreGood(query: string)
    ensures GoodParams(ParamsKept(query))
  {
    var params := Parse(query);
    KeptAreUntracked(params);
    SortOrders(Kept(params));
    var sorted := Sort(Kept(params));
    hide IsTracking, Sort, Kept, Ordered, Parse;
    forall i | 0 <= i < |sorted|
      ensures !IsTracking(sorted[i])
    {
      assert sorted[i] in multiset(sorted);
      assert sorted[i] in Kept(params);
    }
  }

  /** Everything `urlsplit` hands on comes from between the characters it cuts at. */
  lemma PiecesShape(url: string)
    ensures Free(Pieces(url).netloc, NETLOC_STOPS) && Free(Pieces(url).path, PATH_STOPS)
    ensures Pieces(url).netloc != "" ==> Pieces(url).path == "" || Pieces(url).path[0] == '/'
  {
    var u := WithoutBreaks(LeftTrim(url));
    assert Free(u, BREAKS);
    var (scheme, rest) := SchemeOf(u);
    assert Free(rest, BREAKS);
    var (netloc, tail) := NetlocOf(rest);
    NetlocShape(rest);
    hide SchemeOf, NetlocOf, WithoutBreaks;
    PathShape(tail);
    hide PathOf;
    assert netloc != "" && Pieces(url).path != "" ==> tail != "" && tail[0] in "/?#";
  }

  lemma NetlocShape(rest: string)
    requires Free(rest, BREAKS)
    ensures var (netloc, tail) := NetlocOf(rest);
      Free(netloc, NETLOC_STOPS) && Free(tail, BREAKS) && (netloc != "" && tail != "" ==> tail[0] in "/?#")
  {
  }

  lemma PathShape(tail: string)
    requires Free(tail, BREAKS)
    ensures var (path, query) := PathOf(tail);
      Free(path, PATH_STOPS) && (path != "" ==> tail != "" && path[0] == tail[0])
  {
  }

  predicate Bracketed(parts: Parts) {
    '[' in parts.netloc || ']' in parts.netloc
  }

  lemma NotFound(s: string, c: char)
    requires c !in s
    ensures Upto(s, [c]) == |s|
  {
    assert forall k :: 0 <= k < |s| ==> s[k] in s;
    if Upto(s, [c]) < |s| {
      assert false;
    }
  }

  lemma Found(s: string, c: char)
    requires c in s
    ensures Upto(s, [c]) < |s|
  {
    var k :| 0 <= k < |s| && s[k] == c;
    assert s[k] in [c];
  }

  lemma HostShape(netloc: string)
    requires Free(netloc, NETLOC_STOPS)
    ensures var host := HostPort(netloc).0;
      && Free(host, TEXT_STOPS) && !('[' in host && ']' in host)
      && ('[' !in netloc && ']' !in netloc ==> Free(host, HOST_STOPS))
  {
    var info := AfterLast(netloc, '@');
    var host := HostPort(netloc).0;
    assert forall x :: x in host ==> x in info && x in netloc && x != '@';
    assert '[' in info ==> ']' !in host by {
      if '[' in info {
        Found(info, '[');
      }
    }
    assert '[' !in netloc ==> ':' !in host by {
      if '[' !in netloc {
        NotFound(info, '[');
      }
    }
    forall i | 0 <= i < |host|
      ensures host[i] !in TEXT_STOPS
    {
      assert host[i] in host;
      var k :| 0 <= k < |netloc| && netloc[k] == host[i];
      assert netloc[k] !in NETLOC_STOPS;
    }
    assert forall i :: 0 <= i < |host| ==> host[i] in host;
  }

  /** What is read is in canonical form, part by part, but for what square brackets let into a host. */
  lemma ReadIsText(url: string)
    requires PageOf(Pieces(url)).Read?
    ensures TextPage(PageOf(Pieces(url)).page)
    ensures !Bracketed(Pieces(url)) ==> GoodPage(PageOf(Pieces(url)).page)
  {
    var parts := Pieces(url);
    hide GoodPath, GoodParams, HostPort, PathKept, ParamsKept, Pieces, PortValue;
    PortIsSmall(HostPort(parts.netloc).1);
    PiecesShape(url);
    HostNeedsNetloc(parts.netloc);
    HostShape(parts.netloc);
    HostIsText(HostPort(parts.netloc).0);
    PathIsGood(parts.path);
    ParamsAreGood(parts.query);
    hide HostKept, Free, Lower, TrimDots;
  }

  lemma HostIsText(raw: string)
    requires Free(raw, TEXT_STOPS) && !('[' in raw && ']' in raw)
    ensures HostText(HostKept(raw))
    ensures Free(raw, HOST_STOPS) ==> GoodHost(HostKept(raw))
  {
    assert forall i :: 0 <= i < |TEXT_STOPS| ==> !IsLetter(TEXT_STOPS[i]);
    assert forall i :: 0 <= i < |HOST_STOPS| ==> !IsLetter(HOST_STOPS[i]);
    hide Lower, TrimDots, HostKept;
    HostKeeps(raw, TEXT_STOPS);
    HostSettles(raw);
    if Free(raw, HOST_STOPS) {
      HostKeeps(raw, HOST_STOPS);
    }
  }

  lemma PortIsSmall(text: string)
    ensures PortValue(text).Some? ==> PortValue(text).value <= 65535
  {
    hide DigitsValue, AllDigits;
  }

  lemma HostNeedsNetloc(netloc: string)
    ensures netloc == "" ==> HostPort(netloc).0 == ""
  {
  }

  // ---- reading back what was written --------------------------------------

  lemma UptoConcat(a: string, b: string, stops: string)
    requires Free(a, stops) && (b == "" || b[0] in stops)
    ensures Upto(a + b, stops) == |a| && (a + b)[..|a|] == a && (a + b)[|a|..] == b
  {
    assert forall i :: 0 <= i < |a| ==> (a + b)[i] == a[i] && (a + b)[i] !in stops;
    assert |a| < |a + b| ==> (a + b)[|a|] == b[0];
  }

  lemma {:induction false} NoBreaksStay(s: string)
    requires Free(s, BREAKS)
    ensures WithoutBreaks(s) == s
  {
    if s != "" {
      assert s[0] !in BREAKS;
      NoBreaksStay(s[1..]);
    }
  }

  lemma {:induction false} ShowReads(n: nat)
    ensures DigitsValue(Show(n)) == n
  {
    if n < 10 {
      assert Show(n)[..0] == "";
    } else {
      ShowReads(n / 10);
      assert Show(n)[..|Show(n)| - 1] == Show(n / 10);
    }
  }

  lemma FreeConcat(a: string, b: string, stops: string)
    requires Free(a, stops) && Free(b, stops)
    ensures Free(a + b, stops)
  {
  }

  lemma {:induction false} EncodedIsFree(params: seq<Param>)
    ensures Free(EncodePairs(params), QUERY_STOPS) && (params != [] ==> EncodePairs(params) != "")
  {
    if params != [] {
      PairIsFree(params[0]);
      if |params| > 1 {
        EncodedIsFree(params[1..]);
      }
      hide EncodePair;
    }
  }

  lemma PairIsFree(p: Param)
    ensures Free(EncodePair(p), QUERY_STOPS) && EncodePair(p) != ""
  {
    QuoteIsSafe(p.0);
    QuoteIsSafe(p.1);
    hide Quote;
    SafeIsFree(Quote(p.0));
    SafeIsFree(Quote(p.1));
  }

  lemma SafeIsFree(s: string)
    requires AllSafe(s)
    ensures Free(s, QUERY_STOPS)
  {
  }

  lemma AuthorityStops(a: string)
    requires Free(a, AUTHORITY_STOPS)
    ensures Free(a, "/?#") && Free(a, BREAKS) && '@' !in a && '[' !in a && ']' !in a
  {
  }

  lemma NetlocStops(a: string)
    requires Free(a, NETLOC_STOPS)
    ensures Free(a, "/?#") && Free(a, BREAKS)
  {
  }

  lemma PathStops(path: string)
    requires Free(path, PATH_STOPS)
    ensures Free(path, "#") && Free(path, "?") && Free(path, BREAKS)
  {
  }

  lemma QueryStops(query: string)
    requires Free(query, QUERY_STOPS)
    ensures Free("?" + query, "#") && Free("?" + query, BREAKS)
  {
  }

  function PortPart(port: nat): string {
    if port == 0 then "" else ":" + Show(port)
  }

  lemma AuthorityIs(host: string, port: nat)
    ensures Authority(host, port) == host + PortPart(port)
  {
    if port == 0 {
      assert host + "" == host;
    } else {
      assert host + ":" + Show(port) == host + (":" + Show(port));
    }
  }

  lemma AuthorityIsFree(host: string, port: nat, stops: string)
    requires Free(host, stops) && forall i :: 0 <= i < |stops| ==> stops[i] != ':' && !IsDigit(stops[i])
    ensures Free(Authority(host, port), stops)
  {
    AuthorityIs(host, port);
    assert Free(PortPart(port), stops);
    hide Free, Authority, PortPart;
    FreeConcat(host, PortPart(port), stops);
  }

  lemma PathReads(path: string, params: seq<Param>)
    requires GoodPath(path)
    ensures PathOf(path + QueryPart(params)) == (path, EncodePairs(params))
  {
    hide GoodPath, Upto, Free;
    var q := QueryPart(params);
    var tail := path + q;
    EncodedIsFree(params);
    GoodPathStops(path);
    QueryStops(EncodePairs(params));
    QueryPartIs(params);
    hide EncodePairs, QueryPart;
    FreeConcat(path, q, "#");
    NotFoundFree(tail, "#");
    UptoConcat(path, q, "?");
    assert tail[..|tail|] == tail && (q != "" ==> tail[|path| + 1..] == q[1..]);
  }

  lemma GoodPathStops(path: string)
    requires GoodPath(path)
    ensures Free(path, "#") && Free(path, "?") && Free(path, BREAKS)
  {
    PathStops(path);
  }

  lemma QueryPartIs(params: seq<Param>)
    ensures params == [] ==> QueryPart(params) == "" == EncodePairs(params)
    ensures params != [] ==>
      QueryPart(params) == "?" + EncodePairs(params) && QueryPart(params)[0] == '?' && QueryPart(params)[1..] == EncodePairs(params)
    ensures Free("?" + EncodePairs(params), "#") ==> Free(QueryPart(params), "#")
  {
  }

  lemma NotFoundFree(s: string, stops: string)
    requires Free(s, stops)
    ensures Upto(s, stops) == |s|
  {
    if Upto(s, stops) < |s| {
      assert false;
    }
  }

  lemma NetlocReads(authority: string, tail: string)
    requires Free(authority, "/?#") && tail != "" && tail[0] == '/'
    ensures NetlocOf("//" + authority + tail) == (authority, tail)
  {
    UptoConcat(authority, tail, "/?#");
    hide Upto, Free;
    var rest := "//" + authority + tail;
    assert rest == "//" + (authority + tail) && rest[2..] == authority + tail && rest[..2] == "//";
  }

  lemma SchemeReads(scheme: string, rest: string)
    requires scheme in {"http", "https"}
    ensures SchemeOf(scheme + ":" + rest) == (scheme, rest)
  {
    var u := scheme + ":" + rest;
    assert u == scheme + (":" + rest);
    assert Free(scheme, ":") by {
      assert scheme == "http" || scheme == "https";
    }
    UptoConcat(scheme, ":" + rest, ":");
    assert u[|scheme|..] == ":" + rest && u[|scheme| + 1..] == rest;
    assert Lower(scheme) == scheme;
    assert forall k :: 0 <= k < |scheme| ==> u[k] == scheme[k] && SchemeChar(scheme[k]);
  }

  lemma WriteIsFree(page: Page)
    requires Writable(page)
    ensures Free(Write(page), BREAKS) && Write(page) != "" && Write(page)[0] == 'h'
  {
    AuthorityIsFree(page.host, page.port, NETLOC_STOPS);
    NetlocStops(Authority(page.host, page.port));
    PathStops(page.path);
    EncodedIsFree(page.params);
    QueryStops(EncodePairs(page.params));
    SchemeIsFree(page.scheme);
    assert Free(QueryPart(page.params), BREAKS);
    hide Free, EncodePairs, Authority, QueryPart, GoodHost, GoodPath, GoodParams;
    var start := page.scheme + "://";
    FreeConcat(start, Authority(page.host, page.port), BREAKS);
    FreeConcat(start + Authority(page.host, page.port), page.path, BREAKS);
    FreeConcat(start + Authority(page.host, page.port) + page.path, QueryPart(page.params), BREAKS);
  }

  lemma SchemeIsFree(scheme: string)
    requires scheme in {"http", "https"}
    ensures Free(scheme + "://", BREAKS) && scheme[0] == 'h'
  {
  }

  lemma PagesAreNotDropped(url: string)
    requires url != "" && url[0] == 'h'
    ensures !NotAPage(url)
  {
    forall k | 0 <= k < |NOT_PAGES|
      ensures !StartsWith(url, NOT_PAGES[k])
    {
      assert NOT_PAGES[k][0] != 'h';
      assert |NOT_PAGES[k]| <= |url| ==> url[..|NOT_PAGES[k]|][0] == url[0];
    }
  }

  function PartsOf(page: Page): Parts {
    Parts(page.scheme, Authority(page.host, page.port), page.path, EncodePairs(page.params))
  }

  /** Cutting a written page finds its parts again. */
  lemma WritePieces(page: Page)
    requires Writable(page)
    ensures Pieces(Write(page)) == PartsOf(page)
  {
    hide SchemeOf, NetlocOf, PathOf, WithoutBreaks, Authority, QueryPart, LeftTrim, Free, GoodPath;
    var authority, tail := Authority(page.host, page.port), page.path + QueryPart(page.params);
    var u := Write(page);
    WriteIsFree(page);
    NoBreaksStay(u);
    NothingToTrim(u);
    Regrouped(page, authority, tail);
    SchemeReads(page.scheme, "//" + authority + tail);
    AuthorityIsFree(page.host, page.port, NETLOC_STOPS);
    NetlocStops(authority);
    PathStartsTail(page.path, QueryPart(page.params));
    NetlocReads(authority, tail);
    PathReads(page.path, page.params);
  }

  lemma NothingToTrim(u: string)
    requires u != "" && u[0] == 'h'
    ensures LeftTrim(u) == u
  {
  }

  lemma Regrouped(page: Page, authority: string, tail: string)
    requires authority == Authority(page.host, page.port) && tail == page.path + QueryPart(page.params)
    ensures Write(page) == page.scheme + ":" + ("//" + authority + tail)
  {
    hide Authority, QueryPart;
    assert "://" == ":" + "//";
  }

  lemma PathStartsTail(path: string, q: string)
    requires GoodPath(path)
    ensures path + q != "" && (path + q)[0] == '/'
  {
  }

  lemma ParamsRead(params: seq<Param>)
    requires GoodParams(params)
    ensures ParamsKept(EncodePairs(params)) == params
  {
    ParseUndoesEncode(params);
    KeptAll(params);
    SortForgetsOrder(params, params);
    hide EncodePairs, Parse, Kept, Sort;
  }

  lemma PortReads(port: nat)
    requires port <= 65535
    ensures PortValue(if port == 0 then "" else Show(port)) == Some(port)
  {
    ShowReads(port);
    hide Show, DigitsValue;
  }

  lemma {:induction false} KeptAll(params: seq<Param>)
    requires forall i :: 0 <= i < |params| ==> !IsTracking(params[i])
    ensures Kept(params) == params
  {
    if params != [] {
      KeptAll(params[1..]);
      assert params == [params[0]] + params[1..];
    }
  }

  lemma TextIsWritable(page: Page)
    requires TextPage(page)
    ensures Writable(page)
  {
    hide GoodPath, GoodParams, Lower, TrimDots;
  }

  // ---- the main results ---------------------------------------------------

  /** A port that `int` reads and the range check lets through: zeros, then a number of at most 65535. */
  ghost predicate IsPort(text: string) {
    exists zeros: nat, n: nat :: n <= 65535 && text == Zeros(zeros) + Show(n)
  }

  function Zeros(n: nat): (s: string)
    ensures |s| == n && forall i :: 0 <= i < n ==> s[i] == '0'
  {
    seq(n, _ => '0')
  }

  lemma {:induction false} ZerosAddNothing(zeros: nat, digits: string)
    requires AllDigits(digits)
    ensures AllDigits(Zeros(zeros) + digits) && DigitsValue(Zeros(zeros) + digits) == DigitsValue(digits)
  {
    var s := Zeros(zeros) + digits;
    if digits != "" {
      ZerosAddNothing(zeros, digits[..|digits| - 1]);
      assert s[..|s| - 1] == Zeros(zeros) + digits[..|digits| - 1];
    } else if zeros > 0 {
      ZerosAddNothing(zeros - 1, digits);
      assert s[..|s| - 1] == Zeros(zeros - 1) + digits;
    }
  }

  lemma {:induction false} DigitsAreZerosAndANumber(text: string) returns (zeros: nat)
    requires AllDigits(text) && text != ""
    ensures text == Zeros(zeros) + Show(DigitsValue(text))
  {
    var init, last := text[..|text| - 1], text[|text| - 1] as int - '0' as int;
    if init == "" {
      zeros := 0;
      assert text == Zeros(0) + Show(last);
    } else {
      zeros := DigitsAreZerosAndANumber(init);
      var n := DigitsValue(init);
      assert DigitsValue(text) == 10 * n + last;
      if n == 0 {
        zeros := zeros + 1;
        assert init == Zeros(zeros);
        assert text == Zeros(zeros) + Show(last);
      } else {
        assert Show(10 * n + last) == Show(n) + [text[|text| - 1]];
        assert text == init + [text[|text| - 1]] == Zeros(zeros) + Show(10 * n + last);
      }
    }
  }

  lemma PortMeans(text: string)
    ensures PortValue(text).None? <==> text != "" && !IsPort(text)
  {
    hide Show, Zeros, DigitsValue, AllDigits;
    if text != "" && AllDigits(text) && DigitsValue(text) <= 65535 {
      var zeros := DigitsAreZerosAndANumber(text);
    }
    if zeros: nat, n: nat :| n <= 65535 && text == Zeros(zeros) + Show(n) {
      ZerosAddNothing(zeros, Show(n));
      ShowReads(n);
    }
  }

  /** `kept` is `raw` in lower case, without the dots at its end. */
  ghost predicate Trimmed(raw: string, kept: string) {
    && |kept| <= |raw| && (kept != "" ==> kept[|kept| - 1] != '.')
    && (forall i :: 0 <= i < |kept| ==> kept[i] as int == raw[i] as int + if 'A' <= raw[i] <= 'Z' then 32 else 0)
    && (forall i :: |kept| <= i < |raw| ==> raw[i] == '.')
  }

  lemma {:induction false} DotsGo(s: string)
    ensures TrimDots(s) <= s && (TrimDots(s) != "" ==> TrimDots(s)[|TrimDots(s)| - 1] != '.')
    ensures forall i :: |TrimDots(s)| <= i < |s| ==> s[i] == '.'
  {
    if s != "" && s[|s| - 1] == '.' {
      var init := s[..|s| - 1];
      DotsGo(init);
      assert forall i :: 0 <= i < |init| ==> init[i] == s[i];
    }
  }

  lemma HostMeans(raw: string)
    ensures Trimmed(raw, HostKept(raw))
  {
    DotsGo(Lower(raw));
    hide TrimDots;
    assert forall i :: 0 <= i < |raw| ==> (Lower(raw)[i] == '.' <==> raw[i] == '.');
  }

  /** The port a page keeps of the text of one: none of an empty text, of zeros, or of the scheme's own number. */
  ghost predicate KeptPort(scheme: string, text: string, port: nat) {
    if port == 0 then
      || text == ""
      || exists zeros: nat, n: nat ::
        text == Zeros(zeros) + Show(n) && (n == 0 || (scheme == "http" && n == 80) || (scheme == "https" && n == 443))
    else
      && (exists zeros: nat :: text == Zeros(zeros) + Show(port))
      && !(scheme == "http" && port == 80) && !(scheme == "https" && port == 443) && port <= 65535
  }

  lemma PortIsKept(scheme: string, text: string)
    requires PortValue(text).Some?
    ensures KeptPort(scheme, text, PortShown(scheme, PortValue(text).value))
  {
    if text != "" {
      var zeros := DigitsAreZerosAndANumber(text);
      hide Show, Zeros, DigitsValue, AllDigits;
      var n := DigitsValue(text);
      assert text == Zeros(zeros) + Show(n);
    }
  }

  /**
    What a page is of the parts of its URL: there is one exactly for http and
    https with a host and a good port; the scheme, the host in lower case without
    dots at its end, the port unless it goes without saying, and the path with
    single slashes, or one slash.
  */
  lemma {:induction false} PageMeans(parts: Parts)
    ensures var (host, port) := HostPort(parts.netloc);
      && (PageOf(parts).Read? <==> parts.scheme in {"http", "https"} && host != "" && (port == "" || IsPort(port)))
      && (PageOf(parts).ReadRaises? <==> parts.scheme in {"http", "https"} && host != "" && port != "" && !IsPort(port))
      && (PageOf(parts).Read? ==>
            var page := PageOf(parts).page;
            && page.scheme == parts.scheme && Trimmed(host, page.host) && KeptPort(parts.scheme, port, page.port)
            && page.path == if parts.path == "" then "/" else Collapse(parts.path))
  {
    var (host, port) := HostPort(parts.netloc);
    PortMeans(port);
    HostMeans(host);
    CollapseShape(parts.path);
    if PortValue(port).Some? {
      PortIsKept(parts.scheme, port);
    }
    hide HostPort, HostKept, Trimmed, Collapse, ParamsKept, PortShown, PortValue, KeptPort, IsPort;
  }

  /** A script, an address, a number, data or a place in the same page. */
  ghost predicate NamesNoPage(url: string, rest: string) {
    url in {"javascript:" + rest, "mailto:" + rest, "tel:" + rest, "data:" + rest, "#" + rest}
  }

  /** The links that name no page, whatever follows. */
  lemma NotPagesAre(url: string)
    ensures NotAPage(url) <==> url == "" || exists rest: string :: NamesNoPage(url, rest)
  {
    if url != "" && NotAPage(url) {
      var k :| 0 <= k < |NOT_PAGES| && StartsWith(url, NOT_PAGES[k]);
      var rest := url[|NOT_PAGES[k]|..];
      assert url == NOT_PAGES[k] + rest;
      assert NamesNoPage(url, rest);
    }
    if rest: string :| NamesNoPage(url, rest) {
      assert StartsWith(url, NOT_PAGES[0]) || StartsWith(url, NOT_PAGES[1]) || StartsWith(url, NOT_PAGES[2]) ||
             StartsWith(url, NOT_PAGES[3]) || StartsWith(url, NOT_PAGES[4]);
    }
  }

  /** Square brackets that are not a pair, or not around an IP literal. */
  ghost predicate StrayBrackets(brackets: string -> bool, netloc: string) {
    ('[' in netloc <==> ']' !in netloc) || ('[' in netloc && ']' in netloc && !brackets(netloc))
  }

  /**
    What `normalise` answers. It raises on brackets that are not around an IP
    literal, and for an http or https URL with a host on a port that is there and
    is no number up to 65535; a link that names a page gets the page, written out
    in at most 2048 characters; everything else is dropped.
  */
  lemma NormaliseAnswers(brackets: string -> bool, url: string)
    ensures var parts := Pieces(url);
      var (host, port) := HostPort(parts.netloc);
      var named := !NotAPage(url) && parts.scheme in {"http", "https"} && host != "";
      && (Normalise(brackets, url).Raises? <==>
            !NotAPage(url) && (StrayBrackets(brackets, parts.netloc) || (named && port != "" && !IsPort(port))))
      && (Normalise(brackets, url).Canonical? <==>
            && named && !StrayBrackets(brackets, parts.netloc) && (port == "" || IsPort(port))
            && PageOf(parts).Read? && |Write(PageOf(parts).page)| <= 2048)
      && (Normalise(brackets, url).Canonical? ==> Normalise(brackets, url).url == Write(PageOf(parts).page))
  {
    PageMeans(Pieces(url));
    hide Pieces, HostPort, PageOf, NotAPage, IsPort, Write, Trimmed, Collapse, KeptPort;
  }

  /** A port beyond the range: for any good host, path and parameters the URL raises. */
  lemma PortBeyondRangeRaises(brackets: string -> bool, page: Page)
    requires page.scheme in {"http", "https"} && GoodHost(page.host) && page.host != "" && GoodPath(page.path)
    requires page.port > 65535
    ensures Normalise(brackets, Write(page)) == Raises
  {
    GoodHostIsFree(page.host);
    HighPort(page.host, page.port);
    hide GoodHost, GoodPath, Free, Authority, HostPort, Pieces, BadBrackets, PortValue, PathKept, ParamsKept, HostKept, EncodePairs;
    WriteIsFree(page);
    PagesAreNotDropped(Write(page));
    WritePieces(page);
    BracketsStay(brackets, page.host, page.port);
    hide Write, NotAPage;
  }

  lemma GoodHostIsFree(host: string)
    requires GoodHost(host)
    ensures Free(host, NETLOC_STOPS) && Free(host, AUTHORITY_STOPS) && '[' !in host && ']' !in host && ':' !in host
  {
  }

  lemma HighPort(host: string, port: nat)
    requires GoodHost(host) && port > 65535
    ensures HostPort(Authority(host, port)).0 == host && PortValue(HostPort(Authority(host, port)).1).None?
  {
    AuthorityReads(host, port);
    ShowReads(port);
    hide GoodHost, Authority, HostPort, Show, DigitsValue;
  }

  /** What a host reads as up to its first colon, and the text after it. */
  function BeforeColon(host: string): string {
    host[..Upto(host, ":")]
  }

  function AfterColon(host: string): string {
    if Upto(host, ":") < |host| then host[Upto(host, ":") + 1..] else ""
  }

  /** A port as `normalise` itself would write it after a colon. */
  predicate ShownPort(scheme: string, text: string) {
    text != "" && AllDigits(text) && var n := DigitsValue(text); 0 < n <= 65535 && PortShown(scheme, n) == n && Show(n) == text
  }

  /**
    A host that reads as itself after the scheme: not empty, without brackets, and
    either without colons or, when no port follows it, itself a host and a port.
  */
  predicate StandsAlone(page: Page) {
    && page.host != "" && '[' !in page.host && ']' !in page.host
    && (':' !in page.host ||
        (page.port == 0 && BeforeColon(page.host) != "" && TrimDots(BeforeColon(page.host)) == BeforeColon(page.host) &&
         ShownPort(page.scheme, AfterColon(page.host))))
  }

  /** How the authority of a written page reads, if its host has no brackets. */
  lemma WrittenAuthority(host: string, port: nat)
    requires Free(host, AUTHORITY_STOPS)
    ensures var (h, text) := HostPort(Authority(host, port));
      h == BeforeColon(host) && text == if ':' in host then AfterColon(host) + PortPart(port) else if port == 0 then "" else Show(port)
  {
    var tail := PortPart(port);
    AuthorityIs(host, port);
    AuthorityIsFree(host, port, AUTHORITY_STOPS);
    AuthorityStops(Authority(host, port));
    hide Free, Authority, Show, HostPort, AfterLast;
    UnbracketedHostPort(Authority(host, port));
    CutAtColon(host, tail);
    hide BeforeColon, AfterColon;
  }

  lemma UnbracketedHostPort(netloc: string)
    requires '@' !in netloc && '[' !in netloc
    ensures HostPort(netloc) == (BeforeColon(netloc), AfterColon(netloc))
  {
    NotFound(netloc, '[');
    hide Upto;
  }

  lemma CutAtColon(host: string, tail: string)
    requires tail == "" || tail[0] == ':'
    ensures BeforeColon(host + tail) == BeforeColon(host)
    ensures AfterColon(host + tail) == if ':' in host then AfterColon(host) + tail else if tail == "" then "" else tail[1..]
  {
    var a, n := host + tail, Upto(host, ":");
    if ':' in host {
      Found(host, ':');
      UptoExtends(host, tail, ":");
      hide Upto;
      assert a[..n] == host[..n] && a[n + 1..] == host[n + 1..] + tail;
    } else {
      NotFound(host, ':');
      assert Free(host, ":") by {
        assert forall i :: 0 <= i < |host| ==> host[i] in host;
      }
      hide Upto;
      UptoConcat(host, tail, ":");
      assert tail != "" ==> a[|host| + 1..] == tail[1..];
    }
  }

  lemma AuthorityReads(host: string, port: nat)
    requires GoodHost(host)
    ensures HostPort(Authority(host, port)) == (host, if port == 0 then "" else Show(port))
  {
    GoodHostIsFree(host);
    hide GoodHost, HostPort, Authority, Show, AfterColon;
    WrittenAuthority(host, port);
    NotFound(host, ':');
    assert host[..|host|] == host;
  }

  /** What a written page without brackets in its host says when it is read again. */
  function Again(page: Page): Reading {
    if ':' !in page.host then (if page.host == "" then NoPage else Read(page))
    else if BeforeColon(page.host) == "" then NoPage
    else match PortValue(AfterColon(page.host) + PortPart(page.port))
      case None => ReadRaises
      case Some(n) => Read(page.(host := HostKept(BeforeColon(page.host)), port := PortShown(page.scheme, n)))
  }

  lemma ReadAgain(page: Page)
    requires TextPage(page) && '[' !in page.host && ']' !in page.host
    ensures PageOf(PartsOf(page)) == Again(page)
  {
    hide EncodePairs, ParamsKept, Show, HostPort, Authority, PortValue, PortShown, HostKept, PathKept, Free, GoodPath,
      GoodParams, BeforeColon, AfterColon, PortPart, HostText;
    HostReadsAgain(page.host, page.port);
    ParamsRead(page.params);
    PathStays(page.path);
    PortReads(page.port);
  }

  /** Reading back a page that was written gives the page. */
  lemma WriteReads(page: Page)
    requires GoodPage(page) && page.host != ""
    ensures PageOf(PartsOf(page)) == Read(page)
  {
    GoodHostIsFree(page.host);
    hide GoodHost, TextPage, PageOf;
    ReadAgain(page);
  }

  lemma PathStays(path: string)
    requires GoodPath(path)
    ensures PathKept(path) == path
  {
    hide Collapse, Free;
  }

  lemma HostReadsAgain(host: string, port: nat)
    requires HostText(host) && '[' !in host && ']' !in host
    ensures var (h, text) := HostPort(Authority(host, port));
      if ':' in host then h == BeforeColon(host) && text == AfterColon(host) + PortPart(port)
      else h == host == HostKept(host) && text == if port == 0 then "" else Show(port)
  {
    assert Free(host, AUTHORITY_STOPS) by {
      assert forall i :: 0 <= i < |host| ==> host[i] in host;
    }
    hide Lower, TrimDots, Free;
    WrittenAuthority(host, port);
    if ':' !in host {
      NotFound(host, ':');
    }
    hide HostPort, Authority, Show, PortPart, AfterColon;
  }

  lemma ColonIsNoPort(text: string, port: nat)
    ensures port != 0 ==> PortValue(text + PortPart(port)).None?
  {
    if port != 0 {
      assert (text + PortPart(port))[|text|] == ':';
    }
  }

  /** A host with colons comes back as itself exactly when it is a host and a shown port of its own. */
  lemma ColonHost(scheme: string, host: string, port: nat)
    requires Lower(host) == host && ':' in host && PortValue(AfterColon(host) + PortPart(port)).Some?
    ensures var n := PortValue(AfterColon(host) + PortPart(port)).value;
      Authority(HostKept(BeforeColon(host)), PortShown(scheme, n)) == Authority(host, port) <==>
      port == 0 && TrimDots(BeforeColon(host)) == BeforeColon(host) && ShownPort(scheme, AfterColon(host))
  {
    var before, text := BeforeColon(host), AfterColon(host);
    ColonIsNoPort(text, port);
    hide Authority;
    if port == 0 {
      AuthorityIs(host, 0);
      assert text + PortPart(0) == text && host + PortPart(0) == host;
      ColonParts(host);
      hide HostKept, Lower, TrimDots, BeforeColon, AfterColon;
      ColonAuthority(scheme, before, text, PortValue(text).value);
    }
  }

  lemma ColonParts(host: string)
    requires Lower(host) == host && ':' in host
    ensures host == BeforeColon(host) + (":" + AfterColon(host)) && Free(BeforeColon(host), ":")
    ensures HostKept(BeforeColon(host)) == TrimDots(BeforeColon(host)) && Free(HostKept(BeforeColon(host)), ":")
  {
    ColonCut(host);
    LowerPrefix(host, Upto(host, ":"));
    hide Lower, TrimDots, AfterColon, Upto, Free;
    TrimmedIsFree(BeforeColon(host), ":");
  }

  lemma ColonCut(host: string)
    requires ':' in host
    ensures host == BeforeColon(host) + (":" + AfterColon(host)) && Free(BeforeColon(host), ":")
  {
    Found(host, ':');
    BeforeIsFree(host, ":");
    var n := Upto(host, ":");
    assert [host[n]] == ":" by {
      assert host[n] in ":";
    }
    hide Upto, Free;
    CutAt(host, n);
  }

  lemma BeforeIsFree(s: string, stops: string)
    ensures Free(s[..Upto(s, stops)], stops)
  {
  }

  lemma CutAt(s: string, n: nat)
    requires n < |s|
    ensures s == s[..n] + ([s[n]] + s[n + 1..])
  {
  }

  lemma TrimmedIsFree(s: string, stops: string)
    requires Free(s, stops)
    ensures Free(TrimDots(s), stops)
  {
    TrimDotsShape(s);
    hide TrimDots;
    assert forall i :: 0 <= i < |TrimDots(s)| ==> TrimDots(s)[i] == s[i];
  }

  lemma LowerPrefix(s: string, n: nat)
    requires Lower(s) == s && n <= |s|
    ensures Lower(s[..n]) == s[..n]
  {
    assert forall i :: 0 <= i < n ==> s[..n][i] == s[i] && LowerChar(s[i]) == Lower(s)[i];
  }

  lemma ColonAuthority(scheme: string, before: string, text: string, n: nat)
    requires Free(before, ":") && PortValue(text) == Some(n) && Free(TrimDots(before), ":")
    ensures Authority(TrimDots(before), PortShown(scheme, n)) == before + (":" + text) <==>
      TrimDots(before) == before && ShownPort(scheme, text)
  {
    var kept, shown := TrimDots(before), PortShown(scheme, n);
    AuthorityIs(kept, shown);
    hide Authority, Free, TrimDots, DigitsValue;
    AuthoritiesCut(kept, PortPart(shown), before, ":" + text);
    assert shown != 0 ==> PortPart(shown)[1..] == Show(shown) && (":" + text)[1..] == text;
    hide Show;
  }

  /** Two hosts without colons, each followed by nothing or a colon: the whole is the same only if both parts are. */
  lemma AuthoritiesCut(a: string, x: string, b: string, y: string)
    requires Free(a, ":") && Free(b, ":") && (x == "" || x[0] == ':') && (y == "" || y[0] == ':')
    ensures a + x == b + y <==> a == b && x == y
  {
    UptoConcat(a, x, ":");
    UptoConcat(b, y, ":");
    hide Upto, Free;
  }

  /** Writing again what a written page says gives the same text exactly when its host stands alone. */
  lemma FixedMeans(brackets: string -> bool, page: Page)
    requires TextPage(page) && |Write(page)| <= MAX_URL_LENGTH
    ensures Normalise(brackets, Write(page)) == Canonical(Write(page)) <==> StandsAlone(page)
    ensures !Again(page).Read? ==> Normalise(brackets, Write(page)) in {Raises, Dropped}
  {
    Rewritten(brackets, page);
    hide TextPage, Again, BeforeColon, AfterColon, ShownPort, Normalise, Write;
    if '[' !in page.host && ']' !in page.host {
      ColonPageReads(page);
    }
  }

  /** Normalising a written page: a bracket in its host raises, and otherwise it is read again. */
  lemma Rewritten(brackets: string -> bool, page: Page)
    requires TextPage(page)
    ensures Normalise(brackets, Write(page)) ==
      if '[' in page.host || ']' in page.host then Raises else
        match Again(page)
        case ReadRaises => Raises
        case NoPage => Dropped
        case Read(other) => if |Write(other)| <= MAX_URL_LENGTH then Canonical(Write(other)) else Dropped
  {
    TextIsWritable(page);
    WriteIsFree(page);
    PagesAreNotDropped(Write(page));
    WritePieces(page);
    BracketsStay(brackets, page.host, page.port);
    hide Pieces, NotAPage, Write, Authority, PageOf, TextPage, Writable, Again, BadBrackets;
    if '[' !in page.host && ']' !in page.host {
      ReadAgain(page);
    }
  }

  lemma BracketsStay(brackets: string -> bool, host: string, port: nat)
    requires !('[' in host && ']' in host)
    ensures BadBrackets(brackets, Authority(host, port)) <==> '[' in host || ']' in host
  {
    AuthorityIs(host, port);
    hide Authority;
    assert forall c :: c in host + PortPart(port) <==> c in host || c in PortPart(port);
    assert '[' !in PortPart(port) && ']' !in PortPart(port);
  }

  lemma ColonPageReads(page: Page)
    requires TextPage(page) && '[' !in page.host && ']' !in page.host
    ensures Again(page).Read? ==> (Write(Again(page).page) == Write(page) <==> StandsAlone(page))
    ensures !Again(page).Read? ==> !StandsAlone(page)
  {
    assert page.port == 0 ==> AfterColon(page.host) + PortPart(page.port) == AfterColon(page.host);
    hide HostKept, BeforeColon, AfterColon, PortShown, DigitsValue, Show, GoodPath, GoodParams, Write;
    if ':' in page.host && Again(page).Read? {
      ColonHost(page.scheme, page.host, page.port);
      SameButAuthority(page, Again(page).page);
    }
  }

  lemma SameButAuthority(page: Page, other: Page)
    requires page.scheme == other.scheme && page.path == other.path && page.params == other.params
    ensures Write(page) == Write(other) <==> Authority(page.host, page.port) == Authority(other.host, other.port)
  {
    var start, end := page.scheme + "://", page.path + QueryPart(page.params);
    var a, b := Authority(page.host, page.port), Authority(other.host, other.port);
    hide Authority, QueryPart;
    ConcatAssociates(start + a, page.path, QueryPart(page.params));
    ConcatAssociates(start + b, page.path, QueryPart(page.params));
    Cancel(start, a, b, end);
  }

  /**
    When the canonical form is a form: for every URL, normalising again changes
    nothing exactly when the host that was read stands alone. Without square
    brackets in the authority that is: exactly when it is not made of dots alone.
  */
  lemma {:induction false} CanonicalIsFixed(brackets: string -> bool, url: string)
    requires Normalise(brackets, url).Canonical?
    ensures PageOf(Pieces(url)).Read?
    ensures var page := PageOf(Pieces(url)).page;
      && (Normalise(brackets, Normalise(brackets, url).url) == Normalise(brackets, url) <==> StandsAlone(page))
      && (!Bracketed(Pieces(url)) ==> (StandsAlone(page) <==> page.host != ""))
  {
    hide Pieces, PageOf, Write, NotAPage, TextPage, BadBrackets, HostText, BeforeColon, AfterColon, ShownPort;
    ReadIsText(url);
    FixedMeans(brackets, PageOf(Pieces(url)).page);
  }

  lemma WriteIsInjective(page1: Page, page2: Page)
    requires Writable(page1) && Writable(page2)
    ensures Write(page1) == Write(page2) <==>
      && page1.scheme == page2.scheme && Authority(page1.host, page1.port) == Authority(page2.host, page2.port)
      && page1.path == page2.path && page1.params == page2.params
  {
    WritePieces(page1);
    WritePieces(page2);
    ParseUndoesEncode(page1.params);
    ParseUndoesEncode(page2.params);
    hide Pieces, Write, Authority, EncodePairs, Parse, Writable;
    if Write(page1) != Write(page2) && page1.scheme == page2.scheme && page1.path == page2.path && page1.params == page2.params {
      SameButAuthority(page1, page2);
    }
  }

  lemma AuthorityIsInjective(host1: string, port1: nat, host2: string, port2: nat)
    requires ':' !in host1 && ':' !in host2
    ensures Authority(host1, port1) == Authority(host2, port2) <==> host1 == host2 && port1 == port2
  {
    AuthorityIs(host1, port1);
    AuthorityIs(host2, port2);
    ShowReads(port1);
    ShowReads(port2);
    assert port1 != 0 ==> PortPart(port1)[1..] == Show(port1);
    assert port2 != 0 ==> PortPart(port2)[1..] == Show(port2);
    hide Authority, Show, DigitsValue;
    assert forall i :: 0 <= i < |host1| ==> host1[i] in host1;
    assert forall i :: 0 <= i < |host2| ==> host2[i] in host2;
    AuthoritiesCut(host1, PortPart(port1), host2, PortPart(port2));
  }

  /**
    Two URLs normalise to the same string exactly when what they name is written
    alike; and with no colon in either host, exactly when they name the same page.
  */
  lemma {:induction false} SameFormSamePage(brackets: string -> bool, url1: string, url2: string)
    requires Normalise(brackets, url1).Canonical? && Normalise(brackets, url2).Canonical?
    ensures PageOf(Pieces(url1)).Read? && PageOf(Pieces(url2)).Read?
    ensures var page1, page2 := PageOf(Pieces(url1)).page, PageOf(Pieces(url2)).page;
      && (Normalise(brackets, url1) == Normalise(brackets, url2) <==>
            && page1.scheme == page2.scheme && Authority(page1.host, page1.port) == Authority(page2.host, page2.port)
            && page1.path == page2.path && page1.params == page2.params)
      && (':' !in page1.host && ':' !in page2.host ==>
            (Normalise(brackets, url1) == Normalise(brackets, url2) <==> page1 == page2))
  {
    hide Pieces, PageOf, Write, TextPage, Writable, NotAPage, BadBrackets, Authority;
    var page1, page2 := PageOf(Pieces(url1)).page, PageOf(Pieces(url2)).page;
    ReadIsText(url1);
    ReadIsText(url2);
    TextIsWritable(page1);
    TextIsWritable(page2);
    WriteIsInjective(page1, page2);
    if ':' !in page1.host && ':' !in page2.host {
      AuthorityIsInjective(page1.host, page1.port, page2.host, page2.port);
    }
  }

  /** With a colon in a host, two pages can have one form. */
  lemma TwoPagesOneForm()
    ensures var inBrackets, plain := Page("http", "v1.a:81", 0, "/", []), Page("http", "v1.a", 81, "/", []);
      inBrackets != plain && Write(inBrackets) == Write(plain) == "http://v1.a:81/"
  {
    assert Show(81) == "81" by {
      assert Show(8) == "8";
    }
  }

  /** The same parameters, each as often, but for those that track. */
  ghost predicate SameUntracked(a: seq<Param>, b: seq<Param>) {
    forall p: Param :: Lower(p.0) !in TRACKING_PARAMS ==> multiset(a)[p] == multiset(b)[p]
  }

  /**
    What a page keeps of a URL: the case and trailing dots of the host, a default
    port, doubled slashes, the order of the parameters and the tracking ones do
    not matter, and nothing else is lost.
  */
  lemma {:induction false} SamePageMeans(parts1: Parts, parts2: Parts)
    requires PageOf(parts1).Read? && PageOf(parts2).Read?
    ensures PageOf(parts1) == PageOf(parts2) <==>
      && parts1.scheme == parts2.scheme
      && HostKept(HostPort(parts1.netloc).0) == HostKept(HostPort(parts2.netloc).0)
      && PortOf(parts1) == PortOf(parts2)
      && PathKept(parts1.path) == PathKept(parts2.path)
      && SameUntracked(Parse(parts1.query), Parse(parts2.query))
  {
    SameParams(parts1, parts2);
    hide HostPort, HostKept, PathKept, ParamsKept, PortValue, SameUntracked, Parse;
  }

  lemma SameParams(parts1: Parts, parts2: Parts)
    requires PageOf(parts1).Read? && PageOf(parts2).Read?
    ensures PageOf(parts1).page.params == PageOf(parts2).page.params <==> SameUntracked(Parse(parts1.query), Parse(parts2.query))
  {
    hide PageOf, Parse, Ordered, Lower;
    var a, b := PageOf(parts1).page.params, PageOf(parts2).page.params;
    PageParams(parts1, ("", ""));
    PageParams(parts2, ("", ""));
    forall p: Param
      ensures Lower(p.0) in TRACKING_PARAMS ==> multiset(a)[p] == multiset(b)[p]
      ensures Lower(p.0) !in TRACKING_PARAMS ==>
        multiset(a)[p] == multiset(Parse(parts1.query))[p] && multiset(b)[p] == multiset(Parse(parts2.query))[p]
    {
      PageParams(parts1, p);
      PageParams(parts2, p);
    }
    if SameUntracked(Parse(parts1.query), Parse(parts2.query)) {
      assert multiset(a) == multiset(b);
      OrderIsUnique(a, b);
    }
  }

  /** The port a page keeps: 0 when it is absent, zero or the scheme's own. */
  function PortOf(parts: Parts): nat {
    var value := PortValue(HostPort(parts.netloc).1);
    PortShown(parts.scheme, if value.None? then 0 else value.value)
  }

  /** Two colons, as every IPv6 address has. */
  ghost predicate TwoColons(host: string) {
    exists i, j :: 0 <= i < j < |host| && host[i] == ':' && host[j] == ':'
  }

  /**
    A page whose host was an IPv6 literal loses its brackets, and what is written
    is never a form of anything: normalising it again raises or drops it.
  */
  lemma {:induction false} IPv6IsNotFixed(brackets: string -> bool, url: string)
    requires Normalise(brackets, url).Canonical? && PageOf(Pieces(url)).Read? && TwoColons(PageOf(Pieces(url)).page.host)
    ensures Normalise(brackets, Normalise(brackets, url).url) in {Raises, Dropped}
  {
    var page := PageOf(Pieces(url)).page;
    hide Pieces, PageOf, Write, NotAPage, TextPage, BadBrackets, StandsAlone, Again;
    ReadIsText(url);
    TwoColonsFail(page);
    FixedMeans(brackets, page);
  }

  lemma TwoColonsFail(page: Page)
    requires TwoColons(page.host)
    ensures !Again(page).Read?
  {
    var i, j :| 0 <= i < j < |page.host| && page.host[i] == ':' && page.host[j] == ':';
    assert page.host[i] in page.host;
    Found(page.host, ':');
    var c := Upto(page.host, ":");
    assert c <= i by {
      assert forall k :: 0 <= k < c ==> page.host[k] !in ":";
    }
    assert (AfterColon(page.host) + PortPart(page.port))[j - c - 1] == ':';
    assert !AllDigits(AfterColon(page.host) + PortPart(page.port));
  }

  /** An authority without brackets is a host, and a port after the first colon. */
  lemma PlainAuthority(host: string, port: string)
    requires Free(host, "@:[") && '@' !in port && '[' !in port
    ensures HostPort(host) == (host, "") && HostPort(host + ":" + port) == (host, port)
  {
    var all := host + ":" + port;
    assert forall i :: 0 <= i < |host| ==> host[i] !in "@:[";
    assert '@' !in host && '[' !in host && ':' !in host && Free(host, ":");
    assert all == host + (":" + port) && '@' !in all && '[' !in all;
    hide HostPort, Upto, Free;
    PlainHostPort(host);
    UnbracketedHostPort(all);
    UptoConcat(host, ":" + port, ":");
    assert all[|host| + 1..] == port;
  }

  /** Square brackets keep the colons of a host. */
  lemma BracketedAuthority(host: string, port: string)
    requires Free(host, "@]") && '@' !in port
    ensures HostPort("[" + host + "]") == (host, "") && HostPort("[" + host + "]:" + port) == (host, port)
  {
    hide HostPort, Free;
    BracketedTail(host, "");
    BracketedTail(host, ":" + port);
    assert "[" + host + "]" + "" == "[" + host + "]" && "[" + host + "]" + (":" + port) == "[" + host + "]:" + port;
    assert (":" + port)[1..] == port;
  }

  lemma BracketedTail(host: string, tail: string)
    requires Free(host, "@]") && '@' !in tail && (tail == "" || tail[0] == ':')
    ensures HostPort("[" + host + "]" + tail) == (host, if tail == "" then "" else tail[1..])
  {
    var all, inner := "[" + host + "]" + tail, host + ("]" + tail);
    BracketedText(host, tail);
    assert AfterLast(all, '@') == all;
    hide AfterLast, Upto, Free;
    UptoConcat(host, "]" + tail, "]");
    InnerReads(all, inner, host, tail);
  }

  lemma BracketedText(host: string, tail: string)
    requires Free(host, "@]") && '@' !in tail
    ensures var all := "[" + host + "]" + tail;
      '@' !in all && all[0] == '[' && all[1..] == host + ("]" + tail) && Upto(all, "[") == 0 && Free(host, "]")
  {
    var all := "[" + host + "]" + tail;
    assert forall i :: 0 <= i < |host| ==> host[i] !in "@]";
    assert '@' !in host;
    hide Upto, Free;
    assert all == "[" + (host + ("]" + tail));
    FirstIsBracket(host + ("]" + tail), all);
  }

  lemma InnerReads(all: string, inner: string, host: string, tail: string)
    requires AfterLast(all, '@') == all && Upto(all, "[") == 0 && all != "" && all[1..] == inner
    requires inner == host + ("]" + tail) && Upto(inner, "]") == |host| && (tail == "" || tail[0] == ':')
    ensures HostPort(all) == (host, if tail == "" then "" else tail[1..])
  {
    hide AfterLast, Upto;
    FirstColon(tail);
    assert inner[..|host|] == host && inner[|host| + 1..] == tail;
  }

  lemma FirstIsBracket(rest: string, all: string)
    requires all == "[" + rest
    ensures all[0] == '[' && all[1..] == rest && Upto(all, "[") == 0
  {
    assert all[0] == '[';
  }

  lemma FirstColon(tail: string)
    requires tail == "" || tail[0] == ':'
    ensures Upto(tail, ":") == 0
  {
  }

  /** What stands before an at sign is nobody's business. */
  lemma {:induction false} UserInfoIsIgnored(user: string, authority: string)
    requires '@' !in authority
    ensures HostPort(user + "@" + authority) == HostPort(authority)
  {
    LastAt(user, authority);
    assert AfterLast(authority, '@') == authority;
    hide AfterLast, HostPortOf;
  }

  lemma {:induction false} LastAt(user: string, rest: string)
    requires '@' !in rest
    ensures AfterLast(user + "@" + rest, '@') == rest
  {
    var all := user + "@" + rest;
    if user == "" {
      assert all[1..] == rest;
    } else {
      LastAt(user[1..], rest);
      assert all[1..] == user[1..] + "@" + rest;
      assert all[1..][|user| - 1] == '@';
    }
  }

  /** A query after its question mark, if there is one. */
  function Asked(query: Option<string>): string {
    if query.None? then "" else "?" + query.value
  }

  /**
    Any URL with an authority, put together from its parts, is cut into them
    again: the scheme in lower case, and control characters and blanks before it
    do not count.
  */
  lemma {:induction false} PiecesAre(blanks: string, scheme: string, netloc: string, path: string, query: Option<string>)
    requires forall i :: 0 <= i < |blanks| ==> blanks[i] <= ' '
    requires scheme != "" && IsLetter(scheme[0]) && forall i :: 0 <= i < |scheme| ==> SchemeChar(scheme[i])
    requires Free(netloc, NETLOC_STOPS) && Free(path, PATH_STOPS) && (path == "" || path[0] == '/')
    requires query.Some? ==> Free(query.value, QUERY_STOPS)
    ensures Pieces(blanks + (scheme + ":" + ("//" + netloc + (path + Asked(query))))) ==
      Parts(Lower(scheme), netloc, path, if query.None? then "" else query.value)
  {
    var tail := path + Asked(query);
    var rest := "//" + netloc + tail;
    var u := scheme + ":" + rest;
    SchemeHasNoBreaks(scheme);
    NetlocStops(netloc);
    PathStops(path);
    AskedStops(query);
    BlanksGo(blanks, u);
    hide Free, LeftTrim, WithoutBreaks, SchemeOf, NetlocOf, PathOf, Upto, SchemeChar, Asked;
    FreeConcat(path, Asked(query), BREAKS);
    FreeConcat("//", netloc, BREAKS);
    FreeConcat("//" + netloc, tail, BREAKS);
    FreeConcat(scheme + ":", rest, BREAKS);
    NoBreaksStay(u);
    AnySchemeReads(scheme, rest);
    AnyPathReads(path, query);
    AnyNetlocReads(netloc, tail);
  }

  lemma SchemeHasNoBreaks(scheme: string)
    requires scheme != "" && forall i :: 0 <= i < |scheme| ==> SchemeChar(scheme[i])
    ensures Free(scheme + ":", BREAKS) && Free("//", BREAKS) && Free(scheme, ":")
  {
  }

  lemma AskedStops(query: Option<string>)
    requires query.Some? ==> Free(query.value, QUERY_STOPS)
    ensures Free(Asked(query), "#") && Free(Asked(query), BREAKS)
  {
    if query.Some? {
      QueryStops(query.value);
    }
  }

  lemma {:induction false} BlanksGo(blanks: string, u: string)
    requires forall i :: 0 <= i < |blanks| ==> blanks[i] <= ' '
    requires u != "" && u[0] > ' '
    ensures LeftTrim(blanks + u) == u
  {
    if blanks == "" {
      assert blanks + u == u;
    } else {
      BlanksGo(blanks[1..], u);
      assert (blanks + u)[1..] == blanks[1..] + u;
    }
  }

  lemma AnySchemeReads(scheme: string, rest: string)
    requires scheme != "" && IsLetter(scheme[0]) && forall i :: 0 <= i < |scheme| ==> SchemeChar(scheme[i])
    ensures SchemeOf(scheme + ":" + rest) == (Lower(scheme), rest)
  {
    var u := scheme + ":" + rest;
    SchemeHasNoBreaks(scheme);
    assert u == scheme + (":" + rest);
    UptoConcat(scheme, ":" + rest, ":");
    hide Upto, Free, SchemeChar, Lower;
    assert u[..|scheme|] == scheme && u[|scheme| + 1..] == rest;
    assert forall k :: 0 <= k < |scheme| ==> u[k] == scheme[k];
  }

  lemma AnyNetlocReads(netloc: string, tail: string)
    requires Free(netloc, "/?#") && (tail == "" || tail[0] in "/?#")
    ensures NetlocOf("//" + netloc + tail) == (netloc, tail)
  {
    UptoConcat(netloc, tail, "/?#");
    hide Upto, Free;
    var rest := "//" + netloc + tail;
    assert rest == "//" + (netloc + tail) && rest[2..] == netloc + tail && rest[..2] == "//";
  }

  lemma AnyPathReads(path: string, query: Option<string>)
    requires Free(path, PATH_STOPS) && (path == "" || path[0] == '/') && (query.Some? ==> Free(query.value, QUERY_STOPS))
    ensures PathOf(path + Asked(query)) == (path, if query.None? then "" else query.value)
    ensures path + Asked(query) == "" || (path + Asked(query))[0] in "/?#"
  {
    var asked := Asked(query);
    PathStops(path);
    AskedStops(query);
    assert query.Some? ==> asked[0] == '?' && asked[1..] == query.value;
    hide Asked;
    CutAtQuestion(path, asked);
  }

  lemma CutAtQuestion(path: string, asked: string)
    requires Free(path, "#") && Free(path, "?") && Free(asked, "#") && (asked == "" || asked[0] == '?')
    ensures PathOf(path + asked) == (path, if asked == "" then "" else asked[1..])
  {
    var tail := path + asked;
    hide Upto, Free;
    FreeConcat(path, asked, "#");
    NotFoundFree(tail, "#");
    UptoConcat(path, asked, "?");
    assert tail[..|tail|] == tail;
    assert asked != "" ==> tail[|path| + 1..] == asked[1..];
  }

  /** Tabs and line ends anywhere in a URL do not count. */
  lemma {:induction false} BreaksAreIgnored(a: string, c: char, b: string)
    requires c in BREAKS
    ensures Pieces(a + [c] + b) == Pieces(a + b)
  {
    TrimmedBreak(a, c, b);
    hide WithoutBreaks, LeftTrim, SchemeOf, NetlocOf, PathOf;
  }

  lemma {:induction false} TrimmedBreak(a: string, c: char, b: string)
    requires c in BREAKS
    ensures WithoutBreaks(LeftTrim(a + [c] + b)) == WithoutBreaks(LeftTrim(a + b))
  {
    var long := a + [c] + b;
    if a == "" {
      assert long[1..] == b && a + b == b;
    } else if a[0] <= ' ' {
      TrimmedBreak(a[1..], c, b);
      assert long[1..] == a[1..] + [c] + b && (a + b)[1..] == a[1..] + b;
    } else {
      assert LeftTrim(long) == long && LeftTrim(a + b) == a + b;
      assert long == a + ([c] + b) && ([c] + b)[1..] == b;
      BreaksOfConcat(a, [c] + b);
      BreaksOfConcat(a, b);
    }
  }

  /** How a URL with a bracketed host and nothing else is read. */
  lemma BracketedReads(inner: string)
    requires Free(inner, AUTHORITY_STOPS)
    ensures Pieces("http://" + ("[" + inner + "]") + "/") == Parts("http", "[" + inner + "]", "/", "")
    ensures HostPort("[" + inner + "]") == (inner, "")
  {
    BracketedIsFree(inner);
    BracketedAuthority(inner, "");
    hide Pieces, HostPort, Free;
    RootReads("[" + inner + "]");
  }

  lemma BracketedIsFree(inner: string)
    requires Free(inner, AUTHORITY_STOPS)
    ensures Free("[" + inner + "]", NETLOC_STOPS) && Free(inner, "@]")
  {
  }

  lemma RootPath()
    ensures PathKept("/") == "/" && ParamsKept("") == [] && GoodPath("/")
  {
    assert Collapse("/") == "/" by {
      assert Collapse("") == "";
    }
    assert Parse("") == [];
    assert Kept([]) == [] && Sort([]) == [];
  }

  /** A page without path or parameters, as text. */
  lemma RootWrites(host: string)
    ensures Write(Page("http", host, 0, "/", [])) == "http://" + host + "/"
  {
  }

  lemma RootIsRead(url: string, netloc: string, host: string)
    requires Pieces(url) == Parts("http", netloc, "/", "") && HostPort(netloc) == (host, "") && host != ""
    ensures PageOf(Pieces(url)) == Read(Page("http", HostKept(host), 0, "/", []))
  {
    RootPath();
    hide Pieces, HostPort, PathKept, ParamsKept, HostKept;
  }

  /** The loopback address: its canonical form is a URL of nothing. */
  lemma LoopbackVanishes(brackets: string -> bool)
    requires brackets("[::1]")
    ensures Normalise(brackets, "http://[::1]/") == Canonical("http://::1/")
    ensures Normalise(brackets, "http://::1/") == Dropped
  {
    LoopbackText();
    LoopbackReads();
    assert !BadBrackets(brackets, "[::1]");
    hide Normalise, BadBrackets, Pieces, PageOf, Again, HostKept, HostPort, Free, Upto;
    RootVanishes(brackets, "http://[::1]/", "[::1]", "::1");
  }

  lemma LoopbackText()
    ensures "http://" + ("[" + "::1" + "]") + "/" == "http://[::1]/" && "[" + "::1" + "]" == "[::1]"
    ensures "http://" + "::1" + "/" == "http://::1/"
    ensures Free("::1", AUTHORITY_STOPS) && '[' in "[::1]" && ']' in "[::1]" && '[' !in "::1" && ']' !in "::1"
    ensures "http://[::1]/"[0] == 'h' && Upto("::1", ":") == 0
  {
    assert "[::1]"[0] == '[' && "[::1]"[4] == ']';
  }

  lemma LoopbackReads()
    ensures Pieces("http://[::1]/") == Parts("http", "[::1]", "/", "") && HostPort("[::1]") == ("::1", "")
    ensures HostKept("::1") == "::1" && Again(Page("http", "::1", 0, "/", [])) == NoPage
  {
    LoopbackText();
    hide Pieces, HostPort, Free, Upto;
    BracketedReads("::1");
    assert "::1"[0] == ':' && HostKept("::1") == "::1";
  }

  /** A URL of a host alone whose canonical form, read again, is no page. */
  lemma RootVanishes(brackets: string -> bool, url: string, netloc: string, host: string)
    requires url != "" && url[0] == 'h' && !BadBrackets(brackets, netloc)
    requires Pieces(url) == Parts("http", netloc, "/", "") && HostPort(netloc) == (host, "") && host != ""
    requires '[' !in HostKept(host) && ']' !in HostKept(host) && |HostKept(host)| < 100
    requires Again(Page("http", HostKept(host), 0, "/", [])) == NoPage
    ensures Normalise(brackets, url) == Canonical("http://" + HostKept(host) + "/")
    ensures Normalise(brackets, "http://" + HostKept(host) + "/") == Dropped
  {
    hide Pieces, HostPort, HostKept, BadBrackets, Again, PageOf, Write, TextPage, NotAPage;
    RootIsRead(url, netloc, host);
    RootWrites(HostKept(host));
    PagesAreNotDropped(url);
    ReadIsText(url);
    EmptyAgain(brackets, Page("http", HostKept(host), 0, "/", []));
  }

  /** What reads as no page when it is read again is dropped then. */
  lemma EmptyAgain(brackets: string -> bool, page: Page)
    requires TextPage(page) && '[' !in page.host && ']' !in page.host && Again(page) == NoPage
    ensures Normalise(brackets, Write(page)) == Dropped
  {
    TextIsWritable(page);
    WritePieces(page);
    WriteIsFree(page);
    PagesAreNotDropped(Write(page));
    BracketsStay(brackets, page.host, page.port);
    hide TextPage, Writable, Authority, Again, Pieces, Write, NotAPage, PageOf, BadBrackets;
    ReadAgain(page);
  }

  /** A host of one dot: its canonical form is a URL of nothing. */
  lemma DotVanishes(brackets: string -> bool)
    ensures Normalise(brackets, "http://./") == Canonical("http:///")
    ensures Normalise(brackets, "http:///") == Dropped
  {
    DotReads();
    hide Pieces, PageOf, TextPage, Again, Write, HostKept;
    RootVanishes(brackets, "http://./", ".", ".");
    assert "http://" + "" + "/" == "http:///";
  }

  lemma PlainHostPort(netloc: string)
    requires '@' !in netloc && '[' !in netloc && ':' !in netloc
    ensures HostPort(netloc) == (netloc, "")
  {
    NotFound(netloc, '[');
    NotFound(netloc, ':');
    hide Upto, AfterLast;
    assert netloc[..|netloc|] == netloc;
  }

  lemma DotText()
    ensures "http://" + "." + "/" == "http://./" && Free(".", NETLOC_STOPS)
    ensures '@' !in "." && '[' !in "." && ':' !in "." && ']' !in "."
    ensures Lower(".") == "." && TrimDots(".") == ""
  {
    assert TrimDots("") == "";
  }

  lemma DotReads()
    ensures Pieces("http://./") == Parts("http", ".", "/", "") && HostPort(".") == (".", "")
    ensures HostKept(".") == "" && Again(Page("http", "", 0, "/", [])) == NoPage
  {
    DotText();
    hide Pieces, HostPort, Lower, TrimDots;
    RootReads(".");
    PlainHostPort(".");
  }

  lemma RootReads(host: string)
    requires Free(host, NETLOC_STOPS)
    ensures Pieces("http://" + host + "/") == Parts("http", host, "/", "")
  {
    RootPath();
    RootWrites(host);
    hide Pieces, GoodPath, Write, Free;
    WritePieces(Page("http", host, 0, "/", []));
  }

  // ---- fragments ----------------------------------------------------------

  lemma UptoExtends(a: string, b: string, stops: string)
    ensures Upto(a, stops) < |a| ==> Upto(a + b, stops) == Upto(a, stops)
    ensures Upto(a, stops) == |a| && b != "" && b[0] in stops ==> Upto(a + b, stops) == |a|
  {
    var n := Upto(a, stops);
    assert forall i :: 0 <= i < |a| ==> (a + b)[i] == a[i];
    assert forall i :: 0 <= i < n ==> (a + b)[i] !in stops;
    assert n < |a| ==> (a + b)[n] in stops;
    assert b != "" ==> (a + b)[|a|] == b[0];
  }

  lemma {:induction false} BreaksOfConcat(a: string, b: string)
    ensures WithoutBreaks(a + b) == WithoutBreaks(a) + WithoutBreaks(b)
  {
    if a == "" {
      assert a + b == b;
    } else {
      BreaksOfConcat(a[1..], b);
      assert (a + b)[1..] == a[1..] + b;
    }
  }

  lemma {:induction false} BreaksKeepFree(a: string, stops: string)
    requires Free(a, stops)
    ensures Free(WithoutBreaks(a), stops)
  {
    if a != "" {
      assert Free(a[1..], stops);
      BreaksKeepFree(a[1..], stops);
    }
  }

  /** A string that begins with a hash sign. */
  function Hash(f: string): string {
    "#" + f
  }

  lemma SchemeIgnoresHash(u: string, f: string)
    requires Free(u, "#")
    ensures SchemeOf(u + Hash(f)) == (SchemeOf(u).0, SchemeOf(u).1 + Hash(f)) && Free(SchemeOf(u).1, "#")
  {
    var long := u + Hash(f);
    var i := Upto(u, ":");
    UptoExtends(u, Hash(f), ":");
    if i < |u| {
      assert long[..i] == u[..i] && long[i + 1..] == u[i + 1..] + Hash(f);
      assert forall k :: 0 <= k <= i ==> long[k] == u[k];
      assert HasScheme(long) <==> HasScheme(u);
    } else {
      assert long[|u|] == '#' && !SchemeChar('#') && !IsLetter('#');
      assert forall k :: 0 <= k < |u| ==> long[k] == u[k] && u[k] !in ":";
      assert Upto(long, ":") > |u|;
      assert !HasScheme(long);
    }
  }

  lemma NetlocIgnoresHash(rest: string, f: string)
    requires Free(rest, "#")
    ensures NetlocOf(rest + Hash(f)) == (NetlocOf(rest).0, NetlocOf(rest).1 + Hash(f)) && Free(NetlocOf(rest).1, "#")
  {
    var long := rest + Hash(f);
    if |rest| >= 2 {
      SliceOfConcat(rest, Hash(f), 2);
      if rest[..2] == "//" {
        AuthorityIgnoresHash(rest[2..], f);
      }
    } else {
      assert long[|rest|] == '#';
      assert |long| >= 2 ==> long[..2][|rest|] == '#';
    }
  }

  lemma AuthorityIgnoresHash(s: string, f: string)
    ensures var n := Upto(s, "/?#");
      Upto(s + Hash(f), "/?#") == n && (s + Hash(f))[..n] == s[..n] && (s + Hash(f))[n..] == s[n..] + Hash(f)
  {
    var n := Upto(s, "/?#");
    UptoExtends(s, Hash(f), "/?#");
    SliceOfConcat(s, Hash(f), n);
    hide Upto;
  }

  lemma PathIgnoresHash(tail: string, f: string)
    requires Free(tail, "#")
    ensures PathOf(tail + Hash(f)) == PathOf(tail)
  {
    NotFoundFree(tail, "#");
    UptoExtends(tail, Hash(f), "#");
    assert (tail + Hash(f))[..|tail|] == tail == tail[..|tail|];
  }

  /** The fragment never matters: with or without one, a URL is split, and so normalised, alike. */
  lemma {:induction false} FragmentIsDropped(brackets: string -> bool, url: string, fragment: string)
    requires '#' !in url
    ensures Split(brackets, url + Hash(fragment)) == Split(brackets, url)
    ensures Normalise(brackets, url + Hash(fragment)) == Normalise(brackets, url)
  {
    hide Split, Hash, NotAPage, PageOf, Write;
    SplitIgnoresHash(brackets, url, fragment);
    if url == "" {
      OnlyAHash(fragment);
    } else {
      SameKindOfLink(url, fragment);
    }
  }

  lemma OnlyAHash(fragment: string)
    ensures NotAPage("" + Hash(fragment)) && NotAPage("")
  {
    assert StartsWith("" + Hash(fragment), NOT_PAGES[4]);
  }

  lemma SplitIgnoresHash(brackets: string -> bool, url: string, fragment: string)
    requires '#' !in url
    ensures Split(brackets, url + Hash(fragment)) == Split(brackets, url)
  {
    var u, f := WithoutBreaks(LeftTrim(url)), WithoutBreaks(fragment);
    TrimmedHash(url, fragment);
    LeftTrimKeepsFree(url, "#");
    BreaksKeepFree(LeftTrim(url), "#");
    hide WithoutBreaks, LeftTrim, SchemeOf, NetlocOf, PathOf, Hash, Free;
    SchemeIgnoresHash(u, f);
    NetlocIgnoresHash(SchemeOf(u).1, f);
    PathIgnoresHash(NetlocOf(SchemeOf(u).1).1, f);
  }

  lemma {:induction false} LeftTrimKeepsFree(s: string, stops: string)
    requires forall i :: 0 <= i < |stops| ==> stops[i] !in s
    ensures Free(LeftTrim(s), stops)
  {
    if s != "" && s[0] <= ' ' {
      LeftTrimKeepsFree(s[1..], stops);
    } else {
      assert forall i :: 0 <= i < |s| ==> s[i] in s;
    }
  }

  lemma {:induction false} TrimmedHash(url: string, fragment: string)
    ensures WithoutBreaks(LeftTrim(url + Hash(fragment))) == WithoutBreaks(LeftTrim(url)) + Hash(WithoutBreaks(fragment))
  {
    var long := url + Hash(fragment);
    if url != "" && url[0] <= ' ' {
      TrimmedHash(url[1..], fragment);
      assert long[1..] == url[1..] + Hash(fragment);
    } else {
      assert LeftTrim(long) == long && LeftTrim(url) == url;
      BreaksOfConcat(url, Hash(fragment));
      assert Hash(fragment)[1..] == fragment;
    }
  }

  lemma SameKindOfLink(url: string, fragment: string)
    requires url != "" && '#' !in url
    ensures NotAPage(url + Hash(fragment)) <==> NotAPage(url)
  {
    var long := url + Hash(fragment);
    forall k | 0 <= k < |NOT_PAGES|
      ensures StartsWith(long, NOT_PAGES[k]) <==> StartsWith(url, NOT_PAGES[k])
    {
      var prefix := NOT_PAGES[k];
      if |prefix| <= |url| {
        assert long[..|prefix|] == url[..|prefix|];
      } else {
        assert prefix[|url|] != '#';
        assert |prefix| <= |long| ==> long[..|prefix|][|url|] == '#';
      }
    }
  }
}
