/**
  The health score (api/analysis/scoring.py) over exact reals: penalties
  normalised by the pages looked at, and a total renormalised over the
  components that have data.
*/
module Scoring {
  import opened Prelude

  datatype Issue = Issue(typeKey: string, weight: real, severity: string, affected: int, websiteWide: bool)

  datatype Component = Component(key: string, weight: real)

  datatype Score = Score(key: string, score: real, weight: real)

  datatype Scorecard = Scorecard(total: real, components: seq<Score>)

  // ---- rounding -----------------------------------------------------------

  function Nearest(y: real): int {
    var f := y.Floor;
    var r := y - f as real;
    if r < 0.5 then f else if r > 0.5 then f + 1 else if f % 2 == 0 then f else f + 1
  }

  /** `round(x, 2)`, halves to even. */
  function Round2(x: real): real {
    Nearest(100.0 * x) as real / 100.0
  }

  function Hundredths(k: int): real {
    k as real / 100.0
  }

  /** A number that two decimals can hold. */
  ghost predicate Shown(x: real) {
    exists k :: x == Hundredths(k)
  }

  lemma NearestMonotone(a: real, b: real)
    requires a <= b
    ensures Nearest(a) <= Nearest(b)
  {
    assert a.Floor <= b.Floor;
    if a.Floor < b.Floor {
      assert a.Floor + 1 <= b.Floor;
    }
  }

  lemma NearestWhole(k: int)
    ensures Nearest(k as real) == k
  {
    assert (k as real).Floor == k;
  }

  lemma NearestIsNear(y: real)
    ensures -0.5 <= Nearest(y) as real - y <= 0.5
    ensures Nearest(y) as real - y in {-0.5, 0.5} ==> Nearest(y) % 2 == 0
  {
    assert y.Floor as real <= y < y.Floor as real + 1.0;
  }

  lemma RoundMonotone(a: real, b: real)
    requires a <= b
    ensures Round2(a) <= Round2(b)
  {
    NearestMonotone(100.0 * a, 100.0 * b);
  }

  /** Rounding is within half a hundredth, lands on a hundredth, an even one from half way, and leaves hundredths alone. */
  lemma RoundIsNear(x: real)
    ensures -0.005 <= Round2(x) - x <= 0.005 && Shown(Round2(x))
    ensures Round2(x) - x in {-0.005, 0.005} ==> exists k :: Round2(x) == Hundredths(2 * k)
    ensures Shown(x) ==> Round2(x) == x
  {
    NearestIsNear(100.0 * x);
    hide Nearest;
    assert Round2(x) == Hundredths(Nearest(100.0 * x));
    if Round2(x) - x in {-0.005, 0.005} {
      assert Round2(x) == Hundredths(2 * (Nearest(100.0 * x) / 2));
    }
    if Shown(x) {
      var k :| x == Hundredths(k);
      NearestWhole(k);
      assert 100.0 * x == k as real;
    }
  }

  /** Rounding never leaves an interval whose ends two decimals can hold. */
  lemma RoundStaysWithin(x: real, lo: real, hi: real)
    requires lo <= x <= hi && Shown(lo) && Shown(hi)
    ensures lo <= Round2(x) <= hi
  {
    RoundMonotone(lo, x);
    RoundMonotone(x, hi);
    RoundIsNear(lo);
    RoundIsNear(hi);
    hide Round2;
  }

  lemma HundredthsShown()
    ensures Shown(0.0) && Shown(100.0)
  {
    assert 0.0 == Hundredths(0) && 100.0 == Hundredths(10_000);
  }

  // ---- the penalty --------------------------------------------------------

  function Multiplier(severity: string): real {
    match severity
    case "critical" => 1.0
    case "high" => 0.7
    case "medium" => 0.4
    case "low" => 0.15
    case "info" => 0.0
    case _ => 0.4
  }

  function PagesOf(evaluated: int): int {
    if evaluated < 1 then 1 else evaluated
  }

  /** The part of the site an issue touches. */
  function Share(issue: Issue, pages: int): real
    requires pages >= 1
  {
    if issue.websiteWide then 1.0
    else if issue.affected > pages then 1.0
    else issue.affected as real / pages as real
  }

  function Part(issue: Issue, pages: int): real
    requires pages >= 1
  {
    issue.weight * Multiplier(issue.severity) * Share(issue, pages)
  }

  function Weighted(issues: seq<Issue>, pages: int): real
    requires pages >= 1
  {
    if issues == [] then 0.0 else
      Weighted(issues[..|issues| - 1], pages) + Part(issues[|issues| - 1], pages)
  }

  function Weight(issues: seq<Issue>): real {
    if issues == [] then 0.0 else Weight(issues[..|issues| - 1]) + issues[|issues| - 1].weight
  }

  function Penalty(issues: seq<Issue>, evaluated: int): real {
    var weight := Weight(issues);
    var penalty := if weight != 0.0 then 100.0 * Weighted(issues, PagesOf(evaluated)) / weight else 0.0;
    if penalty > 100.0 then 100.0 else penalty
  }

  /** The last count of each type, as `by_type` keeps it. */
  function Counts(issues: seq<Issue>): map<string, int> {
    if issues == [] then map[] else
      Counts(issues[..|issues| - 1])[issues[|issues| - 1].typeKey := issues[|issues| - 1].affected]
  }

  method PenaltyFor(issues: seq<Issue>, evaluated: int) returns (penalty: real, counts: map<string, int>)
    ensures penalty == Penalty(issues, evaluated) && counts == Counts(issues)
  {
    hide Part;
    if issues == [] {
      return 0.0, map[];
    }
    var pages := if evaluated < 1 then 1 else evaluated;
    var weighted, totalWeight := 0.0, 0.0;
    counts := map[];
    for i := 0 to |issues|
      invariant weighted == Weighted(issues[..i], pages) && totalWeight == Weight(issues[..i]) && counts == Counts(issues[..i])
    {
      assert issues[..i + 1][..i] == issues[..i];
      weighted := weighted + Part(issues[i], pages);
      totalWeight := totalWeight + issues[i].weight;
      counts := counts[issues[i].typeKey := issues[i].affected];
    }
    assert issues[..|issues|] == issues;
    penalty := if totalWeight != 0.0 then 100.0 * weighted / totalWeight else 0.0;
    if penalty > 100.0 {
      penalty := 100.0;
    }
  }

  // ---- the scorecard ------------------------------------------------------

  function IssuesOf(issues: map<string, seq<Issue>>, key: string): seq<Issue> {
    if key in issues then issues[key] else []
  }

  /** One component's score, or none when it is measured and has no value. */
  function ScoreOf(c: Component, issues: map<string, seq<Issue>>, evaluated: int, measured: map<string, Option<real>>): seq<Score> {
    if c.key in measured then
      match measured[c.key]
      case None => []
      case Some(value) => [Score(c.key, Round2(value), c.weight)]
    else [Score(c.key, Round2(100.0 - Penalty(IssuesOf(issues, c.key), evaluated)), c.weight)]
  }

  function Scores(components: seq<Component>, issues: map<string, seq<Issue>>, evaluated: int, measured: map<string, Option<real>>): seq<Score> {
    if components == [] then [] else
      Scores(components[..|components| - 1], issues, evaluated, measured)
        + ScoreOf(components[|components| - 1], issues, evaluated, measured)
  }

  // ---- what a scorecard says ----------------------------------------------

  ghost predicate HasData(c: Component, measured: map<string, Option<real>>) {
    !(c.key in measured && measured[c.key].None?)
  }

  /** The components that have data, in order. */
  ghost function WithData(components: seq<Component>, measured: map<string, Option<real>>): seq<Component> {
    if components == [] then [] else
      var last := components[|components| - 1];
      WithData(components[..|components| - 1], measured) + if HasData(last, measured) then [last] else []
  }

  /** A measured component scores its value, any other a hundred less its penalty; both rounded. */
  ghost predicate RightScore(c: Component, s: Score, issues: map<string, seq<Issue>>, evaluated: int, measured: map<string, Option<real>>) {
    && s.key == c.key && s.weight == c.weight
    && (c.key in measured ==> measured[c.key].Some? && s.score == Round2(measured[c.key].value))
    && (c.key !in measured ==> s.score == Round2(100.0 - Penalty(if c.key in issues then issues[c.key] else [], evaluated)))
  }

  /** One right score for each component that has data, in order. */
  ghost predicate RightCard(components: seq<Component>, issues: map<string, seq<Issue>>, evaluated: int,
      measured: map<string, Option<real>>, scores: seq<Score>)
  {
    var live := WithData(components, measured);
    |scores| == |live| && forall k :: 0 <= k < |scores| ==> RightScore(live[k], scores[k], issues, evaluated, measured)
  }

  lemma {:induction false} ScoresAreRight(components: seq<Component>, issues: map<string, seq<Issue>>, evaluated: int,
      measured: map<string, Option<real>>)
    ensures RightCard(components, issues, evaluated, measured, Scores(components, issues, evaluated, measured))
  {
    if components != [] {
      var init, last := components[..|components| - 1], components[|components| - 1];
      ScoreIsRight(last, issues, evaluated, measured);
      ScoresAreRight(init, issues, evaluated, measured);
      hide RightScore, ScoreOf, HasData;
    }
  }

  lemma ScoreIsRight(c: Component, issues: map<string, seq<Issue>>, evaluated: int, measured: map<string, Option<real>>)
    ensures var scores := ScoreOf(c, issues, evaluated, measured);
      if HasData(c, measured) then |scores| == 1 && RightScore(c, scores[0], issues, evaluated, measured) else scores == []
  {
    hide Penalty, Round2;
  }

  function LiveWeight(scores: seq<Score>): real {
    if scores == [] then 0.0 else LiveWeight(scores[..|scores| - 1]) + scores[|scores| - 1].weight
  }

  function Product(a: real, b: real): real {
    a * b
  }

  function Sum(scores: seq<Score>): real {
    if scores == [] then 0.0 else
      Sum(scores[..|scores| - 1]) + Product(scores[|scores| - 1].score, scores[|scores| - 1].weight)
  }

  function Total(scores: seq<Score>): real {
    if LiveWeight(scores) <= 0.0 then 0.0 else Round2(Sum(scores) / LiveWeight(scores))
  }

  method ScoreComponents(components: seq<Component>, issues: map<string, seq<Issue>>, evaluated: int,
      measured: map<string, Option<real>>)
    returns (card: Scorecard)
    ensures card.components == Scores(components, issues, evaluated, measured)
    ensures RightCard(components, issues, evaluated, measured, card.components)
    ensures card.total == Total(card.components)
  {
    hide Round2, Penalty, RightCard;
    var scored: seq<Score> := [];
    for i := 0 to |components|
      invariant scored == Scores(components[..i], issues, evaluated, measured)
    {
      assert components[..i + 1][..i] == components[..i];
      var c := components[i];
      if c.key in measured {
        var value := measured[c.key];
        if value.None? {
          continue;
        }
        scored := scored + [Score(c.key, Round2(value.value), c.weight)];
        continue;
      }
      var penalty, _ := PenaltyFor(if c.key in issues then issues[c.key] else [], evaluated);
      scored := scored + [Score(c.key, Round2(100.0 - penalty), c.weight)];
    }
    assert components[..|components|] == components;
    ScoresAreRight(components, issues, evaluated, measured);
    var total := TotalOf(scored);
    card := Scorecard(total, scored);
  }

  method TotalOf(scored: seq<Score>) returns (total: real)
    ensures total == Total(scored)
  {
    hide Product, Round2;
    var weight, sum := 0.0, 0.0;
    for i := 0 to |scored|
      invariant weight == LiveWeight(scored[..i]) && sum == Sum(scored[..i])
    {
      assert scored[..i + 1][..i] == scored[..i];
      weight := weight + scored[i].weight;
      sum := sum + Product(scored[i].score, scored[i].weight);
    }
    assert scored[..|scored|] == scored;
    if weight <= 0.0 {
      return 0.0;
    }
    total := Round2(sum / weight);
  }

  // ---- bounds -------------------------------------------------------------

  /** What the catalogue and the counts guarantee. */
  ghost predicate Sane(issues: seq<Issue>) {
    forall k :: 0 <= k < |issues| ==> issues[k].weight >= 0.0 && issues[k].affected >= 0
  }

  lemma ShareInRange(issue: Issue, pages: int)
    requires pages >= 1 && issue.affected >= 0
    ensures 0.0 <= Share(issue, pages) <= 1.0
  {
    if !issue.websiteWide && issue.affected <= pages {
      Quotient(issue.affected as real, pages as real);
    }
  }

  lemma Scaled(a: real, b: real, k: real)
    requires k > 0.0
    ensures a <= b <==> a * k <= b * k
  {
  }

  lemma Quotient(a: real, b: real)
    requires 0.0 <= a <= b && b > 0.0
    ensures 0.0 <= a / b <= 1.0
  {
    var q := a / b;
    assert q * b == a;
    Scaled(0.0, q, b);
    Scaled(q, 1.0, b);
  }

  lemma Shrinks(w: real, m: real, s: real)
    requires w >= 0.0 && 0.0 <= m <= 1.0 && 0.0 <= s <= 1.0
    ensures 0.0 <= w * m * s <= w
  {
    assert 0.0 <= w * m <= w;
    assert 0.0 <= (w * m) * s <= w * m;
  }

  lemma {:induction false} WeightedInRange(issues: seq<Issue>, pages: int)
    requires Sane(issues) && pages >= 1
    ensures 0.0 <= Weighted(issues, pages) <= Weight(issues)
  {
    if issues != [] {
      hide Part;
      WeightedInRange(issues[..|issues| - 1], pages);
      PartInRange(issues[|issues| - 1], pages);
    }
  }

  lemma PartInRange(issue: Issue, pages: int)
    requires pages >= 1 && issue.weight >= 0.0 && issue.affected >= 0
    ensures 0.0 <= Part(issue, pages) <= issue.weight
  {
    ShareInRange(issue, pages);
    MultiplierInRange(issue.severity);
    hide Share, Multiplier;
    var w, m, share := issue.weight, Multiplier(issue.severity), Share(issue, pages);
    Shrinks(w, m, share);
    assert Part(issue, pages) == w * m * share;
  }

  lemma MultiplierInRange(severity: string)
    ensures 0.0 <= Multiplier(severity) <= 1.0
  {
  }

  /** A penalty is between 0 and 100, and the cap at 100 never bites. */
  lemma {:induction false} PenaltyInRange(issues: seq<Issue>, evaluated: int)
    requires Sane(issues)
    ensures 0.0 <= Penalty(issues, evaluated) <= 100.0
    ensures Weight(issues) != 0.0 ==> Penalty(issues, evaluated) == 100.0 * Weighted(issues, PagesOf(evaluated)) / Weight(issues)
  {
    WeightedInRange(issues, PagesOf(evaluated));
    if Weight(issues) != 0.0 {
      Percentage(Weighted(issues, PagesOf(evaluated)), Weight(issues));
    }
  }

  lemma Percentage(a: real, b: real)
    requires 0.0 <= a <= b && b > 0.0
    ensures 0.0 <= 100.0 * a / b <= 100.0
  {
    Quotient(a, b);
    assert 100.0 * a / b == 100.0 * (a / b);
  }

  // ---- the penalty orders and scales --------------------------------------

  /** The severities from least to worst; an unknown one counts as medium. */
  ghost function Rank(severity: string): int {
    if severity == "critical" then 4
    else if severity == "high" then 3
    else if severity == "low" then 1
    else if severity == "info" then 0
    else 2
  }

  lemma SeverityIsRanked(a: string, b: string)
    ensures Multiplier(a) <= Multiplier(b) <==> Rank(a) <= Rank(b)
    ensures Rank(a) == 4 ==> Multiplier(a) == 1.0
    ensures Rank(a) == 0 ==> Multiplier(a) == 0.0
  {
    SeverityWorth(a);
    SeverityWorth(b);
    hide Multiplier, Rank;
  }

  lemma SeverityWorth(a: string)
    ensures Rank(a) == 4 <==> Multiplier(a) == 1.0
    ensures Rank(a) == 3 <==> Multiplier(a) == 0.7
    ensures Rank(a) == 2 <==> Multiplier(a) == 0.4
    ensures Rank(a) == 1 <==> Multiplier(a) == 0.15
    ensures Rank(a) == 0 <==> Multiplier(a) == 0.0
    ensures 0 <= Rank(a) <= 4
  {
  }

  /** Issue by issue: the same type, at least as severe and on at least as many pages. */
  ghost predicate NoBetter(better: seq<Issue>, worse: seq<Issue>) {
    && |better| == |worse|
    && forall k :: 0 <= k < |better| ==>
         && better[k].weight == worse[k].weight && better[k].websiteWide == worse[k].websiteWide
         && Rank(better[k].severity) <= Rank(worse[k].severity) && better[k].affected <= worse[k].affected
  }

  lemma ShareMonotone(a: Issue, b: Issue, pages: int)
    requires pages >= 1 && a.websiteWide == b.websiteWide && 0 <= a.affected <= b.affected
    ensures Share(a, pages) <= Share(b, pages)
  {
    ShareInRange(a, pages);
    if !a.websiteWide && b.affected <= pages {
      Divided(a.affected as real, b.affected as real, pages as real);
    }
  }

  lemma Divided(a: real, b: real, k: real)
    requires a <= b && k > 0.0
    ensures a / k <= b / k
  {
    var p, q := a / k, b / k;
    assert p * k == a && q * k == b;
    Scaled(p, q, k);
  }

  lemma PartMonotone(a: Issue, b: Issue, pages: int)
    requires pages >= 1 && a.weight == b.weight >= 0.0 && a.websiteWide == b.websiteWide
    requires Multiplier(a.severity) <= Multiplier(b.severity) && 0 <= a.affected <= b.affected
    ensures Part(a, pages) <= Part(b, pages)
  {
    hide Share, Multiplier;
    ShareMonotone(a, b, pages);
    ShareInRange(a, pages);
    MultiplierInRange(a.severity);
    Products(a.weight, Multiplier(a.severity), Multiplier(b.severity), Share(a, pages), Share(b, pages));
  }

  lemma Products(w: real, m: real, m': real, s: real, s': real)
    requires w >= 0.0 && 0.0 <= m <= m' && 0.0 <= s <= s'
    ensures w * m * s <= w * m' * s'
  {
    assert w * m <= w * m';
    assert (w * m) * s <= (w * m') * s;
    assert (w * m') * s <= (w * m') * s';
  }

  lemma {:induction false} WeightedMonotone(better: seq<Issue>, worse: seq<Issue>, pages: int)
    requires Sane(better) && NoBetter(better, worse) && pages >= 1
    ensures Weighted(better, pages) <= Weighted(worse, pages) && Weight(better) == Weight(worse)
  {
    if better != [] {
      hide Part, Multiplier, Rank;
      WeightedMonotone(better[..|better| - 1], worse[..|worse| - 1], pages);
      SeverityIsRanked(better[|better| - 1].severity, worse[|worse| - 1].severity);
      PartMonotone(better[|better| - 1], worse[|worse| - 1], pages);
    }
  }

  /** For fixed issue types the penalty never falls as severities or page counts rise. */
  lemma {:induction false} PenaltyMonotone(better: seq<Issue>, worse: seq<Issue>, evaluated: int)
    requires Sane(better) && NoBetter(better, worse)
    ensures Penalty(better, evaluated) <= Penalty(worse, evaluated)
  {
    WeightedMonotone(better, worse, PagesOf(evaluated));
    WeightedInRange(better, PagesOf(evaluated));
    var weight := Weight(better);
    hide NoBetter, Weighted;
    if weight != 0.0 {
      Divided(100.0 * Weighted(better, PagesOf(evaluated)), 100.0 * Weighted(worse, PagesOf(evaluated)), weight);
    }
  }

  function Grown(issues: seq<Issue>, k: int): seq<Issue> {
    seq(|issues|, i requires 0 <= i < |issues| => issues[i].(affected := k * issues[i].affected))
  }

  lemma PartScales(issue: Issue, pages: int, k: int)
    requires pages >= 1 && k >= 1 && issue.affected >= 0
    ensures k * pages >= 1 && Part(issue.(affected := k * issue.affected), k * pages) == Part(issue, pages)
  {
    var a, p, n := issue.affected as real, pages as real, k as real;
    assert k * pages >= pages;
    assert issue.affected <= pages <==> k * issue.affected <= k * pages;
    assert (k * issue.affected) as real == n * a && (k * pages) as real == n * p;
    SameQuotient(a, p, n);
  }

  lemma SameQuotient(a: real, p: real, n: real)
    requires p > 0.0 && n > 0.0
    ensures n * p > 0.0 && (n * a) / (n * p) == a / p
  {
    var q := a / p;
    assert q * p == a;
    assert n * a == q * (n * p);
  }

  lemma {:induction false} WeightedScales(issues: seq<Issue>, pages: int, k: int)
    requires Sane(issues) && pages >= 1 && k >= 1
    ensures k * pages >= 1 && Weighted(Grown(issues, k), k * pages) == Weighted(issues, pages)
    ensures Weight(Grown(issues, k)) == Weight(issues)
  {
    hide Part;
    assert k * pages >= pages;
    if issues != [] {
      var init := issues[..|issues| - 1];
      WeightedScales(init, pages, k);
      PartScales(issues[|issues| - 1], pages, k);
      assert Grown(issues, k)[..|issues| - 1] == Grown(init, k);
    }
  }

  /** Scaling the site and every count together changes nothing, whatever the size of the site. */
  lemma {:induction false} PenaltyScales(issues: seq<Issue>, evaluated: nat, k: int)
    requires Sane(issues) && k >= 1
    ensures Penalty(Grown(issues, k), k * evaluated) == Penalty(issues, evaluated)
  {
    if evaluated >= 1 {
      WeightedScales(issues, evaluated, k);
      assert k * evaluated >= 1;
    } else {
      WeightedOnOnePage(issues, k);
      assert k * evaluated == 0;
    }
  }

  lemma ShareOnOnePage(issue: Issue, k: int)
    requires k >= 1 && issue.affected >= 0
    ensures Share(issue.(affected := k * issue.affected), 1) == Share(issue, 1)
  {
    assert k * issue.affected >= issue.affected && (issue.affected == 0 ==> k * issue.affected == 0);
  }

  /** With no page evaluated a type counts in full as soon as it is found at all. */
  lemma {:induction false} WeightedOnOnePage(issues: seq<Issue>, k: int)
    requires Sane(issues) && k >= 1
    ensures Weighted(Grown(issues, k), 1) == Weighted(issues, 1) && Weight(Grown(issues, k)) == Weight(issues)
  {
    if issues != [] {
      var init, last := issues[..|issues| - 1], issues[|issues| - 1];
      WeightedOnOnePage(init, k);
      ShareOnOnePage(last, k);
      assert Grown(issues, k) == Grown(init, k) + [last.(affected := k * last.affected)];
      hide Share, Multiplier, Grown;
    }
  }

  // ---- the scorecard ------------------------------------------------------

  ghost predicate SaneScores(scores: seq<Score>) {
    forall k :: 0 <= k < |scores| ==> scores[k].weight >= 0.0
  }

  ghost predicate Between(scores: seq<Score>, lo: real, hi: real) {
    forall k :: 0 <= k < |scores| ==> lo <= scores[k].score <= hi
  }

  lemma {:induction false} SumBetween(scores: seq<Score>, lo: real, hi: real)
    requires SaneScores(scores) && Between(scores, lo, hi)
    ensures lo * LiveWeight(scores) <= Sum(scores) <= hi * LiveWeight(scores)
  {
    if scores != [] {
      var last := scores[|scores| - 1];
      SumBetween(scores[..|scores| - 1], lo, hi);
      Spread(last.score, last.weight, lo, hi);
      var rest := LiveWeight(scores[..|scores| - 1]);
      assert lo * (rest + last.weight) == lo * rest + lo * last.weight;
      assert hi * (rest + last.weight) == hi * rest + hi * last.weight;
    }
  }

  lemma Spread(x: real, w: real, lo: real, hi: real)
    requires w >= 0.0 && lo <= x <= hi
    ensures lo * w <= Product(x, w) <= hi * w
  {
  }

  lemma AverageBetween(sum: real, weight: real, lo: real, hi: real)
    requires weight > 0.0 && lo * weight <= sum <= hi * weight
    ensures lo <= sum / weight <= hi
  {
    var q := sum / weight;
    assert q * weight == sum;
    Scaled(lo, q, weight);
    Scaled(q, hi, weight);
  }

  /** The total lies between the least and the greatest component score, even after rounding. */
  lemma {:induction false} TotalBetween(scores: seq<Score>, lo: real, hi: real)
    requires SaneScores(scores) && LiveWeight(scores) > 0.0
    requires Between(scores, lo, hi) && Shown(lo) && Shown(hi)
    ensures lo <= Total(scores) <= hi
  {
    SumBetween(scores, lo, hi);
    AverageBetween(Sum(scores), LiveWeight(scores), lo, hi);
    RoundStaysWithin(Sum(scores) / LiveWeight(scores), lo, hi);
  }

  ghost predicate SaneInput(components: seq<Component>, issues: map<string, seq<Issue>>, measured: map<string, Option<real>>) {
    && (forall k :: 0 <= k < |components| ==> components[k].weight >= 0.0)
    && (forall key :: key in issues ==> Sane(issues[key]))
    && (forall key :: key in measured && measured[key].Some? ==> 0.0 <= measured[key].value <= 100.0)
  }

  lemma {:induction false} ScoresInRange(components: seq<Component>, issues: map<string, seq<Issue>>, evaluated: int,
      measured: map<string, Option<real>>)
    requires SaneInput(components, issues, measured)
    ensures var scores := Scores(components, issues, evaluated, measured);
      && SaneScores(scores) && Between(scores, 0.0, 100.0)
      && (forall k :: 0 <= k < |scores| ==> Shown(scores[k].score))
  {
    if components != [] {
      ScoresInRange(components[..|components| - 1], issues, evaluated, measured);
      ScoreInRange(components[|components| - 1], issues, evaluated, measured);
      hide Sane, Shown, ScoreOf;
    }
  }

  lemma ScoreInRange(c: Component, issues: map<string, seq<Issue>>, evaluated: int, measured: map<string, Option<real>>)
    requires c.weight >= 0.0 && SaneInput([], issues, measured)
    ensures forall s :: s in ScoreOf(c, issues, evaluated, measured) ==>
      s.weight >= 0.0 && 0.0 <= s.score <= 100.0 && Shown(s.score)
  {
    HundredthsShown();
    var raw := if c.key in measured then
      (if measured[c.key].Some? then measured[c.key].value else 0.0)
    else 100.0 - Penalty(IssuesOf(issues, c.key), evaluated);
    PenaltyInRange(IssuesOf(issues, c.key), evaluated);
    RoundStaysWithin(raw, 0.0, 100.0);
    RoundIsNear(raw);
    hide Round2, Penalty, Shown;
  }

  /**
    Every scorecard is in range: component scores and the total lie in [0, 100],
    and when anything is weighted some component is no better and some no worse
    than the total.
  */
  lemma {:induction false} ScorecardInRange(components: seq<Component>, issues: map<string, seq<Issue>>, evaluated: int,
      measured: map<string, Option<real>>)
    requires SaneInput(components, issues, measured)
    ensures var scores := Scores(components, issues, evaluated, measured);
      && Between(scores, 0.0, 100.0) && 0.0 <= Total(scores) <= 100.0
      && (LiveWeight(scores) > 0.0 ==>
            exists i, j :: 0 <= i < |scores| && 0 <= j < |scores| && scores[i].score <= Total(scores) <= scores[j].score)
  {
    var scores := Scores(components, issues, evaluated, measured);
    ScoresInRange(components, issues, evaluated, measured);
    hide Scores, SaneInput;
    if LiveWeight(scores) > 0.0 {
      HundredthsShown();
      TotalBetween(scores, 0.0, 100.0);
      var i, j := Extremes(scores);
      TotalBetween(scores, scores[i].score, scores[j].score);
    }
  }

  lemma {:induction false} Extremes(scores: seq<Score>) returns (i: nat, j: nat)
    requires scores != []
    ensures i < |scores| && j < |scores| && Between(scores, scores[i].score, scores[j].score)
  {
    if |scores| == 1 {
      i, j := 0, 0;
    } else {
      var last := |scores| - 1;
      i, j := Extremes(scores[..last]);
      if scores[last].score < scores[i].score {
        i := last;
      }
      if scores[last].score > scores[j].score {
        j := last;
      }
    }
  }

  /** A component without data is absent, never zero: leaving it out of the catalogue gives the same scorecard. */
  lemma {:induction false} AbsentIsNotZero(components: seq<Component>, issues: map<string, seq<Issue>>, evaluated: int,
      measured: map<string, Option<real>>)
    ensures Scores(components, issues, evaluated, measured) == Scores(WithData(components, measured), issues, evaluated, measured)
  {
    if components != [] {
      var init, last := components[..|components| - 1], components[|components| - 1];
      AbsentIsNotZero(init, issues, evaluated, measured);
      if HasData(last, measured) {
        assert (WithData(init, measured) + [last])[..|WithData(init, measured)|] == WithData(init, measured);
      } else {
        assert ScoreOf(last, issues, evaluated, measured) == [];
        assert WithData(components, measured) == WithData(init, measured);
      }
      hide ScoreOf;
    }
  }

  // ---- the total orders ---------------------------------------------------

  /** The same components and weights, none scoring better. */
  ghost predicate NoHigher(low: seq<Score>, high: seq<Score>) {
    && |low| == |high|
    && forall k :: 0 <= k < |low| ==> low[k].weight == high[k].weight && low[k].score <= high[k].score
  }

  /** The total never rises when component scores fall. */
  lemma {:induction false} TotalMonotone(low: seq<Score>, high: seq<Score>)
    requires SaneScores(low) && NoHigher(low, high)
    ensures Total(low) <= Total(high)
  {
    SumMonotone(low, high);
    if LiveWeight(low) > 0.0 {
      Divided(Sum(low), Sum(high), LiveWeight(low));
      RoundMonotone(Sum(low) / LiveWeight(low), Sum(high) / LiveWeight(high));
    }
  }

  lemma {:induction false} SumMonotone(low: seq<Score>, high: seq<Score>)
    requires SaneScores(low) && NoHigher(low, high)
    ensures Sum(low) <= Sum(high) && LiveWeight(low) == LiveWeight(high)
  {
    if low != [] {
      var last := |low| - 1;
      SumMonotone(low[..last], high[..last]);
      assert Product(low[last].score, low[last].weight) <= Product(high[last].score, high[last].weight);
      hide Product;
    }
  }

  /** The total is the mean of the scores by weight, within half a hundredth; weights and products add up. */
  lemma {:induction false} TotalIsMean(scores: seq<Score>, more: seq<Score>, s: Score)
    requires LiveWeight(scores) > 0.0
    ensures -0.005 * LiveWeight(scores) <= Total(scores) * LiveWeight(scores) - Sum(scores) <= 0.005 * LiveWeight(scores)
    ensures LiveWeight(scores + more) == LiveWeight(scores) + LiveWeight(more) && Sum(scores + more) == Sum(scores) + Sum(more)
    ensures LiveWeight([s]) == s.weight && Sum([s]) == s.score * s.weight
  {
    SumOfOne(s);
    SumsAdd(scores, more);
    hide Sum, LiveWeight, Round2;
    var w, sum := LiveWeight(scores), Sum(scores);
    RoundIsNear(sum / w);
    NearMean(Total(scores), sum, w);
  }

  lemma SumOfOne(s: Score)
    ensures LiveWeight([s]) == s.weight && Sum([s]) == s.score * s.weight
  {
    assert [s][..|[s]| - 1] == [] && [s][|[s]| - 1] == s;
    assert LiveWeight([]) == 0.0 && Sum([]) == 0.0;
  }

  lemma NearMean(rounded: real, sum: real, w: real)
    requires w > 0.0 && -0.005 <= rounded - sum / w <= 0.005
    ensures -0.005 * w <= rounded * w - sum <= 0.005 * w
  {
    var mean := sum / w;
    Undivided(sum, w);
    assert mean * w == sum;
    NearTimes(rounded, mean, w);
  }

  lemma NearTimes(a: real, b: real, w: real)
    requires w > 0.0 && -0.005 <= a - b <= 0.005
    ensures -0.005 * w <= a * w - b * w <= 0.005 * w
  {
    Scaled(-0.005, a - b, w);
    Scaled(a - b, 0.005, w);
    assert (a - b) * w == a * w - b * w;
  }

  lemma {:induction false} SumsAdd(scores: seq<Score>, more: seq<Score>)
    ensures LiveWeight(scores + more) == LiveWeight(scores) + LiveWeight(more) && Sum(scores + more) == Sum(scores) + Sum(more)
  {
    hide Product;
    if more == [] {
      assert scores + more == scores;
    } else {
      SumsAdd(scores, more[..|more| - 1]);
      assert (scores + more)[..|scores + more| - 1] == scores + more[..|more| - 1];
    }
  }

  // ---- what a score is of its issues --------------------------------------

  ghost predicate AllCritical(issues: seq<Issue>) {
    forall k :: 0 <= k < |issues| ==> issues[k].severity == "critical" && issues[k].websiteWide
  }

  /** Nothing found is a hundred; everything critical and everywhere is nothing. */
  lemma {:induction false} ScoreEnds(c: Component, s: Score, issues: map<string, seq<Issue>>, evaluated: int,
      measured: map<string, Option<real>>)
    requires RightScore(c, s, issues, evaluated, measured) && c.key !in measured
    ensures c.key !in issues || issues[c.key] == [] ==> s.score == 100.0
    ensures c.key in issues && Weight(issues[c.key]) > 0.0 && AllCritical(issues[c.key]) ==> s.score == 0.0
  {
    HundredthsShown();
    RoundIsNear(0.0);
    RoundIsNear(100.0);
    if c.key in issues && Weight(issues[c.key]) > 0.0 && AllCritical(issues[c.key]) {
      AllLost(issues[c.key], evaluated);
    }
    hide Round2;
  }

  lemma {:induction false} AllLost(issues: seq<Issue>, evaluated: int)
    requires Weight(issues) > 0.0
    requires AllCritical(issues)
    ensures Penalty(issues, evaluated) == 100.0
  {
    WeightedInFull(issues, PagesOf(evaluated));
    hide Weighted, Weight;
    OneOf(Weight(issues));
  }

  lemma OneOf(w: real)
    requires w > 0.0
    ensures 100.0 * w / w == 100.0
  {
  }

  lemma {:induction false} WeightedInFull(issues: seq<Issue>, pages: int)
    requires pages >= 1
    requires AllCritical(issues)
    ensures Weighted(issues, pages) == Weight(issues)
  {
    if issues != [] {
      WeightedInFull(issues[..|issues| - 1], pages);
    }
  }

  /** One issue takes off its severity's share of a hundred, times the share of the site it touches. */
  lemma PenaltyOfOne(issue: Issue, evaluated: int)
    requires issue.weight > 0.0 && issue.affected >= 0
    ensures var worth := match Rank(issue.severity) case 4 => 100.0 case 3 => 70.0 case 2 => 40.0 case 1 => 15.0 case _ => 0.0;
      var pages := if evaluated < 1 then 1 else evaluated;
      if issue.websiteWide || issue.affected >= pages then Penalty([issue], evaluated) == worth
      else Penalty([issue], evaluated) * pages as real == worth * issue.affected as real
  {
    hide Multiplier, Rank, Share, Penalty;
    PenaltyAlone(issue, evaluated);
    SeverityWorth(issue.severity);
    ShareMeans(issue, PagesOf(evaluated));
    TimesPages(Multiplier(issue.severity), Share(issue, PagesOf(evaluated)), PagesOf(evaluated) as real, issue.affected as real);
  }

  lemma PenaltyAlone(issue: Issue, evaluated: int)
    requires issue.weight > 0.0 && issue.affected >= 0
    ensures Penalty([issue], evaluated) == 100.0 * (Multiplier(issue.severity) * Share(issue, PagesOf(evaluated)))
  {
    var pages := PagesOf(evaluated);
    hide Multiplier, Share, Penalty;
    WeightedAlone(issue, pages);
    PenaltyInRange([issue], evaluated);
    hide Weighted, Weight;
    Cancels(issue.weight, Multiplier(issue.severity), Share(issue, pages), Weighted([issue], pages), Penalty([issue], evaluated));
  }

  lemma WeightedAlone(issue: Issue, pages: int)
    requires pages >= 1
    ensures Weighted([issue], pages) == issue.weight * Multiplier(issue.severity) * Share(issue, pages)
    ensures Weight([issue]) == issue.weight
  {
    hide Multiplier, Share;
    assert [issue][..|[issue]| - 1] == [] && [issue][|[issue]| - 1] == issue;
    assert Weighted([], pages) == 0.0 && Weight([]) == 0.0;
  }

  lemma ShareMeans(issue: Issue, pages: int)
    requires pages >= 1
    ensures if issue.websiteWide || issue.affected >= pages then Share(issue, pages) == 1.0
      else Share(issue, pages) * pages as real == issue.affected as real
  {
  }

  lemma Cancels(w: real, m: real, share: real, part: real, penalty: real)
    requires w > 0.0 && part == w * m * share && penalty == 100.0 * part / w
    ensures penalty == 100.0 * (m * share)
  {
    assert 100.0 * part == (100.0 * (m * share)) * w;
  }

  lemma TimesPages(m: real, share: real, pages: real, affected: real)
    requires share == 1.0 || share * pages == affected
    ensures share == 1.0 ==> 100.0 * (m * share) == 100.0 * m
    ensures share * pages == affected ==> 100.0 * (m * share) * pages == 100.0 * m * affected
  {
    assert (m * share) * pages == m * (share * pages);
  }

  /** The penalty of two groups of issues is the mean of theirs, each pulling by its weight. */
  lemma {:induction false} PenaltyIsMean(a: seq<Issue>, b: seq<Issue>, evaluated: int)
    requires Sane(a) && Sane(b) && Weight(a) > 0.0 && Weight(b) > 0.0
    ensures Weight(a + b) == Weight(a) + Weight(b)
    ensures Penalty(a + b, evaluated) * Weight(a + b) == Penalty(a, evaluated) * Weight(a) + Penalty(b, evaluated) * Weight(b)
  {
    hide Weighted, Weight, Penalty;
    PartsAdd(a, b, PagesOf(evaluated));
    PenaltyTimesWeight(a, evaluated);
    PenaltyTimesWeight(b, evaluated);
    PenaltyTimesWeight(a + b, evaluated);
  }

  lemma PenaltyTimesWeight(issues: seq<Issue>, evaluated: int)
    requires Sane(issues) && Weight(issues) > 0.0
    ensures Penalty(issues, evaluated) * Weight(issues) == 100.0 * Weighted(issues, PagesOf(evaluated))
  {
    hide Weighted, Weight, Penalty;
    PenaltyInRange(issues, evaluated);
    Undivided(100.0 * Weighted(issues, PagesOf(evaluated)), Weight(issues));
  }

  lemma Undivided(x: real, w: real)
    requires w > 0.0
    ensures x / w * w == x
  {
  }

  lemma {:induction false} PartsAdd(a: seq<Issue>, b: seq<Issue>, pages: int)
    requires pages >= 1
    ensures Weighted(a + b, pages) == Weighted(a, pages) + Weighted(b, pages) && Weight(a + b) == Weight(a) + Weight(b)
  {
    hide Part;
    if b == [] {
      assert a + b == a;
    } else {
      PartsAdd(a, b[..|b| - 1], pages);
      assert (a + b)[..|a + b| - 1] == a + b[..|b| - 1];
    }
  }

  /** The same issue types for every component, none less severe or on fewer pages. */
  ghost predicate NoneBetter(better: map<string, seq<Issue>>, worse: map<string, seq<Issue>>) {
    better.Keys == worse.Keys && forall key :: key in better ==> Sane(better[key]) && NoBetter(better[key], worse[key])
  }

  /** With nothing better anywhere, no component and no total scores higher. */
  lemma {:induction false} CardMonotone(components: seq<Component>, better: map<string, seq<Issue>>, worse: map<string, seq<Issue>>,
      evaluated: int, measured: map<string, Option<real>>, high: seq<Score>, low: seq<Score>)
    requires NoneBetter(better, worse) && forall k :: 0 <= k < |components| ==> components[k].weight >= 0.0
    requires RightCard(components, better, evaluated, measured, high) && RightCard(components, worse, evaluated, measured, low)
    ensures NoHigher(low, high) && Total(low) <= Total(high)
  {
    var live := WithData(components, measured);
    LiveAreComponents(components, measured);
    hide WithData, RightScore, Total, NoneBetter;
    forall k | 0 <= k < |low|
      ensures low[k].weight == high[k].weight >= 0.0 && low[k].score <= high[k].score
    {
      ScoreMonotone(live[k], better, worse, evaluated, measured, high[k], low[k]);
    }
    TotalMonotone(low, high);
  }

  lemma {:induction false} LiveAreComponents(components: seq<Component>, measured: map<string, Option<real>>)
    ensures forall k :: 0 <= k < |WithData(components, measured)| ==> WithData(components, measured)[k] in components
  {
    if components != [] {
      LiveAreComponents(components[..|components| - 1], measured);
    }
  }

  lemma ScoreMonotone(c: Component, better: map<string, seq<Issue>>, worse: map<string, seq<Issue>>,
      evaluated: int, measured: map<string, Option<real>>, high: Score, low: Score)
    requires NoneBetter(better, worse)
    requires RightScore(c, high, better, evaluated, measured) && RightScore(c, low, worse, evaluated, measured)
    ensures low.weight == high.weight == c.weight && low.score <= high.score
  {
    hide Penalty, Round2, Sane, NoBetter;
    if c.key !in measured && c.key in better {
      PenaltyMonotone(better[c.key], worse[c.key], evaluated);
      RoundMonotone(100.0 - Penalty(worse[c.key], evaluated), 100.0 - Penalty(better[c.key], evaluated));
    }
  }

  // ---- the components that are measured -----------------------------------

  function Clicks(pages: seq<nat>): nat {
    if pages == [] then 0 else Clicks(pages[..|pages| - 1]) + pages[|pages| - 1]
  }

  /** `_search_performance`, from the clicks of each page in this window and in the one before. */
  function SearchPerformance(pages: seq<nat>, prior: seq<nat>): Option<real> {
    if pages == [] then None
    else if prior == [] then Some(70.0)
    else
      var now, before := Clicks(pages), Clicks(prior);
      if before == 0 then Some(if now > 0 then 85.0 else 50.0)
      else Some(Clamped(60.0 + ((now - before) as real / before as real) * 80.0))
  }

  function Clamped(x: real): real {
    if x < 0.0 then 0.0 else if x > 100.0 then 100.0 else x
  }

  /** `_analytics_coverage`. */
  function AnalyticsCoverage(hasData: bool, hasGoals: bool): Option<real> {
    if !hasData then None else Some(if hasGoals then 100.0 else 65.0)
  }

  /** What the analysis hands to the scoring as measured. */
  function Measured(pages: seq<nat>, prior: seq<nat>, hasData: bool, hasGoals: bool): map<string, Option<real>> {
    map["search_performance" := SearchPerformance(pages, prior), "analytics_coverage" := AnalyticsCoverage(hasData, hasGoals)]
  }

  /** For the same clicks before, more clicks now never lower the score; as many as before score 60. */
  lemma SearchPerformanceMonotone(pages: seq<nat>, more: seq<nat>, prior: seq<nat>)
    requires pages != [] && more != [] && Clicks(pages) <= Clicks(more)
    ensures SearchPerformance(pages, prior).value <= SearchPerformance(more, prior).value
    ensures prior != [] && Clicks(pages) == Clicks(prior) > 0 ==> SearchPerformance(pages, prior) == Some(60.0)
  {
    if prior != [] && Clicks(prior) > 0 {
      var before := Clicks(prior);
      Divided((Clicks(pages) - before) as real, (Clicks(more) - before) as real, before as real);
      hide Clicks;
    }
  }

  /**
    The two measured components: no pages is no data, no history is 70, no clicks
    before is 85 with clicks now and 50 without, and otherwise 60 with 0.8 points
    for each percent of change, within the scale; no analytics is no data, and
    goals are worth 35 points.
  */
  lemma MeasuredMeans(pages: seq<nat>, prior: seq<nat>, hasData: bool, hasGoals: bool)
    ensures var measured := Measured(pages, prior, hasData, hasGoals);
      && measured.Keys == {"search_performance", "analytics_coverage"}
      && measured["analytics_coverage"] == (if !hasData then None else Some(if hasGoals then 100.0 else 65.0))
      && (measured["search_performance"].None? <==> pages == [])
      && (pages != [] ==> TrafficScore(Clicks(pages), Clicks(prior), prior != [], measured["search_performance"].value))
  {
    hide SearchPerformance, TrafficScore, Clicks;
    KeysDiffer();
    SearchPerformanceMeans(pages, prior);
  }

  /** What the clicks now and before are worth. */
  ghost predicate TrafficScore(now: int, before: int, known: bool, score: real) {
    if !known then score == 70.0
    else if before == 0 then score == if now > 0 then 85.0 else 50.0
    else if 2 * now >= 3 * before then score == 100.0
    else if 4 * now <= before then score == 0.0
    else (score - 60.0) * before as real == 80.0 * (now - before) as real
  }

  lemma SearchPerformanceMeans(pages: seq<nat>, prior: seq<nat>)
    ensures SearchPerformance(pages, prior).None? <==> pages == []
    ensures pages != [] ==> TrafficScore(Clicks(pages), Clicks(prior), prior != [], SearchPerformance(pages, prior).value)
  {
    var now: int, before: int := Clicks(pages), Clicks(prior);
    hide Clicks, Clamped;
    if before > 0 {
      Slope((now - before) as real, before as real);
    }
  }

  lemma KeysDiffer()
    ensures "search_performance" != "analytics_coverage"
  {
    assert "search_performance"[0] == 's';
  }

  lemma Slope(change: real, before: real)
    requires before > 0.0
    ensures var x := 60.0 + change / before * 80.0;
      && (2.0 * change >= before ==> Clamped(x) == 100.0)
      && (4.0 * change <= -3.0 * before ==> Clamped(x) == 0.0)
      && (2.0 * change < before && 4.0 * change > -3.0 * before ==> (Clamped(x) - 60.0) * before == 80.0 * change)
  {
    var q := change / before;
    assert q * before == change;
    Scaled(0.5, q, before);
    Scaled(q, 0.5, before);
    Scaled(q, -0.75, before);
    Scaled(-0.75, q, before);
    if -0.75 <= q <= 0.5 {
      InnerSlope(q, change, before);
    }
  }

  lemma InnerSlope(q: real, change: real, before: real)
    requires q * before == change && -0.75 <= q <= 0.5
    ensures (Clamped(60.0 + q * 80.0) - 60.0) * before == 80.0 * change
  {
    assert Clamped(60.0 + q * 80.0) - 60.0 == 80.0 * q;
    assert (80.0 * q) * before == 80.0 * (q * before);
  }

  /** Clicks add up. */
  lemma {:induction false} ClicksAdd(a: seq<nat>, b: seq<nat>, n: nat)
    ensures Clicks(a + b) == Clicks(a) + Clicks(b) && Clicks([n]) == n
  {
    assert [n][..0] == [];
    if b == [] {
      assert a + b == a;
    } else {
      ClicksAdd(a, b[..|b| - 1], n);
      assert (a + b)[..|a + b| - 1] == a + b[..|b| - 1];
    }
  }

  /** What the analysis measures is on the scale, so its scorecard is, whatever the traffic. */
  lemma {:induction false} AnalysisScorecardInRange(components: seq<Component>, issues: map<string, seq<Issue>>, evaluated: int,
      pages: seq<nat>, prior: seq<nat>, hasData: bool, hasGoals: bool)
    requires forall k :: 0 <= k < |components| ==> components[k].weight >= 0.0
    requires forall key :: key in issues ==> Sane(issues[key])
    ensures var scores := Scores(components, issues, evaluated, Measured(pages, prior, hasData, hasGoals));
      Between(scores, 0.0, 100.0) && 0.0 <= Total(scores) <= 100.0
  {
    var measured := Measured(pages, prior, hasData, hasGoals);
    assert SaneInput(components, issues, measured);
    hide SaneInput, Scores, Measured;
    ScorecardInRange(components, issues, evaluated, measured);
  }
}
