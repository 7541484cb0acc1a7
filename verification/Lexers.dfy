/**
  The two number scanners of the evidence check (api/ai/numbers.py): the figures
  a reader would take for claims, and every digit string in the evidence. Both
  are regular expressions scanned left to right; each is given here as the
  ordered list of ways it can match at a place, of which the first that
  satisfies its guards is taken.
*/
module Lexers {
  import opened Ascii
  import opened Prelude

  predicate DigitAt(text: string, p: nat) {
    p < |text| && IsDigit(text[p])
  }

  predicate WordAt(text: string, p: nat) {
    p < |text| && IsWord(text[p])
  }

  predicate CharAt(text: string, p: nat, c: char) {
    p < |text| && text[p] == c
  }

  /** Where the digits that start at `p` end. */
  function Run(text: string, p: nat): (e: nat)
    ensures p <= e && (p <= |text| ==> e <= |text|) && !DigitAt(text, e)
    ensures forall k :: p <= k < e ==> DigitAt(text, k)
    decreases |text| - p
  {
    if DigitAt(text, p) then Run(text, p + 1) else p
  }

  // ---- the figure expression ----------------------------------------------

  /** `\d+` from `p`: its possible ends, longest first. */
  function DigitEnds(text: string, p: nat): seq<nat>
    decreases |text| - p
  {
    if DigitAt(text, p) then DigitEnds(text, p + 1) + [p + 1] else []
  }

  /** `(?:,\d{3})+` from `p`: its possible ends, longest first. */
  function GroupEnds(text: string, p: nat): seq<nat>
    decreases |text| - p
  {
    if CharAt(text, p, ',') && DigitAt(text, p + 1) && DigitAt(text, p + 2) && DigitAt(text, p + 3)
    then GroupEnds(text, p + 4) + [p + 4]
    else []
  }

  /** `\d{n}` followed by comma groups. */
  function Grouped(text: string, p: nat, n: nat): seq<nat> {
    if forall k :: p <= k < p + n ==> DigitAt(text, k) then GroupEnds(text, p + n) else []
  }

  /** The whole part: grouped by commas if it can be, plain digits otherwise. */
  function WholeEnds(text: string, p: nat): seq<nat> {
    Grouped(text, p, 3) + Grouped(text, p, 2) + Grouped(text, p, 1) + DigitEnds(text, p)
  }

  /** `(?:\.\d+)?` from `e`. */
  function FracEnds(text: string, e: nat): seq<nat> {
    (if CharAt(text, e, '.') then DigitEnds(text, e + 1) else []) + [e]
  }

  /** `(?!\w)(?!\.\d)`: the number does not go on. */
  predicate Guard(text: string, e: nat) {
    !WordAt(text, e) && !(CharAt(text, e, '.') && DigitAt(text, e + 1))
  }

  function FirstFrac(text: string, ends: seq<nat>): Option<nat> {
    if ends == [] then None
    else if Guard(text, ends[0]) then Some(ends[0])
    else FirstFrac(text, ends[1..])
  }

  function FirstWhole(text: string, ends: seq<nat>): Option<(nat, nat)> {
    if ends == [] then None else
      match FirstFrac(text, FracEnds(text, ends[0]))
      case Some(frac) => Some((ends[0], frac))
      case None => FirstWhole(text, ends[1..])
  }

  function SkipSpaces(text: string, p: nat): (e: nat)
    ensures p <= e && (p <= |text| ==> e <= |text|)
    ensures forall k :: p <= k < e ==> k < |text| && IsSpace(text[k])
    decreases |text| - p
  {
    if p < |text| && IsSpace(text[p]) then SkipSpaces(text, p + 1) else p
  }

  /** One match: the whole part is `[start, whole)`, the decimals reach to `frac`, the match to `end`. */
  datatype Match = Match(start: nat, whole: nat, frac: nat, end: nat, percent: bool)

  /** `(?<![\w.])`: a figure does not start inside a word or after a dot. */
  predicate MayStart(text: string, p: nat) {
    p == 0 || (p <= |text| && !IsWord(text[p - 1]) && text[p - 1] != '.')
  }

  function MatchAt(text: string, p: nat): Option<Match> {
    if !MayStart(text, p) then None else
      match FirstWhole(text, WholeEnds(text, p))
      case None => None
      case Some((whole, frac)) =>
        var e := SkipSpaces(text, frac);
        Some(if CharAt(text, e, '%') then Match(p, whole, frac, e + 1, true) else Match(p, whole, frac, e, false))
  }

  // ---- what a match can be ------------------------------------------------

  /** Where the decimals after a whole part that ends at `e` end, when nothing may be given back. */
  function FracEnd(text: string, e: nat): nat {
    if CharAt(text, e, '.') && DigitAt(text, e + 1) then Run(text, e + 1) else e
  }

  lemma {:induction false} DigitEndsShape(text: string, p: nat)
    ensures var ends := DigitEnds(text, p);
      && (DigitAt(text, p) <==> ends != [])
      && (ends != [] ==> ends[0] == Run(text, p))
      && (forall k :: 0 <= k < |ends| ==> p < ends[k] <= Run(text, p))
      && (forall k :: 0 < k < |ends| ==> DigitAt(text, ends[k]))
    decreases |text| - p
  {
    if DigitAt(text, p) {
      DigitEndsShape(text, p + 1);
      if !DigitAt(text, p + 1) {
        assert DigitEnds(text, p) == [p + 1];
      }
    }
  }

  lemma NoGuardInDigits(text: string, ends: seq<nat>)
    requires forall k :: 0 <= k < |ends| ==> !Guard(text, ends[k])
    ensures FirstFrac(text, ends) == None
  {
  }

  /** Giving decimals back never helps: the match takes all of them or fails. */
  lemma {:induction false} FracIsGreedy(text: string, e: nat)
    ensures FirstFrac(text, FracEnds(text, e)) == if Guard(text, FracEnd(text, e)) then Some(FracEnd(text, e)) else None
  {
    if CharAt(text, e, '.') && DigitAt(text, e + 1) {
      DigitEndsShape(text, e + 1);
      var ends := FracEnds(text, e);
      assert ends[0] == FracEnd(text, e);
      assert forall k :: 1 <= k < |ends| ==> !Guard(text, ends[k]);
      NoGuardInDigits(text, ends[1..]);
    } else {
      DigitEndsShape(text, e + 1);
      assert FracEnds(text, e) == [e];
      assert [e][1..] == [];
    }
  }

  predicate HasComma(text: string, p: nat, e: nat) {
    exists k :: p <= k < e && CharAt(text, k, ',')
  }

  lemma {:induction false} GroupsHaveCommas(text: string, p: nat)
    ensures forall k :: 0 <= k < |GroupEnds(text, p)| ==> GroupEnds(text, p)[k] > p && CharAt(text, p, ',')
    ensures forall k :: 0 <= k < |GroupEnds(text, p)| ==> GroupEnds(text, p)[k] <= |text|
    decreases |text| - p
  {
    if GroupEnds(text, p) != [] {
      GroupsHaveCommas(text, p + 4);
    }
  }

  /** Each candidate for the whole part has commas in it, or is made of the digits that start at `p`. */
  lemma WholeEndsShape(text: string, p: nat, k: nat)
    requires k < |WholeEnds(text, p)|
    ensures DigitAt(text, p) && p < WholeEnds(text, p)[k] <= |text|
    ensures HasComma(text, p, WholeEnds(text, p)[k]) || WholeEnds(text, p)[k] <= Run(text, p)
  {
    var e := WholeEnds(text, p)[k];
    var a, b, c := Grouped(text, p, 3), Grouped(text, p, 2), Grouped(text, p, 1);
    GroupsHaveCommas(text, p + 3);
    GroupsHaveCommas(text, p + 2);
    GroupsHaveCommas(text, p + 1);
    DigitEndsShape(text, p);
    assert a + b + c != [] ==> DigitAt(text, p);
    assert a != [] ==> a == GroupEnds(text, p + 3);
    assert b != [] ==> b == GroupEnds(text, p + 2);
    assert c != [] ==> c == GroupEnds(text, p + 1);
    assert WholeEnds(text, p) == a + b + c + DigitEnds(text, p);
    var d := DigitEnds(text, p);
    InOneOfFour(a, b, c, d, k);
    hide Grouped, GroupEnds, DigitEnds, Run, WholeEnds, CharAt, DigitAt;
    assert e in a ==> CharAt(text, p + 3, ',');
    assert e in b ==> CharAt(text, p + 2, ',');
    assert e in c ==> CharAt(text, p + 1, ',');
  }

  lemma InOneOfFour<T>(a: seq<T>, b: seq<T>, c: seq<T>, d: seq<T>, k: nat)
    requires k < |a + b + c + d|
    ensures var x := (a + b + c + d)[k]; x in a || x in b || x in c || x in d
  {
  }

  lemma {:induction false} FirstWholeShape(text: string, ends: seq<nat>)
    ensures var r := FirstWhole(text, ends);
      && (r.Some? ==> r.value.0 in ends && r.value.1 == FracEnd(text, r.value.0) && Guard(text, r.value.1))
      && (r.None? <==> forall k :: 0 <= k < |ends| ==> !Guard(text, FracEnd(text, ends[k])))
  {
    if ends != [] {
      FracIsGreedy(text, ends[0]);
      FirstWholeShape(text, ends[1..]);
      assert forall k :: 1 <= k < |ends| ==> ends[k] == ends[1..][k - 1];
    }
  }

  lemma FracEndBounds(text: string, e: nat)
    requires e <= |text|
    ensures e <= FracEnd(text, e) <= |text|
  {
  }

  lemma GuardNeedsNoDigit(text: string, e: nat)
    requires Guard(text, FracEnd(text, e))
    ensures !DigitAt(text, e)
  {
  }

  /** A match takes all its decimals, ends where the number ends, and without commas takes all its digits. */
  lemma {:induction false} MatchShape(text: string, p: nat)
    requires MatchAt(text, p).Some?
    ensures var m := MatchAt(text, p).value;
      && m.start == p < m.whole <= m.frac <= m.end <= |text| && DigitAt(text, p)
      && m.frac == FracEnd(text, m.whole) && Guard(text, m.frac)
      && (HasComma(text, p, m.whole) || m.whole == Run(text, p))
      && (forall k :: m.frac <= k < m.end ==> IsSpace(text[k]) || text[k] == '%')
  {
    hide WholeEnds, FirstWhole, Guard, FracEnd, MayStart, HasComma;
    FirstWholeShape(text, WholeEnds(text, p));
    var m := MatchAt(text, p).value;
    var k :| 0 <= k < |WholeEnds(text, p)| && WholeEnds(text, p)[k] == m.whole;
    WholeEndsShape(text, p, k);
    FracEndBounds(text, m.whole);
    GuardNeedsNoDigit(text, m.whole);
    assert m.whole < Run(text, p) ==> DigitAt(text, m.whole);
  }

  // ---- scanning -----------------------------------------------------------

  /** `_NUMBER.finditer`: the matches from `p` on, left to right, none overlapping. */
  function MatchesFrom(text: string, p: nat): seq<Match>
    decreases |text| - p
  {
    if p >= |text| then []
    else if MatchAt(text, p).Some? then
      MatchShape(text, p);
      [MatchAt(text, p).value] + MatchesFrom(text, MatchAt(text, p).value.end)
    else MatchesFrom(text, p + 1)
  }

  /** `_ANY_DIGITS.findall`: every digit string and the decimals that follow it. */
  function TokensFrom(text: string, p: nat): seq<Match>
    decreases |text| - p
  {
    if p >= |text| then []
    else if DigitAt(text, p) then
      var whole := Run(text, p);
      var frac := FracEnd(text, whole);
      [Match(p, whole, frac, frac, false)] + TokensFrom(text, frac)
    else TokensFrom(text, p + 1)
  }

  /** Every match found is a match where it starts. */
  lemma {:induction false} MatchesAreMatches(text: string, p: nat, m: Match)
    requires m in MatchesFrom(text, p)
    ensures p <= m.start < |text| && MatchAt(text, m.start) == Some(m)
    decreases |text| - p
  {
    if MatchAt(text, p).Some? {
      MatchShape(text, p);
      var first := MatchAt(text, p).value;
      if m != first {
        assert m in MatchesFrom(text, first.end);
        MatchesAreMatches(text, first.end, m);
      }
    } else {
      MatchesAreMatches(text, p + 1, m);
    }
  }

  /** Nothing slips past: every place where a figure could be read is inside a figure that was found. */
  lemma {:induction false} NothingSlipsPast(text: string, p: nat, i: nat)
    requires p <= i < |text| && MatchAt(text, i).Some?
    ensures exists m :: m in MatchesFrom(text, p) && m.start <= i < m.end
    decreases |text| - p
  {
    MatchShape(text, i);
    if MatchAt(text, p).Some? {
      MatchShape(text, p);
      var first := MatchAt(text, p).value;
      if i < first.end {
        assert first in MatchesFrom(text, p);
      } else {
        NothingSlipsPast(text, first.end, i);
        var m :| m in MatchesFrom(text, first.end) && m.start <= i < m.end;
        assert m in MatchesFrom(text, p);
      }
    } else {
      NothingSlipsPast(text, p + 1, i);
    }
  }

  /** In plain digits a figure is read exactly where a number starts and does not run on into a word or another group. */
  lemma {:induction false} PlainFigure(text: string, p: nat)
    requires !CharAt(text, Run(text, p), ',')
    ensures MatchAt(text, p).Some? <==>
      MayStart(text, p) && DigitAt(text, p) && Guard(text, FracEnd(text, Run(text, p)))
  {
    DigitEndsShape(text, p);
    FirstWholeShape(text, WholeEnds(text, p));
    if MatchAt(text, p).Some? {
      MatchShape(text, p);
      GroupsNeedComma(text, p);
      var m := MatchAt(text, p).value;
      assert m.whole in DigitEnds(text, p);
      assert m.whole < Run(text, p) ==> DigitAt(text, m.whole);
    } else if DigitAt(text, p) {
      var k := |WholeEnds(text, p)| - |DigitEnds(text, p)|;
      assert WholeEnds(text, p)[k] == Run(text, p);
    }
  }

  lemma GroupsNeedComma(text: string, p: nat)
    requires !CharAt(text, Run(text, p), ',')
    ensures WholeEnds(text, p) == DigitEnds(text, p)
  {
    var r := Run(text, p);
    forall n: nat | 1 <= n
      ensures Grouped(text, p, n) == []
    {
      if forall k :: p <= k < p + n ==> DigitAt(text, k) {
        assert !DigitAt(text, r);
        assert p + n < r ==> DigitAt(text, p + n);
      }
    }
  }

  lemma InsideToken(text: string, p: nat, i: nat)
    requires DigitAt(text, p) && p < i < FracEnd(text, Run(text, p))
    ensures i <= |text| && (IsDigit(text[i - 1]) || text[i - 1] == '.')
  {
    assert DigitAt(text, i - 1) || CharAt(text, i - 1, '.');
  }

  /** The second scanner reads a number at every place the first one does. */
  lemma {:induction false} TokenAt(text: string, p: nat, i: nat)
    requires p <= i && DigitAt(text, i) && (i == p || (!IsDigit(text[i - 1]) && text[i - 1] != '.'))
    ensures Match(i, Run(text, i), FracEnd(text, Run(text, i)), FracEnd(text, Run(text, i)), false) in TokensFrom(text, p)
    decreases |text| - p
  {
    var token := Match(i, Run(text, i), FracEnd(text, Run(text, i)), FracEnd(text, Run(text, i)), false);
    if p == i {
      assert TokensFrom(text, p)[0] == token;
    } else if DigitAt(text, p) {
      var frac := FracEnd(text, Run(text, p));
      if i < frac {
        InsideToken(text, p, i);
      }
      TokenAt(text, frac, i);
      assert token in TokensFrom(text, frac);
    } else {
      TokenAt(text, p + 1, i);
    }
  }

  // ---- the expressions, read out ------------------------------------------

  /** What may not follow a figure: a word character, or a dot and a digit. */
  ghost predicate GoesOn(text: string, e: nat) {
    e < |text| && (IsWord(text[e]) || (text[e] == '.' && e + 1 < |text| && '0' <= text[e + 1] <= '9'))
  }

  /** What may not come before a figure: a word character or a dot. */
  ghost predicate GoesBefore(text: string, p: nat) {
    0 < p <= |text| && (IsWord(text[p - 1]) || text[p - 1] == '.')
  }

  /** The decimals after a whole part that ends at `e` reach to `f`: a dot and every digit after it, or nothing. */
  ghost predicate DecimalsReach(text: string, e: nat, f: nat) {
    if e + 1 < |text| && text[e] == '.' && '0' <= text[e + 1] <= '9' then
      e + 1 < f <= |text| && AllDigits(text[e + 1..f]) && (f < |text| ==> !('0' <= text[f] <= '9'))
    else f == e
  }

  lemma FracEndReaches(text: string, e: nat)
    requires e <= |text|
    ensures DecimalsReach(text, e, FracEnd(text, e))
  {
    if CharAt(text, e, '.') && DigitAt(text, e + 1) {
      var f := Run(text, e + 1);
      var decimals := text[e + 1..f];
      assert forall k :: 0 <= k < |decimals| ==> decimals[k] == text[e + 1 + k] && DigitAt(text, e + 1 + k);
    }
  }

  /** How many groups of a comma and three digits follow one another from `p`. */
  function Groups(text: string, p: nat): nat
    decreases |text| - p
  {
    if CharAt(text, p, ',') && DigitAt(text, p + 1) && DigitAt(text, p + 2) && DigitAt(text, p + 3)
    then 1 + Groups(text, p + 4)
    else 0
  }

  lemma {:induction false} GroupEndsAre(text: string, p: nat)
    ensures |GroupEnds(text, p)| == Groups(text, p)
    ensures forall k :: 0 <= k < Groups(text, p) ==> GroupEnds(text, p)[k] == p + 4 * (Groups(text, p) - k)
    ensures Groups(text, p) > 0 ==> CharAt(text, p, ',')
    decreases |text| - p
  {
    if GroupEnds(text, p) != [] {
      GroupEndsAre(text, p + 4);
    }
  }

  lemma {:induction false} CommaBefore(text: string, p: nat, j: nat)
    requires j < Groups(text, p)
    ensures CharAt(text, p + 4 * j, ',')
    decreases |text| - p
  {
    if j > 0 {
      CommaBefore(text, p + 4, j - 1);
    }
  }

  /** Only the digits up to the first comma can be grouped, and only if there are at most three of them. */
  lemma GroupedMeans(text: string, p: nat, n: nat)
    requires 1 <= n
    ensures Grouped(text, p, n) == if p + n == Run(text, p) then GroupEnds(text, p + n) else []
  {
    var r := Run(text, p);
    GroupEndsAre(text, p + n);
    assert !DigitAt(text, r);
    if forall k :: p <= k < p + n ==> DigitAt(text, k) {
      assert p + n <= r;
      if p + n < r {
        assert DigitAt(text, p + n);
      }
    }
  }

  lemma RunIsAhead(text: string, p: nat)
    ensures p <= Run(text, p)
  {
  }

  /** The candidates for the whole part: with the groups after at most three digits, longest first, then plain digits. */
  lemma WholeEndsAre(text: string, p: nat)
    ensures var r := Run(text, p);
      WholeEnds(text, p) == (if p < r <= p + 3 then GroupEnds(text, r) else []) + DigitEnds(text, p)
  {
    hide Grouped, GroupEnds, DigitEnds, Run;
    GroupedMeans(text, p, 1);
    GroupedMeans(text, p, 2);
    GroupedMeans(text, p, 3);
    RunIsAhead(text, p);
  }

  function GroupsAfter(text: string, p: nat): nat {
    if p < Run(text, p) <= p + 3 then Groups(text, Run(text, p)) else 0
  }

  lemma {:induction false} FirstOfWhole(text: string, ends: seq<nat>, k: nat)
    requires k < |ends| && Guard(text, FracEnd(text, ends[k]))
    requires forall i :: 0 <= i < k ==> !Guard(text, FracEnd(text, ends[i]))
    ensures FirstWhole(text, ends) == Some((ends[k], FracEnd(text, ends[k])))
  {
    FracIsGreedy(text, ends[0]);
    hide Guard, FracEnd;
    if k > 0 {
      FirstOfWhole(text, ends[1..], k - 1);
    }
  }

  lemma CommaEnds(text: string, e: nat)
    requires CharAt(text, e, ',')
    ensures Guard(text, FracEnd(text, e))
  {
  }

  lemma GuardMeans(text: string, e: nat)
    ensures Guard(text, e) <==> !GoesOn(text, e)
  {
  }

  /** Every plain candidate but the longest stops inside digits, where no figure may end. */
  lemma PlainEnds(text: string, p: nat, k: nat)
    requires k < |DigitEnds(text, p)|
    ensures k == 0 ==> DigitEnds(text, p)[k] == Run(text, p)
    ensures k > 0 ==> !Guard(text, FracEnd(text, DigitEnds(text, p)[k]))
  {
    DigitEndsShape(text, p);
  }

  /**
    The figure expression read out. A figure starts at a digit that no word
    character or dot precedes. Its whole part is the digits there and, after at
    most three of them, every comma group that follows, less the last group if the
    number goes on behind that; without groups it may not go on.
  */
  lemma {:induction false} FigureAt(text: string, p: nat)
    ensures var r := Run(text, p);
      var e := r + 4 * GroupsAfter(text, p);
      && (MatchAt(text, p).Some? <==>
            DigitAt(text, p) && !GoesBefore(text, p) && (GroupsAfter(text, p) > 0 || !GoesOn(text, FracEnd(text, e))))
      && (MatchAt(text, p).Some? ==>
            var m := MatchAt(text, p).value;
            m.whole == (if GoesOn(text, FracEnd(text, e)) then e - 4 else e) && m.frac == FracEnd(text, m.whole))
  {
    var r, g := Run(text, p), GroupsAfter(text, p);
    var ends := WholeEnds(text, p);
    if DigitAt(text, p) {
      FirstCandidate(text, p);
      hide GroupsAfter, FirstWhole, WholeEnds, Run, FracEnd, GoesOn, SkipSpaces;
    } else {
      WholeEndsAre(text, p);
      DigitEndsShape(text, p);
      assert ends == [];
      hide WholeEnds;
    }
  }

  /** What the first candidates are: the longest grouped one and the one before, or the plain digits. */
  ghost predicate Candidates(text: string, p: nat, g: nat, e: nat, ends: seq<nat>) {
    && ends != [] && ends[0] == e
    && (g > 0 ==> |ends| >= 2 && e >= 4 && ends[1] == e - 4 && CharAt(text, e - 4, ','))
    && (g == 0 ==> ends == DigitEnds(text, p) && e == Run(text, p))
  }

  lemma CandidatesAre(text: string, p: nat)
    requires DigitAt(text, p)
    ensures Candidates(text, p, GroupsAfter(text, p), Run(text, p) + 4 * GroupsAfter(text, p), WholeEnds(text, p))
  {
    var r, g := Run(text, p), GroupsAfter(text, p);
    RunIsAhead(text, p);
    hide Run, WholeEnds, GroupEnds, DigitEnds, Groups;
    WholeEndsAre(text, p);
    DigitEndsShape(text, p);
    GroupEndsAre(text, r);
    if g > 0 {
      CommaBefore(text, r, g - 1);
      TwoCandidates(GroupEnds(text, r), DigitEnds(text, p));
    } else {
      NoGroups(GroupEnds(text, r), DigitEnds(text, p));
    }
  }

  lemma TwoCandidates(a: seq<nat>, b: seq<nat>)
    requires a != [] && b != []
    ensures |a + b| >= 2 && (a + b)[0] == a[0] && (a + b)[1] == if |a| > 1 then a[1] else b[0]
  {
  }

  lemma NoGroups(a: seq<nat>, b: seq<nat>)
    ensures a == [] ==> a + b == b
    ensures [] + b == b
  {
  }

  /** Which candidate is taken: the longest grouped one, or the one before, or the plain digits. */
  lemma FirstCandidate(text: string, p: nat)
    requires DigitAt(text, p)
    ensures var g := GroupsAfter(text, p);
      var e := Run(text, p) + 4 * g;
      FirstWhole(text, WholeEnds(text, p)) ==
        if !GoesOn(text, FracEnd(text, e)) then Some((e, FracEnd(text, e)))
        else if g > 0 then Some((e - 4, FracEnd(text, e - 4)))
        else None
  {
    hide WholeEnds, DigitEnds, Run, FracEnd, GroupsAfter, FirstWhole, GoesOn, Candidates;
    CandidatesAre(text, p);
    TakenOf(text, p, GroupsAfter(text, p), Run(text, p) + 4 * GroupsAfter(text, p), WholeEnds(text, p));
  }

  lemma TakenOf(text: string, p: nat, g: nat, e: nat, ends: seq<nat>)
    requires Candidates(text, p, g, e, ends)
    ensures FirstWhole(text, ends) ==
      if !GoesOn(text, FracEnd(text, e)) then Some((e, FracEnd(text, e)))
      else if g > 0 then Some((e - 4, FracEnd(text, e - 4)))
      else None
  {
    hide DigitEnds, Run, FracEnd, FirstWhole, Guard, GoesOn;
    GuardMeans(text, FracEnd(text, e));
    if !GoesOn(text, FracEnd(text, e)) {
      FirstOfWhole(text, ends, 0);
    } else if g > 0 {
      CommaEnds(text, e - 4);
      FirstOfWhole(text, ends, 1);
    } else {
      NoPlainEnd(text, p);
    }
  }

  lemma NoPlainEnd(text: string, p: nat)
    requires !Guard(text, FracEnd(text, Run(text, p)))
    ensures FirstWhole(text, DigitEnds(text, p)) == None
  {
    var ends := DigitEnds(text, p);
    hide DigitEnds, Run, FracEnd, Guard, FirstWhole;
    FirstWholeShape(text, ends);
    forall k | 0 <= k < |ends|
      ensures !Guard(text, FracEnd(text, ends[k]))
    {
      PlainEnds(text, p, k);
    }
  }

  lemma {:induction false} GroupsEndInDigits(text: string, p: nat)
    ensures forall k :: 0 <= k < |GroupEnds(text, p)| ==> GroupEnds(text, p)[k] > p && DigitAt(text, GroupEnds(text, p)[k] - 1)
    decreases |text| - p
  {
    if GroupEnds(text, p) != [] {
      GroupsEndInDigits(text, p + 4);
    }
  }

  /** A figure ends in a digit, before its spaces and its percent sign. */
  lemma EndsInDigit(text: string, p: nat)
    requires MatchAt(text, p).Some?
    ensures var m := MatchAt(text, p).value; 0 < m.whole <= m.frac && DigitAt(text, m.frac - 1)
  {
    hide MatchAt, WholeEnds, FracEnd, Run, DigitAt, HasComma;
    WholeIsCandidate(text, p);
    var m := MatchAt(text, p).value;
    var k :| 0 <= k < |WholeEnds(text, p)| && WholeEnds(text, p)[k] == m.whole;
    WholeEndsAfterDigits(text, p, k);
    DecimalsEndInDigit(text, m.whole);
  }

  lemma WholeIsCandidate(text: string, p: nat)
    requires MatchAt(text, p).Some?
    ensures var m := MatchAt(text, p).value; m.whole in WholeEnds(text, p) && m.frac == FracEnd(text, m.whole)
  {
    hide WholeEnds, FirstWhole, Guard, FracEnd, MayStart;
    FirstWholeShape(text, WholeEnds(text, p));
  }

  lemma WholeEndsAfterDigits(text: string, p: nat, k: nat)
    requires k < |WholeEnds(text, p)|
    ensures WholeEnds(text, p)[k] > 0 && DigitAt(text, WholeEnds(text, p)[k] - 1)
  {
    hide WholeEnds, GroupEnds, DigitEnds;
    WholeEndsAre(text, p);
    GroupsEndInDigits(text, Run(text, p));
    DigitEndsShape(text, p);
  }

  lemma DecimalsEndInDigit(text: string, e: nat)
    requires 0 < e && DigitAt(text, e - 1)
    ensures e <= FracEnd(text, e) && DigitAt(text, FracEnd(text, e) - 1)
  {
  }

  /** A percent sign counts when only spaces stand before it, and the spaces are part of the match. */
  lemma PercentMeans(text: string, p: nat)
    requires MatchAt(text, p).Some?
    ensures var m := MatchAt(text, p).value;
      m.frac <= m.end <= |text| &&
      if m.percent then m.frac < m.end && text[m.end - 1] == '%' && forall k :: m.frac <= k < m.end - 1 ==> IsSpace(text[k])
      else (forall k :: m.frac <= k < m.end ==> IsSpace(text[k])) && (m.end < |text| ==> !IsSpace(text[m.end]) && text[m.end] != '%')
  {
    MatchShape(text, p);
    var m := MatchAt(text, p).value;
    var e := SkipSpaces(text, m.frac);
    SpacesEnd(text, m.frac);
    hide SkipSpaces, FirstWhole, WholeEnds, Guard, FracEnd, Run;
    assert m.end == if m.percent then e + 1 else e;
  }

  lemma {:induction false} SpacesEnd(text: string, p: nat)
    requires p <= |text|
    ensures var e := SkipSpaces(text, p); e < |text| ==> !IsSpace(text[e])
    decreases |text| - p
  {
    if p < |text| && IsSpace(text[p]) {
      SpacesEnd(text, p + 1);
    }
  }

  lemma MatchStarts(text: string, p: nat)
    requires MatchAt(text, p).Some?
    ensures var m := MatchAt(text, p).value; m.start == p < m.end
  {
    MatchShape(text, p);
  }

  lemma OneBefore(m: Match, rest: seq<Match>)
    requires m.start <= m.end && forall other :: other in rest ==> m.end <= other.start
    requires forall i, j :: 0 <= i < j < |rest| ==> rest[i].end <= rest[j].start
    ensures var all := [m] + rest; forall i, j :: 0 <= i < j < |all| ==> all[i].end <= all[j].start
  {
  }

  /** The matches stand one after the other. */
  lemma {:induction false} MatchesInOrder(text: string, p: nat)
    ensures forall m :: m in MatchesFrom(text, p) ==> p <= m.start
    ensures forall i, j :: 0 <= i < j < |MatchesFrom(text, p)| ==> MatchesFrom(text, p)[i].end <= MatchesFrom(text, p)[j].start
    decreases |text| - p
  {
    hide MatchAt;
    if p < |text| {
      if MatchAt(text, p).Some? {
        var m := MatchAt(text, p).value;
        MatchStarts(text, p);
        MatchesInOrder(text, m.end);
        assert MatchesFrom(text, p) == [m] + MatchesFrom(text, m.end);
        OneBefore(m, MatchesFrom(text, m.end));
      } else {
        MatchesInOrder(text, p + 1);
        assert MatchesFrom(text, p) == MatchesFrom(text, p + 1);
      }
    }
  }

  /** A digit string and its decimals, all of them. */
  ghost predicate IsToken(text: string, m: Match) {
    && m.start < m.whole <= m.frac == m.end <= |text| && !m.percent
    && AllDigits(text[m.start..m.whole]) && (m.whole < |text| ==> !('0' <= text[m.whole] <= '9'))
    && DecimalsReach(text, m.whole, m.frac)
  }

  /** Tokens one after the other that leave no digit from `p` on out. */
  ghost predicate Scans(text: string, p: nat, tokens: seq<Match>) {
    && (forall m :: m in tokens ==> IsToken(text, m) && p <= m.start)
    && (forall i, j :: 0 <= i < j < |tokens| ==> tokens[i].end <= tokens[j].start)
    && (forall k :: p <= k < |text| && '0' <= text[k] <= '9' ==> exists m :: m in tokens && m.start <= k < m.end)
  }

  lemma RunIsToken(text: string, p: nat)
    requires DigitAt(text, p)
    ensures IsToken(text, Match(p, Run(text, p), FracEnd(text, Run(text, p)), FracEnd(text, Run(text, p)), false))
  {
    var r := Run(text, p);
    var digits := text[p..r];
    assert forall k :: 0 <= k < |digits| ==> digits[k] == text[p + k] && DigitAt(text, p + k);
    assert p < r;
    hide Run, FracEnd;
    FracEndBounds(text, r);
    FracEndReaches(text, r);
  }

  /** The evidence scanner takes the digit strings one after the other and leaves no digit out. */
  lemma {:induction false} TokensScan(text: string, p: nat)
    ensures Scans(text, p, TokensFrom(text, p))
    decreases |text| - p
  {
    if DigitAt(text, p) {
      var r := Run(text, p);
      var frac := FracEnd(text, r);
      RunIsToken(text, p);
      assert p < r <= frac;
      TokensScan(text, frac);
      hide IsToken, Run, FracEnd;
      var first := Match(p, r, frac, frac, false);
      FirstScans(text, p, first, TokensFrom(text, frac));
    } else if p < |text| {
      TokensScan(text, p + 1);
    }
  }

  lemma FirstScans(text: string, p: nat, first: Match, rest: seq<Match>)
    requires IsToken(text, first) && first.start == p && Scans(text, first.end, rest)
    ensures Scans(text, p, [first] + rest)
  {
    hide IsToken;
    assert first.start < first.end by {
      TokenIsLong(text, first);
    }
    var all := [first] + rest;
    forall k | p <= k < |text| && '0' <= text[k] <= '9'
      ensures exists m :: m in all && m.start <= k < m.end
    {
      if k < first.end {
        assert first in all;
      } else {
        var m :| m in rest && m.start <= k < m.end;
        assert m in all;
      }
    }
  }

  lemma TokenIsLong(text: string, m: Match)
    requires IsToken(text, m)
    ensures m.start < m.end <= |text| && '0' <= text[m.start] <= '9'
  {
    assert IsDigit(text[m.start..m.whole][0]);
  }

  /** There is one way to do that. */
  lemma {:induction false} ScanIsUnique(text: string, p: nat, a: seq<Match>, b: seq<Match>)
    requires Scans(text, p, a) && Scans(text, p, b)
    ensures a == b
    decreases |a|
  {
    hide IsToken;
    if a == [] {
      if b != [] {
        TokenIsLong(text, b[0]);
      }
    } else {
      TokenIsLong(text, a[0]);
      SameFirst(text, p, a, b);
      SameFirst(text, p, b, a);
      TokenIsOne(text, a[0], b[0]);
      RestScans(text, p, a);
      RestScans(text, p, b);
      ScanIsUnique(text, a[0].end, a[1..], b[1..]);
    }
  }

  lemma SameFirst(text: string, p: nat, a: seq<Match>, b: seq<Match>)
    requires Scans(text, p, a) && Scans(text, p, b) && a != []
    ensures b != [] && b[0].start <= a[0].start
  {
    hide IsToken;
    TokenIsLong(text, a[0]);
    var m :| m in b && m.start <= a[0].start < m.end;
    var k :| 0 <= k < |b| && b[k] == m;
    TokenIsLong(text, b[0]);
  }

  lemma TokenIsOne(text: string, a: Match, b: Match)
    requires IsToken(text, a) && IsToken(text, b) && a.start == b.start
    ensures a == b
  {
    DigitsEndOnce(text, a.start, a.whole, b.whole);
    DigitsEndOnce(text, a.start, b.whole, a.whole);
    if a.whole + 1 < a.frac {
      DigitsEndOnce(text, a.whole + 1, a.frac, b.frac);
      DigitsEndOnce(text, a.whole + 1, b.frac, a.frac);
    }
  }

  lemma DigitsEndOnce(text: string, p: nat, e: nat, f: nat)
    requires p <= e <= |text| && p <= f <= |text| && AllDigits(text[p..e]) && AllDigits(text[p..f])
    requires f < |text| ==> !('0' <= text[f] <= '9')
    ensures e <= f
  {
  }

  lemma RestScans(text: string, p: nat, a: seq<Match>)
    requires Scans(text, p, a) && a != []
    ensures Scans(text, a[0].end, a[1..])
  {
    hide IsToken;
    TokenIsLong(text, a[0]);
    forall m | m in a[1..]
      ensures IsToken(text, m) && a[0].end <= m.start
    {
      var k :| 0 <= k < |a[1..]| && a[1..][k] == m;
      assert a[k + 1] == m;
    }
    forall k | a[0].end <= k < |text| && '0' <= text[k] <= '9'
      ensures exists m :: m in a[1..] && m.start <= k < m.end
    {
      var m :| m in a && m.start <= k < m.end;
      var i :| 0 <= i < |a| && a[i] == m;
      assert i > 0 && a[1..][i - 1] == m;
    }
  }
}
