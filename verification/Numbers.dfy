/**
  The evidence check (api/ai/numbers.py): every figure a reader would take for
  a claim must be a number in the evidence, or a rate of it as a percentage, to
  the precision at which it is written.
*/
module Numbers {
  import opened Ascii
  import opened Decimals
  import opened Json
  import opened Lexers
  import opened Prelude

  datatype Figure = Figure(raw: string, coeff: nat, decimals: nat, isPercent: bool)

  // ---- what the scanners read ---------------------------------------------

  /** The digits of `s` as one number; commas and the decimal point are passed over. */
  function Coefficient(s: string): nat {
    if s == "" then 0
    else if IsDigit(s[|s| - 1]) then 10 * Coefficient(s[..|s| - 1]) + (s[|s| - 1] as int - '0' as int)
    else Coefficient(s[..|s| - 1])
  }

  function Places(m: Match): nat {
    if m.whole < m.frac then m.frac - m.whole - 1 else 0
  }

  predicate Inside(m: Match, text: string) {
    m.start <= m.whole <= m.frac <= m.end <= |text|
  }

  function FigureOf(text: string, m: Match): Figure
    requires Inside(m, text)
  {
    Figure(TrimEnd(text[m.start..m.end]), Coefficient(text[m.start..m.frac]), Places(m), m.percent)
  }

  function TokenOf(text: string, m: Match): Number
    requires Inside(m, text)
  {
    Finite(Dec(Coefficient(text[m.start..m.frac]), -(Places(m) as int)))
  }

  function FiguresFrom(text: string, p: nat): seq<Figure>
    decreases |text| - p
  {
    if p >= |text| then []
    else if MatchAt(text, p).Some? then
      MatchShape(text, p);
      [FigureOf(text, MatchAt(text, p).value)] + FiguresFrom(text, MatchAt(text, p).value.end)
    else FiguresFrom(text, p + 1)
  }

  /** `figures_in`, as a function. */
  function Figures(text: string): seq<Figure> {
    FiguresFrom(text, 0)
  }

  method FiguresIn(text: string) returns (found: seq<Figure>)
    ensures found == Figures(text)
  {
    hide MatchAt, FigureOf;
    found := [];
    var p := 0;
    while p < |text|
      invariant Figures(text) == found + FiguresFrom(text, p)
      decreases |text| - p
    {
      var m := MatchAt(text, p);
      if m.Some? {
        MatchShape(text, p);
        ConcatAssociates(found, [FigureOf(text, m.value)], FiguresFrom(text, m.value.end));
        found := found + [FigureOf(text, m.value)];
        p := m.value.end;
      } else {
        p := p + 1;
      }
    }
  }

  function TokensOf(text: string, p: nat): set<Number>
    decreases |text| - p
  {
    if p >= |text| then {}
    else if DigitAt(text, p) then
      var whole := Run(text, p);
      var frac := FracEnd(text, whole);
      {TokenOf(text, Match(p, whole, frac, frac, false))} + TokensOf(text, frac)
    else TokensOf(text, p + 1)
  }

  // ---- the evidence -------------------------------------------------------

  function Values(node: Json): set<Number>
    decreases node, 1, 0
  {
    match node
    case Null => {}
    case Bool(_) => {}
    case Int(n) => {Finite(Dec(n, 0))}
    case Float(number) => {number}
    case Str(text) => TokensOf(text, 0)
    case _ => ValuesBelow(node, Width(node))
  }

  /** The numbers of the first `n` children, and of their keys. */
  function ValuesBelow(node: Json, n: nat): set<Number>
    requires n <= Width(node)
    decreases node, 0, n
  {
    if n == 0 then {} else
      ValuesBelow(node, n - 1) + Values(Child(node, n - 1)) + if node.Obj? then TokensOf(node.fields[n - 1].0, 0) else {}
  }

  function Texts(node: Json): seq<string>
    decreases node, 1, 0
  {
    match node
    case Str(text) => [text]
    case _ => TextsBelow(node, Width(node))
  }

  function TextsBelow(node: Json, n: nat): seq<string>
    requires n <= Width(node)
    decreases node, 0, n
  {
    if n == 0 then [] else TextsBelow(node, n - 1) + Texts(Child(node, n - 1))
  }

  method SupportedValues(node: Json) returns (values: set<Number>)
    ensures values == Values(node)
    decreases node
  {
    match node {
      case Null => values := {};
      case Bool(_) => values := {};
      case Int(n) => values := {Finite(Dec(n, 0))};
      case Float(number) => values := {number};
      case Str(text) => values := TokensOf(text, 0);
      case Arr(items) =>
        values := {};
        for k := 0 to |items|
          invariant values == ValuesBelow(node, k)
        {
          var below := SupportedValues(items[k]);
          values := values + below;
        }
      case Obj(fields) =>
        values := {};
        for k := 0 to |fields|
          invariant values == ValuesBelow(node, k)
        {
          var below := SupportedValues(fields[k].1);
          values := values + below + TokensOf(fields[k].0, 0);
        }
    }
  }

  method TextsIn(node: Json) returns (texts: seq<string>)
    ensures texts == Texts(node)
    decreases node
  {
    texts := [];
    match node {
      case Str(text) => texts := [text];
      case Arr(items) =>
        for k := 0 to |items|
          invariant texts == TextsBelow(node, k)
        {
          var below := TextsIn(items[k]);
          texts := texts + below;
        }
      case Obj(fields) =>
        for k := 0 to |fields|
          invariant texts == TextsBelow(node, k)
        {
          var below := TextsIn(fields[k].1);
          texts := texts + below;
        }
      case _ =>
    }
  }

  // ---- where strings and numbers stand ------------------------------------

  /** The paths to the strings of a structure, each with its string, in the order they are met. */
  ghost predicate StringsAt(node: Json, paths: seq<seq<nat>>, texts: seq<string>) {
    && |paths| == |texts|
    && (forall i :: 0 <= i < |paths| ==> At(node, paths[i]) == Some(Str(texts[i])))
    && (forall i, j :: 0 <= i < j < |paths| ==> Before(paths[i], paths[j]))
    && (forall path, text :: At(node, path) == Some(Str(text)) ==> path in paths)
  }

  /** The same for the first `n` children of a structure. */
  ghost predicate StringsBelow(node: Json, n: nat, paths: seq<seq<nat>>, texts: seq<string>) {
    && |paths| == |texts|
    && (forall i :: 0 <= i < |paths| ==> paths[i] != [] && paths[i][0] < n && At(node, paths[i]) == Some(Str(texts[i])))
    && (forall i, j :: 0 <= i < j < |paths| ==> Before(paths[i], paths[j]))
    && (forall path, text :: path != [] && path[0] < n && At(node, path) == Some(Str(text)) ==> path in paths)
  }

  function Under(k: nat, paths: seq<seq<nat>>): (r: seq<seq<nat>>)
    ensures |r| == |paths| && forall i :: 0 <= i < |r| ==> r[i] == [k] + paths[i]
  {
    seq(|paths|, i requires 0 <= i < |paths| => [k] + paths[i])
  }

  /** The walk collects the strings that stand at some path, each once for every path, in the order of the paths. */
  lemma {:induction false} TextsStandAtPaths(node: Json) returns (paths: seq<seq<nat>>)
    ensures StringsAt(node, paths, Texts(node))
    decreases node, 1, 0
  {
    if node.Str? {
      paths := [[]];
    } else {
      paths := TextsBelowStandAtPaths(node, Width(node));
      hide TextsBelow;
      forall path, text | At(node, path) == Some(Str(text))
        ensures path in paths
      {
        assert path != [];
      }
    }
  }

  lemma {:induction false} TextsBelowStandAtPaths(node: Json, n: nat) returns (paths: seq<seq<nat>>)
    requires n <= Width(node)
    ensures StringsBelow(node, n, paths, TextsBelow(node, n))
    decreases node, 0, n
  {
    if n == 0 {
      paths := [];
    } else {
      var first := TextsBelowStandAtPaths(node, n - 1);
      var last := TextsStandAtPaths(Child(node, n - 1));
      paths := first + Under(n - 1, last);
      OneChildMore(node, n, first, TextsBelow(node, n - 1), last, Texts(Child(node, n - 1)));
    }
  }

  lemma PathsInOrder(first: seq<seq<nat>>, second: seq<seq<nat>>)
    requires forall i, j :: 0 <= i < j < |first| ==> Before(first[i], first[j])
    requires forall i, j :: 0 <= i < j < |second| ==> Before(second[i], second[j])
    requires forall i, j :: 0 <= i < |first| && 0 <= j < |second| ==> Before(first[i], second[j])
    ensures forall i, j :: 0 <= i < j < |first + second| ==> Before((first + second)[i], (first + second)[j])
  {
    hide Before;
  }

  lemma TextsBesidePaths(node: Json, n: nat, first: seq<seq<nat>>, texts: seq<string>, under: seq<seq<nat>>, more: seq<string>)
    requires |first| == |texts| && |under| == |more|
    requires forall i :: 0 <= i < |first| ==> first[i] != [] && first[i][0] < n && At(node, first[i]) == Some(Str(texts[i]))
    requires forall i :: 0 <= i < |under| ==> under[i] != [] && under[i][0] < n && At(node, under[i]) == Some(Str(more[i]))
    ensures var paths, all := first + under, texts + more;
      forall i :: 0 <= i < |paths| ==> paths[i] != [] && paths[i][0] < n && At(node, paths[i]) == Some(Str(all[i]))
  {
    hide At;
  }

  lemma OneChildMore(node: Json, n: nat, first: seq<seq<nat>>, texts: seq<string>, last: seq<seq<nat>>, more: seq<string>)
    requires 0 < n <= Width(node)
    requires StringsBelow(node, n - 1, first, texts) && StringsAt(Child(node, n - 1), last, more)
    ensures StringsBelow(node, n, first + Under(n - 1, last), texts + more)
  {
    var under := Under(n - 1, last);
    UnderChild(node, n, last, more);
    hide At, Before, Under;
    forall i, j | 0 <= i < |first| && 0 <= j < |under|
      ensures Before(first[i], under[j])
    {
      FirstDecides(first[i], under[j]);
    }
    PathsInOrder(first, under);
    TextsBesidePaths(node, n, first, texts, under, more);
    hide Child, Width;
    forall path, text | path != [] && path[0] < n && At(node, path) == Some(Str(text))
      ensures path in first + under
    {
      assert path in first || path in under;
    }
  }

  lemma FirstDecides(a: seq<nat>, b: seq<nat>)
    requires a != [] && b != [] && a[0] < b[0]
    ensures Before(a, b)
  {
  }

  /** The strings of the last child, on paths from its parent. */
  lemma UnderChild(node: Json, n: nat, last: seq<seq<nat>>, more: seq<string>)
    requires 0 < n <= Width(node) && StringsAt(Child(node, n - 1), last, more)
    ensures var under := Under(n - 1, last);
      && |under| == |more|
      && (forall i :: 0 <= i < |under| ==> under[i] != [] && under[i][0] == n - 1 && At(node, under[i]) == Some(Str(more[i])))
      && (forall i, j :: 0 <= i < j < |under| ==> Before(under[i], under[j]))
      && (forall path, text :: path != [] && path[0] == n - 1 && At(node, path) == Some(Str(text)) ==> path in under)
  {
    hide At, Before;
    var under := Under(n - 1, last);
    forall i | 0 <= i < |under|
      ensures At(node, under[i]) == Some(Str(more[i]))
    {
      AtChild(node, n - 1, last[i]);
    }
    forall i, j | 0 <= i < j < |under|
      ensures Before(under[i], under[j])
    {
      SameStart(n - 1, last[i], last[j]);
    }
    forall path, text | path != [] && path[0] == n - 1 && At(node, path) == Some(Str(text))
      ensures path in under
    {
      AtChild(node, n - 1, path[1..]);
      assert path == [n - 1] + path[1..];
      var i :| 0 <= i < |last| && last[i] == path[1..];
      assert under[i] == path;
    }
  }

  lemma SameStart(k: nat, a: seq<nat>, b: seq<nat>)
    requires Before(a, b)
    ensures Before([k] + a, [k] + b)
  {
    assert ([k] + a)[1..] == a && ([k] + b)[1..] == b;
  }

  /** A string stands somewhere in a structure. */
  ghost predicate HasText(node: Json, text: string) {
    exists path :: At(node, path) == Some(Str(text))
  }

  lemma {:induction false} TextsAreAtPaths(node: Json, text: string)
    ensures text in Texts(node) <==> HasText(node, text)
  {
    var paths := TextsStandAtPaths(node);
    var texts := Texts(node);
    hide Texts, At;
    if text in texts {
      var i :| 0 <= i < |texts| && texts[i] == text;
      assert At(node, paths[i]) == Some(Str(text));
    }
    if HasText(node, text) {
      var path :| At(node, path) == Some(Str(text));
      assert path in paths;
    }
  }

  /** A number is said by an integer or a float, in a string, or in the keys of an object; nothing else says one. */
  ghost predicate Says(node: Json, v: Number) {
    match node
    case Int(n) => v == Finite(Dec(n, 0))
    case Float(number) => v == number
    case Str(text) => v in TokensOf(text, 0)
    case Obj(fields) => exists k :: 0 <= k < |fields| && v in TokensOf(fields[k].0, 0)
    case _ => false
  }

  /** A number is said somewhere in a structure. */
  ghost predicate Said(node: Json, v: Number) {
    exists path :: At(node, path).Some? && Says(At(node, path).value, v)
  }

  /** The evidence holds exactly the numbers that are said somewhere in it. */
  lemma {:induction false} ValuesAreSaid(node: Json, v: Number)
    ensures v in Values(node) <==> Said(node, v)
    decreases node, 1, 0
  {
    hide TokensOf;
    assert At(node, []) == Some(node);
    if node.Arr? || node.Obj? {
      ValuesBelowAreSaid(node, Width(node), v);
      hide ValuesBelow;
      if Said(node, v) && !Says(node, v) {
        var path :| At(node, path).Some? && Says(At(node, path).value, v);
        assert SaidBelow(node, Width(node), v);
      }
    } else if Said(node, v) {
      var path :| At(node, path).Some? && Says(At(node, path).value, v);
      assert path == [];
    }
  }

  ghost predicate SaidBelow(node: Json, n: nat, v: Number) {
    exists path :: path != [] && path[0] < n && At(node, path).Some? && Says(At(node, path).value, v)
  }

  ghost predicate SaidInKeys(node: Json, n: nat, v: Number)
    requires n <= Width(node)
  {
    node.Obj? && exists k :: 0 <= k < n && v in TokensOf(node.fields[k].0, 0)
  }

  lemma {:induction false} ValuesBelowAreSaid(node: Json, n: nat, v: Number)
    requires n <= Width(node)
    ensures v in ValuesBelow(node, n) <==> SaidBelow(node, n, v) || SaidInKeys(node, n, v)
    decreases node, 0, n
  {
    if n > 0 {
      ValuesBelowAreSaid(node, n - 1, v);
      ValuesAreSaid(Child(node, n - 1), v);
      OneChildSaid(node, n, v);
      hide TokensOf, Values, SaidBelow, Said;
    }
  }

  lemma OneChildSaid(node: Json, n: nat, v: Number)
    requires 0 < n <= Width(node)
    ensures SaidBelow(node, n, v) <==> SaidBelow(node, n - 1, v) || Said(Child(node, n - 1), v)
  {
    hide Says;
    if SaidBelow(node, n, v) {
      var path :| path != [] && path[0] < n && At(node, path).Some? && Says(At(node, path).value, v);
      AtChild(node, path[0], path[1..]);
      assert path == [path[0]] + path[1..];
    }
    if Said(Child(node, n - 1), v) {
      var path :| At(Child(node, n - 1), path).Some? && Says(At(Child(node, n - 1), path).value, v);
      AtChild(node, n - 1, path);
      assert ([n - 1] + path)[0] < n;
    }
  }

  // ---- support ------------------------------------------------------------

  /** One turn of the search: as written, or as a percentage of a rate of at most one. A number too long to round is passed over. */
  predicate Supports(v: Dec, coeff: nat, decimals: nat) {
    var plain := Quantize(v, decimals);
    && Fits(plain)
    && (plain == coeff ||
        (AtMostOne(InContext(Dec(Abs(v.coeff), v.exp))) &&
         var rate := Quantize(InContext(Dec(100 * v.coeff, v.exp)), decimals);
         Fits(rate) && rate == coeff))
  }

  predicate Backs(number: Number, figure: Figure) {
    number.Finite? && Supports(number.dec, figure.coeff, figure.decimals)
  }

  predicate Supported(figure: Figure, values: set<Number>) {
    exists v :: v in values && Backs(v, figure)
  }

  method IsSupported(figure: Figure, values: set<Number>) returns (supported: bool)
    ensures supported <==> Supported(figure, values)
  {
    var rest := values;
    while rest != {}
      invariant rest <= values && forall v :: v in values && v !in rest ==> !Backs(v, figure)
      decreases |rest|
    {
      var v :| v in rest;
      if Backs(v, figure) {
        return true;
      }
      rest := rest - {v};
    }
    return false;
  }

  function RefusedFigures(figures: seq<Figure>, values: set<Number>): seq<string> {
    if figures == [] then [] else
      var last := figures[|figures| - 1];
      RefusedFigures(figures[..|figures| - 1], values) + if Supported(last, values) then [] else [last.raw]
  }

  function Refused(texts: seq<string>, values: set<Number>): seq<string> {
    if texts == [] then [] else
      Refused(texts[..|texts| - 1], values) + RefusedFigures(Figures(texts[|texts| - 1]), values)
  }

  /** `unsupported_figures`, as a function. */
  function Unsupported(generated: Json, evidence: Json): seq<string> {
    Refused(Texts(generated), Values(evidence))
  }

  method UnsupportedIn(text: string, values: set<Number>) returns (unsupported: seq<string>)
    ensures unsupported == RefusedFigures(Figures(text), values)
  {
    hide Supported, Figures;
    var figures := FiguresIn(text);
    unsupported := [];
    for k := 0 to |figures|
      invariant unsupported == RefusedFigures(figures[..k], values)
    {
      assert figures[..k + 1][..k] == figures[..k];
      var supported := IsSupported(figures[k], values);
      if !supported {
        unsupported := unsupported + [figures[k].raw];
      }
    }
    assert figures[..|figures|] == figures;
  }

  method UnsupportedFigures(generated: Json, evidence: Json) returns (unsupported: seq<string>)
    ensures unsupported == Unsupported(generated, evidence)
  {
    hide Figures, RefusedFigures;
    var values := SupportedValues(evidence);
    var texts := TextsIn(generated);
    unsupported := [];
    for i := 0 to |texts|
      invariant unsupported == Refused(texts[..i], values)
    {
      var more := UnsupportedIn(texts[i], values);
      unsupported := unsupported + more;
      assert texts[..i + 1][..i] == texts[..i];
    }
    assert texts[..|texts|] == texts;
  }

  ghost predicate AllSupported(texts: seq<string>, values: set<Number>) {
    forall text, figure :: text in texts && figure in Figures(text) ==> Supported(figure, values)
  }

  /** A figure stands in some string of a structure. */
  ghost predicate HasFigure(node: Json, figure: Figure) {
    exists text :: HasText(node, text) && figure in Figures(text)
  }

  /** Some number said in the evidence backs the figure. */
  ghost predicate BackedIn(figure: Figure, evidence: Json) {
    exists v :: Said(evidence, v) && Backs(v, figure)
  }

  /** A generation is stored exactly when every figure in any string of it is backed by a number said in the evidence. */
  lemma {:induction false} NothingRefused(generated: Json, evidence: Json)
    ensures Unsupported(generated, evidence) == [] <==>
      forall figure :: HasFigure(generated, figure) ==> BackedIn(figure, evidence)
  {
    var texts, values := Texts(generated), Values(evidence);
    RefusedEmpty(texts, values);
    forall text
      ensures text in texts <==> HasText(generated, text)
    {
      TextsAreAtPaths(generated, text);
    }
    forall figure
      ensures Supported(figure, values) <==> BackedIn(figure, evidence)
    {
      SupportedIffSaid(figure, evidence);
    }
    hide Texts, Values, Figures, Supported, BackedIn, HasText, Refused;
    assert forall figure :: HasFigure(generated, figure) <==> exists text :: text in texts && figure in Figures(text);
  }

  lemma SupportedIffSaid(figure: Figure, evidence: Json)
    ensures Supported(figure, Values(evidence)) <==> BackedIn(figure, evidence)
  {
    forall v
      ensures v in Values(evidence) <==> Said(evidence, v)
    {
      ValuesAreSaid(evidence, v);
    }
    hide Values, Said, Backs;
  }

  /** What is refused is what is not backed, figure by figure and text by text, in order, as it is written. */
  lemma {:induction false} RefusedConcat(a: seq<string>, b: seq<string>, values: set<Number>)
    ensures Refused(a + b, values) == Refused(a, values) + Refused(b, values)
  {
    if b == [] {
      assert a + b == a;
    } else {
      var init, last := b[..|b| - 1], b[|b| - 1];
      hide Refused, RefusedFigures, Figures;
      RefusedConcat(a, init, values);
      RefusedLast(a + init, last, values);
      RefusedLast(init, last, values);
      assert b == init + [last];
      ConcatAssociates(a, init, [last]);
      ConcatAssociates(Refused(a, values), Refused(init, values), RefusedFigures(Figures(last), values));
    }
  }

  lemma RefusedLast(init: seq<string>, last: string, values: set<Number>)
    ensures Refused(init + [last], values) == Refused(init, values) + RefusedFigures(Figures(last), values)
  {
    hide Figures, RefusedFigures;
    assert (init + [last])[..|init|] == init;
  }

  lemma {:induction false} FiguresConcat(a: seq<Figure>, b: seq<Figure>, values: set<Number>)
    ensures RefusedFigures(a + b, values) == RefusedFigures(a, values) + RefusedFigures(b, values)
  {
    if b == [] {
      assert a + b == a;
    } else {
      var init := b[..|b| - 1];
      FiguresConcat(a, init, values);
      hide Supported;
      assert (a + b)[..|a + b| - 1] == a + init;
    }
  }

  lemma RefusedOnce(text: string, figure: Figure, values: set<Number>)
    ensures Refused([text], values) == RefusedFigures(Figures(text), values)
    ensures RefusedFigures([figure], values) == if Supported(figure, values) then [] else [figure.raw]
  {
    hide Figures, Supported;
    assert [text][..0] == [] && [figure][..0] == [];
  }

  lemma {:induction false} RefusedEmpty(texts: seq<string>, values: set<Number>)
    ensures Refused(texts, values) == [] <==> AllSupported(texts, values)
  {
    if texts != [] {
      hide Figures, Supported;
      var init, last := texts[..|texts| - 1], texts[|texts| - 1];
      RefusedEmpty(init, values);
      FiguresEmpty(Figures(last), values);
      RefusedLast(init, last, values);
      assert texts == init + [last];
    }
  }

  lemma {:induction false} FiguresEmpty(figures: seq<Figure>, values: set<Number>)
    ensures RefusedFigures(figures, values) == [] <==> forall figure :: figure in figures ==> Supported(figure, values)
  {
    if figures != [] {
      var init, last := figures[..|figures| - 1], figures[|figures| - 1];
      FiguresEmpty(init, values);
      assert figures == init + [last];
      hide Supported;
    }
  }

  // ---- what support means -------------------------------------------------

  /** The figure is `x` rounded to the figure's last shown place, halves to even. */
  ghost predicate IsRoundingOf(figure: Figure, x: real) {
    Rounds(x, Unit(figure.decimals), figure.coeff)
  }

  /** What the context makes of the number without its sign, and of a hundred times it. */
  function SizeOf(v: Dec): Dec {
    InContext(Dec(Abs(v.coeff), v.exp))
  }

  function PercentOf(v: Dec): Dec {
    InContext(Dec(100 * v.coeff, v.exp))
  }

  /** Taken for a rate: at most one either way, as the context has it. */
  ghost predicate IsRate(v: Dec) {
    Value(SizeOf(v)) <= 1.0
  }

  /**
    What support means, for a number of any length: the figure is the number
    rounded, or it is what the context makes of a hundred times a rate, rounded.
  */
  lemma SupportRounds(v: Dec, figure: Figure)
    ensures Backs(Finite(v), figure) <==>
      && Fits(figure.coeff)
      && (IsRoundingOf(figure, Value(v)) || (IsRate(v) && IsRoundingOf(figure, Value(PercentOf(v)))))
  {
    hide Quantize, InContext, Value, AtMostOne, Unit, Rounds;
    QuantizeRounds(v, figure.decimals, figure.coeff);
    QuantizeRounds(v, figure.decimals, Quantize(v, figure.decimals));
    QuantizeRounds(PercentOf(v), figure.decimals, figure.coeff);
    AtMostOneMeans(SizeOf(v));
    if Rounds(Value(PercentOf(v)), Unit(figure.decimals), figure.coeff) && Fits(figure.coeff) {
      RateFits(v, Unit(figure.decimals), figure.coeff, Quantize(v, figure.decimals));
    }
  }

  /** If a hundred times a number rounds to 28 digits, so does the number. */
  lemma RateFits(v: Dec, unit: real, c: int, q: int)
    requires unit > 0.0 && Rounds(Value(PercentOf(v)), unit, c) && Rounds(Value(v), unit, q) && Fits(c)
    ensures Fits(q)
  {
    ContextIsClose(Dec(100 * v.coeff, v.exp));
    HundredfoldValue(v);
    assert PercentOf(v) == InContext(Dec(100 * v.coeff, v.exp));
    hide Value, InContext, PercentOf;
    FewEnough(Value(v), Value(PercentOf(v)), unit, c, q);
    FitsInReals(c, q);
  }

  lemma FewEnough(x: real, big: real, unit: real, c: int, q: int)
    requires unit > 0.0 && Rounds(big, unit, c) && Rounds(x, unit, q) && 2.0 * AbsReal(big - 100.0 * x) <= AbsReal(big)
    ensures AbsReal(q as real) <= 0.015 * AbsReal(c as real) + 0.51
  {
    hide Rounds, AbsReal;
    RoundsOff(big, unit, c);
    RoundsOff(x, unit, q);
    FewerUnits(x, big, unit, c as real, q as real);
  }

  lemma FewerUnits(x: real, big: real, unit: real, c: real, q: real)
    requires unit > 0.0 && 2.0 * AbsReal(c * unit - big) <= unit && 2.0 * AbsReal(q * unit - x) <= unit
    requires 2.0 * AbsReal(big - 100.0 * x) <= AbsReal(big)
    ensures AbsReal(q) <= 0.015 * AbsReal(c) + 0.51
  {
    var a, b := c * unit, q * unit;
    Distances(x, big, a, b, unit);
    AbsScales(c, unit);
    AbsScales(q, unit);
    InUnits(AbsReal(c), AbsReal(q), AbsReal(a), AbsReal(b), unit);
  }

  lemma Distances(x: real, big: real, a: real, b: real, unit: real)
    requires 2.0 * AbsReal(a - big) <= unit && 2.0 * AbsReal(b - x) <= unit
    requires 2.0 * AbsReal(big - 100.0 * x) <= AbsReal(big)
    ensures 100.0 * AbsReal(b) <= 1.5 * (AbsReal(a) + unit / 2.0) + 50.0 * unit
  {
    NearAbs(big, a, unit);
    NearAbs(x, b, unit);
    NearAbs(100.0 * x, big, AbsReal(big));
    AbsScales(x, 100.0);
    hide AbsReal;
  }

  lemma InUnits(c: real, q: real, a: real, b: real, unit: real)
    requires unit > 0.0 && a == c * unit && b == q * unit && 100.0 * b <= 1.5 * (a + unit / 2.0) + 50.0 * unit
    ensures q <= 0.015 * c + 0.51
  {
    var limit := 0.015 * c + 0.51;
    assert b <= 0.015 * a + 0.51 * unit;
    Distribute(c, unit, limit);
    assert b <= limit * unit;
    assert q * unit <= limit * unit;
    if q > limit {
      Wider(q, limit, unit);
    }
  }

  lemma Wider(q: real, limit: real, unit: real)
    requires unit > 0.0 && q > limit
    ensures q * unit > limit * unit
  {
    assert (q - limit) * unit > 0.0;
  }

  lemma Distribute(c: real, unit: real, limit: real)
    requires limit == 0.015 * c + 0.51
    ensures limit * unit == 0.015 * (c * unit) + 0.51 * unit
  {
  }

  lemma FitsInReals(c: int, q: int)
    requires Fits(c) && AbsReal(q as real) <= 0.015 * AbsReal(c as real) + 0.51
    ensures Fits(q)
  {
  }

  /**
    For a number of at most 28 digits support is exactly rounding: of the number,
    or of a hundred times it when it is a rate of at most one either way.
  */
  lemma SupportMeans(v: Dec, figure: Figure)
    requires Fits(v.coeff)
    ensures Backs(Finite(v), figure) <==>
      && Fits(figure.coeff)
      && (IsRoundingOf(figure, Value(v)) || (AbsReal(Value(v)) <= 1.0 && IsRoundingOf(figure, 100.0 * Value(v))))
  {
    hide Backs, Quantize, InContext, Value, Scale;
    SupportRounds(v, figure);
    HundredfoldIsExact(v);
    ContextRounds(Dec(Abs(v.coeff), v.exp));
    AbsValue(v);
  }

  // ---- the main results ---------------------------------------------------

  /** Some number said in the evidence backs the figure: by its rounded value, or as the context makes a percentage of it. */
  ghost predicate Rounded(figure: Figure, evidence: Json) {
    && Fits(figure.coeff)
    && exists v: Dec :: Said(evidence, Finite(v)) &&
         (IsRoundingOf(figure, Value(v)) || (IsRate(v) && IsRoundingOf(figure, Value(PercentOf(v)))))
  }

  /** Whatever the evidence, a generation is accepted exactly when every figure anywhere in it is backed. */
  lemma {:induction false} AcceptedIffBacked(generated: Json, evidence: Json)
    ensures Unsupported(generated, evidence) == [] <==>
      forall figure :: HasFigure(generated, figure) ==> Rounded(figure, evidence)
  {
    NothingRefused(generated, evidence);
    forall figure
      ensures BackedIn(figure, evidence) <==> Rounded(figure, evidence)
    {
      BackedIffRounded(figure, evidence);
    }
    hide BackedIn, Rounded, Unsupported, HasFigure;
  }

  lemma BackedIffRounded(figure: Figure, evidence: Json)
    ensures BackedIn(figure, evidence) <==> Rounded(figure, evidence)
  {
    forall v: Dec
      ensures Backs(Finite(v), figure) <==>
        && Fits(figure.coeff)
        && (IsRoundingOf(figure, Value(v)) || (IsRate(v) && IsRoundingOf(figure, Value(PercentOf(v)))))
    {
      SupportRounds(v, figure);
    }
    hide IsRoundingOf, Value, Supports, IsRate, PercentOf, Said;
    if BackedIn(figure, evidence) {
      var v :| Said(evidence, v) && Backs(v, figure);
      assert Said(evidence, Finite(v.dec));
    }
  }

  /** Some number said in the evidence is the figure, or a rate that is, to the places shown. */
  ghost predicate Grounded(figure: Figure, evidence: Json) {
    && Fits(figure.coeff)
    && exists v: Dec :: Said(evidence, Finite(v)) &&
         (IsRoundingOf(figure, Value(v)) || (AbsReal(Value(v)) <= 1.0 && IsRoundingOf(figure, 100.0 * Value(v))))
  }

  /** No rate in the evidence has more than 28 digits; other numbers may be of any length. */
  ghost predicate ShortRates(evidence: Json) {
    forall v: Dec :: Said(evidence, Finite(v)) && IsRate(v) ==> Fits(v.coeff)
  }

  /**
    Where the evidence's rates have at most 28 digits, a generation is accepted
    exactly when every figure anywhere in it is an evidence number, or a hundred
    times an evidence rate of at most one, correctly rounded to the places shown.
  */
  lemma {:induction false} AcceptedIffGrounded(generated: Json, evidence: Json)
    requires ShortRates(evidence)
    ensures Unsupported(generated, evidence) == [] <==>
      forall figure :: HasFigure(generated, figure) ==> Grounded(figure, evidence)
  {
    NothingRefused(generated, evidence);
    forall figure
      ensures BackedIn(figure, evidence) <==> Grounded(figure, evidence)
    {
      BackedIffGrounded(figure, evidence);
    }
    hide BackedIn, Grounded, Unsupported, HasFigure;
  }

  lemma BackedIffGrounded(figure: Figure, evidence: Json)
    requires ShortRates(evidence)
    ensures BackedIn(figure, evidence) <==> Grounded(figure, evidence)
  {
    forall v: Dec | Said(evidence, Finite(v))
      ensures Backs(Finite(v), figure) <==>
        && Fits(figure.coeff)
        && (IsRoundingOf(figure, Value(v)) || (AbsReal(Value(v)) <= 1.0 && IsRoundingOf(figure, 100.0 * Value(v))))
    {
      if Fits(v.coeff) {
        SupportMeans(v, figure);
      } else {
        SupportRounds(v, figure);
        OneIsARate(v);
      }
    }
    hide IsRoundingOf, Value, Supports, IsRate, Said;
    if BackedIn(figure, evidence) {
      var v :| Said(evidence, v) && Backs(v, figure);
      assert Said(evidence, Finite(v.dec));
    }
  }

  /** A number of at most one either way is at most one as the context has it. */
  lemma OneIsARate(v: Dec)
    ensures AbsReal(Value(v)) <= 1.0 ==> IsRate(v)
  {
    AbsValue(v);
    hide Value, InContext;
    if AbsReal(Value(v)) <= 1.0 {
      OneStaysAbove(Dec(Abs(v.coeff), v.exp));
    }
  }

  /** A figure of more than 28 digits is refused whatever the evidence. */
  lemma {:induction false} LongFigureIsRefused(generated: Json, evidence: Json, figure: Figure)
    requires HasFigure(generated, figure) && !Fits(figure.coeff)
    ensures Unsupported(generated, evidence) != []
  {
    AcceptedIffBacked(generated, evidence);
    hide HasFigure, Unsupported, Said;
  }

  lemma {:induction false} FigureOrigin(text: string, p: nat, figure: Figure)
    requires figure in FiguresFrom(text, p)
    ensures exists i: nat :: i < |text| && IsFigureAt(text, i, figure)
    decreases |text| - p
  {
    if MatchAt(text, p).Some? {
      MatchShape(text, p);
      var m := MatchAt(text, p).value;
      if figure == FigureOf(text, m) {
        assert IsFigureAt(text, p, figure);
      } else {
        FigureOrigin(text, m.end, figure);
      }
    } else {
      FigureOrigin(text, p + 1, figure);
    }
  }

  /** What a match says: its digits as a number, how many of them are decimals, and how it is written. */
  ghost predicate Reads(text: string, m: Match, figure: Figure) {
    && m.start < m.whole <= m.frac <= m.end <= |text|
    && figure.coeff == Coefficient(text[m.start..m.frac])
    && figure.decimals == (if m.whole == m.frac then 0 else m.frac - m.whole - 1)
    && figure.isPercent == m.percent
    && figure.raw == if m.percent then text[m.start..m.end] else text[m.start..m.frac]
  }

  /** The figures are the matches, one for one and in order. */
  lemma {:induction false} FiguresAreMatches(text: string, p: nat)
    ensures var figures, matches := FiguresFrom(text, p), MatchesFrom(text, p);
      |figures| == |matches| && forall k :: 0 <= k < |matches| ==> Reads(text, matches[k], figures[k])
    decreases |text| - p
  {
    hide Reads, MatchAt, FigureOf;
    if p < |text| {
      if MatchAt(text, p).Some? {
        MatchShape(text, p);
        var m := MatchAt(text, p).value;
        FigureReads(text, p);
        FiguresAreMatches(text, m.end);
      } else {
        FiguresAreMatches(text, p + 1);
      }
    }
  }

  lemma FigureReads(text: string, p: nat)
    requires MatchAt(text, p).Some? && Inside(MatchAt(text, p).value, text)
    ensures Reads(text, MatchAt(text, p).value, FigureOf(text, MatchAt(text, p).value))
  {
    hide MatchAt, Coefficient, FracEnd, Guard, HasComma, TrimEnd, Run;
    MatchShape(text, p);
    PercentMeans(text, p);
    EndsInDigit(text, p);
    var m := MatchAt(text, p).value;
    if m.percent {
      NothingTrimmed(text[m.start..m.end]);
    } else {
      SpacesTrimmed(text, m.start, m.frac, m.end);
    }
  }

  lemma NothingTrimmed(s: string)
    requires s != "" && !IsSpace(s[|s| - 1])
    ensures TrimEnd(s) == s
  {
  }

  lemma {:induction false} SpacesTrimmed(text: string, p: nat, e: nat, end: nat)
    requires p < e <= end <= |text| && !IsSpace(text[e - 1]) && forall k :: e <= k < end ==> IsSpace(text[k])
    ensures TrimEnd(text[p..end]) == text[p..e]
    decreases end
  {
    var s := text[p..end];
    assert s[|s| - 1] == text[end - 1];
    if e < end {
      SpacesTrimmed(text, p, e, end - 1);
      assert s[..|s| - 1] == text[p..end - 1];
    }
  }

  /** The coefficient is the number its digits write; anything between them is passed over. */
  lemma {:induction false} CoefficientMeans(a: string, c: char, b: string)
    ensures AllDigits(a) ==> Coefficient(a) == DigitsValue(a)
    ensures !IsDigit(c) ==> Coefficient(a + [c] + b) == Coefficient(a + b)
  {
    var long, short := a + [c] + b, a + b;
    if AllDigits(a) {
      DigitsAlone(a);
    }
    if !IsDigit(c) {
      if b == "" {
        assert long[..|long| - 1] == a == short;
      } else {
        CoefficientMeans(a, c, b[..|b| - 1]);
        assert long[..|long| - 1] == a + [c] + b[..|b| - 1] && short[..|short| - 1] == a + b[..|b| - 1];
      }
    }
  }

  lemma {:induction false} DigitsAlone(s: string)
    requires AllDigits(s)
    ensures Coefficient(s) == DigitsValue(s)
  {
    if s != "" {
      DigitsAlone(s[..|s| - 1]);
    }
  }

  /** The numbers of a string are those its tokens write, each with its decimals. */
  lemma {:induction false} TokensAreNumbers(text: string, p: nat, v: Number)
    ensures v in TokensOf(text, p) <==>
      exists m :: m in TokensFrom(text, p) && Inside(m, text) &&
        v == Finite(Dec(Coefficient(text[m.start..m.frac]), if m.whole == m.frac then 0 else m.whole + 1 - m.frac))
    decreases |text| - p
  {
    hide Coefficient;
    if p < |text| {
      if DigitAt(text, p) {
        var whole := Run(text, p);
        var frac := FracEnd(text, whole);
        TokensAreNumbers(text, frac, v);
        hide Run, FracEnd;
        var m := Match(p, whole, frac, frac, false);
        assert forall other :: other in TokensFrom(text, p) <==> other == m || other in TokensFrom(text, frac);
      } else {
        TokensAreNumbers(text, p + 1, v);
      }
    }
  }

  ghost predicate IsFigureAt(text: string, i: nat, figure: Figure) {
    && MatchAt(text, i).Some? && Inside(MatchAt(text, i).value, text)
    && figure == FigureOf(text, MatchAt(text, i).value)
  }

  lemma {:induction false} TrimKeeps(s: string, c: char)
    requires c in s && !IsSpace(c)
    ensures c in TrimEnd(s)
  {
    if IsSpace(s[|s| - 1]) {
      var k :| 0 <= k < |s| && s[k] == c;
      assert s[..|s| - 1][k] == c;
      TrimKeeps(s[..|s| - 1], c);
    }
  }

  lemma {:induction false} TokensFound(text: string, p: nat, m: Match)
    requires m in TokensFrom(text, p)
    ensures Inside(m, text) && TokenOf(text, m) in TokensOf(text, p)
    decreases |text| - p
  {
    if DigitAt(text, p) {
      var frac := FracEnd(text, Run(text, p));
      if m != TokensFrom(text, p)[0] {
        assert m in TokensFrom(text, frac);
        TokensFound(text, frac, m);
      }
    } else {
      TokensFound(text, p + 1, m);
    }
  }

  /** A figure written without commas is read by the other scanner as the same decimal. */
  lemma PlainFigureIsToken(text: string, i: nat, figure: Figure)
    requires IsFigureAt(text, i, figure) && ',' !in figure.raw
    ensures Finite(Dec(figure.coeff, -(figure.decimals as int))) in TokensOf(text, 0)
  {
    var m := MatchAt(text, i).value;
    MatchShape(text, i);
    if HasComma(text, i, m.whole) {
      CommaInRaw(text, i, m);
      assert false;
    }
    hide MatchAt, TrimEnd, Coefficient, Guard;
    TokenAt(text, 0, i);
    TokensFound(text, 0, Match(i, m.whole, m.frac, m.frac, false));
  }

  lemma CommaInRaw(text: string, i: nat, m: Match)
    requires Inside(m, text) && i == m.start && HasComma(text, i, m.whole)
    ensures ',' in TrimEnd(text[i..m.end])
  {
    var k :| i <= k < m.whole && CharAt(text, k, ',');
    assert text[i..m.end][k - i] == ',';
    TrimKeeps(text[i..m.end], ',');
  }

  lemma OwnDecimal(coeff: nat, decimals: nat)
    ensures Supports(Dec(coeff, -(decimals as int)), coeff, decimals) <==> Fits(coeff)
  {
    assert Quantize(Dec(coeff, -(decimals as int)), decimals) == coeff * Pow10(0) == coeff;
  }

  lemma {:induction false} TextsAreEvidence(node: Json, text: string)
    requires text in Texts(node)
    ensures TokensOf(text, 0) <= Values(node)
    decreases node, 1, 0
  {
    if !node.Str? {
      TextsBelowAreEvidence(node, Width(node), text);
    }
  }

  lemma {:induction false} TextsBelowAreEvidence(node: Json, n: nat, text: string)
    requires n <= Width(node) && text in TextsBelow(node, n)
    ensures TokensOf(text, 0) <= ValuesBelow(node, n)
    decreases node, 0, n
  {
    if text in TextsBelow(node, n - 1) {
      TextsBelowAreEvidence(node, n - 1, text);
    } else {
      TextsAreEvidence(Child(node, n - 1), text);
    }
  }

  /** Checked against the structure it stands in, a figure without commas is supported exactly when it has at most 28 digits. */
  lemma {:induction false} OwnTextSupports(node: Json, figure: Figure)
    requires HasFigure(node, figure) && ',' !in figure.raw
    ensures BackedIn(figure, node) <==> Fits(figure.coeff)
  {
    hide Values, TokensOf, Texts, FiguresFrom, IsFigureAt, Supports, HasText, Said;
    var text :| HasText(node, text) && figure in Figures(text);
    TextsAreAtPaths(node, text);
    FigureOrigin(text, 0, figure);
    var i: nat :| i < |text| && IsFigureAt(text, i, figure);
    PlainFigureIsToken(text, i, figure);
    TextsAreEvidence(node, text);
    OwnDecimal(figure.coeff, figure.decimals);
    var own := Finite(Dec(figure.coeff, -(figure.decimals as int)));
    ValuesAreSaid(node, own);
    if Fits(figure.coeff) {
      assert Backs(own, figure);
    } else {
      LongIsNotBacked(figure, node);
    }
  }

  lemma LongIsNotBacked(figure: Figure, evidence: Json)
    requires !Fits(figure.coeff)
    ensures !BackedIn(figure, evidence)
  {
    BackedIffRounded(figure, evidence);
    hide BackedIn;
  }

  /** The scanners agree: text without thousands separators refuses itself exactly when some figure is too long. */
  lemma {:induction false} SelfEvident(node: Json)
    requires forall figure :: HasFigure(node, figure) ==> ',' !in figure.raw
    ensures Unsupported(node, node) == [] <==> forall figure :: HasFigure(node, figure) ==> Fits(figure.coeff)
  {
    NothingRefused(node, node);
    hide HasFigure, BackedIn, Unsupported;
    forall figure | HasFigure(node, figure)
      ensures BackedIn(figure, node) <==> Fits(figure.coeff)
    {
      OwnTextSupports(node, figure);
    }
  }

  const PRICE := "2,400"

  lemma PriceFigure()
    ensures Figures(PRICE) == [Figure(PRICE, 2400, 0, false)]
  {
    var t := PRICE;
    assert Grouped(t, 0, 3) == [] && Grouped(t, 0, 2) == [] by {
      assert !DigitAt(t, 1);
    }
    assert GroupEnds(t, 5) == [];
    assert GroupEnds(t, 1) == [5];
    assert Grouped(t, 0, 1) == [5];
    assert WholeEnds(t, 0)[0] == 5;
    assert FracEnds(t, 5) == [5];
    assert Guard(t, 5);
    assert FirstFrac(t, [5]) == Some(5);
    assert MatchAt(t, 0) == Some(Match(0, 5, 5, 5, false));
    assert t[0..5] == t;
    assert t[..4] == "2,40" && t[..4][..3] == "2,4" && t[..4][..3][..2] == "2," && t[..4][..3][..2][..1] == "2";
    assert Coefficient("2") == 2 by {
      assert "2"[..0] == "";
    }
    assert Coefficient("2,") == 2;
    assert Coefficient("2,4") == 24;
    assert Coefficient("2,40") == 240;
    assert Coefficient(t) == 2400;
    assert FiguresFrom(t, 5) == [];
  }

  lemma SmallCoefficients()
    ensures Coefficient("2") == 2 && Coefficient("400") == 400
  {
    assert "2"[..0] == "" && "400"[..2] == "40" && "40"[..1] == "4" && "4"[..0] == "";
    assert Coefficient("4") == 4 && Coefficient("40") == 40;
  }

  lemma PriceRuns()
    ensures Run(PRICE, 0) == 1 && Run(PRICE, 2) == 5
  {
    var t := PRICE;
    assert Run(t, 1) == 1;
    assert Run(t, 5) == 5 && Run(t, 4) == 5 && Run(t, 3) == 5;
  }

  lemma PriceTokens()
    ensures TokensOf(PRICE, 0) == {Finite(Dec(2, 0)), Finite(Dec(400, 0))}
  {
    var t := PRICE;
    PriceRuns();
    SmallCoefficients();
    assert t[0..1] == "2" && t[2..5] == "400";
    hide Run, Coefficient;
    assert TokensOf(t, 5) == {};
    assert TokensOf(t, 2) == {Finite(Dec(400, 0))};
    assert TokensOf(t, 1) == TokensOf(t, 2);
  }

  /** With a thousands separator the scanners disagree: this text refuses itself. */
  lemma CommaFigureRefusesItself()
    ensures Unsupported(Str(PRICE), Str(PRICE)) == [PRICE]
  {
    PriceFigure();
    PriceTokens();
    hide FiguresFrom, TokensOf, Coefficient, Supports;
    var figure := Figure(PRICE, 2400, 0, false);
    assert !Supported(figure, Values(Str(PRICE))) by {
      WholeNumberBacks(2, figure);
      WholeNumberBacks(400, figure);
    }
    assert [figure][..0] == [] && RefusedFigures([figure], Values(Str(PRICE))) == [PRICE];
    assert Texts(Str(PRICE)) == [PRICE] && [PRICE][..0] == [];
  }

  /** A whole number above one backs, among figures without decimals, only itself. */
  lemma WholeNumberBacks(n: nat, figure: Figure)
    requires 1 < n < LIMIT && figure.decimals == 0
    ensures Backs(Finite(Dec(n, 0)), figure) <==> figure.coeff == n
  {
    ContextRounds(Dec(n, 0));
    hide InContext;
    assert Pow10(0) == 1;
  }

  const OVER_AN_EIGHTH := Dec(125_000_000_000_000_000_000_000_000_001, -30)

  lemma LargePowers()
    ensures Pow10(2) == 100 && Pow10(4) == 10_000
    ensures Pow10(26) == 100_000_000_000_000_000_000_000_000
    ensures Pow10(28) == LIMIT
    ensures Pow10(30) == 1_000_000_000_000_000_000_000_000_000_000
  {
    assert Pow10(2) == 10 * Pow10(1) == 100;
    PowAdds(2, 2);
    PowAdds(4, 4);
    PowAdds(8, 8);
    PowAdds(16, 8);
    PowAdds(24, 2);
    PowAdds(26, 2);
    PowAdds(28, 2);
    hide Pow10;
  }

  lemma FirstDigitsOfTheRate()
    ensures InContext(OVER_AN_EIGHTH) == Dec(1_250_000_000_000_000_000_000_000_000, -28)
    ensures InContext(Dec(100 * OVER_AN_EIGHTH.coeff, -30)) == Dec(1_250_000_000_000_000_000_000_000_000, -26)
  {
    LargePowers();
    hide Pow10;
    assert Excess(1_250_000_000_000_000_000_000_000_000) == 0;
    assert Excess(12_500_000_000_000_000_000_000_000_000) == 1;
    assert Excess(125_000_000_000_000_000_000_000_000_001) == 2;
    assert Excess(1_250_000_000_000_000_000_000_000_000_010) == 3;
    assert Excess(12_500_000_000_000_000_000_000_000_000_100) == 4;
  }

  /**
    Without the bound on the evidence, acceptance is not exact rounding: a rate
    a little over 12.5% passes for 12%, because the context drops its last digits.
  */
  lemma LongRateIsRoundedTwice()
    ensures var figure := Figure("12%", 12, 0, true);
      !Fits(OVER_AN_EIGHTH.coeff) && Backs(Finite(OVER_AN_EIGHTH), figure) &&
      !IsRoundingOf(figure, Value(OVER_AN_EIGHTH)) && !IsRoundingOf(figure, 100.0 * Value(OVER_AN_EIGHTH))
  {
    FirstDigitsOfTheRate();
    LargePowers();
    QuantizeRounds(OVER_AN_EIGHTH, 0, 12);
    QuantizeRounds(Dec(100 * OVER_AN_EIGHTH.coeff, -30), 0, 12);
    HundredfoldValue(OVER_AN_EIGHTH);
    hide Pow10, InContext, Value, Rounds, Unit;
  }

  lemma HundredfoldValue(d: Dec)
    ensures Value(Dec(100 * d.coeff, d.exp)) == 100.0 * Value(d)
  {
    Associate(100.0, d.coeff as real, Scale(d.exp));
  }
}
