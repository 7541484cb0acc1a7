/**
  The prose of a weekly plan (api/ai/plan.py): when a model's text is kept,
  when the template stands in for it, and what is metered. Selection and order
  of the priorities are given; the model may only write about them.
*/
module PlanProse {
  import opened Json
  import opened Prelude
  import N = Numbers
  import V = Validate

  const REFS := ["f1", "f2", "f3", "f4"]

  const TEXT := V.StringOf(None)
  const STEPS := V.ArrayOf(Some(TEXT), Some(1))
  const ITEM := V.ObjectOf(
    [("ref", TEXT), ("title", TEXT), ("why", TEXT), ("how", STEPS)], ["ref", "title", "why", "how"], true)
  const PLAN := V.ObjectOf(
    [("summary", TEXT), ("priorities", V.ArrayOf(Some(ITEM), None))], ["summary", "priorities"], true)

  datatype Priority = Priority(ref: string, typeKey: string, title: string)

  datatype Prose = Prose(title: string, why: string, how: seq<string>, source: string)

  /** What the catalogue and the template texts say about each issue type. */
  datatype Catalogue = Catalogue(summaries: map<string, string>, fixes: map<string, seq<string>>, generic: seq<string>)

  datatype Generation = Generation(data: Json, model: string, provider: string)

  datatype Reply = NoProvider | Failed | Wrote(generation: Generation)

  datatype Outcome =
    | Kept(summary: string, prose: map<string, Prose>, model: string, provider: string)
    | Templated(reason: string, prose: map<string, Prose>)
    | Raised

  datatype Call = Paid | Refused | Errored

  /** `rank` numbers its rows f1, f2, … and takes at most four of them. */
  predicate IsRanked(priorities: seq<Priority>) {
    |priorities| <= |REFS| && forall k :: 0 <= k < |priorities| ==> priorities[k].ref == REFS[k]
  }

  predicate Known(priorities: seq<Priority>, catalogue: Catalogue) {
    forall k :: 0 <= k < |priorities| ==> priorities[k].typeKey in catalogue.summaries
  }

  // ---- the template -------------------------------------------------------

  function TemplateFor(p: Priority, catalogue: Catalogue): Prose
    requires p.typeKey in catalogue.summaries
  {
    Prose(p.title, catalogue.summaries[p.typeKey],
      if p.typeKey in catalogue.fixes then catalogue.fixes[p.typeKey] else catalogue.generic, "template")
  }

  /** What the template says about one priority. */
  ghost predicate IsTemplate(prose: Prose, p: Priority, catalogue: Catalogue) {
    && prose.title == p.title && prose.source == "template"
    && p.typeKey in catalogue.summaries && prose.why == catalogue.summaries[p.typeKey]
    && (p.typeKey in catalogue.fixes ==> prose.how == catalogue.fixes[p.typeKey])
    && (p.typeKey !in catalogue.fixes ==> prose.how == catalogue.generic)
  }

  /** The last priority with this ref. */
  ghost predicate LastWith(priorities: seq<Priority>, ref: string, k: nat) {
    && k < |priorities| && priorities[k].ref == ref
    && forall j :: k < j < |priorities| ==> priorities[j].ref != ref
  }

  ghost predicate IsTold(told: Prose, ref: string, priorities: seq<Priority>, catalogue: Catalogue) {
    exists k: nat :: LastWith(priorities, ref, k) && IsTemplate(told, priorities[k], catalogue)
  }

  /** Exactly the refs of the priorities, each with the template text of the last one that has it. */
  ghost predicate FromTemplate(prose: map<string, Prose>, priorities: seq<Priority>, catalogue: Catalogue) {
    && Covers(prose, priorities)
    && forall ref :: ref in prose ==> IsTold(prose[ref], ref, priorities, catalogue)
  }

  lemma OneMoreTold(prose: map<string, Prose>, before: seq<Priority>, p: Priority, told: Prose, catalogue: Catalogue)
    requires FromTemplate(prose, before, catalogue) && IsTemplate(told, p, catalogue)
    ensures FromTemplate(prose[p.ref := told], before + [p], catalogue)
  {
    var after, all := prose[p.ref := told], before + [p];
    forall ref | ref in after
      ensures IsTold(after[ref], ref, all, catalogue)
    {
      hide IsTemplate;
      if ref == p.ref {
        assert LastWith(all, ref, |before|) && all[|before|] == p;
      } else {
        var k: nat :| LastWith(before, ref, k) && IsTemplate(prose[ref], before[k], catalogue);
        assert LastWith(all, ref, k) && all[k] == before[k];
      }
    }
  }

  /** When refs are distinct, the last priority with a ref is the only one. */
  lemma EachItsOwn(prose: map<string, Prose>, priorities: seq<Priority>, catalogue: Catalogue)
    requires IsRanked(priorities) && FromTemplate(prose, priorities, catalogue)
    ensures forall k :: 0 <= k < |priorities| ==> IsTemplate(prose[priorities[k].ref], priorities[k], catalogue)
  {
    RankedAreDistinct(priorities);
    hide IsTemplate, IsRanked;
    forall k | 0 <= k < |priorities|
      ensures IsTemplate(prose[priorities[k].ref], priorities[k], catalogue)
    {
      assert IsTold(prose[priorities[k].ref], priorities[k].ref, priorities, catalogue);
    }
  }

  /** `_template_prose`: every priority gets its own template text, whatever the refs are. */
  method TemplateProse(priorities: seq<Priority>, catalogue: Catalogue) returns (prose: map<string, Prose>)
    requires Known(priorities, catalogue)
    ensures FromTemplate(prose, priorities, catalogue)
    ensures IsRanked(priorities) ==>
      forall k :: 0 <= k < |priorities| ==> IsTemplate(prose[priorities[k].ref], priorities[k], catalogue)
  {
    prose := map[];
    hide FromTemplate, IsTemplate, TemplateFor;
    NothingTold(catalogue);
    for i := 0 to |priorities|
      invariant FromTemplate(prose, priorities[..i], catalogue)
    {
      TemplateIs(priorities[i], catalogue);
      OneMoreTold(prose, priorities[..i], priorities[i], TemplateFor(priorities[i], catalogue), catalogue);
      assert priorities[..i + 1] == priorities[..i] + [priorities[i]];
      prose := prose[priorities[i].ref := TemplateFor(priorities[i], catalogue)];
    }
    assert priorities[..|priorities|] == priorities;
    if IsRanked(priorities) {
      EachItsOwn(prose, priorities, catalogue);
    }
  }

  lemma NothingTold(catalogue: Catalogue)
    ensures FromTemplate(map[], [], catalogue)
  {
  }

  lemma TemplateIs(p: Priority, catalogue: Catalogue)
    requires p.typeKey in catalogue.summaries
    ensures IsTemplate(TemplateFor(p, catalogue), p, catalogue)
  {
  }

  ghost predicate Covers(prose: map<string, Prose>, priorities: seq<Priority>) {
    forall k :: 0 <= k < |priorities| ==> priorities[k].ref in prose
  }

  lemma RankedAreDistinct(priorities: seq<Priority>)
    requires IsRanked(priorities)
    ensures forall i, j :: 0 <= i < |priorities| && 0 <= j < |priorities| && priorities[i].ref == priorities[j].ref ==> i == j
  {
    assert forall i :: 0 <= i < 4 ==> REFS[i][1] == ['1', '2', '3', '4'][i];
  }

  // ---- what the model sent ------------------------------------------------

  ghost predicate IsText(j: Json, name: string) {
    j.Obj? && HasKey(j.fields, name) && Get(j.fields, name).Str?
  }

  ghost predicate IsSteps(j: Json) {
    j.Arr? && |j.items| >= 1 && forall k :: 0 <= k < |j.items| ==> j.items[k].Str?
  }

  ghost predicate OnlyKeys(j: Json, names: set<string>) {
    j.Obj? && forall name :: HasKey(j.fields, name) ==> name in names
  }

  ghost predicate IsItem(j: Json) {
    && IsText(j, "ref") && IsText(j, "title") && IsText(j, "why")
    && HasKey(j.fields, "how") && IsSteps(Get(j.fields, "how"))
    && OnlyKeys(j, {"ref", "title", "why", "how"})
  }

  ghost predicate IsItems(j: Json) {
    j.Arr? && forall k :: 0 <= k < |j.items| ==> IsItem(j.items[k])
  }

  ghost predicate IsPlan(j: Json) {
    && IsText(j, "summary") && HasKey(j.fields, "priorities") && IsItems(Get(j.fields, "priorities"))
    && OnlyKeys(j, {"summary", "priorities"})
  }

  lemma StepsShape(j: Json)
    ensures V.Conforms(j, STEPS) <==> IsSteps(j)
  {
    if j.Arr? {
      assert forall k :: 0 <= k < |j.items| ==> (V.Conforms(j.items[k], TEXT) <==> j.items[k].Str?);
    }
  }

  lemma ItemShape(j: Json)
    ensures V.Conforms(j, ITEM) <==> IsItem(j)
  {
    if j.Obj? {
      var p := ITEM.properties;
      assert p[0] == ("ref", TEXT) && p[1] == ("title", TEXT) && p[2] == ("why", TEXT) && p[3] == ("how", STEPS);
      assert forall name :: V.Declared(p, name) <==> name in {"ref", "title", "why", "how"};
      assert forall name :: name in ITEM.required <==> name in {"ref", "title", "why", "how"};
      if HasKey(j.fields, "how") {
        StepsShape(Get(j.fields, "how"));
      }
      hide HasKey, V.Declared, IsSteps;
      assert forall v :: V.Conforms(v, TEXT) <==> v.Str?;
    }
  }

  /** The schema, read out: exactly a summary and priorities, each exactly three texts and at least one step. */
  lemma PlanShape(j: Json)
    ensures V.Conforms(j, PLAN) <==> IsPlan(j)
  {
    if j.Obj? {
      var p := PLAN.properties;
      assert p[0] == ("summary", TEXT) && p[1] == ("priorities", V.ArrayOf(Some(ITEM), None));
      assert forall name :: V.Declared(p, name) <==> name in {"summary", "priorities"};
      assert forall name :: name in PLAN.required <==> name in {"summary", "priorities"};
      if HasKey(j.fields, "priorities") {
        ItemsShape(Get(j.fields, "priorities"));
      }
      hide HasKey, V.Declared, IsItems;
      assert forall v :: V.Conforms(v, TEXT) <==> v.Str?;
    }
  }

  lemma ItemsShape(j: Json)
    ensures V.Conforms(j, V.ArrayOf(Some(ITEM), None)) <==> IsItems(j)
  {
    if j.Arr? {
      forall k | 0 <= k < |j.items|
        ensures V.Conforms(j.items[k], ITEM) <==> IsItem(j.items[k])
      {
        ItemShape(j.items[k]);
      }
      hide IsItem;
    }
  }

  // ---- the refs -----------------------------------------------------------

  datatype RefList = RefsRaise | Refs(refs: seq<Option<Json>>)

  function RefOf(item: Json): Option<Json>
    requires item.Obj?
  {
    if HasKey(item.fields, "ref") then Some(Get(item.fields, "ref")) else None
  }

  predicate AllObjects(items: seq<Json>) {
    forall k :: 0 <= k < |items| ==> items[k].Obj?
  }

  /** `[item.get("ref") for item in data.get("priorities", [])]`, which raises unless it iterates over dictionaries. */
  function RefsOf(data: Json): RefList {
    if !data.Obj? then RefsRaise else
      var listed := if HasKey(data.fields, "priorities") then Get(data.fields, "priorities") else Arr([]);
      match listed
      case Arr(items) =>
        if AllObjects(items) then
          Refs(seq(|items|, k requires 0 <= k < |items| && items[k].Obj? => RefOf(items[k])))
        else RefsRaise
      case Str(text) => if text == "" then Refs([]) else RefsRaise
      case Obj(fields) => if fields == [] then Refs([]) else RefsRaise
      case _ => RefsRaise
  }

  function Ranked(priorities: seq<Priority>): seq<Option<Json>> {
    seq(|priorities|, k requires 0 <= k < |priorities| => Some(Str(priorities[k].ref)))
  }

  /** What can be asked for its refs: a list of objects, or nothing at all, be it missing or empty. */
  ghost predicate HasRefs(data: Json) {
    && data.Obj?
    && (HasKey(data.fields, "priorities") ==>
          var listed := Get(data.fields, "priorities");
          || (listed.Str? && listed.text == "") || (listed.Obj? && listed.fields == [])
          || (listed.Arr? && forall k :: 0 <= k < |listed.items| ==> listed.items[k].Obj?))
  }

  /** The ref check raises exactly on what cannot be asked. */
  lemma RefsRaiseMeans(data: Json)
    ensures RefsOf(data).RefsRaise? <==> !HasRefs(data)
  {
    hide HasKey;
    if data.Obj? && HasKey(data.fields, "priorities") {
      var listed := Get(data.fields, "priorities");
      if listed.Arr? {
        hide AllObjects;
        assert RefsOf(data).Refs? <==> AllObjects(listed.items);
      }
    }
  }

  /** A plan that is about the ranked priorities, all of them, in their order. */
  ghost predicate InOrder(data: Json, priorities: seq<Priority>) {
    IsPlan(data) && var items := Get(data.fields, "priorities").items;
    && |items| == |priorities|
    && forall k :: 0 <= k < |items| ==> IsText(items[k], "ref") && Get(items[k].fields, "ref").text == priorities[k].ref
  }

  /** Comparing the lists of refs decides it. */
  lemma OrderMeans(data: Json, priorities: seq<Priority>)
    requires IsPlan(data)
    ensures RefsOf(data) == Refs(Ranked(priorities)) <==> InOrder(data, priorities)
  {
    PlansHaveRefs(data);
    var items, refs := Get(data.fields, "priorities").items, RefsOf(data).refs;
    forall k | 0 <= k < |items|
      ensures IsText(items[k], "ref") && refs[k] == Some(Str(Get(items[k].fields, "ref").text))
    {
      assert IsItem(items[k]);
    }
    hide IsPlan, IsItem, RefsOf, HasKey, IsText;
    if |items| == |priorities| {
      assert forall k :: 0 <= k < |items| ==> Ranked(priorities)[k] == Some(Str(priorities[k].ref));
      if forall k :: 0 <= k < |items| ==> Get(items[k].fields, "ref").text == priorities[k].ref {
        assert refs == Ranked(priorities);
      }
    }
  }

  /** A plan of the right shape never makes the ref check raise. */
  lemma PlansHaveRefs(data: Json)
    requires IsPlan(data)
    ensures RefsOf(data).Refs?
    ensures |RefsOf(data).refs| == |Get(data.fields, "priorities").items|
    ensures forall k :: 0 <= k < |RefsOf(data).refs| ==>
      RefsOf(data).refs[k] == Some(Get(Get(data.fields, "priorities").items[k].fields, "ref"))
  {
    var items := Get(data.fields, "priorities").items;
    assert forall k :: 0 <= k < |items| ==> IsItem(items[k]);
    assert forall k :: 0 <= k < |items| ==> items[k].Obj? && HasKey(items[k].fields, "ref");
    hide IsItem, HasKey, IsPlan;
    assert RefsOf(data) == Refs(seq(|items|, k requires 0 <= k < |items| && items[k].Obj? => RefOf(items[k])));
    forall k | 0 <= k < |items|
      ensures RefsOf(data).refs[k] == Some(Get(items[k].fields, "ref"))
    {
      assert RefsOf(data).refs[k] == RefOf(items[k]);
    }
  }

  // ---- keeping or replacing -----------------------------------------------

  function TextsOf(items: seq<Json>): seq<string> {
    seq(|items|, k requires 0 <= k < |items| => if items[k].Str? then items[k].text else "")
  }

  function ProseOf(item: Json): Prose
    requires IsItem(item)
  {
    Prose(Get(item.fields, "title").text, Get(item.fields, "why").text, TextsOf(Get(item.fields, "how").items), "model")
  }

  function RefText(item: Json): string
    requires IsItem(item)
  {
    Get(item.fields, "ref").text
  }

  /** The prose holds what the model wrote in this item. */
  ghost predicate WrittenIn(prose: Prose, item: Json) {
    && IsText(item, "title") && prose.title == Get(item.fields, "title").text
    && IsText(item, "why") && prose.why == Get(item.fields, "why").text
    && HasKey(item.fields, "how") && IsSteps(Get(item.fields, "how"))
    && var steps := Get(item.fields, "how").items;
    && |prose.how| == |steps| && (forall k :: 0 <= k < |steps| ==> steps[k] == Str(prose.how[k]))
    && prose.source == "model"
  }

  lemma ProseIsWritten(item: Json)
    requires IsItem(item)
    ensures WrittenIn(ProseOf(item), item)
  {
    hide HasKey;
  }

  method ByRef(items: seq<Json>) returns (prose: map<string, Prose>)
    requires forall k :: 0 <= k < |items| ==> IsItem(items[k])
    ensures forall k :: 0 <= k < |items| ==> RefText(items[k]) in prose
    ensures forall ref :: ref in prose ==>
      exists k :: 0 <= k < |items| && RefText(items[k]) == ref && WrittenIn(prose[ref], items[k])
  {
    hide IsItem, WrittenIn;
    prose := map[];
    for i := 0 to |items|
      invariant forall k :: 0 <= k < i ==> RefText(items[k]) in prose
      invariant forall ref :: ref in prose ==>
        exists k :: 0 <= k < i && RefText(items[k]) == ref && WrittenIn(prose[ref], items[k])
    {
      ProseIsWritten(items[i]);
      prose := prose[RefText(items[i]) := ProseOf(items[i])];
    }
  }

  ghost predicate Acceptable(data: Json, payload: Json, priorities: seq<Priority>) {
    IsPlan(data) && N.Unsupported(data, payload) == [] && InOrder(data, priorities)
  }

  /** Why the template speaks; invented figures are named before a wrong shape, and the order last. */
  ghost function Reason(priorities: seq<Priority>, payload: Json, reply: Reply): string {
    if priorities == [] then "no_findings" else
      match reply
      case NoProvider => "no_provider"
      case Failed => "provider_error"
      case Wrote(generation) =>
        if N.Unsupported(generation.data, payload) != [] then "unsupported_numbers"
        else if IsPlan(generation.data) then "reordered_priorities"
        else "validation_failed"
  }

  /** One row for every call that was made, unless the ref check raised. */
  ghost function Metered(priorities: seq<Priority>, reply: Reply, outcome: Outcome): seq<Call> {
    if priorities == [] || reply.NoProvider? || outcome.Raised? then []
    else if reply.Failed? then [Errored]
    else if outcome.Kept? then [Paid]
    else [Refused]
  }

  /**
    `_prose`. `calls` lists what was metered. The text of a model is kept exactly
    when it conforms, claims nothing unsupported and keeps the ranking; otherwise
    the template speaks, unless the ref check raised on a value that is not even
    of the shape to have refs, and then nothing is metered.
  */
  method WriteProse(priorities: seq<Priority>, payload: Json, reply: Reply, catalogue: Catalogue)
    returns (outcome: Outcome, calls: seq<Call>)
    requires Known(priorities, catalogue)
    ensures outcome.Kept? <==> priorities != [] && reply.Wrote? && Acceptable(reply.generation.data, payload, priorities)
    ensures outcome.Raised? <==> priorities != [] && reply.Wrote? && !HasRefs(reply.generation.data)
    ensures !outcome.Raised? ==> Covers(outcome.prose, priorities)
    ensures outcome.Kept? ==> KeptAsWritten(outcome, reply.generation, priorities)
    ensures outcome.Templated? ==> FromTemplate(outcome.prose, priorities, catalogue)
    ensures outcome.Templated? ==> outcome.reason == Reason(priorities, payload, reply)
    ensures calls == Metered(priorities, reply, outcome)
  {
    hide V.Conforms, N.Unsupported, IsPlan, HasKey, InOrder, RefsOf, HasRefs, KeptAsWritten;
    var template := TemplateProse(priorities, catalogue);
    if priorities == [] {
      return Templated("no_findings", template), [];
    }
    match reply {
      case NoProvider => return Templated("no_provider", template), [];
      case Failed => return Templated("provider_error", template), [Errored];
      case Wrote(generation) =>
        var data := generation.data;
        var shape := V.SchemaErrors(data, PLAN, []);
        V.NoFaultsIffConforms(data, PLAN, []);
        var invented := N.UnsupportedFigures(data, payload);
        PlanShape(data);
        var refs := RefsOf(data);
        RefsRaiseMeans(data);
        if refs.RefsRaise? {
          if V.Conforms(data, PLAN) {
            PlansHaveRefs(data);
          }
          return Raised, [];
        }
        if V.Conforms(data, PLAN) {
          OrderMeans(data, priorities);
        }
        var reordered := refs.refs != Ranked(priorities);
        if shape != [] || invented != [] || reordered {
          if reordered && !(shape != [] || invented != []) {
            return Templated("reordered_priorities", template), [Refused];
          }
          return Templated(if invented != [] then "unsupported_numbers" else "validation_failed", template), [Refused];
        }
        outcome := Keep(generation, priorities);
        calls := [Paid];
    }
  }

  /** Each priority carries the text the model wrote at its place. */
  ghost predicate KeptAsWritten(outcome: Outcome, generation: Generation, priorities: seq<Priority>) {
    && outcome.Kept? && IsPlan(generation.data)
    && outcome.summary == Get(generation.data.fields, "summary").text
    && outcome.model == generation.model && outcome.provider == generation.provider
    && var items := Get(generation.data.fields, "priorities").items;
    && |items| == |priorities|
    && (IsRanked(priorities) ==>
          forall k :: 0 <= k < |priorities| ==>
            priorities[k].ref in outcome.prose && WrittenIn(outcome.prose[priorities[k].ref], items[k]))
  }

  method Keep(generation: Generation, priorities: seq<Priority>) returns (outcome: Outcome)
    requires IsPlan(generation.data) && InOrder(generation.data, priorities)
    ensures outcome.Kept? && KeptAsWritten(outcome, generation, priorities) && Covers(outcome.prose, priorities)
  {
    var items := Get(generation.data.fields, "priorities").items;
    PlansHaveRefs(generation.data);
    hide IsItem, HasKey, WrittenIn;
    var prose := ByRef(items);
    assert forall k :: 0 <= k < |priorities| ==> RefText(items[k]) == priorities[k].ref;
    if IsRanked(priorities) {
      RankedAreDistinct(priorities);
    }
    outcome := Kept(Get(generation.data.fields, "summary").text, prose, generation.model, generation.provider);
  }
}
