/**
  The schema checker (api/ai/validate.py): the small part of JSON Schema the
  prompts use, checked by recursion over schema and value.
*/
module Validate {
  import opened Json
  import opened Prelude

  datatype Schema =
    | ObjectOf(properties: seq<(string, Schema)>, required: seq<string>, closed: bool)
    | ArrayOf(items: Option<Schema>, minItems: Option<int>)
    | StringOf(choices: Option<seq<string>>)
    | IntegerType
    | NumberType
    | BooleanType
    | Anything

  /** Where in the value: `.name` or `[index]`. */
  datatype Step = Field(name: string) | Index(k: nat)

  datatype Kind =
    | NotObject
    | Missing(name: string)
    | Unexpected(name: string)
    | NotArray
    | TooFew(minimum: int)
    | NotString
    | NotChoice(text: string)
    | NotInteger
    | NotNumber
    | NotBoolean

  datatype Fault = Fault(at: seq<Step>, kind: Kind)

  // ---- the checker --------------------------------------------------------

  ghost function MissingFaults(fields: seq<(string, Json)>, required: seq<string>, at: seq<Step>): seq<Fault> {
    if required == [] then [] else
      var last := required[|required| - 1];
      MissingFaults(fields, required[..|required| - 1], at) +
        if HasKey(fields, last) then [] else [Fault(at, Missing(last))]
  }

  predicate Declared(properties: seq<(string, Schema)>, name: string) {
    exists k :: 0 <= k < |properties| && properties[k].0 == name
  }

  ghost function UnexpectedFaults(fields: seq<(string, Json)>, properties: seq<(string, Schema)>, at: seq<Step>): seq<Fault> {
    if fields == [] then [] else
      var last := fields[|fields| - 1].0;
      UnexpectedFaults(fields[..|fields| - 1], properties, at) +
        if Declared(properties, last) then [] else [Fault(at, Unexpected(last))]
  }

  /** The faults below the first `n` properties. */
  ghost function PropertyFaults(fields: seq<(string, Json)>, schema: Schema, n: nat, at: seq<Step>): seq<Fault>
    requires schema.ObjectOf? && n <= |schema.properties|
    decreases schema, 0, n
  {
    if n == 0 then [] else
      var (name, sub) := schema.properties[n - 1];
      PropertyFaults(fields, schema, n - 1, at) +
        if HasKey(fields, name) then Faults(Get(fields, name), sub, at + [Field(name)]) else []
  }

  /** The faults below the first `n` items. */
  ghost function ItemFaults(items: seq<Json>, schema: Schema, n: nat, at: seq<Step>): seq<Fault>
    requires schema.ArrayOf? && schema.items.Some? && n <= |items|
    decreases schema, 0, n
  {
    if n == 0 then [] else
      ItemFaults(items, schema, n - 1, at) + Faults(items[n - 1], schema.items.value, at + [Index(n - 1)])
  }

  /** `schema_errors`, as a function. */
  ghost function Faults(value: Json, schema: Schema, at: seq<Step>): seq<Fault>
    decreases schema, 1, 0
  {
    match schema
    case ObjectOf(properties, required, closed) =>
      if !value.Obj? then [Fault(at, NotObject)] else
        MissingFaults(value.fields, required, at)
          + (if closed then UnexpectedFaults(value.fields, properties, at) else [])
          + PropertyFaults(value.fields, schema, |properties|, at)
    case ArrayOf(items, minItems) =>
      if !value.Arr? then [Fault(at, NotArray)] else
        (if minItems.Some? && |value.items| < minItems.value then [Fault(at, TooFew(minItems.value))] else [])
          + if items.Some? then ItemFaults(value.items, schema, |value.items|, at) else []
    case StringOf(choices) =>
      if !value.Str? then [Fault(at, NotString)]
      else if choices.Some? && value.text !in choices.value then [Fault(at, NotChoice(value.text))]
      else []
    case IntegerType => if value.Int? then [] else [Fault(at, NotInteger)]
    case NumberType => if value.Int? || value.Float? then [] else [Fault(at, NotNumber)]
    case BooleanType => if value.Bool? then [] else [Fault(at, NotBoolean)]
    case Anything => []
  }

  method SchemaErrors(value: Json, schema: Schema, at: seq<Step>) returns (errors: seq<Fault>)
    ensures errors == Faults(value, schema, at)
    decreases schema
  {
    match schema {
      case ObjectOf(properties, required, closed) =>
        if !value.Obj? {
          return [Fault(at, NotObject)];
        }
        errors := MissingErrors(value.fields, required, at);
        if closed {
          var unexpected := UnexpectedErrors(value.fields, properties, at);
          errors := errors + unexpected;
        }
        ghost var before := errors;
        for n := 0 to |properties|
          invariant errors == before + PropertyFaults(value.fields, schema, n, at)
        {
          var (name, sub) := properties[n];
          if HasKey(value.fields, name) {
            var below := SchemaErrors(Get(value.fields, name), sub, at + [Field(name)]);
            errors := errors + below;
          }
        }
      case ArrayOf(items, minItems) =>
        if !value.Arr? {
          return [Fault(at, NotArray)];
        }
        errors := [];
        if minItems.Some? && |value.items| < minItems.value {
          errors := [Fault(at, TooFew(minItems.value))];
        }
        if items.Some? {
          ghost var before := errors;
          for n := 0 to |value.items|
            invariant errors == before + ItemFaults(value.items, schema, n, at)
          {
            var below := SchemaErrors(value.items[n], items.value, at + [Index(n)]);
            errors := errors + below;
          }
        }
      case StringOf(choices) =>
        if !value.Str? {
          return [Fault(at, NotString)];
        }
        if choices.Some? && value.text !in choices.value {
          return [Fault(at, NotChoice(value.text))];
        }
        errors := [];
      case IntegerType => errors := if value.Int? then [] else [Fault(at, NotInteger)];
      case NumberType => errors := if value.Int? || value.Float? then [] else [Fault(at, NotNumber)];
      case BooleanType => errors := if value.Bool? then [] else [Fault(at, NotBoolean)];
      case Anything => errors := [];
    }
  }

  method MissingErrors(fields: seq<(string, Json)>, required: seq<string>, at: seq<Step>) returns (errors: seq<Fault>)
    ensures errors == MissingFaults(fields, required, at)
  {
    errors := [];
    for k := 0 to |required|
      invariant errors == MissingFaults(fields, required[..k], at)
    {
      assert required[..k + 1][..k] == required[..k];
      if !HasKey(fields, required[k]) {
        errors := errors + [Fault(at, Missing(required[k]))];
      }
    }
    assert required[..|required|] == required;
  }

  method UnexpectedErrors(fields: seq<(string, Json)>, properties: seq<(string, Schema)>, at: seq<Step>)
    returns (errors: seq<Fault>)
    ensures errors == UnexpectedFaults(fields, properties, at)
  {
    errors := [];
    for k := 0 to |fields|
      invariant errors == UnexpectedFaults(fields[..k], properties, at)
    {
      assert fields[..k + 1][..k] == fields[..k];
      if !Declared(properties, fields[k].0) {
        errors := errors + [Fault(at, Unexpected(fields[k].0))];
      }
    }
    assert fields[..|fields|] == fields;
  }

  // ---- what conforming means ----------------------------------------------

  /** The value is of the shape the schema describes. */
  ghost predicate Conforms(value: Json, schema: Schema)
    decreases schema
  {
    match schema
    case ObjectOf(properties, required, closed) =>
      && value.Obj?
      && (forall name :: name in required ==> HasKey(value.fields, name))
      && (closed ==> forall name :: HasKey(value.fields, name) ==> Declared(properties, name))
      && (forall k :: 0 <= k < |properties| && HasKey(value.fields, properties[k].0) ==>
            Conforms(Get(value.fields, properties[k].0), properties[k].1))
    case ArrayOf(items, minItems) =>
      && value.Arr?
      && (minItems.Some? ==> |value.items| >= minItems.value)
      && (items.Some? ==> forall k :: 0 <= k < |value.items| ==> Conforms(value.items[k], items.value))
    case StringOf(choices) => value.Str? && (choices.Some? ==> value.text in choices.value)
    case IntegerType => value.Int?
    case NumberType => value.Int? || value.Float?
    case BooleanType => value.Bool?
    case Anything => true
  }

  /** Following `steps` from a value and its schema leads to `v` and the schema `s` that governs it. */
  ghost predicate Reaches(value: Json, schema: Schema, steps: seq<Step>, v: Json, s: Schema)
    decreases |steps|
  {
    if steps == [] then v == value && s == schema else
      match steps[0]
      case Field(name) =>
        && value.Obj? && schema.ObjectOf? && HasKey(value.fields, name)
        && exists k :: 0 <= k < |schema.properties| && schema.properties[k].0 == name &&
             Reaches(Get(value.fields, name), schema.properties[k].1, steps[1..], v, s)
      case Index(k) =>
        && value.Arr? && schema.ArrayOf? && schema.items.Some? && k < |value.items|
        && Reaches(value.items[k], schema.items.value, steps[1..], v, s)
  }

  /** What is wrong with a value itself, leaving aside what it contains. */
  ghost predicate IsFault(value: Json, schema: Schema, kind: Kind) {
    match kind
    case NotObject => schema.ObjectOf? && !value.Obj?
    case Missing(name) => schema.ObjectOf? && value.Obj? && name in schema.required && !HasKey(value.fields, name)
    case Unexpected(name) =>
      schema.ObjectOf? && schema.closed && value.Obj? && HasKey(value.fields, name) && !Declared(schema.properties, name)
    case NotArray => schema.ArrayOf? && !value.Arr?
    case TooFew(minimum) => schema.ArrayOf? && value.Arr? && schema.minItems == Some(minimum) && |value.items| < minimum
    case NotString => schema.StringOf? && !value.Str?
    case NotChoice(text) =>
      schema.StringOf? && value == Str(text) && schema.choices.Some? && text !in schema.choices.value
    case NotInteger => schema.IntegerType? && !value.Int?
    case NotNumber => schema.NumberType? && !value.Int? && !value.Float?
    case NotBoolean => schema.BooleanType? && !value.Bool?
  }

  lemma {:induction false} MissingFound(fields: seq<(string, Json)>, required: seq<string>, at: seq<Step>, fault: Fault)
    ensures fault in MissingFaults(fields, required, at) <==>
      fault.at == at && fault.kind.Missing? && fault.kind.name in required && !HasKey(fields, fault.kind.name)
  {
    if required != [] {
      var init := required[..|required| - 1];
      MissingFound(fields, init, at, fault);
      assert required == init + [required[|required| - 1]];
    }
  }

  lemma {:induction false} UnexpectedFound(fields: seq<(string, Json)>, properties: seq<(string, Schema)>, at: seq<Step>, fault: Fault)
    ensures fault in UnexpectedFaults(fields, properties, at) <==>
      fault.at == at && fault.kind.Unexpected? && HasKey(fields, fault.kind.name) && !Declared(properties, fault.kind.name)
  {
    if fields != [] {
      var init := fields[..|fields| - 1];
      UnexpectedFound(init, properties, at, fault);
      KeysOfPrefix(fields, if fault.kind.Unexpected? then fault.kind.name else "");
      hide HasKey, Declared;
    }
  }

  lemma KeysOfPrefix(fields: seq<(string, Json)>, name: string)
    requires fields != []
    ensures HasKey(fields, name) <==> HasKey(fields[..|fields| - 1], name) || fields[|fields| - 1].0 == name
  {
    var init := fields[..|fields| - 1];
    assert forall k :: 0 <= k < |init| ==> init[k] == fields[k];
  }

  /** The fault lies at `at` or below it, and `v`, `s` are what it is about. */
  ghost predicate Locates(value: Json, schema: Schema, at: seq<Step>, fault: Fault, steps: seq<Step>, v: Json, s: Schema) {
    fault.at == at + steps && Reaches(value, schema, steps, v, s) && IsFault(v, s, fault.kind)
  }

  ghost predicate IsReal(value: Json, schema: Schema, at: seq<Step>, fault: Fault) {
    exists steps, v, s :: Locates(value, schema, at, fault, steps, v, s)
  }

  /** A child with one more step in front of it. */
  ghost predicate BelowField(value: Json, schema: Schema, at: seq<Step>, fault: Fault, k: nat) {
    && value.Obj? && schema.ObjectOf? && k < |schema.properties| && HasKey(value.fields, schema.properties[k].0)
    && IsReal(Get(value.fields, schema.properties[k].0), schema.properties[k].1, at + [Field(schema.properties[k].0)], fault)
  }

  ghost predicate BelowIndex(value: Json, schema: Schema, at: seq<Step>, fault: Fault, k: nat) {
    && value.Arr? && schema.ArrayOf? && schema.items.Some? && k < |value.items|
    && IsReal(value.items[k], schema.items.value, at + [Index(k)], fault)
  }

  /** A fault is about the value itself, or about one of its children. */
  lemma FaultsSplit(value: Json, schema: Schema, at: seq<Step>, fault: Fault)
    ensures IsReal(value, schema, at, fault) <==>
      || (fault.at == at && IsFault(value, schema, fault.kind))
      || (exists k: nat :: BelowField(value, schema, at, fault, k))
      || (exists k: nat :: BelowIndex(value, schema, at, fault, k))
  {
    hide IsFault;
    if IsReal(value, schema, at, fault) {
      RealSplits(value, schema, at, fault);
    }
    if fault.at == at && IsFault(value, schema, fault.kind) {
      assert at + [] == at;
      assert Locates(value, schema, at, fault, [], value, schema);
    }
    if k: nat :| BelowField(value, schema, at, fault, k) {
      FieldLifts(value, schema, at, fault, k);
    }
    if k: nat :| BelowIndex(value, schema, at, fault, k) {
      IndexLifts(value, schema, at, fault, k);
    }
  }

  lemma FieldLifts(value: Json, schema: Schema, at: seq<Step>, fault: Fault, k: nat)
    requires BelowField(value, schema, at, fault, k)
    ensures IsReal(value, schema, at, fault)
  {
    var name := schema.properties[k].0;
    var steps, v, s :|
      Locates(Get(value.fields, name), schema.properties[k].1, at + [Field(name)], fault, steps, v, s);
    var longer := [Field(name)] + steps;
    assert longer[1..] == steps;
    ConcatAssociates(at, [Field(name)], steps);
    hide IsFault;
    assert Locates(value, schema, at, fault, longer, v, s);
  }

  lemma IndexLifts(value: Json, schema: Schema, at: seq<Step>, fault: Fault, k: nat)
    requires BelowIndex(value, schema, at, fault, k)
    ensures IsReal(value, schema, at, fault)
  {
    var steps, v, s :| Locates(value.items[k], schema.items.value, at + [Index(k)], fault, steps, v, s);
    var longer := [Index(k)] + steps;
    assert longer[1..] == steps;
    ConcatAssociates(at, [Index(k)], steps);
    hide IsFault;
    assert Locates(value, schema, at, fault, longer, v, s);
  }

  lemma RealSplits(value: Json, schema: Schema, at: seq<Step>, fault: Fault)
    requires IsReal(value, schema, at, fault)
    ensures
      || (fault.at == at && IsFault(value, schema, fault.kind))
      || (exists k: nat :: BelowField(value, schema, at, fault, k))
      || (exists k: nat :: BelowIndex(value, schema, at, fault, k))
  {
    hide IsFault;
    var steps, v, s :| Locates(value, schema, at, fault, steps, v, s);
    if steps == [] {
      assert at + [] == at;
    } else {
      assert steps == [steps[0]] + steps[1..];
      ConcatAssociates(at, [steps[0]], steps[1..]);
      match steps[0] {
        case Field(name) =>
          var k :| 0 <= k < |schema.properties| && schema.properties[k].0 == name &&
            Reaches(Get(value.fields, name), schema.properties[k].1, steps[1..], v, s);
          assert Locates(Get(value.fields, name), schema.properties[k].1, at + [Field(name)], fault, steps[1..], v, s);
          assert BelowField(value, schema, at, fault, k);
        case Index(k) =>
          assert Locates(value.items[k], schema.items.value, at + [Index(k)], fault, steps[1..], v, s);
          assert BelowIndex(value, schema, at, fault, k);
      }
    }
  }

  // ---- the main results ---------------------------------------------------

  /**
    The checker reports exactly what is wrong: a fault is in the list if and only
    if following its path leads to a value that breaks the schema there.
  */
  lemma {:induction false} FaultsAreReal(value: Json, schema: Schema, at: seq<Step>, fault: Fault)
    ensures fault in Faults(value, schema, at) <==> IsReal(value, schema, at, fault)
    decreases schema, 1, 0
  {
    FaultsSplit(value, schema, at, fault);
    hide IsReal;
    match schema {
      case ObjectOf(properties, required, closed) =>
        if value.Obj? {
          ObjectFaultsAreReal(value, schema, at, fault);
        }
      case ArrayOf(items, minItems) =>
        if value.Arr? && items.Some? {
          ItemFaultsAreReal(value, schema, |value.items|, at, fault);
        }
      case _ =>
    }
  }

  lemma {:induction false} ObjectFaultsAreReal(value: Json, schema: Schema, at: seq<Step>, fault: Fault)
    requires value.Obj? && schema.ObjectOf?
    ensures fault in Faults(value, schema, at) <==>
      (fault.at == at && IsFault(value, schema, fault.kind)) || exists k: nat :: BelowField(value, schema, at, fault, k)
    decreases schema, 0, |schema.properties| + 1
  {
    hide IsReal;
    MissingFound(value.fields, schema.required, at, fault);
    UnexpectedFound(value.fields, schema.properties, at, fault);
    PropertyFaultsAreReal(value, schema, |schema.properties|, at, fault);
    hide HasKey, Declared, BelowField;
    assert (exists k: nat :: BelowField(value, schema, at, fault, k)) <==>
      exists k: nat :: k < |schema.properties| && BelowField(value, schema, at, fault, k);
  }

  lemma {:induction false} PropertyFaultsAreReal(value: Json, schema: Schema, n: nat, at: seq<Step>, fault: Fault)
    requires value.Obj? && schema.ObjectOf? && n <= |schema.properties|
    ensures fault in PropertyFaults(value.fields, schema, n, at) <==>
      exists k: nat :: k < n && BelowField(value, schema, at, fault, k)
    decreases schema, 0, n
  {
    hide IsReal;
    if n != 0 {
      PropertyFaultsAreReal(value, schema, n - 1, at, fault);
      var (name, sub) := schema.properties[n - 1];
      if HasKey(value.fields, name) {
        FaultsAreReal(Get(value.fields, name), sub, at + [Field(name)], fault);
      }
      hide Faults, HasKey;
      OneMore(n, (k: nat) => BelowField(value, schema, at, fault, k));
    }
  }

  lemma {:induction false} ItemFaultsAreReal(value: Json, schema: Schema, n: nat, at: seq<Step>, fault: Fault)
    requires value.Arr? && schema.ArrayOf? && schema.items.Some? && n <= |value.items|
    ensures fault in ItemFaults(value.items, schema, n, at) <==>
      exists k: nat :: k < n && BelowIndex(value, schema, at, fault, k)
    decreases schema, 0, n
  {
    hide IsReal;
    if n != 0 {
      ItemFaultsAreReal(value, schema, n - 1, at, fault);
      FaultsAreReal(value.items[n - 1], schema.items.value, at + [Index(n - 1)], fault);
      hide Faults;
      OneMore(n, (k: nat) => BelowIndex(value, schema, at, fault, k));
    }
  }

  lemma OneMore(n: nat, p: nat -> bool)
    requires n > 0
    ensures (exists k: nat :: k < n && p(k)) <==> p(n - 1) || exists k: nat :: k < n - 1 && p(k)
  {
    if k: nat :| k < n && p(k) {
      assert k == n - 1 || k < n - 1;
    }
  }

  lemma {:induction false} NoneMissing(fields: seq<(string, Json)>, required: seq<string>, at: seq<Step>)
    ensures MissingFaults(fields, required, at) == [] <==> forall name :: name in required ==> HasKey(fields, name)
  {
    if required != [] {
      var init := required[..|required| - 1];
      NoneMissing(fields, init, at);
      assert required == init + [required[|required| - 1]];
    }
  }

  lemma {:induction false} NoneUnexpected(fields: seq<(string, Json)>, properties: seq<(string, Schema)>, at: seq<Step>)
    ensures UnexpectedFaults(fields, properties, at) == [] <==>
      forall name :: HasKey(fields, name) ==> Declared(properties, name)
  {
    if fields != [] {
      NoneUnexpected(fields[..|fields| - 1], properties, at);
      forall name {
        KeysOfPrefix(fields, name);
      }
      hide HasKey, Declared;
    }
  }

  ghost predicate PropertiesConform(fields: seq<(string, Json)>, schema: Schema, n: nat)
    requires schema.ObjectOf? && n <= |schema.properties|
  {
    forall k :: 0 <= k < n && HasKey(fields, schema.properties[k].0) ==>
      Conforms(Get(fields, schema.properties[k].0), schema.properties[k].1)
  }

  /** No error is reported exactly when the value conforms. */
  lemma {:induction false} NoFaultsIffConforms(value: Json, schema: Schema, at: seq<Step>)
    ensures Faults(value, schema, at) == [] <==> Conforms(value, schema)
    decreases schema, 1, 0
  {
    match schema {
      case ObjectOf(properties, required, closed) =>
        if value.Obj? {
          NoneMissing(value.fields, required, at);
          NoneUnexpected(value.fields, properties, at);
          PropertiesIffConform(value.fields, schema, |properties|, at);
          hide HasKey, Declared, MissingFaults, UnexpectedFaults, PropertyFaults;
        }
      case ArrayOf(items, minItems) =>
        if value.Arr? && items.Some? {
          ItemsIffConform(value.items, schema, |value.items|, at);
        }
      case _ =>
    }
  }

  lemma {:induction false} PropertiesIffConform(fields: seq<(string, Json)>, schema: Schema, n: nat, at: seq<Step>)
    requires schema.ObjectOf? && n <= |schema.properties|
    ensures PropertyFaults(fields, schema, n, at) == [] <==> PropertiesConform(fields, schema, n)
    decreases schema, 0, n
  {
    if n != 0 {
      PropertiesIffConform(fields, schema, n - 1, at);
      var last := schema.properties[n - 1];
      if HasKey(fields, last.0) {
        NoFaultsIffConforms(Get(fields, last.0), last.1, at + [Field(last.0)]);
      }
      hide HasKey, Conforms, Faults;
    }
  }

  lemma {:induction false} ItemsIffConform(items: seq<Json>, schema: Schema, n: nat, at: seq<Step>)
    requires schema.ArrayOf? && schema.items.Some? && n <= |items|
    ensures ItemFaults(items, schema, n, at) == [] <==>
      forall k :: 0 <= k < n ==> Conforms(items[k], schema.items.value)
    decreases schema, 0, n
  {
    if n != 0 {
      ItemsIffConform(items, schema, n - 1, at);
      NoFaultsIffConforms(items[n - 1], schema.items.value, at + [Index(n - 1)]);
      hide Conforms, Faults;
    }
  }
}
