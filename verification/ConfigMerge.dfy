/**
 The effective definition of an agent: the configuration stored in the database
 merged over the YAML definition, validated, with the YAML as the fallback.
 */
module ConfigMerge {
  import opened Wrappers

  datatype Json =
    | Null
    | Bool(b: bool)
    | Num(n: int)
    | Str(s: string)
    | Arr(items: seq<Json>)
    | Obj(fields: map<string, Json>)

  /** The truth value of a JSON value in a condition. */
  predicate Truthy(j: Json) {
    match j
    case Null => false
    case Bool(b) => b
    case Num(n) => n != 0
    case Str(s) => s != ""
    case Arr(items) => items != []
    case Obj(fields) => fields != map[]
  }

  // ---- deep merge ----

  /** The value of one key of the merged object. */
  function MergedField(base: Json, override: Json, key: string): Json
    requires base.Obj? && override.Obj? && key in base.fields.Keys + override.fields.Keys
    decreases override, 0
  {
    if key !in override.fields then base.fields[key]
    else if override.fields[key].Obj? && key in base.fields && base.fields[key].Obj?
    then Merge(base.fields[key], override.fields[key])
    else override.fields[key]
  }

  function Merge(base: Json, override: Json): (merged: Json)
    requires base.Obj? && override.Obj?
    ensures merged.Obj? && merged.fields.Keys == base.fields.Keys + override.fields.Keys
    decreases override, 1
  {
    Obj(map key | key in base.fields.Keys + override.fields.Keys :: MergedField(base, override, key))
  }

  /** `_deep_merge`. */
  method DeepMerge(base: Json, override: Json) returns (merged: Json)
    requires base.Obj? && override.Obj?
    ensures merged == Merge(base, override)
    decreases override
  {
    var fields := base.fields;
    var todo := override.fields.Keys;
    while todo != {}
      invariant todo <= override.fields.Keys
      invariant fields.Keys == base.fields.Keys + (override.fields.Keys - todo)
      invariant forall key :: key in fields ==>
                                fields[key] ==
                                if key in todo then base.fields[key] else MergedField(base, override, key)
      decreases todo
    {
      var key :| key in todo;
      var value := override.fields[key];
      if value.Obj? && key in fields && fields[key].Obj? {
        var inner := DeepMerge(fields[key], value);
        fields := fields[key := inner];
      } else {
        fields := fields[key := value];
      }
      todo := todo - {key};
    }
    merged := Obj(fields);
    assert merged.fields == Merge(base, override).fields;
  }

  function Lookup(j: Json, path: seq<string>): Option<Json> {
    if path == [] then Some(j)
    else if j.Obj? && path[0] in j.fields then Lookup(j.fields[path[0]], path[1..])
    else None
  }

  predicate FoundObject(j: Json, path: seq<string>) {
    Lookup(j, path).Some? && Lookup(j, path).value.Obj?
  }

  /** A proper part of the path leads to something that is not an object. */
  ghost predicate Cuts(j: Json, path: seq<string>) {
    exists n :: 0 < n < |path| && Lookup(j, path[..n]).Some? && !Lookup(j, path[..n]).value.Obj?
  }

  lemma {:induction false} CutsBelow(j: Json, path: seq<string>)
    requires |path| > 0 && j.Obj? && path[0] in j.fields
    ensures j.fields[path[0]].Obj? ==> (Cuts(j, path) <==> Cuts(j.fields[path[0]], path[1..]))
    ensures !j.fields[path[0]].Obj? && |path| > 1 ==> Cuts(j, path)
  {
    var inner, rest := j.fields[path[0]], path[1..];
    if Cuts(inner, rest) {
      var n :| 0 < n < |rest| && Lookup(inner, rest[..n]).Some? && !Lookup(inner, rest[..n]).value.Obj?;
      assert path[..n + 1][1..] == rest[..n];
      assert Lookup(j, path[..n + 1]) == Lookup(inner, rest[..n]);
    }
    if inner.Obj? && Cuts(j, path) {
      var n :| 0 < n < |path| && Lookup(j, path[..n]).Some? && !Lookup(j, path[..n]).value.Obj?;
      assert path[..n][1..] == rest[..n - 1];
      assert Lookup(j, path[..n]) == Lookup(inner, rest[..n - 1]);
    }
    if !inner.Obj? && |path| > 1 {
      assert path[..1][1..] == [];
      assert Lookup(j, path[..1]) == Some(inner);
    }
  }

  lemma CutsNeedsAKey(j: Json, path: seq<string>)
    requires |path| > 0 && j.Obj? && path[0] !in j.fields
    ensures !Cuts(j, path)
  {
    forall n | 0 < n < |path| ensures Lookup(j, path[..n]) == None {
      assert path[..n][0] == path[0];
    }
  }

  /**
   The merge, path by path: what the override holds wins, except that two objects merge; what it does not
   mention survives from the base, unless the override replaced an object on the way by something else.
   */
  lemma {:induction false} MergeByPath(base: Json, override: Json, path: seq<string>)
    requires base.Obj? && override.Obj? && path != []
    ensures Lookup(Merge(base, override), path) ==
            if FoundObject(override, path) && FoundObject(base, path) then
              Some(Merge(Lookup(base, path).value, Lookup(override, path).value))
            else if Lookup(override, path).Some? then Lookup(override, path)
            else if Cuts(override, path) then None
            else Lookup(base, path)
    decreases |path|
  {
    var key, rest := path[0], path[1..];
    var merged := Merge(base, override);
    if key in merged.fields {
      assert merged.fields[key] == MergedField(base, override, key);
      assert Lookup(merged, path) == Lookup(MergedField(base, override, key), rest);
    }
    if key !in override.fields {
      CutsNeedsAKey(override, path);
    } else {
      CutsBelow(override, path);
      var o := override.fields[key];
      if o.Obj? && key in base.fields && base.fields[key].Obj? {
        assert Lookup(base, path) == Lookup(base.fields[key], rest) && Lookup(override, path) == Lookup(o, rest);
        if rest == [] {
          assert !Cuts(override, path);
        } else {
          MergeByPath(base.fields[key], o, rest);
        }
      } else if o.Obj? && rest != [] {
        assert Lookup(base, path) == None;
      }
    }
  }

  lemma {:induction false} MergeWithItself(b: Json)
    requires b.Obj?
    ensures Merge(b, b) == b
  {
    forall key | key in b.fields ensures MergedField(b, b, key) == b.fields[key] {
      if b.fields[key].Obj? {
        MergeWithItself(b.fields[key]);
      }
    }
    assert Merge(b, b).fields == b.fields;
  }

  /** Applying the same override twice changes nothing. */
  lemma {:induction false} MergeIsIdempotent(b: Json, o: Json)
    requires b.Obj? && o.Obj?
    ensures Merge(Merge(b, o), o) == Merge(b, o)
    decreases o
  {
    var once := Merge(b, o);
    forall key | key in once.fields ensures MergedField(once, o, key) == once.fields[key] {
      assert once.fields[key] == MergedField(b, o, key);
      if key in o.fields && o.fields[key].Obj? {
        if key in b.fields && b.fields[key].Obj? {
          MergeIsIdempotent(b.fields[key], o.fields[key]);
        } else {
          MergeWithItself(o.fields[key]);
        }
      }
    }
    assert Merge(once, o).fields == once.fields;
  }

  // ---- validation ----

  const REQUIRED_FIELDS: set<string> := {
    "id", "name", "version", "domain", "objective", "inputs", "outputs", "tools", "model", "quality_gates",
    "retry", "escalation"
  }

  datatype Verdict = Valid | Invalid | TypeError

  predicate Substring(s: string, part: string) {
    part <= s || (s != [] && Substring(s[1..], part))
  }

  /** `key in container`: a key of an object, an item of a list, a part of a string; a TypeError otherwise. */
  function Contains(container: Json, key: string): Option<bool> {
    match container
    case Obj(fields) => Some(key in fields)
    case Arr(items) => Some(Str(key) in items)
    case Str(s) => Some(Substring(s, key))
    case _ => None
  }

  /** Tests, in order, that the container holds all the keys. */
  function Check(container: Json, keys: seq<string>): Verdict {
    if keys == [] then Valid
    else
      match Contains(container, keys[0])
      case None => TypeError
      case Some(false) => Invalid
      case Some(true) => Check(container, keys[1..])
  }

  const INPUT_KEYS := ["required"]
  const TOOL_KEYS := ["allowed", "denied"]
  const OUTPUT_KEYS := ["schema"]

  function Then(first: Verdict, second: Verdict): Verdict {
    if first == Valid then second else first
  }

  /** `validate_definition`; TypeError is an exception that its callers do not catch. */
  function Validate(d: Json): Verdict
    requires d.Obj?
  {
    if !(REQUIRED_FIELDS <= d.fields.Keys) then Invalid
    else
      Then(Check(d.fields["inputs"], INPUT_KEYS),
           Then(Check(d.fields["tools"], TOOL_KEYS),
                Check(d.fields["outputs"], OUTPUT_KEYS)))
  }

  // ---- the same, key by key ----

  /** The container holds the key: as a key, as an item, or as a part of a text. */
  predicate Holds(container: Json, key: string) {
    || (container.Obj? && key in container.fields)
    || (container.Arr? && Str(key) in container.items)
    || (container.Str? && exists i :: 0 <= i <= |container.s| && key <= container.s[i..])
  }

  /** A null, a boolean or a number, on which `in` raises. */
  predicate CannotSearch(container: Json) {
    container.Null? || container.Bool? || container.Num?
  }

  lemma {:induction false} SubstringIsAPart(s: string, part: string)
    ensures Substring(s, part) <==> exists i :: 0 <= i <= |s| && part <= s[i..]
  {
    assert s[0..] == s;
    if s == [] {
      assert forall i :: 0 <= i <= |s| ==> s[i..] == s;
    } else {
      SubstringIsAPart(s[1..], part);
      if i :| 0 <= i <= |s[1..]| && part <= s[1..][i..] {
        assert s[i + 1..] == s[1..][i..];
      }
      if i :| 0 <= i <= |s| && part <= s[i..] {
        assert i > 0 ==> s[1..][i - 1..] == s[i..];
      }
    }
  }

  lemma ContainsIsHolds(container: Json, key: string)
    ensures Contains(container, key) == if CannotSearch(container) then None else Some(Holds(container, key))
  {
    if container.Str? {
      SubstringIsAPart(container.s, key);
    }
  }

  lemma {:induction false} CheckByKeys(container: Json, keys: seq<string>)
    ensures Check(container, keys) == Valid <==>
            keys == [] || (!CannotSearch(container) && forall key :: key in keys ==> Holds(container, key))
    ensures Check(container, keys) == TypeError <==> keys != [] && CannotSearch(container)
  {
    if keys != [] {
      ContainsIsHolds(container, keys[0]);
      CheckByKeys(container, keys[1..]);
      assert keys == [keys[0]] + keys[1..];
    }
  }

  /** What a definition needs, and when its validation raises instead of refusing. */
  lemma ValidExactlyWhen(d: Json)
    requires d.Obj?
    ensures Validate(d) == Valid <==>
            && {"id", "name", "version", "domain", "objective", "inputs", "outputs", "tools", "model",
                "quality_gates", "retry", "escalation"} <= d.fields.Keys
            && Holds(d.fields["inputs"], "required")
            && Holds(d.fields["tools"], "allowed") && Holds(d.fields["tools"], "denied")
            && Holds(d.fields["outputs"], "schema")
    ensures Validate(d) == TypeError <==>
            && REQUIRED_FIELDS <= d.fields.Keys
            && (|| CannotSearch(d.fields["inputs"])
                || (&& Holds(d.fields["inputs"], "required")
                    && (|| CannotSearch(d.fields["tools"])
                        || (&& Holds(d.fields["tools"], "allowed") && Holds(d.fields["tools"], "denied")
                            && CannotSearch(d.fields["outputs"])))))
  {
    hide Check, Holds;
    if REQUIRED_FIELDS <= d.fields.Keys {
      var inputs, tools, outputs := d.fields["inputs"], d.fields["tools"], d.fields["outputs"];
      CheckByKeys(inputs, INPUT_KEYS);
      CheckByKeys(tools, TOOL_KEYS);
      CheckByKeys(outputs, OUTPUT_KEYS);
      assert TOOL_KEYS[0] in TOOL_KEYS && TOOL_KEYS[1] in TOOL_KEYS;
      assert INPUT_KEYS[0] in INPUT_KEYS && OUTPUT_KEYS[0] in OUTPUT_KEYS;
      HoldsNeedsSearch(inputs, "required");
      HoldsNeedsSearch(tools, "allowed");
      HoldsNeedsSearch(outputs, "schema");
    }
  }

  lemma HoldsNeedsSearch(container: Json, key: string)
    ensures Holds(container, key) ==> !CannotSearch(container)
  {
  }

  // ---- merge_definition ----

  /** The columns of the agent's row. */
  datatype Override = Override(enabled: bool, configuration: map<string, Json>)

  datatype Result = Definition(definition: Option<Json>) | Raised

  function WithEnabled(d: Json, enabled: bool): Json
    requires d.Obj?
  {
    Obj(d.fields["enabled" := Bool(enabled)])
  }

  function MergeDefinition(base: Option<Json>, override: Option<Override>): Result
    requires base.Some? ==> base.value.Obj?
  {
    match override
    case None => Definition(base)
    case Some(o) =>
      var config := Obj(o.configuration);
      var merged := WithEnabled(if base.Some? then Merge(base.value, config) else config, o.enabled);
      match Validate(merged)
      case Valid => Definition(Some(merged))
      case TypeError => Raised
      case Invalid =>
        match base
        case None => Definition(None)
        case Some(b) => Definition(Some(WithEnabled(b, o.enabled)))
  }

  /** A definition as the YAML files have it: valid, with objects for inputs, tools and outputs. */
  predicate Proper(d: Json) {
    d.Obj? && Validate(d) == Valid && d.fields["inputs"].Obj? && d.fields["tools"].Obj? && d.fields["outputs"].Obj?
  }

  /** What becomes of one checked field under an override: only a replacement by a non-object can spoil it. */
  function CheckOverride(o: Override, field: string, keys: seq<string>): Verdict {
    if field in o.configuration && !o.configuration[field].Obj? then Check(o.configuration[field], keys) else Valid
  }

  lemma {:induction false} CheckMerged(b: Json, o: Json, keys: seq<string>)
    requires b.Obj? && o.Obj? && Check(b, keys) == Valid
    ensures Check(Merge(b, o), keys) == Valid
  {
    if keys != [] {
      CheckMerged(b, o, keys[1..]);
    }
  }

  /** Over a proper YAML definition the verdict on the merged one can be told from the override's three fields alone. */
  lemma VerdictOnMerged(base: Json, o: Override)
    requires Proper(base)
    ensures Validate(WithEnabled(Merge(base, Obj(o.configuration)), o.enabled)) ==
            Then(CheckOverride(o, "inputs", INPUT_KEYS),
                 Then(CheckOverride(o, "tools", TOOL_KEYS),
                      CheckOverride(o, "outputs", OUTPUT_KEYS)))
  {
    FieldOnMerged(base, o, "inputs", INPUT_KEYS);
    FieldOnMerged(base, o, "tools", TOOL_KEYS);
    FieldOnMerged(base, o, "outputs", OUTPUT_KEYS);
  }

  lemma FieldOnMerged(base: Json, o: Override, field: string, keys: seq<string>)
    requires base.Obj? && field in base.fields && base.fields[field].Obj? && Check(base.fields[field], keys) == Valid
    requires field != "enabled"
    ensures Check(WithEnabled(Merge(base, Obj(o.configuration)), o.enabled).fields[field], keys)
            == CheckOverride(o, field, keys)
  {
    if field in o.configuration && o.configuration[field].Obj? {
      CheckMerged(base.fields[field], o.configuration[field], keys);
    }
  }

  /** Hence so can the outcome: the merge, the YAML with the column's switch, or an exception. */
  lemma OutcomeByFields(base: Json, o: Override)
    requires Proper(base)
    ensures var spoiled := Then(CheckOverride(o, "inputs", INPUT_KEYS),
                                Then(CheckOverride(o, "tools", TOOL_KEYS), CheckOverride(o, "outputs", OUTPUT_KEYS)));
            MergeDefinition(Some(base), Some(o)) ==
            match spoiled
            case Valid => Definition(Some(WithEnabled(Merge(base, Obj(o.configuration)), o.enabled)))
            case Invalid => Definition(Some(WithEnabled(base, o.enabled)))
            case TypeError => Raised
  {
    VerdictOnMerged(base, o);
  }

  /**
   An override that keeps inputs, tools and outputs as objects never falls back: the result is the merge,
   with `enabled` from the column.
   */
  lemma ObjectOverridesApply(base: Json, o: Override)
    requires Proper(base)
    requires forall f :: f in ["inputs", "tools", "outputs"] && f in o.configuration ==> o.configuration[f].Obj?
    ensures MergeDefinition(Some(base), Some(o))
            == Definition(Some(WithEnabled(Merge(base, Obj(o.configuration)), o.enabled)))
  {
    VerdictOnMerged(base, o);
    assert ["inputs", "tools", "outputs"][0] == "inputs";
    assert ["inputs", "tools", "outputs"][1] == "tools";
    assert ["inputs", "tools", "outputs"][2] == "outputs";
  }

  /** The field is replaced by a null, a boolean or a number. */
  predicate Unsearchable(o: Override, field: string) {
    field in o.configuration && CannotSearch(o.configuration[field])
  }

  // ---- what the API lets into the column ----

  /** `configuration.get(field) or {}`. */
  function OrEmpty(j: Json): Json {
    if Truthy(j) then j else Obj(map[])
  }

  /** `_validate_configuration` of the API; TypeError is an exception before anything is stored. */
  function Guard(configuration: map<string, Json>): Verdict {
    if !(REQUIRED_FIELDS <= configuration.Keys) then Invalid
    else
      Then(Check(OrEmpty(configuration["inputs"]), INPUT_KEYS),
           Then(Check(OrEmpty(configuration["tools"]), TOOL_KEYS),
                Check(OrEmpty(configuration["outputs"]), OUTPUT_KEYS)))
  }

  lemma {:induction false} OrEmptyChecks(j: Json, keys: seq<string>)
    requires |keys| > 0 && forall k :: k in keys ==> k != ""
    ensures Check(OrEmpty(j), keys) == Valid <==> Check(j, keys) == Valid
  {
    if !Truthy(j) {
      assert keys[0] in keys;
      assert j.Str? ==> !Substring(j.s, keys[0]);
    }
  }

  /** The guard and the validation at the time of use accept the same configurations, though they refuse differently. */
  lemma GuardIsTheValidation(configuration: map<string, Json>)
    ensures Guard(configuration) == Valid <==> Validate(Obj(configuration)) == Valid
  {
    if REQUIRED_FIELDS <= configuration.Keys {
      OrEmptyChecks(configuration["inputs"], INPUT_KEYS);
      OrEmptyChecks(configuration["tools"], TOOL_KEYS);
      OrEmptyChecks(configuration["outputs"], OUTPUT_KEYS);
    }
  }

  /**
   The guard raises, with nothing stored, for a number or for true, in the first field that is at fault; a null, zero
   or false is refused like an empty object.
   */
  lemma GuardRaisesExactlyWhen(configuration: map<string, Json>)
    ensures Guard(configuration) == TypeError <==>
            && REQUIRED_FIELDS <= configuration.Keys
            && var inputs, tools, outputs := configuration["inputs"], configuration["tools"], configuration["outputs"];
               || OddlyTyped(inputs)
               || (&& Holds(inputs, "required")
                   && (|| OddlyTyped(tools)
                       || (Holds(tools, "allowed") && Holds(tools, "denied") && OddlyTyped(outputs))))
  {
    hide Check, Holds;
    if REQUIRED_FIELDS <= configuration.Keys {
      var inputs, tools, outputs := configuration["inputs"], configuration["tools"], configuration["outputs"];
      GuardedField(inputs, INPUT_KEYS);
      GuardedField(tools, TOOL_KEYS);
      GuardedField(outputs, OUTPUT_KEYS);
      assert TOOL_KEYS[0] in TOOL_KEYS && TOOL_KEYS[1] in TOOL_KEYS;
      assert INPUT_KEYS[0] in INPUT_KEYS && OUTPUT_KEYS[0] in OUTPUT_KEYS;
      HoldsNeedsSearch(inputs, "required");
      HoldsNeedsSearch(tools, "allowed");
    }
  }

  predicate OddlyTyped(field: Json) {
    CannotSearch(field) && field !in {Null, Bool(false), Num(0)}
  }

  lemma GuardedField(field: Json, keys: seq<string>)
    requires |keys| > 0 && forall k :: k in keys ==> k != ""
    ensures Check(OrEmpty(field), keys) == TypeError <==> OddlyTyped(field)
    ensures Check(OrEmpty(field), keys) == Valid <==> !CannotSearch(field) && forall k :: k in keys ==> Holds(field, k)
  {
    hide Check, Holds;
    OrEmptyChecks(field, keys);
    CheckByKeys(field, keys);
    CheckByKeys(OrEmpty(field), keys);
  }

  lemma FieldStaysValid(base: Json, o: Override, field: string, keys: seq<string>)
    requires base.Obj? && field in o.configuration && field != "enabled" && Check(o.configuration[field], keys) == Valid
    ensures Check(WithEnabled(Merge(base, Obj(o.configuration)), o.enabled).fields[field], keys) == Valid
  {
    if o.configuration[field].Obj? && field in base.fields && base.fields[field].Obj? {
      OverrideStaysValid(base.fields[field], o.configuration[field], keys);
    }
  }

  lemma {:induction false} OverrideStaysValid(b: Json, o: Json, keys: seq<string>)
    requires b.Obj? && o.Obj? && Check(o, keys) == Valid
    ensures Check(Merge(b, o), keys) == Valid
  {
    if keys != [] {
      OverrideStaysValid(b, o, keys[1..]);
    }
  }

  /**
   A configuration that the API accepts is applied, over whatever YAML: the merge with the column's switch comes
   out, neither an exception nor the fallback.
   */
  lemma AcceptedConfigurationsApply(base: Option<Json>, o: Override)
    requires Guard(o.configuration) == Valid && (base.Some? ==> base.value.Obj?)
    ensures MergeDefinition(base, Some(o)) ==
            Definition(Some(WithEnabled(
              if base.Some? then Merge(base.value, Obj(o.configuration)) else Obj(o.configuration), o.enabled)))
  {
    GuardIsTheValidation(o.configuration);
    if base.Some? {
      FieldStaysValid(base.value, o, "inputs", INPUT_KEYS);
      FieldStaysValid(base.value, o, "tools", TOOL_KEYS);
      FieldStaysValid(base.value, o, "outputs", OUTPUT_KEYS);
    }
  }

  // ---- what a column written past the API does ----

  /**
   For such a column the promise that a bad configuration never breaks an execution is not quite kept: exactly the
   overrides whose first spoiled field is unsearchable make the merge raise instead of falling back.
   */
  lemma RaisesExactlyWhen(base: Json, o: Override)
    requires Proper(base)
    ensures MergeDefinition(Some(base), Some(o)) == Raised <==>
            || Unsearchable(o, "inputs")
            || (CheckOverride(o, "inputs", INPUT_KEYS) == Valid
                && (|| Unsearchable(o, "tools")
                    || (CheckOverride(o, "tools", TOOL_KEYS) == Valid && Unsearchable(o, "outputs"))))
  {
    VerdictOnMerged(base, o);
    UnsearchableRaises(o, "inputs", INPUT_KEYS);
    UnsearchableRaises(o, "tools", TOOL_KEYS);
    UnsearchableRaises(o, "outputs", OUTPUT_KEYS);
  }

  lemma {:induction false} SearchableChecks(container: Json, keys: seq<string>)
    requires container.Obj? || container.Arr? || container.Str?
    ensures Check(container, keys) != TypeError
  {
    if keys != [] {
      SearchableChecks(container, keys[1..]);
    }
  }

  lemma UnsearchableRaises(o: Override, field: string, keys: seq<string>)
    requires |keys| > 0
    ensures CheckOverride(o, field, keys) == TypeError <==> Unsearchable(o, field)
  {
    if field in o.configuration {
      var value := o.configuration[field];
      if value.Obj? || value.Arr? || value.Str? {
        SearchableChecks(value, keys);
      }
    }
  }

  /**
   An agent without a YAML file runs its column if that is a valid definition, is unknown if not, or the merge raises.
   */
  lemma ColumnAlone(o: Override)
    ensures var own := WithEnabled(Obj(o.configuration), o.enabled);
            && (MergeDefinition(None, Some(o)) == Definition(Some(own)) <==> Validate(own) == Valid)
            && (MergeDefinition(None, Some(o)) == Definition(None) <==> Validate(own) == Invalid)
            && (MergeDefinition(None, Some(o)) == Raised <==> Validate(own) == TypeError)
  {
    hide Validate;
  }

  /** For example, one that sets `inputs` to null, which the API would have refused. */
  lemma NullInputsRaise(base: Json)
    requires Proper(base)
    ensures MergeDefinition(Some(base), Some(Override(true, map["inputs" := Null]))) == Raised
    ensures Guard(map["inputs" := Null]) == Invalid
  {
    assert "id" in REQUIRED_FIELDS && "id" !in map["inputs" := Null];
    RaisesExactlyWhen(base, Override(true, map["inputs" := Null]));
  }

  /** Whatever the override holds, a definition that comes out is valid and carries the column's `enabled`. */
  lemma EnabledIsTheColumns(base: Option<Json>, o: Override)
    requires base.Some? ==> base.value.Obj? && Validate(base.value) == Valid
    ensures var r := MergeDefinition(base, Some(o));
            r.Definition? && r.definition.Some? ==>
              && r.definition.value.Obj?
              && Validate(r.definition.value) == Valid
              && "enabled" in r.definition.value.fields
              && r.definition.value.fields["enabled"] == Bool(o.enabled)
  {
  }
}
