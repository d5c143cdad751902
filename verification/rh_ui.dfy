/** The settings logic of the `rhui` helper in the web UI: `_modelField`,
    which overlays a field description on fixed defaults, and the rule by
    which `buildField` accepts, rejects or fails on a description, together
    with the value `updateField` applies. JavaScript values are modelled by
    `JsValue`; numbers are integers. */
module RhUi {
  import opened Wrappers

  datatype JsValue =
    | Undefined
    | Null
    | Bool(b: bool)
    | Num(n: int)
    | Str(s: string)
    | Arr(items: seq<JsValue>)
    | Obj(fields: map<string, JsValue>)

  /** `v == null` in JavaScript's loose comparison. */
  predicate IsNullish(v: JsValue) {
    v.Undefined? || v.Null?
  }

  /** JavaScript truthiness. */
  predicate Truthy(v: JsValue) {
    match v
    case Undefined => false
    case Null => false
    case Bool(b) => b
    case Num(n) => n != 0
    case Str(s) => |s| > 0
    case Arr(_) => true
    case Obj(_) => true
  }

  /** The keys of the settings object, each with its default. */
  const SettingKeys: set<string> := {
    "data", "desc", "html_attributes", "fieldClass", "field_type", "genericOption", "id",
    "label", "options", "placeholder", "value", "wrapperEl", "wrapperClass"}

  /** `{}` for `data` and `html_attributes`, `null` for every other key. */
  function Default(key: string): (v: JsValue)
    ensures v == Null || v == Obj(map[])
    ensures v == Obj(map[]) <==> key == "data" || key == "html_attributes"
  {
    if key == "data" || key == "html_attributes" then Obj(map[]) else Null
  }

  /** `field_options[key]`: `undefined` when the object has no such property. */
  function Prop(opts: map<string, JsValue>, key: string): JsValue {
    if key in opts then opts[key] else Undefined
  }

  /** `_modelField`: every settings key takes the option's value unless that
      is `null` or `undefined`; other option keys are dropped. */
  function ModelField(opts: map<string, JsValue>): (r: map<string, JsValue>)
    ensures r.Keys == SettingKeys
    ensures forall k :: k in r && IsNullish(r[k]) ==> r[k] == Null && Default(k) == Null
  {
    map k | k in SettingKeys :: if IsNullish(Prop(opts, k)) then Default(k) else Prop(opts, k)
  }

  /** A value that is present and not nullish is taken as given, falsy or not. */
  lemma ModelFieldTakesPresentValues(opts: map<string, JsValue>, k: string)
    requires k in SettingKeys && k in opts && !IsNullish(opts[k])
    ensures ModelField(opts)[k] == opts[k]
  {
  }

  /** `0`, `false` and `""` are taken, not replaced by the default. */
  lemma FalsyValuesAreKept()
    ensures ModelField(map["value" := Num(0)])["value"] == Num(0)
    ensures ModelField(map["value" := Bool(false)])["value"] == Bool(false)
    ensures ModelField(map["placeholder" := Str("")])["placeholder"] == Str("")
  {
  }

  /** A missing or nullish option leaves the default in place. */
  lemma ModelFieldKeepsDefaults(opts: map<string, JsValue>, k: string)
    requires k in SettingKeys && (k !in opts || IsNullish(opts[k]))
    ensures ModelField(opts)[k] == Default(k)
  {
  }

  /** Modelling a modelled field changes nothing. */
  lemma ModelFieldIsIdempotent(opts: map<string, JsValue>)
    ensures ModelField(ModelField(opts)) == ModelField(opts)
  {
    var m := ModelField(opts);
    forall k | k in SettingKeys
      ensures ModelField(m)[k] == m[k]
    {
    }
  }

  /** The field types `buildField` knows, in the order it tests them. */
  const FieldTypes: seq<string> := [
    "text", "password", "basic_int", "number", "range", "select", "checkbox",
    "date", "time", "datetime", "email", "tel", "url"]

  /** `v == name` in JavaScript's loose comparison, for a type name `name`
      (no type name contains a comma or looks like a number). A string
      compares by content; an array compares as its elements joined with
      commas, so only a one-element array can equal a type name. */
  predicate LooseEqualsName(v: JsValue, name: string): (b: bool)
    requires name in FieldTypes
    ensures v.Str? ==> (b <==> v.s == name)
    ensures b ==> v.Str? || (v.Arr? && |v.items| == 1)
    ensures b ==> Truthy(v)
  {
    match v
    case Str(s) => s == name
    case Arr(items) => |items| == 1 && LooseEqualsName(items[0], name)
    case _ => false
  }

  /** The type `buildField` builds for a `field_type` value, if any. */
  function SelectedType(fieldType: JsValue): (r: Option<string>)
    ensures r.Some? ==> r.value in FieldTypes && LooseEqualsName(fieldType, r.value)
    ensures r.None? ==> forall k :: 0 <= k < |FieldTypes| ==> !LooseEqualsName(fieldType, FieldTypes[k])
  {
    FirstMatch(fieldType, 0)
  }

  function FirstMatch(fieldType: JsValue, from: nat): (r: Option<string>)
    requires from <= |FieldTypes|
    ensures r.Some? ==> r.value in FieldTypes && LooseEqualsName(fieldType, r.value)
    ensures r.None? ==> forall k :: from <= k < |FieldTypes| ==> !LooseEqualsName(fieldType, FieldTypes[k])
    decreases |FieldTypes| - from
  {
    if from == |FieldTypes| then None
    else if LooseEqualsName(fieldType, FieldTypes[from]) then Some(FieldTypes[from])
    else FirstMatch(fieldType, from + 1)
  }

  /** The types whose branch tests `'minlength' in html_attributes` or
      `'min' in html_attributes`. */
  const AttributeTypes: set<string> := {"text", "password", "number", "range", "date", "time", "datetime", "email", "tel", "url"}

  /** The `in` operator accepts only objects (arrays included) on its right. */
  predicate IsObject(v: JsValue) {
    v.Arr? || v.Obj?
  }

  /** Some entry the `for (opt_id in options)` loop visits is `null` or
      `undefined`, so reading `opt.value` throws. */
  predicate HasNullishOption(options: JsValue) {
    match options
    case Arr(items) => exists i :: 0 <= i < |items| && IsNullish(items[i])
    case Obj(fields) => exists k :: k in fields && IsNullish(fields[k])
    case _ => false
  }

  /** `options[0]`; `None` when that throws (`options` is null or undefined). */
  function FirstOption(options: JsValue): Option<JsValue> {
    match options
    case Undefined => None
    case Null => None
    case Arr(items) => Some(if |items| > 0 then items[0] else Undefined)
    case Obj(fields) => Some(if "0" in fields then fields["0"] else Undefined)
    case Str(s) => Some(if |s| > 0 then Str([s[0]]) else Undefined)
    case _ => Some(Undefined)
  }

  /** `options[0].name`; `None` when that throws. */
  function FirstOptionName(options: JsValue): (r: Option<JsValue>)
    ensures r.None? <==> FirstOption(options).None? || IsNullish(FirstOption(options).value)
  {
    match FirstOption(options)
    case None => None
    case Some(first) =>
      if IsNullish(first) then None
      else if first.Obj? then Some(Prop(first.fields, "name"))
      else Some(Undefined)
  }

  /** A value loosely equals at most one type name. */
  lemma {:induction false} LooseEqualsIsUnique(v: JsValue, a: string, b: string)
    requires a in FieldTypes && b in FieldTypes
    requires LooseEqualsName(v, a) && LooseEqualsName(v, b)
    ensures a == b
  {
    if v.Arr? {
      LooseEqualsIsUnique(v.items[0], a, b);
    }
  }

  /** Testing for one type name directly agrees with the type `buildField` selects. */
  lemma SelectedTypeIs(v: JsValue, name: string)
    requires name in FieldTypes
    ensures SelectedType(v) == Some(name) <==> LooseEqualsName(v, name)
  {
    var t := SelectedType(v);
    if LooseEqualsName(v, name) {
      var k :| 0 <= k < |FieldTypes| && FieldTypes[k] == name;
      assert t.Some?;
      LooseEqualsIsUnique(v, name, t.value);
    }
  }

  /** How `updateField` sets the element's value. */
  datatype Applied = Checked(checked: JsValue) | Val(value: JsValue)

  /** `updateField`: a checkbox gets `checked`, every other field its value,
      both taken from the modelled options. */
  function UpdateField(opts: map<string, JsValue>): (a: Applied)
    ensures SelectedType(ModelField(opts)["field_type"]) == Some("checkbox") ==> a == Checked(ModelField(opts)["value"])
    ensures SelectedType(ModelField(opts)["field_type"]) != Some("checkbox") ==> a == Val(ModelField(opts)["value"])
  {
    var settings := ModelField(opts);
    SelectedTypeIs(settings["field_type"], "checkbox");
    if LooseEqualsName(settings["field_type"], "checkbox") then Checked(settings["value"])
    else Val(settings["value"])
  }

  /** What `buildField` does: returns `false`, throws a `TypeError`, or
      builds a field of a known type, generating an id when none is set. */
  datatype Outcome = Rejected | Thrown | Built(fieldType: string, generatedId: bool, applied: Applied)

  /** The select branch throws: an option entry is nullish, or no value is
      set and `options[0].name` cannot be read. */
  predicate SelectThrows(settings: map<string, JsValue>): (b: bool)
    requires settings.Keys == SettingKeys
    ensures IsNullish(settings["options"]) && !Truthy(settings["value"]) ==> b
    ensures settings["options"] == Arr([]) && !Truthy(settings["value"]) ==> b
    ensures (settings["options"].Arr? && |settings["options"].items| > 0
             && forall i :: 0 <= i < |settings["options"].items| ==> !IsNullish(settings["options"].items[i])) ==> !b
    ensures IsNullish(settings["options"]) && Truthy(settings["value"]) ==> !b
  {
    HasNullishOption(settings["options"])
    || (!Truthy(settings["value"]) && FirstOptionName(settings["options"]).None?)
  }

  /** A known type whose branch throws: a type that tests attributes with a
      non-object `html_attributes`, or a select whose options cannot be read. */
  predicate BuildThrows(settings: map<string, JsValue>)
    requires settings.Keys == SettingKeys
  {
    match SelectedType(settings["field_type"])
    case None => false
    case Some(t) =>
      (t in AttributeTypes && !IsObject(settings["html_attributes"]))
      || (t == "select" && SelectThrows(settings))
  }

  /** `buildField`. */
  function BuildField(opts: map<string, JsValue>): (r: Outcome)
    ensures r.Rejected? <==> SelectedType(ModelField(opts)["field_type"]).None?
    ensures r.Built? ==> Some(r.fieldType) == SelectedType(ModelField(opts)["field_type"])
    ensures r.Built? ==> r.applied == UpdateField(opts)
    ensures r.Built? ==> r.generatedId == !Truthy(ModelField(opts)["id"])
    ensures r.Thrown? <==> BuildThrows(ModelField(opts))
  {
    var settings := ModelField(opts);
    match SelectedType(settings["field_type"])
    case None => Rejected
    case Some(t) =>
      if t in AttributeTypes && !IsObject(settings["html_attributes"]) then Thrown
      else if t == "select" && SelectThrows(settings) then Thrown
      else Built(t, !Truthy(settings["id"]), UpdateField(opts))
  }

  /** Each of the thirteen names, given as `field_type`, builds that type. */
  lemma EveryKnownTypeIsAccepted(k: nat)
    requires k < |FieldTypes|
    ensures SelectedType(Str(FieldTypes[k])) == Some(FieldTypes[k])
  {
    LooseEqualsIsUnique(Str(FieldTypes[k]), FieldTypes[k], SelectedType(Str(FieldTypes[k])).value);
  }

  /** A `field_type` that is no known name, or that is missing, is rejected. */
  lemma UnknownTypeIsRejected(opts: map<string, JsValue>)
    requires "field_type" !in opts || (opts["field_type"].Str? && opts["field_type"].s !in FieldTypes)
    ensures BuildField(opts) == Rejected
  {
  }

  /** A select field with one option and no value. */
  const SelectWithOption: map<string, JsValue> := map[
    "field_type" := Str("select"),
    "options" := Arr([Obj(map["name" := Str("a"), "value" := Str("a"), "label" := Str("A")])])]

  /** The example's type and options are taken as given. */
  lemma SelectWithOptionSettings()
    ensures ModelField(SelectWithOption)["field_type"] == Str("select")
    ensures ModelField(SelectWithOption)["options"] == SelectWithOption["options"]
  {
    ModelFieldTakesPresentValues(SelectWithOption, "field_type");
    ModelFieldTakesPresentValues(SelectWithOption, "options");
  }

  /** The example sets neither a value nor an id, so both stay `null`. */
  lemma SelectWithOptionUnset()
    ensures ModelField(SelectWithOption)["value"] == Null
    ensures ModelField(SelectWithOption)["id"] == Null
  {
  }

  /** The example is built as a select. */
  lemma SelectWithOptionType()
    ensures SelectedType(ModelField(SelectWithOption)["field_type"]) == Some("select")
  {
    SelectWithOptionSettings();
    assert FieldTypes[5] == "select";
    SelectedTypeIs(Str("select"), "select");
  }

  /** The select branch does not test `html_attributes`. */
  lemma SelectTakesNoAttributes()
    ensures "select" !in AttributeTypes
  {
  }

  /** The example's first option has a name, so the select branch does not throw. */
  lemma SelectWithOptionDoesNotThrow()
    ensures FirstOptionName(ModelField(SelectWithOption)["options"]) == Some(Str("a"))
    ensures !SelectThrows(ModelField(SelectWithOption))
  {
    SelectWithOptionSettings();
    SelectWithOptionUnset();
    var items := SelectWithOption["options"].items;
    assert |items| == 1 && items[0].Obj?;
  }

  /** `updateField` applies the example's unset value. */
  lemma SelectWithOptionApplied()
    ensures UpdateField(SelectWithOption) == Val(Null)
  {
    SelectWithOptionType();
    SelectWithOptionUnset();
  }

  /** A select with options and no value: `buildField` reads the first
      option's name as a default, but the value applied is the original
      `null`, because `updateField` models the options afresh. */
  lemma SelectDefaultIsNotApplied()
    ensures FirstOptionName(ModelField(SelectWithOption)["options"]) == Some(Str("a"))
    ensures BuildField(SelectWithOption) == Built("select", true, Val(Null))
  {
    SelectWithOptionType();
    SelectTakesNoAttributes();
    SelectWithOptionUnset();
    SelectWithOptionDoesNotThrow();
    SelectWithOptionApplied();
  }
}
