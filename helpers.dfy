/**
 * The template helpers the form fields are rendered with: translations that may be missing,
 * the translation key of a field property, whether a field is required, its maximum length and
 * its class names.
 */
module Helpers {
  import opened Common

  /** A property of a field's configuration: a text, a list of texts, or a flag. */
  datatype Prop = Text(s: string) | Words(items: seq<string>) | Switch(b: bool)

  /** JavaScript truthiness of a property: a list is truthy even when empty. */
  predicate PropTruthy(p: Prop)
  {
    match p
    case Text(s) => s != ""
    case Words(_) => true
    case Switch(b) => b
  }

  /** The arguments of a validator: one number, or a list of them. */
  datatype Arguments = One(n: int) | Many(ns: seq<int>)

  /** An entry of a field's validate list: a validator's name, or a validator with a type and arguments. */
  datatype Validator = Named(name: string) | Typed(vtype: string, arguments: Option<Arguments>)

  /** A field's validate setting: a single validator name, or a list. */
  datatype Validate = Single(name: string) | List(validators: seq<Validator>)

  /**
   * A field's configuration: its properties (label, hint, className, ...), its `required` flag
   * when it has one, and its validate setting when it has one.
   */
  datatype FieldConfig = FieldConfig(props: map<string, Prop>, required: Option<bool>, validate: Option<Validate>)

  /** conditionalTranslate: the translation, or nil when the translator gives the key back. */
  function ConditionalTranslate(key: string, translate: string -> string): (r: Option<string>)
    ensures r.None? <==> translate(key) == key
    ensures r.Some? ==> r.value == translate(key)
  {
    var translated := translate(key);
    if translated != key then Some(translated) else None
  }

  /** getTranslationKey: the field's own property when it is set, else 'fields.<key>.<property>'. */
  function TranslationKey(field: FieldConfig, key: string, property: string): (r: Prop)
    ensures property in field.props && PropTruthy(field.props[property]) ==> r == field.props[property]
    ensures !(property in field.props && PropTruthy(field.props[property])) ==>
      r == Text("fields." + key + "." + property)
  {
    if property in field.props && PropTruthy(field.props[property]) then field.props[property]
    else Text("fields." + key + "." + property)
  }

  /**
   * The default translation key names its field and property: split at '.', it gives back
   * 'fields', the key and the property, when neither holds a '.'.
   */
  lemma TranslationKeyParts(field: FieldConfig, key: string, property: string)
    requires !(property in field.props && PropTruthy(field.props[property]))
    requires !Includes(key, ".") && !Includes(property, ".")
    ensures Split(TranslationKey(field, key, property).s, ".") == ["fields", key, property]
  {
    DefaultKeyParts(key, property);
  }

  /** Splitting 'fields.<key>.<property>' at '.' gives the three names back. */
  lemma DefaultKeyParts(key: string, property: string)
    requires !Includes(key, ".") && !Includes(property, ".")
    ensures Split("fields." + key + "." + property, ".") == ["fields", key, property]
  {
    var parts := ["fields", key, property];
    NoDotInFields();
    SplitJoin(parts, ".");
    JoinThree("fields", key, property, ".");
    assert "fields." == "fields" + ".";
  }

  /** The word 'fields' holds no '.'. */
  lemma NoDotInFields()
    ensures !Includes("fields", ".")
  {
    forall j ensures !OccursAt("fields", ".", j) {
      if 0 <= j < 6 {
        assert "fields"[j..j + 1] == ["fields"[j]];
      }
    }
  }

  /**
   * isRequired: an explicit `required` decides; otherwise a validate setting that is set
   * decides ('required' within a single name, or a list holding the name 'required'); otherwise
   * the field is not required.
   */
  function IsRequired(field: FieldConfig): (r: bool)
    ensures field.required.Some? ==> r == field.required.value
    ensures field.required.None? && field.validate.Some? && field.validate.value.List? ==>
      (r <==> Named("required") in field.validate.value.validators)
    ensures field.required.None? && field.validate.Some? && field.validate.value.Single? ==>
      (r <==> Includes(field.validate.value.name, "required"))
    ensures field.required.None? && field.validate.None? ==> !r
  {
    if field.required.Some? then field.required.value
    else if field.validate.Some? then
      match field.validate.value
      case Single(name) => name != "" && IndexOf(name, "required") > -1
      case List(validators) => IndexOfValidator(validators, Named("required")) > -1
    else false
  }

  /** Array.prototype.indexOf on a validate list: the first equal entry, or -1. */
  function IndexOfValidator(validators: seq<Validator>, v: Validator): (r: int)
    ensures r == -1 <==> v !in validators
    ensures r != -1 ==> 0 <= r < |validators| && validators[r] == v && v !in validators[..r]
  {
    if |validators| == 0 then -1
    else if validators[0] == v then 0
    else
      var r := IndexOfValidator(validators[1..], v);
      if r == -1 then -1
      else
        assert validators[..r + 1] == [validators[0]] + validators[1..][..r];
        r + 1
  }

  /** The position of the first validator of a type in a list, or -1 (lodash find). */
  function FindTyped(validators: seq<Validator>, vtype: string): (r: int)
    ensures -1 <= r < |validators|
    ensures r == -1 <==> forall k :: 0 <= k < |validators| ==> !(validators[k].Typed? && validators[k].vtype == vtype)
    ensures r != -1 ==> validators[r].Typed? && validators[r].vtype == vtype
    ensures r != -1 ==> forall k :: 0 <= k < r ==> !(validators[k].Typed? && validators[k].vtype == vtype)
  {
    if |validators| == 0 then -1
    else if validators[0].Typed? && validators[0].vtype == vtype then 0
    else
      var r := FindTyped(validators[1..], vtype);
      if r == -1 then -1 else r + 1
  }

  /** The value of a validator's arguments: a number, the first of a list (nil for an empty list), or nil. */
  function ArgumentValue(arguments: Option<Arguments>): (r: Option<int>)
    ensures arguments.Some? && arguments.value.One? ==> r == Some(arguments.value.n)
    ensures arguments.Some? && arguments.value.Many? && |arguments.value.ns| > 0 ==> r == Some(arguments.value.ns[0])
    ensures (arguments.None? || (arguments.value.Many? && |arguments.value.ns| == 0)) ==> r.None?
  {
    match arguments
    case None => None
    case Some(One(n)) => Some(n)
    case Some(Many(ns)) => if |ns| > 0 then Some(ns[0]) else None
  }

  /** The validators of a validate list; a single name holds none. */
  function ValidatorsOf(field: FieldConfig): seq<Validator>
  {
    if field.validate.Some? && field.validate.value.List? then field.validate.value.validators else []
  }

  /** Position i holds the first validator of the type. */
  predicate FirstTyped(validators: seq<Validator>, vtype: string, i: int)
  {
    0 <= i < |validators| && validators[i].Typed? && validators[i].vtype == vtype
    && forall k :: 0 <= k < i ==> !(validators[k].Typed? && validators[k].vtype == vtype)
  }

  /** The only first position of a type is the one FindTyped returns. */
  lemma FindTypedIsFirst(validators: seq<Validator>, vtype: string)
    ensures forall i :: FirstTyped(validators, vtype, i) ==> i == FindTyped(validators, vtype)
  {
    var r := FindTyped(validators, vtype);
    forall i | FirstTyped(validators, vtype, i) ensures i == r {
      assert r != -1;
    }
  }

  /**
   * maxlength: the arguments of the first maxlength validator; failing one, those of the first
   * exactlength validator; failing both, nil. A validate setting that is a single name holds no
   * typed validator.
   */
  function MaxLength(field: FieldConfig): (r: Option<int>)
    ensures (field.validate.None? || field.validate.value.Single?) ==> r.None?
    ensures forall i :: FirstTyped(ValidatorsOf(field), "maxlength", i) ==> r == ArgumentValue(ValidatorsOf(field)[i].arguments)
    ensures (forall k :: 0 <= k < |ValidatorsOf(field)| ==>
               !(ValidatorsOf(field)[k].Typed? && ValidatorsOf(field)[k].vtype == "maxlength"))
            ==> forall j :: FirstTyped(ValidatorsOf(field), "exactlength", j) ==> r == ArgumentValue(ValidatorsOf(field)[j].arguments)
    ensures (forall k :: 0 <= k < |ValidatorsOf(field)| ==>
               !(ValidatorsOf(field)[k].Typed? && ValidatorsOf(field)[k].vtype in {"maxlength", "exactlength"}))
            ==> r.None?
  {
    var validators := ValidatorsOf(field);
    FindTypedIsFirst(validators, "maxlength");
    FindTypedIsFirst(validators, "exactlength");
    var ml := FindTyped(validators, "maxlength");
    var el := FindTyped(validators, "exactlength");
    if ml != -1 then ArgumentValue(validators[ml].arguments)
    else if el != -1 then ArgumentValue(validators[el].arguments)
    else None
  }

  /** A maxlength validator wins over an exactlength one wherever they stand in the list. */
  lemma MaxLengthPrefersMaxlength(validators: seq<Validator>, i: nat, j: nat, props: map<string, Prop>, required: Option<bool>)
    requires i < |validators| && j < |validators|
    requires validators[i].Typed? && validators[i].vtype == "maxlength"
    requires validators[j].Typed? && validators[j].vtype == "exactlength"
    requires forall k :: 0 <= k < i ==> !(validators[k].Typed? && validators[k].vtype == "maxlength")
    ensures MaxLength(FieldConfig(props, required, Some(List(validators)))) == ArgumentValue(validators[i].arguments)
  {
    var ml := FindTyped(validators, "maxlength");
    assert ml != -1;
    assert ml == i;
  }

  /** type: the field's type, 'text' when it has none. */
  function FieldType(field: FieldConfig): (r: string)
    ensures r != ""
    ensures "type" in field.props && field.props["type"].Text? && field.props["type"].s != "" ==> r == field.props["type"].s
  {
    if "type" in field.props && field.props["type"].Text? && field.props["type"].s != "" then field.props["type"].s else "text"
  }

  /** classNameString: a list of names joined with single spaces; anything else as it is. */
  function ClassNameString(name: Prop): (r: Prop)
    ensures name.Words? ==> r == Text(Join(name.items, " "))
    ensures !name.Words? ==> r == name
  {
    match name
    case Words(items) => Text(Join(items, " "))
    case _ => name
  }

  /**
   * classNames: the class names under the property (className when none is named), '' when the
   * field has none.
   */
  function ClassNames(field: FieldConfig, prop: Option<string>): (r: Prop)
    ensures var p := if Truthy(prop) then prop.value else "className";
      && (!(p in field.props && PropTruthy(field.props[p])) ==> r == Text(""))
      && (p in field.props && field.props[p].Words? ==> r == Text(Join(field.props[p].items, " ")))
      && (p in field.props && PropTruthy(field.props[p]) && !field.props[p].Words? ==> r == field.props[p])
  {
    var p := if Truthy(prop) then prop.value else "className";
    if p in field.props && PropTruthy(field.props[p]) then ClassNameString(field.props[p]) else Text("")
  }

  /**
   * Class names given as a list come out space-separated, and splitting the result at spaces
   * gives the list back when no name holds a space.
   */
  lemma ClassNamesListed(field: FieldConfig, names: seq<string>)
    requires "className" in field.props && field.props["className"] == Words(names)
    requires |names| >= 1 && forall k :: 0 <= k < |names| ==> !Includes(names[k], " ")
    ensures ClassNames(field, None).Text?
    ensures Split(ClassNames(field, None).s, " ") == names
  {
    SplitJoin(names, " ");
  }
}
