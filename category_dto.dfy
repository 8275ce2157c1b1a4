/**
 * The two category rule objects: `createCategoryDto` and `updateCategoryDto`.
 * Both require `name` (3 to 64 characters) with the same five messages; on
 * create `icon`, `color` and `image` must be non-empty strings when present and
 * `image` defaults to ''; on update the three may be ''. Both declare `min(1)`.
 */
module CategoryDto {
  import opened Wrappers
  import opened Joi
  import NameRule

  /** `name: Joi.string().min(3).max(64).required()`, shared by both schemas. */
  const Name := NameRule.Rule("Kategori")

  /** An optional string key; `allowEmpty` is `.allow('')`. */
  function Optional(key: string, allowEmpty: bool, defaultValue: Option<string>): StringRule {
    StringRule(key, false, None, None, allowEmpty, defaultValue, StandardMessages(key))
  }

  const CreateIcon := Optional("icon", false, None)
  const CreateColor := Optional("color", false, None)
  const CreateImage := Optional("image", false, Some(""))

  const CreateCategory := ObjectSchema(
    [Name, CreateIcon, CreateColor, CreateImage], 1, "En az bir kategori özelliği belirtilmelidir.")

  const UpdateIcon := Optional("icon", true, None)
  const UpdateColor := Optional("color", true, None)
  const UpdateImage := Optional("image", true, None)

  const UpdateCategory := ObjectSchema(
    [Name, UpdateIcon, UpdateColor, UpdateImage], 1, "En az bir alan güncellenmelidir.")

  const Keys := {"name", "icon", "color", "image"}

  /** What a create-side optional string accepts: absent, or a non-empty string. */
  predicate AbsentOrNonEmpty(v: Option<Value>) {
    v.None? || (v.value.Text? && v.value.s != "")
  }

  /** What an update-side optional string accepts: absent, or any string, '' included. */
  predicate AbsentOrText(v: Option<Value>) {
    v.None? || v.value.Text?
  }

  /** The key errors of a four-key schema, written out key by key. */
  lemma KeyErrorsOfFour(a: StringRule, b: StringRule, c: StringRule, d: StringRule, body: Body)
    ensures KeyErrors([a, b, c, d], body) ==
      FieldErrors(a, Lookup(body, a.key)) + (FieldErrors(b, Lookup(body, b.key))
      + (FieldErrors(c, Lookup(body, c.key)) + FieldErrors(d, Lookup(body, d.key))))
  {
    assert [a, b, c, d][1..] == [b, c, d];
    assert [b, c, d][1..] == [c, d];
    assert [c, d][1..] == [d];
    var fd := FieldErrors(d, Lookup(body, d.key));
    assert KeyErrors([d], body) == fd + [] == fd;
    assert KeyErrors([c, d], body) == FieldErrors(c, Lookup(body, c.key)) + KeyErrors([d], body);
    assert KeyErrors([b, c, d], body) == FieldErrors(b, Lookup(body, b.key)) + KeyErrors([c, d], body);
    assert KeyErrors([a, b, c, d], body) == FieldErrors(a, Lookup(body, a.key)) + KeyErrors([b, c, d], body);
  }

  /** Which of the declared keys carry no default. */
  lemma NoDefaults(rules: seq<StringRule>, keys: set<string>)
    requires rules == CreateCategory.keys || rules == UpdateCategory.keys
    requires rules == CreateCategory.keys ==> "image" !in keys
    ensures forall i :: 0 <= i < |rules| && rules[i].key in keys ==> rules[i].defaultValue.None?
  {
    assert Name.defaultValue == None;
  }

  lemma DeclaredKeys()
    ensures Declared(CreateCategory.keys) == Keys && Declared(UpdateCategory.keys) == Keys
  {
    DeclaredOfFour(Name, CreateIcon, CreateColor, CreateImage);
    DeclaredOfFour(Name, UpdateIcon, UpdateColor, UpdateImage);
  }

  lemma DeclaredOfFour(a: StringRule, b: StringRule, c: StringRule, d: StringRule)
    ensures Declared([a, b, c, d]) == {a.key, b.key, c.key, d.key}
  {
    DeclaredCons(d, []);
    assert [d] + [] == [d];
    DeclaredCons(c, [d]);
    assert [c] + [d] == [c, d];
    DeclaredCons(b, [c, d]);
    assert [b] + [c, d] == [b, c, d];
    DeclaredCons(a, [b, c, d]);
    assert [a] + [b, c, d] == [a, b, c, d];
  }

  /** What an optional key's rule accepts, with and without `.allow('')`. */
  lemma OptionalRule(key: string, allowEmpty: bool, defaultValue: Option<string>, v: Option<Value>)
    ensures FieldErrors(Optional(key, allowEmpty, defaultValue), v) == [] <==>
      if allowEmpty then AbsentOrText(v) else AbsentOrNonEmpty(v)
  {
  }

  /** The declared keys of a create body pass exactly when `name` holds and icon, color and
      image are absent or non-empty strings. */
  lemma CreateKeysPass(body: Body)
    ensures KeyErrors(CreateCategory.keys, body) == [] <==>
      NameRule.NameOk(Lookup(body, "name"))
      && AbsentOrNonEmpty(Lookup(body, "icon"))
      && AbsentOrNonEmpty(Lookup(body, "color"))
      && AbsentOrNonEmpty(Lookup(body, "image"))
  {
    KeyErrorsOfFour(Name, CreateIcon, CreateColor, CreateImage, body);
    NameRule.Errors("Kategori", Lookup(body, "name"));
    OptionalRule("icon", false, None, Lookup(body, "icon"));
    OptionalRule("color", false, None, Lookup(body, "color"));
    OptionalRule("image", false, Some(""), Lookup(body, "image"));
  }

  /** A create body is accepted exactly when `name` holds, icon, color and image are absent or
      non-empty strings, and (unless unknown keys are allowed) it has no other key. */
  lemma CreateAccepted(body: Body, options: Options)
    ensures Validate(CreateCategory, body, options).Accepted? <==>
      NameRule.NameOk(Lookup(body, "name"))
      && AbsentOrNonEmpty(Lookup(body, "icon"))
      && AbsentOrNonEmpty(Lookup(body, "color"))
      && AbsentOrNonEmpty(Lookup(body, "image"))
      && (!options.allowUnknown ==> forall i :: 0 <= i < |body| ==> body[i].key in Keys)
  {
    CreateKeysPass(body);
    DeclaredKeys();
    UnknownErrorsNone(body, Keys);
    if NameRule.NameOk(Lookup(body, "name")) {
      MinKeysMet(CreateCategory, body);
    }
  }

  /** An update body (unknown keys allowed) is accepted exactly when `name` holds and
      icon, color and image are absent or strings, '' included. */
  lemma UpdateAccepted(body: Body, options: Options)
    requires options.allowUnknown
    ensures Validate(UpdateCategory, body, options).Accepted? <==>
      NameRule.NameOk(Lookup(body, "name"))
      && AbsentOrText(Lookup(body, "icon"))
      && AbsentOrText(Lookup(body, "color"))
      && AbsentOrText(Lookup(body, "image"))
  {
    UpdateKeysPass(body);
    if NameRule.NameOk(Lookup(body, "name")) {
      MinKeysMet(UpdateCategory, body);
    }
  }

  /** A body holding `name` meets the object's `min(1)`. */
  lemma MinKeysMet(schema: ObjectSchema, body: Body)
    requires Lookup(body, "name").Some? && schema.minKeys <= 1
    ensures |ValueOf(schema, body)| >= schema.minKeys
  {
    var value := ValueOf(schema, body);
    assert "name" in value;
    assert {"name"} <= value.Keys;
  }

  /** A failing `name` is the first error reported, on create and on update alike. */
  lemma NameReportedFirst(schema: ObjectSchema, body: Body, options: Options)
    requires schema == CreateCategory || schema == UpdateCategory
    requires !NameRule.NameOk(Lookup(body, "name"))
    ensures var r := Validate(schema, body, options); var e := FieldErrors(Name, Lookup(body, "name"));
      e != [] && r.Rejected? && r.details[0] == e[0]
  {
    NameRule.Errors("Kategori", Lookup(body, "name"));
    FirstKeyReportedFirst(schema, body, options);
  }

  /** An accepted create value has `image`: the one supplied, or ''. */
  lemma CreateImageDefault(body: Body, options: Options)
    requires Validate(CreateCategory, body, options).Accepted?
    ensures var value := Validate(CreateCategory, body, options).value;
      "image" in value && value["image"] == Lookup(body, "image").GetOr(Text(""))
  {
    CreateImageValue(body);
  }

  lemma CreateImageValue(body: Body)
    ensures "image" in ValueOf(CreateCategory, body)
    ensures ValueOf(CreateCategory, body)["image"] == Lookup(body, "image").GetOr(Text(""))
  {
    var rules := CreateCategory.keys;
    assert rules[0].key == "name" && rules[1].key == "icon" && rules[2].key == "color";
    assert rules[3] == CreateImage;
    ValueDefault(CreateCategory, body, 3);
  }

  /** An update value gains no `image` the body did not supply. */
  lemma UpdateNoImageDefault(body: Body, options: Options)
    requires Validate(UpdateCategory, body, options).Accepted? && Lookup(body, "image").None?
    ensures "image" !in Validate(UpdateCategory, body, options).value
  {
    UpdateImageValue(body);
  }

  lemma UpdateImageValue(body: Body)
    ensures Lookup(body, "image").None? ==> "image" !in ValueOf(UpdateCategory, body)
  {
    NoDefaults(UpdateCategory.keys, {"image"});
    ValueLookup(UpdateCategory, body, "image");
  }

  /** With the declared keys passing, the value holds the body's name, icon and color as
      supplied, icon and color only when supplied. */
  lemma CreateKeysValue(body: Body)
    requires KeyErrors(CreateCategory.keys, body) == []
    ensures var value := ValueOf(CreateCategory, body);
      && NameRule.NameOk(Lookup(body, "name"))
      && "name" in value && Lookup(body, "name") == Some(value["name"])
      && AbsentOrNonEmpty(Lookup(body, "icon"))
      && Lookup(body, "icon") == (if "icon" in value then Some(value["icon"]) else None)
      && AbsentOrNonEmpty(Lookup(body, "color"))
      && Lookup(body, "color") == (if "color" in value then Some(value["color"]) else None)
      && AbsentOrNonEmpty(Lookup(body, "image"))
  {
    CreateKeysPass(body);
    NoDefaults(CreateCategory.keys, {"name", "icon", "color"});
    ValueLookup(CreateCategory, body, "name");
    ValueLookup(CreateCategory, body, "icon");
    ValueLookup(CreateCategory, body, "color");
  }

  /** How an accepted create value relates to its body, key by key: the body's name, icon and
      color as supplied (icon and color only when supplied), and the body's image or ''. */
  predicate CreateValueOf(body: Body, value: map<string, Value>) {
    && NameRule.NameOk(Lookup(body, "name"))
    && "name" in value && Lookup(body, "name") == Some(value["name"])
    && AbsentOrNonEmpty(Lookup(body, "icon"))
    && Lookup(body, "icon") == (if "icon" in value then Some(value["icon"]) else None)
    && AbsentOrNonEmpty(Lookup(body, "color"))
    && Lookup(body, "color") == (if "color" in value then Some(value["color"]) else None)
    && AbsentOrNonEmpty(Lookup(body, "image"))
    && "image" in value && value["image"] == Lookup(body, "image").GetOr(Text(""))
  }

  lemma CreateValue(body: Body, options: Options)
    requires Validate(CreateCategory, body, options).Accepted?
    ensures CreateValueOf(body, Validate(CreateCategory, body, options).value)
  {
    assert KeyErrors(CreateCategory.keys, body) == [];
    CreateKeysValue(body);
    CreateImageDefault(body, options);
  }

  /** How an accepted update value relates to its body, key by key: the body's name, and icon,
      color and image exactly as supplied, '' included, and only when supplied. */
  predicate UpdateValueOf(body: Body, value: map<string, Value>) {
    && NameRule.NameOk(Lookup(body, "name"))
    && "name" in value && Lookup(body, "name") == Some(value["name"])
    && AbsentOrText(Lookup(body, "icon"))
    && Lookup(body, "icon") == (if "icon" in value then Some(value["icon"]) else None)
    && AbsentOrText(Lookup(body, "color"))
    && Lookup(body, "color") == (if "color" in value then Some(value["color"]) else None)
    && AbsentOrText(Lookup(body, "image"))
    && Lookup(body, "image") == (if "image" in value then Some(value["image"]) else None)
  }

  /** The declared keys of an update body pass exactly when `name` holds and icon, color and
      image are absent or strings, '' included. */
  lemma UpdateKeysPass(body: Body)
    ensures KeyErrors(UpdateCategory.keys, body) == [] <==>
      NameRule.NameOk(Lookup(body, "name"))
      && AbsentOrText(Lookup(body, "icon"))
      && AbsentOrText(Lookup(body, "color"))
      && AbsentOrText(Lookup(body, "image"))
  {
    KeyErrorsOfFour(Name, UpdateIcon, UpdateColor, UpdateImage, body);
    NameRule.Errors("Kategori", Lookup(body, "name"));
    OptionalRule("icon", true, None, Lookup(body, "icon"));
    OptionalRule("color", true, None, Lookup(body, "color"));
    OptionalRule("image", true, None, Lookup(body, "image"));
  }

  lemma UpdateKeysValue(body: Body)
    requires KeyErrors(UpdateCategory.keys, body) == []
    ensures UpdateValueOf(body, ValueOf(UpdateCategory, body))
  {
    UpdateKeysPass(body);
    NoDefaults(UpdateCategory.keys, Keys);
    ValueLookup(UpdateCategory, body, "name");
    ValueLookup(UpdateCategory, body, "icon");
    ValueLookup(UpdateCategory, body, "color");
    ValueLookup(UpdateCategory, body, "image");
  }

  lemma UpdateValue(body: Body, options: Options)
    requires options.allowUnknown && Validate(UpdateCategory, body, options).Accepted?
    ensures UpdateValueOf(body, Validate(UpdateCategory, body, options).value)
  {
    assert KeyErrors(UpdateCategory.keys, body) == [];
    UpdateKeysValue(body);
  }

  /** Of the four keys, only `name` reports anything for an empty body. */
  lemma EmptyBodyKeyErrors(schema: ObjectSchema)
    requires schema == CreateCategory || schema == UpdateCategory
    ensures KeyErrors(schema.keys, []) == [Detail(AnyRequired, "name", "Kategori" + " ismi zorunludur.")]
  {
    assert Fields([]) == map[];
    NameRule.Errors("Kategori", None);
    if schema == CreateCategory {
      KeyErrorsOfFour(Name, CreateIcon, CreateColor, CreateImage, []);
    } else {
      KeyErrorsOfFour(Name, UpdateIcon, UpdateColor, UpdateImage, []);
    }
  }

  /** An empty body is rejected with the missing-name message alone, under any options:
      the object's `min(1)` message is never reached. */
  lemma EmptyBodyRejected(schema: ObjectSchema, options: Options)
    requires schema == CreateCategory || schema == UpdateCategory
    ensures Validate(schema, [], options) == Rejected([Detail(AnyRequired, "name", "Kategori" + " ismi zorunludur.")])
  {
    EmptyBodyKeyErrors(schema);
    assert UnknownErrors([], Declared(schema.keys)) == [];
  }

  /** No category body, under any options, is reported for the object's `min(1)`. */
  lemma ObjectMinUnreachable(schema: ObjectSchema, body: Body, options: Options)
    requires schema == CreateCategory || schema == UpdateCategory
    ensures forall d :: d in Errors(schema, body, options.allowUnknown) ==> d.rule != ObjectMin
  {
    ObjectMinNeverReported(schema, body, options, 0);
  }
}
