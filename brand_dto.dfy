/**
 * The two brand rule objects: `createBrandDto` declares only `name`;
 * `updateBrandDto` declares the same `name` rule and adds `min(1)`.
 */
module BrandDto {
  import opened Wrappers
  import opened Joi
  import NameRule
  import ObjectKeys

  const Name := NameRule.Rule("Marka")

  const CreateBrand := ObjectSchema([Name], 0, "")

  const UpdateBrand := ObjectSchema([Name], 1, "En az bir alan güncellenmelidir.")

  lemma OnlyName(schema: ObjectSchema, body: Body)
    requires schema == CreateBrand || schema == UpdateBrand
    ensures KeyErrors(schema.keys, body) == FieldErrors(Name, Lookup(body, "name"))
    ensures Declared(schema.keys) == {"name"}
  {
    KeyErrorsCons(Name, [], body);
    assert [Name] + [] == [Name];
  }

  /** A create body is accepted exactly when `name` holds and (unless unknown keys are
      allowed) `name` is its only key. */
  lemma CreateAccepted(body: Body, options: Options)
    ensures Validate(CreateBrand, body, options).Accepted? <==>
      NameRule.NameOk(Lookup(body, "name"))
      && (!options.allowUnknown ==> forall i :: 0 <= i < |body| ==> body[i].key == "name")
  {
    OnlyName(CreateBrand, body);
    NameRule.Errors("Marka", Lookup(body, "name"));
    UnknownErrorsNone(body, {"name"});
  }

  /** An update body is accepted exactly when `name` holds; with unknown keys allowed,
      every other key passes unexamined. */
  lemma UpdateAccepted(body: Body, options: Options)
    requires options.allowUnknown
    ensures Validate(UpdateBrand, body, options).Accepted? <==> NameRule.NameOk(Lookup(body, "name"))
  {
    OnlyName(UpdateBrand, body);
    NameRule.Errors("Marka", Lookup(body, "name"));
    if NameRule.NameOk(Lookup(body, "name")) {
      var value := ValueOf(UpdateBrand, body);
      assert "name" in value;
      assert {"name"} <= value.Keys;
    }
  }

  /** An accepted body, on create or on update, holds a valid name, and the value carries it as supplied. */
  lemma AcceptedName(schema: ObjectSchema, body: Body, options: Options)
    requires schema == CreateBrand || schema == UpdateBrand
    requires Validate(schema, body, options).Accepted?
    ensures var value := Validate(schema, body, options).value;
      NameRule.NameOk(Lookup(body, "name")) && "name" in value && Lookup(body, "name") == Some(value["name"])
  {
    assert KeyErrors(schema.keys, body) == [];
    NameValue(schema, body);
  }

  lemma NameValue(schema: ObjectSchema, body: Body)
    requires schema == CreateBrand || schema == UpdateBrand
    requires KeyErrors(schema.keys, body) == []
    ensures var value := ValueOf(schema, body);
      NameRule.NameOk(Lookup(body, "name")) && "name" in value && Lookup(body, "name") == Some(value["name"])
  {
    OnlyName(schema, body);
    NameRule.Errors("Marka", Lookup(body, "name"));
    assert schema.keys == [Name] && Name.defaultValue == None;
    ValueLookup(schema, body, "name");
  }

  /** With unknown keys allowed, an accepted update value carries the undeclared keys as given. */
  lemma UpdateKeepsUnknown(body: Body, options: Options)
    requires options.allowUnknown && Validate(UpdateBrand, body, options).Accepted?
    ensures var value := Validate(UpdateBrand, body, options).value;
      forall k :: k in Fields(body) && k != "name" ==> k in value && value[k] == Fields(body)[k]
  {
    AcceptedKeepsSupplied(UpdateBrand, body, options);
  }

  /** A failing `name` is the first error reported, on create and on update alike;
      a body without `name` draws 'Marka ismi zorunludur.'. */
  lemma NameReportedFirst(schema: ObjectSchema, body: Body, options: Options)
    requires schema == CreateBrand || schema == UpdateBrand
    requires !NameRule.NameOk(Lookup(body, "name"))
    ensures var r := Validate(schema, body, options); var e := FieldErrors(Name, Lookup(body, "name"));
      e != [] && r.Rejected? && r.details[0] == e[0]
    ensures Lookup(body, "name").None? ==>
      Validate(schema, body, options).details[0] == Detail(AnyRequired, "name", "Marka" + " ismi zorunludur.")
  {
    OnlyName(schema, body);
    NameRule.Errors("Marka", Lookup(body, "name"));
    FirstKeyReportedFirst(schema, body, options);
  }

  /** On create, an undeclared key is rejected, and under abort-early it is the one error
      reported once `name` holds. */
  lemma CreateRejectsUnknown(body: Body, i: nat)
    requires i < |body| && body[i].key != "name"
    ensures Validate(CreateBrand, body, Defaults).Rejected?
    ensures NameRule.NameOk(Lookup(body, "name")) ==>
      Validate(CreateBrand, body, Defaults).details[0].rule == ObjectUnknown
  {
    CreateAccepted(body, Defaults);
    OnlyName(CreateBrand, body);
    NameRule.Errors("Marka", Lookup(body, "name"));
    UnknownErrorsNone(body, {"name"});
    UnknownErrorsRules(body, {"name"});
    var u := UnknownErrors(body, {"name"});
    if NameRule.NameOk(Lookup(body, "name")) {
      assert u != [] && u[0] in u;
    }
  }

  /**
   * Undeclared keys are reported in `Object.keys` order, not as written: once
   * `name` holds, the one error reported is for an array-index key, the least
   * of those the body has.
   */
  lemma IndexKeyReportedFirst(body: Body, k: string)
    requires NameRule.NameOk(Lookup(body, "name"))
    requires k in Fields(body) && ObjectKeys.IsArrayIndex(k)
    ensures var r := Validate(CreateBrand, body, Defaults);
      && r.Rejected? && r.details[0].rule == ObjectUnknown
      && ObjectKeys.IsArrayIndex(r.details[0].key)
      && ObjectKeys.IndexValue(r.details[0].key) <= ObjectKeys.IndexValue(k)
  {
    ObjectKeys.ExampleKeys();
    OnlyName(CreateBrand, body);
    NameRule.Errors("Marka", Lookup(body, "name"));
    UnknownIndexFirst(body, {"name"}, k);
  }

  /** An empty update body is rejected with the missing-name message alone: the object's
      `min(1)` message is never reached. */
  lemma UpdateEmptyBody(options: Options)
    ensures Validate(UpdateBrand, [], options) == Rejected([Detail(AnyRequired, "name", "Marka" + " ismi zorunludur.")])
  {
    assert Fields([]) == map[];
    OnlyName(UpdateBrand, []);
    NameRule.Errors("Marka", None);
    assert UnknownErrors([], {"name"}) == [];
  }

  /** No update body is reported for the object's `min(1)`. */
  lemma ObjectMinUnreachable(body: Body, options: Options)
    ensures forall d :: d in Errors(UpdateBrand, body, options.allowUnknown) ==> d.rule != ObjectMin
  {
    ObjectMinNeverReported(UpdateBrand, body, options, 0);
  }
}
