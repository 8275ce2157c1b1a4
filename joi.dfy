/**
 * The object-schema validator that the DTO files declare: a body is checked
 * key by key against string rules, then for undeclared keys, then against the
 * object's own `min` rule, giving either the normalised value or the list of
 * rule-tagged error details. `abortEarly` and `allowUnknown` are the caller's
 * options.
 */
module Joi {
  import opened Wrappers
  import Numerals
  import ObjectKeys

  /** A JSON value in a request body: a string, or something else (number, boolean, null, array, object). */
  datatype Value = Text(s: string) | NonText

  datatype Member = Member(key: string, value: Value)

  /** A parsed JSON object, its members in the order they were written. */
  type Body = seq<Member>

  /** The object's fields; for a repeated key the last member wins, as when JSON is parsed. */
  function Fields(body: Body): (m: map<string, Value>)
    ensures forall i :: 0 <= i < |body| ==> body[i].key in m
    ensures forall k :: k in m ==> exists i :: 0 <= i < |body| && body[i].key == k
    decreases |body|
  {
    if body == [] then map[]
    else
      var init := body[..|body| - 1];
      var last := body[|body| - 1];
      assert forall i :: 0 <= i < |init| ==> init[i] == body[i];
      Fields(init)[last.key := last.value]
  }

  function Lookup(body: Body, key: string): Option<Value> {
    var m := Fields(body);
    if key in m then Some(m[key]) else None
  }

  /**
   * A string's `length` in JavaScript: the number of UTF-16 code units, so a
   * character outside the Basic Multilingual Plane counts twice.
   */
  function Utf16Length(s: string): (n: nat)
    ensures |s| <= n <= 2 * |s|
    decreases |s|
  {
    if s == [] then 0
    else (if s[0] >= '\U{10000}' then 2 else 1) + Utf16Length(s[1..])
  }

  /** A string of characters outside the Basic Multilingual Plane has twice as many code units as characters. */
  lemma {:induction false} AstralLength(s: string)
    requires forall i :: 0 <= i < |s| ==> s[i] >= '\U{10000}'
    ensures Utf16Length(s) == 2 * |s|
    decreases |s|
  {
    if s != [] {
      AstralLength(s[1..]);
    }
  }

  /** The rule an error detail reports, named as the validator names it. */
  datatype Rule = StringBase | StringEmpty | StringMin | StringMax | AnyRequired | ObjectBase | ObjectMin | ObjectUnknown

  datatype Detail = Detail(rule: Rule, key: string, message: string)

  /** A message with a `{#limit}` placeholder between `before` and `after`. */
  datatype Template = Template(before: string, after: string)

  function Fill(t: Template, limit: nat): string {
    t.before + Numerals.ToString(limit, 10) + t.after
  }

  /** The message of each string rule. */
  datatype Messages = Messages(base: string, empty: string, min: Template, max: Template, required: string)

  /** The label the validator puts in its default messages: the key in double quotes. */
  function Label(key: string): string {
    "\"" + key + "\""
  }

  /** The validator's own messages, used where a key declares none. */
  function StandardMessages(key: string): Messages {
    Messages(
      Label(key) + " must be a string",
      Label(key) + " is not allowed to be empty",
      Template(Label(key) + " length must be at least ", " characters long"),
      Template(Label(key) + " length must be less than or equal to ", " characters long"),
      Label(key) + " is required")
  }

  /** The rule of one declared key: a string, maybe required, maybe bounded, maybe allowing '', maybe defaulted. */
  datatype StringRule = StringRule(
    key: string,
    required: bool,
    minLength: Option<nat>,
    maxLength: Option<nat>,
    allowEmpty: bool,
    defaultValue: Option<string>,
    messages: Messages)

  /** An object schema: its declared keys in order, the least number of keys and that rule's message. */
  datatype ObjectSchema = ObjectSchema(keys: seq<StringRule>, minKeys: nat, minMessage: string)

  datatype Options = Options(abortEarly: bool, allowUnknown: bool)

  /** What `validate(body)` uses when the caller passes no options. */
  const Defaults := Options(abortEarly := true, allowUnknown := false)

  datatype Validation = Accepted(value: map<string, Value>) | Rejected(details: seq<Detail>)

  /** The errors of one key's value, in the order the validator finds them. */
  function FieldErrors(rule: StringRule, v: Option<Value>): (errors: seq<Detail>)
    ensures forall d :: d in errors ==> d.key == rule.key && d.rule != ObjectMin && d.rule != ObjectUnknown
  {
    match v
    case None =>
      if rule.required then [Detail(AnyRequired, rule.key, rule.messages.required)] else []
    case Some(NonText) =>
      [Detail(StringBase, rule.key, rule.messages.base)]
    case Some(Text(s)) =>
      if s == "" then
        if rule.allowEmpty then [] else [Detail(StringEmpty, rule.key, rule.messages.empty)]
      else
        (if rule.minLength.Some? && Utf16Length(s) < rule.minLength.value
         then [Detail(StringMin, rule.key, Fill(rule.messages.min, rule.minLength.value))] else [])
        + (if rule.maxLength.Some? && Utf16Length(s) > rule.maxLength.value
           then [Detail(StringMax, rule.key, Fill(rule.messages.max, rule.maxLength.value))] else [])
  }

  /** The errors of the declared keys, key by key in schema order. */
  function KeyErrors(rules: seq<StringRule>, body: Body): seq<Detail>
    decreases |rules|
  {
    if rules == [] then []
    else FieldErrors(rules[0], Lookup(body, rules[0].key)) + KeyErrors(rules[1..], body)
  }

  function Declared(rules: seq<StringRule>): set<string>
    decreases |rules|
  {
    if rules == [] then {} else {rules[0].key} + Declared(rules[1..])
  }

  lemma DeclaredCons(rule: StringRule, rest: seq<StringRule>)
    ensures Declared([rule] + rest) == {rule.key} + Declared(rest)
  {
    assert ([rule] + rest)[1..] == rest;
  }

  /** The keys of the body's members as written, repeats included. */
  function KeysOf(body: Body): seq<string>
    decreases |body|
  {
    if body == [] then [] else [body[0].key] + KeysOf(body[1..])
  }

  lemma {:induction false} KeysOfMembers(body: Body)
    ensures |KeysOf(body)| == |body| && forall i :: 0 <= i < |body| ==> KeysOf(body)[i] == body[i].key
    decreases |body|
  {
    if body != [] {
      KeysOfMembers(body[1..]);
    }
  }

  /**
   * The body's undeclared keys as the object's `Object.keys` lists them: each
   * once, array indices first and ascending, then the others as first written.
   */
  function UnknownKeys(body: Body, declared: set<string>): seq<string> {
    ObjectKeys.Outside(ObjectKeys.OwnKeys(KeysOf(body)), declared)
  }

  /** The undeclared keys listed are exactly the body's keys outside `declared`. */
  lemma UnknownKeysMembers(body: Body, declared: set<string>)
    ensures forall k :: k in UnknownKeys(body, declared) <==> k in Fields(body) && k !in declared
  {
    var own := ObjectKeys.OwnKeys(KeysOf(body));
    ObjectKeys.OwnKeysMembers(KeysOf(body));
    KeysOfMembers(body);
    ObjectKeys.OutsideMembers(own, declared);
    forall k ensures k in own <==> k in Fields(body) {
      if k in Fields(body) {
        var i :| 0 <= i < |body| && body[i].key == k;
        assert KeysOf(body)[i] == k;
      }
    }
  }

  /** One `object.unknown` error per key of `keys`, in their order. */
  function UnknownDetails(keys: seq<string>): seq<Detail>
    decreases |keys|
  {
    if keys == [] then []
    else [Detail(ObjectUnknown, keys[0], Label(keys[0]) + " is not allowed")] + UnknownDetails(keys[1..])
  }

  lemma {:induction false} UnknownDetailsKeys(keys: seq<string>)
    ensures |UnknownDetails(keys)| == |keys|
    ensures forall i :: 0 <= i < |keys| ==>
      UnknownDetails(keys)[i].rule == ObjectUnknown && UnknownDetails(keys)[i].key == keys[i]
    decreases |keys|
  {
    if keys != [] {
      UnknownDetailsKeys(keys[1..]);
    }
  }

  function UnknownErrors(body: Body, declared: set<string>): seq<Detail> {
    UnknownDetails(UnknownKeys(body, declared))
  }

  /** The defaults of the declared keys the body leaves out. */
  function DefaultsOf(rules: seq<StringRule>, present: map<string, Value>): (d: map<string, Value>)
    ensures forall k :: k in d ==> k !in present
    decreases |rules|
  {
    if rules == [] then map[]
    else
      var rest := DefaultsOf(rules[1..], present);
      if rules[0].key !in present && rules[0].defaultValue.Some?
      then rest[rules[0].key := Text(rules[0].defaultValue.value)]
      else rest
  }

  /** The validated value: the body's fields, undeclared ones included, plus the defaults. */
  function ValueOf(schema: ObjectSchema, body: Body): map<string, Value> {
    Fields(body) + DefaultsOf(schema.keys, Fields(body))
  }

  /**
   * Every error the body draws: the declared keys' first, then the undeclared
   * keys' unless the caller allows them; the object's `min` rule is applied only
   * to a body with none of those.
   */
  function Errors(schema: ObjectSchema, body: Body, allowUnknown: bool): seq<Detail> {
    var found := KeyErrors(schema.keys, body)
      + (if allowUnknown then [] else UnknownErrors(body, Declared(schema.keys)));
    if found != [] then found
    else if |ValueOf(schema, body)| < schema.minKeys then [Detail(ObjectMin, "", schema.minMessage)]
    else []
  }

  /** `schema.validate(body, options)`: under abort-early only the first error is reported. */
  function Validate(schema: ObjectSchema, body: Body, options: Options): (r: Validation)
    ensures r.Rejected? ==> r.details != [] && (options.abortEarly ==> |r.details| == 1)
    ensures r.Accepted? ==> r.value == ValueOf(schema, body)
  {
    var errors := Errors(schema, body, options.allowUnknown);
    if errors == [] then Accepted(ValueOf(schema, body))
    else Rejected(if options.abortEarly then [errors[0]] else errors)
  }
  /**
   * A request body as the JSON body parser hands it over: an object, or a
   * top-level array. A request without a JSON body arrives as the empty object.
   */
  datatype RequestBody = JsonObject(members: Body) | JsonArray

  /** The `object.base` message for a value that is not an object; the root's label is "value". */
  const NotAnObject := "\"value\" must be of type object"

  /** `validate(payload)`: an object is checked as above; an array fails `object.base` alone. */
  function ValidateRequest(schema: ObjectSchema, payload: RequestBody, options: Options): Validation {
    match payload
    case JsonObject(body) => Validate(schema, body, options)
    case JsonArray => Rejected([Detail(ObjectBase, "", NotAnObject)])
  }


  /** The string a validated value holds under `key`, if any. */
  function TextOf(value: map<string, Value>, key: string): Option<string> {
    if key in value && value[key].Text? then Some(value[key].s) else None
  }

  /** The messages of a list of details, as the update handlers put them in a response. */
  function MessagesOf(details: seq<Detail>): (ms: seq<string>)
    ensures |ms| == |details| && forall i :: 0 <= i < |details| ==> ms[i] == details[i].message
  {
    if details == [] then [] else [details[0].message] + MessagesOf(details[1..])
  }

  // ---------------------------------------------------------------------------
  // Properties of the validator that hold for every schema

  /** The declared keys raise no error exactly when each key's own rule raises none. */
  lemma {:induction false} KeyErrorsNone(rules: seq<StringRule>, body: Body)
    ensures KeyErrors(rules, body) == [] <==>
      forall i :: 0 <= i < |rules| ==> FieldErrors(rules[i], Lookup(body, rules[i].key)) == []
    decreases |rules|
  {
    if rules != [] {
      KeyErrorsNone(rules[1..], body);
      assert forall i :: 1 <= i < |rules| ==> rules[i] == rules[1..][i - 1];
    }
  }

  lemma KeyErrorsCons(rule: StringRule, rest: seq<StringRule>, body: Body)
    ensures KeyErrors([rule] + rest, body) == FieldErrors(rule, Lookup(body, rule.key)) + KeyErrors(rest, body)
  {
    assert ([rule] + rest)[1..] == rest;
  }

  /** No key error is an object-rule error. */
  lemma {:induction false} KeyErrorsRules(rules: seq<StringRule>, body: Body)
    ensures forall d :: d in KeyErrors(rules, body) ==> d.rule != ObjectMin && d.rule != ObjectUnknown
    decreases |rules|
  {
    if rules != [] {
      KeyErrorsRules(rules[1..], body);
    }
  }

  /** Undeclared keys raise no error exactly when every member's key is declared. */
  lemma UnknownErrorsNone(body: Body, declared: set<string>)
    ensures UnknownErrors(body, declared) == [] <==> forall i :: 0 <= i < |body| ==> body[i].key in declared
  {
    var u := UnknownKeys(body, declared);
    UnknownKeysMembers(body, declared);
    UnknownDetailsKeys(u);
    if u != [] {
      assert u[0] in u;
      var i :| 0 <= i < |body| && body[i].key == u[0];
    }
    if exists i :: 0 <= i < |body| && body[i].key !in declared {
      var i :| 0 <= i < |body| && body[i].key !in declared;
      assert body[i].key in u;
    }
  }

  /**
   * Each undeclared key of the body is reported by exactly one `object.unknown`
   * error, and the errors follow `Object.keys` order: array-index keys first,
   * ascending, then the other keys in the order they first occur in the body.
   */
  lemma UnknownErrorsOrder(body: Body, declared: set<string>)
    ensures var e := UnknownErrors(body, declared);
      && (forall k :: k in Fields(body) && k !in declared <==> exists i :: 0 <= i < |e| && e[i].key == k)
      && (forall i, j :: 0 <= i < j < |e| ==> e[i].key != e[j].key)
      && (forall i, j :: 0 <= i < j < |e| ==> ObjectKeys.Before(e[i].key, e[j].key))
    ensures var u := UnknownKeys(body, declared);
      && |UnknownErrors(body, declared)| == |u|
      && (forall i :: 0 <= i < |u| ==> UnknownErrors(body, declared)[i].key == u[i])
      && ObjectKeys.Named(u) == ObjectKeys.Outside(ObjectKeys.FirstOccurrences(ObjectKeys.Named(KeysOf(body))), declared)
  {
    var u := UnknownKeys(body, declared);
    var e := UnknownErrors(body, declared);
    UnknownKeysMembers(body, declared);
    UnknownKeysOrdered(body, declared);
    UnknownKeysNamed(body, declared);
    UnknownDetailsKeys(u);
    forall k | k in Fields(body) && k !in declared
      ensures exists i :: 0 <= i < |e| && e[i].key == k
    {
      var i :| 0 <= i < |u| && u[i] == k;
      assert e[i].key == k;
    }
  }

  lemma UnknownKeysOrdered(body: Body, declared: set<string>)
    ensures ObjectKeys.Distinct(UnknownKeys(body, declared)) && ObjectKeys.KeyOrdered(UnknownKeys(body, declared))
  {
    ObjectKeys.OwnKeysOrdered(KeysOf(body));
    ObjectKeys.OutsideKeeps(ObjectKeys.OwnKeys(KeysOf(body)), declared);
  }

  /** The unknown keys that are not array indices come in the order they first occur in the body. */
  lemma UnknownKeysNamed(body: Body, declared: set<string>)
    ensures ObjectKeys.Named(UnknownKeys(body, declared))
      == ObjectKeys.Outside(ObjectKeys.FirstOccurrences(ObjectKeys.Named(KeysOf(body))), declared)
  {
    ObjectKeys.OwnKeysNamed(KeysOf(body));
    ObjectKeys.OutsideNamed(ObjectKeys.OwnKeys(KeysOf(body)), declared);
  }

  /** An undeclared array-index key puts an array-index key, the least, at the head of the unknown-key errors. */
  lemma UnknownIndexFirst(body: Body, declared: set<string>, k: string)
    requires k in Fields(body) && k !in declared && ObjectKeys.IsArrayIndex(k)
    ensures var e := UnknownErrors(body, declared);
      && e != [] && e[0].rule == ObjectUnknown
      && ObjectKeys.IsArrayIndex(e[0].key) && ObjectKeys.IndexValue(e[0].key) <= ObjectKeys.IndexValue(k)
  {
    UnknownErrorsOrder(body, declared);
    var e := UnknownErrors(body, declared);
    var j :| 0 <= j < |e| && e[j].key == k;
    if j > 0 {
      assert ObjectKeys.Before(e[0].key, e[j].key);
    }
  }

  /** A body is accepted exactly when every declared key's rule holds, no key is undeclared
      (unless the caller allows it), and the object rule holds. */
  lemma AcceptedIff(schema: ObjectSchema, body: Body, options: Options)
    ensures Validate(schema, body, options).Accepted? <==>
      (forall i :: 0 <= i < |schema.keys| ==> FieldErrors(schema.keys[i], Lookup(body, schema.keys[i].key)) == [])
      && (!options.allowUnknown ==> forall i :: 0 <= i < |body| ==> body[i].key in Declared(schema.keys))
      && |ValueOf(schema, body)| >= schema.minKeys
  {
    KeyErrorsNone(schema.keys, body);
    UnknownErrorsNone(body, Declared(schema.keys));
  }

  /** When the first declared key fails, its first error heads the report, whatever the options. */
  lemma FirstKeyReportedFirst(schema: ObjectSchema, body: Body, options: Options)
    requires schema.keys != [] && FieldErrors(schema.keys[0], Lookup(body, schema.keys[0].key)) != []
    ensures var r := Validate(schema, body, options);
      r.Rejected? && r.details[0] == FieldErrors(schema.keys[0], Lookup(body, schema.keys[0].key))[0]
  {
  }

  /** Validation never changes a value the body supplied. */
  lemma AcceptedKeepsSupplied(schema: ObjectSchema, body: Body, options: Options)
    requires Validate(schema, body, options).Accepted?
    ensures var value := Validate(schema, body, options).value;
      forall k :: k in Fields(body) ==> k in value && value[k] == Fields(body)[k]
  {
  }

  /** A rule list that gives `key` no default adds no `key`. */
  lemma {:induction false} NoDefaultAdded(rules: seq<StringRule>, present: map<string, Value>, key: string)
    requires forall i :: 0 <= i < |rules| && rules[i].key == key ==> rules[i].defaultValue.None?
    ensures key !in DefaultsOf(rules, present)
    decreases |rules|
  {
    if rules != [] {
      NoDefaultAdded(rules[1..], present, key);
    }
  }

  /** A key without a default is in the value exactly when the body supplies it, and as supplied. */
  lemma ValueLookup(schema: ObjectSchema, body: Body, key: string)
    requires forall i :: 0 <= i < |schema.keys| && schema.keys[i].key == key ==> schema.keys[i].defaultValue.None?
    ensures var value := ValueOf(schema, body);
      Lookup(body, key) == if key in value then Some(value[key]) else None
  {
    NoDefaultAdded(schema.keys, Fields(body), key);
  }

  /** A key the body leaves out takes its rule's default, when no earlier rule declares that key. */
  lemma {:induction false} DefaultApplied(rules: seq<StringRule>, present: map<string, Value>, i: nat)
    requires i < |rules| && rules[i].key !in present && rules[i].defaultValue.Some?
    requires forall j :: 0 <= j < i ==> rules[j].key != rules[i].key
    ensures rules[i].key in DefaultsOf(rules, present)
    ensures DefaultsOf(rules, present)[rules[i].key] == Text(rules[i].defaultValue.value)
    decreases i
  {
    if i > 0 {
      assert rules[1..][i - 1] == rules[i];
      DefaultApplied(rules[1..], present, i - 1);
    }
  }

  /** A key with a default is always in the value: as the body supplies it, or else the default. */
  lemma ValueDefault(schema: ObjectSchema, body: Body, i: nat)
    requires i < |schema.keys| && schema.keys[i].defaultValue.Some?
    requires forall j :: 0 <= j < i ==> schema.keys[j].key != schema.keys[i].key
    ensures var key := schema.keys[i].key;
      key in ValueOf(schema, body)
      && ValueOf(schema, body)[key] == Lookup(body, key).GetOr(Text(schema.keys[i].defaultValue.value))
  {
    if schema.keys[i].key !in Fields(body) {
      DefaultApplied(schema.keys, Fields(body), i);
    }
  }

  /**
   * When some declared key is required and the schema asks for at most one key,
   * the object rule can never be the one reported: a body that passes its key
   * checks holds the required key.
   */
  lemma ObjectMinNeverReported(schema: ObjectSchema, body: Body, options: Options, i: nat)
    requires i < |schema.keys| && schema.keys[i].required && schema.minKeys <= 1
    ensures forall d :: d in Errors(schema, body, options.allowUnknown) ==> d.rule != ObjectMin
  {
    var found := KeyErrors(schema.keys, body)
      + (if options.allowUnknown then [] else UnknownErrors(body, Declared(schema.keys)));
    KeyErrorsRules(schema.keys, body);
    UnknownErrorsRules(body, Declared(schema.keys));
    if found == [] {
      KeyErrorsNone(schema.keys, body);
      var key := schema.keys[i].key;
      assert Lookup(body, key).Some?;
      var value := ValueOf(schema, body);
      assert key in value;
      assert {key} <= value.Keys;
      assert |value| >= 1;
    }
  }

  lemma UnknownErrorsRules(body: Body, declared: set<string>)
    ensures forall d :: d in UnknownErrors(body, declared) ==> d.rule == ObjectUnknown
  {
    UnknownDetailsKeys(UnknownKeys(body, declared));
  }

  /**
   * A required string rule with bounds lo..hi that does not allow '' passes
   * exactly the strings whose length lies in lo..hi.
   */
  lemma BoundedRequiredRule(rule: StringRule, v: Option<Value>)
    requires rule.required && !rule.allowEmpty
    requires rule.minLength.Some? && rule.maxLength.Some? && 1 <= rule.minLength.value
    ensures FieldErrors(rule, v) == [] <==>
      v.Some? && v.value.Text? && rule.minLength.value <= Utf16Length(v.value.s) <= rule.maxLength.value
  {
  }
}
