/** The request schemas of wallpost/app/schemas.py and the part of JSON Schema
    (draft 4) validation they exercise. */
module Schemas {
  import opened Wrappers
  import opened Search
  import opened Json
  import opened PyRepr

  /** Every schema of the service has one shape: `type: object`, each listed
      property typed `string`, and the same list `required`, in this order. */
  datatype Schema = ObjectOfStrings(fields: seq<string>)

  const LoginSchema := ObjectOfStrings(["username", "password"])
  const RefreshTokenSchema := ObjectOfStrings(["token"])
  const StickerCreateSchema := ObjectOfStrings(["title", "description"])

  /** The first validation error, which is what `jsonschema.validate` raises. */
  datatype SchemaError =
    | NotOfType(instance: Value, expected: string)
    | Required(field: string)

  /** `ValidationError.message`: `jsonschema` 2.x writes the offending
      instance, the expected type and the missing property with `%r`. */
  function ErrorMessage(e: SchemaError): string
  {
    match e
    case NotOfType(instance, expected) => ValueRepr(instance) + " is not of type " + StrRepr(expected)
    case Required(field) => StrRepr(field) + " is a required property"
  }

  /** For a field name of plain characters, such as every field the
      service's schemas list, the message is `'<field>' is a required property`. */
  lemma RequiredMessageText(field: string)
    requires forall i :: 0 <= i < |field| ==> IsPlain(field[i])
    ensures ErrorMessage(Required(field)) == "'" + field + "' is a required property"
  {
    PlainStrRepr(field);
    QuoteBeforeTail();
    var tail := " is a required property";
    calc {
      ErrorMessage(Required(field));
      ("'" + field + "'") + tail;
      "'" + field + ("'" + tail);
    }
  }

  lemma QuoteBeforeTail()
    ensures "'" + " is a required property" == "' is a required property"
  {
  }

  /** The missing-field message names the field: its quoted prefix reads back as it. */
  lemma RequiredMessageNamesField(field: string)
    ensures var m := ErrorMessage(Required(field)); var n := |StrRepr(field)|;
      && n <= |m| && m[n..] == " is a required property"
      && Unescape(m[1..n - 1]) == field
  {
    var m := ErrorMessage(Required(field));
    var r := StrRepr(field);
    assert m[..|r|] == r;
    assert m[1..|r| - 1] == r[1..|r| - 1];
    StrReprRoundTrip(field);
  }

  /** The instance satisfies the schema: an object holding every listed field as a string. */
  predicate Conforms(schema: Schema, v: Value)
  {
    v.JObject? && forall f :: f in schema.fields ==> f in v.fields && v.fields[f].JString?
  }

  function PresentNotString(fields: map<string, Value>): string -> bool
  {
    f => f in fields && !fields[f].JString?
  }

  function Absent(fields: map<string, Value>): string -> bool
  {
    f => f !in fields
  }

  /** `jsonschema.validate(v, schema)` for these schemas: the keywords are
      checked in the order the schema lists them (`type`, `properties`,
      `required`), so a non-object fails on `type`, then a present field of
      the wrong type fails on `properties`, and only then does the first
      missing field fail on `required`. `None` means the instance is valid. */
  function Validate(schema: Schema, v: Value): (r: Option<SchemaError>)
    ensures r.None? <==> Conforms(schema, v)
    ensures !v.JObject? ==> r == Some(NotOfType(v, "object"))
    ensures r.Some? && r.value.Required? ==>
      exists i :: 0 <= i < |schema.fields| && r.value.field == schema.fields[i]
        && schema.fields[i] !in v.fields
        && forall j :: 0 <= j < i ==> schema.fields[j] in v.fields
    ensures v.JObject? && (forall f :: f in v.fields ==> v.fields[f].JString?) && !Conforms(schema, v) ==>
      r.Some? && r.value.Required?
  {
    if !v.JObject? then Some(NotOfType(v, "object"))
    else match FirstIndex(schema.fields, PresentNotString(v.fields))
      case Some(i) => Some(NotOfType(v.fields[schema.fields[i]], "string"))
      case None =>
        match FirstIndex(schema.fields, Absent(v.fields))
        case Some(i) => Some(Required(schema.fields[i]))
        case None => None
  }

  /** A login body is valid exactly when it is an object with string `username` and `password`. */
  lemma LoginSchemaValid(v: Value)
    ensures Validate(LoginSchema, v).None? <==>
      v.JObject? && "username" in v.fields && v.fields["username"].JString?
      && "password" in v.fields && v.fields["password"].JString?
  {
  }

  /** A refresh body is valid exactly when it is an object with a string `token`. */
  lemma RefreshTokenSchemaValid(v: Value)
    ensures Validate(RefreshTokenSchema, v).None? <==>
      v.JObject? && "token" in v.fields && v.fields["token"].JString?
  {
  }

  /** A sticker body is valid exactly when it is an object with string `title` and `description`. */
  lemma StickerCreateSchemaValid(v: Value)
    ensures Validate(StickerCreateSchema, v).None? <==>
      v.JObject? && "title" in v.fields && v.fields["title"].JString?
      && "description" in v.fields && v.fields["description"].JString?
  {
  }

  /** With every present field a string, the error names the first missing
      field in declared order: `username` before `password`, `title` before
      `description`. */
  lemma FirstMissingFieldReported(schema: Schema, m: map<string, Value>, i: nat)
    requires i < |schema.fields|
    requires forall f :: f in m ==> m[f].JString?
    requires schema.fields[i] !in m
    requires forall j :: 0 <= j < i ==> schema.fields[j] in m
    ensures Validate(schema, JObject(m)) == Some(Required(schema.fields[i]))
  {
  }

  /** A present field of the wrong type is reported before any missing
      field, provided every earlier listed field is absent or a string: the
      `properties` keyword comes before `required` in the schema. */
  lemma WrongTypeReportedFirst(schema: Schema, m: map<string, Value>, i: nat)
    requires i < |schema.fields|
    requires schema.fields[i] in m && !m[schema.fields[i]].JString?
    requires forall j :: 0 <= j < i ==> schema.fields[j] !in m || m[schema.fields[j]].JString?
    ensures Validate(schema, JObject(m)) == Some(NotOfType(m[schema.fields[i]], "string"))
  {
  }
}
