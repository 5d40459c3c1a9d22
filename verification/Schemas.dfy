/**
 The three schema forms and JSON values: JSONSchemaProps as users write it, the
 structural form, and the OpenAPI form that values are validated against.

 A nil slice or map and an empty one are the same here. `example` and `externalDocs`
 are left out; neither takes part in validation.
 */
module Schemas {
  import opened Crds

  datatype Json =
    | JNull
    | JBool(b: bool)
    | JInt(i: int)
    | JReal(r: real)
    | JString(s: string)
    | JArray(items: seq<Json>)
    | JObject(fields: map<string, Json>)

  /** The checks that look at one value only. */
  datatype Bounds = Bounds(
    format: string,
    maximum: Option<real>, exclusiveMaximum: bool, minimum: Option<real>, exclusiveMinimum: bool,
    maxLength: Option<int>, minLength: Option<int>, pattern: string,
    maxItems: Option<int>, minItems: Option<int>, uniqueItems: bool, multipleOf: Option<real>,
    maxProperties: Option<int>, minProperties: Option<int>)

  const NO_BOUNDS := Bounds("", None, false, None, false, None, None, "", None, None, false, None, None, None)

  // ------------------------------------------------------- JSONSchemaProps

  datatype Props = Props(
    id: string, schemaURL: string, ref: Option<string>,
    description: string, typ: string, nullable: bool, title: string, default: Option<Json>,
    bounds: Bounds, required: seq<string>, enum: seq<Json>,
    allOf: seq<Props>, oneOf: seq<Props>, anyOf: seq<Props>, negated: Option<Props>,
    properties: map<string, Props>, additionalProperties: Option<PropsOrBool>, items: Option<PropsOrArray>,
    patternProperties: map<string, Props>, dependencies: map<string, PropsOrStrings>,
    additionalItems: Option<PropsOrBool>, definitions: map<string, Props>,
    xPreserveUnknownFields: Option<bool>, xEmbeddedResource: bool, xIntOrString: bool,
    xListMapKeys: seq<string>, xListType: Option<string>, xMapType: Option<string>, xValidations: seq<string>)

  datatype PropsOrBool = PropsOrBool(allows: bool, schema: Option<Props>)

  datatype PropsOrArray = PropsOrArray(schema: Option<Props>, schemas: seq<Props>)

  datatype PropsOrStrings = PropsOrStrings(schema: Option<Props>, property: seq<string>)

  const EMPTY_PROPS := Props(
    "", "", None, "", "", false, "", None, NO_BOUNDS, [], [], [], [], [], None,
    map[], None, None, map[], map[], None, map[], None, false, false, [], None, None, [])

  // ---------------------------------------------------------- structural form

  datatype Generic = Generic(description: string, typ: string, title: string, default: Option<Json>, nullable: bool)

  const NO_GENERIC := Generic("", "", "", None, false)

  datatype Extensions = Extensions(
    preserveUnknownFields: bool, embeddedResource: bool, intOrString: bool,
    listMapKeys: seq<string>, listType: Option<string>, mapType: Option<string>)

  const NO_EXTENSIONS := Extensions(false, false, false, [], None, None)

  datatype ValueValidation = ValueValidation(
    bounds: Bounds, enum: seq<Json>, required: seq<string>,
    allOf: seq<Nested>, oneOf: seq<Nested>, anyOf: seq<Nested>, negated: Option<Nested>)

  const NO_VALIDATION := ValueValidation(NO_BOUNDS, [], [], [], [], [], None)

  /** A schema under a junctor; `generic` and `ext` are the forbidden parts. */
  datatype Nested = Nested(
    vv: ValueValidation, rules: seq<string>,
    items: Option<Nested>, properties: map<string, Nested>, additionalProperties: Option<Nested>,
    generic: Generic, ext: Extensions)

  datatype StructuralOrBool = StructuralOrBool(structural: Option<Structural>, allows: bool)

  datatype Structural = Structural(
    items: Option<Structural>, properties: map<string, Structural>, additionalProperties: Option<StructuralOrBool>,
    generic: Generic, ext: Extensions, rules: seq<string>, vv: Option<ValueValidation>)

  /** The nested schema that only says what the type is. */
  function OnlyType(typ: string): Nested {
    Nested(NO_VALIDATION, [], None, map[], None, NO_GENERIC.(typ := typ), NO_EXTENSIONS)
  }

  const INT_OR_STRING_ANY_OF := [OnlyType("integer"), OnlyType("string")]

  // ------------------------------------------------------------- OpenAPI form

  /** The vendor extensions, one field for each key that a translation adds. */
  datatype Vendor = Vendor(
    intOrString: bool, preserveUnknownFields: Option<bool>, embeddedResource: bool,
    listMapKeys: seq<string>, listType: Option<string>, mapType: Option<string>, validations: seq<string>)

  const NO_VENDOR := Vendor(false, None, false, [], None, None, [])

  datatype Schema = Schema(
    id: string, schemaURL: string, ref: string, description: string, title: string, default: Option<Json>,
    types: seq<string>, nullable: bool,
    bounds: Bounds, required: seq<string>, enum: seq<Json>,
    allOf: seq<Schema>, oneOf: seq<Schema>, anyOf: seq<Schema>, negated: Option<Schema>,
    properties: map<string, Schema>, additionalProperties: Option<SchemaOrBool>, items: Option<SchemaOrArray>,
    patternProperties: map<string, Schema>, dependencies: map<string, SchemaOrStrings>,
    additionalItems: Option<SchemaOrBool>, definitions: map<string, Schema>,
    vendor: Vendor)

  datatype SchemaOrBool = SchemaOrBool(allows: bool, schema: Option<Schema>)

  datatype SchemaOrArray = SchemaOrArray(schema: Option<Schema>, schemas: seq<Schema>)

  datatype SchemaOrStrings = SchemaOrStrings(schema: Option<Schema>, property: seq<string>)

  const EMPTY_SCHEMA := Schema(
    "", "", "", "", "", None, [], false, NO_BOUNDS, [], [], [], [], [], None,
    map[], None, None, map[], map[], None, map[], NO_VENDOR)

  // --------------------------------------------------------------- validation

  /**
   What validation leaves to the library: the one-value checks, pattern matching for
   patternProperties, and references.
   */
  datatype Checker = Checker(
    bounded: (Bounds, Json) -> bool, matches: (string, string) -> bool, refers: (string, Json) -> bool)

  /** Section 5.5.2 of JSON Schema Validation Draft 4: an integer is a number too. */
  predicate HasType(t: string, v: Json) {
    match v
    case JNull => t == "null"
    case JBool(_) => t == "boolean"
    case JInt(_) => t == "integer" || t == "number"
    case JReal(_) => t == "number"
    case JString(_) => t == "string"
    case JArray(_) => t == "array"
    case JObject(_) => t == "object"
  }

  predicate TypesOk(types: seq<string>, nullable: bool, v: Json) {
    types == [] || (exists i :: 0 <= i < |types| && HasType(types[i], v)) || (v.JNull? && nullable)
  }

  predicate EnumOk(enum: seq<Json>, v: Json) {
    enum == [] || v in enum
  }

  predicate RequiredOk(required: seq<string>, v: Json) {
    v.JObject? ==> forall k :: k in required ==> k in v.fields
  }

  /** No property and no pattern of the schema speaks for this key. */
  predicate IsAdditional(c: Checker, properties: set<string>, patterns: set<string>, key: string) {
    key !in properties && forall p :: p in patterns ==> !c.matches(p, key)
  }

  /** Sections 5.3.1, 5.4.4 and 5.5.1 to 5.5.6 of JSON Schema Validation Draft 4. */
  ghost predicate Valid(c: Checker, sc: Schema, v: Json)
    decreases sc, 2
  {
    && TypesOk(sc.types, sc.nullable, v)
    && EnumOk(sc.enum, v)
    && c.bounded(sc.bounds, v)
    && RequiredOk(sc.required, v)
    && (sc.ref != "" ==> c.refers(sc.ref, v))
    && JunctorsOk(Verdicts(c, sc.allOf, v), Verdicts(c, sc.oneOf, v), Verdicts(c, sc.anyOf, v), Rejected(c, sc.negated, v))
    && (v.JArray? ==> ItemsOk(c, sc, v.items))
    && (v.JObject? ==> FieldsOk(c, sc, v.fields) && DependenciesOk(c, sc, v.fields))
  }

  /** How each schema of a list judges one value. */
  ghost function Verdicts(c: Checker, scs: seq<Schema>, v: Json): (r: seq<bool>)
    ensures |r| == |scs|
    ensures forall i :: 0 <= i < |scs| ==> r[i] == Valid(c, scs[i], v)
    decreases scs
  {
    seq(|scs|, i requires 0 <= i < |scs| => Valid(c, scs[i], v))
  }

  ghost predicate Rejected(c: Checker, sc: Option<Schema>, v: Json)
    decreases sc
  {
    sc.Some? ==> !Valid(c, sc.value, v)
  }

  /** allOf needs every verdict, a non-empty oneOf exactly one, a non-empty anyOf at least one. */
  predicate JunctorsOk(allOf: seq<bool>, oneOf: seq<bool>, anyOf: seq<bool>, rejected: bool) {
    && false !in allOf
    && (oneOf == [] || multiset(oneOf)[true] == 1)
    && (anyOf == [] || true in anyOf)
    && rejected
  }

  /** How one schema, when there is one, judges each value of a list. */
  ghost function EachVerdict(c: Checker, sc: Option<Schema>, vs: seq<Json>): (r: seq<bool>)
    ensures |r| == |vs|
    ensures forall i :: 0 <= i < |vs| ==> r[i] == (sc.Some? ==> Valid(c, sc.value, vs[i]))
    decreases sc
  {
    seq(|vs|, i requires 0 <= i < |vs| => sc.Some? ==> Valid(c, sc.value, vs[i]))
  }

  /** One schema for all items, or one for each place and additionalItems for the places after. */
  ghost predicate ItemsOk(c: Checker, sc: Schema, vs: seq<Json>)
    decreases sc, 1
  {
    if sc.items.None? then true
    else if sc.items.value.schema.Some? then false !in EachVerdict(c, sc.items.value.schema, vs)
    else
      var schemas := sc.items.value.schemas;
      TupleOk(c, schemas, vs) && (|vs| > |schemas| ==> RestOk(c, sc.additionalItems, vs[|schemas|..]))
  }

  ghost predicate TupleOk(c: Checker, schemas: seq<Schema>, vs: seq<Json>)
    decreases schemas
  {
    forall i :: 0 <= i < |vs| && i < |schemas| ==> Valid(c, schemas[i], vs[i])
  }

  ghost predicate RestOk(c: Checker, additional: Option<SchemaOrBool>, vs: seq<Json>)
    decreases additional
  {
    additional.Some? ==> additional.value.allows && false !in EachVerdict(c, additional.value.schema, vs)
  }

  /** How the property schemas judge the fields they name. */
  ghost function PropertyVerdicts(c: Checker, sc: Schema, fields: map<string, Json>): map<string, bool>
    decreases sc, 0
  {
    map k | k in fields && k in sc.properties :: Valid(c, sc.properties[k], fields[k])
  }

  ghost predicate PatternsOk(c: Checker, sc: Schema, fields: map<string, Json>)
    decreases sc, 0
  {
    forall k, p :: k in fields && p in sc.patternProperties && c.matches(p, k) ==> Valid(c, sc.patternProperties[p], fields[k])
  }

  function AdditionalFields(c: Checker, sc: Schema, fields: map<string, Json>): map<string, Json> {
    map k | k in fields && IsAdditional(c, sc.properties.Keys, sc.patternProperties.Keys, k) :: fields[k]
  }

  /** How additionalProperties judges the fields that are left to it. */
  ghost function AdditionalVerdicts(c: Checker, ap: Option<SchemaOrBool>, fields: map<string, Json>): map<string, bool>
    decreases ap
  {
    map k | k in fields :: ap.Some? ==> ap.value.allows && (ap.value.schema.Some? ==> Valid(c, ap.value.schema.value, fields[k]))
  }

  ghost predicate FieldsOk(c: Checker, sc: Schema, fields: map<string, Json>)
    decreases sc, 1
  {
    && false !in PropertyVerdicts(c, sc, fields).Values
    && PatternsOk(c, sc, fields)
    && false !in AdditionalVerdicts(c, sc.additionalProperties, AdditionalFields(c, sc, fields)).Values
  }

  ghost predicate DependenciesOk(c: Checker, sc: Schema, fields: map<string, Json>)
    decreases sc, 1
  {
    forall k :: k in fields && k in sc.dependencies ==> DependencyOk(c, sc.dependencies[k], fields)
  }

  ghost predicate DependencyOk(c: Checker, d: SchemaOrStrings, fields: map<string, Json>)
    decreases d
  {
    && (forall x :: x in d.property ==> x in fields)
    && (d.schema.Some? ==> Valid(c, d.schema.value, JObject(fields)))
  }

  /** No null anywhere in the value. */
  ghost predicate NoNulls(v: Json) {
    match v
    case JNull => false
    case JArray(items) => forall i :: 0 <= i < |items| ==> NoNulls(items[i])
    case JObject(fields) => forall k :: k in fields ==> NoNulls(fields[k])
    case _ => true
  }
}
