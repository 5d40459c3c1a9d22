/**
 The two ways from JSONSchemaProps to an OpenAPI schema, as functions: the direct one, and
 the one through the structural form and its unfolding.

 Parsing of a `$ref` never fails here, and no post-processing function is given.
 */
module Translations {
  import opened Crds
  import opened Schemas

  // ----------------------------------------------------------- the direct way

  function DirectVendor(p: Props): Vendor {
    Vendor(p.xIntOrString, p.xPreserveUnknownFields, p.xEmbeddedResource, p.xListMapKeys, p.xListType, p.xMapType, p.xValidations)
  }

  /** A default that is null is none: both forms keep the value itself, and a null value is absent. */
  function GivenDefault(default: Option<Json>): Option<Json> {
    if default == Some(JNull) then None else default
  }

  function TypesOf(typ: string): seq<string> {
    if typ == "" then [] else [typ]
  }

  /** Every node field that is copied or derived without recursion. */
  function DirectNode(p: Props): Schema {
    EMPTY_SCHEMA.(
      id := p.id, schemaURL := p.schemaURL, ref := p.ref.GetOr(""),
      description := p.description, title := p.title, default := GivenDefault(p.default),
      types := if p.xIntOrString then ["integer", "string"] else TypesOf(p.typ), nullable := p.nullable,
      bounds := p.bounds, required := p.required, enum := p.enum,
      vendor := DirectVendor(p))
  }

  /** The junctors, put into a node. */
  function WithDirectJunctors(p: Props, s: Schema): Schema
    decreases p, 0
  {
    s.(allOf := DirectSeq(p.allOf), oneOf := DirectSeq(p.oneOf), anyOf := DirectSeq(p.anyOf), negated := DirectOption(p.negated))
  }

  function Direct(p: Props): Schema
    decreases p, 1
  {
    WithDirectJunctors(p, DirectNode(p)).(
      properties := map k | k in p.properties :: Direct(p.properties[k]),
      additionalProperties := DirectBool(p.additionalProperties),
      items := DirectArray(p.items),
      patternProperties := map k | k in p.patternProperties :: Direct(p.patternProperties[k]),
      dependencies := map k | k in p.dependencies :: DirectStrings(p.dependencies[k]),
      additionalItems := DirectBool(p.additionalItems),
      definitions := map k | k in p.definitions :: Direct(p.definitions[k]))
  }

  function DirectSeq(ps: seq<Props>): (r: seq<Schema>)
    ensures |r| == |ps|
    ensures forall i :: 0 <= i < |ps| ==> r[i] == Direct(ps[i])
    decreases ps
  {
    seq(|ps|, i requires 0 <= i < |ps| => Direct(ps[i]))
  }

  function DirectOption(p: Option<Props>): Option<Schema>
    decreases p
  {
    if p.Some? then Some(Direct(p.value)) else None
  }

  function DirectBool(p: Option<PropsOrBool>): Option<SchemaOrBool>
    decreases p
  {
    if p.Some? then Some(SchemaOrBool(p.value.allows, DirectOption(p.value.schema))) else None
  }

  function DirectArray(p: Option<PropsOrArray>): Option<SchemaOrArray>
    decreases p
  {
    if p.Some? then Some(SchemaOrArray(DirectOption(p.value.schema), DirectSeq(p.value.schemas))) else None
  }

  function DirectStrings(p: PropsOrStrings): SchemaOrStrings
    decreases p
  {
    SchemaOrStrings(DirectOption(p.schema), p.property)
  }

  // ------------------------------------------------------- to structural form

  /** The fields that the structural form has no place for are not set. */
  predicate FieldsSupported(p: Props) {
    && p.id == "" && p.schemaURL == "" && (p.ref.Some? ==> p.ref.value == "")
    && p.patternProperties == map[] && p.dependencies == map[] && p.additionalItems.None? && p.definitions == map[]
  }

  predicate NodeSupported(p: Props) {
    && FieldsSupported(p)
    && p.xPreserveUnknownFields != Some(false)
    && (p.items.Some? ==> p.items.value.schemas == [])
  }

  /** Every node is supported: the conversion to the structural form succeeds. */
  predicate Convertible(p: Props)
    decreases p
  {
    && NodeSupported(p)
    && (forall i :: 0 <= i < |p.allOf| ==> Convertible(p.allOf[i]))
    && (forall i :: 0 <= i < |p.oneOf| ==> Convertible(p.oneOf[i]))
    && (forall i :: 0 <= i < |p.anyOf| ==> Convertible(p.anyOf[i]))
    && (p.negated.Some? ==> Convertible(p.negated.value))
    && (forall k :: k in p.properties ==> Convertible(p.properties[k]))
    && (p.items.Some? && p.items.value.schema.Some? ==> Convertible(p.items.value.schema.value))
    && (p.additionalProperties.Some? && p.additionalProperties.value.schema.Some? ==> Convertible(p.additionalProperties.value.schema.value))
  }

  function GenericOf(p: Props): Generic {
    Generic(p.description, p.typ, p.title, GivenDefault(p.default), p.nullable)
  }

  function ExtensionsOf(p: Props): Extensions {
    Extensions(p.xPreserveUnknownFields == Some(true), p.xEmbeddedResource, p.xIntOrString, p.xListMapKeys, p.xListType, p.xMapType)
  }

  const EMPTY_NESTED := Nested(NO_VALIDATION, [], None, map[], None, NO_GENERIC, NO_EXTENSIONS)

  function NestedOf(p: Props): Nested
    decreases p, 1
  {
    Nested(
      ValueValidation(p.bounds, p.enum, p.required, NestedSeq(p.allOf), NestedSeq(p.oneOf), NestedSeq(p.anyOf), NestedOption(p.negated)),
      p.xValidations,
      if p.items.Some? then NestedOption(p.items.value.schema) else None,
      map k | k in p.properties :: NestedOf(p.properties[k]),
      if p.additionalProperties.None? then None
      else if p.additionalProperties.value.schema.Some? then NestedOption(p.additionalProperties.value.schema)
      else if p.additionalProperties.value.allows then Some(EMPTY_NESTED) else None,
      GenericOf(p), ExtensionsOf(p))
  }

  function NestedSeq(ps: seq<Props>): (r: seq<Nested>)
    ensures |r| == |ps|
    ensures forall i :: 0 <= i < |ps| ==> r[i] == NestedOf(ps[i])
    decreases ps
  {
    seq(|ps|, i requires 0 <= i < |ps| => NestedOf(ps[i]))
  }

  function NestedOption(p: Option<Props>): Option<Nested>
    decreases p
  {
    if p.Some? then Some(NestedOf(p.value)) else None
  }

  /** The value validation of one node; a nested and a structural node get the same. */
  function ValidationOf(p: Props): ValueValidation {
    ValueValidation(p.bounds, p.enum, p.required, NestedSeq(p.allOf), NestedSeq(p.oneOf), NestedSeq(p.anyOf), NestedOption(p.negated))
  }

  function StructuralOf(p: Props): Structural
    decreases p
  {
    Structural(
      if p.items.Some? && p.items.value.schema.Some? then Some(StructuralOf(p.items.value.schema.value)) else None,
      map k | k in p.properties :: StructuralOf(p.properties[k]),
      if p.additionalProperties.None? then None
      else if p.additionalProperties.value.schema.Some?
      then Some(StructuralOrBool(Some(StructuralOf(p.additionalProperties.value.schema.value)), true))
      else Some(StructuralOrBool(None, p.additionalProperties.value.allows)),
      GenericOf(p), ExtensionsOf(p), p.xValidations, Some(ValidationOf(p)))
  }

  /** None stands for the error return. */
  function NewStructural(p: Props): Option<Structural> {
    if Convertible(p) then Some(StructuralOf(p)) else None
  }

  // ------------------------------------------------------------------ unfold

  predicate IsAnyOfPattern(vv: ValueValidation) {
    vv.anyOf == INT_OR_STRING_ANY_OF
  }

  predicate IsAllOfPattern(vv: ValueValidation) {
    |vv.allOf| >= 1 && vv.allOf[0].vv.anyOf == INT_OR_STRING_ANY_OF
  }

  /** The nested schema that holds nothing but the pattern. */
  const PATTERN_CLAUSE := EMPTY_NESTED.(vv := NO_VALIDATION.(anyOf := INT_OR_STRING_ANY_OF))

  /** What Unfold's callback does to the value validation of an int-or-string node. */
  function WithPattern(vv: ValueValidation): ValueValidation {
    if IsAnyOfPattern(vv) || IsAllOfPattern(vv) then vv
    else if vv.anyOf == [] then vv.(anyOf := INT_OR_STRING_ANY_OF)
    else vv.(allOf := [PATTERN_CLAUSE] + vv.allOf)
  }

  function UnfoldedValidation(s: Structural): Option<ValueValidation> {
    if s.ext.intOrString then Some(WithPattern(s.vv.GetOr(NO_VALIDATION))) else s.vv
  }

  /** The callback on every structural node. */
  function Unfolded(s: Structural): Structural
    decreases s
  {
    Structural(
      if s.items.Some? then Some(Unfolded(s.items.value)) else None,
      map k | k in s.properties :: Unfolded(s.properties[k]),
      if s.additionalProperties.Some? && s.additionalProperties.value.structural.Some?
      then Some(StructuralOrBool(Some(Unfolded(s.additionalProperties.value.structural.value)), s.additionalProperties.value.allows))
      else s.additionalProperties,
      s.generic, s.ext, s.rules, UnfoldedValidation(s))
  }

  // ------------------------------------------------------------ to OpenAPI form

  function VendorOf(ext: Extensions, rules: seq<string>): Vendor {
    Vendor(ext.intOrString, if ext.preserveUnknownFields then Some(true) else None, ext.embeddedResource,
           ext.listMapKeys, ext.listType, ext.mapType, rules)
  }

  /** Both kinds of node set the generic fields, the extensions and the value validation. */
  function WithGeneric(sc: Schema, g: Generic): Schema {
    sc.(types := TypesOf(g.typ), nullable := g.nullable, description := g.description, title := g.title, default := g.default)
  }

  /** The value validation of a node, with the junctors already translated. */
  function WithValidation(sc: Schema, vv: ValueValidation,
                          allOf: seq<Schema>, oneOf: seq<Schema>, anyOf: seq<Schema>, negated: Option<Schema>): Schema {
    sc.(bounds := vv.bounds, enum := vv.enum, required := vv.required,
        allOf := allOf, oneOf := oneOf, anyOf := anyOf, negated := negated)
  }

  /** A nested additionalProperties does not make it into the OpenAPI form. */
  function NestedToKube(n: Nested): Schema
    decreases n, 1
  {
    var sc := WithGeneric(EMPTY_SCHEMA, n.generic).(
      items := if n.items.Some? then Some(SchemaOrArray(KubeOption(n.items), [])) else None,
      properties := map k | k in n.properties :: NestedToKube(n.properties[k]),
      vendor := VendorOf(n.ext, n.rules));
    WithValidation(sc, n.vv, KubeSeq(n.vv.allOf), KubeSeq(n.vv.oneOf), KubeSeq(n.vv.anyOf), KubeOption(n.vv.negated))
  }

  function KubeSeq(ns: seq<Nested>): (r: seq<Schema>)
    ensures |r| == |ns|
    ensures forall i :: 0 <= i < |ns| ==> r[i] == NestedToKube(ns[i])
    decreases ns
  {
    seq(|ns|, i requires 0 <= i < |ns| => NestedToKube(ns[i]))
  }

  function KubeOption(n: Option<Nested>): Option<Schema>
    decreases n
  {
    if n.Some? then Some(NestedToKube(n.value)) else None
  }

  function ToKube(s: Structural): Schema
    decreases s
  {
    var sc := WithGeneric(EMPTY_SCHEMA, s.generic).(
      items := if s.items.Some? then Some(SchemaOrArray(Some(ToKube(s.items.value)), [])) else None,
      properties := map k | k in s.properties :: ToKube(s.properties[k]),
      additionalProperties :=
        if s.additionalProperties.None? then None
        else Some(SchemaOrBool(s.additionalProperties.value.allows,
                               if s.additionalProperties.value.structural.Some?
                               then Some(ToKube(s.additionalProperties.value.structural.value)) else None)),
      vendor := VendorOf(s.ext, s.rules));
    if s.vv.None? then sc
    else
      var vv := s.vv.value;
      WithValidation(sc, vv, KubeSeq(vv.allOf), KubeSeq(vv.oneOf), KubeSeq(vv.anyOf), KubeOption(vv.negated))
  }
}
