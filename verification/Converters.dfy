/**
 The converters as the program runs them: filling a record field by field, appending to
 lists, and going through maps in no fixed order. Each one is proved to compute the
 translation it stands for.
 */
module Converters {
  import opened Crds
  import opened Schemas
  import opened Translations

  // ---------------------------------------------------- JSONSchemaProps to OpenAPI

  method ConvertJSONSchemaProps(p: Props) returns (out: Schema)
    ensures out == Direct(p)
    decreases p, 2
  {
    out := ConvertLeaves(p);
    var allOf, oneOf, anyOf, negated := ConvertJunctors(p);
    var properties := ConvertProperties(p);
    var patternProperties := ConvertPatternProperties(p);
    var definitions := ConvertDefinitions(p);
    var additionalProperties := ConvertOrBool(p.additionalProperties);
    var additionalItems := ConvertOrBool(p.additionalItems);
    var items := ConvertOrArray(p.items);
    var dependencies := ConvertDependencies(p);
    out := out.(
      allOf := allOf, oneOf := oneOf, anyOf := anyOf, negated := negated,
      properties := properties, additionalProperties := additionalProperties, items := items,
      patternProperties := patternProperties, dependencies := dependencies, additionalItems := additionalItems,
      definitions := definitions);
  }

  predicate IsDirectMap(ps: map<string, Props>, out: map<string, Schema>) {
    out.Keys == ps.Keys && forall k :: k in ps ==> out[k] == Direct(ps[k])
  }

  method ConvertProperties(p: Props) returns (out: map<string, Schema>)
    ensures out == Direct(p).properties
    decreases p, 1
  {
    out := ConvertMap(p, p.properties);
  }

  method ConvertPatternProperties(p: Props) returns (out: map<string, Schema>)
    ensures out == Direct(p).patternProperties
    decreases p, 1
  {
    out := ConvertMap(p, p.patternProperties);
  }

  method ConvertDefinitions(p: Props) returns (out: map<string, Schema>)
    ensures out == Direct(p).definitions
    decreases p, 1
  {
    out := ConvertMap(p, p.definitions);
  }

  method ConvertJunctors(p: Props) returns (allOf: seq<Schema>, oneOf: seq<Schema>, anyOf: seq<Schema>, negated: Option<Schema>)
    ensures allOf == DirectSeq(p.allOf) && oneOf == DirectSeq(p.oneOf) && anyOf == DirectSeq(p.anyOf) && negated == DirectOption(p.negated)
    decreases p, 1
  {
    allOf := ConvertSlice(p.allOf);
    oneOf := ConvertSlice(p.oneOf);
    anyOf := ConvertSlice(p.anyOf);
    negated := ConvertOption(p.negated);
  }

  /** The fields that hold no schema. */
  method ConvertLeaves(p: Props) returns (out: Schema)
    ensures out == DirectNode(p)
  {
    out := EMPTY_SCHEMA.(id := p.id, schemaURL := p.schemaURL, description := p.description);
    if p.typ != "" {
      out := out.(types := [p.typ]);
    }
    if p.xIntOrString {
      out := out.(types := ["integer", "string"]);
    }
    out := out.(nullable := p.nullable, title := p.title, bounds := p.bounds, required := p.required, enum := p.enum);
    if p.default.Some? {
      out := out.(default := if p.default.value.JNull? then None else p.default);
    }
    if p.ref.Some? {
      out := out.(ref := p.ref.value);
    }
    var vendor := ConvertExtensions(p);
    out := out.(vendor := vendor);
  }

  method ConvertExtensions(p: Props) returns (out: Vendor)
    ensures out == DirectVendor(p)
  {
    out := NO_VENDOR;
    if p.xIntOrString {
      out := out.(intOrString := true);
    }
    if p.xPreserveUnknownFields.Some? {
      out := out.(preserveUnknownFields := p.xPreserveUnknownFields);
    }
    if p.xEmbeddedResource {
      out := out.(embeddedResource := true);
    }
    if |p.xListMapKeys| != 0 {
      out := out.(listMapKeys := p.xListMapKeys);
    }
    if p.xListType.Some? {
      out := out.(listType := p.xListType);
    }
    if p.xMapType.Some? {
      out := out.(mapType := p.xMapType);
    }
    if |p.xValidations| != 0 {
      out := out.(validations := p.xValidations);
    }
  }

  method ConvertSlice(ps: seq<Props>) returns (out: seq<Schema>)
    ensures out == DirectSeq(ps)
    decreases ps
  {
    out := [];
    for i := 0 to |ps|
      invariant |out| == i
      invariant forall j :: 0 <= j < i ==> out[j] == Direct(ps[j])
    {
      var schema := ConvertJSONSchemaProps(ps[i]);
      out := out + [schema];
    }
  }

  method ConvertOption(p: Option<Props>) returns (out: Option<Schema>)
    ensures out == DirectOption(p)
    decreases p
  {
    out := None;
    if p.Some? {
      var schema := ConvertJSONSchemaProps(p.value);
      out := Some(schema);
    }
  }

  method ConvertMap(ghost parent: Props, ps: map<string, Props>) returns (out: map<string, Schema>)
    requires forall k :: k in ps ==> ps[k] < parent
    ensures IsDirectMap(ps, out)
    decreases parent, 0
  {
    out := map[];
    var todo := ps.Keys;
    while todo != {}
      invariant todo <= ps.Keys && out.Keys == ps.Keys - todo
      invariant forall k :: k in out ==> out[k] == Direct(ps[k])
      decreases |todo|
    {
      var k :| k in todo;
      var schema := ConvertJSONSchemaProps(ps[k]);
      out := out[k := schema];
      todo := todo - {k};
    }
  }

  method ConvertOrBool(p: Option<PropsOrBool>) returns (out: Option<SchemaOrBool>)
    ensures out == DirectBool(p)
    decreases p
  {
    out := None;
    if p.Some? {
      var schema := ConvertOption(p.value.schema);
      out := Some(SchemaOrBool(p.value.allows, schema));
    }
  }

  method ConvertOrArray(p: Option<PropsOrArray>) returns (out: Option<SchemaOrArray>)
    ensures out == DirectArray(p)
    decreases p
  {
    out := None;
    if p.Some? {
      var schema := ConvertOption(p.value.schema);
      var schemas := ConvertSlice(p.value.schemas);
      out := Some(SchemaOrArray(schema, schemas));
    }
  }

  method ConvertOrStrings(p: PropsOrStrings) returns (out: SchemaOrStrings)
    ensures out == DirectStrings(p)
    decreases p
  {
    var schema := ConvertOption(p.schema);
    out := SchemaOrStrings(schema, p.property);
  }

  method ConvertDependencies(p: Props) returns (out: map<string, SchemaOrStrings>)
    ensures out == Direct(p).dependencies
    decreases p, 0
  {
    out := map[];
    var todo := p.dependencies.Keys;
    while todo != {}
      invariant todo <= p.dependencies.Keys && out.Keys == p.dependencies.Keys - todo
      invariant forall k :: k in out ==> out[k] == DirectStrings(p.dependencies[k])
      decreases |todo|
    {
      var k :| k in todo;
      var newVal := ConvertOrStrings(p.dependencies[k]);
      out := out[k := newVal];
      todo := todo - {k};
    }
  }
}
