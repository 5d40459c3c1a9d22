/**
 Converting JSONSchemaProps to the structural form, and the structural form to the OpenAPI
 form, as loops that fill records. None is the error return; the first error ends the
 conversion.
 */
module StructuralConverters {
  import opened Crds
  import opened Schemas
  import opened Translations

  // ------------------------------------------------------------ to structural form

  predicate ListConvertible(ps: seq<Props>) {
    forall i :: 0 <= i < |ps| ==> Convertible(ps[i])
  }

  predicate MapConvertible(ps: map<string, Props>) {
    forall k :: k in ps ==> Convertible(ps[k])
  }

  predicate OptionConvertible(p: Option<Props>) {
    p.Some? ==> Convertible(p.value)
  }

  predicate JunctorsConvertible(p: Props) {
    ListConvertible(p.allOf) && ListConvertible(p.oneOf) && ListConvertible(p.anyOf) && OptionConvertible(p.negated)
  }

  method NewGenerics(p: Props) returns (g: Generic)
    ensures g == GenericOf(p)
  {
    g := Generic(p.description, p.typ, p.title, None, p.nullable);
    if p.default.Some? && !p.default.value.JNull? {
      g := g.(default := p.default);
    }
  }

  method NewExtensions(p: Props) returns (r: Option<Extensions>)
    ensures r == if p.xPreserveUnknownFields == Some(false) then None else Some(ExtensionsOf(p))
  {
    var ext := NO_EXTENSIONS.(embeddedResource := p.xEmbeddedResource, intOrString := p.xIntOrString,
                              listMapKeys := p.xListMapKeys, listType := p.xListType, mapType := p.xMapType);
    if p.xPreserveUnknownFields.Some? {
      if !p.xPreserveUnknownFields.value {
        return None;
      }
      ext := ext.(preserveUnknownFields := true);
    }
    return Some(ext);
  }

  method NewNestedSlice(ps: seq<Props>) returns (r: Option<seq<Nested>>)
    ensures r == if ListConvertible(ps) then Some(NestedSeq(ps)) else None
    decreases ps
  {
    var out: seq<Nested> := [];
    for i := 0 to |ps|
      invariant |out| == i
      invariant forall j :: 0 <= j < i ==> Convertible(ps[j]) && out[j] == NestedOf(ps[j])
    {
      var clause := NewNestedValueValidation(ps[i]);
      if clause.None? {
        return None;
      }
      out := out + [clause.value];
    }
    assert out == NestedSeq(ps);
    return Some(out);
  }

  /** A nil schema converts to nil, without an error. */
  method NewNestedOption(p: Option<Props>) returns (r: Option<Option<Nested>>)
    ensures r == if OptionConvertible(p) then Some(NestedOption(p)) else None
    decreases p
  {
    if p.None? {
      return Some(None);
    }
    var n := NewNestedValueValidation(p.value);
    return if n.Some? then Some(n) else None;
  }

  method NewValueValidation(p: Props) returns (r: Option<ValueValidation>)
    ensures r == if JunctorsConvertible(p) then Some(ValidationOf(p)) else None
    decreases p, 2
  {
    var negated := NewNestedOption(p.negated);
    if negated.None? {
      return None;
    }
    var allOf := NewNestedSlice(p.allOf);
    if allOf.None? {
      return None;
    }
    var anyOf := NewNestedSlice(p.anyOf);
    if anyOf.None? {
      return None;
    }
    var oneOf := NewNestedSlice(p.oneOf);
    if oneOf.None? {
      return None;
    }
    return Some(ValueValidation(p.bounds, p.enum, p.required, allOf.value, oneOf.value, anyOf.value, negated.value));
  }

  function NestedResult(p: Props): Option<Nested> {
    if Convertible(p) then Some(NestedOf(p)) else None
  }

  method NewNestedProperties(p: Props) returns (r: Option<map<string, Nested>>)
    ensures r.Some? <==> MapConvertible(p.properties)
    ensures r.Some? ==> r.value == NestedOf(p).properties
    decreases p, 1
  {
    ghost var results := map k | k in p.properties :: NestedResult(p.properties[k]);
    r := NewNestedMap(p, results);
    if r.Some? {
      AllNestedConverted(p, r.value);
    } else {
      ghost var k :| k in results && results[k].None?;
      assert !Convertible(p.properties[k]);
    }
  }

  lemma {:induction false} AllNestedConverted(p: Props, out: map<string, Nested>)
    requires out.Keys == p.properties.Keys && forall k :: k in p.properties ==> NestedResult(p.properties[k]) == Some(out[k])
    ensures MapConvertible(p.properties) && out == NestedOf(p).properties
  {
    forall k | k in p.properties
      ensures Convertible(p.properties[k]) && out[k] == NestedOf(p.properties[k])
    {
      assert NestedResult(p.properties[k]).Some?;
    }
  }

  /** The loop over the properties; `results` says what each of them converts to. */
  method NewNestedMap(p: Props, ghost results: map<string, Option<Nested>>) returns (r: Option<map<string, Nested>>)
    requires results == map k | k in p.properties :: NestedResult(p.properties[k])
    ensures r.None? ==> exists k :: k in results && results[k].None?
    ensures r.Some? ==> r.value.Keys == results.Keys && forall k :: k in results ==> results[k] == Some(r.value[k])
    decreases p, 0
  {
    var out: map<string, Nested> := map[];
    var todo := p.properties.Keys;
    while todo != {}
      invariant todo <= results.Keys && out.Keys == results.Keys - todo
      invariant forall k :: k in out ==> results[k] == Some(out[k])
      decreases |todo|
    {
      var k :| k in todo;
      var n := NewNestedValueValidation(p.properties[k]);
      if n.None? {
        assert results[k].None?;
        return None;
      }
      out := out[k := n.value];
      todo := todo - {k};
    }
    return Some(out);
  }

  /** The items schema; an array of schemas is an error. */
  method NewNestedItems(items: Option<PropsOrArray>) returns (r: Option<Option<Nested>>)
    ensures r == if items.None? then Some(None)
                 else if items.value.schemas == [] && OptionConvertible(items.value.schema) then Some(NestedOption(items.value.schema))
                 else None
    decreases items
  {
    if items.None? {
      return Some(None);
    }
    if |items.value.schemas| > 0 {
      return None;
    }
    r := NewNestedOption(items.value.schema);
  }

  method NewNestedAdditional(ap: Option<PropsOrBool>) returns (r: Option<Option<Nested>>)
    ensures r == if ap.None? then Some(None)
                 else if ap.value.schema.Some? then (if Convertible(ap.value.schema.value) then Some(NestedOption(ap.value.schema)) else None)
                 else Some(if ap.value.allows then Some(EMPTY_NESTED) else None)
    decreases ap
  {
    if ap.None? {
      return Some(None);
    }
    if ap.value.schema.Some? {
      r := NewNestedOption(ap.value.schema);
      return;
    }
    return Some(if ap.value.allows then Some(EMPTY_NESTED) else None);
  }

  lemma {:induction false} ConvertibleParts(p: Props)
    ensures Convertible(p) <==>
      NodeSupported(p) && JunctorsConvertible(p) && MapConvertible(p.properties)
      && (p.items.Some? ==> OptionConvertible(p.items.value.schema))
      && (p.additionalProperties.Some? ==> OptionConvertible(p.additionalProperties.value.schema))
  {
  }

  method NewNestedValueValidation(p: Props) returns (r: Option<Nested>)
    ensures r == if Convertible(p) then Some(NestedOf(p)) else None
    decreases p, 3
  {
    ConvertibleParts(p);
    if !FieldsSupported(p) {
      return None;
    }
    var vv := NewValueValidation(p);
    if vv.None? {
      return None;
    }
    var generic := NewGenerics(p);
    var ext := NewExtensions(p);
    if ext.None? {
      return None;
    }
    var items := NewNestedItems(p.items);
    if items.None? {
      return None;
    }
    var properties := NewNestedProperties(p);
    if properties.None? {
      return None;
    }
    var additional := NewNestedAdditional(p.additionalProperties);
    if additional.None? {
      return None;
    }
    return Some(Nested(vv.value, p.xValidations, items.value, properties.value, additional.value, generic, ext.value));
  }

  method NewStructuralOption(p: Option<Props>) returns (r: Option<Option<Structural>>)
    ensures r == if p.None? then Some(None) else if Convertible(p.value) then Some(Some(StructuralOf(p.value))) else None
    decreases p
  {
    if p.None? {
      return Some(None);
    }
    var s := ConvertToStructural(p.value);
    return if s.Some? then Some(s) else None;
  }

  method NewStructuralItems(items: Option<PropsOrArray>) returns (r: Option<Option<Structural>>)
    ensures r == if items.None? then Some(None)
                 else if items.value.schemas != [] then None
                 else if items.value.schema.None? then Some(None)
                 else if Convertible(items.value.schema.value) then Some(Some(StructuralOf(items.value.schema.value))) else None
    decreases items
  {
    if items.None? {
      return Some(None);
    }
    if |items.value.schemas| > 0 {
      return None;
    }
    r := NewStructuralOption(items.value.schema);
  }

  function StructuralResult(p: Props): Option<Structural> {
    if Convertible(p) then Some(StructuralOf(p)) else None
  }

  method NewStructuralProperties(p: Props) returns (r: Option<map<string, Structural>>)
    ensures r.Some? <==> MapConvertible(p.properties)
    ensures r.Some? ==> r.value == StructuralOf(p).properties
    decreases p, 1
  {
    ghost var results := map k | k in p.properties :: StructuralResult(p.properties[k]);
    r := NewStructuralMap(p, results);
    if r.Some? {
      AllStructuralConverted(p, r.value);
    } else {
      ghost var k :| k in results && results[k].None?;
      assert !Convertible(p.properties[k]);
    }
  }

  lemma {:induction false} AllStructuralConverted(p: Props, out: map<string, Structural>)
    requires out.Keys == p.properties.Keys && forall k :: k in p.properties ==> StructuralResult(p.properties[k]) == Some(out[k])
    ensures MapConvertible(p.properties) && out == StructuralOf(p).properties
  {
    forall k | k in p.properties
      ensures Convertible(p.properties[k]) && out[k] == StructuralOf(p.properties[k])
    {
      assert StructuralResult(p.properties[k]).Some?;
    }
  }

  /** The loop over the properties; `results` says what each of them converts to. */
  method NewStructuralMap(p: Props, ghost results: map<string, Option<Structural>>) returns (r: Option<map<string, Structural>>)
    requires results == map k | k in p.properties :: StructuralResult(p.properties[k])
    ensures r.None? ==> exists k :: k in results && results[k].None?
    ensures r.Some? ==> r.value.Keys == results.Keys && forall k :: k in results ==> results[k] == Some(r.value[k])
    decreases p, 0
  {
    var out: map<string, Structural> := map[];
    var todo := p.properties.Keys;
    while todo != {}
      invariant todo <= results.Keys && out.Keys == results.Keys - todo
      invariant forall k :: k in out ==> results[k] == Some(out[k])
      decreases |todo|
    {
      var k :| k in todo;
      var n := ConvertToStructural(p.properties[k]);
      if n.None? {
        assert results[k].None?;
        return None;
      }
      out := out[k := n.value];
      todo := todo - {k};
    }
    return Some(out);
  }

  method NewStructuralAdditional(ap: Option<PropsOrBool>) returns (r: Option<Option<StructuralOrBool>>)
    ensures r == if ap.None? then Some(None)
                 else if ap.value.schema.None? then Some(Some(StructuralOrBool(None, ap.value.allows)))
                 else if Convertible(ap.value.schema.value) then Some(Some(StructuralOrBool(Some(StructuralOf(ap.value.schema.value)), true)))
                 else None
    decreases ap
  {
    if ap.None? {
      return Some(None);
    }
    if ap.value.schema.Some? {
      var s := NewStructuralOption(ap.value.schema);
      return if s.Some? then Some(Some(StructuralOrBool(s.value, true))) else None;
    }
    return Some(Some(StructuralOrBool(None, ap.value.allows)));
  }

  /** Converts exactly the supported schemas, and those to their structural form. */
  method ConvertToStructural(p: Props) returns (r: Option<Structural>)
    ensures r == NewStructural(p)
    decreases p, 3
  {
    ConvertibleParts(p);
    if !FieldsSupported(p) {
      return None;
    }
    var vv := NewValueValidation(p);
    if vv.None? {
      return None;
    }
    var generic := NewGenerics(p);
    var ext := NewExtensions(p);
    if ext.None? {
      return None;
    }
    var items := NewStructuralItems(p.items);
    if items.None? {
      return None;
    }
    var properties := NewStructuralProperties(p);
    if properties.None? {
      return None;
    }
    var additional := NewStructuralAdditional(p.additionalProperties);
    if additional.None? {
      return None;
    }
    return Some(Structural(items.value, properties.value, additional.value, generic, ext.value, p.xValidations, vv));
  }

  // --------------------------------------------------------------- to OpenAPI form

  method AddGeneric(g: Generic, sc: Schema) returns (out: Schema)
    ensures out == WithGeneric(sc, g).(types := if g.typ != "" then [g.typ] else sc.types)
  {
    out := sc;
    if |g.typ| != 0 {
      out := out.(types := [g.typ]);
    }
    out := out.(nullable := g.nullable, description := g.description, title := g.title, default := g.default);
  }

  method AddExtensions(ext: Extensions, rules: seq<string>, vendor: Vendor) returns (out: Vendor)
    requires vendor == NO_VENDOR
    ensures out == VendorOf(ext, rules)
  {
    out := vendor;
    if ext.preserveUnknownFields {
      out := out.(preserveUnknownFields := Some(true));
    }
    if ext.embeddedResource {
      out := out.(embeddedResource := true);
    }
    if ext.intOrString {
      out := out.(intOrString := true);
    }
    if |ext.listMapKeys| > 0 {
      out := out.(listMapKeys := ext.listMapKeys);
    }
    if ext.listType.Some? {
      out := out.(listType := ext.listType);
    }
    if ext.mapType.Some? {
      out := out.(mapType := ext.mapType);
    }
    if |rules| > 0 {
      out := out.(validations := rules);
    }
  }

  method NestedSliceToKube(ns: seq<Nested>) returns (out: seq<Schema>)
    ensures out == KubeSeq(ns)
    decreases ns
  {
    out := [];
    for i := 0 to |ns|
      invariant |out| == i
      invariant forall j :: 0 <= j < i ==> out[j] == NestedToKube(ns[j])
    {
      var clause := ConvertNestedToKube(ns[i]);
      out := out + [clause];
    }
  }

  method NestedOptionToKube(n: Option<Nested>) returns (out: Option<Schema>)
    ensures out == KubeOption(n)
    decreases n
  {
    out := None;
    if n.Some? {
      var sc := ConvertNestedToKube(n.value);
      out := Some(sc);
    }
  }

  /** Sets the value validation on a schema that is being filled. */
  method AddValueValidation(vv: ValueValidation, sc: Schema) returns (out: Schema)
    ensures out == WithValidation(sc, vv, KubeSeq(vv.allOf), KubeSeq(vv.oneOf), KubeSeq(vv.anyOf), KubeOption(vv.negated))
    decreases vv
  {
    out := sc.(bounds := vv.bounds, enum := vv.enum, required := vv.required);
    var allOf := NestedSliceToKube(vv.allOf);
    var anyOf := NestedSliceToKube(vv.anyOf);
    var oneOf := NestedSliceToKube(vv.oneOf);
    var negated := NestedOptionToKube(vv.negated);
    out := out.(allOf := allOf, anyOf := anyOf, oneOf := oneOf, negated := negated);
  }

  method NestedPropertiesToKube(n: Nested) returns (out: map<string, Schema>)
    ensures out == NestedToKube(n).properties
    decreases n, 1
  {
    out := NestedMapToKube(n);
  }

  method NestedMapToKube(n: Nested) returns (out: map<string, Schema>)
    ensures out.Keys == n.properties.Keys
    ensures forall k :: k in n.properties ==> out[k] == NestedToKube(n.properties[k])
    decreases n, 0
  {
    out := map[];
    var todo := n.properties.Keys;
    while todo != {}
      invariant todo <= n.properties.Keys && out.Keys == n.properties.Keys - todo
      invariant forall k :: k in out ==> out[k] == NestedToKube(n.properties[k])
      decreases |todo|
    {
      var k :| k in todo;
      var sc := ConvertNestedToKube(n.properties[k]);
      out := out[k := sc];
      todo := todo - {k};
    }
  }

  method ConvertNestedToKube(n: Nested) returns (out: Schema)
    ensures out == NestedToKube(n)
    decreases n, 2
  {
    out := AddValueValidation(n.vv, EMPTY_SCHEMA);
    if n.items.Some? {
      var items := NestedOptionToKube(n.items);
      out := out.(items := Some(SchemaOrArray(items, [])));
    }
    var properties := NestedPropertiesToKube(n);
    var vendor := AddExtensions(n.ext, n.rules, out.vendor);
    out := out.(properties := properties, vendor := vendor);
    out := AddGeneric(n.generic, out);
  }

  method StructuralPropertiesToKube(s: Structural) returns (out: map<string, Schema>)
    ensures out == ToKube(s).properties
    decreases s, 1
  {
    out := StructuralMapToKube(s);
  }

  method StructuralMapToKube(s: Structural) returns (out: map<string, Schema>)
    ensures out.Keys == s.properties.Keys
    ensures forall k :: k in s.properties ==> out[k] == ToKube(s.properties[k])
    decreases s, 0
  {
    out := map[];
    var todo := s.properties.Keys;
    while todo != {}
      invariant todo <= s.properties.Keys && out.Keys == s.properties.Keys - todo
      invariant forall k :: k in out ==> out[k] == ToKube(s.properties[k])
      decreases |todo|
    {
      var k :| k in todo;
      var sc := ToKubeOpenAPI(s.properties[k]);
      out := out[k := sc];
      todo := todo - {k};
    }
  }

  method StructuralChildToKube(s: Option<Structural>) returns (out: Option<Schema>)
    ensures out == if s.Some? then Some(ToKube(s.value)) else None
    decreases s
  {
    out := None;
    if s.Some? {
      var sc := ToKubeOpenAPI(s.value);
      out := Some(sc);
    }
  }

  method StructuralAdditionalToKube(ap: Option<StructuralOrBool>) returns (out: Option<SchemaOrBool>)
    ensures out == if ap.None? then None
                   else Some(SchemaOrBool(ap.value.allows, if ap.value.structural.Some? then Some(ToKube(ap.value.structural.value)) else None))
    decreases ap
  {
    out := None;
    if ap.Some? {
      var schema := StructuralChildToKube(ap.value.structural);
      out := Some(SchemaOrBool(ap.value.allows, schema));
    }
  }

  method ToKubeOpenAPI(s: Structural) returns (out: Schema)
    ensures out == ToKube(s)
    decreases s, 2
  {
    out := EMPTY_SCHEMA;
    if s.items.Some? {
      var items := StructuralChildToKube(s.items);
      out := out.(items := Some(SchemaOrArray(items, [])));
    }
    var properties := StructuralPropertiesToKube(s);
    var additional := StructuralAdditionalToKube(s.additionalProperties);
    out := out.(properties := properties, additionalProperties := additional);
    out := AddGeneric(s.generic, out);
    if s.vv.Some? {
      out := AddValueValidation(s.vv.value, out);
    }
    var vendor := AddExtensions(s.ext, s.rules, out.vendor);
    out := out.(vendor := vendor);
  }
}
