/**
 What the two translations keep of every node: description, title, default, nullable, type, vendor
 extensions and the checks on one value, at every depth.
 */
module Annotations {
  import opened Crds
  import opened Schemas
  import opened Translations
  import opened Agreement

  /** The direct form, the form that went through the structural one, and that form under a junctor. */
  datatype Form = Straight | Structured | Nestled

  /** The node's own fields. Beside int-or-string the direct form has both types in place of the one that is written. */
  predicate KeepsOwn(p: Props, sc: Schema, form: Form) {
    && sc.description == p.description && sc.title == p.title && sc.nullable == p.nullable
    && sc.default == (if p.default == Some(JNull) then None else p.default)
    && sc.types == (if form.Straight? && p.xIntOrString then ["integer", "string"] else if p.typ == "" then [] else [p.typ])
    && sc.bounds == p.bounds && sc.required == p.required && sc.enum == p.enum
    && KeepsExtensions(p, sc.vendor)
  }

  predicate KeepsExtensions(p: Props, vendor: Vendor) {
    && vendor.intOrString == p.xIntOrString && vendor.preserveUnknownFields == p.xPreserveUnknownFields
    && vendor.embeddedResource == p.xEmbeddedResource && vendor.listMapKeys == p.xListMapKeys
    && vendor.listType == p.xListType && vendor.mapType == p.xMapType && vendor.validations == p.xValidations
  }

  const ONE_OF_TWO_TYPES := [EMPTY_SCHEMA.(types := ["integer"]), EMPTY_SCHEMA.(types := ["string"])]

  /**
   Every node of `p` is found in `sc` with its own fields. Set apart: an int-or-string node may get the two types as
   anyOf, or in front of its allOf; under a junctor additionalProperties is gone.
   */
  predicate Keeps(p: Props, sc: Schema, form: Form)
    decreases p, 2
  {
    && KeepsOwn(p, sc, form)
    && KeepsJunctors(p, sc, form)
    && KeepsMap(p, p.properties, sc.properties, form)
    && KeepsItems(p.items, sc.items, form)
    && (if form.Nestled? then sc.additionalProperties.None? else KeepsOrBool(p.additionalProperties, sc.additionalProperties, form))
    && KeepsRest(p, sc, form)
  }

  predicate KeepsMap(parent: Props, ps: map<string, Props>, scs: map<string, Schema>, form: Form)
    requires forall k :: k in ps ==> ps[k] < parent
    decreases parent, 0, 0
  {
    scs.Keys == ps.Keys && forall k :: k in ps ==> Keeps(ps[k], scs[k], form)
  }

  predicate KeepsJunctors(p: Props, sc: Schema, form: Form)
    decreases p, 0
  {
    var below := if form.Straight? then Straight else Nestled;
    && KeepsSeq(p.oneOf, sc.oneOf, below) && KeepsOption(p.negated, sc.negated, below)
    && (|| (KeepsSeq(p.allOf, sc.allOf, below) && KeepsSeq(p.anyOf, sc.anyOf, below))
        || (&& form.Structured? && p.xIntOrString && p.anyOf == []
            && KeepsSeq(p.allOf, sc.allOf, below) && sc.anyOf == ONE_OF_TWO_TYPES)
        || (&& form.Structured? && p.xIntOrString && p.anyOf != []
            && sc.allOf != [] && sc.allOf[0] == EMPTY_SCHEMA.(anyOf := ONE_OF_TWO_TYPES)
            && KeepsSeq(p.allOf, sc.allOf[1..], below) && KeepsSeq(p.anyOf, sc.anyOf, below)))
  }

  predicate KeepsSeq(ps: seq<Props>, scs: seq<Schema>, form: Form)
    decreases ps
  {
    |scs| == |ps| && forall i :: 0 <= i < |ps| ==> Keeps(ps[i], scs[i], form)
  }

  predicate KeepsOption(p: Option<Props>, sc: Option<Schema>, form: Form)
    decreases p
  {
    sc.Some? == p.Some? && (p.Some? ==> Keeps(p.value, sc.value, form))
  }

  /** The way through the structural form takes no list of items, and forgets items without a schema. */
  predicate KeepsItems(p: Option<PropsOrArray>, sc: Option<SchemaOrArray>, form: Form)
    decreases p
  {
    && (sc.Some? <==> p.Some? && (form.Straight? || p.value.schema.Some?))
    && (sc.Some? ==> KeepsOption(p.value.schema, sc.value.schema, form) && KeepsSeq(p.value.schemas, sc.value.schemas, form))
  }

  /** The way through the structural form always allows what it has a schema for. */
  predicate KeepsOrBool(p: Option<PropsOrBool>, sc: Option<SchemaOrBool>, form: Form)
    decreases p
  {
    && sc.Some? == p.Some?
    && (p.Some? ==>
          && KeepsOption(p.value.schema, sc.value.schema, form)
          && sc.value.allows == (p.value.allows || (form.Structured? && p.value.schema.Some?)))
  }

  predicate KeepsOrStrings(p: PropsOrStrings, sc: SchemaOrStrings, form: Form)
    decreases p
  {
    KeepsOption(p.schema, sc.schema, form) && sc.property == p.property
  }

  predicate KeepsDependencies(p: Props, ds: map<string, SchemaOrStrings>, form: Form)
    decreases p, 0
  {
    ds.Keys == p.dependencies.Keys && forall k :: k in p.dependencies ==> KeepsOrStrings(p.dependencies[k], ds[k], form)
  }

  /** What only the direct form has a place for. */
  predicate KeepsRest(p: Props, sc: Schema, form: Form)
    decreases p, 1
  {
    && sc.id == p.id && sc.schemaURL == p.schemaURL && sc.ref == (if p.ref.Some? then p.ref.value else "")
    && KeepsPatterns(p, sc.patternProperties, form)
    && KeepsDefinitions(p, sc.definitions, form)
    && KeepsDependencies(p, sc.dependencies, form)
    && KeepsOrBool(p.additionalItems, sc.additionalItems, form)
  }

  predicate KeepsPatterns(p: Props, scs: map<string, Schema>, form: Form)
    decreases p, 0, 1
  {
    KeepsMap(p, p.patternProperties, scs, form)
  }

  predicate KeepsDefinitions(p: Props, scs: map<string, Schema>, form: Form)
    decreases p, 0, 1
  {
    KeepsMap(p, p.definitions, scs, form)
  }

  // ------------------------------------------------------------- the direct way

  lemma {:induction false} DirectKeepsSeq(ps: seq<Props>)
    ensures KeepsSeq(ps, DirectSeq(ps), Straight)
    decreases ps
  {
    forall i | 0 <= i < |ps|
      ensures Keeps(ps[i], DirectSeq(ps)[i], Straight)
    {
      DirectKeeps(ps[i]);
    }
  }

  lemma {:induction false} DirectKeepsOption(p: Option<Props>)
    ensures KeepsOption(p, DirectOption(p), Straight)
    decreases p
  {
    if p.Some? {
      DirectKeeps(p.value);
    }
  }

  lemma {:induction false} DirectKeepsJunctors(p: Props)
    ensures KeepsJunctors(p, Direct(p), Straight)
    decreases p, 0
  {
    DirectJunctorShape(p);
    DirectKeepsSeq(p.allOf);
    DirectKeepsSeq(p.oneOf);
    DirectKeepsSeq(p.anyOf);
    DirectKeepsOption(p.negated);
  }

  lemma {:induction false} DirectKeepsItems(p: Option<PropsOrArray>)
    ensures KeepsItems(p, DirectArray(p), Straight)
    decreases p
  {
    if p.Some? {
      DirectKeepsOption(p.value.schema);
      DirectKeepsSeq(p.value.schemas);
    }
  }

  lemma {:induction false} DirectKeepsOrBool(p: Option<PropsOrBool>)
    ensures KeepsOrBool(p, DirectBool(p), Straight)
    decreases p
  {
    if p.Some? {
      DirectKeepsOption(p.value.schema);
    }
  }

  lemma {:induction false} DirectKeepsMap(parent: Props, ps: map<string, Props>, scs: map<string, Schema>)
    requires forall k :: k in ps ==> ps[k] < parent
    requires scs.Keys == ps.Keys && forall k :: k in ps ==> scs[k] == Direct(ps[k])
    ensures KeepsMap(parent, ps, scs, Straight)
    decreases parent, 0
  {
    forall k | k in ps
      ensures Keeps(ps[k], scs[k], Straight)
    {
      DirectKeeps(ps[k]);
    }
  }

  lemma {:induction false} DirectKeepsDependencies(p: Props, ds: map<string, SchemaOrStrings>)
    requires ds.Keys == p.dependencies.Keys && forall k :: k in ds ==> ds[k] == DirectStrings(p.dependencies[k])
    ensures KeepsDependencies(p, ds, Straight)
    decreases p, 0
  {
    forall k | k in p.dependencies
      ensures KeepsOrStrings(p.dependencies[k], ds[k], Straight)
    {
      DirectKeepsOption(p.dependencies[k].schema);
    }
  }

  /** The direct form, map by map. */
  lemma {:induction false} DirectMaps(p: Props)
    ensures var sc := Direct(p);
      && sc.properties.Keys == p.properties.Keys && (forall k :: k in p.properties ==> sc.properties[k] == Direct(p.properties[k]))
      && sc.patternProperties.Keys == p.patternProperties.Keys
      && (forall k :: k in p.patternProperties ==> sc.patternProperties[k] == Direct(p.patternProperties[k]))
      && sc.definitions.Keys == p.definitions.Keys && (forall k :: k in p.definitions ==> sc.definitions[k] == Direct(p.definitions[k]))
      && sc.dependencies.Keys == p.dependencies.Keys
      && (forall k :: k in p.dependencies ==> sc.dependencies[k] == DirectStrings(p.dependencies[k]))
  {
  }

  lemma {:induction false} DirectOwn(p: Props)
    ensures var sc := Direct(p);
      && KeepsOwn(p, sc, Straight) && sc.id == p.id && sc.schemaURL == p.schemaURL && sc.ref == (if p.ref.Some? then p.ref.value else "")
      && sc.items == DirectArray(p.items) && sc.additionalProperties == DirectBool(p.additionalProperties)
      && sc.additionalItems == DirectBool(p.additionalItems)
  {
  }

  lemma {:induction false} DirectKeepsProperties(p: Props)
    ensures KeepsMap(p, p.properties, Direct(p).properties, Straight)
    decreases p, 1
  {
    DirectMaps(p);
    DirectKeepsMap(p, p.properties, Direct(p).properties);
  }

  lemma {:induction false} DirectKeepsPatterns(p: Props)
    ensures KeepsPatterns(p, Direct(p).patternProperties, Straight)
    decreases p, 1
  {
    DirectMaps(p);
    DirectKeepsMap(p, p.patternProperties, Direct(p).patternProperties);
  }

  lemma {:induction false} DirectKeepsDefinitions(p: Props)
    ensures KeepsDefinitions(p, Direct(p).definitions, Straight)
    decreases p, 1
  {
    DirectMaps(p);
    DirectKeepsMap(p, p.definitions, Direct(p).definitions);
  }

  lemma {:induction false} DirectKeepsRest(p: Props)
    ensures KeepsDependencies(p, Direct(p).dependencies, Straight)
    ensures KeepsOrBool(p.additionalItems, Direct(p).additionalItems, Straight)
    decreases p, 1
  {
    DirectOwn(p);
    DirectMaps(p);
    DirectKeepsDependencies(p, Direct(p).dependencies);
    DirectKeepsOrBool(p.additionalItems);
  }

  /** The direct translation keeps every field of every node, of any schema. */
  lemma {:induction false} DirectKeeps(p: Props)
    ensures Keeps(p, Direct(p), Straight)
    decreases p, 2
  {
    DirectOwn(p);
    DirectKeepsJunctors(p);
    DirectKeepsProperties(p);
    DirectKeepsPatterns(p);
    DirectKeepsDefinitions(p);
    DirectKeepsRest(p);
    DirectKeepsItems(p.items);
    DirectKeepsOrBool(p.additionalProperties);
  }

  // ------------------------------------------------------------- under junctors

  lemma {:induction false} NestedKeepsSeq(ps: seq<Props>)
    requires forall i :: 0 <= i < |ps| ==> Convertible(ps[i])
    ensures KeepsSeq(ps, KubeSeq(NestedSeq(ps)), Nestled)
    decreases ps
  {
    forall i | 0 <= i < |ps|
      ensures Keeps(ps[i], KubeSeq(NestedSeq(ps))[i], Nestled)
    {
      NestedKeeps(ps[i]);
    }
  }

  lemma {:induction false} NestedKeepsOption(p: Option<Props>)
    requires p.Some? ==> Convertible(p.value)
    ensures KeepsOption(p, KubeOption(NestedOption(p)), Nestled)
    decreases p
  {
    if p.Some? {
      NestedKeeps(p.value);
    }
  }

  /** A supported node has nothing that only the direct form has a place for. */
  lemma {:induction false} NothingElse(p: Props, sc: Schema, form: Form)
    requires FieldsSupported(p)
    requires sc.id == "" && sc.schemaURL == "" && sc.ref == "" && sc.patternProperties == map[] && sc.definitions == map[]
    requires sc.dependencies == map[] && sc.additionalItems.None?
    ensures KeepsRest(p, sc, form)
  {
  }

  lemma {:induction false} ExtensionsAreKept(p: Props)
    requires p.xPreserveUnknownFields != Some(false)
    ensures KeepsExtensions(p, VendorOf(ExtensionsOf(p), p.xValidations))
  {
    match p.xPreserveUnknownFields
    case None =>
    case Some(preserve) => assert preserve;
  }

  lemma {:induction false} NestedKeepsOwn(p: Props)
    requires NodeSupported(p)
    ensures var sc := NestedToKube(NestedOf(p));
      && KeepsOwn(p, sc, Nestled) && sc.additionalProperties.None?
      && sc.id == "" && sc.schemaURL == "" && sc.ref == "" && sc.patternProperties == map[] && sc.definitions == map[]
      && sc.dependencies == map[] && sc.additionalItems.None?
      && sc.items == (if p.items.Some? && p.items.value.schema.Some? then Some(SchemaOrArray(KubeOption(NestedOption(p.items.value.schema)), [])) else None)
  {
    ExtensionsAreKept(p);
  }

  lemma {:induction false} NestedKeepsItems(p: Option<PropsOrArray>, sc: Option<SchemaOrArray>)
    requires p.Some? ==> p.value.schemas == [] && (p.value.schema.Some? ==> Convertible(p.value.schema.value))
    requires sc == if p.Some? && p.value.schema.Some? then Some(SchemaOrArray(KubeOption(NestedOption(p.value.schema)), [])) else None
    ensures KeepsItems(p, sc, Nestled)
    decreases p
  {
    if p.Some? {
      NestedKeepsOption(p.value.schema);
    }
  }

  lemma {:induction false} NestedKeepsProperties(p: Props)
    requires Convertible(p)
    ensures KeepsMap(p, p.properties, NestedToKube(NestedOf(p)).properties, Nestled)
    decreases p, 0
  {
    NestedChildren(p);
    forall k | k in p.properties
      ensures Keeps(p.properties[k], NestedToKube(NestedOf(p)).properties[k], Nestled)
    {
      NestedKeeps(p.properties[k]);
    }
  }

  lemma {:induction false} JunctorsAreKept(p: Props)
    requires Convertible(p)
    ensures KeepsSeq(p.allOf, KubeSeq(NestedSeq(p.allOf)), Nestled) && KeepsSeq(p.oneOf, KubeSeq(NestedSeq(p.oneOf)), Nestled)
    ensures KeepsSeq(p.anyOf, KubeSeq(NestedSeq(p.anyOf)), Nestled) && KeepsOption(p.negated, KubeOption(NestedOption(p.negated)), Nestled)
    decreases p, 0
  {
    NestedKeepsSeq(p.allOf);
    NestedKeepsSeq(p.oneOf);
    NestedKeepsSeq(p.anyOf);
    NestedKeepsOption(p.negated);
  }

  /** Under a junctor the way through the structural form keeps every node but additionalProperties. */
  lemma {:induction false} NestedKeeps(p: Props)
    requires Convertible(p)
    ensures Keeps(p, NestedToKube(NestedOf(p)), Nestled)
    decreases p, 1
  {
    NestedKeepsOwn(p);
    NothingElse(p, NestedToKube(NestedOf(p)), Nestled);
    NestedShape(p);
    JunctorsAreKept(p);
    NestedKeepsProperties(p);
    NestedKeepsItems(p.items, NestedToKube(NestedOf(p)).items);
  }

  // --------------------------------------------------- through the structural form

  lemma {:induction false} TwinKeepsOwn(p: Props)
    requires NodeSupported(p)
    ensures var sc := Twin(p);
      && KeepsOwn(p, sc, Structured)
      && sc.id == "" && sc.schemaURL == "" && sc.ref == "" && sc.patternProperties == map[] && sc.definitions == map[]
      && sc.dependencies == map[] && sc.additionalItems.None?
      && sc.items == (if p.items.Some? && p.items.value.schema.Some? then Some(SchemaOrArray(TwinOption(p.items.value.schema), [])) else None)
  {
    ExtensionsAreKept(p);
    assert Unfolded(StructuralOf(p)).vv == Some(TwinValidation(p));
  }

  lemma {:induction false} PatternInKube()
    ensures KubeSeq(INT_OR_STRING_ANY_OF) == ONE_OF_TWO_TYPES
    ensures NestedToKube(PATTERN_CLAUSE) == EMPTY_SCHEMA.(anyOf := ONE_OF_TWO_TYPES)
  {
    assert KubeSeq([]) == [];
    assert NestedToKube(OnlyType("integer")) == ONE_OF_TWO_TYPES[0];
    assert NestedToKube(OnlyType("string")) == ONE_OF_TWO_TYPES[1];
  }

  lemma {:induction false} FirstInKube(n: Nested, ns: seq<Nested>)
    ensures KubeSeq([n] + ns) == [NestedToKube(n)] + KubeSeq(ns)
  {
  }

  lemma {:induction false} EmptyInBothForms(ps: seq<Props>)
    ensures NestedSeq(ps) == [] <==> ps == []
  {
    assert |NestedSeq(ps)| == |ps|;
  }

  lemma {:induction false} TwinKeepsJunctors(p: Props)
    requires Convertible(p)
    ensures KeepsJunctors(p, Twin(p), Structured)
  {
    StructuralJunctors(p);
    JunctorsAreKept(p);
    PatternInKube();
    FirstInKube(PATTERN_CLAUSE, NestedSeq(p.allOf));
    EmptyInBothForms(p.anyOf);
    var sc, vv := Twin(p), TwinValidation(p);
    if vv.allOf != ValidationOf(p).allOf {
      assert sc.allOf == [NestedToKube(PATTERN_CLAUSE)] + KubeSeq(NestedSeq(p.allOf));
      assert sc.allOf[1..] == KubeSeq(NestedSeq(p.allOf));
    }
  }

  lemma {:induction false} TwinKeepsOption(p: Option<Props>)
    requires p.Some? ==> Convertible(p.value)
    ensures KeepsOption(p, TwinOption(p), Structured)
    decreases p
  {
    if p.Some? {
      TwinKeeps(p.value);
    }
  }

  lemma {:induction false} TwinKeepsItems(p: Option<PropsOrArray>, sc: Option<SchemaOrArray>)
    requires p.Some? ==> p.value.schemas == [] && (p.value.schema.Some? ==> Convertible(p.value.schema.value))
    requires sc == if p.Some? && p.value.schema.Some? then Some(SchemaOrArray(TwinOption(p.value.schema), [])) else None
    ensures KeepsItems(p, sc, Structured)
    decreases p
  {
    if p.Some? {
      TwinKeepsOption(p.value.schema);
    }
  }

  lemma {:induction false} TwinKeepsOrBool(p: Option<PropsOrBool>, sc: Option<SchemaOrBool>)
    requires p.Some? && p.value.schema.Some? ==> Convertible(p.value.schema.value)
    requires sc == if p.None? then None else Some(SchemaOrBool(p.value.schema.Some? || p.value.allows, TwinOption(p.value.schema)))
    ensures KeepsOrBool(p, sc, Structured)
    decreases p
  {
    if p.Some? {
      TwinKeepsOption(p.value.schema);
    }
  }

  lemma {:induction false} TwinKeepsProperties(p: Props)
    requires Convertible(p)
    ensures KeepsMap(p, p.properties, Twin(p).properties, Structured)
    decreases p, 0
  {
    StructuralChildren(p);
    forall k | k in p.properties
      ensures Keeps(p.properties[k], Twin(p).properties[k], Structured)
    {
      TwinKeeps(p.properties[k]);
    }
  }

  /** The way through the structural form and its unfolding keeps every field of every node of a convertible schema. */
  lemma {:induction false} TwinKeeps(p: Props)
    requires Convertible(p)
    ensures Keeps(p, Twin(p), Structured)
    decreases p, 1
  {
    TwinKeepsOwn(p);
    NothingElse(p, Twin(p), Structured);
    TwinKeepsJunctors(p);
    TwinKeepsProperties(p);
    TwinKeepsItems(p.items, Twin(p).items);
    StructuralAdditional(p);
    TwinKeepsOrBool(p.additionalProperties, Twin(p).additionalProperties);
  }

  // ------------------------------------------------------------ the two compared

  /** Node by node the same notes; `b` may have additions at int-or-string nodes, and no additionalProperties under junctors. */
  predicate SameNotes(a: Schema, b: Schema, nestled: bool)
    decreases a, 1
  {
    && a.description == b.description && a.title == b.title && a.default == b.default && a.nullable == b.nullable
    && a.vendor == b.vendor && a.bounds == b.bounds && a.required == b.required && a.enum == b.enum
    && (a.vendor.intOrString || a.types == b.types)
    && a.properties.Keys == b.properties.Keys
    && (forall k :: k in a.properties ==> SameNotes(a.properties[k], b.properties[k], nestled))
    && SameItems(a.items, b.items, nestled)
    && (if nestled then b.additionalProperties.None? else SameAdditional(a.additionalProperties, b.additionalProperties))
    && SameJunctors(a, b)
  }

  predicate SameItems(a: Option<SchemaOrArray>, b: Option<SchemaOrArray>, nestled: bool)
    decreases a
  {
    if a.Some? && a.value.schema.Some? then
      b.Some? && SameNotesOption(a.value.schema, b.value.schema, nestled)
    else b.None?
  }

  predicate SameAdditional(a: Option<SchemaOrBool>, b: Option<SchemaOrBool>)
    decreases a
  {
    a.Some? == b.Some? && (a.Some? ==> SameNotesOption(a.value.schema, b.value.schema, false))
  }

  predicate SameNotesOption(a: Option<Schema>, b: Option<Schema>, nestled: bool)
    decreases a
  {
    a.Some? == b.Some? && (a.Some? ==> SameNotes(a.value, b.value, nestled))
  }

  predicate SameNotesSeq(a: seq<Schema>, b: seq<Schema>)
    decreases a
  {
    |a| == |b| && forall i :: 0 <= i < |a| ==> SameNotes(a[i], b[i], true)
  }

  predicate SameJunctors(a: Schema, b: Schema)
    decreases a, 0
  {
    && SameNotesSeq(a.oneOf, b.oneOf) && SameNotesOption(a.negated, b.negated, true)
    && (SameNotesSeq(a.allOf, b.allOf) || (a.vendor.intOrString && b.allOf != [] && SameNotesSeq(a.allOf, b.allOf[1..])))
    && (SameNotesSeq(a.anyOf, b.anyOf) || (a.vendor.intOrString && a.anyOf == [] && b.anyOf == ONE_OF_TWO_TYPES))
  }

  lemma {:induction false} KeepersMatchSeq(ps: seq<Props>, a: seq<Schema>, b: seq<Schema>)
    requires KeepsSeq(ps, a, Straight) && KeepsSeq(ps, b, Nestled)
    ensures SameNotesSeq(a, b)
    decreases ps
  {
    forall i | 0 <= i < |a|
      ensures SameNotes(a[i], b[i], true)
    {
      KeepersMatch(ps[i], a[i], b[i], Nestled);
    }
  }

  lemma {:induction false} KeepersMatchOption(p: Option<Props>, a: Option<Schema>, b: Option<Schema>, form: Form)
    requires !form.Straight? && KeepsOption(p, a, Straight) && KeepsOption(p, b, form)
    ensures SameNotesOption(a, b, form.Nestled?)
    decreases p
  {
    if p.Some? {
      KeepersMatch(p.value, a.value, b.value, form);
    }
  }

  lemma {:induction false} KeepersMatchJunctors(p: Props, a: Schema, b: Schema, form: Form)
    requires !form.Straight? && KeepsJunctors(p, a, Straight) && KeepsJunctors(p, b, form) && a.vendor.intOrString == p.xIntOrString
    ensures SameJunctors(a, b)
    decreases p, 0
  {
    KeepersMatchSeq(p.oneOf, a.oneOf, b.oneOf);
    KeepersMatchOption(p.negated, a.negated, b.negated, Nestled);
    if KeepsSeq(p.allOf, b.allOf, Nestled) {
      KeepersMatchSeq(p.allOf, a.allOf, b.allOf);
    } else {
      KeepersMatchSeq(p.allOf, a.allOf, b.allOf[1..]);
    }
    if KeepsSeq(p.anyOf, b.anyOf, Nestled) {
      KeepersMatchSeq(p.anyOf, a.anyOf, b.anyOf);
    }
  }

  lemma {:induction false} KeepersMatchProperties(p: Props, a: Schema, b: Schema, form: Form)
    requires !form.Straight? && KeepsMap(p, p.properties, a.properties, Straight) && KeepsMap(p, p.properties, b.properties, form)
    ensures a.properties.Keys == b.properties.Keys
    ensures forall k :: k in a.properties ==> SameNotes(a.properties[k], b.properties[k], form.Nestled?)
    decreases p, 0
  {
    forall k | k in a.properties
      ensures SameNotes(a.properties[k], b.properties[k], form.Nestled?)
    {
      KeepersMatch(p.properties[k], a.properties[k], b.properties[k], form);
    }
  }

  lemma {:induction false} KeepersMatchItems(p: Option<PropsOrArray>, a: Option<SchemaOrArray>, b: Option<SchemaOrArray>, form: Form)
    requires !form.Straight? && KeepsItems(p, a, Straight) && KeepsItems(p, b, form)
    ensures SameItems(a, b, form.Nestled?)
    decreases p
  {
    if p.Some? && p.value.schema.Some? {
      KeepersMatchOption(p.value.schema, a.value.schema, b.value.schema, form);
    }
  }

  lemma {:induction false} KeepersMatchAdditional(p: Option<PropsOrBool>, a: Option<SchemaOrBool>, b: Option<SchemaOrBool>)
    requires KeepsOrBool(p, a, Straight) && KeepsOrBool(p, b, Structured)
    ensures SameAdditional(a, b)
    decreases p
  {
    if p.Some? {
      KeepersMatchOption(p.value.schema, a.value.schema, b.value.schema, Structured);
    }
  }

  /** Two schemas that keep the nodes of one, in their ways, say the same everywhere. */
  lemma {:induction false} KeepersMatch(p: Props, a: Schema, b: Schema, form: Form)
    requires !form.Straight? && Keeps(p, a, Straight) && Keeps(p, b, form)
    ensures SameNotes(a, b, form.Nestled?)
    decreases p, 1
  {
    KeepersMatchJunctors(p, a, b, form);
    KeepersMatchProperties(p, a, b, form);
    KeepersMatchItems(p.items, a.items, b.items, form);
    if form.Structured? {
      KeepersMatchAdditional(p.additionalProperties, a.additionalProperties, b.additionalProperties);
    }
  }

  /** The two translations of a convertible schema have the same notes at every node. */
  lemma {:induction false} NotesAgree(p: Props)
    requires Convertible(p)
    ensures SameNotes(Direct(p), ToKube(Unfolded(StructuralOf(p))), false)
  {
    DirectKeeps(p);
    TwinKeeps(p);
    KeepersMatch(p, Direct(p), Twin(p), Structured);
  }
}
