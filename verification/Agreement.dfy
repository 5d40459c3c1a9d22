/** The two translations accept the same values. */
module Agreement {
  import opened Crds
  import opened Schemas
  import opened Translations

  /** A schema without bounds accepts every value. */
  ghost predicate AcceptsUnbounded(c: Checker) {
    forall v :: c.bounded(NO_BOUNDS, v)
  }

  /** Under a junctor: no int-or-string and no additionalProperties that would forbid or check anything. */
  predicate PlainNested(p: Props)
    decreases p
  {
    && !p.xIntOrString
    && (p.additionalProperties.Some? ==> p.additionalProperties.value.allows && p.additionalProperties.value.schema.None?)
    && (forall i :: 0 <= i < |p.allOf| ==> PlainNested(p.allOf[i]))
    && (forall i :: 0 <= i < |p.oneOf| ==> PlainNested(p.oneOf[i]))
    && (forall i :: 0 <= i < |p.anyOf| ==> PlainNested(p.anyOf[i]))
    && (p.negated.Some? ==> PlainNested(p.negated.value))
    && (forall k :: k in p.properties ==> PlainNested(p.properties[k]))
    && (p.items.Some? && p.items.value.schema.Some? ==> PlainNested(p.items.value.schema.value))
  }

  /** Outside junctors: int-or-string nodes leave the type empty, and a schema for additional properties allows them. */
  predicate PlainStructural(p: Props)
    decreases p
  {
    && (p.xIntOrString ==> p.typ == "")
    && (forall i :: 0 <= i < |p.allOf| ==> PlainNested(p.allOf[i]))
    && (forall i :: 0 <= i < |p.oneOf| ==> PlainNested(p.oneOf[i]))
    && (forall i :: 0 <= i < |p.anyOf| ==> PlainNested(p.anyOf[i]))
    && (p.negated.Some? ==> PlainNested(p.negated.value))
    && (forall k :: k in p.properties ==> PlainStructural(p.properties[k]))
    && (p.items.Some? && p.items.value.schema.Some? ==> PlainStructural(p.items.value.schema.value))
    && (p.additionalProperties.Some? && p.additionalProperties.value.schema.Some? ==>
          p.additionalProperties.value.allows && PlainStructural(p.additionalProperties.value.schema.value))
  }

  // ------------------------------------------------------- equal parts, equal verdicts

  /** The items schema, when there is one. */
  function ItemsSchema(sc: Schema): Option<Schema> {
    if sc.items.Some? then sc.items.value.schema else None
  }

  /** What both schemas must share besides types, junctors, items and fields. */
  predicate SameLeaves(a: Schema, b: Schema) {
    && a.enum == b.enum && a.bounds == b.bounds && a.required == b.required && a.nullable == b.nullable
    && a.ref == "" && b.ref == "" && a.dependencies == map[] && b.dependencies == map[]
    && a.patternProperties == map[] && b.patternProperties == map[]
    && a.additionalItems == None && b.additionalItems == None
    && (a.items.Some? ==> a.items.value.schemas == []) && (b.items.Some? ==> b.items.value.schemas == [])
  }

  lemma {:induction false} ItemsSame(c: Checker, a: Schema, b: Schema, vs: seq<Json>)
    requires SameLeaves(a, b)
    requires EachVerdict(c, ItemsSchema(a), vs) == EachVerdict(c, ItemsSchema(b), vs)
    ensures ItemsOk(c, a, vs) == ItemsOk(c, b, vs)
  {
    NoItemTuple(c, a, vs);
    NoItemTuple(c, b, vs);
  }

  lemma {:induction false} NoItemTuple(c: Checker, a: Schema, vs: seq<Json>)
    requires a.additionalItems == None && (a.items.Some? ==> a.items.value.schemas == [])
    ensures ItemsOk(c, a, vs) <==> false !in EachVerdict(c, ItemsSchema(a), vs)
  {
  }

  lemma {:induction false} PropertiesSame(c: Checker, a: Schema, b: Schema, fields: map<string, Json>)
    requires a.properties.Keys == b.properties.Keys
    requires forall k :: k in fields && k in a.properties ==> Valid(c, a.properties[k], fields[k]) == Valid(c, b.properties[k], fields[k])
    ensures PropertyVerdicts(c, a, fields) == PropertyVerdicts(c, b, fields)
  {
  }

  lemma {:induction false} FieldsSame(c: Checker, a: Schema, b: Schema, fields: map<string, Json>)
    requires SameLeaves(a, b) && a.properties.Keys == b.properties.Keys
    requires PropertyVerdicts(c, a, fields) == PropertyVerdicts(c, b, fields)
    requires var rest := AdditionalFields(c, a, fields);
      AdditionalVerdicts(c, a.additionalProperties, rest) == AdditionalVerdicts(c, b.additionalProperties, rest)
    ensures FieldsOk(c, a, fields) == FieldsOk(c, b, fields)
  {
    assert AdditionalFields(c, a, fields) == AdditionalFields(c, b, fields);
    assert PatternsOk(c, a, fields) && PatternsOk(c, b, fields);
  }

  lemma {:induction false} ValidSame(c: Checker, a: Schema, b: Schema, v: Json)
    requires SameLeaves(a, b)
    requires (TypesOk(a.types, a.nullable, v) && JunctorVerdict(c, a, v)) == (TypesOk(b.types, b.nullable, v) && JunctorVerdict(c, b, v))
    requires v.JArray? ==> ItemsOk(c, a, v.items) == ItemsOk(c, b, v.items)
    requires v.JObject? ==> FieldsOk(c, a, v.fields) == FieldsOk(c, b, v.fields)
    ensures Valid(c, a, v) == Valid(c, b, v)
  {
    if v.JObject? {
      assert DependenciesOk(c, a, v.fields) && DependenciesOk(c, b, v.fields);
    }
  }

  ghost predicate JunctorVerdict(c: Checker, sc: Schema, v: Json) {
    JunctorsOk(Verdicts(c, sc.allOf, v), Verdicts(c, sc.oneOf, v), Verdicts(c, sc.anyOf, v), Rejected(c, sc.negated, v))
  }

  /** The direct form, field by field. */
  lemma {:induction false} DirectShape(p: Props)
    requires NodeSupported(p)
    ensures var a := Direct(p);
      && a.types == (if p.xIntOrString then ["integer", "string"] else TypesOf(p.typ)) && a.nullable == p.nullable
      && a.properties.Keys == p.properties.Keys
      && (forall k :: k in p.properties ==> a.properties[k] == Direct(p.properties[k]))
      && ItemsSchema(a) == (if p.items.Some? then DirectOption(p.items.value.schema) else None)
      && a.additionalProperties == DirectBool(p.additionalProperties)
  {
  }

  // ------------------------------------------------------------ under junctors

  /** The OpenAPI form of a nested schema, field by field. */
  lemma {:induction false} NestedShape(p: Props)
    requires NodeSupported(p)
    ensures var b := NestedToKube(NestedOf(p));
      && SameLeaves(Direct(p), b) && b.types == TypesOf(p.typ) && b.additionalProperties == None
      && b.allOf == KubeSeq(NestedSeq(p.allOf)) && b.oneOf == KubeSeq(NestedSeq(p.oneOf)) && b.anyOf == KubeSeq(NestedSeq(p.anyOf))
      && b.negated == KubeOption(NestedOption(p.negated))
  {
    var n := NestedOf(p);
    assert n.vv == ValidationOf(p);
  }

  lemma {:induction false} NestedChildren(p: Props)
    ensures var b := NestedToKube(NestedOf(p));
      && b.properties.Keys == p.properties.Keys
      && (forall k :: k in p.properties ==> b.properties[k] == NestedToKube(NestedOf(p.properties[k])))
      && ItemsSchema(b) == (if p.items.Some? then KubeOption(NestedOption(p.items.value.schema)) else None)
  {
    var n := NestedOf(p);
    assert n.properties.Keys == p.properties.Keys;
    var b := NestedToKube(n);
    assert b.properties.Keys == n.properties.Keys;
  }

  /** The junctors hold nested schemas only. */
  predicate PlainJunctors(ps: seq<Props>) {
    forall i :: 0 <= i < |ps| ==> Convertible(ps[i]) && PlainNested(ps[i])
  }

  lemma {:induction false} NestedListAgrees(c: Checker, ps: seq<Props>, v: Json)
    requires forall i :: 0 <= i < |ps| ==> Convertible(ps[i]) && PlainNested(ps[i])
    ensures Verdicts(c, DirectSeq(ps), v) == Verdicts(c, KubeSeq(NestedSeq(ps)), v)
    decreases ps
  {
    forall i | 0 <= i < |ps|
      ensures Verdicts(c, DirectSeq(ps), v)[i] == Verdicts(c, KubeSeq(NestedSeq(ps)), v)[i]
    {
      NestedAgrees(c, ps[i], v);
    }
  }

  lemma {:induction false} NestedOptionAgrees(c: Checker, p: Option<Props>, v: Json)
    requires p.Some? ==> Convertible(p.value) && PlainNested(p.value)
    ensures Rejected(c, DirectOption(p), v) == Rejected(c, KubeOption(NestedOption(p)), v)
    decreases p
  {
    if p.Some? {
      NestedAgrees(c, p.value, v);
    }
  }

  lemma {:induction false} NestedAgrees(c: Checker, p: Props, v: Json)
    requires Convertible(p) && PlainNested(p)
    ensures Valid(c, Direct(p), v) == Valid(c, NestedToKube(NestedOf(p)), v)
    decreases p, 3
  {
    NestedShape(p);
    DirectShape(p);
    NestedJunctorsAgree(c, p, v);
    if v.JArray? {
      NestedItemsAgree(c, p, v.items);
    }
    if v.JObject? {
      NestedFieldsAgree(c, p, v.fields);
    }
    ValidSame(c, Direct(p), NestedToKube(NestedOf(p)), v);
  }

  lemma {:induction false} NestedParts(p: Props)
    requires Convertible(p) && PlainNested(p)
    ensures NodeSupported(p)
    ensures PlainJunctors(p.allOf) && PlainJunctors(p.oneOf) && PlainJunctors(p.anyOf)
    ensures p.negated.Some? ==> Convertible(p.negated.value) && PlainNested(p.negated.value)
  {
  }

  lemma {:induction false} NestedJunctorsAgree(c: Checker, p: Props, v: Json)
    requires Convertible(p) && PlainNested(p)
    ensures JunctorVerdict(c, Direct(p), v) == JunctorVerdict(c, NestedToKube(NestedOf(p)), v)
    decreases p, 2
  {
    NestedParts(p);
    NestedListAgrees(c, p.allOf, v);
    NestedListAgrees(c, p.oneOf, v);
    NestedListAgrees(c, p.anyOf, v);
    NestedOptionAgrees(c, p.negated, v);
    NestedVerdictsSame(c, p, v);
  }

  /** The verdicts on the junctors decide. */
  lemma {:induction false} NestedVerdictsSame(c: Checker, p: Props, v: Json)
    requires NodeSupported(p)
    requires Verdicts(c, DirectSeq(p.allOf), v) == Verdicts(c, KubeSeq(NestedSeq(p.allOf)), v)
    requires Verdicts(c, DirectSeq(p.oneOf), v) == Verdicts(c, KubeSeq(NestedSeq(p.oneOf)), v)
    requires Verdicts(c, DirectSeq(p.anyOf), v) == Verdicts(c, KubeSeq(NestedSeq(p.anyOf)), v)
    requires Rejected(c, DirectOption(p.negated), v) == Rejected(c, KubeOption(NestedOption(p.negated)), v)
    ensures JunctorVerdict(c, Direct(p), v) == JunctorVerdict(c, NestedToKube(NestedOf(p)), v)
  {
    NestedShape(p);
    DirectJunctorShape(p);
  }

  lemma {:induction false} NestedItemsAgree(c: Checker, p: Props, vs: seq<Json>)
    requires Convertible(p) && PlainNested(p)
    ensures ItemsOk(c, Direct(p), vs) == ItemsOk(c, NestedToKube(NestedOf(p)), vs)
    decreases p, 2
  {
    NestedShape(p);
    NestedChildren(p);
    DirectShape(p);
    if p.items.Some? {
      NestedEachAgrees(c, p.items.value.schema, vs);
    }
    ItemsSame(c, Direct(p), NestedToKube(NestedOf(p)), vs);
  }

  lemma {:induction false} NestedEachAgrees(c: Checker, p: Option<Props>, vs: seq<Json>)
    requires p.Some? ==> Convertible(p.value) && PlainNested(p.value)
    ensures EachVerdict(c, DirectOption(p), vs) == EachVerdict(c, KubeOption(NestedOption(p)), vs)
    decreases p
  {
    if p.Some? {
      forall i | 0 <= i < |vs|
        ensures Valid(c, Direct(p.value), vs[i]) == Valid(c, NestedToKube(NestedOf(p.value)), vs[i])
      {
        NestedAgrees(c, p.value, vs[i]);
      }
    }
  }

  lemma {:induction false} NestedFieldsAgree(c: Checker, p: Props, fields: map<string, Json>)
    requires Convertible(p) && PlainNested(p)
    ensures FieldsOk(c, Direct(p), fields) == FieldsOk(c, NestedToKube(NestedOf(p)), fields)
    decreases p, 2
  {
    NestedShape(p);
    NestedPropertiesAgree(c, p, fields);
    var a, b := Direct(p), NestedToKube(NestedOf(p));
    NothingForbidden(c, a.additionalProperties, AdditionalFields(c, a, fields));
    NothingForbidden(c, b.additionalProperties, AdditionalFields(c, a, fields));
    FieldsSame(c, a, b, fields);
  }

  lemma {:induction false} NestedPropertiesAgree(c: Checker, p: Props, fields: map<string, Json>)
    requires Convertible(p) && PlainNested(p)
    ensures var a, b := Direct(p), NestedToKube(NestedOf(p));
      a.properties.Keys == b.properties.Keys && PropertyVerdicts(c, a, fields) == PropertyVerdicts(c, b, fields)
    decreases p, 1
  {
    NestedChildren(p);
    DirectShape(p);
    var a, b := Direct(p), NestedToKube(NestedOf(p));
    forall k | k in fields && k in p.properties
      ensures Valid(c, a.properties[k], fields[k]) == Valid(c, b.properties[k], fields[k])
    {
      NestedPropertyAgrees(c, p, k, fields[k]);
    }
    PropertiesSame(c, a, b, fields);
  }

  lemma {:induction false} NestedPropertyAgrees(c: Checker, p: Props, k: string, v: Json)
    requires Convertible(p) && PlainNested(p) && k in p.properties
    ensures Valid(c, Direct(p.properties[k]), v) == Valid(c, NestedToKube(NestedOf(p.properties[k])), v)
    decreases p, 0
  {
    NestedAgrees(c, p.properties[k], v);
  }

  lemma {:induction false} NothingForbidden(c: Checker, ap: Option<SchemaOrBool>, fields: map<string, Json>)
    requires ap.Some? ==> ap.value.allows && ap.value.schema.None?
    ensures AdditionalVerdicts(c, ap, fields) == map k | k in fields :: true
  {
  }

  // ------------------------------------------------------------- int-or-string

  predicate IsIntOrString(v: Json) {
    v.JInt? || v.JString?
  }

  lemma {:induction false} OnlyTypeAccepts(c: Checker, typ: string, v: Json)
    requires AcceptsUnbounded(c) && typ != ""
    ensures Valid(c, NestedToKube(OnlyType(typ)), v) <==> HasType(typ, v)
  {
    OneTypeAccepts(c, EMPTY_SCHEMA.(types := [typ]), typ, v);
    assert KubeSeq([]) == [];
    assert NestedToKube(OnlyType(typ)) == EMPTY_SCHEMA.(types := [typ]);
  }

  lemma {:induction false} OneTypeAccepts(c: Checker, sc: Schema, typ: string, v: Json)
    requires AcceptsUnbounded(c) && sc == EMPTY_SCHEMA.(types := [typ])
    ensures Valid(c, sc, v) <==> HasType(typ, v)
  {
    assert HasType(typ, v) ==> HasType(sc.types[0], v);
    NoFieldRules(c, sc, v);
  }

  /** A schema without types and rules for items or fields. */
  lemma {:induction false} NoFieldRules(c: Checker, sc: Schema, v: Json)
    requires sc.properties == map[] && sc.additionalProperties.None? && sc.items.None? && sc.patternProperties == map[] && sc.dependencies == map[]
    ensures v.JArray? ==> ItemsOk(c, sc, v.items)
    ensures v.JObject? ==> FieldsOk(c, sc, v.fields) && DependenciesOk(c, sc, v.fields)
  {
    if v.JObject? {
      assert PropertyVerdicts(c, sc, v.fields) == map[];
      NothingForbidden(c, None, AdditionalFields(c, sc, v.fields));
      assert PatternsOk(c, sc, v.fields);
    }
  }

  /** The two-element pattern lets exactly the integers and strings through. */
  lemma {:induction false} PatternAccepts(c: Checker, v: Json)
    requires AcceptsUnbounded(c)
    ensures KubeSeq(INT_OR_STRING_ANY_OF) != []
    ensures true in Verdicts(c, KubeSeq(INT_OR_STRING_ANY_OF), v) <==> IsIntOrString(v)
  {
    OnlyTypeAccepts(c, "integer", v);
    OnlyTypeAccepts(c, "string", v);
    var vs := Verdicts(c, KubeSeq(INT_OR_STRING_ANY_OF), v);
    assert vs[0] <==> v.JInt?;
    assert vs[1] <==> v.JString?;
    assert vs == [v.JInt?, v.JString?];
  }

  lemma {:induction false} PatternClauseAccepts(c: Checker, v: Json)
    requires AcceptsUnbounded(c)
    ensures Valid(c, NestedToKube(PATTERN_CLAUSE), v) <==> IsIntOrString(v)
  {
    var sc := EMPTY_SCHEMA.(anyOf := KubeSeq(INT_OR_STRING_ANY_OF));
    assert KubeSeq([]) == [];
    assert NestedToKube(PATTERN_CLAUSE) == sc;
    PatternAccepts(c, v);
    NoFieldRules(c, sc, v);
  }

  /** A nested schema whose anyOf is the pattern accepts nothing else. */
  lemma {:induction false} PatternInsideRestricts(c: Checker, n: Nested, v: Json)
    requires AcceptsUnbounded(c) && n.vv.anyOf == INT_OR_STRING_ANY_OF
    requires Valid(c, NestedToKube(n), v)
    ensures IsIntOrString(v)
  {
    assert NestedToKube(n).anyOf == KubeSeq(INT_OR_STRING_ANY_OF);
    PatternAccepts(c, v);
  }

  lemma {:induction false} DirectTypesOfIntOrString(v: Json, nullable: bool)
    requires !v.JNull?
    ensures TypesOk(["integer", "string"], nullable, v) <==> IsIntOrString(v)
  {
    var types := ["integer", "string"];
    assert HasType(types[0], v) <==> v.JInt?;
    assert HasType(types[1], v) <==> v.JString?;
  }

  /** The verdict of the OpenAPI form of a value validation's junctors. */
  ghost predicate KubeVerdict(c: Checker, vv: ValueValidation, v: Json) {
    JunctorsOk(Verdicts(c, KubeSeq(vv.allOf), v), Verdicts(c, KubeSeq(vv.oneOf), v), Verdicts(c, KubeSeq(vv.anyOf), v),
               Rejected(c, KubeOption(vv.negated), v))
  }

  lemma {:induction false} AllOfPlusOne(first: bool, allOf: seq<bool>, oneOf: seq<bool>, anyOf: seq<bool>, rejected: bool)
    ensures JunctorsOk([first] + allOf, oneOf, anyOf, rejected) <==> first && JunctorsOk(allOf, oneOf, anyOf, rejected)
  {
    if first && false in [first] + allOf {
      var i :| 0 <= i < |[first] + allOf| && !([first] + allOf)[i];
      assert allOf[i - 1] == false;
    }
    if false in allOf {
      var i :| 0 <= i < |allOf| && !allOf[i];
      assert ([first] + allOf)[i + 1] == false;
    }
    assert ([first] + allOf)[0] == first;
  }

  lemma {:induction false} PatternInFront(c: Checker, vv: ValueValidation, v: Json)
    requires AcceptsUnbounded(c)
    ensures KubeVerdict(c, vv.(allOf := [PATTERN_CLAUSE] + vv.allOf), v) <==> IsIntOrString(v) && KubeVerdict(c, vv, v)
  {
    PatternClauseAccepts(c, v);
    var a, b := Verdicts(c, KubeSeq(vv.allOf), v), Verdicts(c, KubeSeq([PATTERN_CLAUSE] + vv.allOf), v);
    assert b == [IsIntOrString(v)] + a;
    AllOfPlusOne(IsIntOrString(v), a, Verdicts(c, KubeSeq(vv.oneOf), v), Verdicts(c, KubeSeq(vv.anyOf), v), Rejected(c, KubeOption(vv.negated), v));
  }

  lemma {:induction false} PatternInAllOf(c: Checker, vv: ValueValidation, v: Json)
    requires AcceptsUnbounded(c) && IsAllOfPattern(vv) && KubeVerdict(c, vv, v)
    ensures IsIntOrString(v)
  {
    var verdicts := Verdicts(c, KubeSeq(vv.allOf), v);
    assert verdicts[0] == Valid(c, NestedToKube(vv.allOf[0]), v);
    if verdicts[0] {
      PatternInsideRestricts(c, vv.allOf[0], v);
    }
  }

  /** Unfolding an int-or-string node adds the type restriction to its junctors and nothing else. */
  lemma {:induction false} WithPatternRestricts(c: Checker, vv: ValueValidation, v: Json)
    requires AcceptsUnbounded(c)
    ensures KubeVerdict(c, WithPattern(vv), v) <==> IsIntOrString(v) && KubeVerdict(c, vv, v)
  {
    PatternAccepts(c, v);
    if IsAnyOfPattern(vv) {
    } else if IsAllOfPattern(vv) {
      if KubeVerdict(c, vv, v) {
        PatternInAllOf(c, vv, v);
      }
    } else if vv.anyOf != [] {
      PatternInFront(c, vv, v);
    }
  }

  // ----------------------------------------------------------- outside junctors

  /** What unfolding makes of the node's value validation. */
  function TwinValidation(p: Props): ValueValidation {
    if p.xIntOrString then WithPattern(ValidationOf(p)) else ValidationOf(p)
  }

  /** What a form of `p` must have of it, besides types, junctors, items and fields. */
  predicate LeavesOf(p: Props, a: Schema) {
    && a.enum == p.enum && a.bounds == p.bounds && a.required == p.required && a.nullable == p.nullable
    && a.ref == "" && a.dependencies == map[] && a.patternProperties == map[] && a.additionalItems == None
    && (a.items.Some? ==> a.items.value.schemas == [])
  }

  lemma {:induction false} DirectLeaves(p: Props)
    requires NodeSupported(p)
    ensures LeavesOf(p, Direct(p))
  {
  }

  lemma {:induction false} TwinLeaves(p: Props)
    requires NodeSupported(p)
    ensures LeavesOf(p, ToKube(Unfolded(StructuralOf(p)))) && ToKube(Unfolded(StructuralOf(p))).types == TypesOf(p.typ)
  {
    assert Unfolded(StructuralOf(p)).vv == Some(TwinValidation(p));
  }

  lemma {:induction false} StructuralJunctors(p: Props)
    ensures var b, vv := ToKube(Unfolded(StructuralOf(p))), TwinValidation(p);
      && b.allOf == KubeSeq(vv.allOf) && b.oneOf == KubeSeq(vv.oneOf) && b.anyOf == KubeSeq(vv.anyOf)
      && b.negated == KubeOption(vv.negated)
  {
    assert Unfolded(StructuralOf(p)).vv == Some(TwinValidation(p));
  }

  /** The OpenAPI form of an unfolded structural schema, field by field. */
  lemma {:induction false} StructuralShape(p: Props)
    requires NodeSupported(p)
    ensures var b, vv := ToKube(Unfolded(StructuralOf(p))), TwinValidation(p);
      && SameLeaves(Direct(p), b) && b.types == TypesOf(p.typ)
      && b.allOf == KubeSeq(vv.allOf) && b.oneOf == KubeSeq(vv.oneOf) && b.anyOf == KubeSeq(vv.anyOf)
      && b.negated == KubeOption(vv.negated)
  {
    DirectLeaves(p);
    TwinLeaves(p);
    StructuralJunctors(p);
  }

  /** The child that takes the place of a child. */
  function Twin(p: Props): Schema {
    ToKube(Unfolded(StructuralOf(p)))
  }

  function TwinOption(p: Option<Props>): Option<Schema> {
    if p.Some? then Some(Twin(p.value)) else None
  }

  lemma {:induction false} StructuralChildren(p: Props)
    ensures var b := ToKube(Unfolded(StructuralOf(p)));
      && b.properties.Keys == p.properties.Keys
      && (forall k :: k in p.properties ==> b.properties[k] == Twin(p.properties[k]))
      && ItemsSchema(b) == (if p.items.Some? then TwinOption(p.items.value.schema) else None)
  {
    var s := StructuralOf(p);
    var u := Unfolded(s);
    assert s.properties.Keys == p.properties.Keys;
    assert u.properties.Keys == s.properties.Keys;
  }

  lemma {:induction false} StructuralAdditional(p: Props)
    ensures ToKube(Unfolded(StructuralOf(p))).additionalProperties ==
      if p.additionalProperties.None? then None
      else var ap := p.additionalProperties.value;
        Some(SchemaOrBool(ap.schema.Some? || ap.allows, TwinOption(ap.schema)))
  {
  }

  lemma {:induction false} DirectJunctorShape(p: Props)
    ensures var a := Direct(p);
      && a.allOf == DirectSeq(p.allOf) && a.oneOf == DirectSeq(p.oneOf) && a.anyOf == DirectSeq(p.anyOf)
      && a.negated == DirectOption(p.negated)
  {
  }

  lemma {:induction false} DirectJunctors(c: Checker, p: Props, v: Json)
    requires PlainJunctors(p.allOf) && PlainJunctors(p.oneOf) && PlainJunctors(p.anyOf)
    requires p.negated.Some? ==> Convertible(p.negated.value) && PlainNested(p.negated.value)
    ensures JunctorVerdict(c, Direct(p), v) == KubeVerdict(c, ValidationOf(p), v)
  {
    DirectJunctorShape(p);
    NestedListAgrees(c, p.allOf, v);
    NestedListAgrees(c, p.oneOf, v);
    NestedListAgrees(c, p.anyOf, v);
    NestedOptionAgrees(c, p.negated, v);
  }

  lemma {:induction false} TwinJunctors(c: Checker, p: Props, v: Json)
    requires NodeSupported(p)
    ensures JunctorVerdict(c, Twin(p), v) == KubeVerdict(c, TwinValidation(p), v)
  {
    StructuralShape(p);
  }

  /** Types and junctors together say the same, though they divide it up differently. */
  lemma {:induction false} TypesAndJunctorsAgree(c: Checker, p: Props, v: Json)
    requires AcceptsUnbounded(c) && Convertible(p) && PlainStructural(p) && NoNulls(v)
    ensures var a, b := Direct(p), Twin(p);
      (TypesOk(a.types, a.nullable, v) && JunctorVerdict(c, a, v)) == (TypesOk(b.types, b.nullable, v) && JunctorVerdict(c, b, v))
  {
    DirectJunctors(c, p, v);
    TwinJunctors(c, p, v);
    DirectShape(p);
    StructuralShape(p);
    DirectTypesOfIntOrString(v, p.nullable);
    WithPatternRestricts(c, ValidationOf(p), v);
  }

  lemma {:induction false} EachAgrees(c: Checker, p: Option<Props>, vs: seq<Json>)
    requires AcceptsUnbounded(c) && (p.Some? ==> Convertible(p.value) && PlainStructural(p.value))
    requires forall i :: 0 <= i < |vs| ==> NoNulls(vs[i])
    ensures EachVerdict(c, DirectOption(p), vs) == EachVerdict(c, TwinOption(p), vs)
    decreases p
  {
    if p.Some? {
      forall i | 0 <= i < |vs|
        ensures Valid(c, Direct(p.value), vs[i]) == Valid(c, Twin(p.value), vs[i])
      {
        TranslationsAgree(c, p.value, vs[i]);
      }
    }
  }

  lemma {:induction false} ItemsAgree(c: Checker, p: Props, vs: seq<Json>)
    requires AcceptsUnbounded(c) && Convertible(p) && PlainStructural(p)
    requires forall i :: 0 <= i < |vs| ==> NoNulls(vs[i])
    ensures ItemsOk(c, Direct(p), vs) == ItemsOk(c, Twin(p), vs)
    decreases p, 2
  {
    StructuralShape(p);
    StructuralChildren(p);
    DirectShape(p);
    if p.items.Some? {
      EachAgrees(c, p.items.value.schema, vs);
    }
    ItemsSame(c, Direct(p), Twin(p), vs);
  }

  lemma {:induction false} PropertyAgrees(c: Checker, p: Props, k: string, v: Json)
    requires AcceptsUnbounded(c) && Convertible(p) && PlainStructural(p) && k in p.properties && NoNulls(v)
    ensures Valid(c, Direct(p.properties[k]), v) == Valid(c, Twin(p.properties[k]), v)
    decreases p, 0
  {
    TranslationsAgree(c, p.properties[k], v);
  }

  lemma {:induction false} EachPropertyAgrees(c: Checker, p: Props, fields: map<string, Json>)
    requires AcceptsUnbounded(c) && Convertible(p) && PlainStructural(p)
    requires forall k :: k in fields ==> NoNulls(fields[k])
    ensures forall k :: k in fields && k in p.properties ==>
      Valid(c, Direct(p.properties[k]), fields[k]) == Valid(c, Twin(p.properties[k]), fields[k])
    decreases p, 1
  {
    forall k | k in fields && k in p.properties
      ensures Valid(c, Direct(p.properties[k]), fields[k]) == Valid(c, Twin(p.properties[k]), fields[k])
    {
      PropertyAgrees(c, p, k, fields[k]);
    }
  }

  lemma {:induction false} PropertiesAgree(c: Checker, p: Props, fields: map<string, Json>)
    requires AcceptsUnbounded(c) && Convertible(p) && PlainStructural(p)
    requires forall k :: k in fields ==> NoNulls(fields[k])
    ensures Direct(p).properties.Keys == Twin(p).properties.Keys
    ensures PropertyVerdicts(c, Direct(p), fields) == PropertyVerdicts(c, Twin(p), fields)
    decreases p, 2
  {
    EachPropertyAgrees(c, p, fields);
    PropertiesFromEach(c, p, fields);
  }

  lemma {:induction false} PropertiesFromEach(c: Checker, p: Props, fields: map<string, Json>)
    requires NodeSupported(p)
    requires forall k :: k in fields && k in p.properties ==>
      Valid(c, Direct(p.properties[k]), fields[k]) == Valid(c, Twin(p.properties[k]), fields[k])
    ensures Direct(p).properties.Keys == Twin(p).properties.Keys
    ensures PropertyVerdicts(c, Direct(p), fields) == PropertyVerdicts(c, Twin(p), fields)
  {
    StructuralChildren(p);
    DirectShape(p);
    PropertiesSame(c, Direct(p), Twin(p), fields);
  }

  lemma {:induction false} AdditionalAgrees(c: Checker, ap: Option<PropsOrBool>, fields: map<string, Json>)
    requires AcceptsUnbounded(c)
    requires ap.Some? && ap.value.schema.Some? ==> ap.value.allows && Convertible(ap.value.schema.value) && PlainStructural(ap.value.schema.value)
    requires forall k :: k in fields ==> NoNulls(fields[k])
    ensures AdditionalVerdicts(c, DirectBool(ap), fields) ==
      AdditionalVerdicts(c, if ap.Some? then Some(SchemaOrBool(ap.value.schema.Some? || ap.value.allows, TwinOption(ap.value.schema))) else None, fields)
    decreases ap
  {
    if ap.Some? && ap.value.schema.Some? {
      var p := ap.value.schema.value;
      forall k | k in fields
        ensures Valid(c, Direct(p), fields[k]) == Valid(c, Twin(p), fields[k])
      {
        TranslationsAgree(c, p, fields[k]);
      }
    }
  }

  lemma {:induction false} FieldsAgree(c: Checker, p: Props, fields: map<string, Json>)
    requires AcceptsUnbounded(c) && Convertible(p) && PlainStructural(p)
    requires forall k :: k in fields ==> NoNulls(fields[k])
    ensures FieldsOk(c, Direct(p), fields) == FieldsOk(c, Twin(p), fields)
    decreases p, 3
  {
    var a, b := Direct(p), Twin(p);
    StructuralShape(p);
    StructuralAdditional(p);
    DirectShape(p);
    PropertiesAgree(c, p, fields);
    AdditionalAgrees(c, p.additionalProperties, AdditionalFields(c, a, fields));
    FieldsSame(c, a, b, fields);
  }

  lemma {:induction false} PartsAgree(c: Checker, p: Props, v: Json)
    requires AcceptsUnbounded(c) && Convertible(p) && PlainStructural(p) && NoNulls(v)
    ensures v.JArray? ==> ItemsOk(c, Direct(p), v.items) == ItemsOk(c, Twin(p), v.items)
    ensures v.JObject? ==> FieldsOk(c, Direct(p), v.fields) == FieldsOk(c, Twin(p), v.fields)
    decreases p, 4
  {
    if v.JArray? {
      ItemsAgree(c, p, v.items);
    }
    if v.JObject? {
      FieldsAgree(c, p, v.fields);
    }
  }

  /** Both translations of a convertible schema accept exactly the same null-free values. */
  lemma {:induction false} TranslationsAgree(c: Checker, p: Props, v: Json)
    requires AcceptsUnbounded(c) && Convertible(p) && PlainStructural(p) && NoNulls(v)
    ensures Valid(c, Direct(p), v) == Valid(c, Twin(p), v)
    decreases p, 5
  {
    PartsAgree(c, p, v);
    TypesAndJunctorsAgree(c, p, v);
    NodesAgree(c, p, v);
  }

  lemma {:induction false} NodesAgree(c: Checker, p: Props, v: Json)
    requires NodeSupported(p)
    requires var a, b := Direct(p), Twin(p);
      (TypesOk(a.types, a.nullable, v) && JunctorVerdict(c, a, v)) == (TypesOk(b.types, b.nullable, v) && JunctorVerdict(c, b, v))
    requires v.JArray? ==> ItemsOk(c, Direct(p), v.items) == ItemsOk(c, Twin(p), v.items)
    requires v.JObject? ==> FieldsOk(c, Direct(p), v.fields) == FieldsOk(c, Twin(p), v.fields)
    ensures Valid(c, Direct(p), v) == Valid(c, Twin(p), v)
  {
    StructuralShape(p);
    ValidSame(c, Direct(p), Twin(p), v);
  }

  // ------------------------------------------- each condition is needed

  lemma {:induction false} NullIsTaken(c: Checker, p: Props)
    requires AcceptsUnbounded(c) && p == EMPTY_PROPS.(xIntOrString := true, nullable := true)
    ensures Valid(c, Direct(p), JNull)
  {
    DirectShape(p);
    DirectJunctorShape(p);
  }

  lemma {:induction false} NullIsRefused(c: Checker, p: Props)
    requires AcceptsUnbounded(c) && p == EMPTY_PROPS.(xIntOrString := true, nullable := true)
    ensures !Valid(c, Twin(p), JNull)
  {
    TwinJunctors(c, p, JNull);
    WithPatternRestricts(c, ValidationOf(p), JNull);
  }

  /** A nullable int-or-string field takes null in one form and not in the other. */
  lemma {:induction false} NullDisagrees(c: Checker, p: Props)
    requires AcceptsUnbounded(c) && p == EMPTY_PROPS.(xIntOrString := true, nullable := true)
    ensures Convertible(p) && PlainStructural(p) && Valid(c, Direct(p), JNull) == true && Valid(c, Twin(p), JNull) == false
  {
    NullIsTaken(c, p);
    NullIsRefused(c, p);
  }

  lemma {:induction false} FieldIsTaken(c: Checker, n: Props, v: Json)
    requires AcceptsUnbounded(c) && n == EMPTY_PROPS.(additionalProperties := Some(PropsOrBool(false, None)))
    requires v.JObject?
    ensures Valid(c, NestedToKube(NestedOf(n)), v)
  {
    NestedShape(n);
    NestedChildren(n);
    assert KubeSeq([]) == [];
    NoFieldRules(c, NestedToKube(NestedOf(n)), v);
  }

  lemma {:induction false} FieldIsRefused(c: Checker, n: Props, v: Json)
    requires n == EMPTY_PROPS.(additionalProperties := Some(PropsOrBool(false, None)))
    requires v.JObject? && "a" in v.fields
    ensures !Valid(c, Direct(n), v)
  {
    DirectShape(n);
    AdditionalRejects(c, Direct(n), v.fields, "a");
  }

  /** additionalProperties under a junctor is dropped on the way to the OpenAPI form. */
  lemma {:induction false} NestedAdditionalPropertiesDisagree(c: Checker, n: Props, v: Json)
    requires AcceptsUnbounded(c) && n == EMPTY_PROPS.(additionalProperties := Some(PropsOrBool(false, None)))
    requires v == JObject(map["a" := JInt(1)])
    ensures Convertible(n) && NoNulls(v) && Valid(c, Direct(n), v) == false && Valid(c, NestedToKube(NestedOf(n)), v) == true
  {
    assert Convertible(n) && NoNulls(v) by {
      EmptyButOneIsPlain(n);
    }
    assert Valid(c, Direct(n), v) == false by {
      FieldIsRefused(c, n, v);
    }
    assert Valid(c, NestedToKube(NestedOf(n)), v) == true by {
      FieldIsTaken(c, n, v);
    }
  }

  lemma {:induction false} EmptyButOneIsPlain(n: Props)
    requires n == EMPTY_PROPS.(additionalProperties := Some(PropsOrBool(false, None)))
    ensures Convertible(n)
  {
  }

  /** Only structural nodes are unfolded: an int-or-string node under a junctor loses its type. */
  lemma {:induction false} NestedIntOrStringDisagrees(c: Checker, n: Props)
    requires AcceptsUnbounded(c) && n == EMPTY_PROPS.(xIntOrString := true)
    ensures Convertible(n) && Valid(c, Direct(n), JBool(true)) == false && Valid(c, NestedToKube(NestedOf(n)), JBool(true)) == true
  {
    NestedShape(n);
    DirectShape(n);
    DirectTypesOfIntOrString(JBool(true), false);
    assert KubeSeq([]) == [];
  }

  /** The direct form forgets a type that stands beside int-or-string; the structural form keeps it. */
  lemma {:induction false} TypedIntOrStringDisagrees(c: Checker, p: Props)
    requires AcceptsUnbounded(c) && p == EMPTY_PROPS.(xIntOrString := true, typ := "string")
    ensures Convertible(p) && Valid(c, Direct(p), JInt(1)) == true && Valid(c, Twin(p), JInt(1)) == false
  {
    TypeIsKept(c, p, JInt(1));
    DirectShape(p);
    DirectTypesOfIntOrString(JInt(1), false);
    DirectJunctorShape(p);
  }

  lemma {:induction false} TypeIsKept(c: Checker, p: Props, v: Json)
    requires NodeSupported(p) && p.typ != "" && !HasType(p.typ, v) && !v.JNull?
    ensures !Valid(c, Twin(p), v)
  {
    StructuralShape(p);
    TypeRejects(c, Twin(p), v);
  }

  lemma {:induction false} TypeRejects(c: Checker, sc: Schema, v: Json)
    requires !TypesOk(sc.types, sc.nullable, v)
    ensures !Valid(c, sc, v)
  {
  }

  lemma {:induction false} AdditionalRejects(c: Checker, sc: Schema, fields: map<string, Json>, k: string)
    requires k in fields && IsAdditional(c, sc.properties.Keys, sc.patternProperties.Keys, k)
    requires sc.additionalProperties.Some? && !sc.additionalProperties.value.allows
    ensures !FieldsOk(c, sc, fields)
  {
    assert AdditionalVerdicts(c, sc.additionalProperties, AdditionalFields(c, sc, fields))[k] == false;
  }

  /** Where additional properties are not allowed, the direct form refuses any field that is not a property, schema or not. */
  lemma {:induction false} DisallowedRejects(c: Checker, p: Props, fields: map<string, Json>, k: string)
    requires NodeSupported(p) && k in fields && k !in p.properties
    requires p.additionalProperties.Some? && !p.additionalProperties.value.allows
    ensures !Valid(c, Direct(p), JObject(fields))
  {
    DirectShape(p);
    AdditionalRejects(c, Direct(p), fields, k);
  }

  /** With a schema for them, the structural form is the same as if they were allowed. */
  lemma {:induction false} AllowsIsForgotten(p: Props)
    requires p.additionalProperties.Some? && p.additionalProperties.value.schema.Some?
    ensures StructuralOf(p) == StructuralOf(p.(additionalProperties := Some(p.additionalProperties.value.(allows := true))))
  {
    var q := p.(additionalProperties := Some(p.additionalProperties.value.(allows := true)));
    assert StructuralOf(p).properties == StructuralOf(q).properties;
  }
}
