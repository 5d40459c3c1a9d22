/**
 Walks through a schema as it is written, and what they say about its structural form: which schemas convert, and
 that nothing said under a junctor is lost before structural validation looks at it.
 */
module SchemaWalks {
  import opened Crds
  import opened Schemas
  import opened Translations
  import opened FieldPaths
  import Completeness
  import SV = StructuralValidation
  import opened ValidationRules

  /** The schema one step below, in the places that the structural form knows. */
  function Under(p: Props, step: Completeness.Step): Option<Props> {
    match step
    case Not => p.negated
    case AllOf(i) => if i < |p.allOf| then Some(p.allOf[i]) else None
    case AnyOf(i) => if i < |p.anyOf| then Some(p.anyOf[i]) else None
    case OneOf(i) => if i < |p.oneOf| then Some(p.oneOf[i]) else None
    case Items => if p.items.Some? then p.items.value.schema else None
    case Property(k) => if k in p.properties then Some(p.properties[k]) else None
    case Additional => if p.additionalProperties.Some? then p.additionalProperties.value.schema else None
  }

  function At(p: Props, walk: Walk): Option<Props>
    decreases |walk|
  {
    if walk == [] then Some(p)
    else if Under(p, walk[0]).None? then None
    else At(Under(p, walk[0]).value, walk[1..])
  }

  lemma {:induction false} UnderIsSmaller(p: Props, step: Completeness.Step)
    requires Under(p, step).Some?
    ensures Under(p, step).value < p
  {
  }

  // ---------------------------------------------------------- what converts

  /** The node sets none of the fields that the structural form has no place for, and keeps unknown fields or says nothing about them. */
  predicate HasPlace(p: Props) {
    && p.id == "" && p.schemaURL == "" && (p.ref.None? || p.ref.value == "")
    && p.patternProperties == map[] && p.dependencies == map[] && p.additionalItems.None? && p.definitions == map[]
    && (p.xPreserveUnknownFields.None? || p.xPreserveUnknownFields.value)
    && (p.items.None? || p.items.value.schemas == [])
  }

  lemma {:induction false} NodesOfConvertible(p: Props, walk: Walk)
    requires Convertible(p) && At(p, walk).Some?
    ensures HasPlace(At(p, walk).value)
    decreases |walk|
  {
    if walk == [] {
      assert NodeSupported(p);
      assert p.xPreserveUnknownFields.Some? ==> p.xPreserveUnknownFields == Some(p.xPreserveUnknownFields.value);
    } else {
      ConvertibleUnder(p, walk[0]);
      NodesOfConvertible(Under(p, walk[0]).value, walk[1..]);
    }
  }

  lemma {:induction false} ConvertibleUnder(p: Props, step: Completeness.Step)
    requires Convertible(p) && Under(p, step).Some?
    ensures Convertible(Under(p, step).value)
  {
  }

  /** A schema that does not convert has a node without a place. */
  lemma {:induction false} WithoutPlace(p: Props) returns (walk: Walk)
    requires !Convertible(p)
    ensures At(p, walk).Some? && !HasPlace(At(p, walk).value)
    decreases p
  {
    if !NodeSupported(p) {
      walk := [];
    } else {
      var step := StepToUnsupported(p);
      UnderIsSmaller(p, step);
      var rest := WithoutPlace(Under(p, step).value);
      walk := [step] + rest;
    }
  }

  lemma {:induction false} StepToUnsupported(p: Props) returns (step: Completeness.Step)
    requires !Convertible(p) && NodeSupported(p)
    ensures Under(p, step).Some? && !Convertible(Under(p, step).value)
  {
    if i :| 0 <= i < |p.allOf| && !Convertible(p.allOf[i]) {
      step := Completeness.AllOf(i);
    } else if i :| 0 <= i < |p.oneOf| && !Convertible(p.oneOf[i]) {
      step := Completeness.OneOf(i);
    } else if i :| 0 <= i < |p.anyOf| && !Convertible(p.anyOf[i]) {
      step := Completeness.AnyOf(i);
    } else if p.negated.Some? && !Convertible(p.negated.value) {
      step := Completeness.Not;
    } else if k :| k in p.properties && !Convertible(p.properties[k]) {
      step := Completeness.Property(k);
    } else if p.items.Some? && p.items.value.schema.Some? && !Convertible(p.items.value.schema.value) {
      step := Completeness.Items;
    } else {
      step := Completeness.Additional;
    }
  }

  /** The conversion fails exactly when some node, wherever it is, has something the structural form has no place for. */
  lemma {:induction false} ConvertsExactlyWithPlaces(p: Props)
    ensures NewStructural(p).Some? <==> forall walk :: At(p, walk).Some? ==> HasPlace(At(p, walk).value)
  {
    if Convertible(p) {
      forall walk | At(p, walk).Some?
        ensures HasPlace(At(p, walk).value)
      {
        NodesOfConvertible(p, walk);
      }
    } else {
      var walk := WithoutPlace(p);
    }
  }

  // ------------------------------------------------- what is said under junctors

  lemma {:induction false} NestedUnder(p: Props, step: Completeness.Step, o: Options)
    requires Under(p, step).Some? && (step.Additional? ==> o.nestedAdditionalProperties)
    ensures Completeness.Below(NestedOf(p), step, o) == Some(NestedOf(Under(p, step).value))
  {
    var n := NestedOf(p);
    assert n.vv == ValidationOf(p);
    assert n.properties.Keys == p.properties.Keys;
  }

  predicate WithoutAdditional(walk: Walk) {
    forall i :: 0 <= i < |walk| ==> !walk[i].Additional?
  }

  /** The nested form has the node, converted, at the end of the same walk. */
  lemma {:induction false} NestedNode(p: Props, walk: Walk, o: Options)
    requires At(p, walk).Some? && (o.nestedAdditionalProperties || WithoutAdditional(walk))
    ensures NodeAt(NestedOf(p), walk, o) == Some(NestedOf(At(p, walk).value))
    decreases |walk|
  {
    if walk != [] {
      NestedUnder(p, walk[0], o);
      NestedNode(Under(p, walk[0]).value, walk[1..], o);
    }
  }

  lemma {:induction false} InsideNode(p: Props, walk: Walk, o: Options)
    requires walk != [] && IsJunctor(walk[0]) && At(p, walk).Some? && (o.nestedAdditionalProperties || WithoutAdditional(walk))
    ensures NodeAt(Completeness.RootNode(ValidationOf(p)), walk, o) == Some(NestedOf(At(p, walk).value))
  {
    NestedUnder(p, walk[0], o);
    assert Completeness.Below(Completeness.RootNode(ValidationOf(p)), walk[0], o) == Completeness.Below(NestedOf(p), walk[0], o);
    NestedNode(Under(p, walk[0]).value, walk[1..], o);
  }

  predicate IsPlace(place: Walk) {
    forall i :: 0 <= i < |place| ==> !IsJunctor(place[i])
  }

  lemma {:induction false} StructuralUnder(p: Props, step: Completeness.Step)
    requires Under(p, step).Some? && !IsJunctor(step)
    ensures Onwards(StructuralOf(p), step) == Some(StructuralOf(Under(p, step).value))
  {
    assert StructuralOf(p).properties.Keys == p.properties.Keys;
  }

  lemma {:induction false} StructuralNode(p: Props, place: Walk)
    requires IsPlace(place) && At(p, place).Some?
    ensures StructuralAt(StructuralOf(p), place) == Some(StructuralOf(At(p, place).value))
    decreases |place|
  {
    if place != [] {
      StructuralUnder(p, place[0]);
      StructuralNode(Under(p, place[0]).value, place[1..]);
    }
  }

  /** The node says something that is no value validation. */
  predicate SaysMore(p: Props) {
    || p.typ != "" || p.description != "" || p.title != "" || p.nullable || (p.default.Some? && p.default != Some(JNull))
    || p.xPreserveUnknownFields == Some(true) || p.xEmbeddedResource || p.xIntOrString
    || p.xListMapKeys != [] || p.xListType.Some? || p.xMapType.Some?
  }

  lemma {:induction false} SayingIsBreaking(p: Props, rules: bool, o: Options, at: Path) returns (e: SV.Problem)
    requires SaysMore(p)
    ensures BreaksNested(NestedOf(p), rules, o, at, e)
  {
    var n := NestedOf(p);
    e := SV.Problem(SV.Forbidden, at + [Child(
      if n.generic.typ != "" then "type"
      else if n.generic.default.Some? then "default"
      else if n.generic.title != "" then "title"
      else if n.generic.description != "" then "description"
      else if n.generic.nullable then "nullable"
      else if n.ext.preserveUnknownFields then "x-kubernetes-preserve-unknown-fields"
      else if n.ext.embeddedResource then "x-kubernetes-embedded-resource"
      else if n.ext.intOrString then "x-kubernetes-int-or-string"
      else if n.ext.listMapKeys != [] then "x-kubernetes-list-map-keys"
      else if n.ext.listType.Some? then "x-kubernetes-list-type"
      else "x-kubernetes-map-type")]);
  }

  /** A complaint inside the node at a place keeps the whole schema from being accepted. */
  lemma {:induction false} ComplaintRefuses(r: SV.Regexps, p: Props, path: Path, o: Options, place: Walk, walk: Walk, e: SV.Problem)
    requires IsPlace(place) && At(p, place).Some?
    requires ComplainsInside(r, ValidationOf(At(p, place).value), path + Completeness.ValidationPath(place), o, walk, e)
    ensures !SV.Accepted(r, StructuralOf(p), path, o)
  {
    StructuralNode(p, place);
    var s := StructuralOf(At(p, place).value);
    assert s.vv == Some(ValidationOf(At(p, place).value));
    assert ComplainsAt(r, StructuralOf(p), true, path, o, place, e);
    ErrorAt(r, StructuralOf(p), SV.Root, path, o, place, e);
  }

  /** Without the option, additionalProperties under a junctor is itself refused. */
  lemma {:induction false} AdditionalIsBreaking(q: Props, walk: Walk, k: nat, path: Path, o: Options, e: SV.Problem)
    requires k < |walk| && walk[k].Additional? && !o.nestedAdditionalProperties && WithoutAdditional(walk[..k])
    requires At(q, walk).Some? && k > 0 && IsJunctor(walk[0])
    requires e == SV.Problem(SV.Forbidden, path + Completeness.ValidationPath(walk[..k]) + [Child("additionalProperties")])
    ensures NodeAt(Completeness.RootNode(ValidationOf(q)), walk[..k], o).Some?
    ensures BreaksNested(NodeAt(Completeness.RootNode(ValidationOf(q)), walk[..k], o).value, o.nestedRules && RulesReach(walk[..k]), o,
                         path + Completeness.ValidationPath(walk[..k]), e)
  {
    AtPrefix(q, walk, k);
    InsideNode(q, walk[..k], o);
    var n := NestedOf(At(q, walk[..k]).value);
    assert n.additionalProperties.Some?;
  }

  lemma {:induction false} AtPrefix(p: Props, walk: Walk, k: nat)
    requires k < |walk| && At(p, walk).Some?
    ensures At(p, walk[..k]).Some? && Under(At(p, walk[..k]).value, walk[k]).Some?
    decreases |walk|
  {
    if k > 0 {
      AtPrefix(Under(p, walk[0]).value, walk[1..], k - 1);
      assert walk[..k][0] == walk[0] && walk[..k][1..] == walk[1..][..k - 1] && walk[1..][k - 1] == walk[k];
    }
  }

  lemma {:induction false} FirstAdditional(walk: Walk) returns (k: nat)
    requires !WithoutAdditional(walk)
    ensures k < |walk| && walk[k].Additional? && WithoutAdditional(walk[..k])
  {
    k := 0;
    while !walk[k].Additional?
      invariant k < |walk| && WithoutAdditional(walk[..k]) && exists i :: k <= i < |walk| && walk[i].Additional?
      decreases |walk| - k
    {
      k := k + 1;
    }
  }

  lemma {:induction false} SomethingBreaks(r: SV.Regexps, q: Props, path: Path, o: Options, walk: Walk) returns (part: Walk, e: SV.Problem)
    requires walk != [] && IsJunctor(walk[0]) && At(q, walk).Some? && SaysMore(At(q, walk).value)
    requires !PassedOver(ValidationOf(q), walk)
    ensures ComplainsInside(r, ValidationOf(q), path, o, part, e)
  {
    if o.nestedAdditionalProperties || WithoutAdditional(walk) {
      part := walk;
      InsideNode(q, walk, o);
      e := SayingIsBreaking(At(q, walk).value, o.nestedRules && RulesReach(walk), o, path + Completeness.ValidationPath(walk));
    } else {
      var k := FirstAdditional(walk);
      part := walk[..k];
      e := SV.Problem(SV.Forbidden, path + Completeness.ValidationPath(part) + [Child("additionalProperties")]);
      AdditionalIsBreaking(q, walk, k, path, o, e);
    }
  }

  /**
   A schema with a description, title, default, type, nullable or vendor extension below a junctor, at any depth and outside
   the two patterns that are passed over, is never accepted once it is converted, under any options.
   */
  lemma {:induction false} NotesUnderJunctorsAreRefused(r: SV.Regexps, p: Props, path: Path, o: Options, place: Walk, walk: Walk)
    requires IsPlace(place) && At(p, place).Some?
    requires walk != [] && IsJunctor(walk[0]) && At(At(p, place).value, walk).Some? && SaysMore(At(At(p, place).value, walk).value)
    requires !PassedOver(ValidationOf(At(p, place).value), walk)
    ensures !SV.Accepted(r, StructuralOf(p), path, o)
  {
    var part, e := SomethingBreaks(r, At(p, place).value, path + Completeness.ValidationPath(place), o, walk);
    ComplaintRefuses(r, p, path, o, place, part, e);
  }
}
