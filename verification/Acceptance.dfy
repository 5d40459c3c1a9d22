/**
 What structural validation contributes to the agreement of the two translations, and what it
 does not check.
 */
module Acceptance {
  import opened Crds
  import opened Schemas
  import opened Translations
  import opened FieldPaths
  import Agreement
  import Completeness
  import SV = StructuralValidation

  /** Under a junctor: additionalProperties is not plain `false`, which the structural form loses. */
  predicate NoNestedFalse(p: Props)
    decreases p
  {
    && (p.additionalProperties.Some? && p.additionalProperties.value.schema.None? ==> p.additionalProperties.value.allows)
    && (forall i :: 0 <= i < |p.allOf| ==> NoNestedFalse(p.allOf[i]))
    && (forall i :: 0 <= i < |p.oneOf| ==> NoNestedFalse(p.oneOf[i]))
    && (forall i :: 0 <= i < |p.anyOf| ==> NoNestedFalse(p.anyOf[i]))
    && (p.negated.Some? ==> NoNestedFalse(p.negated.value))
    && (forall k :: k in p.properties ==> NoNestedFalse(p.properties[k]))
    && (p.items.Some? && p.items.value.schema.Some? ==> NoNestedFalse(p.items.value.schema.value))
  }

  /** What structural validation leaves unchecked: the type beside int-or-string, and how additionalProperties is written. */
  predicate Unchecked(p: Props)
    decreases p
  {
    && (p.xIntOrString ==> p.typ == "")
    && (forall i :: 0 <= i < |p.allOf| ==> NoNestedFalse(p.allOf[i]))
    && (forall i :: 0 <= i < |p.oneOf| ==> NoNestedFalse(p.oneOf[i]))
    && (forall i :: 0 <= i < |p.anyOf| ==> NoNestedFalse(p.anyOf[i]))
    && (p.negated.Some? ==> NoNestedFalse(p.negated.value))
    && (forall k :: k in p.properties ==> Unchecked(p.properties[k]))
    && (p.items.Some? && p.items.value.schema.Some? ==> Unchecked(p.items.value.schema.value))
    && (p.additionalProperties.Some? && p.additionalProperties.value.schema.Some? ==>
          p.additionalProperties.value.allows && Unchecked(p.additionalProperties.value.schema.value))
  }

  // -------------------------------------------------------------- under junctors

  lemma {:induction false} CleanOwnFields(r: SV.Regexps, p: Props, path: Path, o: Options)
    requires !o.nestedAdditionalProperties && SV.ForbiddenFields(NestedOf(p), path, o) == {}
    requires NoNestedFalse(p)
    ensures !p.xIntOrString && p.additionalProperties.None?
  {
    var n := NestedOf(p);
    var errors := SV.ForbiddenFields(n, path, o);
    assert n.ext.intOrString ==> SV.Problem(SV.Forbidden, path + [Child("x-kubernetes-int-or-string")]) in errors;
    assert n.additionalProperties.Some? ==> SV.Problem(SV.Forbidden, path + [Child("additionalProperties")]) in errors;
    assert n.additionalProperties.None?;
  }

  /** A nested schema without errors has neither int-or-string nor additionalProperties at any depth. */
  lemma {:induction false} CleanIsPlain(r: SV.Regexps, p: Props, skipAnyOf: bool, path: Path, o: Options)
    requires !o.nestedAdditionalProperties && NoNestedFalse(p)
    requires SV.NestedErrors(r, NestedOf(p), skipAnyOf, path, o) == {}
    requires skipAnyOf ==> NestedSeq(p.anyOf) == INT_OR_STRING_ANY_OF
    ensures Agreement.PlainNested(p)
    decreases p, 2
  {
    var n := NestedOf(p);
    SV.NestedClean(r, n, skipAnyOf, path, o);
    CleanOwnFields(r, p, path, o);
    CleanJunctorsArePlain(r, p, skipAnyOf, false, path, o);
    CleanPropertiesArePlain(r, p, path, o);
    if p.items.Some? && p.items.value.schema.Some? {
      assert n.items == Some(NestedOf(p.items.value.schema.value));
      CleanIsPlain(r, p.items.value.schema.value, false, path + [Child("items")], o);
    }
  }

  lemma {:induction false} CleanPropertiesArePlain(r: SV.Regexps, p: Props, path: Path, o: Options)
    requires !o.nestedAdditionalProperties && NoNestedFalse(p)
    requires forall k :: k in NestedOf(p).properties ==>
      SV.NestedErrors(r, NestedOf(p).properties[k], false, path + [Child("properties"), Key(k)], o) == {}
    ensures forall k :: k in p.properties ==> Agreement.PlainNested(p.properties[k])
    decreases p, 1
  {
    forall k | k in p.properties
      ensures Agreement.PlainNested(p.properties[k])
    {
      assert NestedOf(p).properties[k] == NestedOf(p.properties[k]);
      CleanIsPlain(r, p.properties[k], false, path + [Child("properties"), Key(k)], o);
    }
  }

  predicate PlainSeq(ps: seq<Props>) {
    forall i :: 0 <= i < |ps| ==> Agreement.PlainNested(ps[i])
  }

  predicate NoFalseSeq(ps: seq<Props>) {
    forall i :: 0 <= i < |ps| ==> NoNestedFalse(ps[i])
  }

  lemma {:induction false} CleanJunctorsArePlain(r: SV.Regexps, p: Props, skipAnyOf: bool, skipFirst: bool, path: Path, o: Options)
    requires !o.nestedAdditionalProperties
    requires NoFalseSeq(p.allOf) && NoFalseSeq(p.anyOf) && NoFalseSeq(p.oneOf) && (p.negated.Some? ==> NoNestedFalse(p.negated.value))
    requires SV.ValueErrors(r, ValidationOf(p), skipAnyOf, skipFirst, path, o) == {}
    requires skipAnyOf ==> NestedSeq(p.anyOf) == INT_OR_STRING_ANY_OF
    requires skipFirst ==> IsAllOfPattern(ValidationOf(p))
    ensures PlainSeq(p.allOf) && PlainSeq(p.anyOf) && PlainSeq(p.oneOf) && (p.negated.Some? ==> Agreement.PlainNested(p.negated.value))
    decreases p, 1
  {
    var noRules := o.(nestedRules := false);
    if skipAnyOf {
      PatternIsPlain(p.anyOf);
    } else {
      CleanSeqIsPlain(r, "anyOf", p.anyOf, false, path, noRules);
    }
    CleanSeqIsPlain(r, "allOf", p.allOf, skipFirst, path, o);
    CleanSeqIsPlain(r, "oneOf", p.oneOf, false, path, noRules);
    if p.negated.Some? {
      assert SV.OptionErrors(r, NestedOption(p.negated), path + [Child("not")], noRules) == {};
      CleanIsPlain(r, p.negated.value, false, path + [Child("not")], noRules);
    }
  }

  lemma {:induction false} CleanSeqIsPlain(r: SV.Regexps, name: string, ps: seq<Props>, skipFirst: bool, path: Path, o: Options)
    requires !o.nestedAdditionalProperties && NoFalseSeq(ps)
    requires SV.JunctorErrors(r, name, NestedSeq(ps), skipFirst, path, o) == {}
    requires skipFirst ==> ps != [] && NestedSeq(ps[0].anyOf) == INT_OR_STRING_ANY_OF
    ensures PlainSeq(ps)
    decreases ps
  {
    SV.JunctorClean(r, name, NestedSeq(ps), skipFirst, path, o);
    forall i | 0 <= i < |ps|
      ensures Agreement.PlainNested(ps[i])
    {
      assert SV.ElementErrors(r, name, NestedSeq(ps)[i], i, skipFirst, path, o) == {};
      CleanIsPlain(r, ps[i], skipFirst && i == 0, path + [Child(name), Index(i)], o);
    }
  }

  /** Schemas that convert to the pattern are plain: the pattern pins down every field. */
  lemma {:induction false} PatternIsPlain(ps: seq<Props>)
    requires NoFalseSeq(ps) && NestedSeq(ps) == INT_OR_STRING_ANY_OF
    ensures PlainSeq(ps)
  {
    forall i | 0 <= i < |ps|
      ensures Agreement.PlainNested(ps[i])
    {
      assert NestedSeq(ps)[i] == NestedOf(ps[i]);
      LeafIsPlain(ps[i], if i == 0 then "integer" else "string");
    }
  }

  lemma {:induction false} LeafIsPlain(p: Props, typ: string)
    requires NoNestedFalse(p) && NestedOf(p) == OnlyType(typ)
    ensures Agreement.PlainNested(p)
  {
    var n := NestedOf(p);
    assert n.vv == NO_VALIDATION && n.properties == map[] && n.additionalProperties.None? && !n.ext.intOrString;
    assert n.properties.Keys == p.properties.Keys;
    assert |p.allOf| == |n.vv.allOf| && |p.oneOf| == |n.vv.oneOf| && |p.anyOf| == |n.vv.anyOf|;
  }

  // ----------------------------------------------------------- outside junctors

  /** A schema without errors meets the conditions of the agreement. */
  lemma {:induction false} CleanIsPlainStructural(r: SV.Regexps, p: Props, lvl: SV.Level, path: Path, o: Options)
    requires !o.nestedAdditionalProperties && Unchecked(p)
    requires SV.InvariantErrors(r, StructuralOf(p), lvl, path, o) == {}
    ensures Agreement.PlainStructural(p)
    decreases p, 2
  {
    StructuralParts(r, p, lvl, path, o);
    var vv := ValidationOf(p);
    CleanJunctorsArePlain(r, p, IsAnyOfPattern(vv), IsAllOfPattern(vv), path, o);
    CleanFieldsArePlain(r, p, path, o);
    if p.items.Some? {
      CleanChildIsPlain(r, p.items.value.schema, SV.Item, path + [Child("items")], o);
    }
    if p.additionalProperties.Some? {
      CleanChildIsPlain(r, p.additionalProperties.value.schema, SV.Field, path + [Child("additionalProperties")], o);
    }
  }

  function StructuralOption(p: Option<Props>): Option<Structural> {
    if p.Some? then Some(StructuralOf(p.value)) else None
  }

  lemma {:induction false} StructuralParts(r: SV.Regexps, p: Props, lvl: SV.Level, path: Path, o: Options)
    requires SV.InvariantErrors(r, StructuralOf(p), lvl, path, o) == {}
    ensures SV.ValueErrors(r, ValidationOf(p), IsAnyOfPattern(ValidationOf(p)), IsAllOfPattern(ValidationOf(p)), path, o) == {}
    ensures SV.FieldErrors(r, StructuralOf(p), path, o) == {}
    ensures p.items.Some? ==> SV.ChildErrors(r, StructuralOption(p.items.value.schema), SV.Item, path + [Child("items")], o) == {}
    ensures p.additionalProperties.Some? ==>
      SV.ChildErrors(r, StructuralOption(p.additionalProperties.value.schema), SV.Field, path + [Child("additionalProperties")], o) == {}
  {
    var s := StructuralOf(p);
    assert s.vv == Some(ValidationOf(p));
    assert SV.NodeValueErrors(r, s, path, o) == {};
  }

  lemma {:induction false} CleanChildIsPlain(r: SV.Regexps, p: Option<Props>, lvl: SV.Level, path: Path, o: Options)
    requires !o.nestedAdditionalProperties && (p.Some? ==> Unchecked(p.value))
    requires SV.ChildErrors(r, StructuralOption(p), lvl, path, o) == {}
    ensures p.Some? ==> Agreement.PlainStructural(p.value)
    decreases p
  {
    if p.Some? {
      CleanIsPlainStructural(r, p.value, lvl, path, o);
    }
  }

  lemma {:induction false} CleanFieldsArePlain(r: SV.Regexps, p: Props, path: Path, o: Options)
    requires !o.nestedAdditionalProperties && Unchecked(p)
    requires SV.FieldErrors(r, StructuralOf(p), path, o) == {}
    ensures forall k :: k in p.properties ==> Agreement.PlainStructural(p.properties[k])
    decreases p, 1
  {
    var s := StructuralOf(p);
    forall k | k in p.properties
      ensures Agreement.PlainStructural(p.properties[k])
    {
      assert s.properties[k] == StructuralOf(p.properties[k]);
      assert SV.InvariantErrors(r, s.properties[k], SV.Field, path + [Child("properties"), Key(k)], o) <= SV.FieldErrors(r, s, path, o);
      CleanIsPlainStructural(r, p.properties[k], SV.Field, path + [Child("properties"), Key(k)], o);
    }
  }

  /** Schemas that convert and that structural validation accepts mean the same on both ways, given what it does not check. */
  lemma {:induction false} AcceptedSchemasAgree(r: SV.Regexps, c: Checker, p: Props, path: Path, v: Json)
    requires NewStructural(p).Some? && SV.Accepted(r, NewStructural(p).value, path, DEFAULT_OPTIONS) && Unchecked(p)
    requires Agreement.AcceptsUnbounded(c) && NoNulls(v)
    ensures Valid(c, Direct(p), v) <==> Valid(c, ToKube(Unfolded(NewStructural(p).value)), v)
  {
    CleanIsPlainStructural(r, p, SV.Root, path, DEFAULT_OPTIONS);
    Agreement.TranslationsAgree(c, p, v);
  }

  // ------------------------------------------------- what is not checked matters

  /** The nested schema `additionalProperties: false` converts to a nested schema that says nothing. */
  lemma {:induction false} NestedFalseVanishes(p: Props)
    requires p == EMPTY_PROPS.(additionalProperties := Some(PropsOrBool(false, None)))
    ensures Convertible(p) && NestedOf(p) == EMPTY_NESTED
  {
    assert NestedSeq([]) == [];
    assert NestedOf(p).properties == map[];
  }

  /**
   So a schema with that under allOf is accepted, and yet the direct form refuses a value that
   the structural form takes.
   */
  lemma {:induction false} AcceptedButDifferent(r: SV.Regexps, c: Checker, n: Props, p: Props, v: Json, path: Path)
    requires Agreement.AcceptsUnbounded(c)
    requires n == EMPTY_PROPS.(additionalProperties := Some(PropsOrBool(false, None)))
    requires p == EMPTY_PROPS.(typ := "object", allOf := [n])
    requires v == JObject(map["a" := JInt(1)])
    ensures Convertible(p) && SV.Accepted(r, StructuralOf(p), path, DEFAULT_OPTIONS)
    ensures NoNulls(v) && Valid(c, Direct(p), v) == false && Valid(c, Agreement.Twin(p), v) == true
  {
    NestedFalseVanishes(n);
    ClauseIsConvertible(n, p);
    IsAccepted(r, n, p, path);
    VerdictsDiffer(c, n, p, v);
  }

  lemma {:induction false} ClauseIsConvertible(n: Props, p: Props)
    requires n == EMPTY_PROPS.(additionalProperties := Some(PropsOrBool(false, None)))
    requires p == EMPTY_PROPS.(typ := "object", allOf := [n])
    ensures Convertible(p)
  {
    Agreement.EmptyButOneIsPlain(n);
  }

  lemma {:induction false} VerdictsDiffer(c: Checker, n: Props, p: Props, v: Json)
    requires Agreement.AcceptsUnbounded(c)
    requires n == EMPTY_PROPS.(additionalProperties := Some(PropsOrBool(false, None)))
    requires p == EMPTY_PROPS.(typ := "object", allOf := [n])
    requires v == JObject(map["a" := JInt(1)])
    ensures NoNulls(v) && Valid(c, Direct(p), v) == false && Valid(c, Agreement.Twin(p), v) == true
  {
    Agreement.NestedAdditionalPropertiesDisagree(c, n, v);
    DirectRefuses(c, n, p, v);
    TwinTakes(c, n, p, v);
  }

  lemma {:induction false} DirectRefuses(c: Checker, n: Props, p: Props, v: Json)
    requires p.allOf == [n] && !Valid(c, Direct(n), v)
    ensures !Valid(c, Direct(p), v)
  {
    Agreement.DirectJunctorShape(p);
    assert Verdicts(c, DirectSeq(p.allOf), v)[0] == Valid(c, Direct(n), v);
  }

  lemma {:induction false} TwinTakes(c: Checker, n: Props, p: Props, v: Json)
    requires Agreement.AcceptsUnbounded(c) && v.JObject?
    requires p == EMPTY_PROPS.(typ := "object", allOf := [n]) && Valid(c, NestedToKube(NestedOf(n)), v)
    ensures Valid(c, Agreement.Twin(p), v)
  {
    var b := Agreement.Twin(p);
    Agreement.StructuralShape(p);
    Agreement.StructuralChildren(p);
    Agreement.StructuralAdditional(p);
    assert Verdicts(c, b.allOf, v) == [true];
    assert HasType(b.types[0], v);
    Agreement.NoFieldRules(c, b, v);
  }

  lemma {:induction false} IsAccepted(r: SV.Regexps, n: Props, p: Props, path: Path)
    requires NestedOf(n) == EMPTY_NESTED && p == EMPTY_PROPS.(typ := "object", allOf := [n])
    ensures SV.Accepted(r, StructuralOf(p), path, DEFAULT_OPTIONS)
  {
    var s := StructuralOf(p);
    ObjectWithEmptyClause(n, p);
    EmptyClauseIsClean(r, s.vv.value, path, DEFAULT_OPTIONS);
    assert SV.NodeErrors(r, s, SV.Root, path, DEFAULT_OPTIONS) == {};
    assert SV.FieldErrors(r, s, path, DEFAULT_OPTIONS) == {};
    EmptyClauseIsComplete(s, path);
  }

  /** The structural form of an untyped clause under an object. */
  lemma {:induction false} ObjectWithEmptyClause(n: Props, p: Props)
    requires NestedOf(n) == EMPTY_NESTED && p == EMPTY_PROPS.(typ := "object", allOf := [n])
    ensures StructuralOf(p) == Structural(None, map[], None, NO_GENERIC.(typ := "object"), NO_EXTENSIONS, [],
                                          Some(NO_VALIDATION.(allOf := [EMPTY_NESTED])))
  {
    assert NestedSeq(p.allOf) == [EMPTY_NESTED];
    assert NestedSeq([]) == [];
    assert ValidationOf(p) == NO_VALIDATION.(allOf := [EMPTY_NESTED]);
    assert StructuralOf(p).properties == map[];
  }

  lemma {:induction false} EmptyClauseIsClean(r: SV.Regexps, vv: ValueValidation, path: Path, o: Options)
    requires vv == NO_VALIDATION.(allOf := [EMPTY_NESTED])
    ensures SV.ValueErrors(r, vv, IsAnyOfPattern(vv), IsAllOfPattern(vv), path, o) == {}
  {
    EmptyNestedIsClean(r, path + [Child("allOf"), Index(0)], o);
    assert SV.ElementErrors(r, "allOf", vv.allOf[0], 0, false, path, o) == {};
    SV.JunctorClean(r, "allOf", vv.allOf, false, path, o);
  }

  lemma {:induction false} EmptyClauseIsComplete(s: Structural, path: Path)
    requires s.vv == Some(NO_VALIDATION.(allOf := [EMPTY_NESTED]))
    ensures Completeness.Errors(s, path, DEFAULT_OPTIONS) == {}
  {
    EmptyIsComplete(s, path, path + [Child("allOf"), Index(0)]);
    assert Completeness.JunctorErrors("allOf", [EMPTY_NESTED], s, path, path, DEFAULT_OPTIONS) == {};
    assert Completeness.JunctorErrors("anyOf", [], s, path, path, DEFAULT_OPTIONS) == {};
    assert Completeness.JunctorErrors("oneOf", [], s, path, path, DEFAULT_OPTIONS) == {};
    assert Completeness.OptionErrors(None, Some(s), path, path + [Child("not")], DEFAULT_OPTIONS) == {};
    assert Completeness.ValueErrors(s.vv.value, s, path, path, DEFAULT_OPTIONS) == {};
  }

  lemma {:induction false} EmptyNestedIsClean(r: SV.Regexps, path: Path, o: Options)
    ensures SV.NestedErrors(r, EMPTY_NESTED, false, path, o) == {}
  {
    SV.NestedClean(r, EMPTY_NESTED, false, path, o);
    assert SV.ValueErrors(r, NO_VALIDATION, false, false, path, o) == {};
  }

  lemma {:induction false} EmptyIsComplete(s: Structural, sPath: Path, vPath: Path)
    ensures Completeness.NestedErrors(EMPTY_NESTED, Some(s), sPath, vPath, DEFAULT_OPTIONS) == {}
  {
    assert Completeness.JunctorErrors("allOf", [], s, sPath, vPath, DEFAULT_OPTIONS) == {};
    assert Completeness.JunctorErrors("anyOf", [], s, sPath, vPath, DEFAULT_OPTIONS) == {};
    assert Completeness.JunctorErrors("oneOf", [], s, sPath, vPath, DEFAULT_OPTIONS) == {};
    assert Completeness.ValueErrors(NO_VALIDATION, s, sPath, vPath, DEFAULT_OPTIONS) == {};
    assert Completeness.PropertiesErrors(EMPTY_NESTED, s, sPath, vPath, DEFAULT_OPTIONS) == {};
  }
}
