/** The visitor's clients: unfolding of int-or-string nodes, and the two skeletons. */
module Unfold {
  import opened Crds
  import opened Schemas
  import opened Translations
  import opened Visitor

  /** A property of every structural node of a tree. */
  predicate Everywhere(holds: Structural -> bool, s: Structural)
    decreases s
  {
    && holds(s)
    && (s.items.Some? ==> Everywhere(holds, s.items.value))
    && (forall k :: k in s.properties ==> Everywhere(holds, s.properties[k]))
    && (s.additionalProperties.Some? && s.additionalProperties.value.structural.Some? ==>
          Everywhere(holds, s.additionalProperties.value.structural.value))
  }

  /** The second tree has the shape of the first, and its nodes are related to those in their place. */
  predicate Alike(own: (Structural, Structural) -> bool, s: Structural, u: Structural)
    decreases s
  {
    && own(s, u)
    && s.items.Some? == u.items.Some? && (s.items.Some? ==> Alike(own, s.items.value, u.items.value))
    && u.properties.Keys == s.properties.Keys && (forall k :: k in s.properties ==> Alike(own, s.properties[k], u.properties[k]))
    && s.additionalProperties.Some? == u.additionalProperties.Some?
    && (s.additionalProperties.Some? ==>
          var a, b := s.additionalProperties.value, u.additionalProperties.value;
          a.allows == b.allows && a.structural.Some? == b.structural.Some?
          && (a.structural.Some? ==> Alike(own, a.structural.value, b.structural.value)))
  }

  /** Where a callback lets go of no child, the children of the mapped node are the mapped children. */
  lemma {:induction false} MappedChildren(m: Visitor, s: Structural)
    requires EditOf(m, s).keepsItems && EditOf(m, s).keepsProperties && EditOf(m, s).keepsAdditional
    ensures var t := Mapped(m, s);
      && t.items == (if s.items.Some? then Some(Mapped(m, s.items.value)) else None)
      && t.properties.Keys == s.properties.Keys
      && (forall k :: k in s.properties ==> t.properties[k] == Mapped(m, s.properties[k]))
      && t.additionalProperties.Some? == s.additionalProperties.Some?
      && (s.additionalProperties.Some? ==>
            t.additionalProperties.value.structural ==
              if s.additionalProperties.value.structural.Some? then Some(Mapped(m, s.additionalProperties.value.structural.value)) else None)
  {
    assert MappedOption(m, s.items) == if s.items.Some? then Some(Mapped(m, s.items.value)) else None;
    if s.additionalProperties.Some? {
      assert MappedAdditional(m, s.additionalProperties).value.structural == MappedOption(m, s.additionalProperties.value.structural);
    }
  }

  /** Mapping a callback that keeps every child relates the nodes as the callback relates each node to what it leaves. */
  lemma {:induction false} MappedIsAlike(m: Visitor, own: (Structural, Structural) -> bool, s: Structural)
    requires forall t :: EditOf(m, t).keepsItems && EditOf(m, t).keepsProperties && EditOf(m, t).keepsAdditional
    requires forall t :: own(t, Mapped(m, t))
    ensures Alike(own, s, Mapped(m, s))
    decreases s
  {
    MappedChildren(m, s);
    if s.items.Some? {
      MappedIsAlike(m, own, s.items.value);
    }
    forall k | k in s.properties
      ensures Alike(own, s.properties[k], Mapped(m, s.properties[k]))
    {
      MappedIsAlike(m, own, s.properties[k]);
    }
    if s.additionalProperties.Some? {
      assert MappedAdditional(m, s.additionalProperties).value.allows == s.additionalProperties.value.allows;
      if s.additionalProperties.value.structural.Some? {
        MappedIsAlike(m, own, s.additionalProperties.value.structural.value);
      }
    }
  }

  // ------------------------------------------------------------------- unfold

  predicate HasPattern(vv: Option<ValueValidation>) {
    vv.Some? && (IsAnyOfPattern(vv.value) || IsAllOfPattern(vv.value))
  }

  /** The callback: leaves a node alone that has a pattern, and reports that it did. */
  function UnfoldEdit(s: Structural): Edit {
    NoEdit(s).(changed := s.ext.intOrString && !HasPattern(s.vv), keepsValidation := s.vv.Some? || !s.ext.intOrString,
               vv := UnfoldedValidation(s))
  }

  const UNFOLDER := Visitor(Some(UnfoldEdit), None)

  lemma {:induction false} UnfolderIsHonest()
    ensures Honest(UNFOLDER)
  {
    forall s
      ensures Reports(EditOf(UNFOLDER, s), s)
    {
      assert EditOf(UNFOLDER, s) == UnfoldEdit(s);
    }
  }

  /** One node: the callback gives it what unfolding gives it. */
  lemma {:induction false} OwnUnfolded(m: Visitor, s: Structural)
    requires m == UNFOLDER
    ensures EditOf(m, s) == UnfoldEdit(s)
    ensures var t, u := Mapped(m, s), Unfolded(s); t.generic == u.generic && t.ext == u.ext && t.rules == u.rules && t.vv == u.vv
    ensures s.additionalProperties.Some? && Mapped(m, s).additionalProperties.Some? ==>
      Mapped(m, s).additionalProperties.value.allows == s.additionalProperties.value.allows
  {
    NestedUntouched(m, UnfoldedValidation(s));
  }

  lemma {:induction false} UnfoldedChildren(s: Structural)
    ensures var u := Unfolded(s);
      && u.items == (if s.items.Some? then Some(Unfolded(s.items.value)) else None)
      && u.properties.Keys == s.properties.Keys
      && (forall k :: k in s.properties ==> u.properties[k] == Unfolded(s.properties[k]))
      && u.additionalProperties.Some? == s.additionalProperties.Some?
      && (s.additionalProperties.Some? ==>
            u.additionalProperties.value == StructuralOrBool(
              if s.additionalProperties.value.structural.Some? then Some(Unfolded(s.additionalProperties.value.structural.value)) else None,
              s.additionalProperties.value.allows))
  {
  }

  /** The callback on every node is the function Unfolded. */
  lemma {:induction false} MappedIsUnfolded(m: Visitor, s: Structural)
    requires m == UNFOLDER
    ensures Mapped(m, s) == Unfolded(s)
    decreases s
  {
    OwnUnfolded(m, s);
    MappedChildren(m, s);
    UnfoldedChildren(s);
    if s.items.Some? {
      MappedIsUnfolded(m, s.items.value);
    }
    forall k | k in s.properties
      ensures Mapped(m, s.properties[k]) == Unfolded(s.properties[k])
    {
      MappedIsUnfolded(m, s.properties[k]);
    }
    if s.additionalProperties.Some? && s.additionalProperties.value.structural.Some? {
      MappedIsUnfolded(m, s.additionalProperties.value.structural.value);
    }
    SameParts(Mapped(m, s), Unfolded(s));
  }

  lemma {:induction false} SameParts(t: Structural, u: Structural)
    requires t.generic == u.generic && t.ext == u.ext && t.rules == u.rules && t.vv == u.vv && t.items == u.items
    requires t.properties.Keys == u.properties.Keys && forall k :: k in t.properties ==> t.properties[k] == u.properties[k]
    requires t.additionalProperties == u.additionalProperties
    ensures t == u
  {
    assert t.properties == u.properties;
  }

  predicate IntOrStringHasPattern(s: Structural) {
    s.ext.intOrString ==> HasPattern(s.vv)
  }

  /** After unfolding, every int-or-string node has one of the two recognised patterns. */
  lemma {:induction false} EveryIntOrStringIsPatterned(s: Structural)
    ensures Everywhere(IntOrStringHasPattern, Unfolded(s))
    decreases s
  {
    var u := Unfolded(s);
    if s.items.Some? {
      EveryIntOrStringIsPatterned(s.items.value);
    }
    forall k | k in s.properties
      ensures Everywhere(IntOrStringHasPattern, Unfolded(s.properties[k]))
    {
      EveryIntOrStringIsPatterned(s.properties[k]);
    }
    if s.additionalProperties.Some? && s.additionalProperties.value.structural.Some? {
      EveryIntOrStringIsPatterned(s.additionalProperties.value.structural.value);
    }
    assert IntOrStringHasPattern(u);
    assert u.properties.Keys == s.properties.Keys;
  }

  /** A tree whose int-or-string nodes all have a pattern is left as it is. */
  lemma {:induction false} PatternedIsFixed(s: Structural)
    requires Everywhere(IntOrStringHasPattern, s)
    ensures Unfolded(s) == s
    decreases s
  {
    assert IntOrStringHasPattern(s);
    if s.items.Some? {
      PatternedIsFixed(s.items.value);
    }
    forall k | k in s.properties
      ensures Unfolded(s.properties[k]) == s.properties[k]
    {
      PatternedIsFixed(s.properties[k]);
    }
    if s.additionalProperties.Some? && s.additionalProperties.value.structural.Some? {
      PatternedIsFixed(s.additionalProperties.value.structural.value);
    }
    assert Unfolded(s).properties == s.properties;
  }

  lemma {:induction false} UnfoldIsIdempotent(s: Structural)
    ensures Unfolded(Unfolded(s)) == Unfolded(s)
  {
    EveryIntOrStringIsPatterned(s);
    PatternedIsFixed(Unfolded(s));
  }

  /** The pattern is put in as anyOf where there is none, and in front of allOf where there is one; nothing else is touched. */
  predicate AddsPattern(before: ValueValidation, after: ValueValidation) {
    && after.bounds == before.bounds && after.enum == before.enum && after.required == before.required
    && after.oneOf == before.oneOf && after.negated == before.negated
    && (if before.anyOf == [] then after.anyOf == [OnlyType("integer"), OnlyType("string")] && after.allOf == before.allOf
        else after.anyOf == before.anyOf && |after.allOf| == |before.allOf| + 1 && after.allOf[1..] == before.allOf
             && after.allOf[0] == EMPTY_NESTED.(vv := NO_VALIDATION.(anyOf := [OnlyType("integer"), OnlyType("string")])))
  }

  predicate OwnPatternAdded(s: Structural, u: Structural) {
    && u.generic == s.generic && u.ext == s.ext && u.rules == s.rules
    && (if s.ext.intOrString && !HasPattern(s.vv) then u.vv.Some? && AddsPattern(s.vv.GetOr(NO_VALIDATION), u.vv.value) else u.vv == s.vv)
  }

  /** Unfolding alters no node but the int-or-string nodes without a pattern, and there it only adds one. */
  lemma {:induction false} UnfoldOnlyAddsPatterns(s: Structural)
    ensures Alike(OwnPatternAdded, s, Unfolded(s))
  {
    forall t
      ensures EditOf(UNFOLDER, t) == UnfoldEdit(t) && OwnPatternAdded(t, Mapped(UNFOLDER, t))
    {
      OwnUnfolded(UNFOLDER, t);
    }
    MappedIsAlike(UNFOLDER, OwnPatternAdded, s);
    MappedIsUnfolded(UNFOLDER, s);
  }

  /** The int-or-string nodes get their pattern, and nothing else is altered. */
  method Unfold(s: Structural) returns (out: Structural)
    ensures out == Unfolded(s)
    ensures Alike(OwnPatternAdded, s, out) && Everywhere(IntOrStringHasPattern, out)
  {
    UnfolderIsHonest();
    MappedIsUnfolded(UNFOLDER, s);
    UnfoldOnlyAddsPatterns(s);
    EveryIntOrStringIsPatterned(s);
    out := Visit(UNFOLDER, s);
  }

  // ---------------------------------------------------------------- skeletons

  function StripValidationEdit(s: Structural): Edit {
    NoEdit(s).(changed := s.vv.Some?, keepsValidation := s.vv.None?, vv := None)
  }

  function StripNullableEdit(s: Structural): Edit {
    NoEdit(s).(changed := s.generic.nullable, generic := s.generic.(nullable := false))
  }

  const VALIDATION_STRIPPER := Visitor(Some(StripValidationEdit), None)

  const NULLABLE_STRIPPER := Visitor(Some(StripNullableEdit), None)

  lemma {:induction false} StrippersAreHonest()
    ensures Honest(VALIDATION_STRIPPER) && Honest(NULLABLE_STRIPPER)
  {
    forall s
      ensures Reports(EditOf(VALIDATION_STRIPPER, s), s) && Reports(EditOf(NULLABLE_STRIPPER, s), s)
    {
      assert EditOf(VALIDATION_STRIPPER, s) == StripValidationEdit(s);
      assert EditOf(NULLABLE_STRIPPER, s) == StripNullableEdit(s);
    }
  }

  /** The part of a schema that is outside value validations. */
  function Skeleton(s: Structural): Structural {
    Mapped(VALIDATION_STRIPPER, s)
  }

  predicate NoValidation(s: Structural) {
    s.vv.None?
  }

  predicate NotNullable(s: Structural) {
    !s.generic.nullable
  }

  method StripValueValidations(s: Structural) returns (out: Structural)
    ensures out == Skeleton(s)
    ensures Everywhere(NoValidation, out) && Alike(OnlyValidationGone, s, out)
  {
    StrippersAreHonest();
    SkeletonKeepsTheRest(s);
    SkeletonHasNoValidation(VALIDATION_STRIPPER, s);
    out := Visit(VALIDATION_STRIPPER, s);
  }

  method StripNullable(s: Structural) returns (out: Structural)
    ensures out == Mapped(NULLABLE_STRIPPER, s)
    ensures Everywhere(NotNullable, out) && Alike(OnlyNullableCleared, s, out)
  {
    StrippersAreHonest();
    NullableStrippedKeepsTheRest(s);
    NothingIsNullable(NULLABLE_STRIPPER, s);
    out := Visit(NULLABLE_STRIPPER, s);
  }

  predicate OnlyValidationGone(s: Structural, u: Structural) {
    u.generic == s.generic && u.ext == s.ext && u.rules == s.rules && u.vv.None?
  }

  predicate OnlyNullableCleared(s: Structural, u: Structural) {
    && u.generic.description == s.generic.description && u.generic.typ == s.generic.typ && u.generic.title == s.generic.title
    && u.generic.default == s.generic.default && !u.generic.nullable
    && u.ext == s.ext && u.rules == s.rules && u.vv == s.vv
  }

  /** The skeleton is the schema without value validations: nothing else is gone. */
  lemma {:induction false} SkeletonKeepsTheRest(s: Structural)
    ensures Alike(OnlyValidationGone, s, Skeleton(s))
  {
    forall t
      ensures EditOf(VALIDATION_STRIPPER, t) == StripValidationEdit(t) && OnlyValidationGone(t, Mapped(VALIDATION_STRIPPER, t))
    {
    }
    MappedIsAlike(VALIDATION_STRIPPER, OnlyValidationGone, s);
  }

  lemma {:induction false} NullableStrippedKeepsTheRest(s: Structural)
    ensures Alike(OnlyNullableCleared, s, Mapped(NULLABLE_STRIPPER, s))
  {
    forall t
      ensures EditOf(NULLABLE_STRIPPER, t) == StripNullableEdit(t) && OnlyNullableCleared(t, Mapped(NULLABLE_STRIPPER, t))
    {
      NestedUntouched(NULLABLE_STRIPPER, t.vv);
    }
    MappedIsAlike(NULLABLE_STRIPPER, OnlyNullableCleared, s);
  }

  lemma {:induction false} SkeletonHasNoValidation(m: Visitor, s: Structural)
    requires m == VALIDATION_STRIPPER
    ensures Everywhere(NoValidation, Mapped(m, s))
    decreases s
  {
    assert EditOf(m, s) == StripValidationEdit(s);
    if s.items.Some? {
      SkeletonHasNoValidation(m, s.items.value);
    }
    forall k | k in s.properties
      ensures Everywhere(NoValidation, Mapped(m, s.properties[k]))
    {
      SkeletonHasNoValidation(m, s.properties[k]);
    }
    if s.additionalProperties.Some? && s.additionalProperties.value.structural.Some? {
      SkeletonHasNoValidation(m, s.additionalProperties.value.structural.value);
    }
    MappedChildren(m, s);
    var t := Mapped(m, s);
    assert NoValidation(t);
    assert forall k :: k in t.properties ==> Everywhere(NoValidation, t.properties[k]);
  }

  lemma {:induction false} NothingIsNullable(m: Visitor, s: Structural)
    requires m == NULLABLE_STRIPPER
    ensures Everywhere(NotNullable, Mapped(m, s))
    decreases s
  {
    assert EditOf(m, s) == StripNullableEdit(s);
    if s.items.Some? {
      NothingIsNullable(m, s.items.value);
    }
    forall k | k in s.properties
      ensures Everywhere(NotNullable, Mapped(m, s.properties[k]))
    {
      NothingIsNullable(m, s.properties[k]);
    }
    if s.additionalProperties.Some? && s.additionalProperties.value.structural.Some? {
      NothingIsNullable(m, s.additionalProperties.value.structural.value);
    }
    MappedChildren(m, s);
    var t := Mapped(m, s);
    assert NotNullable(t);
    assert forall k :: k in t.properties ==> Everywhere(NotNullable, t.properties[k]);
  }
}
