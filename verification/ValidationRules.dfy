/**
 The rules of structural validation, written out as a table per node, and the errors as exactly those of
 the nodes that break one: structural nodes by the place they are at, nested ones by the walk that leads to them.
 */
module ValidationRules {
  import opened Crds
  import opened Schemas
  import opened Translations
  import opened FieldPaths
  import Completeness
  import opened StructuralValidation

  type Walk = seq<Completeness.Step>

  // ------------------------------------------------------------ under junctors

  /** The nested node at the end of a walk. */
  function NodeAt(n: Nested, walk: Walk, o: Options): Option<Nested>
    decreases |walk|
  {
    if walk == [] then Some(n)
    else
      var below := Completeness.Below(n, walk[0], o);
      if below.None? then None else NodeAt(below.value, walk[1..], o)
  }

  /** Validation rules may stand under allOf, items, properties and additionalProperties, but not below any other junctor. */
  predicate RulesReach(walk: Walk) {
    forall i :: 0 <= i < |walk| ==> !walk[i].Not? && !walk[i].AnyOf? && !walk[i].OneOf?
  }

  predicate BreaksGenerics(n: Nested, at: Path, e: Problem) {
    || (n.generic.typ != "" && e == Problem(Forbidden, at + [Child("type")]))
    || (n.generic.default.Some? && e == Problem(Forbidden, at + [Child("default")]))
    || (n.generic.title != "" && e == Problem(Forbidden, at + [Child("title")]))
    || (n.generic.description != "" && e == Problem(Forbidden, at + [Child("description")]))
    || (n.generic.nullable && e == Problem(Forbidden, at + [Child("nullable")]))
  }

  predicate BreaksExtensions(n: Nested, at: Path, e: Problem) {
    || (n.ext.preserveUnknownFields && e == Problem(Forbidden, at + [Child("x-kubernetes-preserve-unknown-fields")]))
    || (n.ext.embeddedResource && e == Problem(Forbidden, at + [Child("x-kubernetes-embedded-resource")]))
    || (n.ext.intOrString && e == Problem(Forbidden, at + [Child("x-kubernetes-int-or-string")]))
    || (n.ext.listMapKeys != [] && e == Problem(Forbidden, at + [Child("x-kubernetes-list-map-keys")]))
    || (n.ext.listType.Some? && e == Problem(Forbidden, at + [Child("x-kubernetes-list-type")]))
    || (n.ext.mapType.Some? && e == Problem(Forbidden, at + [Child("x-kubernetes-map-type")]))
  }

  /** What a nested node must not say: anything but value validation. */
  predicate BreaksNested(n: Nested, rules: bool, o: Options, at: Path, e: Problem) {
    || BreaksGenerics(n, at, e)
    || BreaksExtensions(n, at, e)
    || (n.additionalProperties.Some? && !o.nestedAdditionalProperties && e == Problem(Forbidden, at + [Child("additionalProperties")]))
    || (n.rules != [] && !rules && e == Problem(Forbidden, at + [Child("x-kubernetes-validations")]))
    || ("metadata" in n.properties && e == Problem(Forbidden, at + [Child("properties"), Key("metadata")]))
  }

  /** A pattern must compile, under a junctor or not. */
  predicate BreaksPattern(r: Regexps, vv: ValueValidation, at: Path, e: Problem) {
    vv.bounds.pattern != "" && !r(vv.bounds.pattern) && e == Problem(Invalid, at + [Child("pattern")])
  }

  /** The walk leads to a node that is looked at and breaks a rule. */
  predicate Complains(r: Regexps, n: Nested, skipAnyOf: bool, path: Path, o: Options, walk: Walk, e: Problem) {
    && NodeAt(n, walk, o).Some?
    && !(skipAnyOf && walk != [] && walk[0].AnyOf?)
    && var at := path + Completeness.ValidationPath(walk);
       || BreaksNested(NodeAt(n, walk, o).value, o.nestedRules && RulesReach(walk), o, at, e)
       || BreaksPattern(r, NodeAt(n, walk, o).value.vv, at, e)
  }

  lemma {:induction false} GenericErrors(n: Nested, path: Path, e: Problem)
    ensures e in ForbiddenGenerics(n, path) <==> BreaksGenerics(n, path, e)
  {
  }

  lemma {:induction false} ExtensionErrorsAre(n: Nested, path: Path, e: Problem)
    ensures e in ForbiddenExtensions(n, path) <==> BreaksExtensions(n, path, e)
  {
  }

  lemma {:induction false} OwnErrors(n: Nested, path: Path, o: Options, e: Problem)
    ensures e in ForbiddenFields(n, path, o) <==> BreaksNested(n, o.nestedRules, o, path, e)
  {
    GenericErrors(n, path, e);
    ExtensionErrorsAre(n, path, e);
  }

  /** The options that are left below a step. */
  function Below(step: Completeness.Step, o: Options): Options {
    if step.Not? || step.AnyOf? || step.OneOf? then o.(nestedRules := false) else o
  }

  lemma {:induction false} SameNodes(n: Nested, walk: Walk, a: Options, b: Options)
    requires a.nestedAdditionalProperties == b.nestedAdditionalProperties
    ensures NodeAt(n, walk, a) == NodeAt(n, walk, b)
    decreases |walk|
  {
    if walk != [] && Completeness.Below(n, walk[0], a).Some? {
      SameNodes(Completeness.Below(n, walk[0], a).value, walk[1..], a, b);
    }
  }

  /** A complaint along a longer walk is one of the node below, under the options that are left there. */
  lemma {:induction false} ComplainsBelow(r: Regexps, n: Nested, skipAnyOf: bool, path: Path, o: Options,
                                          step: Completeness.Step, rest: Walk, e: Problem)
    requires Completeness.Below(n, step, o).Some? && !(skipAnyOf && step.AnyOf?)
    ensures Complains(r, n, skipAnyOf, path, o, [step] + rest, e) <==>
      Complains(r, Completeness.Below(n, step, o).value, false, path + Completeness.ValidationStep(step), Below(step, o), rest, e)
  {
    var walk := [step] + rest;
    assert walk[0] == step && walk[1..] == rest;
    SameNodes(Completeness.Below(n, step, o).value, rest, o, Below(step, o));
    Completeness.Append(path, Completeness.ValidationStep(step), Completeness.ValidationPath(rest));
    ReachSplits(step, rest);
  }

  lemma {:induction false} ReachSplits(step: Completeness.Step, rest: Walk)
    ensures RulesReach([step] + rest) <==> RulesReach(rest) && !step.Not? && !step.AnyOf? && !step.OneOf?
  {
    var walk := [step] + rest;
    assert walk[0] == step;
    assert forall i :: 0 <= i < |rest| ==> rest[i] == walk[i + 1];
  }

  /** The errors of what is one step below a node: `first` says whether the anyOf of the element is passed over. */
  predicate ErrorBelow(r: Regexps, n: Nested, first: bool, path: Path, o: Options, step: Completeness.Step, e: Problem) {
    && Completeness.Below(n, step, o).Some?
    && e in NestedErrors(r, Completeness.Below(n, step, o).value, first, path + Completeness.ValidationStep(step), Below(step, o))
  }

  lemma {:induction false} AnyOfBelow(r: Regexps, n: Nested, path: Path, o: Options, e: Problem)
    ensures e in JunctorErrors(r, "anyOf", n.vv.anyOf, false, path, o.(nestedRules := false)) <==>
      exists i: nat :: ErrorBelow(r, n, false, path, o, Completeness.AnyOf(i), e)
  {
    forall i: nat
      ensures ErrorBelow(r, n, false, path, o, Completeness.AnyOf(i), e) <==>
        i < |n.vv.anyOf| && e in ElementErrors(r, "anyOf", n.vv.anyOf[i], i, false, path, o.(nestedRules := false))
    {
    }
  }

  lemma {:induction false} AllOfBelow(r: Regexps, n: Nested, skipFirst: bool, path: Path, o: Options, e: Problem)
    ensures e in JunctorErrors(r, "allOf", n.vv.allOf, skipFirst, path, o) <==>
      exists i: nat :: ErrorBelow(r, n, skipFirst && i == 0, path, o, Completeness.AllOf(i), e)
  {
    forall i: nat
      ensures ErrorBelow(r, n, skipFirst && i == 0, path, o, Completeness.AllOf(i), e) <==>
        i < |n.vv.allOf| && e in ElementErrors(r, "allOf", n.vv.allOf[i], i, skipFirst, path, o)
    {
    }
  }

  lemma {:induction false} OneOfBelow(r: Regexps, n: Nested, path: Path, o: Options, e: Problem)
    ensures e in JunctorErrors(r, "oneOf", n.vv.oneOf, false, path, o.(nestedRules := false)) <==>
      exists i: nat :: ErrorBelow(r, n, false, path, o, Completeness.OneOf(i), e)
  {
    forall i: nat
      ensures ErrorBelow(r, n, false, path, o, Completeness.OneOf(i), e) <==>
        i < |n.vv.oneOf| && e in ElementErrors(r, "oneOf", n.vv.oneOf[i], i, false, path, o.(nestedRules := false))
    {
    }
  }

  lemma {:induction false} NotBelow(r: Regexps, n: Nested, path: Path, o: Options, e: Problem)
    ensures e in OptionErrors(r, n.vv.negated, path + [Child("not")], o.(nestedRules := false)) <==>
      ErrorBelow(r, n, false, path, o, Completeness.Not, e)
  {
  }

  /** The errors of a value validation are its own, and those one junctor below. */
  lemma {:induction false} ValueSplits(r: Regexps, n: Nested, skipAnyOf: bool, skipFirst: bool, path: Path, o: Options, e: Problem)
    ensures e in ValueErrors(r, n.vv, skipAnyOf, skipFirst, path, o) <==>
      || BreaksPattern(r, n.vv, path, e)
      || (!skipAnyOf && exists i: nat :: ErrorBelow(r, n, false, path, o, Completeness.AnyOf(i), e))
      || (exists i: nat :: ErrorBelow(r, n, skipFirst && i == 0, path, o, Completeness.AllOf(i), e))
      || (exists i: nat :: ErrorBelow(r, n, false, path, o, Completeness.OneOf(i), e))
      || ErrorBelow(r, n, false, path, o, Completeness.Not, e)
  {
    AnyOfBelow(r, n, path, o, e);
    AllOfBelow(r, n, skipFirst, path, o, e);
    OneOfBelow(r, n, path, o, e);
    NotBelow(r, n, path, o, e);
    ValueParts(r, n.vv, skipAnyOf, skipFirst, path, o, e);
  }

  lemma {:induction false} ValueParts(r: Regexps, vv: ValueValidation, skipAnyOf: bool, skipFirst: bool, path: Path, o: Options, e: Problem)
    ensures e in ValueErrors(r, vv, skipAnyOf, skipFirst, path, o) <==>
      var noRules := o.(nestedRules := false);
      || BreaksPattern(r, vv, path, e)
      || (!skipAnyOf && e in JunctorErrors(r, "anyOf", vv.anyOf, false, path, noRules))
      || e in JunctorErrors(r, "allOf", vv.allOf, skipFirst, path, o)
      || e in JunctorErrors(r, "oneOf", vv.oneOf, false, path, noRules)
      || e in OptionErrors(r, vv.negated, path + [Child("not")], noRules)
  {
  }

  lemma {:induction false} PropertiesBelow(r: Regexps, n: Nested, path: Path, o: Options, e: Problem)
    ensures e in PropertiesErrors(r, n, path, o) <==> exists k :: ErrorBelow(r, n, false, path, o, Completeness.Property(k), e)
  {
    forall k
      ensures ErrorBelow(r, n, false, path, o, Completeness.Property(k), e) <==>
        k in n.properties && e in NestedErrors(r, n.properties[k], false, path + [Child("properties"), Key(k)], o)
    {
    }
  }

  lemma {:induction false} ItemsAndAdditionalBelow(r: Regexps, n: Nested, path: Path, o: Options, e: Problem)
    ensures e in OptionErrors(r, n.items, path + [Child("items")], o) <==> ErrorBelow(r, n, false, path, o, Completeness.Items, e)
    ensures (!(n.additionalProperties.Some? && !o.nestedAdditionalProperties)
             && e in OptionErrors(r, n.additionalProperties, path + [Child("additionalProperties")], o)) <==>
      ErrorBelow(r, n, false, path, o, Completeness.Additional, e)
  {
  }

  lemma {:induction false} NestedParts(r: Regexps, n: Nested, skipAnyOf: bool, path: Path, o: Options, e: Problem)
    ensures e in NestedErrors(r, n, skipAnyOf, path, o) <==>
      || e in ForbiddenFields(n, path, o)
      || e in ValueErrors(r, n.vv, skipAnyOf, false, path, o)
      || e in OptionErrors(r, n.items, path + [Child("items")], o)
      || e in PropertiesErrors(r, n, path, o)
      || (!(n.additionalProperties.Some? && !o.nestedAdditionalProperties)
          && e in OptionErrors(r, n.additionalProperties, path + [Child("additionalProperties")], o))
  {
  }

  lemma {:induction false} NestedSplits(r: Regexps, n: Nested, skipAnyOf: bool, path: Path, o: Options, e: Problem)
    ensures e in NestedErrors(r, n, skipAnyOf, path, o) <==>
      || BreaksNested(n, o.nestedRules, o, path, e)
      || e in ValueErrors(r, n.vv, skipAnyOf, false, path, o)
      || ErrorBelow(r, n, false, path, o, Completeness.Items, e)
      || (exists k :: ErrorBelow(r, n, false, path, o, Completeness.Property(k), e))
      || ErrorBelow(r, n, false, path, o, Completeness.Additional, e)
  {
    NestedParts(r, n, skipAnyOf, path, o, e);
    OwnErrors(n, path, o, e);
    PropertiesBelow(r, n, path, o, e);
    ItemsAndAdditionalBelow(r, n, path, o, e);
  }

  /** Every error below a node comes from a step to it, and the step is looked at. */
  lemma {:induction false} StepOf(r: Regexps, n: Nested, skipAnyOf: bool, path: Path, o: Options, e: Problem) returns (step: Completeness.Step)
    requires e in NestedErrors(r, n, skipAnyOf, path, o) && !BreaksNested(n, o.nestedRules, o, path, e) && !BreaksPattern(r, n.vv, path, e)
    ensures ErrorBelow(r, n, false, path, o, step, e) && !(skipAnyOf && step.AnyOf?)
  {
    NestedSplits(r, n, skipAnyOf, path, o, e);
    ValueSplits(r, n, skipAnyOf, false, path, o, e);
    if e in ValueErrors(r, n.vv, skipAnyOf, false, path, o) {
      step := JunctorOf(r, n, skipAnyOf, path, o, e);
    } else if ErrorBelow(r, n, false, path, o, Completeness.Items, e) {
      step := Completeness.Items;
    } else if ErrorBelow(r, n, false, path, o, Completeness.Additional, e) {
      step := Completeness.Additional;
    } else {
      var k :| ErrorBelow(r, n, false, path, o, Completeness.Property(k), e);
      step := Completeness.Property(k);
    }
  }

  lemma {:induction false} JunctorOf(r: Regexps, n: Nested, skipAnyOf: bool, path: Path, o: Options, e: Problem) returns (step: Completeness.Step)
    requires e in ValueErrors(r, n.vv, skipAnyOf, false, path, o) && !BreaksPattern(r, n.vv, path, e)
    ensures ErrorBelow(r, n, false, path, o, step, e) && !(skipAnyOf && step.AnyOf?)
  {
    ValueSplits(r, n, skipAnyOf, false, path, o, e);
    if ErrorBelow(r, n, false, path, o, Completeness.Not, e) {
      step := Completeness.Not;
    } else if i: nat :| !skipAnyOf && ErrorBelow(r, n, false, path, o, Completeness.AnyOf(i), e) {
      step := Completeness.AnyOf(i);
    } else if i: nat :| ErrorBelow(r, n, false && i == 0, path, o, Completeness.AllOf(i), e) {
      step := Completeness.AllOf(i);
    } else {
      var i: nat :| ErrorBelow(r, n, false, path, o, Completeness.OneOf(i), e);
      step := Completeness.OneOf(i);
    }
  }

  /** An error one step below is an error, unless the step is passed over. */
  lemma {:induction false} ErrorOfStep(r: Regexps, n: Nested, skipAnyOf: bool, path: Path, o: Options, step: Completeness.Step, e: Problem)
    requires ErrorBelow(r, n, false, path, o, step, e) && !(skipAnyOf && step.AnyOf?)
    ensures e in NestedErrors(r, n, skipAnyOf, path, o)
  {
    NestedSplits(r, n, skipAnyOf, path, o, e);
    ValueSplits(r, n, skipAnyOf, false, path, o, e);
    match step
    case AllOf(i) => assert ErrorBelow(r, n, false && i == 0, path, o, Completeness.AllOf(i), e);
    case _ =>
  }

  lemma {:induction false} WalkOf(r: Regexps, n: Nested, skipAnyOf: bool, path: Path, o: Options, e: Problem) returns (walk: Walk)
    requires e in NestedErrors(r, n, skipAnyOf, path, o)
    ensures Complains(r, n, skipAnyOf, path, o, walk, e)
    decreases n
  {
    walk := [];
    assert path + Completeness.ValidationPath([]) == path;
    if !BreaksNested(n, o.nestedRules, o, path, e) && !BreaksPattern(r, n.vv, path, e) {
      var step := StepOf(r, n, skipAnyOf, path, o, e);
      Completeness.StepSmaller(n, step, o);
      var rest := WalkOf(r, Completeness.Below(n, step, o).value, false, path + Completeness.ValidationStep(step), Below(step, o), e);
      ComplainsBelow(r, n, skipAnyOf, path, o, step, rest, e);
      walk := [step] + rest;
    }
  }

  lemma {:induction false} ErrorOf(r: Regexps, n: Nested, skipAnyOf: bool, path: Path, o: Options, walk: Walk, e: Problem)
    requires Complains(r, n, skipAnyOf, path, o, walk, e)
    ensures e in NestedErrors(r, n, skipAnyOf, path, o)
    decreases |walk|
  {
    if walk == [] {
      assert path + Completeness.ValidationPath([]) == path;
      NestedSplits(r, n, skipAnyOf, path, o, e);
      ValueSplits(r, n, skipAnyOf, false, path, o, e);
    } else {
      var step, rest := walk[0], walk[1..];
      assert walk == [step] + rest;
      ComplainsBelow(r, n, skipAnyOf, path, o, step, rest, e);
      ErrorOf(r, Completeness.Below(n, step, o).value, false, path + Completeness.ValidationStep(step), Below(step, o), rest, e);
      ErrorOfStep(r, n, skipAnyOf, path, o, step, e);
    }
  }

  /** The errors of a nested schema are exactly the broken rules of the nodes that are looked at in it, each at its path. */
  lemma {:induction false} NestedErrorsAreBrokenRules(r: Regexps, n: Nested, skipAnyOf: bool, path: Path, o: Options, e: Problem)
    ensures e in NestedErrors(r, n, skipAnyOf, path, o) <==> exists walk :: Complains(r, n, skipAnyOf, path, o, walk, e)
  {
    if e in NestedErrors(r, n, skipAnyOf, path, o) {
      var walk := WalkOf(r, n, skipAnyOf, path, o, e);
    }
    forall walk | Complains(r, n, skipAnyOf, path, o, walk, e)
      ensures e in NestedErrors(r, n, skipAnyOf, path, o)
    {
      ErrorOf(r, n, skipAnyOf, path, o, walk, e);
    }
  }

  // -------------------------------------------------- the value validation of a node

  /** The two places where an int-or-string pattern stands, which are not looked at. */
  predicate PassedOver(vv: ValueValidation, walk: Walk) {
    || (walk != [] && walk[0].AnyOf? && vv.anyOf == INT_OR_STRING_ANY_OF)
    || (&& |walk| >= 2 && walk[0] == Completeness.AllOf(0) && walk[1].AnyOf?
        && vv.allOf != [] && vv.allOf[0].vv.anyOf == INT_OR_STRING_ANY_OF)
  }

  /** The walk leads from a structural node to a nested one that is looked at and breaks a rule. The node itself is not nested. */
  predicate ComplainsInside(r: Regexps, vv: ValueValidation, path: Path, o: Options, walk: Walk, e: Problem) {
    var n := Completeness.RootNode(vv);
    && NodeAt(n, walk, o).Some? && !PassedOver(vv, walk)
    && var at := path + Completeness.ValidationPath(walk);
       || (walk != [] && BreaksNested(NodeAt(n, walk, o).value, o.nestedRules && RulesReach(walk), o, at, e))
       || BreaksPattern(r, NodeAt(n, walk, o).value.vv, at, e)
  }

  predicate IsJunctor(step: Completeness.Step) {
    step.Not? || step.AllOf? || step.AnyOf? || step.OneOf?
  }

  lemma {:induction false} InsideSplits(r: Regexps, vv: ValueValidation, path: Path, o: Options, step: Completeness.Step, rest: Walk, e: Problem)
    requires Completeness.Below(Completeness.RootNode(vv), step, o).Some? && !(IsAnyOfPattern(vv) && step.AnyOf?)
    ensures ComplainsInside(r, vv, path, o, [step] + rest, e) <==>
      Complains(r, Completeness.Below(Completeness.RootNode(vv), step, o).value, IsAllOfPattern(vv) && step == Completeness.AllOf(0),
                path + Completeness.ValidationStep(step), Below(step, o), rest, e)
  {
    var n, walk := Completeness.RootNode(vv), [step] + rest;
    assert walk[0] == step && walk[1..] == rest;
    assert |walk| >= 2 ==> walk[1] == rest[0];
    SameNodes(Completeness.Below(n, step, o).value, rest, o, Below(step, o));
    Completeness.Append(path, Completeness.ValidationStep(step), Completeness.ValidationPath(rest));
    ReachSplits(step, rest);
  }

  /** Which step an error of a value validation comes from. */
  lemma {:induction false} InsideStepOf(r: Regexps, vv: ValueValidation, path: Path, o: Options, e: Problem) returns (step: Completeness.Step)
    requires e in ValueErrors(r, vv, IsAnyOfPattern(vv), IsAllOfPattern(vv), path, o) && !BreaksPattern(r, vv, path, e)
    ensures ErrorBelow(r, Completeness.RootNode(vv), IsAllOfPattern(vv) && step == Completeness.AllOf(0), path, o, step, e)
    ensures !(IsAnyOfPattern(vv) && step.AnyOf?)
  {
    var n := Completeness.RootNode(vv);
    ValueSplits(r, n, IsAnyOfPattern(vv), IsAllOfPattern(vv), path, o, e);
    if ErrorBelow(r, n, false, path, o, Completeness.Not, e) {
      step := Completeness.Not;
    } else if i: nat :| !IsAnyOfPattern(vv) && ErrorBelow(r, n, false, path, o, Completeness.AnyOf(i), e) {
      step := Completeness.AnyOf(i);
    } else if i: nat :| ErrorBelow(r, n, IsAllOfPattern(vv) && i == 0, path, o, Completeness.AllOf(i), e) {
      step := Completeness.AllOf(i);
    } else {
      var i: nat :| ErrorBelow(r, n, false, path, o, Completeness.OneOf(i), e);
      step := Completeness.OneOf(i);
    }
  }

  lemma {:induction false} InsideErrorOf(r: Regexps, vv: ValueValidation, path: Path, o: Options, step: Completeness.Step, e: Problem)
    requires ErrorBelow(r, Completeness.RootNode(vv), IsAllOfPattern(vv) && step == Completeness.AllOf(0), path, o, step, e)
    requires IsJunctor(step) && !(IsAnyOfPattern(vv) && step.AnyOf?)
    ensures e in ValueErrors(r, vv, IsAnyOfPattern(vv), IsAllOfPattern(vv), path, o)
  {
    ValueSplits(r, Completeness.RootNode(vv), IsAnyOfPattern(vv), IsAllOfPattern(vv), path, o, e);
    match step
    case AllOf(i) => assert ErrorBelow(r, Completeness.RootNode(vv), IsAllOfPattern(vv) && i == 0, path, o, Completeness.AllOf(i), e);
    case _ =>
  }

  lemma {:induction false} InsideWalkOf(r: Regexps, vv: ValueValidation, path: Path, o: Options, e: Problem) returns (walk: Walk)
    requires e in ValueErrors(r, vv, IsAnyOfPattern(vv), IsAllOfPattern(vv), path, o)
    ensures ComplainsInside(r, vv, path, o, walk, e)
  {
    walk := [];
    assert path + Completeness.ValidationPath([]) == path;
    if !BreaksPattern(r, vv, path, e) {
      var step := InsideStepOf(r, vv, path, o, e);
      var below := Completeness.Below(Completeness.RootNode(vv), step, o).value;
      var rest := WalkOf(r, below, IsAllOfPattern(vv) && step == Completeness.AllOf(0), path + Completeness.ValidationStep(step), Below(step, o), e);
      InsideSplits(r, vv, path, o, step, rest, e);
      walk := [step] + rest;
    }
  }

  lemma {:induction false} InsideError(r: Regexps, vv: ValueValidation, path: Path, o: Options, walk: Walk, e: Problem)
    requires ComplainsInside(r, vv, path, o, walk, e)
    ensures e in ValueErrors(r, vv, IsAnyOfPattern(vv), IsAllOfPattern(vv), path, o)
  {
    if walk == [] {
      assert path + Completeness.ValidationPath([]) == path;
      ValueParts(r, vv, IsAnyOfPattern(vv), IsAllOfPattern(vv), path, o, e);
    } else {
      var step, rest := walk[0], walk[1..];
      assert walk == [step] + rest;
      var below := Completeness.Below(Completeness.RootNode(vv), step, o).value;
      InsideSplits(r, vv, path, o, step, rest, e);
      ErrorOf(r, below, IsAllOfPattern(vv) && step == Completeness.AllOf(0), path + Completeness.ValidationStep(step), Below(step, o), rest, e);
      InsideErrorOf(r, vv, path, o, step, e);
    }
  }

  // -------------------------------------------------------------- structural nodes

  /** The structural node one step further. */
  function Onwards(s: Structural, step: Completeness.Step): Option<Structural> {
    match step
    case Items => s.items
    case Property(k) => if k in s.properties then Some(s.properties[k]) else None
    case Additional => if s.additionalProperties.Some? then s.additionalProperties.value.structural else None
    case _ => None
  }

  /** The structural node at a place. */
  function StructuralAt(s: Structural, place: Walk): Option<Structural>
    decreases |place|
  {
    if place == [] then Some(s)
    else if Onwards(s, place[0]).None? then None
    else StructuralAt(Onwards(s, place[0]).value, place[1..])
  }

  predicate BreaksType(s: Structural, root: bool, at: Path, e: Problem) {
    || (s.generic.typ == "" && s.ext.embeddedResource && e == Problem(Required, at + [Child("type")]))
    || (s.generic.typ == "" && !s.ext.intOrString && !s.ext.preserveUnknownFields && e == Problem(Required, at + [Child("type")]))
    || (s.generic.typ != "" && s.generic.typ != "object" && (root || s.ext.embeddedResource) && e == Problem(Invalid, at + [Child("type")]))
    || (s.generic.typ == "array" && s.items.None? && e == Problem(Required, at + [Child("items")]))
  }

  predicate BreaksCombination(s: Structural, root: bool, at: Path, e: Problem) {
    || (s.ext.intOrString && s.ext.preserveUnknownFields && e == Problem(Invalid, at + [Child("x-kubernetes-preserve-unknown-fields")]))
    || (s.ext.intOrString && s.ext.embeddedResource && e == Problem(Invalid, at + [Child("x-kubernetes-embedded-resource")]))
    || (s.additionalProperties.Some? && root && e == Problem(Forbidden, at + [Child("additionalProperties")]))
    || (s.additionalProperties.Some? && s.ext.embeddedResource && e == Problem(Forbidden, at + [Child("additionalProperties")]))
    || (s.ext.embeddedResource && !s.ext.preserveUnknownFields && s.properties == map[] && e == Problem(Required, at + [Child("properties")]))
  }

  predicate HasOtherType(s: Structural, k: string, typ: string, at: Path, e: Problem) {
    k in s.properties && s.properties[k].generic.typ != typ && e == Problem(Invalid, at + [Child("properties"), Key(k), Child("type")])
  }

  /** The type that the root and every embedded resource must give these properties, if they have them. */
  predicate BreaksObjectMeta(s: Structural, root: bool, at: Path, e: Problem) {
    && (root || s.ext.embeddedResource)
    && (HasOtherType(s, "kind", "string", at, e) || HasOtherType(s, "apiVersion", "string", at, e) || HasOtherType(s, "metadata", "object", at, e))
  }

  /** A metadata schema that restricts name and generateName and nothing else; its type and default do not matter here. */
  predicate SaysOnlyNames(m: Structural) {
    && (forall k :: k in m.properties ==> k == "name" || k == "generateName")
    && m.items.None? && m.additionalProperties.None? && m.rules == []
    && m.ext == Extensions(false, false, false, [], None, None)
    && m.generic.description == "" && m.generic.title == "" && !m.generic.nullable
    && (m.vv.Some? ==> m.vv.value == NO_VALIDATION)
  }

  predicate BreaksMetadata(s: Structural, root: bool, at: Path, e: Problem) {
    root && "metadata" in s.properties && !SaysOnlyNames(s.properties["metadata"])
    && e == Problem(Forbidden, at + [Child("properties"), Key("metadata")])
  }

  ghost predicate BreaksStructural(r: Regexps, s: Structural, root: bool, at: Path, o: Options, e: Problem) {
    || BreaksType(s, root, at, e)
    || BreaksCombination(s, root, at, e)
    || BreaksObjectMeta(s, root, at, e)
    || BreaksMetadata(s, root, at, e)
    || (s.vv.Some? && exists walk :: ComplainsInside(r, s.vv.value, at, o, walk, e))
  }

  lemma {:induction false} TypeErrorsAre(s: Structural, lvl: Level, path: Path, e: Problem)
    ensures e in TypeErrors(s, lvl, path) <==> BreaksType(s, lvl.Root?, path, e)
  {
  }

  lemma {:induction false} CombinationErrorsAre(s: Structural, lvl: Level, path: Path, e: Problem)
    ensures e in ExtensionErrors(s, lvl, path) <==> BreaksCombination(s, lvl.Root?, path, e)
  {
  }

  /** What is left of a metadata schema once its type, default and names are cleared is nothing exactly when it says no more. */
  lemma {:induction false} ClearedMetadataIsEmpty(m: Structural)
    ensures ClearedMetadata(m) == NOTHING_SAID <==> SaysOnlyNames(m)
  {
    var keys := m.properties.Keys;
    if SaysOnlyNames(m) {
      assert keys <= {"name", "generateName"};
      if "name" in keys && "generateName" in keys {
        assert keys == {"name", "generateName"};
      } else if "name" in keys {
        assert keys == {"name"};
      } else if "generateName" in keys {
        assert keys == {"generateName"};
      } else {
        assert m.properties == map[];
      }
    }
    if ClearedMetadata(m) == NOTHING_SAID {
      assert m.properties == map[] || keys == {"name", "generateName"} || keys == {"name"} || keys == {"generateName"};
    }
  }

  lemma {:induction false} MetadataErrorsAre(s: Structural, lvl: Level, path: Path, e: Problem)
    ensures e in MetadataErrors(s, lvl, path) <==> BreaksObjectMeta(s, lvl.Root?, path, e) || BreaksMetadata(s, lvl.Root?, path, e)
  {
    if "metadata" in s.properties {
      ClearedMetadataIsEmpty(s.properties["metadata"]);
    }
  }

  lemma {:induction false} NodeErrorsAre(r: Regexps, s: Structural, lvl: Level, path: Path, o: Options, e: Problem)
    ensures e in NodeErrors(r, s, lvl, path, o) <==> BreaksStructural(r, s, lvl.Root?, path, o, e)
  {
    TypeErrorsAre(s, lvl, path, e);
    CombinationErrorsAre(s, lvl, path, e);
    MetadataErrorsAre(s, lvl, path, e);
    if e in NodeValueErrors(r, s, path, o) {
      var walk := InsideWalkOf(r, s.vv.value, path, o, e);
    }
    if s.vv.Some? {
      forall walk | ComplainsInside(r, s.vv.value, path, o, walk, e)
        ensures e in NodeValueErrors(r, s, path, o)
      {
        InsideError(r, s.vv.value, path, o, walk, e);
      }
    }
  }

  /** The node at a place breaks a rule. */
  ghost predicate ComplainsAt(r: Regexps, s: Structural, root: bool, path: Path, o: Options, place: Walk, e: Problem) {
    && StructuralAt(s, place).Some?
    && BreaksStructural(r, StructuralAt(s, place).value, root && place == [], path + Completeness.ValidationPath(place), o, e)
  }

  lemma {:induction false} PlaceSplits(r: Regexps, s: Structural, root: bool, path: Path, o: Options, step: Completeness.Step, rest: Walk, e: Problem)
    requires Onwards(s, step).Some?
    ensures ComplainsAt(r, s, root, path, o, [step] + rest, e) <==>
      ComplainsAt(r, Onwards(s, step).value, false, path + Completeness.ValidationStep(step), o, rest, e)
  {
    var place := [step] + rest;
    assert place[0] == step && place[1..] == rest;
    Completeness.Append(path, Completeness.ValidationStep(step), Completeness.ValidationPath(rest));
  }

  function LevelBelow(step: Completeness.Step): Level {
    if step.Items? then Item else Field
  }

  /** The errors of what is one step further. */
  predicate ErrorOnwards(r: Regexps, s: Structural, path: Path, o: Options, step: Completeness.Step, e: Problem) {
    && Onwards(s, step).Some?
    && e in InvariantErrors(r, Onwards(s, step).value, LevelBelow(step), path + Completeness.ValidationStep(step), o)
  }

  lemma {:induction false} FieldOnwards(r: Regexps, s: Structural, path: Path, o: Options, k: string, e: Problem)
    ensures ErrorOnwards(r, s, path, o, Completeness.Property(k), e) <==>
      k in s.properties && e in InvariantErrors(r, s.properties[k], Field, path + [Child("properties"), Key(k)], o)
  {
  }

  lemma {:induction false} FieldsOnwards(r: Regexps, s: Structural, path: Path, o: Options, e: Problem)
    ensures e in FieldErrors(r, s, path, o) <==> exists k :: ErrorOnwards(r, s, path, o, Completeness.Property(k), e)
  {
    forall k
      ensures ErrorOnwards(r, s, path, o, Completeness.Property(k), e) <==>
        k in s.properties && e in InvariantErrors(r, s.properties[k], Field, path + [Child("properties"), Key(k)], o)
    {
      FieldOnwards(r, s, path, o, k, e);
    }
  }

  lemma {:induction false} ChildIs(r: Regexps, s: Option<Structural>, lvl: Level, path: Path, o: Options)
    ensures ChildErrors(r, s, lvl, path, o) == if s.None? then {} else InvariantErrors(r, s.value, lvl, path, o)
  {
  }

  lemma {:induction false} ItemsOnwards(r: Regexps, s: Structural, path: Path, o: Options, e: Problem)
    ensures e in ChildErrors(r, s.items, Item, path + [Child("items")], o) <==> ErrorOnwards(r, s, path, o, Completeness.Items, e)
  {
    ChildIs(r, s.items, Item, path + [Child("items")], o);
  }

  lemma {:induction false} AdditionalOnwards(r: Regexps, s: Structural, path: Path, o: Options, e: Problem)
    ensures e in ChildErrors(r, Completeness.AdditionalSchema(s), Field, path + [Child("additionalProperties")], o) <==>
      ErrorOnwards(r, s, path, o, Completeness.Additional, e)
  {
    ChildIs(r, Completeness.AdditionalSchema(s), Field, path + [Child("additionalProperties")], o);
    assert Onwards(s, Completeness.Additional) == Completeness.AdditionalSchema(s);
  }

  lemma {:induction false} InvariantParts(r: Regexps, s: Structural, lvl: Level, path: Path, o: Options, e: Problem)
    ensures e in InvariantErrors(r, s, lvl, path, o) <==>
      || e in NodeErrors(r, s, lvl, path, o)
      || e in ChildErrors(r, s.items, Item, path + [Child("items")], o)
      || e in FieldErrors(r, s, path, o)
      || e in ChildErrors(r, Completeness.AdditionalSchema(s), Field, path + [Child("additionalProperties")], o)
  {
  }

  lemma {:induction false} InvariantSplits(r: Regexps, s: Structural, lvl: Level, path: Path, o: Options, e: Problem)
    ensures e in InvariantErrors(r, s, lvl, path, o) <==>
      || BreaksStructural(r, s, lvl.Root?, path, o, e)
      || (exists step :: ErrorOnwards(r, s, path, o, step, e))
  {
    InvariantParts(r, s, lvl, path, o, e);
    NodeErrorsAre(r, s, lvl, path, o, e);
    FieldsOnwards(r, s, path, o, e);
    ItemsOnwards(r, s, path, o, e);
    AdditionalOnwards(r, s, path, o, e);
    if step :| ErrorOnwards(r, s, path, o, step, e) {
      assert step.Items? || step.Additional? || step.Property?;
    }
  }

  lemma {:induction false} OnwardsIsSmaller(s: Structural, step: Completeness.Step)
    requires Onwards(s, step).Some?
    ensures Onwards(s, step).value < s
  {
  }

  lemma {:induction false} OnwardsStepOf(r: Regexps, s: Structural, lvl: Level, path: Path, o: Options, e: Problem) returns (step: Completeness.Step)
    requires e in InvariantErrors(r, s, lvl, path, o) && !BreaksStructural(r, s, lvl.Root?, path, o, e)
    ensures ErrorOnwards(r, s, path, o, step, e) && Onwards(s, step).value < s
  {
    InvariantSplits(r, s, lvl, path, o, e);
    step :| ErrorOnwards(r, s, path, o, step, e);
    OnwardsIsSmaller(s, step);
  }

  lemma {:induction false} PlaceOf(r: Regexps, s: Structural, lvl: Level, path: Path, o: Options, e: Problem) returns (place: Walk)
    requires e in InvariantErrors(r, s, lvl, path, o)
    ensures ComplainsAt(r, s, lvl.Root?, path, o, place, e)
    decreases s
  {
    if BreaksStructural(r, s, lvl.Root?, path, o, e) {
      assert path + Completeness.ValidationPath([]) == path;
      place := [];
    } else {
      var step := OnwardsStepOf(r, s, lvl, path, o, e);
      var rest := PlaceOf(r, Onwards(s, step).value, LevelBelow(step), path + Completeness.ValidationStep(step), o, e);
      PlaceSplits(r, s, lvl.Root?, path, o, step, rest, e);
      place := [step] + rest;
    }
  }

  lemma {:induction false} ErrorAt(r: Regexps, s: Structural, lvl: Level, path: Path, o: Options, place: Walk, e: Problem)
    requires ComplainsAt(r, s, lvl.Root?, path, o, place, e)
    ensures e in InvariantErrors(r, s, lvl, path, o)
    decreases |place|
  {
    InvariantSplits(r, s, lvl, path, o, e);
    if place == [] {
      assert path + Completeness.ValidationPath([]) == path;
    } else {
      var step, rest := place[0], place[1..];
      assert place == [step] + rest;
      PlaceSplits(r, s, lvl.Root?, path, o, step, rest, e);
      ErrorAt(r, Onwards(s, step).value, LevelBelow(step), path + Completeness.ValidationStep(step), o, rest, e);
      assert ErrorOnwards(r, s, path, o, step, e);
    }
  }

  /** The errors of a schema are exactly the broken rules of its nodes, each at its path: nothing is missed and nothing made up. */
  lemma {:induction false} ErrorsAreBrokenRules(r: Regexps, s: Structural, path: Path, o: Options, e: Problem)
    ensures e in InvariantErrors(r, s, Root, path, o) <==> exists place :: ComplainsAt(r, s, true, path, o, place, e)
  {
    if e in InvariantErrors(r, s, Root, path, o) {
      var place := PlaceOf(r, s, Root, path, o, e);
    }
    forall place | ComplainsAt(r, s, true, path, o, place, e)
      ensures e in InvariantErrors(r, s, Root, path, o)
    {
      ErrorAt(r, s, Root, path, o, place, e);
    }
  }
}
