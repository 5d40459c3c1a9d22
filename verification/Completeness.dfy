/** Field paths and the options of structural validation. */
module FieldPaths {
  datatype Segment = Child(name: string) | Index(i: nat) | Key(key: string)

  type Path = seq<Segment>

  datatype Options = Options(
    nestedAdditionalProperties: bool, nestedRules: bool, validationPropertiesWithAdditionalProperties: bool)

  const DEFAULT_OPTIONS := Options(false, false, false)

  /** Every option that is on in the first is on in the second. */
  predicate NoStricter(a: Options, b: Options) {
    && (a.nestedAdditionalProperties ==> b.nestedAdditionalProperties)
    && (a.nestedRules ==> b.nestedRules)
    && (a.validationPropertiesWithAdditionalProperties ==> b.validationPropertiesWithAdditionalProperties)
  }
}

/**
 Completeness of a structural schema: whatever a value validation of the root speaks about
 must be specified outside value validations too. Errors are a set; the caller sorts them, and
 the paths in them tell them apart.
 */
module Completeness {
  import opened Crds
  import opened Schemas
  import opened Translations
  import opened FieldPaths

  /** Required at one path, because it is defined at the other. */
  datatype Incomplete = Incomplete(required: Path, definedIn: Path)

  function AdditionalSchema(s: Structural): Option<Structural> {
    if s.additionalProperties.Some? then s.additionalProperties.value.structural else None
  }

  function OptionErrors(n: Option<Nested>, s: Option<Structural>, sPath: Path, vPath: Path, o: Options): set<Incomplete>
    decreases n
  {
    if n.None? then {} else NestedErrors(n.value, s, sPath, vPath, o)
  }

  function NestedErrors(n: Nested, s: Option<Structural>, sPath: Path, vPath: Path, o: Options): set<Incomplete>
    decreases n, 1
  {
    if s.None? then {Incomplete(sPath, vPath)}
    else
      ValueErrors(n.vv, s.value, sPath, vPath, o)
      + OptionErrors(n.items, s.value.items, sPath + [Child("items")], vPath + [Child("items")], o)
      + PropertiesErrors(n, s.value, sPath, vPath, o)
      + (if o.nestedAdditionalProperties
         then OptionErrors(n.additionalProperties, AdditionalSchema(s.value), sPath + [Child("additionalProperties")],
                           vPath + [Child("additionalProperties")], o)
         else {})
  }

  function PropertiesErrors(n: Nested, s: Structural, sPath: Path, vPath: Path, o: Options): set<Incomplete>
    decreases n, 0
  {
    set k, e | k in n.properties && e in PropertyErrors(n.properties[k], s, k, sPath, vPath, o) :: e
  }

  function PropertyErrors(n: Nested, s: Structural, k: string, sPath: Path, vPath: Path, o: Options): set<Incomplete>
    decreases n, 2
  {
    NestedErrors(n, PropertySchema(s, k, o), sPath + PropertyPath(s, k, o), vPath + [Child("properties"), Key(k)], o)
  }

  /** The structural counterpart of a property; under an option additionalProperties stands in for it. */
  function PropertySchema(s: Structural, k: string, o: Options): Option<Structural> {
    if k in s.properties then Some(s.properties[k])
    else if o.validationPropertiesWithAdditionalProperties then AdditionalSchema(s) else None
  }

  function PropertyPath(s: Structural, k: string, o: Options): Path {
    if k !in s.properties && PropertySchema(s, k, o).Some? then [Child("additionalProperties")] else [Child("properties"), Key(k)]
  }

  function ValueErrors(v: ValueValidation, s: Structural, sPath: Path, vPath: Path, o: Options): set<Incomplete>
    decreases v
  {
    OptionErrors(v.negated, Some(s), sPath, vPath + [Child("not")], o)
    + JunctorErrors("allOf", v.allOf, s, sPath, vPath, o)
    + JunctorErrors("anyOf", v.anyOf, s, sPath, vPath, o)
    + JunctorErrors("oneOf", v.oneOf, s, sPath, vPath, o)
  }

  function JunctorErrors(name: string, ns: seq<Nested>, s: Structural, sPath: Path, vPath: Path, o: Options): set<Incomplete>
    decreases ns
  {
    set i, e | 0 <= i < |ns| && e in NestedErrors(ns[i], Some(s), sPath, vPath + [Child(name), Index(i)], o) :: e
  }

  /** The errors of a whole schema: only the value validation of the root is looked at. */
  function Errors(s: Structural, path: Path, o: Options): set<Incomplete> {
    if s.vv.None? then {} else ValueErrors(s.vv.value, s, path, path, o)
  }

  // ------------------------------------------------ walking value validations

  /** One step down from a nested node. */
  datatype Step = Not | AllOf(i: nat) | AnyOf(i: nat) | OneOf(i: nat) | Items | Property(k: string) | Additional

  function Get(ns: seq<Nested>, i: nat): Option<Nested> {
    if i < |ns| then Some(ns[i]) else None
  }

  /** The nested node a step leads to, if there is one. */
  function Below(n: Nested, step: Step, o: Options): Option<Nested> {
    match step
    case Not => n.vv.negated
    case AllOf(i) => Get(n.vv.allOf, i)
    case AnyOf(i) => Get(n.vv.anyOf, i)
    case OneOf(i) => Get(n.vv.oneOf, i)
    case Items => n.items
    case Property(k) => if k in n.properties then Some(n.properties[k]) else None
    case Additional => if o.nestedAdditionalProperties then n.additionalProperties else None
  }

  /** The structural node that corresponds to it: junctors stay at the same node. */
  function Counterpart(s: Structural, step: Step, o: Options): Option<Structural> {
    match step
    case Items => s.items
    case Property(k) =>
      if k in s.properties then Some(s.properties[k])
      else if o.validationPropertiesWithAdditionalProperties && s.additionalProperties.Some? then s.additionalProperties.value.structural
      else None
    case Additional => if s.additionalProperties.Some? then s.additionalProperties.value.structural else None
    case _ => Some(s)
  }

  function StructuralStep(s: Structural, step: Step, o: Options): Path {
    match step
    case Items => [Child("items")]
    case Property(k) =>
      if k !in s.properties && Counterpart(s, step, o).Some? then [Child("additionalProperties")] else [Child("properties"), Key(k)]
    case Additional => [Child("additionalProperties")]
    case _ => []
  }

  function ValidationStep(step: Step): Path {
    match step
    case Not => [Child("not")]
    case AllOf(i) => [Child("allOf"), Index(i)]
    case AnyOf(i) => [Child("anyOf"), Index(i)]
    case OneOf(i) => [Child("oneOf"), Index(i)]
    case Items => [Child("items")]
    case Property(k) => [Child("properties"), Key(k)]
    case Additional => [Child("additionalProperties")]
  }

  function ValidationPath(walk: seq<Step>): Path {
    if walk == [] then [] else ValidationStep(walk[0]) + ValidationPath(walk[1..])
  }

  function StructuralPath(s: Structural, walk: seq<Step>, o: Options): Path {
    if walk == [] then []
    else
      StructuralStep(s, walk[0], o)
      + if Counterpart(s, walk[0], o).None? then [] else StructuralPath(Counterpart(s, walk[0], o).value, walk[1..], o)
  }

  /** The walk stays inside the nested node. */
  predicate Walkable(n: Nested, walk: seq<Step>, o: Options)
    decreases |walk|
  {
    walk == [] || (Below(n, walk[0], o).Some? && Walkable(Below(n, walk[0], o).value, walk[1..], o))
  }

  /** Every step of the walk has a structural counterpart. */
  predicate Resolves(s: Structural, walk: seq<Step>, o: Options)
    decreases |walk|
  {
    walk == [] || (Counterpart(s, walk[0], o).Some? && Resolves(Counterpart(s, walk[0], o).value, walk[1..], o))
  }

  /** A walk whose last step, and no step before it, is without counterpart. */
  predicate Unmatched(n: Nested, s: Structural, walk: seq<Step>, o: Options)
    decreases |walk|
  {
    walk != [] && Walkable(n, walk, o) && !Resolves(s, walk, o) && Resolves(s, walk[..|walk| - 1], o)
  }

  function ErrorOf(s: Structural, sPath: Path, vPath: Path, walk: seq<Step>, o: Options): Incomplete {
    Incomplete(sPath + StructuralPath(s, walk, o), vPath + ValidationPath(walk))
  }

  // -------------------------------------------------- errors and unmatched walks

  lemma {:induction false} UnmatchedSplits(n: Nested, s: Structural, step: Step, rest: seq<Step>, o: Options)
    ensures Unmatched(n, s, [step] + rest, o) <==>
      && Below(n, step, o).Some?
      && (if Counterpart(s, step, o).None? then rest == []
          else Unmatched(Below(n, step, o).value, Counterpart(s, step, o).value, rest, o))
  {
    var walk := [step] + rest;
    assert walk[0] == step && walk[1..] == rest;
    var front := walk[..|walk| - 1];
    if rest == [] {
      assert front == [];
    } else {
      assert front[0] == step && front[1..] == rest[..|rest| - 1];
    }
    assert Walkable(n, walk, o) <==> Below(n, step, o).Some? && Walkable(Below(n, step, o).value, rest, o);
    assert Resolves(s, walk, o) <==> Counterpart(s, step, o).Some? && Resolves(Counterpart(s, step, o).value, rest, o);
  }

  /** An error below a step is an error. */
  lemma {:induction false} ErrorFromStep(n: Nested, s: Structural, sPath: Path, vPath: Path, o: Options, step: Step, e: Incomplete)
    requires Below(n, step, o).Some?
    requires e in NestedErrors(Below(n, step, o).value, Counterpart(s, step, o), sPath + StructuralStep(s, step, o), vPath + ValidationStep(step), o)
    ensures e in NestedErrors(n, Some(s), sPath, vPath, o)
  {
    if !step.Items? && !step.Property? && !step.Additional? {
      assert sPath + StructuralStep(s, step, o) == sPath;
    }
    match step
    case Not => assert e in ValueErrors(n.vv, s, sPath, vPath, o);
    case AllOf(i) => InJunctor("allOf", n.vv.allOf, i, s, sPath, vPath, o, e);
    case AnyOf(i) => InJunctor("anyOf", n.vv.anyOf, i, s, sPath, vPath, o, e);
    case OneOf(i) => InJunctor("oneOf", n.vv.oneOf, i, s, sPath, vPath, o, e);
    case Items => assert e in OptionErrors(n.items, s.items, sPath + [Child("items")], vPath + [Child("items")], o);
    case Property(k) => assert e in PropertyErrors(n.properties[k], s, k, sPath, vPath, o) && e in PropertiesErrors(n, s, sPath, vPath, o);
    case Additional =>
  }

  lemma {:induction false} InJunctor(name: string, ns: seq<Nested>, i: nat, s: Structural, sPath: Path, vPath: Path, o: Options, e: Incomplete)
    requires i < |ns| && e in NestedErrors(ns[i], Some(s), sPath, vPath + [Child(name), Index(i)], o)
    ensures e in JunctorErrors(name, ns, s, sPath, vPath, o)
  {
  }

  /** Every error of a node that has a counterpart comes from a step. */
  lemma {:induction false} StepOfError(n: Nested, s: Structural, sPath: Path, vPath: Path, o: Options, e: Incomplete) returns (step: Step)
    requires e in NestedErrors(n, Some(s), sPath, vPath, o)
    ensures Below(n, step, o).Some?
    ensures e in NestedErrors(Below(n, step, o).value, Counterpart(s, step, o), sPath + StructuralStep(s, step, o), vPath + ValidationStep(step), o)
  {
    if e in ValueErrors(n.vv, s, sPath, vPath, o) {
      step := JunctorOfError(n, s, sPath, vPath, o, e);
    } else if e in OptionErrors(n.items, s.items, sPath + [Child("items")], vPath + [Child("items")], o) {
      step := Items;
    } else if e in PropertiesErrors(n, s, sPath, vPath, o) {
      var k :| k in n.properties && e in PropertyErrors(n.properties[k], s, k, sPath, vPath, o);
      step := Property(k);
      assert PropertyErrors(n.properties[k], s, k, sPath, vPath, o) ==
        NestedErrors(n.properties[k], Counterpart(s, step, o), sPath + StructuralStep(s, step, o), vPath + ValidationStep(step), o);
    } else {
      step := Additional;
      assert e in OptionErrors(n.additionalProperties, AdditionalSchema(s), sPath + [Child("additionalProperties")],
                               vPath + [Child("additionalProperties")], o);
    }
  }

  lemma {:induction false} JunctorOfError(n: Nested, s: Structural, sPath: Path, vPath: Path, o: Options, e: Incomplete) returns (step: Step)
    requires e in ValueErrors(n.vv, s, sPath, vPath, o)
    ensures Below(n, step, o).Some?
    ensures e in NestedErrors(Below(n, step, o).value, Counterpart(s, step, o), sPath + StructuralStep(s, step, o), vPath + ValidationStep(step), o)
  {
    assert sPath + [] == sPath;
    if e in JunctorErrors("allOf", n.vv.allOf, s, sPath, vPath, o) {
      var i :| 0 <= i < |n.vv.allOf| && e in NestedErrors(n.vv.allOf[i], Some(s), sPath, vPath + [Child("allOf"), Index(i)], o);
      step := AllOf(i);
    } else if e in JunctorErrors("anyOf", n.vv.anyOf, s, sPath, vPath, o) {
      var i :| 0 <= i < |n.vv.anyOf| && e in NestedErrors(n.vv.anyOf[i], Some(s), sPath, vPath + [Child("anyOf"), Index(i)], o);
      step := AnyOf(i);
    } else if e in JunctorErrors("oneOf", n.vv.oneOf, s, sPath, vPath, o) {
      var i :| 0 <= i < |n.vv.oneOf| && e in NestedErrors(n.vv.oneOf[i], Some(s), sPath, vPath + [Child("oneOf"), Index(i)], o);
      step := OneOf(i);
    } else {
      step := Not;
    }
  }

  lemma {:induction false} StepSmaller(n: Nested, step: Step, o: Options)
    requires Below(n, step, o).Some?
    ensures Below(n, step, o).value < n
  {
  }

  lemma {:induction false} ErrorOfSplits(s: Structural, sPath: Path, vPath: Path, step: Step, rest: seq<Step>, o: Options)
    ensures Counterpart(s, step, o).Some? ==>
      ErrorOf(s, sPath, vPath, [step] + rest, o) ==
      ErrorOf(Counterpart(s, step, o).value, sPath + StructuralStep(s, step, o), vPath + ValidationStep(step), rest, o)
    ensures Counterpart(s, step, o).None? && rest == [] ==>
      ErrorOf(s, sPath, vPath, [step] + rest, o) == Incomplete(sPath + StructuralStep(s, step, o), vPath + ValidationStep(step))
  {
    var walk := [step] + rest;
    assert walk[0] == step && walk[1..] == rest;
    assert ValidationPath(walk) == ValidationStep(step) + ValidationPath(rest);
    Append(vPath, ValidationStep(step), ValidationPath(rest));
    if Counterpart(s, step, o).Some? {
      assert StructuralPath(s, walk, o) == StructuralStep(s, step, o) + StructuralPath(Counterpart(s, step, o).value, rest, o);
      Append(sPath, StructuralStep(s, step, o), StructuralPath(Counterpart(s, step, o).value, rest, o));
    } else {
      assert StructuralPath(s, walk, o) == StructuralStep(s, step, o);
    }
  }

  lemma {:induction false} Append(a: Path, b: Path, c: Path)
    ensures a + (b + c) == a + b + c
  {
  }

  /** An error belongs to an unmatched walk. */
  lemma {:induction false} WalkOfError(n: Nested, s: Structural, sPath: Path, vPath: Path, o: Options, e: Incomplete) returns (walk: seq<Step>)
    requires e in NestedErrors(n, Some(s), sPath, vPath, o)
    ensures Unmatched(n, s, walk, o) && e == ErrorOf(s, sPath, vPath, walk, o)
    decreases n
  {
    var step := StepOfError(n, s, sPath, vPath, o, e);
    StepSmaller(n, step, o);
    var rest: seq<Step> := [];
    if Counterpart(s, step, o).Some? {
      rest := WalkOfError(Below(n, step, o).value, Counterpart(s, step, o).value, sPath + StructuralStep(s, step, o),
                          vPath + ValidationStep(step), o, e);
    }
    UnmatchedSplits(n, s, step, rest, o);
    ErrorOfSplits(s, sPath, vPath, step, rest, o);
    walk := [step] + rest;
  }

  /** An unmatched walk has its error. */
  lemma {:induction false} ErrorOfWalk(n: Nested, s: Structural, sPath: Path, vPath: Path, o: Options, walk: seq<Step>)
    requires Unmatched(n, s, walk, o)
    ensures ErrorOf(s, sPath, vPath, walk, o) in NestedErrors(n, Some(s), sPath, vPath, o)
    decreases |walk|
  {
    var step, rest := walk[0], walk[1..];
    assert walk == [step] + rest;
    UnmatchedSplits(n, s, step, rest, o);
    ErrorOfSplits(s, sPath, vPath, step, rest, o);
    if Counterpart(s, step, o).Some? {
      ErrorOfWalk(Below(n, step, o).value, Counterpart(s, step, o).value, sPath + StructuralStep(s, step, o), vPath + ValidationStep(step), o, rest);
    }
    ErrorFromStep(n, s, sPath, vPath, o, step, ErrorOf(s, sPath, vPath, walk, o));
  }

  // ------------------------------------------------------------- main results

  /** The value validation of the root, as a nested node with nothing else. */
  function RootNode(v: ValueValidation): Nested {
    EMPTY_NESTED.(vv := v)
  }

  lemma {:induction false} RootErrors(s: Structural, path: Path, o: Options)
    requires s.vv.Some?
    ensures Errors(s, path, o) == NestedErrors(RootNode(s.vv.value), Some(s), path, path, o)
  {
    assert PropertiesErrors(RootNode(s.vv.value), s, path, path, o) == {};
  }

  /** The errors are those of the unmatched walks through the root's value validation. */
  lemma {:induction false} ErrorsAreUnmatchedWalks(s: Structural, path: Path, o: Options, e: Incomplete)
    requires s.vv.Some?
    ensures e in Errors(s, path, o) <==> exists walk :: Unmatched(RootNode(s.vv.value), s, walk, o) && e == ErrorOf(s, path, path, walk, o)
  {
    var n := RootNode(s.vv.value);
    RootErrors(s, path, o);
    if e in Errors(s, path, o) {
      var walk := WalkOfError(n, s, path, path, o, e);
    }
    forall walk | Unmatched(n, s, walk, o)
      ensures ErrorOf(s, path, path, walk, o) in Errors(s, path, o)
    {
      ErrorOfWalk(n, s, path, path, o, walk);
    }
  }

  lemma {:induction false} ValidationPathInjective(a: seq<Step>, b: seq<Step>)
    requires ValidationPath(a) == ValidationPath(b)
    ensures a == b
    decreases |a|
  {
    EmptyPath(a);
    EmptyPath(b);
    if a != [] && b != [] {
      var pa, pb := ValidationPath(a), ValidationPath(b);
      var sa, sb := ValidationStep(a[0]), ValidationStep(b[0]);
      assert pa[0] == sa[0] && pb[0] == sb[0];
      assert |sa| > 1 ==> pa[1] == sa[1];
      assert |sb| > 1 ==> pb[1] == sb[1];
      assert a[0] == b[0];
      assert pa[|sa|..] == ValidationPath(a[1..]) && pb[|sb|..] == ValidationPath(b[1..]);
      ValidationPathInjective(a[1..], b[1..]);
      assert a == [a[0]] + a[1..] && b == [b[0]] + b[1..];
    }
  }

  lemma {:induction false} EmptyPath(walk: seq<Step>)
    ensures ValidationPath(walk) == [] <==> walk == []
  {
    if walk != [] {
      assert |ValidationStep(walk[0])| > 0;
    }
  }

  /** No two walks share an error. */
  lemma {:induction false} OneErrorPerWalk(s: Structural, path: Path, o: Options, a: seq<Step>, b: seq<Step>)
    requires ErrorOf(s, path, path, a, o) == ErrorOf(s, path, path, b, o)
    ensures a == b
  {
    assert (path + ValidationPath(a))[|path|..] == ValidationPath(a);
    assert (path + ValidationPath(b))[|path|..] == ValidationPath(b);
    ValidationPathInjective(a, b);
  }

  /** There is an error exactly when some walk through the root's value validation does not resolve. */
  lemma {:induction false} CompleteIffAllResolve(s: Structural, path: Path, o: Options)
    requires s.vv.Some?
    ensures Errors(s, path, o) == {} <==> forall walk :: Walkable(RootNode(s.vv.value), walk, o) ==> Resolves(s, walk, o)
  {
    var n := RootNode(s.vv.value);
    RootErrors(s, path, o);
    forall walk | Walkable(n, walk, o) && !Resolves(s, walk, o)
      ensures Errors(s, path, o) != {}
    {
      var shortest := ShortestUnmatched(n, s, walk, o);
      ErrorOfWalk(n, s, path, path, o, shortest);
    }
    if e :| e in Errors(s, path, o) {
      var walk := WalkOfError(n, s, path, path, o, e);
      assert Walkable(n, walk, o) && !Resolves(s, walk, o);
    }
  }

  lemma {:induction false} CompleteWalkResolves(s: Structural, path: Path, o: Options, walk: seq<Step>)
    requires s.vv.Some? && Errors(s, path, o) == {} && Walkable(RootNode(s.vv.value), walk, o)
    ensures Resolves(s, walk, o)
  {
    var n := RootNode(s.vv.value);
    RootErrors(s, path, o);
    if !Resolves(s, walk, o) {
      var shortest := ShortestUnmatched(n, s, walk, o);
      ErrorOfWalk(n, s, path, path, o, shortest);
      assert false;
    }
  }

  /** A walk that does not resolve begins with an unmatched one. */
  lemma {:induction false} ShortestUnmatched(n: Nested, s: Structural, walk: seq<Step>, o: Options) returns (shortest: seq<Step>)
    requires Walkable(n, walk, o) && !Resolves(s, walk, o)
    ensures Unmatched(n, s, shortest, o)
    decreases |walk|
  {
    var step := walk[0];
    var rest: seq<Step> := [];
    if Counterpart(s, step, o).Some? {
      rest := ShortestUnmatched(Below(n, step, o).value, Counterpart(s, step, o).value, walk[1..], o);
    }
    UnmatchedSplits(n, s, step, rest, o);
    shortest := [step] + rest;
  }

  // ------------------------------------------------------------- the checkers

  method CheckOption(n: Option<Nested>, s: Option<Structural>, sPath: Path, vPath: Path, o: Options) returns (allErrs: set<Incomplete>)
    ensures allErrs == OptionErrors(n, s, sPath, vPath, o)
    decreases n
  {
    if n.None? {
      return {};
    }
    allErrs := ValidateNestedCompleteness(n.value, s, sPath, vPath, o);
  }

  method ValidateNestedCompleteness(n: Nested, s: Option<Structural>, sPath: Path, vPath: Path, o: Options) returns (allErrs: set<Incomplete>)
    ensures allErrs == NestedErrors(n, s, sPath, vPath, o)
    decreases n, 1
  {
    if s.None? {
      return {Incomplete(sPath, vPath)};
    }
    allErrs := ValidateValueCompleteness(n.vv, s.value, sPath, vPath, o);
    var items := CheckOption(n.items, s.value.items, sPath + [Child("items")], vPath + [Child("items")], o);
    allErrs := allErrs + items;
    var properties := CheckProperties(n, s.value, sPath, vPath, o);
    allErrs := allErrs + properties;
    if n.additionalProperties.Some? && o.nestedAdditionalProperties {
      var additional := CheckOption(n.additionalProperties, AdditionalSchema(s.value), sPath + [Child("additionalProperties")],
                                    vPath + [Child("additionalProperties")], o);
      allErrs := allErrs + additional;
    }
  }

  method CheckProperties(n: Nested, s: Structural, sPath: Path, vPath: Path, o: Options) returns (allErrs: set<Incomplete>)
    ensures allErrs == PropertiesErrors(n, s, sPath, vPath, o)
    decreases n, 0
  {
    allErrs := {};
    var todo := n.properties.Keys;
    while todo != {}
      invariant todo <= n.properties.Keys
      invariant forall e :: e in allErrs <==> exists k :: k in n.properties && k !in todo && e in PropertyErrors(n.properties[k], s, k, sPath, vPath, o)
      decreases |todo|
    {
      var k :| k in todo;
      var vFld := n.properties[k];
      var errs: set<Incomplete>;
      if k in s.properties {
        errs := ValidateNestedCompleteness(vFld, Some(s.properties[k]), sPath + [Child("properties"), Key(k)], vPath + [Child("properties"), Key(k)], o);
      } else if AdditionalSchema(s).None? || !o.validationPropertiesWithAdditionalProperties {
        errs := {Incomplete(sPath + [Child("properties"), Key(k)], vPath + [Child("properties"), Key(k)])};
      } else {
        errs := ValidateNestedCompleteness(vFld, AdditionalSchema(s), sPath + [Child("additionalProperties")], vPath + [Child("properties"), Key(k)], o);
      }
      assert errs == PropertyErrors(vFld, s, k, sPath, vPath, o);
      allErrs := allErrs + errs;
      todo := todo - {k};
    }
  }

  method ValidateValueCompleteness(v: ValueValidation, s: Structural, sPath: Path, vPath: Path, o: Options) returns (allErrs: set<Incomplete>)
    ensures allErrs == ValueErrors(v, s, sPath, vPath, o)
    decreases v
  {
    allErrs := CheckOption(v.negated, Some(s), sPath, vPath + [Child("not")], o);
    var allOf := CheckJunctor("allOf", v.allOf, s, sPath, vPath, o);
    var anyOf := CheckJunctor("anyOf", v.anyOf, s, sPath, vPath, o);
    var oneOf := CheckJunctor("oneOf", v.oneOf, s, sPath, vPath, o);
    allErrs := allErrs + allOf + anyOf + oneOf;
  }

  method CheckJunctor(name: string, ns: seq<Nested>, s: Structural, sPath: Path, vPath: Path, o: Options) returns (allErrs: set<Incomplete>)
    ensures allErrs == JunctorErrors(name, ns, s, sPath, vPath, o)
    decreases ns
  {
    allErrs := {};
    for i := 0 to |ns|
      invariant forall e :: e in allErrs <==>
        exists j :: 0 <= j < i && e in NestedErrors(ns[j], Some(s), sPath, vPath + [Child(name), Index(j)], o)
    {
      var errs := ValidateNestedCompleteness(ns[i], Some(s), sPath, vPath + [Child(name), Index(i)], o);
      allErrs := allErrs + errs;
    }
  }

  method ValidateStructuralCompleteness(s: Structural, path: Path, o: Options) returns (allErrs: set<Incomplete>)
    ensures allErrs == Errors(s, path, o)
    ensures s.vv.Some? ==>
      (allErrs == {} <==> forall walk :: Walkable(RootNode(s.vv.value), walk, o) ==> Resolves(s, walk, o))
  {
    if s.vv.None? {
      return {};
    }
    CompleteIffAllResolve(s, path, o);
    allErrs := ValidateValueCompleteness(s.vv.value, s, path, path, o);
  }
}
