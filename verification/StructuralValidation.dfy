/**
 The invariants of structural schemas, and how the validation options widen them.

 Errors are a set of kinds and paths: the caller sorts the list, and messages are left out.
 `compiles` says which regular expressions compile.
 */
module StructuralValidation {
  import opened Crds
  import opened Schemas
  import opened Translations
  import opened FieldPaths
  import Completeness

  datatype Level = Root | Item | Field

  datatype Kind = Required | Forbidden | Invalid

  datatype Problem = Problem(kind: Kind, path: Path)

  type Regexps = string -> bool

  function When(cond: bool, kind: Kind, path: Path): set<Problem> {
    if cond then {Problem(kind, path)} else {}
  }

  // ----------------------------------------------------------- nested schemas

  function ForbiddenGenerics(n: Nested, path: Path): set<Problem> {
    When(n.generic.typ != "", Forbidden, path + [Child("type")])
    + When(n.generic.default.Some?, Forbidden, path + [Child("default")])
    + When(n.generic.title != "", Forbidden, path + [Child("title")])
    + When(n.generic.description != "", Forbidden, path + [Child("description")])
    + When(n.generic.nullable, Forbidden, path + [Child("nullable")])
  }

  function ForbiddenExtensions(n: Nested, path: Path): set<Problem> {
    When(n.ext.preserveUnknownFields, Forbidden, path + [Child("x-kubernetes-preserve-unknown-fields")])
    + When(n.ext.embeddedResource, Forbidden, path + [Child("x-kubernetes-embedded-resource")])
    + When(n.ext.intOrString, Forbidden, path + [Child("x-kubernetes-int-or-string")])
    + When(n.ext.listMapKeys != [], Forbidden, path + [Child("x-kubernetes-list-map-keys")])
    + When(n.ext.listType.Some?, Forbidden, path + [Child("x-kubernetes-list-type")])
    + When(n.ext.mapType.Some?, Forbidden, path + [Child("x-kubernetes-map-type")])
  }

  /** The fields a nested schema must leave alone. */
  function ForbiddenFields(n: Nested, path: Path, o: Options): set<Problem> {
    ForbiddenGenerics(n, path)
    + ForbiddenExtensions(n, path)
    + When(n.additionalProperties.Some? && !o.nestedAdditionalProperties, Forbidden, path + [Child("additionalProperties")])
    + When(n.rules != [] && !o.nestedRules, Forbidden, path + [Child("x-kubernetes-validations")])
    + When("metadata" in n.properties, Forbidden, path + [Child("properties"), Key("metadata")])
  }

  function NestedErrors(r: Regexps, n: Nested, skipAnyOf: bool, path: Path, o: Options): set<Problem>
    decreases n, 1
  {
    ValueErrors(r, n.vv, skipAnyOf, false, path, o)
    + OptionErrors(r, n.items, path + [Child("items")], o)
    + PropertiesErrors(r, n, path, o)
    + (if n.additionalProperties.Some? && !o.nestedAdditionalProperties then {}
       else OptionErrors(r, n.additionalProperties, path + [Child("additionalProperties")], o))
    + ForbiddenFields(n, path, o)
  }

  function OptionErrors(r: Regexps, n: Option<Nested>, path: Path, o: Options): set<Problem>
    decreases n
  {
    if n.None? then {} else NestedErrors(r, n.value, false, path, o)
  }

  function PropertiesErrors(r: Regexps, n: Nested, path: Path, o: Options): set<Problem>
    decreases n, 0
  {
    set k, e | k in n.properties && e in NestedErrors(r, n.properties[k], false, path + [Child("properties"), Key(k)], o) :: e
  }

  function JunctorErrors(r: Regexps, name: string, ns: seq<Nested>, skipFirst: bool, path: Path, o: Options): set<Problem>
    decreases ns
  {
    set i, e | 0 <= i < |ns| && e in ElementErrors(r, name, ns[i], i, skipFirst, path, o) :: e
  }

  /** `skipFirst`: the first element's anyOf is passed over. */
  function ElementErrors(r: Regexps, name: string, n: Nested, i: nat, skipFirst: bool, path: Path, o: Options): set<Problem>
    decreases n, 2
  {
    NestedErrors(r, n, skipFirst && i == 0, path + [Child(name), Index(i)], o)
  }

  function ValueErrors(r: Regexps, v: ValueValidation, skipAnyOf: bool, skipFirst: bool, path: Path, o: Options): set<Problem>
    decreases v
  {
    // validation rules are allowed under allOf at most
    var noRules := o.(nestedRules := false);
    (if skipAnyOf then {} else JunctorErrors(r, "anyOf", v.anyOf, false, path, noRules))
    + JunctorErrors(r, "allOf", v.allOf, skipFirst, path, o)
    + JunctorErrors(r, "oneOf", v.oneOf, false, path, noRules)
    + OptionErrors(r, v.negated, path + [Child("not")], noRules)
    + When(v.bounds.pattern != "" && !r(v.bounds.pattern), Invalid, path + [Child("pattern")])
  }

  // -------------------------------------------------------- structural nodes

  /** The patterns are looked for whether or not the node is marked int-or-string. */
  function NodeValueErrors(r: Regexps, s: Structural, path: Path, o: Options): set<Problem> {
    if s.vv.None? then {} else ValueErrors(r, s.vv.value, IsAnyOfPattern(s.vv.value), IsAllOfPattern(s.vv.value), path, o)
  }

  function TypeErrors(s: Structural, lvl: Level, path: Path): set<Problem> {
    (if s.ext.embeddedResource && s.generic.typ != "object"
     then {Problem(if s.generic.typ == "" then Required else Invalid, path + [Child("type")])}
     else When(s.generic.typ == "" && !s.ext.intOrString && !s.ext.preserveUnknownFields, Required, path + [Child("type")]))
    + When(lvl.Root? && s.generic.typ != "" && s.generic.typ != "object", Invalid, path + [Child("type")])
    + When(s.generic.typ == "array" && s.items.None?, Required, path + [Child("items")])
  }

  function ExtensionErrors(s: Structural, lvl: Level, path: Path): set<Problem> {
    When(s.ext.intOrString && s.ext.preserveUnknownFields, Invalid, path + [Child("x-kubernetes-preserve-unknown-fields")])
    + When(s.ext.intOrString && s.ext.embeddedResource, Invalid, path + [Child("x-kubernetes-embedded-resource")])
    + When(s.additionalProperties.Some? && (lvl.Root? || s.ext.embeddedResource), Forbidden, path + [Child("additionalProperties")])
    + When(s.ext.embeddedResource && !s.ext.preserveUnknownFields && s.properties == map[], Required, path + [Child("properties")])
  }

  /** What is left of a metadata schema once everything it may say at the root is cleared. */
  function ClearedMetadata(m: Structural): Structural {
    m.(properties := if m.properties.Keys == {"name", "generateName"} || m.properties.Keys == {"name"} || m.properties.Keys == {"generateName"}
                     then map[] else m.properties,
       generic := m.generic.(typ := "", default := None),
       vv := Some(m.vv.GetOr(NO_VALIDATION)))
  }

  const NOTHING_SAID := Structural(None, map[], None, NO_GENERIC, NO_EXTENSIONS, [], Some(NO_VALIDATION))

  function MetadataErrors(s: Structural, lvl: Level, path: Path): set<Problem> {
    var checkMetadata := lvl.Root? || s.ext.embeddedResource;
    (if "kind" in s.properties
     then When(checkMetadata && s.properties["kind"].generic.typ != "string", Invalid, path + [Child("properties"), Key("kind"), Child("type")]) else {})
    + (if "apiVersion" in s.properties
       then When(checkMetadata && s.properties["apiVersion"].generic.typ != "string", Invalid, path + [Child("properties"), Key("apiVersion"), Child("type")]) else {})
    + (if "metadata" in s.properties
       then
         var m := s.properties["metadata"];
         When(checkMetadata && m.generic.typ != "object", Invalid, path + [Child("properties"), Key("metadata"), Child("type")])
         + When(lvl.Root? && ClearedMetadata(m) != NOTHING_SAID, Forbidden, path + [Child("properties"), Key("metadata")])
       else {})
  }

  function NodeErrors(r: Regexps, s: Structural, lvl: Level, path: Path, o: Options): set<Problem> {
    NodeValueErrors(r, s, path, o) + TypeErrors(s, lvl, path) + ExtensionErrors(s, lvl, path) + MetadataErrors(s, lvl, path)
  }

  function InvariantErrors(r: Regexps, s: Structural, lvl: Level, path: Path, o: Options): set<Problem>
    decreases s, 1
  {
    NodeErrors(r, s, lvl, path, o)
    + ChildErrors(r, s.items, Item, path + [Child("items")], o)
    + FieldErrors(r, s, path, o)
    + ChildErrors(r, Completeness.AdditionalSchema(s), Field, path + [Child("additionalProperties")], o)
  }

  function ChildErrors(r: Regexps, s: Option<Structural>, lvl: Level, path: Path, o: Options): set<Problem>
    decreases s
  {
    if s.None? then {} else InvariantErrors(r, s.value, lvl, path, o)
  }

  function FieldErrors(r: Regexps, s: Structural, path: Path, o: Options): set<Problem>
    decreases s, 0
  {
    set k, e | k in s.properties && e in InvariantErrors(r, s.properties[k], Field, path + [Child("properties"), Key(k)], o) :: e
  }

  /** No complaint from either half of the validation. */
  predicate Accepted(r: Regexps, s: Structural, path: Path, o: Options) {
    InvariantErrors(r, s, Root, path, o) == {} && Completeness.Errors(s, path, o) == {}
  }

  // ------------------------------------------------- no complaint, part by part

  lemma {:induction false} NestedClean(r: Regexps, n: Nested, skipAnyOf: bool, path: Path, o: Options)
    ensures NestedErrors(r, n, skipAnyOf, path, o) == {} <==>
      && ValueErrors(r, n.vv, skipAnyOf, false, path, o) == {}
      && OptionErrors(r, n.items, path + [Child("items")], o) == {}
      && (forall k :: k in n.properties ==> NestedErrors(r, n.properties[k], false, path + [Child("properties"), Key(k)], o) == {})
      && (n.additionalProperties.Some? ==>
            o.nestedAdditionalProperties && OptionErrors(r, n.additionalProperties, path + [Child("additionalProperties")], o) == {})
      && ForbiddenFields(n, path, o) == {}
  {
    PropertiesClean(r, n, path, o);
    if n.additionalProperties.Some? && !o.nestedAdditionalProperties {
      assert Problem(Forbidden, path + [Child("additionalProperties")]) in ForbiddenFields(n, path, o);
    }
  }

  lemma {:induction false} PropertiesClean(r: Regexps, n: Nested, path: Path, o: Options)
    ensures PropertiesErrors(r, n, path, o) == {} <==>
      forall k :: k in n.properties ==> NestedErrors(r, n.properties[k], false, path + [Child("properties"), Key(k)], o) == {}
  {
    forall k | k in n.properties
      ensures NestedErrors(r, n.properties[k], false, path + [Child("properties"), Key(k)], o) <= PropertiesErrors(r, n, path, o)
    {
    }
  }

  lemma {:induction false} JunctorClean(r: Regexps, name: string, ns: seq<Nested>, skipFirst: bool, path: Path, o: Options)
    ensures JunctorErrors(r, name, ns, skipFirst, path, o) == {} <==>
      forall i :: 0 <= i < |ns| ==> ElementErrors(r, name, ns[i], i, skipFirst, path, o) == {}
  {
    forall i | 0 <= i < |ns|
      ensures ElementErrors(r, name, ns[i], i, skipFirst, path, o) <= JunctorErrors(r, name, ns, skipFirst, path, o)
    {
    }
    if JunctorErrors(r, name, ns, skipFirst, path, o) != {} {
      var e :| e in JunctorErrors(r, name, ns, skipFirst, path, o);
      var i :| 0 <= i < |ns| && e in ElementErrors(r, name, ns[i], i, skipFirst, path, o);
      assert ElementErrors(r, name, ns[i], i, skipFirst, path, o) != {};
    }
  }

  // ------------------------------------------------------- options only widen

  lemma {:induction false} NestedWidens(r: Regexps, n: Nested, skipAnyOf: bool, path: Path, a: Options, b: Options)
    requires NoStricter(a, b) && NestedErrors(r, n, skipAnyOf, path, a) == {}
    ensures NestedErrors(r, n, skipAnyOf, path, b) == {}
    decreases n, 1
  {
    NestedClean(r, n, skipAnyOf, path, a);
    ValueWidens(r, n.vv, skipAnyOf, false, path, a, b);
    OptionWidens(r, n.items, path + [Child("items")], a, b);
    forall k | k in n.properties
      ensures NestedErrors(r, n.properties[k], false, path + [Child("properties"), Key(k)], b) == {}
    {
      NestedWidens(r, n.properties[k], false, path + [Child("properties"), Key(k)], a, b);
    }
    if n.additionalProperties.Some? {
      OptionWidens(r, n.additionalProperties, path + [Child("additionalProperties")], a, b);
    }
    assert ForbiddenFields(n, path, b) <= ForbiddenFields(n, path, a);
    NestedClean(r, n, skipAnyOf, path, b);
  }

  lemma {:induction false} OptionWidens(r: Regexps, n: Option<Nested>, path: Path, a: Options, b: Options)
    requires NoStricter(a, b) && OptionErrors(r, n, path, a) == {}
    ensures OptionErrors(r, n, path, b) == {}
    decreases n
  {
    if n.Some? {
      NestedWidens(r, n.value, false, path, a, b);
    }
  }

  lemma {:induction false} JunctorWidens(r: Regexps, name: string, ns: seq<Nested>, skipFirst: bool, path: Path, a: Options, b: Options)
    requires NoStricter(a, b) && JunctorErrors(r, name, ns, skipFirst, path, a) == {}
    ensures JunctorErrors(r, name, ns, skipFirst, path, b) == {}
    decreases ns
  {
    JunctorClean(r, name, ns, skipFirst, path, a);
    forall i | 0 <= i < |ns|
      ensures ElementErrors(r, name, ns[i], i, skipFirst, path, b) == {}
    {
      assert ElementErrors(r, name, ns[i], i, skipFirst, path, a) == {};
      NestedWidens(r, ns[i], skipFirst && i == 0, path + [Child(name), Index(i)], a, b);
    }
    JunctorClean(r, name, ns, skipFirst, path, b);
  }

  lemma {:induction false} ValueWidens(r: Regexps, v: ValueValidation, skipAnyOf: bool, skipFirst: bool, path: Path, a: Options, b: Options)
    requires NoStricter(a, b) && ValueErrors(r, v, skipAnyOf, skipFirst, path, a) == {}
    ensures ValueErrors(r, v, skipAnyOf, skipFirst, path, b) == {}
    decreases v
  {
    var noRulesA, noRulesB := a.(nestedRules := false), b.(nestedRules := false);
    if !skipAnyOf {
      JunctorWidens(r, "anyOf", v.anyOf, false, path, noRulesA, noRulesB);
    }
    JunctorWidens(r, "allOf", v.allOf, skipFirst, path, a, b);
    JunctorWidens(r, "oneOf", v.oneOf, false, path, noRulesA, noRulesB);
    OptionWidens(r, v.negated, path + [Child("not")], noRulesA, noRulesB);
  }

  lemma {:induction false} InvariantsWiden(r: Regexps, s: Structural, lvl: Level, path: Path, a: Options, b: Options)
    requires NoStricter(a, b) && InvariantErrors(r, s, lvl, path, a) == {}
    ensures InvariantErrors(r, s, lvl, path, b) == {}
    decreases s, 1
  {
    if s.vv.Some? {
      ValueWidens(r, s.vv.value, IsAnyOfPattern(s.vv.value), IsAllOfPattern(s.vv.value), path, a, b);
    }
    ChildWidens(r, s.items, Item, path + [Child("items")], a, b);
    ChildWidens(r, Completeness.AdditionalSchema(s), Field, path + [Child("additionalProperties")], a, b);
    FieldsWiden(r, s, path, a, b);
  }

  lemma {:induction false} ChildWidens(r: Regexps, s: Option<Structural>, lvl: Level, path: Path, a: Options, b: Options)
    requires NoStricter(a, b) && ChildErrors(r, s, lvl, path, a) == {}
    ensures ChildErrors(r, s, lvl, path, b) == {}
    decreases s
  {
    if s.Some? {
      InvariantsWiden(r, s.value, lvl, path, a, b);
    }
  }

  lemma {:induction false} FieldsWiden(r: Regexps, s: Structural, path: Path, a: Options, b: Options)
    requires NoStricter(a, b) && FieldErrors(r, s, path, a) == {}
    ensures FieldErrors(r, s, path, b) == {}
    decreases s, 0
  {
    forall k | k in s.properties
      ensures InvariantErrors(r, s.properties[k], Field, path + [Child("properties"), Key(k)], b) == {}
    {
      assert InvariantErrors(r, s.properties[k], Field, path + [Child("properties"), Key(k)], a) <= FieldErrors(r, s, path, a);
      InvariantsWiden(r, s.properties[k], Field, path + [Child("properties"), Key(k)], a, b);
    }
  }

  // ------------------------------------- completeness under more options

  /** No nested additionalProperties anywhere. */
  predicate NoAdditional(n: Nested)
    decreases n
  {
    && n.additionalProperties.None?
    && NoAdditionalInValue(n.vv)
    && (n.items.Some? ==> NoAdditional(n.items.value))
    && (forall k :: k in n.properties ==> NoAdditional(n.properties[k]))
  }

  predicate NoAdditionalInValue(v: ValueValidation)
    decreases v
  {
    && NoAdditionalInSeq(v.allOf) && NoAdditionalInSeq(v.anyOf) && NoAdditionalInSeq(v.oneOf)
    && (v.negated.Some? ==> NoAdditional(v.negated.value))
  }

  predicate NoAdditionalInSeq(ns: seq<Nested>)
    decreases ns
  {
    forall i :: 0 <= i < |ns| ==> NoAdditional(ns[i])
  }

  lemma {:induction false} PatternHasNoAdditional()
    ensures NoAdditionalInSeq(INT_OR_STRING_ANY_OF)
  {
    assert NoAdditional(OnlyType("integer")) && NoAdditional(OnlyType("string"));
  }

  /** Without the option, accepted nested schemas hold no additionalProperties, the skipped pattern included. */
  lemma {:induction false} CleanHasNoAdditional(r: Regexps, n: Nested, skipAnyOf: bool, path: Path, o: Options)
    requires !o.nestedAdditionalProperties && NestedErrors(r, n, skipAnyOf, path, o) == {}
    requires skipAnyOf ==> n.vv.anyOf == INT_OR_STRING_ANY_OF
    ensures NoAdditional(n)
    decreases n, 1
  {
    NestedClean(r, n, skipAnyOf, path, o);
    CleanValueHasNoAdditional(r, n.vv, skipAnyOf, false, path, o);
    if n.items.Some? {
      CleanHasNoAdditional(r, n.items.value, false, path + [Child("items")], o);
    }
    forall k | k in n.properties
      ensures NoAdditional(n.properties[k])
    {
      CleanHasNoAdditional(r, n.properties[k], false, path + [Child("properties"), Key(k)], o);
    }
  }

  lemma {:induction false} CleanValueHasNoAdditional(r: Regexps, v: ValueValidation, skipAnyOf: bool, skipFirst: bool, path: Path, o: Options)
    requires !o.nestedAdditionalProperties && ValueErrors(r, v, skipAnyOf, skipFirst, path, o) == {}
    requires skipAnyOf ==> v.anyOf == INT_OR_STRING_ANY_OF
    requires skipFirst ==> IsAllOfPattern(v)
    ensures NoAdditionalInValue(v)
    decreases v
  {
    var noRules := o.(nestedRules := false);
    PatternHasNoAdditional();
    if !skipAnyOf {
      CleanJunctorHasNoAdditional(r, "anyOf", v.anyOf, false, path, noRules);
    }
    CleanJunctorHasNoAdditional(r, "allOf", v.allOf, skipFirst, path, o);
    CleanJunctorHasNoAdditional(r, "oneOf", v.oneOf, false, path, noRules);
    if v.negated.Some? {
      CleanHasNoAdditional(r, v.negated.value, false, path + [Child("not")], noRules);
    }
  }

  lemma {:induction false} CleanJunctorHasNoAdditional(r: Regexps, name: string, ns: seq<Nested>, skipFirst: bool, path: Path, o: Options)
    requires !o.nestedAdditionalProperties && JunctorErrors(r, name, ns, skipFirst, path, o) == {}
    requires skipFirst ==> ns != [] && ns[0].vv.anyOf == INT_OR_STRING_ANY_OF
    ensures NoAdditionalInSeq(ns)
    decreases ns
  {
    JunctorClean(r, name, ns, skipFirst, path, o);
    forall i | 0 <= i < |ns|
      ensures NoAdditional(ns[i])
    {
      assert ElementErrors(r, name, ns[i], i, skipFirst, path, o) == {};
      CleanHasNoAdditional(r, ns[i], skipFirst && i == 0, path + [Child(name), Index(i)], o);
    }
  }

  // Completeness is about walks. A walk under more options is a walk under fewer, unless it
  // takes a step through a nested additionalProperties.

  lemma {:induction false} WalkNeedsNoOption(n: Nested, walk: seq<Completeness.Step>, a: Options, b: Options)
    requires NoStricter(a, b) && (a.nestedAdditionalProperties || NoAdditional(n))
    requires Completeness.Walkable(n, walk, b)
    ensures Completeness.Walkable(n, walk, a)
    decreases |walk|
  {
    if walk != [] {
      var below := Completeness.Below(n, walk[0], b);
      BelowHasNoAdditional(n, walk[0], a, b);
      WalkNeedsNoOption(below.value, walk[1..], a, b);
    }
  }

  lemma {:induction false} BelowHasNoAdditional(n: Nested, step: Completeness.Step, a: Options, b: Options)
    requires NoStricter(a, b) && (a.nestedAdditionalProperties || NoAdditional(n)) && Completeness.Below(n, step, b).Some?
    ensures Completeness.Below(n, step, a) == Completeness.Below(n, step, b)
    ensures a.nestedAdditionalProperties || NoAdditional(Completeness.Below(n, step, b).value)
  {
    if !a.nestedAdditionalProperties {
      assert NoAdditionalInValue(n.vv);
      assert NoAdditionalInSeq(n.vv.allOf) && NoAdditionalInSeq(n.vv.anyOf) && NoAdditionalInSeq(n.vv.oneOf);
      assert n.vv.negated.Some? ==> NoAdditional(n.vv.negated.value);
    }
  }

  /** More options never take a counterpart away. */
  lemma {:induction false} ResolvesUnderMoreOptions(s: Structural, walk: seq<Completeness.Step>, a: Options, b: Options)
    requires NoStricter(a, b) && Completeness.Resolves(s, walk, a)
    ensures Completeness.Resolves(s, walk, b)
    decreases |walk|
  {
    if walk != [] {
      var next := Completeness.Counterpart(s, walk[0], a);
      assert Completeness.Counterpart(s, walk[0], b) == next;
      ResolvesUnderMoreOptions(next.value, walk[1..], a, b);
    }
  }

  /** A schema that is accepted under some options is accepted under any further ones. */
  lemma {:induction false} OptionsOnlyWiden(r: Regexps, s: Structural, path: Path, a: Options, b: Options)
    requires NoStricter(a, b) && Accepted(r, s, path, a)
    ensures Accepted(r, s, path, b)
  {
    InvariantsWiden(r, s, Root, path, a, b);
    if s.vv.Some? {
      var n := Completeness.RootNode(s.vv.value);
      if !a.nestedAdditionalProperties {
        CleanValueHasNoAdditional(r, s.vv.value, IsAnyOfPattern(s.vv.value), IsAllOfPattern(s.vv.value), path, a);
        assert NoAdditional(n);
      }
      Completeness.CompleteIffAllResolve(s, path, b);
      forall walk | Completeness.Walkable(n, walk, b)
        ensures Completeness.Resolves(s, walk, b)
      {
        WalkNeedsNoOption(n, walk, a, b);
        Completeness.CompleteWalkResolves(s, path, a, walk);
        ResolvesUnderMoreOptions(s, walk, a, b);
      }
    }
  }

  // ------------------------------------------------------------- the validators

  /** One conditional error, as the validators append it. */
  method AppendIf(allErrs: set<Problem>, cond: bool, kind: Kind, path: Path) returns (out: set<Problem>)
    ensures out == allErrs + When(cond, kind, path)
  {
    out := allErrs;
    if cond {
      out := out + {Problem(kind, path)};
    }
  }

  method CheckForbiddenGenerics(n: Nested, path: Path) returns (allErrs: set<Problem>)
    ensures allErrs == ForbiddenGenerics(n, path)
  {
    allErrs := AppendIf({}, n.generic.typ != "", Forbidden, path + [Child("type")]);
    allErrs := AppendIf(allErrs, n.generic.default.Some?, Forbidden, path + [Child("default")]);
    allErrs := AppendIf(allErrs, n.generic.title != "", Forbidden, path + [Child("title")]);
    allErrs := AppendIf(allErrs, n.generic.description != "", Forbidden, path + [Child("description")]);
    allErrs := AppendIf(allErrs, n.generic.nullable, Forbidden, path + [Child("nullable")]);
  }

  method CheckForbiddenExtensions(n: Nested, path: Path) returns (allErrs: set<Problem>)
    ensures allErrs == ForbiddenExtensions(n, path)
  {
    allErrs := AppendIf({}, n.ext.preserveUnknownFields, Forbidden, path + [Child("x-kubernetes-preserve-unknown-fields")]);
    allErrs := AppendIf(allErrs, n.ext.embeddedResource, Forbidden, path + [Child("x-kubernetes-embedded-resource")]);
    allErrs := AppendIf(allErrs, n.ext.intOrString, Forbidden, path + [Child("x-kubernetes-int-or-string")]);
    allErrs := AppendIf(allErrs, n.ext.listMapKeys != [], Forbidden, path + [Child("x-kubernetes-list-map-keys")]);
    allErrs := AppendIf(allErrs, n.ext.listType.Some?, Forbidden, path + [Child("x-kubernetes-list-type")]);
    allErrs := AppendIf(allErrs, n.ext.mapType.Some?, Forbidden, path + [Child("x-kubernetes-map-type")]);
  }

  method ValidateNestedValueValidation(r: Regexps, n: Nested, skipAnyOf: bool, path: Path, o: Options) returns (allErrs: set<Problem>)
    ensures allErrs == NestedErrors(r, n, skipAnyOf, path, o)
    decreases n, 1
  {
    allErrs := ValidateValueValidation(r, n.vv, skipAnyOf, false, path, o);
    var items := ValidateNestedOption(r, n.items, path + [Child("items")], o);
    allErrs := allErrs + items;
    var properties := ValidateNestedProperties(r, n, path, o);
    allErrs := allErrs + properties;
    var fields := ValidateNestedFields(r, n, path, o);
    allErrs := allErrs + fields;
  }

  /** The checks of a nested schema that come after its value validation, items and properties. */
  method ValidateNestedFields(r: Regexps, n: Nested, path: Path, o: Options) returns (allErrs: set<Problem>)
    ensures allErrs == (if n.additionalProperties.Some? && !o.nestedAdditionalProperties then {}
                        else OptionErrors(r, n.additionalProperties, path + [Child("additionalProperties")], o)) + ForbiddenFields(n, path, o)
    decreases n, 0
  {
    var generics := CheckForbiddenGenerics(n, path);
    var extensions := CheckForbiddenExtensions(n, path);
    allErrs := generics + extensions;
    if n.additionalProperties.Some? && !o.nestedAdditionalProperties {
      allErrs := allErrs + {Problem(Forbidden, path + [Child("additionalProperties")])};
    } else {
      var additional := ValidateNestedOption(r, n.additionalProperties, path + [Child("additionalProperties")], o);
      allErrs := allErrs + additional;
    }
    allErrs := AppendIf(allErrs, n.rules != [] && !o.nestedRules, Forbidden, path + [Child("x-kubernetes-validations")]);
    allErrs := AppendIf(allErrs, "metadata" in n.properties, Forbidden, path + [Child("properties"), Key("metadata")]);
  }

  method ValidateNestedOption(r: Regexps, n: Option<Nested>, path: Path, o: Options) returns (allErrs: set<Problem>)
    ensures allErrs == OptionErrors(r, n, path, o)
    decreases n
  {
    if n.None? {
      return {};
    }
    allErrs := ValidateNestedValueValidation(r, n.value, false, path, o);
  }

  method ValidateNestedProperties(r: Regexps, n: Nested, path: Path, o: Options) returns (allErrs: set<Problem>)
    ensures allErrs == PropertiesErrors(r, n, path, o)
    decreases n, 0
  {
    allErrs := {};
    var todo := n.properties.Keys;
    while todo != {}
      invariant todo <= n.properties.Keys
      invariant forall e :: e in allErrs <==>
        exists k :: k in n.properties && k !in todo && e in NestedErrors(r, n.properties[k], false, path + [Child("properties"), Key(k)], o)
      decreases |todo|
    {
      var k :| k in todo;
      var errs := ValidateNestedValueValidation(r, n.properties[k], false, path + [Child("properties"), Key(k)], o);
      allErrs := allErrs + errs;
      todo := todo - {k};
    }
  }

  /** The errors of the first `k` elements. */
  ghost function FirstErrors(r: Regexps, name: string, ns: seq<Nested>, k: nat, skipFirst: bool, path: Path, o: Options): set<Problem>
    requires k <= |ns|
  {
    set i, e | 0 <= i < k && e in ElementErrors(r, name, ns[i], i, skipFirst, path, o) :: e
  }

  lemma {:induction false} OneMoreElement(r: Regexps, name: string, ns: seq<Nested>, k: nat, skipFirst: bool, path: Path, o: Options)
    requires k < |ns|
    ensures FirstErrors(r, name, ns, k + 1, skipFirst, path, o)
         == FirstErrors(r, name, ns, k, skipFirst, path, o) + ElementErrors(r, name, ns[k], k, skipFirst, path, o)
  {
  }

  method ValidateJunctor(r: Regexps, name: string, ns: seq<Nested>, skipFirst: bool, path: Path, o: Options) returns (allErrs: set<Problem>)
    ensures allErrs == JunctorErrors(r, name, ns, skipFirst, path, o)
    decreases ns
  {
    allErrs := {};
    for i := 0 to |ns|
      invariant allErrs == FirstErrors(r, name, ns, i, skipFirst, path, o)
    {
      OneMoreElement(r, name, ns, i, skipFirst, path, o);
      var errs := ValidateElement(r, name, ns[i], i, skipFirst, path, o);
      allErrs := allErrs + errs;
    }
  }

  method ValidateElement(r: Regexps, name: string, n: Nested, i: nat, skipFirst: bool, path: Path, o: Options) returns (allErrs: set<Problem>)
    ensures allErrs == ElementErrors(r, name, n, i, skipFirst, path, o)
    decreases n, 2
  {
    var skipAnyOf := false;
    if skipFirst && i == 0 {
      skipAnyOf := true;
    }
    allErrs := ValidateNestedValueValidation(r, n, skipAnyOf, path + [Child(name), Index(i)], o);
  }

  method ValidateValueValidation(r: Regexps, v: ValueValidation, skipAnyOf: bool, skipFirst: bool, path: Path, o: Options)
    returns (allErrs: set<Problem>)
    ensures allErrs == ValueErrors(r, v, skipAnyOf, skipFirst, path, o)
    decreases v
  {
    allErrs := {};
    var noRules := o.(nestedRules := false);
    if !skipAnyOf {
      allErrs := ValidateJunctor(r, "anyOf", v.anyOf, false, path, noRules);
    }
    var allOf := ValidateJunctor(r, "allOf", v.allOf, skipFirst, path, o);
    var oneOf := ValidateJunctor(r, "oneOf", v.oneOf, false, path, noRules);
    var negated := ValidateNestedOption(r, v.negated, path + [Child("not")], noRules);
    allErrs := allErrs + allOf + oneOf + negated;
    allErrs := AppendIf(allErrs, v.bounds.pattern != "" && !r(v.bounds.pattern), Invalid, path + [Child("pattern")]);
  }

  method CheckType(s: Structural, lvl: Level, path: Path) returns (allErrs: set<Problem>)
    ensures allErrs == TypeErrors(s, lvl, path)
  {
    allErrs := {};
    if s.ext.embeddedResource && s.generic.typ != "object" {
      if |s.generic.typ| == 0 {
        allErrs := {Problem(Required, path + [Child("type")])};
      } else {
        allErrs := {Problem(Invalid, path + [Child("type")])};
      }
    } else if |s.generic.typ| == 0 && !s.ext.intOrString && !s.ext.preserveUnknownFields {
      allErrs := {Problem(Required, path + [Child("type")])};
    }
    allErrs := AppendIf(allErrs, lvl.Root? && s.generic.typ != "" && s.generic.typ != "object", Invalid, path + [Child("type")]);
    allErrs := AppendIf(allErrs, s.generic.typ == "array" && s.items.None?, Required, path + [Child("items")]);
  }

  /** Edits its own copy of the metadata schema until nothing should be left. */
  method CheckMetadata(metadata: Structural, checkMetadata: bool, lvl: Level, path: Path) returns (allErrs: set<Problem>)
    ensures allErrs == When(checkMetadata && metadata.generic.typ != "object", Invalid, path + [Child("type")])
                       + When(lvl.Root? && ClearedMetadata(metadata) != NOTHING_SAID, Forbidden, path)
  {
    allErrs := AppendIf({}, checkMetadata && metadata.generic.typ != "object", Invalid, path + [Child("type")]);
    if lvl.Root? {
      var s := ClearMetadata(metadata);
      if s != NOTHING_SAID {
        allErrs := allErrs + {Problem(Forbidden, path)};
      }
    }
  }

  method ClearMetadata(metadata: Structural) returns (s: Structural)
    ensures s == ClearedMetadata(metadata)
  {
    s := metadata;
    var foundName, foundGenerateName := "name" in s.properties, "generateName" in s.properties;
    KeysOfSize(s.properties.Keys);
    if foundName && foundGenerateName && |s.properties| == 2 {
      s := s.(properties := map[]);
    } else if (foundName || foundGenerateName) && |s.properties| == 1 {
      s := s.(properties := map[]);
    }
    s := s.(generic := s.generic.(typ := "", default := None));
    if s.vv.None? {
      s := s.(vv := Some(NO_VALIDATION));
    }
  }

  /** Counting the properties is the same as comparing the set of their names. */
  lemma {:induction false} KeysOfSize(keys: set<string>)
    ensures "name" in keys && "generateName" in keys && |keys| == 2 <==> keys == {"name", "generateName"}
    ensures "name" in keys && |keys| == 1 <==> keys == {"name"}
    ensures "generateName" in keys && |keys| == 1 <==> keys == {"generateName"}
  {
    if "name" in keys && "generateName" in keys && |keys| == 2 {
      assert |keys - {"name"} - {"generateName"}| == 0;
    }
    if "name" in keys && |keys| == 1 {
      assert |keys - {"name"}| == 0;
    }
    if "generateName" in keys && |keys| == 1 {
      assert |keys - {"generateName"}| == 0;
    }
  }

  method CheckExtensions(s: Structural, lvl: Level, path: Path) returns (allErrs: set<Problem>)
    ensures allErrs == ExtensionErrors(s, lvl, path)
  {
    allErrs := AppendIf({}, s.additionalProperties.Some? && lvl.Root?, Forbidden, path + [Child("additionalProperties")]);
    allErrs := AppendIf(allErrs, s.ext.intOrString && s.ext.preserveUnknownFields, Invalid, path + [Child("x-kubernetes-preserve-unknown-fields")]);
    allErrs := AppendIf(allErrs, s.ext.intOrString && s.ext.embeddedResource, Invalid, path + [Child("x-kubernetes-embedded-resource")]);
    allErrs := AppendIf(allErrs, s.ext.embeddedResource && s.additionalProperties.Some?, Forbidden, path + [Child("additionalProperties")]);
    allErrs := AppendIf(allErrs, s.ext.embeddedResource && !s.ext.preserveUnknownFields && s.properties == map[], Required, path + [Child("properties")]);
  }

  method CheckObjectFields(s: Structural, lvl: Level, path: Path) returns (allErrs: set<Problem>)
    ensures allErrs == MetadataErrors(s, lvl, path)
  {
    allErrs := {};
    var checkMetadata := lvl.Root? || s.ext.embeddedResource;
    if "kind" in s.properties {
      allErrs := AppendIf({}, checkMetadata && s.properties["kind"].generic.typ != "string", Invalid, path + [Child("properties"), Key("kind"), Child("type")]);
    }
    if "apiVersion" in s.properties {
      allErrs := AppendIf(allErrs, checkMetadata && s.properties["apiVersion"].generic.typ != "string", Invalid,
                          path + [Child("properties"), Key("apiVersion"), Child("type")]);
    }
    if "metadata" in s.properties {
      var metadataPath := path + [Child("properties"), Key("metadata")];
      var errs := CheckMetadata(s.properties["metadata"], checkMetadata, lvl, metadataPath);
      assert metadataPath + [Child("type")] == path + [Child("properties"), Key("metadata"), Child("type")];
      allErrs := allErrs + errs;
    }
  }

  method ValidateNode(r: Regexps, s: Structural, lvl: Level, path: Path, o: Options) returns (allErrs: set<Problem>)
    ensures allErrs == NodeErrors(r, s, lvl, path, o)
  {
    allErrs := {};
    if s.vv.Some? {
      var skipAnyOf := IsAnyOfPattern(s.vv.value);
      var skipFirstAllOfAnyOf := IsAllOfPattern(s.vv.value);
      allErrs := ValidateValueValidation(r, s.vv.value, skipAnyOf, skipFirstAllOfAnyOf, path, o);
    }
    var typeErrs := CheckType(s, lvl, path);
    var extensionErrs := CheckExtensions(s, lvl, path);
    var metadataErrs := CheckObjectFields(s, lvl, path);
    allErrs := allErrs + typeErrs + extensionErrs + metadataErrs;
  }

  method ValidateStructuralInvariants(r: Regexps, s: Option<Structural>, lvl: Level, path: Path, o: Options) returns (allErrs: set<Problem>)
    ensures allErrs == ChildErrors(r, s, lvl, path, o)
    decreases s
  {
    if s.None? {
      return {};
    }
    allErrs := ValidateStructuralInvariantsOf(r, s.value, lvl, path, o);
  }

  method ValidateStructuralInvariantsOf(r: Regexps, s: Structural, lvl: Level, path: Path, o: Options) returns (allErrs: set<Problem>)
    ensures allErrs == InvariantErrors(r, s, lvl, path, o)
    decreases s, 1
  {
    allErrs := ValidateNode(r, s, lvl, path, o);
    var items := ValidateStructuralInvariants(r, s.items, Item, path + [Child("items")], o);
    allErrs := allErrs + items;
    var fields := ValidateFields(r, s, path, o);
    allErrs := allErrs + fields;
    var additionalSchema := None;
    if s.additionalProperties.Some? {
      additionalSchema := s.additionalProperties.value.structural;
    }
    var additional := ValidateStructuralInvariants(r, additionalSchema, Field, path + [Child("additionalProperties")], o);
    allErrs := allErrs + additional;
  }

  method ValidateFields(r: Regexps, s: Structural, path: Path, o: Options) returns (allErrs: set<Problem>)
    ensures allErrs == FieldErrors(r, s, path, o)
    decreases s, 0
  {
    allErrs := {};
    var todo := s.properties.Keys;
    while todo != {}
      invariant todo <= s.properties.Keys
      invariant forall e :: e in allErrs <==>
        exists k :: k in s.properties && k !in todo && e in InvariantErrors(r, s.properties[k], Field, path + [Child("properties"), Key(k)], o)
      decreases |todo|
    {
      var k :| k in todo;
      var errs := ValidateStructuralInvariantsOf(r, s.properties[k], Field, path + [Child("properties"), Key(k)], o);
      allErrs := allErrs + errs;
      todo := todo - {k};
    }
  }

  /** The entry point: no complaint exactly for the accepted schemas. */
  method ValidateStructuralWithOptions(r: Regexps, s: Structural, path: Path, o: Options)
    returns (problems: set<Problem>, incomplete: set<Completeness.Incomplete>)
    ensures problems == InvariantErrors(r, s, Root, path, o) && incomplete == Completeness.Errors(s, path, o)
    ensures problems == {} && incomplete == {} <==> Accepted(r, s, path, o)
  {
    problems := ValidateStructuralInvariantsOf(r, s, Root, path, o);
    incomplete := Completeness.ValidateStructuralCompleteness(s, path, o);
  }
}
