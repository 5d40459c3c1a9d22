/**
 The in-place visitor of structural schemas and its clients.

 A schema tree is unshared: every pointer, map and slice has one owner. A visit works on a
 place that holds a node. For `items`, `additionalProperties`, junctor elements and `not` that
 is the place in the tree itself. For a map entry it is a copy of the entry: the copy has its
 own scalar fields and its own pointers, but what the pointers lead to is shared with the entry,
 so changes further down show through even when the copy is thrown away.
 */
module Visitor {
  import opened Crds
  import opened Schemas

  /**
   What a callback does to one structural node: it may rewrite the node's own fields, let go of
   a child, and change the value validation in place or put another one. A callback that added
   structural children of its own could keep the visit going for ever, and none does.
   */
  datatype Edit = Edit(
    changed: bool, generic: Generic, ext: Extensions, rules: seq<string>,
    keepsItems: bool, keepsProperties: bool, keepsAdditional: bool,
    keepsValidation: bool, vv: Option<ValueValidation>)

  datatype NestedEdit = NestedEdit(
    changed: bool, bounds: Bounds, enum: seq<Json>, required: seq<string>, rules: seq<string>, generic: Generic, ext: Extensions,
    keepsItems: bool, keepsProperties: bool, keepsAdditional: bool,
    keepsAllOf: bool, keepsOneOf: bool, keepsAnyOf: bool, keepsNot: bool)

  /** The two callbacks; either may be nil. */
  datatype Visitor = Visitor(structural: Option<Structural -> Edit>, nested: Option<Nested -> NestedEdit>)

  function NoEdit(s: Structural): Edit {
    Edit(false, s.generic, s.ext, s.rules, true, true, true, true, s.vv)
  }

  function NoNestedEdit(n: Nested): NestedEdit {
    NestedEdit(false, n.vv.bounds, n.vv.enum, n.vv.required, n.rules, n.generic, n.ext, true, true, true, true, true, true, true)
  }

  function EditOf(m: Visitor, s: Structural): Edit {
    if m.structural.Some? then m.structural.value(s) else NoEdit(s)
  }

  function NestedEditOf(m: Visitor, n: Nested): NestedEdit {
    if m.nested.Some? then m.nested.value(n) else NoNestedEdit(n)
  }

  /** The node as the callback leaves it, before any child is visited. */
  function Edited(m: Visitor, s: Structural): Structural {
    var e := EditOf(m, s);
    Structural(
      if e.keepsItems then s.items else None,
      if e.keepsProperties then s.properties else map[],
      if e.keepsAdditional then s.additionalProperties else None,
      e.generic, e.ext, e.rules, e.vv)
  }

  function NestedEdited(m: Visitor, n: Nested): Nested {
    var e := NestedEditOf(m, n);
    Nested(
      ValueValidation(
        e.bounds, e.enum, e.required,
        if e.keepsAllOf then n.vv.allOf else [], if e.keepsOneOf then n.vv.oneOf else [],
        if e.keepsAnyOf then n.vv.anyOf else [], if e.keepsNot then n.vv.negated else None),
      e.rules,
      if e.keepsItems then n.items else None,
      if e.keepsProperties then n.properties else map[],
      if e.keepsAdditional then n.additionalProperties else None,
      e.generic, e.ext)
  }

  // ------------------------------------------------------------ nested nodes

  /** What a visit of a nested node returns: the node or one of its property entries, at any depth of properties, was reported changed. */
  predicate NestedChanged(m: Visitor, n: Nested)
    decreases n
  {
    NestedEditOf(m, n).changed
    || (NestedEditOf(m, n).keepsProperties && exists k :: k in n.properties && NestedChanged(m, n.properties[k]))
  }

  function NestedVisited(m: Visitor, n: Nested): Nested
    decreases n, 1
  {
    var e := NestedEditOf(m, n);
    Nested(
      ValueValidation(
        e.bounds, e.enum, e.required,
        if e.keepsAllOf then NestedVisitedSeq(m, n.vv.allOf) else [],
        if e.keepsOneOf then NestedVisitedSeq(m, n.vv.oneOf) else [],
        if e.keepsAnyOf then NestedVisitedSeq(m, n.vv.anyOf) else [],
        if e.keepsNot then NestedVisitedOption(m, n.vv.negated) else None),
      e.rules,
      if e.keepsItems then NestedVisitedOption(m, n.items) else None,
      if e.keepsProperties then NestedEntries(m, n) else map[],
      if e.keepsAdditional then NestedVisitedOption(m, n.additionalProperties) else None,
      e.generic, e.ext)
  }

  function NestedVisitedSeq(m: Visitor, ns: seq<Nested>): (r: seq<Nested>)
    ensures |r| == |ns|
    ensures forall i :: 0 <= i < |ns| ==> r[i] == NestedVisited(m, ns[i])
    decreases ns
  {
    seq(|ns|, i requires 0 <= i < |ns| => NestedVisited(m, ns[i]))
  }

  function NestedVisitedOption(m: Visitor, n: Option<Nested>): Option<Nested>
    decreases n
  {
    if n.Some? then Some(NestedVisited(m, n.value)) else None
  }

  function NestedEntries(m: Visitor, n: Nested): map<string, Nested>
    decreases n, 0
  {
    map k | k in n.properties :: NestedEntry(m, n.properties[k])
  }

  /** A map entry afterwards: the visited copy if a change was reported, else the entry with what its copy shares. */
  function NestedEntry(m: Visitor, n: Nested): Nested
    decreases n, 2
  {
    if NestedChanged(m, n) then NestedVisited(m, n) else NestedLeftover(m, n)
  }

  /** An entry whose copy was visited and thrown away: own fields as before, shared children visited. */
  function NestedLeftover(m: Visitor, n: Nested): Nested
    decreases n, 1
  {
    var e := NestedEditOf(m, n);
    Nested(
      n.vv.(allOf := if e.keepsAllOf then NestedVisitedSeq(m, n.vv.allOf) else n.vv.allOf,
            oneOf := if e.keepsOneOf then NestedVisitedSeq(m, n.vv.oneOf) else n.vv.oneOf,
            anyOf := if e.keepsAnyOf then NestedVisitedSeq(m, n.vv.anyOf) else n.vv.anyOf,
            negated := if e.keepsNot then NestedVisitedOption(m, n.vv.negated) else n.vv.negated),
      n.rules,
      if e.keepsItems then NestedVisitedOption(m, n.items) else n.items,
      if e.keepsProperties then NestedEntries(m, n) else n.properties,
      if e.keepsAdditional then NestedVisitedOption(m, n.additionalProperties) else n.additionalProperties,
      n.generic, n.ext)
  }

  // -------------------------------------------------------- structural nodes

  predicate Changed(m: Visitor, s: Structural)
    decreases s
  {
    EditOf(m, s).changed
    || (EditOf(m, s).keepsProperties && exists k :: k in s.properties && Changed(m, s.properties[k]))
  }

  function VisitedValidation(m: Visitor, vv: Option<ValueValidation>): Option<ValueValidation> {
    if vv.None? then None
    else Some(vv.value.(
      allOf := NestedVisitedSeq(m, vv.value.allOf), oneOf := NestedVisitedSeq(m, vv.value.oneOf),
      anyOf := NestedVisitedSeq(m, vv.value.anyOf), negated := NestedVisitedOption(m, vv.value.negated)))
  }

  function Visited(m: Visitor, s: Structural): Structural
    decreases s, 1
  {
    var e := EditOf(m, s);
    Structural(
      if e.keepsItems then VisitedOption(m, s.items) else None,
      if e.keepsProperties then Entries(m, s) else map[],
      if e.keepsAdditional then VisitedAdditional(m, s.additionalProperties) else None,
      e.generic, e.ext, e.rules, VisitedValidation(m, e.vv))
  }

  function VisitedOption(m: Visitor, s: Option<Structural>): Option<Structural>
    decreases s
  {
    if s.Some? then Some(Visited(m, s.value)) else None
  }

  function VisitedAdditional(m: Visitor, ap: Option<StructuralOrBool>): Option<StructuralOrBool>
    decreases ap
  {
    if ap.Some? then Some(StructuralOrBool(VisitedOption(m, ap.value.structural), ap.value.allows)) else None
  }

  function Entries(m: Visitor, s: Structural): map<string, Structural>
    decreases s, 0
  {
    map k | k in s.properties :: Entry(m, s.properties[k])
  }

  function Entry(m: Visitor, s: Structural): Structural
    decreases s, 2
  {
    if Changed(m, s) then Visited(m, s) else Leftover(m, s)
  }

  function Leftover(m: Visitor, s: Structural): Structural
    decreases s, 1
  {
    var e := EditOf(m, s);
    Structural(
      if e.keepsItems then VisitedOption(m, s.items) else s.items,
      if e.keepsProperties then Entries(m, s) else s.properties,
      if e.keepsAdditional then VisitedAdditional(m, s.additionalProperties) else s.additionalProperties,
      s.generic, s.ext, s.rules,
      if e.keepsValidation then VisitedValidation(m, e.vv) else s.vv)
  }

  // --------------------------------------------- the callback on every node

  function NestedMapped(m: Visitor, n: Nested): Nested
    decreases n
  {
    var e := NestedEditOf(m, n);
    Nested(
      ValueValidation(
        e.bounds, e.enum, e.required,
        if e.keepsAllOf then NestedMappedSeq(m, n.vv.allOf) else [],
        if e.keepsOneOf then NestedMappedSeq(m, n.vv.oneOf) else [],
        if e.keepsAnyOf then NestedMappedSeq(m, n.vv.anyOf) else [],
        if e.keepsNot then NestedMappedOption(m, n.vv.negated) else None),
      e.rules,
      if e.keepsItems then NestedMappedOption(m, n.items) else None,
      if e.keepsProperties then map k | k in n.properties :: NestedMapped(m, n.properties[k]) else map[],
      if e.keepsAdditional then NestedMappedOption(m, n.additionalProperties) else None,
      e.generic, e.ext)
  }

  function NestedMappedSeq(m: Visitor, ns: seq<Nested>): (r: seq<Nested>)
    ensures |r| == |ns|
    ensures forall i :: 0 <= i < |ns| ==> r[i] == NestedMapped(m, ns[i])
    decreases ns
  {
    seq(|ns|, i requires 0 <= i < |ns| => NestedMapped(m, ns[i]))
  }

  function NestedMappedOption(m: Visitor, n: Option<Nested>): Option<Nested>
    decreases n
  {
    if n.Some? then Some(NestedMapped(m, n.value)) else None
  }

  function MappedValidation(m: Visitor, vv: Option<ValueValidation>): Option<ValueValidation> {
    if vv.None? then None
    else Some(vv.value.(
      allOf := NestedMappedSeq(m, vv.value.allOf), oneOf := NestedMappedSeq(m, vv.value.oneOf),
      anyOf := NestedMappedSeq(m, vv.value.anyOf), negated := NestedMappedOption(m, vv.value.negated)))
  }

  function Mapped(m: Visitor, s: Structural): Structural
    decreases s
  {
    var e := EditOf(m, s);
    Structural(
      if e.keepsItems then MappedOption(m, s.items) else None,
      if e.keepsProperties then map k | k in s.properties :: Mapped(m, s.properties[k]) else map[],
      if e.keepsAdditional then MappedAdditional(m, s.additionalProperties) else None,
      e.generic, e.ext, e.rules, MappedValidation(m, e.vv))
  }

  function MappedOption(m: Visitor, s: Option<Structural>): Option<Structural>
    decreases s
  {
    if s.Some? then Some(Mapped(m, s.value)) else None
  }

  function MappedAdditional(m: Visitor, ap: Option<StructuralOrBool>): Option<StructuralOrBool>
    decreases ap
  {
    if ap.Some? then Some(StructuralOrBool(MappedOption(m, ap.value.structural), ap.value.allows)) else None
  }

  // --------------------------------------------------- reporting one's changes

  /** A callback that reports no change has left the node's own fields and pointers alone. */
  predicate Reports(e: Edit, s: Structural) {
    && (e.keepsValidation ==> e.vv.Some? == s.vv.Some?)
    && (e.changed
        || (&& e.generic == s.generic && e.ext == s.ext && e.rules == s.rules
            && e.keepsItems && e.keepsProperties && e.keepsAdditional && e.keepsValidation))
  }

  predicate NestedReports(e: NestedEdit, n: Nested) {
    e.changed || e == NoNestedEdit(n)
  }

  ghost predicate Honest(m: Visitor) {
    && (forall s :: Reports(EditOf(m, s), s))
    && (forall n :: NestedReports(NestedEditOf(m, n), n))
  }

  // ------------------------------------------- the visit is the map, nested part

  lemma {:induction false} NestedSeqMaps(m: Visitor, ns: seq<Nested>)
    requires Honest(m)
    ensures NestedVisitedSeq(m, ns) == NestedMappedSeq(m, ns)
    decreases ns
  {
    forall i | 0 <= i < |ns|
      ensures NestedVisited(m, ns[i]) == NestedMapped(m, ns[i])
    {
      NestedVisitMaps(m, ns[i]);
    }
  }

  lemma {:induction false} NestedOptionMaps(m: Visitor, n: Option<Nested>)
    requires Honest(m)
    ensures NestedVisitedOption(m, n) == NestedMappedOption(m, n)
    decreases n
  {
    if n.Some? {
      NestedVisitMaps(m, n.value);
    }
  }

  lemma {:induction false} NestedEntriesMap(m: Visitor, n: Nested)
    requires Honest(m)
    ensures NestedEntries(m, n) == map k | k in n.properties :: NestedMapped(m, n.properties[k])
    decreases n, 0
  {
    forall k | k in n.properties
      ensures NestedEntry(m, n.properties[k]) == NestedMapped(m, n.properties[k])
    {
      NestedVisitMaps(m, n.properties[k]);
    }
  }

  /** When no change is reported, the copy that is thrown away holds what the entry holds. */
  lemma {:induction false} NestedCopyAddsNothing(m: Visitor, n: Nested)
    requires NestedReports(NestedEditOf(m, n), n)
    ensures NestedEntry(m, n) == NestedVisited(m, n)
  {
  }

  /** Under honest reporting a visited copy and a thrown-away one leave the same node. */
  lemma {:induction false} NestedVisitMaps(m: Visitor, n: Nested)
    requires Honest(m)
    ensures NestedVisited(m, n) == NestedMapped(m, n)
    ensures NestedEntry(m, n) == NestedMapped(m, n)
    decreases n, 2
  {
    NestedChildrenMap(m, n);
    NestedCopyAddsNothing(m, n);
  }

  lemma {:induction false} NestedChildrenMap(m: Visitor, n: Nested)
    requires Honest(m)
    ensures NestedVisited(m, n) == NestedMapped(m, n)
    decreases n, 1
  {
    NestedSeqMaps(m, n.vv.allOf);
    NestedSeqMaps(m, n.vv.oneOf);
    NestedSeqMaps(m, n.vv.anyOf);
    NestedOptionMaps(m, n.vv.negated);
    NestedOptionMaps(m, n.items);
    NestedOptionMaps(m, n.additionalProperties);
    NestedEntriesMap(m, n);
  }

  lemma {:induction false} ValidationMaps(m: Visitor, vv: Option<ValueValidation>)
    requires Honest(m)
    ensures VisitedValidation(m, vv) == MappedValidation(m, vv)
  {
    if vv.Some? {
      NestedSeqMaps(m, vv.value.allOf);
      NestedSeqMaps(m, vv.value.oneOf);
      NestedSeqMaps(m, vv.value.anyOf);
      NestedOptionMaps(m, vv.value.negated);
    }
  }

  // --------------------------------------- the visit is the map, structural part

  lemma {:induction false} OptionMaps(m: Visitor, s: Option<Structural>)
    requires Honest(m)
    ensures VisitedOption(m, s) == MappedOption(m, s)
    decreases s
  {
    if s.Some? {
      VisitMaps(m, s.value);
    }
  }

  lemma {:induction false} AdditionalMaps(m: Visitor, ap: Option<StructuralOrBool>)
    requires Honest(m)
    ensures VisitedAdditional(m, ap) == MappedAdditional(m, ap)
    decreases ap
  {
    if ap.Some? {
      OptionMaps(m, ap.value.structural);
    }
  }

  lemma {:induction false} EntriesMap(m: Visitor, s: Structural)
    requires Honest(m)
    ensures Entries(m, s) == map k | k in s.properties :: Mapped(m, s.properties[k])
    decreases s, 0
  {
    forall k | k in s.properties
      ensures Entry(m, s.properties[k]) == Mapped(m, s.properties[k])
    {
      VisitMaps(m, s.properties[k]);
    }
  }

  lemma {:induction false} CopyAddsNothing(m: Visitor, s: Structural)
    requires Reports(EditOf(m, s), s)
    ensures Entry(m, s) == Visited(m, s)
  {
  }

  /** Visiting a tree with callbacks that report their changes is applying them to every node. */
  lemma {:induction false} VisitMaps(m: Visitor, s: Structural)
    requires Honest(m)
    ensures Visited(m, s) == Mapped(m, s)
    ensures Entry(m, s) == Mapped(m, s)
    decreases s, 1
  {
    var e := EditOf(m, s);
    OptionMaps(m, s.items);
    AdditionalMaps(m, s.additionalProperties);
    EntriesMap(m, s);
    ValidationMaps(m, e.vv);
    CopyAddsNothing(m, s);
  }

  // ----------------------------------------------- what silence loses, and where

  /** A callback that clears `nullable` and never reports it. */
  function SilentlyNotNullable(s: Structural): Edit {
    NoEdit(s).(generic := s.generic.(nullable := false))
  }

  const NULLABLE_LEAF := Structural(None, map[], None, NO_GENERIC.(nullable := true), NO_EXTENSIONS, [], None)

  /** The change reaches `items` through the pointer and is lost in a map entry. */
  lemma {:induction false} SilentCallbackLosesEntries(m: Visitor, s: Structural)
    requires m == Visitor(Some(SilentlyNotNullable), None)
    requires s == NULLABLE_LEAF.(items := Some(NULLABLE_LEAF), properties := map["a" := NULLABLE_LEAF])
    ensures Visited(m, s).items.Some? && !Visited(m, s).items.value.generic.nullable
    ensures "a" in Visited(m, s).properties && Visited(m, s).properties["a"].generic.nullable
    ensures "a" in Mapped(m, s).properties && !Mapped(m, s).properties["a"].generic.nullable
  {
    var leaf := s.properties["a"];
    assert EditOf(m, leaf) == SilentlyNotNullable(leaf);
    assert EditOf(m, s) == SilentlyNotNullable(s);
    assert !Changed(m, leaf);
    assert Entries(m, s)["a"] == Entry(m, leaf);
  }

  /** Without map entries nothing depends on what the callback reports. */
  predicate Mapless(s: Structural)
    decreases s
  {
    && s.properties == map[]
    && (s.items.Some? ==> Mapless(s.items.value))
    && (s.additionalProperties.Some? && s.additionalProperties.value.structural.Some? ==> Mapless(s.additionalProperties.value.structural.value))
  }

  /** A visitor of structural nodes only goes wrong, if at all, in map entries. */
  lemma {:induction false} OnlyEntriesNeedReports(m: Visitor, s: Structural)
    requires m.nested.None? && Mapless(s)
    ensures Visited(m, s) == Mapped(m, s)
    decreases s
  {
    if s.items.Some? {
      OnlyEntriesNeedReports(m, s.items.value);
    }
    if s.additionalProperties.Some? && s.additionalProperties.value.structural.Some? {
      OnlyEntriesNeedReports(m, s.additionalProperties.value.structural.value);
    }
    NestedUntouched(m, EditOf(m, s).vv);
    assert VisitedOption(m, s.items) == MappedOption(m, s.items);
    if s.additionalProperties.Some? {
      assert VisitedOption(m, s.additionalProperties.value.structural) == MappedOption(m, s.additionalProperties.value.structural);
    }
    assert VisitedAdditional(m, s.additionalProperties) == MappedAdditional(m, s.additionalProperties);
    assert Visited(m, s).properties == Mapped(m, s).properties;
  }

  lemma {:induction false} NestedUntouched(m: Visitor, vv: Option<ValueValidation>)
    requires m.nested.None?
    ensures VisitedValidation(m, vv) == vv && MappedValidation(m, vv) == vv
  {
    if vv.Some? {
      NestedSeqUntouched(m, vv.value.allOf);
      NestedSeqUntouched(m, vv.value.oneOf);
      NestedSeqUntouched(m, vv.value.anyOf);
      NestedOptionUntouched(m, vv.value.negated);
    }
  }

  lemma {:induction false} NestedSeqUntouched(m: Visitor, ns: seq<Nested>)
    requires m.nested.None?
    ensures NestedVisitedSeq(m, ns) == ns && NestedMappedSeq(m, ns) == ns
    decreases ns
  {
    forall i | 0 <= i < |ns|
      ensures NestedVisited(m, ns[i]) == ns[i] && NestedMapped(m, ns[i]) == ns[i]
    {
      NestedNodeUntouched(m, ns[i]);
    }
    assert NestedVisitedSeq(m, ns) == ns && NestedMappedSeq(m, ns) == ns;
  }

  lemma {:induction false} NestedOptionUntouched(m: Visitor, n: Option<Nested>)
    requires m.nested.None?
    ensures NestedVisitedOption(m, n) == n && NestedMappedOption(m, n) == n
    decreases n
  {
    if n.Some? {
      NestedNodeUntouched(m, n.value);
    }
  }

  lemma {:induction false} NestedPropertiesUntouched(m: Visitor, n: Nested)
    requires m.nested.None?
    ensures NestedEntries(m, n) == n.properties
    ensures (map k | k in n.properties :: NestedMapped(m, n.properties[k])) == n.properties
    decreases n, 0
  {
    forall k | k in n.properties
      ensures NestedEntry(m, n.properties[k]) == n.properties[k] && NestedMapped(m, n.properties[k]) == n.properties[k]
    {
      NestedNodeUntouched(m, n.properties[k]);
    }
  }

  /** A nil nested callback changes no nested node, written back or not. */
  lemma {:induction false} NestedNodeUntouched(m: Visitor, n: Nested)
    requires m.nested.None?
    ensures NestedVisited(m, n) == n && NestedMapped(m, n) == n && NestedEntry(m, n) == n
    decreases n, 1
  {
    NestedSeqUntouched(m, n.vv.allOf);
    NestedSeqUntouched(m, n.vv.oneOf);
    NestedSeqUntouched(m, n.vv.anyOf);
    NestedOptionUntouched(m, n.vv.negated);
    NestedOptionUntouched(m, n.items);
    NestedOptionUntouched(m, n.additionalProperties);
    NestedPropertiesUntouched(m, n);
  }

  // ---------------------------------------------------------------- the walk

  /**
   Visits one place that holds a nested node. `out` is the node there afterwards; `left` is
   what an entry holds if the place was only a copy of it and is not written back.
   */
  method VisitNested(m: Visitor, n: Nested) returns (ret: bool, out: Nested, left: Nested)
    ensures ret == NestedChanged(m, n) && out == NestedVisited(m, n) && left == NestedLeftover(m, n)
    decreases n, 1
  {
    var e := NestedEditOf(m, n);
    ret := e.changed;
    out := NestedEdited(m, n);
    left := n;
    if e.keepsItems {
      var items := VisitNestedOption(m, n.items);
      out, left := out.(items := items), left.(items := items);
    }
    if e.keepsProperties {
      var anyChanged, properties := VisitNestedProperties(m, n);
      assert properties == NestedEntries(m, n);
      ret := ret || anyChanged;
      out, left := out.(properties := properties), left.(properties := properties);
    }
    if e.keepsAdditional {
      var additional := VisitNestedOption(m, n.additionalProperties);
      out, left := out.(additionalProperties := additional), left.(additionalProperties := additional);
    }
    var vv, leftVv := VisitNestedJunctors(m, n);
    out, left := out.(vv := vv), left.(vv := leftVv);
  }

  method VisitNestedJunctors(m: Visitor, n: Nested) returns (vv: ValueValidation, left: ValueValidation)
    ensures vv == NestedVisited(m, n).vv && left == NestedLeftover(m, n).vv
    decreases n, 0
  {
    var e := NestedEditOf(m, n);
    vv, left := NestedEdited(m, n).vv, n.vv;
    if e.keepsAllOf {
      var allOf := VisitNestedSlice(m, n.vv.allOf);
      vv, left := vv.(allOf := allOf), left.(allOf := allOf);
    }
    if e.keepsAnyOf {
      var anyOf := VisitNestedSlice(m, n.vv.anyOf);
      vv, left := vv.(anyOf := anyOf), left.(anyOf := anyOf);
    }
    if e.keepsOneOf {
      var oneOf := VisitNestedSlice(m, n.vv.oneOf);
      vv, left := vv.(oneOf := oneOf), left.(oneOf := oneOf);
    }
    if e.keepsNot {
      var negated := VisitNestedOption(m, n.vv.negated);
      vv, left := vv.(negated := negated), left.(negated := negated);
    }
  }

  method VisitNestedSlice(m: Visitor, ns: seq<Nested>) returns (out: seq<Nested>)
    ensures out == NestedVisitedSeq(m, ns)
    decreases ns
  {
    out := ns;
    for i := 0 to |ns|
      invariant |out| == |ns|
      invariant forall j :: 0 <= j < i ==> out[j] == NestedVisited(m, ns[j])
      invariant forall j :: i <= j < |ns| ==> out[j] == ns[j]
    {
      var _, visited, _ := VisitNested(m, out[i]);
      out := out[i := visited];
    }
  }

  method VisitNestedOption(m: Visitor, n: Option<Nested>) returns (out: Option<Nested>)
    ensures out == NestedVisitedOption(m, n)
    decreases n
  {
    out := n;
    if n.Some? {
      var _, visited, _ := VisitNested(m, n.value);
      out := Some(visited);
    }
  }

  /** Visits a copy of an entry, and writes it back when told of a change. */
  method VisitNestedEntry(m: Visitor, v: Nested) returns (changed: bool, entry: Nested)
    ensures changed == NestedChanged(m, v) && entry == NestedEntry(m, v)
    decreases v, 2
  {
    var ret, copied, left := VisitNested(m, v);
    changed := ret;
    entry := left;
    if changed {
      entry := copied;
    }
  }

  method VisitNestedProperties(m: Visitor, n: Nested) returns (anyChanged: bool, entries: map<string, Nested>)
    ensures anyChanged <==> exists k :: k in n.properties && NestedChanged(m, n.properties[k])
    ensures entries.Keys == n.properties.Keys
    ensures forall k :: k in n.properties ==> entries[k] == NestedEntry(m, n.properties[k])
    decreases n, 0
  {
    anyChanged, entries := false, n.properties;
    var todo := n.properties.Keys;
    while todo != {}
      invariant todo <= n.properties.Keys && entries.Keys == n.properties.Keys
      invariant anyChanged <==> exists k :: k in n.properties && k !in todo && NestedChanged(m, n.properties[k])
      invariant forall k :: k in todo ==> entries[k] == n.properties[k]
      invariant forall k :: k in n.properties && k !in todo ==> entries[k] == NestedEntry(m, n.properties[k])
      decreases |todo|
    {
      var k :| k in todo;
      var changed, entry := VisitNestedEntry(m, n.properties[k]);
      anyChanged := anyChanged || changed;
      entries := entries[k := entry];
      todo := todo - {k};
    }
  }

  /** Visits one place that holds a structural node; see VisitNested for the results. */
  method VisitStructural(m: Visitor, s: Structural) returns (ret: bool, out: Structural, left: Structural)
    ensures ret == Changed(m, s) && out == Visited(m, s) && left == Leftover(m, s)
    decreases s, 1
  {
    var e := EditOf(m, s);
    ret := e.changed;
    out := Edited(m, s);
    left := s;
    if e.keepsItems {
      var items := VisitOption(m, s.items);
      out, left := out.(items := items), left.(items := items);
    }
    if e.keepsProperties {
      var anyChanged, properties := VisitProperties(m, s);
      assert properties == Entries(m, s);
      ret := ret || anyChanged;
      out, left := out.(properties := properties), left.(properties := properties);
    }
    if e.keepsAdditional {
      var additional := VisitAdditional(m, s.additionalProperties);
      out, left := out.(additionalProperties := additional), left.(additionalProperties := additional);
    }
    var vv := VisitValidation(m, e.vv);
    out := out.(vv := vv);
    if e.keepsValidation {
      left := left.(vv := vv);
    }
  }

  method VisitValidation(m: Visitor, vv: Option<ValueValidation>) returns (out: Option<ValueValidation>)
    ensures out == VisitedValidation(m, vv)
  {
    out := vv;
    if vv.Some? {
      var allOf := VisitNestedSlice(m, vv.value.allOf);
      var anyOf := VisitNestedSlice(m, vv.value.anyOf);
      var oneOf := VisitNestedSlice(m, vv.value.oneOf);
      var negated := VisitNestedOption(m, vv.value.negated);
      out := Some(vv.value.(allOf := allOf, anyOf := anyOf, oneOf := oneOf, negated := negated));
    }
  }

  method VisitOption(m: Visitor, s: Option<Structural>) returns (out: Option<Structural>)
    ensures out == VisitedOption(m, s)
    decreases s
  {
    out := s;
    if s.Some? {
      var _, visited, _ := VisitStructural(m, s.value);
      out := Some(visited);
    }
  }

  method VisitAdditional(m: Visitor, ap: Option<StructuralOrBool>) returns (out: Option<StructuralOrBool>)
    ensures out == VisitedAdditional(m, ap)
    decreases ap
  {
    out := ap;
    if ap.Some? {
      var structural := VisitOption(m, ap.value.structural);
      out := Some(StructuralOrBool(structural, ap.value.allows));
    }
  }

  /** Visits a copy of an entry, and writes it back when told of a change. */
  method VisitEntry(m: Visitor, v: Structural) returns (changed: bool, entry: Structural)
    ensures changed == Changed(m, v) && entry == Entry(m, v)
    decreases v, 2
  {
    var ret, copied, left := VisitStructural(m, v);
    changed := ret;
    entry := left;
    if changed {
      entry := copied;
    }
  }

  method VisitProperties(m: Visitor, s: Structural) returns (anyChanged: bool, entries: map<string, Structural>)
    ensures anyChanged <==> exists k :: k in s.properties && Changed(m, s.properties[k])
    ensures entries.Keys == s.properties.Keys
    ensures forall k :: k in s.properties ==> entries[k] == Entry(m, s.properties[k])
    decreases s, 0
  {
    anyChanged, entries := false, s.properties;
    var todo := s.properties.Keys;
    while todo != {}
      invariant todo <= s.properties.Keys && entries.Keys == s.properties.Keys
      invariant anyChanged <==> exists k :: k in s.properties && k !in todo && Changed(m, s.properties[k])
      invariant forall k :: k in todo ==> entries[k] == s.properties[k]
      invariant forall k :: k in s.properties && k !in todo ==> entries[k] == Entry(m, s.properties[k])
      decreases |todo|
    {
      var k :| k in todo;
      var changed, entry := VisitEntry(m, s.properties[k]);
      anyChanged := anyChanged || changed;
      entries := entries[k := entry];
      todo := todo - {k};
    }
  }

  /** The exported entry point: with honest callbacks, the callback is applied to every node. */
  method Visit(m: Visitor, s: Structural) returns (out: Structural)
    ensures out == Visited(m, s)
    ensures Honest(m) ==> out == Mapped(m, s)
  {
    var _, visited, _ := VisitStructural(m, s);
    out := visited;
    if Honest(m) {
      VisitMaps(m, s);
    }
  }
}
