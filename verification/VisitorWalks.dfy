/**
 What a visit leaves, node by node: whatever leads to a node that no callback lets go of, the node is still there and
 has the fields its callback gave it. And what a visit reports, entry by entry.
 */
module VisitorWalks {
  import opened Crds
  import opened Schemas
  import opened FieldPaths
  import Completeness
  import opened Visitor
  import opened ValidationRules

  const EVERYWHERE := Options(true, true, true)

  // ------------------------------------------------------------ nested nodes

  /** The callback keeps the child that the step leads to. */
  predicate NestedKeeps(e: NestedEdit, step: Completeness.Step) {
    match step
    case Not => e.keepsNot
    case AllOf(_) => e.keepsAllOf
    case AnyOf(_) => e.keepsAnyOf
    case OneOf(_) => e.keepsOneOf
    case Items => e.keepsItems
    case Property(_) => e.keepsProperties
    case Additional => e.keepsAdditional
  }

  /** No callback on the way lets go of the next node. */
  predicate NestedKept(m: Visitor, n: Nested, walk: Walk)
    decreases |walk|
  {
    walk == [] ||
    (&& NestedKeeps(NestedEditOf(m, n), walk[0])
     && (Completeness.Below(n, walk[0], EVERYWHERE).Some? ==> NestedKept(m, Completeness.Below(n, walk[0], EVERYWHERE).value, walk[1..])))
  }

  /** The node's own fields are the ones its callback gave it. */
  predicate HasNestedEdit(e: NestedEdit, n: Nested) {
    && n.vv.bounds == e.bounds && n.vv.enum == e.enum && n.vv.required == e.required
    && n.rules == e.rules && n.generic == e.generic && n.ext == e.ext
  }

  lemma {:induction false} NestedMappedBelow(m: Visitor, n: Nested, step: Completeness.Step)
    ensures Completeness.Below(NestedMapped(m, n), step, EVERYWHERE) ==
      if NestedKeeps(NestedEditOf(m, n), step) then NestedMappedOption(m, Completeness.Below(n, step, EVERYWHERE)) else None
  {
  }

  lemma {:induction false} NestedMappedAt(m: Visitor, n: Nested, walk: Walk)
    ensures NodeAt(NestedMapped(m, n), walk, EVERYWHERE) ==
      if NestedKept(m, n, walk) then NestedMappedOption(m, NodeAt(n, walk, EVERYWHERE)) else None
    decreases |walk|
  {
    if walk != [] {
      NestedMappedBelow(m, n, walk[0]);
      if Completeness.Below(n, walk[0], EVERYWHERE).Some? {
        NestedMappedAt(m, Completeness.Below(n, walk[0], EVERYWHERE).value, walk[1..]);
      }
    }
  }

  /** The visit of a nested node with honest callbacks keeps exactly the nodes that nobody lets go of, each with its callback's fields. */
  lemma {:induction false} NestedVisitReaches(m: Visitor, n: Nested, walk: Walk)
    requires Honest(m)
    ensures var t := NodeAt(NestedVisited(m, n), walk, EVERYWHERE);
      && (t.Some? <==> NodeAt(n, walk, EVERYWHERE).Some? && NestedKept(m, n, walk))
      && (t.Some? ==> HasNestedEdit(NestedEditOf(m, NodeAt(n, walk, EVERYWHERE).value), t.value))
  {
    NestedVisitMaps(m, n);
    NestedMappedAt(m, n, walk);
  }

  // -------------------------------------------------------- structural nodes

  predicate Keeps(e: Edit, step: Completeness.Step) {
    match step
    case Items => e.keepsItems
    case Property(_) => e.keepsProperties
    case Additional => e.keepsAdditional
    case _ => false
  }

  predicate Kept(m: Visitor, s: Structural, place: Walk)
    decreases |place|
  {
    place == [] ||
    (Keeps(EditOf(m, s), place[0]) && (Onwards(s, place[0]).Some? ==> Kept(m, Onwards(s, place[0]).value, place[1..])))
  }

  /** The node's own fields are the ones its callback gave it, and additionalProperties allows what it did. */
  predicate HasEdit(e: Edit, before: Structural, s: Structural) {
    && s.generic == e.generic && s.ext == e.ext && s.rules == e.rules
    && s.vv.Some? == e.vv.Some?
    && (s.vv.Some? ==> s.vv.value.bounds == e.vv.value.bounds && s.vv.value.enum == e.vv.value.enum && s.vv.value.required == e.vv.value.required)
    && s.additionalProperties.Some? == (e.keepsAdditional && before.additionalProperties.Some?)
    && (s.additionalProperties.Some? ==> s.additionalProperties.value.allows == before.additionalProperties.value.allows)
  }

  lemma {:induction false} MappedOnwards(m: Visitor, s: Structural, step: Completeness.Step)
    ensures Onwards(Mapped(m, s), step) == if Keeps(EditOf(m, s), step) then MappedOption(m, Onwards(s, step)) else None
  {
  }

  lemma {:induction false} MappedAt(m: Visitor, s: Structural, place: Walk)
    ensures StructuralAt(Mapped(m, s), place) == if Kept(m, s, place) then MappedOption(m, StructuralAt(s, place)) else None
    decreases |place|
  {
    if place != [] {
      MappedOnwards(m, s, place[0]);
      if Onwards(s, place[0]).Some? {
        MappedAt(m, Onwards(s, place[0]).value, place[1..]);
      }
    }
  }

  lemma {:induction false} MappedHasEdit(m: Visitor, s: Structural)
    ensures HasEdit(EditOf(m, s), s, Mapped(m, s))
  {
  }

  /**
   A visit with honest callbacks, at every structural node it leads to: the node is still there exactly when no callback on the way
   let go of it, with the fields its own callback gave it.
   */
  lemma {:induction false} VisitReaches(m: Visitor, s: Structural, place: Walk)
    requires Honest(m)
    ensures var t := StructuralAt(Visited(m, s), place);
      && (t.Some? <==> StructuralAt(s, place).Some? && Kept(m, s, place))
      && (t.Some? ==> HasEdit(EditOf(m, StructuralAt(s, place).value), StructuralAt(s, place).value, t.value))
  {
    VisitMaps(m, s);
    MappedAt(m, s, place);
    if StructuralAt(s, place).Some? {
      MappedHasEdit(m, StructuralAt(s, place).value);
    }
  }

  lemma {:induction false} MappedInside(m: Visitor, vv: ValueValidation, walk: Walk)
    requires walk != [] && IsJunctor(walk[0])
    ensures NodeAt(Completeness.RootNode(MappedValidation(m, Some(vv)).value), walk, EVERYWHERE) ==
      var below := Completeness.Below(Completeness.RootNode(vv), walk[0], EVERYWHERE);
      if below.Some? then NodeAt(NestedMapped(m, below.value), walk[1..], EVERYWHERE) else None
  {
  }

  /** And at every nested node inside the value validation that a structural node is left with. */
  lemma {:induction false} VisitReachesInside(m: Visitor, s: Structural, place: Walk, walk: Walk)
    requires Honest(m) && StructuralAt(s, place).Some? && Kept(m, s, place)
    requires walk != [] && IsJunctor(walk[0]) && EditOf(m, StructuralAt(s, place).value).vv.Some?
    requires Completeness.Below(Completeness.RootNode(EditOf(m, StructuralAt(s, place).value).vv.value), walk[0], EVERYWHERE).Some?
    ensures var given := EditOf(m, StructuralAt(s, place).value).vv.value;
      var t := StructuralAt(Visited(m, s), place);
      && t.Some? && t.value.vv.Some?
      && var below := Completeness.Below(Completeness.RootNode(given), walk[0], EVERYWHERE).value;
         var n, n' := NodeAt(below, walk[1..], EVERYWHERE), NodeAt(Completeness.RootNode(t.value.vv.value), walk, EVERYWHERE);
         && (n'.Some? <==> n.Some? && NestedKept(m, below, walk[1..]))
         && (n'.Some? ==> HasNestedEdit(NestedEditOf(m, n.value), n'.value))
  {
    var node := StructuralAt(s, place).value;
    var given := EditOf(m, node).vv.value;
    VisitMaps(m, s);
    MappedAt(m, s, place);
    assert Mapped(m, node).vv == MappedValidation(m, Some(given));
    MappedInside(m, given, walk);
    NestedMappedAt(m, Completeness.Below(Completeness.RootNode(given), walk[0], EVERYWHERE).value, walk[1..]);
  }

  // ------------------------------------------------------------- what is reported

  /** The structural node behind a row of property names, as long as every callback on the way keeps the properties. */
  function EntryAt(m: Visitor, s: Structural, keys: seq<string>): Option<Structural>
    decreases |keys|
  {
    if keys == [] then Some(s)
    else if EditOf(m, s).keepsProperties && keys[0] in s.properties then EntryAt(m, s.properties[keys[0]], keys[1..])
    else None
  }

  /** The node there was reported changed by its callback. */
  predicate ReportedAt(m: Visitor, s: Structural, keys: seq<string>) {
    EntryAt(m, s, keys).Some? && EditOf(m, EntryAt(m, s, keys).value).changed
  }

  lemma {:induction false} ReportOf(m: Visitor, s: Structural) returns (keys: seq<string>)
    requires Changed(m, s)
    ensures ReportedAt(m, s, keys)
    decreases s
  {
    if EditOf(m, s).changed {
      keys := [];
    } else {
      var k :| k in s.properties && Changed(m, s.properties[k]);
      var rest := ReportOf(m, s.properties[k]);
      keys := [k] + rest;
      assert keys[0] == k && keys[1..] == rest;
    }
  }

  lemma {:induction false} ReportedIsChanged(m: Visitor, s: Structural, keys: seq<string>)
    requires ReportedAt(m, s, keys)
    ensures Changed(m, s)
    decreases |keys|
  {
    if keys != [] {
      ReportedIsChanged(m, s.properties[keys[0]], keys[1..]);
    }
  }

  /** The visit of a place says whether a callback reported a change there or behind it through map entries only. */
  lemma {:induction false} VisitReports(m: Visitor, s: Structural)
    ensures Changed(m, s) <==> exists keys :: ReportedAt(m, s, keys)
  {
    if Changed(m, s) {
      var keys := ReportOf(m, s);
    }
    forall keys | ReportedAt(m, s, keys)
      ensures Changed(m, s)
    {
      ReportedIsChanged(m, s, keys);
    }
  }

  function NestedEntryAt(m: Visitor, n: Nested, keys: seq<string>): Option<Nested>
    decreases |keys|
  {
    if keys == [] then Some(n)
    else if NestedEditOf(m, n).keepsProperties && keys[0] in n.properties then NestedEntryAt(m, n.properties[keys[0]], keys[1..])
    else None
  }

  predicate NestedReportedAt(m: Visitor, n: Nested, keys: seq<string>) {
    NestedEntryAt(m, n, keys).Some? && NestedEditOf(m, NestedEntryAt(m, n, keys).value).changed
  }

  lemma {:induction false} NestedReportOf(m: Visitor, n: Nested) returns (keys: seq<string>)
    requires NestedChanged(m, n)
    ensures NestedReportedAt(m, n, keys)
    decreases n
  {
    if NestedEditOf(m, n).changed {
      keys := [];
    } else {
      var k :| k in n.properties && NestedChanged(m, n.properties[k]);
      var rest := NestedReportOf(m, n.properties[k]);
      keys := [k] + rest;
      assert keys[0] == k && keys[1..] == rest;
    }
  }

  lemma {:induction false} NestedReportedIsChanged(m: Visitor, n: Nested, keys: seq<string>)
    requires NestedReportedAt(m, n, keys)
    ensures NestedChanged(m, n)
    decreases |keys|
  {
    if keys != [] {
      NestedReportedIsChanged(m, n.properties[keys[0]], keys[1..]);
    }
  }

  lemma {:induction false} NestedVisitReports(m: Visitor, n: Nested)
    ensures NestedChanged(m, n) <==> exists keys :: NestedReportedAt(m, n, keys)
  {
    if NestedChanged(m, n) {
      var keys := NestedReportOf(m, n);
    }
    forall keys | NestedReportedAt(m, n, keys)
      ensures NestedChanged(m, n)
    {
      NestedReportedIsChanged(m, n, keys);
    }
  }

  // ------------------------------------------------------- without reports

  /**
   Whatever the callbacks report: an entry nobody behind it reported keeps its own fields, one that was reported has its
   callback's.
   */
  lemma {:induction false} EntryIsWrittenBackOnReport(m: Visitor, s: Structural, k: string)
    requires EditOf(m, s).keepsProperties && k in s.properties
    ensures k in Visited(m, s).properties
    ensures var before, after := s.properties[k], Visited(m, s).properties[k];
      if exists keys :: ReportedAt(m, before, keys) then
        after.generic == EditOf(m, before).generic && after.ext == EditOf(m, before).ext && after.rules == EditOf(m, before).rules
      else after.generic == before.generic && after.ext == before.ext && after.rules == before.rules
  {
    VisitReports(m, s.properties[k]);
    assert Entries(m, s)[k] == Entry(m, s.properties[k]);
  }
}
