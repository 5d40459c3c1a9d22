/**
 The measure by which naming settles, on a store of CRDs: slots still to be matched, and
 NamesAccepted conditions that are out of date. What the controller's own lister, mutation
 cache and interleavings make of it is in NamingRuns.
 */
module NamingTermination {
  import opened Crds
  import opened Naming

  /** The resource names and kinds held in a group. */
  ghost function ResourcesHeld(m: map<string, CRD>, group: string): set<string> {
    set n, x | n in m && m[n].spec.group == group && x in ResourceNames(m[n].accepted) :: x
  }

  ghost function KindsHeld(m: map<string, CRD>, group: string): set<string> {
    set n, x | n in m && m[n].spec.group == group && x in KindNames(m[n].accepted) :: x
  }

  ghost predicate Settled(m: map<string, CRD>, n: string)
    requires n in m
  {
    var crd := m[n];
    crd.spec.names == crd.accepted || NothingToWrite(crd, ResourcesHeld(m, crd.spec.group), KindsHeld(m, crd.spec.group))
  }

  /** One synchronisation of `n`. */
  ghost function Synced(m: map<string, CRD>, n: string): map<string, CRD> {
    if n !in m || Settled(m, n) then m
    else
      var crd := m[n];
      m[n := NamingWriteOf(crd, ResourcesHeld(m, crd.spec.group), KindsHeld(m, crd.spec.group))]
  }

  // ------------------------------------------------------------ the measure

  datatype Slot = Plural | Singular | ShortNames | Kind | ListKind | Categories

  const SLOTS := {Plural, Singular, ShortNames, Kind, ListKind, Categories}

  predicate SameSlot(a: Names, b: Names, slot: Slot) {
    match slot
    case Plural => a.plural == b.plural
    case Singular => a.singular == b.singular
    case ShortNames => a.shortNames == b.shortNames
    case Kind => a.kind == b.kind
    case ListKind => a.listKind == b.listKind
    case Categories => a.categories == b.categories
  }

  /** The slots in which accepted and requested names differ. */
  ghost function Mismatches(m: map<string, CRD>): set<(string, Slot)> {
    set n, slot | n in m && slot in SLOTS && !SameSlot(m[n].spec.names, m[n].accepted, slot) :: (n, slot)
  }

  /** NamesAccepted as it would be worked out if the CRDs of `view` were the ones that hold names. */
  ghost function ComputedUnder(crd: CRD, view: map<string, CRD>): Condition {
    NamesCondition(crd, ResourcesHeld(view, crd.spec.group), KindsHeld(view, crd.spec.group))
  }

  /** The CRDs whose stored NamesAccepted is not what would be worked out from `view`. */
  ghost function StaleUnder(m: map<string, CRD>, view: map<string, CRD>): set<string> {
    set n | n in m && FindCondition(m[n].conditions, NamesAccepted) != Some(ComputedUnder(m[n], view))
  }

  ghost function StaleConditions(m: map<string, CRD>): set<string> {
    StaleUnder(m, m)
  }

  /** Lexicographic: a mismatch weighs more than every condition of the store together. */
  function Weighed(mismatches: nat, size: nat, stale: nat): nat {
    mismatches * (size + 1) + stale
  }

  ghost function Potential(m: map<string, CRD>): nat {
    Weighed(|Mismatches(m)|, |m|, |StaleConditions(m)|)
  }

  // ------------------------------------------------------ each write counts

  lemma {:induction false} ProperSubsetIsSmaller<T>(a: set<T>, b: set<T>)
    requires a < b
    ensures |a| < |b|
  {
    assert b == a + (b - a);
    assert |b - a| > 0 by {
      var x :| x in b && x !in a;
      assert x in b - a;
    }
  }

  lemma {:induction false} SubsetIsNoLarger<T>(a: set<T>, b: set<T>)
    requires a <= b
    ensures |a| <= |b|
  {
    if a != b {
      ProperSubsetIsSmaller(a, b);
    }
  }

  lemma {:induction false} StaleAtMostAll(m: map<string, CRD>, view: map<string, CRD>)
    ensures |StaleUnder(m, view)| <= |m.Keys| == |m|
  {
    SubsetIsNoLarger(StaleUnder(m, view), m.Keys);
  }

  /** Two different sets of names differ in some slot. */
  function ChangedSlot(a: Names, b: Names): (slot: Slot)
    requires a != b
    ensures slot in SLOTS && !SameSlot(a, b, slot)
  {
    if a.plural != b.plural then Plural
    else if a.singular != b.singular then Singular
    else if a.shortNames != b.shortNames then ShortNames
    else if a.kind != b.kind then Kind
    else if a.listKind != b.listKind then ListKind
    else Categories
  }

  /** `c` has the spec of `crd` and the names granted to it against some sets of used names. */
  predicate GrantedOver(crd: CRD, c: CRD, resources: set<string>, kinds: set<string>) {
    && c.spec == crd.spec
    && c.accepted == GrantedNames(crd, resources, kinds)
    && FindCondition(c.conditions, NamesAccepted) == Some(NamesCondition(crd, resources, kinds))
  }

  /** Whatever names were counted as used, a write that changes accepted names only turns mismatched slots into matched ones. */
  lemma {:induction false} NameWriteDropsMismatches(m: map<string, CRD>, n: string, c: CRD, resources: set<string>, kinds: set<string>)
    requires n in m && GrantedOver(m[n], c, resources, kinds) && c.accepted != m[n].accepted
    ensures Mismatches(m[n := c]) < Mismatches(m)
  {
    RefusedMeansInUse(m[n], resources, kinds);
    var slot := ChangedSlot(c.accepted, m[n].accepted);
    assert (n, slot) in Mismatches(m) && (n, slot) !in Mismatches(m[n := c]);
  }

  /** What is held, and what is mismatched, depends on specs and accepted names only. */
  lemma {:induction false} SameNamesSameHeld(m: map<string, CRD>, m': map<string, CRD>)
    requires m'.Keys == m.Keys
    requires forall k :: k in m ==> m'[k].accepted == m[k].accepted && m'[k].spec == m[k].spec
    ensures Mismatches(m') == Mismatches(m)
    ensures forall g :: ResourcesHeld(m', g) == ResourcesHeld(m, g)
    ensures forall g :: KindsHeld(m', g) == KindsHeld(m, g)
  {
  }

  lemma {:induction false} SameHeldSameStale(m: map<string, CRD>, view: map<string, CRD>, view': map<string, CRD>)
    requires forall g :: ResourcesHeld(view', g) == ResourcesHeld(view, g)
    requires forall g :: KindsHeld(view', g) == KindsHeld(view, g)
    ensures StaleUnder(m, view') == StaleUnder(m, view)
  {
  }

  /** A write that keeps accepted names is corrected or gone stale according to the condition it carries. */
  lemma {:induction false} ConditionWriteEffect(m: map<string, CRD>, view: map<string, CRD>, n: string, c: CRD, resources: set<string>, kinds: set<string>)
    requires n in m && GrantedOver(m[n], c, resources, kinds) && c.accepted == m[n].accepted
    ensures Mismatches(m[n := c]) == Mismatches(m)
    ensures StaleUnder(m[n := c], view) ==
      if NamesCondition(m[n], resources, kinds) == ComputedUnder(m[n], view) then StaleUnder(m, view) - {n} else StaleUnder(m, view) + {n}
  {
    assert ComputedUnder(c, view) == ComputedUnder(m[n], view);
  }

  lemma {:induction false} LexicographicDrop(a: nat, b: nat, x: nat, y: nat, c: nat)
    requires a < b && x < c
    ensures a * c + x < b * c + y
  {
    assert (b - a - 1) * c >= 0;
    assert b * c == a * c + c + (b - a - 1) * c;
  }

  /** One mismatch outweighs all stale conditions. */
  lemma {:induction false} FewerMismatches(m: map<string, CRD>, m': map<string, CRD>)
    requires |m'| == |m| && |Mismatches(m')| < |Mismatches(m)|
    ensures Potential(m') < Potential(m)
  {
    StaleAtMostAll(m', m');
    LexicographicDrop(|Mismatches(m')|, |Mismatches(m)|, |StaleConditions(m')|, |StaleConditions(m)|, |m| + 1);
  }

  lemma {:induction false} SameMismatches(m: map<string, CRD>, m': map<string, CRD>)
    requires |m'| == |m| && Mismatches(m') == Mismatches(m)
    ensures Potential(m') - Potential(m) == |StaleConditions(m')| - |StaleConditions(m)|
  {
  }

  lemma {:induction false} NameWriteLowersPotential(m: map<string, CRD>, n: string, c: CRD, resources: set<string>, kinds: set<string>)
    requires n in m && GrantedOver(m[n], c, resources, kinds) && c.accepted != m[n].accepted
    ensures Potential(m[n := c]) < Potential(m)
  {
    var m' := m[n := c];
    assert m'.Keys == m.Keys && |m'.Keys| == |m'| && |m.Keys| == |m|;
    NameWriteDropsMismatches(m, n, c, resources, kinds);
    ProperSubsetIsSmaller(Mismatches(m'), Mismatches(m));
    FewerMismatches(m, m');
  }

  /** The held names before and after a write that keeps accepted names are the same. */
  lemma {:induction false} ConditionWriteStale(m: map<string, CRD>, n: string, c: CRD, resources: set<string>, kinds: set<string>)
    requires n in m && GrantedOver(m[n], c, resources, kinds) && c.accepted == m[n].accepted
    ensures Mismatches(m[n := c]) == Mismatches(m) && |m[n := c]| == |m|
    ensures StaleConditions(m[n := c]) ==
      if NamesCondition(m[n], resources, kinds) == ComputedUnder(m[n], m) then StaleConditions(m) - {n} else StaleConditions(m) + {n}
  {
    var m' := m[n := c];
    assert m'.Keys == m.Keys;
    assert |m'.Keys| == |m'| && |m.Keys| == |m|;
    SameNamesSameHeld(m, m');
    SameHeldSameStale(m', m, m');
    ConditionWriteEffect(m, m, n, c, resources, kinds);
  }

  /**
   A write lowers the potential exactly when it changes accepted names, or carries the
   condition that the names really held ask for. The names counted as used may be any.
   */
  lemma {:induction false} WriteLowersPotential(m: map<string, CRD>, n: string, c: CRD, resources: set<string>, kinds: set<string>)
    requires n in m && !NothingToWrite(m[n], resources, kinds)
    requires GrantedOver(m[n], c, resources, kinds)
    ensures Potential(m[n := c]) < Potential(m) <==>
      c.accepted != m[n].accepted || NamesCondition(m[n], resources, kinds) == ComputedUnder(m[n], m)
  {
    if c.accepted != m[n].accepted {
      NameWriteLowersPotential(m, n, c, resources, kinds);
    } else {
      ConditionWriteStale(m, n, c, resources, kinds);
      SameMismatches(m, m[n := c]);
      if NamesCondition(m[n], resources, kinds) == ComputedUnder(m[n], m) {
        assert n in StaleConditions(m);
        ProperSubsetIsSmaller(StaleConditions(m) - {n}, StaleConditions(m));
      } else {
        SubsetIsNoLarger(StaleConditions(m), StaleConditions(m) + {n});
      }
    }
  }

  // ------------------------------------------- what other writers do to it

  /** Objects may go, but what is left keeps its spec, its accepted names and its NamesAccepted. */
  predicate Undisturbed(m: map<string, CRD>, m': map<string, CRD>) {
    && m'.Keys <= m.Keys
    && forall n :: n in m' ==>
         && m'[n].spec == m[n].spec
         && m'[n].accepted == m[n].accepted
         && FindCondition(m'[n].conditions, NamesAccepted) == FindCondition(m[n].conditions, NamesAccepted)
  }

  /** The condition of a CRD that has all it asks for does not depend on what others hold. */
  lemma {:induction false} SatisfiedNeedsNoView(crd: CRD, view: map<string, CRD>)
    requires crd.spec.names == crd.accepted
    ensures ComputedUnder(crd, view) == Condition(NamesAccepted, StatusTrue, "NoConflicts", Text("no conflicts found"))
  {
    NothingRefused(crd.accepted.shortNames, crd.accepted.shortNames, ResourcesHeld(view, crd.spec.group));
  }

  lemma {:induction false} ProjectionIsNoLarger(names: set<string>, pairs: set<(string, Slot)>)
    requires forall n :: n in names ==> exists slot :: (n, slot) in pairs
    ensures |names| <= |pairs|
  {
    if names != {} {
      var n :| n in names;
      var slot :| (n, slot) in pairs;
      ProjectionIsNoLarger(names - {n}, pairs - {(n, slot)});
    }
  }

  /** A condition that goes stale because names were freed belongs to a CRD with a mismatch. */
  lemma {:induction false} NewlyStaleAreMismatched(m: map<string, CRD>, m': map<string, CRD>)
    requires Undisturbed(m, m')
    ensures |StaleConditions(m')| <= |StaleConditions(m)| + |Mismatches(m')|
  {
    var newly := StaleConditions(m') - StaleConditions(m);
    forall n | n in newly
      ensures exists slot :: (n, slot) in Mismatches(m')
    {
      if m'[n].spec.names == m'[n].accepted {
        SatisfiedNeedsNoView(m'[n], m');
        SatisfiedNeedsNoView(m[n], m);
      }
      var slot := ChangedSlot(m'[n].spec.names, m'[n].accepted);
      assert (n, slot) in Mismatches(m');
    }
    ProjectionIsNoLarger(newly, Mismatches(m'));
    SubsetIsNoLarger(StaleConditions(m'), StaleConditions(m) + newly);
  }

  lemma {:induction false} UndisturbedMismatches(m: map<string, CRD>, m': map<string, CRD>)
    requires Undisturbed(m, m')
    ensures |Mismatches(m')| <= |Mismatches(m)|
  {
    assert Mismatches(m') <= Mismatches(m);
    SubsetIsNoLarger(Mismatches(m'), Mismatches(m));
  }

  lemma {:induction false} MulUp(a: nat, b: nat, k: nat, l: nat)
    requires a <= b && k <= l
    ensures a * k <= b * l
  {
    assert (b - a) * l >= 0 && a * (l - k) >= 0;
  }

  lemma {:induction false} RemovalArithmetic(a: nat, a': nat, k: nat, k': nat, x: nat, x': nat)
    requires a' <= a && k' < k && x' <= x + a'
    ensures Weighed(a', k', x') <= Weighed(a, k, x)
  {
    MulUp(a', a', k' + 1, k);
    MulUp(a', a, k + 1, k + 1);
    assert a' * (k + 1) == a' * k + a';
  }

  lemma {:induction false} RemovalPotential(m: map<string, CRD>, m': map<string, CRD>)
    requires Undisturbed(m, m') && |m'| < |m|
    ensures Potential(m') <= Potential(m)
  {
    NewlyStaleAreMismatched(m, m');
    UndisturbedMismatches(m, m');
    var a, a', x, x' := |Mismatches(m)|, |Mismatches(m')|, |StaleConditions(m)|, |StaleConditions(m')|;
    RemovalArithmetic(a, a', |m|, |m'|, x, x');
  }

  lemma {:induction false} UndisturbedUnder(m: map<string, CRD>, m': map<string, CRD>, view: map<string, CRD>)
    requires Undisturbed(m, m')
    ensures StaleUnder(m', view) <= StaleUnder(m, view)
    ensures m'.Keys == m.Keys ==> StaleUnder(m', view) == StaleUnder(m, view)
  {
  }

  lemma {:induction false} UndisturbedStale(m: map<string, CRD>, m': map<string, CRD>)
    requires Undisturbed(m, m') && m'.Keys == m.Keys
    ensures Mismatches(m') == Mismatches(m) && StaleConditions(m') == StaleConditions(m)
  {
    SameNamesSameHeld(m, m');
    SameHeldSameStale(m', m, m');
    UndisturbedUnder(m, m', m);
  }

  /** Nothing that leaves names and NamesAccepted alone raises the potential, not even a removal. */
  lemma {:induction false} UndisturbedPotential(m: map<string, CRD>, m': map<string, CRD>)
    requires Undisturbed(m, m')
    ensures Potential(m') <= Potential(m)
    ensures m'.Keys == m.Keys ==> Potential(m') == Potential(m)
  {
    assert |m'.Keys| == |m'| && |m.Keys| == |m|;
    if m'.Keys == m.Keys {
      UndisturbedStale(m, m');
      SameMismatches(m, m');
    } else {
      ProperSubsetIsSmaller(m'.Keys, m.Keys);
      RemovalPotential(m, m');
    }
  }

  /** Some CRD of the group holds `x` as a resource name, or as a kind. */
  ghost predicate ResourceHeldBy(m: map<string, CRD>, group: string, x: string) {
    exists k :: k in m && m[k].spec.group == group && x in ResourceNames(m[k].accepted)
  }

  ghost predicate KindHeldBy(m: map<string, CRD>, group: string, x: string) {
    exists k :: k in m && m[k].spec.group == group && x in KindNames(m[k].accepted)
  }

  /** Every slot in which the CRD lacks what it asks for asks for a name held in the group. */
  ghost predicate RefusalsAreReal(m: map<string, CRD>, n: string)
    requires n in m
  {
    var want, have, g := m[n].spec.names, m[n].accepted, m[n].spec.group;
    && (want.plural != have.plural ==> ResourceHeldBy(m, g, want.plural))
    && (want.singular != have.singular ==> ResourceHeldBy(m, g, want.singular))
    && (want.shortNames != have.shortNames ==> exists x :: x in want.shortNames && ResourceHeldBy(m, g, x))
    && (want.kind != have.kind ==> KindHeldBy(m, g, want.kind))
    && (want.listKind != have.listKind ==> KindHeldBy(m, g, want.listKind))
    && want.categories == have.categories
  }

  /** Where nothing is left to write, every refusal is justified. */
  lemma {:induction false} SettledRefusalsAreReal(m: map<string, CRD>, n: string)
    requires n in m && Settled(m, n)
    ensures RefusalsAreReal(m, n)
  {
    var want, have, g := m[n].spec.names, m[n].accepted, m[n].spec.group;
    RefusedMeansInUse(m[n], ResourcesHeld(m, g), KindsHeld(m, g));
    if want != have && want.shortNames != have.shortNames {
      var x :| x in want.shortNames && x in ResourcesHeld(m, g);
      assert ResourceHeldBy(m, g, x);
    }
  }

  /**
   Where nothing is left to write, the stored NamesAccepted is the one that would be worked
   out, except exactly for a CRD that got all it asked for before the condition said so.
   */
  lemma {:induction false} SettledConditionIsCurrent(m: map<string, CRD>, n: string)
    requires n in m && Settled(m, n)
    ensures n in StaleConditions(m) <==>
      m[n].spec.names == m[n].accepted
      && FindCondition(m[n].conditions, NamesAccepted) != Some(Condition(NamesAccepted, StatusTrue, "NoConflicts", Text("no conflicts found")))
  {
    var crd := m[n];
    if crd.spec.names == crd.accepted {
      NothingRefused(crd.accepted.shortNames, crd.accepted.shortNames, ResourcesHeld(m, crd.spec.group));
    }
  }

  /** Such a CRD exists: a refused name was withdrawn from the spec, and False stays. */
  lemma {:induction false} StaleRefusalExample()
    ensures exists m: map<string, CRD>, n :: n in m && Settled(m, n) && n in StaleConditions(m)
              && (exists c :: FindCondition(m[n].conditions, NamesAccepted) == Some(c) && c.status == StatusFalse)
              && ComputedUnder(m[n], m).status == StatusTrue
  {
    var names := Names("as", "a", [], "A", "AList", []);
    var refused := Condition(NamesAccepted, StatusFalse, "SingularConflict", InUse(["b"]));
    var crd := CRD("as.g", 1, 3, false, [], Spec("g", names, [], true, false, 0), names, [refused, NOT_ACCEPTED]);
    var m := map["as.g" := crd];
    assert FindCondition(crd.conditions, NamesAccepted) == Some(refused);
    SettledConditionIsCurrent(m, "as.g");
    AcceptedMeansAllGranted(crd, ResourcesHeld(m, "g"), KindsHeld(m, "g"));
    NothingRefused([], [], ResourcesHeld(m, "g"));
    assert Settled(m, "as.g");
  }
}
