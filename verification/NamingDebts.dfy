/**
 Facts about logs and listers behind the naming queue: what differs between lister and server
 is due to an undelivered event, and a CRD keeps its NamesAccepted condition for as long as it exists.
 */
module NamingDebts {
  import opened Crds
  import opened Registry
  import opened Naming
  import opened Finalizing
  import opened History
  import opened Lifecycle
  import opened LifecycleTheorems
  import opened MutationCache
  import opened NamingTermination
  import opened NamingRuns

  function NameOf(e: Event): string {
    match e
    case Put(c) => c.name
    case Del(n) => n
  }

  /** An event of this object is still to be delivered. */
  predicate Undelivered(s: State, n: string) {
    exists i :: s.pos <= i < |s.log| && NameOf(s.log[i]) == n
  }

  predicate RemovalUndelivered(s: State, n: string) {
    exists i :: s.pos <= i < |s.log| && s.log[i] == Del(n)
  }

  lemma {:induction false} SameUnlessUndelivered(log: seq<Event>, p: nat, n: string)
    requires p <= |log| && forall i :: p <= i < |log| ==> NameOf(log[i]) != n
    ensures n in Replay(log) <==> n in Replay(log[..p])
    ensures n in Replay(log) ==> Replay(log)[n] == Replay(log[..p])[n]
  {
    if p == |log| {
      assert log[..p] == log;
    } else {
      var front := log[..|log| - 1];
      assert front[..p] == log[..p];
      assert NameOf(log[|log| - 1]) != n;
      SameUnlessUndelivered(front, p, n);
    }
  }

  /** Where the lister differs from the server, an event is on its way. */
  lemma {:induction false} DifferenceIsUndelivered(s: State, n: string)
    requires s.pos <= |s.log|
    requires !(n in Store(s) <==> n in Lister(s)) || (n in Store(s) && n in Lister(s) && Store(s)[n] != Lister(s)[n])
    ensures Undelivered(s, n)
  {
    if !Undelivered(s, n) {
      SameUnlessUndelivered(s.log, s.pos, n);
    }
  }

  /** An incarnation that was there and is not any more was removed in between. */
  lemma {:induction false} GoneIsRemoved(log: seq<Event>, p: nat, n: string)
    requires LogOk(log) && p <= |log| && n in Replay(log[..p])
    requires !HasIncarnation(Replay(log), n, Replay(log[..p])[n].uid)
    ensures exists i :: p <= i < |log| && log[i] == Del(n)
  {
    assert log[..|log|] == log;
    if p < |log| {
      var last := |log| - 1;
      var front := log[..last];
      assert front[..p] == log[..p];
      assert EventOk(log, last);
      PrefixOk(log, last);
      if !HasIncarnation(Replay(front), n, Replay(log[..p])[n].uid) {
        GoneIsRemoved(front, p, n);
        var i :| p <= i < |front| && front[i] == Del(n);
      }
    }
  }

  // ------------------------------------------------- CRDs not named yet

  predicate Unnamed(c: CRD) {
    FindCondition(c.conditions, NamesAccepted).None?
  }

  /** A version without NamesAccepted holds no names, and the version before it had no such condition either. */
  predicate NamedOk(log: seq<Event>, i: nat)
    requires i < |log|
  {
    log[i].Put? && Unnamed(log[i].crd) ==>
      var m, c := Replay(log[..i]), log[i].crd;
      c.accepted == NO_NAMES && (c.name in m ==> Unnamed(m[c.name]))
  }

  ghost predicate LogNamed(log: seq<Event>) {
    forall i :: 0 <= i < |log| ==> NamedOk(log, i)
  }

  lemma {:induction false} LogNamedAppend(log: seq<Event>, l: seq<Event>)
    requires LogNamed(log) && |l| == |log| + 1 && l[..|log|] == log && NamedOk(l, |log|)
    ensures LogNamed(l)
  {
    forall i | 0 <= i < |l|
      ensures NamedOk(l, i)
    {
      if i < |log| {
        assert NamedOk(log, i) && l[..i] == log[..i] && l[i] == log[i];
      }
    }
  }

  lemma {:induction false} LogNamedPrefix(log: seq<Event>, p: nat)
    requires LogNamed(log) && p <= |log|
    ensures LogNamed(log[..p])
  {
    forall i | 0 <= i < p
      ensures NamedOk(log[..p], i)
    {
      assert NamedOk(log, i) && log[..p][..i] == log[..i];
    }
  }

  lemma {:induction false} UnnamedHoldsNothing(log: seq<Event>, n: string)
    requires LogOk(log) && LogNamed(log) && n in Replay(log) && Unnamed(Replay(log)[n])
    ensures Replay(log)[n].accepted == NO_NAMES
  {
    StoredIsVersion(log, n);
    assert NamedOk(log, Replay(log)[n].rv - 1);
  }

  /** A CRD that is unnamed now was so all the time. */
  lemma {:induction false} UnnamedAllAlong(log: seq<Event>, p: nat, n: string)
    requires LogOk(log) && LogNamed(log) && p <= |log| && n in Replay(log[..p])
    requires HasIncarnation(Replay(log), n, Replay(log[..p])[n].uid) && Unnamed(Replay(log)[n])
    ensures Unnamed(Replay(log[..p])[n])
  {
    if p == |log| {
      assert log[..p] == log;
    } else {
      var last := |log| - 1;
      var front := log[..last];
      assert front[..p] == log[..p];
      assert EventOk(log, last) && NamedOk(log, last);
      PrefixOk(log, last);
      LogNamedPrefix(log, last);
      Unbroken(log, p, last, n);
      UnnamedAllAlong(front, p, n);
    }
  }

  /** What one commit over a stored object, or a creation, does to this. */
  lemma {:induction false} CommitNamed(log: seq<Event>, obj: CRD)
    requires LogNamed(log) && obj.name in Replay(log) && IsVersion(log, Replay(log)[obj.name]) && LogOk(log)
    requires Unnamed(obj) ==> Unnamed(Replay(log)[obj.name]) && obj.accepted == Replay(log)[obj.name].accepted
    ensures LogNamed(Commit(log, Replay(log)[obj.name], obj).0)
  {
    var stored := Replay(log)[obj.name];
    var l := Commit(log, stored, obj).0;
    assert NamedOk(log, stored.rv - 1);
    if l != log {
      assert l[..|log|] == log;
      LogNamedAppend(log, l);
    }
  }

  lemma {:induction false} UsersKeepNamed(s: State, step: Step)
    requires Inv(s) && LogNamed(s.log) && (step.Create? || step.UpdateMain? || step.Delete? || step.MarkLate?)
    ensures LogNamed(Apply(s, step).log)
  {
    if step.Create? {
      var l := Creation(s.log, step.obj).0;
      if l != s.log {
        assert l[..|s.log|] == s.log;
        LogNamedAppend(s.log, l);
      }
    } else if step.UpdateMain? {
      var obj := step.obj;
      if obj.name in Store(s) {
        var stored := Store(s)[obj.name];
        StoredIsVersion(s.log, obj.name);
        CommitNamed(s.log, obj.(accepted := stored.accepted, conditions := stored.conditions, uid := stored.uid, deleting := stored.deleting));
      }
    } else if step.name in Store(s) {
      var stored := Store(s)[step.name];
      StoredIsVersion(s.log, step.name);
      SetThenFind(stored.conditions, DELETION_PENDING, NamesAccepted);
      CommitNamed(s.log, MarkedForDeletion(stored));
    }
  }

  lemma {:induction false} TargetNamed(s: State, step: Step)
    requires WritesStatus(s, step) && Unnamed(Target(s, step))
    ensures Unnamed(Base(s, step)) && Target(s, step).accepted == Base(s, step).accepted
  {
    if step.NamingWrite? {
      ConditionsAfterNaming(s.phase.crd, s.phase.resources, s.phase.kinds, NamesAccepted);
    } else {
      TargetSameNaming(s, step);
    }
  }

  lemma {:induction false} StatusKeepsNamed(s: State, step: Step)
    requires Inv(s) && LogNamed(s.log) && WritesStatus(s, step)
    ensures LogNamed(Apply(s, step).log)
  {
    var base, target := Base(s, step), Target(s, step);
    StatusStep(s, step);
    StaleWrite(s, base, target);
    if Unnamed(target) {
      TargetNamed(s, step);
    }
    if base.name in Store(s) && Store(s)[base.name] == base {
      CommitNamed(s.log, target);
    }
  }

  lemma {:induction false} StepKeepsNamed(s: State, step: Step)
    requires Inv(s) && LogNamed(s.log)
    ensures LogNamed(Apply(s, step).log)
  {
    if WritesStatus(s, step) {
      StatusKeepsNamed(s, step);
    } else if step.Create? || step.UpdateMain? || step.Delete? || step.MarkLate? {
      UsersKeepNamed(s, step);
    } else {
      QuietSteps(s, step);
    }
  }

  // ----------------------------------------------- what a delivery shows

  /** Two views in which the CRDs of one group are the same and hold the same names. */
  ghost predicate SameHoldersIn(a: map<string, CRD>, b: map<string, CRD>, group: string) {
    forall n ::
      && ((n in a && a[n].spec.group == group) <==> (n in b && b[n].spec.group == group))
      && (n in a && a[n].spec.group == group ==> a[n].accepted == b[n].accepted)
  }

  lemma {:induction false} SameHeldIn(a: map<string, CRD>, b: map<string, CRD>, group: string)
    requires SameHoldersIn(a, b, group)
    ensures ResourcesHeld(a, group) == ResourcesHeld(b, group) && KindsHeld(a, group) == KindsHeld(b, group)
  {
    assert forall n :: n in b && b[n].spec.group == group ==> n in a && a[n].spec.group == group && a[n].accepted == b[n].accepted;
  }

  /** A delivered event changes what the lister has of its object and of no other. */
  lemma {:induction false} DeliveryIsLocal(s: State, t: State, n: string)
    requires s.pos < |s.log| && t == s.(pos := s.pos + 1) && n != NameOf(s.log[s.pos])
    ensures n in Lister(t) <==> n in Lister(s)
    ensures n in Lister(s) ==> Lister(t)[n] == Lister(s)[n] && View(t)[n] == View(s)[n]
  {
    assert s.log[..s.pos + 1] == s.log[..s.pos] + [s.log[s.pos]];
    ReplayAppend(s.log[..s.pos], s.log[s.pos]);
  }

  /** A version is in the group that its name says. */
  lemma {:induction false} VersionGroup(log: seq<Event>, c: CRD)
    requires LogOk(log) && IsVersion(log, c)
    ensures IsNameIn(c.name, c.spec.group)
    ensures forall g :: IsNameIn(c.name, g) ==> g == c.spec.group
  {
    VersionWasStored(log, c);
    assert '.' !in c.spec.names.plural && c.name == c.spec.names.plural + "." + c.spec.group;
    GroupIsParsed(c.name, c.spec.group);
    forall g | IsNameIn(c.name, g)
      ensures g == c.spec.group
    {
      GroupIsParsed(c.name, g);
    }
  }

  lemma {:induction false} ListedGroup(s: State, n: string)
    requires Inv(s) && CacheLeads(s) && n in Lister(s)
    ensures Lister(s)[n].name == n && IsNameIn(n, Lister(s)[n].spec.group) && View(s)[n].spec.group == Lister(s)[n].spec.group
    ensures forall g :: IsNameIn(n, g) ==> g == Lister(s)[n].spec.group
  {
    ViewedIsVersion(s, n);
    VersionGroup(s.log, View(s)[n]);
  }

  /** In another group than that of the delivered object, nobody holds other names. */
  lemma {:induction false} OtherGroupsStay(s: State, t: State, group: string)
    requires Inv(s) && CacheLeads(s) && Inv(t) && CacheLeads(t) && s.pos < |s.log| && t == s.(pos := s.pos + 1)
    requires !IsNameIn(NameOf(s.log[s.pos]), group)
    ensures SameHoldersIn(View(t), View(s), group)
  {
    forall n
      ensures (n in View(t) && View(t)[n].spec.group == group) <==> (n in View(s) && View(s)[n].spec.group == group)
      ensures n in View(t) && View(t)[n].spec.group == group ==> View(t)[n].accepted == View(s)[n].accepted
    {
      if n == NameOf(s.log[s.pos]) {
        if n in Lister(s) {
          ListedGroup(s, n);
        }
        if n in Lister(t) {
          ListedGroup(t, n);
        }
      } else {
        DeliveryIsLocal(s, t, n);
      }
    }
  }

  /** Listed items of another group than that of the delivered object are consulted as before. */
  lemma {:induction false} ItemsInOtherGroup(s: State, t: State, items: seq<CRD>, group: string)
    requires LogOk(s.log) && s.pos < |s.log| && t == s.(pos := s.pos + 1)
    requires !IsNameIn(NameOf(s.log[s.pos]), group) && forall item :: item in items ==> IsVersion(s.log, item)
    ensures ItemResources(items, Lister(t), t.cache, group) == ItemResources(items, Lister(s), s.cache, group)
    ensures ItemKinds(items, Lister(t), t.cache, group) == ItemKinds(items, Lister(s), s.cache, group)
  {
    forall item | item in items && item.spec.group == group
      ensures Effective(Lister(t), t.cache, item) == Effective(Lister(s), s.cache, item)
    {
      VersionGroup(s.log, item);
      DeliveryIsLocal(s, t, item.name);
    }
  }

  /** The synchronisation under way is as clean as before, in a group that the delivery does not touch. */
  lemma {:induction false} CleanInOtherGroup(s: State, t: State)
    requires Inv(s) && CacheLeads(s) && Inv(t) && CacheLeads(t) && s.pos < |s.log| && t == s.(pos := s.pos + 1)
    requires s.phase.Gathering? && Clean(s) && !IsNameIn(NameOf(s.log[s.pos]), s.phase.crd.spec.group)
    ensures Clean(t)
  {
    var group := s.phase.crd.spec.group;
    OtherGroupsStay(s, t, group);
    SameHeldIn(View(t), View(s), group);
    ItemsInOtherGroup(s, t, s.phase.todo, group);
  }
}
