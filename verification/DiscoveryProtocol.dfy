/**
 Discovery converges: a document differs from the one worked out from scratch only while
 a change is undelivered, queued, or being synchronised.

 The group document is kept here as its set of versions and the version document as its
 set of resources; the listing order and the sort do not matter to either.
 */
module DiscoveryProtocol {
  import opened Crds
  import opened Discovery

  /** The object before and after one change of the lister. */
  datatype Event = Event(before: Option<CRD>, after: Option<CRD>)

  /** The one worker: the group-version it took, and the lister as it read it, once it has. */
  datatype Work = Work(gv: GroupVersion, snapshot: Option<map<string, CRD>>)

  datatype State = State(
    lister: map<string, CRD>, events: seq<Event>, queue: set<GroupVersion>, work: Option<Work>,
    groups: map<string, set<string>>, versions: map<GroupVersion, set<Resource>>)

  const INITIAL := State(map[], [], {}, None, map[], map[])

  datatype Step =
    | Change(name: string, after: Option<CRD>)
    | Deliver
    | Take(gv: GroupVersion)
    | List
    | Publish
    | Fail

  predicate Enabled(s: State, step: Step) {
    match step
    case Change(name, after) => after.Some? ==> after.value.name == name
    case Deliver => s.events != []
    case Take(_) => s.work.None?
    case List => s.work.Some? && s.work.value.snapshot.None?
    case Publish => s.work.Some? && s.work.value.snapshot.Some?
    case Fail => s.work.Some?
  }

  function Lookup<K, V>(m: map<K, V>, k: K): Option<V> {
    if k in m then Some(m[k]) else None
  }

  function Put<K, V>(m: map<K, V>, k: K, v: Option<V>): map<K, V> {
    if v.Some? then m[k := v.value] else m - {k}
  }

  function GvsOf(o: Option<CRD>): set<GroupVersion> {
    if o.Some? then GroupVersionsOf(o.value) else {}
  }

  /** The group-versions that an event puts into the queue: those of both objects. */
  function Enqueues(e: Event): set<GroupVersion> {
    GvsOf(e.before) + GvsOf(e.after)
  }

  /** Sync, on the lister it read: both documents are set or unset. */
  function Published(s: State, gv: GroupVersion, snapshot: map<string, CRD>): State {
    s.(work := None,
       groups := Put(s.groups, gv.group, GroupDoc(snapshot, gv.group)),
       versions := Put(s.versions, gv, VersionDoc(snapshot, gv)))
  }

  function Apply(s: State, step: Step): State {
    if !Enabled(s, step) then s
    else match step
      case Change(name, after) =>
        s.(lister := Put(s.lister, name, after), events := s.events + [Event(Lookup(s.lister, name), after)])
      case Deliver => s.(events := s.events[1..], queue := s.queue + Enqueues(s.events[0]))
      case Take(gv) => s.(queue := s.queue - {gv}, work := Some(Work(gv, None)))
      case List => s.(work := Some(Work(s.work.value.gv, Some(s.lister))))
      case Publish => Published(s, s.work.value.gv, s.work.value.snapshot.value)
      case Fail => s.(queue := s.queue + {s.work.value.gv}, work := None)
  }

  function Run(s: State, steps: seq<Step>): State {
    if steps == [] then s else Apply(Run(s, steps[..|steps| - 1]), steps[|steps| - 1])
  }

  // ---------------------------------------------------------- the invariant

  /** Queued, or about to be queued by an undelivered event. */
  predicate Waiting(s: State, gv: GroupVersion) {
    gv in s.queue || exists i :: 0 <= i < |s.events| && gv in Enqueues(s.events[i])
  }

  ghost predicate GroupWaiting(s: State, group: string) {
    exists gv: GroupVersion :: gv.group == group && Waiting(s, gv)
  }

  predicate VersionOk(s: State, gv: GroupVersion) {
    || Waiting(s, gv)
    || (if s.work.Some? && s.work.value.gv == gv
        then s.work.value.snapshot.Some? ==> VersionDoc(s.work.value.snapshot.value, gv) == VersionDoc(s.lister, gv)
        else Lookup(s.versions, gv) == VersionDoc(s.lister, gv))
  }

  ghost predicate GroupOk(s: State, group: string) {
    || GroupWaiting(s, group)
    || (if s.work.Some? && s.work.value.gv.group == group
        then s.work.value.snapshot.Some? ==> GroupDoc(s.work.value.snapshot.value, group) == GroupDoc(s.lister, group)
        else Lookup(s.groups, group) == GroupDoc(s.lister, group))
  }

  ghost predicate Inv(s: State) {
    && (forall gv :: VersionOk(s, gv))
    && (forall group :: GroupOk(s, group))
  }

  // ------------------------------------------------- what a change can affect

  lemma {:induction false} WaitingAfterChange(s: State, name: string, after: Option<CRD>, gv: GroupVersion)
    requires Enabled(s, Change(name, after))
    ensures Waiting(s, gv) ==> Waiting(Apply(s, Change(name, after)), gv)
    ensures gv in Enqueues(Event(Lookup(s.lister, name), after)) ==> Waiting(Apply(s, Change(name, after)), gv)
  {
    var e := Event(Lookup(s.lister, name), after);
    var t := Apply(s, Change(name, after));
    if Waiting(s, gv) && gv !in s.queue {
      var i :| 0 <= i < |s.events| && gv in Enqueues(s.events[i]);
      assert t.events[i] == s.events[i];
    }
    assert t.events[|s.events|] == e;
  }

  /** A version that an object serves is one that its events enqueue. */
  lemma {:induction false} ServedIsEnqueued(crd: CRD, group: string, version: string)
    requires crd.spec.group == group && Serves(crd, version)
    ensures GroupVersion(group, version) in GroupVersionsOf(crd)
  {
    var v :| v in crd.spec.versions && v.served && v.name == version;
  }

  /** An object counts for a version only where its events enqueue it. */
  lemma {:induction false} UnnamedDoesNotServe(m: map<string, CRD>, name: string, after: Option<CRD>, gv: GroupVersion)
    requires gv !in Enqueues(Event(Lookup(m, name), after))
    ensures name in m ==> !(m[name].spec.group == gv.group && Serves(m[name], gv.version))
    ensures var m' := Put(m, name, after); name in m' ==> !(m'[name].spec.group == gv.group && Serves(m'[name], gv.version))
  {
    var m' := Put(m, name, after);
    if name in m && m[name].spec.group == gv.group && Serves(m[name], gv.version) {
      ServedIsEnqueued(m[name], gv.group, gv.version);
    }
    if name in m' && m'[name].spec.group == gv.group && Serves(m'[name], gv.version) {
      ServedIsEnqueued(m'[name], gv.group, gv.version);
    }
  }

  /** Whether there is such a version does not depend on an object that does not serve it. */
  lemma {:induction false} UnservedDomain(m: map<string, CRD>, m': map<string, CRD>, name: string, gv: GroupVersion)
    requires forall n :: n != name ==> (n in m' <==> n in m) && (n in m ==> m'[n] == m[n])
    requires name in m ==> !(m[name].spec.group == gv.group && Serves(m[name], gv.version))
    requires name in m' ==> !(m'[name].spec.group == gv.group && Serves(m'[name], gv.version))
    ensures gv.version in GroupVersions(m', gv.group) <==> gv.version in GroupVersions(m, gv.group)
  {
  }

  /** Nor do its resources. */
  lemma {:induction false} UnservedResources(m: map<string, CRD>, m': map<string, CRD>, name: string, gv: GroupVersion)
    requires forall n :: n != name ==> (n in m' <==> n in m) && (n in m ==> m'[n] == m[n])
    requires name in m ==> !(m[name].spec.group == gv.group && Serves(m[name], gv.version))
    requires name in m' ==> !(m'[name].spec.group == gv.group && Serves(m'[name], gv.version))
    requires gv.version in GroupVersions(m, gv.group) && gv.version in GroupVersions(m', gv.group)
    ensures VersionDoc(m', gv) == VersionDoc(m, gv)
  {
    assert VersionDoc(m', gv).value == VersionDoc(m, gv).value;
  }

  /** Documents of a group-version that neither object names stay the same. */
  lemma {:induction false} UnnamedVersionUnchanged(m: map<string, CRD>, name: string, after: Option<CRD>, gv: GroupVersion)
    requires gv !in Enqueues(Event(Lookup(m, name), after))
    ensures VersionDoc(Put(m, name, after), gv) == VersionDoc(m, gv)
  {
    var m' := Put(m, name, after);
    UnnamedDoesNotServe(m, name, after, gv);
    UnservedDomain(m, m', name, gv);
    if gv.version in GroupVersions(m, gv.group) {
      UnservedResources(m, m', name, gv);
    }
  }

  /** A group none of whose versions is named keeps its document. */
  lemma {:induction false} UnnamedGroupUnchanged(m: map<string, CRD>, name: string, after: Option<CRD>, group: string)
    requires forall gv :: gv in Enqueues(Event(Lookup(m, name), after)) ==> gv.group != group
    ensures GroupDoc(Put(m, name, after), group) == GroupDoc(m, group)
  {
    var m' := Put(m, name, after);
    assert forall n :: n != name ==> (n in m' <==> n in m) && (n in m ==> m'[n] == m[n]);
    forall x
      ensures x in GroupVersions(m', group) <==> x in GroupVersions(m, group)
    {
      if name in m && m[name].spec.group == group && Serves(m[name], x) {
        ServedIsEnqueued(m[name], group, x);
      }
      if name in m' && m'[name].spec.group == group && Serves(m'[name], x) {
        ServedIsEnqueued(m'[name], group, x);
      }
    }
    assert GroupVersions(m', group) == GroupVersions(m, group);
  }

  lemma {:induction false} ChangeKeepsInv(s: State, name: string, after: Option<CRD>)
    requires Inv(s) && Enabled(s, Change(name, after))
    ensures Inv(Apply(s, Change(name, after)))
  {
    var t := Apply(s, Change(name, after));
    var e := Event(Lookup(s.lister, name), after);
    forall gv: GroupVersion
      ensures VersionOk(t, gv)
    {
      assert VersionOk(s, gv);
      WaitingAfterChange(s, name, after, gv);
      if gv !in Enqueues(e) {
        UnnamedVersionUnchanged(s.lister, name, after, gv);
      }
    }
    forall group: string
      ensures GroupOk(t, group)
    {
      assert GroupOk(s, group);
      if exists gv :: gv in Enqueues(e) && gv.group == group {
        var gv :| gv in Enqueues(e) && gv.group == group;
        WaitingAfterChange(s, name, after, gv);
      } else {
        UnnamedGroupUnchanged(s.lister, name, after, group);
        if GroupWaiting(s, group) {
          var gv: GroupVersion :| gv.group == group && Waiting(s, gv);
          WaitingAfterChange(s, name, after, gv);
        }
      }
    }
  }

  /** Delivering an event loses nobody: what it covered is now queued. */
  lemma {:induction false} WaitingAfterDeliver(s: State, gv: GroupVersion)
    requires Enabled(s, Deliver) && Waiting(s, gv)
    ensures Waiting(Apply(s, Deliver), gv)
  {
    var t := Apply(s, Deliver);
    if gv !in t.queue {
      var i :| 0 <= i < |s.events| && gv in Enqueues(s.events[i]);
      assert t.events[i - 1] == s.events[i];
    }
  }

  lemma {:induction false} DeliverKeepsInv(s: State)
    requires Inv(s) && Enabled(s, Deliver)
    ensures Inv(Apply(s, Deliver))
  {
    var t := Apply(s, Deliver);
    forall gv: GroupVersion
      ensures VersionOk(t, gv)
    {
      assert VersionOk(s, gv);
      if Waiting(s, gv) {
        WaitingAfterDeliver(s, gv);
      }
    }
    forall group: string
      ensures GroupOk(t, group)
    {
      assert GroupOk(s, group);
      if GroupWaiting(s, group) {
        var gv: GroupVersion :| gv.group == group && Waiting(s, gv);
        WaitingAfterDeliver(s, gv);
      }
    }
  }

  lemma {:induction false} TakeKeepsInv(s: State, gv: GroupVersion)
    requires Inv(s) && Enabled(s, Take(gv))
    ensures Inv(Apply(s, Take(gv)))
  {
    var t := Apply(s, Take(gv));
    forall other: GroupVersion
      ensures VersionOk(t, other)
    {
      assert VersionOk(s, other);
    }
    forall group: string
      ensures GroupOk(t, group)
    {
      assert GroupOk(s, group);
      if GroupWaiting(s, group) && group != gv.group {
        var other: GroupVersion :| other.group == group && Waiting(s, other);
        assert Waiting(t, other);
      }
    }
  }

  lemma {:induction false} ListKeepsInv(s: State)
    requires Inv(s) && Enabled(s, List)
    ensures Inv(Apply(s, List))
  {
    var t := Apply(s, List);
    forall gv: GroupVersion
      ensures VersionOk(t, gv)
    {
      assert VersionOk(s, gv);
    }
    forall group: string
      ensures GroupOk(t, group)
    {
      assert GroupOk(s, group);
      if GroupWaiting(s, group) {
        var gv: GroupVersion :| gv.group == group && Waiting(s, gv);
        assert Waiting(t, gv);
      }
    }
  }

  lemma {:induction false} PublishKeepsInv(s: State)
    requires Inv(s) && Enabled(s, Publish)
    ensures Inv(Apply(s, Publish))
  {
    var t := Apply(s, Publish);
    forall gv: GroupVersion
      ensures VersionOk(t, gv)
    {
      assert VersionOk(s, gv);
      assert Waiting(s, gv) ==> Waiting(t, gv);
    }
    forall group: string
      ensures GroupOk(t, group)
    {
      assert GroupOk(s, group);
      if GroupWaiting(s, group) {
        var gv: GroupVersion :| gv.group == group && Waiting(s, gv);
        assert Waiting(t, gv);
      }
    }
  }

  lemma {:induction false} FailKeepsInv(s: State)
    requires Inv(s) && Enabled(s, Fail)
    ensures Inv(Apply(s, Fail))
  {
    var t := Apply(s, Fail);
    assert Waiting(t, s.work.value.gv);
    forall gv: GroupVersion
      ensures VersionOk(t, gv)
    {
      assert VersionOk(s, gv);
    }
    forall group: string
      ensures GroupOk(t, group)
    {
      assert GroupOk(s, group);
      if GroupWaiting(s, group) {
        var gv: GroupVersion :| gv.group == group && Waiting(s, gv);
        assert Waiting(t, gv);
      }
    }
  }

  lemma {:induction false} StepKeepsInv(s: State, step: Step)
    requires Inv(s)
    ensures Inv(Apply(s, step))
  {
    if Enabled(s, step) {
      match step
      case Change(name, after) => ChangeKeepsInv(s, name, after);
      case Deliver => DeliverKeepsInv(s);
      case Take(gv) => TakeKeepsInv(s, gv);
      case List => ListKeepsInv(s);
      case Publish => PublishKeepsInv(s);
      case Fail => FailKeepsInv(s);
    }
  }

  lemma {:induction false} InitialInv()
    ensures Inv(INITIAL)
  {
    forall group: string
      ensures GroupDoc(map[], group) == None && GroupOk(INITIAL, group)
    {
      assert GroupVersions(map[], group) == {};
    }
  }

  lemma {:induction false} RunKeepsInv(steps: seq<Step>)
    ensures Inv(Run(INITIAL, steps))
  {
    if steps == [] {
      InitialInv();
    } else {
      RunKeepsInv(steps[..|steps| - 1]);
      StepKeepsInv(Run(INITIAL, steps[..|steps| - 1]), steps[|steps| - 1]);
    }
  }

  // ------------------------------------------------------------- the results

  /** A wrong document is one whose change is still on its way, or that is being synchronised. */
  lemma {:induction false} WrongOnlyWhileWaiting(steps: seq<Step>, gv: GroupVersion)
    ensures var s := Run(INITIAL, steps);
      && (Lookup(s.versions, gv) == VersionDoc(s.lister, gv) || Waiting(s, gv) || (s.work.Some? && s.work.value.gv == gv))
      && (Lookup(s.groups, gv.group) == GroupDoc(s.lister, gv.group) || GroupWaiting(s, gv.group)
          || (s.work.Some? && s.work.value.gv.group == gv.group))
  {
    RunKeepsInv(steps);
    assert VersionOk(Run(INITIAL, steps), gv) && GroupOk(Run(INITIAL, steps), gv.group);
  }

  /** With no event, queue entry or work left, both tables are the result from scratch. */
  lemma {:induction false} QuiescentMeansRight(steps: seq<Step>, gv: GroupVersion)
    requires var s := Run(INITIAL, steps); s.events == [] && s.queue == {} && s.work.None?
    ensures var s := Run(INITIAL, steps);
      Lookup(s.versions, gv) == VersionDoc(s.lister, gv) && Lookup(s.groups, gv.group) == GroupDoc(s.lister, gv.group)
  {
    RunKeepsInv(steps);
    assert VersionOk(Run(INITIAL, steps), gv) && GroupOk(Run(INITIAL, steps), gv.group);
  }

  /** Some CRD that the lister has offers the version in the group. */
  ghost predicate OfferedBy(m: map<string, CRD>, group: string, version: string) {
    exists n :: n in m && Offers(m[n], group, version)
  }

  lemma {:induction false} VersionDocSays(m: map<string, CRD>, gv: GroupVersion)
    ensures VersionDoc(m, gv).Some? <==> OfferedBy(m, gv.group, gv.version)
    ensures VersionDoc(m, gv).Some? ==>
      forall r :: r in VersionDoc(m, gv).value <==> exists n :: n in m && Offers(m[n], gv.group, gv.version) && IsEntry(m[n], gv.version, r)
  {
    forall n | n in m
      ensures Offers(m[n], gv.group, gv.version) <==> Shown(m[n], gv.group) && Serves(m[n], gv.version)
      ensures Serves(m[n], gv.version) <==> gv.version in ServedVersions(m[n])
    {
      OffersMeansServed(m[n], gv.group, gv.version);
    }
    forall r, n | n in m
      ensures r in Entries(m[n], gv.version) <==> IsEntry(m[n], gv.version, r)
    {
      EntriesAre(m[n], gv.version, r);
    }
  }

  lemma {:induction false} GroupDocSays(m: map<string, CRD>, group: string)
    ensures GroupDoc(m, group).Some? <==> exists x :: OfferedBy(m, group, x)
    ensures GroupDoc(m, group).Some? ==> forall x :: x in GroupDoc(m, group).value <==> OfferedBy(m, group, x)
  {
    forall x
      ensures x in GroupVersions(m, group) <==> OfferedBy(m, group, x)
    {
      forall n | n in m
        ensures Offers(m[n], group, x) <==> Shown(m[n], group) && x in ServedVersions(m[n])
      {
        OffersMeansServed(m[n], group, x);
      }
    }
  }

  /**
   With nothing left to do, what is published is what the established CRDs serve: a group has a document exactly when one
   of them serves a version in it, and it lists just the versions that are served; a version has a document exactly when it is
   served, with just the entries of the CRDs that serve it.
   */
  lemma {:induction false} QuiescentDocuments(steps: seq<Step>, gv: GroupVersion)
    requires var s := Run(INITIAL, steps); s.events == [] && s.queue == {} && s.work.None?
    ensures var s := Run(INITIAL, steps);
      && (gv.group in s.groups <==> exists x :: OfferedBy(s.lister, gv.group, x))
      && (gv.group in s.groups ==> forall x :: x in s.groups[gv.group] <==> OfferedBy(s.lister, gv.group, x))
      && (gv in s.versions <==> OfferedBy(s.lister, gv.group, gv.version))
      && (gv in s.versions ==> forall r :: r in s.versions[gv] <==>
            exists n :: n in s.lister && Offers(s.lister[n], gv.group, gv.version) && IsEntry(s.lister[n], gv.version, r))
  {
    QuiescentMeansRight(steps, gv);
    VersionDocSays(Run(INITIAL, steps).lister, gv);
    GroupDocSays(Run(INITIAL, steps).lister, gv.group);
  }

  /** What Publish writes is what the controller's Sync writes from any listing of its snapshot. */
  lemma {:induction false} PublishIsSync(s: State, gv: GroupVersion, snapshot: map<string, CRD>, list: seq<CRD>)
    requires Lists(list, snapshot) && Keyed(snapshot)
    ensures var t := Published(s, gv, snapshot);
      && Lookup(t.groups, gv.group) == (if ListedVersions(list, gv.group) == {} then None else Some(ListedVersions(list, gv.group)))
      && Lookup(t.versions, gv) == (if gv.version in ListedVersions(list, gv.group) then Some(set r | r in ListedResources(list, gv)) else None)
  {
    ListingOrderIsIrrelevant(list, snapshot, gv);
  }
}
