/**
 Serving info is stale only while an event is undelivered.

 The lister changes first and queues an event; the handler takes events one at a time. A
 deletion event is handled in two steps: listing, and then filtering under the lock. A
 request that builds holds the lock from reading the lister to publishing, and the lister
 may change in between; it reads the published map without the lock at any time.
 */
module StorageProtocol {
  import opened Crds
  import opened ServingStorage

  datatype Event = Added(crd: CRD) | Updated(before: CRD, after: CRD) | Removed(crd: CRD)

  /**
   `scan` holds the UIDs listed by a deletion that has not filtered the map yet; `building` is
   the object that the request holding the lock read.
   */
  datatype State = State(
    lister: map<string, CRD>, used: set<nat>, events: seq<Event>, cached: Cached, scan: Option<set<nat>>, building: Option<CRD>)

  const INITIAL := State(map[], {}, [], Cached(map[], 0, multiset{}), None, None)

  datatype Step =
    | ListerAdd(crd: CRD)
    | ListerUpdate(crd: CRD)
    | ListerRemove(name: string)
    | Handle
    | FinishScan
    | Request(uid: nat, name: string)
    | Publish

  function Uids(lister: map<string, CRD>): set<nat> {
    set n | n in lister :: lister[n].uid
  }

  /** An update may keep the object, or replace it by a recreated one when two events were merged. */
  predicate Enabled(s: State, step: Step) {
    match step
    case ListerAdd(crd) => crd.name !in s.lister && crd.uid !in s.used
    case ListerUpdate(crd) => crd.name in s.lister && (crd.uid == s.lister[crd.name].uid || crd.uid !in s.used)
    case ListerRemove(name) => name in s.lister
    case Handle => s.events != [] && s.scan.None? && (s.events[0].Removed? || s.building.None?)
    case FinishScan => s.scan.Some? && s.building.None?
    case Request(_, _) => s.building.None?
    case Publish => s.building.Some? && Buildable(s.building.value)
  }

  function Handled(s: State): State
    requires s.events != []
  {
    var t := s.(events := s.events[1..]);
    match s.events[0]
    case Added(crd) => t.(cached := DroppedIfStale(s.cached, crd))
    case Updated(before, after) => t.(cached := AfterUpdate(s.cached, before, after))
    case Removed(_) => t.(scan := Some(Uids(s.lister)))
  }

  function Apply(s: State, step: Step): State {
    if !Enabled(s, step) then s
    else match step
      case ListerAdd(crd) =>
        s.(lister := s.lister[crd.name := crd], used := s.used + {crd.uid}, events := s.events + [Added(crd)])
      case ListerUpdate(crd) =>
        s.(lister := s.lister[crd.name := crd], used := s.used + {crd.uid}, events := s.events + [Updated(s.lister[crd.name], crd)])
      case ListerRemove(name) =>
        s.(lister := s.lister - {name}, events := s.events + [Removed(s.lister[name])])
      case Handle => Handled(s)
      case FinishScan => s.(cached := KeptOnly(s.cached, s.scan.value), scan := None)
      case Request(uid, name) => s.(building := ToBuild(s.cached, s.lister, uid, name))
      case Publish => s.(cached := Published(s.cached, s.building.value), building := None)
  }

  function Run(s: State, steps: seq<Step>): State {
    if steps == [] then s else Apply(Run(s, steps[..|steps| - 1]), steps[|steps| - 1])
  }

  // ---------------------------------------------------------- the invariant

  predicate Mentions(e: Event, uid: nat) {
    match e
    case Added(c) => c.uid == uid
    case Updated(b, a) => b.uid == uid || a.uid == uid
    case Removed(c) => c.uid == uid
  }

  /** An event for this UID is still queued. */
  predicate Pending(events: seq<Event>, uid: nat) {
    exists i :: 0 <= i < |events| && Mentions(events[i], uid)
  }

  /** The last thing an event says about a UID: its content, or that it is gone. */
  function Says(e: Event, uid: nat): Option<CRD>
    requires Mentions(e, uid)
  {
    match e
    case Added(c) => Some(c)
    case Updated(b, a) => if a.uid == uid then Some(a) else None
    case Removed(_) => None
  }

  predicate InLister(lister: map<string, CRD>, crd: CRD) {
    crd.name in lister && lister[crd.name] == crd
  }

  /** The last queued event for a UID agrees with the lister. */
  predicate LastAgrees(s: State, uid: nat, i: nat)
    requires i < |s.events| && Mentions(s.events[i], uid)
  {
    match Says(s.events[i], uid)
    case Some(c) => InLister(s.lister, c)
    case None => uid !in Uids(s.lister)
  }

  /** The lister's object with this UID is exactly what the info was built from. */
  predicate Matches(lister: map<string, CRD>, info: Info) {
    exists n :: n in lister && lister[n].uid == info.uid && Current(info, lister[n])
  }

  /** An event for this UID is queued, or a scan under way will drop it. */
  predicate Undelivered(s: State, uid: nat) {
    Pending(s.events, uid) || (s.scan.Some? && uid !in s.scan.value)
  }

  predicate EntryOk(s: State, uid: nat)
    requires uid in s.cached.storage
  {
    Matches(s.lister, s.cached.storage[uid]) || Undelivered(s, uid)
  }

  /** What is being built is the lister's object, or it is known that it is not. */
  predicate BuildingOk(s: State) {
    s.building.Some? ==>
      && Buildable(s.building.value) && s.building.value.uid !in s.cached.storage && s.building.value.uid in s.used
      && (InLister(s.lister, s.building.value) || Undelivered(s, s.building.value.uid))
  }

  ghost predicate Inv(s: State) {
    && Conserved(s.cached)
    && (forall n :: n in s.lister ==> s.lister[n].name == n && s.lister[n].uid in s.used)
    && (forall m, n :: m in s.lister && n in s.lister && s.lister[m].uid == s.lister[n].uid ==> m == n)
    && (forall i, uid :: 0 <= i < |s.events| && Mentions(s.events[i], uid) ==> uid in s.used)
    && (forall i, uid :: 0 <= i < |s.events| && Mentions(s.events[i], uid) && !Pending(s.events[i + 1..], uid) ==> LastAgrees(s, uid, i))
    && (forall uid :: uid in s.cached.storage ==> EntryOk(s, uid))
    && BuildingOk(s)
    && (forall uid :: uid in s.cached.storage ==>
          s.cached.storage[uid].parts == PartsOf(s.cached.storage[uid].spec.versions)
          && StorageVersion(s.cached.storage[uid].spec.versions) == Some(s.cached.storage[uid].storageVersion))
  }

  // --------------------------------------------------- queues and their ends

  lemma {:induction false} PendingAppend(events: seq<Event>, e: Event, uid: nat)
    ensures Pending(events + [e], uid) <==> Pending(events, uid) || Mentions(e, uid)
  {
    var l := events + [e];
    if Pending(events, uid) {
      var i :| 0 <= i < |events| && Mentions(events[i], uid);
      assert Mentions(l[i], uid);
    }
    if Mentions(e, uid) {
      assert Mentions(l[|events|], uid);
    }
  }

  lemma {:induction false} PendingTail(events: seq<Event>, uid: nat)
    requires events != []
    ensures Pending(events, uid) <==> Mentions(events[0], uid) || Pending(events[1..], uid)
  {
    var t := events[1..];
    if Pending(events, uid) {
      var i :| 0 <= i < |events| && Mentions(events[i], uid);
      if i > 0 {
        assert Mentions(t[i - 1], uid);
      }
    }
    if Pending(t, uid) {
      var i :| 0 <= i < |t| && Mentions(t[i], uid);
      assert Mentions(events[i + 1], uid);
    }
  }

  /** Queued events still agree with the lister after a change that queues its own event. */
  lemma {:induction false} AgreementAfterChange(s: State, t: State, e: Event)
    requires Inv(s) && t.events == s.events + [e]
    requires forall uid :: Mentions(e, uid) ==> match Says(e, uid) case Some(c) => InLister(t.lister, c) case None => uid !in Uids(t.lister)
    requires forall c: CRD :: !Mentions(e, c.uid) ==> (InLister(t.lister, c) <==> InLister(s.lister, c))
    requires forall uid :: !Mentions(e, uid) ==> (uid in Uids(t.lister) <==> uid in Uids(s.lister))
    ensures forall i, uid :: 0 <= i < |t.events| && Mentions(t.events[i], uid) && !Pending(t.events[i + 1..], uid) ==> LastAgrees(t, uid, i)
  {
    forall i, uid | 0 <= i < |t.events| && Mentions(t.events[i], uid) && !Pending(t.events[i + 1..], uid)
      ensures LastAgrees(t, uid, i)
    {
      if i < |s.events| {
        assert t.events[i + 1..] == s.events[i + 1..] + [e];
        PendingAppend(s.events[i + 1..], e, uid);
        assert LastAgrees(s, uid, i);
      }
    }
  }

  /** An entry that no new event mentions is as good as before. */
  lemma {:induction false} EntryAfterChange(s: State, t: State, e: Event, uid: nat)
    requires Inv(s) && uid in s.cached.storage && t == s.(lister := t.lister, used := t.used, events := s.events + [e])
    requires !Mentions(e, uid) ==> forall n :: n in s.lister && s.lister[n].uid == uid ==> n in t.lister && t.lister[n] == s.lister[n]
    ensures EntryOk(t, uid)
  {
    PendingAppend(s.events, e, uid);
    assert EntryOk(s, uid);
    if !Mentions(e, uid) && Matches(s.lister, s.cached.storage[uid]) {
      var n :| n in s.lister && s.lister[n].uid == s.cached.storage[uid].uid && Current(s.cached.storage[uid], s.lister[n]);
      assert n in t.lister && t.lister[n] == s.lister[n];
    }
  }

  /** What is being built is as good as before after a change that queues its own event. */
  lemma {:induction false} BuildingAfterChange(s: State, t: State, e: Event)
    requires Inv(s) && t == s.(lister := t.lister, used := t.used, events := s.events + [e]) && s.used <= t.used
    requires s.building.Some? && !Mentions(e, s.building.value.uid) ==> (InLister(t.lister, s.building.value) <==> InLister(s.lister, s.building.value))
    ensures BuildingOk(t)
  {
    if s.building.Some? {
      PendingAppend(s.events, e, s.building.value.uid);
    }
  }

  lemma {:induction false} AddKeepsInv(s: State, crd: CRD)
    requires Inv(s) && Enabled(s, ListerAdd(crd))
    ensures Inv(Apply(s, ListerAdd(crd)))
  {
    var t, e := Apply(s, ListerAdd(crd)), Added(crd);
    assert forall n :: n in s.lister ==> n in t.lister && t.lister[n] == s.lister[n];
    forall uid | !Mentions(e, uid)
      ensures uid in Uids(t.lister) <==> uid in Uids(s.lister)
    {
      UidsWithout(s.lister, t.lister, crd.name, uid);
    }
    AgreementAfterChange(s, t, e);
    BuildingAfterChange(s, t, e);
    forall uid | uid in t.cached.storage
      ensures EntryOk(t, uid)
    {
      EntryAfterChange(s, t, e, uid);
    }
  }

  /** A UID is listed before and after alike when only entries of other UIDs change. */
  lemma {:induction false} UidsWithout(m: map<string, CRD>, m': map<string, CRD>, name: string, uid: nat)
    requires forall n :: n != name ==> (n in m <==> n in m') && (n in m ==> m[n] == m'[n])
    requires name in m ==> m[name].uid != uid
    requires name in m' ==> m'[name].uid != uid
    ensures uid in Uids(m') <==> uid in Uids(m)
  {
    if uid in Uids(m) {
      var n :| n in m && m[n].uid == uid;
      assert n in m' && m'[n].uid == uid;
    }
    if uid in Uids(m') {
      var n :| n in m' && m'[n].uid == uid;
      assert n in m && m[n].uid == uid;
    }
  }

  lemma {:induction false} UpdateKeepsInv(s: State, crd: CRD)
    requires Inv(s) && Enabled(s, ListerUpdate(crd))
    ensures Inv(Apply(s, ListerUpdate(crd)))
  {
    var t, e := Apply(s, ListerUpdate(crd)), Updated(s.lister[crd.name], crd);
    forall uid | !Mentions(e, uid)
      ensures uid in Uids(t.lister) <==> uid in Uids(s.lister)
    {
      UidsWithout(s.lister, t.lister, crd.name, uid);
    }
    assert s.lister[crd.name].uid != crd.uid ==> s.lister[crd.name].uid !in Uids(t.lister);
    AgreementAfterChange(s, t, e);
    BuildingAfterChange(s, t, e);
    forall uid | uid in t.cached.storage
      ensures EntryOk(t, uid)
    {
      EntryAfterChange(s, t, e, uid);
    }
  }

  lemma {:induction false} RemoveKeepsInv(s: State, name: string)
    requires Inv(s) && Enabled(s, ListerRemove(name))
    ensures Inv(Apply(s, ListerRemove(name)))
  {
    var t, e := Apply(s, ListerRemove(name)), Removed(s.lister[name]);
    forall uid | !Mentions(e, uid)
      ensures uid in Uids(t.lister) <==> uid in Uids(s.lister)
    {
      UidsWithout(s.lister, t.lister, name, uid);
    }
    AgreementAfterChange(s, t, e);
    BuildingAfterChange(s, t, e);
    forall uid | uid in t.cached.storage
      ensures EntryOk(t, uid)
    {
      EntryAfterChange(s, t, e, uid);
    }
  }

  /** Taking the first event off the queue. */
  lemma {:induction false} AgreementAfterPop(s: State, t: State)
    requires Inv(s) && s.events != [] && t.events == s.events[1..] && t.lister == s.lister
    ensures forall i, uid :: 0 <= i < |t.events| && Mentions(t.events[i], uid) && !Pending(t.events[i + 1..], uid) ==> LastAgrees(t, uid, i)
  {
    forall i, uid | 0 <= i < |t.events| && Mentions(t.events[i], uid) && !Pending(t.events[i + 1..], uid)
      ensures LastAgrees(t, uid, i)
    {
      assert t.events[i + 1..] == s.events[i + 2..];
      assert LastAgrees(s, uid, i + 1);
    }
  }

  /** Handling an event only drops infos. */
  lemma {:induction false} HandledOnlyDrops(s: State)
    requires Enabled(s, Handle)
    ensures forall uid :: uid in Handled(s).cached.storage ==>
      uid in s.cached.storage && Handled(s).cached.storage[uid] == s.cached.storage[uid]
  {
  }

  /** The info an event speaks of, if it is still there, is what the event says. */
  lemma {:induction false} KeptIsCurrent(s: State, uid: nat)
    requires Enabled(s, Handle) && Mentions(s.events[0], uid) && uid in Handled(s).cached.storage
    ensures match Says(s.events[0], uid)
      case Some(c) => Current(Handled(s).cached.storage[uid], c)
      case None => s.events[0].Removed?
  {
  }

  /** An entry that survives an event is current, or another event for it is queued. */
  lemma {:induction false} EntryAfterHandling(s: State, uid: nat)
    requires Inv(s) && Enabled(s, Handle) && uid in Handled(s).cached.storage
    ensures EntryOk(Handled(s), uid)
  {
    var e, t := s.events[0], Handled(s);
    PendingTail(s.events, uid);
    HandledOnlyDrops(s);
    assert EntryOk(s, uid);
    if Mentions(e, uid) && !Pending(t.events, uid) {
      assert LastAgrees(s, uid, 0);
      KeptIsCurrent(s, uid);
      if Says(e, uid).Some? {
        var c := Says(e, uid).value;
        assert t.lister[c.name].uid == uid && Current(t.cached.storage[uid], t.lister[c.name]);
      }
    }
  }

  /** Only a deletion is taken off the queue while something is built; its scan then knows whether that is gone. */
  lemma {:induction false} BuildingAfterHandling(s: State)
    requires Inv(s) && Enabled(s, Handle)
    ensures BuildingOk(Handled(s))
  {
    if s.building.Some? {
      var uid := s.building.value.uid;
      PendingTail(s.events, uid);
      if Mentions(s.events[0], uid) && !Pending(s.events[1..], uid) {
        assert LastAgrees(s, uid, 0);
      }
    }
  }

  lemma {:induction false} HandlingConserves(s: State)
    requires Enabled(s, Handle) && Conserved(s.cached)
    ensures Conserved(Handled(s).cached)
  {
    match s.events[0]
    case Added(crd) => UpdateConserves(s.cached, crd, crd);
    case Updated(before, after) => UpdateConserves(s.cached, before, after);
    case Removed(_) =>
  }

  lemma {:induction false} HandleKeepsInv(s: State)
    requires Inv(s) && Enabled(s, Handle)
    ensures Inv(Handled(s))
  {
    var t := Handled(s);
    HandlingConserves(s);
    HandledOnlyDrops(s);
    AgreementAfterPop(s, t);
    BuildingAfterHandling(s);
    forall uid | uid in t.cached.storage
      ensures EntryOk(t, uid)
    {
      EntryAfterHandling(s, uid);
    }
  }

  lemma {:induction false} FinishScanKeepsInv(s: State)
    requires Inv(s) && Enabled(s, FinishScan)
    ensures Inv(Apply(s, FinishScan))
  {
    var t := Apply(s, FinishScan);
    KeepConserves(s.cached, s.scan.value);
    assert forall i, uid :: 0 <= i < |t.events| && Mentions(t.events[i], uid) && !Pending(t.events[i + 1..], uid) ==>
      LastAgrees(s, uid, i) && LastAgrees(t, uid, i);
    forall uid | uid in t.cached.storage
      ensures EntryOk(t, uid)
    {
      assert EntryOk(s, uid);
    }
  }

  lemma {:induction false} SameAgreement(s: State, t: State)
    requires Inv(s) && t.events == s.events && t.lister == s.lister
    ensures forall i, u :: 0 <= i < |t.events| && Mentions(t.events[i], u) && !Pending(t.events[i + 1..], u) ==> LastAgrees(t, u, i)
  {
    assert forall i, u :: 0 <= i < |t.events| && Mentions(t.events[i], u) && !Pending(t.events[i + 1..], u) ==> LastAgrees(s, u, i);
  }

  lemma {:induction false} RequestKeepsInv(s: State, uid: nat, name: string)
    requires Inv(s) && s.building.None?
    ensures Inv(Apply(s, Request(uid, name)))
  {
    var t := Apply(s, Request(uid, name));
    SameAgreement(s, t);
    forall u | u in t.cached.storage
      ensures EntryOk(t, u)
    {
      assert EntryOk(s, u);
    }
  }

  lemma {:induction false} PublishKeepsInv(s: State)
    requires Inv(s) && Enabled(s, Publish)
    ensures Inv(Apply(s, Publish))
  {
    var t, crd := Apply(s, Publish), s.building.value;
    PublishConserves(s.cached, crd);
    SameAgreement(s, t);
    forall u | u in t.cached.storage
      ensures EntryOk(t, u)
    {
      if u != crd.uid {
        assert EntryOk(s, u);
      } else if InLister(s.lister, crd) {
        assert t.lister[crd.name].uid == u && Current(t.cached.storage[u], t.lister[crd.name]);
      }
    }
  }

  lemma {:induction false} StepKeepsInv(s: State, step: Step)
    requires Inv(s)
    ensures Inv(Apply(s, step))
  {
    if Enabled(s, step) {
      match step
      case ListerAdd(crd) => AddKeepsInv(s, crd);
      case ListerUpdate(crd) => UpdateKeepsInv(s, crd);
      case ListerRemove(name) => RemoveKeepsInv(s, name);
      case Handle => HandleKeepsInv(s);
      case FinishScan => FinishScanKeepsInv(s);
      case Request(uid, name) => RequestKeepsInv(s, uid, name);
      case Publish => PublishKeepsInv(s);
    }
  }

  lemma {:induction false} RunKeepsInv(steps: seq<Step>)
    ensures Inv(Run(INITIAL, steps))
  {
    if steps != [] {
      RunKeepsInv(steps[..|steps| - 1]);
      StepKeepsInv(Run(INITIAL, steps[..|steps| - 1]), steps[|steps| - 1]);
    }
  }

  // ------------------------------------------------------------- the results

  /** In every reachable state, cached info equals the lister's object or an event for it is undelivered. */
  lemma {:induction false} StaleOnlyWhilePending(steps: seq<Step>, uid: nat)
    requires uid in Run(INITIAL, steps).cached.storage
    ensures var s := Run(INITIAL, steps);
      var info := s.cached.storage[uid];
      || (exists n :: n in s.lister && s.lister[n].uid == uid && info.spec == s.lister[n].spec && info.accepted == s.lister[n].accepted)
      || Pending(s.events, uid)
      || (s.scan.Some? && uid !in s.scan.value)
  {
    RunKeepsInv(steps);
    assert EntryOk(Run(INITIAL, steps), uid);
  }

  /** Once the queue is drained every entry is the lister's, and no dead UID remains. */
  lemma {:induction false} DrainedMeansExact(steps: seq<Step>)
    ensures var s := Run(INITIAL, steps);
      s.events == [] && s.scan.None? ==>
        s.cached.storage.Keys <= Uids(s.lister)
        && forall n :: n in s.lister && s.lister[n].uid in s.cached.storage ==>
             var info := s.cached.storage[s.lister[n].uid];
             info.spec == s.lister[n].spec && info.accepted == s.lister[n].accepted
  {
    RunKeepsInv(steps);
    var s := Run(INITIAL, steps);
    if s.events == [] && s.scan.None? {
      forall uid | uid in s.cached.storage
        ensures uid in Uids(s.lister)
        ensures forall n :: n in s.lister && s.lister[n].uid == uid ==> Current(s.cached.storage[uid], s.lister[n])
      {
        assert EntryOk(s, uid);
      }
    }
  }

  /** A request that nothing interrupts is the handler's GetOrCreateServingInfoFor. */
  lemma {:induction false} RequestIsTwoSteps(s: State, uid: nat, name: string)
    requires s.building.None?
    ensures var t := Apply(Apply(s, Request(uid, name)), Publish);
      t == s.(cached := AfterRequest(s.cached, s.lister, uid, name).0)
  {
  }

  /** Every info ever published is in the map under its UID, or was torn down exactly once, never both. */
  lemma {:induction false} EveryInfoIsAccountedFor(steps: seq<Step>, id: nat)
    ensures var c := Run(INITIAL, steps).cached;
      && (forall uid :: uid in c.storage ==> c.storage[uid].uid == uid)
      && (id < c.next ==> (Holds(c.storage, id) && c.tornDown[id] == 0) || (!Holds(c.storage, id) && c.tornDown[id] == 1))
      && (id >= c.next ==> !Holds(c.storage, id) && c.tornDown[id] == 0)
  {
    RunKeepsInv(steps);
  }

  /**
   A request for a version whose first entry in the cached spec is served finds its storage and scopes, and a
   status or scale storage exactly where that entry has the subresource. Instances are stored and deleted at the first
   version that is marked for storage, whose storage is there too.
   */
  lemma {:induction false} ServedRequestsFindStorage(steps: seq<Step>, uid: nat, version: string, i: nat)
    requires uid in Run(INITIAL, steps).cached.storage
    requires var versions := Run(INITIAL, steps).cached.storage[uid].spec.versions;
      FirstNamed(versions, version, i) && versions[i].served
    ensures var info := Run(INITIAL, steps).cached.storage[uid];
      && HasServedVersion(info.spec.versions, version)
      && version in info.parts.storages && version in info.parts.scopes && version in info.parts.statusScopes && version in info.parts.scaleScopes
      && (version in info.parts.statusStorages <==> info.spec.versions[i].hasStatus)
      && (version in info.parts.scaleStorages <==> info.spec.versions[i].hasScale)
      && info.storageVersion in info.parts.storages
      && exists k: nat :: FirstStored(info.spec.versions, k) && info.spec.versions[k].name == info.storageVersion
  {
    RunKeepsInv(steps);
    var info := Run(INITIAL, steps).cached.storage[uid];
    FlagsOfFirstNamed(info.spec.versions, version, i);
    ServedVersionIsBuilt(info.spec.versions, version);
    StorageVersionIsBuilt(info.spec.versions);
    StorageVersionIsFirstStored(info.spec.versions, info.storageVersion);
  }

  /** In every run the storage version of a cached info is the first version of its spec that is marked for storage. */
  lemma {:induction false} StorageVersionIsStored(steps: seq<Step>, uid: nat)
    requires uid in Run(INITIAL, steps).cached.storage
    ensures var info := Run(INITIAL, steps).cached.storage[uid];
      exists i: nat :: FirstStored(info.spec.versions, i) && info.spec.versions[i].name == info.storageVersion
  {
    RunKeepsInv(steps);
    var info := Run(INITIAL, steps).cached.storage[uid];
    StorageVersionIsFirstStored(info.spec.versions, info.storageVersion);
  }

  /** With nothing queued, that is where the lister's object has it, which is what the handler looks at. */
  lemma {:induction false} DrainedServesSubresources(steps: seq<Step>, name: string, version: string, i: nat)
    requires var s := Run(INITIAL, steps);
      && s.events == [] && s.scan.None? && name in s.lister && s.lister[name].uid in s.cached.storage
      && FirstNamed(s.lister[name].spec.versions, version, i) && s.lister[name].spec.versions[i].served
    ensures var s := Run(INITIAL, steps);
      var parts := s.cached.storage[s.lister[name].uid].parts;
      && version in parts.storages
      && (version in parts.statusStorages <==> s.lister[name].spec.versions[i].hasStatus)
      && (version in parts.scaleStorages <==> s.lister[name].spec.versions[i].hasScale)
  {
    DrainedMeansExact(steps);
    ServedRequestsFindStorage(steps, Run(INITIAL, steps).lister[name].uid, version, i);
  }
}
