/**
 The CRD lifecycle as one state machine: users, the naming, establishing, finalizer and
 condition controllers, and a lister that lags behind the server.

 A run is any sequence of steps; a step that is not enabled leaves the state alone. The
 naming worker is one thread, but its synchronisation is cut into the points where other
 steps can come in between: reading its object, listing the group, consulting the mutation
 cache for one listed item at a time, and writing. Every other controller may write from
 any copy the lister ever held, at any later time. A deletion request looks first and marks
 in a transaction afterwards; MarkLate is such a transaction overtaken by other steps.
 */
module Lifecycle {
  import opened Crds
  import opened Registry
  import opened Naming
  import opened Establishing
  import opened Finalizing
  import opened History

  datatype Phase =
    | Idle
    | Fetched(crd: CRD)
    | Gathering(crd: CRD, todo: seq<CRD>, resources: set<string>, kinds: set<string>)

  /** `announced` collects the objects returned by the finalizer's first writes. */
  datatype State = State(log: seq<Event>, pos: nat, cache: map<string, CRD>, phase: Phase, announced: set<CRD>)

  const INITIAL := State([], 0, map[], Idle, {})

  function Store(s: State): map<string, CRD> { Replay(s.log) }

  function Lister(s: State): map<string, CRD>
    requires s.pos <= |s.log|
  {
    Replay(s.log[..s.pos])
  }

  datatype Step =
    | Create(obj: CRD)
    | UpdateMain(obj: CRD)
    | Delete(name: string)
    | MarkLate(name: string)
    | Deliver
    | NamingFetch(key: string)
    | NamingList(list: seq<CRD>)
    | NamingGather
    | NamingWrite(admitted: bool)
    | Establish(copy: CRD)
    | Announce(copy: CRD)
    | Finish(crd: CRD, instances: InstanceStorage)
    | SetOther(copy: CRD, cond: Condition)
    | RemoveOther(copy: CRD, name: string)

  /** A copy the lister hands out now or handed out earlier. */
  predicate WasListed(s: State, c: CRD) {
    IsVersion(s.log, c) && c.rv <= s.pos
  }

  ghost predicate Enabled(s: State, step: Step) {
    match step
    case Deliver => s.pos < |s.log|
    case NamingFetch(key) => s.phase.Idle? && s.pos <= |s.log| && key in Lister(s) && Lister(s)[key].spec.names != Lister(s)[key].accepted
    case NamingList(list) => s.phase.Fetched? && s.pos <= |s.log| && Enumerates(list, Lister(s))
    case NamingGather => s.phase.Gathering? && s.pos <= |s.log| && s.phase.todo != []
    case NamingWrite(_) => s.phase.Gathering? && s.phase.todo == []
    case Establish(copy) => WasListed(s, copy) && NeedsEstablishing(copy)
    case Announce(copy) => WasListed(s, copy) && NeedsFinalizing(copy)
    case Finish(crd, _) => crd in s.announced
    case SetOther(copy, cond) => WasListed(s, copy) && cond.kind.OtherCondition?
    case RemoveOther(copy, _) => WasListed(s, copy)
    case _ => true
  }

  /** One listed item: other groups are skipped, the newer of cache and lister is counted. */
  function Gathered(s: State): Phase
    requires s.phase.Gathering? && s.pos <= |s.log| && s.phase.todo != []
  {
    var ph := s.phase;
    var item := ph.todo[0];
    if item.spec.group != ph.crd.spec.group then ph.(todo := ph.todo[1..])
    else
      var names := Effective(Lister(s), s.cache, item).accepted;
      ph.(todo := ph.todo[1..], resources := ph.resources + ResourceNames(names), kinds := ph.kinds + KindNames(names))
  }

  function NamingWritten(s: State, admitted: bool): State
    requires s.phase.Gathering?
  {
    var ph := s.phase;
    if NothingToWrite(ph.crd, ph.resources, ph.kinds) || !admitted then s.(phase := Idle)
    else
      var (l, r) := StatusUpdate(s.log, NamingWriteOf(ph.crd, ph.resources, ph.kinds));
      s.(log := l, phase := Idle, cache := if r.Written? then Mutation(s.cache, r.crd) else s.cache)
  }

  ghost function Apply(s: State, step: Step): State {
    if !Enabled(s, step) then s
    else match step
      case Create(obj) => s.(log := Creation(s.log, obj).0)
      case UpdateMain(obj) => s.(log := MainUpdate(s.log, obj).0)
      case Delete(name) => s.(log := Deletion(s.log, name).0)
      case MarkLate(name) => s.(log := Marking(s.log, name).0)
      case Deliver => s.(pos := s.pos + 1)
      case NamingFetch(key) => s.(phase := Fetched(Lister(s)[key]))
      case NamingList(list) => s.(phase := Gathering(s.phase.crd, list, {}, {}))
      case NamingGather => s.(phase := Gathered(s))
      case NamingWrite(admitted) => NamingWritten(s, admitted)
      case Establish(copy) => s.(log := StatusUpdate(s.log, EstablishWriteOf(copy)).0)
      case Announce(copy) =>
        var (l, r) := StatusUpdate(s.log, AnnounceWriteOf(copy));
        s.(log := l, announced := if r.Written? then s.announced + {r.crd} else s.announced)
      case Finish(crd, instances) => s.(log := StatusUpdate(s.log, FinishWriteOf(crd, instances)).0)
      case SetOther(copy, cond) => s.(log := StatusUpdate(s.log, copy.(conditions := SetCondition(copy.conditions, cond))).0)
      case RemoveOther(copy, name) =>
        s.(log := StatusUpdate(s.log, copy.(conditions := RemoveCondition(copy.conditions, OtherCondition(name)))).0)
  }

  ghost function Run(s: State, steps: seq<Step>): State {
    if steps == [] then s else Apply(Run(s, steps[..|steps| - 1]), steps[|steps| - 1])
  }

  // ---------------------------------------------------------- the invariant

  /** Different CRDs of one group hold no name in common. */
  predicate NoSharedNames(m: map<string, CRD>) {
    forall a, b :: a in m && b in m && a != b && m[a].spec.group == m[b].spec.group ==>
      HeldResources(m[a].accepted) !! HeldResources(m[b].accepted)
      && HeldKinds(m[a].accepted) !! HeldKinds(m[b].accepted)
  }

  /**
   The naming worker can see what `n` holds: either `n` holds nothing, or the mutation cache
   has its last naming write, the lister has this incarnation, and every version since that
   write has the same accepted names.
   */
  predicate Tracked(s: State, n: string)
    requires n in Store(s) && s.pos <= |s.log|
  {
    var c := Store(s)[n];
    c.accepted == NO_NAMES ||
    (&& HasIncarnation(s.cache, n, c.uid)
     && HasIncarnation(Lister(s), n, c.uid)
     && s.cache[n].accepted == c.accepted
     && forall i :: 0 <= i < |s.log| && s.cache[n].rv <= i + 1 && s.log[i].Put? && s.log[i].crd.name == n && s.log[i].crd.uid == c.uid
          ==> s.log[i].crd.accepted == c.accepted)
  }

  predicate CacheOk(s: State) {
    forall n :: n in s.cache ==> s.cache[n].name == n && s.cache[n].rv <= |s.log|
  }

  /** Everything another CRD holds is counted already, or its listed item is still to come. */
  predicate Counted(s: State, n: string)
    requires s.phase.Gathering? && n in Store(s)
  {
    var c := Store(s)[n];
    || (exists item :: item in s.phase.todo && item.name == n)
    || (HeldResources(c.accepted) <= s.phase.resources && HeldKinds(c.accepted) <= s.phase.kinds)
  }

  predicate PhaseOk(s: State) {
    match s.phase
    case Idle => true
    case Fetched(crd) => WasListed(s, crd)
    case Gathering(crd, todo, resources, kinds) =>
      && WasListed(s, crd)
      && (forall item :: item in todo ==> IsVersion(s.log, item))
      && (forall n :: n in Store(s) && n != crd.name && Store(s)[n].spec.group == crd.spec.group ==> Counted(s, n))
  }

  predicate AnnouncedOk(s: State) {
    forall c :: c in s.announced ==> IsVersion(s.log, c) && NeedsFinalizing(c)
  }

  ghost predicate Inv(s: State) {
    && s.pos <= |s.log|
    && LogOk(s.log)
    && (forall p :: 0 <= p <= |s.log| ==> NoSharedNames(Replay(s.log[..p])))
    && (forall n :: n in Store(s) ==> Tracked(s, n))
    && CacheOk(s)
    && PhaseOk(s)
    && AnnouncedOk(s)
  }

  // ------------------------------------------------ what the worker can see

  /** The copy consulted for a CRD that holds names shows exactly those names. */
  lemma {:induction false} EffectiveIsCurrent(s: State, n: string)
    requires Inv(s) && n in Store(s) && Store(s)[n].accepted != NO_NAMES
    ensures n in Lister(s) && Lister(s)[n].name == n && Lister(s)[n].spec.group == Store(s)[n].spec.group
    ensures Newer(s.cache, Lister(s)[n]).accepted == Store(s)[n].accepted
  {
    assert Tracked(s, n);
    var c := Lister(s)[n];
    PrefixOk(s.log, s.pos);
    StoredIsVersion(s.log[..s.pos], n);
    StoredIsVersion(s.log, n);
    assert s.log[c.rv - 1] == Put(c);
    NameFixesGroup(n, c.spec, Store(s)[n].spec);
  }

  // ------------------------------------------------- steps that append to the log

  lemma {:induction false} PrefixesStay(log: seq<Event>, e: Event, p: nat)
    requires p <= |log|
    ensures (log + [e])[..p] == log[..p]
  {
  }

  /** A prefix of the longer log is a prefix of the shorter one, or the whole. */
  lemma {:induction false} UniquenessAfterAppend(s: State, e: Event)
    requires Inv(s) && NoSharedNames(Replay(s.log + [e]))
    ensures forall p :: 0 <= p <= |s.log + [e]| ==> NoSharedNames(Replay((s.log + [e])[..p]))
  {
    forall p | 0 <= p <= |s.log + [e]|
      ensures NoSharedNames(Replay((s.log + [e])[..p]))
    {
      if p <= |s.log| {
        PrefixesStay(s.log, e, p);
      } else {
        assert (s.log + [e])[..p] == s.log + [e];
      }
    }
  }

  /** Names stay visible when an event does not touch the CRD, or keeps its incarnation and names. */
  lemma {:induction false} TrackedAfterAppend(s: State, e: Event, n: string)
    requires Inv(s) && n in Store(s) && Tracked(s, n)
    requires match e
      case Put(c) => c.name != n || (c.uid == Store(s)[n].uid && c.accepted == Store(s)[n].accepted)
      case Del(m) => m != n
    ensures var t := s.(log := s.log + [e]); n in Store(t) && Tracked(t, n)
  {
    var t := s.(log := s.log + [e]);
    ReplayAppend(s.log, e);
    PrefixesStay(s.log, e, s.pos);
    assert Lister(t) == Lister(s);
  }

  /** The phase survives an event that lets no other CRD hold more than it held. */
  lemma {:induction false} PhaseAfterAppend(s: State, e: Event)
    requires Inv(s)
    requires e.Put? ==>
      || e.crd.accepted == NO_NAMES
      || (e.crd.name in Store(s) && e.crd.accepted == Store(s)[e.crd.name].accepted && e.crd.spec.group == Store(s)[e.crd.name].spec.group)
    ensures PhaseOk(s.(log := s.log + [e]))
  {
    var t := s.(log := s.log + [e]);
    ReplayAppend(s.log, e);
    if s.phase.Gathering? {
      forall n | n in Store(t) && n != s.phase.crd.name && Store(t)[n].spec.group == s.phase.crd.spec.group
        ensures Counted(t, n)
      {
        if n in Store(s) && Store(t)[n].accepted == Store(s)[n].accepted && Store(t)[n].spec.group == Store(s)[n].spec.group {
          assert Counted(s, n);
        } else {
          assert Store(t)[n].accepted == NO_NAMES;
        }
      }
    }
  }

  /** A version over the stored one that keeps its names. */
  lemma {:induction false} AppendSameNames(s: State, c: CRD)
    requires Inv(s) && c.rv == |s.log| + 1 && VersionOk(c)
    requires c.name in Store(s) && c.uid == Store(s)[c.name].uid && c.accepted == Store(s)[c.name].accepted
    ensures Inv(s.(log := s.log + [Put(c)]))
  {
    var t := s.(log := s.log + [Put(c)]);
    ReplayAppend(s.log, Put(c));
    StoredIsVersion(s.log, c.name);
    NameFixesGroup(c.name, c.spec, Store(s)[c.name].spec);
    assert t.log[..|s.log|] == s.log;
    AppendOk(s.log, Put(c));
    PrefixesStay(s.log, Put(c), |s.log|);
    assert s.log[..|s.log|] == s.log && NoSharedNames(Replay(s.log[..|s.log|]));
    UniquenessAfterAppend(s, Put(c));
    forall n | n in Store(t)
      ensures Tracked(t, n)
    {
      TrackedAfterAppend(s, Put(c), n);
    }
    PhaseAfterAppend(s, Put(c));
    assert AnnouncedOk(t);
  }

  lemma {:induction false} AppendRemoval(s: State, n: string)
    requires Inv(s) && n in Store(s)
    ensures Inv(s.(log := s.log + [Del(n)]))
  {
    var t := s.(log := s.log + [Del(n)]);
    ReplayAppend(s.log, Del(n));
    assert t.log[..|s.log|] == s.log;
    AppendOk(s.log, Del(n));
    assert s.log[..|s.log|] == s.log && NoSharedNames(Replay(s.log[..|s.log|]));
    UniquenessAfterAppend(s, Del(n));
    forall m | m in Store(t)
      ensures Tracked(t, m)
    {
      TrackedAfterAppend(s, Del(n), m);
    }
    PhaseAfterAppend(s, Del(n));
    assert AnnouncedOk(t);
  }

  lemma {:induction false} AppendCreation(s: State, c: CRD)
    requires Inv(s) && c.rv == c.uid == |s.log| + 1 && VersionOk(c)
    requires c.name !in Store(s) && c.accepted == NO_NAMES
    ensures Inv(s.(log := s.log + [Put(c)]))
  {
    var t := s.(log := s.log + [Put(c)]);
    ReplayAppend(s.log, Put(c));
    assert t.log[..|s.log|] == s.log;
    AppendOk(s.log, Put(c));
    assert s.log[..|s.log|] == s.log && NoSharedNames(Replay(s.log[..|s.log|]));
    UniquenessAfterAppend(s, Put(c));
    forall n | n in Store(t)
      ensures Tracked(t, n)
    {
      if n != c.name {
        TrackedAfterAppend(s, Put(c), n);
      }
    }
    PhaseAfterAppend(s, Put(c));
    assert AnnouncedOk(t);
  }

  /** Whatever Commit does with a valid object that keeps incarnation and names is safe. */
  lemma {:induction false} CommitSameNames(s: State, obj: CRD)
    requires Inv(s) && obj.name in Store(s)
    requires obj.uid == Store(s)[obj.name].uid && obj.accepted == Store(s)[obj.name].accepted
    requires !(obj.deleting && obj.finalizers == []) ==> VersionOk(obj)
    ensures Inv(s.(log := Commit(s.log, Store(s)[obj.name], obj).0))
  {
    var next := obj.(rv := |s.log| + 1);
    var stored := Store(s)[obj.name];
    if obj.(rv := stored.rv) == stored {
    } else if obj.deleting && obj.finalizers == [] {
      AppendRemoval(s, obj.name);
    } else {
      AppendSameNames(s, next);
    }
  }

  /** A status write from a stale copy commits only over that very version. */
  lemma {:induction false} StaleWrite(s: State, copy: CRD, obj: CRD)
    requires Inv(s) && IsVersion(s.log, copy)
    requires obj == copy.(accepted := obj.accepted, conditions := obj.conditions, finalizers := obj.finalizers)
    ensures var (l, r) := StatusUpdate(s.log, obj);
      if r.Written? then
        && copy.name in Store(s) && Store(s)[copy.name] == copy
        && (l, r.crd) == Commit(s.log, copy, obj)
      else l == s.log
  {
    if obj.name in Store(s) && Store(s)[obj.name].rv == obj.rv {
      MatchIsStored(s.log, copy);
    }
  }

  lemma {:induction false} StaleWriteSameNames(s: State, copy: CRD, obj: CRD)
    requires Inv(s) && IsVersion(s.log, copy)
    requires obj == copy.(conditions := obj.conditions, finalizers := obj.finalizers)
    requires !(obj.deleting && obj.finalizers == []) ==> VersionOk(obj)
    ensures Inv(s.(log := StatusUpdate(s.log, obj).0))
  {
    StaleWrite(s, copy, obj);
    var (l, r) := StatusUpdate(s.log, obj);
    if r.Written? {
      CommitSameNames(s, obj);
    }
  }

  // ------------------------------------------------------ the steps, one by one

  lemma {:induction false} CreateKeepsInv(s: State, obj: CRD)
    requires Inv(s)
    ensures Inv(Apply(s, Create(obj)))
  {
    var (l, r) := Creation(s.log, obj);
    if r.Written? {
      AppendCreation(s, r.crd);
    }
  }

  lemma {:induction false} UpdateMainKeepsInv(s: State, obj: CRD)
    requires Inv(s)
    ensures Inv(Apply(s, UpdateMain(obj)))
  {
    var (l, r) := MainUpdate(s.log, obj);
    if r.Written? {
      var stored := Store(s)[obj.name];
      StoredIsVersion(s.log, obj.name);
      var merged := obj.(accepted := stored.accepted, conditions := stored.conditions, uid := stored.uid, deleting := stored.deleting);
      CommitSameNames(s, merged);
    }
  }

  /** Setting a condition, as the conditions on versions see it. */
  lemma {:induction false} ThreeConditions(cs: seq<Condition>, c: Condition)
    ensures var after := SetCondition(cs, c);
      && FindCondition(after, NamesAccepted) == (if c.kind == NamesAccepted then Some(c) else FindCondition(cs, NamesAccepted))
      && FindCondition(after, Established) == (if c.kind == Established then Some(c) else FindCondition(cs, Established))
      && FindCondition(after, Terminating) == (if c.kind == Terminating then Some(c) else FindCondition(cs, Terminating))
  {
    SetThenFind(cs, c, NamesAccepted);
    SetThenFind(cs, c, Established);
    SetThenFind(cs, c, Terminating);
  }

  lemma {:induction false} MarkingKeepsInv(s: State, name: string)
    requires Inv(s)
    ensures Inv(s.(log := Marking(s.log, name).0))
  {
    if name in Store(s) {
      var stored := Store(s)[name];
      StoredIsVersion(s.log, name);
      ThreeConditions(stored.conditions, DELETION_PENDING);
      assert CLEANUP_FINALIZER in MarkedForDeletion(stored).finalizers;
      CommitSameNames(s, MarkedForDeletion(stored));
    }
  }

  lemma {:induction false} DeliverKeepsInv(s: State)
    requires Inv(s) && s.pos < |s.log|
    ensures Inv(Apply(s, Deliver))
  {
    var t := Apply(s, Deliver);
    forall n | n in Store(t)
      ensures Tracked(t, n)
    {
      assert Tracked(s, n);
      if Store(s)[n].accepted != NO_NAMES {
        Unbroken(s.log, s.pos, t.pos, n);
      }
    }
    SamePhase(s, t);
  }

  lemma {:induction false} NamingFetchKeepsInv(s: State, key: string)
    requires Inv(s)
    ensures Inv(Apply(s, NamingFetch(key)))
  {
    var t := Apply(s, NamingFetch(key));
    if Enabled(s, NamingFetch(key)) {
      PrefixOk(s.log, s.pos);
      StoredIsVersion(s.log[..s.pos], key);
      assert WasListed(t, t.phase.crd);
    }
    assert forall n :: n in Store(t) ==> Tracked(s, n) && Tracked(t, n);
  }

  lemma {:induction false} NamingListKeepsInv(s: State, list: seq<CRD>)
    requires Inv(s)
    ensures Inv(Apply(s, NamingList(list)))
  {
    var t := Apply(s, NamingList(list));
    if Enabled(s, NamingList(list)) {
      PrefixOk(s.log, s.pos);
      forall item | item in list
        ensures IsVersion(t.log, item)
      {
        StoredIsVersion(s.log[..s.pos], item.name);
      }
      forall n | n in Store(t) && n != t.phase.crd.name && Store(t)[n].spec.group == t.phase.crd.spec.group
        ensures Counted(t, n)
      {
        if Store(s)[n].accepted != NO_NAMES {
          EffectiveIsCurrent(s, n);
          assert Lister(s)[n] in list;
        }
      }
    }
    assert forall n :: n in Store(t) ==> Tracked(s, n) && Tracked(t, n);
  }

  lemma {:induction false} NamingGatherKeepsInv(s: State)
    requires Inv(s)
    ensures Inv(Apply(s, NamingGather))
  {
    var t := Apply(s, NamingGather);
    if Enabled(s, NamingGather) {
      var item := s.phase.todo[0];
      forall n | n in Store(t) && n != t.phase.crd.name && Store(t)[n].spec.group == t.phase.crd.spec.group
        ensures Counted(t, n)
      {
        GatherCounts(s, n);
      }
    }
    assert forall n :: n in Store(t) ==> Tracked(s, n) && Tracked(t, n);
  }

  /** Taking one item off the list counts what its CRD holds. */
  lemma {:induction false} GatherCounts(s: State, n: string)
    requires Inv(s) && s.phase.Gathering? && s.phase.todo != []
    requires n in Store(s) && n != s.phase.crd.name && Store(s)[n].spec.group == s.phase.crd.spec.group
    ensures Counted(s.(phase := Gathered(s)), n)
  {
    var item := s.phase.todo[0];
    var t := s.(phase := Gathered(s));
    assert Counted(s, n);
    if item.name == n {
      VersionWasStored(s.log, item);
      StoredIsVersion(s.log, n);
      NameFixesGroup(n, item.spec, Store(s)[n].spec);
      if Store(s)[n].accepted != NO_NAMES {
        EffectiveIsCurrent(s, n);
        assert HeldResources(Store(s)[n].accepted) <= ResourceNames(Store(s)[n].accepted);
      }
    } else if exists x :: x in s.phase.todo && x.name == n {
      var x :| x in s.phase.todo && x.name == n;
      assert x in s.phase.todo[1..];
    }
  }

  /** The version the naming worker writes is a valid one. */
  lemma {:induction false} NamingVersionOk(crd: CRD, resources: set<string>, kinds: set<string>)
    requires VersionOk(crd)
    ensures VersionOk(NamingWriteOf(crd, resources, kinds))
  {
    var c := NamingWriteOf(crd, resources, kinds);
    NamingConditions(crd, resources, kinds);
    AcceptedMeansAllGranted(crd, resources, kinds);
    assert IsTrue(c.conditions, NamesAccepted) <==> GrantedNames(crd, resources, kinds) == crd.spec.names;
  }

  lemma {:induction false} NamingConditions(crd: CRD, resources: set<string>, kinds: set<string>)
    ensures var c := NamingWriteOf(crd, resources, kinds);
      && FindCondition(c.conditions, NamesAccepted) == Some(NamesCondition(crd, resources, kinds))
      && FindCondition(c.conditions, Established).Some?
      && (IsTrue(c.conditions, Established) <==> IsTrue(crd.conditions, Established))
      && FindCondition(c.conditions, Terminating) == FindCondition(crd.conditions, Terminating)
  {
    ConditionsAfterNaming(crd, resources, kinds, NamesAccepted);
    ConditionsAfterNaming(crd, resources, kinds, Established);
    ConditionsAfterNaming(crd, resources, kinds, Terminating);
  }

  /** No other CRD of the group holds a name that is granted. */
  lemma {:induction false} GrantIsExclusive(s: State, n: string)
    requires Inv(s) && s.phase.Gathering? && s.phase.todo == []
    requires s.phase.crd.name in Store(s) && Store(s)[s.phase.crd.name] == s.phase.crd
    requires n in Store(s) && n != s.phase.crd.name && Store(s)[n].spec.group == s.phase.crd.spec.group
    ensures var got := GrantedNames(s.phase.crd, s.phase.resources, s.phase.kinds);
      HeldResources(got) !! HeldResources(Store(s)[n].accepted) && HeldKinds(got) !! HeldKinds(Store(s)[n].accepted)
  {
    var crd, resources, kinds := s.phase.crd, s.phase.resources, s.phase.kinds;
    var got := GrantedNames(crd, resources, kinds);
    assert Counted(s, n);
    assert s.log[..|s.log|] == s.log && NoSharedNames(Replay(s.log[..|s.log|]));
    forall x | x in HeldResources(got)
      ensures x !in HeldResources(Store(s)[n].accepted)
    {
      GrantedResourcesAreOursOrFree(crd, resources, kinds, x);
    }
    forall x | x in HeldKinds(got)
      ensures x !in HeldKinds(Store(s)[n].accepted)
    {
      GrantedKindsAreOursOrFree(crd, resources, kinds, x);
    }
  }

  /** The naming write commits a new version over the very copy it was computed from. */
  lemma {:induction false} NamingCommitKeepsInv(s: State)
    requires Inv(s) && s.phase.Gathering? && s.phase.todo == []
    requires s.phase.crd.name in Store(s) && Store(s)[s.phase.crd.name] == s.phase.crd
    ensures var obj := NamingWriteOf(s.phase.crd, s.phase.resources, s.phase.kinds);
      var (l, c) := Commit(s.log, s.phase.crd, obj);
      Inv(s.(log := l, phase := Idle, cache := Mutation(s.cache, c)))
  {
    var crd := s.phase.crd;
    var obj := NamingWriteOf(crd, s.phase.resources, s.phase.kinds);
    StoredIsVersion(s.log, crd.name);
    NamingVersionOk(crd, s.phase.resources, s.phase.kinds);
    var (l, c) := Commit(s.log, crd, obj);
    var t := s.(log := l, phase := Idle, cache := Mutation(s.cache, c));
    if l == s.log {
      UnchangedCommit(s, c, t);
    } else {
      assert l == s.log + [Put(c)];
      NamingAppend(s, c, t);
    }
  }

  /** The write changed nothing: the cache now holds the stored version itself. */
  lemma {:induction false} UnchangedCommit(s: State, c: CRD, t: State)
    requires Inv(s) && c.name in Store(s) && Store(s)[c.name] == c && c.rv <= s.pos && IsVersion(s.log, c)
    requires t == s.(phase := Idle, cache := Mutation(s.cache, c))
    ensures Inv(t)
  {
    VersionWasStored(s.log, c);
    Unbroken(s.log, c.rv, s.pos, c.name);
    forall n | n in Store(t)
      ensures Tracked(t, n)
    {
      assert Tracked(s, n);
      if n == c.name && t.cache[n] == c {
        NothingNewer(s, c);
      }
    }
  }

  /** The stored version is the last one of its name. */
  lemma {:induction false} NothingNewer(s: State, c: CRD)
    requires Inv(s) && c.name in Store(s) && Store(s)[c.name] == c
    ensures forall i :: 0 <= i < |s.log| && c.rv <= i + 1 && s.log[i].Put? && s.log[i].crd.name == c.name ==> s.log[i].crd.accepted == c.accepted
  {
    StoredIsVersion(s.log, c.name);
    forall i | 0 <= i < |s.log| && c.rv <= i + 1 && s.log[i].Put? && s.log[i].crd.name == c.name
      ensures s.log[i].crd.accepted == c.accepted
    {
      assert EventOk(s.log, i);
      StoredIsNewest(s.log, s.log[i].crd);
    }
  }

  /** Names stay exclusive when a CRD takes names that no other CRD of its group holds. */
  lemma {:induction false} ExclusiveNamesAfter(m: map<string, CRD>, c: CRD)
    requires NoSharedNames(m)
    requires forall n :: n in m && n != c.name && m[n].spec.group == c.spec.group ==>
      HeldResources(c.accepted) !! HeldResources(m[n].accepted) && HeldKinds(c.accepted) !! HeldKinds(m[n].accepted)
    ensures NoSharedNames(m[c.name := c])
  {
  }

  lemma {:induction false} NamingAppendUnique(s: State, c: CRD)
    requires Inv(s) && s.phase.Gathering? && s.phase.todo == []
    requires s.phase.crd.name in Store(s) && Store(s)[s.phase.crd.name] == s.phase.crd
    requires c == NamingWriteOf(s.phase.crd, s.phase.resources, s.phase.kinds).(rv := |s.log| + 1)
    ensures forall p :: 0 <= p <= |s.log + [Put(c)]| ==> NoSharedNames(Replay((s.log + [Put(c)])[..p]))
  {
    forall n | n in Store(s) && n != c.name && Store(s)[n].spec.group == c.spec.group
      ensures HeldResources(c.accepted) !! HeldResources(Store(s)[n].accepted) && HeldKinds(c.accepted) !! HeldKinds(Store(s)[n].accepted)
    {
      GrantIsExclusive(s, n);
    }
    assert s.log[..|s.log|] == s.log && NoSharedNames(Replay(s.log[..|s.log|]));
    ExclusiveNamesAfter(Store(s), c);
    ReplayAppend(s.log, Put(c));
    UniquenessAfterAppend(s, Put(c));
  }

  lemma {:induction false} NamingAppendTracked(s: State, c: CRD, t: State, n: string)
    requires Inv(s) && s.phase.Gathering?
    requires c.name in Store(s) && c.uid == Store(s)[c.name].uid && c.rv == |s.log| + 1
    requires HasIncarnation(Lister(s), c.name, c.uid)
    requires t == s.(log := s.log + [Put(c)], phase := Idle, cache := Mutation(s.cache, c))
    requires n in Store(t)
    ensures Tracked(t, n)
  {
    ReplayAppend(s.log, Put(c));
    PrefixesStay(s.log, Put(c), s.pos);
    if n != c.name {
      assert Tracked(s, n);
      TrackedAfterAppend(s, Put(c), n);
    } else {
      assert t.cache[n] == c;
    }
  }

  lemma {:induction false} NamingAppend(s: State, c: CRD, t: State)
    requires Inv(s) && s.phase.Gathering? && s.phase.todo == []
    requires s.phase.crd.name in Store(s) && Store(s)[s.phase.crd.name] == s.phase.crd
    requires c == NamingWriteOf(s.phase.crd, s.phase.resources, s.phase.kinds).(rv := |s.log| + 1) && VersionOk(c)
    requires t == s.(log := s.log + [Put(c)], phase := Idle, cache := Mutation(s.cache, c))
    ensures Inv(t)
  {
    NamingAppendLog(s, c);
    NamingAppendUnique(s, c);
    ListedIncarnation(s, s.phase.crd);
    NamingAppendAllTracked(s, c, t);
    assert AnnouncedOk(t);
  }

  lemma {:induction false} NamingAppendLog(s: State, c: CRD)
    requires Inv(s) && VersionOk(c) && c.rv == |s.log| + 1
    requires c.name in Store(s) && c.uid == Store(s)[c.name].uid
    ensures LogOk(s.log + [Put(c)])
  {
    StoredIsVersion(s.log, c.name);
    assert (s.log + [Put(c)])[..|s.log|] == s.log;
    AppendOk(s.log, Put(c));
  }

  /** A version that was listed and is still stored is of an incarnation that the lister has. */
  lemma {:induction false} ListedIncarnation(s: State, crd: CRD)
    requires Inv(s) && WasListed(s, crd) && crd.name in Store(s) && Store(s)[crd.name] == crd
    ensures HasIncarnation(Lister(s), crd.name, crd.uid)
  {
    VersionWasStored(s.log, crd);
    Unbroken(s.log, crd.rv, s.pos, crd.name);
  }

  lemma {:induction false} NamingAppendAllTracked(s: State, c: CRD, t: State)
    requires Inv(s) && s.phase.Gathering?
    requires c.name in Store(s) && c.uid == Store(s)[c.name].uid && c.rv == |s.log| + 1
    requires HasIncarnation(Lister(s), c.name, c.uid)
    requires t == s.(log := s.log + [Put(c)], phase := Idle, cache := Mutation(s.cache, c))
    ensures t.pos <= |t.log| && forall n :: n in Store(t) ==> Tracked(t, n)
  {
    forall n | n in Store(t)
      ensures Tracked(t, n)
    {
      NamingAppendTracked(s, c, t, n);
    }
  }

  lemma {:induction false} IdleKeepsInv(s: State)
    requires Inv(s)
    ensures Inv(s.(phase := Idle))
  {
    assert forall n :: n in Store(s) ==> Tracked(s, n) && Tracked(s.(phase := Idle), n);
  }

  /** A write that is sent either commits over its own base, or changes nothing. */
  lemma {:induction false} NamingWriteOutcome(s: State)
    requires Inv(s) && s.phase.Gathering?
    ensures var crd := s.phase.crd;
      var obj := NamingWriteOf(crd, s.phase.resources, s.phase.kinds);
      var (l, r) := StatusUpdate(s.log, obj);
      if r.Written? then crd.name in Store(s) && Store(s)[crd.name] == crd && (l, r.crd) == Commit(s.log, crd, obj)
      else l == s.log
  {
    StaleWrite(s, s.phase.crd, NamingWriteOf(s.phase.crd, s.phase.resources, s.phase.kinds));
  }

  lemma {:induction false} NamingWriteKeepsInv(s: State, admitted: bool)
    requires Inv(s)
    ensures Inv(Apply(s, NamingWrite(admitted)))
  {
    if Enabled(s, NamingWrite(admitted)) {
      var t := NamingWritten(s, admitted);
      NamingWriteOutcome(s);
      var (l, r) := StatusUpdate(s.log, NamingWriteOf(s.phase.crd, s.phase.resources, s.phase.kinds));
      if t == s.(phase := Idle) {
        IdleKeepsInv(s);
      } else {
        assert r.Written? && t == s.(log := l, phase := Idle, cache := Mutation(s.cache, r.crd));
        NamingCommitKeepsInv(s);
      }
    }
  }

  lemma {:induction false} EstablishKeepsInv(s: State, copy: CRD)
    requires Inv(s)
    ensures Inv(Apply(s, Establish(copy)))
  {
    if Enabled(s, Establish(copy)) {
      VersionWasStored(s.log, copy);
      ThreeConditions(copy.conditions, if copy.spec.badCABundle then INVALID_CA_BUNDLE else ESTABLISHED);
      StaleWriteSameNames(s, copy, EstablishWriteOf(copy));
    }
  }

  /** What the first write returns is a version that is still to be finalized. */
  lemma {:induction false} AnnouncedIsVersion(s: State, copy: CRD)
    requires Inv(s) && Enabled(s, Announce(copy))
    ensures var (l, r) := StatusUpdate(s.log, AnnounceWriteOf(copy));
      r.Written? ==> IsVersion(l, r.crd) && NeedsFinalizing(r.crd)
  {
    StaleWrite(s, copy, AnnounceWriteOf(copy));
    if copy.name in Store(s) {
      StoredIsVersion(s.log, copy.name);
    }
  }

  lemma {:induction false} AnnounceKeepsInv(s: State, copy: CRD)
    requires Inv(s)
    ensures Inv(Apply(s, Announce(copy)))
  {
    if Enabled(s, Announce(copy)) {
      VersionWasStored(s.log, copy);
      ThreeConditions(copy.conditions, IN_PROGRESS);
      StaleWriteSameNames(s, copy, AnnounceWriteOf(copy));
      AnnouncedIsVersion(s, copy);
      var (l, r) := StatusUpdate(s.log, AnnounceWriteOf(copy));
      if r.Written? {
        AnnouncedKeepsInv(s.(log := l), r.crd);
      }
    }
  }

  lemma {:induction false} AnnouncedKeepsInv(u: State, c: CRD)
    requires Inv(u) && IsVersion(u.log, c) && NeedsFinalizing(c)
    ensures Inv(u.(announced := u.announced + {c}))
  {
    var t := u.(announced := u.announced + {c});
    forall n | n in Store(t)
      ensures Tracked(t, n)
    {
      assert Tracked(u, n);
    }
    SamePhase(u, t);
  }

  /** The phase condition looks at the log and the phase only, and a lister that has moved on. */
  lemma {:induction false} SamePhase(u: State, t: State)
    requires PhaseOk(u) && t.log == u.log && t.phase == u.phase && u.pos <= t.pos
    ensures PhaseOk(t)
  {
    if u.phase.Gathering? {
      forall n | n in Store(t) && n != t.phase.crd.name && Store(t)[n].spec.group == t.phase.crd.spec.group
        ensures Counted(t, n)
      {
        assert Counted(u, n);
      }
    }
  }

  lemma {:induction false} FinishKeepsInv(s: State, crd: CRD, instances: InstanceStorage)
    requires Inv(s)
    ensures Inv(Apply(s, Finish(crd, instances)))
  {
    if Enabled(s, Finish(crd, instances)) {
      VersionWasStored(s.log, crd);
      ThreeConditions(crd.conditions, OutcomeCondition(crd, instances));
      StaleWriteSameNames(s, crd, FinishWriteOf(crd, instances));
    }
  }

  lemma {:induction false} SetOtherKeepsInv(s: State, copy: CRD, cond: Condition)
    requires Inv(s)
    ensures Inv(Apply(s, SetOther(copy, cond)))
  {
    if Enabled(s, SetOther(copy, cond)) {
      VersionWasStored(s.log, copy);
      ThreeConditions(copy.conditions, cond);
      StaleWriteSameNames(s, copy, copy.(conditions := SetCondition(copy.conditions, cond)));
    }
  }

  lemma {:induction false} RemoveOtherKeepsInv(s: State, copy: CRD, name: string)
    requires Inv(s)
    ensures Inv(Apply(s, RemoveOther(copy, name)))
  {
    if Enabled(s, RemoveOther(copy, name)) {
      VersionWasStored(s.log, copy);
      forall t {
        RemoveThenFind(copy.conditions, OtherCondition(name), t);
      }
      StaleWriteSameNames(s, copy, copy.(conditions := RemoveCondition(copy.conditions, OtherCondition(name))));
    }
  }

  lemma {:induction false} StepKeepsInv(s: State, step: Step)
    requires Inv(s)
    ensures Inv(Apply(s, step))
  {
    match step
    case Create(obj) => CreateKeepsInv(s, obj);
    case UpdateMain(obj) => UpdateMainKeepsInv(s, obj);
    case Delete(name) => MarkingKeepsInv(s, name);
    case MarkLate(name) => MarkingKeepsInv(s, name);
    case Deliver => if Enabled(s, step) { DeliverKeepsInv(s); }
    case NamingFetch(key) => NamingFetchKeepsInv(s, key);
    case NamingList(list) => NamingListKeepsInv(s, list);
    case NamingGather => NamingGatherKeepsInv(s);
    case NamingWrite(admitted) => NamingWriteKeepsInv(s, admitted);
    case Establish(copy) => EstablishKeepsInv(s, copy);
    case Announce(copy) => AnnounceKeepsInv(s, copy);
    case Finish(crd, instances) => FinishKeepsInv(s, crd, instances);
    case SetOther(copy, cond) => SetOtherKeepsInv(s, copy, cond);
    case RemoveOther(copy, name) => RemoveOtherKeepsInv(s, copy, name);
  }

  lemma {:induction false} RunKeepsInv(s: State, steps: seq<Step>)
    requires Inv(s)
    ensures Inv(Run(s, steps))
  {
    if steps != [] {
      RunKeepsInv(s, steps[..|steps| - 1]);
      StepKeepsInv(Run(s, steps[..|steps| - 1]), steps[|steps| - 1]);
    }
  }

  lemma {:induction false} InitialInv()
    ensures Inv(INITIAL)
  {
    assert Replay(INITIAL.log[..0]) == map[];
  }
}
