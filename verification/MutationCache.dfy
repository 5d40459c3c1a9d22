/**
 What the naming controller can see through a lister that lags and a mutation cache of its
 own writes: the names that are held on the server, as soon as the lister has seen every
 creation and removal, however many versions it lags behind.
 */
module MutationCache {
  import opened Crds
  import opened Registry
  import opened Naming
  import opened History
  import opened Lifecycle
  import opened LifecycleTheorems
  import opened NamingTermination

  // --------------------------------- what the mutation cache is for

  /** The event is no version, or its version has the names its object had before. */
  predicate NamesKept(log: seq<Event>, i: nat)
    requires i < |log|
  {
    log[i].Put? ==>
      var m, c := Replay(log[..i]), log[i].crd;
      c.accepted == if c.name in m then m[c.name].accepted else NO_NAMES
  }

  predicate Cached(cache: map<string, CRD>, e: Event, rv: nat) {
    e.Put? && e.crd.name in cache && rv <= cache[e.crd.name].rv
  }

  /** The cache holds committed versions, and no version with changed names is newer than the cached one. */
  ghost predicate CacheLeads(s: State) {
    && (forall n :: n in s.cache ==> s.cache[n].name == n && IsVersion(s.log, s.cache[n]))
    && (forall i :: 0 <= i < |s.log| ==> NamesKept(s.log, i) || Cached(s.cache, s.log[i], i + 1))
  }

  /** One more event, which keeps names or is the version that goes into the cache. */
  lemma {:induction false} AppendLeads(s: State, e: Event, t: State)
    requires CacheLeads(s) && t.log == s.log + [e]
    requires t.cache == s.cache || (e.Put? && e.crd.rv == |s.log| + 1 && t.cache == s.cache[e.crd.name := e.crd])
    requires t.cache == s.cache ==> NamesKept(t.log, |s.log|)
    ensures CacheLeads(t)
  {
    forall i | 0 <= i < |t.log|
      ensures NamesKept(t.log, i) || Cached(t.cache, t.log[i], i + 1)
    {
      if i < |s.log| {
        assert t.log[..i] == s.log[..i];
        assert NamesKept(s.log, i) || Cached(s.cache, s.log[i], i + 1);
      }
    }
  }

  /** How a step other than the naming write ends: a removal, or a version that keeps names, or nothing. */
  ghost predicate KeepsNames(s: State, t: State) {
    && t.cache == s.cache
    && (t.log == s.log || (|t.log| == |s.log| + 1 && t.log[..|s.log|] == s.log && NamesKept(t.log, |s.log|)))
  }

  lemma {:induction false} CommitKeepsNames(log: seq<Event>, obj: CRD)
    requires obj.name in Replay(log) && obj.accepted == Replay(log)[obj.name].accepted
    ensures var l := Commit(log, Replay(log)[obj.name], obj).0;
      l == log || (|l| == |log| + 1 && l[..|log|] == log && NamesKept(l, |log|))
  {
  }

  lemma {:induction false} UsersKeepNames(s: State, step: Step)
    requires Inv(s) && (step.Create? || step.UpdateMain? || step.Delete? || step.MarkLate?)
    ensures KeepsNames(s, Apply(s, step))
  {
    if step.UpdateMain? {
      var obj := step.obj;
      if obj.name in Store(s) {
        var stored := Store(s)[obj.name];
        StoredIsVersion(s.log, obj.name);
        CommitKeepsNames(s.log, obj.(accepted := stored.accepted, conditions := stored.conditions, uid := stored.uid, deleting := stored.deleting));
      }
    } else if step.Delete? || step.MarkLate? {
      if step.name in Store(s) {
        StoredIsVersion(s.log, step.name);
        CommitKeepsNames(s.log, MarkedForDeletion(Store(s)[step.name]));
      }
    }
  }

  lemma {:induction false} StatusKeepsNames(s: State, step: Step)
    requires Inv(s) && WritesStatus(s, step) && !step.NamingWrite?
    ensures KeepsNames(s, Apply(s, step))
  {
    StatusStep(s, step);
    StaleWrite(s, Base(s, step), Target(s, step));
    if Base(s, step).name in Store(s) && Store(s)[Base(s, step).name] == Base(s, step) {
      CommitKeepsNames(s.log, Target(s, step));
    }
  }

  lemma {:induction false} QuietKeepsNames(s: State, step: Step)
    requires !WritesStatus(s, step) && !step.Create? && !step.UpdateMain? && !step.Delete? && !step.MarkLate? && !step.NamingWrite?
    ensures KeepsNames(s, Apply(s, step))
  {
    QuietSteps(s, step);
  }

  lemma {:induction false} OthersKeepNames(s: State, step: Step)
    requires Inv(s) && !step.NamingWrite?
    ensures KeepsNames(s, Apply(s, step))
  {
    if WritesStatus(s, step) {
      StatusKeepsNames(s, step);
    } else if step.Create? || step.UpdateMain? || step.Delete? || step.MarkLate? {
      UsersKeepNames(s, step);
    } else {
      QuietKeepsNames(s, step);
    }
  }

  // ------------------------------------------------------ the naming write

  /** A naming write that the server commits as a new version. */
  ghost predicate Commits(s: State, step: Step) {
    step.NamingWrite? && Apply(s, step).log != s.log
  }

  /** The version that a naming write commits. */
  function NamingVersion(s: State): CRD
    requires s.phase.Gathering?
  {
    NamingWriteOf(s.phase.crd, s.phase.resources, s.phase.kinds).(rv := |s.log| + 1)
  }

  /** A naming write only commits over the object it was computed from, which the lister still holds. */
  lemma {:induction false} CommittedShape(s: State, step: Step)
    requires Inv(s) && Commits(s, step)
    ensures s.phase.Gathering? && s.phase.todo == [] && !NothingToWrite(s.phase.crd, s.phase.resources, s.phase.kinds)
    ensures var crd := s.phase.crd;
      && crd.name in Store(s) && Store(s)[crd.name] == crd
      && crd.name in Lister(s) && Lister(s)[crd.name] == crd
      && Apply(s, step) == State(s.log + [Put(NamingVersion(s))], s.pos, Mutation(s.cache, NamingVersion(s)), Idle, s.announced)
  {
    var crd := s.phase.crd;
    var obj := NamingWriteOf(crd, s.phase.resources, s.phase.kinds);
    StaleWrite(s, crd, obj);
    assert Apply(s, step) == NamingWritten(s, step.admitted);
    StoredIsVersion(s.log, crd.name);
    ListedIsStored(s, crd);
  }

  /** A listed version that is still the stored one is also what the lister holds now. */
  lemma {:induction false} ListedIsStored(s: State, crd: CRD)
    requires Inv(s) && WasListed(s, crd) && crd.name in Store(s) && Store(s)[crd.name] == crd
    ensures crd.name in Lister(s) && Lister(s)[crd.name] == crd
  {
    ListedIncarnation(s, crd);
    var prefix := s.log[..s.pos];
    PrefixOk(s.log, s.pos);
    StoredIsVersion(prefix, crd.name);
    StoredIsNewest(prefix, crd);
    StoredIsNewest(s.log, Lister(s)[crd.name]);
    MatchIsStored(prefix, crd);
  }

  /** A naming write that commits nothing changes nothing. */
  lemma {:induction false} UncommittedShape(s: State, step: Step)
    requires Inv(s) && step.NamingWrite? && !Commits(s, step)
    ensures Apply(s, step) == if Enabled(s, step) then s.(phase := Idle) else s
  {
    if Enabled(s, step) && !NothingToWrite(s.phase.crd, s.phase.resources, s.phase.kinds) {
      assert Apply(s, step) == NamingWritten(s, step.admitted);
      WritesChangeSomething(s.phase.crd, s.phase.resources, s.phase.kinds);
      StaleWrite(s, s.phase.crd, NamingWriteOf(s.phase.crd, s.phase.resources, s.phase.kinds));
    }
  }

  lemma {:induction false} CommittedLeads(s: State, step: Step)
    requires Inv(s) && CacheLeads(s) && Commits(s, step)
    ensures CacheLeads(Apply(s, step))
  {
    CommittedShape(s, step);
    StoredIsVersion(s.log, s.phase.crd.name);
    AppendLeads(s, Put(NamingVersion(s)), Apply(s, step));
  }

  lemma {:induction false} SameLogLeads(s: State, t: State)
    requires CacheLeads(s) && t.log == s.log && t.cache == s.cache
    ensures CacheLeads(t)
  {
    forall i | 0 <= i < |t.log|
      ensures NamesKept(t.log, i) || Cached(t.cache, t.log[i], i + 1)
    {
      assert NamesKept(s.log, i) || Cached(s.cache, s.log[i], i + 1);
    }
  }

  /** The cache leads in every state that the machine can reach. */
  lemma {:induction false} StepKeepsCacheLeads(s: State, step: Step)
    requires Inv(s) && CacheLeads(s)
    ensures CacheLeads(Apply(s, step))
  {
    var t := Apply(s, step);
    if Commits(s, step) {
      CommittedLeads(s, step);
    } else if step.NamingWrite? {
      UncommittedShape(s, step);
      SameLogLeads(s, t);
    } else {
      OthersKeepNames(s, step);
      if t.log == s.log {
        SameLogLeads(s, t);
      } else {
        assert t.log == s.log + [t.log[|s.log|]];
        AppendLeads(s, t.log[|s.log|], t);
      }
    }
  }

  lemma {:induction false} RunKeepsCacheLeads(s: State, steps: seq<Step>)
    requires Inv(s) && CacheLeads(s)
    ensures Inv(Run(s, steps)) && CacheLeads(Run(s, steps))
  {
    RunKeepsInv(s, steps);
    if steps != [] {
      RunKeepsCacheLeads(s, steps[..|steps| - 1]);
      StepKeepsCacheLeads(Run(s, steps[..|steps| - 1]), steps[|steps| - 1]);
    }
  }

  // --------------------------------------- what the controller can see

  /** For every listed CRD the copy that is consulted: the newer one of lister and cache. */
  ghost function View(s: State): map<string, CRD>
    requires s.pos <= |s.log|
  {
    map n | n in Lister(s) :: Newer(s.cache, Lister(s)[n])
  }

  /** The consulted copies are versions of their object, in the group of the listed one. */
  lemma {:induction false} ViewedIsVersion(s: State, n: string)
    requires Inv(s) && CacheLeads(s) && n in Lister(s)
    ensures var c := View(s)[n];
      && c.name == n && IsVersion(s.log, c) && Lister(s)[n].rv <= c.rv
      && Lister(s)[n].name == n && c.spec.group == Lister(s)[n].spec.group
  {
    PrefixOk(s.log, s.pos);
    StoredIsVersion(s.log[..s.pos], n);
    assert IsVersion(s.log, Lister(s)[n]);
    VersionWasStored(s.log, View(s)[n]);
    NameFixesGroup(n, View(s)[n].spec, Lister(s)[n].spec);
  }

  /** Events that add or remove an object, where others write a new version of one. */
  predicate AddsOrRemoves(log: seq<Event>, i: nat)
    requires i < |log|
  {
    log[i].Del? || log[i].crd.uid == i + 1
  }

  /** The creations and removals that the lister has yet to see. */
  ghost function Pending(s: State): set<nat> {
    set i: nat | s.pos <= i < |s.log| && AddsOrRemoves(s.log, i)
  }

  /** The lister may lag behind in versions, but it has seen every creation and removal. */
  ghost predicate CaughtUp(s: State) {
    Pending(s) == {}
  }

  predicate SameIncarnations(a: map<string, CRD>, b: map<string, CRD>) {
    a.Keys == b.Keys && forall n :: n in a ==> a[n].uid == b[n].uid
  }

  lemma {:induction false} VersionsKeepIncarnations(log: seq<Event>, p: nat)
    requires LogOk(log) && p <= |log|
    requires forall i :: p <= i < |log| ==> !AddsOrRemoves(log, i)
    ensures SameIncarnations(Replay(log[..p]), Replay(log))
  {
    if p == |log| {
      assert log[..p] == log;
    } else {
      var last := |log| - 1;
      assert EventOk(log, last) && !AddsOrRemoves(log, last);
      PrefixOk(log, last);
      forall i | p <= i < last
        ensures !AddsOrRemoves(log[..last], i)
      {
        assert !AddsOrRemoves(log, i);
      }
      assert log[..last][..p] == log[..p];
      VersionsKeepIncarnations(log[..last], p);
    }
  }

  /** From one version of an incarnation to the stored one, names that are kept stay the same. */
  lemma {:induction false} NamesPersist(log: seq<Event>, v: CRD)
    requires LogOk(log) && IsVersion(log, v)
    requires HasIncarnation(Replay(log), v.name, v.uid)
    requires forall i :: v.rv <= i < |log| && log[i].Put? && log[i].crd.name == v.name ==> NamesKept(log, i)
    ensures Replay(log)[v.name].accepted == v.accepted
  {
    VersionWasStored(log, v);
    if v.rv == |log| {
      assert log[..v.rv] == log;
    } else {
      var last := |log| - 1;
      var before := log[..last];
      assert EventOk(log, last) && EventOk(log, v.rv - 1);
      PrefixOk(log, last);
      assert before[v.rv - 1] == Put(v);
      forall i | v.rv <= i < last && before[i].Put? && before[i].crd.name == v.name
        ensures NamesKept(before, i)
      {
        assert NamesKept(log, i) && before[..i] == log[..i];
      }
      NamesPersist(before, v);
      assert log[last].Put? && log[last].crd.name == v.name ==> NamesKept(log, last);
    }
  }

  /** The copy consulted for an incarnation that the lister knows shows the names it holds. */
  lemma {:induction false} ViewIsCurrent(s: State, n: string)
    requires Inv(s) && CacheLeads(s) && n in Store(s)
    requires HasIncarnation(Lister(s), n, Store(s)[n].uid)
    ensures n in View(s) && View(s)[n].accepted == Store(s)[n].accepted && View(s)[n].spec.group == Store(s)[n].spec.group
  {
    var l, v := Lister(s)[n], View(s)[n];
    ViewedIsVersion(s, n);
    StoredIsVersion(s.log, n);
    NameFixesGroup(n, Store(s)[n].spec, v.spec) by {
      VersionWasStored(s.log, v);
    }
    SameIncarnationLater(s.log, l, v) by {
      PrefixOk(s.log, s.pos);
      StoredIsVersion(s.log[..s.pos], n);
    }
    forall i | v.rv <= i < |s.log| && s.log[i].Put? && s.log[i].crd.name == v.name
      ensures NamesKept(s.log, i)
    {
      assert NamesKept(s.log, i) || Cached(s.cache, s.log[i], i + 1);
    }
    NamesPersist(s.log, v);
  }

  /** A later version of an object that is still there in the incarnation of an earlier one. */
  lemma {:induction false} SameIncarnationLater(log: seq<Event>, a: CRD, b: CRD)
    requires LogOk(log) && IsVersion(log, a) && IsVersion(log, b) && a.name == b.name && a.rv <= b.rv
    requires HasIncarnation(Replay(log), a.name, a.uid)
    ensures a.uid == b.uid
  {
    VersionWasStored(log, a);
    VersionWasStored(log, b);
    Unbroken(log, a.rv, b.rv, a.name);
  }

  /** Two views in which the same CRDs hold the same names. */
  ghost predicate SameHolders(a: map<string, CRD>, b: map<string, CRD>) {
    a.Keys == b.Keys && forall n :: n in a ==> a[n].accepted == b[n].accepted && a[n].spec.group == b[n].spec.group
  }

  lemma {:induction false} SameHoldersSameHeld(a: map<string, CRD>, b: map<string, CRD>)
    requires SameHolders(a, b)
    ensures forall g :: ResourcesHeld(a, g) == ResourcesHeld(b, g)
    ensures forall g :: KindsHeld(a, g) == KindsHeld(b, g)
  {
  }

  /**
   However many versions the lister lags behind, the names that the controller counts as
   used in a group are exactly the names held there, once creations and removals are delivered.
   */
  lemma {:induction false} ViewIsTheStore(s: State)
    requires Inv(s) && CacheLeads(s) && CaughtUp(s)
    ensures SameHolders(View(s), Store(s))
  {
    forall i | s.pos <= i < |s.log|
      ensures !AddsOrRemoves(s.log, i)
    {
      assert i !in Pending(s);
    }
    VersionsKeepIncarnations(s.log, s.pos);
    forall n | n in Store(s)
      ensures View(s)[n].accepted == Store(s)[n].accepted && View(s)[n].spec.group == Store(s)[n].spec.group
    {
      ViewIsCurrent(s, n);
    }
  }

  lemma {:induction false} DeliveredReplay(log: seq<Event>, p: nat)
    requires LogOk(log) && p < |log| && !AddsOrRemoves(log, p)
    ensures var c := log[p].crd;
      c.name in Replay(log[..p]) && c.rv == p + 1 && Replay(log[..p + 1]) == Replay(log[..p])[c.name := c]
  {
    assert EventOk(log, p);
    assert log[..p + 1] == log[..p] + [log[p]];
    ReplayAppend(log[..p], log[p]);
  }

  /** Two consulted copies of one name are in one group. */
  lemma {:induction false} ViewsAgreeOnGroup(s: State, t: State, n: string)
    requires Inv(s) && CacheLeads(s) && n in Lister(s)
    requires Inv(t) && CacheLeads(t) && n in Lister(t)
    ensures View(t)[n].spec.group == View(s)[n].spec.group
  {
    ViewedIsVersion(s, n);
    ViewedIsVersion(t, n);
    VersionWasStored(s.log, View(s)[n]);
    VersionWasStored(t.log, View(t)[n]);
    NameFixesGroup(n, View(s)[n].spec, View(t)[n].spec);
  }

  /** Delivering a new version of an object shows the controller nothing new about names. */
  lemma {:induction false} DeliverKeepsView(s: State, t: State)
    requires Inv(s) && CacheLeads(s) && Inv(t) && CacheLeads(t)
    requires s.pos < |s.log| && !AddsOrRemoves(s.log, s.pos) && t == s.(pos := s.pos + 1)
    ensures SameHolders(View(t), View(s))
  {
    var c := s.log[s.pos].crd;
    DeliveredReplay(s.log, s.pos);
    assert Lister(t) == Lister(s)[c.name := c];
    DeliveredView(s, c);
    forall n | n in View(s)
      ensures View(t)[n].accepted == View(s)[n].accepted && View(t)[n].spec.group == View(s)[n].spec.group
    {
      ViewsAgreeOnGroup(s, t, n);
    }
  }

  /** A cached version that is not ahead of the lister's position is not newer than the listed one. */
  lemma {:induction false} CacheBehind(s: State, n: string)
    requires LogOk(s.log) && CacheLeads(s) && s.pos <= |s.log| && n in Lister(s)
    requires n in s.cache && s.cache[n].rv <= s.pos
    ensures s.cache[n].rv <= Lister(s)[n].rv
  {
    var prefix := s.log[..s.pos];
    PrefixOk(s.log, s.pos);
    assert prefix[s.cache[n].rv - 1] == Put(s.cache[n]);
    StoredIsNewest(prefix, s.cache[n]);
  }

  /** What is cached at least up to the delivered version is consulted before and after. */
  lemma {:induction false} DeliveredCached(s: State, c: CRD, listed: CRD)
    requires CacheLeads(s) && IsVersion(s.log, c) && Cached(s.cache, Put(c), c.rv)
    requires listed.name == c.name && listed.rv < c.rv
    ensures Newer(s.cache, c) == Newer(s.cache, listed)
  {
    assert s.log[s.cache[c.name].rv - 1] == Put(s.cache[c.name]);
  }

  lemma {:induction false} DeliveredView(s: State, c: CRD)
    requires LogOk(s.log) && CacheLeads(s) && s.pos < |s.log| && s.log[s.pos] == Put(c) && c.name in Lister(s) && c.rv == s.pos + 1
    ensures Newer(s.cache, c).accepted == View(s)[c.name].accepted
  {
    PrefixOk(s.log, s.pos);
    StoredIsVersion(s.log[..s.pos], c.name);
    if Cached(s.cache, s.log[s.pos], s.pos + 1) {
      DeliveredCached(s, c, Lister(s)[c.name]);
    } else {
      DeliveredUncached(s, c);
    }
  }

  lemma {:induction false} DeliveredUncached(s: State, c: CRD)
    requires LogOk(s.log) && CacheLeads(s) && s.pos < |s.log| && s.log[s.pos] == Put(c) && c.name in Lister(s) && c.rv == s.pos + 1
    requires !Cached(s.cache, Put(c), c.rv) && Lister(s)[c.name].name == c.name
    ensures Newer(s.cache, c).accepted == View(s)[c.name].accepted
  {
    assert NamesKept(s.log, s.pos);
    if c.name in s.cache {
      CacheBehind(s, c.name);
    }
  }

  // ---------------------------------------- what a synchronisation will count

  /** The resource names that looking at these items will count for a group. */
  ghost function ItemResources(items: seq<CRD>, lister: map<string, CRD>, cache: map<string, CRD>, group: string): set<string> {
    set item, x | item in items && item.spec.group == group && x in ResourceNames(Effective(lister, cache, item).accepted) :: x
  }

  ghost function ItemKinds(items: seq<CRD>, lister: map<string, CRD>, cache: map<string, CRD>, group: string): set<string> {
    set item, x | item in items && item.spec.group == group && x in KindNames(Effective(lister, cache, item).accepted) :: x
  }

  /** The resource names counted so far, and those of the listed items still to be looked at. */
  ghost function ForeseenResources(s: State): set<string>
    requires s.pos <= |s.log| && s.phase.Gathering?
  {
    s.phase.resources + ItemResources(s.phase.todo, Lister(s), s.cache, s.phase.crd.spec.group)
  }

  ghost function ForeseenKinds(s: State): set<string>
    requires s.pos <= |s.log| && s.phase.Gathering?
  {
    s.phase.kinds + ItemKinds(s.phase.todo, Lister(s), s.cache, s.phase.crd.spec.group)
  }

  /** A synchronisation under way will count just what can be seen now. */
  ghost predicate Clean(s: State)
    requires s.pos <= |s.log|
  {
    s.phase.Gathering? ==>
      && ForeseenResources(s) == ResourcesHeld(View(s), s.phase.crd.spec.group)
      && ForeseenKinds(s) == KindsHeld(View(s), s.phase.crd.spec.group)
  }

  /** The names foreseen depend on what the consulted copies hold. */
  lemma {:induction false} SameItems(items: seq<CRD>, s: State, t: State, group: string)
    requires s.pos <= |s.log| && t.pos <= |t.log| && SameHolders(View(t), View(s))
    ensures ItemResources(items, Lister(t), t.cache, group) == ItemResources(items, Lister(s), s.cache, group)
    ensures ItemKinds(items, Lister(t), t.cache, group) == ItemKinds(items, Lister(s), s.cache, group)
  {
    forall item | item in items
      ensures Effective(Lister(t), t.cache, item).accepted == Effective(Lister(s), s.cache, item).accepted
    {
      assert item.name in Lister(t) <==> item.name in View(t);
      assert item.name in Lister(s) <==> item.name in View(s);
    }
  }

  lemma {:induction false} CleanStays(s: State, t: State)
    requires s.pos <= |s.log| && t.pos <= |t.log|
    requires Clean(s) && t.phase == s.phase && SameHolders(View(t), View(s))
    ensures Clean(t)
  {
    if s.phase.Gathering? {
      SameHoldersSameHeld(View(t), View(s));
      SameItems(s.phase.todo, s, t, s.phase.crd.spec.group);
    }
  }

  /** The items are the lister's objects, and the copy consulted for each is the one in the view. */
  ghost predicate Covers(list: seq<CRD>, lister: map<string, CRD>, cache: map<string, CRD>, view: map<string, CRD>) {
    && (forall item :: item in list ==>
          item.name in view && Effective(lister, cache, item) == view[item.name] && item.spec.group == view[item.name].spec.group)
    && (forall n :: n in view ==> exists item :: item in list && item.name == n)
  }

  lemma {:induction false} ListCovers(s: State, list: seq<CRD>)
    requires Inv(s) && CacheLeads(s) && Enumerates(list, Lister(s))
    ensures Covers(list, Lister(s), s.cache, View(s))
  {
    forall item | item in list
      ensures item.name in View(s) && Effective(Lister(s), s.cache, item) == View(s)[item.name] && item.spec.group == View(s)[item.name].spec.group
    {
      ViewedIsVersion(s, item.name);
    }
    forall n | n in View(s)
      ensures exists item :: item in list && item.name == n
    {
      ViewedIsVersion(s, n);
      assert Lister(s)[n] in list;
    }
  }

  lemma {:induction false} CoveredResources(list: seq<CRD>, lister: map<string, CRD>, cache: map<string, CRD>, view: map<string, CRD>, group: string)
    requires Covers(list, lister, cache, view)
    ensures ItemResources(list, lister, cache, group) == ResourcesHeld(view, group)
  {
    forall x | x in ResourcesHeld(view, group)
      ensures x in ItemResources(list, lister, cache, group)
    {
      var n :| n in view && view[n].spec.group == group && x in ResourceNames(view[n].accepted);
      var item :| item in list && item.name == n;
    }
  }

  lemma {:induction false} CoveredKinds(list: seq<CRD>, lister: map<string, CRD>, cache: map<string, CRD>, view: map<string, CRD>, group: string)
    requires Covers(list, lister, cache, view)
    ensures ItemKinds(list, lister, cache, group) == KindsHeld(view, group)
  {
    forall x | x in KindsHeld(view, group)
      ensures x in ItemKinds(list, lister, cache, group)
    {
      var n :| n in view && view[n].spec.group == group && x in KindNames(view[n].accepted);
      var item :| item in list && item.name == n;
    }
  }

  /** A synchronisation starts out clean. */
  lemma {:induction false} ListIsClean(s: State, list: seq<CRD>)
    requires Inv(s) && CacheLeads(s) && Enabled(s, NamingList(list))
    ensures Clean(Apply(s, NamingList(list)))
  {
    var t := Apply(s, NamingList(list));
    ListCovers(s, list);
    CoveredResources(list, Lister(s), s.cache, View(s), t.phase.crd.spec.group);
    CoveredKinds(list, Lister(s), s.cache, View(s), t.phase.crd.spec.group);
  }

  lemma {:induction false} UsedResourcesAreItems(list: seq<CRD>, lister: map<string, CRD>, cache: map<string, CRD>, group: string)
    ensures UsedResources(list, lister, cache, group) == ItemResources(list, lister, cache, group)
  {
    if list != [] {
      UsedResourcesAreItems(list[..|list| - 1], lister, cache, group);
      assert list == list[..|list| - 1] + [list[|list| - 1]];
    }
  }

  lemma {:induction false} UsedKindsAreItems(list: seq<CRD>, lister: map<string, CRD>, cache: map<string, CRD>, group: string)
    ensures UsedKinds(list, lister, cache, group) == ItemKinds(list, lister, cache, group)
  {
    if list != [] {
      UsedKindsAreItems(list[..|list| - 1], lister, cache, group);
      assert list == list[..|list| - 1] + [list[|list| - 1]];
    }
  }

  /** What an uninterrupted synchronisation counts as used is what is held on the server. */
  lemma {:induction false} UsedNamesAreHeld(s: State, list: seq<CRD>, group: string)
    requires Inv(s) && CacheLeads(s) && CaughtUp(s) && Enumerates(list, Lister(s))
    ensures UsedResources(list, Lister(s), s.cache, group) == ResourcesHeld(Store(s), group)
    ensures UsedKinds(list, Lister(s), s.cache, group) == KindsHeld(Store(s), group)
  {
    UsedResourcesAreItems(list, Lister(s), s.cache, group);
    UsedKindsAreItems(list, Lister(s), s.cache, group);
    ListCovers(s, list);
    CoveredResources(list, Lister(s), s.cache, View(s), group);
    CoveredKinds(list, Lister(s), s.cache, View(s), group);
    ViewIsTheStore(s);
    SameHoldersSameHeld(View(s), Store(s));
  }

  /** So is what an interrupted one has counted, if nothing that matters came in between. */
  lemma {:induction false} GatheredNamesAreHeld(s: State)
    requires Inv(s) && CacheLeads(s) && CaughtUp(s) && Clean(s)
    requires s.phase.Gathering? && s.phase.todo == []
    ensures s.phase.resources == ResourcesHeld(Store(s), s.phase.crd.spec.group)
    ensures s.phase.kinds == KindsHeld(Store(s), s.phase.crd.spec.group)
  {
    ViewIsTheStore(s);
    SameHoldersSameHeld(View(s), Store(s));
  }

  /** Looking at one more item moves its names from foreseen to counted. */
  lemma {:induction false} GatherForesees(s: State)
    requires s.pos <= |s.log| && s.phase.Gathering? && s.phase.todo != []
    ensures var t := s.(phase := Gathered(s));
      t.phase.crd == s.phase.crd && ForeseenResources(t) == ForeseenResources(s) && ForeseenKinds(t) == ForeseenKinds(s)
  {
    var t := s.(phase := Gathered(s));
    var head, tail := s.phase.todo[0], s.phase.todo[1..];
    assert s.phase.todo == [head] + tail;
    forall item
      ensures item in s.phase.todo <==> item == head || item in tail
    {
    }
    assert Lister(t) == Lister(s);
  }
}
