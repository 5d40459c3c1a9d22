/**
 Naming settles in the runs of the lifecycle machine. While no CRD is created and no spec
 is changed, the naming controller commits a bounded number of writes, however far its lister lags
 and whatever the other controllers, the deletions and the queue do in between.
 */
module NamingRuns {
  import opened Crds
  import opened Registry
  import opened Naming
  import opened Establishing
  import opened Finalizing
  import opened History
  import opened Lifecycle
  import opened LifecycleTheorems
  import opened MutationCache
  import opened NamingTermination

  // ---------------------------------------------------- the other writers

  /** No CRD is created and no spec is changed. Deletions, removals and all status writes may go on. */
  ghost predicate LeavesSpecs(s: State, step: Step) {
    && !step.Create?
    && (step.UpdateMain? && step.obj.name in Store(s) ==> step.obj.spec == Store(s)[step.obj.name].spec)
  }

  predicate SameNaming(a: CRD, b: CRD) {
    && a.uid == b.uid && a.spec == b.spec && a.accepted == b.accepted
    && FindCondition(a.conditions, NamesAccepted) == FindCondition(b.conditions, NamesAccepted)
  }

  /** At most one event more: the removal of an object, or a version of one that is the same for naming. */
  predicate Disregarded(log: seq<Event>, l: seq<Event>) {
    || l == log
    || (&& |l| == |log| + 1 && l[..|log|] == log
        && var m := Replay(log);
           match l[|log|]
           case Del(n) => n in m
           case Put(c) => c.name in m && SameNaming(c, m[c.name]))
  }

  lemma {:induction false} CommitDisregarded(log: seq<Event>, obj: CRD)
    requires obj.name in Replay(log) && SameNaming(obj, Replay(log)[obj.name])
    ensures Disregarded(log, Commit(log, Replay(log)[obj.name], obj).0)
  {
  }

  /** The object that a status write other than the naming one sends is the same for naming as its base. */
  lemma {:induction false} TargetSameNaming(s: State, step: Step)
    requires WritesStatus(s, step) && !step.NamingWrite?
    ensures Target(s, step).name == Base(s, step).name && SameNaming(Target(s, step), Base(s, step))
  {
    match step
    case Establish(copy) => SetThenFind(copy.conditions, if copy.spec.badCABundle then INVALID_CA_BUNDLE else ESTABLISHED, NamesAccepted);
    case Announce(copy) => SetThenFind(copy.conditions, IN_PROGRESS, NamesAccepted);
    case Finish(crd, instances) => SetThenFind(crd.conditions, OutcomeCondition(crd, instances), NamesAccepted);
    case SetOther(copy, cond) => SetThenFind(copy.conditions, cond, NamesAccepted);
    case RemoveOther(copy, name) => RemoveThenFind(copy.conditions, OtherCondition(name), NamesAccepted);
    case _ =>
  }

  lemma {:induction false} StatusDisregarded(s: State, step: Step)
    requires Inv(s) && WritesStatus(s, step) && !step.NamingWrite?
    ensures Disregarded(s.log, Apply(s, step).log)
  {
    var base, target := Base(s, step), Target(s, step);
    StatusStep(s, step);
    TargetSameNaming(s, step);
    StaleWrite(s, base, target);
    if base.name in Store(s) && Store(s)[base.name] == base {
      CommitDisregarded(s.log, target);
    }
  }

  lemma {:induction false} UsersDisregarded(s: State, step: Step)
    requires Inv(s) && LeavesSpecs(s, step) && (step.UpdateMain? || step.Delete? || step.MarkLate?)
    ensures Disregarded(s.log, Apply(s, step).log)
  {
    if step.UpdateMain? {
      if step.obj.name in Store(s) {
        var obj, stored := step.obj, Store(s)[step.obj.name];
        StoredIsVersion(s.log, obj.name);
        CommitDisregarded(s.log, obj.(accepted := stored.accepted, conditions := stored.conditions, uid := stored.uid, deleting := stored.deleting));
      }
    } else if step.name in Store(s) {
      var stored := Store(s)[step.name];
      StoredIsVersion(s.log, step.name);
      SetThenFind(stored.conditions, DELETION_PENDING, NamesAccepted);
      CommitDisregarded(s.log, MarkedForDeletion(stored));
    }
  }

  lemma {:induction false} OthersDisregarded(s: State, step: Step)
    requires Inv(s) && LeavesSpecs(s, step) && !step.NamingWrite?
    ensures Disregarded(s.log, Apply(s, step).log) && Apply(s, step).cache == s.cache
  {
    if WritesStatus(s, step) {
      StatusDisregarded(s, step);
    } else if step.UpdateMain? || step.Delete? || step.MarkLate? {
      UsersDisregarded(s, step);
    } else {
      QuietSteps(s, step);
    }
  }

  lemma {:induction false} DisregardedStore(log: seq<Event>, l: seq<Event>)
    requires LogOk(log) && Disregarded(log, l)
    ensures Undisturbed(Replay(log), Replay(l))
    ensures |l| == |log| + 1 && l[|log|].Del? ==> |Replay(l).Keys| < |Replay(log).Keys|
    ensures |l| == |log| + 1 && l[|log|].Put? ==> Replay(l).Keys == Replay(log).Keys && l[|log|].crd.uid <= |log|
  {
    if l != log {
      assert l == log + [l[|log|]];
      ReplayAppend(log, l[|log|]);
      if l[|log|].Del? {
        ProperSubsetIsSmaller(Replay(l).Keys, Replay(log).Keys);
      } else {
        StoredIsVersion(log, l[|log|].crd.name);
      }
    }
  }

  // ------------------------------------------------------------ the weight

  /** How often the view may still change: by a slot matched, by an object removed, by a creation or removal delivered. */
  ghost function Ahead(s: State): nat
    requires s.pos <= |s.log|
  {
    |Mismatches(Store(s))| + |Store(s).Keys| + |Pending(s)|
  }

  /** The stored conditions that differ from what the controller would work out now. */
  ghost function Outdated(s: State): set<string>
    requires s.pos <= |s.log|
  {
    StaleUnder(Store(s), View(s))
  }

  /** A change of view may leave all of `size` conditions outdated, and one synchronisation miscounting. */
  function Bound(ahead: nat, outdated: nat, clean: bool, size: nat): nat {
    ahead * (size + 3) + outdated + if clean then 0 else 2
  }

  ghost function Weight(s: State, size: nat): nat
    requires s.pos <= |s.log|
  {
    Bound(Ahead(s), |Outdated(s)|, Clean(s), size)
  }

  lemma {:induction false} AheadDrops(a: nat, b: nat, x: nat, y: nat, c: bool, d: bool, size: nat)
    requires a < b && x <= size
    ensures Bound(a, x, c, size) < Bound(b, y, d, size)
  {
    assert (b - a - 1) * (size + 3) >= 0;
    assert b * (size + 3) == a * (size + 3) + (size + 3) + (b - a - 1) * (size + 3);
  }

  lemma {:induction false} BoundStays(a: nat, b: nat, x: nat, y: nat, c: bool, d: bool, size: nat)
    requires a <= b && x + (if c then 0 else 2) <= y + if d then 0 else 2
    ensures Bound(a, x, c, size) <= Bound(b, y, d, size)
    ensures x + (if c then 0 else 2) < y + (if d then 0 else 2) ==> Bound(a, x, c, size) < Bound(b, y, d, size)
  {
    assert (b - a) * (size + 3) >= 0;
  }

  /** What is pending after one more event. */
  lemma {:induction false} PendingAfter(s: State, t: State)
    requires s.pos <= |s.log| && t.pos == s.pos
    requires |t.log| == |s.log| + 1 && t.log[..|s.log|] == s.log
    ensures |Pending(t)| <= |Pending(s)| + 1
    ensures !AddsOrRemoves(t.log, |s.log|) ==> Pending(t) == Pending(s)
  {
    forall i: nat | s.pos <= i < |s.log|
      ensures i in Pending(t) <==> i in Pending(s)
    {
      assert t.log[i] == s.log[i];
    }
    SubsetIsNoLarger(Pending(t), Pending(s) + {|s.log|});
  }

  lemma {:induction false} SameListerAfter(s: State, t: State)
    requires s.pos <= |s.log| && t.pos == s.pos && t.cache == s.cache
    requires t.log == s.log || (|t.log| == |s.log| + 1 && t.log[..|s.log|] == s.log)
    ensures t.pos <= |t.log| && Lister(t) == Lister(s) && View(t) == View(s)
  {
    assert t.log[..s.pos] == s.log[..s.pos];
  }

  /** The other writers, removals included, do not put the controller back. */
  lemma {:induction false} DisregardedAhead(s: State, t: State)
    requires Inv(s) && Disregarded(s.log, t.log) && t.pos == s.pos && t.cache == s.cache
    ensures t.pos <= |t.log| && View(t) == View(s)
    ensures Ahead(t) <= Ahead(s) && |Outdated(t)| <= |Outdated(s)| && |Store(t).Keys| <= |Store(s).Keys|
  {
    SameListerAfter(s, t);
    DisregardedStore(s.log, t.log);
    UndisturbedMismatches(Store(s), Store(t));
    UndisturbedUnder(Store(s), Store(t), View(s));
    SubsetIsNoLarger(Outdated(t), Outdated(s));
    SubsetIsNoLarger(Store(t).Keys, Store(s).Keys);
    if t.log != s.log {
      PendingAfter(s, t);
    }
  }

  /** The naming worker stays clean on its way to the write. */
  lemma {:induction false} QuietPhases(s: State, step: Step, t: State)
    requires Inv(s) && CacheLeads(s) && !step.NamingWrite? && !step.Deliver? && t == Apply(s, step)
    requires t.pos == s.pos && t.pos <= |t.log| && t.cache == s.cache && Lister(t) == Lister(s)
    ensures Clean(s) ==> Clean(t)
  {
    if t.phase == s.phase {
      if Clean(s) {
        CleanStays(s, t);
      }
    } else if step.NamingList? {
      ListIsClean(s, step.list);
    } else if step.NamingGather? {
      GatherForesees(s);
    }
  }

  // ----------------------------------------------------- step by step

  lemma {:induction false} OthersWeigh(s: State, step: Step, size: nat)
    requires Inv(s) && CacheLeads(s) && LeavesSpecs(s, step) && !step.NamingWrite? && !step.Deliver?
    ensures var t := Apply(s, step);
      t.pos <= |t.log| && Weight(t, size) <= Weight(s, size) && |Store(t).Keys| <= |Store(s).Keys|
  {
    var t := Apply(s, step);
    OthersDisregarded(s, step);
    assert t.pos == s.pos;
    DisregardedAhead(s, t);
    SameListerAfter(s, t);
    QuietPhases(s, step, t);
    BoundStays(Ahead(t), Ahead(s), |Outdated(t)|, |Outdated(s)|, Clean(t), Clean(s), size);
  }

  lemma {:induction false} DeliverPending(s: State, t: State)
    requires s.pos < |s.log| && t == s.(pos := s.pos + 1)
    ensures if AddsOrRemoves(s.log, s.pos) then |Pending(t)| < |Pending(s)| else Pending(t) == Pending(s)
  {
    if AddsOrRemoves(s.log, s.pos) {
      assert s.pos in Pending(s) && s.pos !in Pending(t);
      ProperSubsetIsSmaller(Pending(t), Pending(s));
    }
  }

  lemma {:induction false} DeliverWeighs(s: State, t: State, size: nat)
    requires Inv(s) && CacheLeads(s) && Inv(t) && CacheLeads(t)
    requires s.pos < |s.log| && t == s.(pos := s.pos + 1)
    requires |Store(s).Keys| <= size
    ensures Weight(t, size) <= Weight(s, size)
  {
    DeliverPending(s, t);
    StaleAtMostAll(Store(t), View(t));
    if AddsOrRemoves(s.log, s.pos) {
      AheadDrops(Ahead(t), Ahead(s), |Outdated(t)|, |Outdated(s)|, Clean(t), Clean(s), size);
    } else {
      DeliverKeepsView(s, t);
      SameHoldersSameHeld(View(t), View(s));
      SameHeldSameStale(Store(s), View(s), View(t));
      if Clean(s) {
        CleanStays(s, t);
      }
      BoundStays(Ahead(t), Ahead(s), |Outdated(t)|, |Outdated(s)|, Clean(t), Clean(s), size);
    }
  }

  /** The stored object is also the copy that is consulted when the lister holds it. */
  lemma {:induction false} StoredIsViewed(s: State, crd: CRD)
    requires Inv(s) && CacheLeads(s)
    requires crd.name in Store(s) && Store(s)[crd.name] == crd
    requires crd.name in Lister(s) && Lister(s)[crd.name] == crd
    ensures crd.name in View(s) && View(s)[crd.name] == crd
  {
    if crd.name in s.cache {
      StoredIsNewest(s.log, s.cache[crd.name]);
    }
  }

  lemma {:induction false} CachedEntry(s: State, c: CRD, n: string)
    requires Inv(s) && CacheLeads(s) && n in Lister(s) && c.rv == |s.log| + 1
    ensures Newer(s.cache[c.name := c], Lister(s)[n]) == if n == c.name then c else View(s)[n]
  {
    ViewedIsVersion(s, n);
  }

  /** The view after a new version is committed and cached. */
  lemma {:induction false} CachedView(s: State, c: CRD, t: State)
    requires Inv(s) && CacheLeads(s) && c.name in Lister(s) && c.rv == |s.log| + 1
    requires t == State(s.log + [Put(c)], s.pos, Mutation(s.cache, c), Idle, s.announced)
    ensures View(t) == View(s)[c.name := c]
  {
    assert t.log[..s.pos] == s.log[..s.pos];
    assert t.cache == s.cache[c.name := c];
    forall n | n in Lister(s) {
      CachedEntry(s, c, n);
    }
  }

  /** The store and the view after a committed naming write. */
  lemma {:induction false} CommittedStore(s: State, step: Step)
    requires Inv(s) && CacheLeads(s) && Commits(s, step)
    ensures var t, crd, c := Apply(s, step), s.phase.crd, NamingVersion(s);
      && t.pos == s.pos <= |t.log| && t.phase.Idle?
      && c.name == crd.name && crd.name in Store(s) && crd.name in View(s)
      && Store(s)[crd.name] == View(s)[crd.name] == crd
      && Store(t) == Store(s)[crd.name := c]
      && View(t) == View(s)[crd.name := c]
      && Pending(t) == Pending(s)
  {
    var t, crd, c := Apply(s, step), s.phase.crd, NamingVersion(s);
    CommittedShape(s, step);
    StoredIsVersion(s.log, crd.name);
    ReplayAppend(s.log, Put(c));
    StoredIsViewed(s, crd);
    CachedView(s, c, t);
    PendingAfter(s, t);
  }

  lemma {:induction false} CommittedGrant(s: State, step: Step)
    requires Inv(s) && CacheLeads(s) && Commits(s, step)
    ensures GrantedOver(s.phase.crd, NamingVersion(s), s.phase.resources, s.phase.kinds)
    ensures !NothingToWrite(s.phase.crd, s.phase.resources, s.phase.kinds)
  {
    CommittedShape(s, step);
    ConditionsAfterNaming(s.phase.crd, s.phase.resources, s.phase.kinds, NamesAccepted);
  }

  /** A clean synchronisation has counted what it sees. */
  lemma {:induction false} CleanCount(s: State)
    requires s.pos <= |s.log| && Clean(s) && s.phase.Gathering? && s.phase.todo == []
    ensures s.phase.resources == ResourcesHeld(View(s), s.phase.crd.spec.group)
    ensures s.phase.kinds == KindsHeld(View(s), s.phase.crd.spec.group)
  {
  }

  /** A write that keeps names leaves the view what it was for naming. */
  lemma {:induction false} ConditionCommitView(m: map<string, CRD>, view: map<string, CRD>, n: string, c: CRD)
    requires n in view && c.accepted == view[n].accepted && c.spec == view[n].spec
    ensures StaleUnder(m, view[n := c]) == StaleUnder(m, view)
  {
    var after := view[n := c];
    assert SameHolders(after, view);
    SameHoldersSameHeld(after, view);
    SameHeldSameStale(m, view, after);
  }

  /** It sets one condition right, or, miscounted, perhaps wrong. */
  lemma {:induction false} ConditionCommit(m: map<string, CRD>, view: map<string, CRD>, n: string, c: CRD, resources: set<string>, kinds: set<string>)
    requires n in m && GrantedOver(m[n], c, resources, kinds) && c.accepted == m[n].accepted
    requires !NothingToWrite(m[n], resources, kinds) && n in view && view[n] == m[n]
    ensures |StaleUnder(m[n := c], view[n := c])| <= |StaleUnder(m, view)| + 1
    ensures resources == ResourcesHeld(view, m[n].spec.group) && kinds == KindsHeld(view, m[n].spec.group) ==>
      |StaleUnder(m[n := c], view[n := c])| < |StaleUnder(m, view)|
    ensures Mismatches(m[n := c]) == Mismatches(m) && m[n := c].Keys == m.Keys
  {
    ConditionCommitView(m[n := c], view, n, c);
    ConditionWriteEffect(m, view, n, c, resources, kinds);
    var before, after := StaleUnder(m, view), StaleUnder(m[n := c], view);
    if NamesCondition(m[n], resources, kinds) == ComputedUnder(m[n], view) {
      assert n in before;
      ProperSubsetIsSmaller(after, before);
    } else {
      SubsetIsNoLarger(after, before + {n});
    }
  }

  lemma {:induction false} NameCommitAhead(s: State, step: Step)
    requires Inv(s) && CacheLeads(s) && Commits(s, step)
    requires NamingVersion(s).accepted != s.phase.crd.accepted
    ensures Apply(s, step).pos <= |Apply(s, step).log| && Ahead(Apply(s, step)) < Ahead(s)
  {
    var m, crd, c := Store(s), s.phase.crd, NamingVersion(s);
    CommittedGrant(s, step);
    CommittedStore(s, step);
    FewerMismatched(m, crd.name, c, s.phase.resources, s.phase.kinds);
  }

  lemma {:induction false} FewerMismatched(m: map<string, CRD>, n: string, c: CRD, resources: set<string>, kinds: set<string>)
    requires n in m && GrantedOver(m[n], c, resources, kinds) && c.accepted != m[n].accepted
    ensures |Mismatches(m[n := c])| < |Mismatches(m)| && m[n := c].Keys == m.Keys
  {
    NameWriteDropsMismatches(m, n, c, resources, kinds);
    ProperSubsetIsSmaller(Mismatches(m[n := c]), Mismatches(m));
  }

  lemma {:induction false} NameCommitWeighs(s: State, step: Step, t: State, size: nat)
    requires Inv(s) && CacheLeads(s) && Commits(s, step) && t == Apply(s, step)
    requires NamingVersion(s).accepted != s.phase.crd.accepted
    requires t.pos <= |t.log| && |Store(t).Keys| <= size
    ensures Weight(t, size) < Weight(s, size)
  {
    NameCommitAhead(s, step);
    StaleAtMostAll(Store(t), View(t));
    AheadDrops(Ahead(t), Ahead(s), |Outdated(t)|, |Outdated(s)|, Clean(t), Clean(s), size);
  }

  lemma {:induction false} ConditionCommitOutdated(s: State, step: Step)
    requires Inv(s) && CacheLeads(s) && Commits(s, step)
    requires NamingVersion(s).accepted == s.phase.crd.accepted
    ensures var t := Apply(s, step);
      && t.pos <= |t.log| && Clean(t)
      && |Outdated(t)| + (if Clean(s) then 1 else -1) <= |Outdated(s)|
      && Ahead(t) == Ahead(s)
  {
    CommittedGrant(s, step);
    CommittedStore(s, step);
    ConditionCommit(Store(s), View(s), s.phase.crd.name, NamingVersion(s), s.phase.resources, s.phase.kinds);
    if Clean(s) {
      CommittedShape(s, step);
      CleanCount(s);
    }
  }

  lemma {:induction false} ConditionCommitWeighs(s: State, step: Step, size: nat)
    requires Inv(s) && CacheLeads(s) && Commits(s, step)
    requires NamingVersion(s).accepted == s.phase.crd.accepted
    ensures Apply(s, step).pos <= |Apply(s, step).log| && Weight(Apply(s, step), size) < Weight(s, size)
  {
    var t := Apply(s, step);
    ConditionCommitOutdated(s, step);
    BoundStays(Ahead(t), Ahead(s), |Outdated(t)|, |Outdated(s)|, Clean(t), Clean(s), size);
  }

  lemma {:induction false} CommitKeepsKeys(s: State, step: Step)
    requires Inv(s) && CacheLeads(s) && Commits(s, step)
    ensures var t := Apply(s, step); t.pos <= |t.log| && Store(t).Keys == Store(s).Keys
  {
    CommittedStore(s, step);
  }

  lemma {:induction false} CommitWeighs(s: State, step: Step, size: nat)
    requires Inv(s) && CacheLeads(s) && Commits(s, step) && |Store(s).Keys| <= size
    ensures var t := Apply(s, step); t.pos <= |t.log| && |Store(t).Keys| <= size && Weight(t, size) < Weight(s, size)
  {
    CommitKeepsKeys(s, step);
    if NamingVersion(s).accepted != s.phase.crd.accepted {
      NameCommitWeighs(s, step, Apply(s, step), size);
    } else {
      ConditionCommitWeighs(s, step, size);
    }
  }

  lemma {:induction false} DeliverStepWeighs(s: State, size: nat)
    requires Inv(s) && CacheLeads(s) && |Store(s).Keys| <= size
    ensures var t := Apply(s, Deliver); t.pos <= |t.log| && |Store(t).Keys| <= size && Weight(t, size) <= Weight(s, size)
  {
    StepKeepsInv(s, Deliver);
    StepKeepsCacheLeads(s, Deliver);
    if s.pos < |s.log| {
      DeliverWeighs(s, Apply(s, Deliver), size);
    }
  }

  /** No step that leaves specs alone adds weight, and each committed naming write takes some away. */
  lemma {:induction false} StepWeighs(s: State, step: Step, size: nat)
    requires Inv(s) && CacheLeads(s) && LeavesSpecs(s, step) && |Store(s).Keys| <= size
    ensures var t := Apply(s, step);
      && t.pos <= |t.log| && |Store(t).Keys| <= size
      && Weight(t, size) <= Weight(s, size)
      && (Commits(s, step) ==> Weight(t, size) < Weight(s, size))
  {
    if Commits(s, step) {
      CommitWeighs(s, step, size);
    } else if step.NamingWrite? {
      UncommittedShape(s, step);
      UncommittedWeighs(s, Apply(s, step), size);
    } else if step.Deliver? {
      DeliverStepWeighs(s, size);
    } else {
      OthersWeigh(s, step, size);
    }
  }

  lemma {:induction false} UncommittedWeighs(s: State, t: State, size: nat)
    requires s.pos <= |s.log| && (t == s || t == s.(phase := Idle))
    ensures Weight(t, size) <= Weight(s, size)
  {
    assert View(t) == View(s) && Pending(t) == Pending(s);
    BoundStays(Ahead(t), Ahead(s), |Outdated(t)|, |Outdated(s)|, Clean(t), Clean(s), size);
  }

  // ------------------------------------------------------------- whole runs

  ghost predicate RunLeavesSpecs(s: State, steps: seq<Step>) {
    steps == [] ||
    var front := steps[..|steps| - 1];
    RunLeavesSpecs(s, front) && LeavesSpecs(Run(s, front), steps[|steps| - 1])
  }

  /** How many naming writes the server commits in a run. */
  ghost function Committed(s: State, steps: seq<Step>): nat {
    if steps == [] then 0
    else
      var front := steps[..|steps| - 1];
      Committed(s, front) + if Commits(Run(s, front), steps[|steps| - 1]) then 1 else 0
  }

  /**
   As long as no CRD is created and no spec is changed, the committed naming writes are
   bounded by what the run starts from: whatever the lister has seen, in whatever order things are
   synchronised and delivered, and whatever the other controllers and the deletions do.
   */
  lemma {:induction false} WritesAreBounded(s: State, steps: seq<Step>, size: nat)
    requires Inv(s) && CacheLeads(s) && RunLeavesSpecs(s, steps) && |Store(s).Keys| <= size
    ensures var t := Run(s, steps);
      t.pos <= |t.log| && |Store(t).Keys| <= size && Committed(s, steps) + Weight(t, size) <= Weight(s, size)
  {
    if steps != [] {
      var front := steps[..|steps| - 1];
      RunKeepsCacheLeads(s, front);
      WritesAreBounded(s, front, size);
      StepWeighs(Run(s, front), steps[|steps| - 1], size);
    }
  }

  lemma {:induction false} ReachableLeads(steps: seq<Step>)
    ensures Inv(Run(INITIAL, steps)) && CacheLeads(Run(INITIAL, steps))
  {
    InitialInv();
    assert CacheLeads(INITIAL);
    RunKeepsCacheLeads(INITIAL, steps);
  }

  /** The bound in plain numbers. */
  function MostWrites(mismatches: nat, crds: nat, pending: nat): nat {
    (mismatches + crds + pending) * (crds + 3) + crds + 2
  }

  lemma {:induction false} BoundInNumbers(mismatches: nat, crds: nat, pending: nat, outdated: nat, clean: bool)
    requires outdated <= crds
    ensures Bound(mismatches + crds + pending, outdated, clean, crds) <= MostWrites(mismatches, crds, pending)
  {
  }

  lemma {:induction false} WeightIs(s: State, weight: nat, mismatches: nat, crds: nat, pending: nat) returns (outdated: nat, clean: bool)
    requires s.pos <= |s.log| && weight == Weight(s, crds)
    requires mismatches == |Mismatches(Store(s))| && crds == |Store(s).Keys| && pending == |Pending(s)|
    ensures outdated <= crds && weight == Bound(mismatches + crds + pending, outdated, clean, crds)
  {
    StaleAtMostAll(Store(s), View(s));
    outdated, clean := |Outdated(s)|, Clean(s);
    assert Ahead(s) == mismatches + crds + pending;
  }

  lemma {:induction false} WeightInNumbers(s: State)
    requires s.pos <= |s.log|
    ensures Weight(s, |Store(s).Keys|) <= MostWrites(|Mismatches(Store(s))|, |Store(s).Keys|, |Pending(s)|)
  {
    var crds := |Store(s).Keys|;
    var weight, mismatches, pending := Weight(s, crds), |Mismatches(Store(s))|, |Pending(s)|;
    var outdated, clean := WeightIs(s, weight, mismatches, crds, pending);
    BoundInNumbers(mismatches, crds, pending, outdated, clean);
  }

  /** From any state that can be reached, naming settles. */
  lemma {:induction false} NamingSettles(before: seq<Step>, steps: seq<Step>)
    requires RunLeavesSpecs(Run(INITIAL, before), steps)
    ensures var s := Run(INITIAL, before);
      s.pos <= |s.log| && Committed(s, steps) <= MostWrites(|Mismatches(Store(s))|, |Store(s).Keys|, |Pending(s)|)
  {
    var s := Run(INITIAL, before);
    ReachableLeads(before);
    WritesAreBounded(s, steps, |Store(s).Keys|);
    WeightInNumbers(s);
  }

  // ------------------------------------------------ caught up: the potential

  /** A write by a controller that is caught up lowers the potential of the store itself. */
  lemma {:induction false} CommitLowersPotential(s: State, step: Step)
    requires Inv(s) && CacheLeads(s) && Commits(s, step) && CaughtUp(s) && Clean(s)
    ensures Potential(Store(Apply(s, step))) < Potential(Store(s))
  {
    CommittedGrant(s, step);
    CommittedStore(s, step);
    CommittedShape(s, step);
    GatheredNamesAreHeld(s);
    WriteLowersPotential(Store(s), s.phase.crd.name, NamingVersion(s), s.phase.resources, s.phase.kinds);
  }

  /** No other step raises it, removals included, and no object is added. */
  lemma {:induction false} OthersKeepPotential(s: State, step: Step)
    requires Inv(s) && LeavesSpecs(s, step) && !Commits(s, step)
    ensures Potential(Store(Apply(s, step))) <= Potential(Store(s))
    ensures Store(Apply(s, step)).Keys <= Store(s).Keys
  {
    if step.NamingWrite? {
      UncommittedShape(s, step);
    } else {
      OthersDisregarded(s, step);
      DisregardedStore(s.log, Apply(s, step).log);
      UndisturbedPotential(Store(s), Store(Apply(s, step)));
    }
  }

  /** Only a removal makes the lister fall behind in what matters. */
  lemma {:induction false} CaughtUpStays(s: State, step: Step)
    requires Inv(s) && CacheLeads(s) && LeavesSpecs(s, step) && CaughtUp(s) && Clean(s)
    requires Store(Apply(s, step)).Keys == Store(s).Keys
    ensures Apply(s, step).pos <= |Apply(s, step).log| && CaughtUp(Apply(s, step)) && Clean(Apply(s, step))
  {
    var t := Apply(s, step);
    if Commits(s, step) {
      CommittedStore(s, step);
    } else if step.NamingWrite? {
      UncommittedShape(s, step);
    } else if step.Deliver? {
      if s.pos < |s.log| {
        assert s.pos !in Pending(s);
        StepKeepsInv(s, step);
        StepKeepsCacheLeads(s, step);
        DeliverPending(s, t);
        DeliverKeepsView(s, t);
        CleanStays(s, t);
      }
    } else {
      OthersDisregarded(s, step);
      OthersStayCaughtUp(s, step);
    }
  }

  lemma {:induction false} OthersStayCaughtUp(s: State, step: Step)
    requires Inv(s) && CacheLeads(s) && CaughtUp(s) && Clean(s) && !step.NamingWrite? && !step.Deliver?
    requires Disregarded(s.log, Apply(s, step).log) && Apply(s, step).cache == s.cache
    requires Store(Apply(s, step)).Keys == Store(s).Keys
    ensures Apply(s, step).pos <= |Apply(s, step).log| && CaughtUp(Apply(s, step)) && Clean(Apply(s, step))
  {
    var t := Apply(s, step);
    assert t.pos == s.pos;
    SameListerAfter(s, t);
    DisregardedStore(s.log, t.log);
    QuietPhases(s, step, t);
    if t.log != s.log {
      PendingAfter(s, t);
    }
  }

  /** From a controller that is caught up, until an object goes, the potential pays for every write. */
  lemma {:induction false} PotentialPaysForWrites(s: State, steps: seq<Step>)
    requires Inv(s) && CacheLeads(s) && RunLeavesSpecs(s, steps) && CaughtUp(s) && Clean(s)
    requires Store(Run(s, steps)).Keys == Store(s).Keys
    ensures var t := Run(s, steps); t.pos <= |t.log| && CaughtUp(t) && Clean(t)
    ensures Committed(s, steps) + Potential(Store(Run(s, steps))) <= Potential(Store(s))
  {
    if steps != [] {
      var front, step := steps[..|steps| - 1], steps[|steps| - 1];
      var mid := Run(s, front);
      RunKeepsCacheLeads(s, front);
      RunAddsNothing(s, front);
      StepAddsNothing(mid, step);
      PotentialPaysForWrites(s, front);
      CaughtUpStays(mid, step);
      if Commits(mid, step) {
        CommitLowersPotential(mid, step);
      } else {
        OthersKeepPotential(mid, step);
      }
    }
  }

  lemma {:induction false} StepAddsNothing(s: State, step: Step)
    requires Inv(s) && CacheLeads(s) && LeavesSpecs(s, step)
    ensures Store(Apply(s, step)).Keys <= Store(s).Keys
  {
    if Commits(s, step) {
      CommittedStore(s, step);
    } else {
      OthersKeepPotential(s, step);
    }
  }

  lemma {:induction false} RunAddsNothing(s: State, steps: seq<Step>)
    requires Inv(s) && CacheLeads(s) && RunLeavesSpecs(s, steps)
    ensures Store(Run(s, steps)).Keys <= Store(s).Keys
  {
    if steps != [] {
      var front := steps[..|steps| - 1];
      RunKeepsCacheLeads(s, front);
      RunAddsNothing(s, front);
      StepAddsNothing(Run(s, front), steps[|steps| - 1]);
    }
  }

  // --------------------------------------------- the controller, caught up

  /** The log after the controller's synchronisation of `n`, on what the machine's lister and cache show. */
  ghost function SyncedLog(s: State, n: string, list: seq<CRD>): seq<Event>
    requires s.pos <= |s.log|
  {
    SyncOutcomeOf(Lister(s), s.cache, {}, s.log, n, list, true).log
  }

  /** The synchronisation, with the names really held put for the names counted as used. */
  lemma {:induction false} SyncedLogIs(s: State, list: seq<CRD>, n: string)
    requires Inv(s) && CacheLeads(s) && CaughtUp(s) && Enumerates(list, Lister(s))
    requires n in Store(s) && n in Lister(s) && Lister(s)[n] == Store(s)[n]
    ensures SyncedLog(s, n, list) == if Settled(Store(s), n) then s.log else StatusUpdate(s.log, Synced(Store(s), n)[n]).0
  {
    UsedNamesAreHeld(s, list, Store(s)[n].spec.group);
  }

  /** A naming write over the stored object is committed as a new version. */
  lemma {:induction false} WriteIsCommitted(s: State, n: string, resources: set<string>, kinds: set<string>)
    requires Inv(s) && n in Store(s) && !NothingToWrite(Store(s)[n], resources, kinds)
    ensures var obj := NamingWriteOf(Store(s)[n], resources, kinds);
      && obj.name == n && StatusUpdate(s.log, obj).0 == s.log + [Put(obj.(rv := |s.log| + 1))]
      && Replay(StatusUpdate(s.log, obj).0) == Store(s)[n := obj.(rv := |s.log| + 1)]
  {
    var obj := NamingWriteOf(Store(s)[n], resources, kinds);
    StoredIsVersion(s.log, n);
    WritesChangeSomething(Store(s)[n], resources, kinds);
    ReplayAppend(s.log, Put(obj.(rv := |s.log| + 1)));
  }

  /**
   A caught-up controller that has the current version of `n` writes exactly when the store
   is not settled for it, and what it writes is the synchronisation computed from the names really held.
   */
  lemma {:induction false} SyncIsSynced(s: State, list: seq<CRD>, n: string)
    requires Inv(s) && CacheLeads(s) && CaughtUp(s) && Enumerates(list, Lister(s))
    requires n in Store(s) && n in Lister(s) && Lister(s)[n] == Store(s)[n]
    ensures SyncedLog(s, n, list) == s.log <==> Settled(Store(s), n)
    ensures Replay(SyncedLog(s, n, list)) ==
      if Settled(Store(s), n) then Store(s) else Store(s)[n := Synced(Store(s), n)[n].(rv := |s.log| + 1)]
  {
    SyncedLogIs(s, list, n);
    if !Settled(Store(s), n) {
      var group := Store(s)[n].spec.group;
      WriteIsCommitted(s, n, ResourcesHeld(Store(s), group), KindsHeld(Store(s), group));
    }
  }

  /** Where a caught-up controller has nothing to write, every refusal is justified. */
  lemma {:induction false} QuietSyncMeansRealRefusals(s: State, list: seq<CRD>, n: string)
    requires Inv(s) && CacheLeads(s) && CaughtUp(s) && Enumerates(list, Lister(s))
    requires n in Store(s) && n in Lister(s) && Lister(s)[n] == Store(s)[n]
    requires SyncedLog(s, n, list) == s.log
    ensures RefusalsAreReal(Store(s), n)
  {
    SyncIsSynced(s, list, n);
    SettledRefusalsAreReal(Store(s), n);
  }
}
