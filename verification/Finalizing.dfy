/**
 The finalizer controller: a first status write that announces the clean-up, the
 deletion of every instance, and a second write that drops the finalizer.
 */
module Finalizing {
  import opened Crds
  import opened Registry

  // ------------------------------------------------------ deleting instances

  /** One answer to a list call: the namespace of each item, or None where the item has no readable metadata. */
  datatype ListReply = ListFailed | Listed(items: seq<Option<string>>)

  /**
   What the instance storage answers during one clean-up: whether a client is found, the
   first list, the namespaces whose delete-collection fails, and the lists polled before
   the time limit.
   */
  datatype InstanceStorage = InstanceStorage(found: bool, first: ListReply, failing: set<string>, polls: seq<ListReply>)

  function NamespacesOf(items: seq<Option<string>>): (r: set<string>) {
    set x | x in items && x.Some? :: x.value
  }

  function Failure(reason: string, text: string): Condition {
    Condition(Terminating, StatusTrue, reason, Text(text))
  }

  const COMPLETED := Condition(Terminating, StatusFalse, "InstanceDeletionCompleted", Text("removed all instances"))

  /** Polling ends well when some reply is an empty list and every reply before it is a non-empty one. */
  predicate PollSeesEmpty(polls: seq<ListReply>) {
    exists k :: 0 <= k < |polls| && polls[k] == Listed([])
      && forall j :: 0 <= j < k ==> polls[j].Listed? && polls[j] != Listed([])
  }

  /** Every instance was asked to go, no request failed, and a later list was empty. */
  predicate CleanedUp(st: InstanceStorage) {
    && st.found
    && st.first.Listed?
    && NamespacesOf(st.first.items) !! st.failing
    && PollSeesEmpty(st.polls)
  }

  /** No two entries are the same. */
  predicate Distinct(s: seq<string>) {
    forall i, j :: 0 <= i < j < |s| ==> s[i] != s[j]
  }

  /** The condition that reports the outcome, failing cases in the order the code meets them. */
  function DeletionCondition(st: InstanceStorage): Condition {
    if !st.found || st.first.ListFailed? then Failure("InstanceDeletionFailed", "could not list instances")
    else if !(NamespacesOf(st.first.items) !! st.failing) then Failure("InstanceDeletionFailed", "could not issue all deletes")
    else if !PollSeesEmpty(st.polls) then Failure("InstanceDeletionCheck", "could not confirm zero CustomResources remaining")
    else COMPLETED
  }

  /** `calls` are the namespaces of the delete-collection requests, in order. */
  method DeleteInstances(st: InstanceStorage) returns (cond: Condition, ok: bool, calls: seq<string>)
    ensures ok <==> CleanedUp(st)
    ensures cond == DeletionCondition(st)
    ensures Distinct(calls)
    ensures st.found && st.first.Listed? ==> (set ns | ns in calls) == NamespacesOf(st.first.items)
    ensures !st.found || st.first.ListFailed? ==> calls == []
  {
    calls := [];
    if !st.found || st.first.ListFailed? {
      return Failure("InstanceDeletionFailed", "could not list instances"), false, calls;
    }
    var items := st.first.items;
    var deleted: set<string> := {};
    var failures: seq<string> := [];
    for i := 0 to |items|
      invariant deleted == NamespacesOf(items[..i])
      invariant deleted == set ns | ns in calls
      invariant Distinct(calls)
      invariant failures == [] <==> deleted !! st.failing
    {
      assert items[..i + 1] == items[..i] + [items[i]];
      if items[i].None? {
        assert NamespacesOf(items[..i + 1]) == NamespacesOf(items[..i]);
        continue;
      }
      var ns := items[i].value;
      assert NamespacesOf(items[..i + 1]) == NamespacesOf(items[..i]) + {ns};
      if ns in deleted {
        continue;
      }
      deleted := deleted + {ns};
      calls := calls + [ns];
      if ns in st.failing {
        failures := failures + [ns];
      }
    }
    assert items[..|items|] == items;
    if failures != [] {
      return Failure("InstanceDeletionFailed", "could not issue all deletes"), false, calls;
    }
    for k := 0 to |st.polls|
      invariant forall j :: 0 <= j < k ==> st.polls[j].Listed? && st.polls[j] != Listed([])
    {
      if st.polls[k].ListFailed? {
        return Failure("InstanceDeletionCheck", "could not confirm zero CustomResources remaining"), false, calls;
      }
      if |st.polls[k].items| == 0 {
        return COMPLETED, true, calls;
      }
    }
    return Failure("InstanceDeletionCheck", "could not confirm zero CustomResources remaining"), false, calls;
  }

  // ------------------------------------------------------------- the writes

  const IN_PROGRESS := Condition(Terminating, StatusTrue, "InstanceDeletionInProgress", Text("CustomResource deletion is in progress"))
  const OVERLAPPING := Condition(Terminating, StatusFalse, "OverlappingBuiltInResource", Text("instances overlap with built-in resources in storage"))
  const NEVER_ESTABLISHED := Condition(Terminating, StatusFalse, "NeverEstablished", Text("resource was never established"))

  predicate Overlaps(spec: Spec) {
    || (spec.group == "apiregistration.k8s.io" && spec.names.plural == "apiservices")
    || (spec.group == "apiextensions.k8s.io" && spec.names.plural == "customresourcedefinitions")
  }

  predicate NeedsFinalizing(crd: CRD) {
    crd.deleting && CLEANUP_FINALIZER in crd.finalizers
  }

  /** The first write: announce that the clean-up runs. */
  function AnnounceWriteOf(crd: CRD): CRD {
    crd.(conditions := SetCondition(crd.conditions, IN_PROGRESS))
  }

  /** The finalizer goes when there is nothing to delete, or when everything was deleted. */
  predicate MayDrop(crd: CRD, st: InstanceStorage) {
    Overlaps(crd.spec) || !IsTrue(crd.conditions, Established) || CleanedUp(st)
  }

  function OutcomeCondition(crd: CRD, st: InstanceStorage): Condition {
    if Overlaps(crd.spec) then OVERLAPPING
    else if IsTrue(crd.conditions, Established) then DeletionCondition(st)
    else NEVER_ESTABLISHED
  }

  /** The second write, on the object the first write returned. */
  function FinishWriteOf(crd: CRD, st: InstanceStorage): CRD {
    crd.(conditions := SetCondition(crd.conditions, OutcomeCondition(crd, st)),
         finalizers := if MayDrop(crd, st) then RemoveFinalizer(crd.finalizers, CLEANUP_FINALIZER) else crd.finalizers)
  }

  /** The log after one uninterrupted synchronisation; `first` and `second` say whether the two writes are admitted. */
  function SyncLog(lister: map<string, CRD>, log: seq<Event>, key: string, st: InstanceStorage, first: bool, second: bool): seq<Event> {
    if key !in lister || !NeedsFinalizing(lister[key]) || !first then log
    else
      var (l, r) := StatusUpdate(log, AnnounceWriteOf(lister[key]));
      if !r.Written? || !second then l else StatusUpdate(l, FinishWriteOf(r.crd, st)).0
  }

  // ------------------------------------------------- when it lets go

  /** The two resources whose objects the API server itself keeps. */
  predicate KeptByTheServer(group: string, plural: string) {
    (group, plural) in {("apiregistration.k8s.io", "apiservices"), ("apiextensions.k8s.io", "customresourcedefinitions")}
  }

  /** The list of instances was read, no deletion in any of its namespaces failed, and a later list came back empty. */
  ghost predicate SawInstancesGo(st: InstanceStorage) {
    && st.found && st.first.Listed?
    && (forall ns :: Some(ns) in st.first.items ==> ns !in st.failing)
    && exists k :: 0 <= k < |st.polls| && st.polls[k] == Listed([])
         && forall j :: 0 <= j < k ==> st.polls[j].Listed?
  }

  lemma {:induction false} DropsOnlyWhenGone(crd: CRD, st: InstanceStorage)
    ensures MayDrop(crd, st) <==>
      KeptByTheServer(crd.spec.group, crd.spec.names.plural) || !IsTrue(crd.conditions, Established) || SawInstancesGo(st)
  {
    FirstEmptyPoll(st.polls);
    if st.first.Listed? {
      assert NamespacesOf(st.first.items) !! st.failing <==> forall ns :: Some(ns) in st.first.items ==> ns !in st.failing by {
        forall ns
          ensures ns in NamespacesOf(st.first.items) <==> Some(ns) in st.first.items
        {
        }
      }
    }
  }

  /** Up to an empty list it makes no difference whether the lists before were empty too. */
  lemma {:induction false} FirstEmptyPoll(polls: seq<ListReply>)
    ensures PollSeesEmpty(polls) <==> exists k :: 0 <= k < |polls| && polls[k] == Listed([]) && forall j :: 0 <= j < k ==> polls[j].Listed?
  {
    if k: int :| 0 <= k < |polls| && polls[k] == Listed([]) && forall j :: 0 <= j < k ==> polls[j].Listed? {
      EarliestEmptyPoll(polls, k);
    }
  }

  lemma {:induction false} EarliestEmptyPoll(polls: seq<ListReply>, k: nat)
    requires k < |polls| && polls[k] == Listed([]) && forall j :: 0 <= j < k ==> polls[j].Listed?
    ensures PollSeesEmpty(polls)
  {
    if j :| 0 <= j < k && polls[j] == Listed([]) {
      EarliestEmptyPoll(polls, j);
    }
  }

  ghost predicate HasReason(crd: CRD, status: Status, reasons: set<string>) {
    exists c :: FindCondition(crd.conditions, Terminating) == Some(c) && c.status == status && c.reason in reasons
  }

  /** What is left of an object whose finalizer went: nothing, or the object with its other finalizers. */
  ghost predicate LetGo(before: CRD, m: map<string, CRD>) {
    if before.name in m then
      var after := m[before.name];
      && CLEANUP_FINALIZER !in after.finalizers
      && (forall f :: f != CLEANUP_FINALIZER ==> (f in after.finalizers <==> f in before.finalizers))
      && after.uid == before.uid && after.spec == before.spec && after.accepted == before.accepted
      && HasReason(after, StatusFalse, {"OverlappingBuiltInResource", "NeverEstablished", "InstanceDeletionCompleted"})
    else forall f :: f in before.finalizers ==> f == CLEANUP_FINALIZER
  }

  /** An object that is held back as it was, except that Terminating says why. */
  ghost predicate HeldBack(before: CRD, m: map<string, CRD>, reasons: set<string>) {
    && before.name in m
    && var after := m[before.name];
       && after.finalizers == before.finalizers
       && after.uid == before.uid && after.spec == before.spec && after.accepted == before.accepted
       && HasReason(after, StatusTrue, reasons)
  }

  /** The first write, from the stored object. */
  lemma {:induction false} AnnounceIsWritten(log: seq<Event>, crd: CRD)
    requires crd.name in Replay(log) && Replay(log)[crd.name] == crd && NeedsFinalizing(crd)
    ensures var (l, r) := StatusUpdate(log, AnnounceWriteOf(crd));
      && r.Written? && crd.name in Replay(l) && Replay(l)[crd.name] == r.crd
      && r.crd == AnnounceWriteOf(crd).(rv := r.crd.rv)
      && HeldBack(crd, Replay(l), {"InstanceDeletionInProgress"})
      && (forall t :: t != Terminating ==> FindCondition(r.crd.conditions, t) == FindCondition(crd.conditions, t))
  {
    var (l, r) := StatusUpdate(log, AnnounceWriteOf(crd));
    forall t {
      SetThenFind(crd.conditions, IN_PROGRESS, t);
    }
    if l != log {
      ReplayAppend(log, l[|log|]);
    }
  }

  lemma {:induction false} FinishLetsGo(log: seq<Event>, crd: CRD, st: InstanceStorage)
    requires crd.name in Replay(log) && Replay(log)[crd.name] == crd && NeedsFinalizing(crd) && MayDrop(crd, st)
    ensures var (l, r) := StatusUpdate(log, FinishWriteOf(crd, st)); r.Written? && LetGo(crd, Replay(l))
  {
    var (l, r) := StatusUpdate(log, FinishWriteOf(crd, st));
    SetThenFind(crd.conditions, OutcomeCondition(crd, st), Terminating);
    assert FinishWriteOf(crd, st).finalizers != crd.finalizers;
    ReplayAppend(log, l[|log|]);
  }

  lemma {:induction false} FinishHoldsBack(log: seq<Event>, crd: CRD, st: InstanceStorage)
    requires crd.name in Replay(log) && Replay(log)[crd.name] == crd && NeedsFinalizing(crd) && !MayDrop(crd, st)
    ensures var (l, r) := StatusUpdate(log, FinishWriteOf(crd, st));
      r.Written? && HeldBack(crd, Replay(l), {"InstanceDeletionFailed", "InstanceDeletionCheck"})
  {
    var (l, r) := StatusUpdate(log, FinishWriteOf(crd, st));
    SetThenFind(crd.conditions, OutcomeCondition(crd, st), Terminating);
    if l != log {
      ReplayAppend(log, l[|log|]);
    } else {
      assert FinishWriteOf(crd, st) == crd;
    }
  }

  /** The second write, from what the first one returned. */
  lemma {:induction false} FinishIsWritten(log: seq<Event>, crd: CRD, st: InstanceStorage)
    requires crd.name in Replay(log) && Replay(log)[crd.name] == crd && NeedsFinalizing(crd)
    ensures var (l, r) := StatusUpdate(log, FinishWriteOf(crd, st));
      && r.Written?
      && (MayDrop(crd, st) ==> LetGo(crd, Replay(l)))
      && (!MayDrop(crd, st) ==> HeldBack(crd, Replay(l), {"InstanceDeletionFailed", "InstanceDeletionCheck"}))
  {
    if MayDrop(crd, st) {
      FinishLetsGo(log, crd, st);
    } else {
      FinishHoldsBack(log, crd, st);
    }
  }

  /** The reason that the second write gives under Terminating, which is False exactly when the finalizer goes. */
  lemma {:induction false} OutcomeReads(crd: CRD, st: InstanceStorage)
    ensures var c := OutcomeCondition(crd, st);
      && c.kind == Terminating && (c.status == StatusFalse <==> MayDrop(crd, st)) && (c.status == StatusTrue <==> !MayDrop(crd, st))
      && c.reason ==
           (if KeptByTheServer(crd.spec.group, crd.spec.names.plural) then "OverlappingBuiltInResource"
            else if !IsTrue(crd.conditions, Established) then "NeverEstablished"
            else if SawInstancesGo(st) then "InstanceDeletionCompleted"
            else if st.found && st.first.Listed? && forall ns :: Some(ns) in st.first.items ==> ns !in st.failing then "InstanceDeletionCheck"
            else "InstanceDeletionFailed")
  {
    DropsOnlyWhenGone(crd, st);
    FirstEmptyPoll(st.polls);
    if st.first.Listed? {
      forall ns
        ensures ns in NamespacesOf(st.first.items) <==> Some(ns) in st.first.items
      {
      }
    }
  }

  lemma {:induction false} CallsAreNamespaces(st: InstanceStorage, calls: seq<string>)
    requires st.found && st.first.Listed? ==> (set ns | ns in calls) == NamespacesOf(st.first.items)
    ensures st.found && st.first.Listed? ==> forall ns :: ns in calls <==> Some(ns) in st.first.items
  {
    if st.found && st.first.Listed? {
      forall ns
        ensures ns in NamespacesOf(st.first.items) <==> Some(ns) in st.first.items
        ensures ns in calls <==> ns in set n | n in calls
      {
      }
    }
  }

  /** Both writes from the stored object, as far as they are let through. */
  lemma {:induction false} CleanUpOutcome(log: seq<Event>, crd: CRD, st: InstanceStorage, second: bool)
    requires crd.name in Replay(log) && Replay(log)[crd.name] == crd && NeedsFinalizing(crd)
    ensures var (l, r) := StatusUpdate(log, AnnounceWriteOf(crd));
      && r.Written? && r.crd.spec == crd.spec && (IsTrue(r.crd.conditions, Established) <==> IsTrue(crd.conditions, Established))
      && var (m, q) := if second then StatusUpdate(l, FinishWriteOf(r.crd, st)) else (l, r);
         var untouched := KeptByTheServer(crd.spec.group, crd.spec.names.plural) || !IsTrue(crd.conditions, Established);
         && q.Written?
         && (!second ==> HeldBack(crd, Replay(m), {"InstanceDeletionInProgress"}))
         && (second && (untouched || SawInstancesGo(st)) ==> LetGo(crd, Replay(m)))
         && (second && !untouched && !SawInstancesGo(st) ==> HeldBack(crd, Replay(m), {"InstanceDeletionFailed", "InstanceDeletionCheck"}))
  {
    AnnounceIsWritten(log, crd);
    var (l, r) := StatusUpdate(log, AnnounceWriteOf(crd));
    FinishIsWritten(l, r.crd, st);
    DropsOnlyWhenGone(r.crd, st);
  }

  class FinalizerController {
    var lister: map<string, CRD>

    constructor ()
      ensures lister == map[]
    {
      lister := map[];
    }

    /**
     `calls` are the namespaces of the delete-collection requests. A CRD that is deleted and still held by
     the cleanup finalizer, looked at as it is stored, is let go exactly when it is one of the two resources the
     server keeps itself, was never established, or its instances were seen to go; only in the last case are
     instances deleted at all, by one request for each namespace that holds any.
     */
    method Sync(key: string, server: ApiServer, st: InstanceStorage, first: bool, second: bool) returns (ok: bool, calls: seq<string>)
      modifies server
      ensures server.log == SyncLog(lister, old(server.log), key, st, first, second)
      ensures key !in lister || !lister[key].deleting || CLEANUP_FINALIZER !in lister[key].finalizers ==>
        server.log == old(server.log) && ok && calls == []
      ensures !first ==> server.log == old(server.log) && calls == []
      ensures Distinct(calls)
      ensures
        && key in lister && lister[key].name == key && lister[key].deleting && CLEANUP_FINALIZER in lister[key].finalizers
        && key in Replay(old(server.log)) && Replay(old(server.log))[key] == lister[key] && first
        ==>
        var crd := lister[key];
        var untouched := KeptByTheServer(crd.spec.group, crd.spec.names.plural) || !IsTrue(crd.conditions, Established);
        && (untouched || !st.found || st.first.ListFailed? ==> calls == [])
        && (!untouched && st.found && st.first.Listed? ==> forall ns :: ns in calls <==> Some(ns) in st.first.items)
        && (!second ==> HeldBack(crd, Replay(server.log), {"InstanceDeletionInProgress"}) && !ok)
        && (second && (untouched || SawInstancesGo(st)) ==> LetGo(crd, Replay(server.log)) && ok)
        && (second && !untouched && !SawInstancesGo(st) ==>
              HeldBack(crd, Replay(server.log), {"InstanceDeletionFailed", "InstanceDeletionCheck"}) && !ok)
    {
      calls := [];
      if key !in lister {
        return true, calls;
      }
      var cached := lister[key];
      if !cached.deleting || CLEANUP_FINALIZER !in cached.finalizers {
        return true, calls;
      }
      ghost var log := server.log;
      var copy := new CrdObject(cached);
      copy.SetCRDCondition(IN_PROGRESS);
      var r := server.UpdateStatus(copy.crd, first);
      if r.NotFound? || r.Conflict? {
        return true, calls;
      }
      if r.Rejected? {
        return false, calls;
      }
      ok, calls := CleanUp(r.crd, server, st, second);
      if key in Replay(log) && Replay(log)[key] == cached && cached.name == key {
        CleanUpOutcome(log, cached, st, second);
      }
    }

    /** Everything after the first write, which returned `crd`. */
    method CleanUp(crd: CRD, server: ApiServer, st: InstanceStorage, second: bool) returns (ok: bool, calls: seq<string>)
      modifies server
      ensures server.log == if second then StatusUpdate(old(server.log), FinishWriteOf(crd, st)).0 else old(server.log)
      ensures Distinct(calls)
      ensures
        var untouched := KeptByTheServer(crd.spec.group, crd.spec.names.plural) || !IsTrue(crd.conditions, Established);
        && (untouched || !st.found || st.first.ListFailed? ==> calls == [])
        && (!untouched && st.found && st.first.Listed? ==> forall ns :: ns in calls <==> Some(ns) in st.first.items)
        && (ok <==> (untouched || SawInstancesGo(st)) && second && !StatusUpdate(old(server.log), FinishWriteOf(crd, st)).1.Rejected?)
    {
      calls := [];
      DropsOnlyWhenGone(crd, st);
      var copy := new CrdObject(crd);
      if Overlaps(copy.crd.spec) {
        copy.SetCRDCondition(OVERLAPPING);
      } else if IsTrue(copy.crd.conditions, Established) {
        var cond, cleaned, namespaces := DeleteInstances(st);
        calls := namespaces;
        CallsAreNamespaces(st, calls);
        copy.SetCRDCondition(cond);
        if !cleaned {
          var _ := server.UpdateStatus(copy.crd, second);
          return false, calls;
        }
      } else {
        copy.SetCRDCondition(NEVER_ESTABLISHED);
      }
      copy.CRDRemoveFinalizer(CLEANUP_FINALIZER);
      var r2 := server.UpdateStatus(copy.crd, second);
      return !r2.Rejected?, calls;
    }
  }
}
