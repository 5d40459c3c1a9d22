/** What holds in every run of the lifecycle. */
module LifecycleTheorems {
  import opened Crds
  import opened Registry
  import opened Naming
  import opened Establishing
  import opened Finalizing
  import opened History
  import opened Lifecycle

  // ------------------------------------------------------------------ names

  /** In every reachable state, on the server and in the lister, no two CRDs of a group share a name. */
  lemma {:induction false} NamesNeverShared(steps: seq<Step>)
    ensures var s := Run(INITIAL, steps);
      s.pos <= |s.log| && NoSharedNames(Store(s)) && NoSharedNames(Lister(s))
  {
    InitialInv();
    RunKeepsInv(INITIAL, steps);
    var s := Run(INITIAL, steps);
    assert s.log[..|s.log|] == s.log;
    assert NoSharedNames(Replay(s.log[..|s.log|]));
  }

  /** Every copy a lister can hold is fit to be served from. */
  lemma {:induction false} ListerCopiesAreServable(steps: seq<Step>, n: string)
    requires var s := Run(INITIAL, steps); s.pos <= |s.log| && n in Lister(s)
    ensures var c := Lister(Run(INITIAL, steps))[n];
      && (FindCondition(c.conditions, NamesAccepted).Some? ==> FindCondition(c.conditions, Established).Some?)
      && (IsTrue(c.conditions, NamesAccepted) || IsTrue(c.conditions, Established) ==>
            c.accepted.plural != "" && c.accepted.singular != "" && c.accepted.kind != "" && c.accepted.listKind != "")
      && (c.deleting && CLEANUP_FINALIZER in c.finalizers ==> IsTrue(c.conditions, Terminating))
  {
    InitialInv();
    RunKeepsInv(INITIAL, steps);
    var s := Run(INITIAL, steps);
    PrefixOk(s.log, s.pos);
    StoredIsVersion(s.log[..s.pos], n);
  }

  // ------------------------------------------------- what one step may change

  predicate ExtendsByOne(log: seq<Event>, l: seq<Event>) {
    l == log || (|l| == |log| + 1 && l[..|log|] == log)
  }

  lemma {:induction false} CreationExtends(log: seq<Event>, obj: CRD)
    ensures ExtendsByOne(log, Creation(log, obj).0)
  {
  }

  lemma {:induction false} MainUpdateExtends(log: seq<Event>, obj: CRD)
    ensures ExtendsByOne(log, MainUpdate(log, obj).0)
  {
  }

  lemma {:induction false} StatusUpdateExtends(log: seq<Event>, obj: CRD)
    ensures ExtendsByOne(log, StatusUpdate(log, obj).0)
  {
  }

  lemma {:induction false} MarkingExtends(log: seq<Event>, name: string)
    ensures ExtendsByOne(log, Marking(log, name).0) && ExtendsByOne(log, Deletion(log, name).0)
  {
  }

  /** A step appends at most one event to the log. */
  lemma {:induction false} StepExtendsLog(s: State, step: Step)
    ensures ExtendsByOne(s.log, Apply(s, step).log)
  {
    if Enabled(s, step) {
      match step
      case Create(obj) => CreationExtends(s.log, obj);
      case UpdateMain(obj) => MainUpdateExtends(s.log, obj);
      case Delete(name) => MarkingExtends(s.log, name);
      case MarkLate(name) => MarkingExtends(s.log, name);
      case NamingWrite(_) => StatusUpdateExtends(s.log, NamingWriteOf(s.phase.crd, s.phase.resources, s.phase.kinds));
      case Establish(copy) => StatusUpdateExtends(s.log, EstablishWriteOf(copy));
      case Announce(copy) => StatusUpdateExtends(s.log, AnnounceWriteOf(copy));
      case Finish(crd, instances) => StatusUpdateExtends(s.log, FinishWriteOf(crd, instances));
      case SetOther(copy, cond) => StatusUpdateExtends(s.log, copy.(conditions := SetCondition(copy.conditions, cond)));
      case RemoveOther(copy, name) =>
        StatusUpdateExtends(s.log, copy.(conditions := RemoveCondition(copy.conditions, OtherCondition(name))));
      case _ =>
    }
  }

  lemma {:induction false} RunExtendsLog(s: State, steps: seq<Step>)
    ensures |s.log| <= |Run(s, steps).log| && Run(s, steps).log[..|s.log|] == s.log
  {
    if steps != [] {
      var mid := Run(s, steps[..|steps| - 1]);
      RunExtendsLog(s, steps[..|steps| - 1]);
      StepExtendsLog(mid, steps[|steps| - 1]);
      var l := Run(s, steps).log;
      assert l[..|mid.log|][..|s.log|] == l[..|s.log|];
    }
  }

  /** The steps that end in a status update. */
  ghost predicate WritesStatus(s: State, step: Step) {
    && Enabled(s, step)
    && match step
       case NamingWrite(admitted) => admitted && !NothingToWrite(s.phase.crd, s.phase.resources, s.phase.kinds)
       case Establish(_) => true
       case Announce(_) => true
       case Finish(_, _) => true
       case SetOther(_, _) => true
       case RemoveOther(_, _) => true
       case _ => false
  }

  /** The copy a status update is made from. */
  ghost function Base(s: State, step: Step): CRD
    requires WritesStatus(s, step)
  {
    match step
    case NamingWrite(_) => s.phase.crd
    case Establish(copy) => copy
    case Announce(copy) => copy
    case Finish(crd, _) => crd
    case SetOther(copy, _) => copy
    case RemoveOther(copy, _) => copy
  }

  /** The object a status update sends. */
  ghost function Target(s: State, step: Step): CRD
    requires WritesStatus(s, step)
  {
    match step
    case NamingWrite(_) => NamingWriteOf(s.phase.crd, s.phase.resources, s.phase.kinds)
    case Establish(copy) => EstablishWriteOf(copy)
    case Announce(copy) => AnnounceWriteOf(copy)
    case Finish(crd, instances) => FinishWriteOf(crd, instances)
    case SetOther(copy, cond) => copy.(conditions := SetCondition(copy.conditions, cond))
    case RemoveOther(copy, name) => copy.(conditions := RemoveCondition(copy.conditions, OtherCondition(name)))
  }

  /** A step that does not write status through a controller touches the log only for users. */
  lemma {:induction false} QuietSteps(s: State, step: Step)
    requires !WritesStatus(s, step) && !step.Create? && !step.UpdateMain? && !step.Delete? && !step.MarkLate?
    ensures Apply(s, step).log == s.log
  {
  }

  lemma {:induction false} StatusStep(s: State, step: Step)
    requires Inv(s) && WritesStatus(s, step)
    ensures Apply(s, step).log == StatusUpdate(s.log, Target(s, step)).0
    ensures IsVersion(s.log, Base(s, step))
    ensures var b, t := Base(s, step), Target(s, step);
      t == b.(accepted := t.accepted, conditions := t.conditions, finalizers := t.finalizers)
  {
  }

  lemma {:induction false} CreateEffect(s: State, obj: CRD, n: string)
    requires n in Store(s)
    ensures var m := Replay(Creation(s.log, obj).0); n in m && m[n] == Store(s)[n]
  {
    var (l, r) := Creation(s.log, obj);
    if r.Written? {
      ReplayAppend(s.log, Put(r.crd));
    }
  }

  /** How an object may differ after a rewrite of the main endpoint. */
  predicate Rewritten(log: seq<Event>, stored: CRD, obj: CRD, m: map<string, CRD>) {
    && obj.name == stored.name && obj.rv == stored.rv
    && (if stored.name in m
        then m[stored.name] == stored.(spec := obj.spec, finalizers := obj.finalizers, rv := |log| + 1)
        else obj.finalizers == [])
  }

  lemma {:induction false} UpdateMainEffect(s: State, obj: CRD, n: string)
    requires Inv(s) && n in Store(s)
    ensures var m := Replay(MainUpdate(s.log, obj).0);
      (n in m && m[n] == Store(s)[n]) || Rewritten(s.log, Store(s)[n], obj, m)
  {
    StoredIsVersion(s.log, n);
    var (l, r) := MainUpdate(s.log, obj);
    if l != s.log {
      ReplayAppend(s.log, l[|s.log|]);
    }
  }

  lemma {:induction false} MarkingEffect(s: State, name: string, n: string)
    requires Inv(s) && n in Store(s)
    ensures var m := Replay(Marking(s.log, name).0);
      n in m && (m[n] == Store(s)[n] || (name == n && m[n] == MarkedForDeletion(Store(s)[n]).(rv := |s.log| + 1)))
  {
    var (l, r) := Marking(s.log, name);
    if l != s.log {
      StoredIsVersion(s.log, name);
      ReplayAppend(s.log, l[|s.log|]);
    }
  }

  /** How an object may differ after a status update of the copy that was the stored object. */
  predicate StatusWritten(log: seq<Event>, stored: CRD, base: CRD, target: CRD, m: map<string, CRD>) {
    && base == stored
    && (if stored.name in m then m[stored.name] == target.(rv := |log| + 1) else target.finalizers == [])
  }

  lemma {:induction false} StatusEffect(s: State, step: Step, n: string)
    requires Inv(s) && WritesStatus(s, step) && n in Store(s)
    ensures var m := Store(Apply(s, step));
      (n in m && m[n] == Store(s)[n]) || StatusWritten(s.log, Store(s)[n], Base(s, step), Target(s, step), m)
  {
    StatusStep(s, step);
    StatusUpdateEffect(s, Base(s, step), Target(s, step), n);
  }

  lemma {:induction false} StatusUpdateEffect(s: State, copy: CRD, obj: CRD, n: string)
    requires Inv(s) && IsVersion(s.log, copy) && n in Store(s)
    requires obj == copy.(accepted := obj.accepted, conditions := obj.conditions, finalizers := obj.finalizers)
    ensures var m := Replay(StatusUpdate(s.log, obj).0);
      (n in m && m[n] == Store(s)[n]) || StatusWritten(s.log, Store(s)[n], copy, obj, m)
  {
    StaleWrite(s, copy, obj);
    var (l, r) := StatusUpdate(s.log, obj);
    if r.Written? && l != s.log {
      StoredIsVersion(s.log, n);
      ReplayAppend(s.log, l[|s.log|]);
    }
  }

  /** What the sent object says about Established and Terminating. */
  lemma {:induction false} TargetConditions(s: State, step: Step)
    requires WritesStatus(s, step)
    ensures var b, t := Base(s, step).conditions, Target(s, step).conditions;
      && (IsTrue(b, Established) ==> IsTrue(t, Established))
      && (!IsTrue(b, Established) && IsTrue(t, Established) ==> IsTrue(b, NamesAccepted))
      && (IsTrue(b, Terminating) && !IsTrue(t, Terminating) ==> step.Finish? && MayDrop(step.crd, step.instances))
  {
    match step
    case NamingWrite(_) =>
      ConditionsAfterNaming(s.phase.crd, s.phase.resources, s.phase.kinds, Established);
      ConditionsAfterNaming(s.phase.crd, s.phase.resources, s.phase.kinds, Terminating);
    case Establish(copy) => SetKeepsOthers(copy.conditions, if copy.spec.badCABundle then INVALID_CA_BUNDLE else ESTABLISHED);
    case Announce(copy) => SetKeepsOthers(copy.conditions, IN_PROGRESS);
    case Finish(crd, instances) => SetKeepsOthers(crd.conditions, OutcomeCondition(crd, instances));
    case SetOther(copy, cond) => SetKeepsOthers(copy.conditions, cond);
    case RemoveOther(copy, name) =>
      RemoveThenFind(copy.conditions, OtherCondition(name), Established);
      RemoveThenFind(copy.conditions, OtherCondition(name), Terminating);
  }

  /** Setting a condition, as seen by the two conditions that matter here. */
  lemma {:induction false} SetKeepsOthers(cs: seq<Condition>, c: Condition)
    ensures IsTrue(SetCondition(cs, c), Established) <==> if c.kind == Established then c.status == StatusTrue else IsTrue(cs, Established)
    ensures IsTrue(SetCondition(cs, c), Terminating) <==> if c.kind == Terminating then c.status == StatusTrue else IsTrue(cs, Terminating)
  {
    SetThenFind(cs, c, Established);
    SetThenFind(cs, c, Terminating);
  }

  /** Only the finalizer's second write drops the cleanup finalizer from the status endpoint. */
  lemma {:induction false} TargetFinalizers(s: State, step: Step)
    requires WritesStatus(s, step) && CLEANUP_FINALIZER in Base(s, step).finalizers
    ensures CLEANUP_FINALIZER in Target(s, step).finalizers || (step.Finish? && MayDrop(step.crd, step.instances))
  {
  }

  // ------------------------------------------------------------ Established

  /**
   Between two stores: an incarnation that is established stays so, and one that becomes
   established had its names accepted in the version that was written over.
   */
  predicate EstablishedGrows(m: map<string, CRD>, m': map<string, CRD>, n: string)
    requires n in m
  {
    HasIncarnation(m', n, m[n].uid) ==>
      && (IsTrue(m[n].conditions, Established) ==> IsTrue(m'[n].conditions, Established))
      && (!IsTrue(m[n].conditions, Established) && IsTrue(m'[n].conditions, Established) ==> IsTrue(m[n].conditions, NamesAccepted))
  }

  lemma {:induction false} StepGrowsEstablished(s: State, step: Step, n: string)
    requires Inv(s) && n in Store(s)
    ensures EstablishedGrows(Store(s), Store(Apply(s, step)), n)
  {
    StoredIsVersion(s.log, n);
    if WritesStatus(s, step) {
      StatusEffect(s, step, n);
      TargetConditions(s, step);
    } else if step.Create? {
      CreateEffect(s, step.obj, n);
    } else if step.UpdateMain? {
      UpdateMainEffect(s, step.obj, n);
    } else if step.Delete? || step.MarkLate? {
      MarkingEffect(s, step.name, n);
      SetThenFind(Store(s)[n].conditions, DELETION_PENDING, Established);
    } else {
      QuietSteps(s, step);
    }
  }

  /** Once established, an object is established for as long as it exists, whatever happens. */
  lemma {:induction false} EstablishedStays(s: State, steps: seq<Step>, n: string)
    requires Inv(s) && n in Store(s) && IsTrue(Store(s)[n].conditions, Established)
    requires HasIncarnation(Store(Run(s, steps)), n, Store(s)[n].uid)
    ensures IsTrue(Store(Run(s, steps))[n].conditions, Established)
  {
    if steps != [] {
      var before, step := steps[..|steps| - 1], steps[|steps| - 1];
      var mid, end := Run(s, before), Run(s, steps);
      RunKeepsInv(s, before);
      RunKeepsInv(s, steps);
      RunExtendsLog(s, before);
      StepExtendsLog(mid, step);
      StoredIsVersion(s.log, n);
      assert end.log[..|mid.log|] == mid.log;
      if !HasIncarnation(Store(mid), n, Store(s)[n].uid) {
        StaysGone(end.log, |mid.log|, n, Store(s)[n].uid);
      }
      EstablishedStays(s, before, n);
      StepGrowsEstablished(mid, step, n);
    }
  }

  lemma {:induction false} EstablishStep(s: State, copy: CRD)
    requires Inv(s) && copy.name in Store(s) && Store(s)[copy.name] == copy && WasListed(s, copy)
    requires IsTrue(copy.conditions, NamesAccepted) && !IsTrue(copy.conditions, Established)
    ensures Apply(s, Establish(copy)).log == StatusUpdate(s.log, EstablishWriteOf(copy)).0
    ensures copy.deleting ==> copy.finalizers != []
  {
    StoredIsVersion(s.log, copy.name);
  }

  /**
   In every reachable state, a sync of the establishing controller that looks at the stored object
   establishes it or says that its CA bundle is invalid, and touches nothing else.
   */
  lemma {:induction false} EstablishingEstablishes(steps: seq<Step>, copy: CRD)
    requires var s := Run(INITIAL, steps);
      && copy.name in Store(s) && Store(s)[copy.name] == copy && WasListed(s, copy)
      && IsTrue(copy.conditions, NamesAccepted) && !IsTrue(copy.conditions, Established)
    ensures var m := Store(Apply(Run(INITIAL, steps), Establish(copy)));
      copy.name in m && EstablishedOrExplained(copy, m[copy.name])
  {
    InitialInv();
    RunKeepsInv(INITIAL, steps);
    EstablishStep(Run(INITIAL, steps), copy);
    WriteEstablishes(Run(INITIAL, steps).log, copy);
  }

  // ----------------------------------------------- what never changes back

  /** Between two versions of an incarnation: what an update may not do to an established or a deleted CRD. */
  predicate KeepsPromises(before: CRD, after: CRD) {
    && after.spec.group == before.spec.group && after.spec.names.plural == before.spec.names.plural
    && (IsTrue(before.conditions, Established) ==>
          after.spec.names.kind == before.spec.names.kind && after.spec.namespaced == before.spec.namespaced)
    && (before.deleting ==> after.deleting)
    && (before.deleting ==> forall f :: f in after.finalizers ==> f in before.finalizers || f == CLEANUP_FINALIZER)
  }

  lemma {:induction false} StepKeepsPromises(s: State, step: Step, n: string)
    requires Inv(s) && n in Store(s)
    ensures var m := Store(Apply(s, step)); HasIncarnation(m, n, Store(s)[n].uid) ==> KeepsPromises(Store(s)[n], m[n])
  {
    StoredIsVersion(s.log, n);
    if WritesStatus(s, step) {
      StatusStep(s, step);
      StatusPromises(s, Base(s, step), Target(s, step), n);
    } else if step.Create? {
      CreateEffect(s, step.obj, n);
    } else if step.UpdateMain? {
      MainPromises(s, step.obj, n);
    } else if step.Delete? || step.MarkLate? {
      MarkingEffect(s, step.name, n);
    } else {
      QuietSteps(s, step);
    }
  }

  lemma {:induction false} StatusPromises(s: State, copy: CRD, obj: CRD, n: string)
    requires Inv(s) && IsVersion(s.log, copy) && n in Store(s)
    requires obj == copy.(accepted := obj.accepted, conditions := obj.conditions, finalizers := obj.finalizers)
    ensures var m := Replay(StatusUpdate(s.log, obj).0); n in m ==> KeepsPromises(Store(s)[n], m[n])
  {
    StoredIsVersion(s.log, n);
    StatusUpdateMeans(s.log, obj);
    StaleWrite(s, copy, obj);
  }

  lemma {:induction false} MainPromises(s: State, obj: CRD, n: string)
    requires Inv(s) && n in Store(s)
    ensures var m := Replay(MainUpdate(s.log, obj).0); n in m ==> KeepsPromises(Store(s)[n], m[n])
  {
    StoredIsVersion(s.log, n);
    MainUpdateMeans(s.log, obj);
    if obj.name in Store(s) {
      StoredIsVersion(s.log, obj.name);
    }
  }

  /**
   In every run, for as long as an incarnation exists: its group and plural are fixed, and its kind and
   scope once it is established; a deletion is never taken back, and then no finalizer but the cleanup one comes in.
   */
  lemma {:induction false} PromisesAreKept(s: State, steps: seq<Step>, n: string)
    requires Inv(s) && n in Store(s) && HasIncarnation(Store(Run(s, steps)), n, Store(s)[n].uid)
    ensures KeepsPromises(Store(s)[n], Store(Run(s, steps))[n])
  {
    if steps != [] {
      var before, step := steps[..|steps| - 1], steps[|steps| - 1];
      var mid, end := Run(s, before), Run(s, steps);
      RunKeepsInv(s, before);
      RunKeepsInv(s, steps);
      RunExtendsLog(s, before);
      StepExtendsLog(mid, step);
      StoredIsVersion(s.log, n);
      assert end.log[..|mid.log|] == mid.log;
      if !HasIncarnation(Store(mid), n, Store(s)[n].uid) {
        StaysGone(end.log, |mid.log|, n, Store(s)[n].uid);
      }
      PromisesAreKept(s, before, n);
      StepKeepsPromises(mid, step, n);
      if IsTrue(Store(s)[n].conditions, Established) {
        EstablishedStays(s, before, n);
      }
    }
  }

  // -------------------------------------------------- the cleanup finalizer

  /** The resource is one the server keeps itself, this version was never established, or its instances were seen to go. */
  ghost predicate DropIsJustified(crd: CRD, st: InstanceStorage) {
    KeptByTheServer(crd.spec.group, crd.spec.names.plural) || !IsTrue(crd.conditions, Established) || SawInstancesGo(st)
  }

  /**
   A deletion held up by the cleanup finalizer is let go by two steps only: a client that
   rewrites the current object through the main endpoint, or the finalizer's second write,
   made over the very version it looked at, and then only if the resource overlaps a
   built-in one, that version was never established, or every instance was cleaned up.
   */
  lemma {:induction false} FinalizerDropIsJustified(s: State, step: Step, n: string)
    requires Inv(s) && n in Store(s) && NeedsFinalizing(Store(s)[n])
    requires var m := Store(Apply(s, step)); !(HasIncarnation(m, n, Store(s)[n].uid) && NeedsFinalizing(m[n]))
    ensures
      || (step.UpdateMain? && step.obj.name == n && step.obj.rv == Store(s)[n].rv && CLEANUP_FINALIZER !in step.obj.finalizers)
      || (step.Finish? && step.crd == Store(s)[n] && DropIsJustified(Store(s)[n], step.instances))
  {
    if step.Finish? {
      DropsOnlyWhenGone(step.crd, step.instances);
    }
    StoredIsVersion(s.log, n);
    if WritesStatus(s, step) {
      StatusEffect(s, step, n);
      StatusStep(s, step);
      TargetFinalizers(s, step);
    } else if step.Create? {
      CreateEffect(s, step.obj, n);
    } else if step.UpdateMain? {
      UpdateMainEffect(s, step.obj, n);
    } else if step.Delete? || step.MarkLate? {
      MarkingEffect(s, step.name, n);
    } else {
      QuietSteps(s, step);
    }
  }

  /** Terminating goes back from True only in a write that drops the cleanup finalizer. */
  lemma {:induction false} TerminatingEndsWithTheFinalizer(s: State, step: Step, n: string)
    requires Inv(s) && n in Store(s) && IsTrue(Store(s)[n].conditions, Terminating)
    requires var m := Store(Apply(s, step)); HasIncarnation(m, n, Store(s)[n].uid) && !IsTrue(m[n].conditions, Terminating)
    ensures step.Finish? && step.crd == Store(s)[n] && DropIsJustified(step.crd, step.instances)
    ensures CLEANUP_FINALIZER in Store(s)[n].finalizers && CLEANUP_FINALIZER !in Store(Apply(s, step))[n].finalizers
  {
    if step.Finish? {
      DropsOnlyWhenGone(step.crd, step.instances);
    }
    StoredIsVersion(s.log, n);
    if WritesStatus(s, step) {
      StatusEffect(s, step, n);
      TargetConditions(s, step);
    } else if step.Create? {
      CreateEffect(s, step.obj, n);
    } else if step.UpdateMain? {
      UpdateMainEffect(s, step.obj, n);
    } else if step.Delete? || step.MarkLate? {
      MarkingEffect(s, step.name, n);
      SetThenFind(Store(s)[n].conditions, DELETION_PENDING, Terminating);
    } else {
      QuietSteps(s, step);
    }
  }

  // --------------------------------- an uninterrupted sync is a run of its steps

  function Gathers(k: nat): (r: seq<Step>)
    ensures |r| == k
  {
    if k == 0 then [] else Gathers(k - 1) + [NamingGather]
  }

  /** The gathering after the first `k` listed items. */
  function GatheredUpTo(s: State, crd: CRD, list: seq<CRD>, k: nat): Phase
    requires s.pos <= |s.log| && k <= |list|
  {
    Gathering(crd, list[k..],
      UsedResources(list[..k], Lister(s), s.cache, crd.spec.group),
      UsedKinds(list[..k], Lister(s), s.cache, crd.spec.group))
  }

  lemma {:induction false} GatherOneMore(s: State, crd: CRD, list: seq<CRD>, k: nat)
    requires s.pos <= |s.log| && k < |list| && s.phase == GatheredUpTo(s, crd, list, k)
    ensures Apply(s, NamingGather) == s.(phase := GatheredUpTo(s, crd, list, k + 1))
  {
    assert list[k..][1..] == list[k + 1..];
    assert list[..k + 1][..k] == list[..k] && list[..k + 1][k] == list[k];
  }

  /** Gathering the first `k` listed items counts exactly their used names. */
  lemma {:induction false} GatherAll(s: State, crd: CRD, list: seq<CRD>, k: nat)
    requires s.pos <= |s.log| && k <= |list| && s.phase == Gathering(crd, list, {}, {})
    ensures Run(s, Gathers(k)) == s.(phase := GatheredUpTo(s, crd, list, k))
  {
    if k > 0 {
      GatherAll(s, crd, list, k - 1);
      assert Gathers(k)[..k - 1] == Gathers(k - 1);
      GatherOneMore(Run(s, Gathers(k - 1)), crd, list, k - 1);
    }
  }

  lemma {:induction false} RunConcat(s: State, a: seq<Step>, b: seq<Step>)
    ensures Run(s, a + b) == Run(Run(s, a), b)
  {
    if b == [] {
      assert a + b == a;
    } else {
      assert (a + b)[..|a + b| - 1] == a + b[..|b| - 1];
      RunConcat(s, a, b[..|b| - 1]);
    }
  }

  function SyncSteps(key: string, list: seq<CRD>, admitted: bool): seq<Step> {
    [NamingFetch(key), NamingList(list)] + Gathers(|list|) + [NamingWrite(admitted)]
  }

  /** The first two steps. */
  lemma {:induction false} HeadSteps(s: State, key: string, list: seq<CRD>)
    ensures Run(s, [NamingFetch(key), NamingList(list)]) == Apply(Apply(s, NamingFetch(key)), NamingList(list))
  {
    var head := [NamingFetch(key), NamingList(list)];
    assert head[..1] == [NamingFetch(key)];
    assert [NamingFetch(key)][..0] == [];
    assert Run(s, [NamingFetch(key)]) == Apply(s, NamingFetch(key));
  }

  /** A run of the sync steps is the head, then the gathering, then the write. */
  lemma {:induction false} SyncStepsSplit(s: State, key: string, list: seq<CRD>, admitted: bool)
    ensures Run(s, SyncSteps(key, list, admitted))
         == Apply(Run(Apply(Apply(s, NamingFetch(key)), NamingList(list)), Gathers(|list|)), NamingWrite(admitted))
  {
    var head := [NamingFetch(key), NamingList(list)];
    var all := SyncSteps(key, list, admitted);
    HeadSteps(s, key, list);
    RunConcat(s, head, Gathers(|list|));
    assert all[..|all| - 1] == head + Gathers(|list|);
  }

  /** The write step on a complete count is the second half of Sync. */
  lemma {:induction false} WriteStep(s: State, crd: CRD, lister: map<string, CRD>, list: seq<CRD>, queue: set<string>, key: string, admitted: bool)
    requires key in lister && lister[key] == crd && crd.spec.names != crd.accepted
    requires s.phase == Gathering(crd, [], UsedResources(list, lister, s.cache, crd.spec.group), UsedKinds(list, lister, s.cache, crd.spec.group))
    ensures var t := Apply(s, NamingWrite(admitted));
      var out := SyncOutcomeOf(lister, s.cache, queue, s.log, key, list, admitted);
      t.log == out.log && t.cache == out.cache
  {
    var resources, kinds := s.phase.resources, s.phase.kinds;
    if !NothingToWrite(crd, resources, kinds) && admitted {
      var (l, r) := StatusUpdate(s.log, NamingWriteOf(crd, resources, kinds));
      assert Apply(s, NamingWrite(admitted)) == NamingWritten(s, admitted);
    }
  }

  /** Gathering the whole list leaves nothing to do and counts all used names. */
  lemma {:induction false} GatherWhole(s: State, crd: CRD, list: seq<CRD>)
    requires s.pos <= |s.log|
    ensures Run(s.(phase := Gathering(crd, list, {}, {})), Gathers(|list|)) == s.(phase := Gathering(crd, [],
      UsedResources(list, Lister(s), s.cache, crd.spec.group),
      UsedKinds(list, Lister(s), s.cache, crd.spec.group)))
  {
    GatherAll(s.(phase := Gathering(crd, list, {}, {})), crd, list, |list|);
    assert list[..|list|] == list && list[|list|..] == [];
  }

  /** Fetching and listing, when there is something to do and when there is not. */
  lemma {:induction false} FetchAndList(s: State, key: string, list: seq<CRD>)
    requires s.pos <= |s.log| && s.phase.Idle? && Enumerates(list, Lister(s))
    ensures Apply(Apply(s, NamingFetch(key)), NamingList(list)) ==
      if key in Lister(s) && Lister(s)[key].spec.names != Lister(s)[key].accepted
      then s.(phase := Gathering(Lister(s)[key], list, {}, {})) else s
  {
  }

  /** The controller's Sync is the machine's steps with nothing in between. */
  lemma {:induction false} SyncIsARun(s: State, key: string, list: seq<CRD>, queue: set<string>, admitted: bool)
    requires s.pos <= |s.log| && s.phase.Idle? && Enumerates(list, Lister(s))
    ensures var t := Run(s, SyncSteps(key, list, admitted));
      var out := SyncOutcomeOf(Lister(s), s.cache, queue, s.log, key, list, admitted);
      t.log == out.log && t.cache == out.cache
  {
    SyncStepsSplit(s, key, list, admitted);
    FetchAndList(s, key, list);
    if key in Lister(s) && Lister(s)[key].spec.names != Lister(s)[key].accepted {
      BusySync(s, Lister(s)[key], key, list, queue, admitted);
    } else {
      IdleGathers(s, |list|);
    }
  }

  lemma {:induction false} BusySync(s: State, crd: CRD, key: string, list: seq<CRD>, queue: set<string>, admitted: bool)
    requires s.pos <= |s.log| && key in Lister(s) && Lister(s)[key] == crd && crd.spec.names != crd.accepted
    ensures var t := Apply(Run(s.(phase := Gathering(crd, list, {}, {})), Gathers(|list|)), NamingWrite(admitted));
      var out := SyncOutcomeOf(Lister(s), s.cache, queue, s.log, key, list, admitted);
      t.log == out.log && t.cache == out.cache
  {
    GatherWhole(s, crd, list);
    var mid := s.(phase := Gathering(crd, [],
      UsedResources(list, Lister(s), s.cache, crd.spec.group),
      UsedKinds(list, Lister(s), s.cache, crd.spec.group)));
    WriteStep(mid, crd, Lister(s), list, queue, key, admitted);
  }

  /** Without a fetched object the remaining steps do nothing. */
  lemma {:induction false} IdleGathers(s: State, k: nat)
    requires s.phase.Idle?
    ensures Run(s, Gathers(k)) == s
  {
    if k > 0 {
      assert Gathers(k)[..k - 1] == Gathers(k - 1);
      IdleGathers(s, k - 1);
    }
  }

  // ------------------------------ the other two controllers, uninterrupted

  /** What the lister holds, it has handed out. */
  lemma {:induction false} ListedNow(s: State, key: string)
    requires Inv(s) && key in Lister(s)
    ensures WasListed(s, Lister(s)[key])
  {
    PrefixOk(s.log, s.pos);
    StoredIsVersion(s.log[..s.pos], key);
  }

  function EstablishingSteps(s: State, key: string, admitted: bool): seq<Step>
    requires s.pos <= |s.log|
  {
    if key in Lister(s) && NeedsEstablishing(Lister(s)[key]) && admitted then [Establish(Lister(s)[key])] else []
  }

  lemma {:induction false} RunOne(s: State, step: Step)
    ensures Run(s, [step]) == Apply(s, step)
  {
    assert [step][..0] == [];
  }

  /** A synchronisation of the establishing controller is the step Establish, or none. */
  lemma {:induction false} EstablishingSyncIsARun(s: State, key: string, admitted: bool)
    requires Inv(s)
    ensures var t := Run(s, EstablishingSteps(s, key, admitted));
      t == s.(log := Establishing.SyncLog(Lister(s), s.log, key, admitted))
  {
    if key in Lister(s) && NeedsEstablishing(Lister(s)[key]) && admitted {
      ListedNow(s, key);
      RunOne(s, Establish(Lister(s)[key]));
    }
  }

  /** The second write goes out when the first one came back, and works on what came back. */
  function FinalizerSteps(s: State, key: string, st: InstanceStorage, first: bool, second: bool): seq<Step>
    requires s.pos <= |s.log|
  {
    if key !in Lister(s) || !NeedsFinalizing(Lister(s)[key]) || !first then []
    else
      var r := StatusUpdate(s.log, AnnounceWriteOf(Lister(s)[key])).1;
      if r.Written? && second then [Announce(Lister(s)[key]), Finish(r.crd, st)] else [Announce(Lister(s)[key])]
  }

  lemma {:induction false} AnnounceStep(s: State, copy: CRD)
    requires Inv(s) && WasListed(s, copy) && NeedsFinalizing(copy)
    ensures var (l, r) := StatusUpdate(s.log, AnnounceWriteOf(copy));
      Apply(s, Announce(copy)) == s.(log := l, announced := if r.Written? then s.announced + {r.crd} else s.announced)
  {
  }

  lemma {:induction false} RunTwo(s: State, first: Step, second: Step)
    ensures Run(s, [first, second]) == Apply(Apply(s, first), second)
  {
    assert [first, second][..1] == [first];
    RunOne(s, first);
  }

  lemma {:induction false} FinishStep(s: State, crd: CRD, st: InstanceStorage)
    requires crd in s.announced
    ensures Apply(s, Finish(crd, st)).log == StatusUpdate(s.log, FinishWriteOf(crd, st)).0
  {
  }

  /** Both writes. */
  lemma {:induction false} AnnounceAndFinish(s: State, copy: CRD, st: InstanceStorage)
    requires Inv(s) && WasListed(s, copy) && NeedsFinalizing(copy)
    requires StatusUpdate(s.log, AnnounceWriteOf(copy)).1.Written?
    ensures var (l, r) := StatusUpdate(s.log, AnnounceWriteOf(copy));
      Run(s, [Announce(copy), Finish(r.crd, st)]).log == StatusUpdate(l, FinishWriteOf(r.crd, st)).0
  {
    var (l, r) := StatusUpdate(s.log, AnnounceWriteOf(copy));
    RunTwo(s, Announce(copy), Finish(r.crd, st));
    AnnounceStep(s, copy);
    FinishStep(Apply(s, Announce(copy)), r.crd, st);
  }

  lemma {:induction false} AnnounceOnly(s: State, copy: CRD)
    requires Inv(s) && WasListed(s, copy) && NeedsFinalizing(copy)
    ensures Run(s, [Announce(copy)]).log == StatusUpdate(s.log, AnnounceWriteOf(copy)).0
  {
    RunOne(s, Announce(copy));
    AnnounceStep(s, copy);
  }

  /** A synchronisation of the finalizer controller is the steps Announce and Finish, as far as it gets. */
  lemma {:induction false} FinalizerSyncIsARun(s: State, key: string, st: InstanceStorage, first: bool, second: bool)
    requires Inv(s)
    ensures Run(s, FinalizerSteps(s, key, st, first, second)).log == Finalizing.SyncLog(Lister(s), s.log, key, st, first, second)
  {
    if key in Lister(s) && NeedsFinalizing(Lister(s)[key]) && first {
      var copy := Lister(s)[key];
      ListedNow(s, key);
      if StatusUpdate(s.log, AnnounceWriteOf(copy)).1.Written? && second {
        AnnounceAndFinish(s, copy, st);
      } else {
        AnnounceOnly(s, copy);
      }
    }
  }
}
