/**
 The naming controller with its work queue, on top of the lifecycle machine. Every delivered
 event queues its object. A synchronisation that finds its key gone, or whose write was committed, goes on to queue
 the other listed CRDs of the group one by one; one that fails puts its own key back.

 The result: a CRD whose names or NamesAccepted the controller would now decide otherwise is never
 forgotten. It is due: queued, in work, about to be queued by an undelivered event, by the
 requeueing under way, or by the synchronisation of another CRD of its group that is itself still due.
 */
module NamingQueue {
  import opened Crds
  import opened Registry
  import opened Naming
  import opened Finalizing
  import opened History
  import opened Lifecycle
  import opened LifecycleTheorems
  import opened MutationCache
  import opened NamingTermination
  import opened NamingRuns
  import opened NamingDebts

  /** The key whose group is queued again, and the listed CRDs not looked at yet, once they are listed. */
  datatype Requeue = Requeue(key: string, todo: Option<seq<CRD>>)

  datatype QState = QState(s: State, queue: set<string>, requeue: Option<Requeue>)

  const QINITIAL := QState(INITIAL, {}, None)

  datatype QStep =
    | Elsewhere(step: Step)
    | Arrive
    | Take(key: string)
    | ListNames(list: seq<CRD>)
    | Look
    | Decide(admitted: bool)
    | ListOthers(list: seq<CRD>)
    | QueueOne

  /** The steps of the lifecycle machine that the queue has no part in. */
  predicate IsElsewhere(step: Step) {
    !step.Deliver? && !step.NamingFetch? && !step.NamingList? && !step.NamingGather? && !step.NamingWrite?
  }

  ghost predicate QEnabled(q: QState, step: QStep) {
    && q.s.pos <= |q.s.log|
    && match step
       case Elsewhere(step) => IsElsewhere(step)
       case Arrive => q.s.pos < |q.s.log|
       case Take(key) => key in q.queue && q.s.phase.Idle? && q.requeue.None?
       case ListNames(list) => q.s.phase.Fetched? && Enumerates(list, Lister(q.s))
       case Look => q.s.phase.Gathering? && q.s.phase.todo != []
       case Decide(_) => q.s.phase.Gathering? && q.s.phase.todo == []
       case ListOthers(list) => q.requeue.Some? && q.requeue.value.todo.None? && Enumerates(list, Lister(q.s))
       case QueueOne => q.requeue.Some? && q.requeue.value.todo.Some?
  }

  /** The end of a synchronisation that looked at a listed CRD. */
  function Decided(q: QState, admitted: bool): QState
    requires q.s.phase.Gathering?
  {
    var ph, t := q.s.phase, NamingWritten(q.s, admitted);
    if NothingToWrite(ph.crd, ph.resources, ph.kinds) then q.(s := t)
    else if !admitted then q.(s := t, queue := q.queue + {ph.crd.name})
    else match StatusUpdate(q.s.log, NamingWriteOf(ph.crd, ph.resources, ph.kinds)).1
      case Written(_) => q.(s := t, requeue := Some(Requeue(ph.crd.name, None)))
      case Rejected => q.(s := t, queue := q.queue + {ph.crd.name})
      case _ => q.(s := t)
  }

  /** The next listed CRD is queued if it is another one of the group; at the end the worker is free. */
  function QueuedOne(q: QState): QState
    requires q.requeue.Some? && q.requeue.value.todo.Some?
  {
    var key, todo := q.requeue.value.key, q.requeue.value.todo.value;
    if todo == [] then q.(requeue := None)
    else
      var curr := todo[0];
      q.(requeue := Some(Requeue(key, Some(todo[1..]))),
         queue := q.queue + if curr.name != key && GroupOfName(key) == Some(curr.spec.group) then {curr.name} else {})
  }

  ghost function QApply(q: QState, step: QStep): QState {
    if !QEnabled(q, step) then q
    else match step
      case Elsewhere(step) => q.(s := Apply(q.s, step))
      case Arrive => q.(s := Apply(q.s, Deliver), queue := q.queue + {NameOf(q.s.log[q.s.pos])})
      case Take(key) =>
        QState(Apply(q.s, NamingFetch(key)), q.queue - {key}, if key in Lister(q.s) then None else Some(Requeue(key, None)))
      case ListNames(list) => q.(s := Apply(q.s, NamingList(list)))
      case Look => q.(s := Apply(q.s, NamingGather))
      case Decide(admitted) => Decided(q, admitted)
      case ListOthers(list) => q.(requeue := Some(Requeue(q.requeue.value.key, Some(list))))
      case QueueOne => QueuedOne(q)
  }

  ghost function QRun(q: QState, steps: seq<QStep>): QState {
    if steps == [] then q else QApply(QRun(q, steps[..|steps| - 1]), steps[|steps| - 1])
  }

  // ---------------------------------------------------------- the invariant

  predicate InWork(q: QState, n: string) {
    !q.s.phase.Idle? && q.s.phase.crd.name == n
  }

  /** The requeueing under way will come to `n`, a CRD of this group. */
  ghost predicate Covered(q: QState, n: string, group: string) {
    && q.requeue.Some? && q.requeue.value.key != n && IsNameIn(q.requeue.value.key, group)
    && (q.requeue.value.todo.None? || exists c :: c in q.requeue.value.todo.value && c.name == n)
  }

  /**
   A synchronisation of `k` is still to come that will queue its group: `k` is gone and queued, or its removal
   is on its way, or it has never been named and will be written.
   */
  predicate Debtor(q: QState, k: string)
    requires q.s.pos <= |q.s.log|
  {
    || (k !in Lister(q.s) && k in q.queue)
    || RemovalUndelivered(q.s, k)
    || (k in Lister(q.s) && k in Store(q.s) && Lister(q.s)[k].uid == Store(q.s)[k].uid && Unnamed(Store(q.s)[k]))
  }

  ghost predicate Debt(q: QState, group: string)
    requires q.s.pos <= |q.s.log|
  {
    exists k :: IsNameIn(k, group) && Debtor(q, k)
  }

  ghost predicate Due(q: QState, n: string, group: string)
    requires q.s.pos <= |q.s.log|
  {
    n in q.queue || InWork(q, n) || Undelivered(q.s, n) || Covered(q, n, group) || Debt(q, group)
  }

  /** On what it sees now, a synchronisation of `n` would write. */
  ghost predicate WouldWrite(s: State, n: string)
    requires s.pos <= |s.log| && n in Lister(s)
  {
    var crd := Lister(s)[n];
    crd.spec.names != crd.accepted
    && !NothingToWrite(crd, ResourcesHeld(View(s), crd.spec.group), KindsHeld(View(s), crd.spec.group))
  }

  ghost predicate NothingForgotten(q: QState)
    requires q.s.pos <= |q.s.log|
  {
    forall n :: n in Lister(q.s) && WouldWrite(q.s, n) ==> Due(q, n, Lister(q.s)[n].spec.group)
  }

  /** The synchronisation under way counts what can be seen, or will be made up for; and it works on the listed copy, or again. */
  ghost predicate WorkOk(q: QState)
    requires q.s.pos <= |q.s.log|
  {
    !q.s.phase.Idle? ==>
      var crd := q.s.phase.crd;
      && (crd.name in q.queue || (crd.name in Lister(q.s) && Lister(q.s)[crd.name] == crd))
      && (q.s.phase.Gathering? ==> Clean(q.s) || Debt(q, crd.spec.group))
  }

  /** CRDs that were never named are on their way to it, and those the lister has not seen were not. */
  predicate UnnamedOk(q: QState) {
    && (forall k :: k in Store(q.s) && Unnamed(Store(q.s)[k]) ==> k in q.queue || InWork(q, k) || Undelivered(q.s, k))
    && (forall k :: k in Store(q.s) && Store(q.s)[k].uid > q.s.pos ==> Unnamed(Store(q.s)[k]))
  }

  predicate RequeueOk(q: QState) {
    q.requeue.Some? ==>
      && q.s.phase.Idle?
      && (q.requeue.value.todo.Some? ==> forall c :: c in q.requeue.value.todo.value ==> IsVersion(q.s.log, c))
  }

  ghost predicate BaseOk(s: State) {
    Inv(s) && CacheLeads(s) && LogNamed(s.log)
  }

  ghost predicate QInv(q: QState) {
    BaseOk(q.s) && NothingForgotten(q) && WorkOk(q) && UnnamedOk(q) && RequeueOk(q)
  }

  lemma {:induction false} BaseStep(s: State, step: Step)
    requires BaseOk(s)
    ensures BaseOk(Apply(s, step))
  {
    StepKeepsInv(s, step);
    StepKeepsCacheLeads(s, step);
    StepKeepsNamed(s, step);
  }

  // --------------------------------------------------- steps elsewhere

  /** The server may have one event more, which leaves every CRD's NamesAccepted alone. */
  ghost predicate Extends(s: State, t: State) {
    && t.pos == s.pos <= |s.log| && t.cache == s.cache && t.phase == s.phase
    && (t.log == s.log || (|t.log| == |s.log| + 1 && t.log[..|s.log|] == s.log))
    && forall k :: k in Store(t) ==>
         if HasIncarnation(Store(s), k, Store(t)[k].uid) then Unnamed(Store(t)[k]) <==> Unnamed(Store(s)[k])
         else Unnamed(Store(t)[k]) && NameOf(t.log[|t.log| - 1]) == k && t.log != s.log
  }

  /** One event more: a removal, or a version with the NamesAccepted of the one before. */
  predicate KeepsNamesAccepted(log: seq<Event>, l: seq<Event>) {
    || l == log
    || (&& |l| == |log| + 1 && l[..|log|] == log
        && match l[|log|]
           case Del(n) => n in Replay(log)
           case Put(c) =>
             && c.name in Replay(log) && c.uid == Replay(log)[c.name].uid
             && FindCondition(c.conditions, NamesAccepted) == FindCondition(Replay(log)[c.name].conditions, NamesAccepted))
  }

  lemma {:induction false} CommitKeepsNamesAccepted(log: seq<Event>, obj: CRD)
    requires obj.name in Replay(log) && obj.uid == Replay(log)[obj.name].uid
    requires FindCondition(obj.conditions, NamesAccepted) == FindCondition(Replay(log)[obj.name].conditions, NamesAccepted)
    ensures KeepsNamesAccepted(log, Commit(log, Replay(log)[obj.name], obj).0)
  {
  }

  lemma {:induction false} UsersKeepNamesAccepted(s: State, step: Step)
    requires Inv(s) && (step.UpdateMain? || step.Delete? || step.MarkLate?)
    ensures KeepsNamesAccepted(s.log, Apply(s, step).log)
  {
    if step.UpdateMain? {
      if step.obj.name in Store(s) {
        var obj, stored := step.obj, Store(s)[step.obj.name];
        StoredIsVersion(s.log, obj.name);
        CommitKeepsNamesAccepted(s.log,
          obj.(accepted := stored.accepted, conditions := stored.conditions, uid := stored.uid, deleting := stored.deleting));
      }
    } else if step.name in Store(s) {
      var stored := Store(s)[step.name];
      StoredIsVersion(s.log, step.name);
      SetThenFind(stored.conditions, DELETION_PENDING, NamesAccepted);
      CommitKeepsNamesAccepted(s.log, MarkedForDeletion(stored));
    }
  }

  lemma {:induction false} StatusKeepsNamesAccepted(s: State, step: Step)
    requires Inv(s) && WritesStatus(s, step) && IsElsewhere(step)
    ensures KeepsNamesAccepted(s.log, Apply(s, step).log)
  {
    var base, target := Base(s, step), Target(s, step);
    StatusStep(s, step);
    TargetSameNaming(s, step);
    StaleWrite(s, base, target);
    if base.name in Store(s) && Store(s)[base.name] == base {
      CommitKeepsNamesAccepted(s.log, target);
    }
  }

  lemma {:induction false} LogExtends(s: State, t: State)
    requires LogOk(s.log) && t.pos == s.pos <= |s.log| && t.cache == s.cache && t.phase == s.phase
    requires KeepsNamesAccepted(s.log, t.log)
    ensures Extends(s, t)
  {
    if t.log != s.log {
      assert t.log == s.log + [t.log[|s.log|]];
      ReplayAppend(s.log, t.log[|s.log|]);
    }
  }

  lemma {:induction false} CreatedExtends(s: State, obj: CRD)
    requires LogOk(s.log) && s.pos <= |s.log|
    ensures Extends(s, s.(log := Creation(s.log, obj).0))
  {
    var t := s.(log := Creation(s.log, obj).0);
    if t.log != s.log {
      ReplayAppend(s.log, t.log[|s.log|]);
      forall k | k in Store(t) && k != obj.name
        ensures k in Store(s) && Store(t)[k] == Store(s)[k]
      {
      }
    }
  }

  lemma {:induction false} ElsewhereExtends(s: State, step: Step)
    requires Inv(s) && IsElsewhere(step)
    ensures Extends(s, Apply(s, step))
  {
    if step.Create? {
      CreatedExtends(s, step.obj);
    } else {
      if WritesStatus(s, step) {
        StatusKeepsNamesAccepted(s, step);
      } else if step.UpdateMain? || step.Delete? || step.MarkLate? {
        UsersKeepNamesAccepted(s, step);
      } else {
        QuietSteps(s, step);
      }
      LogExtends(s, Apply(s, step));
    }
  }

  /** What is on its way stays on its way when the server gets one event more. */
  lemma {:induction false} UndeliveredStays(s: State, t: State, n: string)
    requires t.pos == s.pos && |s.log| <= |t.log| && t.log[..|s.log|] == s.log
    ensures Undelivered(s, n) ==> Undelivered(t, n)
    ensures RemovalUndelivered(s, n) ==> RemovalUndelivered(t, n)
  {
    if Undelivered(s, n) {
      var i :| s.pos <= i < |s.log| && NameOf(s.log[i]) == n;
      assert t.log[i] == s.log[i];
    }
    if RemovalUndelivered(s, n) {
      var i :| s.pos <= i < |s.log| && s.log[i] == Del(n);
      assert t.log[i] == s.log[i];
    }
  }

  lemma {:induction false} LastIsUndelivered(s: State, t: State)
    requires t.pos == s.pos <= |s.log| && |t.log| == |s.log| + 1
    ensures Undelivered(t, NameOf(t.log[|s.log|]))
  {
  }

  lemma {:induction false} DebtorStays(q: QState, r: QState, k: string)
    requires BaseOk(q.s) && BaseOk(r.s) && Extends(q.s, r.s) && q.queue <= r.queue && Debtor(q, k)
    ensures Debtor(r, k)
  {
    SameListerAfter(q.s, r.s);
    UndeliveredStays(q.s, r.s, k);
    if k in Lister(q.s) && k in Store(q.s) && Lister(q.s)[k].uid == Store(q.s)[k].uid && Unnamed(Store(q.s)[k]) {
      if !HasIncarnation(Store(r.s), k, Store(q.s)[k].uid) {
        assert r.s.log[..|q.s.log|] == q.s.log;
        GoneIsRemoved(r.s.log, |q.s.log|, k);
        assert RemovalUndelivered(r.s, k);
      }
    }
  }

  lemma {:induction false} DebtStays(q: QState, r: QState, group: string)
    requires BaseOk(q.s) && BaseOk(r.s) && Extends(q.s, r.s) && q.queue <= r.queue && Debt(q, group)
    ensures Debt(r, group)
  {
    var k :| IsNameIn(k, group) && Debtor(q, k);
    DebtorStays(q, r, k);
  }

  lemma {:induction false} DueStays(q: QState, r: QState, n: string, group: string)
    requires BaseOk(q.s) && BaseOk(r.s) && Extends(q.s, r.s) && q.queue <= r.queue && r.requeue == q.requeue && Due(q, n, group)
    ensures Due(r, n, group)
  {
    UndeliveredStays(q.s, r.s, n);
    if Debt(q, group) {
      DebtStays(q, r, group);
    }
  }

  lemma {:induction false} UnnamedStays(q: QState, r: QState)
    requires BaseOk(q.s) && BaseOk(r.s) && Extends(q.s, r.s) && q.queue <= r.queue && UnnamedOk(q)
    ensures UnnamedOk(r)
  {
    forall k | k in Store(r.s)
      ensures Unnamed(Store(r.s)[k]) ==> k in r.queue || InWork(r, k) || Undelivered(r.s, k)
      ensures Store(r.s)[k].uid > r.s.pos ==> Unnamed(Store(r.s)[k])
    {
      if HasIncarnation(Store(q.s), k, Store(r.s)[k].uid) {
        UndeliveredStays(q.s, r.s, k);
      } else {
        LastIsUndelivered(q.s, r.s);
      }
    }
  }

  lemma {:induction false} ExtendedKeepsQInv(q: QState, r: QState)
    requires QInv(q) && BaseOk(r.s) && Extends(q.s, r.s) && r.queue == q.queue && r.requeue == q.requeue
    ensures QInv(r)
  {
    SameListerAfter(q.s, r.s);
    UnnamedStays(q, r);
    forall n | n in Lister(r.s) && WouldWrite(r.s, n)
      ensures Due(r, n, Lister(r.s)[n].spec.group)
    {
      assert WouldWrite(q.s, n);
      DueStays(q, r, n, Lister(r.s)[n].spec.group);
    }
    if !q.s.phase.Idle? && q.s.phase.Gathering? {
      if Debt(q, q.s.phase.crd.spec.group) {
        DebtStays(q, r, q.s.phase.crd.spec.group);
      } else {
        CleanStays(q.s, r.s);
      }
    }
    RequeueStays(q, r);
  }

  lemma {:induction false} RequeueStays(q: QState, r: QState)
    requires RequeueOk(q) && r.requeue == q.requeue && r.s.phase == q.s.phase
    requires |q.s.log| <= |r.s.log| && r.s.log[..|q.s.log|] == q.s.log
    ensures RequeueOk(r)
  {
  }

  lemma {:induction false} ElsewhereKeepsQInv(q: QState, step: Step)
    requires QInv(q) && IsElsewhere(step)
    ensures QInv(q.(s := Apply(q.s, step)))
  {
    BaseStep(q.s, step);
    ElsewhereExtends(q.s, step);
    ExtendedKeepsQInv(q, q.(s := Apply(q.s, step)));
  }

  // -------------------------------------------------------- deliveries

  /** The next event is delivered, and its object is queued. */
  ghost predicate Arrives(q: QState, r: QState) {
    && q.s.pos < |q.s.log| && r.s == q.s.(pos := q.s.pos + 1)
    && r.queue == q.queue + {NameOf(q.s.log[q.s.pos])} && r.requeue == q.requeue
  }

  lemma {:induction false} DeliveredEvent(s: State)
    requires LogOk(s.log) && s.pos < |s.log|
    ensures var e, before, after := s.log[s.pos], Replay(s.log[..s.pos]), Replay(s.log[..s.pos + 1]);
      && after == ApplyEvent(before, e)
      && match e
         case Del(n) => n in before && n !in after
         case Put(c) =>
           && c.name in after && after[c.name] == c
           && (if c.uid == s.pos + 1 then c.name !in before else c.name in before && before[c.name].uid == c.uid)
  {
    assert EventOk(s.log, s.pos);
    assert s.log[..s.pos + 1] == s.log[..s.pos] + [s.log[s.pos]];
    ReplayAppend(s.log[..s.pos], s.log[s.pos]);
  }

  /** A created CRD is either never named yet, or on its way out. */
  lemma {:induction false} CreatedIsDebtor(q: QState, r: QState)
    requires BaseOk(q.s) && UnnamedOk(q) && Arrives(q, r)
    requires q.s.log[q.s.pos].Put? && q.s.log[q.s.pos].crd.uid == q.s.pos + 1
    ensures Debtor(r, q.s.log[q.s.pos].crd.name)
  {
    var c := q.s.log[q.s.pos].crd;
    DeliveredEvent(q.s);
    if !HasIncarnation(Store(q.s), c.name, c.uid) {
      GoneIsRemoved(q.s.log, r.s.pos, c.name);
    }
  }

  /** Whoever comes or goes leaves a debt to its group. */
  lemma {:induction false} ArrivalIsDebtor(q: QState, r: QState)
    requires BaseOk(q.s) && UnnamedOk(q) && Arrives(q, r) && AddsOrRemoves(q.s.log, q.s.pos)
    ensures Debtor(r, NameOf(q.s.log[q.s.pos]))
  {
    DeliveredEvent(q.s);
    if q.s.log[q.s.pos].Put? {
      CreatedIsDebtor(q, r);
    }
  }

  lemma {:induction false} DebtorArrives(q: QState, r: QState, k: string)
    requires BaseOk(q.s) && UnnamedOk(q) && Arrives(q, r) && Debtor(q, k)
    ensures Debtor(r, k)
  {
    var e := q.s.log[q.s.pos];
    DeliveredEvent(q.s);
    if NameOf(e) == k && AddsOrRemoves(q.s.log, q.s.pos) {
      ArrivalIsDebtor(q, r);
    } else if NameOf(e) != k {
      DeliveryIsLocal(q.s, r.s, k);
    }
  }

  lemma {:induction false} DebtArrives(q: QState, r: QState, group: string)
    requires BaseOk(q.s) && UnnamedOk(q) && Arrives(q, r) && Debt(q, group)
    ensures Debt(r, group)
  {
    var k :| IsNameIn(k, group) && Debtor(q, k);
    DebtorArrives(q, r, k);
  }

  /** Nobody in the group holds other names, unless the delivery is of one that came or went there. */
  lemma {:induction false} HeldAfterArrival(q: QState, r: QState, group: string)
    requires BaseOk(q.s) && BaseOk(r.s) && Arrives(q, r)
    requires !AddsOrRemoves(q.s.log, q.s.pos) || !IsNameIn(NameOf(q.s.log[q.s.pos]), group)
    ensures ResourcesHeld(View(r.s), group) == ResourcesHeld(View(q.s), group) && KindsHeld(View(r.s), group) == KindsHeld(View(q.s), group)
  {
    if !AddsOrRemoves(q.s.log, q.s.pos) {
      DeliverKeepsView(q.s, r.s);
      SameHoldersSameHeld(View(r.s), View(q.s));
    } else {
      OtherGroupsStay(q.s, r.s, group);
      SameHeldIn(View(r.s), View(q.s), group);
    }
  }

  lemma {:induction false} DueArrives(q: QState, r: QState, n: string, group: string)
    requires BaseOk(q.s) && UnnamedOk(q) && Arrives(q, r) && Due(q, n, group)
    ensures Due(r, n, group)
  {
    if Undelivered(q.s, n) {
      var i :| q.s.pos <= i < |q.s.log| && NameOf(q.s.log[i]) == n;
      assert i > q.s.pos ==> Undelivered(r.s, n);
    }
    if Debt(q, group) {
      DebtArrives(q, r, group);
    }
  }

  /** What a synchronisation would do depends on the listed copy and on the names held in its group. */
  lemma {:induction false} SameDecision(s: State, t: State, n: string)
    requires s.pos <= |s.log| && t.pos <= |t.log| && n in Lister(s) && n in Lister(t) && Lister(t)[n] == Lister(s)[n]
    requires ResourcesHeld(View(t), Lister(s)[n].spec.group) == ResourcesHeld(View(s), Lister(s)[n].spec.group)
    requires KindsHeld(View(t), Lister(s)[n].spec.group) == KindsHeld(View(s), Lister(s)[n].spec.group)
    ensures WouldWrite(t, n) <==> WouldWrite(s, n)
  {
  }

  lemma {:induction false} ForgottenAfterArrival(q: QState, r: QState, n: string)
    requires BaseOk(q.s) && UnnamedOk(q) && NothingForgotten(q) && BaseOk(r.s) && Arrives(q, r) && n in Lister(r.s) && WouldWrite(r.s, n)
    ensures Due(r, n, Lister(r.s)[n].spec.group)
  {
    var m, group := NameOf(q.s.log[q.s.pos]), Lister(r.s)[n].spec.group;
    if n != m {
      DeliveryIsLocal(q.s, r.s, n);
      if AddsOrRemoves(q.s.log, q.s.pos) && IsNameIn(m, group) {
        ArrivalIsDebtor(q, r);
      } else {
        HeldAfterArrival(q, r, group);
        SameDecision(q.s, r.s, n);
        DueArrives(q, r, n, group);
      }
    }
  }

  lemma {:induction false} WorkAfterArrival(q: QState, r: QState)
    requires QInv(q) && BaseOk(r.s) && Arrives(q, r)
    ensures WorkOk(r)
  {
    if !q.s.phase.Idle? {
      var crd, m := q.s.phase.crd, NameOf(q.s.log[q.s.pos]);
      if crd.name != m {
        DeliveryIsLocal(q.s, r.s, crd.name);
      }
      if q.s.phase.Gathering? {
        GatheringAfterArrival(q, r);
      }
    }
  }

  lemma {:induction false} GatheringAfterArrival(q: QState, r: QState)
    requires QInv(q) && BaseOk(r.s) && Arrives(q, r) && q.s.phase.Gathering?
    ensures Clean(r.s) || Debt(r, q.s.phase.crd.spec.group)
  {
    var group := q.s.phase.crd.spec.group;
    if Debt(q, group) {
      DebtArrives(q, r, group);
    } else if !AddsOrRemoves(q.s.log, q.s.pos) {
      DeliverKeepsView(q.s, r.s);
      CleanStays(q.s, r.s);
    } else if IsNameIn(NameOf(q.s.log[q.s.pos]), group) {
      ArrivalIsDebtor(q, r);
    } else {
      CleanInOtherGroup(q.s, r.s);
    }
  }

  lemma {:induction false} UnnamedArrives(q: QState, r: QState)
    requires UnnamedOk(q) && Arrives(q, r)
    ensures UnnamedOk(r)
  {
    forall k | k in Store(r.s) && Unnamed(Store(r.s)[k])
      ensures k in r.queue || InWork(r, k) || Undelivered(r.s, k)
    {
      if Undelivered(q.s, k) {
        var i :| q.s.pos <= i < |q.s.log| && NameOf(q.s.log[i]) == k;
        assert i > q.s.pos ==> Undelivered(r.s, k);
      }
    }
  }

  lemma {:induction false} ArriveKeepsQInv(q: QState, r: QState)
    requires QInv(q) && Arrives(q, r)
    ensures QInv(r)
  {
    assert r.s == Apply(q.s, Deliver);
    BaseStep(q.s, Deliver);
    forall n | n in Lister(r.s) && WouldWrite(r.s, n)
      ensures Due(r, n, Lister(r.s)[n].spec.group)
    {
      ForgottenAfterArrival(q, r, n);
    }
    WorkAfterArrival(q, r);
    UnnamedArrives(q, r);
  }

  // ------------------------------------------------- taking a key, looking around

  /** Only the worker has moved. */
  ghost predicate SamePlaces(s: State, t: State) {
    t.log == s.log && t.pos == s.pos && t.cache == s.cache
  }

  lemma {:induction false} FetchPhase(s: State, key: string)
    requires BaseOk(s) && s.phase.Idle?
    ensures var t := Apply(s, NamingFetch(key));
      && SamePlaces(s, t)
      && (if key in Lister(s) && Lister(s)[key].spec.names != Lister(s)[key].accepted
          then t.phase == Fetched(Lister(s)[key]) && Lister(s)[key].name == key else t == s)
  {
    if key in Lister(s) {
      ListedGroup(s, key);
    }
  }

  /** A CRD that the server has never named is fetched, unless the lister is behind. */
  lemma {:induction false} UnnamedIsFetched(s: State, key: string)
    requires BaseOk(s) && key in Store(s) && Unnamed(Store(s)[key])
    ensures Undelivered(s, key) || (key in Lister(s) && Lister(s)[key].spec.names != Lister(s)[key].accepted)
  {
    if !Undelivered(s, key) {
      if key !in Lister(s) || Lister(s)[key] != Store(s)[key] {
        DifferenceIsUndelivered(s, key);
      }
      StoredIsVersion(s.log, key);
      UnnamedHoldsNothing(s.log, key);
    }
  }

  ghost predicate Takes(q: QState, r: QState, key: string) {
    QEnabled(q, Take(key)) && r == QApply(q, Take(key))
  }

  lemma {:induction false} DueAfterTake(q: QState, r: QState, key: string, n: string, group: string)
    requires BaseOk(q.s) && Takes(q, r, key) && Due(q, n, group)
    requires n in Lister(q.s) && Lister(q.s)[n].spec.names != Lister(q.s)[n].accepted
    ensures r.s.pos <= |r.s.log| && Due(r, n, group)
  {
    FetchPhase(q.s, key);
    if Debt(q, group) {
      var k :| IsNameIn(k, group) && Debtor(q, k);
      assert k != key || key in Lister(q.s) || RemovalUndelivered(q.s, key) ==> Debtor(r, k);
    }
  }

  lemma {:induction false} UnnamedAfterTake(q: QState, r: QState, key: string)
    requires BaseOk(q.s) && UnnamedOk(q) && Takes(q, r, key)
    ensures UnnamedOk(r)
  {
    FetchPhase(q.s, key);
    if key in Store(q.s) && Unnamed(Store(q.s)[key]) {
      UnnamedIsFetched(q.s, key);
    }
  }

  lemma {:induction false} TakeKeepsQInv(q: QState, r: QState, key: string)
    requires QInv(q) && Takes(q, r, key)
    ensures QInv(r)
  {
    BaseStep(q.s, NamingFetch(key));
    FetchPhase(q.s, key);
    forall n | n in Lister(r.s) && WouldWrite(r.s, n)
      ensures Due(r, n, Lister(r.s)[n].spec.group)
    {
      SameDecision(q.s, r.s, n);
      DueAfterTake(q, r, key, n, Lister(r.s)[n].spec.group);
    }
    UnnamedAfterTake(q, r, key);
  }

  /** The worker goes on with the same CRD. */
  ghost predicate GoesOn(q: QState, r: QState) {
    && q.s.pos <= |q.s.log| && SamePlaces(q.s, r.s) && r.queue == q.queue && r.requeue == q.requeue
    && !q.s.phase.Idle? && r.s.phase.Gathering? && r.s.phase.crd == q.s.phase.crd
    && (Clean(r.s) || Debt(q, q.s.phase.crd.spec.group))
  }

  lemma {:induction false} SameDebt(q: QState, r: QState, group: string)
    requires GoesOn(q, r)
    ensures Debt(q, group) <==> Debt(r, group)
  {
    forall k
      ensures Debtor(q, k) <==> Debtor(r, k)
    {
    }
  }

  lemma {:induction false} GoOnKeepsQInv(q: QState, r: QState)
    requires QInv(q) && BaseOk(r.s) && GoesOn(q, r)
    ensures QInv(r)
  {
    forall n | n in Lister(r.s) && WouldWrite(r.s, n)
      ensures Due(r, n, Lister(r.s)[n].spec.group)
    {
      SameDecision(q.s, r.s, n);
      SameDebt(q, r, Lister(r.s)[n].spec.group);
    }
    SameDebt(q, r, q.s.phase.crd.spec.group);
  }

  lemma {:induction false} ListKeepsQInv(q: QState, list: seq<CRD>)
    requires QInv(q) && QEnabled(q, ListNames(list))
    ensures QInv(QApply(q, ListNames(list)))
  {
    BaseStep(q.s, NamingList(list));
    ListIsClean(q.s, list);
    GoOnKeepsQInv(q, QApply(q, ListNames(list)));
  }

  lemma {:induction false} LookGoesOn(q: QState)
    requires q.s.pos <= |q.s.log| && WorkOk(q) && QEnabled(q, Look)
    ensures GoesOn(q, QApply(q, Look))
  {
    var t := q.s.(phase := Gathered(q.s));
    GatherForesees(q.s);
    assert Lister(t) == Lister(q.s) && View(t) == View(q.s);
    assert Clean(q.s) ==> Clean(t);
  }

  lemma {:induction false} LookKeepsQInv(q: QState)
    requires QInv(q) && QEnabled(q, Look)
    ensures QInv(QApply(q, Look))
  {
    LookGoesOn(q);
    BaseStep(q.s, NamingGather);
    GoOnKeepsQInv(q, QApply(q, Look));
  }

  // ------------------------------------------------------------ the decision

  /** A decision that commits nothing: there was nothing to write, or the key goes back, or the server has moved on. */
  ghost predicate Declines(q: QState, r: QState) {
    && q.s.phase.Gathering? && q.s.phase.todo == [] && q.requeue.None?
    && r.s == q.s.(phase := Idle) && r.requeue.None? && q.queue <= r.queue
    && (|| q.s.phase.crd.name in r.queue
        || NothingToWrite(q.s.phase.crd, q.s.phase.resources, q.s.phase.kinds)
        || q.s.phase.crd.name !in Store(q.s)
        || Store(q.s)[q.s.phase.crd.name] != q.s.phase.crd)
  }

  lemma {:induction false} UncommittedDeclines(q: QState, admitted: bool)
    requires BaseOk(q.s) && RequeueOk(q) && QEnabled(q, Decide(admitted)) && !Commits(q.s, NamingWrite(admitted))
    ensures Declines(q, Decided(q, admitted))
  {
    UncommittedShape(q.s, NamingWrite(admitted));
    assert Apply(q.s, NamingWrite(admitted)) == NamingWritten(q.s, admitted);
    if !NothingToWrite(q.s.phase.crd, q.s.phase.resources, q.s.phase.kinds) {
      NotWritten(q.s, admitted);
    }
  }

  /** An admitted write that commits nothing is no write. */
  lemma {:induction false} NotWritten(s: State, admitted: bool)
    requires BaseOk(s) && Enabled(s, NamingWrite(admitted)) && !Commits(s, NamingWrite(admitted))
    requires !NothingToWrite(s.phase.crd, s.phase.resources, s.phase.kinds)
    ensures var r := StatusUpdate(s.log, NamingWriteOf(s.phase.crd, s.phase.resources, s.phase.kinds)).1;
      admitted ==> !r.Written? && (r.Rejected? || s.phase.crd.name !in Store(s) || Store(s)[s.phase.crd.name] != s.phase.crd)
  {
    WritesChangeSomething(s.phase.crd, s.phase.resources, s.phase.kinds);
    StaleWrite(s, s.phase.crd, NamingWriteOf(s.phase.crd, s.phase.resources, s.phase.kinds));
    if admitted {
      assert Apply(s, NamingWrite(admitted)) == NamingWritten(s, admitted);
    }
  }

  /** The CRD that was looked at: queued again, out of date in the lister, or decided on just what the controller sees, or to be queued by others. */
  lemma {:induction false} DeclinedIsDue(q: QState, r: QState)
    requires QInv(q) && Declines(q, r)
    ensures var n := q.s.phase.crd.name;
      || n in r.queue || Undelivered(r.s, n)
      || (&& n in Lister(q.s) && Lister(q.s)[n] == q.s.phase.crd && NothingToWrite(q.s.phase.crd, q.s.phase.resources, q.s.phase.kinds)
          && n in Store(q.s) && Store(q.s)[n] == q.s.phase.crd
          && (Clean(q.s) || Debt(q, q.s.phase.crd.spec.group)))
  {
    var n := q.s.phase.crd.name;
    if n !in Store(q.s) || n !in Lister(q.s) || Store(q.s)[n] != Lister(q.s)[n] {
      if n in Store(q.s) || n in Lister(q.s) {
        DifferenceIsUndelivered(q.s, n);
        assert Undelivered(r.s, n);
      }
    }
  }

  lemma {:induction false} DebtAfterDecline(q: QState, r: QState, group: string)
    requires q.s.pos <= |q.s.log| && Declines(q, r) && Debt(q, group)
    ensures Debt(r, group)
  {
    var k :| IsNameIn(k, group) && Debtor(q, k);
    assert Debtor(r, k);
  }

  lemma {:induction false} DueAfterDecline(q: QState, r: QState, n: string)
    requires QInv(q) && Declines(q, r) && n in Lister(q.s) && WouldWrite(q.s, n)
    ensures Due(r, n, Lister(q.s)[n].spec.group)
  {
    var group := Lister(q.s)[n].spec.group;
    DeclinedIsDue(q, r);
    if InWork(q, n) && Clean(q.s) {
      CleanCount(q.s);
    }
    if Debt(q, group) {
      DebtAfterDecline(q, r, group);
    }
  }

  /** Nothing to write means that there is a NamesAccepted condition already. */
  lemma {:induction false} DeclinedIsNamed(q: QState, r: QState)
    requires QInv(q) && Declines(q, r)
    ensures var n := q.s.phase.crd.name;
      n in Store(q.s) && Unnamed(Store(q.s)[n]) ==> n in r.queue || Undelivered(q.s, n)
  {
    DeclinedIsDue(q, r);
  }

  lemma {:induction false} UnnamedAfterDecline(q: QState, r: QState)
    requires QInv(q) && Declines(q, r)
    ensures UnnamedOk(r)
  {
    DeclinedIsNamed(q, r);
    StillUnnamed(q, r, q.s.phase.crd.name);
  }

  lemma {:induction false} StillUnnamed(q: QState, r: QState, n: string)
    requires UnnamedOk(q) && !q.s.phase.Idle? && q.s.phase.crd.name == n
    requires r.s == q.s.(phase := Idle) && q.queue <= r.queue
    requires n in Store(q.s) && Unnamed(Store(q.s)[n]) ==> n in r.queue || Undelivered(q.s, n)
    ensures UnnamedOk(r)
  {
    forall k | k in Store(r.s) && Unnamed(Store(r.s)[k])
      ensures k in r.queue || Undelivered(r.s, k)
    {
      assert k in q.queue || InWork(q, k) || Undelivered(q.s, k);
    }
  }

  lemma {:induction false} DeclineKeepsQInv(q: QState, r: QState)
    requires QInv(q) && BaseOk(r.s) && Declines(q, r)
    ensures QInv(r)
  {
    forall n | n in Lister(r.s) && WouldWrite(r.s, n)
      ensures Due(r, n, Lister(r.s)[n].spec.group)
    {
      SameDecision(q.s, r.s, n);
      DueAfterDecline(q, r, n);
    }
    UnnamedAfterDecline(q, r);
  }

  /** A decision whose write is committed as `c`: the worker turns to the rest of the group. */
  ghost predicate Accepts(q: QState, r: QState, c: CRD) {
    && q.s.pos <= |q.s.log| && q.s.phase.Gathering?
    && r.s.pos == q.s.pos && r.s.log == q.s.log + [Put(c)] && r.s.phase.Idle? && Lister(r.s) == Lister(q.s)
    && c.name in Store(q.s) && c.name in View(q.s) && View(q.s)[c.name] == q.s.phase.crd
    && c.name == q.s.phase.crd.name && c.spec == q.s.phase.crd.spec && c.uid <= q.s.pos && !Unnamed(c)
    && Store(r.s) == Store(q.s)[c.name := c] && View(r.s) == View(q.s)[c.name := c]
    && r.queue == q.queue && r.requeue == Some(Requeue(c.name, None))
  }

  lemma {:induction false} CommittedAccepts(q: QState, admitted: bool)
    requires BaseOk(q.s) && QEnabled(q, Decide(admitted)) && Commits(q.s, NamingWrite(admitted))
    ensures Accepts(q, Decided(q, admitted), NamingVersion(q.s))
  {
    CommittedShape(q.s, NamingWrite(admitted));
    CommittedStore(q.s, NamingWrite(admitted));
    assert Apply(q.s, NamingWrite(admitted)) == NamingWritten(q.s, admitted);
    SameListed(q.s, Apply(q.s, NamingWrite(admitted)));
    CommittedVersion(q.s, admitted);
  }

  lemma {:induction false} SameListed(s: State, t: State)
    requires s.pos <= |s.log| && t.pos == s.pos && |t.log| == |s.log| + 1 && t.log[..|s.log|] == s.log
    ensures Lister(t) == Lister(s)
  {
    assert t.log[..s.pos] == s.log[..s.pos];
  }

  lemma {:induction false} CommittedVersion(s: State, admitted: bool)
    requires BaseOk(s) && Commits(s, NamingWrite(admitted))
    ensures s.phase.Gathering? && !Unnamed(NamingVersion(s)) && NamingVersion(s).uid <= s.pos
  {
    CommittedShape(s, NamingWrite(admitted));
    ConditionsAfterNaming(s.phase.crd, s.phase.resources, s.phase.kinds, NamesAccepted);
    StoredIsVersion(s.log, s.phase.crd.name);
  }

  /** In other groups nobody holds other names than before. */
  lemma {:induction false} HeldAfterAccept(view: map<string, CRD>, n: string, c: CRD, group: string)
    requires n in view && c.spec == view[n].spec && c.spec.group != group
    ensures ResourcesHeld(view[n := c], group) == ResourcesHeld(view, group) && KindsHeld(view[n := c], group) == KindsHeld(view, group)
  {
    SameHeldIn(view[n := c], view, group);
  }

  lemma {:induction false} DebtAccepts(q: QState, r: QState, c: CRD, group: string)
    requires BaseOk(q.s) && Accepts(q, r, c) && !IsNameIn(c.name, group) && Debt(q, group)
    ensures Debt(r, group)
  {
    var k :| IsNameIn(k, group) && Debtor(q, k);
    UndeliveredStays(q.s, r.s, k);
    assert Debtor(r, k);
  }

  /** A CRD of another group would be written just as before. */
  lemma {:induction false} OtherGroupDecision(q: QState, r: QState, c: CRD, n: string)
    requires Accepts(q, r, c) && r.s.pos <= |r.s.log| && n in Lister(r.s) && Lister(r.s)[n].spec.group != c.spec.group
    ensures WouldWrite(q.s, n) <==> WouldWrite(r.s, n)
  {
    HeldAfterAccept(View(q.s), c.name, c, Lister(r.s)[n].spec.group);
    SameDecision(q.s, r.s, n);
  }

  /** It is as due as before. */
  lemma {:induction false} OtherGroupDue(q: QState, r: QState, c: CRD, n: string, group: string)
    requires BaseOk(q.s) && RequeueOk(q) && Accepts(q, r, c) && n != c.name && !IsNameIn(c.name, group) && Due(q, n, group)
    ensures r.s.pos <= |r.s.log| && Due(r, n, group)
  {
    UndeliveredStays(q.s, r.s, n);
    if Debt(q, group) {
      DebtAccepts(q, r, c, group);
    }
  }

  /** The CRD that was written has its new version on the way; the rest of its group is covered; the others are as before. */
  lemma {:induction false} DueAfterAccept(q: QState, r: QState, c: CRD, n: string)
    requires BaseOk(q.s) && NothingForgotten(q) && RequeueOk(q) && Accepts(q, r, c) && n in Lister(r.s) && WouldWrite(r.s, n)
    requires IsNameIn(c.name, c.spec.group) && forall g :: IsNameIn(c.name, g) ==> g == c.spec.group
    ensures Due(r, n, Lister(r.s)[n].spec.group)
  {
    if n == c.name {
      LastIsUndelivered(q.s, r.s);
    } else if Lister(r.s)[n].spec.group == c.spec.group {
      assert Covered(r, n, c.spec.group);
    } else {
      OtherGroupDecision(q, r, c, n);
      OtherGroupDue(q, r, c, n, Lister(r.s)[n].spec.group);
    }
  }

  lemma {:induction false} UnnamedAfterAccept(q: QState, r: QState, c: CRD)
    requires UnnamedOk(q) && Accepts(q, r, c)
    ensures UnnamedOk(r)
  {
    forall k | k in Store(r.s)
      ensures Unnamed(Store(r.s)[k]) ==> k in r.queue || InWork(r, k) || Undelivered(r.s, k)
      ensures Store(r.s)[k].uid > r.s.pos ==> Unnamed(Store(r.s)[k])
    {
      UndeliveredStays(q.s, r.s, k);
    }
  }

  lemma {:induction false} AcceptKeepsQInv(q: QState, r: QState, c: CRD)
    requires QInv(q) && BaseOk(r.s) && Accepts(q, r, c)
    ensures QInv(r)
  {
    VersionGroup(q.s.log, q.s.phase.crd);
    forall n | n in Lister(r.s) && WouldWrite(r.s, n)
      ensures Due(r, n, Lister(r.s)[n].spec.group)
    {
      DueAfterAccept(q, r, c, n);
    }
    UnnamedAfterAccept(q, r, c);
  }

  lemma {:induction false} DecidedBase(q: QState, admitted: bool)
    requires BaseOk(q.s) && QEnabled(q, Decide(admitted))
    ensures BaseOk(Decided(q, admitted).s)
  {
    BaseStep(q.s, NamingWrite(admitted));
    assert Apply(q.s, NamingWrite(admitted)) == NamingWritten(q.s, admitted);
  }

  lemma {:induction false} DecideKeepsQInv(q: QState, admitted: bool)
    requires QInv(q) && QEnabled(q, Decide(admitted))
    ensures QInv(Decided(q, admitted))
  {
    DecidedBase(q, admitted);
    if Commits(q.s, NamingWrite(admitted)) {
      CommittedAccepts(q, admitted);
      AcceptKeepsQInv(q, Decided(q, admitted), NamingVersion(q.s));
    } else {
      UncommittedDeclines(q, admitted);
      DeclineKeepsQInv(q, Decided(q, admitted));
    }
  }

  // ---------------------------------------------------------- the rest of the group

  /** Only the requeueing goes on, and its keys stay covered until they are queued. */
  lemma {:induction false} RequeueKeepsQInv(q: QState, r: QState)
    requires QInv(q) && r.s == q.s && q.queue <= r.queue && q.requeue.Some? && RequeueOk(r)
    requires forall n :: n in Lister(q.s) && Covered(q, n, Lister(q.s)[n].spec.group) ==> n in r.queue || Covered(r, n, Lister(q.s)[n].spec.group)
    ensures QInv(r)
  {
    forall k
      ensures Debtor(q, k) ==> Debtor(r, k)
    {
    }
    forall n | n in Lister(r.s) && WouldWrite(r.s, n)
      ensures Due(r, n, Lister(r.s)[n].spec.group)
    {
      var group := Lister(r.s)[n].spec.group;
      assert Due(q, n, group);
      assert Debt(q, group) ==> Debt(r, group);
    }
  }

  lemma {:induction false} ListOthersKeepsQInv(q: QState, list: seq<CRD>)
    requires QInv(q) && QEnabled(q, ListOthers(list))
    ensures QInv(QApply(q, ListOthers(list)))
  {
    var r := QApply(q, ListOthers(list));
    forall c | c in list
      ensures IsVersion(q.s.log, c)
    {
      ListedNow(q.s, c.name);
    }
    forall n | n in Lister(q.s) && Covered(q, n, Lister(q.s)[n].spec.group)
      ensures Covered(r, n, Lister(q.s)[n].spec.group)
    {
      ListedGroup(q.s, n);
      assert Lister(q.s)[n] in list;
    }
    RequeueKeepsQInv(q, r);
  }

  /** The one that comes next is queued when it is covered, and the others stay covered. */
  lemma {:induction false} CoveredIsQueued(q: QState, n: string)
    requires BaseOk(q.s) && RequeueOk(q) && QEnabled(q, QueueOne) && n in Lister(q.s)
    requires Covered(q, n, Lister(q.s)[n].spec.group)
    ensures n in QueuedOne(q).queue || Covered(QueuedOne(q), n, Lister(q.s)[n].spec.group)
  {
    var key, todo, group := q.requeue.value.key, q.requeue.value.todo.value, Lister(q.s)[n].spec.group;
    var c :| c in todo && c.name == n;
    if c == todo[0] {
      VersionGroup(q.s.log, c);
      ListedGroup(q.s, n);
      GroupIsParsed(key, group);
    } else {
      assert c in todo[1..];
    }
  }

  lemma {:induction false} QueueOneKeepsQInv(q: QState)
    requires QInv(q) && QEnabled(q, QueueOne)
    ensures QInv(QueuedOne(q))
  {
    forall n | n in Lister(q.s) && Covered(q, n, Lister(q.s)[n].spec.group)
      ensures n in QueuedOne(q).queue || Covered(QueuedOne(q), n, Lister(q.s)[n].spec.group)
    {
      CoveredIsQueued(q, n);
    }
    RequeueKeepsQInv(q, QueuedOne(q));
  }

  // ------------------------------------------------------------ whole runs

  lemma {:induction false} QStepKeepsQInv(q: QState, step: QStep)
    requires QInv(q)
    ensures QInv(QApply(q, step))
  {
    if QEnabled(q, step) {
      match step
      case Elsewhere(step) => ElsewhereKeepsQInv(q, step);
      case Arrive => ArriveKeepsQInv(q, QApply(q, Arrive));
      case Take(key) => TakeKeepsQInv(q, QApply(q, Take(key)), key);
      case ListNames(list) => ListKeepsQInv(q, list);
      case Look => LookKeepsQInv(q);
      case Decide(admitted) => DecideKeepsQInv(q, admitted);
      case ListOthers(list) => ListOthersKeepsQInv(q, list);
      case QueueOne => QueueOneKeepsQInv(q);
    }
  }

  lemma {:induction false} QRunKeepsQInv(steps: seq<QStep>)
    ensures QInv(QRun(QINITIAL, steps))
  {
    if steps == [] {
      InitialInv();
      assert CacheLeads(INITIAL) && LogNamed(INITIAL.log);
      assert Lister(INITIAL) == map[] && Store(INITIAL) == map[];
    } else {
      QRunKeepsQInv(steps[..|steps| - 1]);
      QStepKeepsQInv(QRun(QINITIAL, steps[..|steps| - 1]), steps[|steps| - 1]);
    }
  }
}
