/**
 What the naming queue guarantees over whole runs: a refusal that no held name backs is looked at
 again, and with nothing left to do every refusal is backed. And the queue's steps taken in one go are
 the controller's synchronisation.
 */
module NamingRetry {
  import opened Crds
  import opened Registry
  import opened Naming
  import opened History
  import opened Lifecycle
  import opened LifecycleTheorems
  import opened MutationCache
  import opened NamingTermination
  import opened NamingRuns
  import opened NamingDebts
  import opened NamingQueue

  // ------------------------------------------ refusals that nothing backs

  /** The copy consulted for a CRD shows the names it holds, or its removal is on its way. */
  lemma {:induction false} SeenOrRemoved(s: State, n: string)
    requires BaseOk(s) && n in Lister(s) && !RemovalUndelivered(s, n)
    ensures n in Store(s) && View(s)[n].accepted == Store(s)[n].accepted && View(s)[n].spec.group == Store(s)[n].spec.group
  {
    if !HasIncarnation(Store(s), n, Lister(s)[n].uid) {
      GoneIsRemoved(s.log, s.pos, n);
    }
    ViewIsCurrent(s, n);
  }

  /** A name that the controller sees held in a group is held there on the server, unless the group will be queued. */
  lemma {:induction false} SeenIsHeld(q: QState, group: string)
    requires BaseOk(q.s) && !Debt(q, group)
    ensures forall x :: x in ResourcesHeld(View(q.s), group) ==> ResourceHeldBy(Store(q.s), group, x)
    ensures forall x :: x in KindsHeld(View(q.s), group) ==> KindHeldBy(Store(q.s), group, x)
  {
    forall n | n in View(q.s) && View(q.s)[n].spec.group == group
      ensures n in Store(q.s) && View(q.s)[n].accepted == Store(q.s)[n].accepted && Store(q.s)[n].spec.group == group
    {
      ListedGroup(q.s, n);
      assert !Debtor(q, n);
      SeenOrRemoved(q.s, n);
    }
  }

  /** Where the controller would write nothing, every slot asks for a name that it sees held. */
  lemma {:induction false} QuietRefusals(s: State, n: string)
    requires s.pos <= |s.log| && n in Lister(s) && !WouldWrite(s, n)
    ensures var want, have, g := Lister(s)[n].spec.names, Lister(s)[n].accepted, Lister(s)[n].spec.group;
      && (want.plural != have.plural ==> want.plural in ResourcesHeld(View(s), g))
      && (want.singular != have.singular ==> want.singular in ResourcesHeld(View(s), g))
      && (want.shortNames != have.shortNames ==> exists x :: x in want.shortNames && x in ResourcesHeld(View(s), g))
      && (want.kind != have.kind ==> want.kind in KindsHeld(View(s), g))
      && (want.listKind != have.listKind ==> want.listKind in KindsHeld(View(s), g))
      && want.categories == have.categories
  {
    var crd := Lister(s)[n];
    RefusedMeansInUse(crd, ResourcesHeld(View(s), crd.spec.group), KindsHeld(View(s), crd.spec.group));
  }

  lemma {:induction false} UnbackedWouldWrite(q: QState, n: string)
    requires BaseOk(q.s) && n in Lister(q.s) && n in Store(q.s) && Lister(q.s)[n] == Store(q.s)[n]
    requires !Debt(q, Store(q.s)[n].spec.group) && !WouldWrite(q.s, n)
    ensures RefusalsAreReal(Store(q.s), n)
  {
    SeenIsHeld(q, Store(q.s)[n].spec.group);
    QuietRefusals(q.s, n);
  }

  /** A CRD of the group is queued, in work, or has an event on its way. */
  ghost predicate Stirs(q: QState, group: string) {
    exists k :: IsNameIn(k, group) && (k in q.queue || InWork(q, k) || Undelivered(q.s, k))
  }

  lemma {:induction false} DebtStirs(q: QState, group: string)
    requires q.s.pos <= |q.s.log| && UnnamedOk(q) && Debt(q, group)
    ensures Stirs(q, group)
  {
    var k :| IsNameIn(k, group) && Debtor(q, k);
    if RemovalUndelivered(q.s, k) {
      var i :| q.s.pos <= i < |q.s.log| && q.s.log[i] == Del(k);
      assert NameOf(q.s.log[i]) == k;
    }
  }

  /**
   In every run: a CRD with a slot that lacks what it asks for, though nobody in its group holds that name, is queued,
   in work, or has an event on its way; or the requeueing under way has yet to come to it; or some CRD of
   its group is queued, in work, or has an event on its way, and its synchronisation will queue the group.
   */
  lemma {:induction false} UnbackedRefusalIsDue(steps: seq<QStep>, n: string)
    ensures var q := QRun(QINITIAL, steps);
      n in Store(q.s) && !RefusalsAreReal(Store(q.s), n) ==>
        || n in q.queue || InWork(q, n) || Undelivered(q.s, n)
        || Covered(q, n, Store(q.s)[n].spec.group)
        || (q.s.pos <= |q.s.log| && Debt(q, Store(q.s)[n].spec.group) && Stirs(q, Store(q.s)[n].spec.group))
  {
    var q := QRun(QINITIAL, steps);
    QRunKeepsQInv(steps);
    if n in Store(q.s) && !RefusalsAreReal(Store(q.s), n) && !Undelivered(q.s, n) {
      if n !in Lister(q.s) || Lister(q.s)[n] != Store(q.s)[n] {
        DifferenceIsUndelivered(q.s, n);
      }
      if Debt(q, Store(q.s)[n].spec.group) {
        DebtStirs(q, Store(q.s)[n].spec.group);
      } else {
        if !WouldWrite(q.s, n) {
          UnbackedWouldWrite(q, n);
        }
        assert Due(q, n, Lister(q.s)[n].spec.group);
      }
    }
  }

  /** Everything is delivered, nothing is queued, and the worker is free. */
  predicate Quiescent(q: QState) {
    q.s.pos == |q.s.log| && q.queue == {} && q.s.phase.Idle? && q.requeue.None?
  }

  lemma {:induction false} QuiescentOwesNothing(q: QState, n: string)
    requires QInv(q) && Quiescent(q) && n in Lister(q.s)
    ensures !WouldWrite(q.s, n) && !Debt(q, Lister(q.s)[n].spec.group)
  {
    if Debt(q, Lister(q.s)[n].spec.group) {
      DebtStirs(q, Lister(q.s)[n].spec.group);
    }
  }

  lemma {:induction false} SettledWhenSeen(s: State, n: string)
    requires Inv(s) && CacheLeads(s) && s.pos == |s.log| && n in Store(s) && n in Lister(s) && Lister(s)[n] == Store(s)[n] && !WouldWrite(s, n)
    ensures Settled(Store(s), n)
  {
    ViewIsTheStore(s);
    SameHoldersSameHeld(View(s), Store(s));
  }

  lemma {:induction false} QuiescentSettles(q: QState, n: string)
    requires QInv(q) && Quiescent(q) && n in Store(q.s)
    ensures RefusalsAreReal(Store(q.s), n) && Settled(Store(q.s), n) && !Unnamed(Store(q.s)[n])
  {
    assert q.s.log[..q.s.pos] == q.s.log;
    QuiescentOwesNothing(q, n);
    UnbackedWouldWrite(q, n);
    SettledWhenSeen(q.s, n);
  }

  /** With nothing left to do, every slot that lacks what it asks for asks for a name held in its group, and every CRD is named. */
  lemma {:induction false} QuiescentRefusalsAreReal(steps: seq<QStep>, n: string)
    ensures var q := QRun(QINITIAL, steps);
      Quiescent(q) && n in Store(q.s) ==>
        && RefusalsAreReal(Store(q.s), n)
        && Settled(Store(q.s), n)
        && FindCondition(Store(q.s)[n].conditions, NamesAccepted).Some?
  {
    QRunKeepsQInv(steps);
    if Quiescent(QRun(QINITIAL, steps)) && n in Store(QRun(QINITIAL, steps).s) {
      QuiescentSettles(QRun(QINITIAL, steps), n);
    }
  }

  // --------------------------------------- the queue's steps, in one go

  /** The machine below runs as before: what is said of its runs is said of these. */
  function Under(q: QState, step: QStep): seq<Step> {
    match step
    case Elsewhere(step) => if IsElsewhere(step) then [step] else []
    case Arrive => [Deliver]
    case Take(key) => if key in q.queue && q.requeue.None? then [NamingFetch(key)] else []
    case ListNames(list) => [NamingList(list)]
    case Look => [NamingGather]
    case Decide(admitted) => [NamingWrite(admitted)]
    case _ => []
  }

  lemma {:induction false} StepUnder(q: QState, step: QStep)
    requires q.s.pos <= |q.s.log|
    ensures QApply(q, step).s == Run(q.s, Under(q, step))
  {
    if Under(q, step) != [] {
      RunOne(q.s, Under(q, step)[0]);
      assert Under(q, step) == [Under(q, step)[0]];
    }
  }

  /** Every run with the queue is a run of the lifecycle machine. */
  lemma {:induction false} RunUnder(steps: seq<QStep>) returns (under: seq<Step>)
    ensures QRun(QINITIAL, steps).s == Run(INITIAL, under)
  {
    if steps == [] {
      under := [];
    } else {
      var q := QRun(QINITIAL, steps[..|steps| - 1]);
      var before := RunUnder(steps[..|steps| - 1]);
      QRunKeepsQInv(steps[..|steps| - 1]);
      StepUnder(q, steps[|steps| - 1]);
      RunConcat(INITIAL, before, Under(q, steps[|steps| - 1]));
      under := before + Under(q, steps[|steps| - 1]);
    }
  }

  function Repeat(step: QStep, k: nat): (steps: seq<QStep>)
    ensures |steps| == k
  {
    seq(k, _ => step)
  }

  function QSyncSteps(key: string, list: seq<CRD>, admitted: bool): seq<QStep> {
    [Take(key), ListNames(list)] + Repeat(Look, |list|) + [Decide(admitted), ListOthers(list)] + Repeat(QueueOne, |list| + 1)
  }

  lemma {:induction false} QRunConcat(q: QState, a: seq<QStep>, b: seq<QStep>)
    ensures QRun(q, a + b) == QRun(QRun(q, a), b)
  {
    if b == [] {
      assert a + b == a;
    } else {
      assert (a + b)[..|a + b| - 1] == a + b[..|b| - 1];
      QRunConcat(q, a, b[..|b| - 1]);
    }
  }

  lemma {:induction false} QRunTwo(q: QState, a: QStep, b: QStep)
    ensures QRun(q, [a, b]) == QApply(QApply(q, a), b)
  {
    assert [a, b][..1] == [a] && [a][..0] == [];
    assert QRun(q, [a]) == QApply(q, a);
  }

  lemma {:induction false} QSyncSplit(q: QState, key: string, list: seq<CRD>, admitted: bool)
    ensures QRun(q, QSyncSteps(key, list, admitted)) ==
      var looked := QRun(QApply(QApply(q, Take(key)), ListNames(list)), Repeat(Look, |list|));
      QRun(QApply(QApply(looked, Decide(admitted)), ListOthers(list)), Repeat(QueueOne, |list| + 1))
  {
    var a, b := [Take(key), ListNames(list)], [Decide(admitted), ListOthers(list)];
    var looks, rest := Repeat(Look, |list|), Repeat(QueueOne, |list| + 1);
    QRunConcat(q, a + looks + b, rest);
    QRunConcat(q, a + looks, b);
    QRunConcat(q, a, looks);
    QRunTwo(q, Take(key), ListNames(list));
    QRunTwo(QRun(q, a + looks), Decide(admitted), ListOthers(list));
  }

  /** Looking around is the machine's gathering. */
  lemma {:induction false} Looks(q: QState, k: nat)
    requires q.s.pos <= |q.s.log|
    ensures QRun(q, Repeat(Look, k)) == q.(s := Run(q.s, Gathers(k)))
    ensures Run(q.s, Gathers(k)).pos == q.s.pos && Run(q.s, Gathers(k)).log == q.s.log
  {
    if k > 0 {
      assert Repeat(Look, k)[..k - 1] == Repeat(Look, k - 1);
      assert Gathers(k)[..k - 1] == Gathers(k - 1);
      Looks(q, k - 1);
    }
  }

  /** Queueing the others of the group, one by one. */
  lemma {:induction false} QueueOnes(q: QState, key: string, list: seq<CRD>, k: nat)
    requires q.s.pos <= |q.s.log| && k <= |list| && q.requeue == Some(Requeue(key, Some(list)))
    ensures QRun(q, Repeat(QueueOne, k)) == q.(queue := Requeued(q.queue, list[..k], key), requeue := Some(Requeue(key, Some(list[k..]))))
  {
    if k > 0 {
      assert Repeat(QueueOne, k)[..k - 1] == Repeat(QueueOne, k - 1);
      QueueOnes(q, key, list, k - 1);
      assert list[..k] == list[..k - 1] + [list[k - 1]];
      assert list[k - 1..][1..] == list[k..];
    } else {
      assert Requeued(q.queue, list[..0], key) == q.queue && list[0..] == list;
    }
  }

  lemma {:induction false} NothingToQueue(q: QState, k: nat)
    requires q.requeue.None?
    ensures QRun(q, Repeat(QueueOne, k)) == q
  {
    if k > 0 {
      assert Repeat(QueueOne, k)[..k - 1] == Repeat(QueueOne, k - 1);
      NothingToQueue(q, k - 1);
    }
  }

  /** The second half: the requeueing, when there is one. */
  lemma {:induction false} Others(q: QState, list: seq<CRD>)
    requires q.s.pos <= |q.s.log| && Enumerates(list, Lister(q.s)) && (q.requeue.Some? ==> q.requeue.value.todo.None?)
    ensures QRun(QApply(q, ListOthers(list)), Repeat(QueueOne, |list| + 1)) ==
      if q.requeue.None? then q else q.(queue := Requeued(q.queue, list, q.requeue.value.key), requeue := None)
  {
    if q.requeue.None? {
      NothingToQueue(q, |list| + 1);
    } else {
      QueueOnes(QApply(q, ListOthers(list)), q.requeue.value.key, list, |list|);
      assert Repeat(QueueOne, |list| + 1)[..|list|] == Repeat(QueueOne, |list|);
      assert list[..|list|] == list && list[|list|..] == [];
    }
  }

  /** How a synchronisation ends: a key that failed goes back. */
  ghost predicate Ends(q: QState, out: SyncOutcome, key: string) {
    && q.s.log == out.log && q.s.cache == out.cache && q.s.phase.Idle? && q.requeue.None?
    && q.queue == out.queue + if out.ok then {} else {key}
  }

  lemma {:induction false} IdleLooks(q: QState, key: string, list: seq<CRD>)
    requires q.s.pos <= |q.s.log| && key in q.queue && q.s.phase.Idle? && q.requeue.None?
    requires key in Lister(q.s) ==> Lister(q.s)[key].spec.names == Lister(q.s)[key].accepted
    ensures QRun(QApply(QApply(q, Take(key)), ListNames(list)), Repeat(Look, |list|)) ==
      QState(q.s, q.queue - {key}, if key in Lister(q.s) then None else Some(Requeue(key, None)))
  {
    Looks(QApply(QApply(q, Take(key)), ListNames(list)), |list|);
    IdleGathers(q.s, |list|);
  }

  /** Nothing fetched: the key is gone, or the names are all accepted. */
  lemma {:induction false} IdleTake(q: QState, key: string, list: seq<CRD>, admitted: bool)
    requires BaseOk(q.s) && key in q.queue && q.s.phase.Idle? && q.requeue.None? && Enumerates(list, Lister(q.s))
    requires key in Lister(q.s) ==> Lister(q.s)[key].spec.names == Lister(q.s)[key].accepted
    ensures Ends(QRun(q, QSyncSteps(key, list, admitted)),
                 SyncOutcomeOf(Lister(q.s), q.s.cache, q.queue - {key}, q.s.log, key, list, admitted), key)
  {
    QSyncSplit(q, key, list, admitted);
    IdleLooks(q, key, list);
    var r := QState(q.s, q.queue - {key}, if key in Lister(q.s) then None else Some(Requeue(key, None)));
    assert QApply(r, Decide(admitted)) == r;
    Others(r, list);
  }

  /** What the controller does once it has worked out that there is something to write. */
  lemma {:induction false} WrittenOutcome(q: QState, crd: CRD, lister: map<string, CRD>, list: seq<CRD>)
    requires crd.name in lister && lister[crd.name] == crd && crd.spec.names != crd.accepted
    requires q.s.phase == Gathering(crd, [], UsedResources(list, lister, q.s.cache, crd.spec.group), UsedKinds(list, lister, q.s.cache, crd.spec.group))
    requires !NothingToWrite(crd, q.s.phase.resources, q.s.phase.kinds)
    ensures var (l, r) := StatusUpdate(q.s.log, NamingWriteOf(crd, q.s.phase.resources, q.s.phase.kinds));
      SyncOutcomeOf(lister, q.s.cache, q.queue, q.s.log, crd.name, list, true) ==
        match r
        case Written(c) => SyncOutcome(l, Mutation(q.s.cache, c), Requeued(q.queue, list, crd.name), true)
        case Rejected => SyncOutcome(l, q.s.cache, q.queue, false)
        case _ => SyncOutcome(l, q.s.cache, q.queue, true)
  {
  }

  lemma {:induction false} UnwrittenOutcome(q: QState, crd: CRD, lister: map<string, CRD>, list: seq<CRD>, admitted: bool)
    requires crd.name in lister && lister[crd.name] == crd && crd.spec.names != crd.accepted
    requires q.s.phase == Gathering(crd, [], UsedResources(list, lister, q.s.cache, crd.spec.group), UsedKinds(list, lister, q.s.cache, crd.spec.group))
    requires NothingToWrite(crd, q.s.phase.resources, q.s.phase.kinds) || !admitted
    ensures SyncOutcomeOf(lister, q.s.cache, q.queue, q.s.log, crd.name, list, admitted) ==
      SyncOutcome(q.s.log, q.s.cache, q.queue, NothingToWrite(crd, q.s.phase.resources, q.s.phase.kinds))
  {
  }

  ghost predicate DecidedAs(q: QState, r: QState, out: SyncOutcome, key: string, list: seq<CRD>) {
    && r.s.log == out.log && r.s.cache == out.cache && r.s.phase.Idle? && r.s.pos == q.s.pos
    && (if r.requeue.None? then r.queue == out.queue + if out.ok then {} else {key}
        else r.requeue == Some(Requeue(key, None)) && out.ok && out.queue == Requeued(r.queue, list, key))
  }

  lemma {:induction false} BusyDecision(q: QState, crd: CRD, lister: map<string, CRD>, list: seq<CRD>, admitted: bool)
    requires q.requeue.None? && crd.name in lister && lister[crd.name] == crd && crd.spec.names != crd.accepted
    requires q.s.phase == Gathering(crd, [], UsedResources(list, lister, q.s.cache, crd.spec.group), UsedKinds(list, lister, q.s.cache, crd.spec.group))
    ensures DecidedAs(q, Decided(q, admitted), SyncOutcomeOf(lister, q.s.cache, q.queue, q.s.log, crd.name, list, admitted), crd.name, list)
  {
    if NothingToWrite(crd, q.s.phase.resources, q.s.phase.kinds) || !admitted {
      UnwrittenOutcome(q, crd, lister, list, admitted);
    } else {
      WrittenOutcome(q, crd, lister, list);
    }
  }

  /** The first half, for a listed CRD whose names are not all accepted. */
  lemma {:induction false} BusyLooks(q: QState, crd: CRD, list: seq<CRD>)
    requires BaseOk(q.s) && crd.name in q.queue && q.s.phase.Idle? && q.requeue.None? && Enumerates(list, Lister(q.s))
    requires crd.name in Lister(q.s) && Lister(q.s)[crd.name] == crd && crd.spec.names != crd.accepted
    ensures QRun(QApply(QApply(q, Take(crd.name)), ListNames(list)), Repeat(Look, |list|)) ==
      QState(q.s.(phase := Gathering(crd, [], UsedResources(list, Lister(q.s), q.s.cache, crd.spec.group),
                                     UsedKinds(list, Lister(q.s), q.s.cache, crd.spec.group))),
             q.queue - {crd.name}, None)
  {
    var r := QApply(QApply(q, Take(crd.name)), ListNames(list));
    assert r == QState(q.s.(phase := Gathering(crd, list, {}, {})), q.queue - {crd.name}, None);
    Looks(r, |list|);
    GatherWhole(q.s, crd, list);
  }

  lemma {:induction false} OthersEnd(q: QState, r: QState, out: SyncOutcome, key: string, list: seq<CRD>)
    requires DecidedAs(q, r, out, key, list) && r.s.pos <= |r.s.log| && Enumerates(list, Lister(r.s))
    ensures Ends(QRun(QApply(r, ListOthers(list)), Repeat(QueueOne, |list| + 1)), out, key)
  {
    Others(r, list);
  }

  lemma {:induction false} BusyTake(q: QState, crd: CRD, list: seq<CRD>, admitted: bool)
    requires BaseOk(q.s) && crd.name in q.queue && q.s.phase.Idle? && q.requeue.None? && Enumerates(list, Lister(q.s))
    requires crd.name in Lister(q.s) && Lister(q.s)[crd.name] == crd && crd.spec.names != crd.accepted
    ensures Ends(QRun(q, QSyncSteps(crd.name, list, admitted)),
                 SyncOutcomeOf(Lister(q.s), q.s.cache, q.queue - {crd.name}, q.s.log, crd.name, list, admitted), crd.name)
  {
    QSyncSplit(q, crd.name, list, admitted);
    BusyLooks(q, crd, list);
    var looked := QRun(QApply(QApply(q, Take(crd.name)), ListNames(list)), Repeat(Look, |list|));
    BusyDecision(looked, crd, Lister(q.s), list, admitted);
    DecisionKeepsListed(looked, admitted);
    var out := SyncOutcomeOf(Lister(q.s), q.s.cache, q.queue - {crd.name}, q.s.log, crd.name, list, admitted);
    OthersEnd(looked, Decided(looked, admitted), out, crd.name, list);
  }

  lemma {:induction false} DecisionKeepsListed(q: QState, admitted: bool)
    requires q.s.pos <= |q.s.log| && q.s.phase.Gathering? && q.s.phase.todo == []
    ensures QApply(q, Decide(admitted)) == Decided(q, admitted)
    ensures var t := Decided(q, admitted).s; t.pos == q.s.pos <= |t.log| && Lister(t) == Lister(q.s)
  {
    var t := Decided(q, admitted).s;
    assert t == NamingWritten(q.s, admitted);
    assert t.log[..q.s.pos] == q.s.log[..q.s.pos];
  }

  /** Taking a key and all that follows, with nothing in between, is the controller's Sync; a key that failed is back in the queue. */
  lemma {:induction false} QueueRunIsSync(q: QState, key: string, list: seq<CRD>, admitted: bool)
    requires BaseOk(q.s) && key in q.queue && q.s.phase.Idle? && q.requeue.None? && Enumerates(list, Lister(q.s))
    ensures var r, out := QRun(q, QSyncSteps(key, list, admitted)),
                          SyncOutcomeOf(Lister(q.s), q.s.cache, q.queue - {key}, q.s.log, key, list, admitted);
      && r.s.log == out.log && r.s.cache == out.cache && r.s.phase.Idle? && r.requeue.None?
      && r.queue == out.queue + if out.ok then {} else {key}
  {
    if key in Lister(q.s) && Lister(q.s)[key].spec.names != Lister(q.s)[key].accepted {
      ListedGroup(q.s, key);
      BusyTake(q, Lister(q.s)[key], list, admitted);
    } else {
      IdleTake(q, key, list, admitted);
    }
  }
}
