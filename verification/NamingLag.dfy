/**
 Why the potential of the store needs a lister that has seen every removal: a state of the
 lifecycle machine in which one write of the naming controller raises it.

 The CRD `as.g` held the name "x" and is gone from the server, but not yet from the lister.
 The CRD `bs.g` has all four names it was created with, and its spec now asks for "x". The
 controller refuses "x" and says so, which the names held on the server do not ask for.
 */
module NamingLag {
  import opened Crds
  import opened Registry
  import opened Naming
  import opened History
  import opened Lifecycle
  import opened LifecycleTheorems
  import opened MutationCache
  import opened NamingRuns
  import opened NamingTermination

  const A_NAMES := Names("as", "x", [], "A", "AList", [])
  const B_NAMES := Names("bs", "b", [], "B", "BList", [])
  const B_WANTS := B_NAMES.(singular := "x")
  const ALL_GRANTED := Condition(NamesAccepted, StatusTrue, "NoConflicts", Text("no conflicts found"))
  const X_REFUSED := Condition(NamesAccepted, StatusFalse, "SingularConflict", InUse(["x"]))

  function SpecFor(names: Names): Spec {
    Spec("g", names, [], true, false, 0)
  }

  /** Created, and named. */
  const A1 := CRD("as.g", 1, 1, false, [], SpecFor(A_NAMES), NO_NAMES, [])
  const A2 := CRD("as.g", 1, 2, false, [], SpecFor(A_NAMES), A_NAMES, [ALL_GRANTED, INSTALLING])
  /** Created, named, and changed by its owner. */
  const B3 := CRD("bs.g", 3, 3, false, [], SpecFor(B_NAMES), NO_NAMES, [])
  const B4 := CRD("bs.g", 3, 4, false, [], SpecFor(B_NAMES), B_NAMES, [ALL_GRANTED, INSTALLING])
  const B5 := CRD("bs.g", 3, 5, false, [], SpecFor(B_WANTS), B_NAMES, [ALL_GRANTED, INSTALLING])

  /** Marked for deletion, and then removed. */
  const A6 := CRD("as.g", 1, 6, true, [CLEANUP_FINALIZER], SpecFor(A_NAMES), A_NAMES, [ALL_GRANTED, INSTALLING, DELETION_PENDING])

  const LOG := [Put(A1), Put(A2), Put(B3), Put(B4), Put(B5), Put(A6), Del("as.g")]

  const LAGGING := State(LOG, 6, map["as.g" := A2, "bs.g" := B4], Idle, {})

  lemma {:induction false} OneMore(k: nat)
    requires k < |LOG|
    ensures Replay(LOG[..k + 1]) == ApplyEvent(Replay(LOG[..k]), LOG[k])
  {
    assert LOG[..k + 1] == LOG[..k] + [LOG[k]];
    ReplayAppend(LOG[..k], LOG[k]);
  }

  lemma {:induction false} ReplaysOfThree()
    ensures Replay(LOG[..0]) == map[]
    ensures Replay(LOG[..1]) == map["as.g" := A1]
    ensures Replay(LOG[..2]) == map["as.g" := A2]
    ensures Replay(LOG[..3]) == map["as.g" := A2, "bs.g" := B3]
  {
    OneMore(0);
    OneMore(1);
    OneMore(2);
    assert LOG[..0] == [];
    assert Replay(LOG[..1]) == map["as.g" := A1];
    assert Replay(LOG[..2]) == map["as.g" := A2];
  }

  lemma {:induction false} ReplaysOfFive()
    ensures Replay(LOG[..4]) == map["as.g" := A2, "bs.g" := B4]
    ensures Replay(LOG[..5]) == map["as.g" := A2, "bs.g" := B5]
  {
    ReplaysOfThree();
    OneMore(3);
    OneMore(4);
    assert Replay(LOG[..4]) == map["as.g" := A2, "bs.g" := B4];
  }

  lemma {:induction false} ReplaysOfSeven()
    ensures Replay(LOG[..6]) == map["as.g" := A6, "bs.g" := B5]
    ensures Replay(LOG[..7]) == map["bs.g" := B5]
  {
    ReplaysOfFive();
    OneMore(5);
    OneMore(6);
    assert Replay(LOG[..6]) == map["as.g" := A6, "bs.g" := B5];
  }

  lemma {:induction false} Replays()
    ensures Replay(LOG[..0]) == map[]
    ensures Replay(LOG[..1]) == map["as.g" := A1]
    ensures Replay(LOG[..2]) == map["as.g" := A2]
    ensures Replay(LOG[..3]) == map["as.g" := A2, "bs.g" := B3]
    ensures Replay(LOG[..4]) == map["as.g" := A2, "bs.g" := B4]
    ensures Replay(LOG[..5]) == map["as.g" := A2, "bs.g" := B5]
    ensures Replay(LOG[..6]) == map["as.g" := A6, "bs.g" := B5]
    ensures Replay(LOG) == Replay(LOG[..7]) == map["bs.g" := B5]
  {
    ReplaysOfThree();
    ReplaysOfFive();
    ReplaysOfSeven();
    assert LOG[..7] == LOG;
  }

  lemma {:induction false} VersionsAreOk()
    ensures VersionOk(A1) && VersionOk(A2) && VersionOk(B3) && VersionOk(B4) && VersionOk(B5) && VersionOk(A6)
  {
    assert "as.g" == "as" + "." + "g" && "bs.g" == "bs" + "." + "g";
    assert FindCondition([ALL_GRANTED, INSTALLING], NamesAccepted) == Some(ALL_GRANTED);
    assert [ALL_GRANTED, INSTALLING][1..] == [INSTALLING];
    assert FindCondition([ALL_GRANTED, INSTALLING], Established) == Some(INSTALLING);
    var cs := [ALL_GRANTED, INSTALLING, DELETION_PENDING];
    assert cs[1..] == [INSTALLING, DELETION_PENDING] && cs[1..][1..] == [DELETION_PENDING];
    assert FindCondition(cs[1..][1..], Terminating) == Some(DELETION_PENDING);
    assert FindCondition(cs[1..], Terminating) == Some(DELETION_PENDING);
    assert FindCondition(cs, Established) == FindCondition(cs[1..], Established);
  }

  lemma {:induction false} LogIsOk()
    ensures LogOk(LOG)
  {
    Replays();
    VersionsAreOk();
    forall i | 0 <= i < |LOG|
      ensures EventOk(LOG, i)
    {
      assert i == 0 || i == 1 || i == 2 || i == 3 || i == 4 || i == 5 || i == 6;
    }
  }

  /** `as.g` holds its names or none, and so does `bs.g`. */
  predicate HoldTheirOwn(m: map<string, CRD>) {
    && m.Keys <= {"as.g", "bs.g"}
    && ("as.g" in m ==> m["as.g"].accepted in {NO_NAMES, A_NAMES})
    && ("bs.g" in m ==> m["bs.g"].accepted in {NO_NAMES, B_NAMES})
  }

  lemma {:induction false} WhatIsHeld()
    ensures HeldResources(NO_NAMES) == {} && HeldKinds(NO_NAMES) == {}
    ensures HeldResources(A_NAMES) == {"as", "x"} && HeldResources(B_NAMES) == {"bs", "b"}
    ensures HeldKinds(A_NAMES) == {"A", "AList"} && HeldKinds(B_NAMES) == {"B", "BList"}
  {
  }

  lemma {:induction false} NamesAreApart(a: Names, b: Names)
    requires a in {NO_NAMES, A_NAMES} && b in {NO_NAMES, B_NAMES}
    ensures HeldResources(a) !! HeldResources(b) && HeldKinds(a) !! HeldKinds(b)
  {
    WhatIsHeld();
    assert {"as", "x"} !! {"bs", "b"} && {"A", "AList"} !! {"B", "BList"};
  }

  lemma {:induction false} OwnNamesAreNotShared(m: map<string, CRD>)
    requires HoldTheirOwn(m)
    ensures NoSharedNames(m)
  {
    if "as.g" in m && "bs.g" in m {
      NamesAreApart(m["as.g"].accepted, m["bs.g"].accepted);
    }
    forall a, b | a in m && b in m && a != b
      ensures HeldResources(m[a].accepted) !! HeldResources(m[b].accepted) && HeldKinds(m[a].accepted) !! HeldKinds(m[b].accepted)
    {
      assert (a == "as.g" && b == "bs.g") || (a == "bs.g" && b == "as.g");
    }
  }

  lemma {:induction false} NothingShared()
    ensures forall p :: 0 <= p <= |LOG| ==> NoSharedNames(Replay(LOG[..p]))
  {
    forall p | 0 <= p <= |LOG|
      ensures NoSharedNames(Replay(LOG[..p]))
    {
      assert HoldTheirOwn(Replay(LOG[..p])) by {
        Replays();
        assert p == 0 || p == 1 || p == 2 || p == 3 || p == 4 || p == 5 || p == 6 || p == 7;
      }
      OwnNamesAreNotShared(Replay(LOG[..p]));
    }
  }

  lemma {:induction false} CacheIsAhead()
    ensures CacheLeads(LAGGING)
  {
    Replays();
    forall i | 0 <= i < |LOG|
      ensures NamesKept(LOG, i) || Cached(LAGGING.cache, LOG[i], i + 1)
    {
      assert i == 0 || i == 1 || i == 2 || i == 3 || i == 4 || i == 5 || i == 6;
    }
  }

  lemma {:induction false} NamesAreTracked()
    ensures forall n :: n in Store(LAGGING) ==> Tracked(LAGGING, n)
  {
    Replays();
    assert Tracked(LAGGING, "bs.g");
  }

  lemma {:induction false} LaggingIsFine()
    ensures Inv(LAGGING) && CacheLeads(LAGGING)
  {
    LogIsOk();
    NothingShared();
    NamesAreTracked();
    CacheIsAhead();
  }

  /** The names that the controller counts as used include the one that is free. */
  lemma {:induction false} Counted()
    ensures UsedResources([A6, B5], Lister(LAGGING), LAGGING.cache, "g") == {"as", "x", "bs", "b"}
    ensures UsedKinds([A6, B5], Lister(LAGGING), LAGGING.cache, "g") == {"A", "AList", "B", "BList"}
  {
    Replays();
    assert [A6, B5][..1] == [A6] && [A6][..0] == [];
    assert UsedResources([A6], Lister(LAGGING), LAGGING.cache, "g") == {"as", "x"};
    assert UsedKinds([A6], Lister(LAGGING), LAGGING.cache, "g") == {"A", "AList"};
  }

  /** On the server only the names of `bs.g` are held. */
  lemma {:induction false} ReallyHeld()
    ensures ResourcesHeld(map["bs.g" := B5], "g") == {"bs", "b"}
    ensures KindsHeld(map["bs.g" := B5], "g") == {"B", "BList"}
  {
    var m := map["bs.g" := B5];
    assert m["bs.g"] == B5 && "bs.g" in m;
    assert ResourceNames(B_NAMES) == {"bs", "b"} && KindNames(B_NAMES) == {"B", "BList"};
    forall x
      ensures x in ResourcesHeld(m, "g") <==> x in ResourceNames(m["bs.g"].accepted)
      ensures x in KindsHeld(m, "g") <==> x in KindNames(m["bs.g"].accepted)
    {
    }
  }

  /** What the controller works out for `bs.g`, and what the names really held ask for. */
  lemma {:induction false} Computed()
    ensures GrantedNames(B5, {"as", "x", "bs", "b"}, {"A", "AList", "B", "BList"}) == B_NAMES
    ensures NamesCondition(B5, {"as", "x", "bs", "b"}, {"A", "AList", "B", "BList"}) == X_REFUSED
    ensures ComputedUnder(B5, map["bs.g" := B5]) == ALL_GRANTED
    ensures FindCondition(B5.conditions, NamesAccepted) == Some(ALL_GRANTED)
  {
    ReallyHeld();
  }

  /** The version that refuses "x". */
  function Refusing(): CRD {
    NamingWriteOf(B5, {"as", "x", "bs", "b"}, {"A", "AList", "B", "BList"}).(rv := 8)
  }

  lemma {:induction false} RefusalIsSent()
    ensures SyncedLog(LAGGING, "bs.g", [A6, B5]) == StatusUpdate(LOG, NamingWriteOf(B5, {"as", "x", "bs", "b"}, {"A", "AList", "B", "BList"})).0
  {
    Counted();
    Computed();
    assert Lister(LAGGING)["bs.g"] == B5 by {
      Replays();
    }
  }

  lemma {:induction false} RefusalIsNews()
    ensures !NothingToWrite(B5, {"as", "x", "bs", "b"}, {"A", "AList", "B", "BList"})
  {
    Computed();
  }

  lemma {:induction false} RefusalIsCommitted(s: State)
    requires Inv(s) && s.log == LOG && Store(s) == map["bs.g" := B5]
    ensures StatusUpdate(LOG, NamingWriteOf(B5, {"as", "x", "bs", "b"}, {"A", "AList", "B", "BList"})).0 == LOG + [Put(Refusing())]
    ensures Replay(LOG + [Put(Refusing())]) == map["bs.g" := Refusing()]
  {
    RefusalIsNews();
    assert |LOG| == 7;
    WriteIsCommitted(s, "bs.g", {"as", "x", "bs", "b"}, {"A", "AList", "B", "BList"});
  }

  lemma {:induction false} RefusalIsWritten()
    ensures SyncedLog(LAGGING, "bs.g", [A6, B5]) == LOG + [Put(Refusing())]
    ensures Replay(LOG + [Put(Refusing())]) == map["bs.g" := Refusing()]
  {
    LaggingIsFine();
    assert Store(LAGGING) == map["bs.g" := B5] by {
      Replays();
    }
    RefusalIsCommitted(LAGGING);
    RefusalIsSent();
  }

  /** The refusal was not called for, and is out of date as soon as it is written. */
  lemma {:induction false} RefusalRaises()
    ensures Potential(map["bs.g" := Refusing()]) == Potential(map["bs.g" := B5]) + 1
  {
    var m := map["bs.g" := B5];
    Computed();
    ConditionsAfterNaming(B5, {"as", "x", "bs", "b"}, {"A", "AList", "B", "BList"}, NamesAccepted);
    assert m["bs.g" := Refusing()] == map["bs.g" := Refusing()];
    ConditionWriteStale(m, "bs.g", Refusing(), {"as", "x", "bs", "b"}, {"A", "AList", "B", "BList"});
    SameMismatches(m, map["bs.g" := Refusing()]);
    assert "bs.g" !in StaleConditions(m);
  }

  /** The only event the lister has not seen is the removal. */
  lemma {:induction false} LaggingBehindARemoval()
    ensures Pending(LAGGING) == {6}
    ensures Enumerates([A6, B5], Lister(LAGGING)) && Lister(LAGGING)["bs.g"] == Replay(LOG)["bs.g"]
  {
    Replays();
    assert 6 in Pending(LAGGING);
  }

  /** The synchronisation of `bs.g` writes, and the potential of the store goes up. */
  lemma {:induction false} LaggingWriteRaisesPotential()
    ensures Inv(LAGGING) && CacheLeads(LAGGING) && Clean(LAGGING) && Pending(LAGGING) == {6}
    ensures Enumerates([A6, B5], Lister(LAGGING)) && Lister(LAGGING)["bs.g"] == Replay(LOG)["bs.g"]
    ensures Potential(Replay(SyncedLog(LAGGING, "bs.g", [A6, B5]))) == Potential(Store(LAGGING)) + 1
  {
    LaggingIsFine();
    LaggingBehindARemoval();
    assert Store(LAGGING) == map["bs.g" := B5] by {
      Replays();
    }
    RefusalIsWritten();
    RefusalRaises();
  }
}
