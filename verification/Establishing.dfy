/** The establishing controller, the only writer of Established=True. */
module Establishing {
  import opened Crds
  import opened Registry

  const INVALID_CA_BUNDLE := Condition(Established, StatusFalse, "InvalidCABundle", Text("The conversion webhook CABundle is invalid"))
  const ESTABLISHED := Condition(Established, StatusTrue, "InitialNamesAccepted", Text("the initial names have been accepted"))

  /** There is work only for a CRD whose names are accepted and that is not established yet. */
  predicate NeedsEstablishing(crd: CRD) {
    IsTrue(crd.conditions, NamesAccepted) && !IsTrue(crd.conditions, Established)
  }

  function EstablishWriteOf(crd: CRD): CRD {
    crd.(conditions := SetCondition(crd.conditions, if crd.spec.badCABundle then INVALID_CA_BUNDLE else ESTABLISHED))
  }

  /** The log after one synchronisation. */
  function SyncLog(lister: map<string, CRD>, log: seq<Event>, key: string, admitted: bool): seq<Event> {
    if key !in lister || !NeedsEstablishing(lister[key]) || !admitted then log
    else StatusUpdate(log, EstablishWriteOf(lister[key])).0
  }

  /** `after` is `before` with another Established condition and resource version. */
  ghost predicate OnlyEstablishedDiffers(before: CRD, after: CRD) {
    && after.name == before.name && after.uid == before.uid && after.deleting == before.deleting
    && after.finalizers == before.finalizers && after.spec == before.spec && after.accepted == before.accepted
    && forall t :: t != Established ==> FindCondition(after.conditions, t) == FindCondition(before.conditions, t)
  }

  /** A CRD is established, unless the CA bundle of its conversion webhook is invalid, which is then the reason given. */
  ghost predicate EstablishedOrExplained(before: CRD, after: CRD) {
    && OnlyEstablishedDiffers(before, after)
    && (IsTrue(after.conditions, Established) <==> !before.spec.badCABundle)
    && exists c :: FindCondition(after.conditions, Established) == Some(c)
         && c.reason == (if before.spec.badCABundle then "InvalidCABundle" else "InitialNamesAccepted")
         && c.status == (if before.spec.badCABundle then StatusFalse else StatusTrue)
  }

  lemma {:induction false} WriteEstablishesOrExplains(crd: CRD)
    ensures EstablishedOrExplained(crd, EstablishWriteOf(crd))
  {
    forall t {
      SetThenFind(crd.conditions, if crd.spec.badCABundle then INVALID_CA_BUNDLE else ESTABLISHED, t);
    }
  }

  /** What the write does to the server when the copy it is made from is the stored object. */
  lemma {:induction false} WriteEstablishes(log: seq<Event>, crd: CRD)
    requires crd.name in Replay(log) && Replay(log)[crd.name] == crd && (crd.deleting ==> crd.finalizers != [])
    ensures var (l, r) := StatusUpdate(log, EstablishWriteOf(crd));
      && r.Written?
      && crd.name in Replay(l) && EstablishedOrExplained(crd, Replay(l)[crd.name])
      && forall n :: n != crd.name ==> (n in Replay(l) <==> n in Replay(log)) && (n in Replay(log) ==> Replay(l)[n] == Replay(log)[n])
  {
    WriteEstablishesOrExplains(crd);
    var (l, r) := StatusUpdate(log, EstablishWriteOf(crd));
    if l != log {
      ReplayAppend(log, l[|log|]);
    }
  }

  class EstablishingController {
    var lister: map<string, CRD>

    constructor ()
      ensures lister == map[]
    {
      lister := map[];
    }

    /**
     Nothing is written for a CRD whose names are not accepted, or that is established. Any other
     is established by the first sync whose copy is the stored object, or told what is wrong with its CA bundle.
     */
    method Sync(key: string, server: ApiServer, admitted: bool) returns (ok: bool)
      modifies server
      ensures server.log == SyncLog(lister, old(server.log), key, admitted)
      ensures key !in lister || !IsTrue(lister[key].conditions, NamesAccepted) || IsTrue(lister[key].conditions, Established) ==>
        server.log == old(server.log) && ok
      ensures !admitted ==> server.log == old(server.log)
      ensures key in lister && NeedsEstablishing(lister[key]) && admitted ==>
        var (log, r) := StatusUpdate(old(server.log), EstablishWriteOf(lister[key]));
        server.log == log && (ok <==> r != Rejected)
      ensures key in lister && NeedsEstablishing(lister[key]) && !admitted ==> !ok
      ensures
        && key in lister && lister[key].name == key && (lister[key].deleting ==> lister[key].finalizers != [])
        && IsTrue(lister[key].conditions, NamesAccepted) && !IsTrue(lister[key].conditions, Established)
        && key in Replay(old(server.log)) && Replay(old(server.log))[key] == lister[key] && admitted
        ==> ok && key in Replay(server.log) && EstablishedOrExplained(lister[key], Replay(server.log)[key])
    {
      if key !in lister {
        return true;
      }
      var cached := lister[key];
      if !IsTrue(cached.conditions, NamesAccepted) || IsTrue(cached.conditions, Established) {
        return true;
      }
      var copy := new CrdObject(cached);
      if cached.spec.badCABundle {
        copy.SetCRDCondition(INVALID_CA_BUNDLE);
      } else {
        copy.SetCRDCondition(ESTABLISHED);
      }
      var r := server.UpdateStatus(copy.crd, admitted);
      ghost var log := old(server.log);
      if admitted && key in Replay(log) && Replay(log)[key] == cached && cached.name == key && (cached.deleting ==> cached.finalizers != []) {
        WriteEstablishes(log, cached);
      }
      return !r.Rejected?;
    }
  }
}
