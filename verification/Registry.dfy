/**
 The API server's storage of CRDs, as the strategies configure it: every write is
 conditional on the resource version, the main endpoint keeps the stored status and
 the status endpoint keeps the stored spec.

 The server is an append-only log of committed changes. The resource version of a
 version is its position in the log (counted from one), and the UID of an object is
 the resource version it was created at, so both are never used twice.
 */
module Registry {
  import opened Crds

  datatype Event = Put(crd: CRD) | Del(name: string)

  function ApplyEvent(m: map<string, CRD>, e: Event): map<string, CRD> {
    match e
    case Put(c) => m[c.name := c]
    case Del(n) => m - {n}
  }

  /** The objects after the whole log. A lister that lags behind holds the replay of a prefix. */
  function Replay(log: seq<Event>): map<string, CRD> {
    if log == [] then map[] else ApplyEvent(Replay(log[..|log| - 1]), log[|log| - 1])
  }

  lemma {:induction false} ReplayAppend(log: seq<Event>, e: Event)
    ensures Replay(log + [e]) == ApplyEvent(Replay(log), e)
  {
    assert (log + [e])[..|log + [e]| - 1] == log;
  }

  datatype WriteResult = Written(crd: CRD) | NotFound | Conflict | Rejected

  /**
   Commits `obj` over the stored object. A write that changes nothing keeps the stored version, and a
   deleting object whose last finalizer goes is removed.
   */
  function Commit(log: seq<Event>, stored: CRD, obj: CRD): (r: (seq<Event>, CRD)) {
    var next := obj.(rv := |log| + 1);
    if obj.(rv := stored.rv) == stored then (log, stored)
    else if obj.deleting && obj.finalizers == [] then (log + [Del(obj.name)], next)
    else (log + [Put(next)], next)
  }

  /** No finalizer may be added to an object that is being deleted. */
  predicate FinalizersAllowed(stored: CRD, fs: seq<string>) {
    stored.deleting ==> forall f :: f in fs ==> f in stored.finalizers
  }

  /** The status endpoint: spec, UID and deletion mark come from the stored object. */
  function StatusUpdate(log: seq<Event>, obj: CRD): (r: (seq<Event>, WriteResult)) {
    var store := Replay(log);
    if obj.name !in store then (log, NotFound)
    else
      var stored := store[obj.name];
      if obj.rv != stored.rv then (log, Conflict)
      else if !FinalizersAllowed(stored, obj.finalizers) then (log, Rejected)
      else
        var (l, c) := Commit(log, stored, obj.(spec := stored.spec, uid := stored.uid, deleting := stored.deleting));
        (l, Written(c))
  }

  /** What validation lets an update of the main endpoint do to a spec. */
  predicate SpecUpdateAllowed(stored: CRD, spec: Spec) {
    && FourNames(spec.names)
    && ValidName(stored.name, spec)
    && spec.group == stored.spec.group
    && spec.names.plural == stored.spec.names.plural
    && (IsTrue(stored.conditions, Established) ==>
          spec.names.kind == stored.spec.names.kind && spec.namespaced == stored.spec.namespaced)
  }

  /** The main endpoint: status, UID and deletion mark come from the stored object. */
  function MainUpdate(log: seq<Event>, obj: CRD): (r: (seq<Event>, WriteResult)) {
    var store := Replay(log);
    if obj.name !in store then (log, NotFound)
    else
      var stored := store[obj.name];
      if obj.rv != stored.rv then (log, Conflict)
      else if !FinalizersAllowed(stored, obj.finalizers) || !SpecUpdateAllowed(stored, obj.spec) then (log, Rejected)
      else
        var (l, c) := Commit(log, stored,
          obj.(accepted := stored.accepted, conditions := stored.conditions, uid := stored.uid, deleting := stored.deleting));
        (l, Written(c))
  }

  /** Creation starts from an empty status, whatever the client sent. */
  function Creation(log: seq<Event>, obj: CRD): (r: (seq<Event>, WriteResult)) {
    if obj.name in Replay(log) then (log, Conflict)
    else if !FourNames(obj.spec.names) || !ValidName(obj.name, obj.spec) then (log, Rejected)
    else
      var v := |log| + 1;
      var c := obj.(uid := v, rv := v, deleting := false, accepted := NO_NAMES, conditions := []);
      (log + [Put(c)], Written(c))
  }

  const DELETION_PENDING := Condition(Terminating, StatusTrue, "InstanceDeletionPending",
    Text("CustomResourceDefinition marked for deletion; CustomResource deletion will begin soon"))

  /** The first deletion request: deletion mark, cleanup finalizer and Terminating in one write. */
  function MarkedForDeletion(stored: CRD): CRD {
    stored.(deleting := true,
         finalizers := if CLEANUP_FINALIZER in stored.finalizers then stored.finalizers else stored.finalizers + [CLEANUP_FINALIZER],
         conditions := SetCondition(stored.conditions, DELETION_PENDING))
  }

  /** The marking transaction, on whatever is stored when it runs. */
  function Marking(log: seq<Event>, name: string): (r: (seq<Event>, WriteResult)) {
    var store := Replay(log);
    if name !in store then (log, NotFound)
    else
      var (l, c) := Commit(log, store[name], MarkedForDeletion(store[name]));
      (l, Written(c))
  }

  /** Later requests find finalizers pending and leave the object as it is. */
  function Deletion(log: seq<Event>, name: string): (r: (seq<Event>, WriteResult)) {
    var store := Replay(log);
    if name in store && store[name].deleting then (log, Written(store[name])) else Marking(log, name)
  }

  // ---------------------------------------------- what a write does, spelled out

  ghost predicate OthersUntouched(m: map<string, CRD>, m': map<string, CRD>, name: string) {
    forall n :: n != name ==> (n in m' <==> n in m) && (n in m ==> m'[n] == m[n])
  }

  /** The object is what was asked for, under a new resource version unless nothing changed. */
  predicate Stored(log: seq<Event>, before: CRD, wanted: CRD, m: map<string, CRD>) {
    && before.name in m
    && m[before.name] == wanted.(rv := if wanted.(rv := before.rv) == before then before.rv else |log| + 1)
  }

  /** Overwriting the stored object: it is removed exactly when it is being deleted and keeps no finalizer. */
  lemma {:induction false} CommitMeans(log: seq<Event>, stored: CRD, obj: CRD)
    requires obj.name == stored.name && stored.name in Replay(log) && Replay(log)[stored.name] == stored
    requires stored.deleting ==> stored.finalizers != []
    ensures var (l, c) := Commit(log, stored, obj);
      && OthersUntouched(Replay(log), Replay(l), stored.name)
      && (if obj.deleting && obj.finalizers == [] then stored.name !in Replay(l) else Stored(log, stored, obj, Replay(l)) && c == Replay(l)[stored.name])
  {
    var (l, c) := Commit(log, stored, obj);
    if l != log {
      ReplayAppend(log, l[|log|]);
    }
  }

  /** The status endpoint takes accepted names, conditions and finalizers, and nothing else, from a client that saw the stored version. */
  lemma {:induction false} StatusUpdateMeans(log: seq<Event>, obj: CRD)
    ensures var m, (l, r) := Replay(log), StatusUpdate(log, obj);
      && (r.NotFound? <==> obj.name !in m)
      && (r.Conflict? <==> obj.name in m && obj.rv != m[obj.name].rv)
      && (r.Rejected? <==> (obj.name in m && obj.rv == m[obj.name].rv
            && m[obj.name].deleting && exists f :: f in obj.finalizers && f !in m[obj.name].finalizers))
      && (!r.Written? ==> l == log)
      && (r.Written? && m[obj.name].name == obj.name && (m[obj.name].deleting ==> m[obj.name].finalizers != []) ==>
            var before := m[obj.name];
            && OthersUntouched(m, Replay(l), obj.name)
            && if before.deleting && obj.finalizers == [] then obj.name !in Replay(l)
               else Stored(log, before, before.(accepted := obj.accepted, conditions := obj.conditions, finalizers := obj.finalizers), Replay(l)))
  {
    var m := Replay(log);
    if obj.name in m && m[obj.name].name == obj.name && (m[obj.name].deleting ==> m[obj.name].finalizers != []) {
      var stored := m[obj.name];
      CommitMeans(log, stored, obj.(spec := stored.spec, uid := stored.uid, deleting := stored.deleting));
    }
  }

  /**
   The main endpoint takes the spec and the finalizers. The new spec names its four names and keeps group and plural;
   once the CRD is established it keeps kind and scope too.
   */
  lemma {:induction false} MainUpdateMeans(log: seq<Event>, obj: CRD)
    ensures var m, (l, r) := Replay(log), MainUpdate(log, obj);
      && (r.NotFound? <==> obj.name !in m)
      && (r.Conflict? <==> obj.name in m && obj.rv != m[obj.name].rv)
      && (!r.Written? ==> l == log)
      && (obj.name in m && obj.rv == m[obj.name].rv ==>
            var before := m[obj.name];
            (r.Written? <==>
              && (before.deleting ==> forall f :: f in obj.finalizers ==> f in before.finalizers)
              && obj.spec.names.plural != "" && obj.spec.names.singular != "" && obj.spec.names.kind != "" && obj.spec.names.listKind != ""
              && before.name == obj.spec.names.plural + "." + obj.spec.group && '.' !in obj.spec.names.plural
              && obj.spec.group == before.spec.group && obj.spec.names.plural == before.spec.names.plural
              && (IsTrue(before.conditions, Established) ==>
                    obj.spec.names.kind == before.spec.names.kind && obj.spec.namespaced == before.spec.namespaced)))
      && (r.Written? && m[obj.name].name == obj.name && (m[obj.name].deleting ==> m[obj.name].finalizers != []) ==>
            var before := m[obj.name];
            && OthersUntouched(m, Replay(l), obj.name)
            && if before.deleting && obj.finalizers == [] then obj.name !in Replay(l)
               else Stored(log, before, before.(spec := obj.spec, finalizers := obj.finalizers), Replay(l)))
  {
    var m := Replay(log);
    if obj.name in m && m[obj.name].name == obj.name && (m[obj.name].deleting ==> m[obj.name].finalizers != []) {
      var stored := m[obj.name];
      CommitMeans(log, stored,
        obj.(accepted := stored.accepted, conditions := stored.conditions, uid := stored.uid, deleting := stored.deleting));
    }
  }

  /** A new object starts without names, conditions or deletion mark, under a UID never used before. */
  lemma {:induction false} CreationMeans(log: seq<Event>, obj: CRD)
    ensures var m, (l, r) := Replay(log), Creation(log, obj);
      && (r.Written? <==> (obj.name !in m
            && obj.spec.names.plural != "" && obj.spec.names.singular != "" && obj.spec.names.kind != "" && obj.spec.names.listKind != ""
            && obj.name == obj.spec.names.plural + "." + obj.spec.group && '.' !in obj.spec.names.plural))
      && (r.Written? ==>
            && OthersUntouched(m, Replay(l), obj.name) && obj.name in Replay(l)
            && var after := Replay(l)[obj.name];
               && after.uid == after.rv == |log| + 1 && !after.deleting && after.conditions == [] && after.accepted == NO_NAMES
               && after.name == obj.name && after.spec == obj.spec && after.finalizers == obj.finalizers)
      && (!r.Written? ==> l == log)
  {
    var (l, r) := Creation(log, obj);
    if r.Written? {
      ReplayAppend(log, Put(r.crd));
    }
  }

  /** A marked object: being deleted, held by the cleanup finalizer, Terminating for the pending clean-up, and otherwise as it was. */
  ghost predicate IsMarked(before: CRD, after: CRD) {
    && after.deleting && CLEANUP_FINALIZER in after.finalizers
    && (forall f :: f != CLEANUP_FINALIZER ==> (f in after.finalizers <==> f in before.finalizers))
    && (exists c :: FindCondition(after.conditions, Terminating) == Some(c) && c.status == StatusTrue && c.reason == "InstanceDeletionPending")
    && (forall t :: t != Terminating ==> FindCondition(after.conditions, t) == FindCondition(before.conditions, t))
    && after.name == before.name && after.uid == before.uid && after.spec == before.spec && after.accepted == before.accepted
  }

  lemma {:induction false} MarkingMeans(log: seq<Event>, name: string)
    requires name in Replay(log) ==> Replay(log)[name].name == name && (Replay(log)[name].deleting ==> Replay(log)[name].finalizers != [])
    ensures var m, (l, r) := Replay(log), Marking(log, name);
      && (r.NotFound? <==> name !in m) && (r.Written? <==> name in m)
      && (r.NotFound? ==> l == log)
      && (r.Written? ==> OthersUntouched(m, Replay(l), name) && name in Replay(l) && IsMarked(m[name], Replay(l)[name]))
  {
    var m := Replay(log);
    if name in m {
      var stored := m[name];
      forall t {
        SetThenFind(stored.conditions, DELETION_PENDING, t);
      }
      CommitMeans(log, stored, MarkedForDeletion(stored));
      assert IsMarked(stored, MarkedForDeletion(stored));
    }
  }

  /** A deletion request marks an object once, and leaves a marked one as it is. */
  lemma {:induction false} DeletionMeans(log: seq<Event>, name: string)
    requires name in Replay(log) ==> Replay(log)[name].name == name && (Replay(log)[name].deleting ==> Replay(log)[name].finalizers != [])
    ensures var m, (l, r) := Replay(log), Deletion(log, name);
      && (name !in m || m[name].deleting ==> l == log)
      && (name in m && !m[name].deleting ==> OthersUntouched(m, Replay(l), name) && name in Replay(l) && IsMarked(m[name], Replay(l)[name]))
  {
    MarkingMeans(log, name);
  }

  /** The server the controllers talk to. `admitted` is false when something outside the model refuses the write. */
  class ApiServer {
    var log: seq<Event>

    constructor ()
      ensures log == []
    {
      log := [];
    }

    method UpdateStatus(obj: CRD, admitted: bool) returns (r: WriteResult)
      modifies this
      ensures admitted ==> (log, r) == StatusUpdate(old(log), obj)
      ensures !admitted ==> log == old(log) && r == Rejected
    {
      if !admitted {
        return Rejected;
      }
      var store := Replay(log);
      if obj.name !in store {
        return NotFound;
      }
      var stored := store[obj.name];
      if obj.rv != stored.rv {
        return Conflict;
      }
      if !FinalizersAllowed(stored, obj.finalizers) {
        return Rejected;
      }
      var merged := obj;
      merged := merged.(spec := stored.spec);
      merged := merged.(uid := stored.uid, deleting := stored.deleting);
      var (l, c) := Commit(log, stored, merged);
      log := l;
      return Written(c);
    }

    /** The override of the generic deletion; `uid` and `rv` are the caller's optional preconditions. */
    method Delete(name: string, uid: Option<nat>, rv: Option<nat>) returns (r: WriteResult)
      modifies this
      ensures name in Replay(old(log))
        && (uid.Some? ==> uid.value == Replay(old(log))[name].uid)
        && (rv.Some? ==> rv.value == Replay(old(log))[name].rv)
        ==> (log, r) == Deletion(old(log), name)
      ensures name in Replay(old(log))
        && ((uid.Some? && uid.value != Replay(old(log))[name].uid) || (rv.Some? && rv.value != Replay(old(log))[name].rv))
        ==> log == old(log) && r == Conflict
      ensures name !in Replay(old(log)) ==> log == old(log) && r == NotFound
    {
      var store := Replay(log);
      if name !in store {
        return NotFound;
      }
      var stored := store[name];
      if uid.Some? && uid.value != stored.uid {
        return Conflict;
      }
      if rv.Some? && rv.value != stored.rv {
        return Conflict;
      }
      if stored.deleting {
        return Written(stored);
      }
      r := MarkForDeletion(name, stored.uid, rv);
    }

    /**
     The transaction of a deletion request that saw an unmarked object with this UID. It works on what
     is stored by then, which another request may have marked already.
     */
    method MarkForDeletion(name: string, uid: nat, rv: Option<nat>) returns (r: WriteResult)
      modifies this
      ensures name in Replay(old(log)) && Replay(old(log))[name].uid == uid && (rv.Some? ==> rv.value == Replay(old(log))[name].rv) ==>
        (log, r) == Marking(old(log), name)
      ensures name in Replay(old(log)) && (Replay(old(log))[name].uid != uid || (rv.Some? && rv.value != Replay(old(log))[name].rv)) ==>
        log == old(log) && r == Conflict
      ensures name !in Replay(old(log)) ==> log == old(log) && r == NotFound
    {
      var store := Replay(log);
      if name !in store {
        return NotFound;
      }
      var stored := store[name];
      if stored.uid != uid || (rv.Some? && rv.value != stored.rv) {
        return Conflict;
      }
      var existing := new CrdObject(stored);
      if !existing.crd.deleting {
        existing.crd := existing.crd.(deleting := true);
      }
      if CLEANUP_FINALIZER !in existing.crd.finalizers {
        existing.crd := existing.crd.(finalizers := existing.crd.finalizers + [CLEANUP_FINALIZER]);
      }
      existing.SetCRDCondition(DELETION_PENDING);
      var (l, c) := Commit(log, stored, existing.crd);
      log := l;
      return Written(c);
    }
  }
}
