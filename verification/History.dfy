/**
 Facts about a log of committed CRD versions: which logs are well formed, that a
 resource version names one content, and that an incarnation of an object is one
 unbroken stretch of the log.
 */
module History {
  import opened Crds
  import opened Registry
  import opened Finalizing

  /** `c` was once the committed content of its object. */
  predicate IsVersion(log: seq<Event>, c: CRD) {
    1 <= c.rv <= |log| && log[c.rv - 1] == Put(c)
  }

  /**
   What every committed version satisfies: a valid spec; NamesAccepted never without an
   Established condition; accepted names in all four slots once NamesAccepted or
   Established is True; and Terminating True while the cleanup finalizer holds up a deletion.
   */
  predicate VersionOk(c: CRD) {
    && FourNames(c.spec.names)
    && ValidName(c.name, c.spec)
    && (FindCondition(c.conditions, NamesAccepted).Some? ==> FindCondition(c.conditions, Established).Some?)
    && (IsTrue(c.conditions, NamesAccepted) || IsTrue(c.conditions, Established) ==> FourNames(c.accepted))
    && (c.deleting ==> c.finalizers != [])
    && (NeedsFinalizing(c) ==> IsTrue(c.conditions, Terminating))
  }

  /** A version is written over the same incarnation, or creates one where there was no object. */
  predicate EventOk(log: seq<Event>, i: nat)
    requires i < |log|
  {
    match log[i]
    case Put(c) =>
      && c.rv == i + 1
      && 1 <= c.uid <= i + 1
      && VersionOk(c)
      && var m := Replay(log[..i]);
         if c.uid == i + 1 then c.name !in m else c.name in m && m[c.name].uid == c.uid
    case Del(n) => n in Replay(log[..i])
  }

  ghost predicate LogOk(log: seq<Event>) {
    forall i :: 0 <= i < |log| ==> EventOk(log, i)
  }

  lemma {:induction false} PrefixOk(log: seq<Event>, p: nat)
    requires LogOk(log) && p <= |log|
    ensures LogOk(log[..p])
  {
    forall i | 0 <= i < p
      ensures EventOk(log[..p], i)
    {
      assert EventOk(log, i);
      assert log[..p][..i] == log[..i];
    }
  }

  lemma {:induction false} AppendOk(log: seq<Event>, e: Event)
    requires LogOk(log)
    requires EventOk(log + [e], |log|)
    ensures LogOk(log + [e])
  {
    var l := log + [e];
    forall i | 0 <= i < |l|
      ensures EventOk(l, i)
    {
      if i < |log| {
        assert EventOk(log, i);
        assert l[..i] == log[..i];
      }
    }
  }

  /** Every object is a version, filed under its own name. */
  lemma {:induction false} StoredIsVersion(log: seq<Event>, n: string)
    requires LogOk(log) && n in Replay(log)
    ensures var c := Replay(log)[n]; c.name == n && IsVersion(log, c) && 1 <= c.uid <= c.rv && VersionOk(c)
  {
    var last := |log| - 1;
    assert EventOk(log, last);
    if log[last].Del? || log[last].crd.name != n {
      PrefixOk(log, last);
      StoredIsVersion(log[..last], n);
    }
  }

  /** A stale copy with the stored resource version is the stored object. */
  lemma {:induction false} MatchIsStored(log: seq<Event>, c: CRD)
    requires LogOk(log) && IsVersion(log, c) && c.name in Replay(log) && Replay(log)[c.name].rv == c.rv
    ensures Replay(log)[c.name] == c
  {
    StoredIsVersion(log, c.name);
  }

  /** No version of an object is newer than the stored one. */
  lemma {:induction false} StoredIsNewest(log: seq<Event>, v: CRD)
    requires LogOk(log) && IsVersion(log, v) && v.name in Replay(log)
    ensures v.rv <= Replay(log)[v.name].rv
  {
    var last := |log| - 1;
    assert EventOk(log, last);
    if log[last].Del? || log[last].crd.name != v.name {
      PrefixOk(log, last);
      assert log[..last][v.rv - 1] == Put(v);
      StoredIsNewest(log[..last], v);
    } else {
      assert Replay(log)[v.name] == log[last].crd;
    }
  }

  predicate HasIncarnation(m: map<string, CRD>, n: string, uid: nat) {
    n in m && m[n].uid == uid
  }

  /** An incarnation that is gone never comes back: a UID is used once. */
  lemma {:induction false} StaysGone(log: seq<Event>, q: nat, n: string, uid: nat)
    requires LogOk(log) && uid <= q <= |log|
    requires !HasIncarnation(Replay(log[..q]), n, uid)
    ensures !HasIncarnation(Replay(log), n, uid)
  {
    if q == |log| {
      assert log[..q] == log;
    } else {
      var last := |log| - 1;
      assert EventOk(log, last);
      PrefixOk(log, last);
      assert log[..last][..q] == log[..q];
      StaysGone(log[..last], q, n, uid);
    }
  }

  /** Between two sightings of an incarnation the object is there, in that incarnation. */
  lemma {:induction false} Unbroken(log: seq<Event>, p: nat, q: nat, n: string)
    requires LogOk(log) && p <= q <= |log|
    requires n in Replay(log[..p]) && HasIncarnation(Replay(log), n, Replay(log[..p])[n].uid)
    ensures HasIncarnation(Replay(log[..q]), n, Replay(log)[n].uid)
  {
    PrefixOk(log, p);
    StoredIsVersion(log[..p], n);
    if !HasIncarnation(Replay(log[..q]), n, Replay(log)[n].uid) {
      StaysGone(log, q, n, Replay(log)[n].uid);
    }
  }

  /** A version was what a replay up to its own position held. */
  lemma {:induction false} VersionWasStored(log: seq<Event>, c: CRD)
    requires LogOk(log) && IsVersion(log, c)
    ensures c.name in Replay(log[..c.rv]) && Replay(log[..c.rv])[c.name] == c && VersionOk(c)
  {
    assert EventOk(log, c.rv - 1);
    assert log[..c.rv] == log[..c.rv - 1] + [Put(c)];
    ReplayAppend(log[..c.rv - 1], Put(c));
  }
}
