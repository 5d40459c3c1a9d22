/**
 The per-UID storage map of the custom resource handler: serving info is built on demand
 from the lister, dropped when an event shows it may be stale, and the map that readers
 hold without a lock is never written to.
 */
module ServingStorage {
  import opened Crds

  // ------------------------------------------------------------ serving info

  /** The versions for which each map of a serving info has an entry, and which entries have a status or scale storage. */
  datatype Parts = Parts(
    storages: set<string>, statusStorages: set<string>, scaleStorages: set<string>,
    scopes: set<string>, statusScopes: set<string>, scaleScopes: set<string>)

  /** What is built to serve one CRD. `id` tells two builds for the same CRD apart. */
  datatype Info = Info(id: nat, uid: nat, spec: Spec, accepted: Names, parts: Parts, storageVersion: string)

  /** The first version marked for storage. */
  function StorageVersion(versions: seq<Version>): Option<string> {
    if versions == [] then None
    else if versions[0].storage then Some(versions[0].name)
    else StorageVersion(versions[1..])
  }

  /** No version before place `i` is marked for storage, and this one is. */
  predicate FirstStored(versions: seq<Version>, i: nat) {
    i < |versions| && versions[i].storage && forall j :: 0 <= j < i ==> !versions[j].storage
  }

  lemma {:induction false} StorageVersionIsFirstStored(versions: seq<Version>, name: string)
    ensures StorageVersion(versions) == Some(name) <==> exists i: nat :: FirstStored(versions, i) && versions[i].name == name
    ensures StorageVersion(versions).None? <==> forall v :: v in versions ==> !v.storage
  {
    if versions != [] && versions[0].storage {
      assert FirstStored(versions, 0);
    } else if versions != [] {
      var rest := versions[1..];
      StorageVersionIsFirstStored(rest, name);
      assert versions == [versions[0]] + rest;
      if StorageVersion(rest) == Some(name) {
        var i: nat :| FirstStored(rest, i) && rest[i].name == name;
        assert FirstStored(versions, i + 1);
      }
      forall i: nat | FirstStored(versions, i)
        ensures i > 0 && FirstStored(rest, i - 1) && rest[i - 1] == versions[i]
      {
      }
    }
  }

  /** The served flag of the first version of that name. */
  predicate HasServedVersion(versions: seq<Version>, name: string) {
    FirstVersion(versions, name).Some? && FirstVersion(versions, name).value.served
  }

  /** Served, status and scale are read off the first version of a name. */
  lemma {:induction false} FlagsOfFirstNamed(versions: seq<Version>, name: string, i: nat)
    requires FirstNamed(versions, name, i)
    ensures HasServedVersion(versions, name) <==> versions[i].served
    ensures HasStatus(versions, name) <==> versions[i].hasStatus
    ensures HasScale(versions, name) <==> versions[i].hasScale
  {
    FirstVersionIsFirstNamed(versions, name, i);
  }

  /** Versions neither served nor stored get no storage. */
  function BuiltVersions(versions: seq<Version>): (r: set<string>) {
    set v | v in versions && (v.served || v.storage) :: v.name
  }

  /** Subresources are looked up by name, so the first version of the name has them. */
  predicate HasStatus(versions: seq<Version>, name: string) {
    FirstVersion(versions, name).Some? && FirstVersion(versions, name).value.hasStatus
  }

  predicate HasScale(versions: seq<Version>, name: string) {
    FirstVersion(versions, name).Some? && FirstVersion(versions, name).value.hasScale
  }

  function PartsOf(versions: seq<Version>): Parts {
    var built := BuiltVersions(versions);
    Parts(built, (set x | x in built && HasStatus(versions, x)), (set x | x in built && HasScale(versions, x)), built, built, built)
  }

  /** The names that are checked before any storage is built. */
  predicate Buildable(crd: CRD) {
    StorageVersion(crd.spec.versions).Some? && FourNames(crd.accepted)
  }

  function Built(id: nat, crd: CRD): Info
    requires Buildable(crd)
  {
    Info(id, crd.uid, crd.spec, crd.accepted, PartsOf(crd.spec.versions), StorageVersion(crd.spec.versions).value)
  }

  lemma {:induction false} OneMoreVersion(versions: seq<Version>, i: nat)
    requires i < |versions|
    ensures BuiltVersions(versions[..i + 1]) ==
      BuiltVersions(versions[..i]) + (if versions[i].served || versions[i].storage then {versions[i].name} else {})
  {
    assert versions[..i + 1] == versions[..i] + [versions[i]];
  }

  /** A request for a version that the info serves finds that version's storage. */
  lemma {:induction false} ServedVersionIsBuilt(versions: seq<Version>, name: string)
    requires HasServedVersion(versions, name)
    ensures name in BuiltVersions(versions)
  {
    if versions[0].name == name {
      assert versions[0] in versions;
    } else {
      ServedVersionIsBuilt(versions[1..], name);
      var v :| v in versions[1..] && (v.served || v.storage) && v.name == name;
      assert v in versions;
    }
  }

  /** The storage that instances are deleted through is there. */
  lemma {:induction false} StorageVersionIsBuilt(versions: seq<Version>)
    requires StorageVersion(versions).Some?
    ensures StorageVersion(versions).value in BuiltVersions(versions)
  {
    if versions[0].storage {
      assert versions[0] in versions;
    } else {
      StorageVersionIsBuilt(versions[1..]);
      var v :| v in versions[1..] && (v.served || v.storage) && v.name == StorageVersion(versions).value;
      assert v in versions;
    }
  }

  // ------------------------------------------------------- what each call does

  /** `tornDown` counts the teardowns of each info, `next` is the id of the next one. */
  datatype Cached = Cached(storage: map<nat, Info>, next: nat, tornDown: multiset<nat>)

  predicate Current(info: Info, crd: CRD) {
    info.spec == crd.spec && info.accepted == crd.accepted
  }

  function Dropped(c: Cached, uid: nat): Cached {
    if uid !in c.storage then c
    else c.(storage := c.storage - {uid}, tornDown := c.tornDown + multiset{c.storage[uid].id})
  }

  /** After a create event, and the second half of an update event. */
  function DroppedIfStale(c: Cached, crd: CRD): Cached {
    if crd.uid in c.storage && !Current(c.storage[crd.uid], crd) then Dropped(c, crd.uid) else c
  }

  function AfterUpdate(c: Cached, before: CRD, after: CRD): Cached {
    DroppedIfStale(if before.uid != after.uid then Dropped(c, before.uid) else c, after)
  }

  /** An update takes out what it replaced and what was built from another spec or other accepted names, and nothing else. */
  lemma {:induction false} UpdateDropsTheStale(c: Cached, before: CRD, after: CRD, uid: nat)
    ensures var d := AfterUpdate(c, before, after).storage;
      && (uid in d <==>
            && uid in c.storage
            && (uid == before.uid ==> before.uid == after.uid)
            && (uid == after.uid ==> c.storage[uid].spec == after.spec && c.storage[uid].accepted == after.accepted))
      && (uid in d ==> d[uid] == c.storage[uid])
  {
  }

  /** The ids of the infos whose UID is not listed. */
  function DeadIds(storage: map<nat, Info>, live: set<nat>): set<nat> {
    set uid | uid in storage && uid !in live :: storage[uid].id
  }

  function UidsOf(listed: seq<CRD>): set<nat> {
    set crd | crd in listed :: crd.uid
  }

  function Listed(storage: map<nat, Info>, live: set<nat>): map<nat, Info> {
    map uid | uid in storage && uid in live :: storage[uid]
  }

  lemma {:induction false} UidsOfAppend(listed: seq<CRD>, crd: CRD)
    ensures UidsOf(listed + [crd]) == UidsOf(listed) + {crd.uid}
  {
  }

  /** One more entry looked at: its id is added when its UID is dead, and was not there before. */
  lemma {:induction false} DeadIdsStep(storage: map<nat, Info>, todo: set<nat>, uid: nat, live: set<nat>)
    requires uid in todo && todo <= storage.Keys
    requires forall u, v :: u in storage && v in storage && storage[u].id == storage[v].id ==> u == v
    ensures DeadIds(storage - (todo - {uid}), live) == DeadIds(storage - todo, live) + (if uid in live then {} else {storage[uid].id})
    ensures storage[uid].id !in DeadIds(storage - todo, live)
  {
    var a, b := storage - todo, storage - (todo - {uid});
    assert b.Keys == a.Keys + {uid};
    assert forall u :: u in a ==> u in b && a[u] == b[u] == storage[u];
    assert b[uid] == storage[uid];
  }

  /** Only the listed UIDs stay; everything else is torn down. */
  function KeptOnly(c: Cached, live: set<nat>): Cached {
    Cached(Listed(c.storage, live), c.next, c.tornDown + multiset(DeadIds(c.storage, live)))
  }

  /** The info for an object is built and published. */
  function Published(c: Cached, crd: CRD): Cached
    requires Buildable(crd)
  {
    c.(storage := c.storage[crd.uid := Built(c.next, crd)], next := c.next + 1)
  }

  /** What a request that missed goes on to build: the lister's object of that name, unless it is cached or cannot be built. */
  function ToBuild(c: Cached, lister: map<string, CRD>, uid: nat, name: string): Option<CRD> {
    if uid !in c.storage && name in lister && lister[name].uid !in c.storage && Buildable(lister[name]) then Some(lister[name]) else None
  }

  /**
   A request: cached info is handed out as it is; otherwise the info is built from the
   lister's current object of that name, unless that object has one already.
   */
  function AfterRequest(c: Cached, lister: map<string, CRD>, uid: nat, name: string): (r: (Cached, Option<Info>)) {
    if uid in c.storage then (c, Some(c.storage[uid]))
    else if name !in lister then (c, None)
    else
      var crd := lister[name];
      if crd.uid in c.storage then (c, Some(c.storage[crd.uid]))
      else if !Buildable(crd) then (c, None)
      else
        (Published(c, crd), Some(Built(c.next, crd)))
  }

  // ------------------------------------------------------------ conservation

  predicate Holds(storage: map<nat, Info>, id: nat) {
    exists uid :: uid in storage && storage[uid].id == id
  }

  /**
   Every info ever published is under its own UID in the map and not torn down, or out of
   the map and torn down exactly once.
   */
  ghost predicate Conserved(c: Cached) {
    && (forall uid :: uid in c.storage ==> c.storage[uid].uid == uid && c.storage[uid].id < c.next)
    && (forall u, v :: u in c.storage && v in c.storage && c.storage[u].id == c.storage[v].id ==> u == v)
    && (forall id: nat :: c.tornDown[id] == if id < c.next && !Holds(c.storage, id) then 1 else 0)
  }

  lemma {:induction false} DropConserves(c: Cached, uid: nat)
    requires Conserved(c)
    ensures Conserved(Dropped(c, uid))
  {
    var d := Dropped(c, uid);
    forall id: nat
      ensures d.tornDown[id] == if id < d.next && !Holds(d.storage, id) then 1 else 0
    {
      if Holds(c.storage, id) {
        var u :| u in c.storage && c.storage[u].id == id;
        if u != uid {
          assert u in d.storage;
        }
      } else {
        assert !Holds(d.storage, id);
      }
    }
  }

  lemma {:induction false} UpdateConserves(c: Cached, before: CRD, after: CRD)
    requires Conserved(c)
    ensures Conserved(DroppedIfStale(c, after)) && Conserved(AfterUpdate(c, before, after))
  {
    DropConserves(c, after.uid);
    DropConserves(c, before.uid);
    DropConserves(Dropped(c, before.uid), after.uid);
  }

  lemma {:induction false} KeepConserves(c: Cached, live: set<nat>)
    requires Conserved(c)
    ensures Conserved(KeptOnly(c, live))
  {
    var d := KeptOnly(c, live);
    forall id: nat
      ensures d.tornDown[id] == if id < d.next && !Holds(d.storage, id) then 1 else 0
    {
      if Holds(c.storage, id) {
        var u :| u in c.storage && c.storage[u].id == id;
        if u in live {
          assert u in d.storage;
          assert id !in DeadIds(c.storage, live);
        } else {
          assert id in DeadIds(c.storage, live);
        }
      } else {
        assert !Holds(d.storage, id) && id !in DeadIds(c.storage, live);
      }
    }
  }

  lemma {:induction false} PublishConserves(c: Cached, crd: CRD)
    requires Conserved(c) && Buildable(crd) && crd.uid !in c.storage
    ensures Conserved(Published(c, crd))
  {
    var d := Published(c, crd);
    forall id: nat
      ensures Holds(d.storage, id) <==> Holds(c.storage, id) || id == c.next
    {
      if Holds(c.storage, id) {
        var u :| u in c.storage && c.storage[u].id == id;
        assert u in d.storage && d.storage[u].id == id;
      }
      if id == c.next {
        assert d.storage[crd.uid].id == id;
      }
    }
  }

  /** What reaches the handler: events, requests, and in between the lister moving on. */
  datatype Call =
    | CreateEvent(crd: CRD)
    | UpdateEvent(before: CRD, after: CRD)
    | DeleteEvent(listed: seq<CRD>)
    | Ask(uid: nat, name: string)
    | ListerMoves(lister: map<string, CRD>)

  function AfterCall(c: Cached, lister: map<string, CRD>, call: Call): (r: (Cached, map<string, CRD>)) {
    match call
    case CreateEvent(crd) => (DroppedIfStale(c, crd), lister)
    case UpdateEvent(before, after) => (AfterUpdate(c, before, after), lister)
    case DeleteEvent(listed) => (KeptOnly(c, UidsOf(listed)), lister)
    case Ask(uid, name) => (AfterRequest(c, lister, uid, name).0, lister)
    case ListerMoves(l) => (c, l)
  }

  function AfterCalls(c: Cached, lister: map<string, CRD>, calls: seq<Call>): (r: (Cached, map<string, CRD>)) {
    if calls == [] then (c, lister)
    else
      var (before, l) := AfterCalls(c, lister, calls[..|calls| - 1]);
      AfterCall(before, l, calls[|calls| - 1])
  }

  /** The entries in force before each call and at the end. */
  function EntriesInForce(c: Cached, lister: map<string, CRD>, calls: seq<Call>): (r: seq<map<nat, Info>>)
    ensures |r| == |calls| + 1 && r[|calls|] == AfterCalls(c, lister, calls).0.storage
  {
    (if calls == [] then [] else EntriesInForce(c, lister, calls[..|calls| - 1])) + [AfterCalls(c, lister, calls).0.storage]
  }

  lemma {:induction false} CallConserves(c: Cached, lister: map<string, CRD>, call: Call)
    requires Conserved(c)
    ensures Conserved(AfterCall(c, lister, call).0)
  {
    match call
    case CreateEvent(crd) => UpdateConserves(c, crd, crd);
    case UpdateEvent(before, after) => UpdateConserves(c, before, after);
    case DeleteEvent(listed) => KeepConserves(c, UidsOf(listed));
    case Ask(uid, name) =>
      if ToBuild(c, lister, uid, name).Some? {
        PublishConserves(c, lister[name]);
      }
    case ListerMoves(_) =>
  }

  // -------------------------------------------------------------- the handler

  /** A published map. Readers load it without a lock, so nobody may write to it after publication. */
  class StorageMap {
    var entries: map<nat, Info>

    constructor ()
      ensures entries == map[]
    {
      entries := map[];
    }

    method Clone() returns (out: StorageMap)
      ensures fresh(out) && out.entries == entries
    {
      out := new StorageMap();
      var todo := entries.Keys;
      while todo != {}
        invariant todo <= entries.Keys
        invariant out.entries == map k | k in entries && k !in todo :: entries[k]
        invariant entries == old(entries)
        decreases todo
      {
        var key :| key in todo;
        out.entries := out.entries[key := entries[key]];
        todo := todo - {key};
      }
      assert out.entries == entries;
    }
  }

  class CrdHandler {
    var customStorage: StorageMap
    var lister: map<string, CRD>
    var establishing: set<string>
    var next: nat
    var tornDown: multiset<nat>

    ghost function State(): Cached
      reads this, customStorage
    {
      Cached(customStorage.entries, next, tornDown)
    }

    constructor ()
      ensures State() == Cached(map[], 0, multiset{}) && lister == map[] && establishing == {} && fresh(customStorage)
    {
      customStorage := new StorageMap();
      lister, establishing, next, tornDown := map[], {}, 0, multiset{};
    }

    /** Publishes a copy without the entry and starts the teardown of what it held. */
    method RemoveStorageLocked(uid: nat)
      modifies this`customStorage, this`tornDown
      ensures State() == Dropped(old(State()), uid)
      ensures customStorage.entries == old(customStorage.entries) - {uid} && next == old(next)
      ensures tornDown == old(tornDown) + if uid in old(customStorage.entries) then multiset{old(customStorage.entries)[uid].id} else multiset{}
      ensures unchanged(old(customStorage))
      ensures customStorage == old(customStorage) || fresh(customStorage)
    {
      if uid in customStorage.entries {
        var oldInfo := customStorage.entries[uid];
        var storageMap2 := customStorage.Clone();
        storageMap2.entries := storageMap2.entries - {uid};
        customStorage := storageMap2;
        tornDown := tornDown + multiset{oldInfo.id};
      }
    }

    /** Drops the info of this UID unless it is up to date. */
    method CreateCustomResourceDefinition(crd: CRD)
      modifies this`customStorage, this`tornDown
      ensures State() == DroppedIfStale(old(State()), crd)
      ensures var entries := old(customStorage.entries);
        if crd.uid in entries && (entries[crd.uid].spec != crd.spec || entries[crd.uid].accepted != crd.accepted)
        then customStorage.entries == entries - {crd.uid} && tornDown == old(tornDown) + multiset{entries[crd.uid].id}
        else customStorage.entries == entries && tornDown == old(tornDown)
      ensures unchanged(old(customStorage))
      ensures customStorage == old(customStorage) || fresh(customStorage)
    {
      DropIfStale(crd);
    }

    /** The check that create and update events have in common. */
    method DropIfStale(crd: CRD)
      modifies this`customStorage, this`tornDown
      ensures State() == DroppedIfStale(old(State()), crd)
      ensures unchanged(old(customStorage))
      ensures customStorage == old(customStorage) || fresh(customStorage)
    {
      if crd.uid !in customStorage.entries {
        return;
      }
      var oldInfo := customStorage.entries[crd.uid];
      if crd.spec == oldInfo.spec && crd.accepted == oldInfo.accepted {
        return;
      }
      RemoveStorageLocked(crd.uid);
    }

    method UpdateCustomResourceDefinition(before: CRD, after: CRD)
      modifies this`customStorage, this`tornDown, this`establishing
      ensures State() == AfterUpdate(old(State()), before, after)
      ensures establishing == old(establishing) +
        (if IsTrue(after.conditions, NamesAccepted) && !IsTrue(after.conditions, Established) then {after.name} else {})
      ensures unchanged(old(customStorage))
      ensures customStorage == old(customStorage) || fresh(customStorage)
    {
      if !IsTrue(after.conditions, Established) && IsTrue(after.conditions, NamesAccepted) {
        establishing := establishing + {after.name};
      }
      ghost var c, m := State(), customStorage;
      if before.uid != after.uid {
        RemoveStorageLocked(before.uid);
      }
      assert State() == (if before.uid != after.uid then Dropped(c, before.uid) else c) && m.entries == old(m.entries);
      DropIfStale(after);
    }

    /** The half of the deletion handler that runs under the lock; `listed` was read before. */
    method RemoveDeadStorage(listed: seq<CRD>)
      requires Conserved(State())
      modifies this`customStorage, this`tornDown
      ensures State() == KeptOnly(old(State()), UidsOf(listed))
      ensures forall uid :: uid in customStorage.entries <==> uid in old(customStorage.entries) && exists crd :: crd in listed && crd.uid == uid
      ensures forall uid :: uid in customStorage.entries ==> customStorage.entries[uid] == old(customStorage.entries)[uid]
      ensures unchanged(old(customStorage))
      ensures fresh(customStorage)
    {
      var storageMap := customStorage;
      var storageMap2 := KeepListed(storageMap, listed);
      customStorage := storageMap2;
      TearDownDead(storageMap, storageMap2, UidsOf(listed));
    }

    /** A new map with the entries of the listed objects. */
    method KeepListed(storageMap: StorageMap, listed: seq<CRD>) returns (storageMap2: StorageMap)
      ensures fresh(storageMap2) && storageMap2.entries == Listed(storageMap.entries, UidsOf(listed))
    {
      storageMap2 := new StorageMap();
      for i := 0 to |listed|
        invariant fresh(storageMap2) && storageMap2.entries == Listed(storageMap.entries, UidsOf(listed[..i]))
      {
        var crd := listed[i];
        UidsOfAppend(listed[..i], crd);
        assert listed[..i + 1] == listed[..i] + [crd];
        if crd.uid in storageMap.entries {
          storageMap2.entries := storageMap2.entries[crd.uid := storageMap.entries[crd.uid]];
        }
      }
      assert listed[..|listed|] == listed;
    }

    /** Starts the teardown of every entry that did not make it into the new map. */
    method TearDownDead(storageMap: StorageMap, kept: StorageMap, ghost live: set<nat>)
      requires kept.entries == Listed(storageMap.entries, live)
      requires forall u, v :: u in storageMap.entries && v in storageMap.entries && storageMap.entries[u].id == storageMap.entries[v].id ==> u == v
      modifies this`tornDown
      ensures tornDown == old(tornDown) + multiset(DeadIds(storageMap.entries, live))
    {
      var entries := storageMap.entries;
      var todo := entries.Keys;
      ghost var ids: set<nat> := {};
      while todo != {}
        invariant todo <= entries.Keys
        invariant ids == DeadIds(entries - todo, live)
        invariant tornDown == old(tornDown) + multiset(ids)
        decreases todo
      {
        var uid :| uid in todo;
        DeadIdsStep(entries, todo, uid, live);
        todo := todo - {uid};
        if uid !in kept.entries {
          tornDown := tornDown + multiset{entries[uid].id};
          ids := ids + {entries[uid].id};
        }
      }
      assert entries - todo == entries;
    }

    /** Storage, request scope and scale scope for each version that is served or stored. */
    static method BuildParts(versions: seq<Version>) returns (parts: Parts)
      ensures parts == PartsOf(versions).(statusScopes := {})
      ensures forall x :: x in parts.storages <==> exists v :: v in versions && v.name == x && (v.served || v.storage)
      ensures parts.scopes == parts.scaleScopes == parts.storages
    {
      parts := Parts({}, {}, {}, {}, {}, {});
      for i := 0 to |versions|
        invariant var built := BuiltVersions(versions[..i]);
          parts == Parts(built, (set x | x in built && HasStatus(versions, x)), (set x | x in built && HasScale(versions, x)), built, {}, built)
      {
        var v := versions[i];
        OneMoreVersion(versions, i);
        if !v.storage && !v.served {
          continue;
        }
        parts := parts.(storages := parts.storages + {v.name});
        if HasStatus(versions, v.name) {
          parts := parts.(statusStorages := parts.statusStorages + {v.name});
        }
        if HasScale(versions, v.name) {
          parts := parts.(scaleStorages := parts.scaleStorages + {v.name});
        }
        parts := parts.(scopes := parts.scopes + {v.name});
        parts := parts.(scaleScopes := parts.scaleScopes + {v.name});
      }
      assert versions[..|versions|] == versions;
    }

    /** A status scope beside every request scope. */
    static method SetStatusScope(versions: seq<Version>, parts: Parts) returns (r: Parts)
      requires parts == PartsOf(versions).(statusScopes := {})
      ensures r == PartsOf(versions)
    {
      r := parts;
      for i := 0 to |versions|
        invariant r == PartsOf(versions).(statusScopes := set v | v in versions[..i] && v.name in parts.scopes :: v.name)
      {
        assert versions[..i + 1] == versions[..i] + [versions[i]];
        if versions[i].name !in r.scopes {
          continue;
        }
        r := r.(statusScopes := r.statusScopes + {versions[i].name});
      }
      assert versions[..|versions|] == versions;
    }

    /**
     Cached info is handed out, under the UID asked for or that of the lister's object of that name. Otherwise
     info is built if the lister's object has a version marked for storage and four accepted names.
     */
    method GetOrCreateServingInfoFor(uid: nat, name: string) returns (r: Option<Info>)
      modifies this`customStorage, this`next
      ensures (State(), r) == AfterRequest(old(State()), lister, uid, name)
      ensures unchanged(old(customStorage))
      ensures customStorage == old(customStorage) || fresh(customStorage)
      ensures uid in old(customStorage.entries) ==> r == Some(old(customStorage.entries)[uid])
      ensures uid !in old(customStorage.entries) && name !in lister ==> r.None?
      ensures uid !in old(customStorage.entries) && name in lister && lister[name].uid in old(customStorage.entries) ==>
        r == Some(old(customStorage.entries)[lister[name].uid])
      ensures uid in old(customStorage.entries) || name !in lister || lister[name].uid in old(customStorage.entries) || r.None? ==>
        State() == old(State())
      ensures uid !in old(customStorage.entries) && name in lister && lister[name].uid !in old(customStorage.entries) ==>
        var crd := lister[name];
        && (r.Some? <==>
              && (exists v :: v in crd.spec.versions && v.storage)
              && crd.accepted.plural != "" && crd.accepted.singular != "" && crd.accepted.kind != "" && crd.accepted.listKind != "")
        && (r.Some? ==>
              && r.value.uid == crd.uid && r.value.spec == crd.spec && r.value.accepted == crd.accepted && r.value.id == old(next)
              && (exists i: nat :: FirstStored(crd.spec.versions, i) && crd.spec.versions[i].name == r.value.storageVersion)
              && State() == Cached(old(customStorage.entries)[crd.uid := r.value], old(next) + 1, old(tornDown)))
    {
      if uid in customStorage.entries {
        return Some(customStorage.entries[uid]);
      }
      if name !in lister {
        return None;
      }
      var crd := lister[name];
      if crd.uid in customStorage.entries {
        return Some(customStorage.entries[crd.uid]);
      }
      var storageVersion := StorageVersion(crd.spec.versions);
      StorageVersionIsFirstStored(crd.spec.versions, storageVersion.GetOr(""));
      if storageVersion.None? {
        return None;
      }
      if crd.accepted.plural == "" || crd.accepted.singular == "" || crd.accepted.kind == "" || crd.accepted.listKind == "" {
        return None;
      }
      var parts := BuildParts(crd.spec.versions);
      parts := SetStatusScope(crd.spec.versions, parts);
      var info := Info(next, crd.uid, crd.spec, crd.accepted, parts, storageVersion.value);
      var storageMap2 := customStorage.Clone();
      storageMap2.entries := storageMap2.entries[crd.uid := info];
      customStorage := storageMap2;
      next := next + 1;
      return Some(info);
    }

    method Take(call: Call)
      requires Conserved(State())
      modifies this
      ensures (State(), lister) == AfterCall(old(State()), old(lister), call)
      ensures Conserved(State())
      ensures customStorage == old(customStorage) || fresh(customStorage)
    {
      CallConserves(State(), lister, call);
      match call
      case CreateEvent(crd) => CreateCustomResourceDefinition(crd);
      case UpdateEvent(before, after) => UpdateCustomResourceDefinition(before, after);
      case DeleteEvent(listed) => RemoveDeadStorage(listed);
      case Ask(uid, name) => var _ := GetOrCreateServingInfoFor(uid, name);
      case ListerMoves(l) => lister := l;
    }

    /**
     Whatever calls come in, a reader may hold on to any map ever published: `published` lists
     the map in force before each call and at the end, and when all calls are done each of them still
     has the entries it was published with.
     */
    method Serve(calls: seq<Call>) returns (ghost published: seq<StorageMap>)
      requires Conserved(State())
      modifies this
      ensures |published| == |calls| + 1 && published[0] == old(customStorage) && published[|calls|] == customStorage
      ensures forall i :: 0 <= i <= |calls| ==> published[i].entries == EntriesInForce(old(State()), old(lister), calls)[i]
      ensures (State(), lister) == AfterCalls(old(State()), old(lister), calls) && Conserved(State())
      decreases |calls|
    {
      if calls == [] {
        return [customStorage];
      }
      var front := calls[..|calls| - 1];
      published := Serve(front);
      Take(calls[|calls| - 1]);
      published := published + [customStorage];
    }
  }
}
