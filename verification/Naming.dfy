/**
 The naming condition controller: which of the requested names a CRD may hold, given
 the names every CRD of its group already holds.
 */
module Naming {
  import opened Crds
  import opened Registry

  // ---------------------------------------------------------- the computation

  /** A requested name is granted when it is already ours in that slot, or nobody holds it. */
  predicate EqualToAcceptedOrFresh(requested: string, accepted: string, used: set<string>) {
    requested == accepted || requested !in used
  }

  /** The requested short names that are neither ours nor free, each once, in order. */
  function RefusedShortNames(requested: seq<string>, ours: seq<string>, used: set<string>): (r: seq<string>)
    ensures forall x :: x in r <==> x in requested && x != "" && x !in ours && x in used
  {
    if requested == [] then []
    else
      var before := RefusedShortNames(requested[..|requested| - 1], ours, used);
      var x := requested[|requested| - 1];
      if x in ours || EqualToAcceptedOrFresh(x, "", used) || x in before then before else before + [x]
  }

  /** What the controller works out for one CRD: new names, and the conflicts slot by slot. */
  function GrantedNames(crd: CRD, resources: set<string>, kinds: set<string>): Names {
    var want, have := crd.spec.names, crd.accepted;
    Names(
      if EqualToAcceptedOrFresh(want.plural, have.plural, resources) then want.plural else have.plural,
      if EqualToAcceptedOrFresh(want.singular, have.singular, resources) then want.singular else have.singular,
      if RefusedShortNames(want.shortNames, have.shortNames, resources) == [] then want.shortNames else have.shortNames,
      if EqualToAcceptedOrFresh(want.kind, have.kind, kinds) then want.kind else have.kind,
      if EqualToAcceptedOrFresh(want.listKind, have.listKind, kinds) then want.listKind else have.listKind,
      want.categories)
  }

  /** The last slot in conflict gives the condition its reason and message. */
  function NamesCondition(crd: CRD, resources: set<string>, kinds: set<string>): Condition {
    var want, have := crd.spec.names, crd.accepted;
    var refused := RefusedShortNames(want.shortNames, have.shortNames, resources);
    if !EqualToAcceptedOrFresh(want.listKind, have.listKind, kinds) then
      Condition(NamesAccepted, StatusFalse, "ListKindConflict", InUse([want.listKind]))
    else if !EqualToAcceptedOrFresh(want.kind, have.kind, kinds) then
      Condition(NamesAccepted, StatusFalse, "KindConflict", InUse([want.kind]))
    else if refused != [] then
      Condition(NamesAccepted, StatusFalse, "ShortNamesConflict", InUse(refused))
    else if !EqualToAcceptedOrFresh(want.singular, have.singular, resources) then
      Condition(NamesAccepted, StatusFalse, "SingularConflict", InUse([want.singular]))
    else if !EqualToAcceptedOrFresh(want.plural, have.plural, resources) then
      Condition(NamesAccepted, StatusFalse, "PluralConflict", InUse([want.plural]))
    else
      Condition(NamesAccepted, StatusTrue, "NoConflicts", Text("no conflicts found"))
  }

  const NOT_ACCEPTED := Condition(Established, StatusFalse, "NotAccepted", Text("not all names are accepted"))
  const INSTALLING := Condition(Established, StatusFalse, "Installing", Text("the initial names have been accepted"))

  /** Established starts out False; a True one is kept. */
  function EstablishedAfterNaming(crd: CRD, namesStatus: Status): Condition {
    var found := FindCondition(crd.conditions, Established);
    var c := if found.Some? then found.value else NOT_ACCEPTED;
    if c.status != StatusTrue && namesStatus == StatusTrue then INSTALLING else c
  }

  /** The object the controller writes back. */
  function NamingWriteOf(crd: CRD, resources: set<string>, kinds: set<string>): CRD {
    var cond := NamesCondition(crd, resources, kinds);
    crd.(accepted := GrantedNames(crd, resources, kinds),
         conditions := SetCondition(SetCondition(crd.conditions, cond), EstablishedAfterNaming(crd, cond.status)))
  }

  /** Nothing to write: accepted names and NamesAccepted condition stay what they are. */
  predicate NothingToWrite(crd: CRD, resources: set<string>, kinds: set<string>) {
    && crd.accepted == GrantedNames(crd, resources, kinds)
    && FindCondition(crd.conditions, NamesAccepted) == Some(NamesCondition(crd, resources, kinds))
  }

  // -------------------------------------------------------- the used names

  /** The mutation cache returns the newer of its own entry and the lister's copy. */
  function Newer(cache: map<string, CRD>, backing: CRD): CRD {
    if backing.name in cache && backing.rv < cache[backing.name].rv then cache[backing.name] else backing
  }

  /** The entry after a committed write, unless a newer one is already there. */
  function Mutation(cache: map<string, CRD>, obj: CRD): map<string, CRD> {
    if obj.name in cache && obj.rv < cache[obj.name].rv then cache else cache[obj.name := obj]
  }

  /** The copy consulted for one listed item; an item gone from the lister keeps its listed copy. */
  function Effective(lister: map<string, CRD>, cache: map<string, CRD>, item: CRD): CRD {
    if item.name in lister then Newer(cache, lister[item.name]) else item
  }

  function ResourceNames(n: Names): (r: set<string>) {
    {n.plural, n.singular} + set x | x in n.shortNames
  }

  function KindNames(n: Names): (r: set<string>) {
    {n.kind, n.listKind}
  }

  /** `list` holds exactly the lister's objects, each once, in some order. */
  ghost predicate Enumerates(list: seq<CRD>, lister: map<string, CRD>) {
    && (forall c :: c in list <==> c.name in lister && lister[c.name] == c)
    && (forall i, j :: 0 <= i < j < |list| ==> list[i].name != list[j].name)
  }

  /** The resource names held by the group, as the controller can see it. */
  function UsedResources(list: seq<CRD>, lister: map<string, CRD>, cache: map<string, CRD>, group: string): (r: set<string>) {
    if list == [] then {}
    else
      var rest := UsedResources(list[..|list| - 1], lister, cache, group);
      var c := list[|list| - 1];
      if c.spec.group == group then rest + ResourceNames(Effective(lister, cache, c).accepted) else rest
  }

  /** The kinds held by the group, as the controller can see it. */
  function UsedKinds(list: seq<CRD>, lister: map<string, CRD>, cache: map<string, CRD>, group: string): (r: set<string>) {
    if list == [] then {}
    else
      var rest := UsedKinds(list[..|list| - 1], lister, cache, group);
      var c := list[|list| - 1];
      if c.spec.group == group then rest + KindNames(Effective(lister, cache, c).accepted) else rest
  }

  // -------------------------------------------------------- what it guarantees

  /** Every granted non-empty resource name was held before, or is in nobody's hands. */
  lemma {:induction false} GrantedResourcesAreOursOrFree(crd: CRD, resources: set<string>, kinds: set<string>, x: string)
    requires x in HeldResources(GrantedNames(crd, resources, kinds))
    ensures x in HeldResources(crd.accepted) || x !in resources
  {
    var refused := RefusedShortNames(crd.spec.names.shortNames, crd.accepted.shortNames, resources);
    if x in crd.spec.names.shortNames && x !in crd.accepted.shortNames && x in resources {
      assert x in refused;
    }
  }

  lemma {:induction false} GrantedKindsAreOursOrFree(crd: CRD, resources: set<string>, kinds: set<string>, x: string)
    requires x in HeldKinds(GrantedNames(crd, resources, kinds))
    ensures x in HeldKinds(crd.accepted) || x !in kinds
  {
  }

  /** A CRD is never refused the short names it already has. */
  lemma {:induction false} NothingRefused(requested: seq<string>, ours: seq<string>, used: set<string>)
    requires forall x :: x in requested ==> x in ours
    ensures RefusedShortNames(requested, ours, used) == []
  {
    if requested != [] {
      NothingRefused(requested[..|requested| - 1], ours, used);
    }
  }

  /** NamesAccepted is True exactly when every requested name is granted. */
  lemma {:induction false} AcceptedMeansAllGranted(crd: CRD, resources: set<string>, kinds: set<string>)
    ensures NamesCondition(crd, resources, kinds).status == StatusTrue <==> GrantedNames(crd, resources, kinds) == crd.spec.names
  {
    var refused := RefusedShortNames(crd.spec.names.shortNames, crd.accepted.shortNames, resources);
    if refused != [] {
      assert refused[0] in refused;
    }
  }

  /** A slot that is not granted asks for a name in use, and keeps the name it had. */
  lemma {:induction false} RefusedMeansInUse(crd: CRD, resources: set<string>, kinds: set<string>)
    ensures var got, want, have := GrantedNames(crd, resources, kinds), crd.spec.names, crd.accepted;
      && (got.plural != want.plural ==> got.plural == have.plural && want.plural in resources)
      && (got.singular != want.singular ==> got.singular == have.singular && want.singular in resources)
      && (got.shortNames != want.shortNames ==> got.shortNames == have.shortNames && exists x :: x in want.shortNames && x in resources)
      && (got.kind != want.kind ==> got.kind == have.kind && want.kind in kinds)
      && (got.listKind != want.listKind ==> got.listKind == have.listKind && want.listKind in kinds)
      && got.categories == want.categories
  {
    var refused := RefusedShortNames(crd.spec.names.shortNames, crd.accepted.shortNames, resources);
    if refused != [] {
      assert refused[0] in refused;
    }
  }

  /** The names of every listed CRD of the group are counted. */
  lemma {:induction false} UsedCovers(list: seq<CRD>, lister: map<string, CRD>, cache: map<string, CRD>, group: string, c: CRD)
    requires c in list && c.spec.group == group
    ensures ResourceNames(Effective(lister, cache, c).accepted) <= UsedResources(list, lister, cache, group)
    ensures KindNames(Effective(lister, cache, c).accepted) <= UsedKinds(list, lister, cache, group)
  {
    if c != list[|list| - 1] {
      UsedCovers(list[..|list| - 1], lister, cache, group, c);
    }
  }

  /** The requested short names that are held by somebody else. */
  ghost predicate ShortNameTaken(want: Names, have: Names, resources: set<string>) {
    exists x :: x in want.shortNames && x != "" && x !in have.shortNames && x in resources
  }

  predicate Taken(want: string, have: string, used: set<string>) {
    want != have && want in used
  }

  /** Slot by slot: a name that is taken is not granted and the slot keeps what it has; every other slot gets what it asks for. */
  lemma {:induction false} SlotsAreDecidedApart(crd: CRD, resources: set<string>, kinds: set<string>)
    ensures var want, have, got := crd.spec.names, crd.accepted, GrantedNames(crd, resources, kinds);
      && got.plural == (if Taken(want.plural, have.plural, resources) then have.plural else want.plural)
      && got.singular == (if Taken(want.singular, have.singular, resources) then have.singular else want.singular)
      && got.shortNames == (if ShortNameTaken(want, have, resources) then have.shortNames else want.shortNames)
      && got.kind == (if Taken(want.kind, have.kind, kinds) then have.kind else want.kind)
      && got.listKind == (if Taken(want.listKind, have.listKind, kinds) then have.listKind else want.listKind)
      && got.categories == want.categories
  {
    var refused := RefusedShortNames(crd.spec.names.shortNames, crd.accepted.shortNames, resources);
    if refused != [] {
      assert refused[0] in refused;
    }
  }

  /** The condition names the last slot in conflict, and the names that are taken there. */
  lemma {:induction false} ConditionNamesTheConflict(crd: CRD, resources: set<string>, kinds: set<string>)
    ensures var want, have, cond := crd.spec.names, crd.accepted, NamesCondition(crd, resources, kinds);
      && cond.kind == NamesAccepted
      && (if Taken(want.listKind, have.listKind, kinds) then
            cond.status == StatusFalse && cond.reason == "ListKindConflict" && cond.message == InUse([want.listKind])
          else if Taken(want.kind, have.kind, kinds) then
            cond.status == StatusFalse && cond.reason == "KindConflict" && cond.message == InUse([want.kind])
          else if ShortNameTaken(want, have, resources) then
            && cond.status == StatusFalse && cond.reason == "ShortNamesConflict" && cond.message.InUse?
            && (forall x :: x in cond.message.names <==> x in want.shortNames && x != "" && x !in have.shortNames && x in resources)
          else if Taken(want.singular, have.singular, resources) then
            cond.status == StatusFalse && cond.reason == "SingularConflict" && cond.message == InUse([want.singular])
          else if Taken(want.plural, have.plural, resources) then
            cond.status == StatusFalse && cond.reason == "PluralConflict" && cond.message == InUse([want.plural])
          else cond.status == StatusTrue && cond.reason == "NoConflicts")
  {
    var refused := RefusedShortNames(crd.spec.names.shortNames, crd.accepted.shortNames, resources);
    if refused != [] {
      assert refused[0] in refused;
    }
  }

  /**
   How the conditions read after a naming write: NamesAccepted is the one worked out; an Established that is True
   stays, one that is not becomes Installing once the names are accepted, and one that is missing is made up as not accepted.
   */
  lemma {:induction false} ConditionsAfterNaming(crd: CRD, resources: set<string>, kinds: set<string>, t: ConditionType)
    ensures FindCondition(NamingWriteOf(crd, resources, kinds).conditions, t) ==
      var cond := NamesCondition(crd, resources, kinds);
      if t == NamesAccepted then Some(cond)
      else if t != Established || IsTrue(crd.conditions, Established) then FindCondition(crd.conditions, t)
      else if cond.status == StatusTrue then
        Some(Condition(Established, StatusFalse, "Installing", Text("the initial names have been accepted")))
      else if FindCondition(crd.conditions, Established).Some? then FindCondition(crd.conditions, Established)
      else Some(Condition(Established, StatusFalse, "NotAccepted", Text("not all names are accepted")))
  {
    var cond := NamesCondition(crd, resources, kinds);
    var est := EstablishedAfterNaming(crd, cond.status);
    SetThenFind(crd.conditions, cond, t);
    SetThenFind(SetCondition(crd.conditions, cond), est, t);
  }

  // ------------------------------------------------------ names and groups

  /** Everything after the first dot of an object name. */
  function GroupOfName(name: string): (r: Option<string>) {
    if name == "" then None
    else if name[0] == '.' then Some(name[1..])
    else GroupOfName(name[1..])
  }

  /** For a valid name this is the group in the spec. */
  lemma {:induction false} GroupOfValidName(plural: string, group: string)
    requires '.' !in plural
    ensures GroupOfName(plural + "." + group) == Some(group)
  {
    var name := plural + "." + group;
    if plural == "" {
      assert name[1..] == group;
    } else {
      assert name[1..] == plural[1..] + "." + group;
      assert name[0] == plural[0];
      GroupOfValidName(plural[1..], group);
    }
  }

  /** `name` is a plural, a period and the group. */
  ghost predicate IsNameIn(name: string, group: string) {
    exists plural :: '.' !in plural && name == plural + "." + group
  }

  lemma {:induction false} GroupIsParsed(name: string, group: string)
    ensures GroupOfName(name) == Some(group) <==> IsNameIn(name, group)
  {
    if plural :| '.' !in plural && name == plural + "." + group {
      GroupOfValidName(plural, group);
    }
    if GroupOfName(name) == Some(group) {
      var plural := PluralOf(name, group);
    }
  }

  lemma {:induction false} PluralOf(name: string, group: string) returns (plural: string)
    requires GroupOfName(name) == Some(group)
    ensures '.' !in plural && name == plural + "." + group
  {
    if name[0] == '.' {
      plural := "";
    } else {
      var rest := PluralOf(name[1..], group);
      plural := [name[0]] + rest;
      assert name == [name[0]] + name[1..];
    }
  }

  // -------------------------------------------------------- the controller

  /** Everything the queue holds after the other CRDs of the group are added to it. */
  function Requeued(queue: set<string>, list: seq<CRD>, name: string): set<string> {
    queue + set c | c in list && c.name != name && GroupOfName(name) == Some(c.spec.group) :: c.name
  }

  /** The queue after a sync that adds to it: what was there, and every other listed CRD of the group that `key` names. */
  ghost predicate OthersAreQueued(before: set<string>, list: seq<CRD>, key: string, after: set<string>) {
    forall x :: x in after <==> x in before || exists c :: c in list && c.name == x && c.name != key && IsNameIn(key, c.spec.group)
  }

  lemma {:induction false} RequeuedQueuesOthers(queue: set<string>, list: seq<CRD>, key: string)
    ensures OthersAreQueued(queue, list, key, Requeued(queue, list, key))
  {
    forall c | c in list {
      GroupIsParsed(key, c.spec.group);
    }
  }

  datatype SyncOutcome = SyncOutcome(log: seq<Event>, cache: map<string, CRD>, queue: set<string>, ok: bool)

  /** What one uninterrupted synchronisation does. */
  function SyncOutcomeOf(lister: map<string, CRD>, cache: map<string, CRD>, queue: set<string>,
                         log: seq<Event>, key: string, list: seq<CRD>, admitted: bool): SyncOutcome
  {
    if key !in lister then SyncOutcome(log, cache, Requeued(queue, list, key), true)
    else
      var crd := lister[key];
      var resources := UsedResources(list, lister, cache, crd.spec.group);
      var kinds := UsedKinds(list, lister, cache, crd.spec.group);
      if crd.spec.names == crd.accepted || NothingToWrite(crd, resources, kinds) then SyncOutcome(log, cache, queue, true)
      else if !admitted then SyncOutcome(log, cache, queue, false)
      else
        var (l, r) := StatusUpdate(log, NamingWriteOf(crd, resources, kinds));
        match r
        case Written(c) => SyncOutcome(l, Mutation(cache, c), Requeued(queue, list, key), true)
        case Rejected => SyncOutcome(l, cache, queue, false)
        case _ => SyncOutcome(l, cache, queue, true)
  }

  /** A write that the controller bothers to send changes the object. */
  lemma {:induction false} WritesChangeSomething(crd: CRD, resources: set<string>, kinds: set<string>)
    requires !NothingToWrite(crd, resources, kinds)
    ensures NamingWriteOf(crd, resources, kinds) != crd
  {
    ConditionsAfterNaming(crd, resources, kinds, NamesAccepted);
  }

  /** A resource version names one content: a listed copy with the stored version is the stored object. */
  predicate VersionsAreStored(lister: map<string, CRD>, log: seq<Event>, key: string)
    requires key in lister
  {
    lister[key].name == key && (key in Replay(log) && Replay(log)[key].rv == lister[key].rv ==> Replay(log)[key] == lister[key])
  }

  class NamingController {
    var lister: map<string, CRD>
    var cache: map<string, CRD>
    var queue: set<string>

    constructor ()
      ensures lister == map[] && cache == map[] && queue == {}
    {
      lister, cache, queue := map[], map[], {};
    }

    method GetAcceptedNamesForGroup(list: seq<CRD>, group: string) returns (resources: set<string>, kinds: set<string>)
      ensures resources == UsedResources(list, lister, cache, group)
      ensures kinds == UsedKinds(list, lister, cache, group)
    {
      resources, kinds := {}, {};
      for i := 0 to |list|
        invariant resources == UsedResources(list[..i], lister, cache, group)
        invariant kinds == UsedKinds(list[..i], lister, cache, group)
      {
        var curr := list[i];
        assert list[..i + 1][..i] == list[..i] && list[..i + 1][i] == curr;
        if curr.spec.group != group {
          continue;
        }
        var item := curr;
        if curr.name in lister {
          item := Newer(cache, lister[curr.name]);
        }
        resources := resources + {item.accepted.plural};
        resources := resources + {item.accepted.singular};
        resources := resources + set x | x in item.accepted.shortNames;
        kinds := kinds + {item.accepted.kind};
        kinds := kinds + {item.accepted.listKind};
        assert item == Effective(lister, cache, curr);
      }
      assert list[..|list|] == list;
    }

    method CalculateNamesAndConditions(crd: CRD, list: seq<CRD>)
      returns (names: Names, namesCond: Condition, establishedCond: Condition)
      ensures var resources := UsedResources(list, lister, cache, crd.spec.group);
              var kinds := UsedKinds(list, lister, cache, crd.spec.group);
              && names == GrantedNames(crd, resources, kinds)
              && namesCond == NamesCondition(crd, resources, kinds)
              && establishedCond == EstablishedAfterNaming(crd, namesCond.status)
    {
      var resources, kinds := GetAcceptedNamesForGroup(list, crd.spec.group);
      var want, have := crd.spec.names, crd.accepted;
      names := crd.accepted;
      namesCond := Condition(NamesAccepted, StatusUnknown, "", Text(""));
      if !EqualToAcceptedOrFresh(want.plural, have.plural, resources) {
        namesCond := Condition(NamesAccepted, StatusFalse, "PluralConflict", InUse([want.plural]));
      } else {
        names := names.(plural := want.plural);
      }
      if !EqualToAcceptedOrFresh(want.singular, have.singular, resources) {
        namesCond := Condition(NamesAccepted, StatusFalse, "SingularConflict", InUse([want.singular]));
      } else {
        names := names.(singular := want.singular);
      }
      if want.shortNames != have.shortNames {
        var errs: seq<string> := [];
        for i := 0 to |want.shortNames|
          invariant errs == RefusedShortNames(want.shortNames[..i], have.shortNames, resources)
        {
          var x := want.shortNames[i];
          assert want.shortNames[..i + 1][..i] == want.shortNames[..i];
          if x in have.shortNames {
            continue;
          }
          if !EqualToAcceptedOrFresh(x, "", resources) && x !in errs {
            errs := errs + [x];
          }
        }
        assert want.shortNames[..|want.shortNames|] == want.shortNames;
        if errs != [] {
          namesCond := Condition(NamesAccepted, StatusFalse, "ShortNamesConflict", InUse(errs));
        } else {
          names := names.(shortNames := want.shortNames);
        }
      } else {
        NothingRefused(want.shortNames, have.shortNames, resources);
      }
      if !EqualToAcceptedOrFresh(want.kind, have.kind, kinds) {
        namesCond := Condition(NamesAccepted, StatusFalse, "KindConflict", InUse([want.kind]));
      } else {
        names := names.(kind := want.kind);
      }
      if !EqualToAcceptedOrFresh(want.listKind, have.listKind, kinds) {
        namesCond := Condition(NamesAccepted, StatusFalse, "ListKindConflict", InUse([want.listKind]));
      } else {
        names := names.(listKind := want.listKind);
      }
      names := names.(categories := want.categories);
      if namesCond.status == StatusUnknown {
        namesCond := Condition(NamesAccepted, StatusTrue, "NoConflicts", Text("no conflicts found"));
      }
      establishedCond := NOT_ACCEPTED;
      var found := FindCondition(crd.conditions, Established);
      if found.Some? {
        establishedCond := found.value;
      }
      if establishedCond.status != StatusTrue && namesCond.status == StatusTrue {
        establishedCond := INSTALLING;
      }
    }

    /**
     One synchronisation, with nothing happening in between: `list` is the order the lister
     hands its objects out in. The other CRDs of the group are queued when this one is gone
     or has been written.
     */
    method Sync(key: string, list: seq<CRD>, server: ApiServer, admitted: bool) returns (ok: bool)
      requires Enumerates(list, lister)
      modifies this, server
      ensures lister == old(lister)
      ensures SyncOutcome(server.log, cache, queue, ok)
           == SyncOutcomeOf(lister, old(cache), old(queue), old(server.log), key, list, admitted)
      ensures key !in lister || server.log != old(server.log) ==> OthersAreQueued(old(queue), list, key, queue) && ok
      ensures key in lister && server.log == old(server.log) && VersionsAreStored(lister, old(server.log), key) ==>
        queue == old(queue) && cache == old(cache)
      ensures key in lister && VersionsAreStored(lister, old(server.log), key) ==>
        (ok <==> admitted || lister[key].spec.names == lister[key].accepted
                 || NothingToWrite(lister[key], UsedResources(list, lister, old(cache), lister[key].spec.group),
                                   UsedKinds(list, lister, old(cache), lister[key].spec.group)))
    {
      ghost var log := server.log;
      RequeuedQueuesOthers(queue, list, key);
      if key !in lister {
        RequeueAllOtherGroupCRDs(key, list);
        return true;
      }
      var inCrd := lister[key];
      if inCrd.spec.names == inCrd.accepted {
        return true;
      }
      var names, namesCond, establishedCond := CalculateNamesAndConditions(inCrd, list);
      if inCrd.accepted == names && FindCondition(inCrd.conditions, NamesAccepted) == Some(namesCond) {
        return true;
      }
      WritesChangeSomething(inCrd, UsedResources(list, lister, cache, inCrd.spec.group), UsedKinds(list, lister, cache, inCrd.spec.group));
      var r := WriteStatus(inCrd, names, namesCond, establishedCond, server, admitted);
      if r.NotFound? || r.Conflict? {
        return true;
      }
      if r.Rejected? {
        return false;
      }
      cache := Mutation(cache, r.crd);
      RequeueAllOtherGroupCRDs(key, list);
      return true;
    }

    /** The status update, on a copy of the lister's object. */
    method WriteStatus(inCrd: CRD, names: Names, namesCond: Condition, establishedCond: Condition, server: ApiServer, admitted: bool)
      returns (r: WriteResult)
      modifies server
      ensures (server.log, r) == if !admitted then (old(server.log), Rejected)
        else StatusUpdate(old(server.log), inCrd.(accepted := names,
                          conditions := SetCondition(SetCondition(inCrd.conditions, namesCond), establishedCond)))
    {
      var copy := new CrdObject(inCrd);
      copy.crd := copy.crd.(accepted := names);
      copy.SetCRDCondition(namesCond);
      copy.SetCRDCondition(establishedCond);
      r := server.UpdateStatus(copy.crd, admitted);
    }

    method RequeueAllOtherGroupCRDs(name: string, list: seq<CRD>)
      modifies this`queue
      ensures queue == Requeued(old(queue), list, name)
      ensures OthersAreQueued(old(queue), list, name, queue)
    {
      RequeuedQueuesOthers(queue, list, name);
      var group := GroupOfName(name);
      for i := 0 to |list|
        invariant queue == Requeued(old(queue), list[..i], name)
      {
        var curr := list[i];
        assert list[..i + 1] == list[..i] + [curr];
        if group == Some(curr.spec.group) && curr.name != name {
          queue := queue + {curr.name};
        }
      }
      assert list[..|list|] == list;
    }
  }
}
