/**
 The discovery controller's synchronisation of one group-version: which documents it
 publishes for the group and for the version, as a function of the listed CRDs.

 The aggregated discovery document is not modelled (the resource manager is nil).
 */
module Discovery {
  import opened Crds

  const ALL_VERBS := ["delete", "deletecollection", "get", "list", "patch", "create", "update", "watch"]

  const TERMINATING_VERBS := ["delete", "deletecollection", "get", "list", "watch"]

  const SUBRESOURCE_VERBS := ["get", "patch", "update"]

  /** `group` and `version` are set where the kind is not of the group-version; `hash` names what the storage version hash is taken of. */
  datatype Resource = Resource(
    name: string, singular: string, namespaced: bool, group: string, version: string, kind: string, verbs: seq<string>,
    shortNames: seq<string>, categories: seq<string>, hash: Option<(string, string, string)>)

  // -------------------------------------------------- what one CRD contributes

  predicate Serves(crd: CRD, version: string) {
    exists v :: v in crd.spec.versions && v.served && v.name == version
  }

  function ServedVersions(crd: CRD): (r: set<string>) {
    set v | v in crd.spec.versions && v.served :: v.name
  }

  /** Hash of the last version that is served and stored. */
  function StorageHash(group: string, kind: string, versions: seq<Version>): Option<(string, string, string)> {
    if versions == [] then None
    else
      var v := versions[|versions| - 1];
      if v.served && v.storage then Some((group, v.name, kind)) else StorageHash(group, kind, versions[..|versions| - 1])
  }

  function StatusEntry(crd: CRD): Resource {
    Resource(crd.accepted.plural + "/status", "", crd.spec.namespaced, "", "", crd.accepted.kind, SUBRESOURCE_VERBS, [], [], None)
  }

  function ScaleEntry(crd: CRD): Resource {
    Resource(crd.accepted.plural + "/scale", "", crd.spec.namespaced, "autoscaling", "v1", "Scale", SUBRESOURCE_VERBS, [], [], None)
  }

  /** The resource, then its status and scale subresources where it has them. */
  function Entries(crd: CRD, version: string): seq<Resource> {
    var n := crd.accepted;
    var sub := FirstVersion(crd.spec.versions, version);
    [Resource(n.plural, n.singular, crd.spec.namespaced, "", "", n.kind,
              if IsTrue(crd.conditions, Terminating) then TERMINATING_VERBS else ALL_VERBS,
              n.shortNames, n.categories, StorageHash(crd.spec.group, crd.spec.names.kind, crd.spec.versions))]
    + (if sub.Some? && sub.value.hasStatus then [StatusEntry(crd)] else [])
    + (if sub.Some? && sub.value.hasScale then [ScaleEntry(crd)] else [])
  }

  /** Only established CRDs of the group are shown. */
  predicate Shown(crd: CRD, group: string) {
    IsTrue(crd.conditions, Established) && crd.spec.group == group
  }

  // ------------------------------------------------ documents from scratch

  function GroupVersions(lister: map<string, CRD>, group: string): (r: set<string>) {
    set n, x | n in lister && Shown(lister[n], group) && x in ServedVersions(lister[n]) :: x
  }

  /** No document where no version is served. */
  function GroupDoc(lister: map<string, CRD>, group: string): Option<set<string>> {
    var versions := GroupVersions(lister, group);
    if versions == {} then None else Some(versions)
  }

  function VersionDoc(lister: map<string, CRD>, gv: GroupVersion): Option<set<Resource>> {
    if gv.version !in GroupVersions(lister, gv.group) then None
    else Some(set n, r | n in lister && Shown(lister[n], gv.group) && Serves(lister[n], gv.version) && r in Entries(lister[n], gv.version) :: r)
  }

  // ------------------------------------------------------- sorted versions

  /** A strict total order, the one version names are compared by. */
  ghost predicate StrictTotalOrder(before: (string, string) -> bool) {
    && (forall a :: !before(a, a))
    && (forall a, b :: a != b ==> before(a, b) || before(b, a))
    && (forall a, b, c :: before(a, b) && before(b, c) ==> before(a, c))
  }

  predicate SortedBy(s: seq<string>, before: (string, string) -> bool) {
    forall i, j :: 0 <= i < j < |s| ==> before(s[i], s[j])
  }

  function Inserted(x: string, s: seq<string>, before: (string, string) -> bool): seq<string> {
    if s == [] then [x]
    else if before(x, s[0]) then [x] + s
    else [s[0]] + Inserted(x, s[1..], before)
  }

  /** Stands for the library sort. */
  function Sorted(s: seq<string>, before: (string, string) -> bool): seq<string> {
    if s == [] then [] else Inserted(s[0], Sorted(s[1..], before), before)
  }

  lemma {:induction false} InsertedIsSorted(x: string, s: seq<string>, before: (string, string) -> bool)
    requires StrictTotalOrder(before) && SortedBy(s, before) && x !in s
    ensures var r := Inserted(x, s, before); SortedBy(r, before) && forall y :: y in r <==> y == x || y in s
  {
    if s != [] && !before(x, s[0]) {
      InsertedIsSorted(x, s[1..], before);
      var rest := Inserted(x, s[1..], before);
      forall y | y in rest
        ensures before(s[0], y)
      {
        if y != x {
          var k :| 0 <= k < |s[1..]| && s[1..][k] == y;
        }
      }
    } else if s != [] {
      forall k | 0 <= k < |s|
        ensures before(x, s[k])
      {
        assert k > 0 ==> before(s[0], s[k]);
      }
    }
  }

  /** The sorted list has the same elements, in order. */
  lemma {:induction false} SortedIsSorted(s: seq<string>, before: (string, string) -> bool)
    requires StrictTotalOrder(before) && forall i, j :: 0 <= i < j < |s| ==> s[i] != s[j]
    ensures var r := Sorted(s, before); SortedBy(r, before) && forall y :: y in r <==> y in s
  {
    if s != [] {
      SortedIsSorted(s[1..], before);
      assert s[0] !in s[1..];
      InsertedIsSorted(s[0], Sorted(s[1..], before), before);
      assert s == [s[0]] + s[1..];
    }
  }

  lemma {:induction false} NonEmptyHasMember(s: seq<string>)
    ensures s != [] ==> exists x :: x in s
  {
    if s != [] {
      assert s[0] in s;
    }
  }

  lemma {:induction false} FirstIsLeast(s: seq<string>, before: (string, string) -> bool, x: string)
    requires SortedBy(s, before) && x in s
    ensures x == s[0] || before(s[0], x)
  {
    var k :| 0 <= k < |s| && s[k] == x;
  }

  /** The set of versions determines the group document: there is one sorted list of it. */
  lemma {:induction false} SortedListingIsUnique(a: seq<string>, b: seq<string>, before: (string, string) -> bool)
    requires StrictTotalOrder(before) && SortedBy(a, before) && SortedBy(b, before)
    requires forall x :: x in a <==> x in b
    ensures a == b
  {
    NonEmptyHasMember(a);
    NonEmptyHasMember(b);
    if a != [] {
      FirstIsLeast(b, before, a[0]);
      FirstIsLeast(a, before, b[0]);
      assert a[0] == b[0];
      forall x
        ensures x in a[1..] <==> x in b[1..]
      {
        TailMembers(a, before, x);
        TailMembers(b, before, x);
      }
      SortedListingIsUnique(a[1..], b[1..], before);
      assert a == [a[0]] + a[1..] && b == [b[0]] + b[1..];
    }
  }

  lemma {:induction false} TailMembers(s: seq<string>, before: (string, string) -> bool, x: string)
    requires StrictTotalOrder(before) && SortedBy(s, before) && s != []
    ensures x in s[1..] <==> x in s && x != s[0]
  {
    if x in s[1..] {
      var k :| 0 <= k < |s[1..]| && s[1..][k] == x;
      assert before(s[0], s[k + 1]);
    }
    if x in s && x != s[0] {
      var k :| 0 <= k < |s| && s[k] == x;
      assert s[1..][k - 1] == x;
    }
  }

  // --------------------------------------------- documents from a listing

  /** The resources of the version, in the order the CRDs are listed in. */
  function ListedResources(list: seq<CRD>, gv: GroupVersion): seq<Resource> {
    if list == [] then []
    else
      var crd := list[|list| - 1];
      ListedResources(list[..|list| - 1], gv)
      + (if Shown(crd, gv.group) && Serves(crd, gv.version) then Entries(crd, gv.version) else [])
  }

  function ListedVersions(list: seq<CRD>, group: string): set<string> {
    set crd, x | crd in list && Shown(crd, group) && x in ServedVersions(crd) :: x
  }

  /** `list` holds exactly the lister's objects. */
  ghost predicate Lists(list: seq<CRD>, lister: map<string, CRD>) {
    forall c :: c in list <==> c.name in lister && lister[c.name] == c
  }

  predicate Keyed(lister: map<string, CRD>) {
    forall n :: n in lister ==> lister[n].name == n
  }

  /** The CRD puts the resource into the document of the version. */
  predicate Contributes(crd: CRD, gv: GroupVersion, r: Resource) {
    Shown(crd, gv.group) && Serves(crd, gv.version) && r in Entries(crd, gv.version)
  }

  lemma {:induction false} ListedResourceHasSource(list: seq<CRD>, gv: GroupVersion, r: Resource)
    requires r in ListedResources(list, gv)
    ensures exists crd :: crd in list && Contributes(crd, gv, r)
  {
    var front, last := list[..|list| - 1], list[|list| - 1];
    if r in ListedResources(front, gv) {
      ListedResourceHasSource(front, gv, r);
      var crd :| crd in front && Contributes(crd, gv, r);
      assert crd in list;
    } else {
      assert last in list && Contributes(last, gv, r);
    }
  }

  lemma {:induction false} SourceIsListed(list: seq<CRD>, gv: GroupVersion, r: Resource, crd: CRD)
    requires crd in list && Contributes(crd, gv, r)
    ensures r in ListedResources(list, gv)
  {
    var front, last := list[..|list| - 1], list[|list| - 1];
    assert list == front + [last];
    if crd in front {
      SourceIsListed(front, gv, r, crd);
    }
  }

  lemma {:induction false} ListedResourcesMembers(list: seq<CRD>, gv: GroupVersion, r: Resource)
    ensures r in ListedResources(list, gv) <==> exists crd :: crd in list && Contributes(crd, gv, r)
  {
    if r in ListedResources(list, gv) {
      ListedResourceHasSource(list, gv, r);
    }
    forall crd | crd in list && Contributes(crd, gv, r)
      ensures r in ListedResources(list, gv)
    {
      SourceIsListed(list, gv, r, crd);
    }
  }

  /** Any listing of the lister yields the documents from scratch. */
  lemma {:induction false} ListingOrderIsIrrelevant(list: seq<CRD>, lister: map<string, CRD>, gv: GroupVersion)
    requires Lists(list, lister) && Keyed(lister)
    ensures ListedVersions(list, gv.group) == GroupVersions(lister, gv.group)
    ensures gv.version in GroupVersions(lister, gv.group) ==>
      VersionDoc(lister, gv) == Some(set r | r in ListedResources(list, gv))
  {
    forall x
      ensures x in ListedVersions(list, gv.group) <==> x in GroupVersions(lister, gv.group)
    {
      if x in GroupVersions(lister, gv.group) {
        var n :| n in lister && Shown(lister[n], gv.group) && x in ServedVersions(lister[n]);
        assert lister[n] in list;
      }
    }
    if gv.version in GroupVersions(lister, gv.group) {
      var doc := VersionDoc(lister, gv).value;
      forall r
        ensures r in doc <==> r in ListedResources(list, gv)
      {
        ListedResourcesMembers(list, gv, r);
        if r in doc {
          var n :| n in lister && Shown(lister[n], gv.group) && Serves(lister[n], gv.version) && r in Entries(lister[n], gv.version);
          assert lister[n] in list && Contributes(lister[n], gv, r);
        }
      }
      assert doc == set r | r in ListedResources(list, gv);
    }
  }

  // ----------------------------------------------- what the documents say

  /** The version at place `i` is the last one that is served and stored. */
  predicate LastServedStored(versions: seq<Version>, i: nat) {
    && i < |versions| && versions[i].served && versions[i].storage
    && forall j :: i < j < |versions| ==> !(versions[j].served && versions[j].storage)
  }

  lemma {:induction false} HashIsOfTheStorageVersion(group: string, kind: string, versions: seq<Version>)
    ensures StorageHash(group, kind, versions).None? <==> forall v :: v in versions ==> !(v.served && v.storage)
    ensures forall i: nat :: LastServedStored(versions, i) ==> StorageHash(group, kind, versions) == Some((group, versions[i].name, kind))
  {
    if versions != [] {
      var front, last := versions[..|versions| - 1], versions[|versions| - 1];
      assert versions == front + [last];
      HashIsOfTheStorageVersion(group, kind, front);
      forall i: nat | LastServedStored(versions, i) && i < |front|
        ensures !(last.served && last.storage) && LastServedStored(front, i) && front[i] == versions[i]
      {
        assert versions[|versions| - 1] == last;
      }
    }
  }

  /**
   The entry of the custom resource itself: under its accepted names; while it is terminating nothing can be created or
   changed; its hash is of the last version that is served and stored.
   */
  ghost predicate IsMainEntry(crd: CRD, r: Resource) {
    && r.name == crd.accepted.plural && r.singular == crd.accepted.singular && r.kind == crd.accepted.kind
    && r.shortNames == crd.accepted.shortNames && r.categories == crd.accepted.categories
    && r.namespaced == crd.spec.namespaced && r.group == "" && r.version == ""
    && r.verbs == (if IsTrue(crd.conditions, Terminating) then ["delete", "deletecollection", "get", "list", "watch"]
                   else ["delete", "deletecollection", "get", "list", "patch", "create", "update", "watch"])
    && (r.hash.None? <==> forall v :: v in crd.spec.versions ==> !(v.served && v.storage))
    && (forall i: nat :: LastServedStored(crd.spec.versions, i) ==>
          r.hash == Some((crd.spec.group, crd.spec.versions[i].name, crd.spec.names.kind)))
  }

  predicate IsStatusEntry(crd: CRD, r: Resource) {
    && r.name == crd.accepted.plural + "/status" && r.kind == crd.accepted.kind && r.group == "" && r.version == ""
    && IsSubresource(crd, r)
  }

  predicate IsScaleEntry(crd: CRD, r: Resource) {
    && r.name == crd.accepted.plural + "/scale" && r.kind == "Scale" && r.group == "autoscaling" && r.version == "v1"
    && IsSubresource(crd, r)
  }

  predicate IsSubresource(crd: CRD, r: Resource) {
    && r.singular == "" && r.namespaced == crd.spec.namespaced && r.verbs == ["get", "patch", "update"]
    && r.shortNames == [] && r.categories == [] && r.hash == None
  }

  /** An established CRD of the group that serves the version. */
  predicate Offers(crd: CRD, group: string, version: string) {
    && IsTrue(crd.conditions, Established) && crd.spec.group == group
    && exists i :: 0 <= i < |crd.spec.versions| && crd.spec.versions[i].served && crd.spec.versions[i].name == version
  }

  /** Subresources are those of the first version of that name. */
  ghost predicate IsEntry(crd: CRD, version: string, r: Resource) {
    || IsMainEntry(crd, r)
    || (exists i: nat :: FirstNamed(crd.spec.versions, version, i) &&
          ((crd.spec.versions[i].hasStatus && IsStatusEntry(crd, r)) || (crd.spec.versions[i].hasScale && IsScaleEntry(crd, r))))
  }

  lemma {:induction false} OffersMeansServed(crd: CRD, group: string, version: string)
    ensures Offers(crd, group, version) <==> Shown(crd, group) && Serves(crd, version)
    ensures Serves(crd, version) <==> version in ServedVersions(crd)
  {
    if Serves(crd, version) {
      var v :| v in crd.spec.versions && v.served && v.name == version;
      var i :| 0 <= i < |crd.spec.versions| && crd.spec.versions[i] == v;
    }
  }

  /** Two main entries of one CRD are the same. */
  lemma {:induction false} MainEntryIsUnique(crd: CRD, a: Resource, b: Resource)
    requires IsMainEntry(crd, a) && IsMainEntry(crd, b)
    ensures a == b
  {
    if a.hash.Some? {
      var i := LastPlace(crd.spec.versions);
    }
  }

  lemma {:induction false} LastPlace(versions: seq<Version>) returns (i: nat)
    requires exists v :: v in versions && v.served && v.storage
    ensures LastServedStored(versions, i)
  {
    var last := |versions| - 1;
    if versions[last].served && versions[last].storage {
      i := last;
    } else {
      assert versions == versions[..last] + [versions[last]];
      i := LastPlace(versions[..last]);
      assert forall j :: i < j < last ==> versions[..last][j] == versions[j];
    }
  }

  /** The entries of a CRD, as they read. */
  lemma {:induction false} EntriesAre(crd: CRD, version: string, r: Resource)
    ensures r in Entries(crd, version) <==> IsEntry(crd, version, r)
  {
    HashIsOfTheStorageVersion(crd.spec.group, crd.spec.names.kind, crd.spec.versions);
    var es := Entries(crd, version);
    assert IsMainEntry(crd, es[0]);
    if IsMainEntry(crd, r) {
      MainEntryIsUnique(crd, r, es[0]);
    }
    SubresourceEntriesAre(crd, version, r);
    assert r in es <==> r == es[0] || r in es[1..];
  }

  lemma {:induction false} SubresourceEntriesAre(crd: CRD, version: string, r: Resource)
    ensures r in Entries(crd, version)[1..] <==>
      exists i: nat :: FirstNamed(crd.spec.versions, version, i) &&
        ((crd.spec.versions[i].hasStatus && IsStatusEntry(crd, r)) || (crd.spec.versions[i].hasScale && IsScaleEntry(crd, r)))
  {
    var sub := FirstVersion(crd.spec.versions, version);
    assert IsStatusEntry(crd, r) <==> r == StatusEntry(crd);
    assert IsScaleEntry(crd, r) <==> r == ScaleEntry(crd);
    assert Entries(crd, version)[1..] == (if sub.Some? && sub.value.hasStatus then [StatusEntry(crd)] else [])
                                         + (if sub.Some? && sub.value.hasScale then [ScaleEntry(crd)] else []);
    if sub.Some? {
      var i := FirstVersionIsThere(crd.spec.versions, version);
    }
    forall i: nat | FirstNamed(crd.spec.versions, version, i)
      ensures sub == Some(crd.spec.versions[i])
    {
      FirstVersionIsFirstNamed(crd.spec.versions, version, i);
    }
  }

  ghost predicate OfferedIn(list: seq<CRD>, group: string, version: string) {
    exists crd :: crd in list && Offers(crd, group, version)
  }

  ghost predicate EntryIn(list: seq<CRD>, gv: GroupVersion, r: Resource) {
    exists crd :: crd in list && Offers(crd, gv.group, gv.version) && IsEntry(crd, gv.version, r)
  }

  /** What a listing has for a group and for a version, as it reads. */
  lemma {:induction false} ListedMeans(list: seq<CRD>, gv: GroupVersion)
    ensures forall x :: x in ListedVersions(list, gv.group) <==> OfferedIn(list, gv.group, x)
    ensures forall r :: r in ListedResources(list, gv) <==> EntryIn(list, gv, r)
  {
    forall x, crd
      ensures Offers(crd, gv.group, x) <==> Shown(crd, gv.group) && x in ServedVersions(crd)
    {
      OffersMeansServed(crd, gv.group, x);
    }
    forall r, crd
      ensures Contributes(crd, gv, r) <==> Offers(crd, gv.group, gv.version) && IsEntry(crd, gv.version, r)
    {
      OffersMeansServed(crd, gv.group, gv.version);
      EntriesAre(crd, gv.version, r);
    }
    forall r
      ensures r in ListedResources(list, gv) <==> exists crd :: crd in list && Contributes(crd, gv, r)
    {
      ListedResourcesMembers(list, gv, r);
    }
  }

  lemma {:induction false} FoundMeans(list: seq<CRD>, group: string, found: seq<string>)
    requires (set x | x in found) == ListedVersions(list, group)
    requires forall x :: x in ListedVersions(list, group) <==> OfferedIn(list, group, x)
    ensures forall x :: x in found <==> OfferedIn(list, group, x)
    ensures found == [] <==> ListedVersions(list, group) == {}
    ensures found == [] <==> !exists x :: OfferedIn(list, group, x)
  {
    var versions := set x | x in found;
    assert forall x :: x in found <==> x in versions;
    NonEmptyHasMember(found);
  }

  // ---------------------------------------------------------- the controller

  class DiscoveryController {
    var groups: map<string, seq<string>>
    var versions: map<GroupVersion, seq<Resource>>
    var queue: set<GroupVersion>

    constructor ()
      ensures groups == map[] && versions == map[] && queue == {}
    {
      groups, versions, queue := map[], map[], {};
    }

    /** Both documents are set or unset; those of other groups and versions stay as they are. */
    method Sync(gv: GroupVersion, crds: seq<CRD>, before: (string, string) -> bool)
      requires StrictTotalOrder(before)
      modifies this`groups, this`versions
      ensures groups == if ListedVersions(crds, gv.group) == {} then old(groups) - {gv.group}
                        else old(groups)[gv.group := if gv.group in groups then groups[gv.group] else []]
      ensures versions == if gv.version in ListedVersions(crds, gv.group)
                          then old(versions)[gv := ListedResources(crds, gv)] else old(versions) - {gv}
      ensures gv.group in groups <==> exists x :: OfferedIn(crds, gv.group, x)
      ensures gv.group in groups ==> SortedBy(groups[gv.group], before) && forall x :: x in groups[gv.group] <==> OfferedIn(crds, gv.group, x)
      ensures gv in versions <==> OfferedIn(crds, gv.group, gv.version)
      ensures gv in versions ==> forall r :: r in versions[gv] <==> EntryIn(crds, gv, r)
    {
      ListedMeans(crds, gv);
      var found, resources, foundVersion := ScanCRDs(gv, crds);
      FoundMeans(crds, gv.group, found);
      Publish(gv, found, resources, foundVersion, before);
    }

    /** The loop over the listed CRDs: versions of the group, each once, and resources of the version. */
    method ScanCRDs(gv: GroupVersion, crds: seq<CRD>) returns (found: seq<string>, resources: seq<Resource>, foundVersion: bool)
      ensures (set x | x in found) == ListedVersions(crds, gv.group) && forall a, b :: 0 <= a < b < |found| ==> found[a] != found[b]
      ensures resources == ListedResources(crds, gv)
      ensures foundVersion <==> gv.version in ListedVersions(crds, gv.group)
    {
      found, resources, foundVersion := [], [], false;
      for i := 0 to |crds|
        invariant (set x | x in found) == ListedVersions(crds[..i], gv.group)
        invariant forall a, b :: 0 <= a < b < |found| ==> found[a] != found[b]
        invariant resources == ListedResources(crds[..i], gv)
        invariant foundVersion <==> gv.version in ListedVersions(crds[..i], gv.group)
      {
        var crd := crds[i];
        ListedStep(crds, i, gv);
        if !IsTrue(crd.conditions, Established) {
          continue;
        }
        if crd.spec.group != gv.group {
          continue;
        }
        var seen, foundThisVersion, hash := ScanVersions(crd, gv, found);
        found := seen;
        if !foundThisVersion {
          continue;
        }
        foundVersion := true;
        var entries := EntriesOf(crd, gv.version, hash);
        resources := resources + entries;
      }
      assert crds[..|crds|] == crds;
    }

    method Publish(gv: GroupVersion, found: seq<string>, resources: seq<Resource>, foundVersion: bool, before: (string, string) -> bool)
      requires StrictTotalOrder(before) && (forall a, b :: 0 <= a < b < |found| ==> found[a] != found[b]) && (foundVersion ==> found != [])
      modifies this`groups, this`versions
      ensures groups == if found == [] then old(groups) - {gv.group}
                        else old(groups)[gv.group := if gv.group in groups then groups[gv.group] else []]
      ensures gv.group in groups ==> SortedBy(groups[gv.group], before) && forall x :: x in groups[gv.group] <==> x in found
      ensures versions == if foundVersion then old(versions)[gv := resources] else old(versions) - {gv}
    {
      if found == [] {
        groups := groups - {gv.group};
        versions := versions - {gv};
        return;
      }
      SortedIsSorted(found, before);
      groups := groups[gv.group := Sorted(found, before)];
      assert groups == old(groups)[gv.group := groups[gv.group]];
      if !foundVersion {
        versions := versions - {gv};
        return;
      }
      versions := versions[gv := resources];
    }

    /** The loop over the versions of one CRD: new versions are added once, in the order they are met. */
    method ScanVersions(crd: CRD, gv: GroupVersion, found: seq<string>)
      returns (seen: seq<string>, foundThisVersion: bool, hash: Option<(string, string, string)>)
      requires forall a, b :: 0 <= a < b < |found| ==> found[a] != found[b]
      ensures forall a, b :: 0 <= a < b < |seen| ==> seen[a] != seen[b]
      ensures forall x :: x in seen <==> x in found || x in ServedVersions(crd)
      ensures foundThisVersion <==> Serves(crd, gv.version)
      ensures hash == StorageHash(crd.spec.group, crd.spec.names.kind, crd.spec.versions)
    {
      seen, foundThisVersion, hash := found, false, None;
      var vs := crd.spec.versions;
      for i := 0 to |vs|
        invariant forall a, b :: 0 <= a < b < |seen| ==> seen[a] != seen[b]
        invariant forall x :: x in seen <==> x in found || exists v :: v in vs[..i] && v.served && v.name == x
        invariant foundThisVersion <==> exists v :: v in vs[..i] && v.served && v.name == gv.version
        invariant hash == StorageHash(crd.spec.group, crd.spec.names.kind, vs[..i])
      {
        var v := vs[i];
        assert vs[..i + 1] == vs[..i] + [v] && vs[..i + 1][..i] == vs[..i];
        if !v.served {
          continue;
        }
        if v.name !in seen {
          seen := seen + [v.name];
        }
        if v.name == gv.version {
          foundThisVersion := true;
        }
        if v.storage {
          hash := Some((crd.spec.group, v.name, crd.spec.names.kind));
        }
      }
      assert vs[..|vs|] == vs;
    }

    method EntriesOf(crd: CRD, version: string, hash: Option<(string, string, string)>) returns (r: seq<Resource>)
      requires hash == StorageHash(crd.spec.group, crd.spec.names.kind, crd.spec.versions)
      ensures r == Entries(crd, version)
    {
      var verbs := ALL_VERBS;
      if IsTrue(crd.conditions, Terminating) {
        verbs := TERMINATING_VERBS;
      }
      r := [Resource(crd.accepted.plural, crd.accepted.singular, crd.spec.namespaced, "", "", crd.accepted.kind,
                     verbs, crd.accepted.shortNames, crd.accepted.categories, hash)];
      var sub := FirstVersion(crd.spec.versions, version);
      if sub.Some? && sub.value.hasStatus {
        r := r + [Resource(crd.accepted.plural + "/status", "", crd.spec.namespaced, "", "", crd.accepted.kind, SUBRESOURCE_VERBS, [], [], None)];
      }
      if sub.Some? && sub.value.hasScale {
        r := r + [Resource(crd.accepted.plural + "/scale", "", crd.spec.namespaced, "autoscaling", "v1", "Scale", SUBRESOURCE_VERBS, [], [], None)];
      }
    }

    method Enqueue(crd: CRD)
      modifies this`queue
      ensures queue == old(queue) + GroupVersionsOf(crd)
      ensures forall gv :: gv in queue <==>
        gv in old(queue) || (gv.group == crd.spec.group && exists v :: v in crd.spec.versions && v.name == gv.version)
    {
      for i := 0 to |crd.spec.versions|
        invariant queue == old(queue) + set v | v in crd.spec.versions[..i] :: GroupVersion(crd.spec.group, v.name)
      {
        assert crd.spec.versions[..i + 1] == crd.spec.versions[..i] + [crd.spec.versions[i]];
        queue := queue + {GroupVersion(crd.spec.group, crd.spec.versions[i].name)};
      }
      assert crd.spec.versions[..|crd.spec.versions|] == crd.spec.versions;
    }
  }

  /** Every group-version an object names, served or not. */
  function GroupVersionsOf(crd: CRD): set<GroupVersion> {
    set v | v in crd.spec.versions :: GroupVersion(crd.spec.group, v.name)
  }

  /** One more listed CRD. */
  lemma {:induction false} ListedStep(list: seq<CRD>, i: nat, gv: GroupVersion)
    requires i < |list|
    ensures ListedVersions(list[..i + 1], gv.group) ==
      ListedVersions(list[..i], gv.group) + (if Shown(list[i], gv.group) then ServedVersions(list[i]) else {})
    ensures ListedResources(list[..i + 1], gv) ==
      ListedResources(list[..i], gv) + (if Shown(list[i], gv.group) && Serves(list[i], gv.version) then Entries(list[i], gv.version) else [])
  {
    assert list[..i + 1][..i] == list[..i] && list[..i + 1] == list[..i] + [list[i]];
    ListedVersionsAppend(list[..i], list[i], gv.group);
  }

  lemma {:induction false} ListedVersionsAppend(list: seq<CRD>, crd: CRD, group: string)
    ensures ListedVersions(list + [crd], group) == ListedVersions(list, group) + (if Shown(crd, group) then ServedVersions(crd) else {})
  {
  }
}
