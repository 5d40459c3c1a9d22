/**
 The OpenAPI v3 controller: an index of specs by group-version and CRD name, and one
 published document for each indexed group-version.

 Merging does not fail and does not depend on the order of the specs: it is a function of a
 group-version's specs by name. Building may fail for a version.
 */
module OpenAPIV3 {
  import opened Crds

  type Index<D> = map<GroupVersion, map<string, D>>

  function PathOf(gv: GroupVersion): string {
    "apis/" + gv.group + "/" + gv.version
  }

  /** Groups without a slash have paths of their own. */
  lemma {:induction false} PathsAreDistinct(a: GroupVersion, b: GroupVersion)
    requires '/' !in a.group && '/' !in b.group && PathOf(a) == PathOf(b)
    ensures a == b
  {
    var pa, pb := a.group + "/" + a.version, b.group + "/" + b.version;
    assert PathOf(a) == "apis/" + pa && PathOf(b) == "apis/" + pb;
    assert PathOf(a)[5..] == pa && PathOf(b)[5..] == pb;
    FirstPartNotShorter(a.group, a.version, b.group, b.version);
    FirstPartNotShorter(b.group, b.version, a.group, a.version);
    assert pa[..|a.group|] == a.group && pb[..|b.group|] == b.group;
    assert pa[|a.group| + 1..] == a.version && pb[|b.group| + 1..] == b.version;
  }

  lemma {:induction false} FirstPartNotShorter(a: string, x: string, b: string, y: string)
    requires '/' !in b && a + "/" + x == b + "/" + y
    ensures |a| >= |b|
  {
    var s := a + "/" + x;
    assert s[|a|] == '/';
    assert forall i :: 0 <= i < |b| ==> s[i] == b[i];
    assert forall i :: 0 <= i < |b| ==> s[i] != '/';
  }

  ghost predicate GroupsOk<D(!new)>(index: Index<D>) {
    forall gv :: gv in index ==> '/' !in gv.group
  }

  /** The index as it is kept: no group-version without specs. */
  ghost predicate IndexOk<D(!new)>(index: Index<D>) {
    GroupsOk(index) && forall gv :: gv in index ==> index[gv] != map[]
  }

  /** The published documents are those of the indexed group-versions, each the merge of its specs. */
  ghost predicate Publishes<D(!new)>(published: map<string, D>, index: Index<D>, merge: map<string, D> -> D) {
    && (forall path :: path in published <==> exists gv :: gv in index && PathOf(gv) == path)
    && forall gv :: gv in index ==> PathOf(gv) in published && published[PathOf(gv)] == merge(index[gv])
  }

  /** The same, but for one group-version that may be out of step. */
  ghost predicate PublishesExcept<D(!new)>(published: map<string, D>, index: Index<D>, merge: map<string, D> -> D, gv: GroupVersion) {
    && (forall path :: path != PathOf(gv) ==> (path in published <==> exists g :: g in index && PathOf(g) == path))
    && forall g :: g in index && g != gv ==> PathOf(g) in published && published[PathOf(g)] == merge(index[g])
  }

  /** Changing the specs of one group-version puts no other out of step. */
  lemma {:induction false} OneOutOfStep<D(!new)>(published: map<string, D>, before: Index<D>, after: Index<D>, merge: map<string, D> -> D, gv: GroupVersion)
    requires Publishes(published, before, merge)
    requires forall g :: g != gv ==> (g in after <==> g in before) && (g in before ==> after[g] == before[g])
    ensures PublishesExcept(published, after, merge, gv)
  {
    forall path | path != PathOf(gv)
      ensures path in published <==> exists g :: g in after && PathOf(g) == path
    {
      if path in published {
        var g :| g in before && PathOf(g) == path;
        assert g in after;
      }
    }
  }

  /** Publishing, or withdrawing, the one that is out of step. */
  lemma {:induction false} BackInStep<D(!new)>(published: map<string, D>, after: map<string, D>, index: Index<D>, merge: map<string, D> -> D, gv: GroupVersion)
    requires GroupsOk(index) && '/' !in gv.group && PublishesExcept(published, index, merge, gv)
    requires after == if gv in index then published[PathOf(gv) := merge(index[gv])] else published - {PathOf(gv)}
    ensures Publishes(after, index, merge)
  {
    forall g | g in index && PathOf(g) == PathOf(gv)
      ensures g == gv
    {
      PathsAreDistinct(g, gv);
    }
  }

  /** The index without one CRD. */
  function Without<D>(index: Index<D>, name: string): Index<D> {
    map gv | gv in index && index[gv] - {name} != map[] :: index[gv] - {name}
  }

  /** The same at one group-version only. */
  function WithoutAt<D>(index: Index<D>, gv: GroupVersion, name: string): Index<D>
    requires gv in index
  {
    if index[gv] - {name} == map[] then index - {gv} else index[gv := index[gv] - {name}]
  }

  lemma {:induction false} WithoutAtIsOk<D(!new)>(index: Index<D>, gv: GroupVersion, name: string)
    requires IndexOk(index) && gv in index
    ensures IndexOk(WithoutAt(index, gv, name))
  {
  }

  /** The same everywhere but at some group-versions. */
  function WithoutExcept<D>(index: Index<D>, kept: set<GroupVersion>, name: string): Index<D> {
    map gv | gv in index && (gv in kept || index[gv] - {name} != map[]) :: if gv in kept then index[gv] else index[gv] - {name}
  }

  lemma {:induction false} OneFewer<D>(index: Index<D>, kept: set<GroupVersion>, gv: GroupVersion, name: string)
    requires gv in kept && gv in index
    ensures gv in WithoutExcept(index, kept, name)
    ensures WithoutAt(WithoutExcept(index, kept, name), gv, name) == WithoutExcept(index, kept - {gv}, name)
  {
  }

  lemma {:induction false} Ends<D>(index: Index<D>, name: string)
    ensures WithoutExcept(index, index.Keys, name) == index
    ensures WithoutExcept(index, {}, name) == Without(index, name)
  {
  }

  function With<D>(index: Index<D>, gv: GroupVersion, name: string, spec: D): Index<D> {
    index[gv := (if gv in index then index[gv] else map[])[name := spec]]
  }

  lemma {:induction false} WithIsOk<D(!new)>(index: Index<D>, gv: GroupVersion, name: string, spec: D)
    requires IndexOk(index) && '/' !in gv.group
    ensures IndexOk(With(index, gv, name, spec))
  {
    assert name in With(index, gv, name, spec)[gv];
  }

  /** The index after the served versions of a CRD have been built, those that fail left out. */
  function Indexed<D>(index: Index<D>, crd: CRD, name: string, versions: seq<Version>, build: (CRD, string) -> Option<D>): Index<D> {
    if versions == [] then index
    else
      var last := versions[|versions| - 1];
      var before := Indexed(index, crd, name, versions[..|versions| - 1], build);
      if last.served && build(crd, last.name).Some?
      then With(before, GroupVersion(crd.spec.group, last.name), name, build(crd, last.name).value) else before
  }

  lemma {:induction false} IndexedStep<D>(index: Index<D>, crd: CRD, name: string, versions: seq<Version>, i: nat, build: (CRD, string) -> Option<D>)
    requires i < |versions|
    ensures var v, before := versions[i], Indexed(index, crd, name, versions[..i], build);
      Indexed(index, crd, name, versions[..i + 1], build) ==
        if v.served && build(crd, v.name).Some? then With(before, GroupVersion(crd.spec.group, v.name), name, build(crd, v.name).value) else before
  {
    assert versions[..i + 1][..i] == versions[..i];
  }

  /** The index after one sync. */
  function AfterSync<D>(index: Index<D>, lister: map<string, CRD>, name: string, build: (CRD, string) -> Option<D>): Index<D> {
    if name in lister && IsTrue(lister[name].conditions, Established)
    then Indexed(index, lister[name], name, lister[name].spec.versions, build)
    else Without(index, name)
  }

  predicate Holds<D>(index: Index<D>, gv: GroupVersion, name: string) {
    gv in index && name in index[gv]
  }

  predicate SameEntry<D(==)>(before: Index<D>, after: Index<D>, gv: GroupVersion, name: string) {
    (Holds(after, gv, name) <==> Holds(before, gv, name)) && (Holds(before, gv, name) ==> after[gv][name] == before[gv][name])
  }

  /**
   What one sync does to every entry. Entries of other CRDs stay. A CRD that is gone or not established has none left. An established one has
   the spec built now at each served version that builds, and what it had before anywhere else.
   */
  ghost predicate Follows<D(!new)>(before: Index<D>, lister: map<string, CRD>, name: string, build: (CRD, string) -> Option<D>, after: Index<D>) {
    forall gv: GroupVersion, n: string ::
      if n != name then SameEntry(before, after, gv, n)
      else if name !in lister || !IsTrue(lister[name].conditions, Established) then !Holds(after, gv, n)
      else if ServedAndBuilt(lister[name], lister[name].spec.versions, build, gv) then
        Holds(after, gv, n) && after[gv][n] == build(lister[name], gv.version).value
      else SameEntry(before, after, gv, n)
  }

  class Controller<D(==, !new)> {
    var specs: Index<D>
    var published: map<string, D>
    const merge: map<string, D> -> D
    const build: (CRD, string) -> Option<D>

    constructor (merge: map<string, D> -> D, build: (CRD, string) -> Option<D>)
      ensures Valid() && specs == map[] && this.merge == merge && this.build == build
    {
      this.specs, this.published, this.merge, this.build := map[], map[], merge, build;
    }

    ghost predicate Valid()
      reads this
    {
      IndexOk(specs) && Publishes(published, specs, merge)
    }

    /** Publishes or withdraws the document of one group-version, the only one that may be out of step. */
    method UpdateGroupVersion(gv: GroupVersion)
      requires IndexOk(specs) && '/' !in gv.group
      requires PublishesExcept(published, specs, merge, gv)
      modifies this`published
      ensures Valid()
    {
      ghost var before := published;
      if gv !in specs {
        published := published - {PathOf(gv)};
      } else {
        published := published[PathOf(gv) := merge(specs[gv])];
      }
      BackInStep(before, published, specs, merge, gv);
    }

    method UpdateCRDSpec(crd: CRD, name: string, versionName: string, v3: D)
      requires Valid() && '/' !in crd.spec.group
      modifies this`specs, this`published
      ensures Valid() && specs == With(old(specs), GroupVersion(crd.spec.group, versionName), name, v3)
    {
      var gv := GroupVersion(crd.spec.group, versionName);
      var forGV := map[];
      if gv in specs {
        forGV := specs[gv];
      }
      if name in forGV && forGV[name] == v3 {
        assert specs[gv][name := v3] == specs[gv];
        return;
      }
      ghost var before := specs;
      specs := specs[gv := forGV[name := v3]];
      WithIsOk(before, gv, name, v3);
      OneOutOfStep(published, before, specs, merge, gv);
      UpdateGroupVersion(gv);
    }

    method BuildV3Specs(crd: CRD, name: string)
      requires Valid() && '/' !in crd.spec.group
      modifies this`specs, this`published
      ensures Valid() && specs == Indexed(old(specs), crd, name, crd.spec.versions, build)
    {
      var versions := crd.spec.versions;
      for i := 0 to |versions|
        invariant Valid() && specs == Indexed(old(specs), crd, name, versions[..i], build)
      {
        IndexedStep(old(specs), crd, name, versions, i, build);
        if versions[i].served {
          var v3 := build(crd, versions[i].name);
          if v3.Some? {
            UpdateCRDSpec(crd, name, versions[i].name, v3.value);
          }
        }
      }
      assert versions[..|versions|] == versions;
    }

    method RemoveFrom(gv: GroupVersion, name: string)
      requires Valid() && gv in specs
      modifies this`specs, this`published
      ensures Valid() && specs == WithoutAt(old(specs), gv, name)
    {
      if name in specs[gv] {
        ghost var before := specs;
        var left := specs[gv] - {name};
        specs := if left == map[] then specs - {gv} else specs[gv := left];
        WithoutAtIsOk(before, gv, name);
        OneOutOfStep(published, before, specs, merge, gv);
        UpdateGroupVersion(gv);
      } else {
        assert specs[gv] - {name} == specs[gv];
      }
    }

    method DeleteCRD(name: string)
      requires Valid()
      modifies this`specs, this`published
      ensures Valid() && specs == Without(old(specs), name)
    {
      ghost var before := specs;
      var todo := specs.Keys;
      Ends(before, name);
      while todo != {}
        invariant Valid()
        invariant todo <= before.Keys && specs == WithoutExcept(before, todo, name)
        decreases todo
      {
        var gv :| gv in todo;
        OneFewer(before, todo, gv, name);
        todo := todo - {gv};
        RemoveFrom(gv, name);
      }
    }

    /** One sync: the published documents again follow the index, and the index is the sync's function of what it was. */
    method Sync(lister: map<string, CRD>, name: string)
      requires Valid() && (name in lister ==> '/' !in lister[name].spec.group)
      modifies this`specs, this`published
      ensures Valid() && specs == AfterSync(old(specs), lister, name, build)
      ensures Follows(old(specs), lister, name, build, specs)
      ensures forall gv :: gv in specs ==>
        var path := "apis/" + gv.group + "/" + gv.version;
        specs[gv] != map[] && path in published && published[path] == merge(specs[gv])
      ensures forall path :: path in published ==> exists gv :: gv in specs && path == "apis/" + gv.group + "/" + gv.version
    {
      SyncFollows(specs, lister, name, build);
      if name !in lister || !IsTrue(lister[name].conditions, Established) {
        DeleteCRD(name);
        return;
      }
      BuildV3Specs(lister[name], name);
    }
  }

  // ------------------------------------------------------- what the index holds

  /** After a sync of a CRD that is gone or not established, nothing of it is indexed, and the rest is as it was. */
  lemma {:induction false} GoneMeansUnindexed<D>(index: Index<D>, name: string, gv: GroupVersion, other: string)
    ensures gv in Without(index, name) ==> name !in Without(index, name)[gv]
    ensures other != name ==>
      ((gv in Without(index, name) && other in Without(index, name)[gv]) <==> (gv in index && other in index[gv]))
    ensures other != name && gv in index && other in index[gv] ==> Without(index, name)[gv][other] == index[gv][other]
  {
    if gv in index && other in index[gv] && other != name {
      assert other in index[gv] - {name};
    }
  }

  /** The last served version of that name that could be built is what is indexed for it. */
  lemma {:induction false} ServedMeansIndexed<D>(index: Index<D>, crd: CRD, name: string, versions: seq<Version>, build: (CRD, string) -> Option<D>, v: string)
    requires exists i :: 0 <= i < |versions| && versions[i].served && versions[i].name == v
    requires build(crd, v).Some?
    ensures var gv := GroupVersion(crd.spec.group, v);
      var after := Indexed(index, crd, name, versions, build);
      gv in after && name in after[gv] && after[gv][name] == build(crd, v).value
  {
    var last := versions[|versions| - 1];
    if !(last.served && last.name == v) {
      var i :| 0 <= i < |versions| && versions[i].served && versions[i].name == v;
      assert versions[..|versions| - 1][i] == versions[i];
      ServedMeansIndexed(index, crd, name, versions[..|versions| - 1], build, v);
    }
  }

  /** The group-version is a served version of the CRD, and its spec can be built. */
  predicate ServedAndBuilt<D>(crd: CRD, versions: seq<Version>, build: (CRD, string) -> Option<D>, gv: GroupVersion) {
    && gv.group == crd.spec.group
    && (exists i :: 0 <= i < |versions| && versions[i].served && versions[i].name == gv.version)
    && build(crd, gv.version).Some?
  }

  lemma {:induction false} ServedByOneMore<D>(crd: CRD, versions: seq<Version>, build: (CRD, string) -> Option<D>, gv: GroupVersion)
    requires versions != []
    ensures var front, last := versions[..|versions| - 1], versions[|versions| - 1];
      ServedAndBuilt(crd, versions, build, gv) <==>
        ServedAndBuilt(crd, front, build, gv)
        || (last.served && gv == GroupVersion(crd.spec.group, last.name) && build(crd, last.name).Some?)
  {
    var front, last := versions[..|versions| - 1], versions[|versions| - 1];
    assert versions[|front|] == last;
    if ServedAndBuilt(crd, front, build, gv) {
      var i :| 0 <= i < |front| && front[i].served && front[i].name == gv.version;
      assert versions[i] == front[i];
    }
    if ServedAndBuilt(crd, versions, build, gv) && !(last.served && last.name == gv.version) {
      var i :| 0 <= i < |versions| && versions[i].served && versions[i].name == gv.version;
      assert front[i] == versions[i];
    }
  }

  /** A sync of an established CRD only adds: it is indexed where it was, and where it is served and built. */
  lemma {:induction false} IndexedWhere<D>(index: Index<D>, crd: CRD, name: string, versions: seq<Version>, build: (CRD, string) -> Option<D>, gv: GroupVersion)
    ensures Holds(Indexed(index, crd, name, versions, build), gv, name)
      <==> Holds(index, gv, name) || ServedAndBuilt(crd, versions, build, gv)
  {
    if versions != [] {
      ServedByOneMore(crd, versions, build, gv);
      IndexedWhere(index, crd, name, versions[..|versions| - 1], build, gv);
    }
  }

  /**
   After a sync the CRD is indexed at exactly its served and buildable versions if and only
   if every group-version it was indexed at before is one of them.
   */
  lemma {:induction false} IndexFollowsServed<D(!new)>(index: Index<D>, crd: CRD, name: string, build: (CRD, string) -> Option<D>)
    ensures var versions := crd.spec.versions;
      (forall gv :: Holds(Indexed(index, crd, name, versions, build), gv, name) <==> ServedAndBuilt(crd, versions, build, gv))
      <==> (forall gv :: Holds(index, gv, name) ==> ServedAndBuilt(crd, versions, build, gv))
  {
    forall gv {
      IndexedWhere(index, crd, name, crd.spec.versions, build, gv);
    }
  }

  /** What fails the condition stays as it was: a version no longer served, or one whose build now fails. */
  lemma {:induction false} LeftoverStays<D>(index: Index<D>, crd: CRD, name: string, versions: seq<Version>, build: (CRD, string) -> Option<D>, gv: GroupVersion)
    requires Holds(index, gv, name) && !ServedAndBuilt(crd, versions, build, gv)
    ensures var after := Indexed(index, crd, name, versions, build); gv in after && after[gv] == index[gv]
  {
    if versions != [] {
      var front, last := versions[..|versions| - 1], versions[|versions| - 1];
      ServedByOneMore(crd, versions, build, gv);
      LeftoverStays(index, crd, name, front, build, gv);
    }
  }

  /** Both happen: the old spec of v1 stays when v1 is no longer served, and when it is served but fails to build. */
  lemma {:induction false} LeftoverExample(served: bool)
    ensures var names := Names("as", "a", [], "A", "AList", []);
      var crd := CRD("as.g", 1, 1, false, [], Spec("g", names, [Version("v1", served, true, false, false)], true, false, 0), names, []);
      var build := (c: CRD, v: string) => if served then None else Some(1);
      var gv := GroupVersion("g", "v1");
      var after := Indexed(map[gv := map["as.g" := 0]], crd, "as.g", crd.spec.versions, build);
      && !ServedAndBuilt(crd, crd.spec.versions, build, gv)
      && Holds(after, gv, "as.g") && after[gv]["as.g"] == 0
  {
    var names := Names("as", "a", [], "A", "AList", []);
    var crd := CRD("as.g", 1, 1, false, [], Spec("g", names, [Version("v1", served, true, false, false)], true, false, 0), names, []);
    var build := (c: CRD, v: string) => if served then None else Some(1);
    LeftoverStays(map[GroupVersion("g", "v1") := map["as.g" := 0]], crd, "as.g", crd.spec.versions, build, GroupVersion("g", "v1"));
  }

  /** Indexing one CRD leaves the entries of the others alone. */
  lemma {:induction false} OthersStayIndexed<D>(index: Index<D>, crd: CRD, name: string, versions: seq<Version>,
                                                build: (CRD, string) -> Option<D>, gv: GroupVersion, other: string)
    requires other != name
    ensures var after := Indexed(index, crd, name, versions, build);
      (Holds(after, gv, other) <==> Holds(index, gv, other)) && (Holds(index, gv, other) ==> after[gv][other] == index[gv][other])
  {
    if versions != [] {
      OthersStayIndexed(index, crd, name, versions[..|versions| - 1], build, gv, other);
    }
  }

  lemma {:induction false} SyncFollows<D(!new)>(index: Index<D>, lister: map<string, CRD>, name: string, build: (CRD, string) -> Option<D>)
    ensures Follows(index, lister, name, build, AfterSync(index, lister, name, build))
  {
    forall gv: GroupVersion, n: string
      ensures var after := AfterSync(index, lister, name, build);
        if n != name then SameEntry(index, after, gv, n)
        else if name !in lister || !IsTrue(lister[name].conditions, Established) then !Holds(after, gv, n)
        else if ServedAndBuilt(lister[name], lister[name].spec.versions, build, gv) then
          Holds(after, gv, n) && after[gv][n] == build(lister[name], gv.version).value
        else SameEntry(index, after, gv, n)
    {
      if name in lister && IsTrue(lister[name].conditions, Established) {
        EstablishedEntry(index, lister[name], name, build, gv, n);
      } else {
        GoneMeansUnindexed(index, name, gv, n);
      }
    }
  }

  lemma {:induction false} EstablishedEntry<D>(index: Index<D>, crd: CRD, name: string, build: (CRD, string) -> Option<D>, gv: GroupVersion, n: string)
    ensures var after := Indexed(index, crd, name, crd.spec.versions, build);
      if n == name && ServedAndBuilt(crd, crd.spec.versions, build, gv) then Holds(after, gv, n) && after[gv][n] == build(crd, gv.version).value
      else SameEntry(index, after, gv, n)
  {
    if n != name {
      OthersStayIndexed(index, crd, name, crd.spec.versions, build, gv, n);
    } else if ServedAndBuilt(crd, crd.spec.versions, build, gv) {
      ServedMeansIndexed(index, crd, name, crd.spec.versions, build, gv.version);
    } else {
      IndexedWhere(index, crd, name, crd.spec.versions, build, gv);
      if Holds(index, gv, name) {
        LeftoverStays(index, crd, name, crd.spec.versions, build, gv);
      }
    }
  }
}
