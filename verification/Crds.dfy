/**
 The CustomResourceDefinition record shared by every controller, and the list
 operations on its conditions and finalizers.

 Times are not modelled: a condition carries no transition time.
 */
module Crds {

  datatype Option<+T> = None | Some(value: T) {
    function GetOr(default: T): T {
      if Some? then value else default
    }
  }

  datatype Status = StatusTrue | StatusFalse | StatusUnknown

  datatype ConditionType = NamesAccepted | Established | Terminating | OtherCondition(name: string)

  /** Condition messages: a fixed text, or the list of names found to be in use. */
  datatype Message = Text(text: string) | InUse(names: seq<string>)

  datatype Condition = Condition(kind: ConditionType, status: Status, reason: string, message: Message)

  datatype Names = Names(
    plural: string, singular: string, shortNames: seq<string>,
    kind: string, listKind: string, categories: seq<string>)

  const NO_NAMES := Names("", "", [], "", "", [])

  datatype GroupVersion = GroupVersion(group: string, version: string)

  datatype Version = Version(name: string, served: bool, storage: bool, hasStatus: bool, hasScale: bool)

  /** `rest` stands for the spec fields that no modelled code looks into. */
  datatype Spec = Spec(
    group: string, names: Names, versions: seq<Version>,
    namespaced: bool, badCABundle: bool, rest: int)

  /** `rv` is the resource version, `deleting` says that the deletion timestamp is set. */
  datatype CRD = CRD(
    name: string, uid: nat, rv: nat, deleting: bool, finalizers: seq<string>,
    spec: Spec, accepted: Names, conditions: seq<Condition>)

  const CLEANUP_FINALIZER := "customresourcecleanup.apiextensions.k8s.io"

  // ------------------------------------------------------------------ names

  /** The non-empty resource names a set of accepted names holds. */
  function HeldResources(n: Names): (r: set<string>)
    ensures forall x :: x in r <==> x != "" && (x == n.plural || x == n.singular || x in n.shortNames)
  {
    ({n.plural, n.singular} + set x | x in n.shortNames) - {""}
  }

  /** The non-empty kinds a set of accepted names holds. */
  function HeldKinds(n: Names): (r: set<string>)
    ensures forall x :: x in r <==> x != "" && (x == n.kind || x == n.listKind)
  {
    {n.kind, n.listKind} - {""}
  }

  /** The four names that validation requires in a spec, and serving requires in the status. */
  predicate FourNames(n: Names) {
    n.plural != "" && n.singular != "" && n.kind != "" && n.listKind != ""
  }

  /** What validation demands of the object name. A plural is a DNS label, so it has no dot. */
  predicate ValidName(name: string, spec: Spec) {
    '.' !in spec.names.plural && name == spec.names.plural + "." + spec.group
  }

  /** The object name fixes the group and the requested plural for the life of the name. */
  lemma {:induction false} NameFixesGroup(name: string, a: Spec, b: Spec)
    requires ValidName(name, a) && ValidName(name, b)
    ensures a.group == b.group && a.names.plural == b.names.plural
  {
    var p, q := a.names.plural, b.names.plural;
    assert name[|p|] == '.' && name[|q|] == '.';
    assert forall i :: 0 <= i < |p| ==> name[i] == p[i];
    assert forall i :: 0 <= i < |q| ==> name[i] == q[i];
    assert |p| == |q|;
    assert p == name[..|p|] && q == name[..|q|];
    assert a.group == name[|p| + 1..] && b.group == name[|q| + 1..];
  }

  // ---------------------------------------------------------------- versions

  /** The first version of that name. */
  function FirstVersion(versions: seq<Version>, name: string): (r: Option<Version>) {
    if versions == [] then None
    else if versions[0].name == name then Some(versions[0])
    else FirstVersion(versions[1..], name)
  }

  /** No version before place `i` has that name, and this one has. */
  predicate FirstNamed(versions: seq<Version>, name: string, i: nat) {
    i < |versions| && versions[i].name == name && forall j :: 0 <= j < i ==> versions[j].name != name
  }

  lemma {:induction false} FirstVersionIsFirstNamed(versions: seq<Version>, name: string, i: nat)
    requires FirstNamed(versions, name, i)
    ensures FirstVersion(versions, name) == Some(versions[i])
  {
    if i > 0 {
      assert forall j :: 0 <= j < i - 1 ==> versions[1..][j] == versions[j + 1];
      FirstVersionIsFirstNamed(versions[1..], name, i - 1);
    }
  }

  lemma {:induction false} FirstVersionIsThere(versions: seq<Version>, name: string) returns (i: nat)
    requires FirstVersion(versions, name).Some?
    ensures FirstNamed(versions, name, i) && FirstVersion(versions, name) == Some(versions[i])
  {
    if versions[0].name == name {
      i := 0;
    } else {
      var k := FirstVersionIsThere(versions[1..], name);
      i := k + 1;
      assert forall j :: 0 < j < i ==> versions[j] == versions[1..][j - 1];
    }
  }

  // ------------------------------------------------------------- conditions

  /** The first condition of the given type. */
  function FindCondition(cs: seq<Condition>, t: ConditionType): (r: Option<Condition>)
    ensures r.Some? ==> r.value.kind == t && r.value in cs
    ensures r.None? <==> forall c :: c in cs ==> c.kind != t
  {
    if cs == [] then None
    else if cs[0].kind == t then Some(cs[0])
    else FindCondition(cs[1..], t)
  }

  predicate IsTrue(cs: seq<Condition>, t: ConditionType) {
    var c := FindCondition(cs, t);
    c.Some? && c.value.status == StatusTrue
  }

  /** Overwrites the first condition of that type, or appends. */
  function SetCondition(cs: seq<Condition>, c: Condition): (r: seq<Condition>) {
    if cs == [] then [c]
    else if cs[0].kind == c.kind then [c] + cs[1..]
    else [cs[0]] + SetCondition(cs[1..], c)
  }

  /** Drops every condition of that type. */
  function RemoveCondition(cs: seq<Condition>, t: ConditionType): (r: seq<Condition>) {
    if cs == [] then []
    else if cs[0].kind == t then RemoveCondition(cs[1..], t)
    else [cs[0]] + RemoveCondition(cs[1..], t)
  }

  /** What was set is read back, and every other type reads as before. */
  lemma {:induction false} SetThenFind(cs: seq<Condition>, c: Condition, t: ConditionType)
    ensures FindCondition(SetCondition(cs, c), t) == if t == c.kind then Some(c) else FindCondition(cs, t)
  {
    if cs == [] {
    } else if cs[0].kind == c.kind {
      assert ([c] + cs[1..])[1..] == cs[1..];
    } else {
      SetThenFind(cs[1..], c, t);
      assert ([cs[0]] + SetCondition(cs[1..], c))[1..] == SetCondition(cs[1..], c);
    }
  }

  /** A removed type is gone, and every other type reads as before. */
  lemma {:induction false} RemoveThenFind(cs: seq<Condition>, t: ConditionType, u: ConditionType)
    ensures FindCondition(RemoveCondition(cs, t), u) == if u == t then None else FindCondition(cs, u)
  {
    if cs == [] {
    } else {
      RemoveThenFind(cs[1..], t, u);
      if cs[0].kind != t {
        assert ([cs[0]] + RemoveCondition(cs[1..], t))[1..] == RemoveCondition(cs[1..], t);
      }
    }
  }

  /** Writing back the condition that is already there changes nothing. */
  lemma {:induction false} SetWhatIsThere(cs: seq<Condition>, c: Condition)
    requires FindCondition(cs, c.kind) == Some(c)
    ensures SetCondition(cs, c) == cs
  {
    if cs[0].kind == c.kind {
      assert SetCondition(cs, c) == [c] + cs[1..];
    } else {
      SetWhatIsThere(cs[1..], c);
    }
  }

  /** The last write to a type wins. */
  lemma {:induction false} SetTwice(cs: seq<Condition>, c: Condition, d: Condition)
    requires c.kind == d.kind
    ensures SetCondition(SetCondition(cs, c), d) == SetCondition(cs, d)
  {
    if cs == [] {
    } else if cs[0].kind == c.kind {
      assert ([c] + cs[1..])[1..] == cs[1..];
    } else {
      SetTwice(cs[1..], c, d);
      assert ([cs[0]] + SetCondition(cs[1..], c))[1..] == SetCondition(cs[1..], c);
    }
  }

  // ------------------------------------------------------------- finalizers

  function RemoveFinalizer(fs: seq<string>, needle: string): (r: seq<string>)
    ensures needle !in r
    ensures forall f :: f != needle ==> (f in r <==> f in fs)
  {
    if fs == [] then []
    else if fs[0] == needle then RemoveFinalizer(fs[1..], needle)
    else [fs[0]] + RemoveFinalizer(fs[1..], needle)
  }

  lemma {:induction false} RemoveFinalizerAppend(fs: seq<string>, f: string, needle: string)
    ensures RemoveFinalizer(fs + [f], needle) == RemoveFinalizer(fs, needle) + (if f == needle then [] else [f])
  {
    if fs == [] {
      assert [f][1..] == [];
    } else {
      assert (fs + [f])[1..] == fs[1..] + [f];
      RemoveFinalizerAppend(fs[1..], f, needle);
    }
  }

  lemma {:induction false} RemoveConditionAppend(cs: seq<Condition>, c: Condition, t: ConditionType)
    ensures RemoveCondition(cs + [c], t) == RemoveCondition(cs, t) + (if c.kind == t then [] else [c])
  {
    if cs == [] {
      assert [c][1..] == [];
    } else {
      assert (cs + [c])[1..] == cs[1..] + [c];
      RemoveConditionAppend(cs[1..], c, t);
    }
  }

  /** Setting at the index of the first match, for the in-place loop below. */
  lemma {:induction false} SetConditionAt(cs: seq<Condition>, c: Condition, i: nat)
    requires i <= |cs|
    requires forall k :: 0 <= k < i ==> cs[k].kind != c.kind
    requires i < |cs| ==> cs[i].kind == c.kind
    ensures SetCondition(cs, c) == if i == |cs| then cs + [c] else cs[i := c]
  {
    if cs == [] {
    } else if i == 0 {
      assert SetCondition(cs, c) == [c] + cs[1..];
      assert [c] + cs[1..] == cs[0 := c];
    } else {
      var tail := cs[1..];
      assert forall k :: 0 <= k < i - 1 ==> tail[k] == cs[k + 1];
      SetConditionAt(tail, c, i - 1);
      assert SetCondition(cs, c) == [cs[0]] + SetCondition(tail, c);
      if i == |cs| {
        assert [cs[0]] + (tail + [c]) == cs + [c];
      } else {
        assert [cs[0]] + tail[i - 1 := c] == cs[i := c];
      }
    }
  }

  lemma {:induction false} FindConditionAt(cs: seq<Condition>, t: ConditionType, i: nat)
    requires i < |cs| && cs[i].kind == t
    requires forall k :: 0 <= k < i ==> cs[k].kind != t
    ensures FindCondition(cs, t) == Some(cs[i])
  {
    if i > 0 {
      FindConditionAt(cs[1..], t, i - 1);
    }
  }

  /** A CRD behind a pointer: what a controller's deep copy is, and what the helpers edit in place. */
  class CrdObject {
    var crd: CRD

    constructor (c: CRD)
      ensures crd == c
    {
      crd := c;
    }

    /** -1 when there is no such condition. */
    method FindCRDCondition(t: ConditionType) returns (at: int)
      ensures at == -1 <==> FindCondition(crd.conditions, t).None?
      ensures at != -1 ==> 0 <= at < |crd.conditions| && FindCondition(crd.conditions, t) == Some(crd.conditions[at])
      ensures at != -1 ==> forall k :: 0 <= k < at ==> crd.conditions[k].kind != t
    {
      for i := 0 to |crd.conditions|
        invariant forall k :: 0 <= k < i ==> crd.conditions[k].kind != t
      {
        if crd.conditions[i].kind == t {
          FindConditionAt(crd.conditions, t, i);
          return i;
        }
      }
      return -1;
    }

    method SetCRDCondition(c: Condition)
      modifies this
      ensures crd == old(crd).(conditions := SetCondition(old(crd).conditions, c))
    {
      var at := FindCRDCondition(c.kind);
      ghost var cs := crd.conditions;
      if at == -1 {
        SetConditionAt(cs, c, |cs|);
        crd := crd.(conditions := crd.conditions + [c]);
        return;
      }
      SetConditionAt(cs, c, at);
      crd := crd.(conditions := crd.conditions[at := c]);
    }

    method RemoveCRDCondition(t: ConditionType)
      modifies this
      ensures crd == old(crd).(conditions := RemoveCondition(old(crd).conditions, t))
    {
      var kept: seq<Condition> := [];
      for i := 0 to |crd.conditions|
        invariant crd == old(crd)
        invariant kept == RemoveCondition(crd.conditions[..i], t)
      {
        RemoveConditionAppend(crd.conditions[..i], crd.conditions[i], t);
        assert crd.conditions[..i + 1] == crd.conditions[..i] + [crd.conditions[i]];
        if crd.conditions[i].kind != t {
          kept := kept + [crd.conditions[i]];
        }
      }
      assert crd.conditions[..|crd.conditions|] == crd.conditions;
      crd := crd.(conditions := kept);
    }

    method CRDRemoveFinalizer(needle: string)
      modifies this
      ensures crd == old(crd).(finalizers := RemoveFinalizer(old(crd).finalizers, needle))
    {
      var kept: seq<string> := [];
      for i := 0 to |crd.finalizers|
        invariant crd == old(crd)
        invariant kept == RemoveFinalizer(crd.finalizers[..i], needle)
      {
        RemoveFinalizerAppend(crd.finalizers[..i], crd.finalizers[i], needle);
        assert crd.finalizers[..i + 1] == crd.finalizers[..i] + [crd.finalizers[i]];
        if crd.finalizers[i] != needle {
          kept := kept + [crd.finalizers[i]];
        }
      }
      assert crd.finalizers[..|crd.finalizers|] == crd.finalizers;
      crd := crd.(finalizers := kept);
    }
  }
}
