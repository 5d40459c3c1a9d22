/**
 The scale subresource of a custom resource: reading replicas from configured paths, writing
 them back, and the range in which the casts lose nothing.

 Reading and setting nested fields follow the unstructured helpers of k8s.io/apimachinery.
 Numbers in objects are int64.
 */
module Scale {
  import opened Crds
  import opened Schemas

  type Fields = map<string, Json>

  const INT32_MAX := 0x7FFF_FFFF

  /** The smallest int32; stands for replicas that were never set. */
  const UNSET_REPLICAS := -0x8000_0000

  predicate IsInt32(i: int) {
    UNSET_REPLICAS <= i <= INT32_MAX
  }

  /** The cast to int32 wraps around. */
  function Int32(i: int): (r: int)
    ensures IsInt32(r)
    ensures r == i <==> IsInt32(i)
    ensures (i - r) % 0x1_0000_0000 == 0
  {
    (i + 0x8000_0000) % 0x1_0000_0000 - 0x8000_0000
  }

  // ------------------------------------------------------------------- paths

  function SplitDots(s: string): (r: seq<string>)
    ensures r != []
  {
    if s == "" then [""]
    else if s[0] == '.' then [""] + SplitDots(s[1..])
    else var rest := SplitDots(s[1..]); [[s[0]] + rest[0]] + rest[1..]
  }

  /** One leading period is ignored. */
  function SplitReplicasPath(path: string): (r: seq<string>)
    ensures r != []
  {
    SplitDots(if path != "" && path[0] == '.' then path[1..] else path)
  }

  /** The parts put together again. */
  function Joined(parts: seq<string>): string
    requires parts != []
  {
    if |parts| == 1 then parts[0] else parts[0] + "." + Joined(parts[1..])
  }

  lemma {:induction false} JoinedFront(x: string, parts: seq<string>)
    requires parts != []
    ensures Joined([x + parts[0]] + parts[1..]) == x + Joined(parts)
    ensures Joined([x] + parts) == x + "." + Joined(parts)
  {
    assert ([x + parts[0]] + parts[1..])[1..] == parts[1..];
    assert ([x] + parts)[1..] == parts;
    if |parts| > 1 {
      var rest := Joined(parts[1..]);
      assert (x + parts[0]) + "." + rest == x + (parts[0] + "." + rest);
    }
  }

  /** A path is split at all its periods: no part holds one, and the parts with periods in between are the path. */
  lemma {:induction false} SplitAtPeriods(s: string)
    ensures Joined(SplitDots(s)) == s
    ensures forall k :: 0 <= k < |SplitDots(s)| ==> '.' !in SplitDots(s)[k]
  {
    if s != "" {
      SplitAtPeriods(s[1..]);
      JoinedFront(if s[0] == '.' then "" else [s[0]], SplitDots(s[1..]));
      assert s == [s[0]] + s[1..];
    }
  }

  /** With one leading period, or none, the path is its parts. */
  lemma {:induction false} ReplicasPathParts(path: string)
    ensures var parts := SplitReplicasPath(path);
      && Joined(parts) == (if path != "" && path[0] == '.' then path[1..] else path)
      && forall k :: 0 <= k < |parts| ==> '.' !in parts[k]
  {
    SplitAtPeriods(if path != "" && path[0] == '.' then path[1..] else path);
  }

  // ----------------------------------------------------------- nested fields

  /** Wrong: something on the way is not an object. */
  datatype Lookup = Missing | Wrong | Found(value: Json)

  function Get(m: Fields, path: seq<string>): Lookup
    requires path != []
    decreases |path|
  {
    if path[0] !in m then Missing
    else if |path| == 1 then Found(m[path[0]])
    else if m[path[0]].JNull? then Missing
    else if m[path[0]].JObject? then Get(m[path[0]].fields, path[1..])
    else Wrong
  }

  /** None: something on the way is there and is not an object. */
  function Set(m: Fields, path: seq<string>, value: Json): Option<Fields>
    requires path != []
    decreases |path|
  {
    if |path| == 1 then Some(m[path[0] := value])
    else if path[0] in m && !m[path[0]].JObject? then None
    else
      var inner := Set(if path[0] in m then m[path[0]].fields else map[], path[1..], value);
      if inner.None? then None else Some(m[path[0] := JObject(inner.value)])
  }

  predicate Apart(p: seq<string>, q: seq<string>) {
    !(p <= q) && !(q <= p)
  }

  lemma {:induction false} SetThenGet(m: Fields, path: seq<string>, value: Json)
    requires path != [] && Set(m, path, value).Some?
    ensures Get(Set(m, path, value).value, path) == Found(value)
    decreases |path|
  {
    if |path| > 1 {
      SetThenGet(if path[0] in m then m[path[0]].fields else map[], path[1..], value);
    }
  }

  /** Setting at one path leaves every path alone that is neither above nor below it. */
  lemma {:induction false} SetElsewhere(m: Fields, path: seq<string>, value: Json, other: seq<string>)
    requires path != [] && other != [] && Apart(path, other) && Set(m, path, value).Some?
    ensures Get(Set(m, path, value).value, other) == Get(m, other)
    decreases |path|
  {
    if path[0] == other[0] {
      if |path| > 1 && |other| > 1 {
        assert Apart(path[1..], other[1..]) by {
          assert path == [path[0]] + path[1..] && other == [other[0]] + other[1..];
        }
        var inner := if path[0] in m then m[path[0]].fields else map[];
        SetElsewhere(inner, path[1..], value, other[1..]);
        if path[0] !in m {
          EmptyHasNothing(other[1..]);
        }
      }
    }
  }

  lemma {:induction false} EmptyHasNothing(path: seq<string>)
    requires path != []
    ensures Get(map[], path) == Missing
  {
  }

  /** One field further: it is looked for in an object, is missing from null, and is wrong anywhere else. */
  lemma {:induction false} GetOneFurther(m: Fields, path: seq<string>, x: string)
    requires path != []
    ensures Get(m, path + [x]) ==
      match Get(m, path)
      case Missing => Missing
      case Wrong => Wrong
      case Found(v) => if v.JNull? then Missing else if !v.JObject? then Wrong else if x in v.fields then Found(v.fields[x]) else Missing
    decreases |path|
  {
    assert (path + [x])[0] == path[0] && (path + [x])[1..] == path[1..] + [x];
    if |path| > 1 {
      if path[0] in m && m[path[0]].JObject? {
        GetOneFurther(m[path[0]].fields, path[1..], x);
      }
    } else {
      assert path[1..] + [x] == [x];
    }
  }

  /** Setting fails exactly when something on the way is there and is not an object. */
  lemma {:induction false} SetFailsOnTheWay(m: Fields, path: seq<string>, value: Json)
    requires path != []
    ensures Set(m, path, value).None? <==> exists k :: 0 < k < |path| && Get(m, path[..k]).Found? && !Get(m, path[..k]).value.JObject?
    decreases |path|
  {
    if |path| > 1 {
      assert path[..1][0] == path[0];
      if path[0] in m && !m[path[0]].JObject? {
        assert Get(m, path[..1]) == Found(m[path[0]]);
      } else {
        var inner := if path[0] in m then m[path[0]].fields else map[];
        SetFailsOnTheWay(inner, path[1..], value);
        forall k | 1 < k < |path|
          ensures Get(m, path[..k]) == if path[0] in m then Get(inner, path[1..][..k - 1]) else Missing
        {
          assert path[..k][0] == path[0] && path[..k][1..] == path[1..][..k - 1];
        }
        if path[0] !in m {
          forall k | 0 < k < |path[1..]|
            ensures Get(inner, path[1..][..k]) == Missing
          {
            EmptyHasNothing(path[1..][..k]);
          }
        } else if k :| 0 < k < |path[1..]| && Get(inner, path[1..][..k]).Found? && !Get(inner, path[1..][..k]).value.JObject? {
          assert Get(m, path[..k + 1]).Found?;
        }
      }
    }
  }

  // ----------------------------------------------------------------- the scale

  datatype Paths = Paths(spec: string, status: string, selector: string)

  /** `resourceVersion` and the identity fields are read off the object's metadata. */
  datatype ScaleObject = ScaleObject(replicas: int, statusReplicas: int, selector: string, resourceVersion: string)

  /** None: the field is there and is not an integer, or something on the way is not an object. */
  function NestedInt(m: Fields, path: string): Option<Option<int>> {
    match Get(m, SplitReplicasPath(path))
    case Missing => Some(None)
    case Wrong => None
    case Found(v) => if v.JInt? then Some(Some(v.i)) else None
  }

  function NestedText(m: Fields, path: string): Option<string> {
    if path == "" then Some("")
    else match Get(m, SplitReplicasPath(path))
      case Missing => Some("")
      case Wrong => None
      case Found(v) => if v.JString? then Some(v.s) else None
  }

  function ResourceVersion(m: Fields): string {
    match Get(m, ["metadata", "resourceVersion"])
    case Found(v) => if v.JString? then v.s else ""
    case _ => ""
  }

  /** The scale read off an object, and whether spec replicas were found. */
  function ScaleOf(m: Fields, p: Paths): Option<(ScaleObject, bool)> {
    var spec, status, selector := NestedInt(m, p.spec), NestedInt(m, p.status), NestedText(m, p.selector);
    if spec.None? || status.None? || selector.None? then None
    else Some((ScaleObject(Int32(spec.value.GetOr(0)), Int32(status.value.GetOr(0)), selector.value, ResourceVersion(m)), spec.value.Some?))
  }

  /** The integer at a path: none when nothing is there. */
  predicate IntAt(m: Fields, path: seq<string>, i: Option<int>)
    requires path != []
  {
    if i.Some? then Get(m, path) == Found(JInt(i.value)) else Get(m, path) == Missing
  }

  /** The text at a path: empty when nothing is there. */
  predicate TextAt(m: Fields, path: seq<string>, s: string)
    requires path != []
  {
    Get(m, path) == Found(JString(s)) || (s == "" && Get(m, path) == Missing)
  }

  /**
   The scale that is read: replicas, status replicas and selector each from its own path, missing integers as zero, cast to int32; it is read exactly
   when there is an integer or nothing at both replica paths, and a text or nothing at the selector path, if there is one.
   */
  lemma {:induction false} ScaleIsRead(m: Fields, p: Paths, spec: Option<int>, status: Option<int>, selector: string, rv: string)
    ensures
      && IntAt(m, SplitReplicasPath(p.spec), spec) && IntAt(m, SplitReplicasPath(p.status), status)
      && (if p.selector == "" then selector == "" else TextAt(m, SplitReplicasPath(p.selector), selector))
      && (if Get(m, ["metadata", "resourceVersion"]).Found? && Get(m, ["metadata", "resourceVersion"]).value.JString?
          then Get(m, ["metadata", "resourceVersion"]) == Found(JString(rv)) else rv == "")
      ==> ScaleOf(m, p) == Some((ScaleObject(Int32(spec.GetOr(0)), Int32(status.GetOr(0)), selector, rv), spec.Some?))
    ensures ScaleOf(m, p).Some? ==>
      && (exists i :: IntAt(m, SplitReplicasPath(p.spec), i)) && (exists i :: IntAt(m, SplitReplicasPath(p.status), i))
      && (p.selector != "" ==> exists s :: TextAt(m, SplitReplicasPath(p.selector), s))
  {
    if ScaleOf(m, p).Some? {
      assert IntAt(m, SplitReplicasPath(p.spec), NestedInt(m, p.spec).value);
      assert IntAt(m, SplitReplicasPath(p.status), NestedInt(m, p.status).value);
      assert p.selector != "" ==> TextAt(m, SplitReplicasPath(p.selector), NestedText(m, p.selector).value);
    }
  }

  /** Sets a field of the metadata; a failure to do so is ignored. */
  function WithMetadata(m: Fields, field: string, value: Json): Fields {
    Set(m, ["metadata", field], value).GetOr(m)
  }

  lemma {:induction false} OnlyMetadata(m: Fields, field: string, value: Json)
    ensures forall k :: k != "metadata" ==> (k in WithMetadata(m, field, value) <==> k in m)
    ensures forall k :: k != "metadata" && k in m ==> WithMetadata(m, field, value)[k] == m[k]
  {
  }

  /** What the request makes of the old scale; replicas that were never set are marked as such. */
  function Requested(m: Fields, p: Paths, update: ScaleObject -> Option<ScaleObject>): Option<ScaleObject> {
    if ScaleOf(m, p).None? then None
    else
      var (seen, found) := ScaleOf(m, p).value;
      update(if found then seen else seen.(replicas := UNSET_REPLICAS))
  }

  /**
   The request is given the scale that was read, but with the smallest int32 for replicas where the object has none; so a request that
   leaves the replicas as it sees them asks for that, which is refused.
   */
  lemma {:induction false} RequestSees(m: Fields, p: Paths, update: ScaleObject -> Option<ScaleObject>)
    requires ScaleOf(m, p).Some?
    ensures var seen := ScaleOf(m, p).value.0;
      && (Get(m, SplitReplicasPath(p.spec)) == Missing ==> Requested(m, p, update) == update(seen.(replicas := -2147483648)))
      && (Get(m, SplitReplicasPath(p.spec)) != Missing ==> Requested(m, p, update) == update(seen))
  {
  }

  /**
   The object after a scale update. `update` is the request, given the old scale; None is a
   refused request. `managed` is what the managed fields become.
   */
  method UpdatedObject(m: Fields, p: Paths, update: ScaleObject -> Option<ScaleObject>, managed: Json) returns (r: Option<Fields>)
    ensures var request := Requested(m, p, update);
      r.Some? <==> request.Some? && request.value.replicas != -2147483648
                   && Set(m, SplitReplicasPath(p.spec), JInt(request.value.replicas)).Some?
    ensures r.Some? ==> IsScaled(m, p, Requested(m, p, update).value.replicas, r.value)
    ensures r.Some? && CanHold(r.value, "metadata") ==>
      var given := Requested(m, p, update).value.resourceVersion;
      && Get(r.value, ["metadata", "managedFields"]) == Found(managed)
      && (given != "" ==> Get(r.value, ["metadata", "resourceVersion"]) == Found(JString(given)))
      && (given == "" && SplitReplicasPath(p.spec)[0] != "metadata" ==>
            Get(r.value, ["metadata", "resourceVersion"]) == Get(m, ["metadata", "resourceVersion"]))
  {
    var read := ScaleOf(m, p);
    if read.None? {
      return None;
    }
    var (oldScale, replicasFound) := read.value;
    if !replicasFound {
      oldScale := oldScale.(replicas := UNSET_REPLICAS);
    }
    var scale := update(oldScale);
    if scale.None? || scale.value.replicas == UNSET_REPLICAS {
      return None;
    }
    var cr := Set(m, SplitReplicasPath(p.spec), JInt(scale.value.replicas));
    if cr.None? {
      return None;
    }
    var out := SetMetadata(cr.value, scale.value.resourceVersion, managed);
    if SplitReplicasPath(p.spec)[0] != "metadata" && CanHold(cr.value, "metadata") {
      SetKeepsOthers(m, SplitReplicasPath(p.spec), JInt(scale.value.replicas), "metadata");
    }
    return Some(out);
  }

  lemma {:induction false} SetKeepsOthers(m: Fields, path: seq<string>, value: Json, k: string)
    requires path != [] && Set(m, path, value).Some? && k != path[0]
    ensures k in Set(m, path, value).value <==> k in m
    ensures k in m ==> Set(m, path, value).value[k] == m[k]
  {
  }

  /** The resource version that the request names, if any, and the managed fields; where the metadata is no object both are left out. */
  method SetMetadata(m: Fields, resourceVersion: string, managed: Json) returns (out: Fields)
    ensures forall k :: k != "metadata" ==> (k in out <==> k in m) && (k in m ==> out[k] == m[k])
    ensures CanHold(out, "metadata") == CanHold(m, "metadata")
    ensures CanHold(m, "metadata") ==>
      && Get(out, ["metadata", "managedFields"]) == Found(managed)
      && Get(out, ["metadata", "resourceVersion"]) ==
           (if resourceVersion != "" then Found(JString(resourceVersion)) else Get(m, ["metadata", "resourceVersion"]))
  {
    out := m;
    if |resourceVersion| != 0 {
      OnlyMetadata(out, "resourceVersion", JString(resourceVersion));
      MetadataIsSet(out, "resourceVersion", JString(resourceVersion), "managedFields");
      out := WithMetadata(out, "resourceVersion", JString(resourceVersion));
    }
    OnlyMetadata(out, "managedFields", managed);
    MetadataIsSet(out, "managedFields", managed, "resourceVersion");
    out := WithMetadata(out, "managedFields", managed);
  }

  lemma {:induction false} MetadataIsSet(m: Fields, field: string, value: Json, other: string)
    requires other != field
    ensures CanHold(WithMetadata(m, field, value), "metadata") == CanHold(m, "metadata")
    ensures CanHold(m, "metadata") ==>
      && Get(WithMetadata(m, field, value), ["metadata", field]) == Found(value)
      && Get(WithMetadata(m, field, value), ["metadata", other]) == Get(m, ["metadata", other])
  {
    var inner := if "metadata" in m && m["metadata"].JObject? then m["metadata"].fields else map[];
    assert ["metadata", field][1..] == [field] && ["metadata", other][1..] == [other];
    if CanHold(m, "metadata") {
      assert Set(inner, [field], value) == Some(inner[field := value]);
      assert WithMetadata(m, field, value)["metadata"] == JObject(inner[field := value]);
    }
  }

  /** The field is missing or an object. */
  predicate CanHold(m: Fields, field: string) {
    field !in m || m[field].JObject?
  }

  /** The replicas are set at their path, and nothing else differs outside the metadata. */
  ghost predicate IsScaled(m: Fields, p: Paths, replicas: int, out: Fields) {
    var path := SplitReplicasPath(p.spec);
    && Set(m, path, JInt(replicas)).Some?
    && forall k :: k != "metadata" ==>
         (k in out <==> k in Set(m, path, JInt(replicas)).value)
         && (k in out ==> out[k] == Set(m, path, JInt(replicas)).value[k])
  }

  lemma {:induction false} SameOutsideMetadata(a: Fields, b: Fields, path: seq<string>)
    requires forall k :: k != "metadata" ==> (k in a <==> k in b) && (k in a ==> a[k] == b[k])
    requires path != [] && path[0] != "metadata"
    ensures Get(a, path) == Get(b, path)
  {
  }

  /**
   Put and get: the scale read back has the replicas that were asked for, and the status
   replicas and the selector it had; every other path outside the metadata reads as before.
   */
  lemma {:induction false} ScaleReadsBack(m: Fields, p: Paths, replicas: int, out: Fields, other: seq<string>)
    requires IsInt32(replicas) && ScaleOf(m, p).Some? && IsScaled(m, p, replicas, out)
    requires forall q :: q in [p.spec, p.status, p.selector] ==> SplitReplicasPath(q)[0] != "metadata"
    requires Apart(SplitReplicasPath(p.spec), SplitReplicasPath(p.status))
    requires p.selector != "" ==> Apart(SplitReplicasPath(p.spec), SplitReplicasPath(p.selector))
    requires other != [] && other[0] != "metadata" && Apart(SplitReplicasPath(p.spec), other)
    ensures ScaleOf(out, p).Some?
    ensures var before, after := ScaleOf(m, p).value.0, ScaleOf(out, p).value.0;
      && after.replicas == replicas && ScaleOf(out, p).value.1
      && after.statusReplicas == before.statusReplicas && after.selector == before.selector
    ensures Get(out, other) == Get(m, other)
  {
    var path := SplitReplicasPath(p.spec);
    var written := Set(m, path, JInt(replicas)).value;
    SetThenGet(m, path, JInt(replicas));
    assert p.spec in [p.spec, p.status, p.selector] && p.status in [p.spec, p.status, p.selector] && p.selector in [p.spec, p.status, p.selector];
    SameOutsideMetadata(out, written, path);
    SetElsewhere(m, path, JInt(replicas), SplitReplicasPath(p.status));
    SameOutsideMetadata(out, written, SplitReplicasPath(p.status));
    if p.selector != "" {
      SetElsewhere(m, path, JInt(replicas), SplitReplicasPath(p.selector));
      SameOutsideMetadata(out, written, SplitReplicasPath(p.selector));
    }
    SetElsewhere(m, path, JInt(replicas), other);
    SameOutsideMetadata(out, written, other);
  }

  /** The range check on a path. */
  predicate ReplicasValid(m: Fields, path: string) {
    var v := NestedInt(m, path);
    v.Some? && 0 <= v.value.GetOr(0) <= INT32_MAX
  }

  /** Where the range checks pass, neither cast loses anything and no stored value is taken for an unset one. */
  lemma {:induction false} ValidScaleIsLossless(m: Fields, p: Paths)
    requires ReplicasValid(m, p.spec) && ReplicasValid(m, p.status) && ScaleOf(m, p).Some?
    ensures var (s, found) := ScaleOf(m, p).value;
      && (found ==> Get(m, SplitReplicasPath(p.spec)) == Found(JInt(s.replicas)))
      && s.statusReplicas == NestedInt(m, p.status).value.GetOr(0)
      && s.replicas >= 0 && s.statusReplicas >= 0 && s.replicas != UNSET_REPLICAS
  {
    assert IsInt32(NestedInt(m, p.spec).value.GetOr(0)) && IsInt32(NestedInt(m, p.status).value.GetOr(0));
  }

  /**
   The three together: an update that went through and passes the range check at the spec path
   asked for replicas that fit, so the scale read back has exactly those, whatever `update` may be.
   */
  lemma {:induction false} ValidUpdateReadsBack(m: Fields, p: Paths, update: ScaleObject -> Option<ScaleObject>, out: Fields)
    requires Requested(m, p, update).Some? && IsScaled(m, p, Requested(m, p, update).value.replicas, out)
    requires forall q :: q in [p.spec, p.status, p.selector] ==> SplitReplicasPath(q)[0] != "metadata"
    requires Apart(SplitReplicasPath(p.spec), SplitReplicasPath(p.status))
    requires p.selector != "" ==> Apart(SplitReplicasPath(p.spec), SplitReplicasPath(p.selector))
    ensures var replicas := Requested(m, p, update).value.replicas;
      && Get(out, SplitReplicasPath(p.spec)) == Found(JInt(replicas))
      && (ReplicasValid(out, p.spec) <==> 0 <= replicas <= INT32_MAX)
      && (ReplicasValid(out, p.spec) ==>
            && ScaleOf(out, p).Some?
            && var before, after := ScaleOf(m, p).value.0, ScaleOf(out, p).value.0;
               && after.replicas == Int32(replicas) == replicas && replicas != UNSET_REPLICAS
               && after.statusReplicas == before.statusReplicas && after.selector == before.selector)
  {
    var path, replicas := SplitReplicasPath(p.spec), Requested(m, p, update).value.replicas;
    SetThenGet(m, path, JInt(replicas));
    assert p.spec in [p.spec, p.status, p.selector];
    SameOutsideMetadata(out, Set(m, path, JInt(replicas)).value, path);
    if ReplicasValid(out, p.spec) {
      assert p.status in [p.spec, p.status, p.selector];
      ScaleReadsBack(m, p, replicas, out, SplitReplicasPath(p.status));
    }
  }
}
