/**
 Conversion of custom resources by a webhook: the items that need it are gathered from a
 list, sent, and the reply is scattered back to their places with their metadata restored.

 An object is a JSON object. How objects answer for their version, kind and name follows the
 unstructured types of k8s.io/apimachinery. The webhook is any function from the request's
 objects to a reply; validation of labels and annotations is a parameter.
 */
module WebhookConversion {
  import opened Crds
  import opened Schemas

  type Obj = map<string, Json>

  function GroupVersionString(gv: GroupVersion): string {
    if gv.group != "" then gv.group + "/" + gv.version else gv.version
  }

  function FirstSlash(s: string): (r: Option<nat>)
    ensures r.None? ==> '/' !in s
    ensures r.Some? ==> r.value < |s| && s[r.value] == '/' && '/' !in s[..r.value]
  {
    if s == "" then None
    else if s[0] == '/' then Some(0)
    else
      var r := FirstSlash(s[1..]);
      assert s == [s[0]] + s[1..];
      if r.None? then None
      else
        assert s[..r.value + 1] == [s[0]] + s[1..][..r.value];
        Some(r.value + 1)
  }

  /** None: more than one slash. */
  function ParseGroupVersion(s: string): Option<GroupVersion> {
    if s == "" || s == "/" then Some(GroupVersion("", ""))
    else
      var slash := FirstSlash(s);
      if slash.None? then Some(GroupVersion("", s))
      else if '/' in s[slash.value + 1..] then None
      else Some(GroupVersion(s[..slash.value], s[slash.value + 1..]))
  }

  /** A string field, or the empty string when it is missing or not a string. */
  function StringOf(o: Obj, field: string): string {
    if field in o && o[field].JString? then o[field].s else ""
  }

  function MetadataString(o: Obj, field: string): string {
    if "metadata" in o && o["metadata"].JObject? then StringOf(o["metadata"].fields, field) else ""
  }

  /** An apiVersion that does not parse leaves neither version nor kind. */
  function VersionOf(o: Obj): GroupVersion {
    ParseGroupVersion(StringOf(o, "apiVersion")).GetOr(GroupVersion("", ""))
  }

  function KindOf(o: Obj): string {
    if ParseGroupVersion(StringOf(o, "apiVersion")).None? then "" else StringOf(o, "kind")
  }

  /** A version with a group is written in one way only. */
  lemma {:induction false} ParsedVersionIsTheString(s: string, gv: GroupVersion)
    requires ParseGroupVersion(s) == Some(gv) && gv.group != ""
    ensures s == GroupVersionString(gv)
  {
    var slash := FirstSlash(s).value;
    assert s == s[..slash] + [s[slash]] + s[slash + 1..];
  }

  // ---------------------------------------------------------- one converted item

  /** What the reply holds in one place: an object, or something that does not decode to one. */
  datatype Element = Converted(o: Obj) | Unusable

  /** Whether a map of labels, or of annotations, is valid. */
  datatype Validators = Validators(labels: map<string, string> -> bool, annotations: map<string, string> -> bool)

  function ValidField(v: Validators, field: string, m: map<string, string>): bool {
    if field == "labels" then v.labels(m) else v.annotations(m)
  }

  predicate SameIdentity(original: Obj, converted: Obj) {
    && StringOf(original, "kind") == StringOf(converted, "kind")
    && MetadataString(original, "name") == MetadataString(converted, "name")
    && MetadataString(original, "namespace") == MetadataString(converted, "namespace")
    && MetadataString(original, "uid") == MetadataString(converted, "uid")
  }

  predicate AllStrings(m: Obj) {
    forall k :: k in m ==> m[k].JString?
  }

  function Strings(m: Obj): map<string, string>
    requires AllStrings(m)
  {
    map k | k in m :: m[k].s
  }

  /** A field that is missing or null. */
  predicate Absent(m: Obj, field: string) {
    field !in m || m[field].JNull?
  }

  function FieldMap(m: Obj, field: string): Obj {
    if field in m && m[field].JObject? then m[field].fields else map[]
  }

  /** The reply's field can be taken over: absent, or a map of strings that is the original's or valid. */
  predicate FieldAcceptable(original: Obj, reply: Obj, field: string, v: Validators) {
    || Absent(reply, field)
    || (&& reply[field].JObject?
        && (Absent(original, field) || original[field].JObject?)
        && AllStrings(FieldMap(reply, field))
        && (FieldMap(reply, field) == FieldMap(original, field) || ValidField(v, field, Strings(FieldMap(reply, field)))))
  }

  function TakeField(m: Obj, reply: Obj, field: string): Obj {
    if Absent(reply, field) then m - {field} else m[field := reply[field]]
  }

  /** The original's metadata; an object without any stands for empty metadata. */
  function OriginalMetadata(original: Obj): Option<Obj> {
    if "metadata" !in original then Some(map[])
    else if original["metadata"].JObject? then Some(original["metadata"].fields) else None
  }

  predicate Restorable(original: Obj, converted: Obj, v: Validators) {
    && "metadata" in converted && converted["metadata"].JObject?
    && OriginalMetadata(original).Some?
    && FieldAcceptable(OriginalMetadata(original).value, converted["metadata"].fields, "labels", v)
    && FieldAcceptable(OriginalMetadata(original).value, converted["metadata"].fields, "annotations", v)
  }

  function RestoredMetadata(original: Obj, converted: Obj): Obj
    requires OriginalMetadata(original).Some? && "metadata" in converted && converted["metadata"].JObject?
  {
    var reply := converted["metadata"].fields;
    TakeField(TakeField(OriginalMetadata(original).value, reply, "labels"), reply, "annotations")
  }

  function Restored(original: Obj, converted: Obj, v: Validators): Option<Obj> {
    if Restorable(original, converted, v) then Some(converted["metadata" := JObject(RestoredMetadata(original, converted))]) else None
  }

  /** The checks on one element of the reply, and the item it becomes. */
  function ItemOf(original: Obj, element: Element, target: GroupVersion, v: Validators): Option<Obj> {
    if element.Unusable? || VersionOf(element.o) != target || KindOf(original) != KindOf(element.o) || !SameIdentity(original, element.o)
    then None
    else Restored(original, element.o, v)
  }

  /** Exactly labels and annotations come from the reply, everything else in the metadata from the original. */
  lemma {:induction false} MetadataIsRestored(original: Obj, converted: Obj, v: Validators)
    requires Restored(original, converted, v).Some?
    ensures var o := Restored(original, converted, v).value;
      && "metadata" in o && o["metadata"].JObject?
      && (forall k :: k != "metadata" ==> (k in o <==> k in converted))
      && (forall k :: k != "metadata" && k in converted ==> o[k] == converted[k])
      && var m, before, reply := o["metadata"].fields, OriginalMetadata(original).value, converted["metadata"].fields;
         && (forall k :: k != "labels" && k != "annotations" ==> (k in m <==> k in before))
         && (forall k :: k != "labels" && k != "annotations" && k in before ==> m[k] == before[k])
         && (forall k :: k == "labels" || k == "annotations" ==> if Absent(reply, k) then k !in m else k in m && m[k] == reply[k])
  {
    var before, reply := OriginalMetadata(original).value, converted["metadata"].fields;
    TakeFieldEffect(before, reply, "labels");
    TakeFieldEffect(TakeField(before, reply, "labels"), reply, "annotations");
  }

  lemma {:induction false} TakeFieldEffect(m: Obj, reply: Obj, field: string)
    ensures var t := TakeField(m, reply, field);
      && (forall k :: k != field ==> (k in t <==> k in m))
      && (forall k :: k != field && k in m ==> t[k] == m[k])
      && (if Absent(reply, field) then field !in t else field in t && t[field] == reply[field])
  {
  }

  /** A converted item has the target version and the original's kind, name, namespace and UID. */
  lemma {:induction false} ItemKeepsIdentity(original: Obj, element: Element, target: GroupVersion, v: Validators)
    requires ItemOf(original, element, target, v).Some?
    ensures var o := ItemOf(original, element, target, v).value;
      && VersionOf(o) == target && KindOf(o) == KindOf(original) && SameIdentity(original, o)
      && (target.group != "" ==> StringOf(o, "apiVersion") == GroupVersionString(target))
  {
    var o := ItemOf(original, element, target, v).value;
    MetadataIsRestored(original, element.o, v);
    assert StringOf(o, "apiVersion") == StringOf(element.o, "apiVersion") && StringOf(o, "kind") == StringOf(element.o, "kind");
    RestoredNames(original, element.o, v, "name");
    RestoredNames(original, element.o, v, "namespace");
    RestoredNames(original, element.o, v, "uid");
    if target.group != "" {
      ParsedVersionIsTheString(StringOf(element.o, "apiVersion"), target);
    }
  }

  lemma {:induction false} RestoredNames(original: Obj, converted: Obj, v: Validators, field: string)
    requires Restored(original, converted, v).Some? && field != "labels" && field != "annotations"
    ensures MetadataString(Restored(original, converted, v).value, field) == MetadataString(original, field)
  {
    MetadataIsRestored(original, converted, v);
  }

  // ------------------------------------------------------- restoring metadata

  lemma {:induction false} SubsetOfSameSize(a: set<string>, b: set<string>)
    requires a <= b && |a| == |b|
    ensures a == b
  {
    if a != b {
      var x :| x in b && x !in a;
      SubsetSize(a, b - {x});
      assert false;
    }
  }

  lemma {:induction false} SubsetSize(a: set<string>, b: set<string>)
    requires a <= b
    ensures |a| <= |b|
  {
    if a != {} {
      var x :| x in a;
      SubsetSize(a - {x}, b - {x});
    }
  }

  /** Two maps of the same size are equal if every entry of one is in the other. */
  lemma {:induction false} NothingChanged(original: Obj, reply: Obj)
    requires |original| == |reply|
    requires forall k :: k in reply ==> k in original && original[k] == reply[k]
    ensures original == reply
  {
    SubsetOfSameSize(reply.Keys, original.Keys);
  }

  /** One of the two fields; validation is skipped only for a map that is the original's. */
  method RestoreField(m: Obj, reply: Obj, field: string, v: Validators) returns (r: Option<Obj>)
    ensures r == if FieldAcceptable(m, reply, field, v) then Some(TakeField(m, reply, field)) else None
  {
    if field !in reply || reply[field].JNull? {
      return Some(m - {field});
    }
    if !reply[field].JObject? {
      return None;
    }
    var responseField := reply[field].fields;
    if field in m && !m[field].JObject? && !m[field].JNull? {
      return None;
    }
    var originalField := FieldMap(m, field);
    var somethingChanged := |originalField| != |responseField|;
    var todo := responseField.Keys;
    while todo != {}
      invariant todo <= responseField.Keys
      invariant forall k :: k in responseField && k !in todo ==> responseField[k].JString?
      invariant somethingChanged ==> originalField != responseField
      invariant !somethingChanged ==> |originalField| == |responseField|
      invariant !somethingChanged ==> forall k :: k in responseField && k !in todo ==> k in originalField && originalField[k] == responseField[k]
      decreases |todo|
    {
      var k :| k in todo;
      if !responseField[k].JString? {
        return None;
      }
      if k !in originalField || originalField[k] != responseField[k] {
        somethingChanged := true;
      }
      todo := todo - {k};
    }
    if somethingChanged {
      var stringMap := Strings(responseField);
      if !ValidField(v, field, stringMap) {
        return None;
      }
    } else {
      NothingChanged(originalField, responseField);
    }
    return Some(m[field := JObject(responseField)]);
  }

  method RestoreObjectMeta(original: Obj, converted: Obj, v: Validators) returns (r: Option<Obj>)
    ensures r == Restored(original, converted, v)
  {
    if "metadata" !in converted || !converted["metadata"].JObject? {
      return None;
    }
    var responseMetadata := converted["metadata"].fields;
    var metadata: Obj := map[];
    if "metadata" in original {
      if !original["metadata"].JObject? {
        return None;
      }
      metadata := original["metadata"].fields;
    }
    var labelled := RestoreField(metadata, responseMetadata, "labels", v);
    if labelled.None? {
      return None;
    }
    TakeFieldEffect(metadata, responseMetadata, "labels");
    var annotated := RestoreField(labelled.value, responseMetadata, "annotations", v);
    if annotated.None? {
      return None;
    }
    return Some(converted["metadata" := JObject(annotated.value)]);
  }

  method CheckItem(original: Obj, element: Element, target: GroupVersion, v: Validators) returns (r: Option<Obj>)
    ensures r == ItemOf(original, element, target, v)
  {
    if element.Unusable? {
      return None;
    }
    if VersionOf(element.o) != target {
      return None;
    }
    if KindOf(original) != KindOf(element.o) {
      return None;
    }
    if !SameIdentity(original, element.o) {
      return None;
    }
    r := RestoreObjectMeta(original, element.o, v);
  }

  // ------------------------------------------------------- gather and scatter

  predicate AtTarget(o: Obj, target: GroupVersion) {
    StringOf(o, "apiVersion") == GroupVersionString(target)
  }

  /** The items that are sent, in order. */
  function Gather(items: seq<Obj>, target: GroupVersion): seq<Obj> {
    if items == [] then []
    else
      var last := items[|items| - 1];
      Gather(items[..|items| - 1], target) + if AtTarget(last, target) then [] else [last]
  }

  /** How many of the items before place i are sent: where item i is in the reply. */
  function Sent(items: seq<Obj>, target: GroupVersion, i: nat): nat
    requires i <= |items|
  {
    |Gather(items[..i], target)|
  }

  lemma {:induction false} GatherStep(items: seq<Obj>, target: GroupVersion, i: nat)
    requires i < |items|
    ensures Gather(items[..i + 1], target) == Gather(items[..i], target) + if AtTarget(items[i], target) then [] else [items[i]]
  {
    assert items[..i + 1][..i] == items[..i];
  }

  lemma {:induction false} GatherPrefix(items: seq<Obj>, target: GroupVersion, i: nat)
    requires i <= |items|
    ensures Gather(items[..i], target) <= Gather(items, target)
    decreases |items| - i
  {
    if i == |items| {
      assert items[..i] == items;
    } else {
      GatherStep(items, target, i);
      GatherPrefix(items, target, i + 1);
    }
  }

  /** An item that is sent is at its place in the request, which is inside any reply of the right length. */
  lemma {:induction false} SentItem(items: seq<Obj>, target: GroupVersion, i: nat)
    requires i < |items| && !AtTarget(items[i], target)
    ensures Sent(items, target, i) < |Gather(items, target)|
    ensures Gather(items, target)[Sent(items, target, i)] == items[i]
  {
    GatherStep(items, target, i);
    GatherPrefix(items, target, i + 1);
  }

  /** The item that place i gets from the elements of the reply. */
  function Place(items: seq<Obj>, elements: seq<Element>, target: GroupVersion, v: Validators, i: nat): Option<Obj>
    requires i < |items| && |elements| == |Gather(items, target)|
  {
    if AtTarget(items[i], target) then Some(items[i])
    else
      SentItem(items, target, i);
      ItemOf(items[i], elements[Sent(items, target, i)], target, v)
  }

  /** What a reply means: the elements of a review that answers this request and reports success. */
  datatype Reply = CallFailed | Review(expectedType: bool, response: Option<Response>)

  datatype Response = Response(uid: string, success: bool, objects: seq<Element>)

  function ElementsOf(version: string, uid: string, reply: Reply): Option<seq<Element>> {
    if reply.CallFailed? || (version == "v1" && !reply.expectedType) || reply.response.None?
       || (version == "v1" && reply.response.value.uid != uid) || !reply.response.value.success
    then None
    else Some(reply.response.value.objects)
  }

  predicate Supported(version: string) {
    version == "v1" || version == "v1beta1"
  }

  class UnstructuredList {
    var content: Obj
    var items: array<Obj>

    constructor (content: Obj, items: array<Obj>)
      ensures this.content == content && this.items == items
    {
      this.content, this.items := content, items;
    }

    method DeepCopy() returns (copied: UnstructuredList)
      ensures fresh(copied) && fresh(copied.items)
      ensures copied.content == content && copied.items[..] == items[..]
    {
      var copies := new Obj[items.Length](_ => map[]);
      for i := 0 to items.Length
        invariant forall j :: 0 <= j < i ==> copies[j] == items[j]
        invariant fresh(copies)
        modifies copies
      {
        copies[i] := items[i];
      }
      copied := new UnstructuredList(content, copies);
    }
  }

  method GetObjectsToConvert(list: UnstructuredList, target: GroupVersion) returns (objects: seq<Obj>)
    ensures objects == Gather(list.items[..], target)
  {
    objects := [];
    var items := list.items[..];
    for i := 0 to list.items.Length
      invariant objects == Gather(items[..i], target)
    {
      GatherStep(items, target, i);
      if StringOf(list.items[i], "apiVersion") != GroupVersionString(target) {
        objects := objects + [list.items[i]];
      }
    }
    assert items[..|items|] == items;
  }

  /** What a successful list conversion holds: for every item its place. */
  ghost predicate Scattered(items: seq<Obj>, elements: seq<Element>, target: GroupVersion, v: Validators, out: seq<Obj>) {
    && |elements| == |Gather(items, target)|
    && |out| == |items|
    && forall i :: 0 <= i < |items| ==> Place(items, elements, target, v, i) == Some(out[i])
  }

  /** Whether a reply can be used for all the items. */
  ghost predicate Usable(items: seq<Obj>, elements: Option<seq<Element>>, target: GroupVersion, v: Validators) {
    && elements.Some? && |elements.value| == |Gather(items, target)|
    && forall i :: 0 <= i < |items| ==> Place(items, elements.value, target, v, i).Some?
  }

  /** The review version a request is made in, when the list has a supported one. */
  function ChosenVersion(versions: seq<string>): Option<string> {
    if versions == [] then None else if Supported(versions[0]) then Some(versions[0]) else ChosenVersion(versions[1..])
  }

  /**
   Converts a list into a fresh one. The list that is given is never written to, whether the
   conversion succeeds or fails; it succeeds exactly when there is a review version and
   either nothing to send or a usable reply.
   */
  method ConvertList(list: UnstructuredList, target: GroupVersion, versions: seq<string>, uid: string,
                     webhook: seq<Obj> -> Reply, v: Validators) returns (r: Option<UnstructuredList>)
    ensures
      var items := list.items[..];
      var request := Gather(items, target);
      && (r.Some? <==>
            ChosenVersion(versions).Some?
            && (request == [] || Usable(items, ElementsOf(ChosenVersion(versions).value, uid, webhook(request)), target, v)))
      && (r.Some? ==>
            && r.value.content == list.content["apiVersion" := JString(GroupVersionString(target))]
            && (if request == [] then r.value.items[..] == items
                else Scattered(items, ElementsOf(ChosenVersion(versions).value, uid, webhook(request)).value, target, v, r.value.items[..])))
    ensures r.Some? ==> fresh(r.value) && fresh(r.value.items)
  {
    var objects := GetObjectsToConvert(list, target);
    var version := CreateReview(versions);
    if version.None? {
      return None;
    }
    if |objects| == 0 {
      var out := list.DeepCopy();
      out.content := out.content["apiVersion" := JString(GroupVersionString(target))];
      return Some(out);
    }
    var elements := ElementsOf(version.value, uid, webhook(objects));
    if elements.None? || |elements.value| != |objects| {
      return None;
    }
    var out := list.DeepCopy();
    var ok := FillIn(out, elements.value, target, v);
    if !ok {
      return None;
    }
    out.content := out.content["apiVersion" := JString(GroupVersionString(target))];
    return Some(out);
  }

  method CreateReview(versions: seq<string>) returns (r: Option<string>)
    ensures r == ChosenVersion(versions)
  {
    for i := 0 to |versions|
      invariant ChosenVersion(versions) == ChosenVersion(versions[i..])
    {
      if Supported(versions[i]) {
        return Some(versions[i]);
      }
      assert versions[i..][1..] == versions[i + 1..];
    }
    return None;
  }

  /** Fills the elements of the reply into a copy of the list; `convertedIndex` counts the items that were sent. */
  method FillIn(out: UnstructuredList, elements: seq<Element>, target: GroupVersion, v: Validators) returns (ok: bool)
    requires |elements| == |Gather(out.items[..], target)|
    modifies out.items
    ensures ok <==> Usable(old(out.items[..]), Some(elements), target, v)
    ensures ok ==> Scattered(old(out.items[..]), elements, target, v, out.items[..])
  {
    ghost var items := out.items[..];
    var convertedIndex := 0;
    for i := 0 to out.items.Length
      invariant convertedIndex == Sent(items, target, i)
      invariant forall j :: 0 <= j < i ==> Place(items, elements, target, v, j) == Some(out.items[j])
      invariant forall j :: i <= j < out.items.Length ==> out.items[j] == items[j]
    {
      var original := out.items[i];
      GatherStep(items, target, i);
      if StringOf(original, "apiVersion") != GroupVersionString(target) {
        SentItem(items, target, i);
        var converted := CheckItem(original, elements[convertedIndex], target, v);
        if converted.None? {
          assert Place(items, elements, target, v, i).None?;
          return false;
        }
        convertedIndex := convertedIndex + 1;
        out.items[i] := converted.value;
      }
      assert Place(items, elements, target, v, i) == Some(out.items[i]);
    }
    return true;
  }

  /**
   A webhook that answers object by object makes the list conversion work item by item: no
   item is lost, swapped or given another's answer.
   */
  lemma {:induction false} ListIsConvertedItemwise(items: seq<Obj>, elements: seq<Element>, target: GroupVersion, v: Validators,
                                                   out: seq<Obj>, answer: Obj -> Element, i: nat)
    requires Scattered(items, elements, target, v, out) && i < |items|
    requires forall j :: 0 <= j < |elements| ==> elements[j] == answer(Gather(items, target)[j])
    ensures if AtTarget(items[i], target) then out[i] == items[i] else ItemOf(items[i], answer(items[i]), target, v) == Some(out[i])
  {
    assert Place(items, elements, target, v, i) == Some(out[i]);
    if !AtTarget(items[i], target) {
      SentItem(items, target, i);
    }
  }

  /** Converting a converted list again sends nothing. */
  lemma {:induction false} ConvertedListIsAtTarget(items: seq<Obj>, elements: seq<Element>, target: GroupVersion, v: Validators, out: seq<Obj>)
    requires Scattered(items, elements, target, v, out) && target.group != ""
    ensures Gather(out, target) == []
  {
    forall i | 0 <= i < |out|
      ensures AtTarget(out[i], target)
    {
      assert Place(items, elements, target, v, i) == Some(out[i]);
      if !AtTarget(items[i], target) {
        SentItem(items, target, i);
        ItemKeepsIdentity(items[i], elements[Sent(items, target, i)], target, v);
      }
    }
    NothingToGather(out, target);
  }

  lemma {:induction false} NothingToGather(items: seq<Obj>, target: GroupVersion)
    requires forall i :: 0 <= i < |items| ==> AtTarget(items[i], target)
    ensures Gather(items, target) == []
  {
    if items != [] {
      NothingToGather(items[..|items| - 1], target);
    }
  }

  // ------------------------------------------------------------ single objects

  /** Nothing but apiVersion and kind. */
  predicate IsEmpty(o: Obj) {
    o.Keys == {"apiVersion", "kind"}
  }

  class Unstructured {
    var content: Obj

    constructor (content: Obj)
      ensures this.content == content
    {
      this.content := content;
    }
  }

  /**
   Converts one object. The object that is given is written to only when it is empty: then it
   is moved to the target version itself. The reply has to hold exactly one element.
   */
  method ConvertObject(input: Unstructured, target: GroupVersion, versions: seq<string>, uid: string,
                       webhook: seq<Obj> -> Reply, v: Validators) returns (r: Option<Unstructured>)
    modifies input
    ensures IsEmpty(old(input.content)) ==>
      r == Some(input)
      && input.content == map["apiVersion" := JString(GroupVersionString(target)), "kind" := JString(KindOf(old(input.content)))]
    ensures !IsEmpty(old(input.content)) ==>
      var o := old(input.content);
      && unchanged(input)
      && (ChosenVersion(versions).None? ==> r.None?)
      && (ChosenVersion(versions).Some? ==>
            if GroupVersionString(VersionOf(o)) == GroupVersionString(target) then r == Some(input)
            else
              var elements := ElementsOf(ChosenVersion(versions).value, uid, webhook([o]));
              if elements.Some? && |elements.value| == 1 && ItemOf(o, elements.value[0], target, v).Some?
              then r.Some? && fresh(r.value) && r.value.content == ItemOf(o, elements.value[0], target, v).value
              else r.None?)
  {
    KeysOfTwo(input.content.Keys);
    if |input.content| == 2 && "kind" in input.content && "apiVersion" in input.content {
      var kind := KindOf(input.content);
      input.content := input.content["apiVersion" := JString(GroupVersionString(target))];
      input.content := input.content["kind" := JString(kind)];
      return Some(input);
    }
    var version := CreateReview(versions);
    if version.None? {
      return None;
    }
    if GroupVersionString(VersionOf(input.content)) == GroupVersionString(target) {
      return Some(input);
    }
    var elements := ElementsOf(version.value, uid, webhook([input.content]));
    if elements.None? || |elements.value| != 1 {
      return None;
    }
    var converted := CheckItem(input.content, elements.value[0], target, v);
    if converted.None? {
      return None;
    }
    var out := new Unstructured(converted.value);
    return Some(out);
  }

  lemma {:induction false} KeysOfTwo(keys: set<string>)
    ensures |keys| == 2 && "kind" in keys && "apiVersion" in keys <==> keys == {"apiVersion", "kind"}
  {
    if |keys| == 2 && "kind" in keys && "apiVersion" in keys {
      SubsetOfSameSize({"apiVersion", "kind"}, keys);
    }
  }
}
