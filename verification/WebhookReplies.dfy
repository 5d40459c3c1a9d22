/**
 What the webhook converter takes from a reply, said about the JSON itself: which version strings it reads how, which
 reviews it uses, and which converted objects it accepts.
 */
module WebhookReplies {
  import opened Crds
  import opened Schemas
  import opened WebhookConversion

  // ----------------------------------------------------------- version strings

  predicate OneSlashAt(s: string, i: nat) {
    i < |s| && s[i] == '/' && forall j :: 0 <= j < |s| && s[j] == '/' ==> j == i
  }

  predicate ManySlashes(s: string) {
    exists i, j :: 0 <= i < j < |s| && s[i] == '/' && s[j] == '/'
  }

  /** How a version string is read: the group is what stands before its one slash; more slashes cannot be read. */
  ghost predicate ReadsAs(s: string, gv: GroupVersion) {
    || (s == "" && gv == GroupVersion("", ""))
    || (s == "/" && gv == GroupVersion("", ""))
    || (s != "/" && '/' !in s && gv == GroupVersion("", s))
    || (s != "/" && exists i: nat :: OneSlashAt(s, i) && gv == GroupVersion(s[..i], s[i + 1..]))
  }

  lemma {:induction false} SlashesAfterFirst(s: string, i: nat)
    requires i < |s| && s[i] == '/' && '/' !in s[..i]
    ensures '/' !in s[i + 1..] ==> OneSlashAt(s, i) && !ManySlashes(s)
    ensures '/' in s[i + 1..] ==> ManySlashes(s)
    ensures forall j: nat :: OneSlashAt(s, j) ==> j == i && '/' !in s[i + 1..]
  {
    assert forall j :: 0 <= j < i ==> s[j] == s[..i][j];
    assert forall j :: i < j < |s| ==> s[j] == s[i + 1..][j - i - 1];
    if '/' in s[i + 1..] {
      var k :| 0 <= k < |s[i + 1..]| && s[i + 1..][k] == '/';
      assert s[i + 1 + k] == '/';
    }
  }

  lemma {:induction false} ParsedAsRead(s: string, gv: GroupVersion)
    ensures ParseGroupVersion(s) == Some(gv) <==> ReadsAs(s, gv)
    ensures ParseGroupVersion(s).None? <==> ManySlashes(s)
  {
    var slash := FirstSlash(s);
    if slash.Some? {
      SlashesAfterFirst(s, slash.value);
    }
  }

  /** Printing a version and reading it again gives the version, as long as neither part holds a slash. */
  lemma {:induction false} PrintedVersionIsRead(gv: GroupVersion)
    requires '/' !in gv.group && '/' !in gv.version
    ensures ReadsAs(GroupVersionString(gv), gv) && ParseGroupVersion(GroupVersionString(gv)) == Some(gv)
  {
    var s := GroupVersionString(gv);
    if gv.group != "" {
      var i := |gv.group|;
      assert forall j :: 0 <= j < i ==> s[j] == gv.group[j];
      assert forall j :: i < j < |s| ==> s[j] == gv.version[j - i - 1];
      assert OneSlashAt(s, i) && s[..i] == gv.group && s[i + 1..] == gv.version;
    }
    ParsedAsRead(s, gv);
  }

  // ------------------------------------------------------------------ fields

  /** What a string field reads as: empty when it is missing or no string. */
  predicate FieldReads(o: Obj, field: string, s: string) {
    (field in o && o[field] == JString(s)) || (s == "" && (field !in o || !o[field].JString?))
  }

  predicate MetadataReads(o: Obj, field: string, s: string) {
    if "metadata" in o && o["metadata"].JObject? then FieldReads(o["metadata"].fields, field, s) else s == ""
  }

  lemma {:induction false} FieldsRead(o: Obj, field: string, s: string)
    ensures StringOf(o, field) == s <==> FieldReads(o, field, s)
    ensures MetadataString(o, field) == s <==> MetadataReads(o, field, s)
  {
  }

  // ---------------------------------------------------------------- reviews

  predicate IsFirstReview(versions: seq<string>, i: nat) {
    i < |versions| && (versions[i] == "v1" || versions[i] == "v1beta1") && forall j :: 0 <= j < i ==> versions[j] != "v1" && versions[j] != "v1beta1"
  }

  /** The review is made in the first version of the list that is v1 or v1beta1. */
  lemma {:induction false} ReviewVersionIsFirstSupported(versions: seq<string>, i: nat)
    ensures IsFirstReview(versions, i) ==> ChosenVersion(versions) == Some(versions[i])
    ensures ChosenVersion(versions).None? <==> "v1" !in versions && "v1beta1" !in versions
  {
    if versions != [] {
      assert versions == [versions[0]] + versions[1..];
      ReviewVersionIsFirstSupported(versions[1..], if i > 0 then i - 1 else 0);
      if IsFirstReview(versions, i) && i > 0 {
        assert forall j :: 0 <= j < i - 1 ==> versions[1..][j] == versions[j + 1];
      }
    }
  }

  /** A reply is used when it is a review with a response that says Success; in v1 it must also be a v1 review and answer this request. */
  lemma {:induction false} ReplyIsUsed(version: string, uid: string, reply: Reply, elements: seq<Element>)
    ensures ElementsOf(version, uid, reply) == Some(elements) <==>
      && reply.Review? && reply.response.Some? && reply.response.value.success && reply.response.value.objects == elements
      && (version == "v1" ==> reply.expectedType && reply.response.value.uid == uid)
  {
  }

  // --------------------------------------------------------- converted objects

  /** `m` is the map of strings that these fields are. */
  predicate AreStrings(fields: Obj, m: map<string, string>) {
    fields.Keys == m.Keys && forall k :: k in m ==> fields[k] == JString(m[k])
  }

  /**
   Labels or annotations may come as a map of strings: as it was, or a valid one. They may also be missing or null. What the
   original has there must be a map, null or missing.
   */
  ghost predicate TakesOver(before: Obj, reply: Obj, field: string, valid: map<string, string> -> bool) {
    || field !in reply || reply[field] == JNull
    || (&& reply[field].JObject?
        && (field in before ==> before[field] == JNull || before[field].JObject?)
        && exists m :: AreStrings(reply[field].fields, m)
             && (|| valid(m)
                 || (field in before && before[field] == reply[field])
                 || (reply[field].fields == map[] && (field !in before || before[field] == JNull))))
  }

  lemma {:induction false} FieldIsTakenOver(before: Obj, reply: Obj, field: string, v: Validators)
    ensures FieldAcceptable(before, reply, field, v) <==> TakesOver(before, reply, field, if field == "labels" then v.labels else v.annotations)
  {
    if field in reply && reply[field].JObject? {
      var fields := reply[field].fields;
      if AllStrings(fields) {
        assert AreStrings(fields, Strings(fields));
      }
      forall m | AreStrings(fields, m)
        ensures AllStrings(fields) && m == Strings(fields)
      {
      }
    }
  }

  /** The object says that it is of this version; what cannot be read says nothing. */
  ghost predicate IsOfVersion(o: Obj, gv: GroupVersion) {
    exists s :: FieldReads(o, "apiVersion", s) && (ReadsAs(s, gv) || (ManySlashes(s) && gv == GroupVersion("", "")))
  }

  ghost predicate HasUnreadableVersion(o: Obj) {
    exists s :: FieldReads(o, "apiVersion", s) && ManySlashes(s)
  }

  ghost predicate SameField(a: Obj, b: Obj, field: string) {
    exists s :: MetadataReads(a, field, s) && MetadataReads(b, field, s)
  }

  /**
   When an element of the reply can take the place of the original: it is an object of the target version, of the original's kind, name, namespace
   and UID, with metadata whose labels and annotations can be taken over. A kind beside a version that cannot be read does not count.
   */
  ghost predicate Replaces(original: Obj, element: Element, target: GroupVersion, v: Validators) {
    && element.Converted?
    && var o := element.o;
       && IsOfVersion(o, target)
       && (exists kind :: FieldReads(original, "kind", kind) && FieldReads(o, "kind", kind)
             && (kind == "" || (HasUnreadableVersion(original) <==> HasUnreadableVersion(o))))
       && SameField(original, o, "name") && SameField(original, o, "namespace") && SameField(original, o, "uid")
       && "metadata" in o && o["metadata"].JObject?
       && ("metadata" in original ==> original["metadata"].JObject?)
       && var before := if "metadata" in original then original["metadata"].fields else map[];
          && TakesOver(before, o["metadata"].fields, "labels", v.labels)
          && TakesOver(before, o["metadata"].fields, "annotations", v.annotations)
  }

  lemma {:induction false} VersionsAreRead(o: Obj, gv: GroupVersion)
    ensures VersionOf(o) == gv <==> IsOfVersion(o, gv)
    ensures HasUnreadableVersion(o) <==> ParseGroupVersion(StringOf(o, "apiVersion")).None?
  {
    var s := StringOf(o, "apiVersion");
    FieldsRead(o, "apiVersion", s);
    ParsedAsRead(s, gv);
    forall t | FieldReads(o, "apiVersion", t)
      ensures t == s
    {
      FieldsRead(o, "apiVersion", t);
    }
  }

  lemma {:induction false} KindsAreRead(a: Obj, b: Obj)
    ensures (KindOf(a) == KindOf(b) && StringOf(a, "kind") == StringOf(b, "kind")) <==>
      exists kind :: FieldReads(a, "kind", kind) && FieldReads(b, "kind", kind)
        && (kind == "" || (HasUnreadableVersion(a) <==> HasUnreadableVersion(b)))
  {
    VersionsAreRead(a, GroupVersion("", ""));
    VersionsAreRead(b, GroupVersion("", ""));
    FieldsRead(a, "kind", StringOf(a, "kind"));
    FieldsRead(b, "kind", StringOf(b, "kind"));
    forall kind | FieldReads(a, "kind", kind) && FieldReads(b, "kind", kind)
      ensures kind == StringOf(a, "kind") == StringOf(b, "kind")
    {
      FieldsRead(a, "kind", kind);
      FieldsRead(b, "kind", kind);
    }
  }

  lemma {:induction false} NamesAreRead(a: Obj, b: Obj, field: string)
    ensures MetadataString(a, field) == MetadataString(b, field) <==> SameField(a, b, field)
  {
    FieldsRead(a, field, MetadataString(a, field));
    FieldsRead(b, field, MetadataString(b, field));
    forall s | MetadataReads(a, field, s) && MetadataReads(b, field, s)
      ensures s == MetadataString(a, field) == MetadataString(b, field)
    {
      FieldsRead(a, field, s);
      FieldsRead(b, field, s);
    }
  }

  /** An element is accepted exactly when it can replace the original. */
  lemma {:induction false} AcceptedMeansReplaces(original: Obj, element: Element, target: GroupVersion, v: Validators)
    ensures ItemOf(original, element, target, v).Some? <==> Replaces(original, element, target, v)
  {
    if element.Converted? {
      var o := element.o;
      VersionsAreRead(o, target);
      KindsAreRead(original, o);
      NamesAreRead(original, o, "name");
      NamesAreRead(original, o, "namespace");
      NamesAreRead(original, o, "uid");
      if "metadata" in o && o["metadata"].JObject? && ("metadata" in original ==> original["metadata"].JObject?) {
        var before := if "metadata" in original then original["metadata"].fields else map[];
        FieldIsTakenOver(before, o["metadata"].fields, "labels", v);
        FieldIsTakenOver(before, o["metadata"].fields, "annotations", v);
      }
    }
  }

  /** What is put in the original's place: the reply with the original's metadata, where labels and annotations are the reply's. */
  lemma {:induction false} ReplacementReads(original: Obj, element: Element, target: GroupVersion, v: Validators)
    requires ItemOf(original, element, target, v).Some?
    ensures var out, o := ItemOf(original, element, target, v).value, element.o;
      && "metadata" in o && o["metadata"].JObject? && "metadata" in out && out["metadata"].JObject?
      && (forall k :: k != "metadata" ==> (k in out <==> k in o) && (k in o ==> out[k] == o[k]))
      && var before := if "metadata" in original && original["metadata"].JObject? then original["metadata"].fields else map[];
         var m, reply := out["metadata"].fields, o["metadata"].fields;
         forall k ::
           if k == "labels" || k == "annotations" then
             (if k in reply && reply[k] != JNull then k in m && m[k] == reply[k] else k !in m)
           else (k in m <==> k in before) && (k in before ==> m[k] == before[k])
  {
    MetadataIsRestored(original, element.o, v);
  }

  // -------------------------------------------------------------- the request

  /** What is not sent is what already has the target version, written as the program writes it. */
  lemma {:induction false} AtTargetReads(o: Obj, target: GroupVersion)
    ensures AtTarget(o, target) <==> FieldReads(o, "apiVersion", if target.group == "" then target.version else target.group + "/" + target.version)
  {
    FieldsRead(o, "apiVersion", GroupVersionString(target));
  }

  /** Everything in the request is an item that needs conversion, in the order of the list. */
  lemma {:induction false} RequestedItem(items: seq<Obj>, target: GroupVersion, k: nat) returns (i: nat)
    requires k < |Gather(items, target)|
    ensures i < |items| && !AtTarget(items[i], target) && Sent(items, target, i) == k && Gather(items, target)[k] == items[i]
  {
    var last := |items| - 1;
    if k < |Gather(items[..last], target)| {
      i := RequestedItem(items[..last], target, k);
      assert items[..last][..i] == items[..i];
      GatherPrefix(items, target, last);
    } else {
      i := last;
    }
  }

  lemma {:induction false} RequestKeepsOrder(items: seq<Obj>, target: GroupVersion, i: nat, j: nat)
    requires i < j < |items| && !AtTarget(items[i], target)
    ensures Sent(items, target, i) < Sent(items, target, j)
  {
    GatherStep(items, target, i);
    GatherPrefix(items[..j], target, i + 1);
    assert items[..j][..i + 1] == items[..i + 1];
  }
}
