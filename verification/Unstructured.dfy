/**
 JSON values, unstructured Kubernetes objects and the accessors the apply-group code uses on them.
 Integers and other numbers are told apart as the object decoder does.
 */
module Unstructured {
  import opened Wrappers
  import opened Text

  datatype Json =
    | JNull
    | JBool(b: bool)
    | JInt(i: int)
    | JFloat(r: real)
    | JStr(s: string)
    | JArr(items: seq<Json>)
    | JObj(fields: Object)

  type Object = map<string, Json>

  /** The three results of a nested accessor: nothing there, a value, or something of another type. */
  datatype Lookup<+T> = Absent | Found(value: T) | WrongType

  /** NestedFieldNoCopy for a path of two fields; a null on the way counts as nothing there. */
  function Nested(o: Object, outer: string, field: string): Lookup<Json> {
    if outer !in o then Absent
    else match o[outer]
         case JNull => Absent
         case JObj(m) => if field in m then Found(m[field]) else Absent
         case _ => WrongType
  }

  function NestedString(o: Object, outer: string, field: string): Lookup<string> {
    match Nested(o, outer, field)
    case Absent => Absent
    case WrongType => WrongType
    case Found(v) => if v.JStr? then Found(v.s) else WrongType
  }

  function NestedBool(o: Object, outer: string, field: string): Lookup<bool> {
    match Nested(o, outer, field)
    case Absent => Absent
    case WrongType => WrongType
    case Found(v) => if v.JBool? then Found(v.b) else WrongType
  }

  function NestedInt64(o: Object, outer: string, field: string): Lookup<int> {
    match Nested(o, outer, field)
    case Absent => Absent
    case WrongType => WrongType
    case Found(v) => if v.JInt? then Found(v.i) else WrongType
  }

  /** A top-level string field, empty if it is missing or of another type. */
  function StringField(o: Object, field: string): string {
    if field in o && o[field].JStr? then o[field].s else ""
  }

  function MetaField(o: Object, field: string): string {
    var l := NestedString(o, "metadata", field);
    if l.Found? then l.value else ""
  }

  datatype Gvk = Gvk(group: string, version: string, kind: string)

  /** An API version with more than one slash makes the whole identity empty, the kind included. */
  function GvkOf(o: Object): Gvk {
    var apiVersion := StringField(o, "apiVersion");
    if apiVersion == "" || apiVersion == "/" then Gvk("", "", StringField(o, "kind"))
    else
      var parts := Split(apiVersion, '/');
      if |parts| == 1 then Gvk("", parts[0], StringField(o, "kind"))
      else if |parts| == 2 then Gvk(parts[0], parts[1], StringField(o, "kind"))
      else Gvk("", "", "")
  }

  /** Decoding refuses objects without a kind. */
  predicate HasKind(o: Object) { GvkOf(o).kind != "" }

  function GroupVersionString(group: string, version: string): string {
    if group != "" then group + "/" + version else version
  }

  function MetaOf(namespace: string, name: string): (meta: Object)
    ensures "namespace" in meta <==> namespace != ""
    ensures "name" in meta <==> name != ""
    ensures namespace != "" ==> meta["namespace"] == JStr(namespace)
    ensures name != "" ==> meta["name"] == JStr(name)
  {
    var withNamespace: Object := if namespace != "" then map["namespace" := JStr(namespace)] else map[];
    if name != "" then withNamespace["name" := JStr(name)] else withNamespace
  }

  /** What SetGroupVersionKind, SetNamespace and SetName leave in an empty object; empty names are not set. */
  function IdentityObject(gvk: Gvk, namespace: string, name: string): Object {
    var meta := MetaOf(namespace, name);
    var o: Object := map["apiVersion" := JStr(GroupVersionString(gvk.group, gvk.version)), "kind" := JStr(gvk.kind)];
    if meta == map[] then o else o["metadata" := JObj(meta)]
  }

  /** stripUnstructuredForDelete: only the identity of the object is kept. */
  function Strip(o: Object): Object {
    IdentityObject(GvkOf(o), MetaField(o, "namespace"), MetaField(o, "name"))
  }

  predicate Spells(p: Object, g: Gvk) {
    StringField(p, "apiVersion") == GroupVersionString(g.group, g.version) && StringField(p, "kind") == g.kind
  }

  lemma IdentityFields(gvk: Gvk, namespace: string, name: string)
    ensures var o := IdentityObject(gvk, namespace, name);
            && Spells(o, gvk)
            && MetaField(o, "namespace") == namespace && MetaField(o, "name") == name
            && o.Keys <= {"apiVersion", "kind", "metadata"}
  {
    var o := IdentityObject(gvk, namespace, name);
    var meta := MetaOf(namespace, name);
    if meta == map[] {
      assert "metadata" !in o && "namespace" !in meta && "name" !in meta;
    } else {
      assert o["metadata"] == JObj(meta);
    }
  }

  /** Parsing what String printed gives the group and version back, whatever they were. */
  lemma GroupVersionRoundTrip(o: Object)
    ensures forall p: Object :: Spells(p, GvkOf(o)) ==> GvkOf(p) == GvkOf(o)
  {
    var apiVersion := StringField(o, "apiVersion");
    var g := GvkOf(o);
    var printed := GroupVersionString(g.group, g.version);
    if apiVersion != "" && apiVersion != "/" {
      var parts := Split(apiVersion, '/');
      if |parts| == 1 {
        OnePart(apiVersion, '/');
      } else if |parts| == 2 {
        TwoParts(apiVersion, '/');
        PartsAreFree(apiVersion, '/', 0);
        PartsAreFree(apiVersion, '/', 1);
        SplitAt(parts[0], parts[1], '/');
        SplitWithout(parts[0], '/');
        SplitWithout(parts[1], '/');
        if g.group != "" { assert printed == apiVersion; }
      }
    }
  }

  /**
   A stripped object keeps kind, namespace and name, holds nothing else, and stripping it again
   changes nothing, so that the second strip before the delete call is harmless.
   */
  lemma StripKeepsIdentity(o: Object)
    ensures GvkOf(Strip(o)) == GvkOf(o)
    ensures MetaField(Strip(o), "namespace") == MetaField(o, "namespace")
    ensures MetaField(Strip(o), "name") == MetaField(o, "name")
    ensures Strip(o).Keys <= {"apiVersion", "kind", "metadata"}
    ensures Strip(Strip(o)) == Strip(o)
  {
    GroupVersionRoundTrip(o);
    IdentityFields(GvkOf(o), MetaField(o, "namespace"), MetaField(o, "name"));
  }

  /** Fields other than the identifying ones do not matter to the identity. */
  lemma OtherFieldsDoNotIdentify(o: Object, key: string, v: Json)
    requires key !in {"apiVersion", "kind", "metadata"}
    ensures GvkOf(o[key := v]) == GvkOf(o) && Strip(o[key := v]) == Strip(o)
  {
    var p := o[key := v];
    assert StringField(p, "apiVersion") == StringField(o, "apiVersion");
    assert StringField(p, "kind") == StringField(o, "kind");
    assert Nested(p, "metadata", "namespace") == Nested(o, "metadata", "namespace");
    assert Nested(p, "metadata", "name") == Nested(o, "metadata", "name");
  }
}
